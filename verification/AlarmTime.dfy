/** The struct timeval arithmetic of charge_only_mode/alarm.c, in 32-bit two's complement. */
module AlarmTime {

  datatype Time = Time(sec: int, usec: int)

  const SECOND := 1_000_000
  const INT_LIMIT := 0x8000_0000
  const INT_RANGE := 0x1_0000_0000

  predicate Normal(t: Time) {
    0 <= t.usec < SECOND
  }

  function Micros(t: Time): int {
    t.sec * SECOND + t.usec
  }

  /** The comparison of alarm_process and alarm_set_relative. */
  predicate Before(t: Time, u: Time) {
    t.sec < u.sec || (t.sec == u.sec && t.usec < u.usec)
  }

  predicate IsInt(x: int) {
    -INT_LIMIT <= x < INT_LIMIT
  }

  function Wrap(x: int): int {
    (x + INT_LIMIT) % INT_RANGE - INT_LIMIT
  }

  /** Microseconds to milliseconds by C division, which cuts towards zero. */
  function Millis(us: int): int {
    if us >= 0 then us / 1000 else -((-us) / 1000)
  }

  /** What alarm_set_relative stores. */
  function Deadline(now: Time, ms: int): Time {
    var usec := Wrap(now.usec + Wrap(ms * 1000));
    if usec >= SECOND then Time(now.sec + usec / SECOND, usec % SECOND) else Time(now.sec, usec)
  }

  /** alarm_get_time_until_next, before and after it is cut to an int. */
  function ExactDelay(deadline: Time, now: Time): int {
    (deadline.sec - now.sec) * 1000 + Millis(deadline.usec - now.usec)
  }

  function Delay(deadline: Time, now: Time): int {
    Wrap(ExactDelay(deadline, now))
  }

  lemma WrapIs(x: int)
    ensures IsInt(Wrap(x)) && (Wrap(x) == x <==> IsInt(x))
    ensures exists k :: Wrap(x) == x + k * INT_RANGE
  {
    assert Wrap(x) == x + (-((x + INT_LIMIT) / INT_RANGE)) * INT_RANGE;
  }

  lemma WrapSum(a: int, b: int)
    ensures Wrap(a + Wrap(b)) == Wrap(a + b)
  {
    var k := (b + INT_LIMIT) / INT_RANGE;
    assert Wrap(b) == b - k * INT_RANGE;
    ModShift(a + b + INT_LIMIT, -k);
  }

  lemma ModShift(x: int, k: int)
    ensures (x + k * INT_RANGE) % INT_RANGE == x % INT_RANGE
  {
    var q := x / INT_RANGE;
    assert x + k * INT_RANGE == (q + k) * INT_RANGE + x % INT_RANGE;
  }

  lemma BeforeIsLess(t: Time, u: Time)
    requires Normal(t) && Normal(u)
    ensures Before(t, u) <==> Micros(t) < Micros(u)
  {
  }

  /** A deadline is normalised and exactly `ms` away precisely when the sum of the microseconds is
      not negative and fits an int. */
  lemma DeadlineExact(now: Time, ms: int)
    requires Normal(now)
    ensures Normal(Deadline(now, ms)) && Micros(Deadline(now, ms)) == Micros(now) + ms * 1000
            <==> 0 <= now.usec + ms * 1000 < INT_LIMIT
  {
    var sum := now.usec + ms * 1000;
    WrapSum(now.usec, ms * 1000);
    WrapIs(sum);
  }

  lemma MillisNear(us: int)
    ensures -1000 < Millis(us) * 1000 - us < 1000
    ensures us <= 0 ==> Millis(us) <= 0
    ensures us < SECOND ==> Millis(us) <= 999
  {
  }

  /** The delay is within a millisecond of the true remaining time precisely when that time, cut to
      milliseconds, fits an int. */
  lemma DelayAccurate(deadline: Time, now: Time)
    requires Normal(deadline) && Normal(now)
    ensures -1000 < Delay(deadline, now) * 1000 - (Micros(deadline) - Micros(now)) < 1000
            <==> IsInt(ExactDelay(deadline, now))
  {
    var exact := ExactDelay(deadline, now);
    MillisNear(deadline.usec - now.usec);
    WrapIs(exact);
    var k :| Delay(deadline, now) == exact + k * INT_RANGE;
  }

  /** An alarm that is due has no time left, and the main loop sees a delay below 1 precisely when its
      lateness in milliseconds, modulo 2^32, is at most 2^31: up to 24 days late, for instance. */
  lemma OverdueDelay(deadline: Time, now: Time)
    requires Normal(deadline) && Normal(now) && !Before(now, deadline)
    ensures ExactDelay(deadline, now) <= 0
    ensures Delay(deadline, now) < 1 <==> (-ExactDelay(deadline, now)) % INT_RANGE <= INT_LIMIT
    ensures IsInt(ExactDelay(deadline, now)) ==> Delay(deadline, now) <= 0
  {
    var exact := ExactDelay(deadline, now);
    MillisNear(deadline.usec - now.usec);
    WrapIs(exact);
    var late := -exact;
    var q, m := late / INT_RANGE, late % INT_RANGE;
    ModShift(INT_LIMIT - m, -q);
    assert exact + INT_LIMIT == INT_LIMIT - m + (-q) * INT_RANGE;
  }

  /** Twenty-five days late is too late: the delay comes out positive and the alarm is not dispatched. */
  lemma TooLate()
    ensures var deadline, now := Time(0, 0), Time(2_160_000, 0);
      !Before(now, deadline) && Delay(deadline, now) > 0
  {
  }
}
