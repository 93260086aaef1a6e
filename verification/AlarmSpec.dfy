/** The alarm list of charge_only_mode/alarm.c on sequences, with callbacks that set and cancel alarms
    while the list is being dispatched. */
module AlarmSpec {
  import opened ListSpec
  import opened AlarmTime

  /** The callbacks main.c registers. */
  datatype Fn = Animation | Bright1 | Bright2 | PowerKey

  /** `id` tells apart alarms with the same deadline: it counts the calls of alarm_set_relative. */
  datatype Alarm = Alarm(time: Time, f: Fn, id: nat)

  datatype Alarms = Alarms(list: seq<Alarm>, next: nat)

  const NO_ALARM := 0x7fff_ffff

  function Later(time: Time): Alarm -> bool {
    (a: Alarm) => Before(time, a.time)
  }

  function Calling(f: Fn): Alarm -> bool {
    (a: Alarm) => a.f == f
  }

  function DueAt(now: Time): Alarm -> bool {
    (a: Alarm) => !Before(now, a.time)
  }

  function InsertAt(list: seq<Alarm>, a: Alarm): seq<Alarm> {
    var k := IndexOf(list, Later(a.time));
    list[..k] + [a] + list[k..]
  }

  /** alarm_set_relative, called at `now`. */
  function SetRelative(s: Alarms, f: Fn, ms: int, now: Time): Alarms {
    Alarms(InsertAt(s.list, Alarm(Deadline(now, ms), f, s.next)), s.next + 1)
  }

  /** alarm_cancel. */
  function Cancel(s: Alarms, f: Fn): Alarms {
    s.(list := Reject(s.list, Calling(f)))
  }

  function Count(list: seq<Alarm>, f: Fn): nat {
    |Filter(list, Calling(f))|
  }

  /** alarm_get_time_until_next. */
  function TimeUntilNext(s: Alarms, now: Time): int {
    if s.list == [] then NO_ALARM else Delay(s.list[0].time, now)
  }

  datatype Cmd = Set(f: Fn, ms: int, at: Time) | Stop(f: Fn)

  function Perform(s: Alarms, cmd: Cmd): Alarms {
    match cmd
    case Set(f, ms, at) => SetRelative(s, f, ms, at)
    case Stop(f) => Cancel(s, f)
  }

  function Exec(s: Alarms, cmds: seq<Cmd>): Alarms
    decreases |cmds|
  {
    if cmds == [] then s else Exec(Perform(s, cmds[0]), cmds[1..])
  }

  /** A set that cannot be due yet at `now`: the clock has not gone back and the delay is positive. */
  predicate Ahead(cmd: Cmd, now: Time) {
    cmd.Set? ==>
      Normal(cmd.at) && !Before(cmd.at, now) && 0 < cmd.ms && cmd.at.usec + cmd.ms * 1000 < INT_LIMIT
  }

  predicate AllAhead(cmds: seq<Cmd>, now: Time) {
    forall i :: 0 <= i < |cmds| ==> Ahead(cmds[i], now)
  }

  /** A callback sees and changes a world `W`, and gives the alarm calls it made. */
  type Callback<!W> = (W, Alarm) -> (W, seq<Cmd>)

  ghost predicate Tame<W(!new)>(cb: Callback<W>, now: Time) {
    Normal(now) && forall w, a :: AllAhead(cb(w, a).1, now)
  }

  function DuePart(list: seq<Alarm>, now: Time): seq<Alarm> {
    Filter(list, DueAt(now))
  }

  /** The loop of alarm_process, entered with the clock at `now`: the final world and list, and the
      alarms that fired. */
  ghost function Dispatch<W(!new)>(w: W, s: Alarms, now: Time, cb: Callback<W>): (W, Alarms, seq<Alarm>)
    requires Tame(cb, now)
    decreases |DuePart(s.list, now)|
  {
    if s.list == [] || Before(now, s.list[0].time) then (w, s, [])
    else
      var a, rest := s.list[0], s.(list := s.list[1..]);
      var (w', cmds) := cb(w, a);
      ExecDue(rest, cmds, now);
      var (w'', s'', fired) := Dispatch(w', Exec(rest, cmds), now, cb);
      (w'', s'', [a] + fired)
  }

  // ----- Order

  predicate Precedes(a: Alarm, b: Alarm) {
    Before(a.time, b.time) || (a.time == b.time && a.id < b.id)
  }

  /** Sorted by deadline, and among equal deadlines by the order in which they were set. */
  predicate Ordered(list: seq<Alarm>) {
    forall i, j :: 0 <= i < j < |list| ==> Precedes(list[i], list[j])
  }

  predicate Inv(s: Alarms) {
    Ordered(s.list) && forall i :: 0 <= i < |s.list| ==> s.list[i].id < s.next
  }

  lemma SetKeeps(s: Alarms, f: Fn, ms: int, now: Time)
    requires Inv(s)
    ensures Inv(SetRelative(s, f, ms, now))
  {
    var a := Alarm(Deadline(now, ms), f, s.next);
    var k := IndexOf(s.list, Later(a.time));
    var r := SetRelative(s, f, ms, now).list;
    assert forall i :: 0 <= i < |r| ==> r[i] == if i < k then s.list[i] else if i == k then a else s.list[i - 1];
    forall i, j | 0 <= i < j < |r| ensures Precedes(r[i], r[j]) {
      if i == k {
        assert Before(a.time, s.list[k].time);
      } else if j == k {
        assert !Later(a.time)(s.list[i]);
      }
    }
  }

  lemma {:induction false} RejectOrdered(list: seq<Alarm>, p: Alarm -> bool)
    requires Ordered(list)
    ensures Ordered(Reject(list, p))
  {
    if list != [] {
      RejectOrdered(list[1..], p);
      RejectMembers(list[1..], p);
      var r := Reject(list[1..], p);
      forall j | 0 <= j < |r| ensures Precedes(list[0], r[j]) {
        assert r[j] in list[1..];
      }
    }
  }

  lemma CancelKeeps(s: Alarms, f: Fn)
    requires Inv(s)
    ensures Inv(Cancel(s, f))
  {
    RejectOrdered(s.list, Calling(f));
    RejectMembers(s.list, Calling(f));
    var r := Cancel(s, f).list;
    forall i | 0 <= i < |r| ensures r[i].id < s.next {
      assert r[i] in s.list;
    }
  }

  lemma {:induction false} ExecKeeps(s: Alarms, cmds: seq<Cmd>)
    requires Inv(s)
    ensures Inv(Exec(s, cmds))
    decreases |cmds|
  {
    if cmds != [] {
      match cmds[0] {
        case Set(f, ms, at) => SetKeeps(s, f, ms, at);
        case Stop(f) => CancelKeeps(s, f);
      }
      ExecKeeps(Perform(s, cmds[0]), cmds[1..]);
    }
  }

  /** The list stays sorted and first-in-first-out whatever the callbacks do. */
  lemma {:induction false} DispatchKeeps<W(!new)>(w: W, s: Alarms, now: Time, cb: Callback<W>)
    requires Tame(cb, now) && Inv(s)
    ensures Inv(Dispatch(w, s, now, cb).1)
    decreases |DuePart(s.list, now)|
  {
    if s.list != [] && !Before(now, s.list[0].time) {
      var a, rest := s.list[0], s.(list := s.list[1..]);
      var (w', cmds) := cb(w, a);
      ExecKeeps(rest, cmds);
      ExecDue(rest, cmds, now);
      DispatchKeeps(w', Exec(rest, cmds), now, cb);
    }
  }

  // ----- What is due

  /** `a` can be had from `b` by leaving elements out. */
  predicate Subsequence<T(==)>(a: seq<T>, b: seq<T>)
    decreases |b|
  {
    if a == [] then true
    else if b == [] then false
    else if a[0] == b[0] && Subsequence(a[1..], b[1..]) then true
    else Subsequence(a, b[1..])
  }

  lemma {:induction false} SubsequenceSelf<T>(a: seq<T>)
    ensures Subsequence(a, a)
  {
    if a != [] {
      SubsequenceSelf(a[1..]);
    }
  }

  lemma {:induction false} SubsequenceShorter<T>(a: seq<T>, b: seq<T>)
    requires Subsequence(a, b)
    ensures |a| <= |b|
    ensures a != [] ==> Subsequence(a[1..], b)
    decreases |b|
  {
    if a != [] {
      if a[0] == b[0] && Subsequence(a[1..], b[1..]) {
        SubsequenceShorter(a[1..], b[1..]);
        SubsequenceSkip(a[1..], b);
      } else {
        SubsequenceShorter(a, b[1..]);
        SubsequenceSkip(a[1..], b);
      }
    }
  }

  lemma {:induction false} SubsequenceSkip<T>(a: seq<T>, b: seq<T>)
    requires b != [] && Subsequence(a, b[1..])
    ensures Subsequence(a, b)
  {
  }

  lemma {:induction false} SubsequenceTransitive<T>(a: seq<T>, b: seq<T>, c: seq<T>)
    requires Subsequence(a, b) && Subsequence(b, c)
    ensures Subsequence(a, c)
    decreases |b| + |c|
  {
    if a != [] {
      if b[0] == c[0] && Subsequence(b[1..], c[1..]) {
        if a[0] == b[0] && Subsequence(a[1..], b[1..]) {
          SubsequenceTransitive(a[1..], b[1..], c[1..]);
        } else {
          SubsequenceTransitive(a, b[1..], c[1..]);
        }
      } else {
        SubsequenceTransitive(a, b, c[1..]);
      }
    }
  }

  lemma {:induction false} RejectDue(list: seq<Alarm>, p: Alarm -> bool, now: Time)
    ensures Subsequence(DuePart(Reject(list, p), now), DuePart(list, now))
  {
    if list != [] {
      RejectDue(list[1..], p, now);
      var due, dueAfter := DuePart(list[1..], now), DuePart(Reject(list[1..], p), now);
      var r := Reject(list, p);
      if p(list[0]) {
        if DueAt(now)(list[0]) {
          assert ([list[0]] + due)[1..] == due;
        }
      } else {
        assert r[0] == list[0] && r[1..] == Reject(list[1..], p);
        if DueAt(now)(list[0]) {
          assert ([list[0]] + due)[1..] == due;
          assert ([list[0]] + dueAfter)[1..] == dueAfter;
        }
      }
    }
  }

  lemma AheadIsNotDue(cmd: Cmd, now: Time)
    requires Normal(now) && cmd.Set? && Ahead(cmd, now)
    ensures Normal(Deadline(cmd.at, cmd.ms)) && Before(now, Deadline(cmd.at, cmd.ms))
    ensures Micros(Deadline(cmd.at, cmd.ms)) == Micros(cmd.at) + cmd.ms * 1000
  {
    DeadlineExact(cmd.at, cmd.ms);
    BeforeIsLess(cmd.at, now);
    BeforeIsLess(now, Deadline(cmd.at, cmd.ms));
  }

  lemma InsertDue(list: seq<Alarm>, a: Alarm, now: Time)
    requires Before(now, a.time)
    ensures DuePart(InsertAt(list, a), now) == DuePart(list, now)
  {
    var k := IndexOf(list, Later(a.time));
    FilterInsert(list, k, a, DueAt(now));
    FilterSplit(list, list[..k], list[k..], DueAt(now));
  }

  /** Callbacks can only take alarms out of the due part. */
  lemma {:induction false} ExecDue(s: Alarms, cmds: seq<Cmd>, now: Time)
    requires Normal(now) && AllAhead(cmds, now)
    ensures Subsequence(DuePart(Exec(s, cmds).list, now), DuePart(s.list, now))
    ensures |DuePart(Exec(s, cmds).list, now)| <= |DuePart(s.list, now)|
    decreases |cmds|
  {
    if cmds == [] {
      SubsequenceSelf(DuePart(s.list, now));
    } else {
      var t := Perform(s, cmds[0]);
      match cmds[0] {
        case Set(f, ms, at) =>
          AheadIsNotDue(cmds[0], now);
          InsertDue(s.list, Alarm(Deadline(at, ms), f, s.next), now);
          SubsequenceSelf(DuePart(s.list, now));
        case Stop(f) =>
          RejectDue(s.list, Calling(f), now);
      }
      ExecDue(t, cmds[1..], now);
      SubsequenceTransitive(DuePart(Exec(s, cmds).list, now), DuePart(t.list, now), DuePart(s.list, now));
    }
    SubsequenceShorter(DuePart(Exec(s, cmds).list, now), DuePart(s.list, now));
  }

  /** In a sorted list what is due is a prefix. */
  lemma {:induction false} DueIsPrefix(list: seq<Alarm>, now: Time)
    requires Ordered(list)
    ensures DuePart(list, now) == list[..|DuePart(list, now)|]
  {
    if list != [] {
      DueIsPrefix(list[1..], now);
      if DueAt(now)(list[0]) {
        var n := |DuePart(list[1..], now)|;
        assert list[..n + 1] == [list[0]] + list[1..][..n];
      } else {
        forall i | 0 <= i < |list| ensures !DueAt(now)(list[i]) {
          assert i > 0 ==> Precedes(list[0], list[i]);
        }
        NothingDue(list, now);
      }
    }
  }

  lemma {:induction false} NothingDue(list: seq<Alarm>, now: Time)
    requires forall i :: 0 <= i < |list| ==> Before(now, list[i].time)
    ensures DuePart(list, now) == []
  {
    if list != [] {
      NothingDue(list[1..], now);
    }
  }

  /** One alarm_process fires, in order, a subsequence of the alarms due when it was entered, which are
      a prefix of the list, and leaves nothing due. */
  lemma {:induction false} DispatchFires<W(!new)>(w: W, s: Alarms, now: Time, cb: Callback<W>)
    requires Tame(cb, now) && Inv(s)
    ensures var (w', s', fired) := Dispatch(w, s, now, cb);
      && Subsequence(fired, DuePart(s.list, now))
      && DuePart(s.list, now) <= s.list
      && (forall i :: 0 <= i < |s'.list| ==> Before(now, s'.list[i].time))
    decreases |DuePart(s.list, now)|
  {
    DueIsPrefix(s.list, now);
    if s.list == [] {
    } else if Before(now, s.list[0].time) {
      forall i | 0 <= i < |s.list| ensures Before(now, s.list[i].time) {
        assert i > 0 ==> Precedes(s.list[0], s.list[i]);
      }
    } else {
      var a, rest := s.list[0], s.(list := s.list[1..]);
      var (w', cmds) := cb(w, a);
      var t := Exec(rest, cmds);
      ExecKeeps(rest, cmds);
      ExecDue(rest, cmds, now);
      DispatchFires(w', t, now, cb);
      var fired := Dispatch(w', t, now, cb).2;
      SubsequenceTransitive(fired, DuePart(t.list, now), DuePart(rest.list, now));
      assert DuePart(s.list, now) == [a] + DuePart(rest.list, now);
      assert ([a] + fired)[1..] == fired;
      assert ([a] + DuePart(rest.list, now))[1..] == DuePart(rest.list, now);
    }
  }
}
