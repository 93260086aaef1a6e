/** The charge-only-mode controller of charge_only_mode/main.c as functions on values: what each timer
    callback and each event does to the controller and which alarm calls it makes. */
module ChargeSpec {
  import opened ListSpec
  import opened AlarmTime
  import opened AlarmSpec

  const ANIMATION_TIMEOUT := 500
  const POWERUP_VOLTAGE := 3600000
  const HOLD := 1_000_000

  /** What the outside says during one callback or event: two readings of the clock, the device state,
      and whether a reboot request succeeded. */
  datatype Env = Env(now: Time, later: Time, voltage: int, ac: bool, usb: bool, rebootOk: bool)

  /** History of the power key and of what decides about it: pressed, released, a long press acted on
      (`armed` is the deadline of its alarm), and the voltage a power_event has read. */
  datatype KeyEvent = Down(at: Time) | Up | LongPress(at: Time, armed: Time) | Voltage(reading: int)

  datatype Ctl = Ctl(quit: bool, shutdown: bool, powerup: bool, blank: bool, keys: seq<KeyEvent>)

  datatype Event = PowerDown | PowerUp | VolumeDown | VolumeUp | Camera | Battery | Quit | Other

  const START: Ctl := Ctl(false, false, false, false, [])

  // ----- Bodies of main.c, each with the alarm calls it makes

  /** screen_brightness_animation_alarm2; a power-off that succeeds never comes back. */
  function Darken(c: Ctl): (Ctl, seq<Cmd>) {
    (c.(blank := true), [Stop(Animation)])
  }

  /** screen_brightness_animation_start. */
  function Lighten(c: Ctl, timeout: int, env: Env): (Ctl, seq<Cmd>) {
    (c.(blank := false), [Set(Bright1, 5000, env.now), Set(Animation, timeout, env.later)])
  }

  function PowerEvent(c: Ctl, env: Env): (Ctl, seq<Cmd>) {
    var c' := c.(powerup := env.voltage >= POWERUP_VOLTAGE, keys := c.keys + [Voltage(env.voltage)]);
    if !c'.shutdown && !env.ac && !env.usb then
      var (dark, cmds) := Darken(c'.(shutdown := true));
      (dark, [Stop(Bright2), Stop(Bright1)] + cmds)
    else (c', [])
  }

  /** The callback of alarm `a`, run by an alarm_process that read the clock as `due`. */
  function OnAlarm(c: Ctl, a: Alarm, due: Time, env: Env): (Ctl, seq<Cmd>) {
    match a.f
    case Animation =>
      var (c', cmds) := PowerEvent(c, env);
      (c', [Set(Animation, ANIMATION_TIMEOUT, env.now)] + cmds)
    case Bright2 => Darken(c)
    case Bright1 => (c, [Set(Bright2, 10000, env.now)])
    case PowerKey =>
      (c.(quit := c.quit || env.rebootOk, keys := c.keys + [LongPress(due, a.time)]),
       [Stop(Bright2), Stop(Bright1), Stop(Animation)])
  }

  /** The switch in main; only the power key looks at what was pending. */
  function OnEvent(c: Ctl, list: seq<Alarm>, ev: Event, env: Env): (Ctl, seq<Cmd>) {
    match ev
    case PowerDown =>
      (c.(keys := c.keys + [Down(env.now)]),
       if c.powerup then [Set(PowerKey, 1000, env.now)] else [])
    case PowerUp =>
      var up := c.(keys := c.keys + [Up]);
      var (c', cmds) := if Count(list, Bright1) > 0 then Darken(up) else Lighten(up, ANIMATION_TIMEOUT, env);
      (c', [Stop(PowerKey), Stop(Bright2), Stop(Animation), Stop(Bright1)] + cmds)
    case Battery => PowerEvent(c, env)
    case Quit => (c.(quit := true), [])
    case Other => (c, [])
    case _ =>
      var (c', cmds) := Lighten(c, ANIMATION_TIMEOUT, env);
      (c', [Stop(Bright2), Stop(Bright1), Stop(Animation)] + cmds)
  }

  // ----- The main loop

  /** One round of the loop: the clock when the delay is computed and when alarm_process starts, what
      each callback would meet, and the event ev_get would return. */
  datatype Input = Input(now: Time, entered: Time, envs: nat -> Env, ev: Event, env: Env)

  datatype Sys = Sys(ctl: Ctl, alarms: Alarms)

  predicate GoodEnv(env: Env, since: Time) {
    Normal(env.now) && Normal(env.later) && !Before(env.now, since) && !Before(env.later, env.now)
  }

  /** The clock does not go back within a round, and gettimeofday gives normalised times. */
  ghost predicate GoodInput(i: Input) {
    && Normal(i.now) && Normal(i.entered) && !Before(i.entered, i.now)
    && (forall k :: GoodEnv(i.envs(k), i.entered))
    && GoodEnv(i.env, i.now)
  }

  /** The controller and how many callbacks this alarm_process has run. */
  datatype World = World(ctl: Ctl, count: nat)

  function RunCallback(due: Time, envs: nat -> Env, w: World, a: Alarm): (World, seq<Cmd>) {
    var (c, cmds) := OnAlarm(w.ctl, a, due, envs(w.count));
    (World(c, w.count + 1), cmds)
  }

  /** The callbacks as alarm_process sees them. */
  function Callbacks(due: Time, envs: nat -> Env): Callback<World> {
    (w: World, a: Alarm) => RunCallback(due, envs, w, a)
  }

  lemma OnAlarmAhead(c: Ctl, a: Alarm, due: Time, env: Env)
    requires GoodEnv(env, due)
    ensures AllAhead(OnAlarm(c, a, due, env).1, due)
  {
    match a.f
    case Animation =>
      var (_, cmds) := PowerEvent(c, env);
      assert forall i :: 0 <= i < |cmds| ==> cmds[i].Stop?;
    case _ =>
  }

  lemma CallbacksTame(due: Time, envs: nat -> Env)
    requires Normal(due) && forall k :: GoodEnv(envs(k), due)
    ensures Tame(Callbacks(due, envs), due)
  {
    forall w, a ensures AllAhead(Callbacks(due, envs)(w, a).1, due) {
      OnAlarmAhead(w.ctl, a, due, envs(w.count));
    }
  }

  /** alarm_process. */
  ghost function Process(s: Sys, due: Time, envs: nat -> Env): Sys
    requires Normal(due) && forall k :: GoodEnv(envs(k), due)
  {
    CallbacksTame(due, envs);
    var (w, alarms, _) := Dispatch(World(s.ctl, 0), s.alarms, due, Callbacks(due, envs));
    Sys(w.ctl, alarms)
  }

  function Handle(s: Sys, ev: Event, env: Env): Sys {
    var (c, cmds) := OnEvent(s.ctl, s.alarms.list, ev, env);
    Sys(c, Exec(s.alarms, cmds))
  }

  /** One iteration of while (!quit). */
  ghost function Round(s: Sys, i: Input): Sys
    requires GoodInput(i)
  {
    if s.ctl.quit then s
    else if TimeUntilNext(s.alarms, i.now) < 1 then Process(s, i.entered, i.envs)
    else Handle(s, i.ev, i.env)
  }

  /** What main sets up before the loop. */
  function Boot(env: Env): Sys {
    var (c, cmds) := Lighten(START, 1500, env);
    Sys(c, Exec(Alarms([], 0), cmds))
  }

  ghost function Rounds(s: Sys, inputs: seq<Input>): Sys
    requires forall i :: 0 <= i < |inputs| ==> GoodInput(inputs[i])
    decreases |inputs|
  {
    if inputs == [] then s else Rounds(Round(s, inputs[0]), inputs[1..])
  }

  // ----- The timers

  /** At most one brightness timer, an animation timer exactly when there is one, none when blanked. */
  predicate TimersOk(c: Ctl, list: seq<Alarm>) {
    && Count(list, Bright1) + Count(list, Bright2) <= 1
    && Count(list, Animation) == Count(list, Bright1) + Count(list, Bright2)
    && (c.blank ==> Count(list, Animation) == 0)
  }

  lemma CountSet(s: Alarms, f: Fn, ms: int, at: Time, g: Fn)
    ensures Count(SetRelative(s, f, ms, at).list, g) == Count(s.list, g) + if f == g then 1 else 0
  {
    var a := Alarm(Deadline(at, ms), f, s.next);
    var k := IndexOf(s.list, Later(a.time));
    FilterInsert(s.list, k, a, Calling(g));
    FilterSplit(s.list, s.list[..k], s.list[k..], Calling(g));
  }

  lemma {:induction false} CountReject(list: seq<Alarm>, f: Fn, g: Fn)
    ensures Count(Reject(list, Calling(f)), g) == if f == g then 0 else Count(list, g)
  {
    if list != [] {
      CountReject(list[1..], f, g);
      var rest := Reject(list[1..], Calling(f));
      if !Calling(f)(list[0]) {
        assert ([list[0]] + rest)[1..] == rest;
      }
    }
  }

  /** Pending alarms of each kind after one call. */
  function CountAfter(n: nat, cmd: Cmd, g: Fn): nat {
    match cmd
    case Set(f, _, _) => if f == g then n + 1 else n
    case Stop(f) => if f == g then 0 else n
  }

  function CountAfterAll(n: nat, cmds: seq<Cmd>, g: Fn): nat
    decreases |cmds|
  {
    if cmds == [] then n else CountAfterAll(CountAfter(n, cmds[0], g), cmds[1..], g)
  }

  lemma {:induction false} CountExec(s: Alarms, cmds: seq<Cmd>, g: Fn)
    ensures Count(Exec(s, cmds).list, g) == CountAfterAll(Count(s.list, g), cmds, g)
    decreases |cmds|
  {
    if cmds != [] {
      match cmds[0] {
        case Set(f, ms, at) => CountSet(s, f, ms, at, g);
        case Stop(f) => CountReject(s.list, f, g);
      }
      CountExec(Perform(s, cmds[0]), cmds[1..], g);
    }
  }

  lemma {:induction false} CountAfterConcat(n: nat, a: seq<Cmd>, b: seq<Cmd>, g: Fn)
    ensures CountAfterAll(n, a + b, g) == CountAfterAll(CountAfterAll(n, a, g), b, g)
    decreases |a|
  {
    if a == [] {
      assert a + b == b;
    } else {
      assert (a + b)[1..] == a[1..] + b;
      CountAfterConcat(CountAfter(n, a[0], g), a[1..], b, g);
    }
  }

  lemma {:induction false} AfterOne(n: nat, a: Cmd, g: Fn)
    ensures CountAfterAll(n, [a], g) == CountAfter(n, a, g)
  {
    assert [a][1..] == [];
  }

  lemma {:induction false} AfterTwo(n: nat, a: Cmd, b: Cmd, g: Fn)
    ensures CountAfterAll(n, [a, b], g) == CountAfter(CountAfter(n, a, g), b, g)
  {
    assert [a, b][1..] == [b];
    AfterOne(CountAfter(n, a, g), b, g);
  }

  lemma {:induction false} AfterThree(n: nat, a: Cmd, b: Cmd, c: Cmd, g: Fn)
    ensures CountAfterAll(n, [a, b, c], g) == CountAfter(CountAfter(CountAfter(n, a, g), b, g), c, g)
  {
    assert [a, b, c][1..] == [b, c];
    AfterTwo(CountAfter(n, a, g), b, c, g);
  }

  lemma AfterPowerEvent(n: nat, c: Ctl, env: Env, g: Fn)
    ensures var (c', cmds) := PowerEvent(c, env);
      && CountAfterAll(n, cmds, g) == (if cmds != [] && g != PowerKey then 0 else n)
      && (if cmds == [] then c'.blank == c.blank else c'.blank)
  {
    var (c', cmds) := PowerEvent(c, env);
    if cmds != [] {
      assert cmds == [Stop(Bright2), Stop(Bright1), Stop(Animation)];
      AfterThree(n, Stop(Bright2), Stop(Bright1), Stop(Animation), g);
    }
  }

  /** What one callback does to the number of timers of kind `g`, its own having been popped. */
  lemma AfterAlarm(n: nat, c: Ctl, a: Alarm, due: Time, env: Env, g: Fn)
    ensures var (c', cmds) := OnAlarm(c, a, due, env);
      CountAfterAll(n, cmds, g) ==
        match a.f
        case Animation => if PowerEvent(c, env).1 != [] && g != PowerKey then 0 else if g == Animation then n + 1 else n
        case Bright1 => if g == Bright2 then n + 1 else n
        case Bright2 => if g == Animation then 0 else n
        case PowerKey => if g == PowerKey then n else 0
  {
    var (c', cmds) := OnAlarm(c, a, due, env);
    match a.f
    case Animation =>
      var again := Set(Animation, ANIMATION_TIMEOUT, env.now);
      AfterOne(n, again, g);
      CountAfterConcat(n, [again], PowerEvent(c, env).1, g);
      AfterPowerEvent(CountAfter(n, again, g), c, env, g);
    case Bright1 => AfterOne(n, cmds[0], g);
    case Bright2 => AfterOne(n, cmds[0], g);
    case PowerKey => AfterThree(n, cmds[0], cmds[1], cmds[2], g);
  }

  lemma PopCount(list: seq<Alarm>, g: Fn)
    requires list != []
    ensures Count(list, g) == Count(list[1..], g) + if list[0].f == g then 1 else 0
  {
  }

  /** Popping the head and running its callback keeps the timers in order. */
  lemma AlarmTimers(c: Ctl, s: Alarms, due: Time, env: Env)
    requires s.list != [] && TimersOk(c, s.list)
    ensures var (c', cmds) := OnAlarm(c, s.list[0], due, env);
      TimersOk(c', Exec(s.(list := s.list[1..]), cmds).list)
  {
    var a, rest := s.list[0], s.(list := s.list[1..]);
    var (c', cmds) := OnAlarm(c, a, due, env);
    forall g | g in {Animation, Bright1, Bright2}
      ensures Count(s.list, g) == Count(rest.list, g) + if a.f == g then 1 else 0
      ensures Count(Exec(rest, cmds).list, g) == CountAfterAll(Count(rest.list, g), cmds, g)
    {
      PopCount(s.list, g);
      CountExec(rest, cmds, g);
    }
    AfterAlarm(Count(rest.list, Animation), c, a, due, env, Animation);
    AfterAlarm(Count(rest.list, Bright1), c, a, due, env, Bright1);
    AfterAlarm(Count(rest.list, Bright2), c, a, due, env, Bright2);
    AfterPowerEvent(0, c, env, Animation);
  }

  lemma {:induction false} AfterLighten(n: nat, c: Ctl, timeout: int, env: Env, g: Fn)
    ensures CountAfterAll(n, Lighten(c, timeout, env).1, g) == if g == Bright1 || g == Animation then n + 1 else n
  {
    AfterTwo(n, Set(Bright1, 5000, env.now), Set(Animation, timeout, env.later), g);
  }

  /** What one event does to the number of timers of kind `g`. */
  lemma AfterEvent(n: nat, c: Ctl, list: seq<Alarm>, ev: Event, env: Env, g: Fn)
    requires g != PowerKey
    ensures var (c', cmds) := OnEvent(c, list, ev, env);
      CountAfterAll(n, cmds, g) ==
        match ev
        case PowerUp => if Count(list, Bright1) == 0 && g != Bright2 then 1 else 0
        case Battery => if PowerEvent(c, env).1 != [] then 0 else n
        case VolumeUp => if g == Bright2 then 0 else 1
        case VolumeDown => if g == Bright2 then 0 else 1
        case Camera => if g == Bright2 then 0 else 1
        case _ => n
  {
    var (c', cmds) := OnEvent(c, list, ev, env);
    match ev
    case PowerDown =>
      if c.powerup {
        AfterOne(n, cmds[0], g);
      }
    case PowerUp =>
      var up := c.(keys := c.keys + [Up]);
      var first, second := [Stop(PowerKey)], [Stop(Bright2), Stop(Animation), Stop(Bright1)];
      var last := if Count(list, Bright1) > 0 then Darken(up).1 else Lighten(up, ANIMATION_TIMEOUT, env).1;
      assert cmds == first + (second + last);
      CountAfterConcat(n, first, second + last, g);
      AfterOne(n, first[0], g);
      CountAfterConcat(n, second, last, g);
      AfterThree(n, second[0], second[1], second[2], g);
      AfterLighten(0, up, ANIMATION_TIMEOUT, env, g);
      AfterOne(0, Stop(Animation), g);
    case Battery => AfterPowerEvent(n, c, env, g);
    case Quit =>
    case Other =>
    case _ =>
      var first := [Stop(Bright2), Stop(Bright1), Stop(Animation)];
      CountAfterConcat(n, first, Lighten(c, ANIMATION_TIMEOUT, env).1, g);
      AfterThree(n, first[0], first[1], first[2], g);
      AfterLighten(0, c, ANIMATION_TIMEOUT, env, g);
  }

  lemma EventTimers(s: Sys, ev: Event, env: Env)
    requires TimersOk(s.ctl, s.alarms.list)
    ensures TimersOk(Handle(s, ev, env).ctl, Handle(s, ev, env).alarms.list)
  {
    var list := s.alarms.list;
    var (c', cmds) := OnEvent(s.ctl, list, ev, env);
    forall g | g in {Animation, Bright1, Bright2}
      ensures Count(Exec(s.alarms, cmds).list, g) == CountAfterAll(Count(list, g), cmds, g)
    {
      CountExec(s.alarms, cmds, g);
    }
    AfterEvent(Count(list, Animation), s.ctl, list, ev, env, Animation);
    AfterEvent(Count(list, Bright1), s.ctl, list, ev, env, Bright1);
    AfterEvent(Count(list, Bright2), s.ctl, list, ev, env, Bright2);
    AfterPowerEvent(0, s.ctl, env, Animation);
  }
}
