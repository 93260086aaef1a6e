/** What the key, battery and timer handlers of charge_only_mode/main.c leave pending, said of the deadlines
    themselves and of the device readings, and that a key held long enough is acted on. */
module ChargeTimers {
  import opened ListSpec
  import opened AlarmTime
  import opened AlarmSpec
  import opened ChargeSpec
  import opened ChargeSafety

  /** When the pending alarms of callback `f` are due, in microseconds. */
  function Deadlines(list: seq<Alarm>, f: Fn): multiset<int> {
    if list == [] then multiset{}
    else Deadlines(list[1..], f) + if list[0].f == f then multiset{Micros(list[0].time)} else multiset{}
  }

  lemma {:induction false} DeadlinesConcat(a: seq<Alarm>, b: seq<Alarm>, f: Fn)
    ensures Deadlines(a + b, f) == Deadlines(a, f) + Deadlines(b, f)
  {
    if a == [] {
      assert a + b == b;
    } else {
      assert (a + b)[0] == a[0] && (a + b)[1..] == a[1..] + b;
      DeadlinesConcat(a[1..], b, f);
    }
  }

  lemma {:induction false} DeadlinesCancel(list: seq<Alarm>, g: Fn, f: Fn)
    ensures Deadlines(Reject(list, Calling(g)), f) == if g == f then multiset{} else Deadlines(list, f)
  {
    if list != [] {
      DeadlinesCancel(list[1..], g, f);
      if !Calling(g)(list[0]) {
        var rest := Reject(list[1..], Calling(g));
        assert ([list[0]] + rest)[0] == list[0] && ([list[0]] + rest)[1..] == rest;
      }
    }
  }

  lemma {:induction false} DeadlinesCount(list: seq<Alarm>, f: Fn)
    ensures |Deadlines(list, f)| == Count(list, f)
  {
    if list != [] {
      DeadlinesCount(list[1..], f);
    }
  }

  lemma {:induction false} DeadlinesInsert(list: seq<Alarm>, k: nat, a: Alarm, f: Fn)
    requires k <= |list|
    ensures Deadlines(list[..k] + [a] + list[k..], f) ==
            Deadlines(list, f) + if a.f == f then multiset{Micros(a.time)} else multiset{}
  {
    DeadlinesConcat(list[..k] + [a], list[k..], f);
    DeadlinesConcat(list[..k], [a], f);
    DeadlinesConcat(list[..k], list[k..], f);
    assert list[..k] + list[k..] == list;
    assert [a][1..] == [];
  }

  /** The deadlines of `f` after one alarm call. */
  function Changed(d: multiset<int>, cmd: Cmd, f: Fn): multiset<int> {
    match cmd
    case Set(g, ms, at) => if g == f then d + multiset{Micros(at) + ms * 1000} else d
    case Stop(g) => if g == f then multiset{} else d
  }

  function ChangedBy(d: multiset<int>, cmds: seq<Cmd>, f: Fn): multiset<int>
    decreases |cmds|
  {
    if cmds == [] then d else ChangedBy(Changed(d, cmds[0], f), cmds[1..], f)
  }

  lemma {:induction false} PerformChanges(s: Alarms, cmd: Cmd, now: Time, f: Fn)
    requires Normal(now) && Ahead(cmd, now)
    ensures Deadlines(Perform(s, cmd).list, f) == Changed(Deadlines(s.list, f), cmd, f)
  {
    match cmd
    case Set(g, ms, at) =>
      AheadIsNotDue(cmd, now);
      var a := Alarm(Deadline(at, ms), g, s.next);
      DeadlinesInsert(s.list, IndexOf(s.list, Later(a.time)), a, f);
    case Stop(g) => DeadlinesCancel(s.list, g, f);
  }

  lemma {:induction false} ExecChanges(s: Alarms, cmds: seq<Cmd>, now: Time, f: Fn)
    requires Normal(now) && AllAhead(cmds, now)
    ensures Deadlines(Exec(s, cmds).list, f) == ChangedBy(Deadlines(s.list, f), cmds, f)
    decreases |cmds|
  {
    if cmds != [] {
      PerformChanges(s, cmds[0], now, f);
      ExecChanges(Perform(s, cmds[0]), cmds[1..], now, f);
    }
  }

  lemma {:induction false} ChangedConcat(d: multiset<int>, a: seq<Cmd>, b: seq<Cmd>, f: Fn)
    ensures ChangedBy(d, a + b, f) == ChangedBy(ChangedBy(d, a, f), b, f)
    decreases |a|
  {
    if a == [] {
      assert a + b == b;
    } else {
      assert (a + b)[0] == a[0] && (a + b)[1..] == a[1..] + b;
      ChangedConcat(Changed(d, a[0], f), a[1..], b, f);
    }
  }

  lemma {:induction false} ChangedOne(d: multiset<int>, a: Cmd, f: Fn)
    ensures ChangedBy(d, [a], f) == Changed(d, a, f)
  {
    assert [a][1..] == [];
  }

  lemma {:induction false} ChangedTwo(d: multiset<int>, a: Cmd, b: Cmd, f: Fn)
    ensures ChangedBy(d, [a, b], f) == Changed(Changed(d, a, f), b, f)
  {
    assert [a, b][1..] == [b];
    ChangedOne(Changed(d, a, f), b, f);
  }

  lemma {:induction false} ChangedThree(d: multiset<int>, a: Cmd, b: Cmd, c: Cmd, f: Fn)
    ensures ChangedBy(d, [a, b, c], f) == Changed(Changed(Changed(d, a, f), b, f), c, f)
  {
    assert [a, b, c][1..] == [b, c];
    ChangedTwo(Changed(d, a, f), b, c, f);
  }

  // ----- The display cycle

  /** A lit display: bright for five seconds from `now`, the next animation step half a second from `later`. */
  function Lit(env: Env, f: Fn): multiset<int> {
    match f
    case Bright1 => multiset{Micros(env.now) + 5_000_000}
    case Animation => multiset{Micros(env.later) + 500_000}
    case _ => multiset{}
  }

  /** The charger has just been unplugged. */
  predicate Unplugged(c: Ctl, env: Env) {
    !c.shutdown && !env.ac && !env.usb
  }

  lemma {:induction false} PowerChanges(d: multiset<int>, c: Ctl, env: Env, f: Fn)
    ensures ChangedBy(d, PowerEvent(c, env).1, f) == if Unplugged(c, env) && f != PowerKey then multiset{} else d
  {
    var cmds := PowerEvent(c, env).1;
    if Unplugged(c, env) {
      assert cmds == [Stop(Bright2), Stop(Bright1), Stop(Animation)];
      ChangedThree(d, Stop(Bright2), Stop(Bright1), Stop(Animation), f);
    }
  }

  lemma {:induction false} LightenChanges(d: multiset<int>, c: Ctl, env: Env, f: Fn)
    requires d == multiset{} || f == PowerKey
    ensures ChangedBy(d, Lighten(c, ANIMATION_TIMEOUT, env).1, f) == if f == PowerKey then d else Lit(env, f)
  {
    ChangedTwo(d, Set(Bright1, 5000, env.now), Set(Animation, ANIMATION_TIMEOUT, env.later), f);
  }

  lemma {:induction false} ThreeStops(d: multiset<int>, a: Fn, b: Fn, c: Fn, f: Fn)
    ensures ChangedBy(d, [Stop(a), Stop(b), Stop(c)], f) == if f == a || f == b || f == c then multiset{} else d
  {
    ChangedThree(d, Stop(a), Stop(b), Stop(c), f);
  }

  lemma {:induction false} WakeChanges(d: multiset<int>, c: Ctl, env: Env, f: Fn)
    ensures ChangedBy(d, [Stop(Bright2), Stop(Bright1), Stop(Animation)] + Lighten(c, ANIMATION_TIMEOUT, env).1, f) ==
            if f == PowerKey then d else Lit(env, f)
  {
    var stops := [Stop(Bright2), Stop(Bright1), Stop(Animation)];
    ChangedConcat(d, stops, Lighten(c, ANIMATION_TIMEOUT, env).1, f);
    ThreeStops(d, Bright2, Bright1, Animation, f);
    LightenChanges(ChangedBy(d, stops, f), c, env, f);
  }

  lemma {:induction false} ReleaseChanges(d: multiset<int>, c: Ctl, list: seq<Alarm>, env: Env, f: Fn)
    ensures ChangedBy(d, OnEvent(c, list, PowerUp, env).1, f) ==
            if f == PowerKey || Count(list, Bright1) > 0 then multiset{} else Lit(env, f)
  {
    var up := c.(keys := c.keys + [Up]);
    var first, second := [Stop(PowerKey)], [Stop(Bright2), Stop(Animation), Stop(Bright1)];
    var last := if Count(list, Bright1) > 0 then Darken(up).1 else Lighten(up, ANIMATION_TIMEOUT, env).1;
    assert OnEvent(c, list, PowerUp, env).1 == first + (second + last);
    ChangedConcat(d, first, second + last, f);
    ChangedOne(d, Stop(PowerKey), f);
    var d' := ChangedBy(d, first, f);
    ChangedConcat(d', second, last, f);
    ThreeStops(d', Bright2, Animation, Bright1, f);
    ChangedOne(multiset{}, Stop(Animation), f);
    LightenChanges(multiset{}, up, env, f);
  }

  lemma {:induction false} EventChanges(d: multiset<int>, c: Ctl, list: seq<Alarm>, ev: Event, env: Env, f: Fn)
    ensures ChangedBy(d, OnEvent(c, list, ev, env).1, f) ==
            match ev
            case PowerDown => if f == PowerKey && c.powerup then d + multiset{Micros(env.now) + 1_000_000} else d
            case PowerUp => if f == PowerKey || Count(list, Bright1) > 0 then multiset{} else Lit(env, f)
            case Battery => if f != PowerKey && Unplugged(c, env) then multiset{} else d
            case Quit => d
            case Other => d
            case _ => if f == PowerKey then d else Lit(env, f)
  {
    match ev
    case PowerDown => ChangedOne(d, Set(PowerKey, 1000, env.now), f);
    case PowerUp => ReleaseChanges(d, c, list, env, f);
    case Battery => PowerChanges(d, c, env, f);
    case Quit =>
    case Other =>
    case _ => WakeChanges(d, c, env, f);
  }

  /** What is pending after an event, deadline by deadline.  A press of the power key adds the long-press alarm,
      due in one second, if the last voltage read allows a start; a release removes it and blanks or lights the
      display, depending on whether it was still bright; the other keys light it; an unplugged charger blanks it. */
  lemma {:induction false} EventDeadlines(s: Sys, ev: Event, env: Env, now: Time, f: Fn)
    requires s.ctl.powerup == Powered(s.ctl.keys) && Normal(now) && GoodEnv(env, now)
    ensures var before := Deadlines(s.alarms.list, f);
      Deadlines(Handle(s, ev, env).alarms.list, f) ==
        match ev
        case PowerDown =>
          if f == PowerKey && Powered(s.ctl.keys) then before + multiset{Micros(env.now) + 1_000_000} else before
        case PowerUp =>
          if f == PowerKey || Deadlines(s.alarms.list, Bright1) != multiset{} then multiset{} else Lit(env, f)
        case Battery => if f != PowerKey && Unplugged(s.ctl, env) then multiset{} else before
        case Quit => before
        case Other => before
        case _ => if f == PowerKey then before else Lit(env, f)
  {
    var before, list := Deadlines(s.alarms.list, f), s.alarms.list;
    EventAhead(s.ctl, list, ev, env, now);
    ExecChanges(s.alarms, OnEvent(s.ctl, list, ev, env).1, now, f);
    EventChanges(before, s.ctl, list, ev, env, f);
    DeadlinesCount(list, Bright1);
    NoneOrSome(Deadlines(list, Bright1));
  }

  lemma NoneOrSome(d: multiset<int>)
    ensures d == multiset{} <==> |d| == 0
  {
  }

  /** The same of the flags: quitting, the one shutdown, the voltage latch, and whether the display is blank. */
  lemma EventFlags(s: Sys, ev: Event, env: Env)
    ensures var c, r := s.ctl, Handle(s, ev, env).ctl;
      && (r.quit <==> c.quit || ev.Quit?)
      && (r.shutdown <==> c.shutdown || (ev.Battery? && !env.ac && !env.usb))
      && (r.powerup <==> if ev.Battery? then env.voltage >= 3_600_000 else c.powerup)
      && (r.blank <==>
          match ev
          case PowerUp => Deadlines(s.alarms.list, Bright1) != multiset{}
          case Battery => c.blank || Unplugged(c, env)
          case PowerDown => c.blank
          case Quit => c.blank
          case Other => c.blank
          case _ => false)
  {
    DeadlinesCount(s.alarms.list, Bright1);
  }

  /** Before the first round the display is bright for five seconds and its first step is a second and a half away. */
  lemma {:induction false} BootDeadlines(env: Env, now: Time, f: Fn)
    requires Normal(now) && GoodEnv(env, now)
    ensures Deadlines(Boot(env).alarms.list, f) ==
            match f
            case Bright1 => multiset{Micros(env.now) + 5_000_000}
            case Animation => multiset{Micros(env.later) + 1_500_000}
            case _ => multiset{}
    ensures Boot(env).ctl == START
  {
    var none := Alarms([], 0);
    var cmds := Lighten(START, 1500, env).1;
    ExecChanges(none, cmds, now, f);
    ChangedTwo(multiset{}, cmds[0], cmds[1], f);
  }

  lemma {:induction false} AnimationChanges(d: multiset<int>, c: Ctl, env: Env, f: Fn)
    ensures ChangedBy(d, [Set(Animation, ANIMATION_TIMEOUT, env.now)] + PowerEvent(c, env).1, f) ==
            if f == PowerKey then d
            else if Unplugged(c, env) then multiset{}
            else d + if f == Animation then multiset{Micros(env.now) + 500_000} else multiset{}
  {
    var again := Set(Animation, ANIMATION_TIMEOUT, env.now);
    ChangedConcat(d, [again], PowerEvent(c, env).1, f);
    ChangedOne(d, again, f);
    PowerChanges(Changed(d, again, f), c, env, f);
  }

  /** What is pending after the first alarm has been taken out and its callback has run. */
  lemma {:induction false} AlarmDeadlines(c: Ctl, s: Alarms, due: Time, env: Env, f: Fn)
    requires s.list != [] && Normal(due) && GoodEnv(env, due)
    ensures var a, rest := s.list[0], s.(list := s.list[1..]);
      var before := Deadlines(rest.list, f);
      Deadlines(Exec(rest, OnAlarm(c, a, due, env).1).list, f) ==
        match a.f
        case Animation =>
          if f == PowerKey then before
          else if Unplugged(c, env) then multiset{}
          else before + if f == Animation then multiset{Micros(env.now) + 500_000} else multiset{}
        case Bright1 => before + if f == Bright2 then multiset{Micros(env.now) + 10_000_000} else multiset{}
        case Bright2 => if f == Animation then multiset{} else before
        case PowerKey => if f == PowerKey then before else multiset{}
  {
    var a, rest := s.list[0], s.(list := s.list[1..]);
    var before, cmds := Deadlines(rest.list, f), OnAlarm(c, a, due, env).1;
    OnAlarmAhead(c, a, due, env);
    ExecChanges(rest, cmds, due, f);
    match a.f
    case Animation => AnimationChanges(before, c, env, f);
    case Bright1 => ChangedOne(before, Set(Bright2, 10000, env.now), f);
    case Bright2 => ChangedOne(before, Stop(Animation), f);
    case PowerKey => ThreeStops(before, Bright2, Bright1, Animation, f);
  }

  lemma AlarmFlags(c: Ctl, a: Alarm, due: Time, env: Env)
    ensures var r := OnAlarm(c, a, due, env).0;
      && (r.quit <==> c.quit || (a.f.PowerKey? && env.rebootOk))
      && (r.shutdown <==> c.shutdown || (a.f.Animation? && !env.ac && !env.usb))
      && (r.powerup <==> if a.f.Animation? then env.voltage >= 3_600_000 else c.powerup)
      && (r.blank <==> c.blank || a.f.Bright2? || (a.f.Animation? && Unplugged(c, env)))
  {
  }

  // ----- The long press is not forgotten

  /** The deadlines of the presses since the last release that came when the voltage allowed a start. */
  function Presses(keys: seq<KeyEvent>): multiset<int> {
    if keys == [] then multiset{}
    else
      var before := keys[..|keys| - 1];
      match keys[|keys| - 1]
      case Down(at) => Presses(before) + if Powered(before) then multiset{Micros(at) + 1_000_000} else multiset{}
      case Up => multiset{}
      case _ => Presses(before)
  }

  /** The deadlines of those acted on since the last release. */
  function Fired(keys: seq<KeyEvent>): multiset<int> {
    if keys == [] then multiset{}
    else
      var before := keys[..|keys| - 1];
      match keys[|keys| - 1]
      case LongPress(at, armed) => Fired(before) + multiset{Micros(armed)}
      case Up => multiset{}
      case _ => Fired(before)
  }

  /** Every press that counts is still pending, with its own deadline, or has been acted on. */
  ghost predicate Booked(keys: seq<KeyEvent>, list: seq<Alarm>) {
    Deadlines(list, PowerKey) + Fired(keys) == Presses(keys)
  }

  lemma {:induction false} HistoryNext(keys: seq<KeyEvent>, e: KeyEvent)
    ensures Presses(keys + [e]) ==
            if e.Down? then Presses(keys) + (if Powered(keys) then multiset{Micros(e.at) + 1_000_000} else multiset{})
            else if e.Up? then multiset{}
            else Presses(keys)
    ensures Fired(keys + [e]) ==
            if e.LongPress? then Fired(keys) + multiset{Micros(e.armed)}
            else if e.Up? then multiset{}
            else Fired(keys)
  {
    assert (keys + [e])[..|keys|] == keys;
  }

  /** The deadlines of the long press after `e` has been added to the history. */
  predicate Follows(keys: seq<KeyEvent>, d: multiset<int>, e: KeyEvent, d': multiset<int>) {
    match e
    case Down(at) => d' == d + if Powered(keys) then multiset{Micros(at) + 1_000_000} else multiset{}
    case Up => d' == multiset{}
    case LongPress(at, armed) => d == d' + multiset{Micros(armed)}
    case Voltage(reading) => d' == d
  }

  lemma {:induction false} BookNext(keys: seq<KeyEvent>, d: multiset<int>, e: KeyEvent, d': multiset<int>)
    requires d + Fired(keys) == Presses(keys) && Follows(keys, d, e, d')
    ensures d' + Fired(keys + [e]) == Presses(keys + [e])
  {
    HistoryNext(keys, e);
  }

  function Said(ev: Event, env: Env): seq<KeyEvent> {
    match ev
    case PowerDown => [Down(env.now)]
    case PowerUp => [Up]
    case Battery => [Voltage(env.voltage)]
    case _ => []
  }

  lemma EventKeys(s: Sys, ev: Event, env: Env)
    ensures Handle(s, ev, env).ctl.keys == s.ctl.keys + Said(ev, env)
  {
  }

  lemma EventFollows(s: Sys, ev: Event, env: Env, now: Time)
    requires s.ctl.powerup == Powered(s.ctl.keys) && Normal(now) && GoodEnv(env, now)
    ensures var before := Deadlines(s.alarms.list, PowerKey);
      var after := Deadlines(Handle(s, ev, env).alarms.list, PowerKey);
      if Said(ev, env) == [] then after == before else Follows(s.ctl.keys, before, Said(ev, env)[0], after)
  {
    EventDeadlines(s, ev, env, now, PowerKey);
  }

  lemma EventBooked(s: Sys, ev: Event, env: Env, now: Time)
    requires SysInv(s) && Booked(s.ctl.keys, s.alarms.list) && Normal(now) && GoodEnv(env, now)
    ensures Booked(Handle(s, ev, env).ctl.keys, Handle(s, ev, env).alarms.list)
  {
    EventFollows(s, ev, env, now);
    EventKeys(s, ev, env);
    var keys, said, r := s.ctl.keys, Said(ev, env), Handle(s, ev, env);
    if said == [] {
      assert keys + said == keys;
    } else {
      BookNext(keys, Deadlines(s.alarms.list, PowerKey), said[0], Deadlines(r.alarms.list, PowerKey));
      assert r.ctl.keys == keys + [said[0]];
    }
  }

  lemma AlarmKeys(c: Ctl, a: Alarm, due: Time, env: Env)
    ensures OnAlarm(c, a, due, env).0.keys ==
            c.keys + match a.f
                     case Animation => [Voltage(env.voltage)]
                     case PowerKey => [LongPress(due, a.time)]
                     case _ => []
  {
  }

  lemma AlarmBooked(c: Ctl, s: Alarms, due: Time, env: Env)
    requires s.list != [] && Normal(due) && GoodEnv(env, due) && Booked(c.keys, s.list)
    ensures var (c', cmds) := OnAlarm(c, s.list[0], due, env);
      && Booked(c'.keys, Exec(s.(list := s.list[1..]), cmds).list)
      && Presses(c'.keys) == Presses(c.keys)
  {
    var a := s.list[0];
    var before := Deadlines(s.list, PowerKey);
    var after := Deadlines(Exec(s.(list := s.list[1..]), OnAlarm(c, a, due, env).1).list, PowerKey);
    AlarmDeadlines(c, s, due, env, PowerKey);
    AlarmKeys(c, a, due, env);
    if a.f.Animation? {
      BookNext(c.keys, before, Voltage(env.voltage), after);
      HistoryNext(c.keys, Voltage(env.voltage));
    } else if a.f.PowerKey? {
      BookNext(c.keys, before, LongPress(due, a.time), after);
      HistoryNext(c.keys, LongPress(due, a.time));
    }
  }

  lemma {:induction false} DispatchBooked(w: World, s: Alarms, due: Time, envs: nat -> Env)
    requires Normal(due) && forall k :: GoodEnv(envs(k), due)
    requires Tame(Callbacks(due, envs), due) && Booked(w.ctl.keys, s.list)
    ensures var (w', s', _) := Dispatch(w, s, due, Callbacks(due, envs));
      Booked(w'.ctl.keys, s'.list) && Presses(w'.ctl.keys) == Presses(w.ctl.keys)
    decreases |DuePart(s.list, due)|
  {
    if s.list != [] && !Before(due, s.list[0].time) {
      var a, rest := s.list[0], s.(list := s.list[1..]);
      var (w', cmds) := Callbacks(due, envs)(w, a);
      AlarmBooked(w.ctl, s, due, envs(w.count));
      ExecDue(rest, cmds, due);
      DispatchBooked(w', Exec(rest, cmds), due, envs);
    }
  }

  lemma ProcessBooked(s: Sys, due: Time, envs: nat -> Env)
    requires Normal(due) && (forall k :: GoodEnv(envs(k), due)) && Booked(s.ctl.keys, s.alarms.list)
    ensures var r := Process(s, due, envs);
      Booked(r.ctl.keys, r.alarms.list) && Presses(r.ctl.keys) == Presses(s.ctl.keys)
  {
    CallbacksTame(due, envs);
    DispatchBooked(World(s.ctl, 0), s.alarms, due, envs);
  }

  lemma {:induction false} RoundsBooked(s: Sys, inputs: seq<Input>)
    requires SysInv(s) && Booked(s.ctl.keys, s.alarms.list)
    requires forall i :: 0 <= i < |inputs| ==> GoodInput(inputs[i])
    ensures Booked(Rounds(s, inputs).ctl.keys, Rounds(s, inputs).alarms.list)
    decreases |inputs|
  {
    if inputs != [] {
      var i := inputs[0];
      if !s.ctl.quit {
        if TimeUntilNext(s.alarms, i.now) < 1 {
          ProcessBooked(s, i.entered, i.envs);
        } else {
          EventBooked(s, i.ev, i.env, i.now);
        }
      }
      RoundSafe(s, i);
      RoundsBooked(Round(s, i), inputs[1..]);
    }
  }

  lemma BootBooked(env: Env, now: Time)
    requires Normal(now) && GoodEnv(env, now)
    ensures Booked(Boot(env).ctl.keys, Boot(env).alarms.list)
  {
    var none := Alarms([], 0);
    var cmds := Lighten(START, 1500, env).1;
    ExecChanges(none, cmds, now, PowerKey);
    ChangedTwo(multiset{}, cmds[0], cmds[1], PowerKey);
  }

  /** At every loop head of any run: each press of the power key that came when the last voltage read was 3.6 V
      or more, and was not followed by a release, has an alarm pending exactly one second after it, or that
      alarm has been acted on; and there are no others. */
  lemma {:induction false} PressesPending(env: Env, now: Time, inputs: seq<Input>)
    requires Normal(now) && GoodEnv(env, now)
    requires forall i :: 0 <= i < |inputs| ==> GoodInput(inputs[i])
    ensures var s := Rounds(Boot(env), inputs);
      Deadlines(s.alarms.list, PowerKey) + Fired(s.ctl.keys) == Presses(s.ctl.keys)
  {
    BootSafe(env, now);
    BootBooked(env, now);
    RoundsBooked(Boot(env), inputs);
  }

  /** Such a press counts until the key is released, whatever else happens. */
  lemma {:induction false} PressStays(keys: seq<KeyEvent>, at: Time, more: seq<KeyEvent>)
    requires Powered(keys) && forall i :: 0 <= i < |more| ==> !more[i].Up?
    ensures Micros(at) + 1_000_000 in Presses(keys + [Down(at)] + more)
    decreases |more|
  {
    if more == [] {
      HistoryNext(keys, Down(at));
      assert keys + [Down(at)] + [] == keys + [Down(at)];
    } else {
      var last := |more| - 1;
      PressStays(keys, at, more[..last]);
      HistoryNext(keys + [Down(at)] + more[..last], more[last]);
      assert more == more[..last] + [more[last]];
      assert keys + [Down(at)] + more == keys + [Down(at)] + more[..last] + [more[last]];
    }
  }

  lemma {:induction false} AddedPress(keys: seq<KeyEvent>, all: seq<KeyEvent>, d: int)
    requires keys <= all && Fired(all)[d] > Fired(keys)[d]
    ensures exists j :: |keys| <= j < |all| && all[j].LongPress? && Micros(all[j].armed) == d
    decreases |all|
  {
    assert all != keys;
    var last := |all| - 1;
    var e := all[last];
    if !(e.LongPress? && Micros(e.armed) == d) {
      AddedPress(keys, all[..last], d);
    }
  }

  lemma {:induction false} DispatchAdds(w: World, s: Alarms, due: Time, envs: nat -> Env)
    requires Normal(due) && forall k :: GoodEnv(envs(k), due)
    requires Tame(Callbacks(due, envs), due)
    ensures w.ctl.keys <= Dispatch(w, s, due, Callbacks(due, envs)).0.ctl.keys
    decreases |DuePart(s.list, due)|
  {
    if s.list != [] && !Before(due, s.list[0].time) {
      var rest := s.(list := s.list[1..]);
      var (w', cmds) := Callbacks(due, envs)(w, s.list[0]);
      AlarmKeys(w.ctl, s.list[0], due, envs(w.count));
      ExecDue(rest, cmds, due);
      DispatchAdds(w', Exec(rest, cmds), due, envs);
    }
  }

  lemma ProcessAdds(s: Sys, due: Time, envs: nat -> Env)
    requires Normal(due) && forall k :: GoodEnv(envs(k), due)
    ensures s.ctl.keys <= Process(s, due, envs).ctl.keys
  {
    CallbacksTame(due, envs);
    DispatchAdds(World(s.ctl, 0), s.alarms, due, envs);
  }

  /** The history has a long press for deadline `d` at `j`, and no release after it. */
  predicate ActedOn(keys: seq<KeyEvent>, j: nat, d: int)
    requires j < |keys|
  {
    keys[j].LongPress? && Micros(keys[j].armed) == d && forall k :: j < k < |keys| ==> !keys[k].Up?
  }

  lemma {:induction false} FiredSeen(keys: seq<KeyEvent>, d: int) returns (j: nat)
    requires d in Fired(keys)
    ensures j < |keys| && ActedOn(keys, j, d)
    decreases |keys|
  {
    var last := |keys| - 1;
    var e := keys[last];
    if e.LongPress? && Micros(e.armed) == d {
      j := last;
    } else {
      j := FiredSeen(keys[..last], d);
    }
  }

  lemma {:induction false} SeenFired(keys: seq<KeyEvent>, j: nat, d: int)
    requires j < |keys| && ActedOn(keys, j, d)
    ensures d in Fired(keys)
    decreases |keys|
  {
    var last := |keys| - 1;
    if j < last {
      SeenFired(keys[..last], j, d);
    }
  }

  /** A press has been acted on when its alarm is among those since the last release. */
  lemma {:induction false} FiredMeans(keys: seq<KeyEvent>, d: int)
    ensures d in Fired(keys) <==> exists j :: 0 <= j < |keys| && ActedOn(keys, j, d)
  {
    if d in Fired(keys) {
      var j := FiredSeen(keys, d);
    }
    if j :| 0 <= j < |keys| && ActedOn(keys, j, d) {
      SeenFired(keys, j, d);
    }
  }

  /** alarm_process, entered at or after the deadline of a press still held, has acted on it when it is done,
      exactly once for each such press. */
  lemma PressIsActedOn(s: Sys, due: Time, envs: nat -> Env, d: int)
    requires SysInv(s) && Booked(s.ctl.keys, s.alarms.list)
    requires Normal(due) && forall k :: GoodEnv(envs(k), due)
    requires d in Presses(s.ctl.keys) && d <= Micros(due)
    ensures Fired(Process(s, due, envs).ctl.keys)[d] == Presses(s.ctl.keys)[d]
  {
    ProcessBooked(s, due, envs);
    CallbacksTame(due, envs);
    DispatchFires(World(s.ctl, 0), s.alarms, due, Callbacks(due, envs));
    DispatchSafe(World(s.ctl, 0), s.alarms, due, envs);
    NoneEarly(Process(s, due, envs).alarms.list, due, PowerKey, d);
  }

  /** Said of a run: the first round of alarm_process entered a second or more after a press at sufficient voltage,
      while the key is still down, appends the long press to the history. */
  lemma {:induction false} HeldKeyIsServed(env: Env, now: Time, inputs: seq<Input>, i: Input,
                                           before: seq<KeyEvent>, at: Time, more: seq<KeyEvent>)
    requires Normal(now) && GoodEnv(env, now) && GoodInput(i)
    requires forall k :: 0 <= k < |inputs| ==> GoodInput(inputs[k])
    requires var s := Rounds(Boot(env), inputs);
      && !s.ctl.quit && TimeUntilNext(s.alarms, i.now) < 1
      && s.ctl.keys == before + [Down(at)] + more
    requires Powered(before) && (forall k :: 0 <= k < |more| ==> !more[k].Up?)
    requires Micros(at) + 1_000_000 <= Micros(i.entered)
    ensures var keys, r, d := before + [Down(at)] + more, Round(Rounds(Boot(env), inputs), i), Micros(at) + 1_000_000;
      && Fired(r.ctl.keys)[d] == Presses(keys)[d] > 0
      && (Fired(keys)[d] < Presses(keys)[d] ==>
            var all := r.ctl.keys;
            exists j :: |keys| <= j < |all| && all[j].LongPress? && Micros(all[j].armed) == d)
  {
    var s, d := Rounds(Boot(env), inputs), Micros(at) + 1_000_000;
    FromBoot(env, now, inputs);
    PressesPending(env, now, inputs);
    PressStays(before, at, more);
    PressIsActedOn(s, i.entered, i.envs, d);
    ProcessAdds(s, i.entered, i.envs);
    if Fired(s.ctl.keys)[d] < Presses(s.ctl.keys)[d] {
      AddedPress(s.ctl.keys, Process(s, i.entered, i.envs).ctl.keys, d);
    }
  }

  lemma {:induction false} NoneEarly(list: seq<Alarm>, due: Time, f: Fn, d: int)
    requires Normal(due) && d <= Micros(due)
    requires forall i :: 0 <= i < |list| ==> Normal(list[i].time) && Before(due, list[i].time)
    ensures d !in Deadlines(list, f)
  {
    if list != [] {
      BeforeIsLess(due, list[0].time);
      NoneEarly(list[1..], due, f, d);
    }
  }

  // ----- When an event is read at all

  /** A round reads an event when no alarm is pending or the first is a millisecond or more away, and runs
      alarm_process when the first is due, as long as the time between fits an int. */
  lemma RoundReads(s: Sys, i: Input)
    requires SysInv(s) && GoodInput(i) && !s.ctl.quit
    ensures var list := s.alarms.list;
      && (list == [] ==> Round(s, i) == Handle(s, i.ev, i.env))
      && (list != [] && IsInt(ExactDelay(list[0].time, i.now)) ==>
            && (Micros(list[0].time) >= Micros(i.now) + 1000 ==> Round(s, i) == Handle(s, i.ev, i.env))
            && (Micros(list[0].time) <= Micros(i.now) ==> Round(s, i) == Process(s, i.entered, i.envs)))
  {
    var list := s.alarms.list;
    if list != [] {
      var deadline := list[0].time;
      DelayAccurate(deadline, i.now);
      BeforeIsLess(i.now, deadline);
      if !Before(i.now, deadline) {
        OverdueDelay(deadline, i.now);
      }
    }
  }

  /** After quitting nothing happens any more. */
  lemma {:induction false} QuitIsFinal(s: Sys, inputs: seq<Input>)
    requires s.ctl.quit && forall i :: 0 <= i < |inputs| ==> GoodInput(inputs[i])
    ensures Rounds(s, inputs) == s
    decreases |inputs|
  {
    if inputs != [] {
      QuitIsFinal(s, inputs[1..]);
    }
  }
}
