/** What holds at every head of the main loop of charge_only_mode/main.c, over all runs of key, battery
    and timer events. */
module ChargeSafety {
  import opened ListSpec
  import opened AlarmTime
  import opened AlarmSpec
  import opened ChargeSpec

  /** The last power_event found 3.6 V or more. */
  predicate Powered(keys: seq<KeyEvent>) {
    keys != [] &&
    match keys[|keys| - 1]
    case Voltage(reading) => reading >= 3_600_000
    case _ => Powered(keys[..|keys| - 1])
  }

  /** The power key went down while the voltage allowed a start, has not been released since, and by
      `micros` has been down for a second. */
  predicate Armed(keys: seq<KeyEvent>, micros: int) {
    exists i :: 0 <= i < |keys| && ArmedBy(keys, i, micros)
  }

  predicate ArmedBy(keys: seq<KeyEvent>, i: nat, micros: int)
    requires i < |keys|
  {
    && keys[i].Down? && Powered(keys[..i]) && Micros(keys[i].at) + HOLD <= micros
    && forall j :: i < j < |keys| ==> !keys[j].Up?
  }

  /** Every long press acted on was armed by the history before it. */
  predicate LongPressesJustified(keys: seq<KeyEvent>) {
    forall j :: 0 <= j < |keys| && keys[j].LongPress? ==> Armed(keys[..j], Micros(keys[j].at))
  }

  /** Every pending long press will have been, when it is due. */
  predicate PendingArmed(keys: seq<KeyEvent>, list: seq<Alarm>) {
    forall i :: 0 <= i < |list| ==> Normal(list[i].time) && (list[i].f.PowerKey? ==> Armed(keys, Micros(list[i].time)))
  }

  predicate SysInv(s: Sys) {
    && Inv(s.alarms)
    && TimersOk(s.ctl, s.alarms.list)
    && s.ctl.powerup == Powered(s.ctl.keys)
    && PendingArmed(s.ctl.keys, s.alarms.list)
    && LongPressesJustified(s.ctl.keys)
  }

  // ----- The history grows

  lemma ArmedGrows(keys: seq<KeyEvent>, e: KeyEvent, micros: int)
    requires Armed(keys, micros) && !e.Up?
    ensures Armed(keys + [e], micros)
  {
    var i :| 0 <= i < |keys| && ArmedBy(keys, i, micros);
    assert (keys + [e])[..i] == keys[..i];
    assert ArmedBy(keys + [e], i, micros);
  }

  lemma PendingGrows(keys: seq<KeyEvent>, e: KeyEvent, list: seq<Alarm>)
    requires PendingArmed(keys, list) && !e.Up?
    ensures PendingArmed(keys + [e], list)
  {
    forall i | 0 <= i < |list| && list[i].f.PowerKey? ensures Armed(keys + [e], Micros(list[i].time)) {
      ArmedGrows(keys, e, Micros(list[i].time));
    }
  }

  lemma JustifiedGrows(keys: seq<KeyEvent>, e: KeyEvent)
    requires LongPressesJustified(keys)
    requires e.LongPress? ==> Armed(keys, Micros(e.at))
    ensures LongPressesJustified(keys + [e])
  {
    var all := keys + [e];
    forall j | 0 <= j < |all| && all[j].LongPress? ensures Armed(all[..j], Micros(all[j].at)) {
      assert all[..j] == keys[..j];
      assert j == |keys| ==> keys[..j] == keys;
    }
  }

  // ----- The alarm calls

  /** A call that arms the long press says when the key went down. */
  predicate CmdArmed(keys: seq<KeyEvent>, cmd: Cmd) {
    cmd.Set? && cmd.f.PowerKey? ==> Armed(keys, Micros(cmd.at) + cmd.ms * 1000)
  }

  lemma PerformArmed(keys: seq<KeyEvent>, s: Alarms, cmd: Cmd, now: Time)
    requires PendingArmed(keys, s.list) && Normal(now) && Ahead(cmd, now) && CmdArmed(keys, cmd)
    ensures PendingArmed(keys, Perform(s, cmd).list)
  {
    match cmd
    case Set(f, ms, at) =>
      AheadIsNotDue(cmd, now);
      var a := Alarm(Deadline(at, ms), f, s.next);
      var k := IndexOf(s.list, Later(a.time));
      var r := InsertAt(s.list, a);
      assert forall i :: 0 <= i < |r| ==> r[i] == if i < k then s.list[i] else if i == k then a else s.list[i - 1];
    case Stop(f) =>
      var r := Perform(s, cmd).list;
      forall i | 0 <= i < |r|
        ensures Normal(r[i].time) && (r[i].f.PowerKey? ==> Armed(keys, Micros(r[i].time)))
      {
        var j := RejectFrom(s.list, Calling(f), i);
      }
  }

  lemma {:induction false} ExecArmed(keys: seq<KeyEvent>, s: Alarms, cmds: seq<Cmd>, now: Time)
    requires PendingArmed(keys, s.list) && Normal(now) && AllAhead(cmds, now)
    requires forall i :: 0 <= i < |cmds| ==> CmdArmed(keys, cmds[i])
    ensures PendingArmed(keys, Exec(s, cmds).list)
    decreases |cmds|
  {
    if cmds != [] {
      PerformArmed(keys, s, cmds[0], now);
      ExecArmed(keys, Perform(s, cmds[0]), cmds[1..], now);
    }
  }

  // ----- One callback, one event

  lemma PowerEventStops(c: Ctl, env: Env)
    ensures var (c', cmds) := PowerEvent(c, env);
      c'.keys == c.keys + [Voltage(env.voltage)] && forall i :: 0 <= i < |cmds| ==> cmds[i].Stop?
  {
  }

  lemma {:induction false} PoweredNext(keys: seq<KeyEvent>, e: KeyEvent)
    ensures Powered(keys + [e]) == if e.Voltage? then e.reading >= 3_600_000 else Powered(keys)
  {
    assert (keys + [e])[..|keys|] == keys;
  }

  /** A voltage reading changes nothing about the long press. */
  lemma PowerEventSafe(c: Ctl, list: seq<Alarm>, env: Env)
    requires PendingArmed(c.keys, list) && LongPressesJustified(c.keys)
    ensures var c' := PowerEvent(c, env).0;
      PendingArmed(c'.keys, list) && LongPressesJustified(c'.keys) && c'.powerup == Powered(c'.keys)
  {
    var e := Voltage(env.voltage);
    PowerEventStops(c, env);
    JustifiedGrows(c.keys, e);
    PendingGrows(c.keys, e, list);
    PoweredNext(c.keys, e);
  }

  /** The long-press part of the invariant. */
  predicate KeysSafe(c: Ctl, list: seq<Alarm>) {
    c.powerup == Powered(c.keys) && PendingArmed(c.keys, list) && LongPressesJustified(c.keys)
  }

  lemma HeldLongEnough(keys: seq<KeyEvent>, micros: int, later: int)
    requires Armed(keys, micros) && micros <= later
    ensures Armed(keys, later)
  {
    var i :| 0 <= i < |keys| && ArmedBy(keys, i, micros);
    assert ArmedBy(keys, i, later);
  }

  lemma {:induction false} LongPressSafe(keys: seq<KeyEvent>, time: Time, list: seq<Alarm>, due: Time)
    requires LongPressesJustified(keys) && PendingArmed(keys, list)
    requires Normal(time) && Normal(due) && !Before(due, time) && Armed(keys, Micros(time))
    ensures var grown := keys + [LongPress(due, time)];
      LongPressesJustified(grown) && PendingArmed(grown, list) && Powered(grown) == Powered(keys)
  {
    var e := LongPress(due, time);
    BeforeIsLess(due, time);
    HeldLongEnough(keys, Micros(time), Micros(due));
    JustifiedGrows(keys, e);
    PendingGrows(keys, e, list);
    PoweredNext(keys, e);
  }

  lemma AlarmKeysSafe(c: Ctl, list: seq<Alarm>, a: Alarm, due: Time, env: Env)
    requires KeysSafe(c, list) && Normal(a.time) && Normal(due) && !Before(due, a.time)
    requires a.f.PowerKey? ==> Armed(c.keys, Micros(a.time))
    ensures KeysSafe(OnAlarm(c, a, due, env).0, list)
  {
    if a.f.PowerKey? {
      LongPressSafe(c.keys, a.time, list, due);
    } else if a.f.Animation? {
      PowerEventSafe(c, list, env);
    }
  }

  lemma AlarmArms(c: Ctl, a: Alarm, due: Time, env: Env, keys: seq<KeyEvent>)
    ensures var cmds := OnAlarm(c, a, due, env).1; forall i :: 0 <= i < |cmds| ==> CmdArmed(keys, cmds[i])
  {
    PowerEventStops(c, env);
  }

  /** The head of the list is due and runs. */
  lemma AlarmSafe(c: Ctl, s: Alarms, due: Time, env: Env)
    requires SysInv(Sys(c, s)) && s.list != [] && Normal(due) && !Before(due, s.list[0].time) && GoodEnv(env, due)
    ensures var (c', cmds) := OnAlarm(c, s.list[0], due, env);
      SysInv(Sys(c', Exec(s.(list := s.list[1..]), cmds)))
  {
    var a, rest := s.list[0], s.(list := s.list[1..]);
    var (c', cmds) := OnAlarm(c, a, due, env);
    AlarmTimers(c, s, due, env);
    assert Inv(rest) && KeysSafe(c, rest.list);
    ExecKeeps(rest, cmds);
    AlarmKeysSafe(c, rest.list, a, due, env);
    OnAlarmAhead(c, a, due, env);
    AlarmArms(c, a, due, env, c'.keys);
    ExecArmed(c'.keys, rest, cmds, due);
    var t := Exec(rest, cmds);
    assert KeysSafe(c', t.list);
  }

  lemma EventAhead(c: Ctl, list: seq<Alarm>, ev: Event, env: Env, now: Time)
    requires GoodEnv(env, now)
    ensures AllAhead(OnEvent(c, list, ev, env).1, now)
  {
    PowerEventStops(c, env);
  }

  /** A press arms the alarm it sets. */
  lemma {:induction false} PressArms(keys: seq<KeyEvent>, at: Time)
    requires Powered(keys)
    ensures Armed(keys + [Down(at)], Micros(at) + HOLD)
  {
    var all := keys + [Down(at)];
    assert all[..|keys|] == keys;
    assert ArmedBy(all, |keys|, Micros(at) + HOLD);
  }

  /** A release leaves no long press pending. */
  lemma ReleaseDisarms(keys: seq<KeyEvent>, s: Alarms)
    requires PendingArmed(keys, s.list)
    ensures PendingArmed(keys + [Up], Perform(s, Stop(PowerKey)).list)
  {
    var r := Perform(s, Stop(PowerKey)).list;
    forall i | 0 <= i < |r| ensures Normal(r[i].time) && !r[i].f.PowerKey? {
      var j := RejectFrom(s.list, Calling(PowerKey), i);
      assert !Calling(PowerKey)(s.list[j]);
    }
  }

  lemma ReleaseSafe(s: Sys, env: Env, now: Time)
    requires KeysSafe(s.ctl, s.alarms.list) && Normal(now) && GoodEnv(env, now)
    ensures KeysSafe(Handle(s, PowerUp, env).ctl, Handle(s, PowerUp, env).alarms.list)
  {
    var (c', cmds) := OnEvent(s.ctl, s.alarms.list, PowerUp, env);
    EventAhead(s.ctl, s.alarms.list, PowerUp, env, now);
    JustifiedGrows(s.ctl.keys, Up);
    PoweredNext(s.ctl.keys, Up);
    ReleaseDisarms(s.ctl.keys, s.alarms);
    assert cmds[0] == Stop(PowerKey);
    assert forall i :: 0 <= i < |cmds[1..]| ==> cmds[1..][i] == cmds[i + 1];
    ExecArmed(c'.keys, Perform(s.alarms, cmds[0]), cmds[1..], now);
  }

  lemma KeysKept(s: Sys, ev: Event, env: Env, now: Time)
    requires KeysSafe(s.ctl, s.alarms.list) && Normal(now) && GoodEnv(env, now) && !ev.PowerUp?
    ensures KeysSafe(Handle(s, ev, env).ctl, Handle(s, ev, env).alarms.list)
  {
    var (c', cmds) := OnEvent(s.ctl, s.alarms.list, ev, env);
    EventAhead(s.ctl, s.alarms.list, ev, env, now);
    if ev.PowerDown? {
      PressSafe(s.ctl.keys, s.alarms.list, env.now);
    } else if ev.Battery? {
      PowerEventSafe(s.ctl, s.alarms.list, env);
      PowerEventStops(s.ctl, env);
    }
    ExecArmed(c'.keys, s.alarms, cmds, now);
  }

  lemma EventSafe(s: Sys, ev: Event, env: Env, now: Time)
    requires SysInv(s) && Normal(now) && GoodEnv(env, now)
    ensures SysInv(Handle(s, ev, env))
  {
    EventTimers(s, ev, env);
    ExecKeeps(s.alarms, OnEvent(s.ctl, s.alarms.list, ev, env).1);
    if ev.PowerUp? {
      ReleaseSafe(s, env, now);
    } else {
      KeysKept(s, ev, env, now);
    }
  }

  lemma {:induction false} PressSafe(keys: seq<KeyEvent>, list: seq<Alarm>, at: Time)
    requires LongPressesJustified(keys) && PendingArmed(keys, list)
    ensures var grown := keys + [Down(at)];
      && LongPressesJustified(grown) && PendingArmed(grown, list) && Powered(grown) == Powered(keys)
      && (Powered(keys) ==> Armed(grown, Micros(at) + HOLD))
  {
    JustifiedGrows(keys, Down(at));
    PendingGrows(keys, Down(at), list);
    PoweredNext(keys, Down(at));
    if Powered(keys) {
      PressArms(keys, at);
    }
  }

  // ----- Whole runs

  lemma {:induction false} DispatchSafe(w: World, s: Alarms, due: Time, envs: nat -> Env)
    requires Normal(due) && (forall k :: GoodEnv(envs(k), due))
    requires Tame(Callbacks(due, envs), due)
    requires SysInv(Sys(w.ctl, s))
    ensures var (w', s', _) := Dispatch(w, s, due, Callbacks(due, envs)); SysInv(Sys(w'.ctl, s'))
    decreases |DuePart(s.list, due)|
  {
    if s.list != [] && !Before(due, s.list[0].time) {
      var a, rest := s.list[0], s.(list := s.list[1..]);
      var (w', cmds) := Callbacks(due, envs)(w, a);
      AlarmSafe(w.ctl, s, due, envs(w.count));
      ExecDue(rest, cmds, due);
      DispatchSafe(w', Exec(rest, cmds), due, envs);
    }
  }

  lemma RoundSafe(s: Sys, i: Input)
    requires SysInv(s) && GoodInput(i)
    ensures SysInv(Round(s, i))
  {
    if !s.ctl.quit {
      if TimeUntilNext(s.alarms, i.now) < 1 {
        CallbacksTame(i.entered, i.envs);
        DispatchSafe(World(s.ctl, 0), s.alarms, i.entered, i.envs);
      } else {
        EventSafe(s, i.ev, i.env, i.now);
      }
    }
  }

  lemma BootSafe(env: Env, now: Time)
    requires Normal(now) && GoodEnv(env, now)
    ensures SysInv(Boot(env))
  {
    var none := Alarms([], 0);
    var (c, cmds) := Lighten(START, 1500, env);
    ExecKeeps(none, cmds);
    ExecArmed(c.keys, none, cmds, now);
    forall g ensures Count(Exec(none, cmds).list, g) == if g == Bright1 || g == Animation then 1 else 0 {
      CountExec(none, cmds, g);
      AfterLighten(0, START, 1500, env, g);
    }
  }

  /** At every loop head: the brightness timers number at most one, the animation timers as many, a
      blanked display has neither, the list is sorted, and every long press acted on followed a press
      at sufficient voltage, held for a second without release. */
  lemma {:induction false} AlwaysSafe(s: Sys, inputs: seq<Input>)
    requires SysInv(s)
    requires forall i :: 0 <= i < |inputs| ==> GoodInput(inputs[i])
    ensures SysInv(Rounds(s, inputs))
    decreases |inputs|
  {
    if inputs != [] {
      RoundSafe(s, inputs[0]);
      AlwaysSafe(Round(s, inputs[0]), inputs[1..]);
    }
  }

  lemma {:induction false} FromBoot(env: Env, now: Time, inputs: seq<Input>)
    requires Normal(now) && GoodEnv(env, now)
    requires forall i :: 0 <= i < |inputs| ==> GoodInput(inputs[i])
    ensures SysInv(Rounds(Boot(env), inputs))
  {
    BootSafe(env, now);
    AlwaysSafe(Boot(env), inputs);
  }

  /** A round that finds its first alarm due runs alarm_process, and then nothing is due any more,
      precisely when the lateness in milliseconds, modulo 2^32, is at most 2^31. */
  lemma OverdueIsServed(s: Sys, i: Input)
    requires SysInv(s) && GoodInput(i) && !s.ctl.quit
    requires s.alarms.list != [] && !Before(i.now, s.alarms.list[0].time)
    ensures TimeUntilNext(s.alarms, i.now) < 1 <==>
            (-ExactDelay(s.alarms.list[0].time, i.now)) % INT_RANGE <= INT_LIMIT
    ensures TimeUntilNext(s.alarms, i.now) < 1 ==>
              && Round(s, i) == Process(s, i.entered, i.envs)
              && var list := Round(s, i).alarms.list;
                 forall k :: 0 <= k < |list| ==> Before(i.entered, list[k].time)
  {
    OverdueDelay(s.alarms.list[0].time, i.now);
    if TimeUntilNext(s.alarms, i.now) < 1 {
      CallbacksTame(i.entered, i.envs);
      DispatchFires(World(s.ctl, 0), s.alarms, i.entered, Callbacks(i.entered, i.envs));
    }
  }
}
