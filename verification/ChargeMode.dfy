/** charge_only_mode/main.c as an object: its globals, and the alarm list on the heap.  Each method is
    proved to do what the ChargeSpec function of the same body does to the abstract value. */
module ChargeMode {
  import opened AlarmTime
  import opened AlarmSpec
  import opened AlarmList
  import opened ChargeSpec
  import ChargeSafety

  lemma {:induction false} ExecOne(s: Alarms, a: Cmd)
    ensures Exec(s, [a]) == Perform(s, a)
  {
    assert [a][1..] == [];
  }

  lemma {:induction false} ExecConcat(s: Alarms, a: seq<Cmd>, b: seq<Cmd>)
    ensures Exec(s, a + b) == Exec(Exec(s, a), b)
    decreases |a|
  {
    if a == [] {
      assert a + b == b;
    } else {
      assert (a + b)[0] == a[0] && (a + b)[1..] == a[1..] + b;
      ExecConcat(Perform(s, a[0]), a[1..], b);
    }
  }

  lemma {:induction false} ExecTwo(s: Alarms, a: Cmd, b: Cmd)
    ensures Exec(s, [a, b]) == Perform(Perform(s, a), b)
  {
    assert [a, b][1..] == [b];
    ExecOne(Perform(s, a), b);
  }

  lemma {:induction false} ExecThree(s: Alarms, a: Cmd, b: Cmd, c: Cmd)
    ensures Exec(s, [a, b, c]) == Perform(Perform(Perform(s, a), b), c)
  {
    assert [a, b, c][1..] == [b, c];
    ExecTwo(Perform(s, a), b, c);
  }

  /** The three cancellations of update_screen_on_wakeup_key, what the last of them finds, and what follows. */
  lemma {:induction false} WakeupExec(s: Alarms, cmds: seq<Cmd>)
    ensures var left := Cancel(Cancel(s, Bright2), Animation);
      && Count(left.list, Bright1) == Count(s.list, Bright1)
      && Exec(s, [Stop(Bright2), Stop(Animation), Stop(Bright1)] + cmds) == Exec(Cancel(left, Bright1), cmds)
  {
    CountReject(s.list, Bright2, Bright1);
    CountReject(Cancel(s, Bright2).list, Animation, Bright1);
    ExecThree(s, Stop(Bright2), Stop(Animation), Stop(Bright1));
    ExecConcat(s, [Stop(Bright2), Stop(Animation), Stop(Bright1)], cmds);
  }

  /** A state after a function body: the new controller, and the alarm calls made in order. */
  function After(s: Sys, r: (Ctl, seq<Cmd>)): Sys {
    Sys(r.0, Exec(s.alarms, r.1))
  }

  class Controller {
    const queue: AlarmQueue
    var quit: bool
    var shutdown: bool
    var powerup: bool
    var blank: bool
    ghost var keys: seq<KeyEvent>

    ghost function Value(): Sys
      reads this, queue
    {
      Sys(Ctl(quit, shutdown, powerup, blank, keys), queue.Value())
    }

    ghost predicate Valid()
      reads this, queue, queue.Repr
    {
      queue.Valid()
    }

    /** The state before main arms its first timers. */
    constructor ()
      ensures Valid() && fresh(queue) && fresh(queue.Repr) && Value() == Sys(START, Alarms([], 0))
    {
      queue := new AlarmQueue();
      quit, shutdown, powerup, blank, keys := false, false, false, false, [];
    }

    /** screen_brightness_animation_alarm2. */
    method DarkenScreen()
      requires Valid()
      modifies this, queue, queue.Repr
      ensures Valid() && fresh(queue.Repr - old(queue.Repr))
      ensures Value() == After(old(Value()), Darken(old(Value()).ctl))
    {
      ExecOne(queue.Value(), Stop(Animation));
      var _ := queue.CancelAll(Animation);
      blank := true;
    }

    /** screen_brightness_animation_start. */
    method LightenScreen(timeout: int, env: Env)
      requires Valid()
      modifies this, queue, queue.Repr
      ensures Valid() && fresh(queue.Repr - old(queue.Repr))
      ensures Value() == After(old(Value()), Lighten(old(Value()).ctl, timeout, env))
    {
      ExecTwo(queue.Value(), Set(Bright1, 5000, env.now), Set(Animation, timeout, env.later));
      blank := false;
      queue.Set(Bright1, 5000, env.now);
      queue.Set(Animation, timeout, env.later);
    }

    /** power_event. */
    method HandlePower(env: Env)
      requires Valid()
      modifies this, queue, queue.Repr
      ensures Valid() && fresh(queue.Repr - old(queue.Repr))
      ensures Value() == After(old(Value()), PowerEvent(old(Value()).ctl, env))
    {
      powerup := env.voltage >= POWERUP_VOLTAGE;
      keys := keys + [Voltage(env.voltage)];
      if !shutdown && !env.ac && !env.usb {
        shutdown := true;
        ghost var s := queue.Value();
        ExecThree(s, Stop(Bright2), Stop(Bright1), Stop(Animation));
        assert [Stop(Bright2), Stop(Bright1)] + [Stop(Animation)] == [Stop(Bright2), Stop(Bright1), Stop(Animation)];
        var _ := queue.CancelAll(Bright2);
        var _ := queue.CancelAll(Bright1);
        ExecOne(queue.Value(), Stop(Animation));
        DarkenScreen();
      }
    }

    /** power_key_alarm. */
    method LongPressAlarm(a: Alarm, due: Time, env: Env)
      requires Valid() && a.f == PowerKey
      modifies this, queue, queue.Repr
      ensures Valid() && fresh(queue.Repr - old(queue.Repr))
      ensures Value() == After(old(Value()), OnAlarm(old(Value()).ctl, a, due, env))
    {
      ExecThree(queue.Value(), Stop(Bright2), Stop(Bright1), Stop(Animation));
      var _ := queue.CancelAll(Bright2);
      var _ := queue.CancelAll(Bright1);
      var _ := queue.CancelAll(Animation);
      keys := keys + [LongPress(due, a.time)];
      if env.rebootOk {
        quit := true;
      }
    }

    /** The call through the function pointer in alarm_process. */
    method RunAlarm(a: Alarm, due: Time, env: Env)
      requires Valid()
      modifies this, queue, queue.Repr
      ensures Valid() && fresh(queue.Repr - old(queue.Repr))
      ensures Value() == After(old(Value()), OnAlarm(old(Value()).ctl, a, due, env))
    {
      ghost var s := queue.Value();
      match a.f
      case Animation =>
        ExecOne(s, Set(Animation, ANIMATION_TIMEOUT, env.now));
        ExecConcat(s, [Set(Animation, ANIMATION_TIMEOUT, env.now)], PowerEvent(Value().ctl, env).1);
        queue.Set(Animation, ANIMATION_TIMEOUT, env.now);
        HandlePower(env);
      case Bright2 =>
        DarkenScreen();
      case Bright1 =>
        ExecOne(s, Set(Bright2, 10000, env.now));
        queue.Set(Bright2, 10000, env.now);
      case PowerKey =>
        LongPressAlarm(a, due, env);
    }

    /** update_screen_on_wakeup_key, after the alarm_cancel of EVENT_POWER_KEY_UP. */
    method WakeupKey(env: Env)
      requires Valid()
      modifies this, queue, queue.Repr
      ensures Valid() && fresh(queue.Repr - old(queue.Repr))
      ensures var s := old(Value());
        var dark := Count(s.alarms.list, Bright1) > 0;
        var (c, cmds) := if dark then Darken(s.ctl) else Lighten(s.ctl, ANIMATION_TIMEOUT, env);
        Value() == Sys(c, Exec(s.alarms, [Stop(Bright2), Stop(Animation), Stop(Bright1)] + cmds))
    {
      ghost var s := Value();
      WakeupExec(s.alarms, Darken(s.ctl).1);
      WakeupExec(s.alarms, Lighten(s.ctl, ANIMATION_TIMEOUT, env).1);
      var _ := queue.CancelAll(Bright2);
      var _ := queue.CancelAll(Animation);
      var cancelled := queue.CancelAll(Bright1);
      if cancelled > 0 {
        DarkenScreen();
      } else {
        LightenScreen(ANIMATION_TIMEOUT, env);
      }
    }

    /** update_screen_on_wakeup_key2. */
    method WakeupKey2(env: Env)
      requires Valid()
      modifies this, queue, queue.Repr
      ensures Valid() && fresh(queue.Repr - old(queue.Repr))
      ensures var s := old(Value());
        var (c, cmds) := Lighten(s.ctl, ANIMATION_TIMEOUT, env);
        Value() == Sys(c, Exec(s.alarms, [Stop(Bright2), Stop(Bright1), Stop(Animation)] + cmds))
    {
      ghost var s := Value();
      ghost var stops := [Stop(Bright2), Stop(Bright1), Stop(Animation)];
      ExecThree(s.alarms, Stop(Bright2), Stop(Bright1), Stop(Animation));
      ExecConcat(s.alarms, stops, Lighten(s.ctl, ANIMATION_TIMEOUT, env).1);
      var _ := queue.CancelAll(Bright2);
      var _ := queue.CancelAll(Bright1);
      var _ := queue.CancelAll(Animation);
      LightenScreen(ANIMATION_TIMEOUT, env);
    }

    /** EVENT_POWER_KEY_UP. */
    method ReleaseKey(env: Env)
      requires Valid()
      modifies this, queue, queue.Repr
      ensures Valid() && fresh(queue.Repr - old(queue.Repr))
      ensures Value() == Handle(old(Value()), PowerUp, env)
    {
      ghost var s := Value();
      keys := keys + [Up];
      var _ := queue.CancelAll(PowerKey);
      CountReject(s.alarms.list, PowerKey, Bright1);
      ghost var up := Value().ctl;
      ghost var rest := [Stop(Bright2), Stop(Animation), Stop(Bright1)] +
        (if Count(s.alarms.list, Bright1) > 0 then Darken(up) else Lighten(up, ANIMATION_TIMEOUT, env)).1;
      ExecOne(s.alarms, Stop(PowerKey));
      ExecConcat(s.alarms, [Stop(PowerKey)], rest);
      assert OnEvent(s.ctl, s.alarms.list, PowerUp, env).1 == [Stop(PowerKey)] + rest;
      WakeupKey(env);
    }

    /** EVENT_POWER_KEY_DOWN. */
    method PressKey(env: Env)
      requires Valid()
      modifies this, queue, queue.Repr
      ensures Valid() && fresh(queue.Repr - old(queue.Repr))
      ensures Value() == Handle(old(Value()), PowerDown, env)
    {
      ExecOne(queue.Value(), Set(PowerKey, 1000, env.now));
      keys := keys + [Down(env.now)];
      if powerup {
        queue.Set(PowerKey, 1000, env.now);
      }
    }

    /** The switch of the main loop. */
    method HandleEvent(ev: Event, env: Env)
      requires Valid()
      modifies this, queue, queue.Repr
      ensures Valid() && fresh(queue.Repr - old(queue.Repr))
      ensures Value() == Handle(old(Value()), ev, env)
    {
      match ev
      case PowerDown =>
        PressKey(env);
      case PowerUp =>
        ReleaseKey(env);
      case Battery =>
        HandlePower(env);
      case Quit =>
        quit := true;
      case Other =>
      case VolumeDown =>
        WakeupKey2(env);
      case VolumeUp =>
        WakeupKey2(env);
      case Camera =>
        WakeupKey2(env);
    }

    /** alarm_process, with the clock read as `due` and callbacks that change the list under it. */
    method ProcessAlarms(due: Time, envs: nat -> Env)
      requires Valid() && Normal(due) && forall k :: GoodEnv(envs(k), due)
      modifies this, queue, queue.Repr
      ensures Valid() && fresh(queue.Repr - old(queue.Repr))
      ensures Value() == Process(old(Value()), due, envs)
    {
      CallbacksTame(due, envs);
      var count := 0;
      var going := true;
      while going
        invariant Valid() && fresh(queue.Repr - old(queue.Repr))
        invariant SameOutcome(old(Value()), Value(), count, due, envs)
        invariant !going ==> Value() == Process(old(Value()), due, envs)
        decreases going, |DuePart(Value().alarms.list, due)|
      {
        ghost var s := Value();
        var a := queue.PopDue(due);
        if a == null {
          going := false;
        } else {
          ghost var rest := s.alarms.(list := s.alarms.list[1..]);
          assert queue.Value() == rest;
          assert a.alarm == s.alarms.list[0];
          OutcomeStep(old(Value()), s, count, due, envs);
          RunAlarm(a.alarm, due, envs(count));
          count := count + 1;
        }
      }
    }

    /** Dispatching from `s` on leads where dispatching from the start does. */
    static ghost predicate SameOutcome(start: Sys, s: Sys, count: nat, due: Time, envs: nat -> Env)
      requires Normal(due) && forall k :: GoodEnv(envs(k), due)
    {
      CallbacksTame(due, envs);
      var (w, alarms, _) := Dispatch(World(s.ctl, count), s.alarms, due, Callbacks(due, envs));
      Process(start, due, envs) == Sys(w.ctl, alarms)
    }

    static lemma OutcomeStep(start: Sys, s: Sys, count: nat, due: Time, envs: nat -> Env)
      requires Normal(due) && forall k :: GoodEnv(envs(k), due)
      requires SameOutcome(start, s, count, due, envs)
      requires s.alarms.list != [] && !Before(due, s.alarms.list[0].time)
      ensures var rest := s.alarms.(list := s.alarms.list[1..]);
        var next := After(Sys(s.ctl, rest), OnAlarm(s.ctl, s.alarms.list[0], due, envs(count)));
        && SameOutcome(start, next, count + 1, due, envs)
        && |DuePart(next.alarms.list, due)| < |DuePart(s.alarms.list, due)|
    {
      CallbacksTame(due, envs);
      var a, rest := s.alarms.list[0], s.alarms.(list := s.alarms.list[1..]);
      var (c, cmds) := OnAlarm(s.ctl, a, due, envs(count));
      assert Callbacks(due, envs)(World(s.ctl, count), a) == (World(c, count + 1), cmds);
      ExecDue(rest, cmds, due);
    }

    /** The while loop of main over the rounds the outside has in store. */
    method RunLoop(inputs: seq<Input>)
      requires Valid() && forall i :: 0 <= i < |inputs| ==> GoodInput(inputs[i])
      modifies this, queue, queue.Repr
      ensures Valid() && Value() == Rounds(old(Value()), inputs)
    {
      var i := 0;
      while i < |inputs|
        invariant i <= |inputs|
        invariant Valid() && fresh(queue.Repr - old(queue.Repr))
        invariant Rounds(Value(), inputs[i..]) == Rounds(old(Value()), inputs)
      {
        assert inputs[i..][1..] == inputs[i + 1..];
        assert inputs[i..][0] == inputs[i];
        if !quit {
          var delay := queue.UntilNext(inputs[i].now);
          if delay < 1 {
            ProcessAlarms(inputs[i].entered, inputs[i].envs);
          } else {
            HandleEvent(inputs[i].ev, inputs[i].env);
          }
        }
        i := i + 1;
      }
    }
  }

  /** main, from its first timers on: whatever happens, the state it is left in is safe. */
  method ChargeOnly(env: Env, ghost now: Time, inputs: seq<Input>) returns (m: Controller)
    requires Normal(now) && GoodEnv(env, now)
    requires forall i :: 0 <= i < |inputs| ==> GoodInput(inputs[i])
    ensures m.Valid() && m.Value() == Rounds(Boot(env), inputs)
    ensures ChargeSafety.SysInv(m.Value())
  {
    m := new Controller();
    m.LightenScreen(1500, env);
    m.RunLoop(inputs);
    ChargeSafety.FromBoot(env, now, inputs);
  }
}
