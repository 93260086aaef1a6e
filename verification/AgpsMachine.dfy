/** The AgpsStateMachine and DSStateMachine classes of gps/libloc_api_50001/loc_eng_agps.{h,cpp}.
    Each method is proved to do to the object what the AgpsSpec function of the same name does to
    its abstract value.  `ds` stands for the dynamic type: it selects the overriding bodies. */
module AgpsMachine {
  import opened ListSpec
  import opened AgpsSpec

  class AgpsStateMachine {
    const single: bool
    const ds: bool
    var state: State
    var subs: seq<Entry>
    var retries: nat
    ghost var trace: seq<Effect>

    ghost function Value(): Machine
      reads this
    {
      Machine(state, subs, single, ds, retries, trace)
    }

    constructor (single: bool, ds: bool)
      ensures Value() == Fresh(single, ds)
    {
      this.single, this.ds := single, ds;
      state, subs, retries, trace := Released, [], 0, [];
    }

    /** The notifyRsrcStatus of one subscriber object, once its notification is known to be for it. */
    method Inform(c: Client, status: Status, ghost listed: bool)
      modifies this
      ensures Value() == Tell(old(Value()), c, status, listed)
    {
      trace := trace + [Told(c, status, listed)];
      if c.kind.Ds? && status.RsrcDenied? {
        retries := 0;
      }
    }

    /** One linked_list_search with notifySubscriber as its callback and removal on. */
    method NotifyAndRemoveFirst(n: Notification) returns (found: bool)
      requires n.deleteAfter
      modifies this
      ensures found ==> |subs| < |old(subs)| && Notify(Value(), n) == Notify(old(Value()), n)
      ensures !found ==> Value() == old(Value()) && Value() == Notify(old(Value()), n)
    {
      var i := 0;
      while i < |subs|
        invariant i <= |subs| && Value() == old(Value())
        invariant forall j :: 0 <= j < i ==> !n.Reaches(subs[j])
      {
        if n.Reaches(subs[i]) {
          ghost var before := Value();
          Inform(subs[i].client, n.status, true);
          trace := trace + [Removed(subs[i].client)];
          subs := RemoveAt(subs, i);
          NotifyStep(before, n, i);
          return true;
        }
        i := i + 1;
      }
      TellAllSkips(Value(), subs, n);
      RejectAll(subs, Reached(n));
      return false;
    }

    method NotifySubscribers(n: Notification)
      modifies this
      ensures Value() == Notify(old(Value()), n)
    {
      if n.deleteAfter {
        var found := true;
        while found
          invariant Notify(Value(), n) == Notify(old(Value()), n)
          invariant !found ==> Value() == Notify(old(Value()), n)
          decreases found, |subs|
        {
          ghost var before := |subs|;
          found := NotifyAndRemoveFirst(n);
        }
      } else {
        var i := 0;
        while i < |subs|
          invariant i <= |subs| && subs == old(subs)
          invariant TellAll(Value(), subs[i..], n) == TellAll(old(Value()), subs, n)
        {
          if n.Reaches(subs[i]) {
            Inform(subs[i].client, n.status, true);
          }
          i := i + 1;
        }
      }
    }

    method AddSubscriber(c: Client)
      modifies this
      ensures Value() == AgpsSpec.AddSubscriber(old(Value()), c)
    {
      if FirstMatch(subs, To(c)) == |subs| {
        subs := [Entry(c, false)] + subs;
        trace := trace + [Added(c)];
      }
    }

    method SetInactive(k: nat)
      requires k < |subs| && subs[k].client.WaitsForClose()
      modifies this
      ensures Value() == Leave(old(Value()), k)
    {
      subs := subs[k := subs[k].(inactive := true)];
      trace := trace + [Deactivated(subs[k].client)];
    }

    method InformFallback(handle: Option<Handle>)
      modifies this
      ensures Value() == FallBack(old(Value()), handle)
    {
      retries := 0;
      trace := trace + [FellBack(handle)];
    }

    /** The switch over the servicer's answer in DSStateMachine::sendRsrcRequest. */
    method TakeAnswer(handle: Option<Handle>, reply: Reply) returns (code: int)
      requires handle == FirstActive(subs)
      modifies this
      ensures (Value(), code) == Answered(old(Value()), reply)
    {
      code := reply.code;
      if code == ERR_ENGINE_BUSY {
        retries := (retries + 1) % 256;
        if retries > MAX_START_DATA_CALL_RETRIES {
          InformFallback(handle);
        } else {
          trace := trace + [RetryTimer];
          if reply.timerStarted {
            code := -1;
          }
        }
      } else if code == ERR_UNSUPPORTED || code == -1 {
        InformFallback(handle);
      }
    }

    method SendRsrcRequest(action: Action, reply: Reply) returns (code: int)
      modifies this
      ensures (Value(), code) == Send(old(Value()), action, reply)
    {
      var k := FirstMatch(subs, BroadcastActive);
      if !ds {
        if (k == |subs|) == action.Release? {
          trace := trace + [Asked(action)];
        } else {
          trace := trace + [Suppressed(action)];
        }
        return 0;
      }
      var handle := None;
      if k < |subs| {
        handle := Some(subs[k].client.id);
      }
      trace := trace + [Asked(action)];
      code := TakeAnswer(handle, reply);
    }

    method StopUsing(k: nat)
      requires k < |subs|
      modifies this
      ensures Value() == Leave(old(Value()), k)
    {
      var c := subs[k].client;
      if c.WaitsForClose() {
        SetInactive(k);
      } else {
        NotifySubscribers(Notification(To(c), RsrcUnsubscribe, true));
      }
    }

    method HasActiveSubscribers() returns (r: bool)
      ensures r == HasActive(subs)
    {
      var k := FirstMatch(subs, BroadcastActive);
      r := k < |subs|;
    }

    /** AgpsReleasedState, AgpsPendingState, AgpsAcquiredState and AgpsReleasingState on RSRC_SUBSCRIBE. */
    method HandleSubscribe(c: Client, reply: Reply)
      modifies this
      ensures Value() == OnSubscribe(old(Value()), c, reply)
    {
      match state
      case Released =>
        AddSubscriber(c);
        var code := SendRsrcRequest(Request, reply);
        if code == 0 {
          state := Pending;
        }
      case Acquired =>
        Inform(c, RsrcGranted, false);
        AddSubscriber(c);
      case Pending =>
        AddSubscriber(c);
      case Releasing =>
        AddSubscriber(c);
    }

    /** The same four on RSRC_UNSUBSCRIBE, for the list entry at `k`. */
    method HandleUnsubscribe(k: nat, reply: Reply)
      requires k < |subs|
      modifies this
      ensures Value() == OnUnsubscribe(old(Value()), k, reply)
    {
      if state == Released {
        Inform(subs[k].client, RsrcUnsubscribe, true);
        return;
      }
      StopUsing(k);
      if state == Releasing {
        if subs == [] {
          state := Released;
        }
        return;
      }
      var active := HasActiveSubscribers();
      if subs == [] {
        var _ := SendRsrcRequest(Release, reply);
        state := Released;
      } else if !active {
        var _ := SendRsrcRequest(Release, reply);
        state := Releasing;
      }
    }

    /** The same four on RSRC_GRANTED, RSRC_RELEASED and RSRC_DENIED. */
    method HandleStatus(status: Status, reply: Reply)
      modifies this
      ensures Value() == OnStatus(old(Value()), status, reply)
    {
      match state
      case Released =>
      case Pending =>
        if status == RsrcGranted {
          trace := trace + [Accepted(status)];
          NotifySubscribers(Notification(BroadcastActive, status, false));
          state := Acquired;
        } else if status == RsrcDenied {
          trace := trace + [Accepted(status)];
          NotifySubscribers(Notification(BroadcastAll, status, true));
          state := Released;
        }
      case Acquired =>
        if status == RsrcReleased {
          trace := trace + [Accepted(status)];
          NotifySubscribers(Notification(BroadcastAll, status, true));
          state := Released;
        }
      case Releasing =>
        if status == RsrcReleased || status == RsrcDenied {
          trace := trace + [Accepted(status)];
          NotifySubscribers(Notification(BroadcastInactive, status, true));
          var active := HasActiveSubscribers();
          if active {
            var _ := SendRsrcRequest(Request, reply);
            state := Pending;
          } else {
            state := Released;
          }
        }
    }

    method SubscribeRsrc(c: Client, reply: Reply)
      modifies this
      ensures Value() == AgpsSpec.SubscribeRsrc(old(Value()), c, reply)
    {
      if single && subs != [] {
        Inform(c, RsrcDenied, false);
      } else {
        HandleSubscribe(c, reply);
      }
    }

    method UnsubscribeRsrc(c: Client, reply: Reply) returns (found: bool)
      modifies this
      ensures found == (FirstMatch(old(subs), To(c)) < |old(subs)|)
      ensures Value() == AgpsSpec.UnsubscribeRsrc(old(Value()), c, reply)
    {
      var k := FirstMatch(subs, To(c));
      found := k < |subs|;
      if found {
        HandleUnsubscribe(k, reply);
      }
    }

    method OnRsrcEvent(status: Status, reply: Reply)
      modifies this
      ensures Value() == AgpsSpec.OnRsrcEvent(old(Value()), status, reply)
    {
      var current := state;
      match status
      case RsrcGranted =>
        HandleStatus(status, reply);
      case RsrcDenied =>
        HandleStatus(status, reply);
      case RsrcReleased =>
        HandleStatus(status, reply);
        if ds && state == current {
          HandleStatus(RsrcDenied, reply);
        }
      case _ =>
    }

    method DropAllSubscribers()
      modifies this
      ensures Value() == AgpsSpec.DropAllSubscribers(old(Value()))
    {
      subs := [];
      trace := trace + [Dropped];
    }
  }

  // ----- Why the restart-from-head loop computes Notify

  lemma {:induction false} TellAllSubs(m: Machine, es: seq<Entry>, n: Notification, s: seq<Entry>)
    ensures TellAll(m.(subs := s), es, n) == TellAll(m, es, n).(subs := s)
    decreases |es|
  {
    if es != [] {
      TellAllSubs(if n.Reaches(es[0]) then Deliver(m, es[0], n) else m, es[1..], n, s);
    }
  }

  lemma {:induction false} TellAllSkips(m: Machine, es: seq<Entry>, n: Notification)
    requires forall i :: 0 <= i < |es| ==> !n.Reaches(es[i])
    ensures TellAll(m, es, n) == m
    decreases |es|
  {
    if es != [] {
      TellAllSkips(m, es[1..], n);
    }
  }

  lemma {:induction false} TellAllConcat(m: Machine, es: seq<Entry>, fs: seq<Entry>, n: Notification)
    ensures TellAll(m, es + fs, n) == TellAll(TellAll(m, es, n), fs, n)
    decreases |es|
  {
    if es == [] {
      assert es + fs == fs;
    } else {
      assert (es + fs)[1..] == es[1..] + fs;
      TellAllConcat(if n.Reaches(es[0]) then Deliver(m, es[0], n) else m, es[1..], fs, n);
    }
  }

  /** Delivering to the first match and restarting from the head changes nothing in the outcome. */
  lemma NotifyStep(m: Machine, n: Notification, k: nat)
    requires n.deleteAfter && k < |m.subs| && n.Reaches(m.subs[k])
    requires forall j :: 0 <= j < k ==> !n.Reaches(m.subs[j])
    ensures Notify(Deliver(m, m.subs[k], n).(subs := RemoveAt(m.subs, k)), n) == Notify(m, n)
  {
    var before, after := m.subs[..k], m.subs[k + 1..];
    var rest := before + after;
    var told := Deliver(m, m.subs[k], n);
    assert m.subs == before + [m.subs[k]] + after;
    TellAllSkips(m, before, n);
    TellAllSkips(told, before, n);
    TellAllConcat(m, before, [m.subs[k]] + after, n);
    assert m.subs == before + ([m.subs[k]] + after);
    assert ([m.subs[k]] + after)[1..] == after;
    TellAllConcat(told, before, after, n);
    TellAllSubs(told, rest, n, rest);
    RejectConcat(before, [m.subs[k]] + after, Reached(n));
    RejectConcat([m.subs[k]], after, Reached(n));
    RejectConcat(before, after, Reached(n));
  }
}
