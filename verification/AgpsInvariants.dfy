/** What holds in every reachable state of an AgpsStateMachine whose requests go to an AGpsServicer
    (not a DSStateMachine). */
module AgpsInvariants {
  import opened ListSpec
  import opened AgpsSpec

  // ----- What a trace says

  /** The framework has been asked for the resource and neither side has ended that since. */
  predicate Outstanding(t: seq<Effect>) {
    t != [] &&
    match t[|t| - 1]
    case Asked(action) => action.Request?
    case Accepted(status) => status.RsrcGranted? && Outstanding(t[..|t| - 1])
    case _ => Outstanding(t[..|t| - 1])
  }

  /** A request is sent only when none is outstanding, a release only when one is, and none is suppressed. */
  predicate Justified(past: seq<Effect>, e: Effect) {
    match e
    case Asked(action) => action.Request? != Outstanding(past)
    case Suppressed(_) => false
    case _ => true
  }

  predicate Sound(t: seq<Effect>) {
    forall i :: 0 <= i < |t| ==> Justified(t[..i], t[i])
  }

  lemma Extend(t: seq<Effect>, e: Effect)
    requires Sound(t) && Justified(t, e)
    ensures Sound(t + [e])
    ensures |t + [e]| - 1 == |t| && (t + [e])[|t|] == e && (t + [e])[..|t|] == t
  {
    var u := t + [e];
    forall i | 0 <= i < |u| ensures Justified(u[..i], u[i]) {
      assert u[..i] == t[..i];
      if i == |t| {
        assert u[..i] == t;
      }
    }
  }

  // ----- The invariants

  /** No later entry takes an earlier one for itself: the list holds nobody twice. */
  predicate Distinct(s: seq<Entry>) {
    forall i, j :: 0 <= i < j < |s| ==> !s[j].client.Equals(s[i].client)
  }

  predicate Shape(m: Machine) {
    && Distinct(m.subs)
    && (m.state.Released? ==> m.subs == [])
    && (m.state.Pending? || m.state.Acquired? ==> m.subs == [] || HasActive(m.subs))
    && (m.single ==> |m.subs| <= 1)
  }

  predicate HoldsResource(state: State) {
    state.Pending? || state.Acquired?
  }

  /** The trace `t`, against the state the machine is in or about to enter. */
  predicate Balanced(t: seq<Effect>, state: State) {
    Sound(t) && Outstanding(t) == HoldsResource(state)
  }

  predicate Inv(m: Machine) {
    !m.ds && Shape(m) && Balanced(m.trace, m.state)
  }

  /** What an engine-restart drop can break. */
  predicate Attended(m: Machine) {
    && (m.state.Pending? || m.state.Acquired? ==> HasActive(m.subs))
    && (m.state.Releasing? ==> HasInactive(m.subs))
  }

  // ----- Who a specific notification reaches

  /** Unsubscribing the first entry equal to `c` matches that entry and no other. */
  lemma OnlyOneMatches(s: seq<Entry>, c: Client, k: nat, j: nat)
    requires Distinct(s)
    requires k == FirstMatch(s, To(c)) && k < |s| && j < |s|
    ensures s[j].client.Equals(s[k].client) <==> j == k
  {
    if j < k {
      assert !Notification(To(c), RsrcMax, false).ForMe(s[j]);
      assert !s[k].client.Equals(s[j].client);
    }
  }

  lemma {:induction false} RejectOne(s: seq<Entry>, p: Entry -> bool, k: nat)
    requires k < |s|
    requires forall j :: 0 <= j < |s| ==> (p(s[j]) <==> j == k)
    ensures Reject(s, p) == RemoveAt(s, k)
  {
    var before, after := s[..k], s[k + 1..];
    assert s == before + ([s[k]] + after);
    RejectConcat(before, [s[k]] + after, p);
    RejectConcat([s[k]], after, p);
    RejectAll(before, p);
    RejectAll(after, p);
  }

  lemma {:induction false} FilterOnly(s: seq<Entry>, p: Entry -> bool, k: nat)
    requires k < |s|
    requires forall j :: 0 <= j < |s| ==> (p(s[j]) <==> j == k)
    ensures Filter(s, p) == [s[k]]
  {
    var before, after := s[..k], s[k + 1..];
    assert s == before + ([s[k]] + after);
    FilterConcat(before, [s[k]] + after, p);
    FilterConcat([s[k]], after, p);
    RejectAll(before, p);
    RejectAll(after, p);
  }

  lemma {:induction false} RejectDistinct(s: seq<Entry>, p: Entry -> bool)
    requires Distinct(s)
    ensures Distinct(Reject(s, p))
  {
    if s != [] && !p(s[0]) {
      RejectDistinct(s[1..], p);
      var r := Reject(s[1..], p);
      forall j | 0 <= j < |r| ensures !r[j].client.Equals(s[0].client) {
        var k := RejectFrom(s[1..], p, j);
        assert r[j] == s[k + 1];
      }
    } else if s != [] {
      RejectDistinct(s[1..], p);
    }
  }

  // ----- One more effect

  /** The folds on a trace that grew by one effect. */
  lemma Grown(t: seq<Effect>, e: Effect)
    ensures (t + [e])[|t + [e]| - 1] == e && (t + [e])[..|t + [e]| - 1] == t
  {
  }

  /** Effects that neither end nor make a request. */
  predicate Silent(e: Effect) {
    !e.Asked? && !e.Suppressed? && !e.Accepted?
  }

  lemma SilentKeeps(t: seq<Effect>, e: Effect, state: State)
    requires Balanced(t, state) && Silent(e)
    ensures Balanced(t + [e], state)
  {
    Extend(t, e);
  }

  lemma RequestKeeps(t: seq<Effect>, state: State)
    requires Balanced(t, state) && !HoldsResource(state)
    ensures Balanced(t + [Asked(Request)], Pending)
  {
    Extend(t, Asked(Request));
  }

  lemma ReleaseKeeps(t: seq<Effect>, state: State, next: State)
    requires Balanced(t, state) && HoldsResource(state) && !HoldsResource(next)
    ensures Balanced(t + [Asked(Release)], next)
  {
    Extend(t, Asked(Release));
  }

  lemma {:induction false} WalkKeeps(m: Machine, es: seq<Entry>, n: Notification, state: State)
    requires Balanced(m.trace, state)
    ensures Balanced(TellAll(m, es, n).trace, state)
    decreases |es|
  {
    if es != [] {
      if n.Reaches(es[0]) {
        var told := Told(es[0].client, n.status, true);
        SilentKeeps(m.trace, told, state);
        if n.deleteAfter {
          SilentKeeps(m.trace + [told], Removed(es[0].client), state);
        }
        WalkKeeps(Deliver(m, es[0], n), es[1..], n, state);
      } else {
        WalkKeeps(m, es[1..], n, state);
      }
    }
  }

  // ----- Building blocks of the handlers

  lemma Unlisted(s: seq<Entry>, c: Client)
    requires FirstMatch(s, To(c)) == |s|
    ensures forall i :: 0 <= i < |s| ==> !s[i].client.Equals(c) && s[i].client != c
  {
    forall i | 0 <= i < |s| ensures !s[i].client.Equals(c) {
      assert !Notification(To(c), RsrcMax, false).ForMe(s[i]);
    }
  }

  lemma AddKeeps(m: Machine, c: Client, state: State)
    requires Distinct(m.subs) && Balanced(m.trace, state)
    ensures var r := AddSubscriber(m, c);
      && Distinct(r.subs) && Balanced(r.trace, state)
      && (r.subs == m.subs || r.subs == [Entry(c, false)] + m.subs)
    ensures m.subs == [] ==> AddSubscriber(m, c).subs == [Entry(c, false)]
  {
    if FirstMatch(m.subs, To(c)) == |m.subs| {
      Unlisted(m.subs, c);
      SilentKeeps(m.trace, Added(c), state);
    }
  }

  /** sendRsrcRequest with its guard satisfied: the servicer is asked. */
  lemma SendAsks(m: Machine, action: Action, reply: Reply)
    requires !m.ds && HasActive(m.subs) == action.Request?
    ensures Send(m, action, reply) == (Log(m, Asked(action)), 0)
  {
    var k := FirstMatch(m.subs, BroadcastActive);
    if HasActive(m.subs) {
      var j :| 0 <= j < |m.subs| && !m.subs[j].IsInactive();
      assert Notification(BroadcastActive, RsrcMax, false).ForMe(m.subs[j]);
    }
  }

  /** What a servicer's answer adds to the trace of a DSStateMachine: a timer, a fallback or nothing. */
  lemma AnsweredShape(m: Machine, reply: Reply)
    ensures var r := Answered(m, reply).0;
      && r == m.(trace := r.trace, retries := r.retries)
      && (r.trace == m.trace || r.trace == m.trace + [RetryTimer]
          || r.trace == m.trace + [FellBack(FirstActive(m.subs))])
  {
  }

  lemma Member(s: seq<Entry>, k: nat)
    requires k < |s|
    ensures !s[k].IsInactive() ==> HasActive(s)
    ensures s[k].IsInactive() ==> HasInactive(s)
  {
  }

  predicate LeftAt(s: seq<Entry>, k: nat, r: seq<Entry>)
    requires k < |s|
  {
    if s[k].client.WaitsForClose() then r == s[k := Entry(s[k].client, true)] else r == RemoveAt(s, k)
  }

  /** An entry that leaves is the only one to change. */
  lemma LeaveShape(m: Machine, c: Client, k: nat)
    requires Distinct(m.subs) && k == FirstMatch(m.subs, To(c)) && k < |m.subs|
    ensures var r := Leave(m, k); Distinct(r.subs) && LeftAt(m.subs, k, r.subs)
  {
    var d := m.subs[k].client;
    if d.WaitsForClose() {
      assert forall i :: 0 <= i < |m.subs| ==> Leave(m, k).subs[i].client == m.subs[i].client;
    } else {
      var n := Notification(To(d), RsrcUnsubscribe, true);
      RejectDistinct(m.subs, Reached(n));
      forall j | 0 <= j < |m.subs| ensures Reached(n)(m.subs[j]) <==> j == k {
        OnlyOneMatches(m.subs, c, k, j);
      }
      RejectOne(m.subs, Reached(n), k);
    }
  }

  lemma LeaveKeeps(m: Machine, c: Client, k: nat)
    requires Distinct(m.subs) && Balanced(m.trace, m.state)
    requires k == FirstMatch(m.subs, To(c)) && k < |m.subs|
    ensures var r := Leave(m, k);
      && Distinct(r.subs) && Balanced(r.trace, m.state)
      && r.state == m.state && r.ds == m.ds && r.single == m.single
      && LeftAt(m.subs, k, r.subs)
  {
    LeaveShape(m, c, k);
    var d := m.subs[k].client;
    if d.WaitsForClose() {
      SilentKeeps(m.trace, Deactivated(d), m.state);
    } else {
      WalkKeeps(m, m.subs, Notification(To(d), RsrcUnsubscribe, true), m.state);
    }
  }

  /** What an unsubscribe does beyond letting the entry leave. */
  lemma LeftOrSent(m: Machine, k: nat, reply: Reply)
    requires k < |m.subs| && !m.state.Released?
    ensures var left, r := Leave(m, k), OnUnsubscribe(m, k, reply);
      || (r.trace == left.trace && r.subs == left.subs)
      || (r.trace == Send(left, Release, reply).0.trace && r.subs == Send(left, Release, reply).0.subs)
  {
  }

  lemma LeavingKeepsInactive(s: seq<Entry>, k: nat, r: seq<Entry>)
    requires k < |s| && LeftAt(s, k, r) && HasInactive(s)
    ensures HasInactive(r)
  {
    var j :| 0 <= j < |s| && s[j].IsInactive();
    if s[k].client.WaitsForClose() {
      Member(r, j);
    } else {
      assert j != k;
      Member(r, if j < k then j else j - 1);
    }
  }

  lemma AddedIsAttended(m: Machine, c: Client)
    requires m.subs == [] || HasActive(m.subs) || m.state.Releasing?
    ensures var r := AddSubscriber(m, c);
      && (m.subs == [] || HasActive(m.subs) ==> HasActive(r.subs))
      && (HasInactive(m.subs) ==> HasInactive(r.subs))
  {
    var r := AddSubscriber(m, c);
    if r.subs != m.subs {
      Member(r.subs, 0);
      if HasInactive(m.subs) {
        var j :| 0 <= j < |m.subs| && m.subs[j].IsInactive();
        Member(r.subs, j + 1);
      }
    }
  }

  // ----- Every call keeps the invariants

  predicate Keeps(m: Machine, r: Machine) {
    Inv(r) && (Attended(m) ==> Attended(r))
  }

  lemma SubscribeWhenReleased(m: Machine, c: Client, reply: Reply)
    requires Inv(m) && m.state.Released?
    ensures Keeps(m, OnSubscribe(m, c, reply))
  {
    AddKeeps(m, c, Released);
    var added := AddSubscriber(m, c);
    Member(added.subs, 0);
    SendAsks(added, Request, reply);
    RequestKeeps(added.trace, Released);
  }

  lemma SubscribeWhenAcquired(m: Machine, c: Client, reply: Reply)
    requires Inv(m) && m.state.Acquired? && (m.single ==> m.subs == [])
    ensures Keeps(m, OnSubscribe(m, c, reply))
  {
    var told := Tell(m, c, RsrcGranted, false);
    SilentKeeps(m.trace, Told(c, RsrcGranted, false), Acquired);
    AddKeeps(told, c, Acquired);
    AddedIsAttended(told, c);
  }

  lemma SubscribeKeeps(m: Machine, c: Client, reply: Reply)
    requires Inv(m)
    ensures Keeps(m, SubscribeRsrc(m, c, reply))
  {
    if m.single && m.subs != [] {
      SilentKeeps(m.trace, Told(c, RsrcDenied, false), m.state);
    } else if m.state.Released? {
      SubscribeWhenReleased(m, c, reply);
    } else if m.state.Acquired? {
      SubscribeWhenAcquired(m, c, reply);
    } else {
      AddKeeps(m, c, m.state);
      AddedIsAttended(m, c);
    }
  }

  lemma UnsubscribeWhenHeld(m: Machine, c: Client, k: nat, reply: Reply)
    requires Inv(m) && HoldsResource(m.state) && k == FirstMatch(m.subs, To(c)) && k < |m.subs|
    ensures Keeps(m, OnUnsubscribe(m, k, reply))
  {
    LeaveKeeps(m, c, k);
    var left := Leave(m, k);
    if !HasActive(left.subs) {
      SendAsks(left, Release, reply);
      if left.subs == [] {
        ReleaseKeeps(left.trace, m.state, Released);
      } else {
        ReleaseKeeps(left.trace, m.state, Releasing);
        Member(left.subs, 0);
      }
    }
  }

  lemma UnsubscribeWhenReleasing(m: Machine, c: Client, k: nat, reply: Reply)
    requires Inv(m) && m.state.Releasing? && k == FirstMatch(m.subs, To(c)) && k < |m.subs|
    ensures Keeps(m, OnUnsubscribe(m, k, reply))
  {
    LeaveKeeps(m, c, k);
    var left := Leave(m, k);
    if HasInactive(m.subs) {
      LeavingKeepsInactive(m.subs, k, left.subs);
    }
  }

  lemma GrantKeeps(m: Machine, reply: Reply)
    requires Inv(m) && m.state.Pending?
    ensures Keeps(m, OnStatus(m, RsrcGranted, reply))
  {
    Extend(m.trace, Accepted(RsrcGranted));
    WalkKeeps(Log(m, Accepted(RsrcGranted)), m.subs, Notification(BroadcastActive, RsrcGranted, false), Acquired);
  }

  /** RSRC_DENIED in Pending, RSRC_RELEASED in Acquired: a terminal broadcast to all empties the list. */
  lemma LossKeeps(m: Machine, status: Status, reply: Reply)
    requires Inv(m) && HoldsResource(m.state) && Accepts(m.state, status) && !status.RsrcGranted?
    ensures Keeps(m, OnStatus(m, status, reply))
  {
    var n := Notification(BroadcastAll, status, true);
    Extend(m.trace, Accepted(status));
    WalkKeeps(Log(m, Accepted(status)), m.subs, n, Released);
    RejectEvery(m.subs, Reached(n));
  }

  lemma ClosedKeeps(m: Machine, status: Status, reply: Reply)
    requires Inv(m) && m.state.Releasing? && Accepts(m.state, status)
    ensures Keeps(m, OnStatus(m, status, reply))
  {
    var heard := Log(m, Accepted(status));
    Extend(m.trace, Accepted(status));
    var n := Notification(BroadcastInactive, status, true);
    WalkKeeps(heard, m.subs, n, Releasing);
    RejectDistinct(m.subs, Reached(n));
    var closed := Notify(heard, n);
    RejectMembers(m.subs, Reached(n));
    assert forall i :: 0 <= i < |closed.subs| ==> !closed.subs[i].IsInactive();
    if HasActive(closed.subs) {
      SendAsks(closed, Request, reply);
      RequestKeeps(closed.trace, Releasing);
      assert |closed.subs| <= |m.subs|;
    } else if closed.subs != [] {
      Member(closed.subs, 0);
    }
  }

  lemma StepKeeps(m: Machine, call: Call, reply: Reply)
    requires Inv(m)
    ensures Inv(Step(m, call, reply))
    ensures Attended(m) && !call.Drop? ==> Attended(Step(m, call, reply))
  {
    match call
    case Subscribe(c) =>
      SubscribeKeeps(m, c, reply);
    case Unsubscribe(c) =>
      var k := FirstMatch(m.subs, To(c));
      if k < |m.subs| {
        if m.state.Releasing? {
          UnsubscribeWhenReleasing(m, c, k, reply);
        } else {
          UnsubscribeWhenHeld(m, c, k, reply);
        }
      }
    case Event(status) =>
      if Accepts(m.state, status) {
        if status.RsrcGranted? {
          GrantKeeps(m, reply);
        } else if m.state.Releasing? {
          ClosedKeeps(m, status, reply);
        } else {
          LossKeeps(m, status, reply);
        }
      }
    case Drop =>
      SilentKeeps(m.trace, Dropped, m.state);
  }

  predicate DropFree(calls: seq<(Call, Reply)>) {
    forall i :: 0 <= i < |calls| ==> !calls[i].0.Drop?
  }

  /** Every reachable state, engine restarts included, has Inv; without them nobody is left waiting. */
  lemma {:induction false} Reachable(single: bool, calls: seq<(Call, Reply)>)
    ensures Inv(Run(Fresh(single, false), calls))
    ensures DropFree(calls) ==> Attended(Run(Fresh(single, false), calls))
    decreases |calls|
  {
    if calls != [] {
      var prefix := calls[..|calls| - 1];
      Reachable(single, prefix);
      var (call, reply) := calls[|calls| - 1];
      StepKeeps(Run(Fresh(single, false), prefix), call, reply);
    }
  }

  // ----- The same, said of the trace

  /** Requests and releases alternate, starting with a request, and none is ever suppressed. */
  lemma {:induction false} RequestBalance(single: bool, calls: seq<(Call, Reply)>)
    ensures var m := Run(Fresh(single, false), calls);
      && (Outstanding(m.trace) <==> m.state.Pending? || m.state.Acquired?)
      && forall i :: 0 <= i < |m.trace| ==>
           && (m.trace[i] == Asked(Request) ==> !Outstanding(m.trace[..i]))
           && (m.trace[i] == Asked(Release) ==> Outstanding(m.trace[..i]))
           && !m.trace[i].Suppressed?
  {
    Reachable(single, calls);
    var m := Run(Fresh(single, false), calls);
    forall i | 0 <= i < |m.trace|
      ensures m.trace[i].Asked? ==> m.trace[i].action.Request? != Outstanding(m.trace[..i])
      ensures !m.trace[i].Suppressed?
    {
      assert Justified(m.trace[..i], m.trace[i]);
    }
  }

  /** What a notification walk adds to the trace: one delivery for each entry, in order. */
  function Deliveries(es: seq<Entry>, n: Notification): seq<Effect> {
    if es == [] then []
    else
      [Told(es[0].client, n.status, true)]
      + (if n.deleteAfter then [Removed(es[0].client)] else [])
      + Deliveries(es[1..], n)
  }

  lemma {:induction false} WalkTrace(m: Machine, es: seq<Entry>, n: Notification)
    ensures TellAll(m, es, n).trace == m.trace + Deliveries(Filter(es, Reached(n)), n)
    decreases |es|
  {
    if es != [] {
      var rest := Filter(es[1..], Reached(n));
      if Reached(n)(es[0]) {
        WalkTrace(Deliver(m, es[0], n), es[1..], n);
        assert Filter(es, Reached(n)) == [es[0]] + rest;
        assert ([es[0]] + rest)[1..] == rest;
      } else {
        WalkTrace(m, es[1..], n);
      }
    }
  }

  /** notifySubscribers: every matching entry hears it once, in list order, and nobody else does;
      with deletion exactly the others stay, in their order. */
  lemma {:induction false} NotifiesEachOnce(m: Machine, n: Notification)
    ensures var r := Notify(m, n);
      && r.trace == m.trace + Deliveries(Filter(m.subs, Reached(n)), n)
      && r.subs == (if n.deleteAfter then Reject(m.subs, Reached(n)) else m.subs)
      && r.state == m.state
  {
    WalkTrace(m, m.subs, n);
  }
}
