/** Who knows of the framework's grant: what a state machine of either class, single-subscriber or not, has
    told its clients over any calls and engine restarts. */
module AgpsGrants {
  import opened ListSpec
  import opened AgpsSpec
  import opened AgpsInvariants
  import opened AgpsService

  // ----- What a trace says of grants

  /** The framework granted the resource, and since then no release was sent and no RSRC_RELEASED accepted. */
  predicate HoldsGrant(t: seq<Effect>) {
    t != [] &&
    match t[|t| - 1]
    case Accepted(status) => status.RsrcGranted? || (!status.RsrcReleased? && HoldsGrant(t[..|t| - 1]))
    case Asked(action) => action.Request? && HoldsGrant(t[..|t| - 1])
    case _ => HoldsGrant(t[..|t| - 1])
  }

  /** `c` has been told RSRC_GRANTED since it was last added, or on being added. */
  predicate Informed(t: seq<Effect>, c: Client) {
    t != [] &&
    match t[|t| - 1]
    case Told(d, status, listed) => (d == c && status.RsrcGranted?) || Informed(t[..|t| - 1], c)
    case Added(d) =>
      if d == c then |t| > 1 && t[|t| - 2] == Told(c, RsrcGranted, false) else Informed(t[..|t| - 1], c)
    case _ => Informed(t[..|t| - 1], c)
  }

  // ----- The invariant

  /** Clients hear RSRC_GRANTED only while the framework's grant stands. */
  predicate Backed(t: seq<Effect>) {
    forall i :: 0 <= i < |t| && t[i].Told? && t[i].status.RsrcGranted? ==> HoldsGrant(t[..i])
  }

  /** The trace `t`, against a list `s` and the state the machine is in or about to enter. */
  predicate Knows(t: seq<Effect>, s: seq<Entry>, state: State) {
    && Backed(t)
    && HoldsGrant(t) == state.Acquired?
    && forall i :: 0 <= i < |s| && !s[i].IsInactive() ==> Informed(t, s[i].client) == state.Acquired?
  }

  predicate Granting(m: Machine) {
    Distinct(m.subs) && Knows(m.trace, m.subs, m.state)
  }

  lemma {:induction false} BackedNext(t: seq<Effect>, e: Effect)
    requires Backed(t) && (e.Told? && e.status.RsrcGranted? ==> HoldsGrant(t))
    ensures Backed(t + [e])
    ensures (t + [e])[|t + [e]| - 1] == e && (t + [e])[..|t + [e]| - 1] == t
  {
    var u := t + [e];
    forall i | 0 <= i < |u| && u[i].Told? && u[i].status.RsrcGranted? ensures HoldsGrant(u[..i]) {
      assert u[..i] == t[..i];
      assert i == |t| ==> u[..i] == t;
    }
  }

  /** Effects that neither give nor end a grant. */
  predicate Plain(e: Effect) {
    match e
    case Told(_, status, _) => !status.RsrcGranted?
    case Asked(action) => action.Request?
    case Added(_) => false
    case Accepted(_) => false
    case _ => true
  }

  lemma PlainKeeps(t: seq<Effect>, e: Effect, s: seq<Entry>, state: State)
    requires Knows(t, s, state) && Plain(e)
    ensures Knows(t + [e], s, state)
  {
    BackedNext(t, e);
  }

  lemma {:induction false} PlainWalk(m: Machine, es: seq<Entry>, n: Notification, s: seq<Entry>, state: State)
    requires !n.status.RsrcGranted? && Knows(m.trace, s, state)
    ensures Knows(TellAll(m, es, n).trace, s, state)
    decreases |es|
  {
    if es != [] {
      if n.Reaches(es[0]) {
        var told := Told(es[0].client, n.status, true);
        PlainKeeps(m.trace, told, s, state);
        if n.deleteAfter {
          PlainKeeps(m.trace + [told], Removed(es[0].client), s, state);
        }
        PlainWalk(Deliver(m, es[0], n), es[1..], n, s, state);
      } else {
        PlainWalk(m, es[1..], n, s, state);
      }
    }
  }

  lemma KnowsSome(t: seq<Effect>, s: seq<Entry>, r: seq<Entry>, state: State)
    requires Knows(t, s, state) && forall i :: 0 <= i < |r| ==> r[i].IsInactive() || r[i] in s
    ensures Knows(t, r, state)
  {
  }

  lemma DeletingKnows(m: Machine, n: Notification, state: State)
    requires n.deleteAfter && !n.status.RsrcGranted? && Distinct(m.subs) && Knows(m.trace, m.subs, state)
    ensures var r := Notify(m, n); Distinct(r.subs) && Knows(r.trace, r.subs, state)
  {
    PlainWalk(m, m.subs, n, m.subs, state);
    RejectDistinct(m.subs, Reached(n));
    RejectMembers(m.subs, Reached(n));
    KnowsSome(Notify(m, n).trace, m.subs, Reject(m.subs, Reached(n)), state);
  }

  lemma AnsweredKnows(m: Machine, reply: Reply, s: seq<Entry>, state: State)
    requires Knows(m.trace, s, state)
    ensures var r := Answered(m, reply).0;
      Knows(r.trace, s, state) && r == m.(trace := r.trace, retries := r.retries)
  {
    AnsweredShape(m, reply);
    PlainKeeps(m.trace, RetryTimer, s, state);
    PlainKeeps(m.trace, FellBack(FirstActive(m.subs)), s, state);
  }

  lemma RequestKnows(m: Machine, reply: Reply, state: State)
    requires Knows(m.trace, m.subs, state)
    ensures var r := Send(m, Request, reply).0;
      Knows(r.trace, m.subs, state) && r == m.(trace := r.trace, retries := r.retries)
  {
    PlainKeeps(m.trace, Asked(Request), m.subs, state);
    if m.ds {
      AnsweredKnows(Log(m, Asked(Request)), reply, m.subs, state);
    } else {
      PlainKeeps(m.trace, Suppressed(Request), m.subs, state);
    }
  }

  lemma ReleaseKnows(m: Machine, reply: Reply, state: State)
    requires Backed(m.trace) && !HasActive(m.subs) && !state.Acquired?
    ensures var r := Send(m, Release, reply).0;
      Knows(r.trace, m.subs, state) && r == m.(trace := r.trace, retries := r.retries)
  {
    BackedNext(m.trace, Asked(Release));
    forall i | 0 <= i < |m.subs| ensures m.subs[i].IsInactive() {
      Member(m.subs, i);
    }
    if m.ds {
      AnsweredKnows(Log(m, Asked(Release)), reply, m.subs, state);
    } else {
      SendAsks(m, Release, reply);
    }
  }

  /** A new entry has heard nothing since it joined, but for the grant a machine in Acquired gives it. */
  lemma JoinKnows(t: seq<Effect>, s: seq<Entry>, c: Client, state: State)
    requires Knows(t, s, state)
    requires state.Acquired? ==> t != [] && t[|t| - 1] == Told(c, RsrcGranted, false)
    requires forall i :: 0 <= i < |s| ==> s[i].client != c
    ensures Knows(t + [Added(c)], [Entry(c, false)] + s, state)
  {
    BackedNext(t, Added(c));
    if t != [] && t[|t| - 1].Told? && t[|t| - 1].status.RsrcGranted? {
      assert HoldsGrant(t);
    }
  }

  lemma AddKnows(m: Machine, c: Client, state: State)
    requires Distinct(m.subs) && Knows(m.trace, m.subs, state)
    requires state.Acquired? ==> m.trace != [] && m.trace[|m.trace| - 1] == Told(c, RsrcGranted, false)
    ensures var r := AddSubscriber(m, c);
      && Distinct(r.subs) && Knows(r.trace, r.subs, state)
      && r == m.(subs := r.subs, trace := r.trace)
  {
    if FirstMatch(m.subs, To(c)) == |m.subs| {
      Unlisted(m.subs, c);
      JoinKnows(m.trace, m.subs, c, state);
    }
  }

  lemma SubscribeKnows(m: Machine, c: Client, reply: Reply)
    requires Granting(m)
    ensures Granting(SubscribeRsrc(m, c, reply))
  {
    if m.single && m.subs != [] {
      PlainKeeps(m.trace, Told(c, RsrcDenied, false), m.subs, m.state);
    } else if m.state.Acquired? {
      var told := Tell(m, c, RsrcGranted, false);
      BackedNext(m.trace, Told(c, RsrcGranted, false));
      AddKnows(told, c, Acquired);
    } else {
      AddKnows(m, c, m.state);
      if m.state.Released? {
        RequestKnows(AddSubscriber(m, c), reply, Released);
      }
    }
  }

  lemma LeaveKnows(m: Machine, c: Client, k: nat)
    requires Granting(m) && k == FirstMatch(m.subs, To(c)) && k < |m.subs|
    ensures var r := Leave(m, k); Granting(r) && r == m.(subs := r.subs, trace := r.trace, retries := r.retries)
  {
    LeaveShape(m, c, k);
    var d := m.subs[k].client;
    if d.WaitsForClose() {
      PlainKeeps(m.trace, Deactivated(d), m.subs, m.state);
      KnowsSome(m.trace + [Deactivated(d)], m.subs, m.subs[k := Entry(d, true)], m.state);
    } else {
      DeletingKnows(m, Notification(To(d), RsrcUnsubscribe, true), m.state);
    }
  }

  lemma UnsubscribeKnows(m: Machine, c: Client, reply: Reply)
    requires Granting(m)
    ensures Granting(UnsubscribeRsrc(m, c, reply))
  {
    var k := FirstMatch(m.subs, To(c));
    if k < |m.subs| {
      if m.state.Released? {
        PlainKeeps(m.trace, Told(m.subs[k].client, RsrcUnsubscribe, true), m.subs, Released);
      } else {
        LeaveKnows(m, c, k);
        var left := Leave(m, k);
        if HoldsResource(m.state) && !HasActive(left.subs) {
          ReleaseKnows(left, reply, if left.subs == [] then Released else Releasing);
        }
      }
    }
  }

  lemma {:induction false} GrantingBacked(m: Machine, es: seq<Entry>, n: Notification)
    requires !n.deleteAfter && n.status.RsrcGranted? && Backed(m.trace) && HoldsGrant(m.trace)
    ensures var t := TellAll(m, es, n).trace; Backed(t) && HoldsGrant(t)
    decreases |es|
  {
    if es != [] {
      if n.Reaches(es[0]) {
        BackedNext(m.trace, Told(es[0].client, n.status, true));
        GrantingBacked(Deliver(m, es[0], n), es[1..], n);
      } else {
        GrantingBacked(m, es[1..], n);
      }
    }
  }

  /** A walk that grants: everyone it reaches is informed. */
  lemma {:induction false} GrantingInforms(m: Machine, es: seq<Entry>, n: Notification, c: Client)
    requires !n.deleteAfter && n.status.RsrcGranted?
    ensures Informed(TellAll(m, es, n).trace, c) <==>
            Informed(m.trace, c) || exists i :: 0 <= i < |es| && n.Reaches(es[i]) && es[i].client == c
    decreases |es|
  {
    if es != [] {
      var next := if n.Reaches(es[0]) then Deliver(m, es[0], n) else m;
      Grown(m.trace, Told(es[0].client, n.status, true));
      GrantingInforms(next, es[1..], n, c);
      assert forall i :: 1 <= i < |es| ==> es[i] == es[1..][i - 1];
      assert forall i :: 0 <= i < |es| - 1 ==> es[1..][i] == es[i + 1];
    }
  }

  lemma GrantedKnows(m: Machine, reply: Reply)
    requires Granting(m) && m.state.Pending?
    ensures Granting(OnStatus(m, RsrcGranted, reply))
  {
    var heard := Log(m, Accepted(RsrcGranted));
    var n := Notification(BroadcastActive, RsrcGranted, false);
    BackedNext(m.trace, Accepted(RsrcGranted));
    GrantingBacked(heard, m.subs, n);
    var r := Notify(heard, n);
    forall i | 0 <= i < |m.subs| && !m.subs[i].IsInactive() ensures Informed(r.trace, m.subs[i].client) {
      GrantingInforms(heard, m.subs, n, m.subs[i].client);
    }
  }

  /** The end of a request or a grant: RSRC_DENIED in Pending, RSRC_RELEASED in Acquired. */
  lemma LostKnows(m: Machine, status: Status, reply: Reply)
    requires Granting(m) && HoldsResource(m.state) && Accepts(m.state, status) && !status.RsrcGranted?
    ensures Granting(OnStatus(m, status, reply))
  {
    var heard := Log(m, Accepted(status));
    var n := Notification(BroadcastAll, status, true);
    BackedNext(m.trace, Accepted(status));
    PlainWalk(heard, m.subs, n, [], Released);
    RejectEvery(m.subs, Reached(n));
  }

  lemma ClosedKnows(m: Machine, status: Status, reply: Reply)
    requires Granting(m) && m.state.Releasing? && Accepts(m.state, status)
    ensures Granting(OnStatus(m, status, reply))
  {
    var heard := Log(m, Accepted(status));
    var n := Notification(BroadcastInactive, status, true);
    BackedNext(m.trace, Accepted(status));
    DeletingKnows(heard, n, Releasing);
    var closed := Notify(heard, n);
    RequestKnows(closed, reply, Releasing);
  }

  lemma StatusKnows(m: Machine, status: Status, reply: Reply)
    requires Granting(m)
    ensures Granting(OnStatus(m, status, reply))
  {
    if Accepts(m.state, status) {
      if m.state.Releasing? {
        ClosedKnows(m, status, reply);
      } else if status.RsrcGranted? {
        GrantedKnows(m, reply);
      } else {
        LostKnows(m, status, reply);
      }
    }
  }

  lemma StepKnows(m: Machine, call: Call, reply: Reply)
    requires Granting(m)
    ensures Granting(Step(m, call, reply))
  {
    match call
    case Subscribe(c) => SubscribeKnows(m, c, reply);
    case Unsubscribe(c) => UnsubscribeKnows(m, c, reply);
    case Event(status) =>
      StatusKnows(m, status, reply);
      StatusKnows(OnStatus(m, status, reply), RsrcDenied, reply);
    case Drop => PlainKeeps(m.trace, Dropped, m.subs, m.state);
  }

  lemma {:induction false} AlwaysGranting(single: bool, ds: bool, calls: seq<(Call, Reply)>)
    ensures Granting(Run(Fresh(single, ds), calls))
    decreases |calls|
  {
    if calls != [] {
      var prefix := calls[..|calls| - 1];
      var (call, reply) := calls[|calls| - 1];
      AlwaysGranting(single, ds, prefix);
      StepKnows(Run(Fresh(single, ds), prefix), call, reply);
    }
  }

  /** Clients hear RSRC_GRANTED only while the framework's grant stands, which is exactly in Acquired; there
      every active entry has heard it since it joined, and in the other states no active entry has. */
  lemma {:induction false} GrantKnowledge(single: bool, ds: bool, calls: seq<(Call, Reply)>)
    ensures var m := Run(Fresh(single, ds), calls);
      && (HoldsGrant(m.trace) <==> m.state.Acquired?)
      && (forall i :: 0 <= i < |m.trace| && m.trace[i].Told? && m.trace[i].status.RsrcGranted? ==>
            HoldsGrant(m.trace[..i]))
      && forall j :: 0 <= j < |m.subs| && !m.subs[j].IsInactive() ==>
            (Informed(m.trace, m.subs[j].client) <==> m.state.Acquired?)
  {
    AlwaysGranting(single, ds, calls);
  }
}
