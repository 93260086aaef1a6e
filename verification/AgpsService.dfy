/** Who an AgpsStateMachine serves: what an engine restart takes away and which calls bring it back, and
    whether a client that subscribes gets an entry that counts. */
module AgpsService {
  import opened ListSpec
  import opened AgpsSpec
  import opened AgpsInvariants

  lemma {:induction false} RunNext(m: Machine, calls: seq<(Call, Reply)>, call: Call, reply: Reply)
    ensures Run(m, calls + [(call, reply)]) == Step(Run(m, calls), call, reply)
  {
    assert (calls + [(call, reply)])[..|calls|] == calls;
  }

  // ----- Engine restarts

  /** dropAllSubscribers on a machine that is waiting for somebody. */
  predicate Strands(m: Machine, call: Call) {
    call.Drop? && !m.state.Released?
  }

  /** The calls after which a stranded machine has somebody to serve again, or is at rest. */
  predicate Restores(m: Machine, call: Call) {
    match call
    case Subscribe(_) => HoldsResource(m.state)
    case Unsubscribe(c) =>
      var k := FirstMatch(m.subs, To(c));
      k < |m.subs| && (m.subs[k].client.WaitsForClose() || |m.subs| == 1)
    case Event(status) => Accepts(m.state, status) && !status.RsrcGranted?
    case Drop => false
  }

  lemma SubscribeRestores(m: Machine, c: Client, reply: Reply)
    requires Inv(m) && !Attended(m)
    ensures Attended(SubscribeRsrc(m, c, reply)) <==> HoldsResource(m.state)
  {
    SubscribedList(m, c, reply);
    var r := SubscribeRsrc(m, c, reply);
    if HoldsResource(m.state) {
      assert m.subs == [];
      Member(r.subs, 0);
    }
  }

  lemma UnsubscribeRestores(m: Machine, c: Client, reply: Reply)
    requires Inv(m) && !Attended(m)
    ensures Attended(UnsubscribeRsrc(m, c, reply)) <==> Restores(m, Unsubscribe(c))
  {
    var k := FirstMatch(m.subs, To(c));
    if k < |m.subs| {
      LeaveShape(m, c, k);
      StrandedLeaves(m.subs, k, Leave(m, k).subs);
    }
  }

  /** Of a stranded list the leaving entry is the only one that can become inactive. */
  lemma StrandedLeaves(s: seq<Entry>, k: nat, r: seq<Entry>)
    requires k < |s| && LeftAt(s, k, r) && !HasInactive(s)
    ensures HasInactive(r) <==> s[k].client.WaitsForClose()
    ensures r == [] <==> |s| == 1 && !s[k].client.WaitsForClose()
  {
    if s[k].client.WaitsForClose() {
      Member(r, k);
    } else {
      forall i | 0 <= i < |r| ensures !r[i].IsInactive() {
        Member(s, if i < k then i else i + 1);
      }
    }
  }

  lemma EventRestores(m: Machine, status: Status, reply: Reply)
    requires Inv(m) && !Attended(m)
    ensures Attended(OnRsrcEvent(m, status, reply)) <==> Restores(m, Event(status))
  {
    if Accepts(m.state, status) {
      var heard := Log(m, Accepted(status));
      if m.state.Releasing? {
        var closed := Notify(heard, Notification(BroadcastInactive, status, true));
        if HasActive(closed.subs) {
          SendAsks(closed, Request, reply);
        }
      }
    }
  }

  /** One call, exactly: only a drop takes somebody to serve away, and only the restoring calls give it back. */
  lemma StepAttends(m: Machine, call: Call, reply: Reply)
    requires Inv(m)
    ensures Attended(Step(m, call, reply)) <==> !Strands(m, call) && (Attended(m) || Restores(m, call))
  {
    if Attended(m) {
      StepKeeps(m, call, reply);
    } else {
      match call
      case Subscribe(c) => SubscribeRestores(m, c, reply);
      case Unsubscribe(c) => UnsubscribeRestores(m, c, reply);
      case Event(status) => EventRestores(m, status, reply);
      case Drop =>
    }
  }

  /** The machine before call `i` of the run. */
  function Before(single: bool, calls: seq<(Call, Reply)>, i: nat): Machine
    requires i <= |calls|
  {
    Run(Fresh(single, false), calls[..i])
  }

  /** The positions in a run of the calls that strand, and of those that restore. */
  function Stranding(single: bool, calls: seq<(Call, Reply)>): nat -> bool {
    (i: nat) => i < |calls| && Strands(Before(single, calls, i), calls[i].0)
  }

  function Restoring(single: bool, calls: seq<(Call, Reply)>): nat -> bool {
    (i: nat) => i < |calls| && Restores(Before(single, calls, i), calls[i].0)
  }

  ghost predicate MadeUp(bad: nat -> bool, good: nat -> bool) {
    forall i: nat :: bad(i) ==> exists j: nat :: i < j && good(j)
  }

  /** One more position, `n`, after those of `bad` and `good`. */
  lemma MadeUpNext(n: nat, bad: nat -> bool, good: nat -> bool, moreBad: nat -> bool, moreGood: nat -> bool)
    requires forall i: nat :: i < n ==> bad(i) == moreBad(i) && good(i) == moreGood(i)
    requires forall i: nat :: i >= n ==> !bad(i) && !good(i)
    requires forall i: nat :: i > n ==> !moreBad(i) && !moreGood(i)
    ensures MadeUp(moreBad, moreGood) <==> !moreBad(n) && (moreGood(n) || MadeUp(bad, good))
  {
    if MadeUp(moreBad, moreGood) && !moreGood(n) {
      forall i: nat | bad(i) ensures exists j: nat :: i < j && good(j) {
        assert moreBad(i);
        var j: nat :| i < j && moreGood(j);
        assert good(j);
      }
    }
    if !moreBad(n) && MadeUp(bad, good) {
      forall i: nat | moreBad(i) ensures exists j: nat :: i < j && moreGood(j) {
        assert bad(i);
        var j: nat :| i < j && good(j);
        assert moreGood(j);
      }
    }
  }

  lemma SameCalls(single: bool, calls: seq<(Call, Reply)>, i: nat)
    requires calls != [] && i < |calls| - 1
    ensures var prefix := calls[..|calls| - 1];
      && Stranding(single, calls)(i) == Stranding(single, prefix)(i)
      && Restoring(single, calls)(i) == Restoring(single, prefix)(i)
  {
    assert calls[..|calls| - 1][..i] == calls[..i];
  }

  /** Over any run with engine restarts: the machine has somebody to serve, or is at rest, if and only if
      every drop that stranded it was made up for by a later restoring call. */
  lemma {:induction false} DropStrands(single: bool, calls: seq<(Call, Reply)>)
    ensures Attended(Run(Fresh(single, false), calls)) <==>
            MadeUp(Stranding(single, calls), Restoring(single, calls))
    decreases |calls|
  {
    if calls != [] {
      var prefix := calls[..|calls| - 1];
      var (call, reply) := calls[|calls| - 1];
      DropStrands(single, prefix);
      Reachable(single, prefix);
      StepAttends(Run(Fresh(single, false), prefix), call, reply);
      forall i: nat | i < |prefix|
        ensures Stranding(single, calls)(i) == Stranding(single, prefix)(i)
        ensures Restoring(single, calls)(i) == Restoring(single, prefix)(i)
      {
        SameCalls(single, calls, i);
      }
      MadeUpNext(|prefix|, Stranding(single, prefix), Restoring(single, prefix),
                 Stranding(single, calls), Restoring(single, calls));
    }
  }

  /** A restart that strands: whoever had asked, the request stays outstanding with nobody in the list,
      and unsubscribing does not end it. */
  lemma StrandedRun(single: bool, c: Client, asked: Reply, dropped: Reply, d: Client, reply: Reply)
    ensures var m := Run(Fresh(single, false), [(Subscribe(c), asked), (Drop, dropped)]);
      && m.state.Pending? && m.subs == [] && Outstanding(m.trace) && !Attended(m)
      && UnsubscribeRsrc(m, d, reply) == m
  {
    var start := Fresh(single, false);
    var one := [(Subscribe(c), asked)];
    var two := [(Subscribe(c), asked), (Drop, dropped)];
    assert [] + one == one && one + [(Drop, dropped)] == two;
    RunNext(start, [], Subscribe(c), asked);
    RunNext(start, one, Drop, dropped);
    SubscribedList(start, c, asked);
    Reachable(single, two);
  }

  // ----- Subscribing

  lemma SubscribedList(m: Machine, c: Client, reply: Reply)
    ensures var r := SubscribeRsrc(m, c, reply);
      r.subs == if FirstMatch(m.subs, To(c)) < |m.subs| || (m.single && m.subs != []) then m.subs
                else [Entry(c, false)] + m.subs
  {
    var told := Tell(m, c, RsrcGranted, false);
    assert AddSubscriber(told, c).subs == AddSubscriber(m, c).subs;
  }

  predicate Active(m: Machine, c: Client) {
    var k := FirstMatch(m.subs, To(c));
    k < |m.subs| && !m.subs[k].IsInactive()
  }

  /** Subscribing leaves a client with an active entry if and only if the entry it has is not an inactive
      one or, when it has none, the machine is not a single-subscriber one already in use. */
  lemma SubscribingServes(m: Machine, c: Client, reply: Reply)
    ensures var k := FirstMatch(m.subs, To(c));
      Active(SubscribeRsrc(m, c, reply), c) <==>
        if k < |m.subs| then !m.subs[k].IsInactive() else !m.single || m.subs == []
  {
    SubscribedList(m, c, reply);
    var r := SubscribeRsrc(m, c, reply);
    if r.subs != m.subs {
      IndexOfIs(r.subs, Matching(To(c)), 0);
    }
  }

  /** How often `c`, or an entry equal to it, has been told RSRC_GRANTED. */
  function Grants(t: seq<Effect>, c: Client): nat {
    if t == [] then 0
    else
      Grants(t[..|t| - 1], c) +
      match t[|t| - 1]
      case Told(d, status, _) => if d.Equals(c) && status.RsrcGranted? then 1 else 0
      case _ => 0
  }

  lemma {:induction false} NoGrant(t: seq<Effect>, e: Effect, c: Client)
    requires e.Told? ==> !e.status.RsrcGranted?
    ensures Grants(t + [e], c) == Grants(t, c)
  {
    Grown(t, e);
  }

  lemma {:induction false} NoGrantWalk(m: Machine, es: seq<Entry>, n: Notification, c: Client)
    requires !n.status.RsrcGranted?
    ensures Grants(TellAll(m, es, n).trace, c) == Grants(m.trace, c)
    decreases |es|
  {
    if es != [] {
      if n.Reaches(es[0]) {
        var told := Told(es[0].client, n.status, true);
        NoGrant(m.trace, told, c);
        NoGrant(m.trace + [told], Removed(es[0].client), c);
        NoGrantWalk(Deliver(m, es[0], n), es[1..], n, c);
      } else {
        NoGrantWalk(m, es[1..], n, c);
      }
    }
  }

  lemma {:induction false} NoGrantSend(m: Machine, action: Action, reply: Reply, c: Client)
    ensures Grants(Send(m, action, reply).0.trace, c) == Grants(m.trace, c)
    ensures Send(m, action, reply).0.subs == m.subs
  {
    NoGrant(m.trace, Asked(action), c);
    NoGrant(m.trace, Suppressed(action), c);
    var asked := m.trace + [Asked(action)];
    NoGrant(asked, RetryTimer, c);
    NoGrant(asked, FellBack(FirstActive(m.subs)), c);
  }

  /** The list entry of a client that waits for its close is the first one it matches. */
  lemma OwnEntry(s: seq<Entry>, c: Client, k: nat)
    requires Distinct(s) && k < |s| && s[k].client == c && c.WaitsForClose()
    ensures FirstMatch(s, To(c)) == k
    ensures forall j :: 0 <= j < |s| && j != k ==> !s[j].client.Equals(c)
  {
    assert Notification(To(c), RsrcMax, false).ForMe(s[k]);
    var i := FirstMatch(s, To(c));
    if i < k {
      assert s[k].client.Equals(s[i].client);
    }
    forall j | 0 <= j < |s| && j != k ensures !s[j].client.Equals(c) {
      OnlyOneMatches(s, c, k, j);
    }
  }

  /** The end of Releasing on RSRC_RELEASED: the inactive entries go and nobody is granted anything. */
  lemma {:induction false} ClosedList(m: Machine, reply: Reply, c: Client)
    requires m.state.Releasing?
    ensures var closed := OnRsrcEvent(m, RsrcReleased, reply);
      && closed.subs == Reject(m.subs, Reached(Notification(BroadcastInactive, RsrcReleased, true)))
      && Grants(closed.trace, c) == Grants(m.trace, c)
      && closed.state == if HasActive(closed.subs) then Pending else Released
  {
    var n := Notification(BroadcastInactive, RsrcReleased, true);
    var heard := Log(m, Accepted(RsrcReleased));
    NoGrant(m.trace, Accepted(RsrcReleased), c);
    NoGrantWalk(heard, m.subs, n, c);
    NoGrantSend(Notify(heard, n), Request, reply, c);
  }

  lemma {:induction false} Forgotten(s: seq<Entry>, c: Client, k: nat, n: Notification)
    requires Distinct(s) && k < |s| && s[k] == Entry(c, true) && c.WaitsForClose() && n.Reaches(s[k])
    ensures var r := Reject(s, Reached(n)); FirstMatch(r, To(c)) == |r|
  {
    var r := Reject(s, Reached(n));
    var i := FirstMatch(r, To(c));
    if i < |r| {
      var j := RejectFrom(s, Reached(n), i);
      OwnEntry(s, c, k);
    }
  }

  /** All subscribers are of one kind, as on a WiFi or data-call machine. */
  predicate OneKind(s: seq<Entry>, kind: Kind) {
    forall i :: 0 <= i < |s| ==> s[i].client.kind == kind
  }

  /** Then a client matches at most one entry. */
  lemma {:induction false} AtMostOne(s: seq<Entry>, c: Client, j: nat)
    requires Distinct(s) && OneKind(s, c.kind) && j < |s| && s[j].client.Equals(c)
    ensures FirstMatch(s, To(c)) == j
    ensures Filter(s, Matching(To(c))) == [s[j]]
  {
    assert Notification(To(c), RsrcMax, false).ForMe(s[j]);
    var p := Matching(To(c));
    forall i | 0 <= i < |s| && i != j ensures !p(s[i]) {
      assert !(if i < j then s[j].client.Equals(s[i].client) else s[i].client.Equals(s[j].client));
    }
    FilterOnly(s, p, j);
    IndexOfIs(s, p, j);
  }

  lemma {:induction false} GrantedWalk(m: Machine, es: seq<Entry>, n: Notification, c: Client)
    requires n.status.RsrcGranted? && !n.deleteAfter
    requires forall i :: 0 <= i < |es| ==> n.Reaches(es[i])
    ensures Grants(TellAll(m, es, n).trace, c) == Grants(m.trace, c) + |Filter(es, Matching(To(c)))|
    decreases |es|
  {
    if es != [] {
      Grown(m.trace, Told(es[0].client, n.status, true));
      GrantedWalk(Deliver(m, es[0], n), es[1..], n, c);
    }
  }

  /** What is left after the close is granted, to each matching client once. */
  lemma {:induction false} GrantReaches(m: Machine, c: Client, reply: Reply)
    requires !HasInactive(m.subs) && m.state == if HasActive(m.subs) then Pending else Released
    ensures Grants(OnRsrcEvent(m, RsrcGranted, reply).trace, c) ==
            Grants(m.trace, c) + |Filter(m.subs, Matching(To(c)))|
  {
    if m.state.Pending? {
      var heard := Log(m, Accepted(RsrcGranted));
      var n := Notification(BroadcastActive, RsrcGranted, false);
      NoGrant(m.trace, Accepted(RsrcGranted), c);
      forall i | 0 <= i < |m.subs| ensures n.Reaches(m.subs[i]) {
        Member(m.subs, i);
      }
      GrantedWalk(heard, m.subs, n, c);
    } else if m.subs != [] {
      Member(m.subs, 0);
    }
  }

  /** The entry of a client survives the close exactly when it is active. */
  lemma {:induction false} SurvivesClose(s: seq<Entry>, c: Client, n: Notification)
    requires Distinct(s) && OneKind(s, c.kind) && n == Notification(BroadcastInactive, RsrcReleased, true)
    ensures var r := Reject(s, Reached(n));
      && Distinct(r) && OneKind(r, c.kind) && !HasInactive(r)
      && |Filter(r, Matching(To(c)))| ==
         if FirstMatch(s, To(c)) < |s| && !s[FirstMatch(s, To(c))].IsInactive() then 1 else 0
  {
    var r := Reject(s, Reached(n));
    RejectDistinct(s, Reached(n));
    forall i | 0 <= i < |r| ensures r[i].client.kind == c.kind && !r[i].IsInactive() {
      var j := RejectFrom(s, Reached(n), i);
    }
    var k, i := FirstMatch(s, To(c)), FirstMatch(r, To(c));
    if i < |r| {
      AtMostOne(r, c, i);
      var j := RejectFrom(s, Reached(n), i);
      AtMostOne(s, c, j);
    } else {
      RejectAll(r, Matching(To(c)));
      if k < |s| && !s[k].IsInactive() {
        Stays(s, n, k);
      }
    }
  }

  lemma {:induction false} Stays(s: seq<Entry>, n: Notification, k: nat)
    requires k < |s| && !n.Reaches(s[k])
    ensures s[k] in Reject(s, Reached(n))
  {
    RejectMembers(s, Reached(n));
    assert !Reached(n)(s[k]);
  }

  /** A subscription made while the machine is Releasing is granted by the RSRC_RELEASED and RSRC_GRANTED
      that follow, once, if and only if it left the client with an active entry. */
  lemma {:induction false} GrantedAfterClose(m: Machine, c: Client, reply: Reply, released: Reply, granted: Reply)
    requires Distinct(m.subs) && OneKind(m.subs, c.kind) && m.state.Releasing?
    ensures var k := FirstMatch(m.subs, To(c));
      var asked := SubscribeRsrc(m, c, reply);
      var served := OnRsrcEvent(OnRsrcEvent(asked, RsrcReleased, released), RsrcGranted, granted);
      Grants(served.trace, c) == Grants(m.trace, c) +
        if (if k < |m.subs| then !m.subs[k].IsInactive() else !m.single || m.subs == []) then 1 else 0
  {
    SubscribedList(m, c, reply);
    SubscribingServes(m, c, reply);
    var asked := SubscribeRsrc(m, c, reply);
    SubscribedQuietly(m, c, reply);
    var n := Notification(BroadcastInactive, RsrcReleased, true);
    SurvivesClose(asked.subs, c, n);
    ClosedList(asked, released, c);
    GrantReaches(OnRsrcEvent(asked, RsrcReleased, released), c, granted);
  }

  lemma {:induction false} SubscribedQuietly(m: Machine, c: Client, reply: Reply)
    requires Distinct(m.subs) && OneKind(m.subs, c.kind) && m.state.Releasing?
    ensures var asked := SubscribeRsrc(m, c, reply);
      && Distinct(asked.subs) && OneKind(asked.subs, c.kind) && asked.state.Releasing?
      && Grants(asked.trace, c) == Grants(m.trace, c)
  {
    NoGrant(m.trace, Told(c, RsrcDenied, false), c);
    NoGrant(m.trace, Added(c), c);
    if FirstMatch(m.subs, To(c)) == |m.subs| {
      Unlisted(m.subs, c);
    }
  }

  /** A client that subscribes again before its close is complete stays inactive, and the framework's
      RSRC_RELEASED deletes its entry; it is not granted anything for the second request. */
  lemma {:induction false} ResubscriptionLost(m: Machine, c: Client, reply: Reply, released: Reply)
    requires Distinct(m.subs) && m.state.Releasing? && c.WaitsForClose() && Entry(c, true) in m.subs
    ensures var asked := SubscribeRsrc(m, c, reply);
      var closed := OnRsrcEvent(asked, RsrcReleased, released);
      && asked.subs == m.subs && asked.state == m.state
      && FirstMatch(closed.subs, To(c)) == |closed.subs|
      && Grants(closed.trace, c) == Grants(m.trace, c)
  {
    var k :| 0 <= k < |m.subs| && m.subs[k] == Entry(c, true);
    OwnEntry(m.subs, c, k);
    SubscribedList(m, c, reply);
    NoGrant(m.trace, Told(c, RsrcDenied, false), c);
    var asked := SubscribeRsrc(m, c, reply);
    ClosedList(asked, released, c);
    Forgotten(m.subs, c, k, Notification(BroadcastInactive, RsrcReleased, true));
  }

  /** The calls of a client that subscribes, unsubscribes and subscribes again, with their answers. */
  function Resubscribing(c: Client, r0: Reply, r1: Reply, r2: Reply): seq<(Call, Reply)> {
    [(Subscribe(c), r0), (Unsubscribe(c), r1), (Subscribe(c), r2)]
  }

  lemma {:induction false} FirstEntry(c: Client, single: bool, ds: bool)
    ensures AddSubscriber(Fresh(single, ds), c) ==
            Machine(Released, [Entry(c, false)], single, ds, 0, [Added(c)])
    ensures Grants([Added(c)], c) == 0
  {
    assert Grants([Added(c)][..0], c) == 0;
  }

  lemma {:induction false} Subscribed(c: Client, single: bool, ds: bool, reply: Reply)
    requires ds ==> reply.code == ERR_SUCCESS
    ensures var m := SubscribeRsrc(Fresh(single, ds), c, reply);
      && m.state.Pending? && m.subs == [Entry(c, false)] && Grants(m.trace, c) == 0
  {
    FirstEntry(c, single, ds);
    var added := Machine(Released, [Entry(c, false)], single, ds, 0, [Added(c)]);
    Member(added.subs, 0);
    NoGrantSend(added, Request, reply, c);
    if !ds {
      SendAsks(added, Request, reply);
    }
    assert SubscribeRsrc(Fresh(single, ds), c, reply) == Send(added, Request, reply).0.(state := Pending);
  }

  lemma {:induction false} Unsubscribed(m: Machine, c: Client, reply: Reply)
    requires m.state.Pending? && m.subs == [Entry(c, false)] && c.WaitsForClose()
    ensures var r := UnsubscribeRsrc(m, c, reply);
      && r.state.Releasing? && r.subs == [Entry(c, true)] && Grants(r.trace, c) == Grants(m.trace, c)
  {
    OwnEntry(m.subs, c, 0);
    NoGrant(m.trace, Deactivated(c), c);
    var left := m.(subs := [Entry(c, true)], trace := m.trace + [Deactivated(c)]);
    assert Leave(m, 0) == left;
    NoGrantSend(left, Release, reply, c);
    assert UnsubscribeRsrc(m, c, reply) == Send(left, Release, reply).0.(state := Releasing);
  }

  /** It can happen: on either kind of machine, for any client that waits for its close, WiFi or data call. */
  lemma {:induction false} ResubscribedRun(c: Client, single: bool, ds: bool, r0: Reply, r1: Reply, r2: Reply,
                                           released: Reply)
    requires c.WaitsForClose() && (ds ==> r0.code == ERR_SUCCESS)
    ensures var m := Run(Fresh(single, ds), Resubscribing(c, r0, r1, r2));
      var closed := OnRsrcEvent(m, RsrcReleased, released);
      && m.state.Releasing? && m.subs == [Entry(c, true)] && !Active(m, c)
      && closed.state.Released? && closed.subs == [] && Grants(closed.trace, c) == 0
  {
    var start := Fresh(single, ds);
    var one, two := [(Subscribe(c), r0)], [(Subscribe(c), r0), (Unsubscribe(c), r1)];
    assert [] + one == one && one + [(Unsubscribe(c), r1)] == two;
    assert two + [(Subscribe(c), r2)] == Resubscribing(c, r0, r1, r2);
    RunNext(start, [], Subscribe(c), r0);
    RunNext(start, one, Unsubscribe(c), r1);
    RunNext(start, two, Subscribe(c), r2);
    Subscribed(c, single, ds, r0);
    Unsubscribed(Run(start, one), c, r1);
    var left := Run(start, two);
    OwnEntry(left.subs, c, 0);
    SubscribedList(left, c, r2);
    ResubscriptionLost(left, c, r2, released);
    ForgottenAlone(Run(start, Resubscribing(c, r0, r1, r2)), c, released);
  }

  lemma ForgottenAlone(m: Machine, c: Client, reply: Reply)
    requires m.state.Releasing? && m.subs == [Entry(c, true)] && c.WaitsForClose()
    ensures var closed := OnRsrcEvent(m, RsrcReleased, reply); closed.state.Released? && closed.subs == []
  {
    ClosedList(m, reply, c);
    RejectEvery(m.subs, Reached(Notification(BroadcastInactive, RsrcReleased, true)));
  }
}
