/** How often a client is told that its subscription has ended, by a state machine of either class over any
    calls and engine restarts: once when it is removed, and once more for each time it was unsubscribed
    while the machine was Released, where it is told so and stays in the list. */
module AgpsTerminals {
  import opened ListSpec
  import opened AgpsSpec
  import opened AgpsInvariants
  import opened AgpsService
  import AgpsGrants

  /** How many terminal notifications the list entry of `c` got since it was last added. */
  function Terminals(t: seq<Effect>, c: Client): nat {
    if t == [] then 0
    else
      var before := Terminals(t[..|t| - 1], c);
      match t[|t| - 1]
      case Told(d, status, listed) => if d == c && Terminal(status) && listed then before + 1 else before
      case Added(d) => if d == c then 0 else before
      case _ => before
  }

  predicate Lists(s: seq<Entry>, c: Client) {
    exists k :: 0 <= k < |s| && s[k].client == c
  }

  /** Subscribing puts `c` into the list. */
  predicate Joins(m: Machine, call: Call, c: Client) {
    call == Subscribe(c) && FirstMatch(m.subs, To(c)) == |m.subs| && !(m.single && m.subs != [])
  }

  /** Unsubscribing finds the entry of `c`, and the machine is Released. */
  predicate InVain(m: Machine, call: Call, c: Client) {
    call.Unsubscribe? && m.state.Released? &&
    var k := FirstMatch(m.subs, To(call.client));
    k < |m.subs| && m.subs[k].client == c
  }

  /** How often `c` has been unsubscribed in vain since it last joined the list. */
  function Vain(single: bool, ds: bool, calls: seq<(Call, Reply)>, c: Client): nat {
    if calls == [] then 0
    else
      var prefix, call := calls[..|calls| - 1], calls[|calls| - 1].0;
      var m := Run(Fresh(single, ds), prefix);
      if Joins(m, call, c) then 0
      else Vain(single, ds, prefix, c) + if InVain(m, call, c) then 1 else 0
  }

  // ----- What a call adds to the trace

  /** Everyone in `s` that the trace says was removed since `before` had one terminal notification since. */
  ghost predicate RemovedOnce(before: seq<Effect>, s: seq<Entry>, t: seq<Effect>) {
    && before <= t
    && forall i :: |before| <= i < |t| && t[i].Removed? ==>
         Lists(s, t[i].client) && Terminals(t[..i], t[i].client) == Terminals(before, t[i].client) + 1
  }

  predicate NoTerminal(e: Effect, c: Client) {
    match e
    case Told(d, status, listed) => !(d == c && Terminal(status) && listed)
    case Added(d) => d != c
    case _ => true
  }

  lemma {:induction false} TerminalsSame(t: seq<Effect>, e: Effect, c: Client)
    requires NoTerminal(e, c)
    ensures Terminals(t + [e], c) == Terminals(t, c)
  {
    Grown(t, e);
  }

  lemma {:induction false} RemovedNext(before: seq<Effect>, s: seq<Entry>, t: seq<Effect>, e: Effect)
    requires RemovedOnce(before, s, t)
    requires e.Removed? ==> Lists(s, e.client) && Terminals(t, e.client) == Terminals(before, e.client) + 1
    ensures RemovedOnce(before, s, t + [e])
  {
    var u := t + [e];
    forall i | |before| <= i < |u| && u[i].Removed?
      ensures Lists(s, u[i].client) && Terminals(u[..i], u[i].client) == Terminals(before, u[i].client) + 1
    {
      assert u[..i] == t[..i];
      assert i == |t| ==> u[..i] == t;
    }
  }

  lemma {:induction false} DeliveredTo(m: Machine, e: Entry, n: Notification, c: Client)
    requires !(e.client == c && Terminal(n.status))
    ensures Terminals(Deliver(m, e, n).trace, c) == Terminals(m.trace, c)
  {
    var told := Told(e.client, n.status, true);
    TerminalsSame(m.trace, told, c);
    TerminalsSame(m.trace + [told], Removed(e.client), c);
  }

  /** A walk changes no count but those of the clients it reaches. */
  lemma {:induction false} WalkTerminals(m: Machine, es: seq<Entry>, n: Notification, c: Client)
    requires forall i :: 0 <= i < |es| && n.Reaches(es[i]) ==> !(es[i].client == c && Terminal(n.status))
    ensures Terminals(TellAll(m, es, n).trace, c) == Terminals(m.trace, c)
    decreases |es|
  {
    if es != [] {
      if n.Reaches(es[0]) {
        DeliveredTo(m, es[0], n, c);
        WalkTerminals(Deliver(m, es[0], n), es[1..], n, c);
      } else {
        WalkTerminals(m, es[1..], n, c);
      }
    }
  }

  lemma {:induction false} DeliveredOnce(before: seq<Effect>, s: seq<Entry>, m: Machine, e: Entry, n: Notification)
    requires RemovedOnce(before, s, m.trace) && Lists(s, e.client)
    requires n.deleteAfter ==> Terminal(n.status) && Terminals(m.trace, e.client) == Terminals(before, e.client)
    ensures RemovedOnce(before, s, Deliver(m, e, n).trace)
  {
    var told := Told(e.client, n.status, true);
    RemovedNext(before, s, m.trace, told);
    if n.deleteAfter {
      Grown(m.trace, told);
      RemovedNext(before, s, m.trace + [told], Removed(e.client));
    }
  }

  lemma {:induction false} WalkOnce(before: seq<Effect>, s: seq<Entry>, m: Machine, es: seq<Entry>, n: Notification)
    requires RemovedOnce(before, s, m.trace) && Distinct(es)
    requires forall i :: 0 <= i < |es| ==> Lists(s, es[i].client)
    requires n.deleteAfter ==> Terminal(n.status)
    requires n.deleteAfter ==>
      forall i :: 0 <= i < |es| ==> Terminals(m.trace, es[i].client) == Terminals(before, es[i].client)
    ensures RemovedOnce(before, s, TellAll(m, es, n).trace)
    decreases |es|
  {
    if es != [] {
      if n.Reaches(es[0]) {
        DeliveredOnce(before, s, m, es[0], n);
        var next := Deliver(m, es[0], n);
        forall i | 0 <= i < |es[1..]| && n.deleteAfter
          ensures Terminals(next.trace, es[1..][i].client) == Terminals(before, es[1..][i].client)
        {
          assert !es[i + 1].client.Equals(es[0].client);
          DeliveredTo(m, es[0], n, es[i + 1].client);
        }
        WalkOnce(before, s, next, es[1..], n);
      } else {
        WalkOnce(before, s, m, es[1..], n);
      }
    }
  }

  /** After a call on `m` so far: the clients in the list `r` were there before, and have heard nothing
      terminal since. */
  ghost predicate Tallied(m: Machine, t: seq<Effect>, r: seq<Entry>) {
    && RemovedOnce(m.trace, m.subs, t)
    && forall j :: 0 <= j < |r| ==>
         Lists(m.subs, r[j].client) && Terminals(t, r[j].client) == Terminals(m.trace, r[j].client)
  }

  lemma TalliedStart(m: Machine)
    ensures Tallied(m, m.trace, m.subs)
  {
  }

  lemma TalliedNext(m: Machine, t: seq<Effect>, r: seq<Entry>, e: Effect)
    requires Tallied(m, t, r) && !e.Removed? && forall j :: 0 <= j < |r| ==> NoTerminal(e, r[j].client)
    ensures Tallied(m, t + [e], r)
  {
    RemovedNext(m.trace, m.subs, t, e);
    forall j | 0 <= j < |r| ensures Terminals(t + [e], r[j].client) == Terminals(m.trace, r[j].client) {
      TerminalsSame(t, e, r[j].client);
    }
  }

  lemma {:induction false} AnsweredQuiet(before: seq<Effect>, s: seq<Entry>, x: Machine, reply: Reply, c: Client)
    requires RemovedOnce(before, s, x.trace)
    ensures var r := Answered(x, reply).0;
      && RemovedOnce(before, s, r.trace) && Terminals(r.trace, c) == Terminals(x.trace, c)
      && r.subs == x.subs && r.state == x.state
  {
    AnsweredShape(x, reply);
    RemovedNext(before, s, x.trace, RetryTimer);
    TerminalsSame(x.trace, RetryTimer, c);
    var fallback := FellBack(FirstActive(x.subs));
    RemovedNext(before, s, x.trace, fallback);
    TerminalsSame(x.trace, fallback, c);
  }

  lemma {:induction false} SendQuiet(before: seq<Effect>, s: seq<Entry>, x: Machine, action: Action, reply: Reply,
                                       c: Client)
    requires RemovedOnce(before, s, x.trace)
    ensures var r := Send(x, action, reply).0;
      && RemovedOnce(before, s, r.trace) && Terminals(r.trace, c) == Terminals(x.trace, c)
      && r.subs == x.subs && r.state == x.state
  {
    RemovedNext(before, s, x.trace, Asked(action));
    TerminalsSame(x.trace, Asked(action), c);
    if x.ds {
      AnsweredQuiet(before, s, Log(x, Asked(action)), reply, c);
    } else {
      RemovedNext(before, s, x.trace, Suppressed(action));
      TerminalsSame(x.trace, Suppressed(action), c);
    }
  }

  lemma TalliedSend(m: Machine, x: Machine, action: Action, reply: Reply)
    requires Tallied(m, x.trace, x.subs)
    ensures var r := Send(x, action, reply).0; Tallied(m, r.trace, x.subs) && r.subs == x.subs && r.state == x.state
  {
    var r := Send(x, action, reply).0;
    forall c ensures RemovedOnce(m.trace, m.subs, r.trace) && Terminals(r.trace, c) == Terminals(x.trace, c) {
      SendQuiet(m.trace, m.subs, x, action, reply, c);
    }
    SendQuiet(m.trace, m.subs, x, action, reply, Client(Ds, 0, ""));
  }

  /** A notification: whoever stays has heard nothing terminal. */
  lemma TalliedNotify(m: Machine, x: Machine, n: Notification)
    requires Tallied(m, x.trace, x.subs) && Distinct(x.subs)
    requires if n.deleteAfter then Terminal(n.status) else n.status.RsrcGranted?
    ensures var r := Notify(x, n); Tallied(m, r.trace, r.subs) && Distinct(r.subs)
  {
    var r := Notify(x, n);
    WalkOnce(m.trace, m.subs, x, x.subs, n);
    RejectDistinct(x.subs, Reached(n));
    forall i | 0 <= i < |r.subs|
      ensures Lists(m.subs, r.subs[i].client)
      ensures Terminals(r.trace, r.subs[i].client) == Terminals(m.trace, r.subs[i].client)
    {
      var j := i;
      if n.deleteAfter {
        j := RejectFrom(x.subs, Reached(n), i);
        forall l | 0 <= l < |x.subs| && n.Reaches(x.subs[l]) ensures x.subs[l].client != x.subs[j].client {
          assert l != j;
        }
      }
      WalkTerminals(x, x.subs, n, x.subs[j].client);
    }
  }

  // ----- One call

  lemma StatusTallied(m: Machine, status: Status, reply: Reply)
    requires Distinct(m.subs)
    ensures var r := OnStatus(m, status, reply); Tallied(m, r.trace, r.subs) && Distinct(r.subs)
    ensures OnStatus(m, status, reply).state == m.state ==> OnStatus(m, status, reply) == m
  {
    TalliedStart(m);
    if Accepts(m.state, status) {
      var heard := Log(m, Accepted(status));
      TalliedNext(m, m.trace, m.subs, Accepted(status));
      match m.state
      case Pending =>
        TalliedNotify(m, heard, Notification(BroadcastActive, RsrcGranted, false));
        TalliedNotify(m, heard, Notification(BroadcastAll, RsrcDenied, true));
      case Acquired => TalliedNotify(m, heard, Notification(BroadcastAll, status, true));
      case Releasing =>
        var n := Notification(BroadcastInactive, status, true);
        TalliedNotify(m, heard, n);
        TalliedSend(m, Notify(heard, n), Request, reply);
    }
  }

  lemma EventTallied(m: Machine, status: Status, reply: Reply)
    requires Distinct(m.subs)
    ensures var r := OnRsrcEvent(m, status, reply); Tallied(m, r.trace, r.subs) && Distinct(r.subs)
  {
    TalliedStart(m);
    StatusTallied(m, status, reply);
    StatusTallied(m, RsrcDenied, reply);
  }

  lemma LeaveTallied(m: Machine, c: Client, k: nat)
    requires Distinct(m.subs) && k == FirstMatch(m.subs, To(c)) && k < |m.subs|
    ensures var r := Leave(m, k); Tallied(m, r.trace, r.subs) && Distinct(r.subs)
  {
    LeaveShape(m, c, k);
    TalliedStart(m);
    var d := m.subs[k].client;
    if d.WaitsForClose() {
      TalliedNext(m, m.trace, m.subs, Deactivated(d));
      var r := Leave(m, k);
      forall j | 0 <= j < |r.subs| ensures r.subs[j].client == m.subs[j].client {
      }
    } else {
      TalliedNotify(m, m, Notification(To(d), RsrcUnsubscribe, true));
    }
  }

  /** What one call does to the count of every client then in the list. */
  ghost predicate Counted(m: Machine, call: Call, r: Machine) {
    && Distinct(r.subs)
    && RemovedOnce(m.trace, m.subs, r.trace)
    && forall j :: 0 <= j < |r.subs| ==>
         var c := r.subs[j].client;
         if Joins(m, call, c) then Terminals(r.trace, c) == 0
         else Lists(m.subs, c) && Terminals(r.trace, c) == Terminals(m.trace, c) + if InVain(m, call, c) then 1 else 0
  }

  lemma TalliedIsCounted(m: Machine, call: Call, r: Machine)
    requires Tallied(m, r.trace, r.subs) && Distinct(r.subs)
    requires forall c :: !Joins(m, call, c) && !InVain(m, call, c)
    ensures Counted(m, call, r)
  {
  }

  /** In Released the client is told, and that is all. */
  lemma VainCounted(m: Machine, c: Client, reply: Reply)
    requires Distinct(m.subs) && m.state.Released? && FirstMatch(m.subs, To(c)) < |m.subs|
    ensures Counted(m, Unsubscribe(c), UnsubscribeRsrc(m, c, reply))
  {
    var k := FirstMatch(m.subs, To(c));
    var told := Told(m.subs[k].client, RsrcUnsubscribe, true);
    TalliedStart(m);
    RemovedNext(m.trace, m.subs, m.trace, told);
    Grown(m.trace, told);
  }

  lemma LeftCounted(m: Machine, c: Client, reply: Reply)
    requires Distinct(m.subs) && !m.state.Released? && FirstMatch(m.subs, To(c)) < |m.subs|
    ensures Counted(m, Unsubscribe(c), UnsubscribeRsrc(m, c, reply))
  {
    var k := FirstMatch(m.subs, To(c));
    LeftOrSent(m, k, reply);
    LeaveTallied(m, c, k);
    TalliedSend(m, Leave(m, k), Release, reply);
    TalliedIsCounted(m, Unsubscribe(c), UnsubscribeRsrc(m, c, reply));
  }

  lemma UnsubscribeCounted(m: Machine, c: Client, reply: Reply)
    requires Distinct(m.subs)
    ensures Counted(m, Unsubscribe(c), UnsubscribeRsrc(m, c, reply))
  {
    if FirstMatch(m.subs, To(c)) == |m.subs| {
      TalliedStart(m);
      TalliedIsCounted(m, Unsubscribe(c), m);
    } else if m.state.Released? {
      VainCounted(m, c, reply);
    } else {
      LeftCounted(m, c, reply);
    }
  }

  /** addSubscriber, after what a machine in Acquired has told the client. */
  lemma AddCounted(m: Machine, x: Machine, c: Client)
    requires Distinct(m.subs) && x.subs == m.subs && Tallied(m, x.trace, x.subs)
    requires Joins(m, Subscribe(c), c) || FirstMatch(m.subs, To(c)) < |m.subs|
    ensures Counted(m, Subscribe(c), AddSubscriber(x, c))
  {
    if FirstMatch(m.subs, To(c)) == |m.subs| {
      Unlisted(m.subs, c);
      RemovedNext(m.trace, m.subs, x.trace, Added(c));
      Grown(x.trace, Added(c));
      var r := AddSubscriber(x, c);
      forall j | 1 <= j < |r.subs|
        ensures Terminals(r.trace, r.subs[j].client) == Terminals(m.trace, r.subs[j].client)
      {
        assert r.subs[j] == m.subs[j - 1];
        TerminalsSame(x.trace, Added(c), r.subs[j].client);
      }
    }
  }

  lemma SendCounted(m: Machine, call: Call, x: Machine, action: Action, reply: Reply)
    requires Counted(m, call, x)
    ensures Counted(m, call, Send(x, action, reply).0)
  {
    var r := Send(x, action, reply).0;
    SendQuiet(m.trace, m.subs, x, action, reply, Client(Ds, 0, ""));
    forall j | 0 <= j < |r.subs| ensures Terminals(r.trace, r.subs[j].client) == Terminals(x.trace, r.subs[j].client) {
      SendQuiet(m.trace, m.subs, x, action, reply, r.subs[j].client);
    }
  }

  lemma JoinCounted(m: Machine, c: Client, reply: Reply)
    requires Distinct(m.subs) && !(m.single && m.subs != []) && !m.state.Acquired?
    ensures Counted(m, Subscribe(c), OnSubscribe(m, c, reply))
  {
    TalliedStart(m);
    AddCounted(m, m, c);
    SendCounted(m, Subscribe(c), AddSubscriber(m, c), Request, reply);
  }

  lemma SubscribeCounted(m: Machine, c: Client, reply: Reply)
    requires Distinct(m.subs)
    ensures Counted(m, Subscribe(c), SubscribeRsrc(m, c, reply))
  {
    TalliedStart(m);
    if m.single && m.subs != [] {
      TalliedNext(m, m.trace, m.subs, Told(c, RsrcDenied, false));
      TalliedIsCounted(m, Subscribe(c), SubscribeRsrc(m, c, reply));
    } else if m.state.Acquired? {
      TalliedNext(m, m.trace, m.subs, Told(c, RsrcGranted, false));
      AddCounted(m, Tell(m, c, RsrcGranted, false), c);
    } else {
      JoinCounted(m, c, reply);
    }
  }

  lemma StepCounted(m: Machine, call: Call, reply: Reply)
    requires Distinct(m.subs)
    ensures Counted(m, call, Step(m, call, reply))
  {
    match call
    case Subscribe(c) => SubscribeCounted(m, c, reply);
    case Unsubscribe(c) => UnsubscribeCounted(m, c, reply);
    case Event(status) =>
      EventTallied(m, status, reply);
      TalliedIsCounted(m, call, OnRsrcEvent(m, status, reply));
    case Drop =>
      TalliedStart(m);
      RemovedNext(m.trace, m.subs, m.trace, Dropped);
  }

  // ----- Whole runs

  /** Whoever is listed has had one terminal notification for each time it was unsubscribed in vain since
      it joined, and no other. */
  lemma {:induction false} ListedTerminals(single: bool, ds: bool, calls: seq<(Call, Reply)>)
    ensures var m := Run(Fresh(single, ds), calls);
      && Distinct(m.subs)
      && forall j :: 0 <= j < |m.subs| ==>
           Terminals(m.trace, m.subs[j].client) == Vain(single, ds, calls, m.subs[j].client)
    decreases |calls|
  {
    if calls != [] {
      var prefix := calls[..|calls| - 1];
      var (call, reply) := calls[|calls| - 1];
      ListedTerminals(single, ds, prefix);
      var m := Run(Fresh(single, ds), prefix);
      StepCounted(m, call, reply);
      var r := Run(Fresh(single, ds), calls);
      forall j | 0 <= j < |r.subs|
        ensures Terminals(r.trace, r.subs[j].client) == Vain(single, ds, calls, r.subs[j].client)
      {
        var c := r.subs[j].client;
        if !Joins(m, call, c) {
          var k :| 0 <= k < |m.subs| && m.subs[k].client == c;
          assert Terminals(m.trace, c) == Vain(single, ds, prefix, c);
        }
      }
    }
  }

  /** The machine after the first `n` calls. */
  function After(single: bool, ds: bool, calls: seq<(Call, Reply)>, n: nat): Machine
    requires n <= |calls|
  {
    Run(Fresh(single, ds), calls[..n])
  }

  /** Entry `i` of the trace comes from call `n`. */
  predicate CameFrom(single: bool, ds: bool, calls: seq<(Call, Reply)>, i: nat, n: nat) {
    n < |calls| && |After(single, ds, calls, n).trace| <= i < |After(single, ds, calls, n + 1).trace|
  }

  lemma Earlier(single: bool, ds: bool, calls: seq<(Call, Reply)>, i: nat, n: nat)
    requires calls != [] && CameFrom(single, ds, calls[..|calls| - 1], i, n)
    ensures CameFrom(single, ds, calls, i, n) && calls[..|calls| - 1][..n] == calls[..n]
  {
    var prefix := calls[..|calls| - 1];
    assert prefix[..n] == calls[..n] && prefix[..n + 1] == calls[..n + 1];
  }

  lemma {:induction false} LastCall(single: bool, ds: bool, calls: seq<(Call, Reply)>)
    requires calls != []
    ensures var last := |calls| - 1;
      && After(single, ds, calls, last + 1) == Run(Fresh(single, ds), calls)
      && After(single, ds, calls, last).trace <= Run(Fresh(single, ds), calls).trace
      && RemovedOnce(After(single, ds, calls, last).trace, After(single, ds, calls, last).subs,
                     Run(Fresh(single, ds), calls).trace)
  {
    var last := |calls| - 1;
    ListedTerminals(single, ds, calls[..last]);
    StepCounted(After(single, ds, calls, last), calls[last].0, calls[last].1);
    assert calls[..last + 1] == calls;
  }

  /** Entry `i` of the trace is a removal, and by then the client had one terminal notification, and one more
      for each time it was unsubscribed in vain between joining and the call that removed it. */
  ghost predicate RemovedRightly(single: bool, ds: bool, calls: seq<(Call, Reply)>, i: nat)
    requires i < |Run(Fresh(single, ds), calls).trace| && Run(Fresh(single, ds), calls).trace[i].Removed?
  {
    var t := Run(Fresh(single, ds), calls).trace;
    exists n: nat :: CameFrom(single, ds, calls, i, n) &&
      Terminals(t[..i], t[i].client) == 1 + Vain(single, ds, calls[..n], t[i].client)
  }

  lemma RemovedLast(single: bool, ds: bool, calls: seq<(Call, Reply)>, i: nat)
    requires calls != [] && |After(single, ds, calls, |calls| - 1).trace| <= i
    requires i < |Run(Fresh(single, ds), calls).trace| && Run(Fresh(single, ds), calls).trace[i].Removed?
    ensures RemovedRightly(single, ds, calls, i)
  {
    var last := |calls| - 1;
    var m, t := After(single, ds, calls, last), Run(Fresh(single, ds), calls).trace;
    LastCall(single, ds, calls);
    ListedTerminals(single, ds, calls[..last]);
    var k :| 0 <= k < |m.subs| && m.subs[k].client == t[i].client;
    assert CameFrom(single, ds, calls, i, last);
  }

  /** Every removal is like that. */
  lemma {:induction false} RemovedTerminals(single: bool, ds: bool, calls: seq<(Call, Reply)>)
    ensures var t := Run(Fresh(single, ds), calls).trace;
      forall i :: 0 <= i < |t| && t[i].Removed? ==> RemovedRightly(single, ds, calls, i)
    decreases |calls|
  {
    if calls != [] {
      var last := |calls| - 1;
      var m, t := After(single, ds, calls, last), Run(Fresh(single, ds), calls).trace;
      RemovedTerminals(single, ds, calls[..last]);
      LastCall(single, ds, calls);
      forall i | 0 <= i < |t| && t[i].Removed? ensures RemovedRightly(single, ds, calls, i) {
        if i >= |m.trace| {
          RemovedLast(single, ds, calls, i);
        } else {
          assert t[i] == m.trace[i];
          RemovedBefore(single, ds, calls, i);
        }
      }
    }
  }

  lemma RemovedBefore(single: bool, ds: bool, calls: seq<(Call, Reply)>, i: nat)
    requires calls != [] && i < |After(single, ds, calls, |calls| - 1).trace|
    requires After(single, ds, calls, |calls| - 1).trace <= Run(Fresh(single, ds), calls).trace
    requires After(single, ds, calls, |calls| - 1).trace[i].Removed?
    requires RemovedRightly(single, ds, calls[..|calls| - 1], i)
    ensures RemovedRightly(single, ds, calls, i)
  {
    var last := |calls| - 1;
    var m, t := After(single, ds, calls, last), Run(Fresh(single, ds), calls).trace;
    assert t[..i] == m.trace[..i] && t[i] == m.trace[i];
    var n: nat :| CameFrom(single, ds, calls[..last], i, n) &&
      Terminals(t[..i], t[i].client) == 1 + Vain(single, ds, calls[..last][..n], t[i].client);
    Earlier(single, ds, calls, i, n);
  }

  function VainAt(single: bool, ds: bool, calls: seq<(Call, Reply)>, c: Client): nat -> bool {
    (n: nat) => n < |calls| && InVain(After(single, ds, calls, n), calls[n].0, c)
  }

  function JoinAt(single: bool, ds: bool, calls: seq<(Call, Reply)>, c: Client): nat -> bool {
    (n: nat) => n < |calls| && Joins(After(single, ds, calls, n), calls[n].0, c)
  }

  /** There is a position of `event` below `size` with none of `reset` after it. */
  ghost predicate SinceReset(size: nat, event: nat -> bool, reset: nat -> bool) {
    exists n: nat :: n < size && event(n) && forall l: nat :: n < l < size ==> !reset(l)
  }

  lemma SinceResetNext(size: nat, event: nat -> bool, reset: nat -> bool, event': nat -> bool, reset': nat -> bool)
    requires forall n: nat :: n < size ==> event(n) == event'(n) && reset(n) == reset'(n)
    requires !(event'(size) && reset'(size))
    ensures SinceReset(size + 1, event', reset') <==> !reset'(size) && (event'(size) || SinceReset(size, event, reset))
  {
    if SinceReset(size + 1, event', reset') && !event'(size) {
      var n: nat :| n < size + 1 && event'(n) && forall l: nat :: n < l < size + 1 ==> !reset'(l);
      assert event(n) && !reset'(size);
    }
    if !reset'(size) && SinceReset(size, event, reset) {
      var n: nat :| n < size && event(n) && forall l: nat :: n < l < size ==> !reset(l);
      assert event'(n);
    }
  }

  lemma SameSoFar(single: bool, ds: bool, calls: seq<(Call, Reply)>, c: Client, n: nat)
    requires n < |calls| - 1
    ensures var prefix := calls[..|calls| - 1];
      && VainAt(single, ds, calls, c)(n) == VainAt(single, ds, prefix, c)(n)
      && JoinAt(single, ds, calls, c)(n) == JoinAt(single, ds, prefix, c)(n)
  {
    assert calls[..|calls| - 1][..n] == calls[..n];
  }

  /** A client counts as unsubscribed in vain exactly if some call did that and it has not joined since. */
  lemma {:induction false} VainExactly(single: bool, ds: bool, calls: seq<(Call, Reply)>, c: Client)
    ensures Vain(single, ds, calls, c) > 0 <==>
            SinceReset(|calls|, VainAt(single, ds, calls, c), JoinAt(single, ds, calls, c))
    decreases |calls|
  {
    if calls != [] {
      var last := |calls| - 1;
      var prefix := calls[..last];
      VainExactly(single, ds, prefix, c);
      forall n: nat | n < last
        ensures VainAt(single, ds, calls, c)(n) == VainAt(single, ds, prefix, c)(n)
        ensures JoinAt(single, ds, calls, c)(n) == JoinAt(single, ds, prefix, c)(n)
      {
        SameSoFar(single, ds, calls, c, n);
      }
      SinceResetNext(last, VainAt(single, ds, prefix, c), JoinAt(single, ds, prefix, c),
                     VainAt(single, ds, calls, c), JoinAt(single, ds, calls, c));
    }
  }

  // ----- The two kinds of machine

  /** On a machine that is not a DSStateMachine nobody is ever unsubscribed in vain: the list is empty. */
  lemma {:induction false} NeverInVain(single: bool, calls: seq<(Call, Reply)>, c: Client)
    ensures Vain(single, false, calls, c) == 0
    decreases |calls|
  {
    if calls != [] {
      NeverInVain(single, calls[..|calls| - 1], c);
      Reachable(single, calls[..|calls| - 1]);
    }
  }

  /** So there whoever is removed has had exactly one terminal notification, and whoever is listed none. */
  lemma {:induction false} OneTerminalEach(single: bool, calls: seq<(Call, Reply)>)
    ensures var m := Run(Fresh(single, false), calls);
      && (forall i :: 0 <= i < |m.trace| && m.trace[i].Removed? ==> Terminals(m.trace[..i], m.trace[i].client) == 1)
      && forall j :: 0 <= j < |m.subs| ==> Terminals(m.trace, m.subs[j].client) == 0
  {
    var m := Run(Fresh(single, false), calls);
    ListedTerminals(single, false, calls);
    forall j | 0 <= j < |m.subs| ensures Terminals(m.trace, m.subs[j].client) == 0 {
      NeverInVain(single, calls, m.subs[j].client);
    }
    forall i | 0 <= i < |m.trace| && m.trace[i].Removed? ensures Terminals(m.trace[..i], m.trace[i].client) == 1 {
      RemovedTerminals(single, false, calls);
      assert RemovedRightly(single, false, calls, i);
      forall n: nat | n < |calls| ensures Vain(single, false, calls[..n], m.trace[i].client) == 0 {
        NeverInVain(single, calls[..n], m.trace[i].client);
      }
    }
  }

  /** On a DSStateMachine it happens: after a data call that failed, a client that gives up is told so, and
      the modem that its handle is closed, but it stays listed and active. */
  lemma {:induction false} ClosedYetListed(c: Client, failed: Reply, reply: Reply)
    requires failed.code != ERR_SUCCESS
    ensures var calls := [(Subscribe(c), failed), (Unsubscribe(c), reply)];
      var m := Run(Fresh(false, true), calls);
      && m.state.Released? && m.subs == [Entry(c, false)]
      && Terminals(m.trace, c) == 1 && Vain(false, true, calls, c) == 1
  {
    var start := Fresh(false, true);
    var one := [(Subscribe(c), failed)];
    var calls := [(Subscribe(c), failed), (Unsubscribe(c), reply)];
    assert [] + one == one && one + [(Unsubscribe(c), reply)] == calls;
    RunNext(start, [], Subscribe(c), failed);
    RunNext(start, one, Unsubscribe(c), reply);
    FailedOnce(c, failed);
    StaysListed(Run(start, one), c, reply);
    VainNext(one, c, reply);
    ListedTerminals(false, true, calls);
    assert Run(start, calls).subs[0].client == c;
  }

  /** And the next data call that succeeds, for whichever client, serves it as if it had never left. */
  lemma {:induction false} ServedAfterClose(c: Client, failed: Reply, reply: Reply, d: Client, started: Reply,
                                              granted: Reply)
    requires failed.code != ERR_SUCCESS && started.code == ERR_SUCCESS
    ensures var calls := [(Subscribe(c), failed), (Unsubscribe(c), reply)];
      var m := Run(Fresh(false, true), calls + [(Subscribe(d), started)] + [(Event(RsrcGranted), granted)]);
      m.state.Acquired? && Entry(c, false) in m.subs && AgpsGrants.Informed(m.trace, c)
  {
    var calls := [(Subscribe(c), failed), (Unsubscribe(c), reply)];
    var more := calls + [(Subscribe(d), started)];
    var start := Fresh(false, true);
    ClosedYetListed(c, failed, reply);
    RunNext(start, calls, Subscribe(d), started);
    RunNext(start, more, Event(RsrcGranted), granted);
    StartsServing(Run(start, calls), c, d, started, granted);
    AgpsGrants.GrantKnowledge(false, true, more + [(Event(RsrcGranted), granted)]);
  }

  lemma StartsServing(m: Machine, c: Client, d: Client, started: Reply, granted: Reply)
    requires m.ds && !m.single && m.state.Released? && m.subs == [Entry(c, false)] && started.code == ERR_SUCCESS
    ensures var r := OnRsrcEvent(SubscribeRsrc(m, d, started), RsrcGranted, granted);
      r.state.Acquired? && Entry(c, false) in r.subs
  {
    SubscribedList(m, d, started);
    var asked := SubscribeRsrc(m, d, started);
    assert asked.state.Pending?;
    assert asked.subs[|asked.subs| - 1] == Entry(c, false);
    assert OnRsrcEvent(asked, RsrcGranted, granted).subs == asked.subs;
  }

  lemma StaysListed(m: Machine, c: Client, reply: Reply)
    requires m.state.Released? && m.subs == [Entry(c, false)]
    ensures UnsubscribeRsrc(m, c, reply).state.Released? && UnsubscribeRsrc(m, c, reply).subs == m.subs
    ensures InVain(m, Unsubscribe(c), c)
  {
    IndexOfIs(m.subs, Matching(To(c)), 0);
  }

  lemma {:induction false} VainNext(calls: seq<(Call, Reply)>, c: Client, reply: Reply)
    requires InVain(Run(Fresh(false, true), calls), Unsubscribe(c), c)
    ensures Vain(false, true, calls + [(Unsubscribe(c), reply)], c) == Vain(false, true, calls, c) + 1
  {
    assert (calls + [(Unsubscribe(c), reply)])[..|calls|] == calls;
  }

  lemma {:induction false} FailedOnce(c: Client, failed: Reply)
    requires failed.code != ERR_SUCCESS
    ensures var m := SubscribeRsrc(Fresh(false, true), c, failed);
      m.state.Released? && m.subs == [Entry(c, false)] && Vain(false, true, [(Subscribe(c), failed)], c) == 0
  {
    var start := Fresh(false, true);
    SubscribedList(start, c, failed);
    assert [(Subscribe(c), failed)][..0] == [];
    assert Joins(start, Subscribe(c), c);
  }
}
