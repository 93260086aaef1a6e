/** What each public call on a state machine of either class comes to, said of what the clients hear, of the list, and
    of what the framework sends and is asked for; nothing here rests on what the machine notes about itself. */
module AgpsOutcomes {
  import opened ListSpec
  import opened AgpsSpec
  import opened AgpsInvariants
  import opened AgpsService
  import opened AgpsTerminals
  import opened AgpsDs

  /** How often `c` has been told `status`. */
  function Hears(t: seq<Effect>, c: Client, status: Status): nat {
    if t == [] then 0
    else
      var e := t[|t| - 1];
      Hears(t[..|t| - 1], c, status) + if e.Told? && e.client == c && e.status == status then 1 else 0
  }

  /** How often the servicer has been asked for `action`. */
  function Asks(t: seq<Effect>, action: Action): nat {
    if t == [] then 0
    else Asks(t[..|t| - 1], action) + if t[|t| - 1] == Asked(action) then 1 else 0
  }

  /** A WiFi or data-call entry that has been unsubscribed and waits for its close. */
  predicate Waiting(e: Entry) {
    e.inactive && (e.client.kind.Wifi? || e.client.kind.Ds?)
  }

  predicate ListsActive(s: seq<Entry>, c: Client) {
    exists k :: 0 <= k < |s| && s[k].client == c && !Waiting(s[k])
  }

  predicate ListsWaiting(s: seq<Entry>, c: Client) {
    exists k :: 0 <= k < |s| && s[k].client == c && Waiting(s[k])
  }

  function Staying(): Entry -> bool {
    (e: Entry) => !Waiting(e)
  }

  lemma {:induction false} Next(t: seq<Effect>, e: Effect, c: Client, st: Status, a: Action)
    ensures Hears(t + [e], c, st) == Hears(t, c, st) + if e.Told? && e.client == c && e.status == st then 1 else 0
    ensures Asks(t + [e], a) == Asks(t, a) + if e == Asked(a) then 1 else 0
  {
    Grown(t, e);
  }

  // ----- A notification

  function ReachedAs(n: Notification, c: Client): Entry -> bool {
    (e: Entry) => n.Reaches(e) && e.client == c
  }

  lemma {:induction false} DeliverHears(m: Machine, e: Entry, n: Notification, c: Client, st: Status, a: Action)
    ensures var t := Deliver(m, e, n).trace;
      && Hears(t, c, st) == Hears(m.trace, c, st) + (if e.client == c && n.status == st then 1 else 0)
      && Asks(t, a) == Asks(m.trace, a)
  {
    var told := Told(e.client, n.status, true);
    Next(m.trace, told, c, st, a);
    Next(m.trace + [told], Removed(e.client), c, st, a);
  }

  lemma {:induction false} WalkHears(m: Machine, es: seq<Entry>, n: Notification, c: Client, st: Status, a: Action)
    ensures var t := TellAll(m, es, n).trace;
      && Hears(t, c, st) == Hears(m.trace, c, st) + (if st == n.status then |Filter(es, ReachedAs(n, c))| else 0)
      && Asks(t, a) == Asks(m.trace, a)
    decreases |es|
  {
    if es != [] {
      if n.Reaches(es[0]) {
        DeliverHears(m, es[0], n, c, st, a);
        WalkHears(Deliver(m, es[0], n), es[1..], n, c, st, a);
      } else {
        WalkHears(m, es[1..], n, c, st, a);
      }
    }
  }

  /** Nobody is listed twice, so nobody hears a notification twice. */
  lemma {:induction false} ReachedOnce(s: seq<Entry>, n: Notification, c: Client)
    requires Distinct(s)
    ensures |Filter(s, ReachedAs(n, c))| ==
            if exists k :: 0 <= k < |s| && n.Reaches(s[k]) && s[k].client == c then 1 else 0
  {
    var p := ReachedAs(n, c);
    if k :| 0 <= k < |s| && n.Reaches(s[k]) && s[k].client == c {
      forall j | 0 <= j < |s| && j != k ensures !p(s[j]) {
        assert !(if j < k then s[k].client.Equals(s[j].client) else s[j].client.Equals(s[k].client));
      }
      FilterOnly(s, p, k);
    } else {
      RejectAll(s, p);
    }
  }

  lemma {:induction false} NotifyHears(m: Machine, n: Notification, c: Client, st: Status, a: Action)
    requires Distinct(m.subs)
    ensures var t := Notify(m, n).trace;
      && Hears(t, c, st) == Hears(m.trace, c, st) +
           (if st == n.status && (exists k :: 0 <= k < |m.subs| && n.Reaches(m.subs[k]) && m.subs[k].client == c)
            then 1 else 0)
      && Asks(t, a) == Asks(m.trace, a)
  {
    WalkHears(m, m.subs, n, c, st, a);
    ReachedOnce(m.subs, n, c);
  }

  lemma {:induction false} RejectIsFilter(s: seq<Entry>, p: Entry -> bool, q: Entry -> bool)
    requires forall i :: 0 <= i < |s| ==> p(s[i]) == !q(s[i])
    ensures Reject(s, p) == Filter(s, q)
  {
    if s != [] {
      RejectIsFilter(s[1..], p, q);
    }
  }

  lemma AnswerCode(m: Machine, reply: Reply)
    ensures Answered(m, reply).1 == 0 <==> reply.code == 0
  {
  }

  lemma {:induction false} AnswerHears(m: Machine, reply: Reply, c: Client, st: Status, a: Action)
    ensures var r := Answered(m, reply).0;
      && Hears(r.trace, c, st) == Hears(m.trace, c, st) && Asks(r.trace, a) == Asks(m.trace, a)
      && r.subs == m.subs && r.state == m.state
  {
    AnsweredShape(m, reply);
    Next(m.trace, RetryTimer, c, st, a);
    Next(m.trace, FellBack(FirstActive(m.subs)), c, st, a);
  }

  /** sendRsrcRequest is one question to the servicer and tells no subscriber in the list anything. */
  lemma {:induction false} SendHears(m: Machine, action: Action, reply: Reply, c: Client, st: Status, a: Action)
    requires m.ds || HasActive(m.subs) == action.Request?
    ensures var (r, code) := Send(m, action, reply);
      && Hears(r.trace, c, st) == Hears(m.trace, c, st)
      && Asks(r.trace, a) == Asks(m.trace, a) + (if a == action then 1 else 0)
      && r.subs == m.subs && r.state == m.state
      && (code == 0 <==> !m.ds || reply.code == 0)
  {
    Next(m.trace, Asked(action), c, st, a);
    if m.ds {
      AnswerHears(Log(m, Asked(action)), reply, c, st, a);
      AnswerCode(Log(m, Asked(action)), reply);
    } else {
      SendAsks(m, action, reply);
    }
  }

  lemma StatusClass(m: Machine, status: Status, reply: Reply)
    ensures OnStatus(m, status, reply).ds == m.ds
  {
  }

  lemma UnsubscribeClass(m: Machine, c: Client, reply: Reply)
    ensures UnsubscribeRsrc(m, c, reply).ds == m.ds
  {
  }

  lemma SubscribeClass(m: Machine, c: Client, reply: Reply)
    ensures SubscribeRsrc(m, c, reply).ds == m.ds
  {
    if m.state.Released? {
      var added := AddSubscriber(m, c);
      AnsweredShape(Log(added, Asked(Request)), reply);
      assert Send(added, Request, reply).0.ds == m.ds;
    }
  }

  lemma StepClass(m: Machine, call: Call, reply: Reply)
    ensures Step(m, call, reply).ds == m.ds
  {
    match call
    case Subscribe(c) => SubscribeClass(m, c, reply);
    case Unsubscribe(c) => UnsubscribeClass(m, c, reply);
    case Event(status) =>
      StatusClass(m, status, reply);
      StatusClass(OnStatus(m, status, reply), RsrcDenied, reply);
    case Drop =>
  }

  lemma {:induction false} ClassKept(single: bool, ds: bool, calls: seq<(Call, Reply)>)
    ensures Run(Fresh(single, ds), calls).ds == ds
    decreases |calls|
  {
    if calls != [] {
      var prefix := calls[..|calls| - 1];
      ClassKept(single, ds, prefix);
      StepClass(Run(Fresh(single, ds), prefix), calls[|calls| - 1].0, calls[|calls| - 1].1);
    }
  }

  // ----- The framework's events

  /** In Released no event does anything. */
  lemma ReleasedEvent(m: Machine, status: Status, reply: Reply)
    requires m.state.Released?
    ensures OnRsrcEvent(m, status, reply) == m
  {
  }

  /** In Pending the grant goes to every active subscriber; a denial, which on a DSStateMachine is also what a
      release means, goes to every subscriber and empties the list; any other event does nothing. */
  lemma {:induction false} PendingEvent(m: Machine, status: Status, reply: Reply, c: Client, st: Status, a: Action)
    requires Distinct(m.subs) && m.state.Pending?
    ensures var r := OnRsrcEvent(m, status, reply);
      if status.RsrcGranted? then
        && r.state.Acquired? && r.subs == m.subs && Asks(r.trace, a) == Asks(m.trace, a)
        && Hears(r.trace, c, st) ==
             Hears(m.trace, c, st) + if st.RsrcGranted? && ListsActive(m.subs, c) then 1 else 0
      else if status.RsrcDenied? || (m.ds && status.RsrcReleased?) then
        && r.state.Released? && r.subs == [] && Asks(r.trace, a) == Asks(m.trace, a)
        && Hears(r.trace, c, st) == Hears(m.trace, c, st) + if st.RsrcDenied? && Lists(m.subs, c) then 1 else 0
      else r == m
  {
    if status.RsrcGranted? {
      Next(m.trace, Accepted(status), c, st, a);
      NotifyHears(Log(m, Accepted(status)), Notification(BroadcastActive, status, false), c, st, a);
    } else if status.RsrcDenied? || (m.ds && status.RsrcReleased?) {
      LossOutcome(m, RsrcDenied, reply, c, st, a);
    }
  }

  lemma {:induction false} LossOutcome(m: Machine, status: Status, reply: Reply, c: Client, st: Status, a: Action)
    requires Distinct(m.subs) && Terminal(status)
    ensures var r := Notify(Log(m, Accepted(status)), Notification(BroadcastAll, status, true));
      && r.subs == [] && Asks(r.trace, a) == Asks(m.trace, a)
      && Hears(r.trace, c, st) == Hears(m.trace, c, st) + if st == status && Lists(m.subs, c) then 1 else 0
  {
    var n := Notification(BroadcastAll, status, true);
    Next(m.trace, Accepted(status), c, st, a);
    NotifyHears(Log(m, Accepted(status)), n, c, st, a);
    RejectEvery(m.subs, Reached(n));
  }

  /** In Acquired a release goes to every subscriber and empties the list; any other event, a denial among
      them, does nothing. */
  lemma {:induction false} AcquiredEvent(m: Machine, status: Status, reply: Reply, c: Client, st: Status, a: Action)
    requires Distinct(m.subs) && m.state.Acquired?
    ensures var r := OnRsrcEvent(m, status, reply);
      if status.RsrcReleased? then
        && r.state.Released? && r.subs == [] && Asks(r.trace, a) == Asks(m.trace, a)
        && Hears(r.trace, c, st) == Hears(m.trace, c, st) + if st.RsrcReleased? && Lists(m.subs, c) then 1 else 0
      else r == m
  {
    if status.RsrcReleased? {
      LossOutcome(m, RsrcReleased, reply, c, st, a);
    }
  }

  lemma {:induction false} ClosedOutcome(m: Machine, status: Status, c: Client, st: Status, a: Action)
    requires Distinct(m.subs) && Terminal(status)
    ensures var r := Notify(Log(m, Accepted(status)), Notification(BroadcastInactive, status, true));
      && r.subs == Filter(m.subs, Staying()) && HasActive(r.subs) == (r.subs != []) && r.ds == m.ds
      && Asks(r.trace, a) == Asks(m.trace, a)
      && Hears(r.trace, c, st) == Hears(m.trace, c, st) + if st == status && ListsWaiting(m.subs, c) then 1 else 0
  {
    var n := Notification(BroadcastInactive, status, true);
    Next(m.trace, Accepted(status), c, st, a);
    NotifyHears(Log(m, Accepted(status)), n, c, st, a);
    RejectIsFilter(m.subs, Reached(n), Staying());
    RestActive(m.subs);
  }

  /** In Releasing a release or a denial goes, as it came, to the subscribers that wait for their close, and they
      leave; the others stay in their order, and the resource is requested again exactly if there are any. */
  lemma {:induction false} ReleasingEvent(m: Machine, status: Status, reply: Reply, c: Client, st: Status, a: Action)
    requires Distinct(m.subs) && m.state.Releasing?
    ensures var r := OnRsrcEvent(m, status, reply);
      if status.RsrcReleased? || status.RsrcDenied? then
        && r.subs == Filter(m.subs, Staying()) && r.state == (if r.subs == [] then Released else Pending)
        && Asks(r.trace, a) == Asks(m.trace, a) + (if a.Request? && r.subs != [] then 1 else 0)
        && Hears(r.trace, c, st) == Hears(m.trace, c, st) + if st == status && ListsWaiting(m.subs, c) then 1 else 0
      else r == m
  {
    if status.RsrcReleased? || status.RsrcDenied? {
      ClosedOutcome(m, status, c, st, a);
      var closed := Notify(Log(m, Accepted(status)), Notification(BroadcastInactive, status, true));
      if closed.subs != [] {
        SendHears(closed, Request, reply, c, st, a);
        assert OnStatus(m, status, reply) == Send(closed, Request, reply).0.(state := Pending);
      } else {
        assert OnStatus(m, status, reply) == closed.(state := Released);
      }
    }
  }

  lemma {:induction false} RestActive(s: seq<Entry>)
    ensures var r := Filter(s, Staying()); HasActive(r) == (r != [])
  {
    if s != [] {
      RestActive(s[1..]);
      var r := Filter(s, Staying());
      if !Waiting(s[0]) {
        assert !r[0].IsInactive();
      }
    }
  }

  /** Said of a run of a machine of either class: what a release or a denial does in each state, and who is told
      what. */
  lemma {:induction false} EndInRun(single: bool, ds: bool, calls: seq<(Call, Reply)>, status: Status, reply: Reply,
                                    c: Client, st: Status)
    requires status.RsrcReleased? || status.RsrcDenied?
    ensures var m := Run(Fresh(single, ds), calls);
      var r := OnRsrcEvent(m, status, reply);
      var more := Hears(r.trace, c, st) - Hears(m.trace, c, st);
      if m.state.Pending? && (status.RsrcDenied? || ds) then
        r.state.Released? && r.subs == [] && more == if st.RsrcDenied? && Lists(m.subs, c) then 1 else 0
      else if m.state.Acquired? && status.RsrcReleased? then
        r.state.Released? && r.subs == [] && more == if st.RsrcReleased? && Lists(m.subs, c) then 1 else 0
      else if m.state.Releasing? then
        && r.state == (if r.subs == [] then Released else Pending) && r.subs == Filter(m.subs, Staying())
        && more == if st == status && ListsWaiting(m.subs, c) then 1 else 0
      else r == m
  {
    var m := Run(Fresh(single, ds), calls);
    ListedTerminals(single, ds, calls);
    ClassKept(single, ds, calls);
    match m.state
    case Released =>
    case Pending => PendingEvent(m, status, reply, c, st, Request);
    case Acquired => AcquiredEvent(m, status, reply, c, st, Request);
    case Releasing => ReleasingEvent(m, status, reply, c, st, Request);
  }

  // ----- The clients' calls

  /** A client is in the list if an entry there takes it for itself. */
  predicate Taken(s: seq<Entry>, c: Client) {
    exists k :: 0 <= k < |s| && s[k].client.Equals(c)
  }

  lemma {:induction false} TakenIsFound(s: seq<Entry>, c: Client)
    ensures Taken(s, c) <==> FirstMatch(s, To(c)) < |s|
  {
    var k := FirstMatch(s, To(c));
    if k == |s| {
      Unlisted(s, c);
    }
  }

  lemma {:induction false} AddHears(m: Machine, d: Client, c: Client, st: Status, a: Action)
    ensures var r := AddSubscriber(m, d);
      && r.subs == (if Taken(m.subs, d) then m.subs else [Entry(d, false)] + m.subs)
      && r.state == m.state && r.ds == m.ds
      && Asks(r.trace, a) == Asks(m.trace, a) && Hears(r.trace, c, st) == Hears(m.trace, c, st)
  {
    TakenIsFound(m.subs, d);
    Next(m.trace, Added(d), c, st, a);
  }

  lemma {:induction false} RequestOutcome(m: Machine, d: Client, reply: Reply, c: Client, st: Status, a: Action)
    requires m.state.Released? && (!m.ds ==> m.subs == [])
    ensures var r := OnSubscribe(m, d, reply);
      && r.subs == (if Taken(m.subs, d) then m.subs else [Entry(d, false)] + m.subs)
      && r.state == (if !m.ds || reply.code == 0 then Pending else Released)
      && Asks(r.trace, a) == Asks(m.trace, a) + (if a.Request? then 1 else 0)
      && Hears(r.trace, c, st) == Hears(m.trace, c, st)
  {
    AddHears(m, d, c, st, a);
    var added := AddSubscriber(m, d);
    if !m.ds {
      Member(added.subs, 0);
    }
    SendHears(added, Request, reply, c, st, a);
  }

  lemma {:induction false} GrantedOutcome(m: Machine, d: Client, reply: Reply, c: Client, st: Status, a: Action)
    requires m.state.Acquired?
    ensures var r := OnSubscribe(m, d, reply);
      && r.subs == (if Taken(m.subs, d) then m.subs else [Entry(d, false)] + m.subs)
      && r.state == m.state && Asks(r.trace, a) == Asks(m.trace, a)
      && Hears(r.trace, c, st) == Hears(m.trace, c, st) + if c == d && st.RsrcGranted? then 1 else 0
  {
    Next(m.trace, Told(d, RsrcGranted, false), c, st, a);
    AddHears(Tell(m, d, RsrcGranted, false), d, c, st, a);
  }

  /** A single-subscriber machine that is in use denies the call and does nothing else.  Otherwise the client gets an
      active entry at the head of the list unless it has one; in Acquired it hears of the grant at once; in
      Released the resource is requested, and the machine waits for it unless a data call fails. */
  lemma {:induction false} SubscribeOutcome(m: Machine, d: Client, reply: Reply, c: Client, st: Status, a: Action)
    requires m.state.Released? && !m.ds ==> m.subs == []
    ensures var r := SubscribeRsrc(m, d, reply);
      if m.single && m.subs != [] then
        && r.state == m.state && r.subs == m.subs && Asks(r.trace, a) == Asks(m.trace, a)
        && Hears(r.trace, c, st) == Hears(m.trace, c, st) + if c == d && st.RsrcDenied? then 1 else 0
      else
        && r.subs == (if Taken(m.subs, d) then m.subs else [Entry(d, false)] + m.subs)
        && r.state == (if m.state.Released? && (!m.ds || reply.code == 0) then Pending else m.state)
        && Asks(r.trace, a) == Asks(m.trace, a) + (if m.state.Released? && a.Request? then 1 else 0)
        && Hears(r.trace, c, st) ==
             Hears(m.trace, c, st) + if m.state.Acquired? && c == d && st.RsrcGranted? then 1 else 0
  {
    if m.single && m.subs != [] {
      Next(m.trace, Told(d, RsrcDenied, false), c, st, a);
    } else if m.state.Released? {
      RequestOutcome(m, d, reply, c, st, a);
    } else if m.state.Acquired? {
      GrantedOutcome(m, d, reply, c, st, a);
    } else {
      AddHears(m, d, c, st, a);
    }
  }

  /** Nobody takes the client for itself: nothing happens. */
  lemma {:induction false} UnknownUnsubscribes(m: Machine, d: Client, reply: Reply)
    requires !Taken(m.subs, d)
    ensures UnsubscribeRsrc(m, d, reply) == m
  {
    TakenIsFound(m.subs, d);
  }

  /** The list after the entry at `k` has unsubscribed: a WiFi or data-call entry waits for its close, others go. */
  function AfterLeaving(s: seq<Entry>, k: nat): seq<Entry>
    requires k < |s|
  {
    var c := s[k].client;
    if c.kind.Wifi? || c.kind.Ds? then s[k := Entry(c, true)] else s[..k] + s[k + 1..]
  }

  lemma {:induction false} LeaveHears(m: Machine, d: Client, k: nat, c: Client, st: Status, a: Action)
    requires Distinct(m.subs) && k < |m.subs| && m.subs[k].client.Equals(d)
    requires forall j :: 0 <= j < k ==> !m.subs[j].client.Equals(d)
    ensures var r, e := Leave(m, k), m.subs[k].client;
      && r.subs == AfterLeaving(m.subs, k) && r.state == m.state && r.ds == m.ds
      && Asks(r.trace, a) == Asks(m.trace, a)
      && Hears(r.trace, c, st) == Hears(m.trace, c, st) +
           if c == e && st.RsrcUnsubscribe? && (e.kind.Bit? || e.kind.Atl?) then 1 else 0
  {
    IndexOfIs(m.subs, Matching(To(d)), k);
    LeaveShape(m, d, k);
    var e := m.subs[k].client;
    if e.WaitsForClose() {
      Next(m.trace, Deactivated(e), c, st, a);
    } else {
      var n := Notification(To(e), RsrcUnsubscribe, true);
      NotifyHears(m, n, c, st, a);
      forall j | 0 <= j < |m.subs| ensures n.Reaches(m.subs[j]) <==> j == k {
        OnlyOneMatches(m.subs, d, k, j);
      }
    }
  }

  lemma {:induction false} GiveUp(m: Machine, d: Client, k: nat, reply: Reply, c: Client, st: Status, a: Action)
    requires Distinct(m.subs) && k < |m.subs| && m.subs[k].client.Equals(d) && !m.state.Released?
    requires forall j :: 0 <= j < k ==> !m.subs[j].client.Equals(d)
    ensures var r, left := OnUnsubscribe(m, k, reply), Leave(m, k);
      var over := (m.state.Pending? || m.state.Acquired?) && !HasActive(left.subs);
      && r.subs == left.subs
      && r.state == (if left.subs == [] then Released else if over then Releasing else m.state)
      && Asks(r.trace, a) == Asks(left.trace, a) + (if a.Release? && over then 1 else 0)
      && Hears(r.trace, c, st) == Hears(left.trace, c, st)
  {
    LeaveHears(m, d, k, c, st, a);
    var left := Leave(m, k);
    if HoldsResource(m.state) && !HasActive(left.subs) {
      SendHears(left, Release, reply, c, st, a);
    }
  }

  lemma AllWait(s: seq<Entry>)
    ensures HasActive(s) <==> !forall j :: 0 <= j < |s| ==> Waiting(s[j])
  {
    if HasActive(s) {
      var j :| 0 <= j < |s| && !s[j].IsInactive();
      assert !Waiting(s[j]);
    }
    forall j | 0 <= j < |s| && !Waiting(s[j]) ensures HasActive(s) {
      Member(s, j);
    }
  }

  /** The first entry that takes the client for itself unsubscribes.  In Released it is only told so.  Otherwise a BIT
      or ATL entry is told and leaves, and a WiFi or data-call entry silently starts to wait for its close; if
      nobody active is left, a machine that wants or has the resource gives it up, and once nobody is left at all
      it is Released. */
  lemma {:induction false} UnsubscribeOutcome(m: Machine, d: Client, k: nat, reply: Reply, c: Client, st: Status,
                                              a: Action)
    requires Distinct(m.subs) && k < |m.subs| && m.subs[k].client.Equals(d)
    requires forall j :: 0 <= j < k ==> !m.subs[j].client.Equals(d)
    ensures var r, e, left := UnsubscribeRsrc(m, d, reply), m.subs[k].client, AfterLeaving(m.subs, k);
      var over := (m.state.Pending? || m.state.Acquired?) && forall j :: 0 <= j < |left| ==> Waiting(left[j]);
      && r.subs == (if m.state.Released? then m.subs else left)
      && r.state == (if m.state.Released? || left == [] then Released else if over then Releasing else m.state)
      && Asks(r.trace, a) == Asks(m.trace, a) + (if a.Release? && over then 1 else 0)
      && Hears(r.trace, c, st) == Hears(m.trace, c, st) +
           if c == e && st.RsrcUnsubscribe? && (m.state.Released? || e.kind.Bit? || e.kind.Atl?) then 1 else 0
  {
    IndexOfIs(m.subs, Matching(To(d)), k);
    if m.state.Released? {
      Next(m.trace, Told(m.subs[k].client, RsrcUnsubscribe, true), c, st, a);
    } else {
      LeaveHears(m, d, k, c, st, a);
      GiveUp(m, d, k, reply, c, st, a);
      AllWait(AfterLeaving(m.subs, k));
    }
  }

  /** When two clients count as one: by their handle, or IPv4 address, alone, but two BIT clients without an IPv4
      address by their IPv6 addresses. */
  lemma {:induction false} SecondSubscriber(m: Machine, c: Client, d: Client, reply: Reply)
    requires m.state.Pending? && !m.single && m.subs == [Entry(c, false)]
    ensures SubscribeRsrc(m, d, reply).subs ==
            if c.id == d.id && !(c.kind.Bit? && c.id == 0xFFFF_FFFF && c.v6 != d.v6) then [Entry(c, false)]
            else [Entry(d, false), Entry(c, false)]
  {
    SubscribeOutcome(m, d, reply, c, RsrcMax, Request);
    assert [Entry(d, false)] + [Entry(c, false)] == [Entry(d, false), Entry(c, false)];
    assert m.subs[0].client == c;
  }

  // ----- A data call that is asked for again

  lemma {:induction false} RetriesStay(m: Machine, es: seq<Entry>, n: Notification)
    requires !n.status.RsrcDenied?
    ensures TellAll(m, es, n).retries == m.retries
    decreases |es|
  {
    if es != [] {
      RetriesStay(if n.Reaches(es[0]) then Deliver(m, es[0], n) else m, es[1..], n);
    }
  }

  lemma {:induction false} StaysTaken(s: seq<Entry>, d: Client)
    requires ListsActive(s, d)
    ensures Taken(Filter(s, Staying()), d)
  {
    if s[0].client == d && !Waiting(s[0]) {
      assert Filter(s, Staying())[0].client.Equals(d);
    } else {
      StaysTaken(s[1..], d);
      var rest := Filter(s[1..], Staying());
      var k :| 0 <= k < |rest| && rest[k].client.Equals(d);
      assert Filter(s, Staying())[if Waiting(s[0]) then k else k + 1] == rest[k];
    }
  }

  /** A retry asks the servicer again exactly in Released: it is a subscription like any other. */
  lemma {:induction false} RetryAsks(m: Machine, d: Client, reply: Reply)
    requires m.ds && !m.single && Taken(m.subs, d)
    ensures Asks(SubscribeRsrc(m, d, reply).trace, Request) ==
            Asks(m.trace, Request) + if m.state.Released? then 1 else 0
    ensures m.state.Pending? || m.state.Releasing? ==> SubscribeRsrc(m, d, reply) == m
  {
    SubscribeOutcome(m, d, reply, d, RsrcMax, Request);
    TakenIsFound(m.subs, d);
  }

  lemma {:induction false} TimersStay(m: Machine)
    requires RetriesCounted(m) && TimersSince(m.trace) < 4
    ensures var r := Notify(Log(m, Accepted(RsrcReleased)), Notification(BroadcastInactive, RsrcReleased, true));
      RetriesCounted(r) && TimersSince(r.trace) < 4
  {
    var heard := Log(m, Accepted(RsrcReleased));
    var n := Notification(BroadcastInactive, RsrcReleased, true);
    RetriesStay(heard, m.subs, n);
    CountedLog(m, Accepted(RsrcReleased));
    CountedTellAll(heard, m.subs, n);
  }

  lemma {:induction false} BusyStartsTimer(m: Machine, reply: Reply)
    requires m.ds && RetriesCounted(m) && reply.code == ERR_ENGINE_BUSY && TimersSince(m.trace) < 4
    ensures var t := Send(m, Request, reply).0.trace; t != [] && t[|t| - 1] == RetryTimer
  {
    DataCallAnswer(m, Request, reply, FirstMatch(m.subs, BroadcastActive));
  }

  /** So a busy engine is asked in vain when a close ends with somebody active: the timer is started, but the machine
      is Pending, and the retry that the timer stands for does nothing. */
  lemma {:induction false} LostRetry(m: Machine, reply: Reply, d: Client, again: Reply)
    requires m.ds && !m.single && Distinct(m.subs) && RetriesCounted(m) && m.state.Releasing?
    requires ListsActive(m.subs, d) && reply.code == ERR_ENGINE_BUSY && TimersSince(m.trace) < 4
    ensures var r := OnRsrcEvent(m, RsrcReleased, reply);
      && r.state.Pending? && r.trace != [] && r.trace[|r.trace| - 1] == RetryTimer
      && SubscribeRsrc(r, d, again) == r
  {
    var closed := Notify(Log(m, Accepted(RsrcReleased)), Notification(BroadcastInactive, RsrcReleased, true));
    var r := OnRsrcEvent(m, RsrcReleased, reply);
    ClosedOutcome(m, RsrcReleased, d, RsrcMax, Request);
    ReleasingEvent(m, RsrcReleased, reply, d, RsrcMax, Request);
    StaysTaken(m.subs, d);
    TimersStay(m);
    assert r == Send(closed, Request, reply).0.(state := Pending);
    BusyStartsTimer(closed, reply);
    AnswerHears(Log(closed, Asked(Request)), reply, d, RsrcMax, Request);
    AnsweredShape(Log(closed, Asked(Request)), reply);
    RetryAsks(r, d, again);
  }

  lemma {:induction false} Started(c: Client, ok: Reply)
    requires ok.code == ERR_SUCCESS
    ensures SubscribeRsrc(Fresh(false, true), c, ok) ==
            Machine(Pending, [Entry(c, false)], false, true, 0, [Added(c), Asked(Request)])
  {
    FirstEntry(c, false, true);
    assert [Added(c)] + [Asked(Request)] == [Added(c), Asked(Request)];
  }

  lemma {:induction false} Closing(m: Machine, c: Client, ok: Reply)
    requires m.ds && m.state.Pending? && m.subs == [Entry(c, false)] && c.kind.Ds? && ok.code == ERR_SUCCESS
    ensures UnsubscribeRsrc(m, c, ok) ==
            m.(state := Releasing, subs := [Entry(c, true)], trace := m.trace + [Deactivated(c)] + [Asked(Release)])
  {
    OwnEntry(m.subs, c, 0);
    assert m.subs[0 := Entry(c, true)] == [Entry(c, true)];
  }

  lemma {:induction false} Joining(m: Machine, c: Client, d: Client, ok: Reply)
    requires m.state.Releasing? && !m.single && m.subs == [Entry(c, true)] && c.kind.Ds? && c.id != d.id
    ensures SubscribeRsrc(m, d, ok) == m.(subs := [Entry(d, false), Entry(c, true)], trace := m.trace + [Added(d)])
  {
    TakenIsFound(m.subs, d);
    assert [Entry(d, false)] + m.subs == [Entry(d, false), Entry(c, true)];
  }

  function ComeAndGo(c: Client, d: Client, ok: Reply): seq<(Call, Reply)> {
    [(Subscribe(c), ok), (Unsubscribe(c), ok), (Subscribe(d), ok)]
  }

  lemma {:induction false} CameAndWent(c: Client, d: Client, ok: Reply)
    requires c.kind.Ds? && c.id != d.id && ok.code == ERR_SUCCESS
    ensures var m := Run(Fresh(false, true), ComeAndGo(c, d, ok));
      && m.ds && !m.single && m.state.Releasing? && m.retries == 0
      && m.subs == [Entry(d, false), Entry(c, true)]
  {
    var start := Fresh(false, true);
    var one, two := [(Subscribe(c), ok)], [(Subscribe(c), ok), (Unsubscribe(c), ok)];
    assert [] + one == one && one + [(Unsubscribe(c), ok)] == two && two + [(Subscribe(d), ok)] == ComeAndGo(c, d, ok);
    RunNext(start, [], Subscribe(c), ok);
    RunNext(start, one, Unsubscribe(c), ok);
    RunNext(start, two, Subscribe(d), ok);
    Started(c, ok);
    Closing(Run(start, one), c, ok);
    Joining(Run(start, two), c, d, ok);
  }

  /** It happens: one client comes and goes, another comes, and the data call is busy when the close is complete. */
  lemma {:induction false} LostRetryRun(c: Client, d: Client, ok: Reply, busy: Reply, again: Reply)
    requires c.kind.Ds? && c.id != d.id && ok.code == ERR_SUCCESS && busy.code == ERR_ENGINE_BUSY
    ensures var calls := ComeAndGo(c, d, ok) + [(Event(RsrcReleased), busy)];
      var r := Run(Fresh(false, true), calls);
      && r.state.Pending? && r.trace != [] && r.trace[|r.trace| - 1] == RetryTimer
      && Run(Fresh(false, true), calls + [(Subscribe(d), again)]) == r
  {
    var start, calls := Fresh(false, true), ComeAndGo(c, d, ok);
    CameAndWent(c, d, ok);
    DsReachable(calls);
    var m := Run(start, calls);
    RunNext(start, calls, Event(RsrcReleased), busy);
    RunNext(start, calls + [(Event(RsrcReleased), busy)], Subscribe(d), again);
    assert m.subs[0] == Entry(d, false) && !Waiting(m.subs[0]);
    LostRetry(m, busy, d, again);
  }

  // ----- Requests against the framework's own events

  /** How the framework stands to one type of resource: not asked, asked, granted. */
  datatype Phase = Idle | Wanted | Held

  /** The framework sends an event. */
  function Answer(p: Phase, status: Status): Phase {
    match p
    case Wanted => if status.RsrcGranted? then Held else if status.RsrcDenied? then Idle else Wanted
    case Held => if status.RsrcReleased? then Idle else Held
    case Idle => Idle
  }

  /** The phase in which the requests of a call find the framework. */
  function Before(p: Phase, call: Call): Phase {
    if call.Event? then Answer(p, call.status) else p
  }

  /** And in which they leave it. */
  function Behind(p: Phase, call: Call, m: Machine, r: Machine): Phase {
    if Asks(r.trace, Request) > Asks(m.trace, Request) then Wanted
    else if Asks(r.trace, Release) > Asks(m.trace, Release) then Idle
    else Before(p, call)
  }

  /** The framework's side of a whole run, from the events it sent and the requests it got. */
  function View(single: bool, calls: seq<(Call, Reply)>): Phase {
    if calls == [] then Idle
    else
      var prefix := calls[..|calls| - 1];
      Behind(View(single, prefix), calls[|calls| - 1].0, Run(Fresh(single, false), prefix),
             Run(Fresh(single, false), calls))
  }

  function PhaseOf(state: State): Phase {
    match state
    case Pending => Wanted
    case Acquired => Held
    case _ => Idle
  }

  /** A call asks at most once, for the resource only while the framework is idle and to release it only
      while it is not. */
  predicate InStep(p: Phase, call: Call, m: Machine, r: Machine) {
    var requests := Asks(r.trace, Request) - Asks(m.trace, Request);
    var releases := Asks(r.trace, Release) - Asks(m.trace, Release);
    && 0 <= requests && 0 <= releases && requests + releases <= 1
    && (requests == 1 ==> Before(p, call).Idle?)
    && (releases == 1 ==> !Before(p, call).Idle?)
  }

  lemma {:induction false} EventPhase(m: Machine, status: Status, reply: Reply, a: Action)
    requires Distinct(m.subs) && !m.ds
    ensures var r := OnRsrcEvent(m, status, reply); var again := m.state.Releasing? && r.state.Pending?;
      && Asks(r.trace, a) == Asks(m.trace, a) + (if a.Request? && again then 1 else 0)
      && PhaseOf(r.state) == if again then Wanted else Answer(PhaseOf(m.state), status)
  {
    var c := Client(Atl, 0, "");
    match m.state
    case Released =>
    case Pending => PendingEvent(m, status, reply, c, RsrcMax, a);
    case Acquired => AcquiredEvent(m, status, reply, c, RsrcMax, a);
    case Releasing => ReleasingEvent(m, status, reply, c, RsrcMax, a);
  }

  lemma {:induction false} EventInStep(m: Machine, status: Status, reply: Reply)
    requires Inv(m)
    ensures var r := OnRsrcEvent(m, status, reply); var p := PhaseOf(m.state);
      InStep(p, Event(status), m, r) && Behind(p, Event(status), m, r) == PhaseOf(r.state)
  {
    EventPhase(m, status, reply, Request);
    EventPhase(m, status, reply, Release);
  }

  lemma {:induction false} UnsubscribeInStep(m: Machine, d: Client, reply: Reply)
    requires Inv(m)
    ensures var r := UnsubscribeRsrc(m, d, reply); var p := PhaseOf(m.state);
      InStep(p, Unsubscribe(d), m, r) && Behind(p, Unsubscribe(d), m, r) == PhaseOf(r.state)
  {
    var k := FirstMatch(m.subs, To(d));
    if k < |m.subs| {
      var c := Client(Atl, 0, "");
      forall j | 0 <= j < k ensures !m.subs[j].client.Equals(d) {
        assert !Notification(To(d), RsrcMax, false).ForMe(m.subs[j]);
      }
      UnsubscribeOutcome(m, d, k, reply, c, RsrcMax, Request);
      UnsubscribeOutcome(m, d, k, reply, c, RsrcMax, Release);
    }
  }

  lemma {:induction false} SubscribeInStep(m: Machine, d: Client, reply: Reply)
    requires Inv(m)
    ensures var r := SubscribeRsrc(m, d, reply); var p := PhaseOf(m.state);
      InStep(p, Subscribe(d), m, r) && Behind(p, Subscribe(d), m, r) == PhaseOf(r.state)
  {
    var c := Client(Atl, 0, "");
    SubscribeOutcome(m, d, reply, c, RsrcMax, Request);
    SubscribeOutcome(m, d, reply, c, RsrcMax, Release);
  }

  lemma {:induction false} CallInStep(m: Machine, call: Call, reply: Reply)
    requires Inv(m)
    ensures var r := Step(m, call, reply); var p := PhaseOf(m.state);
      InStep(p, call, m, r) && Behind(p, call, m, r) == PhaseOf(r.state)
  {
    match call
    case Subscribe(d) => SubscribeInStep(m, d, reply);
    case Unsubscribe(d) => UnsubscribeInStep(m, d, reply);
    case Event(status) => EventInStep(m, status, reply);
    case Drop =>
      var c := Client(Atl, 0, "");
      Next(m.trace, Dropped, c, RsrcMax, Request);
      Next(m.trace, Dropped, c, RsrcMax, Release);
  }

  /** On a machine that is not a DSStateMachine, over any calls and engine restarts: it is Pending exactly while the
      framework has a request it has not answered, Acquired exactly while what the framework granted is neither
      released nor given up; and each call asks at most once, and only for what the framework has not got. */
  lemma {:induction false} FrameworkInStep(single: bool, calls: seq<(Call, Reply)>, call: Call, reply: Reply)
    ensures var m := Run(Fresh(single, false), calls); var r := Step(m, call, reply);
      && View(single, calls) == PhaseOf(m.state)
      && InStep(View(single, calls), call, m, r)
    decreases |calls|
  {
    Reachable(single, calls);
    CallInStep(Run(Fresh(single, false), calls), call, reply);
    if calls != [] {
      var prefix := calls[..|calls| - 1];
      var last := calls[|calls| - 1];
      FrameworkInStep(single, prefix, last.0, last.1);
      Reachable(single, prefix);
      CallInStep(Run(Fresh(single, false), prefix), last.0, last.1);
    }
  }
}
