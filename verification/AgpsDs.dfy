/** What holds of the DSStateMachine, whose data-call requests can fail. */
module AgpsDs {
  import opened ListSpec
  import opened AgpsSpec
  import opened AgpsInvariants

  /** Retry timers started since the retry counter was last reset. */
  function TimersSince(t: seq<Effect>): nat {
    if t == [] then 0
    else
      var before := TimersSince(t[..|t| - 1]);
      match t[|t| - 1]
      case RetryTimer => before + 1
      case FellBack(_) => 0
      case Told(c, status, _) => if c.kind.Ds? && status.RsrcDenied? then 0 else before
      case _ => before
  }

  /** mRetries counts the timers, and at no point in the trace have there been more than four. */
  predicate RetriesCounted(m: Machine) {
    && m.retries == TimersSince(m.trace)
    && forall i :: 0 <= i <= |m.trace| ==> TimersSince(m.trace[..i]) <= MAX_START_DATA_CALL_RETRIES
  }

  predicate DsInv(m: Machine) {
    && m.ds && !m.single
    && Distinct(m.subs)
    && (m.state.Released? ==> !HasInactive(m.subs))
    && Attended(m)
    && RetriesCounted(m)
  }

  lemma CountedGrows(m: Machine, e: Effect, retries: nat)
    requires RetriesCounted(m)
    requires retries == TimersSince(m.trace + [e]) <= MAX_START_DATA_CALL_RETRIES
    ensures RetriesCounted(Log(m, e).(retries := retries))
  {
    var t := m.trace + [e];
    forall i | 0 <= i <= |t| ensures TimersSince(t[..i]) <= MAX_START_DATA_CALL_RETRIES {
      if i <= |m.trace| {
        assert t[..i] == m.trace[..i];
      } else {
        assert t[..i] == t;
      }
    }
  }

  /** Logging anything that neither starts a timer nor resets the counter. */
  lemma CountedLog(m: Machine, e: Effect)
    requires RetriesCounted(m)
    requires !e.RetryTimer? && !e.FellBack? && !(e.Told? && e.client.kind.Ds? && e.status.RsrcDenied?)
    ensures RetriesCounted(Log(m, e))
  {
    Grown(m.trace, e);
    assert m.trace[..|m.trace|] == m.trace;
    CountedGrows(m, e, m.retries);
  }

  lemma CountedTell(m: Machine, c: Client, status: Status, listed: bool)
    requires RetriesCounted(m)
    ensures RetriesCounted(Tell(m, c, status, listed))
  {
    var e := Told(c, status, listed);
    Grown(m.trace, e);
    assert m.trace[..|m.trace|] == m.trace;
    CountedGrows(m, e, Tell(m, c, status, listed).retries);
  }

  lemma {:induction false} CountedTellAll(m: Machine, es: seq<Entry>, n: Notification)
    requires RetriesCounted(m)
    ensures RetriesCounted(TellAll(m, es, n))
    decreases |es|
  {
    if es != [] {
      if n.Reaches(es[0]) {
        CountedTell(m, es[0].client, n.status, true);
        if n.deleteAfter {
          CountedLog(Tell(m, es[0].client, n.status, true), Removed(es[0].client));
        }
        CountedTellAll(Deliver(m, es[0], n), es[1..], n);
      } else {
        CountedTellAll(m, es[1..], n);
      }
    }
  }

  lemma CountedFallBack(m: Machine, handle: Option<Handle>)
    requires RetriesCounted(m)
    ensures RetriesCounted(FallBack(m, handle))
  {
    Grown(m.trace, FellBack(handle));
    CountedGrows(m, FellBack(handle), 0);
  }

  function RetriesAfter(m: Machine, reply: Reply): nat {
    if reply.code == ERR_ENGINE_BUSY then
      if m.retries == MAX_START_DATA_CALL_RETRIES then 0 else m.retries + 1
    else if reply.code == ERR_UNSUPPORTED || reply.code == -1 then 0
    else m.retries
  }

  predicate Sent(m: Machine, r: Machine, code: int, reply: Reply) {
    && RetriesCounted(r)
    && r == m.(trace := r.trace, retries := RetriesAfter(m, reply))
    && (code == 0 <==> reply.code == 0)
  }

  lemma CountBounded(m: Machine)
    requires RetriesCounted(m)
    ensures m.retries <= MAX_START_DATA_CALL_RETRIES
  {
    assert m.trace[..|m.trace|] == m.trace;
  }

  lemma CountedTimer(m: Machine)
    requires RetriesCounted(m) && m.retries < MAX_START_DATA_CALL_RETRIES
    ensures RetriesCounted(Log(m, RetryTimer).(retries := m.retries + 1))
  {
    Grown(m.trace, RetryTimer);
    CountedGrows(m, RetryTimer, m.retries + 1);
  }

  lemma TimerCounts(m: Machine, reply: Reply)
    requires RetriesCounted(m) && reply.code == ERR_ENGINE_BUSY && m.retries < MAX_START_DATA_CALL_RETRIES
    ensures var (r, code) := Answered(m, reply); Sent(m, r, code, reply)
  {
    CountedTimer(m);
    assert (m.retries + 1) % 256 == m.retries + 1;
    var (r, code) := Answered(m, reply);
    assert r == Log(m, RetryTimer).(retries := m.retries + 1);
  }

  lemma FallBackCounts(m: Machine, reply: Reply)
    requires RetriesCounted(m)
    requires if reply.code == ERR_ENGINE_BUSY then m.retries == MAX_START_DATA_CALL_RETRIES
             else reply.code == ERR_UNSUPPORTED || reply.code == -1
    ensures var (r, code) := Answered(m, reply); Sent(m, r, code, reply)
  {
    CountedFallBack(m, FirstActive(m.subs));
    var (r, code) := Answered(m, reply);
    assert r == FallBack(m, FirstActive(m.subs));
  }

  lemma AnswerCounts(m: Machine, reply: Reply)
    requires RetriesCounted(m)
    ensures var (r, code) := Answered(m, reply); Sent(m, r, code, reply)
  {
    CountBounded(m);
    if reply.code == ERR_ENGINE_BUSY && m.retries < MAX_START_DATA_CALL_RETRIES {
      TimerCounts(m, reply);
    } else if reply.code == ERR_ENGINE_BUSY || reply.code == ERR_UNSUPPORTED || reply.code == -1 {
      FallBackCounts(m, reply);
    }
  }

  /** One request: a busy engine counts one more retry, the fifth in a row falls back to plain ATL,
      any other failure falls back at once; the list and the state are as they were. */
  lemma SendCounts(m: Machine, action: Action, reply: Reply)
    requires m.ds && RetriesCounted(m)
    ensures var (r, code) := Send(m, action, reply); Sent(m, r, code, reply)
  {
    var asked := Log(m, Asked(action));
    CountedLog(m, Asked(action));
    AnswerCounts(asked, reply);
    var (r, code) := Answered(asked, reply);
    assert RetriesAfter(asked, reply) == RetriesAfter(m, reply);
    assert Send(m, action, reply) == (r, code);
    assert r == m.(trace := r.trace, retries := RetriesAfter(m, reply));
  }

  /** The first active subscriber, if there is one. */
  predicate FirstActiveAt(s: seq<Entry>, k: nat) {
    && k <= |s| && (k < |s| ==> !s[k].IsInactive())
    && forall j :: 0 <= j < k ==> s[j].IsInactive()
  }

  /** The whole of what a request logs and returns: after the fourth timer in a row a busy engine makes the machine
      fall back, as does any other failure at once, with the handle of the first active subscriber. */
  lemma {:induction false} DataCallAnswer(m: Machine, action: Action, reply: Reply, k: nat)
    requires m.ds && RetriesCounted(m) && FirstActiveAt(m.subs, k)
    ensures var (r, code) := Send(m, action, reply);
      var handle := if k < |m.subs| then Some(m.subs[k].client.id) else None;
      var busy := reply.code == ERR_ENGINE_BUSY;
      && r.trace == m.trace + [Asked(action)] +
           (if busy && TimersSince(m.trace) < 4 then [RetryTimer]
            else if busy || reply.code == ERR_UNSUPPORTED || reply.code == -1 then [FellBack(handle)]
            else [])
      && code == if busy && TimersSince(m.trace) < 4 && reply.timerStarted then -1 else reply.code
  {
    CountBounded(m);
    IndexOfIs(m.subs, Matching(BroadcastActive), k);
    assert FirstActive(m.subs) == if k < |m.subs| then Some(m.subs[k].client.id) else None;
  }

  lemma LeaveCounts(m: Machine, k: nat)
    requires k < |m.subs| && RetriesCounted(m)
    ensures RetriesCounted(Leave(m, k))
  {
    var c := m.subs[k].client;
    if c.WaitsForClose() {
      CountedLog(m, Deactivated(c));
    } else {
      CountedTellAll(m, m.subs, Notification(To(c), RsrcUnsubscribe, true));
    }
  }

  // ----- Every call keeps the invariant

  lemma DsSubscribeKeeps(m: Machine, c: Client, reply: Reply)
    requires DsInv(m)
    ensures DsInv(SubscribeRsrc(m, c, reply))
  {
    var told := if m.state.Acquired? then Tell(m, c, RsrcGranted, false) else m;
    CountedTell(m, c, RsrcGranted, false);
    DsAddKeeps(told, c);
    var added := AddSubscriber(told, c);
    if m.state.Released? {
      SendCounts(added, Request, reply);
      Member(added.subs, 0);
    }
  }

  lemma DsAddKeeps(m: Machine, c: Client)
    requires DsInv(m)
    ensures var r := AddSubscriber(m, c);
      DsInv(r) && r.subs != [] && r.state == m.state
  {
    if m.subs != [] {
      Member(m.subs, 0);
    }
    AddedIsAttended(m, c);
    if FirstMatch(m.subs, To(c)) == |m.subs| {
      CountedLog(m, Added(c));
      Unlisted(m.subs, c);
      DistinctJoins(m.subs, c);
    }
  }

  lemma DistinctJoins(s: seq<Entry>, c: Client)
    requires Distinct(s) && forall i :: 0 <= i < |s| ==> !s[i].client.Equals(c)
    ensures Distinct([Entry(c, false)] + s)
    ensures HasInactive([Entry(c, false)] + s) ==> HasInactive(s)
  {
    var r := [Entry(c, false)] + s;
    if HasInactive(r) {
      var j :| 0 <= j < |r| && r[j].IsInactive();
      Member(s, j - 1);
    }
  }

  lemma DsUnsubscribeKeeps(m: Machine, c: Client, reply: Reply)
    requires DsInv(m)
    ensures DsInv(UnsubscribeRsrc(m, c, reply))
  {
    var k := FirstMatch(m.subs, To(c));
    if k < |m.subs| {
      if m.state.Released? {
        CountedTell(m, m.subs[k].client, RsrcUnsubscribe, true);
      } else {
        LeaveShape(m, c, k);
        LeaveCounts(m, k);
        var left := Leave(m, k);
        if m.state.Releasing? {
          LeavingKeepsInactive(m.subs, k, left.subs);
        } else {
          SendCounts(left, Release, reply);
          if left.subs != [] {
            Member(left.subs, 0);
          }
        }
      }
    }
  }

  /** Releasing ends: the inactive entries go, the active ones, if any, are asked for again. */
  lemma DsClosed(m: Machine, status: Status, reply: Reply)
    requires DsInv(m) && m.state.Releasing? && Accepts(m.state, status)
    ensures var r := OnStatus(m, status, reply);
      DsInv(r) && !HasInactive(r.subs) && r.state == if HasActive(m.subs) then Pending else Released
  {
    CountedLog(m, Accepted(status));
    var heard := Log(m, Accepted(status));
    var n := Notification(BroadcastInactive, status, true);
    CountedTellAll(heard, m.subs, n);
    RejectDistinct(m.subs, Reached(n));
    var closed := Notify(heard, n);
    ActiveStay(m.subs, n);
    if HasActive(m.subs) {
      SendCounts(closed, Request, reply);
    }
  }

  lemma {:induction false} ActiveStay(s: seq<Entry>, n: Notification)
    requires n.rcver.BroadcastInactive? && Terminal(n.status)
    ensures var r := Reject(s, Reached(n)); !HasInactive(r) && HasActive(r) == HasActive(s)
  {
    var r := Reject(s, Reached(n));
    RejectMembers(s, Reached(n));
    assert forall i :: 0 <= i < |r| ==> !n.Reaches(r[i]);
    if HasActive(s) {
      var j :| 0 <= j < |s| && !s[j].IsInactive();
      assert !Reached(n)(s[j]);
      assert s[j] in r;
    }
  }

  lemma DsStatusKeeps(m: Machine, status: Status, reply: Reply)
    requires DsInv(m)
    ensures DsInv(OnStatus(m, status, reply))
    ensures !m.state.Releasing? && Accepts(m.state, status) && !status.RsrcGranted? ==>
      OnStatus(m, status, reply).subs == [] && OnStatus(m, status, reply).state.Released?
  {
    if Accepts(m.state, status) {
      CountedLog(m, Accepted(status));
      var heard := Log(m, Accepted(status));
      if m.state.Releasing? {
        DsClosed(m, status, reply);
      } else if status.RsrcGranted? {
        CountedTellAll(heard, m.subs, Notification(BroadcastActive, status, false));
      } else {
        var n := Notification(BroadcastAll, status, true);
        CountedTellAll(heard, m.subs, n);
        RejectEvery(m.subs, Reached(n));
      }
    }
  }

  /** RSRC_RELEASED, whatever the state: no inactive subscriber is left, and the machine is Released
      unless it was Releasing with somebody active, for whom it asks again. */
  lemma DsReleased(m: Machine, reply: Reply)
    requires DsInv(m)
    ensures var r := OnRsrcEvent(m, RsrcReleased, reply);
      && DsInv(r) && !HasInactive(r.subs)
      && r.state == (if m.state.Releasing? && HasActive(m.subs) then Pending else Released)
  {
    if m.state.Releasing? {
      DsClosed(m, RsrcReleased, reply);
    } else {
      DsStatusKeeps(m, RsrcReleased, reply);
      DsStatusKeeps(OnStatus(m, RsrcReleased, reply), RsrcDenied, reply);
    }
  }

  lemma DsStepKeeps(m: Machine, call: Call, reply: Reply)
    requires DsInv(m) && !call.Drop?
    ensures DsInv(Step(m, call, reply))
  {
    match call
    case Subscribe(c) => DsSubscribeKeeps(m, c, reply);
    case Unsubscribe(c) => DsUnsubscribeKeeps(m, c, reply);
    case Event(status) =>
      if status.RsrcReleased? {
        DsReleased(m, reply);
      } else {
        DsStatusKeeps(m, status, reply);
      }
  }

  /** dropAllSubscribers is never called on ds_nif: every state it can reach has DsInv. */
  lemma {:induction false} DsReachable(calls: seq<(Call, Reply)>)
    requires DropFree(calls)
    ensures DsInv(Run(Fresh(false, true), calls))
    decreases |calls|
  {
    if calls != [] {
      var prefix := calls[..|calls| - 1];
      DsReachable(prefix);
      var (call, reply) := calls[|calls| - 1];
      assert !call.Drop?;
      DsStepKeeps(Run(Fresh(false, true), prefix), call, reply);
    }
  }

  /** A failed data call is what a DSStateMachine has and the others have not: Released with a
      subscriber in the list, exactly when the servicer did not return success. */
  lemma FailedCallStaysReleased(m: Machine, c: Client, reply: Reply)
    requires DsInv(m) && m.state.Released?
    ensures var r := SubscribeRsrc(m, c, reply);
      r.subs != [] && (r.state.Released? <==> reply.code != 0)
  {
    DsAddKeeps(m, c);
    SendCounts(AddSubscriber(m, c), Request, reply);
  }
}
