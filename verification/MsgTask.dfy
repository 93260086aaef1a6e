/** MsgTask of gps/core/MsgTask.cpp: one worker thread in loopMain, and any number of others that send
    and, once, unblock through the destructor.  Thread 0 is the worker. */
module MsgTask {
  import opened ListSpec
  import opened MsgQueue

  datatype Worker<M> =
    | Listening          // from the call of msg_q_rcv to its result
    | Processing(msg: M) // in msg->proc(), which may send and may destroy a MsgTask
    | Destroying         // msg_q_rcv failed: msg_q_destroy to come
    | Exited

  /** `processed` and `freed` are what proc() and then delete, or the dealloc of the final flush, got. */
  datatype Task<M> = Task(q: Queue<M>, worker: Worker<M>, processed: seq<M>, freed: seq<M>)

  function Start<M>(others: nat): Task<M> {
    Task(MsgQueue.Fresh(others + 1), Listening, [], [])
  }

  datatype Action<M> = OnQueue(step: Step<M>) | Finish | Destroy

  /** Who calls what: only loopMain receives, and nobody calls msg_q_flush. */
  predicate Permitted<M>(w: Worker<M>, step: Step<M>) {
    step.move.Invoke? ==>
      if step.tid == 0 && !w.Processing? then w.Listening? && step.move.call.Rcv?
      else step.move.call.Snd? || step.move.call.Unblock?
  }

  predicate Possible<M>(t: Task<M>, a: Action<M>) {
    && !t.worker.Exited?
    && |t.q.points| > 0
    && match a
       case OnQueue(step) => Permitted(t.worker, step) && Enabled(t.q, step)
       case Finish => t.worker.Processing? && t.q.points[0].Idle?
       case Destroy => t.worker.Destroying? && t.q.points[0].Idle?
  }

  /** What loopMain does with the result of msg_q_rcv. */
  function Received<M>(result: Result<M>): Worker<M> {
    if result.Got? then Processing(result.msg) else Destroying
  }

  function Do<M>(t: Task<M>, a: Action<M>): Task<M>
    requires Possible(t, a)
  {
    match a
    case OnQueue(step) =>
      var worker := if step.tid == 0 && step.move.Return? && t.worker.Listening?
                    then Received(t.q.points[0].result) else t.worker;
      t.(q := Next(t.q, step), worker := worker)
    case Finish => t.(worker := Listening, processed := t.processed + [t.worker.msg])
    case Destroy => t.(q := t.q.(list := []), worker := Exited, freed := t.freed + t.q.list)
  }

  ghost predicate Runs<M>(t: Task<M>, actions: seq<Action<M>>, r: Task<M>)
    decreases |actions|
  {
    if actions == [] then r == t
    else Possible(t, actions[0]) && Runs(Do(t, actions[0]), actions[1..], r)
  }

  // ----- Invariants

  /** Points of msg_q_rcv that only a receiver reaches. */
  predicate ReceiverPoint<M>(p: Point<M>) {
    || ((p.Locking? || p.Entered?) && p.call.Rcv?)
    || p.Testing? || p.Parked? || p.Woken? || p.Removing?
    || ((p.Leaving? || p.Returned?) && p.result.Got?)
  }

  predicate Ended<M>(p: Point<M>) {
    (p.Leaving? || p.Returned?) && p.result.Unavailable?
  }

  /** The message that has left the queue and is not yet processed. */
  function InFlight<M>(t: Task<M>): seq<M>
    requires |t.q.points| > 0
  {
    var p := t.q.points[0];
    if t.worker.Processing? then [t.worker.msg]
    else if (p.Leaving? || p.Returned?) && p.result.Got? then [p.result.msg]
    else []
  }

  ghost predicate Live<M>(t: Task<M>) {
    && |t.q.points| > 0
    && Inv(t.q)
    && (forall u :: 0 <= u < |t.q.points| ==> !WantsFlush(t.q.points[u]))
    && (forall u :: 1 <= u < |t.q.points| ==> !ReceiverPoint(t.q.points[u]))
    && AllDelivered(t.q.exits)
    && ExitMsgs(t.q.exits) == t.processed + InFlight(t)
    && t.freed == []
    && match t.worker
       case Listening =>
         var p := t.q.points[0];
         (p.Idle? || ReceiverPoint(p) || Ended(p)) && (Ended(p) ==> t.q.unblocked)
       case Processing(_) => !ReceiverPoint(t.q.points[0])
       case Destroying => t.q.points[0].Idle? && t.q.unblocked
       case Exited => false
  }

  /** After the worker is gone: each accepted message was processed or freed, the processed ones first
      and in order, and the flush that freed the rest started from the newest. */
  ghost predicate TornDown<M>(t: Task<M>) {
    t.q.unblocked && t.q.accepted == t.processed + Reverse(t.freed)
  }

  ghost predicate TaskInv<M>(t: Task<M>) {
    if t.worker.Exited? then TornDown(t) else Live(t)
  }

  /** What a step does to the points of the other threads: it can wake them, no more. */
  lemma OthersSeen<M>(q: Queue<M>, step: Step<M>)
    requires Enabled(q, step)
    ensures var n := Next(q, step);
      |n.points| == |q.points| &&
      forall u :: 0 <= u < |q.points| && u != step.tid ==>
        n.points[u] == q.points[u] || (q.points[u].Parked? && n.points[u].Woken?)
  {
  }

  /** A thread that neither receives nor flushes goes on doing neither, and takes nothing out. */
  lemma RoleKept<M>(q: Queue<M>, step: Step<M>)
    requires Enabled(q, step) && !ReceiverPoint(q.points[step.tid]) && !WantsFlush(q.points[step.tid])
    requires step.move.Invoke? ==> step.move.call.Snd? || step.move.call.Unblock?
    ensures var n := Next(q, step);
      && n.exits == q.exits
      && !ReceiverPoint(n.points[step.tid]) && !WantsFlush(n.points[step.tid])
  {
  }

  lemma OtherThread<M>(t: Task<M>, step: Step<M>)
    requires Live(t) && Possible(t, OnQueue(step)) && step.tid != 0
    ensures Live(Do(t, OnQueue(step)))
  {
    var n := Next(t.q, step);
    StepKeeps(t.q, step);
    OthersSeen(t.q, step);
    RoleKept(t.q, step);
  }

  lemma WorkerThread<M>(t: Task<M>, step: Step<M>)
    requires Live(t) && Possible(t, OnQueue(step)) && step.tid == 0 && !step.move.Remove? && !step.move.Return?
    ensures Live(Do(t, OnQueue(step)))
  {
    var n := Next(t.q, step);
    StepKeeps(t.q, step);
    OthersSeen(t.q, step);
    if !ReceiverPoint(t.q.points[0]) && !(step.move.Invoke? && step.move.call.Rcv?) {
      RoleKept(t.q, step);
    } else {
      assert n.exits == t.q.exits && !WantsFlush(n.points[0]);
    }
  }

  lemma WorkerRemoves<M>(t: Task<M>, step: Step<M>)
    requires Live(t) && Possible(t, OnQueue(step)) && step.tid == 0 && step.move.Remove?
    ensures Live(Do(t, OnQueue(step)))
  {
    var n := Next(t.q, step);
    StepKeeps(t.q, step);
    if t.q.list != [] {
      var m := t.q.list[|t.q.list| - 1];
      assert ExitMsgs(n.exits) == ExitMsgs(t.q.exits) + [m];
    }
  }

  lemma WorkerReturns<M>(t: Task<M>, step: Step<M>)
    requires Live(t) && Possible(t, OnQueue(step)) && step.tid == 0 && step.move.Return?
    ensures Live(Do(t, OnQueue(step)))
  {
    StepKeeps(t.q, step);
  }

  lemma ActionKeeps<M>(t: Task<M>, a: Action<M>)
    requires TaskInv(t) && Possible(t, a)
    ensures TaskInv(Do(t, a))
  {
    match a
    case OnQueue(step) =>
      if step.tid != 0 {
        OtherThread(t, step);
      } else if step.move.Remove? {
        WorkerRemoves(t, step);
      } else if step.move.Return? {
        WorkerReturns(t, step);
      } else {
        WorkerThread(t, step);
      }
    case Finish =>
    case Destroy =>
      assert t.processed + InFlight(t) == t.processed;
      assert t.freed + t.q.list == t.q.list;
  }

  lemma {:induction false} RunKeepsTask<M>(t: Task<M>, actions: seq<Action<M>>, r: Task<M>)
    requires TaskInv(t) && Runs(t, actions, r)
    ensures TaskInv(r)
    decreases |actions|
  {
    if actions != [] {
      ActionKeeps(t, actions[0]);
      RunKeepsTask(Do(t, actions[0]), actions[1..], r);
    }
  }

  /** While the worker lives, what it has processed, the one message it may hold, and what is queued are
      all that was accepted, in order: messages are processed once each, in the order they were sent. */
  lemma {:induction false} ProcessedInOrder<M>(others: nat, actions: seq<Action<M>>, t: Task<M>)
    requires Runs(Start(others), actions, t) && !t.worker.Exited?
    ensures |t.q.points| > 0 && t.freed == []
    ensures t.q.accepted == t.processed + InFlight(t) + Reverse(t.q.list)
  {
    RunKeepsTask(Start(others), actions, t);
  }

  /** At teardown every accepted message has been processed once or freed once, and never both. */
  lemma {:induction false} NothingLostAtTeardown<M>(others: nat, actions: seq<Action<M>>, t: Task<M>)
    requires Runs(Start(others), actions, t) && t.worker.Exited?
    ensures t.q.unblocked && t.q.accepted == t.processed + Reverse(t.freed)
    ensures multiset(t.q.accepted) == multiset(t.processed) + multiset(t.freed)
  {
    RunKeepsTask(Start(others), actions, t);
    ReverseMultiset(t.freed);
  }

  // ----- After the unblock

  /** The worker's receive has passed the test of the flag at its head. */
  predicate PastTest<M>(p: Point<M>) {
    p.Testing? || p.Parked? || p.Woken? || p.Removing?
  }

  /** The worker has yet to take one message out: the oldest. */
  predicate TakesOne<M>(t: Task<M>)
    requires |t.q.points| > 0
  {
    t.worker.Listening? && PastTest(t.q.points[0]) && t.q.list != []
  }

  /** What an unblocked worker will still process: the message in hand, or the one its receive gets if that
      has passed the test of the flag. */
  function Committed<M>(t: Task<M>): seq<M>
    requires |t.q.points| > 0
  {
    InFlight(t) + if TakesOne(t) then [t.q.list[|t.q.list| - 1]] else []
  }

  /** What will be freed with the queue. */
  function Condemned<M>(t: Task<M>): seq<M>
    requires |t.q.points| > 0
  {
    if TakesOne(t) then t.q.list[..|t.q.list| - 1] else t.q.list
  }

  /** Nothing that is done to an unblocked queue changes what becomes of the messages in it. */
  predicate Fate<M(==)>(t: Task<M>, processed: seq<M>, freed: seq<M>) {
    if t.worker.Exited? then t.processed == processed && t.freed == freed
    else |t.q.points| > 0 && t.processed + Committed(t) == processed && Condemned(t) == freed
  }

  lemma OtherFate<M>(t: Task<M>, step: Step<M>)
    requires Live(t) && t.q.unblocked && Possible(t, OnQueue(step)) && step.tid != 0
    ensures Fate(Do(t, OnQueue(step)), t.processed + Committed(t), Condemned(t))
  {
    OthersSeen(t.q, step);
    var n := Next(t.q, step);
    assert n.list == t.q.list;
    assert PastTest(n.points[0]) == PastTest(t.q.points[0]);
  }

  lemma RemovalFate<M>(t: Task<M>, step: Step<M>)
    requires Live(t) && t.q.unblocked && Possible(t, OnQueue(step)) && step.tid == 0 && step.move.Remove?
    ensures Fate(Do(t, OnQueue(step)), t.processed + Committed(t), Condemned(t))
  {
    if t.q.list != [] {
      assert Committed(t) == [t.q.list[|t.q.list| - 1]];
    }
  }

  lemma WorkerFate<M>(t: Task<M>, step: Step<M>)
    requires Live(t) && t.q.unblocked && Possible(t, OnQueue(step)) && step.tid == 0 && !step.move.Remove?
    ensures Fate(Do(t, OnQueue(step)), t.processed + Committed(t), Condemned(t))
  {
    var n := Next(t.q, step);
    assert n.list == t.q.list;
  }

  lemma ActionFate<M>(t: Task<M>, a: Action<M>)
    requires Live(t) && t.q.unblocked && Possible(t, a)
    ensures Fate(Do(t, a), t.processed + Committed(t), Condemned(t))
    ensures Do(t, a).q.unblocked
  {
    match a
    case OnQueue(step) =>
      if step.tid != 0 {
        OtherFate(t, step);
      } else if step.move.Remove? {
        RemovalFate(t, step);
      } else {
        WorkerFate(t, step);
      }
    case Finish =>
      assert Committed(t) == [t.worker.msg];
    case Destroy =>
      assert t.processed + Committed(t) == t.processed && t.freed + t.q.list == t.q.list;
  }

  /** Once the queue is unblocked it is settled what is still processed, the message in hand or the one that
      a receive already past the test of the flag takes, and that all others are freed. */
  lemma {:induction false} FateIsSealed<M>(t: Task<M>, actions: seq<Action<M>>, r: Task<M>)
    requires Live(t) && !t.worker.Exited? && t.q.unblocked && Runs(t, actions, r)
    ensures Fate(r, t.processed + Committed(t), Condemned(t))
    decreases |actions|
  {
    if actions != [] {
      var n := Do(t, actions[0]);
      ActionFate(t, actions[0]);
      ActionKeeps(t, actions[0]);
      if !n.worker.Exited? {
        FateIsSealed(n, actions[1..], r);
      } else {
        assert actions[1..] == [];
      }
    }
  }

  lemma {:induction false} LiveRun<M>(others: nat, actions: seq<Action<M>>, t: Task<M>)
    requires Runs(Start(others), actions, t) && !t.worker.Exited?
    ensures Live(t)
  {
    RunKeepsTask(Start(others), actions, t);
  }

  /** Said of a run from the start: of what is queued when the queue is unblocked at most one message is
      processed, and only by a receive that was already past the test of the flag. */
  lemma {:induction false} AfterUnblock<M>(others: nat, actions: seq<Action<M>>, t: Task<M>,
                                           more: seq<Action<M>>, r: Task<M>)
    requires Runs(Start(others), actions, t) && !t.worker.Exited? && t.q.unblocked
    requires Runs(t, more, r) && r.worker.Exited?
    ensures |t.q.points| > 0
    ensures r.processed == t.processed + (InFlight(t) + if TakesOne(t) then [t.q.list[|t.q.list| - 1]] else [])
    ensures r.freed == if TakesOne(t) then t.q.list[..|t.q.list| - 1] else t.q.list
  {
    LiveRun(others, actions, t);
    FateIsSealed(t, more, r);
  }

  // ----- The worker ends

  /** The worker has nothing in hand, and its receive, if it is in one, has not passed the test of the flag. */
  predicate Dismissed<M>(t: Task<M>) {
    && |t.q.points| > 0
    && var p := t.q.points[0];
       match t.worker
       case Listening => p.Idle? || ((p.Locking? || p.Entered?) && p.call.Rcv?) || Ended(p)
       case Destroying => p.Idle?
       case _ => t.worker.Exited?
  }

  /** The steps that such a worker still has before it, once the queue is unblocked. */
  function StepsLeft<M>(t: Task<M>): nat
    requires Dismissed(t)
  {
    var p := t.q.points[0];
    match t.worker
    case Listening =>
      if p.Idle? then 6 else if p.Locking? then 5 else if p.Entered? then 4 else if p.Leaving? then 3 else 2
    case Destroying => 1
    case _ => 0
  }

  predicate ByWorker<M>(a: Action<M>) {
    a.OnQueue? ==> a.step.tid == 0
  }

  function WorkerActions<M>(actions: seq<Action<M>>): nat {
    if actions == [] then 0 else (if ByWorker(actions[0]) then 1 else 0) + WorkerActions(actions[1..])
  }

  lemma DismissedStep<M>(t: Task<M>, a: Action<M>)
    requires Dismissed(t) && t.q.unblocked && Possible(t, a)
    ensures var n := Do(t, a);
      && Dismissed(n) && n.q.unblocked
      && StepsLeft(t) == StepsLeft(n) + if ByWorker(a) then 1 else 0
  {
    if a.OnQueue? && a.step.tid != 0 {
      OthersSeen(t.q, a.step);
    }
  }

  /** After the unblock a worker without a message in hand, whatever the others do, takes at most six more steps, and
      has then left loopMain. */
  lemma {:induction false} WorkerLeaves<M>(t: Task<M>, actions: seq<Action<M>>, r: Task<M>)
    requires Dismissed(t) && t.q.unblocked && Runs(t, actions, r)
    ensures Dismissed(r) && WorkerActions(actions) + StepsLeft(r) == StepsLeft(t) <= 6
    ensures r.worker.Exited? <==> WorkerActions(actions) == StepsLeft(t)
    decreases |actions|
  {
    if actions != [] {
      DismissedStep(t, actions[0]);
      WorkerLeaves(Do(t, actions[0]), actions[1..], r);
    }
  }

  /** Once it has finished the message in hand it is such a worker. */
  lemma FinishDismisses<M>(t: Task<M>)
    requires Possible(t, Finish)
    ensures Dismissed(Do(t, Finish)) && StepsLeft(Do(t, Finish)) == 6
  {
  }
}
