/** The message queue of gps/utils/msg_q.c as a concurrent protocol: any number of threads, each at a
    program point of msg_q_snd, msg_q_rcv, msg_q_flush or msg_q_unblock, around one mutex and one
    condition variable.  A step is one action of one thread between two points where others can run,
    so every interleaving of the C code is a sequence of steps. */
module MsgQueue {
  import opened ListSpec

  type Tid = nat

  datatype Call<M> = Snd(msg: M) | Rcv | Flush | Unblock

  datatype Result<M> = Success | Got(msg: M) | Unavailable

  datatype Point<M> =
    | Idle
    | Locking(call: Call<M>)      // in pthread_mutex_lock at the start of the call
    | Entered(call: Call<M>)      // owns the mutex, before the test of `unblocked` (before the flush)
    | Signalling                  // snd: linked_list_add done, pthread_cond_signal to come
    | Broadcasting                // unblock: `unblocked` set, pthread_cond_broadcast to come
    | Testing(waited: bool)       // rcv: owns the mutex, at the test of the while loop, after a wait or not
    | Parked                      // rcv: in pthread_cond_wait, nobody has signalled it
    | Woken                       // rcv: woken, waiting to own the mutex again
    | Removing(waited: bool)      // rcv: out of the loop, linked_list_remove to come
    | Leaving(result: Result<M>)  // owns the mutex, pthread_mutex_unlock to come
    | Returned(result: Result<M>)

  datatype Exit<M> = Delivered(msg: M) | Freed(msg: M)

  /** `list` runs from p_head to p_tail.  `accepted` and `exits` are history: what linked_list_add
      took, and what became of it. */
  datatype Queue<M> = Queue(list: seq<M>, unblocked: bool, owner: Option<Tid>, points: seq<Point<M>>,
                            accepted: seq<M>, exits: seq<Exit<M>>)

  function Fresh<M>(threads: nat): Queue<M> {
    Queue([], false, None, seq(threads, _ => Idle), [], [])
  }

  datatype Move<M> =
    | Invoke(call: Call<M>)
    | Lock                        // pthread_mutex_lock returns
    | Enter                       // the code between the lock and the next program point
    | Signal(woken: set<Tid>)     // POSIX lets a signal wake more than one thread
    | Broadcast
    | Test                        // one evaluation of the loop condition
    | Spurious                    // pthread_cond_wait wakes without a signal
    | Relock                      // pthread_cond_wait owns the mutex again and returns
    | Remove
    | Unlock
    | Return

  datatype Step<M> = Step(tid: Tid, move: Move<M>)

  predicate Owns<M>(p: Point<M>) {
    p.Entered? || p.Signalling? || p.Broadcasting? || p.Testing? || p.Removing? || p.Leaving?
  }

  predicate Enabled<M>(q: Queue<M>, step: Step<M>) {
    step.tid < |q.points| &&
    var p := q.points[step.tid];
    match step.move
    case Invoke(_) => p.Idle?
    case Lock => p.Locking? && q.owner.None?
    case Enter => p.Entered?
    case Signal(woken) =>
      && p.Signalling?
      && (forall t :: t in woken ==> t < |q.points| && q.points[t].Parked?)
      && (woken == {} ==> forall t :: 0 <= t < |q.points| ==> !q.points[t].Parked?)
    case Broadcast => p.Broadcasting?
    case Test => p.Testing?
    case Spurious => p.Parked?
    case Relock => p.Woken? && q.owner.None?
    case Remove => p.Removing?
    case Unlock => p.Leaving?
    case Return => p.Returned?
  }

  function At<M>(q: Queue<M>, t: Tid, p: Point<M>): Queue<M>
    requires t < |q.points|
  {
    q.(points := q.points[t := p])
  }

  function Waiting<M>(points: seq<Point<M>>): set<Tid> {
    set t | 0 <= t < |points| && points[t].Parked?
  }

  function Wake<M>(points: seq<Point<M>>, woken: set<Tid>): (r: seq<Point<M>>)
    ensures |r| == |points|
    ensures forall t :: 0 <= t < |r| ==> r[t] == if t in woken && points[t].Parked? then Woken else points[t]
  {
    seq(|points|, t requires 0 <= t < |points| => if t in woken && points[t].Parked? then Woken else points[t])
  }

  function FreeAll<M>(list: seq<M>): (r: seq<Exit<M>>)
    ensures |r| == |list|
  {
    seq(|list|, i requires 0 <= i < |list| => Freed(list[i]))
  }

  /** The body of each call from the lock on.  A flush frees everything; its exits are listed in the
      order the messages were accepted. */
  function AfterEnter<M>(q: Queue<M>, t: Tid, call: Call<M>): Queue<M>
    requires t < |q.points|
  {
    match call
    case Snd(msg) =>
      if q.unblocked then At(q, t, Leaving(Unavailable))
      else At(q, t, Signalling).(list := [msg] + q.list, accepted := q.accepted + [msg])
    case Rcv => At(q, t, if q.unblocked then Leaving(Unavailable) else Testing(false))
    case Flush => At(q, t, Leaving(Success)).(list := [], exits := q.exits + FreeAll(Reverse(q.list)))
    case Unblock =>
      if q.unblocked then At(q, t, Leaving(Unavailable)) else At(q, t, Broadcasting).(unblocked := true)
  }

  function AfterRemove<M>(q: Queue<M>, t: Tid): Queue<M>
    requires t < |q.points|
  {
    if q.list == [] then At(q, t, Leaving(Unavailable))
    else
      var last := |q.list| - 1;
      At(q, t, Leaving(Got(q.list[last]))).(list := q.list[..last], exits := q.exits + [Delivered(q.list[last])])
  }

  function Next<M>(q: Queue<M>, step: Step<M>): Queue<M>
    requires Enabled(q, step)
  {
    var t := step.tid;
    match step.move
    case Invoke(call) => At(q, t, Locking(call))
    case Lock => At(q, t, Entered(q.points[t].call)).(owner := Some(t))
    case Enter => AfterEnter(q, t, q.points[t].call)
    case Signal(woken) => At(q.(points := Wake(q.points, woken)), t, Leaving(Success))
    case Broadcast => At(q.(points := Wake(q.points, Waiting(q.points))), t, Leaving(Success))
    case Test => At(q, t, if q.list == [] && !q.unblocked then Parked else Removing(q.points[t].waited))
                   .(owner := if q.list == [] && !q.unblocked then None else q.owner)
    case Spurious => At(q, t, Woken)
    case Relock => At(q, t, Testing(true)).(owner := Some(t))
    case Remove => AfterRemove(q, t)
    case Unlock => At(q, t, Returned(q.points[t].result)).(owner := None)
    case Return => At(q, t, Idle)
  }

  ghost predicate Runs<M>(q: Queue<M>, steps: seq<Step<M>>, r: Queue<M>)
    decreases |steps|
  {
    if steps == [] then r == q
    else Enabled(q, steps[0]) && Runs(Next(q, steps[0]), steps[1..], r)
  }

  // ----- Invariants

  /** Receivers that have been woken and are not yet past linked_list_remove.  One that has come straight
      from the lock does not count. */
  function Weight<M>(p: Point<M>): nat {
    if p.Woken? || (p.Testing? && p.waited) || (p.Removing? && p.waited) then 1 else 0
  }

  function Receiving<M>(points: seq<Point<M>>): nat {
    if points == [] then 0 else Weight(points[0]) + Receiving(points[1..])
  }

  predicate SomeParked<M>(points: seq<Point<M>>) {
    exists t :: 0 <= t < |points| && points[t].Parked?
  }

  predicate SomeSignalling<M>(points: seq<Point<M>>) {
    exists t :: 0 <= t < |points| && points[t].Signalling?
  }

  predicate SomeBroadcasting<M>(points: seq<Point<M>>) {
    exists t :: 0 <= t < |points| && points[t].Broadcasting?
  }

  /** The mutex: exactly the owner is at a point that needs it. */
  predicate Exclusive<M>(q: Queue<M>) {
    (q.owner.Some? ==> q.owner.value < |q.points|) &&
    forall t :: 0 <= t < |q.points| ==> (Owns(q.points[t]) <==> q.owner == Some(t))
  }

  /** While somebody is parked, every queued message has a woken receiver on its way to it, except the one
      a sender is about to signal for. */
  predicate NoLostWakeup<M>(q: Queue<M>) {
    SomeParked(q.points) ==> |q.list| <= Receiving(q.points) + if SomeSignalling(q.points) then 1 else 0
  }

  /** Once the unblock has broadcast, nobody is parked. */
  predicate NobodyParked<M>(q: Queue<M>) {
    && (SomeBroadcasting(q.points) ==> q.unblocked)
    && (q.unblocked && !SomeBroadcasting(q.points) ==> !SomeParked(q.points))
  }

  /** A receiver out of its loop has something to remove, unless the queue was unblocked. */
  predicate SomethingToRemove<M>(q: Queue<M>) {
    q.list == [] && !q.unblocked ==> forall t :: 0 <= t < |q.points| ==> !q.points[t].Removing?
  }

  function ExitMsgs<M>(exits: seq<Exit<M>>): (r: seq<M>)
    ensures |r| == |exits|
    ensures forall i :: 0 <= i < |r| ==> r[i] == exits[i].msg
  {
    seq(|exits|, i requires 0 <= i < |exits| => exits[i].msg)
  }

  /** What has left, then what is queued from the tail on, is what was accepted, in that order. */
  ghost predicate Fifo<M>(q: Queue<M>) {
    q.accepted == ExitMsgs(q.exits) + Reverse(q.list)
  }

  ghost predicate Inv<M>(q: Queue<M>) {
    Exclusive(q) && NoLostWakeup(q) && NobodyParked(q) && SomethingToRemove(q) && Fifo(q)
  }

  // ----- Counting receivers

  lemma {:induction false} ReceivingUpdate<M>(points: seq<Point<M>>, t: nat, p: Point<M>)
    requires t < |points|
    ensures Receiving(points[t := p]) == Receiving(points) - Weight(points[t]) + Weight(p)
  {
    if t == 0 {
      assert points[t := p][1..] == points[1..];
    } else {
      assert points[t := p][1..] == points[1..][t - 1 := p];
      ReceivingUpdate(points[1..], t - 1, p);
    }
  }

  /** Waking only adds receivers, and at least one if anybody parked is woken. */
  lemma {:induction false} ReceivingGrows<M>(points: seq<Point<M>>, after: seq<Point<M>>)
    requires |points| == |after|
    requires forall t :: 0 <= t < |points| ==> after[t] == points[t] || (points[t].Parked? && after[t].Woken?)
    ensures Receiving(after) >= Receiving(points)
    ensures (exists t :: 0 <= t < |points| && after[t] != points[t]) ==> Receiving(after) > Receiving(points)
  {
    if points != [] {
      ReceivingGrows(points[1..], after[1..]);
      if exists t :: 0 <= t < |points| && after[t] != points[t] {
        var t :| 0 <= t < |points| && after[t] != points[t];
        if t > 0 {
          assert after[1..][t - 1] != points[1..][t - 1];
        }
      }
    }
  }

  // ----- Every step keeps the invariants

  lemma ExclusiveKept<M>(q: Queue<M>, step: Step<M>)
    requires Exclusive(q) && Enabled(q, step)
    ensures Exclusive(Next(q, step))
  {
  }

  lemma EnterFifo<M>(q: Queue<M>, t: Tid, call: Call<M>)
    requires Fifo(q) && t < |q.points|
    ensures Fifo(AfterEnter(q, t, call))
  {
    var r := AfterEnter(q, t, call);
    match call
    case Snd(msg) =>
      assert ([msg] + q.list)[1..] == q.list;
    case Flush =>
      assert ExitMsgs(r.exits) == ExitMsgs(q.exits) + Reverse(q.list);
    case _ =>
  }

  lemma RemoveFifo<M>(q: Queue<M>, t: Tid)
    requires Fifo(q) && t < |q.points|
    ensures Fifo(AfterRemove(q, t))
  {
    if q.list != [] {
      var last := q.list[|q.list| - 1];
      ReverseLast(q.list);
      DeliveredNext(q.exits, last);
      assert ExitMsgs(q.exits) + ([last] + Reverse(q.list[..|q.list| - 1])) ==
             (ExitMsgs(q.exits) + [last]) + Reverse(q.list[..|q.list| - 1]);
    }
  }

  lemma DeliveredNext<M>(exits: seq<Exit<M>>, msg: M)
    ensures ExitMsgs(exits + [Delivered(msg)]) == ExitMsgs(exits) + [msg]
  {
  }

  lemma FifoKept<M>(q: Queue<M>, step: Step<M>)
    requires Fifo(q) && Enabled(q, step)
    ensures Fifo(Next(q, step))
  {
    if step.move.Enter? {
      EnterFifo(q, step.tid, q.points[step.tid].call);
    } else if step.move.Remove? {
      RemoveFifo(q, step.tid);
    }
  }

  lemma SomethingToRemoveKept<M>(q: Queue<M>, step: Step<M>)
    requires Exclusive(q) && SomethingToRemove(q) && Enabled(q, step)
    ensures SomethingToRemove(Next(q, step))
  {
    if Owns(q.points[step.tid]) {
      OneOwner(q, step.tid);
    }
  }

  lemma Unparked<M>(q: Queue<M>, r: Queue<M>, t: Tid)
    requires t < |q.points| && |r.points| == |q.points|
    requires forall u :: 0 <= u < |q.points| && u != t ==> r.points[u] == q.points[u]
    requires !r.points[t].Parked?
    ensures SomeParked(r.points) ==> SomeParked(q.points)
    ensures !q.points[t].Parked? && SomeParked(q.points) ==> SomeParked(r.points)
  {
  }

  /** Steps that touch no thread but their own. */
  lemma Alone<M>(q: Queue<M>, step: Step<M>)
    requires Enabled(q, step) && !step.move.Signal? && !step.move.Broadcast?
    ensures var r := Next(q, step);
      && |r.points| == |q.points|
      && (forall u :: 0 <= u < |q.points| && u != step.tid ==> r.points[u] == q.points[u])
      && r.points == q.points[step.tid := r.points[step.tid]]
  {
  }

  lemma OneOwner<M>(q: Queue<M>, t: Tid)
    requires Exclusive(q) && t < |q.points| && Owns(q.points[t])
    ensures forall u :: 0 <= u < |q.points| && u != t ==> !Owns(q.points[u])
  {
  }

  lemma NobodyParkedKept<M>(q: Queue<M>, step: Step<M>)
    requires Exclusive(q) && NobodyParked(q) && Enabled(q, step)
    ensures NobodyParked(Next(q, step))
  {
    var r := Next(q, step);
    var t := step.tid;
    if Owns(q.points[t]) {
      OneOwner(q, t);
    }
    if !step.move.Signal? && !step.move.Broadcast? {
      Alone(q, step);
    }
  }

  lemma SignalKept<M>(q: Queue<M>, step: Step<M>)
    requires Exclusive(q) && NoLostWakeup(q) && Enabled(q, step) && (step.move.Signal? || step.move.Broadcast?)
    ensures NoLostWakeup(Next(q, step))
  {
    var t := step.tid;
    var woken := if step.move.Signal? then step.move.woken else Waiting(q.points);
    var after := Wake(q.points, woken);
    OneOwner(q, t);
    ReceivingGrows(q.points, after);
    ReceivingUpdate(after, t, Leaving(Success));
    var r := Next(q, step);
    if SomeParked(r.points) {
      var u :| 0 <= u < |r.points| && r.points[u].Parked?;
      assert q.points[u].Parked? && u !in woken;
      assert step.move.Signal?;
      var w :| w in woken;
      assert after[w] != q.points[w];
    }
  }

  lemma WakeupKept<M>(q: Queue<M>, step: Step<M>)
    requires Exclusive(q) && NoLostWakeup(q) && Enabled(q, step) && !step.move.Signal? && !step.move.Broadcast?
    ensures NoLostWakeup(Next(q, step))
  {
    var r := Next(q, step);
    var t := step.tid;
    Alone(q, step);
    ReceivingUpdate(q.points, t, r.points[t]);
    if Owns(q.points[t]) {
      OneOwner(q, t);
    }
    if SomeParked(r.points) && !r.points[t].Parked? {
      Unparked(q, r, t);
      if SomeSignalling(q.points) {
        var u :| 0 <= u < |q.points| && q.points[u].Signalling?;
        assert u != t ==> r.points[u].Signalling?;
      }
    }
  }

  lemma StepKeeps<M>(q: Queue<M>, step: Step<M>)
    requires Inv(q) && Enabled(q, step)
    ensures Inv(Next(q, step))
  {
    ExclusiveKept(q, step);
    FifoKept(q, step);
    SomethingToRemoveKept(q, step);
    NobodyParkedKept(q, step);
    if step.move.Signal? || step.move.Broadcast? {
      SignalKept(q, step);
    } else {
      WakeupKept(q, step);
    }
  }

  lemma {:induction false} RunKeeps<M>(q: Queue<M>, steps: seq<Step<M>>, r: Queue<M>)
    requires Inv(q) && Runs(q, steps, r)
    ensures Inv(r) && |r.points| == |q.points|
    decreases |steps|
  {
    if steps != [] {
      StepKeeps(q, steps[0]);
      RunKeeps(Next(q, steps[0]), steps[1..], r);
    }
  }

  /** Every state that any threads can reach has the invariants. */
  lemma {:induction false} Reachable<M>(threads: nat, steps: seq<Step<M>>, r: Queue<M>)
    requires Runs(Fresh(threads), steps, r)
    ensures Inv(r)
  {
    RunKeeps(Fresh(threads), steps, r);
  }

  // ----- What the invariants give the callers

  lemma {:induction false} SomeReceiver<M>(points: seq<Point<M>>)
    ensures Receiving(points) > 0 ==> exists t :: 0 <= t < |points| && Weight(points[t]) == 1
  {
    if points != [] && Weight(points[0]) == 0 {
      SomeReceiver(points[1..]);
      if Receiving(points) > 0 {
        var t :| 0 <= t < |points[1..]| && Weight(points[1..][t]) == 1;
        assert Weight(points[t + 1]) == 1;
      }
    }
  }

  /** A message never sits in the queue with every waiting receiver asleep: one has been woken and is on its
      way to linked_list_remove, or the sender still holds the mutex and is about to signal. */
  lemma {:induction false} MessageIsAttended<M>(threads: nat, steps: seq<Step<M>>, q: Queue<M>)
    requires Runs(Fresh(threads), steps, q) && q.list != [] && SomeParked(q.points)
    ensures SomeSignalling(q.points) || exists t :: 0 <= t < |q.points| && Weight(q.points[t]) == 1
  {
    Reachable(threads, steps, q);
    if !SomeSignalling(q.points) {
      SomeReceiver(q.points);
    }
  }

  /** Nothing is accepted once the queue is unblocked, and it stays so. */
  lemma {:induction false} ClosedForGood<M>(q: Queue<M>, steps: seq<Step<M>>, r: Queue<M>)
    requires q.unblocked && Runs(q, steps, r)
    ensures r.unblocked && r.accepted == q.accepted
    decreases |steps|
  {
    if steps != [] {
      ClosedForGood(Next(q, steps[0]), steps[1..], r);
    }
  }

  predicate WantsFlush<M>(p: Point<M>) {
    (p.Locking? || p.Entered?) && p.call.Flush?
  }

  predicate NeverFlushes<M>(steps: seq<Step<M>>) {
    forall i :: 0 <= i < |steps| ==> !(steps[i].move.Invoke? && steps[i].move.call.Flush?)
  }

  predicate AllDelivered<M>(exits: seq<Exit<M>>) {
    forall i :: 0 <= i < |exits| ==> exits[i].Delivered?
  }

  lemma {:induction false} OnlyDeliveries<M>(q: Queue<M>, steps: seq<Step<M>>, r: Queue<M>)
    requires Runs(q, steps, r) && NeverFlushes(steps) && AllDelivered(q.exits)
    requires forall t :: 0 <= t < |q.points| ==> !WantsFlush(q.points[t])
    ensures AllDelivered(r.exits)
    decreases |steps|
  {
    if steps != [] {
      var n := Next(q, steps[0]);
      assert forall t :: 0 <= t < |q.points| ==> !WantsFlush(n.points[t]);
      OnlyDeliveries(n, steps[1..], r);
    }
  }

  /** Without msg_q_flush: what was delivered, in order, then what is queued, is what was accepted. */
  lemma {:induction false} DeliveredInOrder<M>(threads: nat, steps: seq<Step<M>>, q: Queue<M>)
    requires Runs(Fresh(threads), steps, q) && NeverFlushes(steps)
    ensures AllDelivered(q.exits) && q.accepted == ExitMsgs(q.exits) + Reverse(q.list)
  {
    Reachable(threads, steps, q);
    OnlyDeliveries(Fresh(threads), steps, q);
  }

  // ----- After the unblock

  /** The unblock has been broadcast. */
  ghost predicate Settled<M>(q: Queue<M>) {
    Inv(q) && q.unblocked && !SomeBroadcasting(q.points)
  }

  /** An upper bound on the steps a thread has left in its call. */
  function Rank<M>(p: Point<M>): nat {
    match p
    case Idle => 0
    case Returned(_) => 1
    case Leaving(_) => 2
    case Removing(_) => 3
    case Signalling => 3
    case Broadcasting => 3
    case Testing(_) => 4
    case Woken => 5
    case Parked => 6
    case Entered(_) => 6
    case Locking(_) => 7
  }

  function TotalRank<M>(points: seq<Point<M>>): nat {
    if points == [] then 0 else Rank(points[0]) + TotalRank(points[1..])
  }

  lemma {:induction false} TotalRankUpdate<M>(points: seq<Point<M>>, t: nat, p: Point<M>)
    requires t < |points|
    ensures TotalRank(points[t := p]) == TotalRank(points) - Rank(points[t]) + Rank(p)
  {
    if t == 0 {
      assert points[t := p][1..] == points[1..];
    } else {
      assert points[t := p][1..] == points[1..][t - 1 := p];
      TotalRankUpdate(points[1..], t - 1, p);
    }
  }

  /** Every step of a pending call brings that call nearer its end and delays no other. */
  lemma SettledStep<M>(q: Queue<M>, step: Step<M>)
    requires Settled(q) && Enabled(q, step) && !step.move.Invoke?
    ensures var r := Next(q, step);
      && Settled(r) && |r.points| == |q.points|
      && Rank(r.points[step.tid]) < Rank(q.points[step.tid])
      && r.points == q.points[step.tid := r.points[step.tid]]
  {
    var r := Next(q, step);
    var t := step.tid;
    StepKeeps(q, step);
    if step.move.Signal? {
      assert Wake(q.points, step.move.woken) == q.points;
    }
    assert r.points == q.points[t := r.points[t]];
    assert forall u :: 0 <= u < |q.points| ==> !r.points[u].Broadcasting?;
  }

  /** So without new calls only so many steps are left. */
  lemma {:induction false} DrainBound<M>(q: Queue<M>, steps: seq<Step<M>>, r: Queue<M>)
    requires Settled(q) && Runs(q, steps, r)
    requires forall i :: 0 <= i < |steps| ==> !steps[i].move.Invoke?
    ensures Settled(r) && |steps| + TotalRank(r.points) <= TotalRank(q.points)
    decreases |steps|
  {
    if steps != [] {
      var n := Next(q, steps[0]);
      SettledStep(q, steps[0]);
      TotalRankUpdate(q.points, steps[0].tid, n.points[steps[0].tid]);
      DrainBound(n, steps[1..], r);
    }
  }

  /** The step a thread that owns the mutex, or finds it free, takes next. */
  function OwnStep<M>(t: Tid, p: Point<M>): Step<M>
    requires !p.Idle? && !p.Parked?
  {
    Step(t,
      match p
      case Locking(_) => Lock
      case Entered(_) => Enter
      case Signalling => Signal({})
      case Broadcasting => Broadcast
      case Testing(_) => Test
      case Woken => Relock
      case Removing(_) => Remove
      case Leaving(_) => Unlock
      case _ => Return)
  }

  /** And as long as a call is pending, some pending call can take a step. */
  lemma NoDeadlock<M>(q: Queue<M>, t: Tid)
    requires Settled(q) && t < |q.points| && !q.points[t].Idle?
    ensures exists step: Step<M> :: Enabled(q, step) && !step.move.Invoke?
  {
    assert !q.points[t].Parked?;
    var u := if q.owner.Some? then q.owner.value else t;
    assert !q.points[u].Parked?;
    var step := OwnStep(u, q.points[u]);
    assert Enabled(q, step);
  }
}
