/** What the result of a call on the message queue tells its caller: over any schedule, exactly what the
    call did to the queue, and whether the queue had been unblocked. */
module MsgQueueCalls {
  import opened ListSpec
  import opened MsgQueue

  lemma HistoryGrows<M>(q: Queue<M>, step: Step<M>)
    requires Enabled(q, step)
    ensures q.accepted <= Next(q, step).accepted && q.exits <= Next(q, step).exits
    ensures q.unblocked ==> Next(q, step).unblocked
  {
  }

  /** What one step adds for thread `t`. */
  function PutBy<M>(q: Queue<M>, step: Step<M>, t: Tid): seq<M>
    requires Enabled(q, step)
  {
    HistoryGrows(q, step);
    if step.tid == t then Next(q, step).accepted[|q.accepted|..] else []
  }

  function OutBy<M>(q: Queue<M>, step: Step<M>, t: Tid): seq<Exit<M>>
    requires Enabled(q, step)
  {
    HistoryGrows(q, step);
    if step.tid == t then Next(q, step).exits[|q.exits|..] else []
  }

  predicate UnblocksBy<M>(q: Queue<M>, step: Step<M>, t: Tid)
    requires Enabled(q, step)
  {
    step.tid == t && !q.unblocked && Next(q, step).unblocked
  }

  /** The messages that the steps of thread `t` have put into the queue. */
  ghost function PutIn<M>(q: Queue<M>, steps: seq<Step<M>>, r: Queue<M>, t: Tid): seq<M>
    requires Runs(q, steps, r)
    decreases |steps|
  {
    if steps == [] then [] else PutBy(q, steps[0], t) + PutIn(Next(q, steps[0]), steps[1..], r, t)
  }

  /** What became of the messages that the steps of thread `t` have taken out of it. */
  ghost function TakenOut<M>(q: Queue<M>, steps: seq<Step<M>>, r: Queue<M>, t: Tid): seq<Exit<M>>
    requires Runs(q, steps, r)
    decreases |steps|
  {
    if steps == [] then [] else OutBy(q, steps[0], t) + TakenOut(Next(q, steps[0]), steps[1..], r, t)
  }

  /** A step of thread `t` has unblocked the queue. */
  ghost predicate Unblocks<M>(q: Queue<M>, steps: seq<Step<M>>, r: Queue<M>, t: Tid)
    requires Runs(q, steps, r)
    decreases |steps|
  {
    steps != [] && (UnblocksBy(q, steps[0], t) || Unblocks(Next(q, steps[0]), steps[1..], r, t))
  }

  /** A finished call: its result, what it put in, what it took out, and whether it unblocked the queue. */
  predicate Settles<M(==)>(call: Call<M>, result: Result<M>, put: seq<M>, out: seq<Exit<M>>, unblocks: bool) {
    match call
    case Snd(msg) => out == [] && !unblocks &&
      ((result == Success && put == [msg]) || (result == Unavailable && put == []))
    case Rcv => put == [] && !unblocks &&
      ((result.Got? && out == [Delivered(result.msg)]) || (result == Unavailable && out == []))
    case Flush => put == [] && !unblocks && result == Success && forall i :: 0 <= i < |out| ==> out[i].Freed?
    case Unblock => put == [] && out == [] && result == if unblocks then Success else Unavailable
  }

  /** A thread at point `p` of its call. */
  predicate InCall<M(==)>(p: Point<M>, call: Call<M>, put: seq<M>, out: seq<Exit<M>>, unblocks: bool) {
    match p
    case Idle => false
    case Locking(c) => c == call && put == [] && out == [] && !unblocks
    case Entered(c) => c == call && put == [] && out == [] && !unblocks
    case Signalling => call.Snd? && put == [call.msg] && out == [] && !unblocks
    case Broadcasting => call.Unblock? && put == [] && out == [] && unblocks
    case Leaving(result) => Settles(call, result, put, out, unblocks)
    case Returned(result) => Settles(call, result, put, out, unblocks)
    case _ => call.Rcv? && put == [] && out == [] && !unblocks
  }

  predicate StaysIn<M>(steps: seq<Step<M>>, t: Tid) {
    forall i :: 0 <= i < |steps| ==> !(steps[i].tid == t && steps[i].move.Return?)
  }

  lemma OwnStep<M>(q: Queue<M>, step: Step<M>, call: Call<M>, put: seq<M>, out: seq<Exit<M>>, unblocks: bool)
    requires Enabled(q, step) && !step.move.Return? && InCall(q.points[step.tid], call, put, out, unblocks)
    ensures InCall(Next(q, step).points[step.tid], call, put + PutBy(q, step, step.tid),
                   out + OutBy(q, step, step.tid), unblocks || UnblocksBy(q, step, step.tid))
  {
    HistoryGrows(q, step);
    var n := Next(q, step);
    if step.move.Enter? {
      EnterStep(q, step, call);
    } else if step.move.Remove? {
      assert n.accepted[|q.accepted|..] == [];
    } else {
      assert n.accepted[|q.accepted|..] == [] && n.exits[|q.exits|..] == [];
    }
  }

  lemma EnterStep<M>(q: Queue<M>, step: Step<M>, call: Call<M>)
    requires Enabled(q, step) && step.move.Enter? && q.points[step.tid].call == call
    ensures var n := Next(q, step);
      && q.accepted <= n.accepted && q.exits <= n.exits
      && InCall(n.points[step.tid], call, n.accepted[|q.accepted|..], n.exits[|q.exits|..],
                !q.unblocked && n.unblocked)
  {
    var n := Next(q, step);
    match call
    case Snd(msg) =>
      assert n.exits[|q.exits|..] == [];
      assert n.accepted[|q.accepted|..] == if q.unblocked then [] else [msg];
    case Flush =>
      assert n.accepted[|q.accepted|..] == [];
      assert n.exits[|q.exits|..] == FreeAll(Reverse(q.list));
    case _ =>
      assert n.accepted[|q.accepted|..] == [] && n.exits[|q.exits|..] == [];
  }

  lemma OtherStep<M>(q: Queue<M>, step: Step<M>, t: Tid, call: Call<M>, put: seq<M>, out: seq<Exit<M>>, unblocks: bool)
    requires Enabled(q, step) && step.tid != t && t < |q.points| && InCall(q.points[t], call, put, out, unblocks)
    ensures t < |Next(q, step).points| && InCall(Next(q, step).points[t], call, put, out, unblocks)
  {
  }

  lemma AnyStep<M>(q: Queue<M>, step: Step<M>, t: Tid, call: Call<M>, put: seq<M>, out: seq<Exit<M>>, unblocks: bool)
    requires Enabled(q, step) && !(step.tid == t && step.move.Return?)
    requires t < |q.points| && InCall(q.points[t], call, put, out, unblocks)
    ensures var n := Next(q, step);
      t < |n.points| && InCall(n.points[t], call, put + PutBy(q, step, t), out + OutBy(q, step, t),
                               unblocks || UnblocksBy(q, step, t))
  {
    if step.tid == t {
      OwnStep(q, step, call, put, out, unblocks);
    } else {
      OtherStep(q, step, t, call, put, out, unblocks);
      assert put + [] == put && out + [] == out;
    }
  }

  lemma {:induction false} CallGoesOn<M>(q: Queue<M>, steps: seq<Step<M>>, r: Queue<M>, t: Tid,
                                         call: Call<M>, put: seq<M>, out: seq<Exit<M>>, unblocks: bool)
    requires t < |q.points| && InCall(q.points[t], call, put, out, unblocks)
    requires Runs(q, steps, r) && StaysIn(steps, t)
    ensures t < |r.points|
    ensures InCall(r.points[t], call, put + PutIn(q, steps, r, t), out + TakenOut(q, steps, r, t),
                   unblocks || Unblocks(q, steps, r, t))
    decreases |steps|
  {
    if steps == [] {
      assert put + [] == put && out + [] == out;
    } else {
      var step, rest := steps[0], steps[1..];
      var n, a, b := Next(q, step), PutBy(q, step, t), OutBy(q, step, t);
      AnyStep(q, step, t, call, put, out, unblocks);
      CallGoesOn(n, rest, r, t, call, put + a, out + b, unblocks || UnblocksBy(q, step, t));
      Regroup(put, a, PutIn(n, rest, r, t));
      Regroup(out, b, TakenOut(n, rest, r, t));
    }
  }

  lemma Regroup<T>(a: seq<T>, b: seq<T>, c: seq<T>)
    ensures (a + b) + c == a + (b + c)
  {
  }

  /** From the start of a call until its return, on any schedule: a send succeeds if and only if it has put
      its message in, a receive gets exactly the message it has taken out, a flush frees all it takes out,
      and an unblock succeeds if and only if it was the one. */
  lemma {:induction false} ResultTells<M>(q: Queue<M>, steps: seq<Step<M>>, r: Queue<M>, t: Tid, call: Call<M>)
    requires t < |q.points| && q.points[t] == Locking(call) && Runs(q, steps, r) && StaysIn(steps, t)
    ensures t < |r.points|
    ensures InCall(r.points[t], call, PutIn(q, steps, r, t), TakenOut(q, steps, r, t), Unblocks(q, steps, r, t))
  {
    CallGoesOn(q, steps, r, t, call, [], [], false);
    assert [] + PutIn(q, steps, r, t) == PutIn(q, steps, r, t);
    assert [] + TakenOut(q, steps, r, t) == TakenOut(q, steps, r, t);
  }

  /** A flush leaves nothing in the queue: all that was ever accepted has left it. */
  lemma {:induction false} FlushEmpties<M>(q: Queue<M>, step: Step<M>)
    requires Inv(q) && Enabled(q, step) && step.move.Enter? && q.points[step.tid].call.Flush?
    ensures var r := Next(q, step); r.list == [] && ExitMsgs(r.exits) == r.accepted == q.accepted
  {
    FifoKept(q, step);
    var r := Next(q, step);
    assert ExitMsgs(r.exits) + Reverse(r.list) == ExitMsgs(r.exits);
  }

  // ----- Before and after the unblock

  /** A call on its way through a queue that was unblocked before it could look. */
  predicate TurnedAway<M>(p: Point<M>) {
    || ((p.Locking? || p.Entered?) && !p.call.Flush?)
    || ((p.Leaving? || p.Returned?) && p.result.Unavailable?)
  }

  lemma ClosedStep<M>(q: Queue<M>, step: Step<M>, t: Tid)
    requires q.unblocked && t < |q.points| && TurnedAway(q.points[t])
    requires Enabled(q, step) && !(step.tid == t && step.move.Return?)
    ensures var n := Next(q, step); n.unblocked && t < |n.points| && TurnedAway(n.points[t])
    ensures PutBy(q, step, t) == [] && OutBy(q, step, t) == [] && !(step.tid == t && step.move.Remove?)
  {
  }

  /** A send, receive or unblock that finds the queue unblocked fails, and does nothing to it. */
  lemma {:induction false} ClosedCall<M>(q: Queue<M>, steps: seq<Step<M>>, r: Queue<M>, t: Tid)
    requires q.unblocked && t < |q.points| && TurnedAway(q.points[t])
    requires Runs(q, steps, r) && StaysIn(steps, t)
    ensures t < |r.points| && TurnedAway(r.points[t])
    ensures PutIn(q, steps, r, t) == [] && TakenOut(q, steps, r, t) == []
    ensures forall i :: 0 <= i < |steps| && steps[i].tid == t ==> !steps[i].move.Remove?
    decreases |steps|
  {
    if steps != [] {
      ClosedStep(q, steps[0], t);
      ClosedCall(Next(q, steps[0]), steps[1..], r, t);
    }
  }

  predicate Unavailing<M>(p: Point<M>) {
    (p.Leaving? || p.Returned?) && p.result.Unavailable?
  }

  /** While the queue has not been unblocked no call fails. */
  lemma {:induction false} OpenCall<M>(q: Queue<M>, steps: seq<Step<M>>, r: Queue<M>, t: Tid)
    requires Inv(q) && t < |q.points| && !Unavailing(q.points[t])
    requires Runs(q, steps, r) && !r.unblocked
    ensures t < |r.points| && !Unavailing(r.points[t])
    decreases |steps|
  {
    if steps != [] {
      var n := Next(q, steps[0]);
      StepKeeps(q, steps[0]);
      StillOpen(n, steps[1..], r);
      HistoryGrows(q, steps[0]);
      OpenCall(n, steps[1..], r, t);
    }
  }

  lemma {:induction false} StillOpen<M>(q: Queue<M>, steps: seq<Step<M>>, r: Queue<M>)
    requires Runs(q, steps, r) && !r.unblocked
    ensures !q.unblocked
    decreases |steps|
  {
    if steps != [] {
      StillOpen(Next(q, steps[0]), steps[1..], r);
      HistoryGrows(q, steps[0]);
    }
  }
}
