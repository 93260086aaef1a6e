/** The critical sections of gps/utils/msg_q.c over the heap list.  The steps Enter and Remove of the
    protocol in MsgQueue are exactly what these bodies do to the list and the flag. */
module MsgQueueList {
  import opened ListSpec
  import LS = LinkedListSpec
  import LL = LinkedList
  import opened MsgQueue

  function Data<M>(items: seq<LS.Item<M>>): (r: seq<M>)
    ensures |r| == |items|
    ensures forall i :: 0 <= i < |r| ==> r[i] == items[i].data
  {
    seq(|items|, i requires 0 <= i < |items| => items[i].data)
  }

  /** The part of a protocol state that a msg_q struct holds. */
  ghost predicate Shows<M>(q: Queue<M>, list: seq<M>, unblocked: bool) {
    q.list == list && q.unblocked == unblocked
  }

  class MsgQ<M> {
    const list: LL.List<M>
    var unblocked: bool

    ghost predicate Valid()
      reads this, list, list.nodes
    {
      list.Valid()
    }

    ghost function Contents(): seq<M>
      reads this, list
    {
      Data(list.Value().items)
    }

    /** msg_q_init. */
    constructor ()
      ensures Valid() && Contents() == [] && !unblocked
    {
      list := new LL.List<M>();
      unblocked := false;
    }

    /** msg_q_snd with the mutex held, up to the signal. */
    method SndBody(msg: M, dealloc: bool) returns (accepted: bool)
      requires Valid()
      modifies this, list, list.nodes
      ensures Valid()
      ensures forall q: Queue<M>, t: Tid :: t < |q.points| && Shows(q, old(Contents()), old(unblocked)) ==>
                var r := AfterEnter(q, t, Snd(msg));
                Shows(r, Contents(), unblocked) && (accepted <==> r.points[t] == Signalling)
    {
      if unblocked {
        return false;
      }
      ghost var before := list.Value().items;
      var _ := list.AddItem(Some(msg), dealloc);
      assert Data(list.Value().items) == [msg] + Data(before);
      accepted := true;
    }

    /** The head of msg_q_rcv with the mutex held: whether it goes on to its loop. */
    method RcvEntry() returns (open: bool)
      requires Valid()
      ensures open <==> !unblocked
      ensures forall q: Queue<M>, t: Tid :: t < |q.points| && Shows(q, Contents(), unblocked) ==>
                var r := AfterEnter(q, t, Rcv);
                Shows(r, Contents(), unblocked) && r.points[t] == if open then Testing(false) else Leaving(Unavailable)
    {
      open := !unblocked;
    }

    /** The test of the loop in msg_q_rcv. */
    method MustWait() returns (r: bool)
      requires Valid()
      ensures r <==> Contents() == [] && !unblocked
    {
      r := list.Empty();
      r := r && !unblocked;
    }

    /** msg_q_rcv behind its loop. */
    method RcvBody() returns (result: Result<M>)
      requires Valid()
      modifies this, list, list.nodes
      ensures Valid()
      ensures forall q: Queue<M>, t: Tid :: t < |q.points| && Shows(q, old(Contents()), old(unblocked)) ==>
                var r := AfterRemove(q, t);
                Shows(r, Contents(), unblocked) && r.points[t] == Leaving(result)
    {
      ghost var before := list.Value().items;
      var err, data := list.RemoveItem();
      if data == None {
        return Unavailable;
      }
      assert Data(list.Value().items) == Data(before)[..|before| - 1];
      result := Got(data.value);
    }

    /** msg_q_flush with the mutex held. */
    method FlushBody()
      requires Valid()
      modifies this, list
      ensures Valid()
      ensures forall q: Queue<M>, t: Tid :: t < |q.points| && Shows(q, old(Contents()), old(unblocked)) ==>
                Shows(AfterEnter(q, t, Flush), Contents(), unblocked)
    {
      list.FlushAll();
    }

    /** msg_q_unblock with the mutex held, up to the broadcast. */
    method UnblockBody() returns (first: bool)
      requires Valid()
      modifies this
      ensures Valid()
      ensures forall q: Queue<M>, t: Tid :: t < |q.points| && Shows(q, old(Contents()), old(unblocked)) ==>
                var r := AfterEnter(q, t, Unblock);
                Shows(r, Contents(), unblocked) && (first <==> r.points[t] == Broadcasting)
    {
      first := !unblocked;
      unblocked := true;
    }
  }
}
