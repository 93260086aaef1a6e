/** gps/utils/linked_list.c over nodes on the heap.  The ghost `nodes` is the chain from p_head to
    p_tail; each method is proved to do to the abstract `Value()` what LinkedListSpec says. */
module LinkedList {
  import opened ListSpec
  import opened LinkedListSpec

  class Element<T> {
    const item: Item<T>
    var next: Element?<T>
    var prev: Element?<T>

    constructor (item: Item<T>)
      ensures this.item == item && next == null && prev == null
    {
      this.item, next, prev := item, null, null;
    }
  }

  class List<T> {
    var head: Element?<T>
    var tail: Element?<T>
    ghost var nodes: seq<Element<T>>
    ghost var gone: seq<Exit<T>>

    /** The node at position `i` of the chain, or null off either end. */
    static ghost function At(s: seq<Element<T>>, i: int): Element?<T> {
      if 0 <= i < |s| then s[i] else null
    }

    static ghost predicate Distinct(s: seq<Element<T>>) {
      forall i, j :: 0 <= i < j < |s| ==> s[i] != s[j]
    }

    /** The pointers say the chain `s`. */
    ghost predicate Chained(s: seq<Element<T>>)
      reads this, s
    {
      && head == At(s, 0) && tail == At(s, |s| - 1)
      && (forall i {:trigger s[i].next} :: 0 <= i < |s| ==> s[i].next == At(s, i + 1))
      && (forall i {:trigger s[i].prev} :: 0 <= i < |s| ==> s[i].prev == At(s, i - 1))
    }

    ghost predicate Valid()
      reads this, nodes
    {
      Distinct(nodes) && Chained(nodes)
    }

    static ghost function Items(s: seq<Element<T>>): (r: seq<Item<T>>)
      ensures |r| == |s|
    {
      seq(|s|, i requires 0 <= i < |s| => s[i].item)
    }

    static lemma ItemsRemoveAt(s: seq<Element<T>>, k: nat)
      requires k < |s|
      ensures Items(RemoveAt(s, k)) == RemoveAt(Items(s), k)
    {
    }

    ghost function Value(): Store<T>
      reads this
    {
      Store(Items(nodes), gone)
    }

    constructor ()
      ensures Valid() && Value() == Store([], [])
      ensures nodes == []
    {
      head, tail, nodes, gone := null, null, [], [];
    }

    /** linked_list_add; None stands for a NULL data pointer. */
    method AddItem(data: Option<T>, dealloc: bool) returns (err: Error)
      requires Valid()
      modifies this, nodes
      ensures Valid() && forall n :: n in nodes ==> n in old(nodes) || fresh(n)
      ensures data.None? ==> err == InvalidParameter && Value() == old(Value())
      ensures data.Some? ==> err == Success && Value() == Add(old(Value()), data.value, dealloc)
    {
      if data == None {
        return InvalidParameter;
      }
      var elem := new Element(Item(data.value, dealloc));
      var tmp := head;
      head := elem;
      head.next := tmp;
      if tmp != null {
        tmp.prev := head;
      } else {
        tail := head;
      }
      nodes := [elem] + nodes;
      return Success;
    }

    /** linked_list_remove. */
    method RemoveItem() returns (err: Error, data: Option<T>)
      requires Valid()
      modifies this, nodes
      ensures Valid() && Value() == Remove(old(Value()))
      ensures forall n :: n in nodes ==> n in old(nodes)
      ensures err == if old(nodes) == [] then UnavailableResource else Success
      ensures data == if old(nodes) == [] then None else Some(old(nodes)[|old(nodes)| - 1].item.data)
    {
      if tail == null {
        return UnavailableResource, None;
      }
      var tmp := tail;
      tail := tmp.prev;
      if tail != null {
        tail.next := null;
      } else {
        head := tail;
      }
      gone := gone + [HandedOut(tmp.item)];
      nodes := nodes[..|nodes| - 1];
      return Success, Some(tmp.item.data);
    }

    /** linked_list_empty. */
    method Empty() returns (r: bool)
      requires Valid()
      ensures r <==> Value().items == []
    {
      r := head == null;
    }

    /** linked_list_flush. */
    method FlushAll()
      requires Valid()
      modifies this
      ensures Valid() && nodes == [] && Value() == Flush(old(Value()))
    {
      ghost var i := 0;
      while head != null
        invariant i <= |nodes| && nodes == old(nodes) && head == At(nodes, i)
        invariant gone == old(gone) + DiscardAll(Items(nodes))[..i]
        decreases |nodes| - i
      {
        var tmp := head.next;
        gone := gone + [Discard(head.item)];
        head := tmp;
        i := i + 1;
      }
      tail := null;
      nodes := [];
    }

    /** linked_list_search, including its unlinking of inner and outer nodes.  `held` is what *data_p holds
        before the call: nothing is written there without a pointer, or when the list is empty. */
    method SearchFor(equal: T -> bool, copyOut: bool, rmIfFound: bool, held: Option<T>)
      returns (err: Error, found: Option<T>)
      requires Valid()
      modifies this, nodes
      ensures Valid() && Value() == Search(old(Value()), equal, copyOut, rmIfFound)
      ensures err == if old(nodes) == [] then UnavailableResource else Success
      ensures found == if copyOut && old(nodes) != [] then Found(old(Value()), equal) else held
      ensures forall n :: n in nodes ==> n in old(nodes)
    {
      found := held;
      if tail == null {
        return UnavailableResource, found;
      }
      var tmp := head;
      if copyOut {
        found := None;
      }
      ghost var i := 0;
      ghost var items := Items(nodes);
      while tmp != null
        invariant i <= |nodes| && nodes == old(nodes) && tmp == At(nodes, i)
        invariant Valid() && gone == old(gone) && found == if copyOut then None else held
        invariant forall j :: 0 <= j < i ==> !Accepting(equal)(items[j])
        decreases |nodes| - i
      {
        if equal(tmp.item.data) {
          IndexOfIs(items, Accepting(equal), i);
          if copyOut {
            found := Some(tmp.item.data);
          }
          if rmIfFound {
            TakeOut(tmp, i, copyOut);
          }
          return Success, found;
        }
        tmp := tmp.next;
        i := i + 1;
      }
      IndexOfIs(items, Accepting(equal), i);
      return Success, found;
    }

    /** The removal in linked_list_search of the node at `k`. */
    method TakeOut(x: Element<T>, ghost k: nat, copyOut: bool)
      requires Valid() && k < |nodes| && x == nodes[k]
      modifies this, nodes
      ensures Valid() && nodes == RemoveAt(old(nodes), k)
      ensures Value() == Store(RemoveAt(old(Value()).items, k),
                               old(gone) + [if copyOut then HandedOut(x.item) else Discard(x.item)])
    {
      ItemsRemoveAt(nodes, k);
      Unlink(x, k);
      gone := gone + [if copyOut then HandedOut(x.item) else Discard(x.item)];
    }

    /** The pointers of the chain `s` once the node at `k` has been taken out of it. */
    ghost predicate Bypassed(s: seq<Element<T>>, k: nat)
      requires k < |s|
      reads this, s
    {
      && head == (if k == 0 then At(s, 1) else s[0])
      && tail == (if k == |s| - 1 then At(s, k - 1) else s[|s| - 1])
      && (forall i {:trigger s[i].next} :: 0 <= i < |s| && i != k ==>
            s[i].next == At(s, if i == k - 1 then k + 1 else i + 1))
      && (forall i {:trigger s[i].prev} :: 0 <= i < |s| && i != k ==>
            s[i].prev == At(s, if i == k + 1 then k - 1 else i - 1))
    }

    /** The pointer surgery of linked_list_search on the node at `k`. */
    method Bypass(x: Element<T>, ghost k: nat)
      requires Valid() && k < |nodes| && x == nodes[k]
      modifies this`head, this`tail, nodes
      ensures Bypassed(nodes, k)
    {
      if x.prev == null {
        head := x.next;
      } else {
        x.prev.next := x.next;
      }
      if x.next == null {
        tail := x.prev;
      } else {
        x.next.prev := x.prev;
      }
      x.prev, x.next := null, null;
    }

    method Unlink(x: Element<T>, ghost k: nat)
      requires Valid() && k < |nodes| && x == nodes[k]
      modifies this`head, this`tail, this`nodes, nodes
      ensures Valid() && nodes == RemoveAt(old(nodes), k)
    {
      Bypass(x, k);
      Spliced(nodes, k);
      StillDistinct(nodes, k);
      nodes := RemoveAt(nodes, k);
    }

    lemma Spliced(s: seq<Element<T>>, k: nat)
      requires k < |s| && Bypassed(s, k)
      ensures Chained(RemoveAt(s, k))
    {
      var r := RemoveAt(s, k);
      forall i | 0 <= i < |r| ensures r[i].next == At(r, i + 1) && r[i].prev == At(r, i - 1) {
        assert r[i] == s[if i < k then i else i + 1];
      }
    }

    static lemma StillDistinct(s: seq<Element<T>>, k: nat)
      requires k < |s| && Distinct(s)
      ensures Distinct(RemoveAt(s, k))
    {
    }
  }
}
