/** The doubly linked list of gps/utils/linked_list.c as operations on a sequence, and what any mix of
    them does with the elements. */
module LinkedListSpec {
  import opened ListSpec

  datatype Error = Success | InvalidParameter | UnavailableResource

  /** A data pointer together with whether a dealloc function came with it. */
  datatype Item<T> = Item(data: T, dealloc: bool)

  /** How an element left: handed to the caller, deallocated, or dropped with nobody to free it. */
  datatype Exit<T> = HandedOut(item: Item<T>) | Deallocated(item: Item<T>) | Abandoned(item: Item<T>)

  /** The elements from p_head to p_tail, and those that have left, in the order they left. */
  datatype Store<T> = Store(items: seq<Item<T>>, gone: seq<Exit<T>>)

  function Discard<T>(item: Item<T>): Exit<T> {
    if item.dealloc then Deallocated(item) else Abandoned(item)
  }

  function DiscardAll<T>(items: seq<Item<T>>): (r: seq<Exit<T>>)
    ensures |r| == |items|
  {
    seq(|items|, i requires 0 <= i < |items| => Discard(items[i]))
  }

  function Accepting<T>(equal: T -> bool): Item<T> -> bool {
    (x: Item<T>) => equal(x.data)
  }

  function Add<T>(s: Store<T>, data: T, dealloc: bool): Store<T> {
    s.(items := [Item(data, dealloc)] + s.items)
  }

  function Remove<T>(s: Store<T>): Store<T> {
    if s.items == [] then s
    else
      var last := |s.items| - 1;
      Store(s.items[..last], s.gone + [HandedOut(s.items[last])])
  }

  function Flush<T>(s: Store<T>): Store<T> {
    Store([], s.gone + DiscardAll(s.items))
  }

  /** linked_list_search: the first element `equal` accepts is reported, and unlinked if asked; a caller
      who does not take it leaves it to the list to free. */
  function Search<T>(s: Store<T>, equal: T -> bool, copyOut: bool, rmIfFound: bool): Store<T> {
    var k := IndexOf(s.items, Accepting(equal));
    if k < |s.items| && rmIfFound then
      Store(RemoveAt(s.items, k), s.gone + [if copyOut then HandedOut(s.items[k]) else Discard(s.items[k])])
    else s
  }

  function Found<T>(s: Store<T>, equal: T -> bool): Option<T> {
    var k := IndexOf(s.items, Accepting(equal));
    if k < |s.items| then Some(s.items[k].data) else None
  }

  /** The first match, if there is one: it is reported; without removal nothing changes; with it that element alone
      leaves, to the caller if it takes it, and else to its own dealloc function if it came with one. */
  lemma {:induction false} SearchTakesFirst<T>(s: Store<T>, equal: T -> bool, copyOut: bool, rmIfFound: bool, k: nat)
    requires k < |s.items| && equal(s.items[k].data) && forall j :: 0 <= j < k ==> !equal(s.items[j].data)
    ensures var r, x := Search(s, equal, copyOut, rmIfFound), s.items[k];
      && Found(s, equal) == Some(x.data)
      && (!rmIfFound ==> r == s)
      && (rmIfFound ==>
            && r.items == s.items[..k] + s.items[k + 1..]
            && r.gone == s.gone +
                 [if copyOut then HandedOut(x) else if x.dealloc then Deallocated(x) else Abandoned(x)])
  {
    IndexOfIs(s.items, Accepting(equal), k);
  }

  lemma {:induction false} SearchMisses<T>(s: Store<T>, equal: T -> bool, copyOut: bool, rmIfFound: bool)
    requires forall j :: 0 <= j < |s.items| ==> !equal(s.items[j].data)
    ensures Found(s, equal) == None && Search(s, equal, copyOut, rmIfFound) == s
  {
    IndexOfIs(s.items, Accepting(equal), |s.items|);
  }

  /** A flush takes every element out, from the head on, each to its own dealloc function if it came with one. */
  lemma FlushFrees<T>(s: Store<T>, i: nat)
    requires i < |s.items|
    ensures var r, x := Flush(s), s.items[i];
      && r.items == [] && |r.gone| == |s.gone| + |s.items|
      && r.gone[|s.gone| + i] == if x.dealloc then Deallocated(x) else Abandoned(x)
  {
  }

  datatype Call<!T(!new)> =
    | CallAdd(data: T, dealloc: bool)
    | CallRemove
    | CallFlush
    | CallSearch(equal: T -> bool, copyOut: bool, rmIfFound: bool)

  function Step<T(!new)>(s: Store<T>, call: Call<T>): Store<T> {
    match call
    case CallAdd(data, dealloc) => Add(s, data, dealloc)
    case CallRemove => Remove(s)
    case CallFlush => Flush(s)
    case CallSearch(equal, copyOut, rmIfFound) => Search(s, equal, copyOut, rmIfFound)
  }

  function Run<T(!new)>(s: Store<T>, calls: seq<Call<T>>): Store<T>
    decreases |calls|
  {
    if calls == [] then s else Run(Step(s, calls[0]), calls[1..])
  }

  /** What was put in, in order. */
  function Inserted<T(!new)>(calls: seq<Call<T>>): seq<Item<T>> {
    if calls == [] then []
    else if calls[0].CallAdd? then [Item(calls[0].data, calls[0].dealloc)] + Inserted(calls[1..])
    else Inserted(calls[1..])
  }

  function ItemsOf<T>(gone: seq<Exit<T>>): seq<Item<T>> {
    if gone == [] then [] else [gone[0].item] + ItemsOf(gone[1..])
  }

  /** Every element that has entered is in the list or has left, each exactly once. */
  ghost function Census<T>(s: Store<T>): multiset<Item<T>> {
    multiset(s.items) + multiset(ItemsOf(s.gone))
  }

  lemma {:induction false} ItemsOfConcat<T>(a: seq<Exit<T>>, b: seq<Exit<T>>)
    ensures ItemsOf(a + b) == ItemsOf(a) + ItemsOf(b)
  {
    if a == [] {
      assert a + b == b;
    } else {
      assert (a + b)[0] == a[0] && (a + b)[1..] == a[1..] + b;
      ItemsOfConcat(a[1..], b);
    }
  }

  lemma {:induction false} ItemsOfDiscardAll<T>(items: seq<Item<T>>)
    ensures ItemsOf(DiscardAll(items)) == items
  {
    if items != [] {
      assert DiscardAll(items)[1..] == DiscardAll(items[1..]);
      ItemsOfDiscardAll(items[1..]);
    }
  }

  lemma {:induction false} ItemsOfOne<T>(gone: seq<Exit<T>>, e: Exit<T>)
    ensures ItemsOf(gone + [e]) == ItemsOf(gone) + [e.item]
  {
    ItemsOfConcat(gone, [e]);
    assert ItemsOf([e]) == [e.item];
  }

  lemma RemoveAtCensus<T>(s: seq<T>, k: nat)
    requires k < |s|
    ensures multiset(s) == multiset(RemoveAt(s, k)) + multiset{s[k]}
  {
    assert s == s[..k] + [s[k]] + s[k + 1..];
  }

  lemma RemoveCensus<T>(s: Store<T>)
    ensures Census(Remove(s)) == Census(s)
  {
    if s.items != [] {
      var last := |s.items| - 1;
      assert s.items == s.items[..last] + [s.items[last]];
      ItemsOfOne(s.gone, HandedOut(s.items[last]));
    }
  }

  lemma FlushCensus<T>(s: Store<T>)
    ensures Census(Flush(s)) == Census(s)
  {
    ItemsOfDiscardAll(s.items);
    ItemsOfConcat(s.gone, DiscardAll(s.items));
  }

  lemma SearchCensus<T>(s: Store<T>, equal: T -> bool, copyOut: bool, rmIfFound: bool)
    ensures Census(Search(s, equal, copyOut, rmIfFound)) == Census(s)
  {
    var k := IndexOf(s.items, Accepting(equal));
    if k < |s.items| && rmIfFound {
      RemoveAtCensus(s.items, k);
      ItemsOfOne(s.gone, if copyOut then HandedOut(s.items[k]) else Discard(s.items[k]));
    }
  }

  lemma StepCensus<T(!new)>(s: Store<T>, call: Call<T>)
    ensures Census(Step(s, call)) ==
            if call.CallAdd? then Census(s) + multiset{Item(call.data, call.dealloc)} else Census(s)
  {
    match call
    case CallAdd(data, dealloc) =>
    case CallRemove => RemoveCensus(s);
    case CallFlush => FlushCensus(s);
    case CallSearch(equal, copyOut, rmIfFound) => SearchCensus(s, equal, copyOut, rmIfFound);
  }

  /** Conservation over any run: nothing is lost, duplicated or invented. */
  lemma {:induction false} Conservation<T(!new)>(s: Store<T>, calls: seq<Call<T>>)
    decreases |calls|
    ensures Census(Run(s, calls)) == Census(s) + multiset(Inserted(calls))
  {
    if calls != [] {
      StepCensus(s, calls[0]);
      Conservation(Step(s, calls[0]), calls[1..]);
    }
  }

  /** Elements given with a dealloc function are never abandoned, the others never deallocated. */
  predicate Accounted<T>(gone: seq<Exit<T>>) {
    forall i :: 0 <= i < |gone| ==>
      (gone[i].Abandoned? ==> !gone[i].item.dealloc) && (gone[i].Deallocated? ==> gone[i].item.dealloc)
  }

  lemma {:induction false} DeallocatedIfGiven<T(!new)>(s: Store<T>, calls: seq<Call<T>>)
    requires Accounted(s.gone)
    ensures Accounted(Run(s, calls).gone)
    decreases |calls|
  {
    if calls != [] {
      DeallocatedIfGiven(Step(s, calls[0]), calls[1..]);
    }
  }

  predicate QueueOnly<T(!new)>(calls: seq<Call<T>>) {
    forall i :: 0 <= i < |calls| ==> calls[i].CallAdd? || calls[i].CallRemove?
  }

  lemma AddQueue<T>(s: Store<T>, data: T, dealloc: bool)
    ensures Reverse(Add(s, data, dealloc).items) == Reverse(s.items) + [Item(data, dealloc)]
  {
    assert Add(s, data, dealloc).items[1..] == s.items;
  }

  lemma RemoveQueue<T>(s: Store<T>)
    ensures ItemsOf(Remove(s).gone) + Reverse(Remove(s).items) == ItemsOf(s.gone) + Reverse(s.items)
  {
    if s.items != [] {
      ReverseLast(s.items);
      ItemsOfOne(s.gone, HandedOut(s.items[|s.items| - 1]));
    }
  }

  /** With additions at the head and removals at the tail only, the list is a FIFO queue: what has left,
      then what is still there from the tail on, is what was put in, in that order. */
  lemma {:induction false} FirstInFirstOut<T(!new)>(s: Store<T>, calls: seq<Call<T>>)
    requires QueueOnly(calls)
    decreases |calls|
    ensures var r := Run(s, calls);
      ItemsOf(r.gone) + Reverse(r.items) == ItemsOf(s.gone) + Reverse(s.items) + Inserted(calls)
  {
    if calls != [] {
      var t := Step(s, calls[0]);
      FirstInFirstOut(t, calls[1..]);
      if calls[0].CallAdd? {
        AddQueue(s, calls[0].data, calls[0].dealloc);
        var one := [Item(calls[0].data, calls[0].dealloc)];
        assert ItemsOf(t.gone) + (Reverse(s.items) + one) + Inserted(calls[1..]) ==
               ItemsOf(s.gone) + Reverse(s.items) + (one + Inserted(calls[1..]));
      } else {
        RemoveQueue(s);
      }
    }
  }
}
