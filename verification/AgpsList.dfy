/** The subscriber list of an AgpsStateMachine is a linked_list: the searches, insertion, deletion and
    flush in AgpsSpec are the operations of LinkedListSpec, which the heap list implements. */
module AgpsList {
  import opened ListSpec
  import LS = LinkedListSpec
  import opened AgpsSpec

  /** The list as linked_list holds it: every clone comes with deleteObj. */
  function Items(subs: seq<Entry>): (r: seq<LS.Item<Entry>>)
    ensures |r| == |subs|
    ensures forall i :: 0 <= i < |r| ==> r[i] == LS.Item(subs[i], true)
  {
    seq(|subs|, i requires 0 <= i < |subs| => LS.Item(subs[i], true))
  }

  lemma {:induction false} SameIndex(subs: seq<Entry>, p: Entry -> bool)
    ensures IndexOf(Items(subs), LS.Accepting(p)) == IndexOf(subs, p)
  {
    var k := IndexOf(subs, p);
    forall j | 0 <= j < k ensures !LS.Accepting(p)(Items(subs)[j]) {
      assert !p(subs[j]);
    }
    IndexOfIs(Items(subs), LS.Accepting(p), k);
  }

  /** linked_list_search with hasSubscriber. */
  lemma SearchFinds(m: Machine, r: Receiver, gone: seq<LS.Exit<Entry>>)
    ensures var k := FirstMatch(m.subs, r);
      LS.Found(LS.Store(Items(m.subs), gone), Matching(r)) ==
        if k < |m.subs| then Some(m.subs[k]) else None
  {
    SameIndex(m.subs, Matching(r));
  }

  /** linked_list_search with notifySubscriber and removal takes out the first entry reached and hands it
      to the caller, who deletes it. */
  lemma SearchRemoves(m: Machine, n: Notification, gone: seq<LS.Exit<Entry>>, k: nat)
    requires k < |m.subs| && n.Reaches(m.subs[k]) && forall j :: 0 <= j < k ==> !n.Reaches(m.subs[j])
    ensures LS.Search(LS.Store(Items(m.subs), gone), Reached(n), true, true) ==
            LS.Store(Items(RemoveAt(m.subs, k)), gone + [LS.HandedOut(LS.Item(m.subs[k], true))])
  {
    IndexOfIs(m.subs, Reached(n), k);
    SameIndex(m.subs, Reached(n));
    assert RemoveAt(Items(m.subs), k) == Items(RemoveAt(m.subs, k));
  }

  /** addSubscriber is a search and, if that fails, a linked_list_add of a clone. */
  lemma AddIsListAdd(m: Machine, c: Client, gone: seq<LS.Exit<Entry>>)
    ensures var list := LS.Store(Items(m.subs), gone);
      LS.Store(Items(AddSubscriber(m, c).subs), gone) ==
        if LS.Found(list, Matching(To(c))).Some? then list else LS.Add(list, Entry(c, false), true)
  {
    SearchFinds(m, To(c), gone);
    assert Items([Entry(c, false)] + m.subs) == [LS.Item(Entry(c, false), true)] + Items(m.subs);
  }

  /** dropAllSubscribers deletes every clone. */
  lemma DropIsFlush(m: Machine, gone: seq<LS.Exit<Entry>>)
    ensures var r := LS.Flush(LS.Store(Items(m.subs), gone));
      && r.items == Items(DropAllSubscribers(m).subs)
      && |r.gone| == |gone| + |m.subs|
      && forall i :: 0 <= i < |m.subs| ==> r.gone[|gone| + i] == LS.Deallocated(LS.Item(m.subs[i], true))
  {
  }
}
