/** The adapter table of gps/core/LocApiBase.{h,cpp}: a fixed array whose adapters come first. */
module AdapterTable {
  const MAX_ADAPTERS := 10

  /** An event mask, as the set of the positions of its bits. */
  type Mask = set<Event>

  type Event = e: int | 0 <= e < 32

  /** A LocAdapterBase; the table tells adapters apart by address. */
  class Adapter {
    const mask: Mask

    constructor (mask: Mask)
      ensures this.mask == mask
    {
      this.mask := mask;
    }
  }

  /** What the table does to the modem connection: a LocOpenMsg, or an immediate close(). */
  datatype Action = Open(mask: Mask) | Close

  // ----- The table as a sequence

  function Or(s: seq<Adapter>): Mask {
    if s == [] then {} else Or(s[..|s| - 1]) + s[|s| - 1].mask
  }

  lemma OrNext(s: seq<Adapter>, i: nat)
    requires i < |s|
    ensures Or(s[..i + 1]) == Or(s[..i]) + s[i].mask
  {
    assert s[..i + 1][..i] == s[..i];
  }

  function EvtMask(s: seq<Adapter>, excluded: Mask): Mask {
    Or(s) - excluded
  }

  /** The table is opened for exactly the events that some adapter asks for and that are not excluded. */
  lemma {:induction false} EvtMaskHas(s: seq<Adapter>, excluded: Mask, e: Event)
    ensures e in EvtMask(s, excluded) <==> e !in excluded && exists i :: 0 <= i < |s| && e in s[i].mask
  {
    OrHas(s, e);
  }

  lemma {:induction false} OrHas(s: seq<Adapter>, e: Event)
    ensures e in Or(s) <==> exists i :: 0 <= i < |s| && e in s[i].mask
  {
    if s != [] {
      OrHas(s[..|s| - 1], e);
      if e in Or(s[..|s| - 1]) {
        var i :| 0 <= i < |s| - 1 && e in s[..|s| - 1][i].mask;
        assert e in s[i].mask;
      }
    }
  }

  /** Without the adapter at `j`, whose place the last one takes. */
  function Without(s: seq<Adapter>, j: nat): seq<Adapter>
    requires j < |s|
  {
    s[j := s[|s| - 1]][..|s| - 1]
  }

  function Added(s: seq<Adapter>, a: Adapter): seq<Adapter> {
    if a in s || |s| == MAX_ADAPTERS then s else s + [a]
  }

  function Position(s: seq<Adapter>, a: Adapter): (j: nat)
    ensures j <= |s| && (j < |s| ==> s[j] == a) && (forall i :: 0 <= i < j ==> s[i] != a)
  {
    if s == [] || s[0] == a then 0 else 1 + Position(s[1..], a)
  }

  function Removed(s: seq<Adapter>, a: Adapter): seq<Adapter> {
    var j := Position(s, a);
    if j < |s| then Without(s, j) else s
  }

  predicate Distinct(s: seq<Adapter>) {
    forall i, j :: 0 <= i < j < |s| ==> s[i] != s[j]
  }

  datatype Call = Add(a: Adapter) | Remove(a: Adapter)

  // ----- What the modem connection is told

  /** `mask` holds exactly the events that an adapter in `s` asks for and that are not excluded. */
  ghost predicate AsksFor(mask: Mask, s: seq<Adapter>, excluded: Mask) {
    forall e: Event :: e in mask <==> e !in excluded && exists i :: 0 <= i < |s| && e in s[i].mask
  }

  lemma AsksExactly(s: seq<Adapter>, excluded: Mask)
    ensures AsksFor(EvtMask(s, excluded), s, excluded)
  {
    forall e: Event
      ensures e in EvtMask(s, excluded) <==> e !in excluded && exists i :: 0 <= i < |s| && e in s[i].mask
    {
      EvtMaskHas(s, excluded, e);
    }
  }

  /** After a registered adapter has left `s` behind: closed if nobody is left, else reopened for the others. */
  ghost predicate Shrunk(s: seq<Adapter>, excluded: Mask, before: seq<Action>, after: seq<Action>) {
    && |after| == |before| + 1 && before == after[..|before|]
    && match after[|before|]
       case Close => s == []
       case Open(mask) => s != [] && AsksFor(mask, s, excluded)
  }

  /** What one call on the table `s`, which made it `t`, adds to what the modem connection was told. */
  ghost predicate Answers(call: Call, s: seq<Adapter>, t: seq<Adapter>, excluded: Mask,
                          before: seq<Action>, after: seq<Action>) {
    match call
    case Add(a) => after == if a in s || |s| == MAX_ADAPTERS then before else before + [Open(a.mask)]
    case Remove(a) => if a in s then Shrunk(t, excluded, before, after) else after == before
  }

  class LocApi {
    const table: array<Adapter?>
    const excluded: Mask
    ghost var count: nat
    ghost var actions: seq<Action>

    /** No holes, no duplicates. */
    ghost predicate Valid()
      reads this, table
    {
      && table.Length == MAX_ADAPTERS && count <= MAX_ADAPTERS
      && (forall i :: 0 <= i < MAX_ADAPTERS ==> (table[i] != null <==> i < count))
      && Distinct(Adapters())
    }

    ghost function Adapters(): (r: seq<Adapter>)
      requires table.Length == MAX_ADAPTERS && count <= MAX_ADAPTERS
      requires forall i :: 0 <= i < MAX_ADAPTERS ==> (table[i] != null <==> i < count)
      reads this, table
      ensures |r| == count && forall i :: 0 <= i < count ==> r[i] == table[i]
    {
      seq(count, i requires 0 <= i < count reads this, table
        requires table.Length == MAX_ADAPTERS && count <= MAX_ADAPTERS && table[i] != null => table[i])
    }

    constructor (excluded: Mask)
      ensures Valid() && fresh(table) && Adapters() == [] && actions == [] && this.excluded == excluded
    {
      table := new Adapter?[MAX_ADAPTERS](_ => null);
      this.excluded := excluded;
      count, actions := 0, [];
    }

    /** TO_ALL_LOCADAPTERS(mask |= getEvtMask()). */
    method OrAll() returns (mask: Mask)
      requires Valid()
      ensures mask == Or(Adapters())
    {
      mask := {};
      ghost var s := Adapters();
      var i := 0;
      while i < MAX_ADAPTERS && table[i] != null
        invariant i <= count && mask == Or(s[..i])
        decreases MAX_ADAPTERS - i
      {
        OrNext(s, i);
        mask := mask + table[i].mask;
        i := i + 1;
      }
      assert s[..i] == s;
    }

    /** getEvtMask. */
    method GetEvtMask() returns (mask: Mask)
      requires Valid()
      ensures mask == EvtMask(Adapters(), excluded)
    {
      mask := OrAll();
      mask := mask - excluded;
    }

    method AddAdapter(adapter: Adapter)
      requires Valid()
      modifies this, table
      ensures Valid() && Adapters() == Added(old(Adapters()), adapter)
      ensures Answers(Add(adapter), old(Adapters()), Adapters(), excluded, old(actions), actions)
    {
      ghost var s := Adapters();
      var i := 0;
      while i < MAX_ADAPTERS && table[i] != adapter
        invariant 0 <= i <= MAX_ADAPTERS && i <= count && Valid() && Adapters() == s && actions == old(actions)
        invariant forall j :: 0 <= j < i ==> s[j] != adapter
        decreases MAX_ADAPTERS - i
      {
        if table[i] == null {
          table[i] := adapter;
          count := count + 1;
          actions := actions + [Open(adapter.mask)];
          assert Adapters() == s + [adapter];
          return;
        }
        i := i + 1;
      }
    }

    method RemoveAdapter(adapter: Adapter)
      requires Valid()
      modifies this, table
      ensures Valid() && Adapters() == Removed(old(Adapters()), adapter)
      ensures Answers(Remove(adapter), old(Adapters()), Adapters(), excluded, old(actions), actions)
    {
      ghost var s, removed := Adapters(), false;
      var i := 0;
      while i < MAX_ADAPTERS && table[i] != null
        invariant 0 <= i <= |s| && Valid()
        invariant !removed ==> Adapters() == s && actions == old(actions)
        invariant !removed ==> forall j :: 0 <= j < i ==> s[j] != adapter
        invariant removed ==> i == |s| && adapter in s && Adapters() == Removed(s, adapter)
        invariant removed ==> Shrunk(Adapters(), excluded, old(actions), actions)
        decreases MAX_ADAPTERS - i
      {
        if table[i] == adapter {
          PositionIs(s, adapter, i);
          i := TakeOut(i);
          removed := true;
        }
        i := i + 1;
      }
    }

    /** What removeAdapter does at the slot it has found. */
    method TakeOut(j: nat) returns (i: nat)
      requires Valid() && j < count
      modifies this, table
      ensures Valid() && Adapters() == Without(old(Adapters()), j) && i == |Adapters()|
      ensures Shrunk(Adapters(), excluded, old(actions), actions)
    {
      i := CloseGap(j);
      if i == 0 {
        actions := actions + [Close];
      } else {
        var mask := GetEvtMask();
        actions := actions + [Open(mask)];
        AsksExactly(Adapters(), excluded);
      }
    }

    /** The inner loop of removeAdapter: empties slot `j` and moves the last adapter there; the result is
        the slot it came from. */
    method CloseGap(j: nat) returns (i: nat)
      requires Valid() && j < count
      modifies this, table
      ensures Valid() && Adapters() == Without(old(Adapters()), j)
      ensures i == count == old(count) - 1 && actions == old(actions)
    {
      ghost var s := Adapters();
      table[j] := null;
      i := j + 1;
      while i < MAX_ADAPTERS && table[i] != null
        invariant j < i <= count
        invariant forall k :: 0 <= k < MAX_ADAPTERS ==> table[k] == if k < count && k != j then s[k] else null
        decreases MAX_ADAPTERS - i
      {
        i := i + 1;
      }
      i := i - 1;
      table[j] := table[i];
      table[i] := null;
      count := count - 1;
      assert Adapters() == Without(s, j);
    }
  }

  lemma {:induction false} PositionIs(s: seq<Adapter>, a: Adapter, j: nat)
    requires j < |s| && s[j] == a && forall i :: 0 <= i < j ==> s[i] != a
    ensures Position(s, a) == j
  {
  }

  // ----- Any sequence of calls

  function Apply(s: seq<Adapter>, call: Call): seq<Adapter> {
    match call
    case Add(a) => Added(s, a)
    case Remove(a) => Removed(s, a)
  }

  function ApplyAll(s: seq<Adapter>, calls: seq<Call>): seq<Adapter>
    decreases |calls|
  {
    if calls == [] then s else ApplyAll(Apply(s, calls[0]), calls[1..])
  }

  ghost function Members(s: seq<Adapter>): set<Adapter> {
    set a | a in s
  }

  /** Removal takes out the adapter and keeps the set of the others. */
  lemma RemovedMembers(s: seq<Adapter>, a: Adapter)
    requires Distinct(s)
    ensures Distinct(Removed(s, a)) && Members(Removed(s, a)) == Members(s) - {a}
    ensures Removed(s, a) == [] <==> Members(s) <= {a}
  {
    var j := Position(s, a);
    var r := Removed(s, a);
    if j < |s| {
      forall i | 0 <= i < |r| ensures r[i] in Members(s) - {a} {
        assert r[i] == if i == j then s[|s| - 1] else s[i];
      }
      forall b | b in Members(s) - {a} ensures b in r {
        var i :| 0 <= i < |s| && s[i] == b;
        assert r[if i == |s| - 1 then j else i] == b;
      }
    } else {
      forall i | 0 <= i < |s| ensures s[i] != a {}
    }
    if r != [] {
      assert r[0] in Members(r);
    }
  }

  /** The adapters that the calls leave registered, when the table never fills up. */
  ghost function Registered(members: set<Adapter>, calls: seq<Call>): set<Adapter>
    decreases |calls|
  {
    if calls == [] then members
    else
      var next := match calls[0]
                  case Add(a) => members + {a}
                  case Remove(a) => members - {a};
      Registered(next, calls[1..])
  }

  predicate NeverFull(s: seq<Adapter>, calls: seq<Call>)
    decreases |calls|
  {
    calls == [] ||
    ((calls[0].Add? ==> calls[0].a in s || |s| < MAX_ADAPTERS) && NeverFull(Apply(s, calls[0]), calls[1..]))
  }

  /** After any calls the table has no duplicates and at most ten adapters, and it holds exactly those
      added and not removed since, as long as no call found it full. */
  lemma {:induction false} TableTracksCalls(s: seq<Adapter>, calls: seq<Call>)
    requires Distinct(s) && |s| <= MAX_ADAPTERS
    ensures var r := ApplyAll(s, calls);
      && Distinct(r) && |r| <= MAX_ADAPTERS
      && (NeverFull(s, calls) ==> Members(r) == Registered(Members(s), calls))
    decreases |calls|
  {
    if calls != [] {
      var t := Apply(s, calls[0]);
      match calls[0] {
        case Add(a) =>
          if t != s {
            assert Members(t) == Members(s) + {a};
          } else if a in s {
            assert Members(s) + {a} == Members(s);
          }
        case Remove(a) =>
          RemovedMembers(s, a);
      }
      TableTracksCalls(t, calls[1..]);
    }
  }

  /** A trace of the calls: entry `i` is everything the modem connection had been told before call `i`. */
  ghost predicate Logs(s: seq<Adapter>, calls: seq<Call>, excluded: Mask, logs: seq<seq<Action>>) {
    && |logs| == |calls| + 1
    && forall i :: 0 <= i < |calls| ==>
         Answers(calls[i], ApplyAll(s, calls[..i]), ApplyAll(s, calls[..i + 1]), excluded, logs[i], logs[i + 1])
  }

  lemma {:induction false} ApplyNext(s: seq<Adapter>, calls: seq<Call>, call: Call)
    ensures ApplyAll(s, calls + [call]) == Apply(ApplyAll(s, calls), call)
    decreases |calls|
  {
    if calls == [] {
      assert [] + [call] == [call];
      assert ApplyAll(Apply(s, call), [call][1..]) == Apply(s, call);
    } else {
      assert (calls + [call])[0] == calls[0] && (calls + [call])[1..] == calls[1..] + [call];
      ApplyNext(Apply(s, calls[0]), calls[1..], call);
    }
  }

  method DoCall(api: LocApi, call: Call)
    requires api.Valid()
    modifies api, api.table
    ensures api.Valid() && api.Adapters() == Apply(old(api.Adapters()), call)
    ensures Answers(call, old(api.Adapters()), api.Adapters(), api.excluded, old(api.actions), api.actions)
  {
    match call
    case Add(a) => api.AddAdapter(a);
    case Remove(a) => api.RemoveAdapter(a);
  }

  /** Any calls on one table: it holds what ApplyAll says, and each call told the modem connection exactly
      what Answers says of it. */
  method Drive(api: LocApi, calls: seq<Call>) returns (ghost logs: seq<seq<Action>>)
    requires api.Valid()
    modifies api, api.table
    ensures api.Valid() && api.Adapters() == ApplyAll(old(api.Adapters()), calls)
    ensures Logs(old(api.Adapters()), calls, api.excluded, logs)
    ensures logs[0] == old(api.actions) && logs[|calls|] == api.actions
  {
    ghost var s := api.Adapters();
    logs := [api.actions];
    var i := 0;
    assert calls[..0] == [];
    while i < |calls|
      invariant i <= |calls| && api.Valid() && api.Adapters() == ApplyAll(s, calls[..i])
      invariant |logs| == i + 1 && logs[0] == old(api.actions) && logs[i] == api.actions
      invariant Logs(s, calls[..i], api.excluded, logs)
    {
      DoCall(api, calls[i]);
      LogsNext(s, calls[..i], calls[i], api.excluded, logs, api.actions);
      assert calls[..i + 1] == calls[..i] + [calls[i]];
      logs := logs + [api.actions];
      i := i + 1;
    }
    assert calls[..|calls|] == calls;
  }

  lemma {:induction false} LogsNext(s: seq<Adapter>, calls: seq<Call>, call: Call, excluded: Mask,
                                      logs: seq<seq<Action>>, after: seq<Action>)
    requires Logs(s, calls, excluded, logs)
    requires var t := ApplyAll(s, calls); Answers(call, t, Apply(t, call), excluded, logs[|calls|], after)
    ensures Logs(s, calls + [call], excluded, logs + [after])
    ensures ApplyAll(s, calls + [call]) == Apply(ApplyAll(s, calls), call)
  {
    ApplyNext(s, calls, call);
    var more, all := calls + [call], logs + [after];
    assert calls[..|calls|] == calls;
    forall i | 0 <= i < |more|
      ensures Answers(more[i], ApplyAll(s, more[..i]), ApplyAll(s, more[..i + 1]), excluded, all[i], all[i + 1])
    {
      assert more[..i] == calls[..i];
      if i < |calls| {
        assert more[..i + 1] == calls[..i + 1];
      } else {
        assert more[..i + 1] == more;
      }
    }
  }

  /** The connection is closed exactly by the removal of the last registered adapter, and told nothing
      exactly by a call that changes nothing. */
  lemma AnswerMeans(call: Call, s: seq<Adapter>, excluded: Mask, before: seq<Action>, after: seq<Action>)
    requires Distinct(s) && (call.Add? ==> call.a in s || |s| < MAX_ADAPTERS)
    requires Answers(call, s, Apply(s, call), excluded, before, after)
    ensures after == before + [Close] <==> s != [] && Apply(s, call) == []
    ensures after == before <==> Members(s) == Members(Apply(s, call))
  {
    if call.Remove? {
      RemovedMembers(s, call.a);
      if call.a in s {
        assert call.a in Members(s);
        assert after[|before|] == if Apply(s, call) == [] then Close else after[|before|];
      }
    } else if call.a !in s {
      assert Added(s, call.a)[|s|] == call.a;
      assert call.a in Members(Apply(s, call)) && call.a !in Members(s);
      assert after[|before|] == Open(call.a.mask);
    }
  }

  lemma {:induction false} BeforeCall(s: seq<Adapter>, calls: seq<Call>, call: Call)
    requires Distinct(s) && |s| <= MAX_ADAPTERS && NeverFull(s, calls + [call])
    ensures var t := ApplyAll(s, calls);
      && Distinct(t) && (call.Add? ==> call.a in t || |t| < MAX_ADAPTERS)
      && Members(t) == Registered(Members(s), calls)
  {
    assert (calls + [call])[..|calls|] == calls;
    NeverFullPrefix(s, calls + [call], |calls|);
    TableTracksCalls(s, calls);
    NeverFullLast(s, calls, call);
  }

  lemma {:induction false} AfterCall(s: seq<Adapter>, calls: seq<Call>, call: Call)
    requires Distinct(s) && |s| <= MAX_ADAPTERS && NeverFull(s, calls + [call])
    ensures ApplyAll(s, calls + [call]) == Apply(ApplyAll(s, calls), call)
    ensures Members(Apply(ApplyAll(s, calls), call)) == Registered(Members(s), calls + [call])
  {
    ApplyNext(s, calls, call);
    TableTracksCalls(s, calls + [call]);
  }

  lemma {:induction false} AnswerRegistered(s: seq<Adapter>, calls: seq<Call>, call: Call, excluded: Mask,
                         before: seq<Action>, after: seq<Action>)
    requires Distinct(s) && |s| <= MAX_ADAPTERS && NeverFull(s, calls + [call])
    requires Answers(call, ApplyAll(s, calls), ApplyAll(s, calls + [call]), excluded, before, after)
    ensures var were, are := Registered(Members(s), calls), Registered(Members(s), calls + [call]);
      && (after == before + [Close] <==> were != {} && are == {})
      && (after == before <==> were == are)
  {
    var t := ApplyAll(s, calls);
    BeforeCall(s, calls, call);
    AfterCall(s, calls, call);
    AnswerMeans(call, t, excluded, before, after);
    EmptyMembers(t);
    EmptyMembers(Apply(t, call));
  }

  /** The same of the last of any calls, in terms of who is registered, as long as none finds the table full. */
  lemma {:induction false} ClosedWhenEmpty(s: seq<Adapter>, calls: seq<Call>, call: Call, excluded: Mask,
                                             logs: seq<seq<Action>>)
    requires Distinct(s) && |s| <= MAX_ADAPTERS && Logs(s, calls + [call], excluded, logs)
    requires NeverFull(s, calls + [call])
    ensures var were, are := Registered(Members(s), calls), Registered(Members(s), calls + [call]);
      && (logs[|calls| + 1] == logs[|calls|] + [Close] <==> were != {} && are == {})
      && (logs[|calls| + 1] == logs[|calls|] <==> were == are)
  {
    LogAt(s, calls, call, excluded, logs);
    AnswerRegistered(s, calls, call, excluded, logs[|calls|], logs[|calls| + 1]);
  }

  lemma {:induction false} LogAt(s: seq<Adapter>, calls: seq<Call>, call: Call, excluded: Mask, logs: seq<seq<Action>>)
    requires Logs(s, calls + [call], excluded, logs)
    ensures Answers(call, ApplyAll(s, calls), ApplyAll(s, calls + [call]), excluded, logs[|calls|], logs[|calls| + 1])
  {
    var more, n := calls + [call], |calls|;
    assert more[n] == call && more[..n] == calls && more[..n + 1] == more;
  }

  lemma EmptyMembers(s: seq<Adapter>)
    ensures Members(s) == {} <==> s == []
  {
    if s != [] {
      assert s[0] in Members(s);
    }
  }

  lemma {:induction false} NeverFullPrefix(s: seq<Adapter>, calls: seq<Call>, n: nat)
    requires NeverFull(s, calls) && n <= |calls|
    ensures NeverFull(s, calls[..n])
    decreases n
  {
    if n > 0 {
      assert calls[..n][1..] == calls[1..][..n - 1];
      NeverFullPrefix(Apply(s, calls[0]), calls[1..], n - 1);
    }
  }

  lemma {:induction false} NeverFullLast(s: seq<Adapter>, calls: seq<Call>, call: Call)
    requires NeverFull(s, calls + [call])
    ensures call.Add? ==> call.a in ApplyAll(s, calls) || |ApplyAll(s, calls)| < MAX_ADAPTERS
    decreases |calls|
  {
    if calls == [] {
      assert [] + [call] == [call];
    } else {
      assert (calls + [call])[0] == calls[0] && (calls + [call])[1..] == calls[1..] + [call];
      NeverFullLast(Apply(s, calls[0]), calls[1..], call);
    }
  }
}
