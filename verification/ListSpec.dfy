/** What the list operations of gps/utils/linked_list.c mean on sequences. */
module ListSpec {

  datatype Option<+T> = None | Some(value: T)

  /** The position of the first element `p` accepts, or |s| when there is none. */
  function IndexOf<T>(s: seq<T>, p: T -> bool): (k: nat)
    ensures k <= |s|
    ensures k < |s| ==> p(s[k])
    ensures forall j :: 0 <= j < k ==> !p(s[j])
  {
    if s == [] || p(s[0]) then 0 else 1 + IndexOf(s[1..], p)
  }

  function RemoveAt<T>(s: seq<T>, k: nat): (r: seq<T>)
    requires k < |s|
    ensures |r| == |s| - 1
  {
    s[..k] + s[k + 1..]
  }

  /** The elements `p` accepts, in order. */
  function Filter<T>(s: seq<T>, p: T -> bool): (r: seq<T>)
    ensures |r| <= |s|
  {
    if s == [] then []
    else if p(s[0]) then [s[0]] + Filter(s[1..], p)
    else Filter(s[1..], p)
  }

  /** The elements `p` does not accept, in order. */
  function Reject<T>(s: seq<T>, p: T -> bool): (r: seq<T>)
    ensures |r| <= |s|
  {
    if s == [] then []
    else if p(s[0]) then Reject(s[1..], p)
    else [s[0]] + Reject(s[1..], p)
  }

  function Reverse<T>(s: seq<T>): (r: seq<T>)
    ensures |r| == |s|
  {
    if s == [] then [] else Reverse(s[1..]) + [s[0]]
  }

  /** The first match is unique: any position with its two properties is IndexOf. */
  lemma {:induction false} IndexOfIs<T>(s: seq<T>, p: T -> bool, k: nat)
    requires k <= |s|
    requires k < |s| ==> p(s[k])
    requires forall j :: 0 <= j < k ==> !p(s[j])
    ensures IndexOf(s, p) == k
  {
  }

  lemma {:induction false} RejectMembers<T>(s: seq<T>, p: T -> bool)
    ensures var r := Reject(s, p);
      && (forall i :: 0 <= i < |r| ==> r[i] in s && !p(r[i]))
      && (forall i :: 0 <= i < |s| && !p(s[i]) ==> s[i] in r)
  {
    if s != [] {
      RejectMembers(s[1..], p);
    }
  }

  /** Where an element that was not accepted comes from. */
  lemma {:induction false} RejectFrom<T>(s: seq<T>, p: T -> bool, i: nat) returns (j: nat)
    requires i < |Reject(s, p)|
    ensures j < |s| && s[j] == Reject(s, p)[i] && !p(s[j])
  {
    if p(s[0]) {
      j := RejectFrom(s[1..], p, i);
      j := j + 1;
    } else if i == 0 {
      j := 0;
    } else {
      j := RejectFrom(s[1..], p, i - 1);
      j := j + 1;
    }
  }

  lemma {:induction false} RejectAll<T>(s: seq<T>, p: T -> bool)
    requires forall i :: 0 <= i < |s| ==> !p(s[i])
    ensures Reject(s, p) == s
    ensures Filter(s, p) == []
  {
    if s != [] {
      RejectAll(s[1..], p);
    }
  }

  lemma {:induction false} RejectEvery<T>(s: seq<T>, p: T -> bool)
    requires forall i :: 0 <= i < |s| ==> p(s[i])
    ensures Reject(s, p) == []
    ensures Filter(s, p) == s
  {
    if s != [] {
      RejectEvery(s[1..], p);
    }
  }

  lemma {:induction false} RejectConcat<T>(s: seq<T>, t: seq<T>, p: T -> bool)
    ensures Reject(s + t, p) == Reject(s, p) + Reject(t, p)
  {
    if s == [] {
      assert s + t == t;
    } else {
      assert (s + t)[0] == s[0] && (s + t)[1..] == s[1..] + t;
      RejectConcat(s[1..], t, p);
    }
  }

  lemma {:induction false} FilterConcat<T>(s: seq<T>, t: seq<T>, p: T -> bool)
    ensures Filter(s + t, p) == Filter(s, p) + Filter(t, p)
  {
    if s == [] {
      assert s + t == t;
    } else {
      assert (s + t)[0] == s[0] && (s + t)[1..] == s[1..] + t;
      FilterConcat(s[1..], t, p);
    }
  }

  lemma {:induction false} FilterSplit<T>(s: seq<T>, a: seq<T>, b: seq<T>, p: T -> bool)
    requires s == a + b
    ensures Filter(s, p) == Filter(a, p) + Filter(b, p)
  {
    FilterConcat(a, b, p);
  }

  lemma FilterOne<T>(x: T, p: T -> bool)
    ensures Filter([x], p) == if p(x) then [x] else []
  {
  }

  lemma FilterInsert<T>(s: seq<T>, k: nat, x: T, p: T -> bool)
    requires k <= |s|
    ensures Filter(s[..k] + [x] + s[k..], p) ==
            Filter(s[..k], p) + (if p(x) then [x] else []) + Filter(s[k..], p)
  {
    var a, b := s[..k], s[k..];
    FilterOne(x, p);
    FilterConcat(a + [x], b, p);
    FilterConcat(a, [x], p);
  }

  lemma {:induction false} ReverseConcat<T>(s: seq<T>, t: seq<T>)
    ensures Reverse(s + t) == Reverse(t) + Reverse(s)
  {
    if s == [] {
      assert s + t == t;
    } else {
      assert (s + t)[1..] == s[1..] + t;
      ReverseConcat(s[1..], t);
    }
  }

  lemma {:induction false} ReverseLast<T>(s: seq<T>)
    requires s != []
    ensures Reverse(s) == [s[|s| - 1]] + Reverse(s[..|s| - 1])
  {
    var front, last := s[..|s| - 1], [s[|s| - 1]];
    assert s == front + last;
    ReverseConcat(front, last);
    assert Reverse(last) == last;
  }

  lemma {:induction false} ReverseMultiset<T>(s: seq<T>)
    ensures multiset(Reverse(s)) == multiset(s)
  {
    if s != [] {
      ReverseMultiset(s[1..]);
      assert s == [s[0]] + s[1..];
    }
  }
}
