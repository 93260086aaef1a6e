/** charge_only_mode/alarm.c over nodes on the heap.  The ghost `nodes` is the chain from `alarms`; each
    method is proved to do to the abstract `Value()` what AlarmSpec says. */
module AlarmList {
  import opened ListSpec
  import opened AlarmTime
  import opened AlarmSpec

  class AlarmNode {
    const alarm: Alarm
    var next: AlarmNode?

    constructor (alarm: Alarm)
      ensures this.alarm == alarm && next == null
    {
      this.alarm, next := alarm, null;
    }
  }

  class AlarmQueue {
    var alarms: AlarmNode?
    var count: nat
    ghost var nodes: seq<AlarmNode>
    ghost var Repr: set<AlarmNode>  // every node this object may ever touch

    static ghost function At(s: seq<AlarmNode>, i: int): AlarmNode? {
      if 0 <= i < |s| then s[i] else null
    }

    ghost predicate Valid()
      reads this, Repr
    {
      && (forall i :: 0 <= i < |nodes| ==> nodes[i] in Repr)
      && (forall i, j :: 0 <= i < j < |nodes| ==> nodes[i] != nodes[j])
      && alarms == At(nodes, 0)
      && (forall i {:trigger nodes[i].next} :: 0 <= i < |nodes| ==> nodes[i].next == At(nodes, i + 1))
    }

    static ghost function Items(s: seq<AlarmNode>): (r: seq<Alarm>)
      ensures |r| == |s|
      ensures forall i :: 0 <= i < |s| ==> r[i] == s[i].alarm
    {
      seq(|s|, i requires 0 <= i < |s| => s[i].alarm)
    }

    ghost function Value(): Alarms
      reads this
    {
      Alarms(Items(nodes), count)
    }

    constructor ()
      ensures Valid() && Value() == Alarms([], 0) && Repr == {}
    {
      alarms, count, nodes, Repr := null, 0, [], {};
    }

    /** alarm_set_relative: `now` is what gettimeofday gave. */
    method Set(f: Fn, ms: int, now: Time)
      requires Valid()
      modifies this, Repr
      ensures Valid() && fresh(Repr - old(Repr))
      ensures Value() == SetRelative(old(Value()), f, ms, now)
    {
      var time := Deadline(now, ms);
      var a := new AlarmNode(Alarm(time, f, count));
      var p: AlarmNode?, c := null, alarms;
      ghost var k := 0;
      while c != null
        invariant k <= |nodes| && c == At(nodes, k) && p == At(nodes, k - 1)
        invariant forall j :: 0 <= j < k ==> !Before(time, nodes[j].alarm.time)
        decreases |nodes| - k
      {
        if Before(time, c.alarm.time) {
          break;
        }
        p := c;
        c := c.next;
        k := k + 1;
      }
      IndexOfIs(Items(nodes), Later(time), k);
      Link(p, a, k);
      count := count + 1;
    }

    /** The end of alarm_set_relative: `a` goes behind `p`, or to the head if that is null. */
    method Link(p: AlarmNode?, a: AlarmNode, ghost k: nat)
      requires Valid() && k <= |nodes| && p == At(nodes, k - 1) && a !in Repr
      modifies this, Repr, a
      ensures count == old(count) && Repr == old(Repr) + {a}
      ensures Valid() && nodes == old(nodes)[..k] + [a] + old(nodes)[k..]
      ensures Items(nodes) == Items(old(nodes))[..k] + [a.alarm] + Items(old(nodes))[k..]
    {
      if p == null {
        a.next := alarms;
        alarms := a;
      } else {
        a.next := p.next;
        p.next := a;
      }
      nodes := nodes[..k] + [a] + nodes[k..];
      Repr := Repr + {a};
    }

    /** The step of alarm_cancel that takes out `c`, whose predecessor is `p`, and goes on to the next. */
    method Cut(p: AlarmNode?, c: AlarmNode, ghost k: nat) returns (next: AlarmNode?)
      requires Valid() && k < |nodes| && p == At(nodes, k - 1) && c == nodes[k]
      modifies this, Repr
      ensures count == old(count) && Repr == old(Repr)
      ensures Valid() && |nodes| == |old(nodes)| - 1 && next == At(nodes, k) && p == At(nodes, k - 1)
      ensures Items(nodes) == RemoveAt(Items(old(nodes)), k)
    {
      next := c.next;
      if p != null {
        p.next := c.next;
      } else {
        alarms := c.next;
      }
      nodes := RemoveAt(nodes, k);
      assert forall i :: 0 <= i < |nodes| ==> nodes[i] == old(nodes)[if i < k then i else i + 1];
    }

    /** alarm_cancel. */
    method CancelAll(f: Fn) returns (cancelled: nat)
      requires Valid()
      modifies this, Repr
      ensures Valid() && Repr == old(Repr)
      ensures Value() == Cancel(old(Value()), f)
      ensures cancelled == Count(old(Value()).list, f)
    {
      cancelled := 0;
      var p: AlarmNode?, c := null, alarms;
      ghost var all := Items(nodes);
      ghost var k, items := 0, all;
      while c != null
        invariant Valid() && k <= |nodes| && c == At(nodes, k) && p == At(nodes, k - 1)
        invariant items == Items(nodes) && CancelledSoFar(all, items, f, k, cancelled)
        invariant count == old(count) && Repr == old(Repr)
        decreases |nodes| - k
      {
        if c.alarm.f == f {
          CancelHit(all, items, f, k, cancelled);
          items := RemoveAt(items, k);
          c := Cut(p, c, k);
          cancelled := cancelled + 1;
        } else {
          p, c := c, c.next;
          k := k + 1;
        }
      }
      CancelDone(all, items, f, cancelled);
    }

    /** `n` alarms calling `f` are out of `all`, and none is left before position `k`. */
    static ghost predicate CancelledSoFar(all: seq<Alarm>, items: seq<Alarm>, f: Fn, k: nat, n: nat) {
      && Reject(items, Calling(f)) == Reject(all, Calling(f))
      && n + Count(items, f) == Count(all, f)
      && k <= |items| && forall j :: 0 <= j < k ==> items[j].f != f
    }

    static lemma CancelHit(all: seq<Alarm>, items: seq<Alarm>, f: Fn, k: nat, n: nat)
      requires CancelledSoFar(all, items, f, k, n) && k < |items| && items[k].f == f
      ensures CancelledSoFar(all, RemoveAt(items, k), f, k, n + 1)
    {
      CutOne(items, k, Calling(f));
    }

    static lemma {:induction false} CancelDone(all: seq<Alarm>, items: seq<Alarm>, f: Fn, n: nat)
      requires CancelledSoFar(all, items, f, |items|, n)
      ensures items == Reject(all, Calling(f)) && n == Count(all, f)
    {
      RejectAll(items, Calling(f));
    }

    static lemma {:induction false} CutOne(s: seq<Alarm>, k: nat, p: Alarm -> bool)
      requires k < |s| && p(s[k])
      ensures Reject(RemoveAt(s, k), p) == Reject(s, p)
      ensures |Filter(RemoveAt(s, k), p)| + 1 == |Filter(s, p)|
    {
      var a, b := s[..k], s[k + 1..];
      assert s == a + ([s[k]] + b);
      RejectConcat(a, b, p);
      RejectConcat(a, [s[k]] + b, p);
      FilterConcat(a, b, p);
      FilterConcat(a, [s[k]] + b, p);
      assert ([s[k]] + b)[1..] == b;
    }

    /** One test of the loop of alarm_process, and the unlinking of a node that is due. */
    method PopDue(now: Time) returns (a: AlarmNode?)
      requires Valid()
      modifies this
      ensures Valid() && count == old(count) && Repr == old(Repr)
      ensures if old(nodes) == [] || Before(now, old(nodes)[0].alarm.time) then a == null && nodes == old(nodes)
              else a == old(nodes)[0] && nodes == old(nodes)[1..]
    {
      a := alarms;
      if a != null {
        if Before(now, a.alarm.time) {
          return null;
        }
        alarms := a.next;
        nodes := nodes[1..];
      }
    }

    /** alarm_get_time_until_next. */
    method UntilNext(now: Time) returns (delta: int)
      requires Valid()
      ensures delta == TimeUntilNext(Value(), now)
    {
      if alarms == null {
        return NO_ALARM;
      }
      delta := Delay(alarms.alarm.time, now);
    }
  }
}
