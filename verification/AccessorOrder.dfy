/**
 The accessor tree, the depth of each accessor, and the order in which priorities are given
 out: by depth, and among accessors of one depth, composites before atomic accessors, later
 composites before earlier ones, and atomic accessors as they were met.
 */
module AccessorOrder {
  import opened CausalGraph
  import opened Models

  const INT_MAX: int := 0x7fff_ffff
  const HOST_PRIORITY: int := 1

  /** Accessors that were given no priority have the lowest one. */
  function PriorityIn(priorities: map<nat, int>, a: nat): int
  {
    if a in priorities then priorities[a] else INT_MAX
  }

  datatype Accessor =
    | Atomic(id: nat)
    | Composite(id: nat, children: seq<Accessor>)

  // ----- accessor depths -----

  function DepthAt(d: Depths, p: nat): int
  {
    if p in d then d[p] else 0
  }

  function Least(d: Depths, ports: seq<nat>): int
  {
    if ports == [] then INT_MAX
    else Min(Least(d, ports[..|ports| - 1]), DepthAt(d, ports[|ports| - 1]))
  }

  function Greatest(d: Depths, ports: seq<nat>): int
  {
    if ports == [] then 0
    else Max(Greatest(d, ports[..|ports| - 1]), DepthAt(d, ports[|ports| - 1]))
  }

  function Min(x: int, y: int): int
  {
    if y < x then y else x
  }

  function Max(x: int, y: int): int
  {
    if y > x then y else x
  }

  /** The least depth of the output ports, or the greatest of the inputs if there are none. */
  function AtomDepth(m: Model, d: Depths, a: nat): int
  {
    if a !in m.atoms then 0
    else if m.atoms[a].outputs != [] then Least(d, m.atoms[a].outputs)
    else Greatest(d, m.atoms[a].inputs)
  }

  function TreeDepth(m: Model, d: Depths, t: Accessor): int
    decreases t, 1
  {
    match t
    case Atomic(a) => AtomDepth(m, d, a)
    case Composite(_, children) => ChildrenDepth(m, d, children)
  }

  function ChildrenDepth(m: Model, d: Depths, children: seq<Accessor>): int
    decreases children, 0
  {
    if children == [] then INT_MAX
    else Min(ChildrenDepth(m, d, children[..|children| - 1]), TreeDepth(m, d, children[|children| - 1]))
  }

  // ----- the order -----

  /** An accessor as it is met: children before their composite. `at` counts the accessors met before. */
  datatype Entry = Entry(id: nat, depth: int, composite: bool, at: nat)

  function Visit(m: Model, d: Depths, t: Accessor, start: nat): seq<Entry>
    decreases t, 1
  {
    match t
    case Atomic(a) => [Entry(a, AtomDepth(m, d, a), false, start)]
    case Composite(c, children) =>
      var below := VisitAll(m, d, children, start);
      below + [Entry(c, ChildrenDepth(m, d, children), true, start + |below|)]
  }

  function VisitAll(m: Model, d: Depths, children: seq<Accessor>, start: nat): seq<Entry>
    decreases children, 0
  {
    if children == [] then []
    else
      var before := VisitAll(m, d, children[..|children| - 1], start);
      before + Visit(m, d, children[|children| - 1], start + |before|)
  }

  /** Atomic accessors go to the back of their depth's list, composites to the front. */
  function Stamp(e: Entry): int
  {
    if e.composite then -1 - e.at else e.at
  }

  predicate Less(e: Entry, f: Entry)
  {
    e.depth < f.depth || (e.depth == f.depth && Stamp(e) < Stamp(f))
  }

  ghost predicate Numbered(log: seq<Entry>, start: nat)
  {
    forall k {:trigger log[k]} :: 0 <= k < |log| ==> log[k].at == start + k
  }

  lemma {:induction false} VisitIsNumbered(m: Model, d: Depths, t: Accessor, start: nat)
    ensures Numbered(Visit(m, d, t, start), start)
    decreases t, 1
  {
    if t.Composite? {
      VisitAllIsNumbered(m, d, t.children, start);
    }
  }

  lemma {:induction false} VisitAllIsNumbered(m: Model, d: Depths, children: seq<Accessor>, start: nat)
    ensures Numbered(VisitAll(m, d, children, start), start)
    decreases children, 0
  {
    if children != [] {
      var before := VisitAll(m, d, children[..|children| - 1], start);
      VisitAllIsNumbered(m, d, children[..|children| - 1], start);
      VisitIsNumbered(m, d, children[|children| - 1], start + |before|);
    }
  }

  lemma {:induction false} VisitIsNoShallower(m: Model, d: Depths, t: Accessor, start: nat)
    ensures forall k {:trigger Visit(m, d, t, start)[k]} :: 0 <= k < |Visit(m, d, t, start)| ==>
              TreeDepth(m, d, t) <= Visit(m, d, t, start)[k].depth
    decreases t, 1
  {
    if t.Composite? {
      VisitAllIsNoShallower(m, d, t.children, start);
      var below := VisitAll(m, d, t.children, start);
      forall k | 0 <= k < |Visit(m, d, t, start)|
        ensures TreeDepth(m, d, t) <= Visit(m, d, t, start)[k].depth
      {
        if k < |below| {
          assert Visit(m, d, t, start)[k] == below[k];
        }
      }
    }
  }

  lemma {:induction false} VisitAllIsNoShallower(m: Model, d: Depths, children: seq<Accessor>, start: nat)
    ensures forall k {:trigger VisitAll(m, d, children, start)[k]} :: 0 <= k < |VisitAll(m, d, children, start)| ==>
              ChildrenDepth(m, d, children) <= VisitAll(m, d, children, start)[k].depth
    decreases children, 0
  {
    if children != [] {
      var n := |children| - 1;
      var before := VisitAll(m, d, children[..n], start);
      var last := Visit(m, d, children[n], start + |before|);
      VisitAllIsNoShallower(m, d, children[..n], start);
      VisitIsNoShallower(m, d, children[n], start + |before|);
      forall k | 0 <= k < |VisitAll(m, d, children, start)|
        ensures ChildrenDepth(m, d, children) <= VisitAll(m, d, children, start)[k].depth
      {
        if k < |before| {
          assert VisitAll(m, d, children, start)[k] == before[k];
        } else {
          assert VisitAll(m, d, children, start)[k] == last[k - |before|];
        }
      }
    }
  }

  /** A composite comes before everything below it. */
  lemma CompositeComesFirst(m: Model, d: Depths, t: Accessor, start: nat)
    requires t.Composite?
    ensures var log := Visit(m, d, t, start);
      && log[|log| - 1].id == t.id
      && forall k {:trigger log[k]} :: 0 <= k < |log| - 1 ==> Less(log[|log| - 1], log[k])
  {
    var log := Visit(m, d, t, start);
    VisitIsNumbered(m, d, t, start);
    VisitIsNoShallower(m, d, t, start);
    forall k {:trigger log[k]} | 0 <= k < |log| - 1 ensures Less(log[|log| - 1], log[k]) {
      assert log[k].at == start + k && log[|log| - 1].at == start + |log| - 1;
    }
  }

  /** `sub` is `t` or lies below it. */
  ghost predicate Within(sub: Accessor, t: Accessor)
  {
    sub == t || (t.Composite? && exists k :: 0 <= k < |t.children| && Within(sub, t.children[k]))
  }

  /** The accessors of a subtree are met one after another. */
  lemma {:induction false} SubtreeIsVisitedTogether(m: Model, d: Depths, sub: Accessor, t: Accessor, start: nat)
    returns (left: seq<Entry>, right: seq<Entry>)
    requires Within(sub, t)
    ensures Visit(m, d, t, start) == left + Visit(m, d, sub, start + |left|) + right
    decreases t, 1
  {
    if sub == t {
      left, right := [], [];
    } else {
      var k :| 0 <= k < |t.children| && Within(sub, t.children[k]);
      left, right := SubtreeIsVisitedAmong(m, d, sub, t.children, k, start);
      var below, part := VisitAll(m, d, t.children, start), Visit(m, d, sub, start + |left|);
      var own := [Entry(t.id, ChildrenDepth(m, d, t.children), true, start + |below|)];
      assert left + part + right + own == left + part + (right + own);
      right := right + own;
    }
  }

  lemma {:induction false} SubtreeIsVisitedAmong(m: Model, d: Depths, sub: Accessor, children: seq<Accessor>, k: nat, start: nat)
    returns (left: seq<Entry>, right: seq<Entry>)
    requires k < |children| && Within(sub, children[k])
    ensures VisitAll(m, d, children, start) == left + Visit(m, d, sub, start + |left|) + right
    decreases children, 0
  {
    var n := |children| - 1;
    var before := VisitAll(m, d, children[..n], start);
    var last := Visit(m, d, children[n], start + |before|);
    if k == n {
      left, right := SubtreeIsVisitedTogether(m, d, sub, children[n], start + |before|);
      var part := Visit(m, d, sub, start + |before| + |left|);
      Regroup(before, left, part, right);
      left := before + left;
    } else {
      left, right := SubtreeIsVisitedAmong(m, d, sub, children[..n], k, start);
      var part := Visit(m, d, sub, start + |left|);
      Regroup(left, part, right, last);
      right := right + last;
    }
  }

  lemma Regroup(a: seq<Entry>, b: seq<Entry>, c: seq<Entry>, d: seq<Entry>)
    ensures a + (b + c + d) == (a + b) + c + d && (a + b + c) + d == a + b + (c + d)
  {
  }

  // ----- the lists by depth -----

  /** The list of depth `depth` after the accessors in `log` were met. */
  function Bucket(log: seq<Entry>, depth: int): seq<Entry>
  {
    if log == [] then []
    else
      var e, before := log[|log| - 1], Bucket(log[..|log| - 1], depth);
      if e.depth != depth then before else if e.composite then [e] + before else before + [e]
  }

  lemma BucketAppend(log: seq<Entry>, e: Entry, depth: int)
    ensures Bucket(log + [e], depth)
         == (if depth != e.depth then Bucket(log, depth)
             else if e.composite then [e] + Bucket(log, depth) else Bucket(log, depth) + [e])
  {
    assert (log + [e])[..|log|] == log;
  }

  lemma {:induction false} BucketMembers(log: seq<Entry>, depth: int)
    ensures forall e :: e in Bucket(log, depth) <==> e in log && e.depth == depth
  {
    if log != [] {
      BucketMembers(log[..|log| - 1], depth);
      assert log == log[..|log| - 1] + [log[|log| - 1]];
    }
  }

  ghost predicate SortedEntries(q: seq<Entry>)
  {
    forall j, k :: 0 <= j < k < |q| ==> Less(q[j], q[k])
  }

  lemma SortedTail(q: seq<Entry>, e: Entry)
    requires SortedEntries(q) && q != []
    ensures e in q[1..] <==> e in q && e != q[0]
  {
    if e in q && e != q[0] {
      var k :| 0 <= k < |q| && q[k] == e;
      assert q[1..][k - 1] == e;
    }
    if e in q[1..] {
      var k :| 0 <= k < |q[1..]| && q[1..][k] == e;
      assert Less(q[0], q[k + 1]);
    }
  }

  /** The accessors determine their order. */
  lemma {:induction false} SortedEntriesAreUnique(q: seq<Entry>, r: seq<Entry>)
    requires SortedEntries(q) && SortedEntries(r) && forall e :: e in q <==> e in r
    ensures q == r
    decreases |q|
  {
    if q == [] {
      var first := if r == [] then Entry(0, 0, false, 0) else r[0];
      assert r != [] ==> first in r;
    } else {
      var e := q[0];
      assert e in q && e in r;
      var f := r[0];
      assert f in r && f in q;
      var j :| 0 <= j < |r| && r[j] == e;
      var k :| 0 <= k < |q| && q[k] == f;
      assert j == 0 || Less(f, e);
      assert k == 0 || Less(e, f);
      forall x ensures x in q[1..] <==> x in r[1..] {
        SortedTail(q, x);
        SortedTail(r, x);
      }
      SortedEntriesAreUnique(q[1..], r[1..]);
      assert q == [q[0]] + q[1..] && r == [r[0]] + r[1..];
    }
  }

  lemma {:induction false} BucketIsSorted(log: seq<Entry>, depth: int)
    requires Numbered(log, 0)
    ensures SortedEntries(Bucket(log, depth))
  {
    if log != [] {
      var n := |log| - 1;
      var e, before := log[n], Bucket(log[..n], depth);
      BucketIsSorted(log[..n], depth);
      BucketMembers(log[..n], depth);
      forall k | 0 <= k < |before| ensures before[k].depth == depth && -1 - n < Stamp(before[k]) < n {
        assert before[k] in before;
        assert before[k] in log[..n];
      }
    }
  }

  // ----- the priority values -----

  /** Values for accessors in order: each is above the one before and no less than the depth. */
  function Values(order: seq<Entry>, next: int): seq<int>
  {
    if order == [] then []
    else
      var p := Max(next, order[0].depth);
      [p] + Values(order[1..], p + 1)
  }

  lemma {:induction false} ValuesIncrease(order: seq<Entry>, next: int)
    ensures |Values(order, next)| == |order|
    ensures forall k :: 0 <= k < |order| ==> next + k <= Values(order, next)[k] && order[k].depth <= Values(order, next)[k]
    ensures forall j, k :: 0 <= j < k < |order| ==> Values(order, next)[j] < Values(order, next)[k]
    decreases |order|
  {
    if order != [] {
      var p := Max(next, order[0].depth);
      ValuesIncrease(order[1..], p + 1);
    }
  }

  /** The k-th accessor in order gets at most its depth (or 1) plus k. */
  lemma {:induction false} ValuesAreBounded(order: seq<Entry>, next: int, k: nat)
    requires SortedEntries(order) && k < |order|
    ensures |Values(order, next)| == |order| && Values(order, next)[k] <= Max(next, order[k].depth) + k
    decreases |order|
  {
    ValuesIncrease(order, next);
    if k > 0 {
      var p := Max(next, order[0].depth);
      assert Less(order[0], order[k]);
      ValuesAreBounded(order[1..], p + 1, k - 1);
      assert order[1..][k - 1] == order[k];
    }
  }

  /** Each value follows from the one before. */
  lemma {:induction false} ValuesStep(order: seq<Entry>, next: int, k: nat)
    requires k < |order|
    ensures |Values(order, next)| == |order|
    ensures Values(order, next)[k] == Max(if k == 0 then next else Values(order, next)[k - 1] + 1, order[k].depth)
    decreases |order|
  {
    ValuesIncrease(order, next);
    if k > 0 {
      ValuesStep(order[1..], Max(next, order[0].depth) + 1, k - 1);
    }
  }

  lemma {:induction false} ValuesAppend(order: seq<Entry>, next: int, e: Entry, last: int)
    requires |Values(order, next)| == |order|
    requires last == if order == [] then next else Values(order, next)[|order| - 1] + 1
    ensures Values(order + [e], next) == Values(order, next) + [Max(last, e.depth)]
    decreases |order|
  {
    if order == [] {
      assert (order + [e])[1..] == [];
    } else {
      var p := Max(next, order[0].depth);
      assert (order + [e])[1..] == order[1..] + [e];
      ValuesIncrease(order[1..], p + 1);
      ValuesAppend(order[1..], p + 1, e, last);
    }
  }
}
