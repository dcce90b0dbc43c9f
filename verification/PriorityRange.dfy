/**
 Which values the priority assignment gives out: when the host gets the one reserved for it,
 and when the counter leaves the range of int.
 */
module PriorityRange {
  import opened CausalGraph
  import opened Models
  import opened DepthSearch
  import opened AccessorOrder
  import opened Priorities
  import opened PriorityLaws

  /** Every composite has a child. */
  predicate Populated(t: Accessor)
  {
    match t
    case Atomic(_) => true
    case Composite(_, children) => children != [] && forall k :: 0 <= k < |children| ==> Populated(children[k])
  }

  // ----- the depth of a composite -----

  /**
   A composite is as deep as the least deep atomic accessor anywhere inside it, and has the
   largest int as depth if there is none.
   */
  lemma {:induction false} DepthIsLeastInside(m: Model, d: Depths, t: Accessor)
    ensures forall a: nat :: Within(Atomic(a), t) ==> TreeDepth(m, d, t) <= AtomDepth(m, d, a)
    ensures (t.Composite? && TreeDepth(m, d, t) == INT_MAX)
         || exists a: nat :: Within(Atomic(a), t) && TreeDepth(m, d, t) == AtomDepth(m, d, a)
    ensures t.Composite? ==> TreeDepth(m, d, t) <= INT_MAX
    decreases t, 1
  {
    if t.Composite? {
      DepthIsLeastAmong(m, d, t.children);
      forall a: nat | Within(Atomic(a), t) ensures TreeDepth(m, d, t) <= AtomDepth(m, d, a) {
        var k :| 0 <= k < |t.children| && Within(Atomic(a), t.children[k]);
      }
      if TreeDepth(m, d, t) != INT_MAX {
        var k, a: nat :|
          0 <= k < |t.children| && Within(Atomic(a), t.children[k]) && ChildrenDepth(m, d, t.children) == AtomDepth(m, d, a);
        assert Within(Atomic(a), t);
      }
    } else {
      assert Within(Atomic(t.id), t);
    }
  }

  lemma {:induction false} DepthIsLeastAmong(m: Model, d: Depths, children: seq<Accessor>)
    ensures forall k, a: nat :: 0 <= k < |children| && Within(Atomic(a), children[k]) ==>
              ChildrenDepth(m, d, children) <= AtomDepth(m, d, a)
    ensures ChildrenDepth(m, d, children) == INT_MAX || exists k, a: nat ::
              0 <= k < |children| && Within(Atomic(a), children[k]) && ChildrenDepth(m, d, children) == AtomDepth(m, d, a)
    ensures ChildrenDepth(m, d, children) <= INT_MAX
    decreases children, 0
  {
    if children != [] {
      var n := |children| - 1;
      var before := children[..n];
      DepthIsLeastAmong(m, d, before);
      DepthIsLeastInside(m, d, children[n]);
      forall k, a: nat | 0 <= k < |children| && Within(Atomic(a), children[k])
        ensures ChildrenDepth(m, d, children) <= AtomDepth(m, d, a)
      {
        if k < n {
          assert Within(Atomic(a), before[k]);
        }
      }
      if ChildrenDepth(m, d, before) == ChildrenDepth(m, d, children) && ChildrenDepth(m, d, before) != INT_MAX {
        var k, a: nat :| 0 <= k < n && Within(Atomic(a), before[k]) && ChildrenDepth(m, d, before) == AtomDepth(m, d, a);
        assert Within(Atomic(a), children[k]);
      }
    }
  }

  // ----- the host -----

  lemma {:induction false} SomeOutputHasDepthZero(g: Graph, d: Depths, o: nat) returns (q: nat)
    requires WellFormed(g) && Solution(g, d) && o in g.outputs
    ensures q in g.outputs && d[q] == 0
    decreases d[o]
  {
    assert Equation(g, d, o);
    if d[o] == 0 {
      q := o;
    } else {
      var i :| i in Direct(g, o) && i in d && d[o] == d[i] + Cost(g, o);
      assert Equation(g, d, i);
      var s :| s in Direct(g, i) && s in d && d[i] == d[s] + Cost(g, i);
      DirectAlternates(g, i, s);
      q := SomeOutputHasDepthZero(g, d, s);
    }
  }

  lemma {:induction false} GreatestOfZeros(d: Depths, ports: seq<nat>)
    requires forall p :: p in ports ==> DepthAt(d, p) == 0
    ensures Greatest(d, ports) == 0
  {
    if ports != [] {
      var n := |ports| - 1;
      var last := ports[n];
      assert last in ports;
      assert forall p :: p in ports[..n] ==> p in ports;
      GreatestOfZeros(d, ports[..n]);
    }
  }

  /** If there is an atomic accessor, some atomic accessor has depth 0. */
  lemma SomeAtomHasDepthZero(m: Model, g: Graph, d: Depths, t: Accessor, b: nat) returns (a: nat)
    requires Describes(m, g) && Solution(g, d) && Within(Atomic(b), t) && TreeOf(m, t)
    ensures a in m.atoms && AtomDepth(m, d, a) <= 0
  {
    if o :| o in g.outputs {
      var q := SomeOutputHasDepthZero(g, d, o);
      assert Consulted(q);
      a := m.owner[q];
      LeastIsBelow(d, m.atoms[a].outputs, q);
    } else {
      a := b;
      WithinTreeOf(m, Atomic(a), t);
      AtomPortsAreInGraph(m, g, a);
      var outputs := m.atoms[a].outputs;
      var first := if outputs == [] then 0 else outputs[0];
      assert outputs != [] ==> first in outputs;
      forall p | p in m.atoms[a].inputs ensures DepthAt(d, p) == 0 {
        assert Equation(g, d, p);
      }
      GreatestOfZeros(d, m.atoms[a].inputs);
    }
  }

  lemma {:induction false} WithinTreeOf(m: Model, s: Accessor, t: Accessor)
    requires Within(s, t) && TreeOf(m, t)
    ensures TreeOf(m, s)
  {
    if s != t {
      var k :| 0 <= k < |t.children| && Within(s, t.children[k]);
      WithinTreeOf(m, s, t.children[k]);
    }
  }

  lemma FirstIsLeast(order: seq<Entry>, k: nat)
    requires SortedEntries(order) && k < |order|
    ensures k == 0 || Less(order[0], order[k])
  {
  }

  /** Without an atomic accessor below it, a composite has the largest int as depth. */
  lemma {:induction false} NoAtomNoDepth(m: Model, d: Depths, t: Accessor)
    ensures TreeDepth(m, d, t) == INT_MAX || exists a: nat :: Within(Atomic(a), t)
    decreases t, 1
  {
    if t.Composite? {
      NoAtomAmong(m, d, t.children);
      if k, a: nat :| 0 <= k < |t.children| && Within(Atomic(a), t.children[k]) {
        assert Within(Atomic(a), t);
      }
    } else {
      assert Within(Atomic(t.id), t);
    }
  }

  lemma {:induction false} NoAtomAmong(m: Model, d: Depths, children: seq<Accessor>)
    ensures || ChildrenDepth(m, d, children) == INT_MAX
            || exists k, a: nat :: 0 <= k < |children| && Within(Atomic(a), children[k])
    decreases children, 0
  {
    if children != [] {
      var n := |children| - 1;
      NoAtomAmong(m, d, children[..n]);
      NoAtomNoDepth(m, d, children[n]);
      if k, a: nat :| 0 <= k < n && Within(Atomic(a), children[..n][k]) {
        assert Within(Atomic(a), children[k]);
      }
    }
  }

  /** The host is the first accessor in order. */
  lemma HostIsFirst(m: Model, d: Depths, t: Accessor, order: seq<Entry>, priorities: map<nat, int>)
    requires Assigned(m, d, t, order, priorities) && t.Composite?
    ensures t.id in priorities && priorities[t.id] == Max(HOST_PRIORITY, TreeDepth(m, d, t))
  {
    var log := Visit(m, d, t, 0);
    var host := log[|log| - 1];
    CompositeComesFirst(m, d, t, 0);
    var k := PlaceOf(order, priorities, host);
    assert order[0] in order;
    var j :| 0 <= j < |log| && log[j] == order[0];
    assert j == |log| - 1 || Less(host, order[0]);
    FirstIsLeast(order, k);
    assert Values(order, HOST_PRIORITY)[0] == Max(HOST_PRIORITY, host.depth);
  }

  /** The host gets exactly its reserved priority if and only if it holds an atomic accessor somewhere. */
  lemma HostGetsItsPriorityExactly(
      m: Model, g: Graph, d: Depths, t: Accessor, order: seq<Entry>, priorities: map<nat, int>)
    requires Describes(m, g) && Solution(g, d) && Assigned(m, d, t, order, priorities)
    requires t.Composite? && TreeOf(m, t) && forall x :: x in m.atoms ==> Within(Atomic(x), t)
    ensures t.id in priorities
    ensures priorities[t.id] == HOST_PRIORITY <==> exists a: nat :: Within(Atomic(a), t)
  {
    HostIsFirst(m, d, t, order, priorities);
    if b: nat :| Within(Atomic(b), t) {
      var a := SomeAtomHasDepthZero(m, g, d, t, b);
      var e := AtomEntry(m, d, t, a);
      VisitIsNoShallower(m, d, t, 0);
      var log := Visit(m, d, t, 0);
      var n :| 0 <= n < |log| && log[n] == e;
      assert TreeDepth(m, d, t) <= log[n].depth;
    } else {
      NoAtomNoDepth(m, d, t);
    }
  }

  // ----- the range of the values -----

  /** A childless composite pushes the counter past the largest int. */
  lemma ChildlessCompositeOverflows(
      m: Model, d: Depths, t: Accessor, order: seq<Entry>, priorities: map<nat, int>, c: Accessor)
    requires Assigned(m, d, t, order, priorities) && Within(c, t) && c.Composite? && c.children == []
    ensures c.id in priorities && NextValue(order) > INT_MAX
    ensures exists e :: e in order && e.id == c.id && priorities[e.id] >= INT_MAX
  {
    var left, right := SubtreeIsVisitedTogether(m, d, c, t, 0);
    var e := Entry(c.id, INT_MAX, true, |left|);
    assert Visit(m, d, c, |left|) == [e];
    assert e in Visit(m, d, t, 0);
    var k := PlaceOf(order, priorities, e);
    ValuesIncrease(order, HOST_PRIORITY);
    assert Values(order, HOST_PRIORITY)[k] <= Values(order, HOST_PRIORITY)[|order| - 1];
  }

  lemma {:induction false} ChildlessComposite(t: Accessor) returns (c: Accessor)
    requires !Populated(t)
    ensures Within(c, t) && c.Composite? && c.children == []
  {
    if t.children == [] {
      c := t;
    } else {
      var k :| 0 <= k < |t.children| && !Populated(t.children[k]);
      c := ChildlessComposite(t.children[k]);
    }
  }

  lemma {:induction false} GreatestIsBelow(d: Depths, ports: seq<nat>, x: nat)
    requires forall p :: p in d ==> d[p] <= x
    ensures Greatest(d, ports) <= x
  {
    if ports != [] {
      GreatestIsBelow(d, ports[..|ports| - 1], x);
    }
  }

  /** In a populated tree no accessor is deeper than the deepest port. */
  lemma {:induction false} VisitIsNoDeeper(m: Model, d: Depths, t: Accessor, start: nat, x: nat)
    requires Populated(t) && forall p :: p in d ==> d[p] <= x
    ensures TreeDepth(m, d, t) <= x && forall e :: e in Visit(m, d, t, start) ==> e.depth <= x
    decreases t, 1
  {
    if t.Composite? {
      VisitAllIsNoDeeper(m, d, t.children, start, x);
    } else if t.id in m.atoms {
      GreatestIsBelow(d, m.atoms[t.id].inputs, x);
    }
  }

  lemma {:induction false} VisitAllIsNoDeeper(m: Model, d: Depths, children: seq<Accessor>, start: nat, x: nat)
    requires forall k :: 0 <= k < |children| ==> Populated(children[k])
    requires forall p :: p in d ==> d[p] <= x
    ensures children != [] ==> ChildrenDepth(m, d, children) <= x
    ensures forall e :: e in VisitAll(m, d, children, start) ==> e.depth <= x
    decreases children, 0
  {
    if children != [] {
      var n := |children| - 1;
      var before := VisitAll(m, d, children[..n], start);
      VisitAllIsNoDeeper(m, d, children[..n], start, x);
      VisitIsNoDeeper(m, d, children[n], start + |before|, x);
    }
  }

  /**
   When port depths and the number of accessors are small enough, the counter leaves the
   range of int if and only if some composite has no child.
   */
  lemma OverflowExactly(m: Model, d: Depths, t: Accessor, order: seq<Entry>, priorities: map<nat, int>, x: nat)
    requires Assigned(m, d, t, order, priorities)
    requires x >= HOST_PRIORITY && x + |order| <= INT_MAX && forall p :: p in d ==> d[p] <= x
    ensures NextValue(order) > INT_MAX <==> !Populated(t)
  {
    if Populated(t) {
      VisitIsNoDeeper(m, d, t, 0, x);
      ValuesIncrease(order, HOST_PRIORITY);
      if order != [] {
        var last := order[|order| - 1];
        assert last in order;
        ValuesAreBounded(order, HOST_PRIORITY, |order| - 1);
      }
    } else {
      var c := ChildlessComposite(t);
      ChildlessCompositeOverflows(m, d, t, order, priorities, c);
    }
  }

  /** A host without children gets the largest int instead of its reserved priority. */
  lemma EmptyHostIsMisplaced(m: Model, d: Depths, h: nat)
    ensures var order := Visit(m, d, Composite(h, []), 0);
      Values(order, HOST_PRIORITY) == [INT_MAX] && NextValue(order) == INT_MAX + 1
  {
    assert Visit(m, d, Composite(h, []), 0) == [Entry(h, INT_MAX, true, 0)];
  }
}
