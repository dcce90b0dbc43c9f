/** What the priority assignment promises, and where the promise ends. */
module PriorityLaws {
  import opened Dependencies
  import opened CausalGraph
  import opened Models
  import opened Wiring
  import opened DepthSearch
  import opened AccessorOrder
  import opened Priorities

  /** `order` and `priorities` are what the assignment leaves for tree `t` and depths `d`. */
  ghost predicate Assigned(m: Model, d: Depths, t: Accessor, order: seq<Entry>, priorities: map<nat, int>)
  {
    && SortedEntries(order)
    && (forall e :: e in order <==> e in Visit(m, d, t, 0))
    && Given(order, priorities)
  }

  lemma PlaceOf(order: seq<Entry>, priorities: map<nat, int>, e: Entry) returns (k: nat)
    requires Given(order, priorities) && e in order
    ensures k < |order| && order[k] == e && e.id in priorities
    ensures |Values(order, HOST_PRIORITY)| == |order| && priorities[e.id] == Values(order, HOST_PRIORITY)[k]
  {
    k :| 0 <= k < |order| && order[k] == e;
  }

  /**
   Priority values decide the order exactly: one accessor's value is below another's if and
   only if its depth is smaller, or the depths are equal and it stands earlier in the list
   of that depth. In particular the values of two accessors differ.
   */
  lemma PriorityIsPlaceInOrder(m: Model, d: Depths, t: Accessor, order: seq<Entry>, priorities: map<nat, int>, e: Entry, f: Entry)
    requires Assigned(m, d, t, order, priorities) && e in Visit(m, d, t, 0) && f in Visit(m, d, t, 0)
    ensures e.id in priorities && f.id in priorities
    ensures priorities[e.id] < priorities[f.id] <==> Less(e, f)
    ensures e != f ==> priorities[e.id] != priorities[f.id]
  {
    var j := PlaceOf(order, priorities, e);
    var k := PlaceOf(order, priorities, f);
    ValuesIncrease(order, HOST_PRIORITY);
    if j < k {
      assert Less(order[j], order[k]);
    } else if k < j {
      assert Less(order[k], order[j]);
    }
  }

  /** The value of the k-th accessor in order lies between k + 1 and its depth (or 1) plus k. */
  lemma PriorityBounds(m: Model, d: Depths, t: Accessor, order: seq<Entry>, priorities: map<nat, int>, k: nat)
    requires Assigned(m, d, t, order, priorities) && k < |order|
    ensures order[k].id in priorities
    ensures HOST_PRIORITY + k <= priorities[order[k].id] <= Max(HOST_PRIORITY, order[k].depth) + k
  {
    ValuesIncrease(order, HOST_PRIORITY);
    ValuesAreBounded(order, HOST_PRIORITY, k);
    assert order[k].id in priorities && priorities[order[k].id] == Values(order, HOST_PRIORITY)[k];
  }

  lemma {:induction false} IdHasEntry(m: Model, d: Depths, t: Accessor, start: nat) returns (e: Entry)
    ensures e in Visit(m, d, t, start) && e.id == t.id && e.depth == TreeDepth(m, d, t) && e.composite == t.Composite?
  {
    var log := Visit(m, d, t, start);
    e := log[|log| - 1];
  }

  /** A composite's value is below the value of everything inside it. */
  lemma CompositeBelowItsContents(
      m: Model, d: Depths, t: Accessor, order: seq<Entry>, priorities: map<nat, int>, c: Accessor, x: Accessor)
    requires Assigned(m, d, t, order, priorities)
    requires Within(c, t) && c.Composite? && Within(x, c) && x.id != c.id
    ensures c.id in priorities && x.id in priorities && priorities[c.id] < priorities[x.id]
  {
    var left, right := SubtreeIsVisitedTogether(m, d, c, t, 0);
    var part := Visit(m, d, c, |left|);
    CompositeComesFirst(m, d, c, |left|);
    var inner, outer := SubtreeIsVisitedTogether(m, d, x, c, |left|);
    var xs := Visit(m, d, x, |left| + |inner|);
    var e := IdHasEntry(m, d, x, |left| + |inner|);
    assert e in part;
    var k :| 0 <= k < |part| && part[k] == e;
    var top := part[|part| - 1];
    assert top in Visit(m, d, t, 0) && e in Visit(m, d, t, 0);
    assert Less(top, part[k]);
    PriorityIsPlaceInOrder(m, d, t, order, priorities, top, e);
  }

  // ----- causality -----

  lemma {:induction false} LeastIsBelow(d: Depths, ports: seq<nat>, p: nat)
    requires p in ports
    ensures Least(d, ports) <= DepthAt(d, p)
  {
    var n := |ports| - 1;
    if ports[n] != p {
      assert p in ports[..n];
      LeastIsBelow(d, ports[..n], p);
    }
  }

  lemma {:induction false} LeastIsAbove(d: Depths, ports: seq<nat>, x: int)
    requires x <= INT_MAX && forall p :: p in ports ==> x <= DepthAt(d, p)
    ensures x <= Least(d, ports)
  {
    if ports != [] {
      var n := |ports| - 1;
      var last := ports[n];
      assert last in ports;
      assert forall p :: p in ports[..n] ==> p in ports;
      LeastIsAbove(d, ports[..n], x);
    }
  }

  lemma {:induction false} GreatestIsAbove(d: Depths, ports: seq<nat>, p: nat)
    requires p in ports
    ensures DepthAt(d, p) <= Greatest(d, ports)
  {
    var n := |ports| - 1;
    if ports[n] != p {
      assert p in ports[..n];
      GreatestIsAbove(d, ports[..n], p);
    }
  }

  /** Every output of the accessor waits for `i` or a port equivalent to it. */
  ghost predicate Waits(m: Model, g: Graph, b: nat, i: nat)
    requires WellFormed(g) && b in m.atoms && i in g.inputs
  {
    forall o :: o in m.atoms[b].outputs ==> o in g.needs && exists j :: j in g.classOf[i] && j in g.needs[o]
  }

  /** Ports of one class have one depth. */
  lemma ClassHasOneDepth(g: Graph, d: Depths, i: nat, j: nat)
    requires WellFormed(g) && Solves(g, d) && i in g.inputs && j in g.classOf[i] && i in d && j in d
    ensures d[i] == d[j]
  {
    assert Equation(g, d, i) && Equation(g, d, j);
    assert Direct(g, i) == Direct(g, j);
    if d[i] != 0 {
      var q :| q in Direct(g, i) && q in d && d[i] == d[q] + Cost(g, i);
      assert q in Direct(g, j);
    }
    if d[j] != 0 {
      var q :| q in Direct(g, j) && q in d && d[j] == d[q] + Cost(g, j);
      assert q in Direct(g, i);
    }
  }

  /** If `a` feeds input `i` of `b`, and all outputs of `b` wait for it, then `a` is less deep than `b`. */
  lemma FeederIsShallower(m: Model, g: Graph, d: Depths, a: nat, b: nat, i: nat)
    requires WellFormed(g) && Solution(g, d) && a in m.atoms && b in m.atoms
    requires i in m.atoms[b].inputs && i in g.source && g.source[i] in m.atoms[a].outputs
    requires Waits(m, g, b, i)
    requires forall p :: p in d ==> d[p] < INT_MAX
    ensures AtomDepth(m, d, a) < AtomDepth(m, d, b)
  {
    var o := g.source[i];
    assert Equation(g, d, i) && o in Direct(g, i);
    LeastIsBelow(d, m.atoms[a].outputs, o);
    assert AtomDepth(m, d, a) < d[i];
    if m.atoms[b].outputs == [] {
      GreatestIsAbove(d, m.atoms[b].inputs, i);
    } else {
      forall q | q in m.atoms[b].outputs ensures d[i] <= DepthAt(d, q) {
        var j :| j in g.classOf[i] && j in g.needs[q];
        assert Equation(g, d, q) && j in Direct(g, q);
        ClassHasOneDepth(g, d, i, j);
      }
      LeastIsAbove(d, m.atoms[b].outputs, d[i]);
    }
  }

  /**
   Priorities respect causality: an accessor that feeds an input on which every output of
   another depends (or which has no outputs) has the smaller priority value.
   */
  lemma FeederRunsFirst(
      m: Model, g: Graph, d: Depths, t: Accessor, order: seq<Entry>, priorities: map<nat, int>, a: nat, b: nat, i: nat)
    requires WellFormed(g) && Solution(g, d) && Assigned(m, d, t, order, priorities)
    requires a in m.atoms && b in m.atoms && Within(Atomic(a), t) && Within(Atomic(b), t)
    requires i in m.atoms[b].inputs && i in g.source && g.source[i] in m.atoms[a].outputs
    requires Waits(m, g, b, i)
    requires forall p :: p in d ==> d[p] < INT_MAX
    ensures a in priorities && b in priorities && priorities[a] < priorities[b]
  {
    FeederIsShallower(m, g, d, a, b, i);
    var e := AtomEntry(m, d, t, a);
    var f := AtomEntry(m, d, t, b);
    PriorityIsPlaceInOrder(m, d, t, order, priorities, e, f);
  }

  lemma AtomEntry(m: Model, d: Depths, t: Accessor, a: nat) returns (e: Entry)
    requires Within(Atomic(a), t)
    ensures e in Visit(m, d, t, 0) && e.id == a && e.depth == AtomDepth(m, d, a) && !e.composite
  {
    var left, right := SubtreeIsVisitedTogether(m, d, Atomic(a), t, 0);
    e := Entry(a, AtomDepth(m, d, a), false, |left|);
    assert Visit(m, d, Atomic(a), |left|) == [e];
  }

  /**
   Output 11 of accessor 1 feeds input 10 of accessor 2, whose only output 12 is spontaneous.
   Accessor 2 was added to the host first.
   */
  function Feeding(): Model
  {
    Model(
      map[1 := PortDependencies([], [11], map[], map[]), 2 := PortDependencies([10], [12], map[10 := {12}], map[12 := {10}])],
      map[10 := 2, 11 := 1, 12 := 2],
      Wires(map[10 := 11], map[11 := [10]]))
  }

  const FEEDING_TREE := Composite(0, [Atomic(2), Atomic(1)])

  function FeedingGraph(): Graph
  {
    Graph({10}, {11, 12}, map[10 := {10}], map[11 := {}, 12 := {}], map[10 := 11])
  }

  lemma FeedingIsValid(m: Model)
    requires m == Feeding()
    ensures Flat(m) && Valid(m)
  {
    FedIsValid(m.atoms[2]);
    assert FlatAtom(m, 1) && FlatAtom(m, 2);
    assert FlatPort(m, 10) && FlatPort(m, 11) && FlatPort(m, 12) && FlatLink(m, 11, 10);
    FlatIsValid(m);
  }

  lemma FedIsValid(ports: PortDependencies)
    requires ports == PortDependencies([10], [12], map[10 := {12}], map[12 := {10}])
    ensures ports.Valid() && ports.InputsOf(12) == {} && ports.EquivalenceClass(10) == {10}
  {
    ports.JoinedSelf(10);
  }

  lemma FeedingPorts(m: Model)
    requires m == Feeding()
    ensures InputsOf(m) == {10} && OutputsOf(m) == {11, 12} && SourceOf(m, 10) == Found(11)
  {
    assert 10 in m.atoms[2].inputs && 12 in m.atoms[2].outputs && 11 in m.atoms[1].outputs;
    assert SourceOf(m, 10) == WalkUp(m, 11, {});
  }

  lemma FeedingIsDescribed(m: Model)
    requires m == Feeding()
    ensures Describes(m, FeedingGraph())
  {
    FeedingIsValid(m);
    FeedingPorts(m);
    FedIsValid(m.atoms[2]);
    assert m.atoms[1].InputsOf(11) == {};
    GraphIsFeedingGraph(m);
    GraphDescribes(m);
  }

  lemma GraphIsFeedingGraph(m: Model)
    requires Valid(m) && InputsOf(m) == {10} && OutputsOf(m) == {11, 12} && SourceOf(m, 10) == Found(11)
    requires 10 in m.owner && m.owner[10] in m.atoms && m.atoms[m.owner[10]].EquivalenceClass(10) == {10}
    requires 11 in m.owner && m.owner[11] in m.atoms && m.atoms[m.owner[11]].InputsOf(11) == {}
    requires 12 in m.owner && m.owner[12] in m.atoms && m.atoms[m.owner[12]].InputsOf(12) == {}
    ensures GraphOf(m) == FeedingGraph()
  {
    var g := GraphOf(m);
    assert g.inputs == {10} && g.outputs == {11, 12};
    assert g.classOf.Keys == {10} && g.needs.Keys == {11, 12} && g.source.Keys == {10};
    assert g.classOf[10] == {10} && g.needs[11] == {} && g.needs[12] == {} && g.source[10] == 11;
    SameAsFeedingGraph(g);
  }

  lemma SameAsFeedingGraph(g: Graph)
    requires g.inputs == {10} && g.outputs == {11, 12}
    requires g.classOf.Keys == {10} && g.needs.Keys == {11, 12} && g.source.Keys == {10}
    requires g.classOf[10] == {10} && g.needs[11] == {} && g.needs[12] == {} && g.source[10] == 11
    ensures g == FeedingGraph()
  {
    var f := FeedingGraph();
    assert g.classOf == f.classOf && g.needs == f.needs && g.source == f.source;
  }

  lemma LeastOfOne(d: Depths, p: nat)
    ensures Least(d, [p]) == Min(INT_MAX, DepthAt(d, p))
  {
    assert [p][..0] == [];
  }

  /** The depths of this model, and with them the depths of both accessors. */
  lemma FeedingDepths(g: Graph, d: Depths)
    requires g == FeedingGraph() && WellFormed(g) && Solution(g, d)
    ensures AtomDepth(Feeding(), d, 1) == 0 && AtomDepth(Feeding(), d, 2) == 0
  {
    assert Equation(g, d, 11) && Equation(g, d, 12);
    assert DepthAt(d, 11) == 0 && DepthAt(d, 12) == 0;
    LeastOfOne(d, 11);
    LeastOfOne(d, 12);
  }

  /**
   The premise of FeederRunsFirst cannot be dropped: here no output of accessor 2 waits for
   its input, both accessors have depth 0, and the one that is fed gets the smaller value.
   */
  lemma SpontaneousOutputHidesCausality(g: Graph, d: Depths, order: seq<Entry>, priorities: map<nat, int>)
    requires g == FeedingGraph() && Describes(Feeding(), g) && Solution(g, d)
    requires Assigned(Feeding(), d, FEEDING_TREE, order, priorities)
    ensures 10 in g.source && g.source[10] in Feeding().atoms[1].outputs && 10 in Feeding().atoms[2].inputs
    ensures 1 in priorities && 2 in priorities && priorities[2] < priorities[1]
  {
    FeedingDepths(g, d);
    var m, both := Feeding(), FEEDING_TREE.children;
    var e, f := Entry(2, 0, false, 0), Entry(1, 0, false, 1);
    assert both[..1] == [Atomic(2)] && both[..1][..0] == [];
    assert VisitAll(m, d, both[..1], 0) == [e];
    assert VisitAll(m, d, both, 0) == [e, f];
    assert e in VisitAll(m, d, both, 0) && f in VisitAll(m, d, both, 0);
    PriorityIsPlaceInOrder(m, d, FEEDING_TREE, order, priorities, e, f);
  }
}
