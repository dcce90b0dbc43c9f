/**
 When an accessor that feeds another gets the smaller priority value: always, in some orders
 of the children, or never.
 */
module FeederOrder {
  import opened CausalGraph
  import opened Models
  import opened DepthSearch
  import opened AccessorOrder
  import opened Priorities
  import opened PriorityLaws

  /** Every output of `b` depends on an input that is deeper than `x`. */
  ghost predicate Outruns(m: Model, g: Graph, d: Depths, b: nat, x: int)
    requires b in m.atoms
  {
    forall o :: o in m.atoms[b].outputs ==> o in g.needs && exists j :: j in g.needs[o] && j in d && d[j] > x
  }

  /** Every output of `b` depends on an input that is at least as deep as `x`, if `x` is not 0. */
  ghost predicate KeepsUp(m: Model, g: Graph, d: Depths, b: nat, x: int)
    requires b in m.atoms
  {
    forall o :: o in m.atoms[b].outputs ==>
      x <= 0 || (o in g.needs && exists j :: j in g.needs[o] && j in d && d[j] >= x)
  }

  /** Accessor `a` feeds input `i` of accessor `b`. */
  ghost predicate Feeds(m: Model, g: Graph, a: nat, b: nat, i: nat)
  {
    && a in m.atoms && b in m.atoms && i in m.atoms[b].inputs
    && i in g.source && g.source[i] in m.atoms[a].outputs
  }

  /** In the tree `a` is met before `b`. */
  ghost predicate MetBefore(t: Accessor, a: nat, b: nat)
  {
    exists j, k :: 0 <= j < k < |TreeIds(t)| && TreeIds(t)[j] == a && TreeIds(t)[k] == b
  }

  /** An output port is deeper than `x` if and only if it depends on such an input. */
  lemma OutputIsDeeperExactly(g: Graph, d: Depths, o: nat, x: int)
    requires WellFormed(g) && Solution(g, d) && o in g.outputs
    ensures x >= 0 ==> (DepthAt(d, o) > x <==> exists j :: j in g.needs[o] && j in d && d[j] > x)
    ensures DepthAt(d, o) >= x <==> x <= 0 || exists j :: j in g.needs[o] && j in d && d[j] >= x
  {
    assert Equation(g, d, o) && Direct(g, o) == g.needs[o];
    if j :| j in g.needs[o] && j in d && d[j] >= x {
      assert j in Direct(g, o);
    }
    if d[o] != 0 {
      var j :| j in Direct(g, o) && j in d && d[o] == d[j] + Cost(g, o);
    }
  }

  lemma {:induction false} LeastIsNatural(d: Depths, ports: seq<nat>)
    requires forall p :: p in d ==> d[p] >= 0
    ensures Least(d, ports) >= 0
  {
    if ports != [] {
      LeastIsNatural(d, ports[..|ports| - 1]);
    }
  }

  /** The feeder's depth is natural, and below the depth of the input that it feeds. */
  lemma FeederDepth(m: Model, g: Graph, d: Depths, a: nat, b: nat, i: nat)
    requires Describes(m, g) && Solution(g, d) && Feeds(m, g, a, b, i)
    ensures i in d && 0 <= AtomDepth(m, d, a) < d[i]
  {
    var o := g.source[i];
    assert Equation(g, d, i) && o in Direct(g, i);
    LeastIsBelow(d, m.atoms[a].outputs, o);
    forall p | p in d ensures d[p] >= 0 {
      assert Equation(g, d, p);
    }
    LeastIsNatural(d, m.atoms[a].outputs);
  }

  /** The fed accessor is deeper if and only if every output depends on an input deeper than the feeder. */
  lemma FeederIsShallowerExactly(m: Model, g: Graph, d: Depths, a: nat, b: nat, i: nat)
    requires Describes(m, g) && Solution(g, d) && Feeds(m, g, a, b, i)
    requires forall p :: p in d ==> d[p] < INT_MAX
    ensures AtomDepth(m, d, a) < AtomDepth(m, d, b) <==> Outruns(m, g, d, b, AtomDepth(m, d, a))
  {
    FeederDepth(m, g, d, a, b, i);
    AtomPortsAreInGraph(m, g, b);
    var x, outputs := AtomDepth(m, d, a), m.atoms[b].outputs;
    if outputs == [] {
      GreatestIsAbove(d, m.atoms[b].inputs, i);
    } else {
      forall o | o in outputs
        ensures DepthAt(d, o) > x <==> exists j :: j in g.needs[o] && j in d && d[j] > x
        ensures Least(d, outputs) <= DepthAt(d, o)
      {
        OutputIsDeeperExactly(g, d, o, x);
        LeastIsBelow(d, outputs, o);
      }
      if Outruns(m, g, d, b, x) {
        LeastIsAbove(d, outputs, x + 1);
      }
    }
  }

  /** It is not less deep if and only if every output depends on an input at least as deep. */
  lemma FeederIsNotDeeperExactly(m: Model, g: Graph, d: Depths, a: nat, b: nat, i: nat)
    requires Describes(m, g) && Solution(g, d) && Feeds(m, g, a, b, i)
    requires forall p :: p in d ==> d[p] < INT_MAX
    ensures AtomDepth(m, d, a) <= AtomDepth(m, d, b) <==> KeepsUp(m, g, d, b, AtomDepth(m, d, a))
  {
    FeederDepth(m, g, d, a, b, i);
    AtomPortsAreInGraph(m, g, b);
    var x, outputs := AtomDepth(m, d, a), m.atoms[b].outputs;
    if outputs == [] {
      GreatestIsAbove(d, m.atoms[b].inputs, i);
    } else {
      forall o | o in outputs
        ensures DepthAt(d, o) >= x <==> x <= 0 || exists j :: j in g.needs[o] && j in d && d[j] >= x
        ensures Least(d, outputs) <= DepthAt(d, o)
      {
        OutputIsDeeperExactly(g, d, o, x);
        LeastIsBelow(d, outputs, o);
      }
      if KeepsUp(m, g, d, b, x) {
        LeastIsAbove(d, outputs, x);
      }
    }
  }

  /** Of two accessors of the tree, the one that was met first has the smaller place. */
  lemma PlaceIsMeeting(m: Model, d: Depths, t: Accessor, a: nat, b: nat) returns (e: Entry, f: Entry)
    requires Within(Atomic(a), t) && Within(Atomic(b), t) && Distinct(TreeIds(t))
    ensures e in Visit(m, d, t, 0) && e.id == a && e.depth == AtomDepth(m, d, a) && !e.composite
    ensures f in Visit(m, d, t, 0) && f.id == b && f.depth == AtomDepth(m, d, b) && !f.composite
    ensures e.at < f.at <==> MetBefore(t, a, b)
  {
    e := AtomEntry(m, d, t, a);
    f := AtomEntry(m, d, t, b);
    var log := Visit(m, d, t, 0);
    VisitIds(m, d, t, 0);
    VisitIsNumbered(m, d, t, 0);
    var j :| 0 <= j < |log| && log[j] == e;
    var k :| 0 <= k < |log| && log[k] == f;
    assert TreeIds(t)[j] == a && TreeIds(t)[k] == b;
    assert e.at == j && f.at == k;
  }

  /**
   When the feeder comes first: if every output of the fed accessor depends on an input that
   is deeper than the feeder, or if every output depends on one that is as deep and the
   feeder is met first. In no other case.
   */
  lemma FeederRunsFirstExactly(
      m: Model, g: Graph, d: Depths, t: Accessor, order: seq<Entry>, priorities: map<nat, int>, a: nat, b: nat, i: nat)
    requires Describes(m, g) && Solution(g, d) && Feeds(m, g, a, b, i)
    requires forall p :: p in d ==> d[p] < INT_MAX
    requires Assigned(m, d, t, order, priorities) && Distinct(TreeIds(t))
    requires Within(Atomic(a), t) && Within(Atomic(b), t)
    ensures a in priorities && b in priorities
    ensures priorities[a] < priorities[b] <==>
            var x := AtomDepth(m, d, a);
            Outruns(m, g, d, b, x) || (KeepsUp(m, g, d, b, x) && MetBefore(t, a, b))
  {
    FeederIsShallowerExactly(m, g, d, a, b, i);
    FeederIsNotDeeperExactly(m, g, d, a, b, i);
    var e, f := PlaceIsMeeting(m, d, t, a, b);
    PriorityIsPlaceInOrder(m, d, t, order, priorities, e, f);
  }

  /**
   The order of the children decides if and only if the fed accessor keeps up with the feeder
   and does not outrun it: then the feeder comes first in a tree where it is met first, and
   second in one where it is not.
   */
  lemma ChildOrderDecidesExactly(
      m: Model, g: Graph, d: Depths, a: nat, b: nat, i: nat,
      t: Accessor, order: seq<Entry>, priorities: map<nat, int>,
      t': Accessor, order': seq<Entry>, priorities': map<nat, int>)
    requires Describes(m, g) && Solution(g, d) && Feeds(m, g, a, b, i)
    requires forall p :: p in d ==> d[p] < INT_MAX
    requires Assigned(m, d, t, order, priorities) && Distinct(TreeIds(t)) && MetBefore(t, a, b)
    requires Assigned(m, d, t', order', priorities') && Distinct(TreeIds(t')) && MetBefore(t', b, a)
    requires Within(Atomic(a), t) && Within(Atomic(b), t) && Within(Atomic(a), t') && Within(Atomic(b), t')
    ensures a in priorities && b in priorities && a in priorities' && b in priorities'
    ensures priorities[a] < priorities[b] && priorities'[a] > priorities'[b] <==>
            var x := AtomDepth(m, d, a);
            KeepsUp(m, g, d, b, x) && !Outruns(m, g, d, b, x)
  {
    FeederIsShallowerExactly(m, g, d, a, b, i);
    FeederIsNotDeeperExactly(m, g, d, a, b, i);
    var e, f := PlaceIsMeeting(m, d, t, a, b);
    PriorityIsPlaceInOrder(m, d, t, order, priorities, e, f);
    var f', e' := PlaceIsMeeting(m, d, t', b, a);
    PriorityIsPlaceInOrder(m, d, t', order', priorities', f', e');
  }

  /** The sufficient condition of FeederRunsFirst is one case of the exact one. */
  lemma WaitingOutruns(m: Model, g: Graph, d: Depths, a: nat, b: nat, i: nat)
    requires Describes(m, g) && Solution(g, d) && Feeds(m, g, a, b, i) && i in g.inputs && Waits(m, g, b, i)
    ensures Outruns(m, g, d, b, AtomDepth(m, d, a))
  {
    FeederDepth(m, g, d, a, b, i);
    forall o | o in m.atoms[b].outputs
      ensures exists j :: j in g.needs[o] && j in d && d[j] > AtomDepth(m, d, a)
    {
      var j :| j in g.classOf[i] && j in g.needs[o];
      assert j in g.inputs && j in d;
      ClassHasOneDepth(g, d, i, j);
    }
  }
}
