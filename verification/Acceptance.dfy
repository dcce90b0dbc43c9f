/**
 What acceptance by the loop check means at run time: when the links of an accepted model have
 no cycle, so that every event sent in it comes to rest. This joins the static analysis to
 the drain.
 */
module Acceptance {
  import opened Wiring
  import opened Dependencies
  import opened CausalGraph
  import M = Models
  import N = Network
  import opened DepthSearch
  import opened AccessorOrder

  /**
   How ports may be linked beyond what the analysis itself needs: an atomic accessor's output
   port takes events only from inputs of its own accessor, no chain of composite ports is a
   cycle, and a destination has its sender as source.
   */
  ghost predicate WellLinked(m: M.Model, g: Graph)
    requires WellFormed(g)
  {
    && (forall o {:trigger o in g.outputs} :: o in g.outputs && o in m.wires.source ==> m.wires.source[o] in g.inputs)
    && (forall i {:trigger m.wires.source[i]} :: i in m.wires.source && m.wires.source[i] in g.inputs ==> i in g.outputs)
    && (forall p {:trigger M.WalkUp(m, p, {})} :: M.WalkUp(m, p, {}) != M.Endless)
    && (forall p, d {:trigger d in Destinations(m.wires, p)} :: d in Destinations(m.wires, p) ==> IsSource(m.wires, p, d))
  }

  // ----- positions along chains of composite ports -----

  /** How many composite ports the walk up from `p` passes. */
  function Steps(m: M.Model, p: nat, seen: set<nat>): nat
    decreases M.CompositePorts(m) - seen
  {
    if p !in M.CompositePorts(m) || p in seen then 0
    else if p !in m.wires.source then 1
    else 1 + Steps(m, m.wires.source[p], seen + {p})
  }

  lemma {:induction false} FewerSeen(m: M.Model, p: nat, seen: set<nat>, fewer: set<nat>)
    requires fewer <= seen && M.WalkUp(m, p, seen) != M.Endless
    ensures M.WalkUp(m, p, fewer) == M.WalkUp(m, p, seen) && Steps(m, p, fewer) == Steps(m, p, seen)
    decreases M.CompositePorts(m) - seen
  {
    if p in M.CompositePorts(m) && p in m.wires.source {
      FewerSeen(m, m.wires.source[p], seen + {p}, fewer + {p});
    }
  }

  // ----- a rank that falls along every link -----

  /** The causal position of a port: it never decreases along a link. */
  function Position(m: M.Model, g: Graph, d: Depths, p: nat): int
  {
    if p in g.inputs then 2 * DepthAt(d, p)
    else if p in g.outputs then 2 * DepthAt(d, p) + 1
    else match M.WalkUp(m, p, {})
      case Found(o) => 2 * DepthAt(d, o) + 1
      case _ => -1
  }

  function StepsOf(m: M.Model, p: nat): nat
  {
    if p in M.CompositePorts(m) then Steps(m, p, {}) else 0
  }

  /** An input port is passed on to an output port that is said not to depend on it. */
  ghost predicate Hidden(m: M.Model, g: Graph, p: nat, q: nat)
    requires WellFormed(g)
  {
    q in Destinations(m.wires, p) && q in g.outputs && p !in g.needs[q]
  }

  /** The position grows, or it stays and the chain of composites gets longer. */
  ghost predicate MovesOn(m: M.Model, g: Graph, d: Depths, p: nat, q: nat)
  {
    || Position(m, g, d, p) < Position(m, g, d, q)
    || (Position(m, g, d, p) == Position(m, g, d, q) && StepsOf(m, p) < StepsOf(m, q))
  }

  /** Every link moves on, except where a removed dependency hides it from the analysis. */
  lemma LinkMovesOn(m: M.Model, g: Graph, d: Depths, p: nat, q: nat)
    requires Describes(m, g) && Solution(g, d) && WellLinked(m, g)
    requires q in Destinations(m.wires, p) && !Hidden(m, g, p, q)
    ensures MovesOn(m, g, d, p, q)
  {
    PortKinds(m, g, p);
    PortKinds(m, g, q);
    if q in g.outputs {
      OutputLink(m, g, d, p, q);
    } else if q in g.inputs {
      InputLink(m, g, d, p, q);
    } else {
      CompositeLink(m, g, d, p, q);
    }
  }

  /** Ports are inputs or outputs of atomic accessors, or ports of composites. */
  lemma PortKinds(m: M.Model, g: Graph, p: nat)
    requires Describes(m, g)
    ensures p in g.inputs || p in g.outputs ==> p !in M.CompositePorts(m)
    ensures p in m.wires.source || p in m.wires.source.Values ==> p in g.inputs || p in g.outputs || p in M.CompositePorts(m)
    ensures p in m.wires.source && p in g.inputs ==> M.SourceOf(m, p) == M.WalkUp(m, m.wires.source[p], {})
  {
    assert Consulted(p);
    assert p in M.OutputsOf(m) || p !in M.OutputsOf(m);
  }

  lemma OutputLink(m: M.Model, g: Graph, d: Depths, p: nat, q: nat)
    requires WellFormed(g) && Solution(g, d) && q in g.outputs && p in g.needs[q]
    ensures Position(m, g, d, p) < Position(m, g, d, q)
  {
    assert p in g.inputs && p in Direct(g, q);
    assert Equation(g, d, q);
  }

  lemma InputLink(m: M.Model, g: Graph, d: Depths, p: nat, q: nat)
    requires Describes(m, g) && Solution(g, d) && WellLinked(m, g) && IsSource(m.wires, p, q) && q in g.inputs
    ensures Position(m, g, d, p) < Position(m, g, d, q)
  {
    assert Equation(g, d, q);
    InputSource(m, g, p, q);
    if q in g.source {
      assert g.source[q] in Direct(g, q);
    }
  }

  lemma InputSource(m: M.Model, g: Graph, p: nat, q: nat)
    requires Describes(m, g) && WellLinked(m, g) && IsSource(m.wires, p, q) && q in g.inputs
    ensures p !in g.inputs
    ensures q in g.source <==> M.WalkUp(m, p, {}).Found?
    ensures q in g.source ==> M.WalkUp(m, p, {}) == M.Found(g.source[q])
    ensures p in g.outputs ==> M.WalkUp(m, p, {}) == M.Found(p)
  {
    assert Consulted(q);
    PortKinds(m, g, p);
  }

  lemma CompositeLink(m: M.Model, g: Graph, d: Depths, p: nat, q: nat)
    requires Describes(m, g) && WellLinked(m, g) && IsSource(m.wires, p, q)
    requires q !in g.inputs && q !in g.outputs
    ensures Position(m, g, d, p) == Position(m, g, d, q) && StepsOf(m, p) < StepsOf(m, q)
  {
    PortKinds(m, g, q);
    PortKinds(m, g, p);
    assert M.WalkUp(m, q, {}) == M.WalkUp(m, p, {} + {q});
    FewerSeen(m, p, {} + {q}, {});
    assert m.wires.source[q] == p;
  }

  // ----- routes along links -----

  ghost predicate Route(m: M.Model, c: seq<nat>)
  {
    c != [] && (|c| == 1 || (c[1] in Destinations(m.wires, c[0]) && Route(m, c[1..])))
  }

  ghost predicate Joins(m: M.Model, c: seq<nat>, p: nat, q: nat)
  {
    Route(m, c) && c[0] == p && c[|c| - 1] == q
  }

  /** An event at `p` may come to `q`, by zero or more links. */
  ghost predicate Leads(m: M.Model, p: nat, q: nat)
  {
    exists c :: Joins(m, c, p, q)
  }

  /** No link is part of a cycle. */
  ghost predicate NoCycle(m: M.Model)
  {
    forall p, q {:trigger q in Destinations(m.wires, p)} :: q in Destinations(m.wires, p) ==> !Leads(m, q, p)
  }

  lemma LeadsSelf(m: M.Model, p: nat)
    ensures Leads(m, p, p)
  {
    assert Joins(m, [p], p, p);
  }

  lemma {:induction false} RoutesJoin(m: M.Model, c: seq<nat>, e: seq<nat>)
    requires Route(m, c) && Route(m, e) && c[|c| - 1] == e[0]
    ensures Route(m, c + e[1..]) && (c + e[1..])[|c + e[1..]| - 1] == e[|e| - 1]
  {
    if |c| == 1 {
      assert c + e[1..] == e;
    } else {
      RoutesJoin(m, c[1..], e);
      var joined := c + e[1..];
      assert joined[1..] == c[1..] + e[1..] && joined[0] == c[0] && joined[1] == c[1];
    }
  }

  lemma LeadsOn(m: M.Model, p: nat, q: nat, r: nat)
    requires Leads(m, p, q) && Leads(m, q, r)
    ensures Leads(m, p, r)
  {
    var c :| Joins(m, c, p, q);
    var e :| Joins(m, e, q, r);
    RoutesJoin(m, c, e);
    assert Joins(m, c + e[1..], p, r);
  }

  lemma LinkLeads(m: M.Model, p: nat, q: nat)
    requires q in Destinations(m.wires, p)
    ensures Leads(m, p, q)
  {
    assert [p, q][1..] == [q];
    assert Joins(m, [p, q], p, q);
  }

  /** A route moves on, or it takes a hidden link. */
  lemma {:induction false} RouteMovesOn(m: M.Model, g: Graph, d: Depths, c: seq<nat>) returns (p: nat, q: nat)
    requires Describes(m, g) && Solution(g, d) && WellLinked(m, g) && Route(m, c) && |c| > 1
    ensures || MovesOn(m, g, d, c[0], c[|c| - 1])
            || (Leads(m, c[0], p) && Hidden(m, g, p, q) && Leads(m, q, c[|c| - 1]))
  {
    p, q := c[0], c[1];
    assert Joins(m, c[1..], q, c[|c| - 1]);
    if Hidden(m, g, p, q) {
      LeadsSelf(m, p);
    } else {
      LinkMovesOn(m, g, d, c[0], c[1]);
      if |c| > 2 {
        p, q := RouteMovesOn(m, g, d, c[1..]);
        if Leads(m, c[1], p) {
          LinkLeads(m, c[0], c[1]);
          LeadsOn(m, c[0], c[1], p);
        }
      }
    }
  }

  /**
   The links of an accepted model have no cycle if and only if no hidden link leads back to
   where it starts. All the rest the loop check has excluded.
   */
  lemma AcceptedHasNoCycleExactly(m: M.Model, g: Graph, d: Depths)
    requires Describes(m, g) && Solution(g, d) && WellLinked(m, g)
    ensures NoCycle(m) <==> forall p: nat, q: nat :: Hidden(m, g, p, q) ==> !Leads(m, q, p)
  {
    if forall p: nat, q: nat :: Hidden(m, g, p, q) ==> !Leads(m, q, p) {
      forall p: nat, q: nat | q in Destinations(m.wires, p) ensures !Leads(m, q, p) {
        if c :| Joins(m, c, q, p) {
          var cycle := [p] + c;
          assert cycle[1..] == c;
          var x, y := RouteMovesOn(m, g, d, cycle);
          LeadsOn(m, y, p, x);
        }
      }
    }
  }

  // ----- a rank that falls along every link -----

  function Ports(m: M.Model): set<nat>
  {
    m.wires.source.Keys + m.wires.source.Values
  }

  ghost function Below(m: M.Model, p: nat): set<nat>
  {
    set q | q in Ports(m) && Leads(m, p, q)
  }

  lemma FewerBelow(m: M.Model, p: nat, q: nat)
    requires NoCycle(m) && q in Destinations(m.wires, p) && p in Ports(m)
    ensures |Below(m, q)| < |Below(m, p)|
  {
    LinkLeads(m, p, q);
    LeadsSelf(m, p);
    forall r | r in Below(m, q) ensures r in Below(m, p) {
      LeadsOn(m, p, q, r);
    }
    assert p in Below(m, p) && p !in Below(m, q);
    Smaller(Below(m, q), Below(m, p));
  }

  lemma Smaller(s: set<nat>, t: set<nat>)
    requires s < t
    ensures |s| < |t|
  {
    assert t == s + (t - s);
  }

  lemma {:induction false} RankFallsAlongRoute(net: N.Network, c: seq<nat>)
    requires N.Downhill(net) && Route(net.model, c)
    ensures N.Rank(net, c[|c| - 1]) <= N.Rank(net, c[0])
  {
    if |c| > 1 {
      RankFallsAlongRoute(net, c[1..]);
      var k :| 0 <= k < |N.Out(net, c[0])| && N.Out(net, c[0])[k] == c[1];
      assert N.Rank(net, N.Out(net, c[0])[k]) < N.Rank(net, c[0]);
    }
  }

  lemma DownhillHasNoCycle(net: N.Network)
    requires N.Downhill(net)
    ensures NoCycle(net.model)
  {
    forall p: nat, q: nat | q in Destinations(net.model.wires, p) ensures !Leads(net.model, q, p) {
      assert q in N.Out(net, p);
      var k :| 0 <= k < |N.Out(net, p)| && N.Out(net, p)[k] == q;
      assert N.Rank(net, N.Out(net, p)[k]) < N.Rank(net, p);
      if c :| Joins(net.model, c, q, p) {
        RankFallsAlongRoute(net, c);
      }
    }
  }

  lemma NoCycleHasRank(net: N.Network) returns (rank: map<nat, nat>)
    requires NoCycle(net.model)
    requires forall p, d :: d in Destinations(net.model.wires, p) ==> IsSource(net.model.wires, p, d)
    ensures N.Downhill(net.(rank := rank))
  {
    var m := net.model;
    rank := map p | p in Ports(m) :: |Below(m, p)|;
    var ranked := net.(rank := rank);
    forall p, k {:trigger N.Out(ranked, p)[k]} | 0 <= k < |N.Out(ranked, p)|
      ensures N.Rank(ranked, N.Out(ranked, p)[k]) < N.Rank(ranked, p)
    {
      var q := N.Out(ranked, p)[k];
      assert q in Destinations(m.wires, p) && IsSource(m.wires, p, q);
      assert p in m.wires.source.Values;
      FewerBelow(m, p, q);
    }
  }

  /**
   An accepted model can be run, with all that sending, queueing and draining rely on, if and
   only if no hidden link leads back to where it starts.
   */
  lemma AcceptedModelRunsExactly(net: N.Network, g: Graph, d: Depths)
    requires Describes(net.model, g) && Solution(g, d) && WellLinked(net.model, g)
    requires N.Tree(net) && N.InputsListed(net)
    ensures (exists rank :: N.WellFormed(net.(rank := rank))) <==>
            forall p: nat, q: nat :: Hidden(net.model, g, p, q) ==> !Leads(net.model, q, p)
  {
    AcceptedHasNoCycleExactly(net.model, g, d);
    if NoCycle(net.model) {
      var rank := NoCycleHasRank(net);
      RankedIsTree(net, rank);
      RankedListsInputs(net, rank);
      assert N.WellFormed(net.(rank := rank));
    }
    if rank :| N.WellFormed(net.(rank := rank)) {
      DownhillHasNoCycle(net.(rank := rank));
    }
  }

  /** The tree and the list of inputs do not depend on the rank. */
  lemma RankedIsTree(net: N.Network, rank: map<nat, nat>)
    requires N.Tree(net)
    ensures N.Tree(net.(rank := rank))
  {
    var ranked := net.(rank := rank);
    forall a ensures N.Height(ranked, a) == N.Height(net, a) {
    }
  }

  lemma RankedListsInputs(net: N.Network, rank: map<nat, nat>)
    requires N.InputsListed(net)
    ensures N.InputsListed(net.(rank := rank))
  {
    var ranked := net.(rank := rank);
    forall a ensures N.InputsOf(ranked, a) == N.InputsOf(net, a) {
    }
    forall p ensures N.Queues(ranked, p) <==> N.Queues(net, p) {
    }
  }

  // ----- where acceptance is not enough -----

  /** Input 10 is passed on to output 11, which feeds it, but the dependency was removed. */
  function PassThrough(): M.Model
  {
    M.Model(
      map[1 := PortDependencies([10], [11], map[10 := {11}], map[11 := {10}])],
      map[10 := 1, 11 := 1],
      Wires(map[10 := 11, 11 := 10], map[10 := [11], 11 := [10]]))
  }

  lemma PassThroughPorts(m: M.Model)
    requires m == PassThrough()
    ensures M.InputsOf(m) == {10} && M.OutputsOf(m) == {11} && M.SourceOf(m, 10) == M.Found(11)
  {
    assert 10 in m.atoms[1].inputs && 11 in m.atoms[1].outputs;
    assert M.SourceOf(m, 10) == M.WalkUp(m, 11, {});
  }

  lemma PassThroughDependencies(ports: PortDependencies)
    requires ports == PortDependencies([10], [11], map[10 := {11}], map[11 := {10}])
    ensures ports.Valid() && ports.InputsOf(11) == {}
  {
  }

  lemma PassThroughIsValid(m: M.Model)
    requires m == PassThrough()
    ensures M.Valid(m)
  {
    PassThroughPorts(m);
    PassThroughDependencies(m.atoms[1]);
  }

  /**
   The case does occur: here the depth equations have a solution, so the model is accepted,
   and an event that enters goes round for ever.
   */
  lemma RemovedDependencyHidesCycle(m: M.Model)
    requires m == PassThrough()
    ensures M.Valid(m) && WellFormed(M.GraphOf(m)) && Solution(M.GraphOf(m), map[10 := 1, 11 := 0])
    ensures WellLinked(m, M.GraphOf(m)) && Hidden(m, M.GraphOf(m), 10, 11) && Leads(m, 11, 10)
  {
    PassThroughPorts(m);
    PassThroughDependencies(m.atoms[1]);
    PassThroughIsValid(m);
    M.GraphIsWellFormed(m);
    M.ClassFacts(m, 10);
    AcceptedLoop(M.GraphOf(m), map[10 := 1, 11 := 0]);
    PassThroughIsWellLinked(m, M.GraphOf(m));
    LinkLeads(m, 11, 10);
  }

  lemma PassThroughIsWellLinked(m: M.Model, g: Graph)
    requires m == PassThrough() && WellFormed(g) && g.inputs == {10} && g.outputs == {11}
    ensures WellLinked(m, g)
  {
    forall p ensures M.WalkUp(m, p, {}) != M.Endless {
      assert p !in M.CompositePorts(m);
    }
  }

  lemma AcceptedLoop(g: Graph, d: Depths)
    requires WellFormed(g) && g.inputs == {10} && g.outputs == {11} && g.needs[11] == {}
    requires 10 in g.source && g.source[10] == 11 && d == map[10 := 1, 11 := 0]
    ensures Solution(g, d)
  {
    assert 10 in g.classOf[10] && 11 in Direct(g, 10);
    assert Equation(g, d, 10) && Equation(g, d, 11);
  }
}
