/**
 The search that computes port depths and finds causality loops: two mutually recursive
 methods over equivalence classes and output ports, with memoised depths and two sets of
 visited ports.
 */
module DepthSearch {
  import opened Wrappers
  import opened Sets
  import opened CausalGraph
  import opened Models

  class DepthSearch {
    const model: Model
    ghost const graph: Graph
    var portDepths: Depths
    var visitedInputPorts: set<nat>
    var visitedOutputPorts: set<nat>

    ghost predicate Ready()
    {
      Describes(model, graph)
    }

    /** Visited ports whose depth is not known yet: the ones the search is still working on. */
    ghost function InProgress(): set<nat>
      reads this
    {
      (visitedInputPorts + visitedOutputPorts) - portDepths.Keys
    }

    /** The known depths solve the equations, class by class. */
    ghost predicate Memo()
      requires Ready()
      reads this
    {
      && Solves(graph, portDepths)
      && visitedInputPorts <= graph.inputs && visitedOutputPorts <= graph.outputs
    }

    constructor (m: Model, ghost g: Graph)
      requires Describes(m, g)
      ensures model == m && graph == g && Ready() && Memo() && portDepths == map[]
    {
      model, graph := m, g;
      portDepths, visitedInputPorts, visitedOutputPorts := map[], {}, {};
    }

    /** Walk up from an input port; none when it is unconnected or the chain ends at a composite port. */
    method GetSourceOutputPort(i: nat) returns (source: Option<nat>)
      requires Ready() && i in graph.inputs
      ensures source == if i in graph.source then Some(graph.source[i]) else None
    {
      if i !in model.wires.source {
        assert Consulted(i);
        return None;
      }
      assert Consulted(i);
      var p := model.wires.source[i];
      ghost var seen := {};
      while p in CompositePorts(model)
        invariant WalkUp(model, p, seen) == SourceOf(model, i)
        decreases CompositePorts(model) - seen
      {
        assert p !in seen;
        if p !in model.wires.source {
          return None;
        }
        seen := seen + {p};
        p := model.wires.source[p];
      }
      return Some(p);
    }

    /**
     Computes the depth of the equivalence class of `i`, or reports a port on a loop.
     On entry every port in progress leads to `i`.
     */
    method ComputeInputPortDepth(i: nat) returns (loop: Option<nat>)
      requires Ready() && Memo() && i in graph.inputs && i !in portDepths
      requires forall v :: v in InProgress() ==> Reaches(graph, v, i)
      modifies this
      ensures Memo() && Grown(old(portDepths), portDepths) && old(visitedOutputPorts) <= visitedOutputPorts
      ensures loop.Some? ==> OnLoop(graph, loop.value)
      ensures loop.None? ==> i in portDepths && InProgress() <= old(InProgress())
      decreases graph.outputs - visitedOutputPorts, 2
    {
      ghost var g, entry := graph, InProgress();
      var depth := 0;
      var equivalentPorts := EquivalentPorts(i);
      var rest := equivalentPorts;
      while rest != {}
        invariant Memo() && Grown(old(portDepths), portDepths) && old(visitedOutputPorts) <= visitedOutputPorts
        invariant InProgress() <= entry + equivalentPorts
        invariant rest <= equivalentPorts && ClassDepth(g, portDepths, equivalentPorts - rest, depth)
        decreases rest
      {
        HasMember(rest);
        var j :| j in rest;
        visitedInputPorts := visitedInputPorts + {j};
        ghost var before, depthBefore := portDepths, depth;
        var newDepth;
        loop, newDepth := SourceDepth(i, j, entry);
        if loop.Some? {
          return;
        }
        ClassDepthGrows(g, before, portDepths, equivalentPorts - rest, depth);
        if newDepth.Some? && depth < newDepth.value {
          depth := newDepth.value;
        }
        ClassDepthAppended(g, portDepths, equivalentPorts - rest, depthBefore, j, depth);
        assert equivalentPorts - rest + {j} == equivalentPorts - (rest - {j});
        rest := rest - {j};
      }
      assert equivalentPorts - rest == equivalentPorts;
      NewClassDepth(g, portDepths, i, depth);
      ghost var working := InProgress();
      StoreDepth(equivalentPorts, depth);
      assert portDepths.Keys >= equivalentPorts;
      assert forall v :: v in InProgress() ==> v in working && v !in equivalentPorts;
      return None;
    }

    /** One more than the depth of the source of `j`, a member of the class of `i`, if `j` has a source. */
    method SourceDepth(i: nat, j: nat, ghost entry: set<nat>) returns (loop: Option<nat>, depth: Option<int>)
      requires Ready() && Memo() && i in graph.inputs && j in graph.classOf[i] && j in graph.inputs
      requires InProgress() <= entry + graph.classOf[i] && forall v :: v in entry ==> Reaches(graph, v, i)
      modifies this
      ensures Memo() && Grown(old(portDepths), portDepths) && old(visitedOutputPorts) <= visitedOutputPorts
      ensures loop.Some? ==> OnLoop(graph, loop.value)
      ensures loop.None? ==> InProgress() <= old(InProgress())
      ensures loop.None? ==>
                if j in graph.source then graph.source[j] in portDepths && depth == Some(portDepths[graph.source[j]] + 1)
                else depth == None
      decreases graph.outputs - visitedOutputPorts, 1
    {
      loop := None;
      var source := GetSourceOutputPort(j);
      if source.None? {
        return None, None;
      }
      var o := source.value;
      assert o in Direct(graph, i);
      if o !in portDepths {
        ClassLeadsTo(graph, i, o, entry, InProgress());
        if o in visitedOutputPorts {
          ClosingStep(graph, o, i);
          return Some(o), None;
        }
        loop := ComputeOutputPortDepth(o);
        if loop.Some? {
          return loop, None;
        }
      }
      depth := Some(portDepths[o] + 1);
    }

    method ComputeOutputPortDepth(o: nat) returns (loop: Option<nat>)
      requires Ready() && Memo() && o in graph.outputs && o !in portDepths && o !in visitedOutputPorts
      requires forall v :: v in InProgress() ==> Reaches(graph, v, o)
      modifies this
      ensures Memo() && Grown(old(portDepths), portDepths) && old(visitedOutputPorts) <= visitedOutputPorts
      ensures loop.Some? ==> OnLoop(graph, loop.value)
      ensures loop.None? ==> o in portDepths && InProgress() <= old(InProgress())
      decreases graph.outputs - visitedOutputPorts, 0
    {
      ghost var g, entry := graph, InProgress();
      visitedOutputPorts := visitedOutputPorts + {o};
      var depth := 0;
      var inputPortDependencies := Dependencies(o);
      var rest := inputPortDependencies;
      while rest != {}
        invariant Memo() && Grown(old(portDepths), portDepths) && old(visitedOutputPorts) + {o} <= visitedOutputPorts
        invariant InProgress() <= entry + {o}
        invariant rest <= inputPortDependencies && NeedDepth(portDepths, inputPortDependencies - rest, depth)
        decreases rest
      {
        HasMember(rest);
        var i :| i in rest;
        assert i in Direct(g, o);
        if i !in portDepths {
          OutputLeadsTo(g, o, i, entry, InProgress());
          if i in visitedInputPorts {
            ClosingStep(g, i, o);
            return Some(i);
          }
          loop := ComputeInputPortDepth(i);
          if loop.Some? {
            return;
          }
        }
        if depth < portDepths[i] {
          depth := portDepths[i];
        }
        assert inputPortDependencies - rest + {i} == inputPortDependencies - (rest - {i});
        rest := rest - {i};
      }
      assert inputPortDependencies - rest == inputPortDependencies;
      NewOutputDepth(g, portDepths, o, depth);
      portDepths := portDepths[o := depth];
      return None;
    }

    method EquivalentPorts(i: nat) returns (ports: set<nat>)
      requires Ready() && i in graph.inputs
      ensures ports == graph.classOf[i]
    {
      assert Consulted(i);
      ClassFacts(model, i);
      ports := model.atoms[model.owner[i]].GetEquivalentPorts(i);
    }

    method Dependencies(o: nat) returns (ports: set<nat>)
      requires Ready() && o in graph.outputs
      ensures ports == graph.needs[o]
    {
      assert Consulted(o);
      ports := model.atoms[model.owner[o]].GetInputPortDependencies(o);
    }

    method StoreDepth(ports: set<nat>, depth: int)
      modifies this`portDepths
      ensures portDepths == WithDepth(old(portDepths), ports, depth)
    {
      var rest := ports;
      while rest != {}
        invariant rest <= ports && portDepths == WithDepth(old(portDepths), ports - rest, depth)
        decreases rest
      {
        HasMember(rest);
        var j :| j in rest;
        portDepths, rest := portDepths[j := depth], rest - {j};
      }
    }
  }

  /** `d` with one depth for all of `ports`. */
  ghost function WithDepth(d: Depths, ports: set<nat>, depth: int): Depths
  {
    d + map j | j in ports :: depth
  }

  /** Marks the places where the model itself is looked into. */
  ghost predicate Consulted(p: nat)
  {
    true
  }

  /**
   `g` is the causal graph of the model. Only the methods that look into the model need to
   know what that means, so it is stated for a consulted model.
   */
  ghost predicate Describes(m: Model, g: Graph)
  {
    WellFormed(g) && forall x {:trigger Consulted(x)} :: Consulted(x) ==> Valid(m) && g == GraphOf(m)
  }

  lemma GraphDescribes(m: Model)
    requires Valid(m)
    ensures Describes(m, GraphOf(m))
  {
    GraphIsWellFormed(m);
  }

  /** Known depths never change. */
  ghost predicate Grown(d: Depths, e: Depths)
  {
    forall p :: p in d ==> p in e && e[p] == d[p]
  }

  /** `depth` is the largest source depth plus one among `ports`, or 0. */
  ghost predicate ClassDepth(g: Graph, d: Depths, ports: set<nat>, depth: int)
  {
    && depth >= 0
    && (forall j {:trigger j in ports} :: j in ports && j in g.source ==> g.source[j] in d && d[g.source[j]] + 1 <= depth)
    && (depth == 0 || exists j {:trigger j in ports} ::
          j in ports && j in g.source && g.source[j] in d && depth == d[g.source[j]] + 1)
  }

  /** `depth` is the largest depth among `ports`, or 0. */
  ghost predicate NeedDepth(d: Depths, ports: set<nat>, depth: int)
  {
    && depth >= 0
    && (forall i {:trigger i in ports} :: i in ports ==> i in d && d[i] <= depth)
    && (depth == 0 || exists i {:trigger i in ports} :: i in ports && i in d && depth == d[i])
  }

  lemma ClassDepthGrows(g: Graph, d: Depths, e: Depths, ports: set<nat>, depth: int)
    requires ClassDepth(g, d, ports, depth) && Grown(d, e)
    ensures ClassDepth(g, e, ports, depth)
  {
    if depth != 0 {
      var j :| j in ports && j in g.source && g.source[j] in d && depth == d[g.source[j]] + 1;
      assert g.source[j] in e;
    }
  }

  lemma ClassDepthAppended(g: Graph, d: Depths, ports: set<nat>, depth: int, j: nat, newDepth: int)
    requires ClassDepth(g, d, ports, depth)
    requires j !in g.source ==> newDepth == depth
    requires j in g.source ==> g.source[j] in d && newDepth == Larger(depth, d[g.source[j]] + 1)
    ensures ClassDepth(g, d, ports + {j}, newDepth)
  {
    if newDepth == depth && depth != 0 {
      var k :| k in ports && k in g.source && g.source[k] in d && depth == d[g.source[k]] + 1;
      assert k in ports + {j};
    } else if newDepth != 0 {
      assert j in ports + {j};
    }
  }

  ghost function Larger(x: int, y: int): int
  {
    if x < y then y else x
  }

  lemma ClassLeadsTo(g: Graph, i: nat, o: nat, entry: set<nat>, working: set<nat>)
    requires WellFormed(g) && i in g.inputs && o in Direct(g, i)
    requires working <= entry + g.classOf[i] && forall v :: v in entry ==> Reaches(g, v, i)
    ensures forall v :: v in working ==> Reaches(g, v, o)
    ensures o in working ==> Reaches(g, o, i)
  {
    DirectAlternates(g, i, o);
    forall v | v in working ensures Reaches(g, v, o) {
      if v in entry {
        ReachesStep(g, v, i, o);
      } else {
        ReachesSelf(g, v);
        ReachesStep(g, v, v, o);
      }
    }
  }

  lemma OutputLeadsTo(g: Graph, o: nat, i: nat, entry: set<nat>, working: set<nat>)
    requires WellFormed(g) && o in g.outputs && i in Direct(g, o)
    requires working <= entry + {o} && forall v :: v in entry ==> Reaches(g, v, o)
    ensures forall v :: v in working ==> Reaches(g, v, i)
    ensures i in working ==> Reaches(g, i, o)
  {
    DirectAlternates(g, o, i);
    forall v | v in working ensures Reaches(g, v, i) {
      if v in entry {
        ReachesStep(g, v, o, i);
      } else {
        ReachesSelf(g, o);
        ReachesStep(g, o, o, i);
      }
    }
  }

  lemma EquationGrows(g: Graph, d: Depths, e: Depths, p: nat)
    requires WellFormed(g) && Equation(g, d, p) && Grown(d, e)
    ensures Equation(g, e, p)
  {
    if d[p] != 0 {
      var q :| q in Direct(g, p) && q in d && d[p] == d[q] + Cost(g, p);
      assert q in e;
    }
  }

  /** The equation leaves one value for an output port. */
  lemma OutputDepthIs(g: Graph, d: Depths, o: nat, depth: int)
    requires WellFormed(g) && o in g.outputs && Equation(g, d, o) && NeedDepth(d, g.needs[o], depth)
    ensures d[o] == depth
  {
    if d[o] != 0 {
      var q :| q in Direct(g, o) && q in d && d[o] == d[q] + Cost(g, o);
      assert q in g.needs[o];
    }
    if depth != 0 {
      var i :| i in g.needs[o] && i in d && depth == d[i];
      assert i in Direct(g, o);
    }
  }

  lemma NewOutputDepth(g: Graph, d: Depths, o: nat, depth: int)
    requires WellFormed(g) && Solves(g, d) && o in g.outputs && NeedDepth(d, g.needs[o], depth)
    ensures Solves(g, d[o := depth]) && Grown(d, d[o := depth])
  {
    var e := d[o := depth];
    if o in d {
      assert Equation(g, d, o);
      OutputDepthIs(g, d, o, depth);
    }
    forall p | p in e ensures (p in g.inputs || p in g.outputs) && Equation(g, e, p) {
      if p in d {
        assert Equation(g, d, p);
        EquationGrows(g, d, e, p);
      } else if depth != 0 {
        var i :| i in g.needs[o] && i in d && depth == d[i];
        assert i in Direct(g, o);
      }
    }
  }

  /** The equation leaves one value for the input ports of a class. */
  lemma ClassDepthIs(g: Graph, d: Depths, i: nat, j: nat, depth: int)
    requires WellFormed(g) && i in g.inputs && j in g.classOf[i] && Equation(g, d, j)
    requires ClassDepth(g, d, g.classOf[i], depth)
    ensures d[j] == depth
  {
    if d[j] != 0 {
      var q :| q in Direct(g, j) && q in d && d[j] == d[q] + Cost(g, j);
      var k :| k in g.classOf[j] && k in g.source && g.source[k] == q;
      assert k in g.classOf[i];
    }
    if depth != 0 {
      var k :| k in g.classOf[i] && k in g.source && g.source[k] in d && depth == d[g.source[k]] + 1;
      assert g.source[k] in Direct(g, j);
    }
  }

  lemma NewClassDepth(g: Graph, d: Depths, i: nat, depth: int)
    requires WellFormed(g) && Solves(g, d) && i in g.inputs && ClassDepth(g, d, g.classOf[i], depth)
    ensures var e := WithDepth(d, g.classOf[i], depth); Solves(g, e) && Grown(d, e)
  {
    var e := WithDepth(d, g.classOf[i], depth);
    forall j | j in g.classOf[i] && j in d ensures d[j] == depth {
      assert Equation(g, d, j);
      ClassDepthIs(g, d, i, j, depth);
    }
    forall p | p in e ensures (p in g.inputs || p in g.outputs) && Equation(g, e, p) {
      if p in d {
        assert Equation(g, d, p);
        EquationGrows(g, d, e, p);
      } else {
        NewMemberEquation(g, d, e, i, p, depth);
      }
    }
  }

  lemma NewMemberEquation(g: Graph, d: Depths, e: Depths, i: nat, p: nat, depth: int)
    requires WellFormed(g) && i in g.inputs && p in g.classOf[i] && Grown(d, e) && p in e && e[p] == depth
    requires ClassDepth(g, d, g.classOf[i], depth)
    ensures Equation(g, e, p)
  {
    forall q | q in Direct(g, p) ensures q in e && e[q] + 1 <= depth {
      var k :| k in g.classOf[p] && k in g.source && g.source[k] == q;
      assert k in g.classOf[i] && q in d;
    }
    if depth != 0 {
      var k :| k in g.classOf[i] && k in g.source && g.source[k] in d && depth == d[g.source[k]] + 1;
      assert g.source[k] in Direct(g, p) && g.source[k] in e;
    }
  }
}
