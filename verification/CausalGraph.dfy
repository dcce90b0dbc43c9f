/**
 Causal dependencies between ports, and the depth equations over them.
 An input port depends on the source output of every port in its equivalence class; an
 output port depends on input ports of its accessor.
 */
module CausalGraph {

  datatype Graph = Graph(
    inputs: set<nat>,
    outputs: set<nat>,
    classOf: map<nat, set<nat>>,  // the equivalence class of each input port
    needs: map<nat, set<nat>>,    // the input ports that each output port depends on
    source: map<nat, nat>)        // the source output port of each input port that has one

  ghost predicate WellFormed(g: Graph)
  {
    && g.inputs !! g.outputs
    && g.classOf.Keys == g.inputs && g.needs.Keys == g.outputs
    && (forall i {:trigger g.classOf[i]} :: i in g.inputs ==> i in g.classOf[i] && g.classOf[i] <= g.inputs)
    && (forall i, j {:trigger j in g.classOf[i]} :: i in g.inputs && j in g.classOf[i] ==> g.classOf[j] == g.classOf[i])
    && (forall o :: o in g.outputs ==> g.needs[o] <= g.inputs)
    && (forall i :: i in g.source ==> i in g.inputs && g.source[i] in g.outputs)
  }

  /** The ports that the depth of `p` is computed from. */
  ghost function Direct(g: Graph, p: nat): set<nat>
    requires WellFormed(g)
  {
    if p in g.inputs then set j | j in g.classOf[p] && j in g.source :: g.source[j]
    else if p in g.outputs then g.needs[p]
    else {}
  }

  /** A step from an input port to a source output port counts one. */
  ghost function Cost(g: Graph, p: nat): nat
  {
    if p in g.inputs then 1 else 0
  }

  lemma DirectAlternates(g: Graph, p: nat, q: nat)
    requires WellFormed(g) && q in Direct(g, p)
    ensures p in g.inputs ==> q in g.outputs
    ensures p in g.outputs ==> q in g.inputs
    ensures p in g.inputs || p in g.outputs
  {
  }

  // ----- causal chains and loops -----

  ghost predicate Chain(g: Graph, c: seq<nat>)
    requires WellFormed(g)
  {
    c != [] && (|c| == 1 || (c[1] in Direct(g, c[0]) && Chain(g, c[1..])))
  }

  ghost predicate Connects(g: Graph, c: seq<nat>, p: nat, q: nat)
    requires WellFormed(g)
  {
    Chain(g, c) && c[0] == p && c[|c| - 1] == q
  }

  /** Port `p` depends on itself. */
  ghost predicate OnLoop(g: Graph, p: nat)
    requires WellFormed(g)
  {
    exists c :: |c| >= 2 && Connects(g, c, p, p)
  }

  ghost predicate Acyclic(g: Graph)
    requires WellFormed(g)
  {
    forall p :: !OnLoop(g, p)
  }

  /** `q` can be reached from `p` by zero or more steps. */
  ghost predicate Reaches(g: Graph, p: nat, q: nat)
    requires WellFormed(g)
  {
    exists c :: Connects(g, c, p, q)
  }

  lemma ReachesSelf(g: Graph, p: nat)
    requires WellFormed(g)
    ensures Reaches(g, p, p)
  {
    assert Connects(g, [p], p, p);
  }

  lemma {:induction false} ChainExtends(g: Graph, c: seq<nat>, r: nat)
    requires WellFormed(g) && Chain(g, c) && r in Direct(g, c[|c| - 1])
    ensures Chain(g, c + [r])
  {
    if |c| == 1 {
      assert (c + [r])[1..] == [r];
    } else {
      ChainExtends(g, c[1..], r);
      assert (c + [r])[1..] == c[1..] + [r];
    }
  }

  lemma ReachesStep(g: Graph, p: nat, q: nat, r: nat)
    requires WellFormed(g) && Reaches(g, p, q) && r in Direct(g, q)
    ensures Reaches(g, p, r)
  {
    var c :| Connects(g, c, p, q);
    ChainExtends(g, c, r);
    assert Connects(g, c + [r], p, r);
  }

  lemma ClosingStep(g: Graph, p: nat, q: nat)
    requires WellFormed(g) && Reaches(g, p, q) && p in Direct(g, q)
    ensures OnLoop(g, p)
  {
    var c :| Connects(g, c, p, q);
    ChainExtends(g, c, p);
    assert |c + [p]| >= 2 && Connects(g, c + [p], p, p);
  }

  /** How many steps of the chain go from an input port to a source. */
  ghost function Hops(g: Graph, c: seq<nat>): nat
  {
    if |c| <= 1 then 0 else Cost(g, c[0]) + Hops(g, c[1..])
  }

  // ----- the depth equations -----

  type Depths = map<nat, int>

  /**
   The documented equation at port `p`: the depth is the largest depth of a port it directly
   depends on (plus one across a connection), or 0 if there is none.
   */
  ghost predicate Equation(g: Graph, d: Depths, p: nat)
    requires WellFormed(g)
  {
    && p in d && d[p] >= 0
    && (forall q {:trigger q in Direct(g, p)} :: q in Direct(g, p) ==> q in d && d[q] + Cost(g, p) <= d[p])
    && (d[p] == 0 || exists q {:trigger q in Direct(g, p)} ::
          q in Direct(g, p) && q in d && d[p] == d[q] + Cost(g, p))
  }

  /** `d` solves the equations wherever it is defined. */
  ghost predicate Solves(g: Graph, d: Depths)
    requires WellFormed(g)
  {
    forall p {:trigger Equation(g, d, p)} :: p in d ==> (p in g.inputs || p in g.outputs) && Equation(g, d, p)
  }

  ghost predicate Solution(g: Graph, d: Depths)
    requires WellFormed(g)
  {
    Solves(g, d) && d.Keys == g.inputs + g.outputs
  }

  lemma {:induction false} NotDeeper(g: Graph, d: Depths, e: Depths, p: nat)
    requires WellFormed(g) && Solves(g, d) && Solves(g, e) && p in d && p in e
    ensures e[p] <= d[p]
    decreases d[p], p in g.outputs
  {
    assert Equation(g, d, p) && Equation(g, e, p);
    if e[p] != 0 {
      var q :| q in Direct(g, p) && q in e && e[p] == e[q] + Cost(g, p);
      DirectAlternates(g, p, q);
      assert Equation(g, d, q);
      NotDeeper(g, d, e, q);
    }
  }

  /** The equations have at most one solution, even where only part of the ports is covered. */
  lemma SolutionIsUnique(g: Graph, d: Depths, e: Depths, p: nat)
    requires WellFormed(g) && Solves(g, d) && Solves(g, e) && p in d && p in e
    ensures d[p] == e[p]
  {
    NotDeeper(g, d, e, p);
    NotDeeper(g, e, d, p);
  }

  /** No causal chain from a port is longer than its depth. */
  lemma {:induction false} ChainsAreBounded(g: Graph, d: Depths, c: seq<nat>)
    requires WellFormed(g) && Solves(g, d) && Chain(g, c) && c[0] in d
    ensures c[|c| - 1] in d && Hops(g, c) + d[c[|c| - 1]] <= d[c[0]] && d[c[|c| - 1]] >= 0
    decreases |c|
  {
    assert Equation(g, d, c[0]);
    if |c| > 1 {
      var rest := c[1..];
      var q := c[1];
      assert q in Direct(g, c[0]) && q in d && d[q] + Cost(g, c[0]) <= d[c[0]];
      assert rest[0] == q && rest[|rest| - 1] == c[|c| - 1];
      ChainsAreBounded(g, d, rest);
    }
  }

  /** Some causal chain from a port is as long as its depth. */
  lemma {:induction false} LongestChain(g: Graph, d: Depths, p: nat) returns (c: seq<nat>)
    requires WellFormed(g) && Solves(g, d) && p in d
    ensures Chain(g, c) && c[0] == p && Hops(g, c) == d[p]
    decreases d[p], p in g.outputs
  {
    assert Equation(g, d, p);
    if d[p] == 0 {
      c := [p];
    } else {
      var q :| q in Direct(g, p) && q in d && d[p] == d[q] + Cost(g, p);
      DirectAlternates(g, p, q);
      assert Equation(g, d, q);
      var rest := LongestChain(g, d, q);
      c := [p] + rest;
      assert c[1..] == rest;
    }
  }

  /** Every loop crosses a connection. */
  lemma LoopHasHop(g: Graph, c: seq<nat>, p: nat)
    requires WellFormed(g) && |c| >= 2 && Connects(g, c, p, p)
    ensures Hops(g, c) >= 1
  {
    DirectAlternates(g, c[0], c[1]);
    if |c| > 2 {
      var rest := c[1..];
      assert Chain(g, rest) && rest[0] == c[1] && rest[1] == c[2];
      DirectAlternates(g, c[1], c[2]);
    }
  }

  /** A port with a depth is not on a loop: the depth would exceed itself. */
  lemma SolvedIsNotOnLoop(g: Graph, d: Depths, p: nat)
    requires WellFormed(g) && Solves(g, d) && p in d
    ensures !OnLoop(g, p)
  {
    forall c | Chain(g, c) && c[0] == p ensures Hops(g, c) == 0 || c[|c| - 1] != p {
      ChainsAreBounded(g, d, c);
    }
    forall c | |c| >= 2 && Connects(g, c, p, p) ensures Hops(g, c) >= 1 {
      LoopHasHop(g, c, p);
    }
  }

  /** A port on a loop is an input or an output port of the model. */
  lemma LoopIsInside(g: Graph, p: nat)
    requires WellFormed(g) && OnLoop(g, p)
    ensures p in g.inputs || p in g.outputs
  {
    var c :| |c| >= 2 && Connects(g, c, p, p);
    DirectAlternates(g, c[0], c[1]);
  }

  lemma SolvedIsAcyclic(g: Graph, d: Depths)
    requires WellFormed(g) && Solution(g, d)
    ensures Acyclic(g)
  {
    forall p ensures !OnLoop(g, p) {
      if p in d {
        SolvedIsNotOnLoop(g, d, p);
      } else if OnLoop(g, p) {
        LoopIsInside(g, p);
      }
    }
  }
}
