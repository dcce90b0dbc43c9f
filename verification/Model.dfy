/**
 A model as the host sees it: atomic accessors with their ports, composite accessors that
 only pass events on, and the links between ports. From it come the source of each input
 port, found by walking up through composite ports, and the causal graph.
 */
module Models {
  import opened Wiring
  import opened Dependencies
  import opened CausalGraph

  datatype Model = Model(
    atoms: map<nat, PortDependencies>,  // the ports of each atomic accessor
    owner: map<nat, nat>,               // the accessor of each port
    wires: Wires<nat>)

  /** Where a walk along source links through composite ports leads. */
  datatype Walk = Found(port: nat) | Unconnected | Endless

  /** Ports of composite accessors. */
  function CompositePorts(m: Model): set<nat>
  {
    set p | p in m.owner && m.owner[p] !in m.atoms
  }

  function InputsOf(m: Model): set<nat>
  {
    set a, i | a in m.atoms && i in m.atoms[a].inputs :: i
  }

  function OutputsOf(m: Model): set<nat>
  {
    set a, o | a in m.atoms && o in m.atoms[a].outputs :: o
  }

  /** The walk from `p`, having passed the ports in `seen`. */
  function WalkUp(m: Model, p: nat, seen: set<nat>): Walk
    decreases CompositePorts(m) - seen
  {
    if p !in CompositePorts(m) then Found(p)
    else if p in seen then Endless
    else if p !in m.wires.source then Unconnected
    else WalkUp(m, m.wires.source[p], seen + {p})
  }

  /** The port of an atomic accessor that feeds `i`. */
  function SourceOf(m: Model, i: nat): Walk
  {
    if i in m.wires.source then WalkUp(m, m.wires.source[i], {}) else Unconnected
  }

  /** Ports belong to the accessor that lists them, and none is both an input and an output. */
  ghost predicate PortsAgree(m: Model)
  {
    && (forall a {:trigger m.atoms[a].Valid()} :: a in m.atoms ==> m.atoms[a].Valid())
    && (forall a, p :: a in m.atoms && p in m.atoms[a].inputs ==> p in m.owner && m.owner[p] == a)
    && (forall a, p :: a in m.atoms && p in m.atoms[a].outputs ==> p in m.owner && m.owner[p] == a)
    && InputsOf(m) !! OutputsOf(m)
    && (forall p {:trigger p in OutputsOf(m)} ::
          p in m.owner && m.owner[p] in m.atoms ==> p in InputsOf(m) || p in OutputsOf(m))
  }

  /** Links join ports of the model; an atomic accessor connects its inputs to its own outputs only. */
  ghost predicate LinksAgree(m: Model)
  {
    && (forall d :: d in m.wires.source ==> d in m.owner && m.wires.source[d] in m.owner)
    && (forall d :: d in m.wires.source && m.wires.source[d] in InputsOf(m) ==>
          d in OutputsOf(m) && m.owner[d] == m.owner[m.wires.source[d]])
  }

  ghost predicate Valid(m: Model)
  {
    && PortsAgree(m) && LinksAgree(m)
    // chains of composite ports end
    && (forall i :: i in InputsOf(m) ==> SourceOf(m, i) != Endless)
  }

  lemma {:induction false} WalkEndsAtOutput(m: Model, p: nat, seen: set<nat>)
    requires Valid(m) && p in m.owner && p !in InputsOf(m)
    requires WalkUp(m, p, seen).Found?
    ensures WalkUp(m, p, seen).port in OutputsOf(m)
    decreases CompositePorts(m) - seen
  {
    if p in CompositePorts(m) {
      WalkEndsAtOutput(m, m.wires.source[p], seen + {p});
    } else {
      assert p in InputsOf(m) || p in OutputsOf(m);
    }
  }

  lemma SourceIsOutput(m: Model, i: nat)
    requires Valid(m) && i in InputsOf(m) && SourceOf(m, i).Found?
    ensures SourceOf(m, i).port in OutputsOf(m)
  {
    WalkEndsAtOutput(m, m.wires.source[i], {});
  }

  ghost function GraphOf(m: Model): Graph
    requires Valid(m)
  {
    Graph(
      InputsOf(m),
      OutputsOf(m),
      map i | i in InputsOf(m) :: m.atoms[m.owner[i]].EquivalenceClass(i),
      map o | o in OutputsOf(m) :: m.atoms[m.owner[o]].InputsOf(o),
      map i | i in InputsOf(m) && SourceOf(m, i).Found? :: SourceOf(m, i).port)
  }

  /** A class stays within one accessor, and is the class of each of its members. */
  lemma ClassFacts(m: Model, i: nat)
    requires Valid(m) && i in InputsOf(m)
    ensures m.owner[i] in m.atoms && i in m.atoms[m.owner[i]].inputs
    ensures var c := m.atoms[m.owner[i]].EquivalenceClass(i);
      i in c && forall j :: j in c ==>
        j in InputsOf(m) && m.owner[j] == m.owner[i] && m.atoms[m.owner[j]].EquivalenceClass(j) == c
  {
    var ports := m.atoms[m.owner[i]];
    ports.ClassesPartition(i, i);
    forall j | j in ports.EquivalenceClass(i)
      ensures j in InputsOf(m) && m.owner[j] == m.owner[i] && ports.EquivalenceClass(j) == ports.EquivalenceClass(i)
    {
      ports.ClassesPartition(i, j);
    }
  }

  lemma ClassesAreWellFormed(m: Model)
    requires Valid(m)
    ensures var g := GraphOf(m);
      && (forall i :: i in g.inputs ==> i in g.classOf[i] && g.classOf[i] <= g.inputs)
      && (forall i, j :: i in g.inputs && j in g.classOf[i] ==> j in g.classOf && g.classOf[j] == g.classOf[i])
  {
    forall i | i in InputsOf(m)
      ensures var c := GraphOf(m).classOf[i];
        i in c && c <= InputsOf(m) && forall j :: j in c ==> GraphOf(m).classOf[j] == c
    {
      ClassFacts(m, i);
    }
  }

  lemma SourcesAreOutputs(m: Model)
    requires Valid(m)
    ensures forall i :: i in GraphOf(m).source ==> i in InputsOf(m) && GraphOf(m).source[i] in OutputsOf(m)
  {
    forall i | i in GraphOf(m).source ensures GraphOf(m).source[i] in OutputsOf(m) {
      SourceIsOutput(m, i);
    }
  }

  lemma NeedsAreInputs(m: Model)
    requires Valid(m)
    ensures forall o :: o in OutputsOf(m) ==> GraphOf(m).needs[o] <= InputsOf(m)
  {
  }

  lemma GraphInputs(m: Model)
    requires Valid(m)
    ensures var g := GraphOf(m); g.classOf.Keys == g.inputs == InputsOf(m)
  {
  }

  lemma GraphOutputs(m: Model)
    requires Valid(m)
    ensures var g := GraphOf(m); g.needs.Keys == g.outputs == OutputsOf(m)
  {
  }

  lemma PortsAreDisjoint(m: Model)
    requires Valid(m)
    ensures InputsOf(m) !! OutputsOf(m)
  {
  }

  lemma GraphIsWellFormed(m: Model)
    requires Valid(m)
    ensures WellFormed(GraphOf(m))
  {
    ClassesAreWellFormed(m);
    SourcesAreOutputs(m);
    NeedsAreInputs(m);
    PortsAreDisjoint(m);
    GraphInputs(m);
    GraphOutputs(m);
    Assembled(GraphOf(m));
  }

  lemma Assembled(g: Graph)
    requires g.inputs !! g.outputs && g.classOf.Keys == g.inputs && g.needs.Keys == g.outputs
    requires forall i :: i in g.inputs ==> i in g.classOf[i] && g.classOf[i] <= g.inputs
    requires forall i, j :: i in g.inputs && j in g.classOf[i] ==> j in g.classOf && g.classOf[j] == g.classOf[i]
    requires forall i :: i in g.source ==> i in g.inputs && g.source[i] in g.outputs
    requires forall o :: o in g.outputs ==> g.needs[o] <= g.inputs
    ensures WellFormed(g)
  {
  }

  // ----- the loop that walks up -----

  /** The loop from port `p` stops here: the port is no composite's, or nothing feeds it. */
  predicate Stops(m: Model, p: nat)
  {
    p !in CompositePorts(m) || p !in m.wires.source
  }

  /** The loop from `p` stops after exactly `n` passes. */
  predicate StopsAfter(m: Model, p: nat, n: nat)
    decreases n
  {
    if Stops(m, p) then n == 0 else n > 0 && StopsAfter(m, m.wires.source[p], n - 1)
  }

  lemma {:induction false} StopsOnce(m: Model, p: nat, n: nat, k: nat)
    requires StopsAfter(m, p, n) && StopsAfter(m, p, k)
    ensures n == k
    decreases n
  {
    if !Stops(m, p) {
      StopsOnce(m, m.wires.source[p], n - 1, k - 1);
    }
  }

  /** It stops after some number of passes, more than `n`. */
  ghost predicate StopsLater(m: Model, p: nat, n: int)
  {
    exists k: nat :: k > n && StopsAfter(m, p, k)
  }

  ghost predicate LoopEnds(m: Model, p: nat)
  {
    exists n: nat :: StopsAfter(m, p, n)
  }

  /** Ports passed before would take longer, so none of them is met again. */
  lemma {:induction false} StoppingIsFound(m: Model, p: nat, n: nat, seen: set<nat>)
    requires StopsAfter(m, p, n) && forall q :: q in seen ==> StopsLater(m, q, n)
    ensures WalkUp(m, p, seen) != Endless
    decreases n
  {
    if p in seen {
      var k: nat :| k > n && StopsAfter(m, p, k);
      StopsOnce(m, p, n, k);
    } else if !Stops(m, p) {
      forall q | q in seen + {p} ensures StopsLater(m, q, n - 1) {
        if q != p {
          var k: nat :| k > n && StopsAfter(m, q, k);
        }
      }
      StoppingIsFound(m, m.wires.source[p], n - 1, seen + {p});
    }
  }

  lemma {:induction false} FoundIsStopping(m: Model, p: nat, seen: set<nat>)
    requires WalkUp(m, p, seen) != Endless
    ensures LoopEnds(m, p)
    decreases CompositePorts(m) - seen
  {
    if Stops(m, p) {
      assert StopsAfter(m, p, 0);
    } else {
      FoundIsStopping(m, m.wires.source[p], seen + {p});
      var n: nat :| StopsAfter(m, m.wires.source[p], n);
      assert StopsAfter(m, p, n + 1);
    }
  }

  /** The loop ends if and only if the chain of composite ports above `p` is not a cycle. */
  lemma LoopEndsExactly(m: Model, p: nat)
    ensures LoopEnds(m, p) <==> WalkUp(m, p, {}) != Endless
  {
    if LoopEnds(m, p) {
      var n: nat :| StopsAfter(m, p, n);
      StoppingIsFound(m, p, n, {});
    } else if WalkUp(m, p, {}) != Endless {
      FoundIsStopping(m, p, {});
    }
  }

  /**
   Composite 5 connects its input 20 to its output 21, the output back to the input, and the
   input to the input 10 of its child 1.
   */
  function FedBack(): Model
  {
    Model(
      map[1 := PortDependencies([10], [], map[], map[])],
      map[10 := 1, 20 := 5, 21 := 5],
      ApplyAll(Wires(map[], map[]), {}, [Connect(20, 21), Connect(21, 20), Connect(20, 10)]))
  }

  lemma FedBackLinks(w: Wires<nat>)
    requires w == ApplyAll(Wires(map[], map[]), {}, [Connect(20, 21), Connect(21, 20), Connect(20, 10)])
    ensures w.source == map[21 := 20, 20 := 21, 10 := 20]
  {
    var none: Wires<nat> := Wires(map[], map[]);
    var a, b, c: Link<nat> := Connect(20, 21), Connect(21, 20), Connect(20, 10);
    assert [a, b, c][1..] == [b, c] && [b, c][1..] == [c] && [c][1..] == [];
    var v := Apply(none, {}, a);
    var u := Apply(v, {}, b);
    assert ApplyAll(none, {}, [a, b, c]) == ApplyAll(v, {}, [b, c]) == ApplyAll(u, {}, [c]);
    assert ApplyAll(u, {}, [c]) == ApplyAll(Apply(u, {}, c), {}, []) == Apply(u, {}, c);
  }

  lemma {:induction false} FedBackNeverStops(m: Model, p: nat, n: nat)
    requires m.wires.source == map[21 := 20, 20 := 21, 10 := 20] && m.owner == map[10 := 1, 20 := 5, 21 := 5]
    requires m.atoms.Keys == {1} && (p == 20 || p == 21)
    ensures !StopsAfter(m, p, n)
    decreases n
  {
    if n > 0 {
      FedBackNeverStops(m, m.wires.source[p], n - 1);
    }
  }

  /** Three connections that no check refuses, and the loop from input 10 never ends. */
  lemma FedBackIsEndless(m: Model)
    requires m == FedBack()
    ensures PortsAgree(m) && LinksAgree(m) && SourceOf(m, 10) == Endless
    ensures 10 in InputsOf(m) && 10 in m.wires.source && !LoopEnds(m, m.wires.source[10])
  {
    FedBackLinks(m.wires);
    assert 10 in m.atoms[1].inputs && m.atoms[1].Valid();
    assert InputsOf(m) == {10} && OutputsOf(m) == {};
    if LoopEnds(m, 20) {
      var n: nat :| StopsAfter(m, 20, n);
      FedBackNeverStops(m, 20, n);
    }
    LoopEndsExactly(m, 20);
  }

  // ----- models without composite ports -----

  ghost predicate FlatAtom(m: Model, a: nat)
  {
    && a in m.atoms && m.atoms[a].Valid()
    && (forall p :: p in m.atoms[a].inputs ==> p in m.owner && m.owner[p] == a && p !in m.atoms[a].outputs)
    && (forall p :: p in m.atoms[a].outputs ==> p in m.owner && m.owner[p] == a)
  }

  predicate FlatPort(m: Model, p: nat)
  {
    && p in m.owner && m.owner[p] in m.atoms
    && (p in m.atoms[m.owner[p]].inputs || p in m.atoms[m.owner[p]].outputs)
  }

  predicate FlatLink(m: Model, p: nat, d: nat)
  {
    && d in m.owner && m.owner[d] in m.atoms && d in m.atoms[m.owner[d]].inputs
    && p in m.owner && m.owner[p] in m.atoms && p in m.atoms[m.owner[p]].outputs
  }

  /** All ports belong to atomic accessors, and links go from outputs to inputs. */
  ghost predicate Flat(m: Model)
  {
    && (forall a {:trigger m.atoms[a]} :: a in m.atoms ==> FlatAtom(m, a))
    && (forall p {:trigger m.owner[p]} :: p in m.owner ==> FlatPort(m, p))
    && (forall d {:trigger m.wires.source[d]} :: d in m.wires.source ==> FlatLink(m, m.wires.source[d], d))
  }

  lemma FlatPortsAgree(m: Model)
    requires Flat(m)
    ensures PortsAgree(m)
  {
    forall p | p in InputsOf(m) ensures p !in OutputsOf(m) {
      var a :| a in m.atoms && p in m.atoms[a].inputs;
    }
    forall p {:trigger p in OutputsOf(m)} | p in m.owner && m.owner[p] in m.atoms
      ensures p in InputsOf(m) || p in OutputsOf(m)
    {
      var a := m.owner[p];
      assert p in m.atoms[a].inputs || p in m.atoms[a].outputs;
    }
  }

  lemma FlatOutput(m: Model, p: nat)
    requires Flat(m) && p in m.owner && m.owner[p] in m.atoms && p in m.atoms[m.owner[p]].outputs
    ensures p !in InputsOf(m)
  {
    forall a | a in m.atoms && p in m.atoms[a].inputs ensures m.owner[p] == a {
      assert FlatAtom(m, a);
    }
  }

  lemma FlatLinksAgree(m: Model)
    requires Flat(m)
    ensures LinksAgree(m)
  {
    forall d | d in m.wires.source ensures FlatLink(m, m.wires.source[d], d) && m.wires.source[d] !in InputsOf(m) {
      FlatOutput(m, m.wires.source[d]);
    }
  }

  /** Its sources are what the links say. */
  lemma FlatSource(m: Model, i: nat)
    requires Flat(m)
    ensures SourceOf(m, i) == if i in m.wires.source then Found(m.wires.source[i]) else Unconnected
  {
    if i in m.wires.source {
      assert FlatLink(m, m.wires.source[i], i);
    }
  }

  lemma FlatIsValid(m: Model)
    requires Flat(m)
    ensures Valid(m)
  {
    FlatPortsAgree(m);
    FlatLinksAgree(m);
    forall i | i in InputsOf(m) ensures SourceOf(m, i) != Endless {
      FlatSource(m, i);
    }
  }
}
