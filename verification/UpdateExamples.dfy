/**
 Two model updates whose renaming of callbacks goes wrong: one removes an accessor, the other
 adds one. Both are followed from the model, through the port depths and the order of the
 accessors, to the callbacks in the Director's table.
 */
module UpdateExamples {
  import opened Dependencies
  import opened CausalGraph
  import opened Models
  import opened Wiring
  import opened DepthSearch
  import opened AccessorOrder
  import opened Priorities
  import opened PriorityLaws
  import opened Renaming
  import opened ModelUpdates
  import D = DirectorState

  /** Ports of an atomic accessor, all outputs depending on all inputs. */
  function Unpruned(inputs: seq<nat>, outputs: seq<nat>): PortDependencies
  {
    PortDependencies(inputs, outputs, map[], map[])
  }

  lemma UnprunedIsValid(inputs: seq<nat>, outputs: seq<nat>)
    requires |inputs| <= 1 && |outputs| <= 1
    ensures Unpruned(inputs, outputs).Valid()
  {
  }

  lemma UnprunedDependencies(i: nat, o: nat)
    ensures Unpruned([i], [o]).InputsOf(o) == {i} && Unpruned([], [o]).InputsOf(o) == {}
  {
    assert Unpruned([i], [o]).Depends(o, i);
  }

  lemma SingleClass(ports: PortDependencies, i: nat)
    requires ports.Valid() && ports.inputs == [i]
    ensures ports.EquivalenceClass(i) == {i}
  {
    ports.ClassesPartition(i, i);
  }

  // ----- depths of accessors with one port or none -----

  lemma DescribedInput(m: Model, g: Graph, i: nat)
    requires Describes(m, g) && i in InputsOf(m)
    ensures i in g.inputs && i in m.owner && m.owner[i] in m.atoms
    ensures g.classOf[i] == m.atoms[m.owner[i]].EquivalenceClass(i)
    ensures i in g.source <==> SourceOf(m, i).Found?
    ensures i in g.source ==> g.source[i] == SourceOf(m, i).port
  {
    assert Consulted(i);
    ClassFacts(m, i);
  }

  lemma DescribedOutput(m: Model, g: Graph, o: nat)
    requires Describes(m, g) && o in OutputsOf(m)
    ensures o in g.outputs && o in m.owner && m.owner[o] in m.atoms
    ensures g.needs[o] == m.atoms[m.owner[o]].InputsOf(o)
  {
    assert Consulted(o);
  }

  /** The depth of an input that is alone in its class: one more than its source's, or 0 without a source. */
  lemma InputDepth(g: Graph, d: Depths, i: nat)
    requires WellFormed(g) && Solution(g, d) && i in g.inputs && g.classOf[i] == {i}
    ensures i in d
    ensures if i in g.source then g.source[i] in d && d[i] == d[g.source[i]] + 1 else d[i] == 0
  {
    assert Equation(g, d, i);
    if i in g.source {
      assert g.source[i] in Direct(g, i);
      assert Equation(g, d, g.source[i]);
    }
    assert Direct(g, i) == if i in g.source then {g.source[i]} else {};
  }

  /** The depth of an output: that of the only input it depends on, or 0 if it depends on none. */
  lemma OutputDepth(g: Graph, d: Depths, o: nat)
    requires WellFormed(g) && Solution(g, d) && o in g.outputs
    ensures o in d && (g.needs[o] == {} ==> d[o] == 0)
    ensures forall i :: g.needs[o] == {i} ==> i in d && d[o] == d[i]
  {
    assert Equation(g, d, o);
    forall i | g.needs[o] == {i} ensures i in d && d[o] == d[i] {
      assert i in Direct(g, o);
      assert Equation(g, d, i);
    }
  }

  lemma FoldOne(d: Depths, p: nat)
    ensures Least(d, [p]) == Min(INT_MAX, DepthAt(d, p)) && Greatest(d, [p]) == Max(0, DepthAt(d, p))
    ensures Greatest(d, []) == 0
  {
    assert [p][..0] == [];
  }

  /** An accessor with one spontaneous output and no inputs. */
  lemma SourceDepth(m: Model, g: Graph, d: Depths, a: nat, o: nat)
    requires Describes(m, g) && Solution(g, d) && a in m.atoms && m.atoms[a] == Unpruned([], [o])
    ensures o in d && d[o] == 0 && AtomDepth(m, d, a) == 0
  {
    assert o in m.atoms[a].outputs;
    DescribedOutput(m, g, o);
    UnprunedDependencies(o, o);
    PortsHaveOwner(m, g, a, o);
    OutputDepth(g, d, o);
    FoldOne(d, o);
  }

  lemma PortsHaveOwner(m: Model, g: Graph, a: nat, p: nat)
    requires Describes(m, g) && a in m.atoms && (p in m.atoms[a].inputs || p in m.atoms[a].outputs)
    ensures p in m.owner && m.owner[p] == a && m.atoms[a].Valid()
  {
    assert Consulted(p);
  }

  /** The only input of an accessor. */
  lemma LoneInputDepth(m: Model, g: Graph, d: Depths, a: nat, i: nat)
    requires Describes(m, g) && Solution(g, d) && a in m.atoms && m.atoms[a].inputs == [i]
    ensures i in d
    ensures match SourceOf(m, i)
      case Found(o) => o in d && d[i] == d[o] + 1
      case _ => d[i] == 0
  {
    assert i in m.atoms[a].inputs;
    DescribedInput(m, g, i);
    PortsHaveOwner(m, g, a, i);
    SingleClass(m.atoms[a], i);
    InputDepth(g, d, i);
  }

  /** An accessor with one input and no outputs. */
  lemma SinkDepth(m: Model, g: Graph, d: Depths, a: nat, i: nat)
    requires Describes(m, g) && Solution(g, d) && a in m.atoms && m.atoms[a] == Unpruned([i], [])
    ensures i in d && AtomDepth(m, d, a) == d[i]
  {
    LoneInputDepth(m, g, d, a, i);
    FoldOne(d, i);
    assert Equation(g, d, i);
  }

  /** An accessor with one input and one output that depends on it. */
  lemma RelayDepth(m: Model, g: Graph, d: Depths, a: nat, i: nat, o: nat)
    requires Describes(m, g) && Solution(g, d) && a in m.atoms && m.atoms[a] == Unpruned([i], [o])
    ensures i in d && o in d && d[o] == d[i] && AtomDepth(m, d, a) == Min(INT_MAX, d[i])
  {
    LoneInputDepth(m, g, d, a, i);
    assert o in m.atoms[a].outputs;
    DescribedOutput(m, g, o);
    PortsHaveOwner(m, g, a, o);
    UnprunedDependencies(i, o);
    OutputDepth(g, d, o);
    FoldOne(d, o);
  }

  /** An accessor that another one feeds. */
  lemma FedDepth(m: Model, g: Graph, d: Depths, a: nat, i: nat, b: nat, o: nat)
    requires Describes(m, g) && Solution(g, d) && SourceOf(m, i) == Found(o)
    requires a in m.atoms && m.atoms[a] == Unpruned([i], []) && b in m.atoms && m.atoms[b] == Unpruned([], [o])
    ensures AtomDepth(m, d, a) == 1 && AtomDepth(m, d, b) == 0
  {
    SourceDepth(m, g, d, b, o);
    SinkDepth(m, g, d, a, i);
    LoneInputDepth(m, g, d, a, i);
  }

  lemma UnfedDepth(m: Model, g: Graph, d: Depths, a: nat, i: nat)
    requires Describes(m, g) && Solution(g, d) && SourceOf(m, i) == Unconnected
    requires a in m.atoms && m.atoms[a] == Unpruned([i], [])
    ensures AtomDepth(m, d, a) == 0
  {
    SinkDepth(m, g, d, a, i);
    LoneInputDepth(m, g, d, a, i);
  }

  // ----- orders and values of a few accessors -----

  lemma VisitAppend(m: Model, d: Depths, children: seq<Accessor>, a: nat)
    ensures var before := VisitAll(m, d, children, 0);
      VisitAll(m, d, children + [Atomic(a)], 0) == before + [Entry(a, AtomDepth(m, d, a), false, |before|)]
    ensures ChildrenDepth(m, d, children + [Atomic(a)]) == Min(ChildrenDepth(m, d, children), AtomDepth(m, d, a))
  {
    assert (children + [Atomic(a)])[..|children|] == children;
  }

  lemma VisitTwo(m: Model, d: Depths, host: nat, a: nat, b: nat)
    ensures var depth := Min(Min(INT_MAX, AtomDepth(m, d, a)), AtomDepth(m, d, b));
      Visit(m, d, Composite(host, [Atomic(a), Atomic(b)]), 0)
      == [Entry(a, AtomDepth(m, d, a), false, 0), Entry(b, AtomDepth(m, d, b), false, 1), Entry(host, depth, true, 2)]
  {
    VisitAppend(m, d, [], a);
    VisitAppend(m, d, [Atomic(a)], b);
    assert [] + [Atomic(a)] == [Atomic(a)] && [Atomic(a)] + [Atomic(b)] == [Atomic(a), Atomic(b)];
  }

  lemma VisitThree(m: Model, d: Depths, host: nat, a: nat, b: nat, c: nat)
    ensures var depth := Min(Min(Min(INT_MAX, AtomDepth(m, d, a)), AtomDepth(m, d, b)), AtomDepth(m, d, c));
      Visit(m, d, Composite(host, [Atomic(a), Atomic(b), Atomic(c)]), 0)
      == [Entry(a, AtomDepth(m, d, a), false, 0), Entry(b, AtomDepth(m, d, b), false, 1),
          Entry(c, AtomDepth(m, d, c), false, 2), Entry(host, depth, true, 3)]
  {
    var two, three := [Atomic(a), Atomic(b)], [Atomic(a), Atomic(b), Atomic(c)];
    VisitTwo(m, d, host, a, b);
    VisitAppend(m, d, two, c);
    assert two + [Atomic(c)] == three;
    var v := Visit(m, d, Composite(host, two), 0);
    assert v[..2] == VisitAll(m, d, two, 0) && v[2].depth == ChildrenDepth(m, d, two);
  }

  /** Accessors whose depths stay below their places get the values 1, 2, 3 and so on. */
  lemma {:induction false} PlacesAreValues(order: seq<Entry>, priorities: map<nat, int>, k: nat)
    requires Given(order, priorities) && k < |order|
    requires forall j :: 0 <= j < |order| ==> order[j].depth <= HOST_PRIORITY + j
    ensures order[k].id in priorities && priorities[order[k].id] == HOST_PRIORITY + k
    ensures Values(order, HOST_PRIORITY)[k] == HOST_PRIORITY + k
  {
    ValuesStep(order, HOST_PRIORITY, k);
    assert order[k].id in priorities;
    if k > 0 {
      PlacesAreValues(order, priorities, k - 1);
    }
  }

  /** What the Director is told about such accessors. */
  lemma PlacesAreChanges(was: map<nat, int>, order: seq<Entry>, priorities: map<nat, int>)
    requires Given(order, priorities)
    requires forall j :: 0 <= j < |order| ==> order[j].depth <= HOST_PRIORITY + j
    ensures |Changes(was, order)| == |order|
    ensures forall k {:trigger Changes(was, order)[k]} :: 0 <= k < |order| ==>
              Changes(was, order)[k] == Change(PriorityIn(was, order[k].id), HOST_PRIORITY + k)
  {
    ChangesFollowOrder(was, order);
    forall k {:trigger Changes(was, order)[k]} | 0 <= k < |order|
      ensures Changes(was, order)[k] == Change(PriorityIn(was, order[k].id), HOST_PRIORITY + k)
    {
      PlacesAreValues(order, priorities, k);
    }
  }

  /** Three children of host 0, visited in turn. */
  const THREE: Accessor := Composite(0, [Atomic(1), Atomic(2), Atomic(3)])

  const TWO: Accessor := Composite(0, [Atomic(1), Atomic(2)])

  /** The order is the sorted arrangement of the accessors that were met. */
  lemma OrderIs(m: Model, d: Depths, t: Accessor, order: seq<Entry>, priorities: map<nat, int>, sorted: seq<Entry>)
    requires Assigned(m, d, t, order, priorities) && SortedEntries(sorted)
    requires forall e :: e in sorted <==> e in Visit(m, d, t, 0)
    ensures order == sorted
  {
    SortedEntriesAreUnique(order, sorted);
  }

  // ----- a removal -----

  /** Accessor 3 feeds accessor 1. */
  ghost predicate BeforeRemoval(m: Model)
  {
    && 1 in m.atoms && m.atoms[1] == Unpruned([10], []) && SourceOf(m, 10) == Found(30)
    && 2 in m.atoms && m.atoms[2] == Unpruned([], [])
    && 3 in m.atoms && m.atoms[3] == Unpruned([], [30])
  }

  /** The same without accessor 3. */
  ghost predicate AfterRemoval(m: Model)
  {
    && 1 in m.atoms && m.atoms[1] == Unpruned([10], []) && SourceOf(m, 10) == Unconnected
    && 2 in m.atoms && m.atoms[2] == Unpruned([], [])
  }

  /** There are such models. */
  lemma RemovalHappens() returns (before: Model, after: Model)
    ensures Valid(before) && BeforeRemoval(before) && Valid(after) && AfterRemoval(after)
  {
    before := Model(
      map[1 := Unpruned([10], []), 2 := Unpruned([], []), 3 := Unpruned([], [30])],
      map[10 := 1, 30 := 3],
      Wires(map[10 := 30], map[30 := [10]]));
    after := Model(
      map[1 := Unpruned([10], []), 2 := Unpruned([], [])],
      map[10 := 1],
      Wires(map[], map[30 := []]));
    BeforeRemovalIsFlat(before);
    AfterRemovalIsFlat(after);
    FlatIsValid(before);
    FlatIsValid(after);
    FlatSource(before, 10);
    FlatSource(after, 10);
  }

  lemma BeforeRemovalIsFlat(m: Model)
    requires m.atoms == map[1 := Unpruned([10], []), 2 := Unpruned([], []), 3 := Unpruned([], [30])]
    requires m.owner == map[10 := 1, 30 := 3] && m.wires.source == map[10 := 30]
    ensures Flat(m)
  {
    UnprunedIsValid([10], []);
    UnprunedIsValid([], []);
    UnprunedIsValid([], [30]);
    assert m.atoms[1] == Unpruned([10], []) && m.atoms[2] == Unpruned([], []) && m.atoms[3] == Unpruned([], [30]);
    assert FlatAtom(m, 1) && FlatAtom(m, 2) && FlatAtom(m, 3);
    assert FlatPort(m, 10) && FlatPort(m, 30) && FlatLink(m, 30, 10);
  }

  lemma AfterRemovalIsFlat(m: Model)
    requires m.atoms == map[1 := Unpruned([10], []), 2 := Unpruned([], [])]
    requires m.owner == map[10 := 1] && m.wires.source == map[]
    ensures Flat(m)
  {
    UnprunedIsValid([10], []);
    UnprunedIsValid([], []);
    assert m.atoms[1] == Unpruned([10], []) && m.atoms[2] == Unpruned([], []);
    assert FlatAtom(m, 1) && FlatAtom(m, 2) && FlatPort(m, 10);
  }

  /** Before, the removed accessor stands before the one that it feeds. */
  lemma OrderBeforeRemoval(m: Model, d: Depths, order: seq<Entry>, priorities: map<nat, int>)
    requires AtomDepth(m, d, 1) == 1 && AtomDepth(m, d, 2) == 0 && AtomDepth(m, d, 3) == 0
    requires Assigned(m, d, THREE, order, priorities)
    ensures order == [Entry(0, 0, true, 3), Entry(2, 0, false, 1), Entry(3, 0, false, 2), Entry(1, 1, false, 0)]
  {
    VisitThree(m, d, 0, 1, 2, 3);
    OrderIs(m, d, THREE, order, priorities,
      [Entry(0, 0, true, 3), Entry(2, 0, false, 1), Entry(3, 0, false, 2), Entry(1, 1, false, 0)]);
  }

  /** After, the others have changed places. */
  lemma OrderAfterRemoval(m: Model, d: Depths, order: seq<Entry>, priorities: map<nat, int>)
    requires AtomDepth(m, d, 1) == 0 && AtomDepth(m, d, 2) == 0
    requires Assigned(m, d, TWO, order, priorities)
    ensures order == [Entry(0, 0, true, 2), Entry(1, 0, false, 0), Entry(2, 0, false, 1)]
  {
    VisitTwo(m, d, 0, 1, 2);
    OrderIs(m, d, TWO, order, priorities, [Entry(0, 0, true, 2), Entry(1, 0, false, 0), Entry(2, 0, false, 1)]);
  }

  /**
   Removing accessor 3 raises the value of accessor 2 to 3, while accessor 1, which had 4,
   gets the 2 that accessor 2 had. The callbacks of accessor 1 are renamed twice and end with
   the value of accessor 2.
   */
  lemma RemovalRenamesTwice(
      before: Model, g: Graph, d: Depths, order: seq<Entry>, was: map<nat, int>,
      after: Model, g': Graph, d': Depths, order': seq<Entry>, priorities: map<nat, int>, s: D.State, id: int)
    requires BeforeRemoval(before) && Describes(before, g) && Solution(g, d) && Assigned(before, d, THREE, order, was)
    requires AfterRemoval(after) && Describes(after, g') && Solution(g', d') && Assigned(after, d', TWO, order', priorities)
    requires D.Valid(s) && id in s.table && s.table[id].priority == PriorityIn(was, 1)
    ensures 1 in priorities && 2 in priorities && id in ApplyChanges(s, Changes(was, order')).table
    ensures priorities[1] == 2 && priorities[2] == 3
    ensures ApplyChanges(s, Changes(was, order')).table[id].priority == priorities[2]
  {
    FedDepth(before, g, d, 1, 10, 3, 30);
    UnfedDepth(after, g', d', 1, 10);
    OrderBeforeRemoval(before, d, order, was);
    OrderAfterRemoval(after, d', order', priorities);
    RemovalRenames(order, was, order', priorities, s, id);
  }

  lemma RemovalRenames(
      order: seq<Entry>, was: map<nat, int>, order': seq<Entry>, priorities: map<nat, int>, s: D.State, id: int)
    requires order == [Entry(0, 0, true, 3), Entry(2, 0, false, 1), Entry(3, 0, false, 2), Entry(1, 1, false, 0)]
    requires order' == [Entry(0, 0, true, 2), Entry(1, 0, false, 0), Entry(2, 0, false, 1)]
    requires Given(order, was) && Given(order', priorities)
    requires D.Valid(s) && id in s.table && s.table[id].priority == PriorityIn(was, 1)
    ensures 1 in priorities && 2 in priorities && priorities[1] == 2 && priorities[2] == 3
    ensures var r := ApplyChanges(s, Changes(was, order')); id in r.table && r.table[id].priority == 3
  {
    PlacesAreValues(order, was, 0);
    PlacesAreValues(order, was, 1);
    PlacesAreValues(order, was, 3);
    PlacesAreValues(order', priorities, 1);
    PlacesAreValues(order', priorities, 2);
    PlacesAreChanges(was, order', priorities);
    assert Changes(was, order') == [Change(1, 1), Change(4, 2), Change(2, 3)];
    CallbacksAreRenamedInTurn(s, Changes(was, order'));
    ThreeInTurn(4, Change(1, 1), Change(4, 2), Change(2, 3));
  }

  lemma ThreeInTurn(p: int, x: Change, y: Change, z: Change)
    ensures var q := if p == x.from then x.to else p;
      var r := if q == y.from then y.to else q;
      InTurn(p, [x, y, z]) == if r == z.from then z.to else r
  {
    var q := if p == x.from then x.to else p;
    var r := if q == y.from then y.to else q;
    assert [x, y, z][1..] == [y, z] && [y, z][1..] == [z] && [z][1..] == [];
    assert InTurn(p, [x, y, z]) == InTurn(q, [y, z]);
    assert InTurn(q, [y, z]) == InTurn(r, [z]);
    assert InTurn(r, [z]) == if r == z.from then z.to else r;
  }

  // ----- an addition -----

  /** An adder (accessor 1) feeds a verifier (accessor 2). */
  ghost predicate AdderAndVerifier(m: Model)
  {
    && 1 in m.atoms && m.atoms[1] == Unpruned([10], [11])
    && 2 in m.atoms && m.atoms[2] == Unpruned([20], []) && SourceOf(m, 20) == Found(11)
  }

  ghost predicate BeforeAddition(m: Model)
  {
    AdderAndVerifier(m) && SourceOf(m, 10) == Unconnected
  }

  /** A source (accessor 3) that feeds the adder has been added. */
  ghost predicate AfterAddition(m: Model)
  {
    AdderAndVerifier(m) && 3 in m.atoms && m.atoms[3] == Unpruned([], [30]) && SourceOf(m, 10) == Found(30)
  }

  /** There are such models. */
  lemma AdditionHappens() returns (before: Model, after: Model)
    ensures Valid(before) && BeforeAddition(before) && Valid(after) && AfterAddition(after)
  {
    before := BeforeAdditionHappens();
    after := AfterAdditionHappens();
  }

  lemma BeforeAdditionHappens() returns (m: Model)
    ensures Valid(m) && BeforeAddition(m)
  {
    m := Model(
      map[1 := Unpruned([10], [11]), 2 := Unpruned([20], [])],
      map[10 := 1, 11 := 1, 20 := 2],
      Wires(map[20 := 11], map[11 := [20]]));
    BeforeAdditionIsFlat(m);
    FlatIsValid(m);
    FlatSource(m, 10);
    FlatSource(m, 20);
  }

  lemma AfterAdditionHappens() returns (m: Model)
    ensures Valid(m) && AfterAddition(m)
  {
    m := Model(
      map[1 := Unpruned([10], [11]), 2 := Unpruned([20], []), 3 := Unpruned([], [30])],
      map[10 := 1, 11 := 1, 20 := 2, 30 := 3],
      Wires(map[20 := 11, 10 := 30], map[11 := [20], 30 := [10]]));
    AfterAdditionIsFlat(m);
    FlatIsValid(m);
    FlatSource(m, 10);
    FlatSource(m, 20);
  }

  lemma BeforeAdditionIsFlat(m: Model)
    requires m.atoms == map[1 := Unpruned([10], [11]), 2 := Unpruned([20], [])]
    requires m.owner == map[10 := 1, 11 := 1, 20 := 2] && m.wires.source == map[20 := 11]
    ensures Flat(m)
  {
    UnprunedIsValid([10], [11]);
    UnprunedIsValid([20], []);
    assert m.atoms[1] == Unpruned([10], [11]) && m.atoms[2] == Unpruned([20], []);
    assert FlatAtom(m, 1) && FlatAtom(m, 2);
    assert FlatPort(m, 10) && FlatPort(m, 11) && FlatPort(m, 20) && FlatLink(m, 11, 20);
  }

  lemma AfterAdditionIsFlat(m: Model)
    requires m.atoms == map[1 := Unpruned([10], [11]), 2 := Unpruned([20], []), 3 := Unpruned([], [30])]
    requires m.owner == map[10 := 1, 11 := 1, 20 := 2, 30 := 3] && m.wires.source == map[20 := 11, 10 := 30]
    ensures Flat(m)
  {
    UnprunedIsValid([10], [11]);
    UnprunedIsValid([20], []);
    UnprunedIsValid([], [30]);
    assert m.atoms[1] == Unpruned([10], [11]) && m.atoms[2] == Unpruned([20], []) && m.atoms[3] == Unpruned([], [30]);
    assert FlatAtom(m, 1) && FlatAtom(m, 2) && FlatAtom(m, 3);
    assert FlatPort(m, 10) && FlatPort(m, 11) && FlatPort(m, 20) && FlatPort(m, 30);
    assert FlatLink(m, 11, 20) && FlatLink(m, 30, 10);
  }

  /** An accessor that a relay feeds. */
  lemma RelayedDepth(m: Model, g: Graph, d: Depths, a: nat, i: nat, o: nat, b: nat, j: nat)
    requires Describes(m, g) && Solution(g, d) && SourceOf(m, j) == Found(o)
    requires a in m.atoms && m.atoms[a] == Unpruned([i], [o]) && b in m.atoms && m.atoms[b] == Unpruned([j], [])
    ensures i in d && AtomDepth(m, d, a) == Min(INT_MAX, d[i]) && AtomDepth(m, d, b) == d[i] + 1
    ensures match SourceOf(m, i)
      case Found(p) => p in d && d[i] == d[p] + 1
      case _ => d[i] == 0
  {
    RelayDepth(m, g, d, a, i, o);
    SinkDepth(m, g, d, b, j);
    LoneInputDepth(m, g, d, b, j);
    LoneInputDepth(m, g, d, a, i);
  }

  lemma AfterAdditionDepths(m: Model, g: Graph, d: Depths)
    requires AfterAddition(m) && Describes(m, g) && Solution(g, d)
    ensures AtomDepth(m, d, 1) == 1 && AtomDepth(m, d, 2) == 2 && AtomDepth(m, d, 3) == 0
  {
    RelayedDepth(m, g, d, 1, 10, 11, 2, 20);
    SourceDepth(m, g, d, 3, 30);
  }

  lemma OrderBeforeAddition(m: Model, d: Depths, order: seq<Entry>, priorities: map<nat, int>)
    requires AtomDepth(m, d, 1) == 0 && AtomDepth(m, d, 2) == 1
    requires Assigned(m, d, TWO, order, priorities)
    ensures order == [Entry(0, 0, true, 2), Entry(1, 0, false, 0), Entry(2, 1, false, 1)]
  {
    VisitTwo(m, d, 0, 1, 2);
    OrderIs(m, d, TWO, order, priorities, [Entry(0, 0, true, 2), Entry(1, 0, false, 0), Entry(2, 1, false, 1)]);
  }

  lemma OrderAfterAddition(m: Model, d: Depths, order: seq<Entry>, priorities: map<nat, int>)
    requires AtomDepth(m, d, 1) == 1 && AtomDepth(m, d, 2) == 2 && AtomDepth(m, d, 3) == 0
    requires Assigned(m, d, THREE, order, priorities)
    ensures order == [Entry(0, 0, true, 3), Entry(3, 0, false, 2), Entry(1, 1, false, 0), Entry(2, 2, false, 1)]
  {
    VisitThree(m, d, 0, 1, 2, 3);
    OrderIs(m, d, THREE, order, priorities,
      [Entry(0, 0, true, 3), Entry(3, 0, false, 2), Entry(1, 1, false, 0), Entry(2, 2, false, 1)]);
  }

  /**
   The source takes the value 2 that the adder had, the adder takes the verifier's 3, and the
   verifier gets 4. The adder's callbacks are renamed twice and end with the verifier's value.
   */
  lemma AdditionRenamesTwice(
      before: Model, g: Graph, d: Depths, order: seq<Entry>, was: map<nat, int>,
      after: Model, g': Graph, d': Depths, order': seq<Entry>, priorities: map<nat, int>, s: D.State, id: int)
    requires BeforeAddition(before) && Describes(before, g) && Solution(g, d) && Assigned(before, d, TWO, order, was)
    requires AfterAddition(after) && Describes(after, g') && Solution(g', d') && Assigned(after, d', THREE, order', priorities)
    requires D.Valid(s) && id in s.table && s.table[id].priority == PriorityIn(was, 1) && 3 !in was
    ensures 1 in priorities && 2 in priorities && id in ApplyChanges(s, Changes(was, order')).table
    ensures priorities[1] == 3 && priorities[2] == 4
    ensures ApplyChanges(s, Changes(was, order')).table[id].priority == priorities[2]
  {
    RelayedDepth(before, g, d, 1, 10, 11, 2, 20);
    AfterAdditionDepths(after, g', d');
    OrderBeforeAddition(before, d, order, was);
    OrderAfterAddition(after, d', order', priorities);
    AdditionRenames(order, was, order', priorities, s, id);
  }

  lemma AdditionRenames(
      order: seq<Entry>, was: map<nat, int>, order': seq<Entry>, priorities: map<nat, int>, s: D.State, id: int)
    requires order == [Entry(0, 0, true, 2), Entry(1, 0, false, 0), Entry(2, 1, false, 1)]
    requires order' == [Entry(0, 0, true, 3), Entry(3, 0, false, 2), Entry(1, 1, false, 0), Entry(2, 2, false, 1)]
    requires Given(order, was) && Given(order', priorities)
    requires D.Valid(s) && id in s.table && s.table[id].priority == PriorityIn(was, 1) && 3 !in was
    ensures 1 in priorities && 2 in priorities && priorities[1] == 3 && priorities[2] == 4
    ensures var r := ApplyChanges(s, Changes(was, order')); id in r.table && r.table[id].priority == 4
  {
    PlacesAreValues(order, was, 0);
    PlacesAreValues(order, was, 1);
    PlacesAreValues(order, was, 2);
    PlacesAreValues(order', priorities, 2);
    PlacesAreValues(order', priorities, 3);
    PlacesAreChanges(was, order', priorities);
    var added := Change(PriorityIn(was, 3), 2);
    assert Changes(was, order') == [Change(1, 1), added, Change(2, 3), Change(3, 4)];
    CallbacksAreRenamedInTurn(s, Changes(was, order'));
    assert [Change(1, 1), added, Change(2, 3), Change(3, 4)][1..] == [added, Change(2, 3), Change(3, 4)];
    ThreeInTurn(2, added, Change(2, 3), Change(3, 4));
  }
}
