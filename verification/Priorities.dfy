/**
 The host's priority assignment: depths of all ports, depths of all accessors, then one
 priority value for each accessor, and a call to the Director for each changed value.
 */
module Priorities {
  import opened Wrappers
  import opened Sets
  import opened CausalGraph
  import opened Models
  import opened DepthSearch
  import opened AccessorOrder
  import D = DirectorState
  import opened Directors
  import opened Renaming

  /** Every port of every atomic accessor of the tree has a depth. */
  ghost predicate Known(m: Model, d: Depths, t: Accessor)
    decreases t, 1
  {
    match t
    case Atomic(a) => a in m.atoms && (forall p :: p in m.atoms[a].inputs || p in m.atoms[a].outputs ==> p in d)
    case Composite(_, children) => AllKnown(m, d, children)
  }

  ghost predicate AllKnown(m: Model, d: Depths, children: seq<Accessor>)
    decreases children, 0
  {
    children == [] || (AllKnown(m, d, children[..|children| - 1]) && Known(m, d, children[|children| - 1]))
  }

  /** Every atomic accessor of the tree belongs to the model. */
  ghost predicate TreeOf(m: Model, t: Accessor)
  {
    match t
    case Atomic(a) => a in m.atoms
    case Composite(_, children) => forall k :: 0 <= k < |children| ==> TreeOf(m, children[k])
  }

  lemma {:induction false} PortFoldGrows(d: Depths, e: Depths, ports: seq<nat>)
    requires Grown(d, e) && forall p :: p in ports ==> p in d
    ensures Least(d, ports) == Least(e, ports) && Greatest(d, ports) == Greatest(e, ports)
  {
    if ports != [] {
      var n := |ports| - 1;
      var last := ports[n];
      assert last in ports;
      assert forall p :: p in ports[..n] ==> p in ports;
      PortFoldGrows(d, e, ports[..n]);
    }
  }

  lemma FoldStep(d: Depths, ports: seq<nat>, k: nat)
    requires k < |ports|
    ensures Greatest(d, ports[..k + 1]) == Max(Greatest(d, ports[..k]), DepthAt(d, ports[k]))
    ensures Least(d, ports[..k + 1]) == Min(Least(d, ports[..k]), DepthAt(d, ports[k]))
    ensures forall p :: p in ports[..k + 1] ==> p in ports[..k] || p == ports[k]
  {
    var more := ports[..k + 1];
    assert more[..k] == ports[..k] && more[k] == ports[k];
  }

  /** More known depths change nothing about accessors whose ports are known. */
  lemma {:induction false} VisitGrows(m: Model, d: Depths, e: Depths, t: Accessor, start: nat)
    requires Grown(d, e) && Known(m, d, t)
    ensures Known(m, e, t) && TreeDepth(m, d, t) == TreeDepth(m, e, t) && Visit(m, d, t, start) == Visit(m, e, t, start)
    decreases t, 1
  {
    match t
    case Atomic(a) =>
      PortFoldGrows(d, e, m.atoms[a].outputs);
      PortFoldGrows(d, e, m.atoms[a].inputs);
    case Composite(_, children) =>
      VisitAllGrows(m, d, e, children, start);
  }

  lemma {:induction false} VisitAllGrows(m: Model, d: Depths, e: Depths, children: seq<Accessor>, start: nat)
    requires Grown(d, e) && AllKnown(m, d, children)
    ensures AllKnown(m, e, children) && ChildrenDepth(m, d, children) == ChildrenDepth(m, e, children)
    ensures VisitAll(m, d, children, start) == VisitAll(m, e, children, start)
    decreases children, 0
  {
    if children != [] {
      var n := |children| - 1;
      VisitAllGrows(m, d, e, children[..n], start);
      VisitGrows(m, d, e, children[n], start + |VisitAll(m, d, children[..n], start)|);
    }
  }

  lemma {:induction false} KnownWithin(m: Model, d: Depths, a: nat, t: Accessor)
    requires Known(m, d, t) && Within(Atomic(a), t)
    ensures Known(m, d, Atomic(a))
    decreases t, 1
  {
    if t != Atomic(a) {
      var k :| 0 <= k < |t.children| && Within(Atomic(a), t.children[k]);
      KnownAmong(m, d, a, t.children, k);
    }
  }

  lemma {:induction false} KnownAmong(m: Model, d: Depths, a: nat, children: seq<Accessor>, k: nat)
    requires AllKnown(m, d, children) && k < |children| && Within(Atomic(a), children[k])
    ensures Known(m, d, Atomic(a))
    decreases children, 0
  {
    var n := |children| - 1;
    if k == n {
      KnownWithin(m, d, a, children[n]);
    } else {
      KnownAmong(m, d, a, children[..n], k);
    }
  }

  /** When the whole tree is known, the depths are the solution of the equations. */
  lemma KnownIsSolution(m: Model, g: Graph, d: Depths, t: Accessor)
    requires Describes(m, g) && Solves(g, d) && Known(m, d, t)
    requires forall a :: a in m.atoms ==> Within(Atomic(a), t)
    ensures Solution(g, d) && Acyclic(g)
  {
    forall p | p in g.inputs || p in g.outputs ensures p in d {
      assert Consulted(p);
      KnownWithin(m, d, m.owner[p], t);
    }
    forall p | p in d ensures p in g.inputs || p in g.outputs {
      assert Equation(g, d, p);
    }
    SolvedIsAcyclic(g, d);
  }

  /** The ids of a list of entries. */
  function Ids(q: seq<Entry>): seq<nat>
  {
    seq(|q|, k requires 0 <= k < |q| => q[k].id)
  }

  /** The lists by depth are what the log of visits makes them. */
  ghost predicate Filed(lists: map<int, seq<nat>>, log: seq<Entry>)
  {
    && (forall x :: x in lists <==> exists k :: 0 <= k < |log| && log[k].depth == x)
    && (forall x :: x in lists ==> lists[x] == Ids(Bucket(log, x)))
  }

  lemma FiledAppend(lists: map<int, seq<nat>>, log: seq<Entry>, e: Entry)
    requires Filed(lists, log)
    ensures var before := if e.depth in lists then lists[e.depth] else [];
      Filed(lists[e.depth := if e.composite then [e.id] + before else before + [e.id]], log + [e])
  {
    var before := if e.depth in lists then lists[e.depth] else [];
    var after := lists[e.depth := if e.composite then [e.id] + before else before + [e.id]];
    var all := log + [e];
    forall x ensures x != e.depth ==> Bucket(all, x) == Bucket(log, x) {
      BucketAppend(log, e, x);
    }
    BucketAppend(log, e, e.depth);
    forall x ensures x in after <==> exists k :: 0 <= k < |all| && all[k].depth == x {
      if x == e.depth {
        assert all[|log|].depth == x;
      } else if x in lists {
        var k :| 0 <= k < |log| && log[k].depth == x;
        assert all[k].depth == x;
      }
    }
    if e.depth !in lists {
      NoSuchDepth(log, e.depth);
    }
    assert before == Ids(Bucket(log, e.depth));
    forall x | x in after ensures after[x] == Ids(Bucket(all, x)) {
    }
  }

  /** No id occurs twice. */
  ghost predicate NoRepeats(q: seq<Entry>)
  {
    forall j, k :: 0 <= j < k < |q| ==> q[j].id != q[k].id
  }

  lemma {:induction false} BucketHasNoRepeats(log: seq<Entry>, depth: int)
    requires NoRepeats(log)
    ensures NoRepeats(Bucket(log, depth))
  {
    if log != [] {
      var n := |log| - 1;
      var before := Bucket(log[..n], depth);
      BucketHasNoRepeats(log[..n], depth);
      BucketMembers(log[..n], depth);
      forall k | 0 <= k < |before| ensures before[k].id != log[n].id {
        assert before[k] in before;
        var j :| 0 <= j < n && log[..n][j] == before[k];
        assert log[j].id != log[n].id;
      }
    }
  }

  lemma {:induction false} NoSuchDepth(log: seq<Entry>, depth: int)
    requires forall k :: 0 <= k < |log| ==> log[k].depth != depth
    ensures Bucket(log, depth) == []
  {
    if log != [] {
      assert log[|log| - 1].depth != depth;
      var before := log[..|log| - 1];
      forall k | 0 <= k < |before| ensures before[k].depth != depth {
        assert before[k] == log[k];
      }
      NoSuchDepth(before, depth);
    }
  }

  lemma AtomPortsAreInGraph(m: Model, g: Graph, a: nat)
    requires Describes(m, g) && a in m.atoms
    ensures forall p :: p in m.atoms[a].inputs ==> p in g.inputs
    ensures forall p :: p in m.atoms[a].outputs ==> p in g.outputs
  {
    assert Consulted(a);
  }

  /** The ids of the tree in the order in which the accessors are met. */
  function TreeIds(t: Accessor): seq<nat>
    decreases t, 1
  {
    match t
    case Atomic(a) => [a]
    case Composite(c, children) => AllTreeIds(children) + [c]
  }

  function AllTreeIds(children: seq<Accessor>): seq<nat>
    decreases children, 0
  {
    if children == [] then [] else AllTreeIds(children[..|children| - 1]) + TreeIds(children[|children| - 1])
  }

  lemma {:induction false} VisitIds(m: Model, d: Depths, t: Accessor, start: nat)
    ensures Ids(Visit(m, d, t, start)) == TreeIds(t)
    decreases t, 1
  {
    if t.Composite? {
      VisitAllIds(m, d, t.children, start);
    }
  }

  lemma {:induction false} VisitAllIds(m: Model, d: Depths, children: seq<Accessor>, start: nat)
    ensures Ids(VisitAll(m, d, children, start)) == AllTreeIds(children)
    decreases children, 0
  {
    if children != [] {
      var n := |children| - 1;
      VisitAllIds(m, d, children[..n], start);
      VisitIds(m, d, children[n], start + |VisitAll(m, d, children[..n], start)|);
    }
  }

  predicate Distinct(ids: seq<nat>)
  {
    forall j, k :: 0 <= j < k < |ids| ==> ids[j] != ids[k]
  }

  /** The accessors of `order` have the values that belong to the order. */
  ghost predicate Given(order: seq<Entry>, priorities: map<nat, int>)
  {
    |Values(order, HOST_PRIORITY)| == |order| && forall k {:trigger order[k]} :: 0 <= k < |order| ==>
      order[k].id in priorities && priorities[order[k].id] == Values(order, HOST_PRIORITY)[k]
  }

  ghost function NextValue(order: seq<Entry>): int
  {
    var values := Values(order, HOST_PRIORITY);
    if values == [] then HOST_PRIORITY else values[|values| - 1] + 1
  }

  lemma GivenAppend(order: seq<Entry>, priorities: map<nat, int>, e: Entry)
    requires Given(order, priorities) && e.id !in IdSet(order)
    ensures var p := Max(NextValue(order), e.depth);
      && Given(order + [e], priorities[e.id := p]) && NextValue(order + [e]) == p + 1
  {
    var p, all := Max(NextValue(order), e.depth), order + [e];
    ValuesAppend(order, HOST_PRIORITY, e, NextValue(order));
    forall k {:trigger all[k]} | 0 <= k < |all|
      ensures all[k].id in priorities[e.id := p] && priorities[e.id := p][all[k].id] == Values(all, HOST_PRIORITY)[k]
    {
      if k < |order| {
        assert all[k] == order[k] && order[k] in order;
        assert all[k].id in IdSet(order);
      }
    }
  }

  ghost function IdSet(q: seq<Entry>): set<nat>
  {
    set e | e in q :: e.id
  }

  /** The calls that an update makes for the accessors in `given`, if `was` held before it. */
  ghost function Changes(was: map<nat, int>, given: seq<Entry>): seq<Change>
  {
    if given == [] then []
    else
      var n := |given| - 1;
      var e := given[n];
      Changes(was, given[..n]) + [Change(PriorityIn(was, e.id), Max(NextValue(given[..n]), e.depth))]
  }

  /** What the Director has become once it was told about the accessors in `given`. */
  ghost predicate Told(was: map<nat, int>, given: seq<Entry>, update: bool, s: D.State, r: D.State)
  {
    r == if update then ApplyChanges(s, Changes(was, given)) else s
  }

  lemma ToldAppend(was: map<nat, int>, given: seq<Entry>, e: Entry, update: bool, s: D.State, r: D.State)
    requires Told(was, given, update, s, r)
    ensures Told(was, given + [e], update, s,
                 if update then D.Reprioritised(r, PriorityIn(was, e.id), Max(NextValue(given), e.depth)) else r)
  {
    var all := given + [e];
    assert all[..|all| - 1] == given;
    ApplyChangesAppend(s, Changes(was, given), Change(PriorityIn(was, e.id), Max(NextValue(given), e.depth)));
  }

  lemma SortedConcat(q: seq<Entry>, r: seq<Entry>, depth: int)
    requires SortedEntries(q) && SortedEntries(r)
    requires forall e :: e in q ==> e.depth < depth
    requires forall e :: e in r ==> e.depth == depth
    ensures SortedEntries(q + r)
  {
    var all := q + r;
    forall j, k | 0 <= j < k < |all| ensures Less(all[j], all[k]) {
      if j < |q| && k >= |q| {
        assert all[j] in q && all[k] in r;
      }
    }
  }

  lemma DistinctIdsNoRepeats(log: seq<Entry>)
    requires Distinct(Ids(log))
    ensures NoRepeats(log)
  {
    forall j, k | 0 <= j < k < |log| ensures log[j].id != log[k].id {
      assert Ids(log)[j] != Ids(log)[k];
    }
  }

  /** `order` holds the entries of every depth that is not in `depths`, the lower ones first. */
  ghost predicate Through(log: seq<Entry>, order: seq<Entry>, depths: set<int>)
  {
    && SortedEntries(order)
    && (forall e :: e in order <==> e in log && e.depth !in depths)
    && (forall e, x :: e in order && x in depths ==> e.depth < x)
  }

  lemma ThroughNext(log: seq<Entry>, order: seq<Entry>, depths: set<int>, x: int)
    requires Through(log, order, depths) && Numbered(log, 0)
    requires x in depths && forall y :: y in depths ==> x <= y
    ensures Through(log, order + Bucket(log, x), depths - {x})
  {
    BucketMembers(log, x);
    BucketIsSorted(log, x);
    SortedConcat(order, Bucket(log, x), x);
  }

  class Host {
    const director: Director
    var accessorDepths: map<int, seq<nat>>
    var priorities: map<nat, int>
    ghost var log: seq<Entry>    // the accessors in the order in which they were met
    ghost var order: seq<Entry>  // the accessors in the order in which they got their priority

    ghost predicate Ready(search: DepthSearch)
      reads this, search
    {
      search.Ready() && search.Memo() && Filed(accessorDepths, log)
    }

    /** A host starts with its reserved priority; every other accessor with the default. */
    constructor (host: nat, d: Director)
      ensures director == d && priorities == map[host := HOST_PRIORITY]
    {
      director, priorities := d, map[host := HOST_PRIORITY];
      accessorDepths, log, order := map[], [], [];
    }

    method ComputeAtomicAccessorDepth(a: nat, search: DepthSearch) returns (loop: Option<nat>, depth: int)
      requires Ready(search) && a in search.model.atoms
      modifies search, this`accessorDepths, this`log
      ensures Ready(search) && Grown(old(search.portDepths), search.portDepths)
      ensures loop.Some? ==> OnLoop(search.graph, loop.value)
      ensures loop.None? ==>
                && Known(search.model, search.portDepths, Atomic(a))
                && depth == TreeDepth(search.model, search.portDepths, Atomic(a))
                && log == old(log) + Visit(search.model, search.portDepths, Atomic(a), |old(log)|)
    {
      ghost var m := search.model;
      AtomPortsAreInGraph(m, search.graph, a);
      var ports := search.model.atoms[a];
      var maximumInputDepth;
      loop, maximumInputDepth := DeepestInput(ports.inputs, search);
      if loop.Some? {
        return loop, 0;
      }
      ghost var d := search.portDepths;
      var minimumOutputDepth;
      loop, minimumOutputDepth := ShallowestOutput(ports.outputs, search);
      if loop.Some? {
        return loop, 0;
      }
      PortFoldGrows(d, search.portDepths, ports.inputs);
      depth := if ports.outputs != [] then minimumOutputDepth else maximumInputDepth;
      Place(a, depth, false);
    }

    /** A new search, with nothing visited, unless the depth is known. */
    method EnsureInputDepth(i: nat, search: DepthSearch) returns (loop: Option<nat>)
      requires search.Ready() && search.Memo() && i in search.graph.inputs
      modifies search
      ensures search.Memo() && Grown(old(search.portDepths), search.portDepths)
      ensures loop.Some? ==> OnLoop(search.graph, loop.value)
      ensures loop.None? ==> i in search.portDepths
    {
      loop := None;
      if i !in search.portDepths {
        search.visitedInputPorts, search.visitedOutputPorts := {}, {};
        loop := search.ComputeInputPortDepth(i);
      }
    }

    method EnsureOutputDepth(o: nat, search: DepthSearch) returns (loop: Option<nat>)
      requires search.Ready() && search.Memo() && o in search.graph.outputs
      modifies search
      ensures search.Memo() && Grown(old(search.portDepths), search.portDepths)
      ensures loop.Some? ==> OnLoop(search.graph, loop.value)
      ensures loop.None? ==> o in search.portDepths
    {
      loop := None;
      if o !in search.portDepths {
        search.visitedInputPorts, search.visitedOutputPorts := {}, {};
        loop := search.ComputeOutputPortDepth(o);
      }
    }

    method DeepestInput(ports: seq<nat>, search: DepthSearch) returns (loop: Option<nat>, depth: int)
      requires search.Ready() && search.Memo() && forall p :: p in ports ==> p in search.graph.inputs
      modifies search
      ensures search.Memo() && Grown(old(search.portDepths), search.portDepths)
      ensures loop.Some? ==> OnLoop(search.graph, loop.value)
      ensures loop.None? ==> (forall p :: p in ports ==> p in search.portDepths) && depth == Greatest(search.portDepths, ports)
    {
      depth := 0;
      for k := 0 to |ports|
        invariant search.Memo() && Grown(old(search.portDepths), search.portDepths)
        invariant forall p :: p in ports[..k] ==> p in search.portDepths
        invariant depth == Greatest(search.portDepths, ports[..k])
      {
        var p := ports[k];
        assert p in ports;
        ghost var d := search.portDepths;
        loop := EnsureInputDepth(p, search);
        if loop.Some? {
          return;
        }
        PortFoldGrows(d, search.portDepths, ports[..k]);
        if search.portDepths[p] > depth {
          depth := search.portDepths[p];
        }
        FoldStep(search.portDepths, ports, k);
      }
      assert ports[..|ports|] == ports;
      loop := None;
    }

    method ShallowestOutput(ports: seq<nat>, search: DepthSearch) returns (loop: Option<nat>, depth: int)
      requires search.Ready() && search.Memo() && forall p :: p in ports ==> p in search.graph.outputs
      modifies search
      ensures search.Memo() && Grown(old(search.portDepths), search.portDepths)
      ensures loop.Some? ==> OnLoop(search.graph, loop.value)
      ensures loop.None? ==> (forall p :: p in ports ==> p in search.portDepths) && depth == Least(search.portDepths, ports)
    {
      depth := INT_MAX;
      for k := 0 to |ports|
        invariant search.Memo() && Grown(old(search.portDepths), search.portDepths)
        invariant forall p :: p in ports[..k] ==> p in search.portDepths
        invariant depth == Least(search.portDepths, ports[..k])
      {
        var p := ports[k];
        assert p in ports;
        ghost var d := search.portDepths;
        loop := EnsureOutputDepth(p, search);
        if loop.Some? {
          return;
        }
        PortFoldGrows(d, search.portDepths, ports[..k]);
        if search.portDepths[p] < depth {
          depth := search.portDepths[p];
        }
        FoldStep(search.portDepths, ports, k);
      }
      assert ports[..|ports|] == ports;
      loop := None;
    }

    /** File an accessor under its depth: an atomic one at the back, a composite at the front. */
    method Place(a: nat, depth: int, composite: bool)
      requires Filed(accessorDepths, log)
      modifies this`accessorDepths, this`log
      ensures Filed(accessorDepths, log) && log == old(log) + [Entry(a, depth, composite, |old(log)|)]
    {
      FiledAppend(accessorDepths, log, Entry(a, depth, composite, |log|));
      var filed := if depth in accessorDepths then accessorDepths[depth] else [];
      accessorDepths := accessorDepths[depth := if composite then [a] + filed else filed + [a]];
      log := log + [Entry(a, depth, composite, |log|)];
    }

    method ComputeCompositeAccessorDepth(t: Accessor, search: DepthSearch) returns (loop: Option<nat>, depth: int)
      requires Ready(search) && t.Composite? && TreeOf(search.model, t)
      modifies search, this`accessorDepths, this`log
      ensures Ready(search) && Grown(old(search.portDepths), search.portDepths)
      ensures loop.Some? ==> OnLoop(search.graph, loop.value)
      ensures loop.None? ==>
                && Known(search.model, search.portDepths, t)
                && depth == TreeDepth(search.model, search.portDepths, t)
                && log == old(log) + Visit(search.model, search.portDepths, t, |old(log)|)
      decreases t
    {
      ghost var m, start := search.model, log;
      depth := INT_MAX;
      for k := 0 to |t.children|
        invariant Ready(search) && Grown(old(search.portDepths), search.portDepths)
        invariant AllKnown(m, search.portDepths, t.children[..k])
        invariant depth == ChildrenDepth(m, search.portDepths, t.children[..k])
        invariant log == start + VisitAll(m, search.portDepths, t.children[..k], |start|)
      {
        var child := t.children[k];
        assert TreeOf(m, child);
        ghost var d, before := search.portDepths, log;
        var childDepth;
        if child.Composite? {
          loop, childDepth := ComputeCompositeAccessorDepth(child, search);
        } else {
          loop, childDepth := ComputeAtomicAccessorDepth(child.id, search);
        }
        if loop.Some? {
          return loop, 0;
        }
        depth := Min(depth, childDepth);
        VisitAllGrows(m, d, search.portDepths, t.children[..k], |start|);
        OneMoreChild(m, search.portDepths, t.children, k, start);
      }
      assert t.children[..|t.children|] == t.children;
      Place(t.id, depth, true);
      loop := None;
    }

    /**
     The whole assignment. It fails exactly if the model has a causality loop, and names a
     port on one. Otherwise the port depths are the solution of the depth equations, every
     accessor of the tree gets the value that belongs to its place in the order, and the
     Director, if asked, is told every old and new value in that order.
     */
    method ComputeAccessorPriorities(tree: Accessor, m: Model, ghost g: Graph, updateCallbacks: bool)
      returns (loop: Option<nat>, depths: Depths)
      requires Describes(m, g) && D.Valid(director.View())
      requires tree.Composite? && TreeOf(m, tree) && Distinct(TreeIds(tree))
      requires forall a :: a in m.atoms ==> Within(Atomic(a), tree)
      modifies this, director
      ensures D.Valid(director.View())
      ensures loop.None? <==> Acyclic(g)
      ensures loop.Some? ==> OnLoop(g, loop.value) && priorities == old(priorities) && director.View() == old(director.View())
      ensures loop.None? ==>
                && Solution(g, depths)
                && SortedEntries(order)
                && (forall e :: e in order <==> e in Visit(m, depths, tree, 0))
                && Given(order, priorities)
                && (forall a :: a !in IdSet(order) ==> PriorityIn(priorities, a) == PriorityIn(old(priorities), a))
                && Told(old(priorities), order, updateCallbacks, old(director.View()), director.View())
    {
      accessorDepths, log, order := map[], [], [];
      var search := new DepthSearch(m, g);
      var rootDepth;
      loop, rootDepth := ComputeCompositeAccessorDepth(tree, search);
      depths := search.portDepths;
      if loop.None? {
        assert log == Visit(m, depths, tree, 0);
        VisitIsNumbered(m, depths, tree, 0);
        VisitIds(m, depths, tree, 0);
        DistinctIdsNoRepeats(log);
        KnownIsSolution(m, g, depths, tree);
        GiveInOrder(updateCallbacks);
      }
    }

    method GiveInOrder(updateCallbacks: bool)
      requires Filed(accessorDepths, log) && Numbered(log, 0) && NoRepeats(log) && order == []
      requires D.Valid(director.View())
      modifies this`priorities, this`order, director
      ensures SortedEntries(order) && (forall e :: e in order <==> e in log) && Given(order, priorities)
      ensures D.Valid(director.View())
      ensures forall a :: a !in IdSet(order) ==> PriorityIn(priorities, a) == PriorityIn(old(priorities), a)
      ensures Told(old(priorities), order, updateCallbacks, old(director.View()), director.View())
    {
      var priority := HOST_PRIORITY;
      var depths: set<int> := accessorDepths.Keys;
      ghost var was, s := priorities, director.View();
      forall e | e in log ensures e.depth in depths {
        var k :| 0 <= k < |log| && log[k] == e;
      }
      while depths != {}
        invariant depths <= accessorDepths.Keys && priority == NextValue(order)
        invariant Through(log, order, depths)
        invariant Progress(was, updateCallbacks, s)
        decreases depths
      {
        HasLeast(depths);
        var x :| x in depths && forall y :: y in depths ==> x <= y;
        ThroughNext(log, order, depths, x);
        BucketIsNotEmpty(accessorDepths, log, x);
        priority := GiveList(x, accessorDepths[x], priority, updateCallbacks, was, s);
        depths := depths - {x};
      }
    }

    /** Everything given so far is given right, and nothing else has changed. */
    ghost predicate Progress(was: map<nat, int>, update: bool, s: D.State)
      reads this, director
    {
      && Given(order, priorities)
      && (forall a :: a !in IdSet(order) ==> PriorityIn(priorities, a) == PriorityIn(was, a))
      && D.Valid(director.View()) && Told(was, order, update, s, director.View())
    }

    /** Priorities for the accessors of one depth. */
    method GiveList(depth: int, ids: seq<nat>, next: int, updateCallbacks: bool, ghost was: map<nat, int>, ghost s: D.State)
      returns (priority: int)
      requires ids == Ids(Bucket(log, depth)) && ids != [] && next == NextValue(order) && NoRepeats(log)
      requires Progress(was, updateCallbacks, s)
      requires forall e :: e in order ==> e in log && e.depth < depth
      modifies this`priorities, this`order, director
      ensures order == old(order) + Bucket(log, depth) && priority == NextValue(order)
      ensures Progress(was, updateCallbacks, s)
    {
      ghost var start, list := order, Bucket(log, depth);
      BucketMembers(log, depth);
      priority := Max(next, depth);
      for k := 0 to |ids|
        invariant order == start + list[..k] && priority == Max(NextValue(order), depth)
        invariant k > 0 ==> priority == NextValue(order)
        invariant Progress(was, updateCallbacks, s)
      {
        ghost var e := list[k];
        assert e in list;
        NotYetGiven(start, list, k, depth);
        assert list[..k + 1] == list[..k] + [e];
        Give(ids[k], e, priority, updateCallbacks, was, s);
        priority := priority + 1;
      }
      assert list[..|ids|] == list;
    }

    lemma BucketIsNotEmpty(lists: map<int, seq<nat>>, log: seq<Entry>, x: int)
      requires Filed(lists, log) && x in lists
      ensures lists[x] == Ids(Bucket(log, x)) && lists[x] != []
    {
      var k :| 0 <= k < |log| && log[k].depth == x;
      BucketMembers(log, x);
      assert log[k] in Bucket(log, x);
    }

    lemma NotYetGiven(start: seq<Entry>, list: seq<Entry>, k: nat, depth: int)
      requires NoRepeats(log) && list == Bucket(log, depth) && k < |list|
      requires forall e :: e in start ==> e in log && e.depth < depth
      ensures list[k].id !in IdSet(start + list[..k])
    {
      BucketMembers(log, depth);
      BucketHasNoRepeats(log, depth);
      assert list[k] in list;
      var n :| 0 <= n < |log| && log[n] == list[k];
      forall f | f in start + list[..k] ensures f.id != list[k].id {
        if f in start {
          var j :| 0 <= j < |log| && log[j] == f;
          assert j != n;
        } else {
          var j :| 0 <= j < k && list[..k][j] == f;
          assert list[j] == f;
        }
      }
    }

    method Give(a: nat, ghost e: Entry, priority: int, updateCallbacks: bool, ghost was: map<nat, int>, ghost s: D.State)
      requires a == e.id && e.id !in IdSet(order) && priority == Max(NextValue(order), e.depth)
      requires Progress(was, updateCallbacks, s)
      modifies this`priorities, this`order, director
      ensures order == old(order) + [e] && NextValue(order) == priority + 1
      ensures Progress(was, updateCallbacks, s)
    {
      GivenAppend(order, priorities, e);
      ToldAppend(was, order, e, updateCallbacks, s, director.View());
      if updateCallbacks {
        director.HandlePriorityUpdate(PriorityIn(priorities, a), priority);
      }
      priorities := priorities[a := priority];
      assert IdSet(order + [e]) == IdSet(order) + {a};
      order := order + [e];
    }

    lemma OneMoreChild(m: Model, d: Depths, children: seq<Accessor>, k: nat, start: seq<Entry>)
      requires k < |children|
      ensures var before := start + VisitAll(m, d, children[..k], |start|);
        start + VisitAll(m, d, children[..k + 1], |start|) == before + Visit(m, d, children[k], |before|)
      ensures ChildrenDepth(m, d, children[..k + 1]) == Min(ChildrenDepth(m, d, children[..k]), TreeDepth(m, d, children[k]))
      ensures AllKnown(m, d, children[..k + 1]) <==> AllKnown(m, d, children[..k]) && Known(m, d, children[k])
    {
      assert children[..k + 1][..k] == children[..k];
    }
  }
}
