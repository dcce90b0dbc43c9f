/**
 Which output ports of an atomic accessor depend on which of its input ports, and the
 equivalence classes of input ports that follow: two inputs are equivalent when a path of
 shared output ports joins them.
 */
module Dependencies {
  import opened Sets

  datatype PortDependencies = PortDependencies(
    inputs: seq<nat>,
    outputs: seq<nat>,
    forwardPruned: map<nat, set<nat>>,   // input port -> output ports that do not depend on it
    backwardPruned: map<nat, set<nat>>)  // output port -> input ports it does not depend on
  {
    /** The two maps are each other's converse and name ports of this accessor only. */
    ghost predicate Valid()
    {
      && (forall j, k :: 0 <= j < k < |inputs| ==> inputs[j] != inputs[k])
      && (forall j, k :: 0 <= j < k < |outputs| ==> outputs[j] != outputs[k])
      && (forall i, o :: Pruned(i, o) <==> i in forwardPruned && o in forwardPruned[i])
      && (forall i, o :: Pruned(i, o) ==> i in inputs && o in outputs)
    }

    predicate Pruned(i: nat, o: nat)
    {
      o in backwardPruned && i in backwardPruned[o]
    }

    predicate Depends(o: nat, i: nat)
    {
      i in inputs && o in outputs && !Pruned(i, o)
    }

    function InputsOf(o: nat): set<nat>
    {
      set i | i in inputs && Depends(o, i)
    }

    function OutputsOf(i: nat): set<nat>
    {
      set o | o in outputs && Depends(o, i)
    }

    ghost predicate Linked(i: nat, j: nat)
    {
      exists o :: Depends(o, i) && Depends(o, j)
    }

    ghost predicate Path(p: seq<nat>)
    {
      p != [] && (|p| == 1 || (Linked(p[0], p[1]) && Path(p[1..])))
    }

    ghost predicate Joined(i: nat, j: nat)
    {
      exists p :: Path(p) && p[0] == i && p[|p| - 1] == j
    }

    /** The inputs joined to `i` by paths of shared outputs: the closure that FindEquivalentPorts computes. */
    ghost function Component(i: nat): set<nat>
    {
      set j | j in inputs && Joined(i, j)
    }

    /** The inputs treated as equivalent to `i`: its component, or all inputs if there is no output. */
    ghost function EquivalenceClass(i: nat): set<nat>
    {
      if outputs == [] then set j | j in inputs else Component(i)
    }

    lemma JoinedSelf(i: nat)
      ensures Joined(i, i)
    {
      assert Path([i]);
    }

    lemma JoinedStep(i: nat, j: nat, k: nat)
      requires Linked(i, j) && Joined(j, k)
      ensures Joined(i, k)
    {
      var p :| Path(p) && p[0] == j && p[|p| - 1] == k;
      assert ([i] + p)[1..] == p;
      assert Path([i] + p);
    }

    lemma {:induction false} PathTrans(p: seq<nat>, k: nat)
      requires Path(p) && Joined(p[|p| - 1], k)
      ensures Joined(p[0], k)
    {
      if |p| > 1 {
        PathTrans(p[1..], k);
        JoinedStep(p[0], p[1], k);
      }
    }

    lemma {:induction false} PathBack(p: seq<nat>)
      requires Path(p)
      ensures Joined(p[|p| - 1], p[0])
    {
      if |p| > 1 {
        PathBack(p[1..]);
        JoinedSelf(p[0]);
        JoinedStep(p[1], p[0], p[0]);
        var q :| Path(q) && q[0] == p[|p| - 1] && q[|q| - 1] == p[1];
        PathTrans(q, p[0]);
      } else {
        JoinedSelf(p[0]);
      }
    }

    lemma JoinedIsEquivalence(i: nat, j: nat, k: nat)
      requires Joined(i, j)
      ensures Joined(j, i)
      ensures Joined(i, k) <==> Joined(j, k)
    {
      var p :| Path(p) && p[0] == i && p[|p| - 1] == j;
      PathBack(p);
      if Joined(j, k) {
        PathTrans(p, k);
      }
      if Joined(i, k) {
        var q :| Path(q) && q[0] == j && q[|q| - 1] == i;
        PathTrans(q, k);
      }
    }

    /** The classes partition the input ports. */
    lemma ClassesPartition(i: nat, j: nat)
      requires i in inputs && j in inputs
      ensures i in EquivalenceClass(i)
      ensures j in EquivalenceClass(i) ==> EquivalenceClass(j) == EquivalenceClass(i)
      ensures j !in EquivalenceClass(i) ==> EquivalenceClass(j) !! EquivalenceClass(i)
    {
      JoinedSelf(i);
      forall k | k in inputs ensures Joined(i, j) ==> (Joined(i, k) <==> Joined(j, k)) {
        if Joined(i, j) {
          JoinedIsEquivalence(i, j, k);
        }
      }
      forall k | k in inputs ensures Joined(i, k) && Joined(j, k) ==> Joined(i, j) {
        if Joined(i, k) && Joined(j, k) {
          JoinedIsEquivalence(j, k, j);
          JoinedIsEquivalence(i, k, j);
        }
      }
    }

    /** Inputs that share a dependent output port are equivalent, and so have one depth. */
    lemma InputsOfOneOutputAreEquivalent(o: nat, i: nat, j: nat)
      requires Depends(o, i) && Depends(o, j)
      ensures j in EquivalenceClass(i)
    {
      assert Linked(i, j);
      JoinedSelf(j);
      JoinedStep(i, j, j);
    }

    // ----- the queries -----

    method GetInputPortDependencies(o: nat) returns (ports: set<nat>)
      requires Valid() && o in outputs
      ensures ports == InputsOf(o)
    {
      ports := set i | i in inputs;
      if o in backwardPruned {
        ports := SetSubtract(ports, backwardPruned[o]);
      }
    }

    method GetDependentOutputPorts(i: nat) returns (ports: set<nat>)
      requires Valid() && i in inputs
      ensures ports == OutputsOf(i)
    {
      assert forall o :: Pruned(i, o) <==> i in forwardPruned && o in forwardPruned[i];
      ports := set o | o in outputs;
      if i in forwardPruned {
        ports := SetSubtract(ports, forwardPruned[i]);
      }
    }

    /**
     Depth-first closure; the two sets are the ones that the caller passes by reference.
     Ports are visited in the order of their addresses, that is, in any order.
     */
    method FindEquivalentPorts(i: nat, equivalent: set<nat>, dependent: set<nat>)
      returns (equivalent': set<nat>, dependent': set<nat>)
      requires Valid() && i in inputs && equivalent <= set j | j in inputs
      ensures equivalent + {i} <= equivalent' <= (set j | j in inputs) && dependent <= dependent'
      ensures forall j :: j in equivalent' - equivalent ==> OutputsOf(j) <= dependent' && Joined(i, j)
      ensures forall o :: o in dependent' - dependent ==> InputsOf(o) <= equivalent'
      decreases (set j | j in inputs) - equivalent
    {
      equivalent', dependent' := equivalent, dependent;
      if i in equivalent {
        return;
      }
      equivalent' := equivalent' + {i};
      JoinedSelf(i);
      var outputsLeft := GetDependentOutputPorts(i);
      while outputsLeft != {}
        invariant equivalent + {i} <= equivalent' <= (set j | j in inputs) && dependent <= dependent'
        invariant forall j :: j in equivalent' - equivalent ==> Joined(i, j) && (j == i || OutputsOf(j) <= dependent')
        invariant forall o :: o in dependent' - dependent ==> InputsOf(o) <= equivalent'
        invariant OutputsOf(i) - outputsLeft <= dependent' && outputsLeft <= OutputsOf(i)
        decreases outputsLeft
      {
        HasMember(outputsLeft);
        var o :| o in outputsLeft;
        outputsLeft := outputsLeft - {o};
        if o !in dependent' {
          dependent' := dependent' + {o};
          var inputsLeft := GetInputPortDependencies(o);
          while inputsLeft != {}
            invariant equivalent + {i} <= equivalent' <= (set j | j in inputs) && dependent + {o} <= dependent'
            invariant forall j :: j in equivalent' - equivalent ==> Joined(i, j) && (j == i || OutputsOf(j) <= dependent')
            invariant forall q :: q in dependent' - dependent ==> q == o || InputsOf(q) <= equivalent'
            invariant OutputsOf(i) - outputsLeft <= dependent'
            invariant InputsOf(o) - inputsLeft <= equivalent' && inputsLeft <= InputsOf(o)
            decreases inputsLeft
          {
            HasMember(inputsLeft);
            var x :| x in inputsLeft;
            inputsLeft := inputsLeft - {x};
            assert Linked(i, x);
            ghost var before := equivalent';
            equivalent', dependent' := FindEquivalentPorts(x, equivalent', dependent');
            forall j | j in equivalent' - before ensures Joined(i, j) {
              JoinedStep(i, x, j);
            }
          }
        }
      }
    }

    /** A set of inputs that the closure step does not leave contains all that it reaches. */
    lemma {:induction false} ClosedContainsPath(closed: set<nat>, dependent: set<nat>, p: seq<nat>)
      requires Path(p) && p[0] in closed
      requires forall j :: j in closed ==> OutputsOf(j) <= dependent
      requires forall o :: o in dependent ==> InputsOf(o) <= closed
      ensures p[|p| - 1] in closed
    {
      if |p| > 1 {
        var o :| Depends(o, p[0]) && Depends(o, p[1]);
        assert o in OutputsOf(p[0]) && p[1] in InputsOf(o);
        ClosedContainsPath(closed, dependent, p[1..]);
      }
    }

    /** The shortcut and the closure both give the equivalence class. */
    method GetEquivalentPorts(i: nat) returns (ports: set<nat>)
      requires Valid() && i in inputs
      ensures ports == EquivalenceClass(i)
    {
      if |forwardPruned| == 0 || |inputs| == 1 || |outputs| == 0 {
        ShortcutIsClass(i);
        return set j | j in inputs;
      }
      var dependent;
      ports, dependent := FindEquivalentPorts(i, {}, {});
      forall j | Joined(i, j) ensures j in ports {
        var p :| Path(p) && p[0] == i && p[|p| - 1] == j;
        ClosedContainsPath(ports, dependent, p);
      }
    }

    /** Without outputs no two inputs are joined. */
    lemma NothingJoins(i: nat, j: nat)
      requires outputs == [] && Joined(i, j)
      ensures i == j
    {
      var p :| Path(p) && p[0] == i && p[|p| - 1] == j;
      assert forall o :: !Depends(o, i);
      assert |p| > 1 ==> Linked(p[0], p[1]);
    }

    /** The class is the component if and only if there is an output, or one input only. */
    lemma ClassIsComponentExactly(i: nat)
      requires Valid() && i in inputs
      ensures EquivalenceClass(i) == Component(i) <==> outputs != [] || |inputs| == 1
    {
      JoinedSelf(i);
      if outputs == [] {
        forall j | Joined(i, j) ensures i == j {
          NothingJoins(i, j);
        }
        if |inputs| > 1 {
          var j := if inputs[0] == i then inputs[1] else inputs[0];
          assert j in inputs && j != i;
          assert j in EquivalenceClass(i) && j !in Component(i);
        } else {
          assert inputs == [i];
        }
      }
    }

    /** Where the shortcut is taken, all inputs are what the closure gives, under the same condition. */
    lemma ShortcutIsComponentExactly(i: nat)
      requires Valid() && i in inputs
      requires |forwardPruned| == 0 || |inputs| == 1 || |outputs| == 0
      ensures (set j | j in inputs) == Component(i) <==> outputs != [] || |inputs| == 1
    {
      ClassIsComponentExactly(i);
      ShortcutIsClass(i);
    }

    lemma ShortcutIsClass(i: nat)
      requires Valid() && i in inputs
      requires |forwardPruned| == 0 || |inputs| == 1 || |outputs| == 0
      ensures EquivalenceClass(i) == set j | j in inputs
    {
      JoinedSelf(i);
      if outputs != [] {
        forall j | j in inputs ensures Joined(i, j) {
          if |inputs| != 1 {
            assert Depends(outputs[0], i) && Depends(outputs[0], j);
            assert Linked(i, j);
            JoinedSelf(j);
            JoinedStep(i, j, j);
          }
        }
      }
    }
  }

  /** The smallest case: two inputs and no output. They share nothing, and the shortcut calls them equivalent. */
  lemma TwoInputsNoOutput(i: nat, j: nat)
    requires i != j
    ensures var ports := PortDependencies([i, j], [], map[], map[]);
      ports.Valid() && ports.Component(i) == {i} && ports.EquivalenceClass(i) == {i, j}
  {
    var ports := PortDependencies([i, j], [], map[], map[]);
    ports.JoinedSelf(i);
    forall k | ports.Joined(i, k) ensures k == i {
      ports.NothingJoins(i, k);
    }
  }

  method SetSubtract(minuend: set<nat>, subtrahend: set<nat>) returns (left: set<nat>)
    ensures left == minuend - subtrahend
  {
    left := minuend;
    var rest := subtrahend;
    while rest != {}
      invariant rest <= subtrahend && left == minuend - (subtrahend - rest)
      decreases rest
    {
      HasMember(rest);
      var x :| x in rest;
      left, rest := left - {x}, rest - {x};
    }
  }

  /** The part of an atomic accessor that records its ports and their dependencies. */
  class AtomicAccessor {
    var ports: PortDependencies

    constructor ()
      ensures ports == PortDependencies([], [], map[], map[]) && ports.Valid()
    {
      ports := PortDependencies([], [], map[], map[]);
    }

    /** A new input port: every output port depends on it, spontaneous ones included. */
    method AddInputPort(i: nat)
      requires ports.Valid() && i !in ports.inputs
      modifies this
      ensures ports.Valid() && ports.inputs == old(ports.inputs) + [i] && ports.outputs == old(ports.outputs)
      ensures forall o, j :: ports.Depends(o, j) <==> old(ports).Depends(o, j) || (j == i && o in ports.outputs)
    {
      ghost var before := ports;
      ports := ports.(inputs := ports.inputs + [i]);
      assert forall x, y :: ports.Pruned(x, y) <==> before.Pruned(x, y);
    }

    method AddOutputPort(o: nat)
      requires ports.Valid() && o !in ports.outputs
      modifies this
      ensures ports.Valid() && ports.outputs == old(ports.outputs) + [o] && ports.inputs == old(ports.inputs)
      ensures forall q, i :: ports.Depends(q, i) <==> old(ports).Depends(q, i) || (q == o && i in ports.inputs)
    {
      ghost var before := ports;
      ports := ports.(outputs := ports.outputs + [o]);
      assert forall x, y :: ports.Pruned(x, y) <==> before.Pruned(x, y);
    }

    /** Fails, as the name look-up does, if a port is not there. */
    method RemoveDependency(i: nat, o: nat) returns (found: bool)
      requires ports.Valid()
      modifies this
      ensures ports.Valid() && ports.inputs == old(ports.inputs) && ports.outputs == old(ports.outputs)
      ensures found <==> i in ports.inputs && o in ports.outputs
      ensures forall q, j :: ports.Depends(q, j) <==> old(ports).Depends(q, j) && !(found && q == o && j == i)
    {
      if i !in ports.inputs || o !in ports.outputs {
        return false;
      }
      var d := ports;
      ports := d.(
        forwardPruned := d.forwardPruned[i := (if i in d.forwardPruned then d.forwardPruned[i] else {}) + {o}],
        backwardPruned := d.backwardPruned[o := (if o in d.backwardPruned then d.backwardPruned[o] else {}) + {i}]);
      assert forall j, q :: ports.Pruned(j, q) <==> d.Pruned(j, q) || (j == i && q == o);
      return true;
    }

    /** A spontaneous output port depends on no input port; nothing else changes. */
    method AddSpontaneousOutputPort(o: nat)
      requires ports.Valid() && o !in ports.outputs
      modifies this
      ensures ports.Valid() && ports.outputs == old(ports.outputs) + [o] && ports.inputs == old(ports.inputs)
      ensures forall q, i :: ports.Depends(q, i) <==> old(ports).Depends(q, i)
    {
      AddOutputPort(o);
      var all := ports.inputs;
      for k := 0 to |all|
        invariant ports.Valid() && ports.inputs == all && ports.outputs == old(ports.outputs) + [o]
        invariant forall q, i :: ports.Depends(q, i) <==>
                    old(ports).Depends(q, i) || (q == o && i in all[k..])
      {
        assert all[k] in all && o in ports.outputs;
        var _ := RemoveDependency(all[k], o);
        assert forall i :: i in all[k..] <==> i == all[k] || i in all[k + 1..];
        assert all[k] !in all[k + 1..];
      }
    }
  }
}
