/**
 What a model update, the assignment of new priorities to all accessors, does to the
 callbacks that the Director holds.
 */
module ModelUpdates {
  import opened AccessorOrder
  import opened Priorities
  import opened Renaming
  import D = DirectorState

  /** The update gives each accessor of `order` its value, and names its old one. */
  lemma {:induction false} ChangesFollowOrder(was: map<nat, int>, order: seq<Entry>)
    ensures |Changes(was, order)| == |order| == |Values(order, HOST_PRIORITY)|
    ensures forall k {:trigger Changes(was, order)[k]} :: 0 <= k < |order| ==>
              Changes(was, order)[k] == Change(PriorityIn(was, order[k].id), Values(order, HOST_PRIORITY)[k])
  {
    ValuesIncrease(order, HOST_PRIORITY);
    if order != [] {
      var n := |order| - 1;
      ChangesFollowOrder(was, order[..n]);
      assert order == order[..n] + [order[n]];
      ValuesAppend(order[..n], HOST_PRIORITY, order[n], NextValue(order[..n]));
      forall k {:trigger Changes(was, order)[k]} | 0 <= k < |order|
        ensures Changes(was, order)[k] == Change(PriorityIn(was, order[k].id), Values(order, HOST_PRIORITY)[k])
      {
        if k < n {
          assert Changes(was, order)[k] == Changes(was, order[..n])[k];
        }
      }
    }
  }

  /**
   A model update leaves a callback with the new priority of its accessor if and only if no
   accessor updated later had that value before the update.
   */
  lemma UpdateReachesCallbacksExactly(
      s: D.State, was: map<nat, int>, order: seq<Entry>, priorities: map<nat, int>, i: nat, id: int)
    requires D.Valid(s) && id in s.table && Given(order, priorities) && i < |order|
    requires s.table[id].priority == PriorityIn(was, order[i].id)
    requires forall k :: 0 <= k < i ==> PriorityIn(was, order[k].id) != PriorityIn(was, order[i].id)
    ensures order[i].id in priorities && id in ApplyChanges(s, Changes(was, order)).table
    ensures ApplyChanges(s, Changes(was, order)).table[id].priority == priorities[order[i].id] <==>
            forall k :: i < k < |order| ==> PriorityIn(was, order[k].id) != priorities[order[i].id]
  {
    var changes, p := Changes(was, order), s.table[id].priority;
    ChangesFollowOrder(was, order);
    ValuesIncrease(order, HOST_PRIORITY);
    CallbacksAreRenamedInTurn(s, changes);
    assert changes[i] == Change(p, priorities[order[i].id]);
    forall j, k | 0 <= j < k < |changes| ensures changes[j].to != changes[k].to {
      assert changes[j].to == Values(order, HOST_PRIORITY)[j] && changes[k].to == Values(order, HOST_PRIORITY)[k];
    }
    forall k | 0 <= k < |order| ensures changes[k].from == PriorityIn(was, order[k].id) {
      assert changes[k] == Change(PriorityIn(was, order[k].id), Values(order, HOST_PRIORITY)[k]);
    }
    assert FirstAt(p, changes, i);
    AtFirst(p, changes, i);
    RenamingIsRightExactly(p, changes, i);
    assert changes[i].to == priorities[order[i].id];
  }

  // ----- updates that keep the order -----

  /** `f` says where the accessors of `r` stand in `q`: in the same order, and none is deeper than it was. */
  ghost predicate KeepsOrder(q: seq<Entry>, r: seq<Entry>, f: seq<nat>)
  {
    && |f| == |r|
    && (forall k :: 0 <= k < |r| ==> f[k] < |q| && q[f[k]].id == r[k].id && r[k].depth <= q[f[k]].depth)
    && (forall j, k :: 0 <= j < k < |f| ==> f[j] < f[k])
  }

  lemma {:induction false} NoValueGrows(q: seq<Entry>, r: seq<Entry>, f: seq<nat>, k: nat)
    requires KeepsOrder(q, r, f) && k < |r|
    ensures |Values(q, HOST_PRIORITY)| == |q| && |Values(r, HOST_PRIORITY)| == |r|
    ensures Values(r, HOST_PRIORITY)[k] <= Values(q, HOST_PRIORITY)[f[k]]
  {
    ValuesStep(r, HOST_PRIORITY, k);
    ValuesIncrease(q, HOST_PRIORITY);
    if k > 0 {
      NoValueGrows(q, r, f, k - 1);
      assert f[k - 1] < f[k];
    }
  }

  /**
   An update that keeps the accessors in their order and makes none of them deeper renames
   callbacks as intended, whichever accessors it removes.
   */
  lemma UpdateKeepingOrderIsRight(q: seq<Entry>, was: map<nat, int>, r: seq<Entry>, f: seq<nat>, p: int)
    requires Given(q, was) && KeepsOrder(q, r, f)
    ensures InTurn(p, Changes(was, r)) == AtOnce(p, Changes(was, r))
  {
    var changes := Changes(was, r);
    ChangesFollowOrder(was, r);
    ValuesIncrease(q, HOST_PRIORITY);
    ValuesIncrease(r, HOST_PRIORITY);
    forall k {:trigger changes[k]} | 0 <= k < |r|
      ensures changes[k] == Change(Values(q, HOST_PRIORITY)[f[k]], Values(r, HOST_PRIORITY)[k])
      ensures changes[k].to <= changes[k].from
    {
      assert q[f[k]].id in was;
      NoValueGrows(q, r, f, k);
    }
    ShrinkingUpdateIsRight(changes, p);
  }
}
