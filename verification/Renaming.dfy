/**
 A model update tells the Director each accessor's old and new priority, one accessor after
 another. Each call renames every callback that has the old value at that moment.
 */
module Renaming {
  import opened DirectorState

  datatype Change = Change(from: int, to: int)

  /** The calls of HandlePriorityUpdate, in the order in which they are made. */
  function ApplyChanges(s: State, changes: seq<Change>): State
    decreases |changes|
  {
    if changes == [] then s
    else ApplyChanges(Reprioritised(s, changes[0].from, changes[0].to), changes[1..])
  }

  /** What becomes of priority `p` under those calls. */
  function InTurn(p: int, changes: seq<Change>): int
    decreases |changes|
  {
    if changes == [] then p else InTurn(if p == changes[0].from then changes[0].to else p, changes[1..])
  }

  /** What should become of it: the new priority of the accessor that had priority `p`. */
  function AtOnce(p: int, changes: seq<Change>): int
    decreases |changes|
  {
    if changes == [] then p else if p == changes[0].from then changes[0].to else AtOnce(p, changes[1..])
  }

  lemma {:induction false} CallbacksAreRenamedInTurn(s: State, changes: seq<Change>)
    requires Valid(s)
    ensures var r := ApplyChanges(s, changes);
      && Valid(r) && r.table.Keys == s.table.Keys
      && forall id :: id in s.table ==> r.table[id] == s.table[id].(priority := InTurn(s.table[id].priority, changes))
    decreases |changes|
  {
    if changes != [] {
      ReprioritisedKeepsValid(s, changes[0].from, changes[0].to);
      CallbacksAreRenamedInTurn(Reprioritised(s, changes[0].from, changes[0].to), changes[1..]);
    }
  }

  lemma {:induction false} ApplyChangesAppend(s: State, changes: seq<Change>, c: Change)
    ensures ApplyChanges(s, changes + [c]) == Reprioritised(ApplyChanges(s, changes), c.from, c.to)
    decreases |changes|
  {
    if changes == [] {
      assert (changes + [c])[1..] == [];
    } else {
      assert (changes + [c])[1..] == changes[1..] + [c];
      ApplyChangesAppend(Reprioritised(s, changes[0].from, changes[0].to), changes[1..], c);
    }
  }

  ghost predicate NewValuesDiffer(changes: seq<Change>)
  {
    forall j, k :: 0 <= j < k < |changes| ==> changes[j].to != changes[k].to
  }

  lemma {:induction false} Untouched(p: int, changes: seq<Change>)
    requires forall k :: 0 <= k < |changes| ==> changes[k].from != p
    ensures InTurn(p, changes) == p && AtOnce(p, changes) == p
    decreases |changes|
  {
    if changes != [] {
      assert changes[0].from != p;
      Untouched(p, changes[1..]);
    }
  }

  /** A value that no later change produces is not produced again. */
  lemma {:induction false} NotProduced(p: int, v: int, changes: seq<Change>)
    requires p != v && forall k :: 0 <= k < |changes| ==> changes[k].to != v
    ensures InTurn(p, changes) != v
    decreases |changes|
  {
    if changes != [] {
      assert changes[0].to != v;
      NotProduced(if p == changes[0].from then changes[0].to else p, v, changes[1..]);
    }
  }

  /** A value that differs from every new value is lost as soon as one change takes it. */
  lemma {:induction false} TakenIsLost(v: int, changes: seq<Change>, k: nat)
    requires k < |changes| && changes[k].from == v
    requires forall j :: 0 <= j < |changes| ==> changes[j].to != v
    ensures InTurn(v, changes) != v
    decreases |changes|
  {
    if changes[0].from == v {
      NotProduced(changes[0].to, v, changes[1..]);
    } else {
      TakenIsLost(v, changes[1..], k - 1);
    }
  }

  /** The first change that takes `p`, if any. */
  predicate FirstAt(p: int, changes: seq<Change>, i: nat)
  {
    i < |changes| && changes[i].from == p && forall k :: 0 <= k < i ==> changes[k].from != p
  }

  lemma {:induction false} AtFirst(p: int, changes: seq<Change>, i: nat)
    requires FirstAt(p, changes, i)
    ensures AtOnce(p, changes) == changes[i].to
    ensures InTurn(p, changes) == InTurn(changes[i].to, changes[i + 1..])
    decreases |changes|
  {
    if i > 0 {
      assert changes[0].from != p;
      assert changes[1..][i - 1] == changes[i] && changes[1..][i..] == changes[i + 1..];
      forall k | 0 <= k < i - 1 ensures changes[1..][k].from != p {
        assert changes[1..][k] == changes[k + 1];
      }
      AtFirst(p, changes[1..], i - 1);
    }
  }

  /**
   Callbacks of priority `p` end with the priority that their accessor was given if and only
   if no accessor that is updated later had that new value as its old priority; otherwise
   they are renamed again, with that accessor's callbacks.
   */
  lemma RenamingIsRightExactly(p: int, changes: seq<Change>, i: nat)
    requires NewValuesDiffer(changes) && FirstAt(p, changes, i)
    ensures InTurn(p, changes) == AtOnce(p, changes) <==>
            forall k :: i < k < |changes| ==> changes[k].from != changes[i].to
  {
    AtFirst(p, changes, i);
    var rest, v := changes[i + 1..], changes[i].to;
    if k :| i < k < |changes| && changes[k].from == v {
      assert rest[k - i - 1] == changes[k];
      forall j | 0 <= j < |rest| ensures rest[j].to != v {
        assert rest[j] == changes[i + 1 + j];
      }
      TakenIsLost(v, rest, k - i - 1);
    } else {
      forall j | 0 <= j < |rest| ensures rest[j].from != v {
        assert rest[j] == changes[i + 1 + j];
      }
      Untouched(v, rest);
    }
  }

  /** It acts so when old values rise along the order and no value grows. */
  lemma ShrinkingUpdateIsRight(changes: seq<Change>, p: int)
    requires NewValuesDiffer(changes)
    requires forall j, k :: 0 <= j < k < |changes| ==> changes[j].from < changes[k].from
    requires forall k :: 0 <= k < |changes| ==> changes[k].to <= changes[k].from
    ensures InTurn(p, changes) == AtOnce(p, changes)
  {
    if i :| 0 <= i < |changes| && changes[i].from == p {
      RenamingIsRightExactly(p, changes, i);
    } else {
      Untouched(p, changes);
    }
  }
}
