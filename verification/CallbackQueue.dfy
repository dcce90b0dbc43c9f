/**
 The Director's two containers: the table of scheduled callbacks and the vector of
 callback ids kept in execution order. This module says what "in order" means and
 shows that the order is a function of the table alone.
 */
module CallbackQueue {
  import opened Sequences

  /** What a callback body may do to the Director while it runs. */
  datatype Action =
    | Schedule(body: seq<Action>, delay: int, periodic: bool, priority: int)
    | Clear(id: int)
    | Reprioritise(oldPriority: int, newPriority: int)

  datatype Callback = Callback(body: seq<Action>, delay: int, periodic: bool, priority: int, time: int)

  type Table = map<int, Callback>

  /** Callbacks run by due time, then by priority value, then by id. */
  predicate Before(t: Table, a: int, b: int)
  {
    && a in t && b in t
    && (|| t[a].time < t[b].time
        || (t[a].time == t[b].time
            && (t[a].priority < t[b].priority || (t[a].priority == t[b].priority && a < b))))
  }

  ghost predicate Sorted(t: Table, q: seq<int>)
  {
    && (forall i :: 0 <= i < |q| ==> q[i] in t)
    && (forall i, j :: 0 <= i < j < |q| ==> Before(t, q[i], q[j]))
  }

  /** `q` with `id` put in front of the first entry that does not come before it. */
  function Insert(t: Table, q: seq<int>, id: int): seq<int>
  {
    if q == [] || !Before(t, q[0], id) then [id] + q else [q[0]] + Insert(t, q[1..], id)
  }

  /** The entries of `q` in the order that the table `t` gives them. */
  function Resort(t: Table, q: seq<int>): seq<int>
  {
    if q == [] then [] else Insert(t, Resort(t, q[1..]), q[0])
  }

  function Renamed(t: Table, oldPriority: int, newPriority: int): Table
  {
    map id | id in t :: if t[id].priority == oldPriority then t[id].(priority := newPriority) else t[id]
  }

  lemma {:induction false} InsertAt(t: Table, q: seq<int>, id: int, k: nat)
    requires k <= |q|
    requires forall i :: 0 <= i < k ==> Before(t, q[i], id)
    requires k < |q| ==> !Before(t, q[k], id)
    ensures Insert(t, q, id) == q[..k] + [id] + q[k..]
  {
    if k > 0 {
      InsertAt(t, q[1..], id, k - 1);
      assert q[..k] == [q[0]] + q[1..][..k - 1];
    }
  }

  lemma {:induction false} InsertMembers(t: Table, q: seq<int>, id: int)
    ensures forall x :: x in Insert(t, q, id) <==> x == id || x in q
  {
    if q != [] && Before(t, q[0], id) {
      InsertMembers(t, q[1..], id);
    }
  }

  lemma {:induction false} InsertSorted(t: Table, q: seq<int>, id: int)
    requires Sorted(t, q) && id in t && id !in q
    ensures Sorted(t, Insert(t, q, id))
  {
    if q != [] && Before(t, q[0], id) {
      InsertSorted(t, q[1..], id);
      InsertMembers(t, q[1..], id);
      var r := Insert(t, q[1..], id);
      forall i | 0 <= i < |r| ensures Before(t, q[0], r[i]) {
        assert r[i] in r;
        if r[i] != id {
          var k :| 0 <= k < |q[1..]| && q[1..][k] == r[i];
          assert q[k + 1] == r[i];
        }
      }
    } else if q != [] {
      assert Before(t, id, q[0]);
      forall i | 0 <= i < |q| ensures Before(t, id, q[i]) {
      }
    }
  }

  /** The front of a sorted queue is the least queued callback. */
  lemma FrontIsLeast(t: Table, q: seq<int>, x: int)
    requires Sorted(t, q) && x in q
    ensures x == q[0] || Before(t, q[0], x)
  {
    var k :| 0 <= k < |q| && q[k] == x;
    if k > 0 {
      assert Before(t, q[0], q[k]);
    }
  }

  lemma TailMember(t: Table, q: seq<int>, x: int)
    requires Sorted(t, q) && q != []
    ensures x in q[1..] <==> x in q && x != q[0]
  {
    if x in q && x != q[0] {
      var k :| 0 <= k < |q| && q[k] == x;
      assert q[1..][k - 1] == x;
    }
    if x in q[1..] {
      var k :| 0 <= k < |q[1..]| && q[1..][k] == x;
      assert Before(t, q[0], q[k + 1]);
    }
  }

  /** Removing an id keeps the rest, in order, whatever table the order was read from. */
  lemma {:induction false} RemoveKeeps(t: Table, q: seq<int>, id: int)
    requires Sorted(t, q)
    ensures Sorted(t, Remove(q, id))
    ensures forall x :: x in Remove(q, id) <==> x in q && x != id
  {
    if q != [] {
      forall x ensures x in q[1..] <==> x in q && x != q[0] {
        TailMember(t, q, x);
      }
      if q[0] != id {
        RemoveKeeps(t, q[1..], id);
        var r := Remove(q[1..], id);
        forall i | 0 <= i < |r| ensures Before(t, q[0], r[i]) {
          assert r[i] in r;
          FrontIsLeast(t, q, r[i]);
        }
      }
    }
  }

  lemma {:induction false} ResortMembers(t: Table, q: seq<int>)
    ensures forall x :: x in Resort(t, q) <==> x in q
  {
    if q != [] {
      ResortMembers(t, q[1..]);
      InsertMembers(t, Resort(t, q[1..]), q[0]);
    }
  }

  lemma {:induction false} ResortSorted(t: Table, q: seq<int>)
    requires forall i :: 0 <= i < |q| ==> q[i] in t
    requires forall i, j :: 0 <= i < j < |q| ==> q[i] != q[j]
    ensures Sorted(t, Resort(t, q))
  {
    if q != [] {
      ResortSorted(t, q[1..]);
      ResortMembers(t, q[1..]);
      assert q[0] !in q[1..];
      InsertSorted(t, Resort(t, q[1..]), q[0]);
    }
  }

  /** The queue is a function of the table: two sorted queues with the same ids are equal. */
  lemma {:induction false} SortedIsUnique(t: Table, q: seq<int>, r: seq<int>)
    requires Sorted(t, q) && Sorted(t, r)
    requires forall x :: x in q <==> x in r
    ensures q == r
  {
    if q == [] {
      var least := if r == [] then 0 else r[0];
      assert r != [] ==> least in r;
    } else {
      var first := q[0];
      assert first in q && first in r;
      var least := r[0];
      assert least in r && least in q;
      FrontIsLeast(t, q, r[0]);
      FrontIsLeast(t, r, q[0]);
      forall x ensures x in q[1..] <==> x in r[1..] {
        TailMember(t, q, x);
        TailMember(t, r, x);
      }
      SortedIsUnique(t, q[1..], r[1..]);
      assert q == [q[0]] + q[1..] && r == [r[0]] + r[1..];
    }
  }
}
