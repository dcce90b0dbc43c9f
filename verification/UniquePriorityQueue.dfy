/** A priority queue that holds each element at most once. */
module UniquePriorityQueues {
  import opened Sequences
  import opened Sets
  import opened AccessorOrder

  /** The first element with the least priority value. */
  function Best(priority: map<nat, int>, q: seq<nat>): (x: nat)
    requires q != []
    ensures x in q && forall y :: y in q ==> PriorityIn(priority, x) <= PriorityIn(priority, y)
  {
    if |q| == 1 then q[0]
    else
      var rest := Best(priority, q[1..]);
      assert forall y :: y in q <==> y == q[0] || y in q[1..];
      if PriorityIn(priority, rest) < PriorityIn(priority, q[0]) then rest else q[0]
  }

  class UniquePriorityQueue {
    const priority: map<nat, int>
    var queue: seq<nat>
    var elements: set<nat>

    /** The queue and the set hold the same elements, each once. */
    ghost predicate Valid()
      reads this
    {
      (forall x :: x in elements <==> x in queue) && forall x :: multiset(queue)[x] <= 1
    }

    constructor (p: map<nat, int>)
      ensures Valid() && elements == {} && priority == p
    {
      priority, queue, elements := p, [], {};
    }

    method Push(x: nat)
      requires Valid()
      modifies this
      ensures Valid() && elements == old(elements) + {x}
    {
      if x !in elements {
        assert x !in multiset(queue);
        queue := queue + [x];
        elements := elements + {x};
      }
    }

    function Top(): (x: nat)
      requires Valid() && elements != {}
      reads this
      ensures x in elements && forall y :: y in elements ==> PriorityIn(priority, x) <= PriorityIn(priority, y)
    {
      NotEmpty();
      Best(priority, queue)
    }

    lemma NotEmpty()
      requires Valid() && elements != {}
      ensures queue != []
    {
      HasMember(elements);
      var x :| x in elements;
      assert x in queue;
    }

    method Pop()
      requires Valid() && elements != {}
      modifies this
      ensures Valid() && elements == old(elements) - {old(Top())}
    {
      var x := Top();
      RemoveCounts(queue, x);
      assert forall y :: y in queue <==> y in multiset(queue);
      assert forall y :: y in Remove(queue, x) <==> y in multiset(Remove(queue, x));
      elements := elements - {x};
      queue := Remove(queue, x);
    }

    predicate Empty()
      requires Valid()
      reads this
      ensures Empty() <==> elements == {}
    {
      NoElements();
      queue == []
    }

    lemma NoElements()
      requires Valid()
      ensures queue == [] <==> elements == {}
    {
      var x := if queue == [] then 0 else queue[0];
      assert queue != [] ==> x in queue;
      HasMember(elements);
    }
  }
}
