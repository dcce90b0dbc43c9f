/** Facts about finite sets of ids. */
module Sets {
  lemma HasMember(s: set<int>)
    ensures s == {} || exists x :: x in s
  {
    if forall x :: x !in s {
      assert s == {};
    }
  }

  lemma {:induction false} HasLeast(s: set<int>)
    requires s != {}
    ensures exists x :: x in s && forall y :: y in s ==> x <= y
    decreases s
  {
    HasMember(s);
    var x :| x in s;
    var rest := s - {x};
    assert forall y :: y in s ==> y == x || y in rest;
    if rest != {} {
      HasLeast(rest);
      var z :| z in rest && forall y :: y in rest ==> z <= y;
      LeastWith(s, x, z);
    } else {
      assert x in s && forall y :: y in s ==> x <= y;
    }
  }

  lemma LeastWith(s: set<int>, x: int, z: int)
    requires x in s && z in s && forall y :: y in s && y != x ==> z <= y
    ensures exists l :: l in s && forall y :: y in s ==> l <= y
  {
    var l := if x <= z then x else z;
    assert l in s && forall y :: y in s ==> l <= y;
  }
}
