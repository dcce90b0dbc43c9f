/** Removing the first occurrence of an element, as the library's find-and-erase loops do. */
module Sequences {

  function Remove<T(==)>(q: seq<T>, x: T): seq<T>
  {
    if q == [] then [] else if q[0] == x then q[1..] else [q[0]] + Remove(q[1..], x)
  }

  lemma {:induction false} RemoveAt<T>(q: seq<T>, k: nat)
    requires k < |q| && q[k] !in q[..k]
    ensures Remove(q, q[k]) == q[..k] + q[k + 1..]
  {
    if k > 0 {
      assert q[0] in q[..k];
      assert q[1..][..k - 1] == q[1..k];
      assert q[k] !in q[1..k] by {
        assert forall x :: x in q[1..k] ==> x in q[..k];
      }
      RemoveAt(q[1..], k - 1);
      assert q[..k] == [q[0]] + q[1..][..k - 1];
    }
  }

  lemma {:induction false} RemoveAbsent<T>(q: seq<T>, x: T)
    requires x !in q
    ensures Remove(q, x) == q
  {
    if q != [] {
      RemoveAbsent(q[1..], x);
    }
  }

  lemma {:induction false} RemoveMembers<T>(q: seq<T>, x: T)
    ensures forall y :: y in Remove(q, x) ==> y in q
  {
    if q != [] && q[0] != x {
      RemoveMembers(q[1..], x);
    }
  }

  lemma {:induction false} RemoveCounts<T>(q: seq<T>, x: T)
    ensures multiset(Remove(q, x)) == multiset(q) - multiset{x}
  {
    if q != [] {
      assert q == [q[0]] + q[1..];
      if q[0] != x {
        RemoveCounts(q[1..], x);
      }
    }
  }

  // ----- standing in the same order -----

  /** `a` is `b` with some entries left out. */
  ghost predicate InOrderOf<T>(a: seq<T>, b: seq<T>)
  {
    a == [] || (b != [] && ((a[0] == b[0] && InOrderOf(a[1..], b[1..])) || InOrderOf(a, b[1..])))
  }

  lemma {:induction false} InOrderOfSelf<T>(a: seq<T>)
    ensures InOrderOf(a, a)
  {
    if a != [] {
      InOrderOfSelf(a[1..]);
    }
  }

  lemma {:induction false} InOrderOfTrans<T>(a: seq<T>, b: seq<T>, c: seq<T>)
    requires InOrderOf(a, b) && InOrderOf(b, c)
    ensures InOrderOf(a, c)
    decreases |b| + |c|
  {
    if a != [] {
      if b[0] == c[0] && InOrderOf(b[1..], c[1..]) {
        if a[0] == b[0] && InOrderOf(a[1..], b[1..]) {
          InOrderOfTrans(a[1..], b[1..], c[1..]);
        } else {
          InOrderOfTrans(a, b[1..], c[1..]);
        }
      } else {
        InOrderOfTrans(a, b, c[1..]);
      }
    }
  }

  lemma {:induction false} InOrderOfAppended<T>(a: seq<T>, b: seq<T>, c: seq<T>)
    requires InOrderOf(a, b)
    ensures InOrderOf(a + c, b + c)
    decreases |b|
  {
    if b == [] {
      InOrderOfSelf(c);
      assert a + c == c && b + c == c;
    } else {
      assert (b + c)[1..] == b[1..] + c;
      if a != [] && a[0] == b[0] && InOrderOf(a[1..], b[1..]) {
        InOrderOfAppended(a[1..], b[1..], c);
        assert (a + c)[1..] == a[1..] + c;
      } else {
        InOrderOfAppended(a, b[1..], c);
      }
    }
  }

  lemma {:induction false} RemoveInOrder<T>(q: seq<T>, x: T)
    ensures InOrderOf(Remove(q, x), q)
  {
    if q != [] {
      if q[0] == x {
        InOrderOfSelf(q[1..]);
      } else {
        RemoveInOrder(q[1..], x);
        assert Remove(q, x)[1..] == Remove(q[1..], x);
      }
    }
  }
}
