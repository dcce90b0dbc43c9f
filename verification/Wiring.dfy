/**
 The port graph as a value: every port has at most one source and a list of destinations.
 `P` is the type of ports.
 */
module Wiring {
  import opened Wrappers
  import opened Sequences

  datatype Wires<!P(==)> = Wires(source: map<P, P>, destinations: map<P, seq<P>>)

  datatype Failure = AlreadyConnected | Spontaneous

  datatype Link<P> =
    | Connect(from: P, to: P)
    | Disconnect(from: P, to: P)

  function Destinations<P(==)>(w: Wires<P>, p: P): seq<P>
  {
    if p in w.destinations then w.destinations[p] else []
  }

  predicate IsSource<P(==)>(w: Wires<P>, s: P, d: P)
  {
    d in w.source && w.source[d] == s
  }

  /** Why a connection is refused, if it is. */
  function Refusal<P(==)>(w: Wires<P>, spontaneous: set<P>, s: P, d: P): Option<Failure>
  {
    if d in w.source && w.source[d] != s then Some(AlreadyConnected)
    else if d in spontaneous then Some(Spontaneous)
    else None
  }

  function Connected<P(==)>(w: Wires<P>, s: P, d: P): Wires<P>
  {
    Wires(w.source[d := s], w.destinations[s := Destinations(w, s) + [d]])
  }

  function Disconnected<P(==)>(w: Wires<P>, s: P, d: P): Wires<P>
  {
    if IsSource(w, s, d) then Wires(w.source - {d}, w.destinations[s := Remove(Destinations(w, s), d)]) else w
  }

  function Apply<P(==)>(w: Wires<P>, spontaneous: set<P>, link: Link<P>): Wires<P>
  {
    match link
    case Connect(s, d) => if Refusal(w, spontaneous, s, d).Some? then w else Connected(w, s, d)
    case Disconnect(s, d) => Disconnected(w, s, d)
  }

  function ApplyAll<P(==)>(w: Wires<P>, spontaneous: set<P>, links: seq<Link<P>>): Wires<P>
    decreases |links|
  {
    if links == [] then w else ApplyAll(Apply(w, spontaneous, links[0]), spontaneous, links[1..])
  }

  // ----- links and back links agree -----

  /** How many entries `s` has for destination `d` beyond the one that the source link explains. */
  function Excess<P(==)>(w: Wires<P>, s: P, d: P): int
  {
    (multiset(Destinations(w, s))[d] as int) - (if IsSource(w, s, d) then 1 else 0)
  }

  /**
   Source and destination links are converse and duplicate-free over `ports`: `d` stands in
   the destinations of `s` once if `s` is its source, and not at all otherwise.
   */
  ghost predicate Consistent<P>(w: Wires<P>, ports: set<P>)
  {
    forall s, d :: s in ports && d in ports ==> Excess(w, s, d) == 0
  }

  /** Every source link has its entry in the destinations of the source. */
  ghost predicate Covered<P>(w: Wires<P>, ports: set<P>)
  {
    forall s, d :: s in ports && d in ports ==> Excess(w, s, d) >= 0
  }

  /** Does this step connect two ports that are connected already? */
  predicate Repeats<P(==)>(w: Wires<P>, spontaneous: set<P>, link: Link<P>, s: P, d: P)
  {
    link == Connect(s, d) && IsSource(w, s, d) && d !in spontaneous
  }

  function RepeatCount<P(==)>(w: Wires<P>, spontaneous: set<P>, links: seq<Link<P>>, s: P, d: P): nat
    decreases |links|
  {
    if links == [] then 0
    else (if Repeats(w, spontaneous, links[0], s, d) then 1 else 0)
         + RepeatCount(Apply(w, spontaneous, links[0]), spontaneous, links[1..], s, d)
  }

  lemma ConnectedExcess<P>(w: Wires<P>, x: P, y: P, s: P, d: P)
    requires y in w.source ==> w.source[y] == x
    ensures Excess(Connected(w, x, y), s, d)
         == Excess(w, s, d) + (if s == x && d == y && IsSource(w, s, d) then 1 else 0)
  {
    var q, r := Destinations(w, s), Destinations(Connected(w, x, y), s);
    assert r == if s == x then q + [y] else q;
    assert multiset(q + [y])[d] == multiset(q)[d] + (if d == y then 1 else 0);
  }

  lemma DisconnectedExcess<P>(w: Wires<P>, x: P, y: P, s: P, d: P)
    requires Excess(w, x, y) >= 0
    ensures Excess(Disconnected(w, x, y), s, d) == Excess(w, s, d)
  {
    if IsSource(w, x, y) {
      var q, r := Destinations(w, s), Destinations(Disconnected(w, x, y), s);
      assert r == if s == x then Remove(q, y) else q;
      RemoveCounts(Destinations(w, x), y);
      assert multiset(Remove(Destinations(w, x), y))[d]
          == multiset(Destinations(w, x))[d] - (if d == y then 1 else 0);
    }
  }

  lemma ApplyExcess<P>(w: Wires<P>, spontaneous: set<P>, link: Link<P>, s: P, d: P)
    requires Excess(w, link.from, link.to) >= 0
    ensures Excess(Apply(w, spontaneous, link), s, d)
         == Excess(w, s, d) + (if Repeats(w, spontaneous, link, s, d) then 1 else 0)
  {
    match link
    case Connect(x, y) =>
      if Refusal(w, spontaneous, x, y).None? {
        ConnectedExcess(w, x, y, s, d);
      }
    case Disconnect(x, y) => DisconnectedExcess(w, x, y, s, d);
  }

  /**
   The excess is conserved: over any run it grows by one for each connection that was made
   while already in place, and nothing ever takes it back.
   */
  lemma {:induction false} ExcessCountsRepeats<P>(w: Wires<P>, spontaneous: set<P>, links: seq<Link<P>>, ports: set<P>, s: P, d: P)
    requires Covered(w, ports) && s in ports && d in ports
    requires forall k :: 0 <= k < |links| ==> links[k].from in ports && links[k].to in ports
    ensures Excess(ApplyAll(w, spontaneous, links), s, d) == Excess(w, s, d) + RepeatCount(w, spontaneous, links, s, d)
    decreases |links|
  {
    if links != [] {
      var r := Apply(w, spontaneous, links[0]);
      forall x, y | x in ports && y in ports
        ensures Excess(r, x, y) == Excess(w, x, y) + (if Repeats(w, spontaneous, links[0], x, y) then 1 else 0)
      {
        ApplyExcess(w, spontaneous, links[0], x, y);
      }
      ExcessCountsRepeats(r, spontaneous, links[1..], ports, s, d);
    }
  }

  /** A connected port keeps its source until the two are disconnected; nothing else takes its place. */
  lemma {:induction false} SourceStaysUntilDisconnected<P>(w: Wires<P>, spontaneous: set<P>, links: seq<Link<P>>, s: P, d: P)
    requires IsSource(w, s, d)
    requires forall k :: 0 <= k < |links| ==> links[k] != Disconnect(s, d)
    ensures IsSource(ApplyAll(w, spontaneous, links), s, d)
    decreases |links|
  {
    if links != [] {
      SourceStaysUntilDisconnected(Apply(w, spontaneous, links[0]), spontaneous, links[1..], s, d);
    }
  }

  /** A spontaneous output port is never fed by another port. */
  lemma {:induction false} SpontaneousStaysUnfed<P>(w: Wires<P>, spontaneous: set<P>, links: seq<Link<P>>, d: P)
    requires d in spontaneous && d !in w.source
    ensures d !in ApplyAll(w, spontaneous, links).source
    decreases |links|
  {
    if links != [] {
      SpontaneousStaysUnfed(Apply(w, spontaneous, links[0]), spontaneous, links[1..], d);
    }
  }

  /** The destinations to which `s` was connected in this run, in the order of the connections. */
  function Made<P(==)>(w: Wires<P>, spontaneous: set<P>, links: seq<Link<P>>, s: P): seq<P>
    decreases |links|
  {
    if links == [] then []
    else (if links[0].Connect? && links[0].from == s && Refusal(w, spontaneous, s, links[0].to).None? then [links[0].to] else [])
         + Made(Apply(w, spontaneous, links[0]), spontaneous, links[1..], s)
  }

  /** The destinations of a port stand in the order in which the connections still in place were made. */
  lemma {:induction false} DestinationsStandInOrder<P>(w: Wires<P>, spontaneous: set<P>, links: seq<Link<P>>, s: P)
    ensures InOrderOf(Destinations(ApplyAll(w, spontaneous, links), s), Destinations(w, s) + Made(w, spontaneous, links, s))
    decreases |links|
  {
    if links == [] {
      InOrderOfSelf(Destinations(w, s));
      assert Destinations(w, s) + [] == Destinations(w, s);
    } else {
      var r := Apply(w, spontaneous, links[0]);
      var later := Made(r, spontaneous, links[1..], s);
      DestinationsStandInOrder(r, spontaneous, links[1..], s);
      StepKeepsOrder(w, spontaneous, links[0], s, later);
      InOrderOfTrans(Destinations(ApplyAll(w, spontaneous, links), s), Destinations(r, s) + later,
        Destinations(w, s) + Made(w, spontaneous, links, s));
    }
  }

  lemma StepKeepsOrder<P>(w: Wires<P>, spontaneous: set<P>, link: Link<P>, s: P, later: seq<P>)
    ensures var made := if link.Connect? && link.from == s && Refusal(w, spontaneous, s, link.to).None? then [link.to] else [];
      InOrderOf(Destinations(Apply(w, spontaneous, link), s) + later, Destinations(w, s) + (made + later))
  {
    var q, r := Destinations(w, s), Destinations(Apply(w, spontaneous, link), s);
    if link.Connect? && link.from == s && Refusal(w, spontaneous, s, link.to).None? {
      assert r + later == q + ([link.to] + later);
      InOrderOfSelf(r + later);
    } else {
      assert [] + later == later;
      if r == q {
        InOrderOfSelf(q);
      } else {
        RemoveInOrder(q, link.to);
      }
      InOrderOfAppended(r, q, later);
    }
  }

  /** A run keeps the links consistent if and only if it never repeats a connection in place. */
  lemma ConsistentExactlyWithoutRepeats<P>(w: Wires<P>, spontaneous: set<P>, links: seq<Link<P>>, ports: set<P>)
    requires Consistent(w, ports)
    requires forall k :: 0 <= k < |links| ==> links[k].from in ports && links[k].to in ports
    ensures Consistent(ApplyAll(w, spontaneous, links), ports) <==>
            forall s, d :: s in ports && d in ports ==> RepeatCount(w, spontaneous, links, s, d) == 0
  {
    forall s, d | s in ports && d in ports
      ensures Excess(ApplyAll(w, spontaneous, links), s, d) == RepeatCount(w, spontaneous, links, s, d)
    {
      ExcessCountsRepeats(w, spontaneous, links, ports, s, d);
    }
  }

  // ----- disconnecting a port from everything -----

  /** One pass of the loop over the destinations of `p`. */
  function Peeled<P(==)>(w: Wires<P>, p: P): Wires<P>
  {
    if Destinations(w, p) == [] then w else Disconnected(w, p, Destinations(w, p)[0])
  }

  function PeeledTimes<P(==)>(w: Wires<P>, p: P, n: nat): Wires<P>
    decreases n
  {
    if n == 0 then w else PeeledTimes(Peeled(w, p), p, n - 1)
  }

  /** The loop over the destinations of `p` ends. */
  ghost predicate PeelingEnds<P>(w: Wires<P>, p: P)
  {
    exists n :: Destinations(PeeledTimes(w, p, n), p) == []
  }

  lemma {:induction false} ExcessKeepsPeeling<P>(w: Wires<P>, p: P, d: P, ports: set<P>, n: nat)
    requires Covered(w, ports) && p in ports && d in ports && Excess(w, p, d) > 0
    requires forall x :: x in Destinations(w, p) ==> x in ports
    ensures Destinations(PeeledTimes(w, p, n), p) != []
    decreases n
  {
    assert d in multiset(Destinations(w, p));
    if n > 0 {
      var x, r := Destinations(w, p)[0], Peeled(w, p);
      assert x in Destinations(w, p);
      forall y, z | y in ports && z in ports ensures Excess(r, y, z) == Excess(w, y, z) {
        ApplyExcess(w, {}, Disconnect(p, x), y, z);
      }
      PeeledStays(w, p);
      ExcessKeepsPeeling(r, p, d, ports, n - 1);
    }
  }

  lemma PeeledStays<P>(w: Wires<P>, p: P)
    ensures forall x :: x in Destinations(Peeled(w, p), p) ==> x in Destinations(w, p)
  {
  }

  lemma {:induction false} PeelingShrinks<P>(w: Wires<P>, p: P)
    requires forall d :: d in Destinations(w, p) ==> Excess(w, p, d) <= 0
    ensures Destinations(PeeledTimes(w, p, |Destinations(w, p)|), p) == []
    decreases |Destinations(w, p)|
  {
    if Destinations(w, p) != [] {
      var x, r := Destinations(w, p)[0], Peeled(w, p);
      assert x in Destinations(w, p);
      assert x in multiset(Destinations(w, p));
      forall d | d in Destinations(r, p) ensures Excess(r, p, d) <= 0 {
        PeeledStays(w, p);
        ApplyExcess(w, {}, Disconnect(p, x), p, d);
      }
      PeelingShrinks(r, p);
    }
  }

  /**
   Disconnecting a port from its destinations ends exactly when no connection from it was
   made twice; after a double connection the loop finds the same entry for ever.
   */
  lemma PeelingEndsExactly<P>(w: Wires<P>, p: P, ports: set<P>)
    requires Covered(w, ports) && p in ports
    requires forall x :: x in Destinations(w, p) ==> x in ports
    ensures PeelingEnds(w, p) <==> forall d :: d in ports ==> Excess(w, p, d) == 0
  {
    if d :| d in ports && Excess(w, p, d) != 0 {
      forall n: nat ensures Destinations(PeeledTimes(w, p, n), p) != [] {
        ExcessKeepsPeeling(w, p, d, ports, n);
      }
    } else {
      PeelingShrinks(w, p);
    }
  }

  /** The smallest case: connect a port to another twice, and disconnecting it never ends. */
  lemma DoubleConnectionNeverDisconnects(s: nat, d: nat)
    ensures var w := ApplyAll(Wires(map[], map[]), {}, [Connect(s, d), Connect(s, d)]);
      Destinations(w, s) == [d, d] && !PeelingEnds(w, s)
  {
    var w0: Wires<nat> := Wires(map[], map[]);
    var w1 := Connected(w0, s, d);
    var w2 := Connected(w1, s, d);
    assert Apply(w0, {}, Connect(s, d)) == w1 && Apply(w1, {}, Connect(s, d)) == w2;
    assert ApplyAll(w0, {}, [Connect(s, d), Connect(s, d)]) == ApplyAll(w1, {}, [Connect(s, d)]) == w2;
    var ports := {s, d};
    forall x, y | x in ports && y in ports ensures Excess(w2, x, y) == if x == s && y == d then 1 else 0 {
      assert Destinations(w2, s) == [d, d];
    }
    PeelingEndsExactly(w2, s, ports);
  }
}
