/**
 The wiring read from both ends. Going down, an event sent by a port is handed on by
 composite ports until it reaches ports of atomic accessors. Going up, the host finds the
 source of an input port by walking from source to source. The two agree.
 */
module Delivery {
  import opened Wiring
  import M = Models
  import opened Network
  import Arrivals

  /** The ports of atomic accessors that an event from `p` comes to through composites, from its k-th destination on. */
  function Reached(net: Network, p: nat, k: nat): seq<nat>
    requires Downhill(net)
    decreases Rank(net, p), |Out(net, p)| - k
  {
    if k >= |Out(net, p)| then []
    else ReachedVia(net, Out(net, p)[k]) + Reached(net, p, k + 1)
  }

  function ReachedVia(net: Network, d: nat): seq<nat>
    requires Downhill(net)
    decreases Rank(net, d), |Out(net, d)| + 1
  {
    if OwnerOf(net, d) !in net.initialized then []
    else if IsAtomic(net, OwnerOf(net, d)) then [d]
    else Reached(net, d, 0)
  }

  function DeliverAll(net: Network, s: State, ports: seq<nat>, e: Event): State
    requires Downhill(net) && Tree(net)
    decreases |ports|
  {
    if ports == [] then s else DeliverAll(net, Receive(net, s, ports[0], e), ports[1..], e)
  }

  lemma {:induction false} DeliverConcat(net: Network, s: State, xs: seq<nat>, ys: seq<nat>, e: Event)
    requires Downhill(net) && Tree(net)
    ensures DeliverAll(net, s, xs + ys, e) == DeliverAll(net, DeliverAll(net, s, xs, e), ys, e)
    decreases |xs|
  {
    if xs == [] {
      assert xs + ys == ys;
    } else {
      assert (xs + ys)[1..] == xs[1..] + ys;
      DeliverConcat(net, Receive(net, s, xs[0], e), xs[1..], ys, e);
    }
  }

  /** The hierarchy is transparent: sending through composites is delivering to the list of atomic ports. */
  lemma {:induction false} HierarchyIsTransparent(net: Network, s: State, p: nat, k: nat, e: Event)
    requires Downhill(net) && Tree(net)
    ensures SendFrom(net, s, p, k, e) == DeliverAll(net, s, Reached(net, p, k), e)
    decreases Rank(net, p), |Out(net, p)| - k
  {
    if k < |Out(net, p)| {
      var d := Out(net, p)[k];
      ReceiveIsTransparent(net, s, d, e);
      HierarchyIsTransparent(net, Receive(net, s, d, e), p, k + 1, e);
      DeliverConcat(net, s, ReachedVia(net, d), Reached(net, p, k + 1), e);
    }
  }

  lemma {:induction false} ReceiveIsTransparent(net: Network, s: State, d: nat, e: Event)
    requires Downhill(net) && Tree(net)
    ensures Receive(net, s, d, e) == DeliverAll(net, s, ReachedVia(net, d), e)
    decreases Rank(net, d), |Out(net, d)| + 1
  {
    if OwnerOf(net, d) in net.initialized {
      if IsAtomic(net, OwnerOf(net, d)) {
        assert DeliverAll(net, s, [d], e) == DeliverAll(net, Receive(net, s, d, e), [d][1..], e);
      } else {
        HierarchyIsTransparent(net, s, d, 0, e);
      }
    }
  }

  // ----- from below -----

  /** The input ports that are reached get the event: it is all that is added to their histories. */
  lemma ReachedReceives(net: Network, s: State, p: nat, e: Event, q: nat)
    requires Downhill(net) && Tree(net) && q in Reached(net, p, 0) && Queues(net, q)
    ensures var i, j := PortOf(s, q), PortOf(SendData(net, s, p, e), q);
      Arrivals.AddsOnly(i, j, e) && |j.received| > |i.received|
  {
    ReachedIsDeep(net, p, 0, q);
    Arrivals.SendingAddsOnly(net, s, p, e, q);
  }

  lemma {:induction false} ReachedIsDeep(net: Network, p: nat, k: nat, q: nat)
    requires Downhill(net) && q in Reached(net, p, k) && Queues(net, q)
    ensures q in Arrivals.Deep(net, p, k)
    decreases Rank(net, p), |Out(net, p)| - k
  {
    var d := Out(net, p)[k];
    if q in ReachedVia(net, d) {
      if !IsAtomic(net, OwnerOf(net, d)) {
        ReachedIsDeep(net, d, 0, q);
      }
    } else {
      ReachedIsDeep(net, p, k + 1, q);
    }
  }

  /** Links lie within the model's ports and are consistent. */
  ghost predicate LinksAgree(net: Network)
  {
    && Consistent(net.model.wires, net.model.owner.Keys)
    && (forall d :: d in net.model.wires.source ==> d in net.model.owner && net.model.wires.source[d] in net.model.owner)
    && (forall p, d {:trigger d in Out(net, p)} :: d in Out(net, p) ==> p in net.model.owner && d in net.model.owner)
  }

  lemma LinkBothWays(net: Network, p: nat, d: nat)
    requires LinksAgree(net)
    ensures d in Out(net, p) <==> IsSource(net.model.wires, p, d)
    ensures multiset(Out(net, p))[d] <= 1
  {
    if p in net.model.owner && d in net.model.owner {
      assert Excess(net.model.wires, p, d) == 0;
      assert d in Out(net, p) <==> d in multiset(Out(net, p));
    } else {
      assert d !in Out(net, p);
      assert d !in multiset(Out(net, p));
    }
  }

  lemma SourceIsUphill(net: Network, d: nat)
    requires LinksAgree(net) && Downhill(net) && d in net.model.wires.source
    ensures d in Out(net, net.model.wires.source[d])
    ensures Rank(net, d) < Rank(net, net.model.wires.source[d])
  {
    var p := net.model.wires.source[d];
    LinkBothWays(net, p, d);
    var k :| 0 <= k < |Out(net, p)| && Out(net, p)[k] == d;
  }

  /** The port `n` source links above `i`, if there is one. */
  predicate IsAbove(net: Network, i: nat, n: nat, p: nat)
    decreases n
  {
    if n == 0 then p == i
    else i in net.model.wires.source && IsAbove(net, net.model.wires.source[i], n - 1, p)
  }

  lemma {:induction false} AboveStep(net: Network, i: nat, n: nat, d: nat)
    requires IsAbove(net, i, n, d) && d in net.model.wires.source
    ensures IsAbove(net, i, n + 1, net.model.wires.source[d])
    decreases n
  {
    if n > 0 {
      AboveStep(net, net.model.wires.source[i], n - 1, d);
    }
  }

  lemma {:induction false} AboveIsUphill(net: Network, i: nat, m: nat, x: nat, n: nat, y: nat)
    requires LinksAgree(net) && Downhill(net) && IsAbove(net, i, m, x) && IsAbove(net, i, n, y) && m <= n
    ensures Rank(net, x) <= Rank(net, y) && (m == n ==> x == y)
    decreases n
  {
    if m > 0 {
      AboveIsUphill(net, net.model.wires.source[i], m - 1, x, n - 1, y);
    } else if n > 0 {
      SourceIsUphill(net, i);
      var up := net.model.wires.source[i];
      AboveIsUphill(net, up, 0, up, n - 1, y);
    }
  }

  lemma {:induction false} ReachedIsAbove(net: Network, p: nat, k: nat, i: nat) returns (n: nat, j: nat)
    requires LinksAgree(net) && Downhill(net) && i in Reached(net, p, k)
    ensures k <= j < |Out(net, p)| && IsAbove(net, i, n, Out(net, p)[j]) && IsAbove(net, i, n + 1, p)
    ensures i in ReachedVia(net, Out(net, p)[j])
    decreases Rank(net, p), |Out(net, p)| - k
  {
    var d := Out(net, p)[k];
    if i in ReachedVia(net, d) {
      j := k;
      n := ViaIsAbove(net, d, i);
      assert d in Out(net, p);
      LinkBothWays(net, p, d);
      AboveStep(net, i, n, d);
    } else {
      n, j := ReachedIsAbove(net, p, k + 1, i);
    }
  }

  lemma {:induction false} ViaIsAbove(net: Network, d: nat, i: nat) returns (n: nat)
    requires LinksAgree(net) && Downhill(net) && i in ReachedVia(net, d)
    ensures IsAbove(net, i, n, d)
    decreases Rank(net, d), |Out(net, d)| + 1
  {
    if IsAtomic(net, OwnerOf(net, d)) {
      n := 0;
    } else {
      var m, j := ReachedIsAbove(net, d, 0, i);
      n := m + 1;
    }
  }

  lemma SiblingNotHigher(net: Network, i: nat, m: nat, x: nat, n: nat, y: nat, p: nat)
    requires LinksAgree(net) && Downhill(net) && IsAbove(net, i, m, x) && IsAbove(net, i, n, y)
    requires IsSource(net.model.wires, p, x) && IsSource(net.model.wires, p, y)
    ensures n <= m
  {
    SourceIsUphill(net, y);
    AboveStep(net, i, m, x);
    if m < n {
      AboveIsUphill(net, i, m + 1, p, n, y);
    }
  }

  /** Two ports above one port with one and the same source are the same. */
  lemma SiblingsAbove(net: Network, i: nat, m: nat, x: nat, n: nat, y: nat, p: nat)
    requires LinksAgree(net) && Downhill(net) && IsAbove(net, i, m, x) && IsAbove(net, i, n, y)
    requires IsSource(net.model.wires, p, x) && IsSource(net.model.wires, p, y)
    ensures x == y
  {
    SiblingNotHigher(net, i, m, x, n, y, p);
    SiblingNotHigher(net, i, n, y, m, x, p);
    AboveIsUphill(net, i, m, x, n, y);
  }

  lemma {:induction false} ReachedAtMostOnce(net: Network, p: nat, k: nat, i: nat)
    requires LinksAgree(net) && Downhill(net)
    ensures multiset(Reached(net, p, k))[i] <= 1
    decreases Rank(net, p), |Out(net, p)| - k
  {
    if k < |Out(net, p)| {
      var d := Out(net, p)[k];
      ReachedAtMostOnce(net, p, k + 1, i);
      ViaAtMostOnce(net, d, i);
      var via, rest := ReachedVia(net, d), Reached(net, p, k + 1);
      assert multiset(via + rest) == multiset(via) + multiset(rest);
      if i in via && i in rest {
        NotTwice(net, p, k, i);
      }
      assert i in via <==> i in multiset(via);
      assert i in rest <==> i in multiset(rest);
    }
  }

  lemma {:induction false} ViaAtMostOnce(net: Network, d: nat, i: nat)
    requires LinksAgree(net) && Downhill(net)
    ensures multiset(ReachedVia(net, d))[i] <= 1
    decreases Rank(net, d), |Out(net, d)| + 1
  {
    if OwnerOf(net, d) in net.initialized && !IsAtomic(net, OwnerOf(net, d)) {
      ReachedAtMostOnce(net, d, 0, i);
    }
  }

  lemma NotTwice(net: Network, p: nat, k: nat, i: nat)
    requires LinksAgree(net) && Downhill(net) && k < |Out(net, p)|
    requires i in ReachedVia(net, Out(net, p)[k])
    ensures i !in Reached(net, p, k + 1)
  {
    if i in Reached(net, p, k + 1) {
      var d := Out(net, p)[k];
      var m := ViaIsAbove(net, d, i);
      var n, j := ReachedIsAbove(net, p, k + 1, i);
      var x := Out(net, p)[j];
      assert d in Out(net, p) && x in Out(net, p);
      LinkBothWays(net, p, d);
      LinkBothWays(net, p, x);
      SiblingsAbove(net, i, m, d, n, x, p);
      Twice(Out(net, p), k, j);
    }
  }

  lemma Twice(q: seq<nat>, k: nat, j: nat)
    requires k < j < |q| && q[k] == q[j]
    ensures multiset(q)[q[k]] >= 2
  {
    assert q == q[..j] + q[j..];
    assert multiset(q) == multiset(q[..j]) + multiset(q[j..]);
    assert q[..j][k] == q[k] && q[j..][0] == q[k];
    assert q[k] in multiset(q[..j]) && q[k] in multiset(q[j..]);
  }

  // ----- both ends agree -----

  /** The composite ports on the walk up from `q` belong to initialised accessors. */
  predicate LiveUp(net: Network, q: nat, seen: set<nat>)
    decreases M.CompositePorts(net.model) - seen
  {
    q in M.CompositePorts(net.model) ==>
      && q !in seen && OwnerOf(net, q) in net.initialized
      && (q in net.model.wires.source ==> LiveUp(net, net.model.wires.source[q], seen + {q}))
  }

  lemma {:induction false} SeenBelowIsIrrelevant(net: Network, p: nat, seen: set<nat>, others: set<nat>)
    requires LinksAgree(net) && Downhill(net)
    requires forall x :: x in seen + others ==> Rank(net, x) < Rank(net, p)
    ensures M.WalkUp(net.model, p, seen) == M.WalkUp(net.model, p, others)
    ensures LiveUp(net, p, seen) == LiveUp(net, p, others)
    decreases M.CompositePorts(net.model) - seen
  {
    assert p !in seen + others;
    if p in M.CompositePorts(net.model) && p in net.model.wires.source {
      SourceIsUphill(net, p);
      SeenBelowIsIrrelevant(net, net.model.wires.source[p], seen + {p}, others + {p});
    }
  }

  /** What is reached from `p` finds `p` on its walk up, through live composites only. */
  lemma {:induction false} ReachedWalksUp(net: Network, p: nat, k: nat, i: nat)
    requires LinksAgree(net) && Downhill(net) && i in Reached(net, p, k)
    ensures i in net.model.wires.source && OwnerOf(net, i) in net.initialized
    ensures M.SourceOf(net.model, i) == M.WalkUp(net.model, p, {})
    ensures LiveUp(net, net.model.wires.source[i], {}) == LiveUp(net, p, {})
    decreases Rank(net, p), |Out(net, p)| - k
  {
    var d := Out(net, p)[k];
    if i in ReachedVia(net, d) {
      assert d in Out(net, p);
      LinkBothWays(net, p, d);
      if !IsAtomic(net, OwnerOf(net, d)) {
        ReachedWalksUp(net, d, 0, i);
        assert d in M.CompositePorts(net.model);
        SourceIsUphill(net, d);
        SeenBelowIsIrrelevant(net, p, {} + {d}, {});
      }
    } else {
      ReachedWalksUp(net, p, k + 1, i);
    }
  }

  lemma {:induction false} ReachedFrom(net: Network, p: nat, k: nat, j: nat, i: nat)
    requires Downhill(net) && k <= j < |Out(net, p)| && i in ReachedVia(net, Out(net, p)[j])
    ensures i in Reached(net, p, k)
    decreases j - k
  {
    if k < j {
      ReachedFrom(net, p, k + 1, j, i);
    }
  }

  /** A live walk up from `d`, below which `i` is reached, ends at a port that reaches `i`. */
  lemma {:induction false} WalkEndsAbove(net: Network, i: nat, d: nat, seen: set<nat>)
    requires LinksAgree(net) && Downhill(net) && i in ReachedVia(net, d) && d in net.model.wires.source
    ensures var walk := M.WalkUp(net.model, net.model.wires.source[d], seen);
      LiveUp(net, net.model.wires.source[d], seen) && walk.Found? ==> i in Reached(net, walk.port, 0)
    decreases M.CompositePorts(net.model) - seen
  {
    var p := net.model.wires.source[d];
    SourceIsUphill(net, d);
    var j :| 0 <= j < |Out(net, p)| && Out(net, p)[j] == d;
    ReachedFrom(net, p, 0, j, i);
    if p in M.CompositePorts(net.model) && p !in seen && p in net.model.wires.source && OwnerOf(net, p) in net.initialized {
      WalkEndsAbove(net, i, p, seen + {p});
    }
  }

  /**
   The two views agree. Port `o` of an atomic accessor sends to input port `i` through the
   composites exactly once, if `o` is the source that the walk up from `i` finds and every
   accessor on the way is initialised; and not at all otherwise.
   */
  lemma SentOnceExactlyFromSource(net: Network, o: nat, i: nat)
    requires LinksAgree(net) && Downhill(net)
    requires o in net.model.owner && IsAtomic(net, OwnerOf(net, o))
    requires i in net.model.owner && IsAtomic(net, OwnerOf(net, i))
    ensures multiset(Reached(net, o, 0))[i] ==
      if M.SourceOf(net.model, i) == M.Found(o) && OwnerOf(net, i) in net.initialized
        && LiveUp(net, net.model.wires.source[i], {}) then 1 else 0
  {
    ReachedAtMostOnce(net, o, 0, i);
    assert i in Reached(net, o, 0) <==> i in multiset(Reached(net, o, 0));
    assert o !in M.CompositePorts(net.model);
    if i in Reached(net, o, 0) {
      ReachedWalksUp(net, o, 0, i);
    } else if M.SourceOf(net.model, i) == M.Found(o) && OwnerOf(net, i) in net.initialized
              && LiveUp(net, net.model.wires.source[i], {}) {
      WalkEndsAbove(net, i, i, {});
    }
  }
}
