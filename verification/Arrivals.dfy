/**
 Which events come to which ports, and at what priority they wake whom. Sending an event adds
 copies of that event to the input ports below, and nothing else.
 */
module Arrivals {
  import opened Network
  import opened EventLaws

  // ----- the input ports below a port -----

  /** The input ports that an event from `p` comes to before any of them passes it on, from the k-th destination on. */
  function Deep(net: Network, p: nat, k: nat): seq<nat>
    requires Downhill(net)
    decreases Rank(net, p), |Out(net, p)| - k
  {
    if k >= |Out(net, p)| then [] else DeepVia(net, Out(net, p)[k]) + Deep(net, p, k + 1)
  }

  function DeepVia(net: Network, d: nat): seq<nat>
    requires Downhill(net)
    decreases Rank(net, d), |Out(net, d)| + 1
  {
    if OwnerOf(net, d) !in net.initialized then []
    else if Queues(net, d) then [d]
    else Deep(net, d, 0)
  }

  function Occurs(list: seq<nat>, q: nat): nat
  {
    multiset(list)[q]
  }

  function Copies(n: nat, e: Event): seq<Event>
  {
    seq(n, _ => e)
  }

  /** Nothing that `x` passes on comes to `q`. */
  predicate Silent(net: Network, x: nat, q: nat)
    requires Downhill(net)
  {
    q !in Deep(net, x, 0)
  }

  /** Besides `p` no input port passes events on to `q`. */
  ghost predicate OnlyPassedOnBy(net: Network, q: nat, p: nat)
    requires Downhill(net)
  {
    forall x: nat {:trigger Silent(net, x, q)} :: Queues(net, x) && x != p ==> Silent(net, x, q)
  }

  // ----- what sending adds -----

  /**
   From `i` to `j` port `q` received `n` copies of `e`, while port `p` passed on `m` copies.
   Every copy passed on comes to `q` as often as `q` is below `p`.
   */
  ghost predicate Grew(net: Network, s: State, r: State, e: Event, q: nat, n: nat, p: nat, m: nat, direct: nat)
    requires Downhill(net)
  {
    && PortOf(r, q).received == PortOf(s, q).received + Copies(n, e)
    && PortOf(r, p).forwarded == PortOf(s, p).forwarded + Copies(m, e)
    && n >= direct
    && Counted(net, q, n, p, m, direct)
  }

  /** Marks the places where the wiring below a port is looked into. */
  ghost predicate Looked(x: int)
  {
    true
  }

  /** The copies are the direct ones and those that `p` passed on, if `p` alone passes events on to `q`. */
  ghost predicate Counted(net: Network, q: nat, n: nat, p: nat, m: nat, direct: nat)
    requires Downhill(net)
  {
    forall x {:trigger Looked(x)} :: Looked(x) ==>
      OnlyPassedOnBy(net, q, p) ==> n == direct + m * Occurs(Deep(net, p, 0), q)
  }

  lemma GrewTrans(
      net: Network, s: State, t: State, r: State, e: Event, q: nat, p: nat,
      n: nat, m: nat, direct: nat, n': nat, m': nat, direct': nat)
    requires Downhill(net)
    requires Grew(net, s, t, e, q, n, p, m, direct) && Grew(net, t, r, e, q, n', p, m', direct')
    ensures Grew(net, s, r, e, q, n + n', p, m + m', direct + direct')
  {
    assert Copies(n, e) + Copies(n', e) == Copies(n + n', e);
    assert Copies(m, e) + Copies(m', e) == Copies(m + m', e);
    CountedTrans(net, q, n, p, m, direct, n', m', direct');
  }

  lemma CountedTrans(net: Network, q: nat, n: nat, p: nat, m: nat, direct: nat, n': nat, m': nat, direct': nat)
    requires Downhill(net) && Counted(net, q, n, p, m, direct) && Counted(net, q, n', p, m', direct')
    ensures Counted(net, q, n + n', p, m + m', direct + direct')
  {
    assert Looked(0);
    Distributes(m, m', Occurs(Deep(net, p, 0), q));
  }

  lemma Distributes(m: nat, m': nat, c: nat)
    ensures (m + m') * c == m * c + m' * c
  {
  }

  lemma AbsentOccurs(list: seq<nat>, q: nat)
    ensures q in list <==> Occurs(list, q) > 0
  {
  }

  lemma ZeroTimes(m: nat)
    ensures m * 0 == 0 && 0 * m == 0
  {
  }

  lemma NothingGrew(net: Network, s: State, r: State, e: Event, q: nat, p: nat)
    requires Downhill(net) && PortOf(r, q).received == PortOf(s, q).received && PortOf(r, p).forwarded == PortOf(s, p).forwarded
    ensures Grew(net, s, r, e, q, 0, p, 0, 0)
  {
    ZeroTimes(Occurs(Deep(net, p, 0), q));
    assert Copies(0, e) == [];
  }

  /** Sending `e` adds copies of `e` to the ports below, and leaves the ports above alone. */
  lemma {:induction false} SendGrows(net: Network, s: State, x: nat, k: nat, e: Event, q: nat, p: nat) returns (n: nat, m: nat)
    requires Downhill(net) && Tree(net)
    ensures Grew(net, s, SendFrom(net, s, x, k, e), e, q, n, p, m, Occurs(Deep(net, x, k), q))
    ensures Rank(net, q) >= Rank(net, x) ==> n == 0
    decreases Rank(net, x), |Out(net, x)| - k
  {
    if k >= |Out(net, x)| {
      NothingGrew(net, s, s, e, q, p);
      n, m := 0, 0;
    } else {
      var d := Out(net, x)[k];
      n, m := ReceiveGrows(net, s, d, e, q, p);
      var t := Receive(net, s, d, e);
      var n', m' := SendGrows(net, t, x, k + 1, e, q, p);
      GrewTrans(net, s, t, SendFrom(net, t, x, k + 1, e), e, q, p,
        n, m, Occurs(DeepVia(net, d), q), n', m', Occurs(Deep(net, x, k + 1), q));
      n, m := n + n', m + m';
    }
  }

  /** Receiving `e` does so too; an initialised input port appends exactly one. */
  lemma {:induction false} ReceiveGrows(net: Network, s: State, d: nat, e: Event, q: nat, p: nat) returns (n: nat, m: nat)
    requires Downhill(net) && Tree(net)
    ensures Grew(net, s, Receive(net, s, d, e), e, q, n, p, m, Occurs(DeepVia(net, d), q))
    ensures Rank(net, q) > Rank(net, d) ==> n == 0
    ensures q == d && Queues(net, d) && OwnerOf(net, d) in net.initialized ==> n == 1
    decreases Rank(net, d), |Out(net, d)| + 2
  {
    if OwnerOf(net, d) !in net.initialized {
      NothingGrew(net, s, s, e, q, p);
      n, m := 0, 0;
    } else if !Queues(net, d) {
      n, m := SendGrows(net, s, d, 0, e, q, p);
    } else {
      n, m := InputGrows(net, s, d, e, q, p);
    }
  }

  lemma {:induction false} InputGrows(net: Network, s: State, d: nat, e: Event, q: nat, p: nat) returns (n: nat, m: nat)
    requires Downhill(net) && Tree(net) && Queues(net, d) && OwnerOf(net, d) in net.initialized
    ensures Grew(net, s, Receive(net, s, d, e), e, q, n, p, m, Occurs([d], q))
    ensures Rank(net, q) > Rank(net, d) ==> n == 0
    ensures q == d ==> n == 1
    decreases Rank(net, d), |Out(net, d)| + 1
  {
    if PortOf(s, d).waiting || !QueueInput(PortOf(s, d), e).waiting {
      BusyGrows(net, s, d, e, q, p);
      n, m := if q == d then 1 else 0, 0;
    } else {
      var u := IdleTakes(net, s, d, e, q, p);
      var n', m' := SendGrows(net, u, d, 0, e, q, p);
      PassingCounts(net, s, u, SendData(net, u, d, e), d, e, q, p, n', m');
      n, m := n' + (if q == d then 1 else 0), m' + if p == d then 1 else 0;
    }
  }

  lemma BusyGrows(net: Network, s: State, d: nat, e: Event, q: nat, p: nat)
    requires Downhill(net)
    ensures var r := s.(ports := s.ports[d := QueueInput(PortOf(s, d), e)]);
      Grew(net, s, r, e, q, if q == d then 1 else 0, p, 0, Occurs([d], q))
  {
    assert Copies(0, e) == [] && Copies(1, e) == [e];
    ZeroTimes(Occurs(Deep(net, p, 0), q));
  }

  /** The port has taken the event, and its accessor was alerted; now the event is passed on. */
  lemma IdleTakes(net: Network, s: State, d: nat, e: Event, q: nat, p: nat) returns (u: State)
    requires Downhill(net) && Tree(net) && Queues(net, d) && OwnerOf(net, d) in net.initialized
    requires !PortOf(s, d).waiting && QueueInput(PortOf(s, d), e).waiting
    ensures Receive(net, s, d, e) == SendData(net, u, d, e)
    ensures PortOf(u, q).received == PortOf(s, q).received + Copies(if q == d then 1 else 0, e)
    ensures PortOf(u, p).forwarded == PortOf(s, p).forwarded + Copies(if p == d then 1 else 0, e)
  {
    var i := QueueInput(PortOf(s, d), e);
    var t := s.(ports := s.ports[d := i.(forwarded := i.forwarded + [e])]);
    u := AlertNewInput(net, t, OwnerOf(net, d));
    AlertKeepsPorts(net, t, OwnerOf(net, d));
    assert Copies(0, e) == [] && Copies(1, e) == [e];
    assert PortOf(u, q) == PortOf(t, q) && PortOf(u, p) == PortOf(t, p);
  }

  /** What an idle input port adds for itself, and by passing the event on. */
  lemma PassingCounts(net: Network, s: State, u: State, r: State, d: nat, e: Event, q: nat, p: nat, n: nat, m: nat)
    requires Downhill(net) && Queues(net, d)
    requires PortOf(u, q).received == PortOf(s, q).received + Copies(if q == d then 1 else 0, e)
    requires PortOf(u, p).forwarded == PortOf(s, p).forwarded + Copies(if p == d then 1 else 0, e)
    requires Grew(net, u, r, e, q, n, p, m, Occurs(Deep(net, d, 0), q)) && (q == d ==> n == 0)
    ensures Grew(net, s, r, e, q, n + (if q == d then 1 else 0), p, m + (if p == d then 1 else 0), Occurs([d], q))
  {
    var own, passed := if q == d then 1 else 0, if p == d then 1 else 0;
    assert Copies(own, e) + Copies(n, e) == Copies(own + n, e);
    assert Copies(passed, e) + Copies(m, e) == Copies(passed + m, e);
    PassingCounted(net, d, q, n, p, m);
  }

  lemma PassingCounted(net: Network, d: nat, q: nat, n: nat, p: nat, m: nat)
    requires Downhill(net) && Queues(net, d) && Counted(net, q, n, p, m, Occurs(Deep(net, d, 0), q))
    ensures Counted(net, q, n + (if q == d then 1 else 0), p, m + (if p == d then 1 else 0), Occurs([d], q))
  {
    assert Looked(0);
    Distributes(if p == d then 1 else 0, m, Occurs(Deep(net, p, 0), q));
    if OnlyPassedOnBy(net, q, p) && p != d {
      assert Silent(net, d, q);
      AbsentOccurs(Deep(net, d, 0), q);
    }
  }

  /** A port that no input port passes events on to gets its direct copies and no others. */
  lemma SendGrowsAlone(net: Network, s: State, x: nat, e: Event, q: nat)
    requires Downhill(net) && Tree(net) && OnlyPassedOnBy(net, q, q) && q !in Deep(net, q, 0)
    ensures PortOf(SendData(net, s, x, e), q).received == PortOf(s, q).received + Copies(Occurs(Deep(net, x, 0), q), e)
  {
    var n, m := SendGrows(net, s, x, 0, e, q, q);
    AbsentOccurs(Deep(net, q, 0), q);
    ZeroTimes(m);
    assert Looked(0);
    assert n == Occurs(Deep(net, x, 0), q) + m * Occurs(Deep(net, q, 0), q);
  }

  // ----- the events themselves -----

  /** From `i` to `j` only copies of `e` came in. */
  ghost predicate AddsOnly(i: InputPort, j: InputPort, e: Event)
  {
    exists n: nat :: j.received == i.received + Copies(n, e)
  }

  /** An initialised input port that receives an event appends exactly this event to its history. */
  lemma ReceivingAppends(net: Network, s: State, p: nat, e: Event)
    requires Downhill(net) && Tree(net) && Queues(net, p) && OwnerOf(net, p) in net.initialized
    ensures PortOf(Receive(net, s, p, e), p).received == PortOf(s, p).received + [e]
  {
    var n, m := ReceiveGrows(net, s, p, e, p, p);
    assert Copies(1, e) == [e];
  }

  /** All that sending `e` adds to any port's history is `e`, and every input port below gets it. */
  lemma SendingAddsOnly(net: Network, s: State, p: nat, e: Event, q: nat)
    requires Downhill(net) && Tree(net)
    ensures AddsOnly(PortOf(s, q), PortOf(SendData(net, s, p, e), q), e)
    ensures q in Deep(net, p, 0) ==> |PortOf(SendData(net, s, p, e), q).received| > |PortOf(s, q).received|
    ensures Rank(net, q) >= Rank(net, p) ==> PortOf(SendData(net, s, p, e), q).received == PortOf(s, q).received
  {
    var n, m := SendGrows(net, s, p, 0, e, q, q);
    assert q in Deep(net, p, 0) <==> Occurs(Deep(net, p, 0), q) > 0;
  }

  /** What a handled port passes on. */
  function PassedOn(i: InputPort): seq<Event>
  {
    if |i.queue| > 1 && i.queue[1] != Null then [i.queue[1]] else []
  }

  /**
   When the handlers of port `p` have taken its front event, the next event, now at the front,
   is passed on: it is all that any port receives, and every input port below `p` gets it.
   */
  lemma HandlingPassesFrontOn(net: Network, s: State, a: nat, p: nat, q: nat)
    requires Downhill(net) && Tree(net) && p in net.handlers && PortOf(s, p).waiting && PortOf(s, p).queue != []
    ensures var i := PortOf(s, p);
      var r := HandleInput(net, s, a, p);
      var j := PortOf(r, q);
      && PortOf(r, p).handled == i.handled + [i.queue[0]] && PortOf(r, p).received == i.received
      && PortOf(r, p).queue == i.queue[1..] && PortOf(r, p).forwarded == i.forwarded + PassedOn(i)
      && (PassedOn(i) == [] ==> j.received == PortOf(s, q).received)
      && (PassedOn(i) != [] ==> AddsOnly(PortOf(s, q), j, i.queue[1]))
      && (PassedOn(i) != [] && q in Deep(net, p, 0) ==> |j.received| > |PortOf(s, q).received|)
  {
    var i := PortOf(s, p);
    var d := DequeueLatestInput(i);
    if PassedOn(i) == [] {
      assert Copies(0, Null) == [];
    } else {
      var u := HandledTakes(net, s, a, p);
      SendingAddsOnly(net, u, p, d.queue[0], q);
      SendKeepsItself(net, u, p, d.queue[0]);
    }
  }

  /** The front event is handled and the next one is recorded as passed on; now it is sent. */
  lemma HandledTakes(net: Network, s: State, a: nat, p: nat) returns (u: State)
    requires Downhill(net) && Tree(net) && p in net.handlers && PortOf(s, p).waiting && PassedOn(PortOf(s, p)) != []
    ensures HandleInput(net, s, a, p) == SendData(net, u, p, PortOf(s, p).queue[1])
    ensures var d := DequeueLatestInput(PortOf(s, p));
      u.ports == s.ports[p := d.(forwarded := d.forwarded + [d.queue[0]])] && u.thrown == s.thrown
  {
    var d := DequeueLatestInput(PortOf(s, p));
    var t := s.(ports := s.ports[p := d.(forwarded := d.forwarded + [d.queue[0]])]);
    u := AlertNewInput(net, t, a);
    AlertKeepsPorts(net, t, a);
  }

  /** Sending leaves the port itself, and all ports above, as they are. */
  lemma {:induction false} SendKeepsAbove(net: Network, s: State, p: nat, k: nat, e: Event, q: nat)
    requires Downhill(net) && Tree(net) && Rank(net, q) >= Rank(net, p)
    ensures PortOf(SendFrom(net, s, p, k, e), q) == PortOf(s, q)
    decreases Rank(net, p), |Out(net, p)| - k
  {
    if k < |Out(net, p)| {
      var d := Out(net, p)[k];
      ReceiveKeepsAbove(net, s, d, e, q);
      SendKeepsAbove(net, Receive(net, s, d, e), p, k + 1, e, q);
    }
  }

  lemma {:induction false} ReceiveKeepsAbove(net: Network, s: State, d: nat, e: Event, q: nat)
    requires Downhill(net) && Tree(net) && Rank(net, q) > Rank(net, d)
    ensures PortOf(Receive(net, s, d, e), q) == PortOf(s, q)
    decreases Rank(net, d), |Out(net, d)| + 1
  {
    if OwnerOf(net, d) in net.initialized {
      if !Queues(net, d) {
        SendKeepsAbove(net, s, d, 0, e, q);
      } else if !PortOf(s, d).waiting && QueueInput(PortOf(s, d), e).waiting {
        var i := QueueInput(PortOf(s, d), e);
        var t := s.(ports := s.ports[d := i.(forwarded := i.forwarded + [e])]);
        var u := AlertNewInput(net, t, OwnerOf(net, d));
        AlertKeepsPorts(net, t, OwnerOf(net, d));
        assert PortOf(u, q) == PortOf(s, q);
        SendKeepsAbove(net, u, d, 0, e, q);
      }
    }
  }

  lemma SendKeepsItself(net: Network, s: State, p: nat, e: Event)
    requires Downhill(net) && Tree(net)
    ensures PortOf(SendData(net, s, p, e), p) == PortOf(s, p)
  {
    SendKeepsAbove(net, s, p, 0, e, p);
  }
}
