/**
 The conservation law of events. Every delivery and every queued event stands for a fixed
 number of reactions still to come; sending adds exactly that number, handling an event
 takes off exactly one, and nothing else changes it.
 */
module EventLaws {
  import AccessorOrder
  import opened Network

  // ----- what one event will cost -----

  /** How many times handlers will run because `p` receives one event. */
  function ReceiveCost(net: Network, p: nat): nat
    requires Downhill(net)
    decreases Rank(net, p), |Out(net, p)| + 2
  {
    if OwnerOf(net, p) !in net.initialized then 0
    else (if Queues(net, p) then 1 else 0) + SendCost(net, p, 0)
  }

  /** The same for the destinations of `p` from the k-th on. */
  function SendCost(net: Network, p: nat, k: nat): nat
    requires Downhill(net)
    decreases Rank(net, p), |Out(net, p)| - k
  {
    if k >= |Out(net, p)| then 0 else ReceiveCost(net, Out(net, p)[k]) + SendCost(net, p, k + 1)
  }

  /** The front event has been passed on and waits for its handlers; the others have all before them. */
  function PortLoad(net: Network, i: InputPort, p: nat): nat
    requires Downhill(net)
  {
    if i.queue == [] then 0 else 1 + Times(|i.queue| - 1, 1 + SendCost(net, p, 0))
  }

  function Times(n: nat, c: nat): nat
  {
    if n == 0 then 0 else c + Times(n - 1, c)
  }

  function LoadOf(net: Network, s: State, ports: seq<nat>): nat
    requires Downhill(net)
  {
    if ports == [] then 0 else PortLoad(net, PortOf(s, ports[0]), ports[0]) + LoadOf(net, s, ports[1..])
  }

  function DoneOf(s: State, ports: seq<nat>): nat
  {
    if ports == [] then 0 else |PortOf(s, ports[0]).handled| + DoneOf(s, ports[1..])
  }

  /** How many times handlers will still run. */
  function Load(net: Network, s: State): nat
    requires Downhill(net)
  {
    LoadOf(net, s, net.inputs)
  }

  /** How many times handlers have run. */
  function Done(net: Network, s: State): nat
  {
    DoneOf(s, net.inputs)
  }

  ghost predicate AllOrderly(s: State)
  {
    forall p {:trigger PortOf(s, p)} :: Orderly(PortOf(s, p))
  }

  // ----- changing one port -----

  function WithPort(s: State, p: nat, i: InputPort): State
  {
    s.(ports := s.ports[p := i])
  }

  lemma {:induction false} SumsWithPort(net: Network, s: State, p: nat, i: InputPort, ports: seq<nat>)
    requires Downhill(net) && forall j, k :: 0 <= j < k < |ports| ==> ports[j] != ports[k]
    ensures LoadOf(net, WithPort(s, p, i), ports) - LoadOf(net, s, ports)
         == if p in ports then PortLoad(net, i, p) - PortLoad(net, PortOf(s, p), p) else 0
    ensures DoneOf(WithPort(s, p, i), ports) - DoneOf(s, ports)
         == if p in ports then |i.handled| - |PortOf(s, p).handled| else 0
    decreases |ports|
  {
    if ports != [] {
      SumsWithPort(net, s, p, i, ports[1..]);
      assert p in ports <==> p == ports[0] || p in ports[1..];
      assert ports[0] !in ports[1..];
    }
  }

  lemma {:induction false} SumsSamePorts(net: Network, s: State, r: State, ports: seq<nat>)
    requires Downhill(net) && s.ports == r.ports
    ensures LoadOf(net, s, ports) == LoadOf(net, r, ports) && DoneOf(s, ports) == DoneOf(r, ports)
    decreases |ports|
  {
    if ports != [] {
      SumsSamePorts(net, s, r, ports[1..]);
    }
  }

  lemma {:induction false} ScheduleKeepsPorts(net: Network, s: State, c: nat, child: nat, priority: int)
    requires Tree(net)
    ensures ScheduleReaction(net, s, c, child, priority).ports == s.ports
    ensures ScheduleReaction(net, s, c, child, priority).thrown == s.thrown
    decreases Height(net, net.host) - Height(net, c)
  {
    if c in net.parent {
      var p := if priority == AccessorOrder.INT_MAX then PriorityOf(net, c) else priority;
      ScheduleKeepsPorts(net, Pushed(s, c, child), net.parent[c], c, p);
    }
  }

  lemma AlertKeepsPorts(net: Network, s: State, a: nat)
    requires Tree(net)
    ensures AlertNewInput(net, s, a).ports == s.ports && AlertNewInput(net, s, a).thrown == s.thrown
  {
    if a in net.parent {
      ScheduleKeepsPorts(net, s, net.parent[a], a, PriorityOf(net, a));
    }
  }

  // ----- the law for sending -----

  /** `r` follows from `s` by deliveries that cost `cost` and handle nothing. */
  ghost predicate Delivered(net: Network, s: State, r: State, cost: nat)
    requires Downhill(net)
  {
    && AllOrderly(r)
    && Load(net, r) == Load(net, s) + cost
    && Done(net, r) == Done(net, s)
    && r.thrown == s.thrown
  }

  lemma {:induction false} SendObeysLaw(net: Network, s: State, p: nat, k: nat, e: Event)
    requires WellFormed(net) && AllOrderly(s) && e != Null
    ensures Delivered(net, s, SendFrom(net, s, p, k, e), SendCost(net, p, k))
    decreases Rank(net, p), |Out(net, p)| - k
  {
    if k < |Out(net, p)| {
      var d := Out(net, p)[k];
      ReceiveObeysLaw(net, s, d, e);
      SendObeysLaw(net, Receive(net, s, d, e), p, k + 1, e);
    }
  }

  lemma {:induction false} ReceiveObeysLaw(net: Network, s: State, p: nat, e: Event)
    requires WellFormed(net) && AllOrderly(s) && e != Null
    ensures Delivered(net, s, Receive(net, s, p, e), ReceiveCost(net, p))
    decreases Rank(net, p), |Out(net, p)| + 2
  {
    if OwnerOf(net, p) in net.initialized {
      if !Queues(net, p) {
        SendObeysLaw(net, s, p, 0, e);
      } else if PortOf(s, p).waiting {
        BusyPortQueues(net, s, p, e);
      } else {
        IdlePortTakes(net, s, p, e);
        var i := QueueInput(PortOf(s, p), e);
        var r := WithPort(s, p, i.(forwarded := i.forwarded + [e]));
        var t := AlertNewInput(net, r, OwnerOf(net, p));
        AlertKeepsPorts(net, r, OwnerOf(net, p));
        SumsSamePorts(net, r, t, net.inputs);
        SamePortsOrderly(r, t);
        SendObeysLaw(net, t, p, 0, e);
      }
    }
  }

  lemma SamePortsOrderly(s: State, r: State)
    requires AllOrderly(s) && r.ports == s.ports
    ensures AllOrderly(r)
  {
    forall p ensures Orderly(PortOf(r, p)) {
      assert PortOf(r, p) == PortOf(s, p);
    }
  }

  lemma WithPortOrderly(s: State, p: nat, i: InputPort)
    requires AllOrderly(s) && Orderly(i)
    ensures AllOrderly(WithPort(s, p, i))
  {
    forall q ensures Orderly(PortOf(WithPort(s, p, i), q)) {
      assert q != p ==> PortOf(WithPort(s, p, i), q) == PortOf(s, q);
    }
  }

  lemma QueuedBehind(i: InputPort, e: Event)
    requires Orderly(i) && i.waiting && e != Null
    ensures Orderly(QueueInput(i, e))
  {
    assert QueueInput(i, e).queue[..1] == i.queue[..1];
  }

  lemma OneMoreQueued(net: Network, i: InputPort, q: InputPort, p: nat)
    requires Downhill(net) && i.queue != [] && |q.queue| == |i.queue| + 1
    ensures PortLoad(net, q, p) == PortLoad(net, i, p) + 1 + SendCost(net, p, 0)
  {
  }

  lemma BusyPortQueues(net: Network, s: State, p: nat, e: Event)
    requires WellFormed(net) && AllOrderly(s) && e != Null && Queues(net, p) && PortOf(s, p).waiting
    ensures Delivered(net, s, WithPort(s, p, QueueInput(PortOf(s, p), e)), 1 + SendCost(net, p, 0))
  {
    var i, q := PortOf(s, p), QueueInput(PortOf(s, p), e);
    QueuedBehind(i, e);
    WithPortOrderly(s, p, q);
    SumsWithPort(net, s, p, q, net.inputs);
    OneMoreQueued(net, i, q, p);
  }

  lemma TakenAtOnce(i: InputPort, e: Event)
    requires Orderly(i) && !i.waiting && e != Null
    ensures var q := QueueInput(i, e);
      q.waiting && q.queue == [e] && Orderly(q.(forwarded := q.forwarded + [e]))
  {
  }

  lemma IdlePortTakes(net: Network, s: State, p: nat, e: Event)
    requires WellFormed(net) && AllOrderly(s) && e != Null && Queues(net, p) && !PortOf(s, p).waiting
    ensures var i := QueueInput(PortOf(s, p), e);
      i.waiting && Delivered(net, s, WithPort(s, p, i.(forwarded := i.forwarded + [e])), 1)
  {
    var i := QueueInput(PortOf(s, p), e);
    var q := i.(forwarded := i.forwarded + [e]);
    assert Orderly(PortOf(s, p));
    TakenAtOnce(PortOf(s, p), e);
    WithPortOrderly(s, p, q);
    SumsWithPort(net, s, p, q, net.inputs);
  }

  // ----- the law for handling -----

  /** `r` follows from `s` by handling `n` events and delivering what they pass on. */
  ghost predicate Reacted(net: Network, s: State, r: State, n: nat)
    requires Downhill(net)
  {
    && AllOrderly(r)
    && Load(net, r) == Load(net, s) - n
    && Done(net, r) == Done(net, s) + n
    && (n == 0 ==> r == s)
    && r.thrown == s.thrown
  }

  lemma LastOne(i: InputPort)
    requires Orderly(i) && |i.queue| == 1
    ensures var d := DequeueLatestInput(i); Orderly(d) && d.queue == [] && |d.handled| == |i.handled| + 1
  {
    assert i.queue == [i.queue[0]] && i.queue[..1] == i.queue;
  }

  lemma LastEventHandled(net: Network, s: State, p: nat)
    requires WellFormed(net) && AllOrderly(s) && Queues(net, p) && |PortOf(s, p).queue| == 1
    ensures Reacted(net, s, WithPort(s, p, DequeueLatestInput(PortOf(s, p))), 1)
  {
    var i, d := PortOf(s, p), DequeueLatestInput(PortOf(s, p));
    assert Orderly(i);
    LastOne(i);
    WithPortOrderly(s, p, d);
    SumsWithPort(net, s, p, d, net.inputs);
  }

  lemma HandlingObeysLaw(net: Network, s: State, a: nat, p: nat)
    requires WellFormed(net) && AllOrderly(s) && Queues(net, p) && (PortOf(s, p).waiting ==> p in net.handlers)
    ensures Reacted(net, s, HandleInput(net, s, a, p), if PortOf(s, p).waiting then 1 else 0)
  {
    if PortOf(s, p).waiting {
      var i, d := PortOf(s, p), DequeueLatestInput(PortOf(s, p));
      assert Orderly(i);
      if |i.queue| == 1 {
        LastEventHandled(net, s, p);
      } else {
        NextEventMovesUp(net, s, p);
        var r := WithPort(s, p, d.(forwarded := d.forwarded + [d.queue[0]]));
        var t := AlertNewInput(net, r, a);
        AlertKeepsPorts(net, r, a);
        SumsSamePorts(net, r, t, net.inputs);
        SamePortsOrderly(r, t);
        SendObeysLaw(net, t, p, 0, d.queue[0]);
        assert HandleInput(net, s, a, p) == SendFrom(net, t, p, 0, d.queue[0]);
      }
    }
  }

  lemma MovedUp(i: InputPort)
    requires Orderly(i) && |i.queue| > 1
    ensures var d := DequeueLatestInput(i);
      && d.waiting && |d.queue| + 1 == |i.queue| && d.queue[0] != Null && |d.handled| == |i.handled| + 1
      && Orderly(d.(forwarded := d.forwarded + [d.queue[0]]))
  {
    var d := DequeueLatestInput(i);
    assert i.queue == [i.queue[0]] + d.queue && i.queue[..1] == [i.queue[0]] && d.queue[..1] == [d.queue[0]];
    assert d.queue[0] == i.queue[1];
    assert i.handled + i.queue == d.handled + d.queue;
  }

  lemma NextEventMovesUp(net: Network, s: State, p: nat)
    requires WellFormed(net) && AllOrderly(s) && Queues(net, p) && |PortOf(s, p).queue| > 1
    ensures var d := DequeueLatestInput(PortOf(s, p));
      && d.waiting && d.queue != [] && d.queue[0] != Null
      && var r := WithPort(s, p, d.(forwarded := d.forwarded + [d.queue[0]]));
        && AllOrderly(r) && Done(net, r) == Done(net, s) + 1
        && Load(net, r) == Load(net, s) - 1 - SendCost(net, p, 0)
  {
    var i, d := PortOf(s, p), DequeueLatestInput(PortOf(s, p));
    assert Orderly(i);
    MovedUp(i);
    var q := d.(forwarded := d.forwarded + [d.queue[0]]);
    WithPortOrderly(s, p, q);
    SumsWithPort(net, s, p, q, net.inputs);
    OneMoreQueued(net, q, i, p);
  }

  /** A reaction that does not throw obeys the law. */
  lemma {:induction false} ProcessingObeysLaw(net: Network, s: State, a: nat, k: nat) returns (n: nat)
    requires WellFormed(net) && AllOrderly(s)
    ensures ProcessFrom(net, s, a, k).thrown || Reacted(net, s, ProcessFrom(net, s, a, k), n)
    decreases |InputsOf(net, a)| - k
  {
    n := 0;
    if k < |InputsOf(net, a)| && !s.thrown {
      var p := InputsOf(net, a)[k];
      assert p in InputsOf(net, a);
      var r := HandleInput(net, s, a, p);
      if !r.thrown {
        HandlingObeysLaw(net, s, a, p);
        n := ProcessingObeysLaw(net, r, a, k + 1);
        n := n + if PortOf(s, p).waiting then 1 else 0;
      }
    }
  }

  /** Nothing is left to handle exactly when no input port holds an event. */
  lemma {:induction false} NoLoadExactly(net: Network, s: State, ports: seq<nat>)
    requires Downhill(net)
    ensures LoadOf(net, s, ports) == 0 <==> forall p :: p in ports ==> PortOf(s, p).queue == []
    decreases |ports|
  {
    if ports != [] {
      NoLoadExactly(net, s, ports[1..]);
      assert forall p :: p in ports <==> p == ports[0] || p in ports[1..];
    }
  }
}
