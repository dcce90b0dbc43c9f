/**
 At what priority a reaction is requested, and who stands in which queue afterwards: what
 alerting an accessor and sending an event do to the wake-up queues and to the callbacks.
 */
module Requests {
  import opened Wrappers
  import opened Network
  import opened Passes
  import opened EventLaws
  import opened Arrivals
  import opened AccessorOrder

  // ----- the priority of a request -----

  /** The first priority that is given on the way from accessor `a` up to the host. */
  function FirstGiven(net: Network, a: nat): int
    requires Tree(net)
    decreases Height(net, net.host) - Height(net, a)
  {
    if PriorityOf(net, a) != INT_MAX then PriorityOf(net, a)
    else if a in net.parent then FirstGiven(net, net.parent[a])
    else INT_MAX
  }

  /** `x` is `c` or above it. */
  ghost predicate Above(net: Network, c: nat, x: nat)
    requires Tree(net)
    decreases Height(net, net.host) - Height(net, c)
  {
    x == c || (c in net.parent && Above(net, net.parent[c], x))
  }

  /**
   Asking composite `c` for a reaction of `child` adds one callback if none was requested, at
   the given priority, or else at the first one on the way up. It queues `child` with `c`, and
   every composite from `c` up with its parent, and nobody else.
   */
  lemma {:induction false} SchedulingAsks(net: Network, s: State, c: nat, child: nat, priority: int)
    requires Tree(net)
    ensures var r := ScheduleReaction(net, s, c, child, priority);
      && r.requested
      && r.callbacks == s.callbacks
           + (if s.requested then [] else [if priority != INT_MAX then priority else FirstGiven(net, c)])
      && r.ports == s.ports
      && forall y, x {:trigger x in Wakeups(r, y)} :: x in Wakeups(r, y) <==>
           || x in Wakeups(s, y) || (y == c && x == child)
           || (x in net.parent && net.parent[x] == y && Above(net, c, x))
    decreases Height(net, net.host) - Height(net, c)
  {
    var t := Pushed(s, c, child);
    assert forall y :: Wakeups(t, y) == if y == c then Wakeups(s, c) + {child} else Wakeups(s, y);
    if c in net.parent {
      var p := if priority == INT_MAX then PriorityOf(net, c) else priority;
      SchedulingAsks(net, t, net.parent[c], c, p);
    } else {
      var r := ScheduleReaction(net, s, c, child, priority);
      assert forall y :: Wakeups(r, y) == Wakeups(t, y);
    }
  }

  /**
   Alerting accessor `a` adds one callback if none was requested, with its own priority if it
   was given one. It queues `a` and everything above it with their parents, and nobody else.
   */
  lemma AlertingAsks(net: Network, s: State, a: nat)
    requires Tree(net) && a in net.parent
    ensures var r := AlertNewInput(net, s, a);
      && r.requested && r.callbacks == s.callbacks + (if s.requested then [] else [FirstGiven(net, a)])
      && r.ports == s.ports
      && forall y, x {:trigger x in Wakeups(r, y)} :: x in Wakeups(r, y) <==>
           x in Wakeups(s, y) || (x in net.parent && net.parent[x] == y && Above(net, a, x))
  {
    SchedulingAsks(net, s, net.parent[a], a, PriorityOf(net, a));
    assert forall x :: Above(net, a, x) <==> x == a || Above(net, net.parent[a], x);
  }

  // ----- sending -----

  /** The first of these ports with nothing queued. */
  function FirstIdle(s: State, ports: seq<nat>): Option<nat>
  {
    if ports == [] then None else if PortOf(s, ports[0]).queue == [] then Some(ports[0]) else FirstIdle(s, ports[1..])
  }

  lemma {:induction false} FirstIdleConcat(s: State, xs: seq<nat>, ys: seq<nat>)
    ensures FirstIdle(s, xs + ys) == if FirstIdle(s, xs).Some? then FirstIdle(s, xs) else FirstIdle(s, ys)
  {
    if xs == [] {
      assert xs + ys == ys;
    } else {
      var all := xs + ys;
      assert all[0] == xs[0] && all[1..] == xs[1..] + ys;
      FirstIdleConcat(s, xs[1..], ys);
    }
  }

  /** The same ports have nothing queued. */
  ghost predicate SameIdle(s: State, r: State)
  {
    forall q {:trigger PortOf(r, q)} :: PortOf(r, q).queue == [] <==> PortOf(s, q).queue == []
  }

  lemma {:induction false} FirstIdleSame(s: State, r: State, ports: seq<nat>)
    requires SameIdle(s, r)
    ensures FirstIdle(r, ports) == FirstIdle(s, ports)
  {
    if ports != [] {
      assert PortOf(r, ports[0]).queue == [] <==> PortOf(s, ports[0]).queue == [];
      FirstIdleSame(s, r, ports[1..]);
    }
  }

  /** `r` follows from `s` by deliveries to `ports`: the accessor of the first idle one asked for the reaction. */
  ghost predicate Asked(net: Network, s: State, r: State, ports: seq<nat>)
    requires Tree(net)
  {
    match FirstIdle(s, ports)
    case None => !r.requested && r.callbacks == s.callbacks && SameIdle(s, r)
    case Some(d) => r.requested && r.callbacks == s.callbacks + [FirstGiven(net, OwnerOf(net, d))]
  }

  /**
   If no reaction was requested, sending an event requests one exactly if it comes to an idle
   input port, and at the priority of the accessor of the first such port.
   */
  lemma {:induction false} SendingAsks(net: Network, s: State, p: nat, k: nat, e: Event)
    requires WellFormed(net) && AllOrderly(s) && e != Null && !s.requested
    ensures Asked(net, s, SendFrom(net, s, p, k, e), Deep(net, p, k))
    decreases Rank(net, p), |Out(net, p)| - k
  {
    if k < |Out(net, p)| {
      var d := Out(net, p)[k];
      var via, rest, t := DeepVia(net, d), Deep(net, p, k + 1), Receive(net, s, d, e);
      ReceivingAsks(net, s, d, e);
      ReceiveObeysLaw(net, s, d, e);
      FirstIdleConcat(s, via, rest);
      if FirstIdle(s, via).Some? {
        SendPasses(net, t, p, k + 1, e);
      } else {
        SendingAsks(net, t, p, k + 1, e);
        FirstIdleSame(s, t, rest);
        SameIdleTrans(s, t, SendFrom(net, t, p, k + 1, e));
      }
    }
  }

  lemma SameIdleTrans(s: State, t: State, r: State)
    requires SameIdle(s, t)
    ensures SameIdle(t, r) ==> SameIdle(s, r)
  {
    if SameIdle(t, r) {
      forall q ensures PortOf(r, q).queue == [] <==> PortOf(s, q).queue == [] {
        assert PortOf(t, q).queue == [] <==> PortOf(s, q).queue == [];
      }
    }
  }

  lemma {:induction false} ReceivingAsks(net: Network, s: State, d: nat, e: Event)
    requires WellFormed(net) && AllOrderly(s) && e != Null && !s.requested
    ensures Asked(net, s, Receive(net, s, d, e), DeepVia(net, d))
    decreases Rank(net, d), |Out(net, d)| + 2
  {
    if OwnerOf(net, d) in net.initialized {
      if !Queues(net, d) {
        SendingAsks(net, s, d, 0, e);
      } else {
        InputAsks(net, s, d, e);
      }
    }
  }

  lemma InputAsks(net: Network, s: State, d: nat, e: Event)
    requires WellFormed(net) && AllOrderly(s) && e != Null && !s.requested
    requires Queues(net, d) && OwnerOf(net, d) in net.initialized
    ensures Asked(net, s, Receive(net, s, d, e), [d])
  {
    var i, a := QueueInput(PortOf(s, d), e), OwnerOf(net, d);
    assert Orderly(PortOf(s, d));
    assert FirstIdle(s, [d]) == if PortOf(s, d).queue == [] then Some(d) else None;
    if PortOf(s, d).queue == [] {
      var t := s.(ports := s.ports[d := i.(forwarded := i.forwarded + [e])]);
      AlertingAsks(net, t, a);
      SendPasses(net, AlertNewInput(net, t, a), d, 0, e);
    } else {
      var r := s.(ports := s.ports[d := i]);
      forall q ensures PortOf(r, q).queue == [] <==> PortOf(s, q).queue == [] {
        assert q != d ==> PortOf(r, q) == PortOf(s, q);
      }
    }
  }
}
