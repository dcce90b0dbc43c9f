/**
 No wake-up is lost. While nothing runs, an accessor with a waiting input stands in its
 parent's queue, a composite with a queued child stands in its own parent's queue, and the
 host has exactly one reaction callback pending if its queue is not empty.
 */
module WakeupLaws {
  import AccessorOrder
  import opened Network
  import opened EventLaws

  function PortsOf(net: Network, a: nat): set<nat>
  {
    set p | p in InputsOf(net, a)
  }

  /** Port `p` does not wait, or its accessor will be woken, or it is among the `busy` ports. */
  ghost predicate PortAwake(net: Network, s: State, busy: set<nat>, p: nat)
  {
    Queues(net, p) && PortOf(s, p).waiting ==>
      || p in busy
      || (OwnerOf(net, p) in net.parent && OwnerOf(net, p) in Wakeups(s, net.parent[OwnerOf(net, p)]))
  }

  /** `c` has no child to wake, or will be woken itself, or is draining its queue. */
  ghost predicate CompositeAwake(net: Network, s: State, active: set<nat>, c: nat)
  {
    c in net.parent && Wakeups(s, c) != {} ==> c in active || c in Wakeups(s, net.parent[c])
  }

  ghost predicate HostAwake(net: Network, s: State, active: set<nat>)
  {
    && (Wakeups(s, net.host) != {} ==> s.requested)
    && (if net.host in active then s.requested && s.callbacks == []
        else |s.callbacks| == if s.requested then 1 else 0)
  }

  /** Ports and composites are covered, and queues hold children only. */
  ghost predicate Covered(net: Network, s: State, active: set<nat>, busy: set<nat>)
  {
    && (forall p {:trigger PortOf(s, p)} :: PortAwake(net, s, busy, p))
    && (forall c {:trigger Wakeups(s, c)} :: CompositeAwake(net, s, active, c))
    && (forall c, x {:trigger x in Wakeups(s, c)} :: x in Wakeups(s, c) ==> x in net.parent && net.parent[x] == c)
  }

  /** `active` holds the composites on the drain's call stack, `busy` the inputs still to be looked at. */
  ghost predicate Awake(net: Network, s: State, active: set<nat>, busy: set<nat>)
  {
    Covered(net, s, active, busy) && HostAwake(net, s, active)
  }

  lemma PushedWakeups(s: State, c: nat, child: nat)
    ensures forall x :: Wakeups(Pushed(s, c, child), x) == if x == c then Wakeups(s, c) + {child} else Wakeups(s, x)
  {
  }

  /** Queueing `child` covers whatever only `child` still left open, and opens only its parent. */
  lemma PushCovers(net: Network, s: State, c: nat, child: nat, active: set<nat>, busy: set<nat>)
    requires WellFormed(net) && child in net.parent && net.parent[child] == c
    requires Covered(net, s, active + {child}, busy + PortsOf(net, child))
    ensures Covered(net, Pushed(s, c, child), active + {c}, busy)
  {
    var r := Pushed(s, c, child);
    PushedWakeups(s, c, child);
    forall p ensures PortAwake(net, r, busy, p) {
      assert PortOf(r, p) == PortOf(s, p);
      assert PortAwake(net, s, busy + PortsOf(net, child), p);
    }
    forall x ensures CompositeAwake(net, r, active + {c}, x) {
      assert CompositeAwake(net, s, active + {child}, x);
    }
  }

  /** Only ports and queues matter; and the host has no parent to be queued with. */
  lemma CoveredElsewhere(net: Network, s: State, r: State, active: set<nat>, busy: set<nat>)
    requires Covered(net, s, active + {net.host}, busy) && net.host !in net.parent
    requires r.ports == s.ports && r.wakeups == s.wakeups
    ensures Covered(net, r, active, busy)
  {
    forall p ensures PortAwake(net, r, busy, p) {
      assert PortOf(r, p) == PortOf(s, p);
      assert PortAwake(net, s, busy, p);
    }
    forall x ensures CompositeAwake(net, r, active, x) {
      assert Wakeups(r, x) == Wakeups(s, x);
      assert CompositeAwake(net, s, active + {net.host}, x);
    }
    forall c, x | x in Wakeups(r, c) ensures x in net.parent && net.parent[x] == c {
      assert x in Wakeups(s, c);
    }
  }

  lemma HostPushCovers(net: Network, s: State, child: nat, active: set<nat>, busy: set<nat>, priority: int)
    requires WellFormed(net) && child in net.parent && net.parent[child] == net.host
    requires Awake(net, s, active + {child}, busy + PortsOf(net, child))
    ensures Awake(net, ScheduleReaction(net, s, net.host, child, priority), active, busy)
  {
    var t, r := Pushed(s, net.host, child), ScheduleReaction(net, s, net.host, child, priority);
    PushCovers(net, s, net.host, child, active, busy);
    CoveredElsewhere(net, t, r, active, busy);
  }

  lemma CompositePushCovers(net: Network, s: State, c: nat, child: nat, active: set<nat>, busy: set<nat>)
    requires WellFormed(net) && child in net.parent && net.parent[child] == c && c in net.parent
    requires Awake(net, s, active + {child}, busy + PortsOf(net, child))
    ensures Awake(net, Pushed(s, c, child), active + {c}, busy + PortsOf(net, c))
  {
    PushCovers(net, s, c, child, active, busy);
    PushedWakeups(s, c, child);
    assert PortsOf(net, c) == {};
    assert busy + PortsOf(net, c) == busy;
    assert HostAwake(net, s, active + {child}) && HostAwake(net, Pushed(s, c, child), active + {c});
  }

  /** Asking for a reaction wakes the whole way up to the host. */
  lemma {:induction false} ScheduleWakes(net: Network, s: State, c: nat, child: nat, priority: int, active: set<nat>, busy: set<nat>)
    requires WellFormed(net) && child in net.parent && net.parent[child] == c
    requires Awake(net, s, active + {child}, busy + PortsOf(net, child))
    ensures Awake(net, ScheduleReaction(net, s, c, child, priority), active, busy)
    decreases Height(net, net.host) - Height(net, c)
  {
    if c in net.parent {
      var p := if priority == AccessorOrder.INT_MAX then PriorityOf(net, c) else priority;
      CompositePushCovers(net, s, c, child, active, busy);
      ScheduleWakes(net, Pushed(s, c, child), net.parent[c], c, p, active, busy);
    } else {
      HostPushCovers(net, s, child, active, busy, priority);
    }
  }

  /** At most one reaction is requested at a time, and the request carries the priority of who asked. */
  lemma {:induction false} RequestCarriesPriority(net: Network, s: State, c: nat, child: nat, priority: int)
    requires Tree(net) && priority != AccessorOrder.INT_MAX
    ensures var r := ScheduleReaction(net, s, c, child, priority);
      r.requested && r.callbacks == if s.requested then s.callbacks else s.callbacks + [priority]
    decreases Height(net, net.host) - Height(net, c)
  {
    if c in net.parent {
      RequestCarriesPriority(net, Pushed(s, c, child), net.parent[c], c, priority);
    }
  }

  lemma AlertWakes(net: Network, s: State, a: nat, active: set<nat>, busy: set<nat>)
    requires WellFormed(net) && IsAtomic(net, a) && Awake(net, s, active, busy + PortsOf(net, a))
    ensures Awake(net, AlertNewInput(net, s, a), active, busy)
  {
    Relaxed(net, s, active, active + {a}, busy + PortsOf(net, a), busy + PortsOf(net, a));
    ScheduleWakes(net, s, net.parent[a], a, PriorityOf(net, a), active, busy);
  }

  /** What ports need does not depend on the call stack. */
  lemma OnStack(net: Network, s: State, active: set<nat>, active': set<nat>, busy: set<nat>)
    requires Awake(net, s, active, busy) && HostAwake(net, s, active')
    requires forall c {:trigger CompositeAwake(net, s, active', c)} :: CompositeAwake(net, s, active', c)
    ensures Awake(net, s, active', busy)
  {
    forall p ensures PortAwake(net, s, busy, p) {
      assert PortOf(s, p) == PortOf(s, p);
    }
    forall c ensures CompositeAwake(net, s, active', c) {
    }
  }

  /** More may be left open. */
  lemma Relaxed(net: Network, s: State, active: set<nat>, active': set<nat>, busy: set<nat>, busy': set<nat>)
    requires Awake(net, s, active, busy) && active <= active' && busy <= busy'
    requires net.host in active <==> net.host in active'
    ensures Awake(net, s, active', busy')
  {
    forall p ensures PortAwake(net, s, busy', p) {
      assert PortAwake(net, s, busy, p);
    }
    forall c ensures CompositeAwake(net, s, active', c) {
      assert CompositeAwake(net, s, active, c);
    }
    assert HostAwake(net, s, active) && HostAwake(net, s, active');
  }

  /** A changed port stays covered if it waits no more than before, or may be left open. */
  lemma PortChanged(net: Network, s: State, p: nat, i: InputPort, active: set<nat>, busy: set<nat>, busy': set<nat>)
    requires Awake(net, s, active, busy) && busy - {p} <= busy'
    requires i.waiting ==> p in busy' || (PortOf(s, p).waiting && p !in busy)
    ensures Awake(net, s.(ports := s.ports[p := i]), active, busy')
  {
    var r := s.(ports := s.ports[p := i]);
    forall q ensures PortAwake(net, r, busy', q) {
      assert PortAwake(net, s, busy, q);
      assert q != p ==> PortOf(r, q) == PortOf(s, q);
    }
    forall c ensures CompositeAwake(net, r, active, c) {
      assert Wakeups(r, c) == Wakeups(s, c);
      assert CompositeAwake(net, s, active, c);
    }
    forall c, x | x in Wakeups(r, c) ensures x in net.parent && net.parent[x] == c {
      assert x in Wakeups(s, c);
    }
    assert Wakeups(r, net.host) == Wakeups(s, net.host);
    assert HostAwake(net, s, active) && HostAwake(net, r, active);
  }

  lemma {:induction false} SendWakes(net: Network, s: State, p: nat, k: nat, e: Event, active: set<nat>, busy: set<nat>)
    requires WellFormed(net) && Awake(net, s, active, busy)
    ensures Awake(net, SendFrom(net, s, p, k, e), active, busy)
    decreases Rank(net, p), |Out(net, p)| - k
  {
    if k < |Out(net, p)| {
      var d := Out(net, p)[k];
      ReceiveWakes(net, s, d, e, active, busy);
      SendWakes(net, Receive(net, s, d, e), p, k + 1, e, active, busy);
    }
  }

  lemma {:induction false} ReceiveWakes(net: Network, s: State, p: nat, e: Event, active: set<nat>, busy: set<nat>)
    requires WellFormed(net) && Awake(net, s, active, busy)
    ensures Awake(net, Receive(net, s, p, e), active, busy)
    decreases Rank(net, p), |Out(net, p)| + 2
  {
    if OwnerOf(net, p) in net.initialized {
      if !Queues(net, p) {
        SendWakes(net, s, p, 0, e, active, busy);
      } else {
        var i := QueueInput(PortOf(s, p), e);
        if !PortOf(s, p).waiting && i.waiting {
          var a := OwnerOf(net, p);
          var j := i.(forwarded := i.forwarded + [e]);
          var r := s.(ports := s.ports[p := j]);
          PortChanged(net, s, p, j, active, busy, busy + PortsOf(net, a));
          AlertWakes(net, r, a, active, busy);
          SendWakes(net, AlertNewInput(net, r, a), p, 0, e, active, busy);
        } else {
          assert PortAwake(net, s, busy, p);
          PortChanged(net, s, p, i, active, busy, busy);
        }
      }
    }
  }

  lemma HandlingWakes(net: Network, s: State, a: nat, p: nat, active: set<nat>, busy: set<nat>)
    requires WellFormed(net) && p in InputsOf(net, a) && Awake(net, s, active, busy) && p in busy
    requires PortOf(s, p).waiting ==> PortOf(s, p).queue != [] && p in net.handlers
    ensures Awake(net, HandleInput(net, s, a, p), active, busy - {p})
  {
    if PortOf(s, p).waiting {
      var i := DequeueLatestInput(PortOf(s, p));
      if !i.waiting || i.queue == [] {
        PortChanged(net, s, p, i, active, busy, busy - {p});
      } else {
        var j := i.(forwarded := i.forwarded + [i.queue[0]]);
        var r := s.(ports := s.ports[p := j]);
        PortChanged(net, s, p, j, active, busy, busy - {p} + PortsOf(net, a));
        AlertWakes(net, r, a, active, busy - {p});
        SendWakes(net, AlertNewInput(net, r, a), p, 0, i.queue[0], active, busy - {p});
      }
    } else {
      Unneeded(net, s, p, active, busy);
    }
  }

  lemma Unneeded(net: Network, s: State, p: nat, active: set<nat>, busy: set<nat>)
    requires Awake(net, s, active, busy) && !PortOf(s, p).waiting
    ensures Awake(net, s, active, busy - {p})
  {
    forall q ensures PortAwake(net, s, busy - {p}, q) {
      assert PortAwake(net, s, busy, q);
    }
    forall c ensures CompositeAwake(net, s, active, c) {
      assert Wakeups(s, c) == Wakeups(s, c);
    }
    assert HostAwake(net, s, active);
  }

  /** The inputs of `a` from the k-th on. */
  function PortsFrom(net: Network, a: nat, k: nat): set<nat>
    requires k <= |InputsOf(net, a)|
  {
    set p | p in InputsOf(net, a)[k..]
  }

  lemma {:induction false} ProcessingWakes(net: Network, s: State, a: nat, k: nat, active: set<nat>)
    requires WellFormed(net) && k <= |InputsOf(net, a)| && Awake(net, s, active, PortsFrom(net, a, k))
    requires AllOrderly(s) && !s.thrown
    ensures ProcessFrom(net, s, a, k).thrown || Awake(net, ProcessFrom(net, s, a, k), active, {})
    decreases |InputsOf(net, a)| - k
  {
    if k < |InputsOf(net, a)| {
      var p := InputsOf(net, a)[k];
      assert p in InputsOf(net, a) && p in InputsOf(net, a)[k..];
      assert Orderly(PortOf(s, p));
      var r := HandleInput(net, s, a, p);
      if !r.thrown {
        HandlingWakes(net, s, a, p, active, PortsFrom(net, a, k));
        HandlingObeysLaw(net, s, a, p);
        assert forall q :: q in InputsOf(net, a)[k..] ==> q == p || q in InputsOf(net, a)[k + 1..];
        Relaxed(net, r, active, active, PortsFrom(net, a, k) - {p}, PortsFrom(net, a, k + 1));
        ProcessingWakes(net, r, a, k + 1, active);
      }
    } else {
      assert PortsFrom(net, a, k) == {};
    }
  }

  lemma PoppedIsCovered(net: Network, s: State, r: State, c: nat, child: nat, active: set<nat>)
    requires WellFormed(net) && Covered(net, s, active, {}) && child in Wakeups(s, c)
    requires r.ports == s.ports
    requires forall x :: Wakeups(r, x) == if x == c then Wakeups(s, c) - {child} else Wakeups(s, x)
    ensures Covered(net, r, active + {child}, PortsOf(net, child))
  {
    forall p ensures PortAwake(net, r, PortsOf(net, child), p) {
      assert PortOf(r, p) == PortOf(s, p);
      assert PortAwake(net, s, {}, p);
    }
    forall x ensures CompositeAwake(net, r, active + {child}, x) {
      assert CompositeAwake(net, s, active, x);
    }
    forall x, y | y in Wakeups(r, x) ensures y in net.parent && net.parent[y] == x {
      assert y in Wakeups(s, x);
    }
  }

  /** An accessor taken from its parent's queue may react: its inputs and its queue are left open. */
  lemma PoppedIsOpen(net: Network, s: State, c: nat, child: nat, active: set<nat>)
    requires WellFormed(net) && Awake(net, s, active, {}) && child in Wakeups(s, c)
    ensures child in net.parent && net.parent[child] == c && child != net.host
    ensures Awake(net, s.(wakeups := s.wakeups[c := Wakeups(s, c) - {child}]), active + {child}, PortsOf(net, child))
  {
    var r := s.(wakeups := s.wakeups[c := Wakeups(s, c) - {child}]);
    PoppedIsCovered(net, s, r, c, child, active);
    assert HostAwake(net, s, active) && HostAwake(net, r, active + {child});
  }

  lemma {:induction false} QuietBelow(net: Network, s: State, c: nat)
    requires WellFormed(net) && Awake(net, s, {}, {}) && Wakeups(s, net.host) == {}
    requires c in net.parent || c == net.host
    ensures Wakeups(s, c) == {}
    decreases Height(net, net.host) - Height(net, c)
  {
    if c in net.parent {
      QuietBelow(net, s, net.parent[c]);
      assert CompositeAwake(net, s, {}, c);
    }
  }

  /** When nothing runs and the host's queue is empty, every queue is empty and no input waits. */
  lemma QuietEverywhere(net: Network, s: State)
    requires WellFormed(net) && Awake(net, s, {}, {}) && Wakeups(s, net.host) == {}
    ensures forall c :: c in net.parent || c == net.host ==> Wakeups(s, c) == {}
    ensures forall p :: Queues(net, p) ==> !PortOf(s, p).waiting
  {
    forall c | c in net.parent || c == net.host ensures Wakeups(s, c) == {} {
      QuietBelow(net, s, c);
    }
    forall p | Queues(net, p) ensures !PortOf(s, p).waiting {
      assert PortAwake(net, s, {}, p);
      assert OwnerOf(net, p) in net.parent;
      QuietBelow(net, s, net.parent[OwnerOf(net, p)]);
    }
  }
}
