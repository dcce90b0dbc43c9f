/**
 What sending leaves alone, whatever the state: nothing is handled, waiting ports go on
 waiting, no exception is thrown, and a request that is made stays the only one.
 */
module Passes {
  import opened Network
  import AccessorOrder

  /** What came in was handled or is queued, in order. */
  predicate Historic(i: InputPort)
  {
    i.received == i.handled + i.queue
  }

  /** What deliveries do to one port: nothing is handled or lost, and a waiting port goes on waiting. */
  ghost predicate PortPassed(i: InputPort, j: InputPort)
  {
    && j.handled == i.handled && i.received <= j.received && i.queue <= j.queue
    && (Historic(i) ==> Historic(j))
    && (WaitsForFront(i) ==> WaitsForFront(j) && (i.waiting ==> j.waiting))
  }

  /** At most one request is added, and only if none was made. */
  ghost predicate RequestPassed(s: State, r: State)
  {
    && (s.requested ==> r.requested && r.callbacks == s.callbacks)
    && (!s.requested ==> |r.callbacks| == |s.callbacks| + if r.requested then 1 else 0)
  }

  /** What deliveries do to the whole state. Only ports that events come to change. */
  ghost predicate Passed(net: Network, s: State, r: State)
  {
    && r.thrown == s.thrown && RequestPassed(s, r)
    && forall q {:trigger PortOf(r, q)} ::
         PortPassed(PortOf(s, q), PortOf(r, q)) && (PortOf(r, q) != PortOf(s, q) ==> Exposed(net, q))
  }

  lemma PassedTrans(net: Network, s: State, m: State, r: State)
    requires Passed(net, s, m) && Passed(net, m, r)
    ensures Passed(net, s, r)
  {
    forall q ensures PortPassed(PortOf(s, q), PortOf(r, q)) && (PortOf(r, q) != PortOf(s, q) ==> Exposed(net, q)) {
      assert PortPassed(PortOf(s, q), PortOf(m, q));
      assert PortPassed(PortOf(m, q), PortOf(r, q));
    }
  }

  lemma SamePortsPassed(net: Network, s: State, r: State)
    requires r.ports == s.ports && r.thrown == s.thrown && RequestPassed(s, r)
    ensures Passed(net, s, r)
  {
    forall q ensures PortOf(r, q) == PortOf(s, q) {
    }
  }

  lemma OnePortPassed(net: Network, s: State, p: nat, i: InputPort)
    requires PortPassed(PortOf(s, p), i) && Exposed(net, p)
    ensures Passed(net, s, s.(ports := s.ports[p := i]))
  {
    var r := s.(ports := s.ports[p := i]);
    forall q ensures q != p ==> PortOf(r, q) == PortOf(s, q) {
    }
  }

  lemma {:induction false} SchedulePasses(net: Network, s: State, c: nat, child: nat, priority: int)
    requires Tree(net)
    ensures Passed(net, s, ScheduleReaction(net, s, c, child, priority))
    decreases Height(net, net.host) - Height(net, c)
  {
    var pushed := Pushed(s, c, child);
    SamePortsPassed(net, s, pushed);
    if c in net.parent {
      var p := if priority == AccessorOrder.INT_MAX then PriorityOf(net, c) else priority;
      SchedulePasses(net, pushed, net.parent[c], c, p);
      PassedTrans(net, s, pushed, ScheduleReaction(net, pushed, net.parent[c], c, p));
    } else {
      SamePortsPassed(net, s, ScheduleReaction(net, s, c, child, priority));
    }
  }

  lemma AlertPasses(net: Network, s: State, a: nat)
    requires Tree(net)
    ensures Passed(net, s, AlertNewInput(net, s, a))
  {
    if a in net.parent {
      SchedulePasses(net, s, net.parent[a], a, PriorityOf(net, a));
    } else {
      SamePortsPassed(net, s, s);
    }
  }

  lemma {:induction false} SendPasses(net: Network, s: State, p: nat, k: nat, e: Event)
    requires Downhill(net) && Tree(net)
    ensures Passed(net, s, SendFrom(net, s, p, k, e))
    decreases Rank(net, p), |Out(net, p)| - k
  {
    if k < |Out(net, p)| {
      var d := Out(net, p)[k];
      assert d in Out(net, p);
      ReceivePasses(net, s, d, e);
      var r := Receive(net, s, d, e);
      SendPasses(net, r, p, k + 1, e);
      PassedTrans(net, s, r, SendFrom(net, r, p, k + 1, e));
    } else {
      SamePortsPassed(net, s, s);
    }
  }

  lemma {:induction false} ReceivePasses(net: Network, s: State, p: nat, e: Event)
    requires Downhill(net) && Tree(net) && exists q: nat :: p in Out(net, q)
    ensures Passed(net, s, Receive(net, s, p, e))
    decreases Rank(net, p), |Out(net, p)| + 2
  {
    if OwnerOf(net, p) !in net.initialized {
      SamePortsPassed(net, s, s);
    } else if !Queues(net, p) {
      SendPasses(net, s, p, 0, e);
    } else {
      var i := QueueInput(PortOf(s, p), e);
      assert Exposed(net, p);
      if !PortOf(s, p).waiting && i.waiting {
        var r := s.(ports := s.ports[p := i.(forwarded := i.forwarded + [e])]);
        OnePortPassed(net, s, p, i.(forwarded := i.forwarded + [e]));
        AlertAndSendPass(net, s, r, OwnerOf(net, p), p, e);
      } else {
        OnePortPassed(net, s, p, i);
      }
    }
  }

  lemma {:induction false} AlertAndSendPass(net: Network, s: State, r: State, a: nat, p: nat, e: Event)
    requires Downhill(net) && Tree(net) && Passed(net, s, r)
    ensures Passed(net, s, SendData(net, AlertNewInput(net, r, a), p, e))
    decreases Rank(net, p), |Out(net, p)| + 1
  {
    var t := AlertNewInput(net, r, a);
    AlertPasses(net, r, a);
    PassedTrans(net, s, r, t);
    SendPasses(net, t, p, 0, e);
    PassedTrans(net, s, t, SendData(net, t, p, e));
  }

  /** What is received leaves a trace in the port's history. */
  lemma ReceiveReaches(net: Network, s: State, p: nat, e: Event)
    requires Downhill(net) && Tree(net) && Queues(net, p) && OwnerOf(net, p) in net.initialized
    ensures PortOf(Receive(net, s, p, e), p).received != []
  {
    var i := QueueInput(PortOf(s, p), e);
    if !PortOf(s, p).waiting && i.waiting {
      var r := s.(ports := s.ports[p := i.(forwarded := i.forwarded + [e])]);
      SamePortsPassed(net, r, r);
      AlertAndSendPass(net, r, r, OwnerOf(net, p), p, e);
      assert PortPassed(PortOf(r, p), PortOf(Receive(net, s, p, e), p));
    }
  }

  /** The state when the turn comes to destination `j`. */
  lemma {:induction false} SendBefore(net: Network, s: State, p: nat, k: nat, j: nat, e: Event) returns (r: State)
    requires Downhill(net) && Tree(net) && k <= j < |Out(net, p)|
    ensures SendFrom(net, s, p, k, e) == SendFrom(net, r, p, j, e)
    decreases j - k
  {
    r := s;
    if k < j {
      r := SendBefore(net, Receive(net, s, Out(net, p)[k], e), p, k + 1, j, e);
    }
  }

  /** Sending reaches every destination that takes events. */
  lemma SendReaches(net: Network, s: State, p: nat, j: nat, e: Event, d: nat)
    requires Downhill(net) && Tree(net) && j < |Out(net, p)| && d == Out(net, p)[j]
    requires Queues(net, d) && OwnerOf(net, d) in net.initialized
    ensures PortOf(SendData(net, s, p, e), d).received != []
  {
    var r := SendBefore(net, s, p, 0, j, e);
    ReceiveReaches(net, r, d, e);
    SendKeepsReceived(net, Receive(net, r, d, e), p, j + 1, e, d);
  }

  lemma SendKeepsReceived(net: Network, s: State, p: nat, k: nat, e: Event, q: nat)
    requires Downhill(net) && Tree(net)
    ensures PortOf(s, q).received <= PortOf(SendFrom(net, s, p, k, e), q).received
  {
    SendPasses(net, s, p, k, e);
    assert PortPassed(PortOf(s, q), PortOf(SendFrom(net, s, p, k, e), q));
  }

  // ----- a whole reaction -----

  /** Every waiting port has handlers. */
  ghost predicate WaitingServed(net: Network, s: State)
  {
    forall p {:trigger PortOf(s, p)} :: PortOf(s, p).waiting ==> p in net.handlers
  }

  lemma SendServes(net: Network, s: State, r: State)
    requires AllHandled(net) && WaitingServed(net, s) && Passed(net, s, r)
    ensures WaitingServed(net, r)
  {
    forall q | PortOf(r, q).waiting ensures q in net.handlers {
      assert PortOf(r, q) != PortOf(s, q) ==> Exposed(net, q);
    }
  }

  /** One port without the event at its front: then only deliveries follow. */
  lemma HandlingPasses(net: Network, s: State, a: nat, p: nat)
    requires Downhill(net) && Tree(net) && p in net.handlers
    ensures var d := DequeueLatestInput(PortOf(s, p));
      var more := d.waiting && d.queue != [];
      var j := if more then d.(forwarded := d.forwarded + [d.queue[0]]) else d;
      PortOf(s, p).waiting ==> Passed(net, s.(ports := s.ports[p := j]), HandleInput(net, s, a, p))
  {
    var d := DequeueLatestInput(PortOf(s, p));
    var more := d.waiting && d.queue != [];
    var j := if more then d.(forwarded := d.forwarded + [d.queue[0]]) else d;
    var r := s.(ports := s.ports[p := j]);
    SamePortsPassed(net, r, r);
    if PortOf(s, p).waiting && more {
      AlertAndSendPass(net, r, r, a, p, d.queue[0]);
    }
  }

  /** A reaction keeps the request, and throws nothing while every waiting port has handlers. */
  lemma {:induction false} ProcessKeepsRequest(net: Network, s: State, a: nat, k: nat)
    requires Downhill(net) && Tree(net)
    ensures RequestPassed(s, ProcessFrom(net, s, a, k))
    decreases |InputsOf(net, a)| - k
  {
    if k < |InputsOf(net, a)| && !s.thrown {
      var p := InputsOf(net, a)[k];
      if PortOf(s, p).waiting && p in net.handlers {
        HandlingPasses(net, s, a, p);
      }
      ProcessKeepsRequest(net, HandleInput(net, s, a, p), a, k + 1);
    }
  }

  lemma HandlingServes(net: Network, s: State, a: nat, p: nat)
    requires Downhill(net) && Tree(net) && AllHandled(net) && WaitingServed(net, s)
    ensures WaitingServed(net, HandleInput(net, s, a, p)) && HandleInput(net, s, a, p).thrown == s.thrown
  {
    assert PortOf(s, p).waiting ==> p in net.handlers;
    if PortOf(s, p).waiting {
      var d := DequeueLatestInput(PortOf(s, p));
      var more := d.waiting && d.queue != [];
      var j := if more then d.(forwarded := d.forwarded + [d.queue[0]]) else d;
      var r := s.(ports := s.ports[p := j]);
      HandlingPasses(net, s, a, p);
      forall q | PortOf(r, q).waiting ensures q in net.handlers {
        assert q != p ==> PortOf(r, q) == PortOf(s, q);
      }
      SendServes(net, r, HandleInput(net, s, a, p));
    }
  }

  lemma {:induction false} ProcessServes(net: Network, s: State, a: nat, k: nat)
    requires Downhill(net) && Tree(net) && AllHandled(net) && WaitingServed(net, s)
    ensures WaitingServed(net, ProcessFrom(net, s, a, k)) && ProcessFrom(net, s, a, k).thrown == s.thrown
    decreases |InputsOf(net, a)| - k
  {
    if k < |InputsOf(net, a)| && !s.thrown {
      HandlingServes(net, s, a, InputsOf(net, a)[k]);
      ProcessServes(net, HandleInput(net, s, a, InputsOf(net, a)[k]), a, k + 1);
    }
  }

  /** The port has handled nothing more, and received nothing less. */
  ghost predicate Unhandled(i: InputPort, j: InputPort)
  {
    j.handled == i.handled && i.received <= j.received
  }

  /** A port without handlers never handles an event. */
  lemma {:induction false} ProcessLeavesUnhandled(net: Network, s: State, a: nat, k: nat, q: nat)
    requires Downhill(net) && Tree(net) && q !in net.handlers
    ensures Unhandled(PortOf(s, q), PortOf(ProcessFrom(net, s, a, k), q))
    decreases |InputsOf(net, a)| - k
  {
    if k < |InputsOf(net, a)| && !s.thrown {
      var p := InputsOf(net, a)[k];
      var r := HandleInput(net, s, a, p);
      if PortOf(s, p).waiting && p in net.handlers {
        HandlingPasses(net, s, a, p);
      }
      assert Unhandled(PortOf(s, q), PortOf(r, q));
      ProcessLeavesUnhandled(net, r, a, k + 1, q);
    }
  }
}
