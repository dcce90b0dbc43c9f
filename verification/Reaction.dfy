/**
 The running model: ports and wake-up queues as objects updated in place, and the drain
 that the host's reaction callback runs.
 */
module Reaction {
  import opened Wrappers
  import opened AccessorOrder
  import opened UniquePriorityQueues
  import opened Sets
  import N = Network
  import opened EventLaws
  import opened WakeupLaws
  import opened Passes
  import M = DrainSteps

  class Runtime {
    const net: N.Network
    const queues: map<nat, UniquePriorityQueue>  // m_childEventQueue of each composite
    var ports: map<nat, N.InputPort>
    var requested: bool
    var callbacks: seq<int>
    var thrown: bool

    ghost predicate Valid()
      reads this, queues.Values
    {
      && (forall c {:trigger queues[c]} :: c in queues ==> queues[c].Valid() && queues[c].priority == net.priority)
      && (forall c, d {:trigger queues[c], queues[d]} :: c in queues && d in queues && c != d ==> queues[c] != queues[d])
      && (forall c {:trigger c in queues} :: c in queues <==> HoldsOthers(net, c))
    }

    constructor (n: N.Network)
      requires N.WellFormed(n)
      ensures net == n && Valid() && fresh(queues.Values) && Sound(net, View(), {}, {})
      ensures Load(net, View()) == 0 && Done(net, View()) == 0 && (N.AllHandled(n) ==> Served(n, View()))
    {
      var m := EmptyQueues({n.host} + (set c | c in n.parent && !N.IsAtomic(n, c)), n.priority);
      net, queues, ports, requested, callbacks, thrown := n, m, map[], false, [], false;
      new;
      InitiallySound(net, View());
    }

    static method EmptyQueues(composites: set<nat>, priority: map<nat, int>) returns (m: map<nat, UniquePriorityQueue>)
      ensures m.Keys == composites && fresh(m.Values)
      ensures forall c {:trigger m[c]} :: c in m ==> m[c].Valid() && m[c].priority == priority && m[c].elements == {}
      ensures forall c, d {:trigger m[c], m[d]} :: c in m && d in m && c != d ==> m[c] != m[d]
    {
      m := map[];
      var todo := composites;
      while todo != {}
        invariant todo <= composites && m.Keys == composites - todo && fresh(m.Values)
        invariant forall c {:trigger m[c]} :: c in m ==> m[c].Valid() && m[c].priority == priority && m[c].elements == {}
        invariant forall c, d {:trigger m[c], m[d]} :: c in m && d in m && c != d ==> m[c] != m[d]
        decreases todo
      {
        HasMember(todo);
        var c :| c in todo;
        var q := new UniquePriorityQueue(priority);
        forall d | d in m ensures m[d] != q {
          assert m[d] in m.Values;
        }
        ghost var before := m;
        m, todo := m[c := q], todo - {c};
        forall o | o in m.Values ensures o == q || o in before.Values {
          var d :| d in m && m[d] == o;
          assert d != c ==> before[d] == o;
        }
      }
    }

    ghost function View(): N.State
      reads this, queues.Values
    {
      N.State(ports, map c | c in queues :: queues[c].elements, requested, callbacks, thrown)
    }

    method ScheduleReaction(c: nat, child: nat, priority: int)
      requires Valid() && N.Tree(net) && c in queues
      modifies this, queues.Values
      ensures Valid() && View() == N.ScheduleReaction(net, old(View()), c, child, priority)
      decreases N.Height(net, net.host) - N.Height(net, c)
    {
      var p := if priority == INT_MAX then N.PriorityOf(net, c) else priority;
      PushChild(c, child);
      if c in net.parent {
        ScheduleReaction(net.parent[c], c, p);
      } else if !requested {
        RequestReaction(p);
      }
    }

    method RequestReaction(priority: int)
      requires Valid()
      modifies this`requested, this`callbacks
      ensures Valid()
      ensures View() == old(View()).(requested := true, callbacks := old(callbacks) + [priority])
    {
      requested := true;
      callbacks := callbacks + [priority];
    }

    method SetPort(p: nat, port: N.InputPort)
      requires Valid()
      modifies this`ports
      ensures Valid() && View() == old(View()).(ports := old(ports)[p := port])
    {
      ports := ports[p := port];
    }

    method PushChild(c: nat, child: nat)
      requires Valid() && c in queues
      modifies queues.Values
      ensures Valid() && View() == N.Pushed(old(View()), c, child)
    {
      ghost var s := View();
      queues[c].Push(child);
      assert View().wakeups == N.Pushed(s, c, child).wakeups;
    }

    method AlertNewInput(a: nat)
      requires Valid() && N.Tree(net)
      modifies this, queues.Values
      ensures Valid() && View() == N.AlertNewInput(net, old(View()), a)
    {
      if a in net.parent {
        assert net.parent[a] in queues;
        ScheduleReaction(net.parent[a], a, N.PriorityOf(net, a));
      }
    }

    method SendData(p: nat, e: N.Event)
      requires Valid() && N.Downhill(net) && N.Tree(net)
      modifies this, queues.Values
      ensures Valid() && View() == N.SendData(net, old(View()), p, e)
      decreases N.Rank(net, p), 0
    {
      var destinations := N.Out(net, p);
      for k := 0 to |destinations|
        invariant Valid()
        invariant N.SendFrom(net, View(), p, k, e) == N.SendData(net, old(View()), p, e)
      {
        assert N.Rank(net, N.Out(net, p)[k]) < N.Rank(net, p);
        ReceiveData(destinations[k], e);
      }
    }

    method ReceiveData(p: nat, e: N.Event)
      requires Valid() && N.Downhill(net) && N.Tree(net)
      modifies this, queues.Values
      ensures Valid() && View() == N.Receive(net, old(View()), p, e)
      decreases N.Rank(net, p), 1
    {
      if N.OwnerOf(net, p) !in net.initialized {
        return;
      }
      if !N.Queues(net, p) {
        SendData(p, e);
      } else {
        var port := if p in ports then ports[p] else N.EMPTY;
        var wasWaiting := port.waiting;
        var queued := N.QueueInput(port, e);
        if !wasWaiting && queued.waiting {
          SetPort(p, queued.(forwarded := queued.forwarded + [e]));
          AlertNewInput(N.OwnerOf(net, p));
          SendData(p, e);
        } else {
          SetPort(p, queued);
        }
      }
    }

    /** One pass of the loop in ProcessInputs; the handlers themselves do not touch the queues. */
    method HandleInput(a: nat, p: nat)
      requires Valid() && N.Downhill(net) && N.Tree(net)
      modifies this, queues.Values
      ensures Valid() && View() == N.HandleInput(net, old(View()), a, p)
    {
      var port := if p in ports then ports[p] else N.EMPTY;
      if port.waiting && p !in net.handlers {
        thrown := true;
      } else if port.waiting {
        var left := N.DequeueLatestInput(port);
        if left.waiting && left.queue != [] {
          SetPort(p, left.(forwarded := left.forwarded + [left.queue[0]]));
          AlertNewInput(a);
          SendData(p, left.queue[0]);
        } else {
          SetPort(p, left);
        }
      }
    }

    method ProcessInputs(a: nat)
      requires Valid() && N.Downhill(net) && N.Tree(net)
      modifies this, queues.Values
      ensures Valid() && View() == N.ProcessInputs(net, old(View()), a)
    {
      var inputPorts := N.InputsOf(net, a);
      for k := 0 to |inputPorts|
        invariant Valid()
        invariant N.ProcessFrom(net, View(), a, k) == N.ProcessInputs(net, old(View()), a)
      {
        if thrown {
          return;
        }
        HandleInput(a, inputPorts[k]);
      }
    }

    /**
     Drain the queue of composite `c`, which is on the call stack with `active`. Handlers run
     once for each unit of load that goes, and if none runs nothing new is queued anywhere.
     An exception leaves the drain at once; there is none while events have handlers. The drain
     is a run of small steps, above the composites `below` on the stack.
     */
    method ProcessChildEventQueue(c: nat, ghost active: set<nat>, ghost below: seq<nat>)
      returns (ghost steps: seq<M.Step>, ghost end: M.Config)
      requires below == [] <==> c == net.host
      requires Valid() && N.Downhill(net) && N.Tree(net) && Sound(net, View(), active + {c}, {})
      requires c in queues && (c == net.host || net.host in active)
      modifies this, queues.Values
      ensures Valid()
      ensures thrown || (
                && Sound(net, View(), if c == net.host then active - {c} else active, {})
                && N.Wakeups(View(), c) == {} && Progress(net, old(View()), View())
                && (c == net.host ==> !requested && callbacks == []))
      ensures old(Served(net, View())) ==> Served(net, View())
      ensures M.Run(net, M.Config(old(View()), below + [c]), steps) == Some(end)
      ensures end.state == View() && (thrown || end.stack == below)
      decreases N.Height(net, c), 2
    {
      ghost var s, x := View(), M.Config(View(), below + [c]);
      steps, end := PickWhileQueued(c, active, below);
      if thrown {
        return;
      }
      ghost var drained := View();
      StopDraining(c, active);
      SamePortsServed(net, drained, View());
      ProgressTrans(net, s, drained, View());
      assert Inspected(0);
      M.StackReturns(net, drained, below, c);
      M.RunConcat(net, x, steps, [M.Return]);
      steps, end := steps + [M.Return], M.Config(View(), below);
    }

    /** The loop of the drain. */
    method PickWhileQueued(c: nat, ghost active: set<nat>, ghost below: seq<nat>)
      returns (ghost steps: seq<M.Step>, ghost end: M.Config)
      requires below == [] <==> c == net.host
      requires Valid() && N.Downhill(net) && N.Tree(net) && Sound(net, View(), active + {c}, {})
      requires c in queues && (c == net.host || net.host in active)
      modifies this, queues.Values
      ensures Valid()
      ensures thrown || (
                Sound(net, View(), active + {c}, {}) && N.Wakeups(View(), c) == {} && Progress(net, old(View()), View()))
      ensures old(Served(net, View())) ==> Served(net, View())
      ensures M.Run(net, M.Config(old(View()), below + [c]), steps) == Some(end)
      ensures end.state == View() && (thrown || end.stack == below + [c])
      decreases N.Height(net, c), 1
    {
      ghost var s, x := View(), M.Config(View(), below + [c]);
      steps, end := [], x;
      while !queues[c].Empty()
        invariant M.Run(net, x, steps) == Some(end) && end == M.Config(View(), below + [c])
        invariant Valid() && Sound(net, View(), active + {c}, {}) && Progress(net, s, View())
        invariant Served(net, s) ==> Served(net, View())
        decreases Load(net, View()), N.Wakeups(View(), c)
      {
        ghost var before, pass := View(), [];
        pass, end := ReactNext(c, active, below);
        M.RunConcat(net, x, steps, pass);
        steps := steps + pass;
        if thrown {
          return;
        }
        ProgressTrans(net, s, before, View());
      }
    }

    /** The end of the drain. Only the host's flag is ever set, so only the host clears one. */
    method StopDraining(c: nat, ghost active: set<nat>)
      requires Valid() && N.Downhill(net) && Sound(net, View(), active + {c}, {}) && N.Wakeups(View(), c) == {}
      modifies this`requested
      ensures Valid() && Sound(net, View(), if c == net.host then active - {c} else active, {})
      ensures N.Wakeups(View(), c) == {} && Progress(net, old(View()), View())
      ensures c == net.host ==> !requested && callbacks == []
      ensures View() == if c == net.host then old(View()).(requested := false) else old(View())
    {
      ghost var s := View();
      if c == net.host {
        HostStops(net, s, active);
        requested := false;
        assert View() == s.(requested := false);
      } else {
        CompositeStops(net, s, c, active);
      }
    }

    /** One pass of the drain: the child with the least priority value reacts or drains. */
    method ReactNext(c: nat, ghost active: set<nat>, ghost below: seq<nat>)
      returns (ghost steps: seq<M.Step>, ghost end: M.Config)
      requires below == [] <==> c == net.host
      requires Valid() && N.Downhill(net) && N.Tree(net) && Sound(net, View(), active + {c}, {})
      requires c in queues && (c == net.host || net.host in active)
      requires N.Wakeups(View(), c) != {}
      modifies this, queues.Values
      ensures Valid()
      ensures thrown || (
                && Sound(net, View(), active + {c}, {}) && Progress(net, old(View()), View())
                && (Load(net, View()) < Load(net, old(View())) || N.Wakeups(View(), c) < N.Wakeups(old(View()), c)))
      ensures old(Served(net, View())) ==> Served(net, View())
      ensures M.Run(net, M.Config(old(View()), below + [c]), steps) == Some(end)
      ensures end.state == View() && (thrown || end.stack == below + [c])
      decreases N.Height(net, c), 0
    {
      ghost var s, x := View(), M.Config(View(), below + [c]);
      var child := queues[c].Top();
      assert Inspected(0);
      M.ChildIsPicked(net, s, below, c, child);
      PoppedIsSound(net, s, c, child, active + {c});
      PopChild(c, child);
      ghost var popped := View();
      assert popped == M.Popped(s, c, child);
      SamePortsServed(net, s, popped);
      if child in net.model.atoms {
        ReactingIsSound(net, popped, child, active + {c});
        ReactingIsServed(net, popped, child);
        ProcessInputs(child);
        steps, end := [M.Pick(child)], M.Config(View(), below + [c]);
      } else {
        assert child in queues;
        CompositeHasNoPorts(net, child);
        ghost var drain;
        drain, end := ProcessChildEventQueue(child, active + {c}, below + [c]);
        M.RunConcat(net, x, [M.Pick(child)], drain);
        steps := [M.Pick(child)] + drain;
      }
      if !thrown {
        PopMadeProgress(net, s, popped, View(), c, child);
      }
    }

    /**
     The callback that the host handed to the Director: it leaves nothing to do, anywhere,
     unless it throws. It does not while every event has handlers.
     */
    method RunReactionCallback() returns (ghost steps: seq<M.Step>, ghost end: M.Config)
      requires Valid() && N.Downhill(net) && N.Tree(net) && Sound(net, View(), {}, {}) && callbacks != []
      modifies this, queues.Values
      ensures Valid() && (thrown || Drained(net, old(View()), View()))
      ensures old(Served(net, View())) ==> Served(net, View())
      ensures M.Run(net, M.Config(old(View()), []), steps) == Some(end)
      ensures end.state == View() && (thrown || end.stack == [])
    {
      ghost var s, x := View(), M.Config(View(), []);
      ReactionBegins(net, s);
      TakeCallback();
      ghost var drain;
      ghost var none: set<nat> := {};
      drain, end := ProcessChildEventQueue(net.host, none, []);
      M.RunConcat(net, x, [M.Start], drain);
      steps := [M.Start] + drain;
      assert none - {net.host} == none;
      if !thrown {
        QuietAfterDrain(net, View());
      }
    }

    method TakeCallback()
      requires Valid() && callbacks != []
      modifies this`callbacks
      ensures Valid() && View() == old(View()).(callbacks := old(callbacks)[1..])
    {
      callbacks := callbacks[1..];
    }

    /**
     Any run: outputs are sent and reaction callbacks run, in any order. Every state between
     is sound, and each sent event has caused, or will cause, exactly the handlings it stands
     for. An exception ends the run.
     */
    method Run(moves: seq<Move>)
      requires Valid() && N.Downhill(net) && N.Tree(net) && Sound(net, View(), {}, {})
      requires forall k :: 0 <= k < |moves| && moves[k].Output? ==> moves[k].event != N.Null
      modifies this, queues.Values
      ensures Valid()
      ensures thrown || (
                && Sound(net, View(), {}, {})
                && Load(net, View()) + Done(net, View()) == old(Load(net, View()) + Done(net, View())) + Sent(net, moves))
      ensures old(Served(net, View())) ==> Served(net, View())
    {
      ghost var s := View();
      for k := 0 to |moves|
        invariant Valid() && Sound(net, View(), {}, {})
        invariant Served(net, s) ==> Served(net, View())
        invariant Load(net, View()) + Done(net, View()) + Sent(net, moves[k..]) == Load(net, s) + Done(net, s) + Sent(net, moves)
      {
        assert moves[k..][0] == moves[k] && moves[k..][1..] == moves[k + 1..];
        match moves[k] {
          case Output(p, e) =>
            SendingIsSound(net, View(), p, e);
            SendingIsServed(net, View(), p, e);
            SendData(p, e);
          case React =>
            if callbacks != [] {
              ghost var _, _ := RunReactionCallback();
              if thrown {
                return;
              }
              assert Inspected(0);
              NoLoadExactly(net, View(), net.inputs);
            }
        }
      }
    }

    method PopChild(c: nat, child: nat)
      requires Valid() && c in queues && N.Wakeups(View(), c) != {} && child == queues[c].Top()
      modifies queues.Values
      ensures Valid()
      ensures View() == old(View()).(wakeups := old(View()).wakeups[c := N.Wakeups(old(View()), c) - {child}])
    {
      ghost var s := View();
      queues[c].Pop();
      assert View().wakeups == s.wakeups[c := N.Wakeups(s, c) - {child}];
    }
  }

  predicate HoldsOthers(net: N.Network, c: nat)
  {
    c == net.host || (c in net.parent && !N.IsAtomic(net, c))
  }

  /** From `s` to `r` handlers have run for the load that went, and if for none, no queue grew. */
  ghost predicate Progress(net: N.Network, s: N.State, r: N.State)
    requires N.Downhill(net)
  {
    && Load(net, r) <= Load(net, s)
    && Load(net, r) + Done(net, r) == Load(net, s) + Done(net, s)
    && (Load(net, r) == Load(net, s) ==> forall b {:trigger N.Wakeups(r, b)} :: N.Wakeups(r, b) <= N.Wakeups(s, b))
  }

  lemma ProgressTrans(net: N.Network, s: N.State, m: N.State, r: N.State)
    requires N.Downhill(net) && Progress(net, s, m) && Progress(net, m, r)
    ensures Progress(net, s, r)
  {
    if Load(net, r) == Load(net, s) {
      forall b ensures N.Wakeups(r, b) <= N.Wakeups(s, b) {
        assert N.Wakeups(r, b) <= N.Wakeups(m, b) && N.Wakeups(m, b) <= N.Wakeups(s, b);
      }
    }
  }

  /** What happens to the running model from outside: an output is sent, or the callback runs. */
  datatype Move = Output(port: nat, event: N.Event) | React

  /** How many handlings the outputs in `moves` stand for. */
  function Sent(net: N.Network, moves: seq<Move>): nat
    requires N.Downhill(net)
    decreases |moves|
  {
    if moves == [] then 0
    else (if moves[0].Output? then SendCost(net, moves[0].port, 0) else 0) + Sent(net, moves[1..])
  }

  /** Nothing is left to do: no queued event, no waiting port, no queued accessor, no request. */
  ghost predicate Quiet(net: N.Network, s: N.State)
  {
    && (forall p {:trigger N.PortOf(s, p)} :: p in net.inputs ==> N.PortOf(s, p).queue == [] && !N.PortOf(s, p).waiting)
    && (forall c {:trigger N.Wakeups(s, c)} :: c in net.parent || c == net.host ==> N.Wakeups(s, c) == {})
    && !s.requested && s.callbacks == []
  }

  /** From `s` the host's reaction leads to `r`: nothing is left, and the whole load was handled. */
  ghost predicate Drained(net: N.Network, s: N.State, r: N.State)
    requires N.Downhill(net)
  {
    && Sound(net, r, {}, {}) && Quiet(net, r) && Load(net, r) == 0
    && Done(net, r) == Done(net, s) + Load(net, s)
  }

  lemma InitiallySound(net: N.Network, s: N.State)
    requires N.WellFormed(net) && s.ports == map[] && !s.requested && s.callbacks == [] && !s.thrown
    requires forall c :: c in s.wakeups ==> s.wakeups[c] == {}
    ensures Sound(net, s, {}, {}) && Load(net, s) == 0 && Done(net, s) == 0
  {
    forall p ensures N.Orderly(N.PortOf(s, p)) && PortAwake(net, s, {}, p) {
      assert N.PortOf(s, p) == N.EMPTY;
    }
    forall c ensures CompositeAwake(net, s, {}, c) {
      assert N.Wakeups(s, c) == {};
    }
    NoLoadExactly(net, s, net.inputs);
    NothingDone(s, net.inputs);
  }

  lemma {:induction false} NothingDone(s: N.State, ports: seq<nat>)
    requires s.ports == map[]
    ensures DoneOf(s, ports) == 0
    decreases |ports|
  {
    if ports != [] {
      NothingDone(s, ports[1..]);
    }
  }

  lemma CallbackStarts(net: N.Network, s: N.State)
    requires N.Downhill(net) && Sound(net, s, {}, {}) && s.callbacks != []
    ensures var r := s.(callbacks := s.callbacks[1..]);
      Sound(net, r, {} + {net.host}, {}) && Load(net, r) == Load(net, s) && Done(net, r) == Done(net, s)
  {
    assert Inspected(0);
    var r := s.(callbacks := s.callbacks[1..]);
    SamePorts(net, s, r);
    assert HostAwake(net, s, {});
    forall p ensures PortAwake(net, r, {}, p) {
      assert N.PortOf(r, p) == N.PortOf(s, p);
      assert PortAwake(net, s, {}, p);
    }
    forall c ensures CompositeAwake(net, r, {net.host}, c) {
      assert N.Wakeups(r, c) == N.Wakeups(s, c);
      assert CompositeAwake(net, s, {}, c);
    }
    forall c, x | x in N.Wakeups(r, c) ensures x in net.parent && net.parent[x] == c {
      assert x in N.Wakeups(s, c);
    }
    assert N.Wakeups(r, net.host) == N.Wakeups(s, net.host);
    assert HostAwake(net, r, {net.host});
    assert {} + {net.host} == {net.host};
  }

  /** The host's reaction starts in a sound state. */
  lemma ReactionBegins(net: N.Network, s: N.State)
    requires N.Downhill(net) && N.Tree(net) && Sound(net, s, {}, {}) && s.callbacks != []
    ensures var t := s.(callbacks := s.callbacks[1..]);
      && Sound(net, t, {} + {net.host}, {}) && Load(net, t) == Load(net, s) && Done(net, t) == Done(net, s)
      && (Served(net, s) ==> Served(net, t))
      && M.Run(net, M.Config(s, []), [M.Start]) == Some(M.Config(t, [] + [net.host]))
  {
    CallbackStarts(net, s);
    assert Inspected(0) && !s.thrown;
    SamePortsServed(net, s, s.(callbacks := s.callbacks[1..]));
    M.ReactionStarts(net, s);
  }

  lemma QuietAfterDrain(net: N.Network, s: N.State)
    requires N.Downhill(net) && Sound(net, s, {}, {}) && N.Wakeups(s, net.host) == {} && !s.requested && s.callbacks == []
    ensures Quiet(net, s) && Load(net, s) == 0
  {
    assert Inspected(0);
    QuietEverywhere(net, s);
    forall p | p in net.inputs ensures N.PortOf(s, p).queue == [] {
      assert N.Queues(net, p);
      assert N.Orderly(N.PortOf(s, p));
    }
    NoLoadExactly(net, s, net.inputs);
  }

  lemma SendingIsSound(net: N.Network, s: N.State, p: nat, e: N.Event)
    requires N.Downhill(net) && N.Tree(net) && Sound(net, s, {}, {}) && e != N.Null
    ensures var r := N.SendData(net, s, p, e);
      && Sound(net, r, {}, {}) && Load(net, r) == Load(net, s) + SendCost(net, p, 0) && Done(net, r) == Done(net, s)
  {
    assert Inspected(0);
    SendObeysLaw(net, s, p, 0, e);
    SendWakes(net, s, p, 0, e, {}, {});
  }

  /** Marks the places where the state is looked into. */
  ghost predicate Inspected(x: int)
  {
    true
  }

  /** No event lost or out of turn, and no wake-up lost; stated for an inspected state only. */
  ghost predicate Sound(net: N.Network, s: N.State, active: set<nat>, busy: set<nat>)
  {
    forall x {:trigger Inspected(x)} :: Inspected(x) ==>
      N.WellFormed(net) && AllOrderly(s) && Awake(net, s, active, busy) && !s.thrown
  }

  lemma SamePorts(net: N.Network, s: N.State, r: N.State)
    requires N.Downhill(net) && s.ports == r.ports && AllOrderly(s)
    ensures Load(net, s) == Load(net, r) && Done(net, s) == Done(net, r) && AllOrderly(r)
  {
    SumsSamePorts(net, s, r, net.inputs);
    SamePortsOrderly(s, r);
  }

  /** Every event that is queued or may come has handlers. */
  ghost predicate Served(net: N.Network, s: N.State)
  {
    N.AllHandled(net) && WaitingServed(net, s) && !s.thrown
  }

  lemma SamePortsServed(net: N.Network, s: N.State, r: N.State)
    requires s.ports == r.ports && s.thrown == r.thrown
    ensures Served(net, s) ==> Served(net, r)
  {
    forall p ensures N.PortOf(s, p) == N.PortOf(r, p) {
    }
  }

  lemma ReactingIsServed(net: N.Network, s: N.State, a: nat)
    requires N.Downhill(net) && N.Tree(net)
    ensures Served(net, s) ==> Served(net, N.ProcessInputs(net, s, a))
  {
    if Served(net, s) {
      ProcessServes(net, s, a, 0);
    }
  }

  lemma SendingIsServed(net: N.Network, s: N.State, p: nat, e: N.Event)
    requires N.Downhill(net) && N.Tree(net)
    ensures Served(net, s) ==> Served(net, N.SendData(net, s, p, e))
  {
    if Served(net, s) {
      SendPasses(net, s, p, 0, e);
      SendServes(net, s, N.SendData(net, s, p, e));
    }
  }

  lemma CompositeHasNoPorts(net: N.Network, c: nat)
    requires !N.IsAtomic(net, c)
    ensures PortsOf(net, c) == {}
  {
  }

  lemma PoppedIsSound(net: N.Network, s: N.State, c: nat, child: nat, active: set<nat>)
    requires N.Downhill(net) && Sound(net, s, active, {}) && child in N.Wakeups(s, c)
    ensures child in net.parent && net.parent[child] == c && child != net.host
    ensures N.Height(net, child) < N.Height(net, c)
    ensures var r := s.(wakeups := s.wakeups[c := N.Wakeups(s, c) - {child}]);
      && Sound(net, r, active + {child}, PortsOf(net, child)) && Progress(net, s, r)
      && N.Wakeups(r, c) == N.Wakeups(s, c) - {child}
  {
    assert Inspected(0);
    PoppedIsOpen(net, s, c, child, active);
    SamePorts(net, s, s.(wakeups := s.wakeups[c := N.Wakeups(s, c) - {child}]));
  }

  /** Whatever ran after the pop, either load went or the queue is shorter. */
  lemma PopMadeProgress(net: N.Network, s: N.State, popped: N.State, r: N.State, c: nat, child: nat)
    requires N.Downhill(net) && Progress(net, s, popped) && Progress(net, popped, r)
    requires child in N.Wakeups(s, c) && N.Wakeups(popped, c) == N.Wakeups(s, c) - {child}
    ensures Progress(net, s, r)
    ensures Load(net, r) < Load(net, s) || N.Wakeups(r, c) < N.Wakeups(s, c)
  {
    ProgressTrans(net, s, popped, r);
    if Load(net, r) == Load(net, s) {
      assert N.Wakeups(r, c) <= N.Wakeups(popped, c);
      assert child !in N.Wakeups(r, c);
    }
  }

  lemma ReactingIsSound(net: N.Network, s: N.State, a: nat, active: set<nat>)
    requires N.Downhill(net) && N.Tree(net) && Sound(net, s, active + {a}, PortsOf(net, a)) && N.IsAtomic(net, a)
    ensures var r := N.ProcessInputs(net, s, a); r.thrown || (Sound(net, r, active, {}) && Progress(net, s, r))
  {
    assert Inspected(0);
    var n := ProcessingObeysLaw(net, s, a, 0);
    assert N.InputsOf(net, a)[0..] == N.InputsOf(net, a);
    AtomicNeedsNoExemption(net, s, a, active, PortsOf(net, a));
    assert PortsFrom(net, a, 0) == PortsOf(net, a);
    ProcessingWakes(net, s, a, 0, active);
  }

  /** Atomic accessors have no queue of their own. */
  lemma AtomicNeedsNoExemption(net: N.Network, s: N.State, a: nat, active: set<nat>, busy: set<nat>)
    requires N.WellFormed(net) && Awake(net, s, active + {a}, busy) && N.IsAtomic(net, a)
    ensures Awake(net, s, active, busy)
  {
    forall y ensures y !in N.Wakeups(s, a) {
    }
    assert N.Wakeups(s, a) == {};
    forall x ensures CompositeAwake(net, s, active, x) {
      assert CompositeAwake(net, s, active + {a}, x);
    }
    OnStack(net, s, active + {a}, active, busy);
  }

  lemma CompositeStops(net: N.Network, s: N.State, c: nat, active: set<nat>)
    requires Sound(net, s, active + {c}, {}) && N.Wakeups(s, c) == {} && c != net.host
    ensures Sound(net, s, active, {})
  {
    assert Inspected(0);
    forall x ensures CompositeAwake(net, s, active, x) {
      assert CompositeAwake(net, s, active + {c}, x);
    }
    OnStack(net, s, active + {c}, active, {});
  }

  lemma HostStops(net: N.Network, s: N.State, active: set<nat>)
    requires N.Downhill(net) && Sound(net, s, active + {net.host}, {}) && N.Wakeups(s, net.host) == {}
    ensures var r := s.(requested := false);
      && Sound(net, r, active - {net.host}, {}) && s.callbacks == []
      && Load(net, r) == Load(net, s) && Done(net, r) == Done(net, s)
      && forall b {:trigger N.Wakeups(r, b)} :: N.Wakeups(r, b) == N.Wakeups(s, b)
  {
    assert Inspected(0);
    var r := s.(requested := false);
    SamePorts(net, s, r);
    assert (active - {net.host}) + {net.host} == active + {net.host};
    CoveredElsewhere(net, s, r, active - {net.host}, {});
    assert HostAwake(net, s, active + {net.host});
  }
}
