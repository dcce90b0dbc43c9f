/** What runs of the machine of small steps come to, and what every step keeps. */
module DrainMachine {
  import opened Wrappers
  import opened DrainSteps
  import N = Network
  import opened EventLaws
  import opened Passes
  import opened Reaction

  // ----- every drain goes through -----

  lemma {:induction false} LeastChild(net: N.Network, children: set<nat>) returns (child: nat)
    requires children != {}
    ensures child in children && forall x :: x in children ==> N.PriorityOf(net, child) <= N.PriorityOf(net, x)
    decreases children
  {
    child :| child in children;
    var rest := children - {child};
    if rest != {} {
      var other := LeastChild(net, rest);
      var best := if N.PriorityOf(net, other) < N.PriorityOf(net, child) then other else child;
      forall x | x in children ensures N.PriorityOf(net, best) <= N.PriorityOf(net, x) {
        assert x == child || x in rest;
      }
      child := best;
    } else {
      assert children == {child};
    }
  }

  /** Draining composite `c` went well: what the method that drains it promises. */
  ghost predicate DrainedAt(net: N.Network, s: N.State, stack: seq<nat>, c: nat, active: set<nat>, y: Config)
    requires N.Downhill(net)
  {
    && y.stack == stack && N.Wakeups(y.state, c) == {}
    && Sound(net, y.state, active + {c}, {}) && Progress(net, s, y.state)
  }

  /** From any sound state some run drains composite `c`, the top of the stack, or throws. */
  lemma {:induction false} Drains(net: N.Network, s: N.State, below: seq<nat>, c: nat, active: set<nat>)
    returns (steps: seq<Step>, y: Config)
    requires N.WellFormed(net) && Sound(net, s, active + {c}, {}) && !s.thrown
    ensures Run(net, Config(s, below + [c]), steps) == Some(y)
    ensures y.state.thrown || DrainedAt(net, s, below + [c], c, active, y)
    decreases N.Height(net, c), 1, Load(net, s), N.Wakeups(s, c)
  {
    var x := Config(s, below + [c]);
    if N.Wakeups(s, c) == {} {
      return [], x;
    }
    steps, y := PicksOne(net, s, below, c, active);
    if !y.state.thrown {
      var rest, z := Drains(net, y.state, below, c, active);
      RunConcat(net, x, steps, rest);
      if !z.state.thrown {
        ProgressTrans(net, s, y.state, z.state);
      }
      steps, y := steps + rest, z;
    }
  }

  /** One pass: the next child reacts, or is drained in its turn. */
  lemma {:induction false} PicksOne(net: N.Network, s: N.State, below: seq<nat>, c: nat, active: set<nat>)
    returns (steps: seq<Step>, y: Config)
    requires N.WellFormed(net) && Sound(net, s, active + {c}, {}) && !s.thrown && N.Wakeups(s, c) != {}
    ensures Run(net, Config(s, below + [c]), steps) == Some(y)
    ensures y.state.thrown || (
              && y.stack == below + [c] && Sound(net, y.state, active + {c}, {}) && Progress(net, s, y.state)
              && !y.state.thrown
              && (Load(net, y.state) < Load(net, s) || N.Wakeups(y.state, c) < N.Wakeups(s, c)))
    decreases N.Height(net, c), 0
  {
    var x := Config(s, below + [c]);
    var child := LeastChild(net, N.Wakeups(s, c));
    PoppedIsSound(net, s, c, child, active + {c});
    var popped := Popped(s, c, child);
    y := Picked(net, x, c, child);
    steps := [Pick(child)];
    RunOne(net, x, Pick(child));
    assert x.stack[|x.stack| - 1] == c;
    if child in net.model.atoms {
      ReactingIsSound(net, popped, child, active + {c});
    } else {
      CompositeHasNoPorts(net, child);
      var inner, z := Drains(net, popped, below + [c], child, active + {c});
      RunConcat(net, x, steps, inner);
      steps, y := steps + inner, z;
      if !z.state.thrown {
        CompositeStops(net, z.state, child, active + {c});
        ReturnsBelow(net, z, below + [c], child);
        RunConcat(net, x, steps, [Return]);
        steps, y := steps + [Return], Config(z.state, below + [c]);
      }
    }
    if !y.state.thrown {
      PopMadeProgress(net, s, popped, y.state, c, child);
    }
  }

  lemma ReturnsBelow(net: N.Network, z: Config, below: seq<nat>, child: nat)
    requires N.Downhill(net) && N.Tree(net) && z.stack == below + [child] && below != [] && !z.state.thrown
    requires N.Wakeups(z.state, child) == {}
    ensures Run(net, z, [Return]) == Some(Config(z.state, below))
  {
    RunOne(net, z, Return);
    assert z.stack[..|z.stack| - 1] == below;
  }

  /** From any sound state with a callback some run of the host's reaction throws, or drains the whole tree. */
  lemma ReactionRuns(net: N.Network, s: N.State) returns (steps: seq<Step>, y: Config)
    requires N.WellFormed(net) && Sound(net, s, {}, {}) && !s.thrown && s.callbacks != []
    ensures Run(net, Config(s, []), steps) == Some(y)
    ensures y.state.thrown || (y.stack == [] && Drained(net, s, y.state))
  {
    var x, none: set<nat> := Config(s, []), {};
    CallbackStarts(net, s);
    var t := s.(callbacks := s.callbacks[1..]);
    assert Next(net, x, Start) == Some(Config(t, [net.host]));
    RunOne(net, x, Start);
    assert [] + [net.host] == [net.host];
    var inner, z := Drains(net, t, [], net.host, none);
    RunConcat(net, x, [Start], inner);
    steps, y := [Start] + inner, z;
    if !z.state.thrown {
      HostStops(net, z.state, none);
      assert none - {net.host} == none;
      RunOne(net, z, Return);
      RunConcat(net, x, steps, [Return]);
      y := Returned(z);
      steps := steps + [Return];
      QuietAfterDrain(net, y.state);
    }
  }

  // ----- what every step keeps -----

  /** While events have handlers no step throws. */
  lemma NextServes(net: N.Network, x: Config, step: Step)
    requires N.Downhill(net) && N.Tree(net) && Served(net, x.state) && Next(net, x, step).Some?
    ensures Served(net, Next(net, x, step).value.state)
  {
    match step
    case Send(p, e) => SendingIsServed(net, x.state, p, e);
    case Start => SamePortsServed(net, x.state, Next(net, x, Start).value.state);
    case Return => SamePortsServed(net, x.state, Next(net, x, Return).value.state);
    case Pick(child) =>
      var popped := Popped(x.state, x.stack[|x.stack| - 1], child);
      SamePortsServed(net, x.state, popped);
      ReactingIsServed(net, popped, child);
  }

  lemma {:induction false} RunServes(net: N.Network, x: Config, steps: seq<Step>)
    requires N.Downhill(net) && N.Tree(net) && Served(net, x.state) && Run(net, x, steps).Some?
    ensures Served(net, Run(net, x, steps).value.state)
    decreases |steps|
  {
    if steps != [] {
      NextServes(net, x, steps[0]);
      RunServes(net, Next(net, x, steps[0]).value, steps[1..]);
    }
  }

  /** While the host drains, its request is made and no callback is pending; otherwise there is one for a request. */
  ghost predicate Requests(x: Config)
  {
    if x.stack == [] then |x.state.callbacks| == (if x.state.requested then 1 else 0) && !x.state.thrown
    else x.state.requested && x.state.callbacks == []
  }

  /** This holds in any network, whether reactions throw or not. */
  lemma NextKeepsRequests(net: N.Network, x: Config, step: Step)
    requires N.Downhill(net) && N.Tree(net) && Requests(x) && Next(net, x, step).Some?
    ensures Requests(Next(net, x, step).value)
  {
    match step
    case Send(p, e) => SendPasses(net, x.state, p, 0, e);
    case Start =>
    case Return =>
    case Pick(child) =>
      if child in net.model.atoms {
        ProcessKeepsRequest(net, Popped(x.state, x.stack[|x.stack| - 1], child), child, 0);
      }
  }

  lemma {:induction false} RunKeepsRequests(net: N.Network, x: Config, steps: seq<Step>)
    requires N.Downhill(net) && N.Tree(net) && Requests(x) && Run(net, x, steps).Some?
    ensures Requests(Run(net, x, steps).value)
    decreases |steps|
  {
    if steps != [] {
      NextKeepsRequests(net, x, steps[0]);
      RunKeepsRequests(net, Next(net, x, steps[0]).value, steps[1..]);
    }
  }

  /** A port without handlers never handles an event. */
  lemma NextLeavesUnhandled(net: N.Network, x: Config, step: Step, q: nat)
    requires N.Downhill(net) && N.Tree(net) && q !in net.handlers && Next(net, x, step).Some?
    ensures Unhandled(N.PortOf(x.state, q), N.PortOf(Next(net, x, step).value.state, q))
  {
    match step
    case Send(p, e) =>
      SendPasses(net, x.state, p, 0, e);
      assert PortPassed(N.PortOf(x.state, q), N.PortOf(Next(net, x, step).value.state, q));
    case Start =>
    case Return =>
    case Pick(child) =>
      if child in net.model.atoms {
        ProcessLeavesUnhandled(net, Popped(x.state, x.stack[|x.stack| - 1], child), child, 0, q);
      }
  }

  lemma {:induction false} RunLeavesUnhandled(net: N.Network, x: Config, steps: seq<Step>, q: nat)
    requires N.Downhill(net) && N.Tree(net) && q !in net.handlers && Run(net, x, steps).Some?
    ensures Unhandled(N.PortOf(x.state, q), N.PortOf(Run(net, x, steps).value.state, q))
    decreases |steps|
  {
    if steps != [] {
      NextLeavesUnhandled(net, x, steps[0], q);
      RunLeavesUnhandled(net, Next(net, x, steps[0]).value, steps[1..], q);
    }
  }
}
