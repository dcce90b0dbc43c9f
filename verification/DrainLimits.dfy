/**
 Where the drain's promises end: some run throws exactly if events come to a port that has no
 handlers, and a drain that was left by an exception is the last one.
 */
module DrainLimits {
  import opened Wrappers
  import N = Network
  import opened WakeupLaws
  import opened Passes
  import opened Reaction
  import opened DrainSteps
  import opened DrainMachine

  const INITIAL: Config := Config(N.State(map[], map[], false, [], false), [])

  /** This run ends with an exception. */
  ghost predicate Throws(net: N.Network, steps: seq<Step>)
    requires N.Downhill(net) && N.Tree(net)
  {
    Run(net, INITIAL, steps).Some? && Run(net, INITIAL, steps).value.state.thrown
  }

  lemma SendRuns(net: N.Network, p: nat, e: N.Event)
    requires N.Downhill(net) && N.Tree(net) && e != N.Null
    ensures Run(net, INITIAL, [Send(p, e)]) == Some(Config(N.SendData(net, INITIAL.state, p, e), []))
  {
    RunOne(net, INITIAL, Send(p, e));
  }

  /** An event that is queued at a sound state without anything running has a callback to come. */
  lemma QueuedHasCallback(net: N.Network, s: N.State, p: nat)
    requires N.WellFormed(net) && Sound(net, s, {}, {}) && N.Queues(net, p) && N.PortOf(s, p).queue != []
    ensures s.callbacks != []
  {
    assert Inspected(0);
    assert HostAwake(net, s, {});
    assert N.Orderly(N.PortOf(s, p));
    if !s.requested {
      QuietEverywhere(net, s);
    }
  }

  /** When everything is quiet, every input has handled what it received. */
  lemma QuietHasHandled(net: N.Network, s: N.State, p: nat)
    requires Sound(net, s, {}, {}) && Quiet(net, s) && N.WellFormed(net) && N.Queues(net, p)
    ensures N.PortOf(s, p).received == N.PortOf(s, p).handled
  {
    assert Inspected(0);
    assert N.Orderly(N.PortOf(s, p)) && p in net.inputs;
  }

  /** Sending to a port without handlers, and then reacting, throws. */
  lemma ExposedThrows(net: N.Network, p: nat) returns (steps: seq<Step>)
    requires N.WellFormed(net) && N.Exposed(net, p) && p !in net.handlers
    ensures Throws(net, steps)
  {
    var q: nat :| p in N.Out(net, q);
    var j: nat :| j < |N.Out(net, q)| && N.Out(net, q)[j] == p;
    var e := N.Data(0);
    var s := N.SendData(net, INITIAL.state, q, e);
    InitiallySound(net, INITIAL.state);
    SendingIsSound(net, INITIAL.state, q, e);
    SendReaches(net, INITIAL.state, q, j, e, p);
    SendRuns(net, q, e);
    RunLeavesUnhandled(net, INITIAL, [Send(q, e)], p);
    assert Inspected(0);
    assert N.Orderly(N.PortOf(s, p));
    QueuedHasCallback(net, s, p);
    var reaction, y := ReactionRuns(net, s);
    RunConcat(net, INITIAL, [Send(q, e)], reaction);
    steps := [Send(q, e)] + reaction;
    RunLeavesUnhandled(net, Config(s, []), reaction, p);
    if !y.state.thrown {
      QuietHasHandled(net, y.state, p);
    }
  }

  /** Some run throws if and only if events come to some input port that has no handlers. */
  lemma SomeRunThrowsExactly(net: N.Network)
    requires N.WellFormed(net)
    ensures (exists steps :: Throws(net, steps)) <==> exists p: nat :: N.Exposed(net, p) && p !in net.handlers
  {
    if p: nat :| N.Exposed(net, p) && p !in net.handlers {
      var steps := ExposedThrows(net, p);
    } else {
      assert Served(net, INITIAL.state);
      forall steps ensures !Throws(net, steps) {
        if Run(net, INITIAL, steps).Some? {
          RunServes(net, INITIAL, steps);
        }
      }
    }
  }

  // ----- after an exception -----

  /** In any network, a run that throws leaves the request made and no callback pending. */
  lemma ThrownLeavesRequest(net: N.Network, steps: seq<Step>)
    requires N.Downhill(net) && N.Tree(net) && Throws(net, steps)
    ensures var s := Run(net, INITIAL, steps).value.state; s.requested && s.callbacks == []
  {
    RunKeepsRequests(net, INITIAL, steps);
  }

  /** With a request made and no callback pending, no step but sending is left, and nothing is handled. */
  lemma {:induction false} RequestWithoutCallbackIsFinal(net: N.Network, s: N.State, later: seq<Step>)
    requires N.Downhill(net) && N.Tree(net) && s.requested && s.callbacks == []
    requires Run(net, Config(s, []), later).Some?
    ensures var y := Run(net, Config(s, []), later).value;
      && y.stack == [] && y.state.requested && y.state.callbacks == []
      && forall p {:trigger N.PortOf(y.state, p)} :: N.PortOf(y.state, p).handled == N.PortOf(s, p).handled
    decreases |later|
  {
    if later != [] {
      var step := later[0];
      SendPasses(net, s, step.port, 0, step.event);
      var r := N.SendData(net, s, step.port, step.event);
      RequestWithoutCallbackIsFinal(net, r, later[1..]);
      var y := Run(net, Config(s, []), later).value;
      forall p ensures N.PortOf(y.state, p).handled == N.PortOf(s, p).handled {
        assert PortPassed(N.PortOf(s, p), N.PortOf(r, p));
      }
    }
  }

  /**
   An exception is the end: after a run that throws, once the exception is gone, no reaction
   ever starts again and no event is handled, whatever is sent.
   */
  lemma AbortedDrainIsFinal(net: N.Network, steps: seq<Step>, later: seq<Step>)
    requires N.Downhill(net) && N.Tree(net) && Throws(net, steps)
    requires Run(net, Config(Run(net, INITIAL, steps).value.state.(thrown := false), []), later).Some?
    ensures var s := Run(net, INITIAL, steps).value.state;
      var y := Run(net, Config(s.(thrown := false), []), later).value;
      && y.state.requested && y.state.callbacks == []
      && forall p {:trigger N.PortOf(y.state, p)} :: N.PortOf(y.state, p).handled == N.PortOf(s, p).handled
  {
    ThrownLeavesRequest(net, steps);
    var s := Run(net, INITIAL, steps).value.state;
    var t := s.(thrown := false);
    RequestWithoutCallbackIsFinal(net, t, later);
    assert forall p :: N.PortOf(t, p) == N.PortOf(s, p);
  }
}
