/**
 What input ports receive and handle over whole runs: the events that were sent to them, in
 the order in which they were sent.
 */
module ArrivalRuns {
  import N = Network
  import opened Passes
  import opened Arrivals
  import opened Handling
  import opened DrainSteps
  import DrainLimits

  /** The events that the outputs among the steps send to input port `q`. */
  function EventsTo(net: N.Network, steps: seq<Step>, q: nat): seq<N.Event>
    requires N.Downhill(net)
  {
    if steps == [] then []
    else (if steps[0].Send? then Copies(Occurs(Deep(net, steps[0].port, 0), q), steps[0].event) else [])
         + EventsTo(net, steps[1..], q)
  }

  /** No input port passes events on to `q`. */
  ghost predicate NotPassedOn(net: N.Network, q: nat)
    requires N.Downhill(net)
  {
    forall x {:trigger Looked(x)} :: Looked(x) ==>
      N.Queues(net, q) && OnlyPassedOnBy(net, q, q) && q !in Deep(net, q, 0)
  }

  // ----- histories stay complete -----

  lemma {:induction false} ProcessKeeps(net: N.Network, s: N.State, a: nat, k: nat)
    requires N.Downhill(net) && N.Tree(net) && Kept(s)
    ensures Kept(N.ProcessFrom(net, s, a, k))
    decreases |N.InputsOf(net, a)| - k
  {
    if k < |N.InputsOf(net, a)| && !s.thrown {
      var p := N.InputsOf(net, a)[k];
      var r := N.HandleInput(net, s, a, p);
      if N.PortOf(s, p).waiting && p !in net.handlers {
        forall q ensures N.PortOf(r, q) == N.PortOf(s, q) {
        }
      } else {
        TurnHandles(net, s, a, p, p);
      }
      ProcessKeeps(net, r, a, k + 1);
    }
  }

  lemma SamePortsKeep(s: N.State, r: N.State)
    requires s.ports == r.ports && Kept(s)
    ensures Kept(r)
  {
    forall q ensures N.PortOf(r, q) == N.PortOf(s, q) {
    }
  }

  lemma NextKeeps(net: N.Network, x: Config, step: Step)
    requires N.Downhill(net) && N.Tree(net) && Kept(x.state) && Next(net, x, step).Some?
    ensures Kept(Next(net, x, step).value.state)
  {
    match step
    case Send(p, e) =>
      SendPasses(net, x.state, p, 0, e);
      PassedKeeps(net, x.state, Next(net, x, step).value.state);
    case Start => SamePortsKeep(x.state, Next(net, x, step).value.state);
    case Return => SamePortsKeep(x.state, Next(net, x, step).value.state);
    case Pick(child) =>
      var popped := Popped(x.state, x.stack[|x.stack| - 1], child);
      SamePortsKeep(x.state, popped);
      ProcessKeeps(net, popped, child, 0);
  }

  // ----- ports that only outputs send to -----

  /** What an input port passes on does not come to `q`. */
  lemma PassingAddsNothing(net: N.Network, u: N.State, x: nat, e: N.Event, q: nat)
    requires N.Downhill(net) && N.Tree(net) && N.Queues(net, x) && NotPassedOn(net, q)
    ensures N.PortOf(N.SendData(net, u, x, e), q).received == N.PortOf(u, q).received
  {
    assert Looked(0);
    SendGrowsAlone(net, u, x, e, q);
    assert x == q || Silent(net, x, q);
    AbsentOccurs(Deep(net, x, 0), q);
    assert Copies(0, e) == [];
  }

  lemma HandlingAddsNothing(net: N.Network, s: N.State, a: nat, p: nat, q: nat)
    requires N.Downhill(net) && N.Tree(net) && N.Queues(net, p) && NotPassedOn(net, q)
    ensures N.PortOf(N.HandleInput(net, s, a, p), q).received == N.PortOf(s, q).received
  {
    if HandsOn(net, s, p) {
      var u := HandledTakes(net, s, a, p);
      PassingAddsNothing(net, u, p, N.PortOf(s, p).queue[1], q);
      assert N.PortOf(u, q).received == N.PortOf(s, q).received;
    } else {
      WithoutPassing(net, s, a, p, q);
    }
  }

  /** Handling port `p` passes an event on. */
  predicate HandsOn(net: N.Network, s: N.State, p: nat)
  {
    N.PortOf(s, p).waiting && p in net.handlers && PassedOn(N.PortOf(s, p)) != []
  }

  lemma WithoutPassing(net: N.Network, s: N.State, a: nat, p: nat, q: nat)
    requires N.Downhill(net) && N.Tree(net) && !HandsOn(net, s, p)
    ensures var r := N.HandleInput(net, s, a, p);
      N.PortOf(r, q).received == N.PortOf(s, q).received && N.PortOf(r, q).forwarded == N.PortOf(s, q).forwarded
  {
  }

  lemma {:induction false} ProcessAddsNothing(net: N.Network, s: N.State, a: nat, k: nat, q: nat)
    requires N.Downhill(net) && N.Tree(net) && N.InputsListed(net) && NotPassedOn(net, q)
    ensures N.PortOf(N.ProcessFrom(net, s, a, k), q).received == N.PortOf(s, q).received
    decreases |N.InputsOf(net, a)| - k
  {
    if k < |N.InputsOf(net, a)| && !s.thrown {
      var p := N.InputsOf(net, a)[k];
      assert p in N.InputsOf(net, a);
      HandlingAddsNothing(net, s, a, p, q);
      ProcessAddsNothing(net, N.HandleInput(net, s, a, p), a, k + 1, q);
    }
  }

  lemma PickAddsNothing(net: N.Network, s: N.State, c: nat, child: nat, q: nat)
    requires N.Downhill(net) && N.Tree(net) && N.InputsListed(net) && NotPassedOn(net, q)
    ensures N.PortOf(N.ProcessInputs(net, Popped(s, c, child), child), q).received == N.PortOf(s, q).received
  {
    ProcessAddsNothing(net, Popped(s, c, child), child, 0, q);
  }

  lemma EventsToOne(net: N.Network, step: Step, q: nat)
    requires N.Downhill(net)
    ensures EventsTo(net, [step], q)
         == if step.Send? then Copies(Occurs(Deep(net, step.port, 0), q), step.event) else []
  {
    assert [step][1..] == [] && EventsTo(net, [], q) == [];
  }

  lemma OutputAdds(net: N.Network, s: N.State, p: nat, e: N.Event, q: nat)
    requires N.Downhill(net) && N.Tree(net) && NotPassedOn(net, q)
    ensures N.PortOf(N.SendData(net, s, p, e), q).received
         == N.PortOf(s, q).received + Copies(Occurs(Deep(net, p, 0), q), e)
  {
    assert Looked(0);
    SendGrowsAlone(net, s, p, e, q);
  }

  lemma NextAdds(net: N.Network, x: Config, step: Step, q: nat)
    requires N.Downhill(net) && N.Tree(net) && N.InputsListed(net) && NotPassedOn(net, q) && Next(net, x, step).Some?
    ensures N.PortOf(Next(net, x, step).value.state, q).received == N.PortOf(x.state, q).received + EventsTo(net, [step], q)
  {
    EventsToOne(net, step, q);
    match step
    case Send(p, e) => OutputAdds(net, x.state, p, e, q);
    case Start =>
    case Return =>
    case Pick(child) => PickAddsNothing(net, x.state, x.stack[|x.stack| - 1], child, q);
  }

  lemma EventsToFirst(net: N.Network, step: Step, rest: seq<Step>, q: nat)
    requires N.Downhill(net)
    ensures EventsTo(net, [step] + rest, q) == EventsTo(net, [step], q) + EventsTo(net, rest, q)
  {
    assert ([step] + rest)[1..] == rest && [step][1..] == [];
  }

  /**
   Over any run an input port that only outputs send to receives exactly the events sent to
   it, in order, each as often as it is below the output.
   */
  lemma {:induction false} RunAdds(net: N.Network, x: Config, steps: seq<Step>, q: nat)
    requires N.Downhill(net) && N.Tree(net) && N.InputsListed(net) && NotPassedOn(net, q) && Run(net, x, steps).Some?
    ensures N.PortOf(Run(net, x, steps).value.state, q).received == N.PortOf(x.state, q).received + EventsTo(net, steps, q)
    decreases |steps|
  {
    if steps == [] {
      assert EventsTo(net, steps, q) == [];
    } else {
      var step, y := steps[0], Next(net, x, steps[0]).value;
      NextAdds(net, x, step, q);
      RunAdds(net, y, steps[1..], q);
      EventsToFirst(net, step, steps[1..], q);
      assert steps == [step] + steps[1..];
      Glued(N.PortOf(x.state, q).received, EventsTo(net, [step], q), EventsTo(net, steps[1..], q));
    }
  }

  lemma Glued(xs: seq<N.Event>, ys: seq<N.Event>, zs: seq<N.Event>)
    ensures (xs + ys) + zs == xs + (ys + zs)
  {
  }

  lemma {:induction false} RunKeeps(net: N.Network, x: Config, steps: seq<Step>)
    requires N.Downhill(net) && N.Tree(net) && Kept(x.state) && Run(net, x, steps).Some?
    ensures Kept(Run(net, x, steps).value.state)
    decreases |steps|
  {
    if steps != [] {
      NextKeeps(net, x, steps[0]);
      RunKeeps(net, Next(net, x, steps[0]).value, steps[1..]);
    }
  }

  /** From the start on, what such a port has handled is a prefix of what was sent to it, and the rest is queued. */
  lemma HandledIsPrefixOfSent(net: N.Network, steps: seq<Step>, q: nat)
    requires N.Downhill(net) && N.Tree(net) && N.InputsListed(net) && NotPassedOn(net, q)
    requires Run(net, DrainLimits.INITIAL, steps).Some?
    ensures var i := N.PortOf(Run(net, DrainLimits.INITIAL, steps).value.state, q);
      i.handled <= EventsTo(net, steps, q) && i.handled + i.queue == EventsTo(net, steps, q)
  {
    var x := DrainLimits.INITIAL;
    forall p ensures N.PortOf(x.state, p) == N.EMPTY {
    }
    RunKeeps(net, x, steps);
    RunAdds(net, x, steps, q);
    var i := N.PortOf(Run(net, x, steps).value.state, q);
    assert Historic(i);
    assert N.PortOf(x.state, q).received == [];
    assert i.handled + i.queue == [] + EventsTo(net, steps, q) == EventsTo(net, steps, q);
    StartsWith(i.handled, i.queue, EventsTo(net, steps, q));
  }

  lemma StartsWith(xs: seq<N.Event>, ys: seq<N.Event>, all: seq<N.Event>)
    requires xs + ys == all
    ensures xs <= all
  {
  }

  // ----- ports that an input port passes events on to -----

  /** From `s` to `r` port `p` passed on `events`, and they are what came to `q`. */
  ghost predicate TrackedBy(s: N.State, r: N.State, p: nat, q: nat, events: seq<N.Event>)
  {
    && N.PortOf(r, p).forwarded == N.PortOf(s, p).forwarded + events
    && N.PortOf(r, q).received == N.PortOf(s, q).received + events
  }

  /** What `p` passed on from `s` to `r` is what came to `q`. */
  ghost predicate Tracked(s: N.State, r: N.State, p: nat, q: nat)
  {
    exists events :: TrackedBy(s, r, p, q, events)
  }

  lemma TrackedTrans(s: N.State, t: N.State, r: N.State, p: nat, q: nat)
    requires Tracked(s, t, p, q) && Tracked(t, r, p, q)
    ensures Tracked(s, r, p, q)
  {
    var xs :| TrackedBy(s, t, p, q, xs);
    var ys :| TrackedBy(t, r, p, q, ys);
    Glued(N.PortOf(s, p).forwarded, xs, ys);
    Glued(N.PortOf(s, q).received, xs, ys);
    assert TrackedBy(s, r, p, q, xs + ys);
  }

  lemma SamePortsTracked(s: N.State, r: N.State, p: nat, q: nat)
    requires N.PortOf(s, p).forwarded == N.PortOf(r, p).forwarded && N.PortOf(s, q).received == N.PortOf(r, q).received
    ensures Tracked(s, r, p, q)
  {
    assert TrackedBy(s, r, p, q, []);
  }

  /** Input port `p`, and no other, passes its events on to `q`, once each. */
  ghost predicate PassesOnTo(net: N.Network, p: nat, q: nat)
    requires N.Downhill(net)
  {
    forall x {:trigger Looked(x)} :: Looked(x) ==>
      N.Queues(net, p) && OnlyPassedOnBy(net, q, p) && Occurs(Deep(net, p, 0), q) == 1
  }

  lemma SendTracks(net: N.Network, s: N.State, x: nat, e: N.Event, p: nat, q: nat)
    requires N.Downhill(net) && N.Tree(net) && PassesOnTo(net, p, q) && q !in Deep(net, x, 0)
    ensures Tracked(s, N.SendData(net, s, x, e), p, q)
  {
    var n, m := SendGrows(net, s, x, 0, e, q, p);
    assert Looked(0);
    AbsentOccurs(Deep(net, x, 0), q);
    assert n == m;
    assert TrackedBy(s, N.SendData(net, s, x, e), p, q, Copies(m, e));
  }

  /** What port `x` passes on, once it is recorded. */
  lemma PassingTracks(net: N.Network, s: N.State, u: N.State, x: nat, e: N.Event, p: nat, q: nat)
    requires N.Downhill(net) && N.Tree(net) && PassesOnTo(net, p, q) && N.Queues(net, x)
    requires N.PortOf(u, q).received == N.PortOf(s, q).received
    requires N.PortOf(u, p).forwarded == N.PortOf(s, p).forwarded + if x == p then [e] else []
    ensures Tracked(s, N.SendData(net, u, x, e), p, q)
  {
    var n, m := SendGrows(net, u, x, 0, e, q, p);
    CopiesMatch(net, x, p, q, n, m);
    OneCopyMore(N.PortOf(s, p).forwarded, m, e, x == p);
    assert TrackedBy(s, N.SendData(net, u, x, e), p, q, Copies(n, e));
  }

  lemma OneCopyMore(xs: seq<N.Event>, m: nat, e: N.Event, more: bool)
    ensures (xs + if more then [e] else []) + Copies(m, e) == xs + Copies(m + if more then 1 else 0, e)
  {
  }

  lemma CopiesMatch(net: N.Network, x: nat, p: nat, q: nat, n: nat, m: nat)
    requires N.Downhill(net) && PassesOnTo(net, p, q) && N.Queues(net, x)
    requires Counted(net, q, n, p, m, Occurs(Deep(net, x, 0), q))
    ensures n == m + if x == p then 1 else 0
  {
    assert Looked(0);
    if x != p {
      assert Silent(net, x, q);
      AbsentOccurs(Deep(net, x, 0), q);
    }
  }

  lemma HandlingTracks(net: N.Network, s: N.State, a: nat, x: nat, p: nat, q: nat)
    requires N.Downhill(net) && N.Tree(net) && PassesOnTo(net, p, q) && N.Queues(net, x)
    ensures Tracked(s, N.HandleInput(net, s, a, x), p, q)
  {
    if HandsOn(net, s, x) {
      var u := HandledTakes(net, s, a, x);
      PassingTracks(net, s, u, x, N.PortOf(s, x).queue[1], p, q);
    } else {
      WithoutPassing(net, s, a, x, p);
      WithoutPassing(net, s, a, x, q);
      SamePortsTracked(s, N.HandleInput(net, s, a, x), p, q);
    }
  }

  lemma {:induction false} ProcessTracks(net: N.Network, s: N.State, a: nat, k: nat, p: nat, q: nat)
    requires N.Downhill(net) && N.Tree(net) && N.InputsListed(net) && PassesOnTo(net, p, q)
    ensures Tracked(s, N.ProcessFrom(net, s, a, k), p, q)
    decreases |N.InputsOf(net, a)| - k
  {
    if k >= |N.InputsOf(net, a)| || s.thrown {
      SamePortsTracked(s, s, p, q);
    } else {
      var x := N.InputsOf(net, a)[k];
      assert x in N.InputsOf(net, a);
      var r := N.HandleInput(net, s, a, x);
      HandlingTracks(net, s, a, x, p, q);
      ProcessTracks(net, r, a, k + 1, p, q);
      TrackedTrans(s, r, N.ProcessFrom(net, r, a, k + 1), p, q);
    }
  }

  lemma NextTracks(net: N.Network, x: Config, step: Step, p: nat, q: nat)
    requires N.Downhill(net) && N.Tree(net) && N.InputsListed(net) && PassesOnTo(net, p, q) && Next(net, x, step).Some?
    requires step.Send? ==> q !in Deep(net, step.port, 0)
    ensures Tracked(x.state, Next(net, x, step).value.state, p, q)
  {
    match step
    case Send(o, e) => SendTracks(net, x.state, o, e, p, q);
    case Start => SamePortsTracked(x.state, Next(net, x, step).value.state, p, q);
    case Return => SamePortsTracked(x.state, Next(net, x, step).value.state, p, q);
    case Pick(child) => PickTracks(net, x.state, x.stack[|x.stack| - 1], child, p, q);
  }

  lemma PickTracks(net: N.Network, s: N.State, c: nat, child: nat, p: nat, q: nat)
    requires N.Downhill(net) && N.Tree(net) && N.InputsListed(net) && PassesOnTo(net, p, q)
    ensures Tracked(s, Popped(s, c, child), p, q)
    ensures Tracked(s, N.ProcessInputs(net, Popped(s, c, child), child), p, q)
  {
    var popped := Popped(s, c, child);
    SamePortsTracked(s, popped, p, q);
    ProcessTracks(net, popped, child, 0, p, q);
    TrackedTrans(s, popped, N.ProcessInputs(net, popped, child), p, q);
  }

  /** Over any run in which no output sends to `q` itself, `q` receives exactly what `p` passes on, in order. */
  lemma {:induction false} RunTracks(net: N.Network, x: Config, steps: seq<Step>, p: nat, q: nat)
    requires N.Downhill(net) && N.Tree(net) && N.InputsListed(net) && PassesOnTo(net, p, q) && Run(net, x, steps).Some?
    requires forall k :: 0 <= k < |steps| && steps[k].Send? ==> q !in Deep(net, steps[k].port, 0)
    ensures Tracked(x.state, Run(net, x, steps).value.state, p, q)
    decreases |steps|
  {
    if steps == [] {
      SamePortsTracked(x.state, x.state, p, q);
    } else {
      var y := Next(net, x, steps[0]).value;
      NextTracks(net, x, steps[0], p, q);
      RunTracks(net, y, steps[1..], p, q);
      TrackedTrans(x.state, y.state, Run(net, y, steps[1..]).value.state, p, q);
    }
  }
}
