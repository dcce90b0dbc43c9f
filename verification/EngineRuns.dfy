/**
 Runs of Director and network together: every round comes to its end, every output is sent
 and handled in its round, and what happens once the host's own callback is cleared.
 */
module EngineRuns {
  import opened Wrappers
  import opened CallbackQueue
  import D = DirectorState
  import opened DirectorRounds
  import N = Network
  import opened EventLaws
  import Passes
  import WakeupLaws
  import R = Reaction
  import Arrivals
  import Requests
  import S = DrainSteps
  import M = DrainMachine
  import opened Engine

  // ----- every round comes to its end -----

  /** The host's reaction has a result. */
  lemma HostReactionExists(net: N.Network, s: N.State) returns (r: N.State)
    requires N.WellFormed(net) && R.Sound(net, s, {}, {}) && R.Served(net, s) && s.callbacks != []
    ensures HostReacts(net, s, r)
  {
    var steps, y := M.ReactionRuns(net, s);
    M.RunServes(net, S.Config(s, []), steps);
    r := y.state;
  }

  /** A periodic callback that is due can be scheduled once more. */
  ghost predicate DueFit(s: D.State)
  {
    forall id :: id in s.table && s.table[id].periodic && s.table[id].time <= s.now ==>
      s.table[id].time + s.table[id].delay <= D.DEFAULT_NEXT_EXECUTION_TIME
  }

  ghost predicate Going(net: N.Network, s: State)
    requires N.Downhill(net)
  {
    && Invariant(net, s) && R.Served(net, s.network) && DueFit(s.director)
    && s.director.inRound && s.director.running.None?
  }

  function Remaining(s: State): nat
  {
    2 * Left(s.director) + if s.drain.Some? then 0 else 1
  }

  /** The front callback can be taken, and that leaves less to do. */
  lemma FrontIsTaken(net: N.Network, s: State) returns (drained: N.State)
    requires N.WellFormed(net) && Going(net, s) && D.Due(s.director)
    ensures Next(net, s, Take(drained)).Some?
    ensures var y := Next(net, s, Take(drained)).value;
      && Invariant(net, y) && R.Served(net, y.network) && DueFit(y.director)
      && y.director.inRound && y.director.running == Some(s.director.queue[0]) && Remaining(y) < Remaining(s)
  {
    var d, id := Popped(s), s.director.queue[0];
    drained := s.network;
    if s.drain == Some(id) {
      PendingHasCallback(net, s);
      drained := HostReactionExists(net, s.network);
    } else if id in s.outputs {
      var output := s.outputs[id];
      SendKeepsGoing(net, s, d, output);
    }
    NextKeepsInvariant(net, s, Take(drained));
  }

  /** The Director without its front callback. */
  ghost function Popped(s: State): (d: D.State)
    requires D.Valid(s.director) && D.Clocked(s.director) && D.Due(s.director)
    requires s.director.inRound && s.director.running.None?
    ensures D.Next(s.director, D.Pop) == Some(d) && D.Valid(d) && D.Clocked(d)
    ensures Left(d) < Left(s.director) && d.now == s.director.now && d.table == s.director.table
  {
    D.NextKeepsValid(s.director, D.Pop);
    D.NextKeepsClock(s.director, D.Pop);
    D.NextQueuedTimeIsLeast(s.director);
    D.Popped(s.director)
  }

  lemma PendingHasCallback(net: N.Network, s: State)
    requires N.Downhill(net) && Invariant(net, s) && s.drain.Some?
    ensures s.network.callbacks != []
  {
    assert R.Inspected(0);
    assert WakeupLaws.HostAwake(net, s.network, {});
  }

  lemma SendKeepsGoing(net: N.Network, s: State, d: D.State, output: Sending)
    requires N.WellFormed(net) && R.Served(net, s.network) && (s.network.requested <==> s.drain.Some?) && D.Valid(d) && D.Clocked(d) && DueFit(d) && d.inRound
    ensures AfterSending(net, s, d, output).Some?
    ensures var y := AfterSending(net, s, d, output).value;
      && R.Served(net, y.network) && DueFit(y.director) && y.director.inRound && y.director.running == d.running
      && (if y.drain == s.drain then Left(y.director) <= Left(d)
          else s.drain.None? && Left(y.director) <= Left(d) + 1)
  {
    var n := N.SendData(net, s.network, output.port, output.event);
    R.SendingIsServed(net, s.network, output.port, output.event);
    if !s.network.requested && n.requested && n.callbacks != [] {
      var request := Schedule([], 0, false, n.callbacks[0]);
      assert [request][1..] == [] && Weight([request]) == 1;
      PerformSpends(d, request);
    }
  }

  /** What was taken can be finished; a periodic callback is then due later. */
  lemma TakenIsFinished(net: N.Network, s: State)
    requires N.WellFormed(net) && Invariant(net, s) && R.Served(net, s.network) && DueFit(s.director)
    requires s.director.inRound && s.director.running.Some?
    ensures Next(net, s, Finish).Some?
    ensures var y := Next(net, s, Finish).value; Going(net, y) && Remaining(y) == Remaining(s)
  {
    var id := s.director.running.value;
    assert id in s.director.table ==> s.director.table[id].time == s.director.now;
    FinishSpends(s.director);
    NextKeepsInvariant(net, s, Finish);
  }

  lemma {:induction false} RunConcat(net: N.Network, s: State, xs: seq<Step>, ys: seq<Step>)
    requires N.Downhill(net) && N.Tree(net) && Run(net, s, xs).Some?
    ensures Run(net, s, xs + ys) == Run(net, Run(net, s, xs).value, ys)
    decreases |xs|
  {
    if xs == [] {
      assert xs + ys == ys;
    } else {
      var all := xs + ys;
      assert all[0] == xs[0] && all[1..] == xs[1..] + ys;
      RunConcat(net, Next(net, s, xs[0]).value, xs[1..], ys);
    }
  }

  lemma RunTwo(net: N.Network, s: State, x: Step, y: Step)
    requires N.Downhill(net) && N.Tree(net) && Next(net, s, x).Some?
    ensures Run(net, s, [x, y]) == Next(net, Next(net, s, x).value, y)
  {
    assert [x, y][1..] == [y] && [y][1..] == [];
    assert Run(net, s, [x, y]) == Run(net, Next(net, s, x).value, [y]);
  }

  /** Only callbacks run. */
  predicate OnlyRuns(steps: seq<Step>)
  {
    forall k :: 0 <= k < |steps| ==> steps[k].Take? || steps[k].Finish?
  }

  /** Every round that is going can be run to its end. */
  lemma {:induction false} RoundGoesThrough(net: N.Network, s: State) returns (steps: seq<Step>)
    requires N.WellFormed(net) && Going(net, s)
    ensures OnlyRuns(steps) && Run(net, s, steps).Some?
    ensures Going(net, Run(net, s, steps).value) && Next(net, Run(net, s, steps).value, End(false)).Some?
    decreases Remaining(s)
  {
    if !D.Due(s.director) {
      steps := [];
    } else {
      var drained := FrontIsTaken(net, s);
      var y := Next(net, s, Take(drained)).value;
      TakenIsFinished(net, y);
      RunTwo(net, s, Take(drained), Finish);
      var rest := RoundGoesThrough(net, Next(net, y, Finish).value);
      RunConcat(net, s, [Take(drained), Finish], rest);
      steps := [Take(drained), Finish] + rest;
    }
  }

  // ----- every output is sent and handled in its round -----

  /** Output `id` is still queued as it was, or it has been sent. */
  ghost predicate QueuedOrSent(net: N.Network, s: State, y: State, id: int)
    requires N.Downhill(net) && id in s.outputs && id in s.director.table
  {
    || y.sent >= s.sent + SendCost(net, s.outputs[id].port, 0)
    || (&& y.sent >= s.sent && id in y.director.queue && id in y.director.table && id in y.outputs
        && y.outputs[id] == s.outputs[id] && y.director.table[id].time == s.director.table[id].time)
  }

  lemma OutputStaysOrIsSent(net: N.Network, s: State, step: Step, id: int)
    requires N.Downhill(net) && N.Tree(net) && Invariant(net, s) && Next(net, s, step).Some?
    requires step.Take? || step.Finish?
    requires id in s.outputs && id in s.director.queue && id in s.director.table && s.drain != Some(id)
    ensures QueuedOrSent(net, s, Next(net, s, step).value, id) && Next(net, s, step).value.drain != Some(id)
  {
    if step.Finish? {
      D.StaysQueued(s.director, D.Finish, id);
    } else if s.director.queue[0] != id {
      var d := D.Next(s.director, D.Pop).value;
      D.StaysQueued(s.director, D.Pop, id);
      var front := s.director.queue[0];
      if s.drain != Some(front) && front in s.outputs {
        SendingKeepsQueued(net, s, d, s.outputs[front], id);
      }
    }
  }

  lemma SendingKeepsQueued(net: N.Network, s: State, d: D.State, output: Sending, id: int)
    requires N.Downhill(net) && N.Tree(net) && D.Valid(d) && id in d.queue && id in d.table && id in s.outputs
    requires AfterSending(net, s, d, output).Some? && s.drain != Some(id)
    ensures var y := AfterSending(net, s, d, output).value;
      && y.sent >= s.sent && y.outputs == s.outputs && y.drain != Some(id)
      && id in y.director.queue && id in y.director.table && y.director.table[id].time == d.table[id].time
  {
    var n := N.SendData(net, s.network, output.port, output.event);
    if !s.network.requested && n.requested && n.callbacks != [] {
      D.StaysQueued(d, D.Act(Schedule([], 0, false, n.callbacks[0])), id);
    }
  }

  lemma {:induction false} OutputLeavesBySending(net: N.Network, s: State, steps: seq<Step>, id: int)
    requires N.Downhill(net) && N.Tree(net) && Invariant(net, s) && Run(net, s, steps).Some? && OnlyRuns(steps)
    requires id in s.outputs && id in s.director.queue && id in s.director.table && s.drain != Some(id)
    ensures QueuedOrSent(net, s, Run(net, s, steps).value, id)
    decreases |steps|
  {
    if steps != [] {
      var r := Next(net, s, steps[0]).value;
      OutputStaysOrIsSent(net, s, steps[0], id);
      NextKeepsInvariant(net, s, steps[0]);
      if r.sent >= s.sent + SendCost(net, s.outputs[id].port, 0) {
        SentGrows(net, r, steps[1..]);
      } else {
        OutputLeavesBySending(net, r, steps[1..], id);
      }
    }
  }

  lemma {:induction false} SentGrows(net: N.Network, s: State, steps: seq<Step>)
    requires N.Downhill(net) && N.Tree(net) && Run(net, s, steps).Some?
    ensures Run(net, s, steps).value.sent >= s.sent
    decreases |steps|
  {
    if steps != [] {
      SentGrows(net, Next(net, s, steps[0]).value, steps[1..]);
    }
  }

  /** The call of an output between rounds, and the start of its round. */
  lemma OutputIsCalled(net: N.Network, s: State, priority: int, output: Sending)
    requires N.WellFormed(net) && Invariant(net, s) && !s.director.inRound && output.event != N.Null
    requires R.Served(net, s.network) && DueFit(s.director)
    ensures var called := [Call(Schedule([], 0, false, priority), Some(output)), Begin];
      Run(net, s, called).Some? && var y := Run(net, s, called).value; var id := s.director.nextId;
      && Going(net, y) && y.sent == s.sent && id in y.outputs && y.outputs[id] == output && y.drain != Some(id)
      && id in y.director.queue && id in y.director.table && y.director.table[id].time == y.director.now
  {
    var action, id := Schedule([], 0, false, priority), s.director.nextId;
    var call := Call(action, Some(output));
    assert D.WellTimed(action);
    assert D.Next(s.director, D.Act(action)) == Some(D.Scheduled(s.director, [], 0, false, priority));
    var t := Next(net, s, call).value;
    NextKeepsInvariant(net, s, call);
    assert id in t.director.table && t.director.running == None && id in t.director.queue;
    assert t.director.table[id].time == t.director.now == t.director.next;
    NextKeepsInvariant(net, t, Begin);
    RunTwo(net, s, call, Begin);
  }

  /**
   Any output, called between rounds in any state that a run can reach, goes through: its
   round can be run to the end, and then it has been sent and everything has been handled.
   */
  lemma OutputGoesThrough(net: N.Network, s: State, priority: int, output: Sending) returns (steps: seq<Step>)
    requires N.WellFormed(net) && Invariant(net, s) && !s.director.inRound && output.event != N.Null
    requires R.Served(net, s.network) && DueFit(s.director)
    ensures Run(net, s, steps).Some? && Next(net, Run(net, s, steps).value, End(false)).Some?
    ensures var y := Run(net, s, steps).value;
      y.sent >= s.sent + SendCost(net, output.port, 0) && R.Quiet(net, y.network) && Done(net, y.network) == y.sent
  {
    var called, id := [Call(Schedule([], 0, false, priority), Some(output)), Begin], s.director.nextId;
    OutputIsCalled(net, s, priority, output);
    var t := Run(net, s, called).value;
    var rest := RoundGoesThrough(net, t);
    RunConcat(net, s, called, rest);
    steps := called + rest;
    var y := Run(net, t, rest).value;
    OutputLeavesBySending(net, t, rest, id);
    EndedRoundIsQuiet(net, y, false);
    RunKeepsNow(net, t, rest);
  }

  lemma {:induction false} RunKeepsNow(net: N.Network, s: State, steps: seq<Step>)
    requires N.Downhill(net) && N.Tree(net) && Run(net, s, steps).Some? && OnlyRuns(steps)
    ensures Run(net, s, steps).value.director.now == s.director.now
    decreases |steps|
  {
    if steps != [] {
      RunKeepsNow(net, Next(net, s, steps[0]).value, steps[1..]);
    }
  }

  /**
   The reaction that an output requests is a callback of its own, due now, at the priority of
   the accessor of the first idle input port that the event comes to.
   */
  lemma DrainCarriesPriority(net: N.Network, s: State, d: D.State, output: Sending)
    requires N.WellFormed(net) && R.Sound(net, s.network, {}, {}) && s.network.callbacks == [] && !s.network.requested
    requires D.Valid(d) && output.event != N.Null && s.drain.None? && AfterSending(net, s, d, output).Some?
    ensures var y := AfterSending(net, s, d, output).value;
      match Requests.FirstIdle(s.network, Arrivals.Deep(net, output.port, 0))
      case None => y.drain.None? && y.director == d
      case Some(i) =>
        && y.drain == Some(d.nextId) && d.nextId in y.director.table
        && y.director.table[d.nextId] == Callback([], 0, false, Requests.FirstGiven(net, N.OwnerOf(net, i)), d.now)
  {
    assert R.Inspected(0);
    Requests.SendingAsks(net, s.network, output.port, 0, output.event);
    var n := N.SendData(net, s.network, output.port, output.event);
    if n.requested {
      D.ScheduleStores(d, [], 0, false, n.callbacks[0]);
    }
  }

  // ----- when someone clears the host's callback -----

  /** Removing a callback keeps the reaction pending if and only if it is not the host's own. */
  lemma ClearingLosesDrainExactly(net: N.Network, s: State, id: int)
    requires N.Downhill(net) && Invariant(net, s)
    ensures DrainPending(s.(director := D.Removed(s.director, id))) <==> s.drain != Some(id)
  {
    RemoveKeeps(s.director.table, s.director.queue, id);
  }

  /** Then no reaction is ever requested again, and no event is handled, whatever is called. */
  lemma {:induction false} LostDrainIsFinal(net: N.Network, s: State, steps: seq<Step>)
    requires N.Downhill(net) && N.Tree(net) && s.network.requested && s.drain.None? && Run(net, s, steps).Some?
    ensures var y := Run(net, s, steps).value;
      && y.network.requested && y.drain.None?
      && forall p {:trigger N.PortOf(y.network, p)} :: N.PortOf(y.network, p).handled == N.PortOf(s.network, p).handled
    decreases |steps|
  {
    if steps != [] {
      var r := Next(net, s, steps[0]).value;
      SendingLosesNothing(net, s, steps[0]);
      LostDrainIsFinal(net, r, steps[1..]);
      var y := Run(net, s, steps).value;
      forall p ensures N.PortOf(y.network, p).handled == N.PortOf(s.network, p).handled {
        assert N.PortOf(r.network, p).handled == N.PortOf(s.network, p).handled;
      }
    }
  }

  lemma SendingLosesNothing(net: N.Network, s: State, step: Step)
    requires N.Downhill(net) && N.Tree(net) && s.network.requested && s.drain.None? && Next(net, s, step).Some?
    ensures var r := Next(net, s, step).value;
      && r.network.requested && r.drain.None?
      && forall p {:trigger N.PortOf(r.network, p)} :: N.PortOf(r.network, p).handled == N.PortOf(s.network, p).handled
  {
    var r := Next(net, s, step).value;
    if step.Take? && s.director.queue[0] in s.outputs {
      var output := s.outputs[s.director.queue[0]];
      Passes.SendPasses(net, s.network, output.port, 0, output.event);
      forall p ensures N.PortOf(r.network, p).handled == N.PortOf(s.network, p).handled {
        assert Passes.PortPassed(N.PortOf(s.network, p), N.PortOf(r.network, p));
      }
    }
  }
}
