/**
 The Director and the network together. Outputs and the host's reaction are callbacks of the
 Director: sending one may request the reaction, and the reaction drains the tree. Whatever
 else is called, when a round ends nothing is left to do at its logical time.
 */
module Engine {
  import opened Wrappers
  import opened CallbackQueue
  import D = DirectorState
  import N = Network
  import Passes
  import opened EventLaws
  import opened WakeupLaws
  import R = Reaction

  /** An event that is to be sent from a port when its callback runs. */
  datatype Sending = Sending(port: nat, event: N.Event)

  datatype State = State(
    director: D.State,
    network: N.State,
    outputs: map<int, Sending>,  // the callbacks that send an output
    drain: Option<int>,          // the callback that runs the host's reaction, while it is queued
    sent: nat)                   // the handlings that all events sent so far stand for

  datatype Step =
    | Call(action: Action, output: Option<Sending>)  // any call on the Director; outputs are scheduled without delay
    | Begin
    | Take(drained: N.State)                         // the front callback runs; a drain leaves this state
    | Finish
    | End(canceled: bool)
    | Restart(clock: int)                            // between rounds, with no reaction pending

  /** SendOutput schedules the sending of an event without delay. */
  predicate IsOutputCall(action: Action, output: Sending)
  {
    action.Schedule? && action.delay == 0 && !action.periodic && output.event != N.Null
  }

  /** What the host's reaction promises if it does not throw, and that it throws nothing while events have handlers. */
  ghost predicate HostReacts(net: N.Network, s: N.State, r: N.State)
    requires N.Downhill(net)
  {
    R.Drained(net, s, r) && (R.Served(net, s) ==> R.Served(net, r))
  }

  /** The front callback `id` was taken, and the Director is in state `d`. */
  ghost function Taken(net: N.Network, s: State, d: D.State, id: int, drained: N.State): Option<State>
    requires N.Downhill(net) && N.Tree(net)
  {
    if s.drain == Some(id) then
      if HostReacts(net, s.network, drained) then Some(s.(director := d, network := drained, drain := None)) else None
    else if id in s.outputs then AfterSending(net, s, d, s.outputs[id])
    else Some(s.(director := d))
  }

  /** An output is sent. If it is the first to wake someone, the host schedules its reaction. */
  ghost function AfterSending(net: N.Network, s: State, d: D.State, output: Sending): Option<State>
    requires N.Downhill(net) && N.Tree(net)
  {
    var n := N.SendData(net, s.network, output.port, output.event);
    var r := s.(director := d, network := n, sent := s.sent + SendCost(net, output.port, 0));
    if s.network.requested || !n.requested || n.callbacks == [] then Some(r)
    else match D.Perform(d, Schedule([], 0, false, n.callbacks[0]))
      case None => None
      case Some(e) => Some(r.(director := e, drain := Some(d.nextId)))
  }

  /** No next state when the Director has none, or when someone clears the host's own callback. */
  ghost function Next(net: N.Network, s: State, step: Step): Option<State>
    requires N.Downhill(net) && N.Tree(net)
  {
    match step
    case Call(action, output) =>
      if s.drain.Some? && action == Clear(s.drain.value) then None
      else if !D.WellTimed(action) || (output.Some? && !IsOutputCall(action, output.value)) then None
      else (match D.Next(s.director, D.Act(action))
        case None => None
        case Some(d) =>
          var outputs := if output.Some? then s.outputs[s.director.nextId := output.value] else s.outputs;
          Some(s.(director := d, outputs := outputs)))
    case Begin => OnDirector(s, D.Begin)
    case Take(drained) =>
      (match D.Next(s.director, D.Pop)
        case None => None
        case Some(d) => Taken(net, s, d, s.director.queue[0], drained))
    case Finish => OnDirector(s, D.Finish)
    case End(canceled) => OnDirector(s, D.End(canceled))
    case Restart(clock) =>
      if s.director.inRound || s.drain.Some? || clock > D.DEFAULT_NEXT_EXECUTION_TIME then None
      else Some(s.(director := D.Reset(s.director, clock), outputs := map[]))
  }

  ghost function OnDirector(s: State, step: D.Step): Option<State>
  {
    match D.Next(s.director, step)
    case None => None
    case Some(d) => Some(s.(director := d))
  }

  // ----- what every step keeps -----

  /** The host has a queued reaction, due now, exactly while it has requested one. */
  ghost predicate DrainPending(s: State)
  {
    && (s.network.requested <==> s.drain.Some?)
    && (s.drain.Some? ==>
          && s.drain.value in s.director.queue && s.drain.value in s.director.table
          && s.director.table[s.drain.value].time == s.director.now)
  }

  ghost predicate Invariant(net: N.Network, s: State)
    requires N.Downhill(net)
  {
    && D.Valid(s.director) && D.Clocked(s.director)
    && R.Sound(net, s.network, {}, {})
    && DrainPending(s)
    && (forall id :: id in s.outputs ==> s.outputs[id].event != N.Null)
    && Load(net, s.network) + Done(net, s.network) == s.sent
  }

  /** The Director's own steps keep the pending reaction where it is. */
  lemma DirectorKeepsDrain(s: State, step: D.Step, d: D.State)
    requires D.Valid(s.director) && D.Clocked(s.director) && DrainPending(s)
    requires D.Next(s.director, step) == Some(d) && (step.Act? ==> D.WellTimed(step.action))
    requires s.drain.Some? ==> step != D.Act(Clear(s.drain.value)) && !(step.Pop? && s.director.queue[0] == s.drain.value)
    ensures D.Valid(d) && D.Clocked(d) && DrainPending(s.(director := d))
  {
    D.NextKeepsValid(s.director, step);
    D.NextKeepsClock(s.director, step);
    if s.drain.Some? {
      D.StaysQueued(s.director, step, s.drain.value);
    }
  }

  lemma SendKeepsInvariant(net: N.Network, s: State, d: D.State, output: Sending)
    requires N.Downhill(net) && N.Tree(net) && Invariant(net, s) && output.event != N.Null
    requires D.Valid(d) && D.Clocked(d) && DrainPending(s.(director := d)) && AfterSending(net, s, d, output).Some?
    ensures Invariant(net, AfterSending(net, s, d, output).value)
  {
    var n := N.SendData(net, s.network, output.port, output.event);
    R.SendingIsSound(net, s.network, output.port, output.event);
    SendingKeepsRequest(net, s.network, n, output);
    var r := AfterSending(net, s, d, output).value;
    if !s.network.requested && n.requested {
      var request := Schedule([], 0, false, n.callbacks[0]);
      D.NextKeepsValid(d, D.Act(request));
      D.NextKeepsClock(d, D.Act(request));
      assert d.nextId in r.director.table;
    }
  }

  /** A request that was made stays, and a new one has its callback. */
  lemma SendingKeepsRequest(net: N.Network, s: N.State, n: N.State, output: Sending)
    requires N.Downhill(net) && N.Tree(net) && R.Sound(net, s, {}, {}) && R.Sound(net, n, {}, {})
    requires n == N.SendData(net, s, output.port, output.event)
    ensures s.requested ==> n.requested
    ensures n.requested ==> n.callbacks != []
  {
    Passes.SendPasses(net, s, output.port, 0, output.event);
    assert R.Inspected(0);
    assert HostAwake(net, n, {});
  }

  lemma NextKeepsInvariant(net: N.Network, s: State, step: Step)
    requires N.Downhill(net) && N.Tree(net)
    ensures Invariant(net, s) && Next(net, s, step).Some? ==> Invariant(net, Next(net, s, step).value)
  {
    if Invariant(net, s) && Next(net, s, step).Some? {
      StepKeepsInvariant(net, s, step);
    }
  }

  lemma StepKeepsInvariant(net: N.Network, s: State, step: Step)
    requires N.Downhill(net) && N.Tree(net) && Invariant(net, s) && Next(net, s, step).Some?
    ensures Invariant(net, Next(net, s, step).value)
  {
    match step
    case Call(action, _) =>
      DirectorKeepsDrain(s, D.Act(action), D.Next(s.director, D.Act(action)).value);
    case Begin =>
      DirectorKeepsDrain(s, D.Begin, D.Next(s.director, D.Begin).value);
    case Finish =>
      DirectorKeepsDrain(s, D.Finish, D.Next(s.director, D.Finish).value);
    case End(canceled) =>
      DirectorKeepsDrain(s, D.End(canceled), D.Next(s.director, D.End(canceled)).value);
    case Restart(_) =>
    case Take(drained) =>
      var d, id := D.Next(s.director, D.Pop).value, s.director.queue[0];
      if s.drain == Some(id) {
        D.NextKeepsValid(s.director, D.Pop);
        D.NextKeepsClock(s.director, D.Pop);
      } else {
        DirectorKeepsDrain(s, D.Pop, d);
        if id in s.outputs {
          SendKeepsInvariant(net, s, d, s.outputs[id]);
        }
      }
  }

  function Start(clock: int): State
  {
    State(
      D.State(map[], [], 0, clock, D.DEFAULT_NEXT_EXECUTION_TIME, false, None),
      N.State(map[], map[], false, [], false), map[], None, 0)
  }

  lemma StartIsSound(net: N.Network, clock: int)
    requires N.WellFormed(net) && clock <= D.DEFAULT_NEXT_EXECUTION_TIME
    ensures Invariant(net, Start(clock))
  {
    R.InitiallySound(net, Start(clock).network);
  }

  ghost function Run(net: N.Network, s: State, steps: seq<Step>): Option<State>
    requires N.Downhill(net) && N.Tree(net)
    decreases |steps|
  {
    if steps == [] then Some(s)
    else match Next(net, s, steps[0])
      case None => None
      case Some(r) => Run(net, r, steps[1..])
  }

  lemma {:induction false} RunKeepsInvariant(net: N.Network, s: State, steps: seq<Step>)
    requires N.Downhill(net) && N.Tree(net) && Invariant(net, s) && Run(net, s, steps).Some?
    ensures Invariant(net, Run(net, s, steps).value)
    decreases |steps|
  {
    if steps != [] {
      NextKeepsInvariant(net, s, steps[0]);
      RunKeepsInvariant(net, Next(net, s, steps[0]).value, steps[1..]);
    }
  }

  // ----- the end of a round -----

  /** No callback is still to run at the logical time of the round or before. */
  ghost predicate NothingDue(s: State)
  {
    forall id :: id in s.director.queue && id in s.director.table ==> s.director.table[id].time > s.director.now
  }

  lemma EndedRoundIsQuiet(net: N.Network, s: State, canceled: bool)
    requires N.Downhill(net) && N.Tree(net) && Invariant(net, s) && Next(net, s, End(canceled)).Some?
    ensures R.Quiet(net, s.network) && NothingDue(s) && Done(net, s.network) == s.sent
  {
    D.NextQueuedTimeIsLeast(s.director);
    assert R.Inspected(0);
    assert HostAwake(net, s.network, {});
    R.QuietAfterDrain(net, s.network);
  }

  /**
   In every run from the start, resets included, whenever a round ends, all that was sent at
   its logical time has been handled: no event is queued, no accessor waits to react, no callback is due, and
   handlers have run exactly as often as the events sent stand for.
   */
  lemma EveryRoundEndsQuiet(net: N.Network, clock: int, steps: seq<Step>, canceled: bool)
    requires N.WellFormed(net) && clock <= D.DEFAULT_NEXT_EXECUTION_TIME
    ensures match Run(net, Start(clock), steps)
      case None => true
      case Some(s) => Next(net, s, End(canceled)).Some? ==>
        R.Quiet(net, s.network) && NothingDue(s) && Done(net, s.network) == s.sent
  {
    var end := Run(net, Start(clock), steps);
    if end.Some? && Next(net, end.value, End(canceled)).Some? {
      StartIsSound(net, clock);
      RunKeepsInvariant(net, Start(clock), steps);
      EndedRoundIsQuiet(net, end.value, canceled);
    }
  }
}
