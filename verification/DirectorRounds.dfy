/**
 Rounds: everything due at one logical instant, run to the end. Rounds terminate, run in
 priority order, and follow one another in a way that the physical clock cannot change.
 */
module DirectorRounds {
  import opened Wrappers
  import opened CallbackQueue
  import opened Sequences
  import opened DirectorState
  import opened DirectorRuns

  // ----- the measure that a round uses up -----

  /** How many callbacks a body can add to the current round, directly or not. */
  function Weight(body: seq<Action>): nat
  {
    if body == [] then 0
    else (if body[0].Schedule? then 1 + Weight(body[0].body) else 0) + Weight(body[1..])
  }

  /** The callbacks of `q` due by `horizon`, each with all that it can add. */
  function Pending(t: Table, q: seq<int>, horizon: int): nat
  {
    if q == [] then 0 else Share(t, q[0], horizon) + Pending(t, q[1..], horizon)
  }

  function Share(t: Table, id: int, horizon: int): nat
  {
    if id in t && t[id].time <= horizon then 1 + Weight(t[id].body) else 0
  }

  lemma {:induction false} PendingInsert(t: Table, q: seq<int>, id: int, horizon: int)
    ensures Pending(t, Insert(t, q, id), horizon) == Pending(t, q, horizon) + Share(t, id, horizon)
  {
    if q != [] && Before(t, q[0], id) {
      PendingInsert(t, q[1..], id, horizon);
    }
  }

  lemma {:induction false} PendingRemove(t: Table, q: seq<int>, id: int, horizon: int)
    ensures Pending(t, Remove(q, id), horizon) <= Pending(t, q, horizon)
  {
    if q != [] && q[0] != id {
      PendingRemove(t, q[1..], id, horizon);
    }
  }

  lemma {:induction false} PendingResort(t: Table, q: seq<int>, horizon: int)
    ensures Pending(t, Resort(t, q), horizon) == Pending(t, q, horizon)
  {
    if q != [] {
      PendingResort(t, q[1..], horizon);
      PendingInsert(t, Resort(t, q[1..]), q[0], horizon);
    }
  }

  lemma {:induction false} PendingUnder(t: Table, u: Table, q: seq<int>, horizon: int)
    requires forall id :: id in q ==> id in t && id in u && t[id].time == u[id].time && t[id].body == u[id].body
    ensures Pending(t, q, horizon) == Pending(u, q, horizon)
  {
    if q != [] {
      var front := q[0];
      assert front in q;
      PendingUnder(t, u, q[1..], horizon);
    }
  }

  function Left(s: State): nat
  {
    Pending(s.table, s.queue, s.next)
  }

  // ----- running one body -----

  /** In a round, with everything in order. */
  ghost predicate Ready(s: State)
  {
    Valid(s) && Clocked(s) && s.inRound
  }

  function ToSteps(body: seq<Action>): seq<Step>
  {
    if body == [] then [] else [Act(body[0])] + ToSteps(body[1..])
  }

  /** The steps that execute the front callback. */
  function Firing(s: State): seq<Step>
    requires s.queue != [] && s.queue[0] in s.table
  {
    [Pop] + ToSteps(s.table[s.queue[0]].body) + [Finish]
  }

  lemma PerformSpends(s: State, a: Action)
    requires Ready(s) && WellTimed(a) && Perform(s, a).Some?
    ensures var r := Perform(s, a).value;
      && Ready(r) && r.now == s.now && r.running == s.running
      && Left(r) <= Left(s) + Weight([a])
  {
    NextKeepsValid(s, Act(a));
    NextKeepsClock(s, Act(a));
    var r := Perform(s, a).value;
    assert Weight([a]) == (if a.Schedule? then 1 + Weight(a.body) else 0);
    match a
    case Schedule(body, delay, periodic, priority) =>
      PendingInsert(r.table, s.queue, s.nextId, s.next);
      PendingUnder(s.table, r.table, s.queue, s.next);
    case Clear(id) =>
      PendingRemove(s.table, s.queue, id, s.next);
      PendingUnder(s.table, r.table, r.queue, s.next);
    case Reprioritise(_, _) =>
      PendingUnder(s.table, r.table, s.queue, s.next);
      PendingResort(r.table, s.queue, s.next);
  }

  lemma {:induction false} BodySpends(s: State, body: seq<Action>)
    requires Ready(s) && WellTimedBody(body) && Run(s, ToSteps(body)).Some?
    ensures var r := Run(s, ToSteps(body)).value;
      && Ready(r) && r.now == s.now && r.running == s.running
      && Left(r) <= Left(s) + Weight(body)
    decreases |body|
  {
    if body != [] {
      PerformSpends(s, body[0]);
      assert ToSteps(body)[1..] == ToSteps(body[1..]);
      BodySpends(Perform(s, body[0]).value, body[1..]);
    }
  }

  /** Run the front callback: take it, run its body, put it back or drop it. */
  function Fire(s: State): Option<State>
    requires Ready(s) && s.running.None? && Due(s)
  {
    FrontIsInTable(s);
    Run(s, Firing(s))
  }

  lemma FrontIsInTable(s: State)
    requires Valid(s) && s.queue != []
    ensures s.queue[0] in s.table && s.queue[0] in s.queue
  {
  }

  /** The three parts of firing the front callback. */
  lemma FireParts(s: State)
    requires Ready(s) && s.running.None? && Due(s) && Fire(s).Some?
    ensures s.queue[0] in s.table
    ensures var id := s.queue[0];
      && Next(s, Pop) == Some(Popped(s))
      && Run(Popped(s), ToSteps(s.table[id].body)).Some?
      && var m := Run(Popped(s), ToSteps(s.table[id].body)).value;
        Next(m, Finish) == Fire(s)
  {
    FrontIsInTable(s);
    var body := ToSteps(s.table[s.queue[0]].body);
    assert Firing(s) == [Pop] + (body + [Finish]);
    assert Firing(s)[1..] == body + [Finish];
    var p := Popped(s);
    assert Next(s, Pop) == Some(p);
    assert Run(p, body + [Finish]).Some?;
    RunPrefix(p, body, [Finish]);
    RunConcat(p, body, [Finish]);
  }

  lemma {:induction false} RunPrefix(s: State, xs: seq<Step>, ys: seq<Step>)
    requires Run(s, xs + ys).Some?
    ensures Run(s, xs).Some?
    decreases |xs|
  {
    if xs != [] {
      assert (xs + ys)[1..] == xs[1..] + ys;
      RunPrefix(Next(s, xs[0]).value, xs[1..], ys);
    }
  }

  /** Firing a callback spends more than its body can add. */
  lemma FireSpends(s: State)
    requires Ready(s) && s.running.None? && Due(s) && Fire(s).Some?
    ensures var r := Fire(s).value;
      && Ready(r) && r.running.None? && r.now == s.now && Left(r) < Left(s)
  {
    FireParts(s);
    var id := s.queue[0];
    var body := s.table[id].body;
    NextKeepsValid(s, Pop);
    NextKeepsClock(s, Pop);
    NextQueuedTimeIsLeast(s);
    assert Left(s) == 1 + Weight(body) + Left(Popped(s));
    BodySpends(Popped(s), body);
    FinishSpends(Run(Popped(s), ToSteps(body)).value);
  }

  lemma FinishSpends(m: State)
    requires Ready(m) && m.running.Some? && Next(m, Finish).Some?
    ensures var r := Next(m, Finish).value;
      && Ready(r) && r.running.None? && r.now == m.now && Left(r) == Left(m)
  {
    NextKeepsValid(m, Finish);
    NextKeepsClock(m, Finish);
    var id := m.running.value;
    var r := Next(m, Finish).value;
    assert id !in m.queue;
    PendingUnder(m.table, r.table, m.queue, m.next);
    if id in m.table && m.table[id].periodic {
      PendingInsert(r.table, m.queue, id, m.next);
    }
  }

  // ----- a whole round -----

  /**
   The steps of a round that has begun: fire the front callback while it is due. The run
   stops early only where a step has no next state (a reset, or a clock overflow).
   */
  function RoundSteps(s: State): seq<Step>
    requires Ready(s) && s.running.None?
    decreases Left(s)
  {
    if !Due(s) then []
    else
      FrontIsInTable(s);
      if Fire(s).None? then Firing(s)
      else
        FireSpends(s);
        Firing(s) + RoundSteps(Fire(s).value)
  }

  /** A round that is not cut short leaves nothing due: every queued time is later than now. */
  lemma {:induction false} RoundLeavesNothingDue(s: State)
    requires Ready(s) && s.running.None? && Run(s, RoundSteps(s)).Some?
    ensures var r := Run(s, RoundSteps(s)).value;
      && Ready(r) && r.running.None? && r.now == s.now && !Due(r)
      && (forall id :: id in r.table ==> r.table[id].time > r.now)
    decreases Left(s)
  {
    if Due(s) && Fire(s).Some? {
      FireSpends(s);
      RunConcat(s, Firing(s), RoundSteps(Fire(s).value));
      RoundLeavesNothingDue(Fire(s).value);
    } else {
      NextQueuedTimeIsLeast(s);
      forall id | id in s.table ensures Due(s) || s.table[id].time > s.now {
        assert id in s.queue;
      }
    }
  }

  // ----- a round calls what its callbacks say -----

  /** The calls on the Director among the steps. */
  function Calls(steps: seq<Step>): seq<Action>
  {
    if steps == [] then [] else (if steps[0].Act? then [steps[0].action] else []) + Calls(steps[1..])
  }

  /** The bodies of the callbacks that the steps take, one after another. */
  function Bodies(s: State, steps: seq<Step>): seq<Action>
    decreases |steps|
  {
    if steps == [] || Next(s, steps[0]).None? then []
    else (if steps[0].Pop? && s.queue[0] in s.table then s.table[s.queue[0]].body else [])
         + Bodies(Next(s, steps[0]).value, steps[1..])
  }

  lemma {:induction false} CallsConcat(xs: seq<Step>, ys: seq<Step>)
    ensures Calls(xs + ys) == Calls(xs) + Calls(ys)
  {
    if xs == [] {
      assert xs + ys == ys;
    } else {
      var all := xs + ys;
      assert all[0] == xs[0] && all[1..] == xs[1..] + ys;
      CallsConcat(xs[1..], ys);
    }
  }

  lemma {:induction false} BodiesConcat(s: State, xs: seq<Step>, ys: seq<Step>)
    requires Run(s, xs).Some?
    ensures Bodies(s, xs + ys) == Bodies(s, xs) + Bodies(Run(s, xs).value, ys)
    decreases |xs|
  {
    if xs == [] {
      assert xs + ys == ys;
    } else {
      var all := xs + ys;
      assert all[0] == xs[0] && all[1..] == xs[1..] + ys;
      BodiesConcat(Next(s, xs[0]).value, xs[1..], ys);
    }
  }

  lemma {:induction false} BodyCalls(s: State, body: seq<Action>)
    ensures Calls(ToSteps(body)) == body && Bodies(s, ToSteps(body)) == []
    decreases |body|
  {
    if body != [] {
      assert ToSteps(body)[1..] == ToSteps(body[1..]);
      BodyCalls(if Perform(s, body[0]).Some? then Perform(s, body[0]).value else s, body[1..]);
    }
  }

  /** Firing the front callback makes exactly the calls of its body, in order. */
  lemma FiringCalls(s: State)
    requires Ready(s) && s.running.None? && Due(s) && Fire(s).Some?
    ensures s.queue[0] in s.table
    ensures Calls(Firing(s)) == s.table[s.queue[0]].body && Bodies(s, Firing(s)) == s.table[s.queue[0]].body
  {
    FireParts(s);
    var body := s.table[s.queue[0]].body;
    var steps := ToSteps(body);
    CallsConcat([Pop], steps);
    CallsConcat([Pop] + steps, [Finish]);
    BodyCalls(Popped(s), body);
    assert Firing(s)[1..] == steps + [Finish];
    BodiesConcat(Popped(s), steps, [Finish]);
    assert [Pop][1..] == [] && [Finish][1..] == [];
  }

  /** A whole round makes exactly the calls of the callbacks that it runs, in the order in which they run. */
  lemma {:induction false} RoundCallsBodies(s: State)
    requires Ready(s) && s.running.None? && Run(s, RoundSteps(s)).Some?
    ensures Calls(RoundSteps(s)) == Bodies(s, RoundSteps(s))
    decreases Left(s)
  {
    if Due(s) && Fire(s).Some? {
      FireSpends(s);
      FiringCalls(s);
      var r := Fire(s).value;
      RunConcat(s, Firing(s), RoundSteps(r));
      RoundCallsBodies(r);
      CallsConcat(Firing(s), RoundSteps(r));
      BodiesConcat(s, Firing(s), RoundSteps(r));
    }
  }

  // ----- what is due runs in its round -----

  /** Callback `id` runs somewhere in `trace`, at logical time `now`. */
  ghost predicate RunsAt(trace: seq<Execution>, id: int, now: int)
  {
    exists k :: 0 <= k < |trace| && trace[k].id == id && trace[k].time == now
  }

  lemma RunsAtPrepended(first: seq<Execution>, rest: seq<Execution>, id: int, now: int)
    requires RunsAt(rest, id, now)
    ensures RunsAt(first + rest, id, now)
  {
    var k :| 0 <= k < |rest| && rest[k].id == id && rest[k].time == now;
    assert (first + rest)[|first| + k] == rest[k];
  }

  /** A queued callback that is not cleared leaves the table only by running; until then its due time stays. */
  lemma {:induction false} LeavesByRunning(s: State, steps: seq<Step>, id: int)
    requires Valid(s) && id in s.queue && id in s.table && Run(s, steps).Some?
    requires forall k :: 0 <= k < |steps| ==> steps[k] != Act(Clear(id)) && steps[k] != Begin
    ensures var r := Run(s, steps).value;
      RunsAt(Trace(s, steps), id, s.now) || (id in r.table && r.table[id].time == s.table[id].time)
    decreases |steps|
  {
    if steps != [] {
      var step, r := steps[0], Next(s, steps[0]).value;
      if step.Pop? && s.queue[0] == id {
        assert Trace(s, steps)[0] == Execution(s.now, s.table[id].priority, id);
      } else {
        StaysQueued(s, step, id);
        LeavesByRunning(r, steps[1..], id);
        if RunsAt(Trace(r, steps[1..]), id, r.now) {
          RunsAtPrepended(Executed(s, step), Trace(r, steps[1..]), id, s.now);
        }
      }
    }
  }

  lemma {:induction false} RoundsDoNotBegin(s: State)
    requires Ready(s) && s.running.None?
    ensures Begin !in RoundSteps(s)
    decreases Left(s)
  {
    if Due(s) {
      FrontIsInTable(s);
      BodiesOnlyAct(s.table[s.queue[0]].body);
      if Fire(s).Some? {
        FireSpends(s);
        RoundsDoNotBegin(Fire(s).value);
      }
    }
  }

  lemma {:induction false} BodiesOnlyAct(body: seq<Action>)
    ensures Begin !in ToSteps(body)
  {
    if body != [] {
      BodiesOnlyAct(body[1..]);
    }
  }

  lemma {:induction false} RunKeepsNow(s: State, steps: seq<Step>)
    requires Valid(s) && Run(s, steps).Some? && Begin !in steps
    ensures Valid(Run(s, steps).value) && Run(s, steps).value.now == s.now
    decreases |steps|
  {
    if steps != [] {
      NextKeepsValid(s, steps[0]);
      assert steps[0] in steps;
      RunKeepsNow(Next(s, steps[0]).value, steps[1..]);
    }
  }

  /**
   Whatever becomes queued in a round with a due time that has come runs in that same round,
   at the same logical time, unless it is cleared. `xs` is the round up to that point.
   */
  lemma DueRunsInItsRound(s: State, xs: seq<Step>, ys: seq<Step>, id: int)
    requires Ready(s) && s.running.None? && RoundSteps(s) == xs + ys && Run(s, RoundSteps(s)).Some?
    requires Run(s, xs).Some? && id in Run(s, xs).value.queue
    requires id in Run(s, xs).value.table && Run(s, xs).value.table[id].time <= s.now
    requires Act(Clear(id)) !in ys
    ensures RunsAt(Trace(Run(s, xs).value, ys), id, s.now)
  {
    var m := Run(s, xs).value;
    RunConcat(s, xs, ys);
    RoundsDoNotBegin(s);
    forall step | step in xs || step in ys ensures step != Begin {
      assert step in RoundSteps(s);
    }
    RunKeepsNow(s, xs);
    forall k | 0 <= k < |ys| ensures ys[k] != Act(Clear(id)) && ys[k] != Begin {
      assert ys[k] in ys;
    }
    LeavesByRunning(m, ys, id);
    RoundLeavesNothingDue(s);
  }

  /**
   What a body schedules without delay runs at the same logical time, in the same round,
   unless it is cleared. Outputs and requests for a reaction are scheduled like this.
   */
  lemma SpawnedNowRunsNow(s: State, xs: seq<Step>, spawn: Action, ys: seq<Step>)
    requires Ready(s) && s.running.None? && Run(s, RoundSteps(s)).Some?
    requires RoundSteps(s) == xs + [Act(spawn)] + ys && spawn.Schedule? && spawn.delay == 0
    ensures Run(s, xs).Some? && Run(s, xs + [Act(spawn)]).Some?
    ensures var id := Run(s, xs).value.nextId;
      Act(Clear(id)) !in ys ==> RunsAt(Trace(Run(s, xs + [Act(spawn)]).value, ys), id, s.now)
  {
    var before := xs + [Act(spawn)];
    RunPrefix(s, before, ys);
    RunPrefix(s, xs, [Act(spawn)]);
    RunConcat(s, xs, [Act(spawn)]);
    RoundsDoNotBegin(s);
    var m, id := Run(s, xs).value, Run(s, xs).value.nextId;
    forall step | step in xs ensures step != Begin {
      assert step in RoundSteps(s);
    }
    RunKeepsNow(s, xs);
    assert Run(m, [Act(spawn)]) == Perform(m, spawn);
    var r := Perform(m, spawn).value;
    NextKeepsValid(m, Act(spawn));
    assert id in r.table && r.running != Some(id);
    if Act(Clear(id)) !in ys {
      DueRunsInItsRound(s, before, ys, id);
    }
  }

  // ----- the order within a round -----

  /** A body that schedules only at its own priority value or above, and clears or schedules only. */
  predicate Downstream(body: seq<Action>, priority: int)
  {
    forall i :: 0 <= i < |body| ==>
      match body[i]
      case Schedule(b, _, _, p) => priority <= p && Downstream(b, p)
      case Clear(_) => true
      case Reprioritise(_, _) => false
  }

  /** Callback `id` is due after `now`, or comes after (priority, last) in this round. */
  predicate After(c: Callback, id: int, now: int, priority: int, last: int)
  {
    c.time > now || c.priority > priority || (c.priority == priority && id > last)
  }

  ghost predicate AllDownstream(t: Table)
  {
    forall id :: id in t ==> Downstream(t[id].body, t[id].priority)
  }

  ghost predicate AllAfter(s: State, priority: int, last: int)
  {
    && AllDownstream(s.table)
    && forall id :: id in s.table && s.running != Some(id) ==> After(s.table[id], id, s.now, priority, last)
  }

  lemma {:induction false} BodyStaysAfter(s: State, body: seq<Action>, priority: int, last: int)
    requires Ready(s) && WellTimedBody(body) && Downstream(body, priority) && Run(s, ToSteps(body)).Some?
    requires AllAfter(s, priority, last) && last < s.nextId
    ensures var r := Run(s, ToSteps(body)).value;
      AllAfter(r, priority, last) && r.running == s.running && r.now == s.now
    decreases |body|
  {
    if body != [] {
      PerformSpends(s, body[0]);
      var r := Perform(s, body[0]).value;
      assert Downstream(body[1..], priority);
      assert ToSteps(body)[1..] == ToSteps(body[1..]);
      BodyStaysAfter(r, body[1..], priority, last);
    }
  }

  lemma FireStaysAfter(s: State)
    requires Ready(s) && s.running.None? && Due(s) && Fire(s).Some? && AllDownstream(s.table)
    ensures s.queue[0] in s.table
    ensures AllAfter(Fire(s).value, s.table[s.queue[0]].priority, s.queue[0])
  {
    FireParts(s);
    PopTakesLeastDueNow(s);
    NextKeepsValid(s, Pop);
    NextKeepsClock(s, Pop);
    var id := s.queue[0];
    var c := s.table[id];
    BodySpends(Popped(s), c.body);
    BodyStaysAfter(Popped(s), c.body, c.priority, id);
    var m := Run(Popped(s), ToSteps(c.body)).value;
    assert m.running == Some(id);
  }

  lemma {:induction false} ActsExecuteNothing(s: State, body: seq<Action>)
    ensures Trace(s, ToSteps(body)) == []
    decreases |body|
  {
    if body != [] && Perform(s, body[0]).Some? {
      assert ToSteps(body)[1..] == ToSteps(body[1..]);
      ActsExecuteNothing(Perform(s, body[0]).value, body[1..]);
    }
  }

  lemma FireTrace(s: State)
    requires Ready(s) && s.running.None? && Due(s) && Fire(s).Some?
    ensures s.queue[0] in s.table
    ensures Trace(s, Firing(s)) == [Execution(s.now, s.table[s.queue[0]].priority, s.queue[0])]
  {
    FireParts(s);
    var body := s.table[s.queue[0]].body;
    assert Firing(s)[1..] == ToSteps(body) + [Finish];
    RunConcat(Popped(s), ToSteps(body), [Finish]);
    ActsExecuteNothing(Popped(s), body);
    var m := Run(Popped(s), ToSteps(body)).value;
    assert Trace(m, [Finish]) == [];
  }

  predicate Increasing(trace: seq<Execution>)
  {
    forall j, k :: 0 <= j < k < |trace| ==>
      || trace[j].priority < trace[k].priority
      || (trace[j].priority == trace[k].priority && trace[j].id < trace[k].id)
  }

  /** `e` comes after (priority, last). */
  predicate Later(e: Execution, priority: int, last: int)
  {
    e.priority > priority || (e.priority == priority && e.id > last)
  }

  predicate AllLater(trace: seq<Execution>, priority: int, last: int)
  {
    forall k :: 0 <= k < |trace| ==> Later(trace[k], priority, last)
  }

  lemma IncreasingPrepended(e: Execution, rest: seq<Execution>)
    requires Increasing(rest) && AllLater(rest, e.priority, e.id)
    ensures Increasing([e] + rest)
  {
  }

  lemma LaterPrepended(e: Execution, rest: seq<Execution>, priority: int, last: int)
    requires AllLater(rest, e.priority, e.id) && Later(e, priority, last)
    ensures AllLater([e] + rest, priority, last)
  {
    var trace := [e] + rest;
    forall k | 0 <= k < |trace| ensures Later(trace[k], priority, last) {
      assert k > 0 ==> Later(rest[k - 1], e.priority, e.id);
    }
  }

  /** A round that is not over: its first callback, and the rest of it. */
  lemma RoundTrace(s: State)
    requires Ready(s) && s.running.None? && Due(s) && Run(s, RoundSteps(s)).Some?
    ensures Fire(s).Some? && s.queue[0] in s.table
    ensures var r := Fire(s).value;
      && Ready(r) && r.running.None? && Left(r) < Left(s) && r.now == s.now
      && Run(r, RoundSteps(r)).Some?
      && Trace(s, RoundSteps(s)) == [Execution(s.now, s.table[s.queue[0]].priority, s.queue[0])] + Trace(r, RoundSteps(r))
  {
    FrontIsInTable(s);
    if Fire(s).Some? {
      FireSpends(s);
      FireTrace(s);
      RunConcat(s, Firing(s), RoundSteps(Fire(s).value));
    }
  }

  lemma {:induction false} RoundFollows(s: State, priority: int, last: int)
    requires Ready(s) && s.running.None? && AllAfter(s, priority, last) && Run(s, RoundSteps(s)).Some?
    ensures AllLater(Trace(s, RoundSteps(s)), priority, last) && Increasing(Trace(s, RoundSteps(s)))
    decreases Left(s)
  {
    if Due(s) {
      RoundTrace(s);
      FireStaysAfter(s);
      PopTakesLeastDueNow(s);
      var r, id := Fire(s).value, s.queue[0];
      var e, rest := Execution(s.now, s.table[id].priority, id), Trace(r, RoundSteps(r));
      RoundFollows(r, e.priority, id);
      assert After(s.table[id], id, s.now, priority, last);
      LaterPrepended(e, rest, priority, last);
      IncreasingPrepended(e, rest);
    }
  }

  /**
   If bodies schedule only at their own priority value or above, a round runs its callbacks
   in strictly increasing order of (priority, id): nothing runs before what it can wait for.
   */
  lemma RoundRunsInPriorityOrder(s: State)
    requires Ready(s) && s.running.None? && AllDownstream(s.table) && Run(s, RoundSteps(s)).Some?
    ensures Increasing(Trace(s, RoundSteps(s)))
  {
    if Due(s) {
      RoundTrace(s);
      FireStaysAfter(s);
      var r, id := Fire(s).value, s.queue[0];
      RoundFollows(r, s.table[id].priority, id);
      IncreasingPrepended(Execution(s.now, s.table[id].priority, id), Trace(r, RoundSteps(r)));
    }
  }

  // ----- round after round -----

  ghost predicate Idle(s: State)
  {
    Valid(s) && Clocked(s) && !s.inRound
  }

  lemma BeginIsReady(s: State)
    requires Idle(s) && !NeedsReset(s)
    ensures Next(s, Begin).Some? && Ready(Next(s, Begin).value) && Next(s, Begin).value.running.None?
  {
    NextKeepsValid(s, Begin);
    NextKeepsClock(s, Begin);
  }

  /** One pass of the loop in ExecuteInternal: a round and the choice of the next due time. */
  function Pass(s: State): seq<Step>
    requires Idle(s) && !NeedsReset(s)
  {
    BeginIsReady(s);
    [Begin] + RoundSteps(Next(s, Begin).value) + [End(false)]
  }

  lemma PassIsIdle(s: State)
    requires Idle(s) && !NeedsReset(s) && Run(s, Pass(s)).Some?
    ensures Idle(Run(s, Pass(s)).value)
  {
    BeginIsReady(s);
    var b := Next(s, Begin).value;
    assert Pass(s)[1..] == RoundSteps(b) + [End(false)];
    RunPrefix(b, RoundSteps(b), [End(false)]);
    RunConcat(b, RoundSteps(b), [End(false)]);
    RoundLeavesNothingDue(b);
    var m := Run(b, RoundSteps(b)).value;
    assert Run(m, [End(false)]) == Next(m, End(false));
    NextKeepsValid(m, End(false));
    NextKeepsClock(m, End(false));
  }

  /** The state after one pass, unless the pass is cut short. */
  function AfterPass(s: State): (r: Option<State>)
    requires Idle(s) && !NeedsReset(s)
    ensures r.Some? ==> Idle(r.value)
  {
    if Run(s, Pass(s)).Some? then
      PassIsIdle(s);
      Run(s, Pass(s))
    else None
  }

  /**
   What the Director executes when the physical clock reads `clocks`, one reading each time
   the loop asks, up to the first reset: a round runs when the clock has reached the next
   due time; otherwise the thread sleeps and asks again.
   */
  function Drive(s: State, clocks: seq<int>): seq<Execution>
    requires Idle(s)
    decreases |clocks|
  {
    if clocks == [] || NeedsReset(s) then []
    else if s.next > clocks[0] then Drive(s, clocks[1..])
    else
      Trace(s, Pass(s))
      + (if AfterPass(s).None? then [] else Drive(AfterPass(s).value, clocks[1..]))
  }

  /** The first `n` rounds, whenever they happen. */
  function Rounds(s: State, n: nat): seq<Execution>
    requires Idle(s)
    decreases n
  {
    if n == 0 || NeedsReset(s) then []
    else
      Trace(s, Pass(s))
      + (if AfterPass(s).None? then [] else Rounds(AfterPass(s).value, n - 1))
  }

  lemma {:induction false} DriveIsSomeRounds(s: State, clocks: seq<int>) returns (n: nat)
    requires Idle(s)
    ensures n <= |clocks| && Drive(s, clocks) == Rounds(s, n)
    decreases |clocks|
  {
    if clocks == [] || NeedsReset(s) {
      n := 0;
    } else if s.next > clocks[0] {
      n := DriveIsSomeRounds(s, clocks[1..]);
    } else if AfterPass(s).None? {
      n := 1;
    } else {
      n := DriveIsSomeRounds(AfterPass(s).value, clocks[1..]);
      n := n + 1;
    }
  }

  lemma PrefixAfter(front: seq<Execution>, xs: seq<Execution>, ys: seq<Execution>)
    requires xs <= ys
    ensures front + xs <= front + ys
  {
  }

  lemma {:induction false} RoundsGrow(s: State, m: nat, n: nat)
    requires Idle(s) && m <= n
    ensures Rounds(s, m) <= Rounds(s, n)
    decreases m
  {
    if m > 0 && !NeedsReset(s) && AfterPass(s).Some? {
      var r := AfterPass(s).value;
      RoundsGrow(r, m - 1, n - 1);
      PrefixAfter(Trace(s, Pass(s)), Rounds(r, m - 1), Rounds(r, n - 1));
    }
  }

  /**
   The physical clock decides how far the Director gets, never what it executes: under any
   two sequences of clock readings the executed sequences are prefixes of one another.
   */
  lemma LatenessDoesNotMatter(s: State, clocks: seq<int>, others: seq<int>)
    requires Idle(s)
    ensures Drive(s, clocks) <= Drive(s, others) || Drive(s, others) <= Drive(s, clocks)
  {
    var m := DriveIsSomeRounds(s, clocks);
    var n := DriveIsSomeRounds(s, others);
    if m <= n {
      RoundsGrow(s, m, n);
    } else {
      RoundsGrow(s, n, m);
    }
  }

  // ----- progress -----

  /** The next execution time is the least due time of the queued callbacks, or the default without any. */
  ghost predicate NextIsLeast(s: State)
  {
    && (s.queue == [] ==> s.next == DEFAULT_NEXT_EXECUTION_TIME)
    && (s.queue != [] ==> exists id :: id in s.queue && id in s.table && s.table[id].time == s.next)
    && (forall id :: id in s.queue && id in s.table ==> s.next <= s.table[id].time)
  }

  /** The end of a round chooses the next execution time. */
  lemma EndTakesLeast(s: State)
    requires Valid(s) && Next(s, End(false)).Some?
    ensures NextIsLeast(Next(s, End(false)).value)
  {
    NextQueuedTimeIsLeast(s);
    var front := if s.queue == [] then 0 else s.queue[0];
    assert s.queue != [] ==> front in s.queue && s.table[front].time == NextQueuedTime(s);
  }

  /** The three parts of a pass. */
  lemma PassHasParts(s: State)
    requires Idle(s) && !NeedsReset(s) && Run(s, Pass(s)).Some?
    ensures Next(s, Begin).Some?
    ensures var b := Next(s, Begin).value;
      && Ready(b) && b.running.None? && b.now == s.next && b.queue == s.queue && b.table == s.table && b.next == s.next
      && Run(b, RoundSteps(b)).Some?
      && var m := Run(b, RoundSteps(b)).value;
        && Ready(m) && m.running.None? && m.now == s.next && (forall id :: id in m.table ==> m.table[id].time > s.next)
        && Run(s, Pass(s)) == Next(m, End(false))
        && Trace(s, Pass(s)) == Trace(b, RoundSteps(b))
  {
    BeginIsReady(s);
    var b := Next(s, Begin).value;
    assert Pass(s)[1..] == RoundSteps(b) + [End(false)];
    RunPrefix(b, RoundSteps(b), [End(false)]);
    RunConcat(b, RoundSteps(b), [End(false)]);
    RoundLeavesNothingDue(b);
    var m := Run(b, RoundSteps(b)).value;
    assert Run(m, [End(false)]) == Next(m, End(false)) && Trace(m, [End(false)]) == [];
  }

  /** After a whole pass the next execution time is right again, and later than before. */
  lemma PassTakesLeast(s: State)
    requires Idle(s) && !NeedsReset(s) && Run(s, Pass(s)).Some?
    ensures var r := Run(s, Pass(s)).value; NextIsLeast(r) && (r.queue != [] ==> r.next > s.next)
  {
    PassHasParts(s);
    var b := Next(s, Begin).value;
    var m := Run(b, RoundSteps(b)).value;
    EndTakesLeast(m);
  }

  /** If the next execution time is right, a pass runs at least one callback. */
  lemma PassMakesProgress(s: State)
    requires Idle(s) && !NeedsReset(s) && Run(s, Pass(s)).Some? && NextIsLeast(s)
    ensures Trace(s, Pass(s)) != []
  {
    PassHasParts(s);
    var b := Next(s, Begin).value;
    var id :| id in s.queue && id in s.table && s.table[id].time == s.next;
    NextQueuedTimeIsLeast(b);
    RoundTrace(b);
  }

  lemma {:induction false} RoundIsWellTimed(s: State)
    requires Ready(s) && s.running.None?
    ensures AllWellTimed(RoundSteps(s))
    decreases Left(s)
  {
    if Due(s) {
      FrontIsInTable(s);
      var body := s.table[s.queue[0]].body;
      BodyIsWellTimed(body);
      var firing := Firing(s);
      forall k | 0 <= k < |firing| && firing[k].Act? ensures WellTimed(firing[k].action) {
        assert firing[k] == ToSteps(body)[k - 1];
      }
      if Fire(s).Some? {
        FireSpends(s);
        RoundIsWellTimed(Fire(s).value);
      }
    }
  }

  lemma {:induction false} BodyIsWellTimed(body: seq<Action>)
    requires WellTimedBody(body)
    ensures AllWellTimed(ToSteps(body)) && |ToSteps(body)| == |body|
    ensures forall k :: 0 <= k < |body| ==> ToSteps(body)[k] == Act(body[k])
  {
    if body != [] {
      assert WellTimed(body[0]);
      BodyIsWellTimed(body[1..]);
    }
  }

  /** A callback that is due later than now stays queued while nothing begins and nobody clears it. */
  lemma {:induction false} LaterStays(s: State, steps: seq<Step>, id: int)
    requires Valid(s) && Clocked(s) && AllWellTimed(steps) && Run(s, steps).Some? && Begin !in steps
    requires id in s.queue && id in s.table && s.table[id].time > s.now
    requires Act(Clear(id)) !in steps
    ensures var r := Run(s, steps).value; id in r.queue && id in r.table && r.table[id].time == s.table[id].time
    decreases |steps|
  {
    if steps != [] {
      var step := steps[0];
      assert step in steps;
      if step.Pop? {
        PopTakesLeastDueNow(s);
      }
      StaysQueued(s, step, id);
      NextKeepsClock(s, step);
      LaterStays(Next(s, step).value, steps[1..], id);
    }
  }

  /** In a pass a queued callback runs if its time has come, and otherwise stays queued. */
  lemma PassRunsOrKeeps(s: State, id: int)
    requires Idle(s) && !NeedsReset(s) && Run(s, Pass(s)).Some?
    requires id in s.queue && id in s.table && Act(Clear(id)) !in Pass(s)
    ensures if s.table[id].time == s.next then RunsAt(Trace(s, Pass(s)), id, s.next)
            else var r := Run(s, Pass(s)).value; id in r.queue && id in r.table && r.table[id].time == s.table[id].time
  {
    PassHasParts(s);
    var b := Next(s, Begin).value;
    var steps := RoundSteps(b);
    forall step | step in steps ensures step != Act(Clear(id)) {
      assert step in Pass(s);
    }
    if s.table[id].time == s.next {
      assert [] + steps == steps;
      DueRunsInItsRound(b, [], steps, id);
    } else {
      RoundsDoNotBegin(b);
      RoundIsWellTimed(b);
      LaterStays(b, steps, id);
    }
  }

  /** No round that these clock readings allow is cut short by a reset or an overflow. */
  ghost predicate Uncut(s: State, clocks: seq<int>)
    requires Idle(s)
    decreases |clocks|
  {
    if clocks == [] || NeedsReset(s) then true
    else if s.next > clocks[0] then Uncut(s, clocks[1..])
    else Run(s, Pass(s)).Some? && (PassIsIdle(s); Uncut(Run(s, Pass(s)).value, clocks[1..]))
  }

  /** The steps that the Director takes under these clock readings. */
  ghost function DriveSteps(s: State, clocks: seq<int>): seq<Step>
    requires Idle(s)
    decreases |clocks|
  {
    if clocks == [] || NeedsReset(s) then []
    else if s.next > clocks[0] then DriveSteps(s, clocks[1..])
    else Pass(s) + (if AfterPass(s).None? then [] else DriveSteps(AfterPass(s).value, clocks[1..]))
  }

  /** What it executes is the trace of those steps. */
  lemma {:induction false} DriveIsTrace(s: State, clocks: seq<int>)
    requires Idle(s) && Uncut(s, clocks)
    ensures Run(s, DriveSteps(s, clocks)).Some? && Trace(s, DriveSteps(s, clocks)) == Drive(s, clocks)
    decreases |clocks|
  {
    if clocks != [] && !NeedsReset(s) {
      if s.next > clocks[0] {
        DriveIsTrace(s, clocks[1..]);
      } else {
        var r := AfterPass(s).value;
        DriveIsTrace(r, clocks[1..]);
        RunConcat(s, Pass(s), DriveSteps(r, clocks[1..]));
      }
    }
  }

  lemma RunsAtAppended(first: seq<Execution>, rest: seq<Execution>, id: int, now: int)
    requires RunsAt(first, id, now)
    ensures RunsAt(first + rest, id, now)
  {
    var k :| 0 <= k < |first| && first[k].id == id && first[k].time == now;
    assert (first + rest)[k] == first[k];
  }

  /**
   Every queued callback gets its turn: unless it is cleared it runs at its due time once the
   clock has been read often enough at that time or later.
   */
  lemma {:induction false} DueTimeIsReached(s: State, clocks: seq<int>, id: int)
    requires Idle(s) && Uncut(s, clocks) && id in s.queue && id in s.table
    requires Act(Clear(id)) !in DriveSteps(s, clocks)
    requires |clocks| > s.table[id].time - s.next
    requires forall k :: 0 <= k < |clocks| ==> clocks[k] >= s.table[id].time
    ensures RunsAt(Drive(s, clocks), id, s.table[id].time)
    decreases |clocks|
  {
    assert id in s.table && s.next <= s.table[id].time && clocks[0] >= s.table[id].time;
    var r, t := AfterPass(s).value, s.table[id].time;
    var rest := Drive(r, clocks[1..]);
    forall step | step in Pass(s) ensures step != Act(Clear(id)) {
      assert step in DriveSteps(s, clocks);
    }
    PassRunsOrKeeps(s, id);
    if t == s.next {
      RunsAtAppended(Trace(s, Pass(s)), rest, id, t);
    } else {
      forall step | step in DriveSteps(r, clocks[1..]) ensures step != Act(Clear(id)) {
        assert step in DriveSteps(s, clocks);
      }
      PassTakesLeast(s);
      DueTimeIsReached(r, clocks[1..], id);
      RunsAtPrepended(Trace(s, Pass(s)), rest, id, t);
    }
  }

  lemma {:induction false} RoundRunsNow(s: State)
    requires Ready(s) && s.running.None? && Run(s, RoundSteps(s)).Some?
    ensures forall k :: 0 <= k < |Trace(s, RoundSteps(s))| ==> Trace(s, RoundSteps(s))[k].time == s.now
    decreases Left(s)
  {
    if Due(s) {
      RoundTrace(s);
      RoundRunsNow(Fire(s).value);
    }
  }

  /** Some reading shows time `t` or later. */
  ghost predicate Seen(clocks: seq<int>, t: int)
  {
    exists j :: 0 <= j < |clocks| && t <= clocks[j]
  }

  ghost predicate AllSeen(trace: seq<Execution>, clocks: seq<int>)
  {
    forall k {:trigger trace[k]} :: 0 <= k < |trace| ==> Seen(clocks, trace[k].time)
  }

  lemma SeenLater(trace: seq<Execution>, clocks: seq<int>)
    requires clocks != [] && AllSeen(trace, clocks[1..])
    ensures AllSeen(trace, clocks)
  {
    forall k {:trigger trace[k]} | 0 <= k < |trace| ensures Seen(clocks, trace[k].time) {
      assert Seen(clocks[1..], trace[k].time);
      var j :| 0 <= j < |clocks[1..]| && trace[k].time <= clocks[1..][j];
      assert clocks[j + 1] == clocks[1..][j];
    }
  }

  lemma SeenAppended(first: seq<Execution>, rest: seq<Execution>, clocks: seq<int>)
    requires AllSeen(first, clocks) && AllSeen(rest, clocks)
    ensures AllSeen(first + rest, clocks)
  {
  }

  /** Nothing runs before the clock was seen to reach its time. */
  lemma {:induction false} NothingRunsEarly(s: State, clocks: seq<int>)
    requires Idle(s) && Uncut(s, clocks)
    ensures AllSeen(Drive(s, clocks), clocks)
    decreases |clocks|
  {
    if clocks != [] && !NeedsReset(s) {
      if s.next > clocks[0] {
        NothingRunsEarly(s, clocks[1..]);
        SeenLater(Drive(s, clocks[1..]), clocks);
      } else {
        PassHasParts(s);
        RoundRunsNow(Next(s, Begin).value);
        var r, now := AfterPass(s).value, Trace(s, Pass(s));
        NothingRunsEarly(r, clocks[1..]);
        SeenLater(Drive(r, clocks[1..]), clocks);
        assert AllSeen(now, clocks);
        SeenAppended(now, Drive(r, clocks[1..]), clocks);
      }
    }
  }
}
