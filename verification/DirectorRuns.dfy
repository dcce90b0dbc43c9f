/** What holds over whole runs of the Director between two resets. */
module DirectorRuns {
  import opened Wrappers
  import opened CallbackQueue
  import opened DirectorState

  /** One callback body run: at which logical time, at which priority, and whose. */
  datatype Execution = Execution(time: int, priority: int, id: int)

  function Run(s: State, steps: seq<Step>): Option<State>
    decreases |steps|
  {
    if steps == [] then Some(s)
    else match Next(s, steps[0])
      case None => None
      case Some(r) => Run(r, steps[1..])
  }

  /** The bodies that the run of `steps` from `s` executes, in order. */
  function Trace(s: State, steps: seq<Step>): seq<Execution>
    decreases |steps|
  {
    if steps == [] || Next(s, steps[0]).None? then []
    else Executed(s, steps[0]) + Trace(Next(s, steps[0]).value, steps[1..])
  }

  function Executed(s: State, step: Step): seq<Execution>
    requires Next(s, step).Some?
  {
    if step.Pop? && s.queue[0] in s.table then [Execution(s.now, s.table[s.queue[0]].priority, s.queue[0])] else []
  }

  function Count(trace: seq<Execution>, id: int): nat
  {
    if trace == [] then 0 else (if trace[0].id == id then 1 else 0) + Count(trace[1..], id)
  }

  predicate AllWellTimed(steps: seq<Step>)
  {
    forall k :: 0 <= k < |steps| && steps[k].Act? ==> WellTimed(steps[k].action)
  }

  lemma {:induction false} RunKeepsInvariants(s: State, steps: seq<Step>)
    requires Valid(s) && Clocked(s) && AllWellTimed(steps) && Run(s, steps).Some?
    ensures Valid(Run(s, steps).value) && Clocked(Run(s, steps).value)
    decreases |steps|
  {
    if steps != [] {
      NextKeepsValid(s, steps[0]);
      NextKeepsClock(s, steps[0]);
      RunKeepsInvariants(Next(s, steps[0]).value, steps[1..]);
    }
  }

  lemma {:induction false} RunConcat(s: State, xs: seq<Step>, ys: seq<Step>)
    requires Run(s, xs).Some?
    ensures Run(s, xs + ys) == Run(Run(s, xs).value, ys)
    ensures Trace(s, xs + ys) == Trace(s, xs) + Trace(Run(s, xs).value, ys)
    decreases |xs|
  {
    if xs == [] {
      assert xs + ys == ys;
    } else {
      assert (xs + ys)[1..] == xs[1..] + ys;
      RunConcat(Next(s, xs[0]).value, xs[1..], ys);
    }
  }

  /** An id that has left the table is never executed again: ids are not reused between resets. */
  lemma {:induction false} GoneForever(s: State, steps: seq<Step>, id: int)
    requires Valid(s) && id !in s.table && id < s.nextId
    ensures forall k :: 0 <= k < |Trace(s, steps)| ==> Trace(s, steps)[k].id != id
    decreases |steps|
  {
    if steps != [] && Next(s, steps[0]).Some? {
      NextKeepsValid(s, steps[0]);
      if steps[0].Pop? {
        var front := s.queue[0];
        assert front in s.queue;
      }
      GoneForever(Next(s, steps[0]).value, steps[1..], id);
    }
  }

  /** Two queued callbacks that share a due time and a priority, in the order of their ids. */
  ghost predicate Tied(s: State, a: int, b: int)
  {
    && a < b && a in s.queue && b in s.queue && a in s.table && b in s.table
    && s.table[a].time == s.table[b].time && s.table[a].priority == s.table[b].priority
  }

  lemma TieSurvives(s: State, step: Step, a: int, b: int)
    requires Valid(s) && Tied(s, a, b) && Next(s, step).Some?
    requires step != Act(Clear(a)) && step != Act(Clear(b))
    requires step.Pop? ==> s.queue[0] != a
    ensures Valid(Next(s, step).value) && Tied(Next(s, step).value, a, b)
  {
    FrontIsLeast(s.table, s.queue, a);
    StaysQueued(s, step, a);
    StaysQueued(s, step, b);
  }

  /** Every entry of `b` has an entry of `a` somewhere before it. */
  ghost predicate Precedes(trace: seq<Execution>, a: int, b: int)
  {
    forall k :: 0 <= k < |trace| && trace[k].id == b ==> exists j :: 0 <= j < k && trace[j].id == a
  }

  lemma PrecedesPrepended(e: Execution, rest: seq<Execution>, a: int, b: int)
    requires e.id == a || (e.id != b && Precedes(rest, a, b))
    requires a != b
    ensures Precedes([e] + rest, a, b)
  {
    var trace := [e] + rest;
    forall k | 0 <= k < |trace| && trace[k].id == b ensures exists j :: 0 <= j < k && trace[j].id == a {
      if e.id == a {
        assert trace[0].id == a;
      } else {
        assert rest[k - 1].id == b;
        var j :| 0 <= j < k - 1 && rest[j].id == a;
        assert trace[j + 1].id == a;
      }
    }
  }

  /**
   First in, first out: of two callbacks with one due time and one priority, the one
   scheduled first also runs first, whatever else is scheduled, cleared or reprioritised.
   */
  lemma {:induction false} FirstInFirstOut(s: State, steps: seq<Step>, a: int, b: int)
    requires Valid(s) && Tied(s, a, b)
    requires forall k :: 0 <= k < |steps| ==> steps[k] != Act(Clear(a))
    ensures Precedes(Trace(s, steps), a, b)
    decreases |steps|
  {
    if steps != [] && Next(s, steps[0]).Some? {
      var step, r, rest := steps[0], Next(s, steps[0]).value, Trace(Next(s, steps[0]).value, steps[1..]);
      if step == Act(Clear(b)) {
        NextKeepsValid(s, step);
        GoneForever(r, steps[1..], b);
      } else if !step.Pop? || s.queue[0] != a {
        TieSurvives(s, step, a, b);
        FirstInFirstOut(r, steps[1..], a, b);
      }
      PrecedesAfterStep(s, step, rest, a, b);
    }
  }

  /** The front of the queue is never the later one of two tied callbacks. */
  lemma PrecedesAfterStep(s: State, step: Step, rest: seq<Execution>, a: int, b: int)
    requires Valid(s) && Tied(s, a, b) && Next(s, step).Some?
    requires (step.Pop? && s.queue[0] == a) || Precedes(rest, a, b)
    ensures Precedes(Executed(s, step) + rest, a, b)
  {
    FrontIsLeast(s.table, s.queue, a);
    if Executed(s, step) == [] {
      assert Executed(s, step) + rest == rest;
    } else {
      PrecedesPrepended(Executed(s, step)[0], rest, a, b);
    }
  }

  /** The logical clock never goes back between resets. */
  lemma {:induction false} TimeNeverGoesBack(s: State, steps: seq<Step>)
    requires Valid(s) && Clocked(s) && AllWellTimed(steps)
    ensures forall k :: 0 <= k < |Trace(s, steps)| ==> s.now <= Trace(s, steps)[k].time
    ensures forall j, k :: 0 <= j < k < |Trace(s, steps)| ==> Trace(s, steps)[j].time <= Trace(s, steps)[k].time
    decreases |steps|
  {
    if steps != [] && Next(s, steps[0]).Some? {
      NextKeepsValid(s, steps[0]);
      NextKeepsClock(s, steps[0]);
      TimeNeverGoesBack(Next(s, steps[0]).value, steps[1..]);
    }
  }

  /** When the pending run of callback `id` is due. */
  function DueTime(s: State, id: int): int
    requires id in s.table
  {
    s.table[id].time + (if s.running == Some(id) then s.table[id].delay else 0)
  }

  lemma PeriodicStep(s: State, step: Step, id: int)
    requires Valid(s) && Clocked(s) && id in s.table && s.table[id].periodic
    requires Next(s, step).Some? && step != Act(Clear(id))
    ensures var r := Next(s, step).value;
      && id in r.table && r.table[id].periodic && r.table[id].delay == s.table[id].delay
      && DueTime(r, id) == DueTime(s, id) + (if step.Pop? && s.queue[0] == id then s.table[id].delay else 0)
    ensures step.Pop? && s.queue[0] == id ==> s.now == DueTime(s, id)
  {
    if step.Pop? {
      var front := s.queue[0];
      assert front in s.queue;
      PopTakesLeastDueNow(s);
    }
  }

  /** The k-th entry of callback `id` (from 0) stands at `first` plus k delays. */
  ghost predicate OnSchedule(trace: seq<Execution>, id: int, first: int, delay: int)
  {
    forall k :: 0 <= k < |trace| && trace[k].id == id ==> trace[k].time == first + Count(trace[..k], id) * delay
  }

  lemma OneMore(n: nat, delay: int)
    ensures (1 + n) * delay == delay + n * delay
  {
  }

  lemma OnSchedulePrepended(e: Execution, rest: seq<Execution>, id: int, first: int, delay: int)
    requires e.id == id ==> e.time == first
    requires OnSchedule(rest, id, first + (if e.id == id then delay else 0), delay)
    ensures OnSchedule([e] + rest, id, first, delay)
  {
    var trace := [e] + rest;
    forall k | 0 <= k < |trace| && trace[k].id == id
      ensures trace[k].time == first + Count(trace[..k], id) * delay
    {
      if k > 0 {
        var before := trace[..k];
        assert before[0] == e && before[1..] == rest[..k - 1];
        OneMore(Count(rest[..k - 1], id), delay);
      }
    }
  }

  /**
   A periodic callback does not drift: unless it is cleared, its k-th run (from 0) happens
   at its first due time plus k delays, however late the physical clock is.
   */
  lemma {:induction false} PeriodicDoesNotDrift(s: State, steps: seq<Step>, id: int)
    requires Valid(s) && Clocked(s) && AllWellTimed(steps)
    requires id in s.table && s.table[id].periodic
    requires forall k :: 0 <= k < |steps| ==> steps[k] != Act(Clear(id))
    ensures OnSchedule(Trace(s, steps), id, DueTime(s, id), s.table[id].delay)
    decreases |steps|
  {
    if steps != [] && Next(s, steps[0]).Some? {
      var r := Next(s, steps[0]).value;
      NextKeepsValid(s, steps[0]);
      NextKeepsClock(s, steps[0]);
      PeriodicStep(s, steps[0], id);
      PeriodicDoesNotDrift(r, steps[1..], id);
      OnScheduleAfterStep(s, steps[0], Trace(r, steps[1..]), id);
    }
  }

  lemma OnScheduleAfterStep(s: State, step: Step, rest: seq<Execution>, id: int)
    requires Valid(s) && id in s.table && Next(s, step).Some?
    requires var ran := step.Pop? && s.queue[0] == id;
      && (ran ==> s.now == DueTime(s, id))
      && OnSchedule(rest, id, DueTime(s, id) + (if ran then s.table[id].delay else 0), s.table[id].delay)
    ensures OnSchedule(Executed(s, step) + rest, id, DueTime(s, id), s.table[id].delay)
  {
    if Executed(s, step) == [] {
      assert Executed(s, step) + rest == rest;
    } else {
      OnSchedulePrepended(Executed(s, step)[0], rest, id, DueTime(s, id), s.table[id].delay);
    }
  }

  // ----- from the call to the runs -----

  lemma {:induction false} PeriodicStays(s: State, steps: seq<Step>, id: int)
    requires Valid(s) && Clocked(s) && AllWellTimed(steps) && Run(s, steps).Some?
    requires id in s.table && s.table[id].periodic
    requires forall k :: 0 <= k < |steps| ==> steps[k] != Act(Clear(id))
    ensures id in Run(s, steps).value.table
    decreases |steps|
  {
    if steps != [] {
      NextKeepsValid(s, steps[0]);
      NextKeepsClock(s, steps[0]);
      PeriodicStep(s, steps[0], id);
      PeriodicStays(Next(s, steps[0]).value, steps[1..], id);
    }
  }

  /** A run that starts with a call, whose delay is given, goes on from what the call stored. */
  lemma CallStarts(s: State, body: seq<Action>, delay: int, periodic: bool, priority: int, rest: seq<Step>) returns (r: State)
    requires Valid(s) && Clocked(s) && Next(s, Act(Schedule(body, delay, periodic, priority))).Some?
    requires AllWellTimed([Act(Schedule(body, delay, periodic, priority))] + rest)
    ensures r == Next(s, Act(Schedule(body, delay, periodic, priority))).value
    ensures Valid(r) && Clocked(r) && AllWellTimed(rest) && s.nextId in r.table && r.running != Some(s.nextId)
    ensures r.table[s.nextId].periodic == periodic && r.table[s.nextId].delay == delay
    ensures r.table[s.nextId].time == s.now + delay
    ensures var steps := [Act(Schedule(body, delay, periodic, priority))] + rest;
      Trace(s, steps) == Trace(r, rest) && Run(s, steps) == Run(r, rest)
  {
    var call := Act(Schedule(body, delay, periodic, priority));
    var steps := [call] + rest;
    assert steps[0] == call && steps[1..] == rest;
    forall k | 0 <= k < |rest| && rest[k].Act? ensures WellTimed(rest[k].action) {
      assert steps[k + 1] == rest[k];
    }
    r := Next(s, call).value;
    NextKeepsValid(s, call);
    NextKeepsClock(s, call);
    ScheduleStores(s, body, delay, periodic, priority);
  }

  /** The k-th run of `id` (from 0) is k + 1 delays after `start`. */
  ghost predicate RunsFrom(trace: seq<Execution>, id: int, start: int, delay: int)
  {
    forall k :: 0 <= k < |trace| && trace[k].id == id ==> trace[k].time == start + (Count(trace[..k], id) + 1) * delay
  }

  lemma OneLater(trace: seq<Execution>, id: int, start: int, delay: int)
    requires OnSchedule(trace, id, start + delay, delay)
    ensures RunsFrom(trace, id, start, delay)
  {
    forall k | 0 <= k < |trace| && trace[k].id == id
      ensures trace[k].time == start + (Count(trace[..k], id) + 1) * delay
    {
      OneMore(Count(trace[..k], id), delay);
    }
  }

  /**
   A periodic callback from its call on: unless it is cleared it stays in the table, and its
   k-th run (from 0) is k + 1 of the delays that were asked for after the logical time of the call.
   */
  lemma ScheduledPeriodicRuns(s: State, body: seq<Action>, delay: int, priority: int, rest: seq<Step>)
    requires Valid(s) && Clocked(s) && Next(s, Act(Schedule(body, delay, true, priority))).Some?
    requires AllWellTimed([Act(Schedule(body, delay, true, priority))] + rest)
    requires forall k :: 0 <= k < |rest| ==> rest[k] != Act(Clear(s.nextId))
    ensures var steps := [Act(Schedule(body, delay, true, priority))] + rest;
      && (Run(s, steps).Some? ==> s.nextId in Run(s, steps).value.table)
      && RunsFrom(Trace(s, steps), s.nextId, s.now, delay)
  {
    var r := CallStarts(s, body, delay, true, priority, rest);
    PeriodicDoesNotDrift(r, rest, s.nextId);
    OneLater(Trace(r, rest), s.nextId, s.now, delay);
    if Run(r, rest).Some? {
      PeriodicStays(r, rest, s.nextId);
    }
  }

  /** A callback that is not periodic runs at most once more, at its due time, and then it is gone. */
  lemma {:induction false} OneShotRunsOnce(s: State, steps: seq<Step>, id: int)
    requires Valid(s) && Clocked(s) && AllWellTimed(steps) && id in s.table && !s.table[id].periodic
    ensures Count(Trace(s, steps), id) <= (if s.running == Some(id) then 0 else 1)
    ensures forall k :: 0 <= k < |Trace(s, steps)| && Trace(s, steps)[k].id == id ==>
              Trace(s, steps)[k].time == s.table[id].time
    decreases |steps|
  {
    if steps != [] && Next(s, steps[0]).Some? {
      var step, r := steps[0], Next(s, steps[0]).value;
      NextKeepsValid(s, step);
      NextKeepsClock(s, step);
      OneShotStep(s, step, id);
      CountAfterStep(s, step, Trace(r, steps[1..]), id);
      if id in r.table {
        OneShotRunsOnce(r, steps[1..], id);
      } else {
        GoneForever(r, steps[1..], id);
        NeverCounted(Trace(r, steps[1..]), id);
      }
    }
  }

  lemma CountAfterStep(s: State, step: Step, rest: seq<Execution>, id: int)
    requires Valid(s) && Next(s, step).Some?
    ensures Count(Executed(s, step) + rest, id) == Count(rest, id) + if step.Pop? && s.queue[0] == id then 1 else 0
    ensures forall k :: 0 <= k < |Executed(s, step)| ==> Executed(s, step)[k].time == s.now && s.queue[0] == Executed(s, step)[k].id
  {
    if step.Pop? {
      var front := s.queue[0];
      assert front in s.queue;
      assert (Executed(s, step) + rest)[1..] == rest;
    } else {
      assert Executed(s, step) + rest == rest;
    }
  }

  /** One step runs it, drops it, or leaves it as it was. */
  lemma OneShotStep(s: State, step: Step, id: int)
    requires Valid(s) && Clocked(s) && id in s.table && !s.table[id].periodic && Next(s, step).Some?
    ensures var r := Next(s, step).value;
      && id < r.nextId
      && (id in r.table ==> !r.table[id].periodic && r.table[id].time == s.table[id].time)
      && (s.running == Some(id) ==> (step.Finish? ==> id !in r.table) && (id in r.table ==> r.running == Some(id)))
      && (s.running == Some(id) ==> !step.Pop?)
      && (step.Pop? && s.queue[0] == id ==> r.running == Some(id) && s.now == s.table[id].time)
      && (id in r.table && r.running == Some(id) ==> s.running == Some(id) || (step.Pop? && s.queue[0] == id))
  {
    if step.Pop? {
      PopTakesLeastDueNow(s);
    }
  }

  lemma {:induction false} NeverCounted(trace: seq<Execution>, id: int)
    requires forall k :: 0 <= k < |trace| ==> trace[k].id != id
    ensures Count(trace, id) == 0
  {
    if trace != [] {
      NeverCounted(trace[1..], id);
    }
  }

  /** A callback that is not periodic, from its call on: it runs at most once, when it was asked for. */
  lemma ScheduledOnceRuns(s: State, body: seq<Action>, delay: int, priority: int, rest: seq<Step>)
    requires Valid(s) && Clocked(s) && Next(s, Act(Schedule(body, delay, false, priority))).Some?
    requires AllWellTimed([Act(Schedule(body, delay, false, priority))] + rest)
    ensures var trace := Trace(s, [Act(Schedule(body, delay, false, priority))] + rest);
      && Count(trace, s.nextId) <= 1
      && forall k :: 0 <= k < |trace| && trace[k].id == s.nextId ==> trace[k].time == s.now + delay
  {
    var r := CallStarts(s, body, delay, false, priority, rest);
    OneShotRunsOnce(r, rest, s.nextId);
  }

  // ----- whole lives -----

  /** A step, or a reset between rounds. */
  datatype LifeStep = Do(step: Step) | Restart(clock: int)

  function Live(s: State, life: seq<LifeStep>): Option<State>
    decreases |life|
  {
    if life == [] then Some(s)
    else match life[0]
      case Do(step) => (match Next(s, step)
        case None => None
        case Some(r) => Live(r, life[1..]))
      case Restart(clock) => if s.inRound then None else Live(Reset(s, clock), life[1..])
  }

  lemma {:induction false} LifeKeepsInvariants(s: State, life: seq<LifeStep>)
    requires Valid(s) && Clocked(s) && Live(s, life).Some?
    requires forall k :: 0 <= k < |life| ==>
      match life[k]
      case Do(step) => step.Act? ==> WellTimed(step.action)
      case Restart(clock) => clock <= DEFAULT_NEXT_EXECUTION_TIME
    ensures Valid(Live(s, life).value) && Clocked(Live(s, life).value)
    decreases |life|
  {
    if life != [] {
      match life[0]
      case Do(step) =>
        NextKeepsValid(s, step);
        NextKeepsClock(s, step);
        LifeKeepsInvariants(Next(s, step).value, life[1..]);
      case Restart(clock) =>
        LifeKeepsInvariants(Reset(s, clock), life[1..]);
    }
  }

  /** Clearing a callback is always one of the two. */
  lemma ClearIsStepOrRestart(s: State, id: int, clock: int)
    ensures Cleared(s, id, clock)
         == match Next(s, Act(Clear(id)))
            case Some(r) => r
            case None => Reset(s, clock)
  {
  }
}
