/**
 Where the Director's promises end: a reset in the middle of a round, and periodic callbacks
 that do not wait.
 */
module DirectorLimits {
  import opened Wrappers
  import opened CallbackQueue
  import opened Sequences
  import opened DirectorState
  import opened DirectorRuns
  import opened DirectorRounds

  // ----- a reset in the middle of a round -----

  /** Queue and table agree, and new ids are unused, whatever the running callback's id is. */
  ghost predicate Agrees(s: State)
  {
    && Sorted(s.table, s.queue)
    && (forall id :: id in s.queue <==> id in s.table && s.running != Some(id))
    && (forall id :: id in s.table ==> 0 <= id < s.nextId)
    && 0 <= s.nextId
  }

  lemma ClearKeepsAgreement(s: State, id: int, clock: int)
    requires Agrees(s)
    ensures Agrees(Cleared(s, id, clock))
  {
    RemoveKeeps(s.table, s.queue, id);
    SortedUnder(s.table, s.table - {id}, Remove(s.queue, id));
  }

  /**
   Clearing a callback from inside a body always leaves queue and table in agreement. The
   round stays in order if and only if some other callback stays queued: otherwise the
   Director resets, and the next execution time runs away from the logical clock.
   */
  lemma ClearInBodyKeepsReadyExactly(s: State, id: int, clock: int)
    requires Ready(s) && s.running.Some? && clock < DEFAULT_NEXT_EXECUTION_TIME
    ensures Agrees(Cleared(s, id, clock))
    ensures Clocked(Cleared(s, id, clock)) <==> exists x :: x in s.queue && x != id
    ensures Ready(Cleared(s, id, clock)) <==> exists x :: x in s.queue && x != id
  {
    ClearKeepsAgreement(s, id, clock);
    RemoveKeeps(s.table, s.queue, id);
    RemovedKeepsValid(s, id);
    var r := Remove(s.queue, id);
    if x :| x in s.queue && x != id {
      assert x in r && x in Removed(s, id).table;
    } else {
      var front := if r == [] then 0 else r[0];
      assert r != [] ==> front in r;
    }
  }

  /**
   After such a reset the round goes on, and what the body then schedules runs at once,
   before its time: its due time is `delay` later than the logical clock when it is taken.
   */
  lemma ScheduledAfterResetRunsEarly(
      s: State, id: int, clock: int, body: seq<Action>, delay: nat, periodic: bool, priority: int)
    requires Ready(s) && s.running.Some? && s.running.value > 0 && forall x :: x in s.queue ==> x == id
    requires clock + delay <= DEFAULT_NEXT_EXECUTION_TIME
    ensures var c := Cleared(s, id, clock);
      var r := Finished(Scheduled(c, body, delay, periodic, priority), s.running.value);
      && Next(r, Pop).Some? && Executed(r, Pop) == [Execution(clock, priority, 0)]
      && 0 in r.table && r.table[0].time == clock + delay
  {
    RemoveKeeps(s.table, s.queue, id);
    var q := Remove(s.queue, id);
    var front := if q == [] then 0 else q[0];
    assert q != [] ==> front in q;
    var c := Cleared(s, id, clock);
    var m := Scheduled(c, body, delay, periodic, priority);
    assert m.queue == Insert(m.table, [], 0) == [0];
  }

  // ----- which ids a body gives out after a reset -----

  /** One call, whether the Director then resets or not. */
  function Called(s: State, a: Action, clock: int): State
  {
    match a
    case Schedule(body, delay, periodic, priority) => Scheduled(s, body, delay, periodic, priority)
    case Clear(id) => Cleared(s, id, clock)
    case Reprioritise(oldPriority, newPriority) => Reprioritised(s, oldPriority, newPriority)
  }

  /** The state before call `k` of `body`. */
  function StateAt(s: State, body: seq<Action>, k: nat, clock: int): State
    requires k <= |body|
    decreases k
  {
    if k == 0 then s else Called(StateAt(s, body, k - 1, clock), body[k - 1], clock)
  }

  /** Call `k` makes the Director reset. */
  predicate ResetsAt(s: State, body: seq<Action>, k: nat, clock: int)
    requires k < |body|
  {
    body[k].Clear? && NeedsReset(Removed(StateAt(s, body, k, clock), body[k].id))
  }

  /** How many callbacks the calls from `j` up to `k` schedule. */
  function Schedules(body: seq<Action>, j: nat, k: nat): nat
    requires j <= k <= |body|
    decreases k
  {
    if j == k then 0 else Schedules(body, j, k - 1) + if body[k - 1].Schedule? then 1 else 0
  }

  /** Some call gives out `id`. */
  ghost predicate GivesOut(s: State, body: seq<Action>, clock: int, id: int)
  {
    exists k: nat :: k < |body| && body[k].Schedule? && StateAt(s, body, k, clock).nextId == id
  }

  /** A stretch of calls without a reset that schedules more than `n` callbacks. */
  ghost predicate Stretch(s: State, body: seq<Action>, clock: int, j: nat, k: nat, n: int)
  {
    && j <= k <= |body| && (forall x: nat :: j <= x < k ==> !ResetsAt(s, body, x, clock))
    && Schedules(body, j, k) > n
  }

  lemma CallCounts(s: State, a: Action, clock: int)
    ensures a.Clear? && NeedsReset(Removed(s, a.id)) ==> Called(s, a, clock).nextId == 0
    ensures !(a.Clear? && NeedsReset(Removed(s, a.id))) ==>
              Called(s, a, clock).nextId == s.nextId + if a.Schedule? then 1 else 0
  {
  }

  /** Without a reset ids are given out one by one. */
  lemma {:induction false} IdsFollow(s: State, body: seq<Action>, clock: int, j: nat, k: nat)
    requires j <= k <= |body| && forall x: nat :: j <= x < k ==> !ResetsAt(s, body, x, clock)
    ensures StateAt(s, body, k, clock).nextId == StateAt(s, body, j, clock).nextId + Schedules(body, j, k)
    decreases k
  {
    if j < k {
      IdsFollow(s, body, clock, j, k - 1);
      assert !ResetsAt(s, body, k - 1, clock);
      var t, a := StateAt(s, body, k - 1, clock), body[k - 1];
      assert StateAt(s, body, k, clock) == Called(t, a, clock);
      CallCounts(t, a, clock);
    }
  }

  /** The next id is what was scheduled since the last reset. */
  lemma {:induction false} SinceLastReset(s: State, body: seq<Action>, clock: int, k: nat) returns (j: nat)
    requires s.nextId == 0 && k <= |body|
    ensures j <= k && (forall x: nat :: j <= x < k ==> !ResetsAt(s, body, x, clock))
    ensures StateAt(s, body, k, clock).nextId == Schedules(body, j, k)
    decreases k
  {
    if k == 0 {
      j := 0;
    } else if ResetsAt(s, body, k - 1, clock) {
      j := k;
    } else {
      j := SinceLastReset(s, body, clock, k - 1);
    }
  }

  /** The next id passes `id` only by giving it out. */
  lemma {:induction false} PassingGivesOut(s: State, body: seq<Action>, clock: int, k: nat, id: nat)
    requires s.nextId == 0 && k <= |body| && StateAt(s, body, k, clock).nextId > id
    ensures GivesOut(s, body, clock, id)
    decreases k
  {
    if StateAt(s, body, k - 1, clock).nextId > id {
      PassingGivesOut(s, body, clock, k - 1, id);
    } else {
      assert body[k - 1].Schedule? && StateAt(s, body, k - 1, clock).nextId == id;
    }
  }

  lemma {:induction false} IdsAreNatural(s: State, body: seq<Action>, clock: int, k: nat)
    requires s.nextId == 0 && k <= |body|
    ensures StateAt(s, body, k, clock).nextId >= 0
    decreases k
  {
    if k > 0 {
      IdsAreNatural(s, body, clock, k - 1);
    }
  }

  /**
   After a reset the running callback's id is given to another callback if and only if some
   stretch of the calls that follow, without a further reset, schedules more callbacks than
   that id counts.
   */
  lemma ReissuedExactly(s: State, clock: int, rest: seq<Action>)
    requires s.running.Some? && s.running.value >= 0
    ensures GivesOut(Reset(s, clock), rest, clock, s.running.value) <==>
            exists j: nat, k: nat :: Stretch(Reset(s, clock), rest, clock, j, k, s.running.value)
  {
    var c, i := Reset(s, clock), s.running.value;
    if GivesOut(c, rest, clock, i) {
      var k: nat :| k < |rest| && rest[k].Schedule? && StateAt(c, rest, k, clock).nextId == i;
      var j := SinceLastReset(c, rest, clock, k);
      assert !ResetsAt(c, rest, k, clock);
      assert Schedules(rest, j, k + 1) == i + 1;
      assert Stretch(c, rest, clock, j, k + 1, i);
    }
    if j: nat, k: nat :| Stretch(c, rest, clock, j, k, i) {
      IdsFollow(c, rest, clock, j, k);
      IdsAreNatural(c, rest, clock, j);
      PassingGivesOut(c, rest, clock, k, i);
    }
  }

  lemma {:induction false} InsertCounts(t: Table, q: seq<int>, id: int)
    ensures multiset(Insert(t, q, id)) == multiset(q) + multiset{id}
  {
    if q != [] && Before(t, q[0], id) {
      InsertCounts(t, q[1..], id);
      assert q == [q[0]] + q[1..];
    }
  }

  lemma {:induction false} SortedCounts(t: Table, q: seq<int>, id: int)
    requires Sorted(t, q)
    ensures multiset(q)[id] <= 1
  {
    if q != [] {
      SortedCounts(t, q[1..], id);
      TailMember(t, q, q[0]);
      assert q == [q[0]] + q[1..];
    }
  }

  /**
   Given the running id, a callback is taken for the one that just ran: it is dropped from the
   table and stays queued, or it is queued a second time.
   */
  lemma ReissuedBreaksAgreement(m: State)
    requires m.running.Some? && m.running.value in m.table && m.running.value in m.queue
    ensures !Agrees(Finished(m, m.running.value))
  {
    var id := m.running.value;
    var r := Finished(m, id);
    if m.table[id].periodic {
      InsertCounts(r.table, m.queue, id);
      assert multiset(m.queue)[id] >= 1;
      if Sorted(r.table, r.queue) {
        SortedCounts(r.table, r.queue, id);
      }
    }
  }

  /** The smallest case: the only callback, with id 0, clears itself and schedules another. */
  lemma ResetInBodyLosesCallback(clock: int)
    ensures
      var c := Callback([Clear(0), Schedule([], 5, false, 1)], 0, false, 1, 100);
      var s := State(map[0 := c], [], 1, 100, 100, true, Some(0));
      var r := Scheduled(Cleared(s, 0, clock), [], 5, false, 1);
      Ready(s) && r.queue == [0] && Finished(r, 0).queue == [0] && Finished(r, 0).table == map[]
  {
    var c := Callback([Clear(0), Schedule([], 5, false, 1)], 0, false, 1, 100);
    assert WellTimed(c.body[0]) && WellTimed(c.body[1]);
    var s := State(map[0 := c], [], 1, 100, 100, true, Some(0));
    var r := Scheduled(Cleared(s, 0, clock), [], 5, false, 1);
    assert r.queue == Insert(r.table, [], 0) == [0];
    assert r.table - {0} == map[];
  }

  // ----- periodic callbacks that do not wait -----

  /** In a round, with a due periodic callback that does not wait. */
  ghost predicate Pressing(s: State, id: int)
  {
    && Valid(s) && s.inRound && s.now == s.next
    && id in s.table && s.table[id].periodic && s.table[id].delay <= 0 && s.table[id].time <= s.next
  }

  lemma PressingStep(s: State, step: Step, id: int)
    requires Pressing(s, id) && Next(s, step).Some? && step != Act(Clear(id))
    requires step.Act? ==> WellTimed(step.action)
    ensures Pressing(Next(s, step).value, id)
  {
    NextKeepsValid(s, step);
    NextQueuedTimeIsLeast(s);
    assert s.running.None? ==> id in s.queue;
    if step.Pop? {
      var front := s.queue[0];
      assert front in s.queue;
    }
  }

  /** While it is not cleared and the Director does not reset, a round with such a callback never ends. */
  lemma {:induction false} PressingNeverEnds(s: State, steps: seq<Step>, id: int)
    requires Pressing(s, id) && AllWellTimed(steps) && Run(s, steps).Some?
    requires forall k :: 0 <= k < |steps| ==> steps[k] != Act(Clear(id))
    ensures Run(s, steps).value.inRound && Pressing(Run(s, steps).value, id)
    decreases |steps|
  {
    if steps != [] {
      PressingStep(s, steps[0], id);
      PressingNeverEnds(Next(s, steps[0]).value, steps[1..], id);
    }
  }

  /** A clear of another callback leaves it pressing if and only if the Director does not reset. */
  lemma PressingUnlessReset(s: State, id: int, other: int, clock: int)
    requires Pressing(s, id) && other != id && clock < DEFAULT_NEXT_EXECUTION_TIME
    ensures Pressing(Cleared(s, other, clock), id) <==> exists x :: x in s.queue && x != other
  {
    RemoveKeeps(s.table, s.queue, other);
    RemovedKeepsValid(s, other);
    var r := Remove(s.queue, other);
    if x :| x in s.queue && x != other {
      assert x in r && x in Removed(s, other).table;
    } else {
      var front := if r == [] then 0 else r[0];
      assert r != [] ==> front in r;
    }
  }

  /**
   So a round may end although nobody cleared the periodic callback: its own body clears an
   id that does not even exist while nothing else is queued, and everything is dropped.
   */
  lemma ResetEndsPressingRound(clock: int)
    ensures var c := Callback([Clear(7)], 0, true, 1, 100);
      var s := State(map[0 := c], [0], 1, 100, 100, true, None);
      var r := Finished(Cleared(Popped(s), 7, clock), 0);
      Pressing(s, 0) && Due(s) && r.table == map[] && r.queue == [] && !Due(r)
  {
    var s := State(map[0 := Callback([Clear(7)], 0, true, 1, 100)], [0], 1, 100, 100, true, None);
    assert Popped(s).queue == [] && Removed(Popped(s), 7).queue == [];
  }

  /** The state after firing the front callback `n` times, each time because it is due. */
  function FiredTimes(s: State, n: nat): Option<State>
    decreases n
  {
    if n == 0 then Some(s)
    else if !Due(s) || s.queue[0] !in s.table then None
    else match Run(s, Firing(s))
      case None => None
      case Some(r) => FiredTimes(r, n - 1)
  }

  /** The loop of ExecuteCallbacks ends. */
  ghost predicate RoundEnds(s: State)
  {
    exists n: nat :: FiredTimes(s, n).Some? && !Due(FiredTimes(s, n).value)
  }

  /** A due periodic callback with an empty body, alone in the Director. */
  ghost predicate Alone(s: State, id: int)
  {
    && s.inRound && s.running.None? && s.queue == [id] && s.table.Keys == {id}
    && s.table[id].periodic && s.table[id].body == []
    && s.table[id].time <= s.next
  }

  lemma FireAlone(s: State, id: int)
    requires Alone(s, id) && s.table[id].time + s.table[id].delay <= DEFAULT_NEXT_EXECUTION_TIME
    ensures var c := s.table[id];
      var later := map[id := c.(time := c.time + c.delay)];
      Run(s, Firing(s)) == Some(s.(table := later))
  {
    var c := s.table[id];
    var later := s.table[id := c.(time := c.time + c.delay)];
    var p := Popped(s);
    assert Firing(s) == [Pop, Finish] && Firing(s)[1..] == [Finish] && [Finish][1..] == [];
    assert Next(s, Pop) == Some(p);
    assert Insert(later, [], id) == [id];
    assert Next(p, Finish) == Some(s.(table := later));
    assert later == map[id := c.(time := c.time + c.delay)];
  }

  lemma {:induction false} StaysDue(s: State, id: int, n: nat)
    requires Alone(s, id) && s.table[id].delay <= 0 && s.next <= DEFAULT_NEXT_EXECUTION_TIME
    ensures FiredTimes(s, n).Some? ==> Due(FiredTimes(s, n).value)
    decreases n
  {
    if n > 0 {
      FireAlone(s, id);
      StaysDue(Run(s, Firing(s)).value, id, n - 1);
    }
  }

  /** Its round ends if and only if its delay is positive. */
  lemma PeriodicRoundEndsExactly(s: State, id: int)
    requires Alone(s, id) && s.table[id].time == s.next <= DEFAULT_NEXT_EXECUTION_TIME
    requires s.table[id].time + s.table[id].delay <= DEFAULT_NEXT_EXECUTION_TIME
    ensures RoundEnds(s) <==> s.table[id].delay > 0
  {
    if s.table[id].delay > 0 {
      FireAlone(s, id);
      var r := Run(s, Firing(s)).value;
      assert FiredTimes(r, 0) == Some(r);
      assert FiredTimes(s, 1) == Some(r);
    } else {
      forall n: nat | FiredTimes(s, n).Some? ensures Due(FiredTimes(s, n).value) {
        StaysDue(s, id, n);
      }
    }
  }

  /** Without any delay a round stands still: after firing, the state is the one before. */
  lemma NoDelayStandsStill(s: State, id: int)
    requires Alone(s, id) && s.table[id].delay == 0 && s.table[id].time <= DEFAULT_NEXT_EXECUTION_TIME
    ensures Run(s, Firing(s)) == Some(s)
  {
    FireAlone(s, id);
    assert s.table == map[id := s.table[id]];
  }
}
