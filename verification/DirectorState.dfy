/**
 The Director as a state machine. One step is one call that the Director handles
 (schedule, clear, change a priority) or one move of its execution loop (start a round,
 take the front callback, put it back or drop it, end the round).
 */
module DirectorState {
  import opened Wrappers
  import opened CallbackQueue
  import opened Sequences

  /** LLONG_MAX: the next execution time when nothing is queued. */
  const DEFAULT_NEXT_EXECUTION_TIME: int := 0x7fff_ffff_ffff_ffff

  datatype State = State(
    table: Table,
    queue: seq<int>,
    nextId: int,
    now: int,              // the logical clock
    next: int,             // when the next round is due
    inRound: bool,
    running: Option<int>)  // the callback whose body is being run

  datatype Step =
    | Act(action: Action)
    | Begin
    | Pop
    | Finish
    | End(canceled: bool)

  // ----- what each call does -----

  function Scheduled(s: State, body: seq<Action>, delay: int, periodic: bool, priority: int): State
  {
    var time := s.now + delay;
    var table := s.table[s.nextId := Callback(body, delay, periodic, priority, time)];
    s.(table := table,
       queue := Insert(table, s.queue, s.nextId),
       nextId := s.nextId + 1,
       next := if s.next > time then time else s.next)
  }

  /** The queue and table without `id`; the reset that may follow is not part of this. */
  function Removed(s: State, id: int): State
  {
    s.(table := s.table - {id}, queue := Remove(s.queue, id))
  }

  predicate NeedsReset(s: State)
  {
    s.queue == [] || s.table == map[]
  }

  function Reset(s: State, clock: int): State
  {
    s.(table := map[], queue := [], nextId := 0, now := clock, next := DEFAULT_NEXT_EXECUTION_TIME)
  }

  function Cleared(s: State, id: int, clock: int): State
  {
    var r := Removed(s, id);
    if NeedsReset(r) then Reset(r, clock) else r
  }

  function Reprioritised(s: State, oldPriority: int, newPriority: int): State
  {
    var table := Renamed(s.table, oldPriority, newPriority);
    s.(table := table, queue := Resort(table, s.queue))
  }

  function NextQueuedTime(s: State): int
  {
    if s.queue == [] then DEFAULT_NEXT_EXECUTION_TIME
    else if s.queue[0] in s.table then s.table[s.queue[0]].time
    else DEFAULT_NEXT_EXECUTION_TIME
  }

  predicate Due(s: State)
  {
    s.queue != [] && NextQueuedTime(s) <= s.next
  }

  function Popped(s: State): State
    requires s.queue != []
  {
    s.(queue := s.queue[1..], running := Some(s.queue[0]))
  }

  /** After the body: a periodic callback goes back in the queue, any other is dropped. */
  function Finished(s: State, id: int): State
  {
    var r := s.(running := None);
    if id !in s.table then r
    else if s.table[id].periodic then
      var table := s.table[id := s.table[id].(time := s.table[id].time + s.table[id].delay)];
      r.(table := table, queue := Insert(table, s.queue, id))
    else r.(table := s.table - {id})
  }

  // ----- the steps -----

  /**
   A call made between two resets. There is no next state when the call would reset the
   Director, or when the due time would overflow a long long.
   */
  function Perform(s: State, a: Action): Option<State>
  {
    match a
    case Schedule(body, delay, periodic, priority) =>
      if s.now + delay > DEFAULT_NEXT_EXECUTION_TIME then None
      else Some(Scheduled(s, body, delay, periodic, priority))
    case Clear(id) =>
      if NeedsReset(Removed(s, id)) then None else Some(Removed(s, id))
    case Reprioritise(oldPriority, newPriority) =>
      Some(Reprioritised(s, oldPriority, newPriority))
  }

  function Next(s: State, step: Step): Option<State>
  {
    match step
    case Act(a) => Perform(s, a)
    case Begin =>
      if s.inRound || NeedsReset(s) then None else Some(s.(now := s.next, inRound := true))
    case Pop =>
      if s.inRound && s.running.None? && Due(s) then Some(Popped(s)) else None
    case Finish =>
      if s.running.None? then None
      else if s.running.value in s.table && s.table[s.running.value].periodic
              && s.table[s.running.value].time + s.table[s.running.value].delay > DEFAULT_NEXT_EXECUTION_TIME
      then None
      else Some(Finished(s, s.running.value))
    case End(canceled) =>
      if s.inRound && s.running.None? && !Due(s)
      then Some(s.(inRound := false, next := if canceled then s.next else NextQueuedTime(s)))
      else None
  }

  // ----- what every step keeps -----

  /** The queue agrees with the table: it is sorted and holds every id but the running one. */
  ghost predicate Valid(s: State)
  {
    && Sorted(s.table, s.queue)
    && (forall id :: id in s.queue <==> id in s.table && s.running != Some(id))
    && (forall id :: id in s.table ==> 0 <= id < s.nextId)
    && 0 <= s.nextId
    && (s.running.Some? ==> s.inRound && 0 <= s.running.value < s.nextId)
  }

  /** Delays are not negative, and a periodic callback waits. */
  predicate WellTimed(a: Action)
  {
    a.Schedule? ==> a.delay >= 0 && (a.periodic ==> a.delay > 0) && WellTimedBody(a.body)
  }

  predicate WellTimedBody(body: seq<Action>)
  {
    forall i :: 0 <= i < |body| ==> WellTimed(body[i])
  }

  /** No queued time lies before the next round, nor the next round before the logical clock. */
  ghost predicate Clocked(s: State)
  {
    && s.now <= s.next <= DEFAULT_NEXT_EXECUTION_TIME
    && (s.inRound ==> s.now == s.next)
    && (forall id :: id in s.table ==> s.next <= s.table[id].time <= DEFAULT_NEXT_EXECUTION_TIME)
    && (forall id :: id in s.table && s.running == Some(id) ==> s.table[id].time == s.now)
    && (forall id :: id in s.table && s.table[id].periodic ==> s.table[id].delay > 0)
    && (forall id :: id in s.table ==> WellTimedBody(s.table[id].body))
  }

  lemma ScheduledKeepsValid(s: State, body: seq<Action>, delay: int, periodic: bool, priority: int)
    requires Valid(s)
    ensures Valid(Scheduled(s, body, delay, periodic, priority))
  {
    var r := Scheduled(s, body, delay, periodic, priority);
    assert s.nextId !in s.queue;
    SortedUnder(s.table, r.table, s.queue);
    InsertSorted(r.table, s.queue, s.nextId);
    InsertMembers(r.table, s.queue, s.nextId);
  }

  /** The order of a queue depends only on the times and priorities of its own entries. */
  lemma SortedUnder(t: Table, u: Table, q: seq<int>)
    requires Sorted(t, q)
    requires forall id :: id in q ==> id in t && id in u && t[id].time == u[id].time && t[id].priority == u[id].priority
    ensures Sorted(u, q)
  {
    forall i, j | 0 <= i < j < |q| ensures Before(u, q[i], q[j]) {
      assert Before(t, q[i], q[j]) && q[i] in q && q[j] in q;
    }
  }

  /**
   What a call of ScheduleCallback stores: under the next id exactly what was asked for, due
   `delay` after the logical time; everything else stays as it was.
   */
  lemma ScheduleStores(s: State, body: seq<Action>, delay: int, periodic: bool, priority: int)
    requires Valid(s) && Next(s, Act(Schedule(body, delay, periodic, priority))).Some?
    ensures var r := Next(s, Act(Schedule(body, delay, periodic, priority))).value;
      && s.nextId !in s.table && r.nextId == s.nextId + 1 && r.now == s.now
      && r.table.Keys == s.table.Keys + {s.nextId} && r.table[s.nextId] == Callback(body, delay, periodic, priority, s.now + delay)
      && (forall id :: id in s.table ==> r.table[id] == s.table[id])
      && (forall id :: id in r.queue <==> id in s.queue || id == s.nextId)
      && (r.next == s.next || r.next == s.now + delay) && r.next <= s.next && r.next <= s.now + delay
  {
    InsertMembers(Scheduled(s, body, delay, periodic, priority).table, s.queue, s.nextId);
  }

  lemma RemovedKeepsValid(s: State, id: int)
    requires Valid(s)
    ensures Valid(Removed(s, id))
  {
    RemoveKeeps(s.table, s.queue, id);
    SortedUnder(s.table, s.table - {id}, Remove(s.queue, id));
  }

  lemma ReprioritisedKeepsValid(s: State, oldPriority: int, newPriority: int)
    requires Valid(s)
    ensures Valid(Reprioritised(s, oldPriority, newPriority))
  {
    var table := Renamed(s.table, oldPriority, newPriority);
    forall i, j | 0 <= i < j < |s.queue| ensures s.queue[i] != s.queue[j] {
      assert Before(s.table, s.queue[i], s.queue[j]);
    }
    ResortSorted(table, s.queue);
    ResortMembers(table, s.queue);
  }

  lemma PoppedKeepsValid(s: State)
    requires Valid(s) && s.queue != [] && s.inRound && s.running.None?
    ensures Valid(Popped(s))
  {
    var front := s.queue[0];
    assert front in s.queue;
    forall x ensures x in s.queue[1..] <==> x in s.queue && x != front {
      TailMember(s.table, s.queue, x);
    }
  }

  lemma FinishedKeepsValid(s: State)
    requires Valid(s) && s.running.Some?
    ensures Valid(Finished(s, s.running.value))
  {
    var id := s.running.value;
    var r := Finished(s, id);
    assert id !in s.queue;
    if id in s.table {
      SortedUnder(s.table, r.table, s.queue);
      if s.table[id].periodic {
        InsertSorted(r.table, s.queue, id);
        InsertMembers(r.table, s.queue, id);
      }
    }
  }

  lemma NextKeepsValid(s: State, step: Step)
    requires Valid(s) && Next(s, step).Some?
    ensures Valid(Next(s, step).value)
  {
    match step
    case Act(Schedule(body, delay, periodic, priority)) => ScheduledKeepsValid(s, body, delay, periodic, priority);
    case Act(Clear(id)) => RemovedKeepsValid(s, id);
    case Act(Reprioritise(o, n)) => ReprioritisedKeepsValid(s, o, n);
    case Begin =>
    case Pop => PoppedKeepsValid(s);
    case Finish => FinishedKeepsValid(s);
    case End(_) =>
  }

  /** What a step makes of priority `p`. */
  function PriorityAfter(step: Step, p: int): int
  {
    if step.Act? && step.action.Reprioritise? && step.action.oldPriority == p then step.action.newPriority else p
  }

  lemma StaysInTable(s: State, step: Step, id: int)
    requires Valid(s) && id in s.queue && Next(s, step).Some?
    requires step != Act(Clear(id)) && !(step.Pop? && s.queue[0] == id)
    ensures id in s.table
    ensures var r := Next(s, step).value;
      && id in r.table && r.running != Some(id) && r.table[id].time == s.table[id].time
      && r.table[id].priority == PriorityAfter(step, s.table[id].priority)
  {
    match step
    case Act(_) =>
    case Begin =>
    case Pop =>
    case Finish =>
    case End(_) =>
  }

  /** A queued callback stays queued, with its due time, unless it is cleared or taken. */
  lemma StaysQueued(s: State, step: Step, id: int)
    requires Valid(s) && id in s.queue && Next(s, step).Some?
    requires step != Act(Clear(id)) && !(step.Pop? && s.queue[0] == id)
    ensures id in s.table
    ensures var r := Next(s, step).value;
      && Valid(r) && id in r.queue && id in r.table && r.table[id].time == s.table[id].time
      && r.table[id].priority == PriorityAfter(step, s.table[id].priority)
  {
    NextKeepsValid(s, step);
    StaysInTable(s, step, id);
  }

  lemma NextQueuedTimeIsLeast(s: State)
    requires Valid(s)
    ensures forall id :: id in s.queue ==> s.queue != [] && NextQueuedTime(s) <= s.table[id].time
    ensures s.queue != [] ==> s.queue[0] in s.table && NextQueuedTime(s) == s.table[s.queue[0]].time
  {
    forall id | id in s.queue ensures NextQueuedTime(s) <= s.table[id].time {
      FrontIsLeast(s.table, s.queue, id);
    }
  }

  lemma ScheduledKeepsClock(s: State, body: seq<Action>, delay: nat, periodic: bool, priority: int)
    requires Valid(s) && Clocked(s) && WellTimedBody(body) && (periodic ==> delay > 0)
    requires s.now + delay <= DEFAULT_NEXT_EXECUTION_TIME
    ensures Clocked(Scheduled(s, body, delay, periodic, priority))
  {
  }

  lemma FinishedKeepsClock(s: State)
    requires Valid(s) && Clocked(s) && Next(s, Finish).Some?
    ensures Clocked(Next(s, Finish).value)
  {
    var id := s.running.value;
    if id in s.table && s.table[id].periodic {
      assert s.table[id].time == s.now;
    }
  }

  lemma EndedKeepsClock(s: State, canceled: bool)
    requires Valid(s) && Clocked(s) && Next(s, End(canceled)).Some?
    ensures Clocked(Next(s, End(canceled)).value)
  {
    NextQueuedTimeIsLeast(s);
    if s.queue != [] {
      var front := s.queue[0];
      assert s.table[front].time <= DEFAULT_NEXT_EXECUTION_TIME;
    }
    forall id | id in s.table ensures NextQueuedTime(s) <= s.table[id].time {
      assert id in s.queue;
    }
  }

  lemma NextKeepsClock(s: State, step: Step)
    requires Valid(s) && Clocked(s) && Next(s, step).Some?
    requires step.Act? ==> WellTimed(step.action)
    ensures Clocked(Next(s, step).value)
    ensures s.now <= Next(s, step).value.now
  {
    match step
    case Act(Schedule(body, delay, periodic, priority)) => ScheduledKeepsClock(s, body, delay, periodic, priority);
    case Act(Clear(_)) =>
    case Act(Reprioritise(_, _)) =>
    case Begin =>
    case Pop => PoppedKeepsClock(s);
    case Finish => FinishedKeepsClock(s);
    case End(canceled) => EndedKeepsClock(s, canceled);
  }

  lemma PoppedKeepsClock(s: State)
    requires Valid(s) && Clocked(s) && Next(s, Pop).Some?
    ensures Clocked(Popped(s))
  {
    NextQueuedTimeIsLeast(s);
  }

  /** Scheduling keeps the clock in order exactly when the delay is not negative. */
  lemma ScheduleKeepsClockExactly(s: State, body: seq<Action>, delay: int, periodic: bool, priority: int)
    requires Valid(s) && Clocked(s)
    requires WellTimedBody(body) && (periodic ==> delay > 0)
    requires s.now + delay <= DEFAULT_NEXT_EXECUTION_TIME
    ensures Clocked(Scheduled(s, body, delay, periodic, priority)) <==> delay >= 0
  {
    var r := Scheduled(s, body, delay, periodic, priority);
    assert s.nextId in r.table;
  }

  /** The popped callback is the least of all queued ones and is due exactly now. */
  lemma PopTakesLeastDueNow(s: State)
    requires Valid(s) && Clocked(s) && Next(s, Pop).Some?
    ensures var id := Popped(s).running.value;
      && id in s.table && s.table[id].time == s.now
      && (forall x :: x in s.table && x != id ==> Before(s.table, id, x))
  {
    NextQueuedTimeIsLeast(s);
    var id := s.queue[0];
    forall x | x in s.table && x != id ensures Before(s.table, id, x) {
      assert x in s.queue;
      FrontIsLeast(s.table, s.queue, x);
    }
  }
}
