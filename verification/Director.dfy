/** The Director as an object whose methods update its fields in place. */
module Directors {
  import opened Wrappers
  import opened CallbackQueue
  import opened Sequences
  import opened DirectorState
  import opened DirectorRuns
  import opened DirectorRounds
  import opened Sets

  class Director {
    var nextCallbackId: int
    var scheduledCallbacks: Table
    var callbackQueue: seq<int>
    var currentLogicalTime: int
    var nextScheduledExecutionTime: int
    ghost var inRound: bool
    ghost var running: Option<int>
    ghost var executed: seq<Execution>  // every body run so far

    ghost function View(): State
      reads this
    {
      State(scheduledCallbacks, callbackQueue, nextCallbackId, currentLogicalTime,
            nextScheduledExecutionTime, inRound, running)
    }

    constructor (clock: int)
      ensures View() == State(map[], [], 0, clock, DEFAULT_NEXT_EXECUTION_TIME, false, None)
      ensures Valid(View()) && executed == []
    {
      nextCallbackId, scheduledCallbacks, callbackQueue := 0, map[], [];
      currentLogicalTime, nextScheduledExecutionTime := clock, DEFAULT_NEXT_EXECUTION_TIME;
      inRound, running, executed := false, None, [];
    }

    method ScheduleCallback(body: seq<Action>, delay: int, periodic: bool, priority: int) returns (id: int)
      requires Valid(View())
      modifies this
      ensures View() == Scheduled(old(View()), body, delay, periodic, priority) && Valid(View())
      ensures id == old(nextCallbackId) && executed == old(executed)
      // under the id stands what was asked for, and nothing else has changed
      ensures scheduledCallbacks.Keys == old(scheduledCallbacks).Keys + {id} && nextCallbackId == id + 1
      ensures scheduledCallbacks[id] == Callback(body, delay, periodic, priority, old(currentLogicalTime) + delay)
      ensures forall x :: x in old(scheduledCallbacks) ==> scheduledCallbacks[x] == old(scheduledCallbacks)[x]
      ensures currentLogicalTime == old(currentLogicalTime)
      ensures nextScheduledExecutionTime <= old(currentLogicalTime) + delay
      ensures nextScheduledExecutionTime == old(nextScheduledExecutionTime)
        || nextScheduledExecutionTime == old(currentLogicalTime) + delay < old(nextScheduledExecutionTime)
    {
      ScheduledKeepsValid(View(), body, delay, periodic, priority);
      var time := currentLogicalTime + delay;
      id := nextCallbackId;
      nextCallbackId := nextCallbackId + 1;
      ghost var before := scheduledCallbacks;
      scheduledCallbacks := scheduledCallbacks[id := Callback(body, delay, periodic, priority, time)];
      SortedUnder(before, scheduledCallbacks, callbackQueue);
      QueueScheduledCallback(id);
      if nextScheduledExecutionTime > time {
        nextScheduledExecutionTime := time;
      }
    }

    method QueueScheduledCallback(id: int)
      requires Sorted(scheduledCallbacks, callbackQueue)
      requires id in scheduledCallbacks && id !in callbackQueue
      modifies this`callbackQueue
      ensures callbackQueue == Insert(scheduledCallbacks, old(callbackQueue), id)
      ensures Sorted(scheduledCallbacks, callbackQueue)
    {
      InsertSorted(scheduledCallbacks, callbackQueue, id);
      if callbackQueue == [] {
        callbackQueue := [id];
        return;
      }
      var t, queueing := scheduledCallbacks, scheduledCallbacks[id];
      var k := 0;
      while k < |callbackQueue|
        invariant 0 <= k <= |callbackQueue|
        invariant forall i :: 0 <= i < k ==> Before(t, callbackQueue[i], id)
      {
        var queuedId := callbackQueue[k];
        assert queuedId in callbackQueue;
        var queued := t[queuedId];
        if queueing.time < queued.time {
          break;
        } else if queueing.time > queued.time {
          k := k + 1;
        } else if queueing.priority < queued.priority {
          break;
        } else if queueing.priority > queued.priority {
          k := k + 1;
        } else if id < queuedId {
          break;
        } else {
          k := k + 1;
        }
      }
      InsertAt(t, callbackQueue, id, k);
      callbackQueue := callbackQueue[..k] + [id] + callbackQueue[k..];
    }

    /** Erase the first entry `id` of the queue, if there is one. */
    method EraseFromQueue(id: int) returns (found: bool)
      modifies this`callbackQueue
      ensures callbackQueue == Remove(old(callbackQueue), id)
      ensures found <==> id in old(callbackQueue)
    {
      for k := 0 to |callbackQueue|
        invariant callbackQueue == old(callbackQueue)
        invariant id !in callbackQueue[..k]
      {
        if callbackQueue[k] == id {
          RemoveAt(callbackQueue, k);
          callbackQueue := callbackQueue[..k] + callbackQueue[k + 1..];
          return true;
        }
      }
      assert callbackQueue[..|callbackQueue|] == callbackQueue;
      RemoveAbsent(callbackQueue, id);
      return false;
    }

    method ClearScheduledCallback(id: int, clock: int)
      requires Valid(View())
      modifies this
      ensures View() == Cleared(old(View()), id, clock) && executed == old(executed)
    {
      var _ := EraseFromQueue(id);
      scheduledCallbacks := scheduledCallbacks - {id};
      if callbackQueue == [] || scheduledCallbacks == map[] {
        ResetAll(clock);
      }
    }

    method ResetAll(clock: int)
      modifies this
      ensures View() == Reset(old(View()), clock) && executed == old(executed)
    {
      callbackQueue, scheduledCallbacks, nextCallbackId := [], map[], 0;
      currentLogicalTime, nextScheduledExecutionTime := clock, DEFAULT_NEXT_EXECUTION_TIME;
    }

    /**
     Re-sorts the queue while it walks the table. The order of the walk does not matter:
     the queue that results is a function of the table.
     */
    method HandlePriorityUpdate(oldPriority: int, newPriority: int)
      requires Valid(View())
      modifies this
      ensures View() == Reprioritised(old(View()), oldPriority, newPriority) && executed == old(executed)
      ensures Valid(View())
    {
      ghost var s := View();
      var remaining: set<int> := scheduledCallbacks.Keys;
      while remaining != {}
        invariant HalfRenamed(s, oldPriority, newPriority, remaining, scheduledCallbacks, callbackQueue)
        invariant View() == s.(table := scheduledCallbacks, queue := callbackQueue) && executed == old(executed)
        decreases remaining
      {
        HasMember(remaining);
        ghost var before := remaining;
        var i :| i in remaining;
        remaining := remaining - {i};
        assert remaining + {i} == before;
        ghost var t, q := scheduledCallbacks, callbackQueue;
        RenameOne(i, oldPriority, newPriority);
        OneMoreRenamed(s, oldPriority, newPriority, remaining, i, t, q, scheduledCallbacks, callbackQueue);
      }
      AllRenamed(s, oldPriority, newPriority, scheduledCallbacks, callbackQueue);
    }

    /** All callbacks but the `remaining` ones have their new priority, and the queue follows. */
    ghost predicate HalfRenamed(s: State, oldPriority: int, newPriority: int, remaining: set<int>, t: Table, q: seq<int>)
    {
      && remaining <= s.table.Keys == t.Keys
      && (forall i :: i in s.table ==>
            t[i] == if i in remaining then s.table[i] else Renamed(s.table, oldPriority, newPriority)[i])
      && Sorted(t, q) && (forall i :: i in q <==> i in s.queue)
    }

    lemma OneMoreRenamed(
        s: State, oldPriority: int, newPriority: int, remaining: set<int>, id: int, t: Table, q: seq<int>, u: Table, r: seq<int>)
      requires HalfRenamed(s, oldPriority, newPriority, remaining + {id}, t, q) && id !in remaining
      requires id in t && u == t[id := Renamed(t, oldPriority, newPriority)[id]]
      requires Sorted(u, r) && forall i :: i in r <==> i in q
      ensures HalfRenamed(s, oldPriority, newPriority, remaining, u, r)
    {
    }

    /** A sorted queue over the renamed table is the one that Reprioritised describes. */
    lemma AllRenamed(s: State, oldPriority: int, newPriority: int, t: Table, q: seq<int>)
      requires Valid(s) && HalfRenamed(s, oldPriority, newPriority, {}, t, q)
      ensures s.(table := t, queue := q) == Reprioritised(s, oldPriority, newPriority)
      ensures Valid(Reprioritised(s, oldPriority, newPriority))
    {
      var r := Reprioritised(s, oldPriority, newPriority);
      assert forall i :: i in t ==> t[i] == r.table[i];
      assert t == r.table;
      ReprioritisedKeepsValid(s, oldPriority, newPriority);
      ResortMembers(t, s.queue);
      SortedIsUnique(t, q, r.queue);
    }

    method RenameOne(id: int, oldPriority: int, newPriority: int)
      requires Sorted(scheduledCallbacks, callbackQueue) && id in scheduledCallbacks
      modifies this`scheduledCallbacks, this`callbackQueue
      ensures scheduledCallbacks == old(scheduledCallbacks)[id := Renamed(old(scheduledCallbacks), oldPriority, newPriority)[id]]
      ensures Sorted(scheduledCallbacks, callbackQueue)
      ensures forall x :: x in callbackQueue <==> x in old(callbackQueue)
      ensures View() == old(View()).(table := scheduledCallbacks, queue := callbackQueue) && executed == old(executed)
    {
      if scheduledCallbacks[id].priority == oldPriority {
        ChangePriority(id, newPriority);
      }
    }

    /** One callback gets a new priority; if it is queued, it is queued again. */
    method ChangePriority(id: int, newPriority: int)
      requires Sorted(scheduledCallbacks, callbackQueue) && id in scheduledCallbacks
      modifies this`scheduledCallbacks, this`callbackQueue
      ensures scheduledCallbacks == old(scheduledCallbacks[id := scheduledCallbacks[id].(priority := newPriority)])
      ensures Sorted(scheduledCallbacks, callbackQueue)
      ensures forall x :: x in callbackQueue <==> x in old(callbackQueue)
    {
      ghost var t, q := scheduledCallbacks, callbackQueue;
      scheduledCallbacks := scheduledCallbacks[id := scheduledCallbacks[id].(priority := newPriority)];
      RankedAnew(t, scheduledCallbacks, q, id);
      var found := EraseFromQueue(id);
      if found {
        QueueScheduledCallback(id);
      }
    }

    /** Changing the rank of one callback and queueing it again keeps the queue sorted. */
    lemma RankedAnew(t: Table, u: Table, q: seq<int>, id: int)
      requires Sorted(t, q) && id in t && id in u && u == t[id := u[id]]
      ensures Sorted(u, Remove(q, id)) && id !in Remove(q, id)
      ensures forall x :: x in Insert(u, Remove(q, id), id) <==> x in q || x == id
      ensures id !in q ==> Remove(q, id) == q
    {
      RemoveKeeps(t, q, id);
      SortedUnder(t, u, Remove(q, id));
      InsertMembers(u, Remove(q, id), id);
      if id !in q {
        RemoveAbsent(q, id);
      }
    }

    /** The least due time of the queued callbacks, or the default when none is queued. */
    function GetNextQueuedExecutionTime(): (time: int)
      requires Valid(View())
      reads this
      ensures callbackQueue == [] ==> time == DEFAULT_NEXT_EXECUTION_TIME
      ensures callbackQueue != [] ==> callbackQueue[0] in callbackQueue && time == scheduledCallbacks[callbackQueue[0]].time
      ensures forall id :: id in callbackQueue ==> time <= scheduledCallbacks[id].time
      ensures time == NextQueuedTime(View())
    {
      if callbackQueue == [] then DEFAULT_NEXT_EXECUTION_TIME
      else
        FrontIsInTable(View());
        NextQueuedTimeIsLeast(View());
        scheduledCallbacks[callbackQueue[0]].time
    }

    /** A callback body: its calls on the Director, one after another. */
    method RunBody(body: seq<Action>, clock: int)
      requires Valid(View()) && Run(View(), ToSteps(body)).Some?
      modifies this
      ensures View() == Run(old(View()), ToSteps(body)).value && Valid(View()) && executed == old(executed)
    {
      ghost var s := View();
      var k := 0;
      while k < |body|
        invariant 0 <= k <= |body| && executed == old(executed)
        invariant Valid(View()) && Run(View(), ToSteps(body[k..])) == Run(s, ToSteps(body))
      {
        ghost var m := View();
        assert ToSteps(body[k..])[1..] == ToSteps(body[k..][1..]) && body[k..][1..] == body[k + 1..];
        assert Perform(m, body[k]).Some?;
        Call(body[k], clock);
        k := k + 1;
      }
    }

    method Call(action: Action, clock: int)
      requires Valid(View()) && Perform(View(), action).Some?
      modifies this
      ensures Some(View()) == Perform(old(View()), action) && Valid(View()) && executed == old(executed)
    {
      NextKeepsValid(View(), Act(action));
      match action {
        case Schedule(body, delay, periodic, priority) =>
          var _ := ScheduleCallback(body, delay, periodic, priority);
        case Clear(id) =>
          ClearScheduledCallback(id, clock);
        case Reprioritise(oldPriority, newPriority) =>
          HandlePriorityUpdate(oldPriority, newPriority);
      }
    }

    /** One pass of the loop in ExecuteCallbacks. */
    method FireFront(clock: int)
      requires Ready(View()) && running.None? && Due(View()) && Fire(View()).Some?
      modifies this
      ensures Some(View()) == Fire(old(View()))
      ensures executed == old(executed) + Trace(old(View()), Firing(old(View())))
    {
      ghost var s := View();
      FireParts(s);
      FireTrace(s);
      NextKeepsValid(s, Pop);
      var id := callbackQueue[0];
      executed := executed + [Execution(currentLogicalTime, scheduledCallbacks[id].priority, id)];
      callbackQueue, running := callbackQueue[1..], Some(id);
      RunBody(scheduledCallbacks[id].body, clock);
      BodySpendsRunning(s);
      RescheduleOrDrop(id);
    }

    /** A callback that did not clear itself is queued again if it is periodic, and dropped if not. */
    method RescheduleOrDrop(id: int)
      requires Valid(View()) && running == Some(id)
      modifies this
      ensures View() == Finished(old(View()), id) && executed == old(executed)
    {
      running := None;
      if id in scheduledCallbacks {
        var c := scheduledCallbacks[id];
        if c.periodic {
          ghost var t := scheduledCallbacks;
          scheduledCallbacks := scheduledCallbacks[id := c.(time := c.time + c.delay)];
          SortedUnder(t, scheduledCallbacks, callbackQueue);
          QueueScheduledCallback(id);
        } else {
          scheduledCallbacks := scheduledCallbacks - {id};
        }
      }
    }

    lemma BodySpendsRunning(s: State)
      requires Ready(s) && s.running.None? && Due(s) && Fire(s).Some?
      ensures s.queue[0] in s.table && Run(Popped(s), ToSteps(s.table[s.queue[0]].body)).Some?
      ensures var m := Run(Popped(s), ToSteps(s.table[s.queue[0]].body)).value;
        m.running == Some(s.queue[0]) && Valid(m)
    {
      FireParts(s);
      NextKeepsValid(s, Pop);
      NextKeepsClock(s, Pop);
      BodySpends(Popped(s), s.table[s.queue[0]].body);
    }

    /** One round, provided that no body in it makes the Director reset. */
    method ExecuteCallbacks(clock: int)
      requires Idle(View()) && !NeedsReset(View())
      requires Run(View(), Pass(View())).Some?
      modifies this
      ensures Some(View()) == Run(old(View()), BeginAndRound(old(View())))
      ensures executed == old(executed) + Trace(old(View()), BeginAndRound(old(View())))
    {
      ghost var s := View();
      BeginIsReady(s);
      currentLogicalTime, inRound := nextScheduledExecutionTime, true;
      ghost var b := View();
      assert Pass(s)[1..] == RoundSteps(b) + [End(false)];
      RunPrefix(b, RoundSteps(b), [End(false)]);
      assert BeginAndRound(s)[1..] == RoundSteps(b);
      assert Trace(s, BeginAndRound(s)) == Trace(b, RoundSteps(b));
      FireWhileDue(clock);
    }

    /** The loop of ExecuteCallbacks. */
    method FireWhileDue(clock: int)
      requires Ready(View()) && running.None? && Run(View(), RoundSteps(View())).Some?
      modifies this
      ensures Some(View()) == Run(old(View()), RoundSteps(old(View())))
      ensures executed == old(executed) + Trace(old(View()), RoundSteps(old(View())))
    {
      ghost var b, all := View(), executed + Trace(View(), RoundSteps(View()));
      while callbackQueue != [] && GetNextQueuedExecutionTime() <= nextScheduledExecutionTime
        invariant Ready(View()) && running.None?
        invariant Run(View(), RoundSteps(View())).Some? && Run(View(), RoundSteps(View())) == Run(b, RoundSteps(b))
        invariant executed + Trace(View(), RoundSteps(View())) == all
        decreases Left(View())
      {
        RoundUnfolds(View(), executed);
        FireSpends(View());
        FireFront(clock);
      }
      assert RoundSteps(View()) == [];
    }

    ghost function BeginAndRound(s: State): seq<Step>
      requires Idle(s) && !NeedsReset(s)
    {
      BeginIsReady(s);
      [Begin] + RoundSteps(Next(s, Begin).value)
    }

    lemma RoundUnfolds(m: State, done: seq<Execution>)
      requires Ready(m) && m.running.None? && Due(m) && Run(m, RoundSteps(m)).Some?
      ensures Fire(m).Some?
      ensures var r := Fire(m).value;
        && Ready(r) && r.running.None?
        && Run(m, RoundSteps(m)) == Run(r, RoundSteps(r))
        && done + Trace(m, RoundSteps(m)) == (done + Trace(m, Firing(m))) + Trace(r, RoundSteps(r))
    {
      FrontIsInTable(m);
      if Fire(m).Some? {
        FireSpends(m);
        RunConcat(m, Firing(m), RoundSteps(Fire(m).value));
      }
    }

    /**
     The execution thread: rounds while they are due, against a clock that it keeps reading.
     When nothing is left it resets the Director, at the time that `clock` then shows.
     */
    method ExecuteInternal(clocks: seq<int>, clock: int)
      requires Idle(View()) && Uncut(View(), clocks) && clock <= DEFAULT_NEXT_EXECUTION_TIME
      modifies this
      ensures executed == old(executed) + Drive(old(View()), clocks)
      ensures Idle(View())
      ensures NeedsReset(View()) ==> View() == State(map[], [], 0, clock, DEFAULT_NEXT_EXECUTION_TIME, false, None)
    {
      RunWhileDue(clocks);
      if callbackQueue == [] || scheduledCallbacks == map[] {
        ResetAll(clock);
      }
    }

    /** The loop of ExecuteInternal. */
    method RunWhileDue(clocks: seq<int>)
      requires Idle(View()) && Uncut(View(), clocks)
      modifies this
      ensures executed == old(executed) + Drive(old(View()), clocks)
      ensures Idle(View())
    {
      ghost var all := executed + Drive(View(), clocks);
      var k := 0;
      while k < |clocks| && !(callbackQueue == [] || scheduledCallbacks == map[])
        invariant 0 <= k <= |clocks|
        invariant Idle(View()) && Uncut(View(), clocks[k..])
        invariant executed + Drive(View(), clocks[k..]) == all
      {
        assert clocks[k..][1..] == clocks[k + 1..];
        if nextScheduledExecutionTime <= clocks[k] {
          RunRound(clocks[k]);
        }
        k := k + 1;
      }
    }

    /** One pass of the loop in ExecuteInternal: a round and the choice of the next due time. */
    method RunRound(clock: int)
      requires Idle(View()) && !NeedsReset(View()) && Run(View(), Pass(View())).Some?
      modifies this
      ensures Idle(View()) && Some(View()) == Run(old(View()), Pass(old(View())))
      ensures NextIsLeast(View()) && (callbackQueue != [] ==> nextScheduledExecutionTime > old(nextScheduledExecutionTime))
      ensures executed == old(executed) + Trace(old(View()), Pass(old(View())))
    {
      ghost var s := View();
      RoundResult(s);
      ExecuteCallbacks(clock);
      EndRound();
    }

    /** The next execution is due with the first queued callback. */
    method EndRound()
      requires Valid(View()) && Next(View(), End(false)).Some?
      modifies this
      ensures Some(View()) == Next(old(View()), End(false)) && executed == old(executed)
    {
      nextScheduledExecutionTime, inRound := GetNextQueuedExecutionTime(), false;
    }

    /** What a pass leaves, seen from the end of its round. */
    lemma RoundResult(s: State)
      requires Idle(s) && !NeedsReset(s) && Run(s, Pass(s)).Some?
      ensures Run(s, BeginAndRound(s)).Some?
      ensures var m := Run(s, BeginAndRound(s)).value;
        Valid(m) && Run(s, Pass(s)) == Next(m, End(false)) && Trace(s, Pass(s)) == Trace(s, BeginAndRound(s))
      ensures var r := Run(s, Pass(s)).value; Idle(r) && NextIsLeast(r) && (r.queue != [] ==> r.next > s.next)
    {
      PassIsIdle(s);
      PassTakesLeast(s);
      PassParts(s);
      BeginAndRoundKeeps(s);
    }

    lemma PassParts(m: State)
      requires Idle(m) && !NeedsReset(m) && Run(m, Pass(m)).Some?
      ensures Run(m, BeginAndRound(m)).Some?
      ensures var r := Run(m, BeginAndRound(m)).value;
        && Run(m, Pass(m)) == Next(r, End(false))
        && Trace(m, Pass(m)) == Trace(m, BeginAndRound(m))
    {
      assert Pass(m) == BeginAndRound(m) + [End(false)];
      RunPrefix(m, BeginAndRound(m), [End(false)]);
      RunConcat(m, BeginAndRound(m), [End(false)]);
      var r := Run(m, BeginAndRound(m)).value;
      assert Run(r, [End(false)]) == Next(r, End(false));
      assert Trace(r, [End(false)]) == [];
    }

    lemma BeginAndRoundKeeps(m: State)
      requires Idle(m) && !NeedsReset(m) && Run(m, BeginAndRound(m)).Some?
      ensures Valid(Run(m, BeginAndRound(m)).value)
    {
      BeginIsReady(m);
      var b := Next(m, Begin).value;
      assert BeginAndRound(m)[1..] == RoundSteps(b);
      RoundLeavesNothingDue(b);
    }
  }
}
