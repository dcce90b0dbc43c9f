# Verified model of the Accessor Framework's execution engine

The Accessor Framework runs a model of accessors (actors with ports, atomic or composite) in
a deterministic way. Three mechanisms make it deterministic, and this project models all
three in Dafny and proves what each one promises, and what the three promise together.

1. **Causality analysis and priorities.** Before a model runs, the host follows the
   connections backwards from every port, refuses the model if a port depends on itself, and
   otherwise gives every port a depth and every accessor a priority value.
2. **The Director.** A discrete-event scheduler with a table of callbacks, a vector of ids
   kept in execution order, and a logical clock.
3. **The reaction protocol.** Events travel through the port hierarchy into input queues.
   Wake-ups climb the accessor tree through one queue per composite. One callback of the host
   drains the whole tree.

## How the project is laid out

| file | what is in it |
|---|---|
| `CallbackQueue`, `DirectorState`, `DirectorRuns`, `DirectorRounds` | the Director as a state machine: the order of callbacks, the steps, whole runs and lives, rounds against any clock |
| `DirectorLimits` | where its promises end: resets in mid-round, periodic callbacks that do not wait |
| `Director` | the Director as a class whose methods change its fields, proved to take exactly those steps |
| `Wiring`, `Ports` | links between ports as a value, and as objects changed in place |
| `Dependencies` | which outputs of an atomic accessor depend on which inputs, and the equivalence classes of inputs |
| `CausalGraph`, `Model`, `DepthSearch` | the depth equations, the host's view of a model, and the memoised search that solves the equations or finds a loop |
| `AccessorOrder`, `Priorities`, `PriorityLaws`, `FeederOrder`, `PriorityRange` | from port depths to priority values, and the laws of those values: causality, when a feeder comes first, the host's value, overflow |
| `Renaming`, `ModelUpdates`, `UpdateExamples` | the calls to the Director that a model update makes, when they rename callbacks as intended, and two updates where they do not |
| `Network`, `UniquePriorityQueue`, `Reaction` | sending, queueing, waking and draining |
| `EventLaws`, `WakeupLaws` | the conservation law of events, and the invariant that no wake-up is lost |
| `Passes`, `Arrivals`, `Requests`, `Handling` | what sending leaves alone in any state; which events come to which ports; at what priority a reaction is requested, and who is queued; what a reaction handles |
| `DrainSteps`, `DrainMachine`, `ArrivalRuns`, `DrainLimits` | the drain as small steps that may throw, and its runs; what ports receive and handle over runs; when some run throws, and what an exception leaves behind |
| `Delivery`, `Acceptance`, `Engine`, `EngineRuns` | the joints: static against dynamic wiring, acceptance by the analysis against termination of the drain, and the Director together with the network |
| `Sequences`, `Sets`, `Wrappers` | small helpers |

Objects that the framework changes in place are classes here (`Director`, `Port`,
`AtomicAccessor`, `DepthSearch`, `Host`, `UniquePriorityQueue`, `Runtime`). Their methods are
proved against functions on values, and the laws are proved about those functions.

Loops over a `std::set` or `std::map` keyed by addresses take an arbitrary remaining element.
What is proved therefore does not depend on addresses.

## Premises

The claims need the premises below. Where a premise guards a real failure, a lemma shows the
failure on a concrete model or state, or an if-and-only-if says exactly when it happens.

- Delays are not negative (`ScheduleKeepsClockExactly`), and a periodic delay is positive. A
  round with a due periodic callback that does not wait never ends, unless that callback is
  cleared or a body makes the Director reset (`PressingNeverEnds`, `PressingUnlessReset`,
  `ResetEndsPressingRound`, `PeriodicRoundEndsExactly`).
- No callback body makes the Director reset in the middle of a round. A body that clears the
  last queued callback does (`ClearInBodyKeepsReadyExactly`). What the body then schedules runs
  at once, before its time (`ScheduledAfterResetRunsEarly`). If a stretch of the body without a
  further reset schedules more callbacks than its own id counts, that id is given out again
  (`ReissuedExactly`), and the check after the body takes the new callback for the old one
  (`ReissuedBreaksAgreement`).
- No due time passes the largest `long long`. A step that would has no next state.
- No connection that is in place is made again. `ValidateConnection` allows it, and
  disconnecting the source port then never ends (`PeelingEndsExactly`,
  `DoubleConnectionNeverDisconnects`).
- Chains of composite ports end. The walk to the source output port ends exactly then
  (`LoopEndsExactly`). Three connections on one composite, none of which is refused, make it
  endless (`FedBackIsEndless`).
- An atomic accessor connects its input ports only to its own output ports. A connection from
  an input to an output that is said not to depend on it is hidden from the loop check. An
  accepted model can be run if and only if no such link leads back to where it starts
  (`AcceptedModelRunsExactly`, `RemovedDependencyHidesCycle`).
- Every composite has a child. In a model of moderate size the priority counter overflows if
  and only if some composite has none (`OverflowExactly`). The host gets its reserved value if
  and only if it holds an atomic accessor somewhere (`HostGetsItsPriorityExactly`). The host of
  `test/src/TestClasses/EmptyHost.h` does not (`EmptyHostIsMisplaced`).
- Events are not null. A null event is never handled, and once at the front it blocks its port
  for good. A port stays usable exactly if none arrived (`NullIsNeverHandled`,
  `NullBlocksPort`, `PortStaysUsableExactly`).
- Every input port that events come to has handlers, and handlers do not throw. Some run
  throws exactly if events come to a port without handlers (`SomeRunThrowsExactly`). An
  exception leaves the request flag set, and no event is ever handled again
  (`ThrownLeavesRequest`, `AbortedDrainIsFinal`). The methods of `Runtime` need no such premise:
  they promise what they do unless an exception leaves them.
- From the request for a reaction to the end of the drain, the tree, the links, the priorities
  and the set of initialised accessors do not change. A model update is a callback of priority
  0, so it may run before a requested drain, and would leave the order in the queues stale.
- The host's own reaction callback is not cleared by anyone else. Clearing any other callback
  keeps the reaction pending, and clearing this one does not (`ClearingLosesDrainExactly`).
  Then no reaction is requested and no event handled any more (`LostDrainIsFinal`).
- `Network` carries two maps that the framework does not have, `rank` and `height`. They
  witness that links form no cycle and that parents form a tree. `AcceptedModelRunsExactly`
  says when the first one exists.

## Where the code and its documentation differ

- `src/AtomicAccessorImpl.h:12-14` calls the priorities a topological sort of the connection
  graph. A feeder always comes first if every output of the fed accessor depends on an input
  deeper than the feeder. If only inputs as deep can be found for some outputs, the order of the
  children decides. Otherwise the feeder never comes first (`FeederRunsFirstExactly`,
  `ChildOrderDecidesExactly`; a model is in `SpontaneousOutputHidesCausality`).
- `src/HostImpl.h:20-21` defines the depth of an input port by its equivalence class, the
  closure that `FindEquivalentPorts` computes. `GetEquivalentPorts` takes a shortcut instead
  if nothing was pruned or there is one input or no output. The shortcut gives the closure
  exactly if there is an output or only one input (`ShortcutIsComponentExactly`). Two inputs of
  an accessor without outputs share nothing, and the code treats them as one class, which the
  model follows (`TwoInputsNoOutput`).
- `src/HostImpl.cpp:227-240` updates callback priorities one accessor after another. The
  intended simultaneous renaming results only under the condition in
  `UpdateReachesCallbacksExactly`. An update that keeps the accessors left in their order and
  makes none of them deeper meets it (`UpdateKeepingOrderIsRight`). A removal need not do so
  (`RemovalRenamesTwice`), nor does the addition of a source in front of an adder that has a
  callback in the table (`AdditionRenamesTwice`).

## Model

| member | source | states |
|---|---|---|
| CallbackQueue.InsertAt | src/Director.cpp:237-296 | the scan's stopping index is the place where insertion in order puts the id |
| CallbackQueue.InsertSorted | src/Director.cpp:229-297 | queueing a new id keeps the vector sorted by due time, then priority, then id |
| CallbackQueue.FrontIsLeast | src/Director.cpp:228-305 | the front of the vector is the least of all queued callbacks |
| CallbackQueue.RemoveKeeps | src/Director.cpp:52-59 | erasing an id removes it and nothing else and keeps the order |
| CallbackQueue.ResortSorted | src/Director.cpp:68-86 | queueing all ids again under changed priorities gives a sorted vector |
| CallbackQueue.SortedIsUnique | src/Director.cpp:228-297 | the vector is a function of the table: two sorted vectors with the same ids are equal |
| DirectorState.NextKeepsValid | src/Director.cpp:29-333 | every step keeps the vector sorted and equal, as a set, to the table's ids without the one being run |
| DirectorState.NextKeepsClock | src/Director.cpp:29-333 | every step keeps logical clock <= next execution time <= every queued time, and never moves the clock back |
| DirectorState.ScheduleStores | src/Director.cpp:35-45 | a call stores exactly the body, delay, periodic flag and priority asked for, due at logical time + delay, under a new id; everything else stays |
| DirectorState.ScheduleKeepsClockExactly | src/Director.cpp:35-45 | scheduling keeps that order if and only if the delay is not negative |
| DirectorState.PopTakesLeastDueNow | src/Director.cpp:301-310 | what is run next is the least of all callbacks by (time, priority, id), and is due exactly at the current logical time |
| DirectorLimits.ClearInBodyKeepsReadyExactly | src/Director.cpp:50-66 | clearing from inside a body always leaves queue and table in agreement; the round stays in order if and only if another callback stays queued |
| DirectorLimits.ScheduledAfterResetRunsEarly | src/Director.cpp:303-350 | after a reset in mid-round the round goes on and runs what the body schedules `delay` before its time, without any id being reused |
| DirectorLimits.ReissuedExactly | src/Director.cpp:29-66 | after a reset the running id is given out again if and only if some stretch of the calls that follow, without a further reset, schedules more callbacks than that id counts |
| DirectorLimits.ReissuedBreaksAgreement | src/Director.cpp:317-331 | a callback with the running id is dropped while queued, or queued twice: queue and table no longer agree |
| DirectorLimits.ResetInBodyLosesCallback | src/Director.cpp:317-350 | a concrete state in which the id reused after a reset makes the new callback vanish from the table and stay in the queue |
| DirectorLimits.PressingNeverEnds | src/Director.cpp:303-332 | while a due periodic callback that does not wait is not cleared and the Director does not reset, its round never ends |
| DirectorLimits.PressingUnlessReset | src/Director.cpp:50-66 | a clear of another callback leaves it so if and only if some callback stays queued |
| DirectorLimits.ResetEndsPressingRound | src/Director.cpp:50-66 | a concrete round that ends although nobody cleared the periodic callback: its body clears an id that is not there, and everything is dropped |
| DirectorLimits.PeriodicRoundEndsExactly | src/Director.cpp:303-326 | the round of a due periodic callback, alone and with an empty body, ends if and only if its delay is positive |
| DirectorLimits.NoDelayStandsStill | src/Director.cpp:322-325 | without delay the state after firing it is the state before |
| DirectorRuns.RunKeepsInvariants | src/Director.cpp:29-333 | both invariants hold after any run of calls and loop steps |
| DirectorRuns.LifeKeepsInvariants | src/Director.cpp:29-350 | both invariants hold after any sequence of calls, rounds and resets between rounds |
| DirectorRuns.ClearIsStepOrRestart | src/Director.cpp:50-66 | every clear is a step between resets or a reset |
| DirectorRuns.GoneForever | src/Director.cpp:223-226 | a callback that was cleared or dropped never runs again before a reset |
| DirectorState.StaysQueued | src/Director.cpp:29-333 | a queued callback stays queued with its due time over every step that does not clear or take it, and only a priority update changes its priority |
| DirectorRuns.TieSurvives | src/Director.cpp:68-86 | no step but clearing or running one of two tied callbacks separates them, least of all a priority update |
| DirectorRuns.FirstInFirstOut | src/Director.h:19-21 | of two queued callbacks with one due time and one priority, the one scheduled first runs first, whatever else is scheduled, cleared or re-prioritised between |
| DirectorRuns.TimeNeverGoesBack | src/Director.cpp:299-302 | the logical times of executed callbacks never decrease over a run |
| DirectorRuns.PeriodicDoesNotDrift | src/Director.cpp:320-326 | the k-th run of a periodic callback that is not cleared is at its first due time plus k delays |
| DirectorRuns.ScheduledPeriodicRuns | src/Director.cpp:29-326 | from the call on: a callback scheduled as periodic stays in the table until it is cleared, and its k-th run is k + 1 of the delays asked for after the logical time of the call |
| DirectorRuns.OneShotRunsOnce | src/Director.cpp:317-331 | a callback that is not periodic runs at most once more, at its due time, and is then gone |
| DirectorRuns.ScheduledOnceRuns | src/Director.cpp:29-331 | from the call on: a callback not scheduled as periodic runs at most once, at logical time + delay |
| DirectorRounds.PerformSpends | src/Director.cpp:29-86 | a call made by a body adds at most its own weight to what the round still has to do |
| DirectorRounds.FireSpends | src/Director.cpp:303-332 | executing a callback strictly lowers what the round still has to do, so a round ends |
| DirectorRounds.RoundLeavesNothingDue | src/Director.cpp:299-333 | a round ends with every queued time above the logical time, zero-delay callbacks spawned in it included |
| DirectorRounds.FiringCalls | src/Director.cpp:303-315 | firing the front callback makes exactly the calls of its body, in order |
| DirectorRounds.RoundCallsBodies | src/Director.cpp:303-315 | a round makes exactly the calls of the callbacks it runs, in the order in which they run |
| DirectorRounds.LeavesByRunning | src/Director.cpp:303-332 | a queued callback that is not cleared stays in the table with its due time until it runs, and runs at the logical time of its round |
| DirectorRounds.DueRunsInItsRound | src/Director.cpp:299-333 | whatever is queued during a round with a due time that has come runs in that round, unless it is cleared |
| DirectorRounds.SpawnedNowRunsNow | src/AccessorImpl.cpp:195-209 | what a body schedules without delay, as outputs and reaction requests are, runs in the same round at the same logical time, unless it is cleared |
| DirectorRounds.RoundRunsInPriorityOrder | src/Director.cpp:299-333 | if bodies schedule only at their own priority value or above, a round executes in strictly increasing (priority, id) |
| DirectorRounds.PassIsIdle | src/Director.cpp:186-202 | a round with the choice of the next execution time re-establishes the invariants between rounds |
| DirectorRounds.EndTakesLeast | src/Director.cpp:198-201 | at the end of a round the next execution time is the least queued due time, or the default when nothing is queued |
| DirectorRounds.PassTakesLeast | src/Director.cpp:186-202 | so it is after a whole pass, and later than before |
| DirectorRounds.PassMakesProgress | src/Director.cpp:186-202 | from such a state a pass runs at least one callback |
| DirectorRounds.PassRunsOrKeeps | src/Director.cpp:186-202 | a pass runs a queued callback that is due at its time and is not cleared, and keeps a later one |
| DirectorRounds.DueTimeIsReached | src/Director.cpp:178-216 | a queued callback that is not cleared runs at its due time once the clock has been read often enough at that time or later |
| DirectorRounds.NothingRunsEarly | src/Director.cpp:186 | nothing runs before some reading has shown its time |
| DirectorRounds.DriveIsTrace | src/Director.cpp:178-216 | what is executed under given clock readings is the trace of a run of steps |
| DirectorRounds.DriveIsSomeRounds | src/Director.cpp:186-212 | against any clock readings, the execution thread executes the first n rounds, for some n |
| DirectorRounds.LatenessDoesNotMatter | src/Director.cpp:178-216 | under any two sequences of clock readings, the executed sequences are prefixes of one another |
| Directors.Director.constructor | src/Director.cpp:14-22 | a new Director has no callbacks, id 0, the clock's time, and the default next execution time |
| Directors.Director.ScheduleCallback | src/Director.cpp:29-48 | under the returned id stands exactly what was asked for, due at logical time + delay; every other entry is as before; the next execution comes forward if needed |
| Directors.Director.ClearScheduledCallback | src/Director.cpp:50-66 | removes the id from queue and table and resets the Director if either is then empty |
| Directors.Director.HandlePriorityUpdate | src/Director.cpp:68-86 | the re-sorting walk renames exactly the callbacks of the old priority, and its result does not depend on the order of the walk |
| Directors.Director.ChangePriority | src/Director.cpp:72-84 | one callback with a new priority is queued again at its new place; the queued ids stay the same |
| Directors.Director.QueueScheduledCallback | src/Director.cpp:229-297 | the three-level comparison puts the id where the order wants it |
| Directors.Director.GetNextQueuedExecutionTime | src/Director.cpp:130-140 | no queued callback is due earlier, and the front one is due then; the default when nothing is queued |
| Directors.Director.ResetAll | src/Director.cpp:340-350 | clears both containers, restarts ids at 0, and takes the clock's time |
| Directors.Director.FireFront | src/Director.cpp:303-332 | one pass of the round's loop: take the front, run its body, then reschedule or drop it; the execution log grows by exactly that callback |
| Directors.Director.RescheduleOrDrop | src/Director.cpp:317-331 | after its body a periodic callback is queued again one delay later, and any other leaves the table |
| Directors.Director.ExecuteCallbacks | src/Director.cpp:299-333 | the method runs exactly the steps of one round and logs exactly its trace |
| Directors.Director.RunRound | src/Director.cpp:186-202 | one pass of the loop: a whole round, after which the next execution time is the least queued due time and later than before |
| Directors.Director.ExecuteInternal | src/Director.cpp:186-212 | the loop executes exactly what the clock readings allow, which DueTimeIsReached, NothingRunsEarly and LatenessDoesNotMatter are about, and resets the Director when nothing is left |
| Wiring.ApplyExcess | src/Port.cpp:59-82 | one connect or disconnect changes no pair of links but its own, and unbalances that one exactly if it repeats a connection |
| Wiring.ExcessCountsRepeats | src/Port.cpp:59-112 | over any run, surplus destination entries equal the number of repeated connections; nothing takes them back |
| Wiring.SourceStaysUntilDisconnected | src/Port.cpp:98-105 | a connected port keeps its source over any run that does not disconnect the two |
| Wiring.SpontaneousStaysUnfed | src/Port.cpp:106-111 | a spontaneous output port never gets a source |
| Wiring.DestinationsStandInOrder | src/Port.cpp:59-82 | over any run the destinations of a port stand in the order in which the connections still in place were made |
| Wiring.ConsistentExactlyWithoutRepeats | src/Port.cpp:59-112 | source and destination links stay converse and duplicate-free if and only if no connection in place is repeated |
| Wiring.PeelingEndsExactly | src/Port.cpp:91-95 | the loop in DisconnectAll ends if and only if the port has no surplus destination entries |
| Wiring.DoubleConnectionNeverDisconnects | src/Port.cpp:91-101 | two ports connected twice: the loop never ends |
| Ports.Port.Link | src/Port.cpp:59-112 | refuses for exactly the two reasons and then changes nothing; otherwise the destination has this source and stands last in its list, which is as before in front |
| Ports.Port.Unlink | src/Port.cpp:67-82 | removes the first matching destination entry and the source link, or nothing if they are not connected |
| Ports.Port.UnlinkAll | src/Port.cpp:84-96 | ends, isolates the port, keeps the graph consistent |
| Ports.IsolatedKeepsOtherLinks | src/Port.cpp:84-96 | an isolated port has no link left, and all other links and their order are unchanged |
| Dependencies.PortDependencies.JoinedIsEquivalence | src/AtomicAccessorImpl.cpp:174-193 | being joined by paths of shared outputs is symmetric and transitive |
| Dependencies.PortDependencies.ClassesPartition | src/AtomicAccessorImpl.cpp:39-50 | the equivalence classes partition the input ports |
| Dependencies.PortDependencies.InputsOfOneOutputAreEquivalent | src/AtomicAccessorImpl.cpp:174-193 | inputs that share a dependent output port are in one class |
| Dependencies.PortDependencies.GetInputPortDependencies | src/AtomicAccessorImpl.cpp:52-63 | returns exactly the inputs that the output depends on |
| Dependencies.PortDependencies.GetDependentOutputPorts | src/AtomicAccessorImpl.cpp:65-76 | returns exactly the outputs that depend on the input |
| Dependencies.PortDependencies.FindEquivalentPorts | src/AtomicAccessorImpl.cpp:174-193 | the recursive fill ends and adds only ports joined to the start, with everything they lead to |
| Dependencies.PortDependencies.GetEquivalentPorts | src/AtomicAccessorImpl.cpp:39-50 | the shortcut gives all inputs without outputs, and in every other case shortcut and closure give the connected component of the dependency graph |
| Dependencies.PortDependencies.ClassIsComponentExactly | src/AtomicAccessorImpl.cpp:39-50 | what is returned is the connected component if and only if there is an output, or only one input |
| Dependencies.PortDependencies.ShortcutIsComponentExactly | src/AtomicAccessorImpl.cpp:41-44 | where the shortcut is taken, its result is what the closure gives if and only if there is an output, or only one input |
| Dependencies.TwoInputsNoOutput | src/AtomicAccessorImpl.cpp:41-44 | the smallest case in which it is not |
| Dependencies.AtomicAccessor.AddInputPort | src/AccessorImpl.cpp:151-157 | every output, spontaneous ones included, depends on an input that is added later |
| Dependencies.AtomicAccessor.AddOutputPort | src/AccessorImpl.cpp:257-263 | a new output depends on all inputs |
| Dependencies.AtomicAccessor.RemoveDependency | src/AtomicAccessorImpl.cpp:120-126 | removes one dependency and keeps the two pruning maps converse |
| Dependencies.AtomicAccessor.AddSpontaneousOutputPort | src/AtomicAccessorImpl.cpp:136-144 | the new output depends on no input, and nothing else changes |
| CausalGraph.SolutionIsUnique | src/HostImpl.h:20-23 | the depth equations have at most one solution, also on a part of the ports |
| CausalGraph.ChainsAreBounded | src/HostImpl.h:20-23 | no causal chain from a port crosses more connections than the port's depth |
| CausalGraph.LongestChain | src/HostImpl.h:20-23 | some causal chain crosses exactly as many |
| CausalGraph.SolvedIsNotOnLoop | src/HostImpl.h:17-20 | a port that has a depth does not depend on itself |
| CausalGraph.SolvedIsAcyclic | src/HostImpl.h:17-20 | if all ports have depths, there is no causality loop |
| Models.LoopEndsExactly | src/HostImpl.cpp:434-443 | the loop that walks up from a port ends if and only if the chain of composite ports above it is not a cycle |
| Models.FedBackIsEndless | src/HostImpl.cpp:434-443 | three connections that no check refuses, after which the loop from an atomic input never ends |
| Models.SourceIsOutput | src/HostImpl.cpp:432-446 | the walk up from an input port of an atomic accessor ends at an output port of one |
| Models.ClassFacts | src/AtomicAccessorImpl.cpp:39-50 | a class stays within its accessor and is the class of each of its members |
| Models.GraphIsWellFormed | src/HostImpl.cpp:306-380 | classes, dependencies and sources of a model form a well-formed causal graph |
| DepthSearch.DepthSearch.GetSourceOutputPort | src/HostImpl.cpp:432-446 | the loop finds the source output port, and none if the chain ends at an unconnected composite port |
| DepthSearch.DepthSearch.ComputeInputPortDepth | src/HostImpl.cpp:306-349 | solves the equation of a whole class or names a port on a loop; known depths never change; visited sets cause no false report |
| DepthSearch.DepthSearch.ComputeOutputPortDepth | src/HostImpl.cpp:351-380 | the same for an output port |
| AccessorOrder.CompositeComesFirst | src/HostImpl.cpp:244-265 | a composite stands before everything below it in the order of depth and place |
| AccessorOrder.SubtreeIsVisitedTogether | src/HostImpl.cpp:247-260 | the accessors of a subtree are met one after another |
| AccessorOrder.BucketIsSorted | src/HostImpl.cpp:263-302 | in the list of one depth, composites stand before atomic accessors, later composites first |
| AccessorOrder.ValuesIncrease | src/HostImpl.cpp:226-240 | values strictly increase along the order, and none is below its accessor's depth |
| AccessorOrder.ValuesAreBounded | src/HostImpl.cpp:226-240 | the k-th value is at most max(1, depth) + k |
| Priorities.Host.constructor | src/HostImpl.cpp:14-21 | the host starts with its reserved priority |
| Priorities.Host.ComputeAtomicAccessorDepth | src/HostImpl.cpp:267-304 | the least output depth, or the greatest input depth without outputs, or a loop |
| Priorities.Host.ComputeCompositeAccessorDepth | src/HostImpl.cpp:244-265 | the least child depth; every port below gets its depth; the accessors are filed in order of visit |
| Priorities.VisitGrows | src/HostImpl.cpp:244-304 | depths memoised later do not change the depth of an accessor already filed |
| Priorities.KnownIsSolution | src/HostImpl.cpp:267-304 | after the whole tree was visited, the port depths are the solution for all ports, and the graph is acyclic |
| Priorities.Host.ComputeAccessorPriorities | src/HostImpl.cpp:221-242 | fails if and only if the causal graph has a loop, naming a port on one and changing nothing; otherwise the depths are the unique solution, every accessor gets the value of its place, and the Director is told each old and new value in that order |
| Renaming.CallbacksAreRenamedInTurn | src/Director.cpp:68-86 | a run of priority updates gives each callback the priority that the calls, one after another, turn its own into, and changes nothing else |
| Renaming.RenamingIsRightExactly | src/HostImpl.cpp:227-240 | the run acts as the intended simultaneous renaming if and only if no later accessor had the new value before |
| Renaming.ShrinkingUpdateIsRight | src/HostImpl.cpp:227-240 | it does when old values rise along the order and no value grows |
| ModelUpdates.UpdateKeepingOrderIsRight | src/HostImpl.cpp:221-242 | an update, a removal for one, that keeps the accessors in their order and makes none of them deeper renames callbacks as intended |
| UpdateExamples.RemovalRenamesTwice | src/HostImpl.cpp:221-242 | a removal that does not: in every model of the given shape, from its depths and order to the Director's table, the callbacks of one accessor end with the value of another |
| UpdateExamples.RemovalHappens | src/HostImpl.cpp:221-242 | valid models of that shape exist |
| PriorityLaws.PriorityIsPlaceInOrder | src/HostImpl.cpp:221-242 | one value is below another if and only if its accessor is less deep, or as deep and earlier in the list; values are distinct |
| PriorityLaws.PriorityBounds | src/HostImpl.cpp:226-240 | k + 1 <= value <= max(1, depth) + k for the k-th accessor |
| PriorityLaws.CompositeBelowItsContents | src/HostImpl.cpp:244-265 | a composite's value is below the values of all its descendants |
| PriorityLaws.FeederIsShallower | src/HostImpl.cpp:267-304 | if A feeds an input of B on which all outputs of B depend, A is less deep than B |
| PriorityLaws.FeederRunsFirst | src/HostImpl.cpp:221-304 | under that condition A's priority value is strictly below B's |
| FeederOrder.FeederIsShallowerExactly | src/HostImpl.cpp:267-304 | if A feeds B, A is less deep than B if and only if every output of B depends on an input deeper than A |
| FeederOrder.FeederIsNotDeeperExactly | src/HostImpl.cpp:267-304 | A is not deeper than B if and only if every output of B depends on an input at least as deep, or A has depth 0 |
| FeederOrder.FeederRunsFirstExactly | src/HostImpl.cpp:221-304 | A's value is below B's if and only if the first of these holds, or the second holds and A is met before B in the tree |
| FeederOrder.ChildOrderDecidesExactly | src/HostImpl.cpp:221-304 | exchanging the order in which A and B are met exchanges their order of priority if and only if the second holds and the first does not |
| FeederOrder.WaitingOutruns | src/HostImpl.cpp:267-304 | the sufficient condition of FeederRunsFirst is a case of the exact one |
| PriorityLaws.FeedingIsDescribed | src/AtomicAccessorImpl.cpp:136-144 | the causal graph of a two-accessor model with a spontaneous output |
| PriorityLaws.SpontaneousOutputHidesCausality | src/AtomicAccessorImpl.h:12-14 | in that model every assignment gives the fed accessor the smaller value, so the condition cannot be dropped |
| PriorityRange.SomeAtomHasDepthZero | src/HostImpl.cpp:267-304 | an accepted model that has an atomic accessor has one of depth 0 |
| PriorityRange.DepthIsLeastInside | src/HostImpl.cpp:244-265 | a composite is as deep as the least deep atomic accessor anywhere inside it, and has the largest int as depth without any |
| PriorityRange.HostIsFirst | src/HostImpl.cpp:221-265 | the host is the first accessor in order and gets max(1, its depth) |
| PriorityRange.HostGetsItsPriorityExactly | src/HostImpl.cpp:221-265 | the host gets exactly 1 if and only if it holds an atomic accessor somewhere |
| PriorityRange.OverflowExactly | src/HostImpl.cpp:226-264 | when port depths and the number of accessors are small enough, the counter passes the largest int if and only if some composite has no child |
| PriorityRange.ChildlessCompositeOverflows | src/HostImpl.cpp:226-264 | a childless composite drives the counter past the largest int |
| PriorityRange.EmptyHostIsMisplaced | src/HostImpl.cpp:226-264 | a host without children gets the largest int instead of 1 |
| ModelUpdates.ChangesFollowOrder | src/HostImpl.cpp:227-240 | the k-th call names the k-th accessor's old and new value |
| ModelUpdates.UpdateReachesCallbacksExactly | src/HostImpl.cpp:221-242 | after an update a callback has its accessor's new value if and only if no accessor updated later held that value before |
| UpdateExamples.AdditionRenamesTwice | src/HostImpl.cpp:221-242 | a source added in front of an adder and a verifier: in every model of that shape, every callback of the adder in the Director's table ends with the verifier's value |
| UpdateExamples.AdditionHappens | src/HostImpl.cpp:221-242 | valid models of that shape exist |
| Network.RunWaitsForFront | src/Port.cpp:144-190 | over any run of arrivals, dequeues and reactions the port waits exactly while a real event is at the front |
| Network.WaitingFollowsQueueExactly | src/Port.cpp:144-190 | after any run the waiting flag follows the queue if and only if no null event is at the front |
| Network.NullBlocksPort | src/Port.cpp:186-190 | a port with a null event at the front never waits and handles nothing again, whatever arrives |
| Network.NullIsNeverHandled | src/AtomicAccessorImpl.cpp:84-87 | no null event is ever handled, and events stay in order |
| Network.PortStaysUsableExactly | src/Port.cpp:144-190 | after any run of arrivals and reactions, the waiting flag follows the queue under all further reactions if and only if no null event arrived |
| EventLaws.SendObeysLaw | src/Port.cpp:44-57 | sending adds to the work ahead exactly the cost of the wiring below the port, keeps queues in order, and handles nothing |
| EventLaws.ReceiveObeysLaw | src/Port.cpp:160-214 | the same for receiving: events are dropped, passed on or queued, and none is lost, doubled or reordered |
| EventLaws.HandlingObeysLaw | src/AtomicAccessorImpl.cpp:84-99 | handling one event takes exactly one off the work ahead, even though it may wake the port again and pass the next event on |
| EventLaws.ProcessingObeysLaw | src/AtomicAccessorImpl.cpp:78-108 | a whole reaction that does not throw obeys the law |
| EventLaws.NoLoadExactly | src/Port.cpp:132-136 | no work is ahead if and only if every input queue is empty |
| WakeupLaws.ScheduleWakes | src/CompositeAccessorImpl.cpp:39-66 | asking for a reaction covers the child and the whole way up to the host |
| WakeupLaws.RequestCarriesPriority | src/CompositeAccessorImpl.cpp:41-60 | at most one callback is requested, and it carries the priority of the accessor that asked |
| WakeupLaws.AlertWakes | src/AccessorImpl.cpp:95-102 | alerting an atomic accessor covers all its inputs |
| WakeupLaws.SendWakes | src/Port.cpp:44-57 | sending loses no wake-up, also in the middle of a drain |
| WakeupLaws.ReceiveWakes | src/Port.cpp:160-214 | receiving loses none |
| WakeupLaws.HandlingWakes | src/AtomicAccessorImpl.cpp:84-99 | after its handlers ran, a port does not wait or its accessor is queued again |
| WakeupLaws.ProcessingWakes | src/AtomicAccessorImpl.cpp:78-108 | after a reaction that does not throw none of the accessor's inputs is left waiting and unqueued |
| WakeupLaws.PoppedIsOpen | src/CompositeAccessorImpl.cpp:72-73 | taking a child from the queue leaves open only what its own reaction will look at |
| WakeupLaws.QuietEverywhere | src/CompositeAccessorImpl.cpp:68-86 | if the host's queue is empty and nothing runs, every queue is empty and no input waits |
| UniquePriorityQueues.Best | src/UniquePriorityQueue.h:18-21 | an element with the least priority value |
| UniquePriorityQueues.UniquePriorityQueue.Push | src/UniquePriorityQueue.h:23-30 | adds an element once; heap and set stay the same collection |
| UniquePriorityQueues.UniquePriorityQueue.Top | src/UniquePriorityQueue.h:18-21 | a member with the least priority value |
| UniquePriorityQueues.UniquePriorityQueue.Pop | src/UniquePriorityQueue.h:32-36 | removes exactly the top |
| UniquePriorityQueues.UniquePriorityQueue.Empty | src/UniquePriorityQueue.h:38-41 | the heap is empty if and only if the set is |
| Reaction.Runtime.constructor | src/Port.cpp:114-118 | a new model is sound and quiet |
| Reaction.Runtime.ScheduleReaction | src/CompositeAccessorImpl.cpp:39-66 | the recursive method has exactly the effect that WakeupLaws and Requests.SchedulingAsks are about |
| Reaction.Runtime.AlertNewInput | src/AccessorImpl.cpp:95-102 | the method has exactly the effect that Requests.AlertingAsks is about |
| Reaction.Runtime.SendData | src/Port.cpp:44-57 | the loop over destinations has exactly the effect that EventLaws and Arrivals are about |
| Reaction.Runtime.ReceiveData | src/Port.cpp:160-214 | the method for both kinds of port has exactly the effect that EventLaws and Arrivals.ReceivingAppends are about |
| Reaction.Runtime.HandleInput | src/AtomicAccessorImpl.cpp:84-99 | one pass of the loop over input ports has exactly the effect that Arrivals.HandlingPassesFrontOn is about |
| Reaction.Runtime.ProcessInputs | src/AtomicAccessorImpl.cpp:78-108 | the loop over input ports has exactly the effect that Handling is about |
| Reaction.Runtime.ReactNext | src/CompositeAccessorImpl.cpp:70-82 | one pass of the drain is a run of small steps that picks a child with the least priority value; unless it throws it keeps soundness and lowers (work ahead, queue) lexicographically |
| Reaction.Runtime.ProcessChildEventQueue | src/CompositeAccessorImpl.cpp:68-86 | the drain ends and is a run of small steps; unless it throws it leaves its queue empty, loses no event and no wake-up, and handles one event for every unit of work that goes; it does not throw while events have handlers |
| Reaction.Runtime.RunReactionCallback | src/CompositeAccessorImpl.cpp:56-60 | the host's callback is a run of small steps from an empty stack; unless it throws, it ends with every queue empty, no port waiting and no request, having handled exactly the work that was ahead; it does not throw while events have handlers |
| Reaction.Runtime.Run | src/AccessorImpl.cpp:195-209 | over any run of outputs and reactions without an exception the state stays sound, and handled plus ahead equals what the sent events stand for |
| Delivery.HierarchyIsTransparent | src/Port.cpp:160-214 | sending through composite ports equals delivering to a flat list of ports of atomic accessors |
| Delivery.ReachedAtMostOnce | src/Port.cpp:44-57 | an event reaches an input port at most once |
| Delivery.ReachedWalksUp | src/HostImpl.cpp:432-446 | what an event reaches finds the sending port on its walk up |
| Delivery.SentOnceExactlyFromSource | src/HostImpl.cpp:432-446 | an output delivers to an input exactly once if the host's walk finds it as source and all accessors on the way are initialised, and not at all otherwise |
| Acceptance.LinkMovesOn | src/HostImpl.cpp:306-380 | along every link of an accepted model that is not hidden from the analysis the causal position grows, or the chain of composites gets longer |
| Acceptance.AcceptedHasNoCycleExactly | src/HostImpl.cpp:221-242 | the links of an accepted model form no cycle if and only if no link with a removed dependency leads back to where it starts |
| Acceptance.AcceptedModelRunsExactly | src/HostImpl.cpp:53-65 | under exactly that condition an accepted model meets everything the drain needs to end |
| Acceptance.RemovedDependencyHidesCycle | src/AtomicAccessorImpl.cpp:120-126 | a concrete accepted model whose links form a cycle, because the dependency along a pass-through was removed |
| Passes.SendPasses | src/Port.cpp:44-57 | in any state, sending handles nothing, keeps waiting ports waiting, throws nothing, and adds no second request |
| Passes.SendReaches | src/Port.cpp:44-57 | sending leaves a trace at every destination that takes events |
| Arrivals.ReceivingAppends | src/Port.cpp:176-190 | an initialised input port that receives an event appends exactly that event to its history |
| Arrivals.SendingAddsOnly | src/Port.cpp:44-57 | all that sending an event adds to any port's history is that event; every input port below gets it, and no port above |
| Arrivals.SendGrowsAlone | src/Port.cpp:44-57 | an input port that no other input passes events on to gets one copy for each way the event comes to it |
| Arrivals.HandlingPassesFrontOn | src/AtomicAccessorImpl.cpp:84-99 | handling takes the front event; what is passed on is the new front event, and every input port below gets it |
| Delivery.ReachedReceives | src/Port.cpp:160-214 | the input ports that the wiring reaches from a port get what it sends, and nothing else |
| Requests.SchedulingAsks | src/CompositeAccessorImpl.cpp:39-66 | one callback is added if none was requested, at the given priority or the first one on the way up; the child and everything above are queued with their parents, and nobody else |
| Requests.AlertingAsks | src/AccessorImpl.cpp:95-102 | alerting an accessor requests at its own priority if it has one |
| Requests.SendingAsks | src/Port.cpp:160-184 | sending requests a reaction exactly if the event comes to an idle input port, at the priority of the accessor of the first such port |
| Handling.ReactionHandlesOnce | src/AtomicAccessorImpl.cpp:81-100 | a reaction that does not throw handles the front event of every waiting input, no port more than one, and no other port |
| Handling.ReactionStopsAt | src/AtomicAccessorImpl.cpp:81-100 | a reaction that throws has handled the waiting inputs before the one without handlers, in the order of the ports, and no other |
| ArrivalRuns.RunAdds | src/Port.cpp:160-190 | over any run an input port that only outputs send to receives exactly the events sent to it, in order |
| ArrivalRuns.HandledIsPrefixOfSent | src/AtomicAccessorImpl.cpp:84-98 | what such a port has handled is a prefix of what was sent to it, and the rest is queued |
| ArrivalRuns.RunTracks | src/AtomicAccessorImpl.cpp:88-98 | over any run an input port that one other input passes its events on to receives exactly those, in order |
| Passes.ProcessKeepsRequest | src/AtomicAccessorImpl.cpp:78-108 | in any network a reaction, whether it throws or not, keeps a request that is made and adds at most one |
| Passes.ProcessServes | src/AtomicAccessorImpl.cpp:78-108 | while every waiting port has handlers a reaction throws nothing and keeps it so |
| DrainSteps.PickIsLeast | src/CompositeAccessorImpl.cpp:70-73 | the drain picks a queued child of the composite in hand with the least priority value |
| DrainMachine.Drains | src/CompositeAccessorImpl.cpp:68-86 | from any sound state some run of small steps drains a composite or throws |
| DrainMachine.ReactionRuns | src/CompositeAccessorImpl.cpp:56-86 | from any sound state with a callback some run of the host's reaction drains the whole tree or throws |
| DrainLimits.SomeRunThrowsExactly | src/AtomicAccessorImpl.cpp:195-200 | some run from the start throws if and only if some input port without handlers, of an initialised accessor, is a destination of some port |
| DrainLimits.ThrownLeavesRequest | src/CompositeAccessorImpl.cpp:52-86 | in any network a run that throws leaves the request flag set and no callback pending |
| DrainLimits.AbortedDrainIsFinal | src/CompositeAccessorImpl.cpp:52-86 | after a run that throws no reaction starts and no event is handled ever again, whatever is sent |
| Engine.NextKeepsInvariant | src/CompositeAccessorImpl.cpp:52-60 | every step of Director and network together keeps: the host has a queued reaction, due now, exactly while it has requested one; nothing is lost |
| Engine.EndedRoundIsQuiet | src/Director.cpp:303-333 | when a round ends, the whole tree is quiet and no callback is due |
| Engine.EveryRoundEndsQuiet | src/AccessorImpl.cpp:195-209 | in every run from the start, resets between rounds included, whenever a round ends, all events sent at its logical time have been handled, each exactly as often as the wiring says |
| EngineRuns.HostReactionExists | src/CompositeAccessorImpl.cpp:56-86 | in every sound state with a callback, in which events have handlers, the host's reaction has a result |
| EngineRuns.RoundGoesThrough | src/Director.cpp:303-333 | every round under way can be run to its end |
| EngineRuns.OutputGoesThrough | src/AccessorImpl.cpp:195-209 | any output, called between rounds in any state that a run can reach, is sent, and its round can be run to an end at which everything has been handled |
| EngineRuns.DrainCarriesPriority | src/CompositeAccessorImpl.cpp:52-60 | the reaction that an output requests is a callback of its own, due now, at the priority of the accessor of the first idle input port that the event comes to |
| EngineRuns.ClearingLosesDrainExactly | src/Director.cpp:50-66 | removing a callback keeps the host's reaction pending if and only if it is not the reaction's own |
| EngineRuns.LostDrainIsFinal | src/CompositeAccessorImpl.cpp:52-60 | with the request made and its callback gone, no run ever requests a reaction or handles an event again |

## Left out

- Threads, promises, futures, cancellation tokens and the retries of thread creation: operations are atomic steps, and the physical clock is a sequence of readings. A cancelled round is the step `End(true)`.
- `Director::Execute` and its count of iterations, which depends on the timing of threads.
- Directors.Director.ExecuteInternal: requires that no body resets the Director in the middle of a round, and so do ExecuteCallbacks and FireFront; `DirectorLimits` says what such a reset does. The new thread at the end is not modelled.
- Directors.Director.ScheduleCallback: the restart of the execution thread when the next execution is brought forward is not part of the state.
- Callback bodies are finite lists of calls on the Director; what they compute is not modelled.
- `int` and `long long` are unbounded: steps whose time would pass the largest `long long` have no successor, and PriorityBounds and ChildlessCompositeOverflows say when priority values leave the range.
- Reaction.Runtime.HandleInput: handlers and Fire functions are not run; they do not touch queues, because outputs are sent by later callbacks. In return each port carries the history of events received, handled and passed on. Of exceptions, only the one for a port without handlers is modelled.
- Reaction.Runtime.ProcessInputs: the Fire function at the end is not run.
- Reaction.Runtime.SendData: input ports are entries of a map in one object, not objects with their own queues, so aliasing between ports is not modelled here; `Ports` does that for links.
- Reaction.Runtime.Run: the reaction callback is run by the caller. `Engine` joins the network to the Director's queue, on values: there a drain is any step with the effect that RunReactionCallback is proved to have.
- Engine.NextKeepsInvariant: a reaction that throws has no next state here; `DrainLimits` follows it.
- DepthSearch.DepthSearch.GetSourceOutputPort: requires, as ComputeAccessorPriorities does, that chains of composite ports end, because otherwise it does not return (LoopEndsExactly).
- Ports.Port.UnlinkAll: requires that no connection was made twice, because otherwise it does not end (PeelingEndsExactly).
- ModelUpdates.UpdateReachesCallbacksExactly: speaks about the first accessor with a given old value; accessors added together share the default value, and callbacks they have scheduled before the update all follow the first of them.
- UniquePriorityQueues.UniquePriorityQueue.Top: the heap inside `std::priority_queue` is a list, and among elements of one priority the first is taken.
- Dependencies.PortDependencies.FindEquivalentPorts: the two sets passed by reference are passed in and returned.
- Removal of children, accessors added while they react, and `ClearAllScheduledCallbacks`.
- The flag `m_stateDependsOnInputPort`, which nothing reads.
- The host's life cycle and listeners, `HostHypervisor`, and the forwarding classes `Host` and `Accessor`: they would add easy members only.
- Names of ports and accessors, their validation and look-up by name, and debug printing: ports and accessors are numbers.
- That an accessor reacts at most once per logical instant is not claimed: outputs are sent by later callbacks, and it may react twice.
