/**
 Events on their way: what sending, receiving and asking for a reaction do to the input
 queues, to the wake-up queues of the composites, and to the host's reaction callback.
 */
module Network {
  import opened Wiring
  import opened Models
  import opened AccessorOrder

  datatype Event = Null | Data(payload: int)

  datatype Network = Network(
    model: Model,
    parent: map<nat, nat>,      // the composite that holds each accessor; the host has none
    host: nat,
    initialized: set<nat>,
    priority: map<nat, int>,
    inputs: seq<nat>,           // every input port of an atomic accessor
    handlers: set<nat>,         // the input ports that have handlers
    rank: map<nat, nat>,        // falls along links: a witness that no links form a cycle
    height: map<nat, nat>)      // grows towards the host: a witness that the tree is one

  /** An input port, with the history of the events that went through it. */
  datatype InputPort = InputPort(
    queue: seq<Event>,
    waiting: bool,
    received: seq<Event>,
    handled: seq<Event>,
    forwarded: seq<Event>)

  datatype State = State(
    ports: map<nat, InputPort>,
    wakeups: map<nat, set<nat>>,  // the children of each composite that want to react
    requested: bool,              // the host's m_reactionRequested
    callbacks: seq<int>,          // priorities of the reaction callbacks handed to the Director
    thrown: bool)                 // an exception is on its way out of the reaction

  const EMPTY: InputPort := InputPort([], false, [], [], [])

  // ----- the static structure -----

  function Out(net: Network, p: nat): seq<nat>
  {
    Destinations(net.model.wires, p)
  }

  function Rank(net: Network, p: nat): nat
  {
    if p in net.rank then net.rank[p] else 0
  }

  function Height(net: Network, a: nat): nat
  {
    if a in net.height then net.height[a] else 0
  }

  function OwnerOf(net: Network, p: nat): nat
  {
    if p in net.model.owner then net.model.owner[p] else net.host
  }

  predicate IsAtomic(net: Network, a: nat)
  {
    a in net.model.atoms
  }

  function InputsOf(net: Network, a: nat): seq<nat>
  {
    if a in net.model.atoms then net.model.atoms[a].inputs else []
  }

  /** Input ports of atomic accessors queue events; every other port passes them on. */
  predicate Queues(net: Network, p: nat)
  {
    IsAtomic(net, OwnerOf(net, p)) && p in InputsOf(net, OwnerOf(net, p))
  }

  function PriorityOf(net: Network, a: nat): int
  {
    PriorityIn(net.priority, a)
  }

  /** Links do not form a cycle. */
  ghost predicate Downhill(net: Network)
  {
    forall p, k {:trigger Out(net, p)[k]} :: 0 <= k < |Out(net, p)| ==> Rank(net, Out(net, p)[k]) < Rank(net, p)
  }

  /** The accessors form a tree below the host, and atomic accessors hold no others. */
  ghost predicate Tree(net: Network)
  {
    && net.host !in net.parent && !IsAtomic(net, net.host)
    && (forall a {:trigger net.parent[a]} :: a in net.parent ==>
          && Height(net, a) < Height(net, net.parent[a]) <= Height(net, net.host)
          && (net.parent[a] in net.parent || net.parent[a] == net.host)
          && !IsAtomic(net, net.parent[a]))
    && (forall a {:trigger a in net.model.atoms} :: a in net.model.atoms ==> a in net.parent)
  }

  ghost predicate InputsListed(net: Network)
  {
    && (forall j, k :: 0 <= j < k < |net.inputs| ==> net.inputs[j] != net.inputs[k])
    && (forall p :: p in net.inputs <==> Queues(net, p))
    && (forall a, i {:trigger i in InputsOf(net, a)} :: i in InputsOf(net, a) ==> OwnerOf(net, i) == a && IsAtomic(net, a))
  }

  ghost predicate WellFormed(net: Network)
  {
    Downhill(net) && Tree(net) && InputsListed(net)
  }

  /** Events come to input port `p`: its accessor is initialised, and some port feeds it. */
  ghost predicate Exposed(net: Network, p: nat)
  {
    Queues(net, p) && OwnerOf(net, p) in net.initialized && exists q: nat :: p in Out(net, q)
  }

  /** Every input port that events come to has handlers. */
  ghost predicate AllHandled(net: Network)
  {
    forall p {:trigger Exposed(net, p)} :: Exposed(net, p) ==> p in net.handlers
  }

  // ----- the input queue of one port -----

  function PortOf(s: State, p: nat): InputPort
  {
    if p in s.ports then s.ports[p] else EMPTY
  }

  function QueueInput(i: InputPort, e: Event): InputPort
  {
    i.(queue := i.queue + [e], waiting := (i.queue + [e])[0] != Null, received := i.received + [e])
  }

  function DequeueLatestInput(i: InputPort): InputPort
  {
    if i.queue == [] then i
    else i.(queue := i.queue[1..],
            waiting := |i.queue| > 1 && i.queue[1] != Null,
            handled := i.handled + [i.queue[0]])
  }

  /**
   Nothing is lost, doubled or reordered: what came in was handled or is queued, in order;
   what was passed on is what was handled and the event at the front; and the port waits
   for its handlers exactly while an event is queued.
   */
  ghost predicate Orderly(i: InputPort)
  {
    && i.received == i.handled + i.queue
    && i.forwarded == i.handled + (if i.queue == [] then [] else i.queue[..1])
    && (i.waiting <==> i.queue != [])
    && (forall k :: 0 <= k < |i.queue| ==> i.queue[k] != Null)
  }

  /** What happens to a port: an event arrives, one is dequeued, or its accessor reacts. */
  datatype PortStep = Arrive(event: Event) | Dequeue | React

  function AfterStep(i: InputPort, step: PortStep): InputPort
  {
    match step
    case Arrive(e) => QueueInput(i, e)
    case Dequeue => DequeueLatestInput(i)
    case React => if i.waiting then DequeueLatestInput(i) else i
  }

  function PortRun(i: InputPort, steps: seq<PortStep>): InputPort
    decreases |steps|
  {
    if steps == [] then i else PortRun(AfterStep(i, steps[0]), steps[1..])
  }

  /** The port waits exactly while there is a real event at the front. */
  predicate WaitsForFront(i: InputPort)
  {
    i.waiting <==> i.queue != [] && i.queue[0] != Null
  }

  lemma {:induction false} RunWaitsForFront(i: InputPort, steps: seq<PortStep>)
    requires WaitsForFront(i)
    ensures WaitsForFront(PortRun(i, steps))
    decreases |steps|
  {
    if steps != [] {
      RunWaitsForFront(AfterStep(i, steps[0]), steps[1..]);
    }
  }

  /** After any run the waiting flag follows the queue if and only if no null event is at the front. */
  lemma WaitingFollowsQueueExactly(steps: seq<PortStep>)
    ensures var i := PortRun(EMPTY, steps);
      (i.waiting <==> i.queue != []) <==> (i.queue == [] || i.queue[0] != Null)
  {
    RunWaitsForFront(EMPTY, steps);
  }

  /** A null event at the front blocks its port for good, whatever arrives behind it. */
  lemma {:induction false} NullBlocksPort(i: InputPort, steps: seq<PortStep>)
    requires WaitsForFront(i) && i.queue != [] && i.queue[0] == Null
    requires Dequeue !in steps
    ensures var r := PortRun(i, steps); !r.waiting && r.handled == i.handled && i.queue <= r.queue
    decreases |steps|
  {
    if steps != [] {
      assert steps[0] in steps && forall x :: x in steps[1..] ==> x in steps;
      NullBlocksPort(AfterStep(i, steps[0]), steps[1..]);
    }
  }

  /** So no null event is ever handled, nor anything that came after one. */
  lemma {:induction false} NullIsNeverHandled(i: InputPort, steps: seq<PortStep>)
    requires WaitsForFront(i) && i.received == i.handled + i.queue && Null !in i.handled
    requires Dequeue !in steps
    ensures var r := PortRun(i, steps); r.received == r.handled + r.queue && Null !in r.handled
    decreases |steps|
  {
    if steps != [] {
      assert steps[0] in steps && forall x :: x in steps[1..] ==> x in steps;
      var r := AfterStep(i, steps[0]);
      assert r.received == r.handled + r.queue;
      NullIsNeverHandled(r, steps[1..]);
    }
  }

  /** The port after `n` reactions of its accessor and nothing else. */
  function Reacted(i: InputPort, n: nat): InputPort
    decreases n
  {
    if n == 0 then i else Reacted(AfterStep(i, React), n - 1)
  }

  /** Under all further reactions the port waits exactly while an event is queued. */
  ghost predicate Usable(i: InputPort)
  {
    forall n: nat {:trigger Reacted(i, n)} :: Reacted(i, n).waiting <==> Reacted(i, n).queue != []
  }

  lemma {:induction false} NullArrives(i: InputPort, steps: seq<PortStep>)
    ensures Null in PortRun(i, steps).received <==> Null in i.received || Arrive(Null) in steps
    decreases |steps|
  {
    if steps != [] {
      NullArrives(AfterStep(i, steps[0]), steps[1..]);
      assert Arrive(Null) in steps <==> steps[0] == Arrive(Null) || Arrive(Null) in steps[1..];
    }
  }

  lemma {:induction false} WithoutNullStaysUsable(i: InputPort, n: nat)
    requires WaitsForFront(i) && Null !in i.queue
    ensures Reacted(i, n).waiting <==> Reacted(i, n).queue != []
    decreases n
  {
    if n == 0 {
      var front := if i.queue == [] then Null else i.queue[0];
      assert i.queue != [] ==> front in i.queue;
    } else {
      RunWaitsForFront(i, [React]);
      var r := AfterStep(i, React);
      assert PortRun(i, [React]) == PortRun(r, [React][1..]) == r;
      assert forall e :: e in r.queue ==> e in i.queue;
      WithoutNullStaysUsable(r, n - 1);
    }
  }

  lemma {:induction false} NullComesToFront(i: InputPort) returns (n: nat)
    requires WaitsForFront(i) && Null in i.queue
    ensures Reacted(i, n).queue != [] && !Reacted(i, n).waiting
    decreases |i.queue|
  {
    if i.queue[0] == Null {
      n := 0;
    } else {
      n := NullComesToFront(AfterStep(i, React));
      n := n + 1;
    }
  }

  /** Whatever arrived and reacted so far, the port stays usable if and only if no null event arrived. */
  lemma PortStaysUsableExactly(steps: seq<PortStep>)
    requires Dequeue !in steps
    ensures Usable(PortRun(EMPTY, steps)) <==> Arrive(Null) !in steps
  {
    var i := PortRun(EMPTY, steps);
    RunWaitsForFront(EMPTY, steps);
    NullIsNeverHandled(EMPTY, steps);
    NullArrives(EMPTY, steps);
    assert Null in i.received <==> Null in i.handled || Null in i.queue;
    if Null in i.queue {
      var n := NullComesToFront(i);
      assert !(Reacted(i, n).waiting <==> Reacted(i, n).queue != []);
    } else {
      forall n: nat ensures Reacted(i, n).waiting <==> Reacted(i, n).queue != [] {
        WithoutNullStaysUsable(i, n);
      }
    }
  }

  // ----- asking for a reaction -----

  function Wakeups(s: State, c: nat): set<nat>
  {
    if c in s.wakeups then s.wakeups[c] else {}
  }

  /** Entries of the unique priority queue: an element that is in it is not added again. */
  function Pushed(s: State, c: nat, child: nat): State
  {
    s.(wakeups := s.wakeups[c := Wakeups(s, c) + {child}])
  }

  function ScheduleReaction(net: Network, s: State, c: nat, child: nat, priority: int): State
    requires Tree(net)
    decreases Height(net, net.host) - Height(net, c)
  {
    var p := if priority == INT_MAX then PriorityOf(net, c) else priority;
    if c in net.parent then ScheduleReaction(net, Pushed(s, c, child), net.parent[c], c, p)
    else if !s.requested then Pushed(s, c, child).(requested := true, callbacks := s.callbacks + [p])
    else Pushed(s, c, child)
  }

  function AlertNewInput(net: Network, s: State, a: nat): State
    requires Tree(net)
  {
    if a in net.parent then ScheduleReaction(net, s, net.parent[a], a, PriorityOf(net, a)) else s
  }

  // ----- sending and receiving -----

  /** The destinations of `p` from the k-th on receive `e`, one after another. */
  function SendFrom(net: Network, s: State, p: nat, k: nat, e: Event): State
    requires Downhill(net) && Tree(net)
    decreases Rank(net, p), |Out(net, p)| - k
  {
    if k >= |Out(net, p)| then s
    else SendFrom(net, Receive(net, s, Out(net, p)[k], e), p, k + 1, e)
  }

  function SendData(net: Network, s: State, p: nat, e: Event): State
    requires Downhill(net) && Tree(net)
    decreases Rank(net, p), |Out(net, p)| + 1
  {
    SendFrom(net, s, p, 0, e)
  }

  function Receive(net: Network, s: State, p: nat, e: Event): State
    requires Downhill(net) && Tree(net)
    decreases Rank(net, p), |Out(net, p)| + 2
  {
    if OwnerOf(net, p) !in net.initialized then s
    else if !Queues(net, p) then SendData(net, s, p, e)
    else
      var i := QueueInput(PortOf(s, p), e);
      if !PortOf(s, p).waiting && i.waiting then
        var r := s.(ports := s.ports[p := i.(forwarded := i.forwarded + [e])]);
        SendData(net, AlertNewInput(net, r, OwnerOf(net, p)), p, e)
      else s.(ports := s.ports[p := i])
  }

  // ----- one reaction of an atomic accessor -----

  /**
   The handlers of port `p` take its front event; the next one, if any, is passed on. The
   look-up of the handlers throws if there are none, before anything has changed.
   */
  function HandleInput(net: Network, s: State, a: nat, p: nat): State
    requires Downhill(net) && Tree(net)
  {
    if !PortOf(s, p).waiting then s
    else if p !in net.handlers then s.(thrown := true)
    else
      var i := DequeueLatestInput(PortOf(s, p));
      if !i.waiting || i.queue == [] then s.(ports := s.ports[p := i])
      else
        var r := s.(ports := s.ports[p := i.(forwarded := i.forwarded + [i.queue[0]])]);
        SendData(net, AlertNewInput(net, r, a), p, i.queue[0])
  }

  function ProcessFrom(net: Network, s: State, a: nat, k: nat): State
    requires Downhill(net) && Tree(net)
    decreases |InputsOf(net, a)| - k
  {
    if k >= |InputsOf(net, a)| || s.thrown then s
    else ProcessFrom(net, HandleInput(net, s, a, InputsOf(net, a)[k]), a, k + 1)
  }

  function ProcessInputs(net: Network, s: State, a: nat): State
    requires Downhill(net) && Tree(net)
  {
    ProcessFrom(net, s, a, 0)
  }
}
