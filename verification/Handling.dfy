/**
 What one reaction of an atomic accessor handles: of every input port that waits, the front
 event, once, and the ports in their order up to one that throws.
 */
module Handling {
  import opened Network
  import opened Passes

  /** Every port's history is complete, and it waits exactly for a real event at its front. */
  ghost predicate Kept(s: State)
  {
    forall p {:trigger PortOf(s, p)} :: Historic(PortOf(s, p)) && WaitsForFront(PortOf(s, p))
  }

  /** The front event of a waiting port was handled; other ports only received. */
  ghost predicate HandledFront(i: InputPort, j: InputPort)
  {
    i.queue != [] && j.handled == i.handled + [i.queue[0]]
  }

  lemma PassedKeeps(net: Network, s: State, r: State)
    requires Passed(net, s, r) && Kept(s)
    ensures Kept(r)
  {
    forall p ensures Historic(PortOf(r, p)) && WaitsForFront(PortOf(r, p)) {
      assert PortPassed(PortOf(s, p), PortOf(r, p));
    }
  }

  /** One turn: the port's own front event if it waits; every other port keeps its queue. */
  lemma TurnHandles(net: Network, s: State, a: nat, p: nat, q: nat)
    requires Downhill(net) && Tree(net) && Kept(s) && (PortOf(s, p).waiting ==> p in net.handlers)
    ensures var r := HandleInput(net, s, a, p);
      && Kept(r) && r.thrown == s.thrown
      && (q != p ==> PortOf(r, q).handled == PortOf(s, q).handled && PortOf(s, q).queue <= PortOf(r, q).queue
                     && (PortOf(s, q).waiting ==> PortOf(r, q).waiting))
      && (PortOf(s, p).waiting ==> HandledFront(PortOf(s, p), PortOf(r, p)))
      && (!PortOf(s, p).waiting ==> r == s)
  {
    if PortOf(s, p).waiting {
      var i := PortOf(s, p);
      var d := DequeueLatestInput(i);
      var more := d.waiting && d.queue != [];
      var j := if more then d.(forwarded := d.forwarded + [d.queue[0]]) else d;
      var t := s.(ports := s.ports[p := j]);
      forall x ensures Historic(PortOf(t, x)) && WaitsForFront(PortOf(t, x)) {
        assert Historic(PortOf(s, x)) && WaitsForFront(PortOf(s, x));
        assert x != p ==> PortOf(t, x) == PortOf(s, x);
      }
      HandlingPasses(net, s, a, p);
      var r := HandleInput(net, s, a, p);
      PassedKeeps(net, t, r);
      assert PortPassed(PortOf(t, q), PortOf(r, q)) && PortPassed(PortOf(t, p), PortOf(r, p));
    }
  }

  /** Port `q` had its turn, among `turns`, if it was waiting; without a turn it handled nothing. */
  ghost predicate HadTurn(s: State, r: State, q: nat, turns: seq<nat>)
  {
    && (q in turns && PortOf(s, q).waiting ==> HandledFront(PortOf(s, q), PortOf(r, q)))
    && (q !in turns ==> PortOf(r, q).handled == PortOf(s, q).handled)
  }

  lemma TurnBefore(net: Network, s: State, r: State, a: nat, p: nat, q: nat, turns: seq<nat>)
    requires Downhill(net) && Tree(net) && Kept(s) && (PortOf(s, p).waiting ==> p in net.handlers) && p !in turns
    requires HadTurn(HandleInput(net, s, a, p), r, q, turns) && HadTurn(HandleInput(net, s, a, p), r, p, turns)
    ensures HadTurn(s, r, q, [p] + turns)
  {
    TurnHandles(net, s, a, p, q);
    assert q in [p] + turns <==> q == p || q in turns;
  }

  /** Port `q` had its turn, if it has one among `turns`, and no second one. */
  ghost predicate HadOneTurn(s: State, r: State, q: nat, turns: seq<nat>)
  {
    && HadTurn(s, r, q, turns)
    && PortOf(s, q).handled <= PortOf(r, q).handled && |PortOf(r, q).handled| <= |PortOf(s, q).handled| + 1
  }

  lemma OneTurnBefore(net: Network, s: State, r: State, a: nat, p: nat, q: nat, turns: seq<nat>)
    requires Downhill(net) && Tree(net) && Kept(s) && (PortOf(s, p).waiting ==> p in net.handlers) && p !in turns
    requires HadOneTurn(HandleInput(net, s, a, p), r, q, turns) && HadOneTurn(HandleInput(net, s, a, p), r, p, turns)
    ensures HadOneTurn(s, r, q, [p] + turns)
  {
    TurnBefore(net, s, r, a, p, q, turns);
    TurnHandles(net, s, a, p, q);
  }

  /**
   A reaction that does not throw handles the front event of every waiting input, and of no
   port more than one event.
   */
  lemma {:induction false} ReactionHandlesOnce(net: Network, s: State, a: nat, k: nat, q: nat)
    requires Downhill(net) && Tree(net) && Kept(s) && !ProcessFrom(net, s, a, k).thrown
    requires forall i, j :: 0 <= i < j < |InputsOf(net, a)| ==> InputsOf(net, a)[i] != InputsOf(net, a)[j]
    requires k <= |InputsOf(net, a)|
    ensures HadOneTurn(s, ProcessFrom(net, s, a, k), q, InputsOf(net, a)[k..])
    decreases |InputsOf(net, a)| - k
  {
    if k < |InputsOf(net, a)| && !s.thrown {
      var inputs := InputsOf(net, a);
      var p := inputs[k];
      var t := HandleInput(net, s, a, p);
      ThrownStays(net, t, a, k + 1);
      TurnHandles(net, s, a, p, p);
      ReactionHandlesOnce(net, t, a, k + 1, q);
      ReactionHandlesOnce(net, t, a, k + 1, p);
      assert inputs[k..] == [p] + inputs[k + 1..];
      OneTurnBefore(net, s, ProcessFrom(net, t, a, k + 1), a, p, q, inputs[k + 1..]);
    }
  }

  lemma ThrownStays(net: Network, s: State, a: nat, k: nat)
    requires Downhill(net) && Tree(net)
    ensures s.thrown ==> ProcessFrom(net, s, a, k) == s
  {
  }

  /**
   A reaction that throws does so at an input without handlers: the waiting inputs before it
   have been handled, and no other port has.
   */
  lemma {:induction false} ReactionStopsAt(net: Network, s: State, a: nat, k: nat) returns (j: nat)
    requires Downhill(net) && Tree(net) && Kept(s) && !s.thrown && ProcessFrom(net, s, a, k).thrown
    requires forall i, j :: 0 <= i < j < |InputsOf(net, a)| ==> InputsOf(net, a)[i] != InputsOf(net, a)[j]
    requires k <= |InputsOf(net, a)|
    ensures k <= j < |InputsOf(net, a)| && InputsOf(net, a)[j] !in net.handlers
    ensures forall q: nat :: HadTurn(s, ProcessFrom(net, s, a, k), q, InputsOf(net, a)[k..j])
    decreases |InputsOf(net, a)| - k
  {
    var inputs := InputsOf(net, a);
    var p := inputs[k];
    var t := HandleInput(net, s, a, p);
    if PortOf(s, p).waiting && p !in net.handlers {
      j := k;
      ThrownStays(net, t, a, k + 1);
    } else {
      TurnHandles(net, s, a, p, p);
      j := ReactionStopsAt(net, t, a, k + 1);
      var r := ProcessFrom(net, t, a, k + 1);
      assert inputs[k..j] == [p] + inputs[k + 1..j];
      forall q: nat ensures HadTurn(s, r, q, inputs[k..j]) {
        TurnBefore(net, s, r, a, p, q, inputs[k + 1..j]);
      }
    }
  }
}
