/** Ports as objects that hold their links, and the operations that change the links in place. */
module Ports {
  import opened Wrappers
  import opened Sequences
  import opened Wiring

  class Port {
    const spontaneous: bool
    var source: Port?
    var destinations: seq<Port>

    constructor (isSpontaneous: bool)
      ensures source == null && destinations == [] && spontaneous == isSpontaneous
    {
      spontaneous, source, destinations := isSpontaneous, null, [];
    }

    /** Connect two ports; on refusal nothing changes. */
    static method Link(source: Port, destination: Port, ghost ports: set<Port>) returns (refusal: Option<Failure>)
      requires source in ports && destination in ports
      modifies destination`source, source`destinations
      ensures refusal == old(Refusal(Graph(ports), SpontaneousAmong(ports), source, destination))
      ensures Graph(ports) == Apply(old(Graph(ports)), SpontaneousAmong(ports), Connect(source, destination))
      // refused for these two reasons only, and then unchanged; otherwise the new port stands last
      ensures refusal == Some(AlreadyConnected) <==> old(destination.source) != null && old(destination.source) != source
      ensures refusal == Some(Failure.Spontaneous) <==>
              (old(destination.source) == null || old(destination.source) == source) && destination.spontaneous
      ensures refusal == None ==>
                destination.source == source && source.destinations == old(source.destinations) + [destination]
      ensures refusal != None ==>
                destination.source == old(destination.source) && source.destinations == old(source.destinations)
    {
      ghost var w := Graph(ports);
      if destination.source != null && destination.source != source {
        return Some(AlreadyConnected);
      } else if destination.spontaneous {
        return Some(Failure.Spontaneous);
      }
      destination.source := source;
      source.destinations := source.destinations + [destination];
      refusal := None;
      ghost var r := Connected(w, source, destination);
      assert Graph(ports).source == r.source;
      assert Graph(ports).destinations == r.destinations;
    }

    /** Erase the first entry for `destination`, if there is one. */
    method EraseDestination(destination: Port)
      modifies this`destinations
      ensures destinations == Remove(old(destinations), destination)
    {
      var q := destinations;
      var k := 0;
      while k < |q| && q[k] != destination
        invariant 0 <= k <= |q| && destination !in q[..k]
      {
        k := k + 1;
      }
      if k < |q| {
        RemoveAt(q, k);
        destinations := q[..k] + q[k + 1..];
      } else {
        assert q[..k] == q;
        RemoveAbsent(q, destination);
      }
    }

    static method Unlink(source: Port, destination: Port, ghost ports: set<Port>)
      requires source in ports && destination in ports
      modifies destination`source, source`destinations
      ensures Graph(ports) == Disconnected(old(Graph(ports)), source, destination)
      ensures old(Closed(ports)) ==> Closed(ports)
      ensures old(destination.source) == source ==> destination.source == null
      ensures old(destination.source) != source ==>
                destination.source == old(destination.source) && source.destinations == old(source.destinations)
    {
      ghost var w := Graph(ports);
      if destination.source == source {
        source.EraseDestination(destination);
        RemoveMembers(old(source.destinations), destination);
        destination.source := null;
        ghost var r := Disconnected(w, source, destination);
        assert Graph(ports).source == r.source;
        assert Graph(ports).destinations == r.destinations;
      }
    }

    /** Cut every link of a port. It ends because no link of a consistent graph is doubled. */
    static method UnlinkAll(port: Port, ghost ports: set<Port>)
      requires port in ports && Closed(ports) && Consistent(Graph(ports), ports)
      modifies ports`source, ports`destinations
      ensures Closed(ports) && Consistent(Graph(ports), ports)
      ensures Graph(ports) == Isolated(old(Graph(ports)), port)
    {
      UnlinkSource(port, ports);
      UnlinkDestinations(port, ports);
    }

    static method UnlinkSource(port: Port, ghost ports: set<Port>)
      requires port in ports && Closed(ports) && Consistent(Graph(ports), ports)
      modifies ports`source, ports`destinations
      ensures Closed(ports) && Consistent(Graph(ports), ports)
      ensures Graph(ports) == SourceCut(old(Graph(ports)), port)
    {
      ghost var w := Graph(ports);
      if port.source != null {
        assert port in w.source && w.source[port] == port.source && port.source in ports;
        DisconnectedStaysConsistent(w, ports, port.source, port);
        Unlink(port.source, port, ports);
      }
    }

    static method UnlinkDestinations(port: Port, ghost ports: set<Port>)
      requires port in ports && Closed(ports) && Consistent(Graph(ports), ports)
      modifies ports`source, ports`destinations
      ensures Closed(ports) && Consistent(Graph(ports), ports)
      ensures Graph(ports) == CutOff(old(Graph(ports)), port)
    {
      ghost var w := Graph(ports);
      while port.destinations != []
        invariant Closed(ports) && Consistent(Graph(ports), ports)
        invariant CutOff(Graph(ports), port) == CutOff(w, port)
        decreases |port.destinations|
      {
        var destination := port.destinations[0];
        ghost var g := Graph(ports);
        assert destination in port.destinations;
        PeelingStep(g, ports, port);
        Unlink(port, destination, ports);
        assert port.destinations == Destinations(Graph(ports), port);
      }
      NothingToCut(Graph(ports), ports, port);
    }
  }

  /** `w` without any link from `p`. */
  ghost function CutOff(w: Wires<Port>, p: Port): Wires<Port>
  {
    Wires(map d | d in w.source && w.source[d] != p :: w.source[d], w.destinations[p := []])
  }

  lemma PeelingStep(w: Wires<Port>, ports: set<Port>, p: Port)
    requires Consistent(w, ports) && p in ports && Destinations(w, p) != [] && Destinations(w, p)[0] in ports
    ensures var r := Disconnected(w, p, Destinations(w, p)[0]);
      && Consistent(r, ports) && CutOff(r, p) == CutOff(w, p)
      && |Destinations(r, p)| < |Destinations(w, p)|
  {
    var d := Destinations(w, p)[0];
    assert d in Destinations(w, p);
    assert d in multiset(Destinations(w, p)) && Excess(w, p, d) == 0;
    DisconnectedStaysConsistent(w, ports, p, d);
  }

  lemma NothingToCut(w: Wires<Port>, ports: set<Port>, p: Port)
    requires Consistent(w, ports) && p in ports && p in w.destinations && w.destinations[p] == []
    requires w.source.Keys <= ports
    ensures CutOff(w, p) == w
  {
    forall d | d in w.source ensures w.source[d] != p {
      assert Excess(w, p, d) == 0;
    }
  }

  /** The links of `ports` as a value. */
  ghost function Graph(ports: set<Port>): Wires<Port>
    reads ports
  {
    Wires(map p: Port | p in ports && p.source != null :: p.source as Port, map p: Port | p in ports :: p.destinations)
  }

  ghost function SpontaneousAmong(ports: set<Port>): set<Port>
  {
    set p | p in ports && p.spontaneous
  }

  /** No link leaves `ports`. */
  ghost predicate Closed(ports: set<Port>)
    reads ports
  {
    forall p :: p in ports ==>
      (p.source != null ==> p.source in ports) && forall d :: d in p.destinations ==> d in ports
  }

  lemma DisconnectedStaysConsistent(w: Wires<Port>, ports: set<Port>, s: Port, d: Port)
    requires Consistent(w, ports) && s in ports && d in ports
    ensures Consistent(Disconnected(w, s, d), ports)
  {
    forall x, y | x in ports && y in ports ensures Excess(Disconnected(w, s, d), x, y) == 0 {
      ApplyExcess(w, {}, Disconnect(s, d), x, y);
    }
  }

  ghost function SourceCut(w: Wires<Port>, p: Port): Wires<Port>
  {
    if p in w.source then Disconnected(w, w.source[p], p) else w
  }

  /** `w` without any link to or from `p`. */
  ghost function Isolated(w: Wires<Port>, p: Port): Wires<Port>
  {
    CutOff(SourceCut(w, p), p)
  }

  /**
   Isolating a port leaves it without source and destinations, takes it out of the lists of
   the others, and leaves every other link as it was, in the same order.
   */
  lemma IsolatedKeepsOtherLinks(w: Wires<Port>, ports: set<Port>, p: Port)
    requires Consistent(w, ports) && p in ports
    requires forall d :: d in w.source ==> d in ports && w.source[d] in ports
    ensures var r := Isolated(w, p);
      && p !in r.source && Destinations(r, p) == []
      && (forall q :: q in ports && q != p ==> Destinations(r, q) == Remove(Destinations(w, q), p))
      && (forall s, d :: s in ports && d in ports ==> (IsSource(r, s, d) <==> IsSource(w, s, d) && s != p && d != p))
  {
    var r := Isolated(w, p);
    forall q | q in ports && q != p ensures Destinations(r, q) == Remove(Destinations(w, q), p) {
      assert Excess(w, q, p) == 0;
      if !IsSource(w, q, p) {
        assert multiset(Destinations(w, q))[p] == 0;
        assert p !in Destinations(w, q);
        RemoveAbsent(Destinations(w, q), p);
      }
    }
  }
}
