/**
 The network as a machine of small steps: outputs are sent, the host's reaction starts, and
 the composites on its call stack pick one child after another, always one with the least
 priority value. A reaction may throw.
 */
module DrainSteps {
  import opened Wrappers
  import N = Network

  /** The state, and the composites whose queues are being drained, the host first. */
  datatype Config = Config(state: N.State, stack: seq<nat>)

  datatype Step =
    | Send(port: nat, event: N.Event)
    | Start
    | Pick(child: nat)
    | Return

  /** `child` is queued with `c`, and no queued child has a smaller priority value. */
  predicate IsNext(net: N.Network, s: N.State, c: nat, child: nat)
  {
    child in N.Wakeups(s, c) && forall x :: x in N.Wakeups(s, c) ==> N.PriorityOf(net, child) <= N.PriorityOf(net, x)
  }

  function Popped(s: N.State, c: nat, child: nat): N.State
  {
    s.(wakeups := s.wakeups[c := N.Wakeups(s, c) - {child}])
  }

  function Picked(net: N.Network, x: Config, c: nat, child: nat): Config
    requires N.Downhill(net) && N.Tree(net)
  {
    var popped := Popped(x.state, c, child);
    if child in net.model.atoms then Config(N.ProcessInputs(net, popped, child), x.stack)
    else Config(popped, x.stack + [child])
  }

  function Returned(x: Config): Config
    requires x.stack != []
  {
    var n := |x.stack| - 1;
    Config(if n == 0 then x.state.(requested := false) else x.state, x.stack[..n])
  }

  /** There is no next step after an exception. */
  function Next(net: N.Network, x: Config, step: Step): Option<Config>
    requires N.Downhill(net) && N.Tree(net)
  {
    if x.state.thrown then None
    else match step
      case Send(p, e) =>
        if x.stack == [] && e != N.Null then Some(Config(N.SendData(net, x.state, p, e), [])) else None
      case Start =>
        if x.stack == [] && x.state.callbacks != []
        then Some(Config(x.state.(callbacks := x.state.callbacks[1..]), [net.host])) else None
      case Pick(child) =>
        if x.stack != [] && IsNext(net, x.state, x.stack[|x.stack| - 1], child)
        then Some(Picked(net, x, x.stack[|x.stack| - 1], child)) else None
      case Return =>
        if x.stack != [] && N.Wakeups(x.state, x.stack[|x.stack| - 1]) == {} then Some(Returned(x)) else None
  }

  function Run(net: N.Network, x: Config, steps: seq<Step>): Option<Config>
    requires N.Downhill(net) && N.Tree(net)
    decreases |steps|
  {
    if steps == [] then Some(x)
    else match Next(net, x, steps[0])
      case None => None
      case Some(y) => Run(net, y, steps[1..])
  }

  lemma {:induction false} RunConcat(net: N.Network, x: Config, xs: seq<Step>, ys: seq<Step>)
    requires N.Downhill(net) && N.Tree(net) && Run(net, x, xs).Some?
    ensures Run(net, x, xs + ys) == Run(net, Run(net, x, xs).value, ys)
    decreases |xs|
  {
    if xs == [] {
      assert xs + ys == ys;
    } else {
      var all := xs + ys;
      assert all[0] == xs[0] && all[1..] == xs[1..] + ys;
      RunConcat(net, Next(net, x, xs[0]).value, xs[1..], ys);
    }
  }

  lemma RunOne(net: N.Network, x: Config, step: Step)
    requires N.Downhill(net) && N.Tree(net)
    ensures Run(net, x, [step]) == Next(net, x, step)
  {
    assert [step][1..] == [];
  }

  /** Whoever is picked is queued with the composite on top, and nobody queued there has a smaller value. */
  lemma PickIsLeast(net: N.Network, x: Config, child: nat, other: nat)
    requires N.Downhill(net) && N.Tree(net) && Next(net, x, Pick(child)).Some?
    ensures x.stack != []
    ensures var c := x.stack[|x.stack| - 1];
      && child in N.Wakeups(x.state, c)
      && (other in N.Wakeups(x.state, c) ==> N.PriorityOf(net, child) <= N.PriorityOf(net, other))
  {
  }

  /** A child with the least priority value is picked. */
  lemma ChildIsPicked(net: N.Network, s: N.State, below: seq<nat>, c: nat, child: nat)
    requires N.Downhill(net) && N.Tree(net) && IsNext(net, s, c, child) && !s.thrown
    ensures Run(net, Config(s, below + [c]), [Pick(child)]) == Some(Picked(net, Config(s, below + [c]), c, child))
  {
    RunOne(net, Config(s, below + [c]), Pick(child));
  }

  /** A composite with an empty queue returns; the host takes back its request. */
  lemma StackReturns(net: N.Network, s: N.State, below: seq<nat>, c: nat)
    requires N.Downhill(net) && N.Tree(net) && N.Wakeups(s, c) == {} && !s.thrown
    ensures Run(net, Config(s, below + [c]), [Return])
         == Some(Config(if below == [] then s.(requested := false) else s, below))
  {
    var x := Config(s, below + [c]);
    RunOne(net, x, Return);
    assert x.stack[..|x.stack| - 1] == below;
  }

  lemma ReactionStarts(net: N.Network, s: N.State)
    requires N.Downhill(net) && N.Tree(net) && !s.thrown && s.callbacks != []
    ensures Run(net, Config(s, []), [Start]) == Some(Config(s.(callbacks := s.callbacks[1..]), [] + [net.host]))
  {
    RunOne(net, Config(s, []), Start);
    assert [] + [net.host] == [net.host];
  }
}
