/**
  Convergence of the Chord ring: the pointers change only boundedly often, and a reachable state
  in which nobody's Stabilize round would change a pointer is exactly the ideal ring, which no
  further step except a join disturbs.
 */
module ChordConvergence {
  import opened Wrappers
  import opened Circle
  import opened ChordNode
  import opened ChordGraph
  import opened ChordNetwork
  import opened Sums

  /** The recorded predecessors. */
  ghost function Pred(net: Net): (r: Links) {
    map y | y in net.nodes && net.nodes[y].predecessor.Some? :: net.nodes[y].predecessor.value
  }

  /**
    The ideal ring over all joined nodes: nobody sits between a node and its successor, and
    everybody's recorded predecessor is the node whose successor they are.
   */
  ghost predicate Ideal(succ: Links, pred: Links) {
    Ordered(succ) && forall y :: y in succ ==> IsInverseAt(succ, pred, y)
  }

  /** A whole Stabilize round of `x`, answered and delivered at once, would change no pointer. */
  ghost predicate RoundIsIdle(net: Net, x: Id)
    requires x in net.nodes && net.nodes[x].successor.Some? && net.nodes[x].successor.value in net.nodes
  {
    var n, s := net.nodes[x], net.nodes[net.nodes[x].successor.value];
    Adopt(n, s.predecessor).successor == n.successor && Notified(s, x).predecessor == s.predecessor
  }

  ghost predicate AtRest(net: Net) {
    forall x :: x in net.nodes && net.nodes[x].successor.Some? && net.nodes[x].successor.value in net.nodes ==>
      RoundIsIdle(net, x)
  }

  /** What an idle round says about the pointers, and what it needs of them. */
  lemma IdleRound(net: Net, x: Id, joined: set<Id>, before: set<(Id, Id)>)
    requires Facts(net, joined, before) && x in joined
    ensures net.nodes[x].successor.Some? && net.nodes[x].successor.value in net.nodes
    ensures RoundIsIdle(net, x) <==> net.nodes[net.nodes[x].successor.value].predecessor == Some(x)
  {
    assert NodeOk(net.size, joined, before, x, net.nodes[x]);
    var s := net.nodes[x].successor.value;
    assert NodeOk(net.size, joined, before, s, net.nodes[s]);
    var p := net.nodes[s].predecessor;
    if p.Some? {
      BetweenExcludes(p.value, x, s);
    }
  }

  lemma BetweenExcludes(p: Id, x: Id, s: Id)
    requires p != s && x != s
    ensures !Between(p, x, s) && !Between(x, p, s) <==> p == x
  {
  }

  lemma RestSettles(net: Net, succ: Links, before: set<(Id, Id)>)
    requires Facts(net, succ.Keys, before)
    requires forall x :: x in net.nodes && net.nodes[x].successor.Some? ==> x in succ
    requires forall x :: x in succ ==> x in net.nodes && net.nodes[x].successor == Some(Next(succ, x))
    ensures AtRest(net) <==> SettledNet(net, succ)
  {
    forall x | x in succ
      ensures Next(succ, x) in net.nodes && (RoundIsIdle(net, x) <==> net.nodes[Next(succ, x)].predecessor == Some(x))
    {
      IdleRound(net, x, succ.Keys, before);
    }
  }

  /** On an ordered ring only one node has a given successor. */
  lemma OrderedIsInjective(size: nat, succ: Links, x: Id, y: Id)
    requires Closed(size, succ) && Ordered(succ) && x in succ && y in succ && Next(succ, x) == Next(succ, y)
    ensures x == y
  {
    BetweenExcludes(x, y, Next(succ, x));
    assert !Between(y, x, Next(succ, x)) && !Between(x, y, Next(succ, y));
  }

  ghost predicate SettledNet(net: Net, succ: Links) {
    forall x :: x in succ ==> Next(succ, x) in net.nodes && net.nodes[Next(succ, x)].predecessor == Some(x)
  }

  lemma SettledNetIsSettled(net: Net, succ: Links)
    requires SettledNet(net, succ)
    ensures Settled(succ, Pred(net))
  {
  }

  lemma RestIsSettled(net: Net, a: Id, b: Id)
    requires Inv(net, a, b)
    ensures AtRest(net) <==> SettledNet(net, Succ(net))
  {
    RestSettles(net, Succ(net), Before(net.size, Succ(net)));
  }

  lemma IdealIsSettled(net: Net, size: nat, succ: Links)
    requires Closed(size, succ) && Ideal(succ, Pred(net))
    ensures SettledNet(net, succ)
  {
    forall x | x in succ ensures Next(succ, x) in net.nodes && net.nodes[Next(succ, x)].predecessor == Some(x) {
      assert Next(succ, x) in succ;
      assert IsInverseAt(succ, Pred(net), Next(succ, x));
      OrderedIsInjective(size, succ, x, Pred(net)[Next(succ, x)]);
    }
  }

  /**
    In every reachable state, nobody's Stabilize round would change a pointer if and only if the
    pointers are the ideal ring over all nodes that have joined.
   */
  lemma RestIffIdeal(net: Net, a: Id, b: Id)
    requires Inv(net, a, b)
    ensures AtRest(net) <==> Ideal(Succ(net), Pred(net))
  {
    RestIsSettled(net, a, b);
    if SettledNet(net, Succ(net)) {
      SettledNetIsSettled(net, Succ(net));
      SettledIsOrdered(net.size, Succ(net), Pred(net), a, b);
    } else if Ideal(Succ(net), Pred(net)) {
      IdealIsSettled(net, net.size, Succ(net));
    }
  }

  // ------------------------------------------------------- the ideal ring stays

  /** The step completes a join. */
  ghost predicate CompletesJoin(net: Net, e: Event)
    requires Enabled(net, e)
  {
    e.HandleFindReply? && net.nodes[e.p.dst].successor.None?
  }

  ghost predicate SamePointers(n: Node, n': Node) {
    n'.successor == n.successor && n'.predecessor == n.predecessor
  }

  /** The step changes a pointer of an existing node. */
  ghost predicate Changes(net: Net, e: Event)
    requires Enabled(net, e)
  {
    match StepNode(net, e)
    case Some(n) => n.id in net.nodes && !SamePointers(net.nodes[n.id], n)
    case None => false
  }

  /** Every joined node has its ideal neighbours. */
  ghost predicate IdealNodes(net: Net, succ: Links) {
    && (forall y :: y in succ ==> y in net.nodes)
    && forall y {:trigger IdealLinks(succ, y, net.nodes[y])} :: y in succ ==> IdealLinks(succ, y, net.nodes[y])
  }

  ghost predicate IdealLinks(succ: Links, y: Id, n: Node)
    requires y in succ
  {
    && n.successor == Some(Next(succ, y)) && n.predecessor.Some?
    && n.predecessor.value in succ && Next(succ, n.predecessor.value) == y
  }

  lemma IdealHasIdealNodes(net: Net)
    requires Ideal(Succ(net), Pred(net))
    ensures IdealNodes(net, Succ(net))
  {
    var succ := Succ(net);
    forall y | y in succ ensures IdealLinks(succ, y, net.nodes[y]) {
      assert IsInverseAt(Succ(net), Pred(net), y);
    }
  }

  lemma FinishOnIdeal(net: Net, x: Id, succ: Links, before: set<(Id, Id)>)
    requires Facts(net, succ.Keys, before) && Enabled(net, FinishStabilize(x))
    requires Ordered(succ) && IdealNodes(net, succ)
    ensures !Changes(net, FinishStabilize(x))
  {
    assert NodeOk(net.size, succ.Keys, before, x, net.nodes[x]) && IdealLinks(succ, x, net.nodes[x]);
    assert ExchangeOk(succ.Keys, before, net.nodes[x], net.asking[x]);
    var reply := net.asking[x].reply;
    assert reply.Some? ==> !Between(reply.value, x, Next(succ, x));
  }

  lemma NotifyIsRefused(net: Net, p: Packet, succ: Links, before: set<(Id, Id)>)
    requires Facts(net, succ.Keys, before) && Enabled(net, HandleNotify(p))
    requires Ordered(succ) && IdealNodes(net, succ)
    ensures !TakesNotify(net.nodes[p.dst], p.src) && net.nodes[p.dst].id == p.dst
  {
    assert PacketOk(succ.Keys, before, p);
    assert NodeOk(net.size, succ.Keys, before, p.dst, net.nodes[p.dst]) && IdealLinks(succ, p.dst, net.nodes[p.dst]);
    var q := net.nodes[p.dst].predecessor.value;
    assert !Between(p.src, q, Next(succ, q));
  }

  lemma NotifyOnIdeal(net: Net, p: Packet, succ: Links, before: set<(Id, Id)>)
    requires Facts(net, succ.Keys, before) && Enabled(net, HandleNotify(p))
    requires Ordered(succ) && IdealNodes(net, succ)
    ensures !Changes(net, HandleNotify(p))
  {
    NotifyIsRefused(net, p, succ, before);
  }

  /** Only joins, Stabilize replies and notifies change pointers. */
  lemma OnlyTheseChange(net: Net, e: Event)
    requires Enabled(net, e) && Named(net) && Changes(net, e)
    ensures e.FinishStabilize? || e.HandleNotify? || CompletesJoin(net, e)
  {
    match e
    case HandleFindReply(p, fixing) =>
    case FixFinger(x) =>
    case _ =>
  }

  lemma StepOnIdeal(net: Net, e: Event, succ: Links, before: set<(Id, Id)>)
    requires Facts(net, succ.Keys, before) && Enabled(net, e) && !CompletesJoin(net, e)
    requires Ordered(succ) && IdealNodes(net, succ)
    ensures !Changes(net, e)
  {
    if e.FinishStabilize? {
      FinishOnIdeal(net, e.n, succ, before);
    } else if e.HandleNotify? {
      NotifyOnIdeal(net, e.p, succ, before);
    } else if Changes(net, e) {
      FactsNamed(net, succ.Keys, before);
      OnlyTheseChange(net, e);
    }
  }

  lemma PointersOfSetNode(net: Net, n: Node)
    requires if n.id in net.nodes then SamePointers(net.nodes[n.id], n) else n.successor.None? && n.predecessor.None?
    ensures Succ(SetNode(net, n)) == Succ(net) && Pred(SetNode(net, n)) == Pred(net)
  {
  }

  lemma PointersOfSameNodes(net: Net, net': Net)
    requires net'.nodes == net.nodes
    ensures Succ(net') == Succ(net) && Pred(net') == Pred(net)
  {
  }

  /** A step that changes no pointer leaves the successor and predecessor graphs alone. */
  lemma QuietKeepsPointers(net: Net, e: Event)
    requires Enabled(net, e) && Named(net) && !Changes(net, e)
    ensures Succ(Apply(net, e)) == Succ(net) && Pred(Apply(net, e)) == Pred(net)
  {
    StepNodes(net, e);
    match StepNode(net, e)
    case None => PointersOfSameNodes(net, Apply(net, e));
    case Some(n) =>
      PointersOfSetNode(net, n);
      PointersOfSameNodes(SetNode(net, n), Apply(net, e));
  }

  /** On the ideal ring no step but the completion of a join changes a pointer. */
  lemma IdealIsStable(net: Net, e: Event, a: Id, b: Id)
    requires Inv(net, a, b) && Ideal(Succ(net), Pred(net))
    requires Enabled(net, e) && !CompletesJoin(net, e)
    ensures !Changes(net, e) && Succ(Apply(net, e)) == Succ(net) && Pred(Apply(net, e)) == Pred(net)
  {
    IdealHasIdealNodes(net);
    StepOnIdeal(net, e, Succ(net), Before(net.size, Succ(net)));
    FactsNamed(net, Succ(net).Keys, Before(net.size, Succ(net)));
    QuietKeepsPointers(net, e);
  }

  // ------------------------------------------------------------ bounded change

  /** Clockwise distance, where both ends are on the circle. */
  function Gap(size: nat, x: Id, y: Id): (d: nat) {
    if x < size && y < size then Dist(size, x, y) else 0
  }

  /** How far a node's pointers are from what they could at best be. */
  function Cost(size: nat, n: Node): (c: nat)
    ensures n.successor.None? && n.predecessor.None? ==> c == 2 * size
  {
    (if n.successor.None? then size else Gap(size, n.id, n.successor.value)) +
    (if n.predecessor.None? then size else Gap(size, n.predecessor.value, n.id))
  }

  ghost function NodeCost(net: Net): (f: Id -> int) {
    x => if x in net.nodes then Cost(net.size, net.nodes[x]) else 0
  }

  ghost function Potential(net: Net): (r: int) {
    Sum(net.nodes.Keys, NodeCost(net))
  }

  /** Each change shortens a clockwise distance or fills an empty pointer. */
  lemma StepNodeCost(net: Net, e: Event, joined: set<Id>, before: set<(Id, Id)>)
    requires Facts(net, joined, before) && Enabled(net, e)
    ensures match StepNode(net, e)
            case Some(n) => n.id in net.nodes ==>
              Cost(net.size, n) + (if Changes(net, e) then 1 else 0) <= Cost(net.size, net.nodes[n.id])
            case None => true
  {
    match e
    case HandleFindReply(p, fixing) =>
      assert PacketOk(joined, before, p);
      assert NodeOk(net.size, joined, before, p.dst, net.nodes[p.dst]);
    case FinishStabilize(x) =>
      assert NodeOk(net.size, joined, before, x, net.nodes[x]);
      FinishCost(net, x, joined, before);
    case HandleNotify(p) =>
      assert NodeOk(net.size, joined, before, p.dst, net.nodes[p.dst]);
      NotifyCost(net, p, joined, before);
    case _ => FactsNamed(net, joined, before);
  }

  lemma OnCircle(net: Net, joined: set<Id>, before: set<(Id, Id)>, x: Id)
    requires Facts(net, joined, before) && x in joined
    ensures x < net.size && x in net.nodes
  {
    assert NodeOk(net.size, joined, before, x, net.nodes[x]);
  }

  lemma FinishCost(net: Net, x: Id, joined: set<Id>, before: set<(Id, Id)>)
    requires Facts(net, joined, before) && Enabled(net, FinishStabilize(x))
    ensures var n, n' := net.nodes[x], Adopt(net.nodes[x], net.asking[x].reply);
            Cost(net.size, n') + (if SamePointers(n, n') then 0 else 1) <= Cost(net.size, n)
  {
    var n, n' := net.nodes[x], Adopt(net.nodes[x], net.asking[x].reply);
    assert NodeOk(net.size, joined, before, x, n);
    if n' != n {
      assert ExchangeOk(joined, before, n, net.asking[x]);
      OnCircle(net, joined, before, n.successor.value);
      OnCircle(net, joined, before, n'.successor.value);
      BetweenIsDistance(net.size, n'.successor.value, x, n.successor.value);
    }
  }

  lemma NotifyCost(net: Net, p: Packet, joined: set<Id>, before: set<(Id, Id)>)
    requires Facts(net, joined, before) && Enabled(net, HandleNotify(p))
    ensures var n, n' := net.nodes[p.dst], Notified(net.nodes[p.dst], p.src);
            Cost(net.size, n') + (if SamePointers(n, n') then 0 else 1) <= Cost(net.size, n)
  {
    var n := net.nodes[p.dst];
    assert PacketOk(joined, before, p);
    assert NodeOk(net.size, joined, before, p.dst, n);
    OnCircle(net, joined, before, p.src);
    if n.predecessor.Some? {
      var q := n.predecessor.value;
      OnCircle(net, joined, before, q);
      BetweenIsDistance(net.size, p.src, q, p.dst);
      if Between(p.src, q, p.dst) {
        DistAdds(net.size, q, p.src, p.dst);
      }
    }
  }

  ghost function Joins(events: seq<Event>): (r: nat) {
    if events == [] then 0 else (if events[0].BeginJoin? then 1 else 0) + Joins(events[1..])
  }

  /** How many steps of the run change a pointer. */
  ghost function ChangeCount(net: Net, events: seq<Event>): (r: nat)
    requires CanRun(net, events)
    decreases |events|
  {
    if events == [] then 0
    else (if Changes(net, events[0]) then 1 else 0) + ChangeCount(Apply(net, events[0]), events[1..])
  }

  lemma SetNodePotential(net: Net, net': Net, n: Node)
    requires net'.nodes == net.nodes[n.id := n] && net'.size == net.size
    ensures n.id in net.nodes ==>
              Potential(net') == Potential(net) - Cost(net.size, net.nodes[n.id]) + Cost(net.size, n)
    ensures n.id !in net.nodes ==> Potential(net') == Potential(net) + Cost(net.size, n)
  {
    var f, g := NodeCost(net), NodeCost(net');
    if n.id in net.nodes {
      assert net'.nodes.Keys == net.nodes.Keys;
      SumChange(net.nodes.Keys, f, g, n.id);
    } else {
      assert net'.nodes.Keys == net.nodes.Keys + {n.id};
      SumInsert(net.nodes.Keys, g, n.id);
      SumAgree(net.nodes.Keys, f, g);
    }
  }

  lemma StepPotential(net: Net, e: Event, joined: set<Id>, before: set<(Id, Id)>)
    requires Facts(net, joined, before) && Enabled(net, e)
    ensures Potential(Apply(net, e)) + (if Changes(net, e) then 1 else 0) <=
            Potential(net) + (if e.BeginJoin? then 2 * net.size else 0)
  {
    FactsNamed(net, joined, before);
    StepNodes(net, e);
    StepNodeCost(net, e, joined, before);
    match StepNode(net, e)
    case Some(n) => SetNodePotential(net, Apply(net, e), n);
    case None => SumAgree(net.nodes.Keys, NodeCost(net), NodeCost(Apply(net, e)));
  }

  lemma StepPays(net: Net, e: Event, a: Id, b: Id)
    requires Inv(net, a, b) && Enabled(net, e)
    ensures Apply(net, e).size == net.size
    ensures Potential(Apply(net, e)) + (if Changes(net, e) then 1 else 0) <=
            Potential(net) + (if e.BeginJoin? then 2 * net.size else 0)
  {
    FactsNamed(net, Succ(net).Keys, Before(net.size, Succ(net)));
    StepNodes(net, e);
    StepPotential(net, e, Succ(net).Keys, Before(net.size, Succ(net)));
  }

  /** What the joins of a run add to the potential: twice the circle's size each. */
  ghost function JoinCredit(size: nat, events: seq<Event>): (r: nat) {
    if events == [] then 0 else (if events[0].BeginJoin? then 2 * size else 0) + JoinCredit(size, events[1..])
  }

  /** Over every run, the potential at the end and the changes are paid for by the start and the joins. */
  lemma {:induction false} RunPays(net: Net, events: seq<Event>, a: Id, b: Id)
    requires Inv(net, a, b) && CanRun(net, events)
    ensures Potential(Final(net, events)) + ChangeCount(net, events) <= Potential(net) + JoinCredit(net.size, events)
    decreases |events|
  {
    if events != [] {
      StepPays(net, events[0], a, b);
      StepKeepsInv(net, events[0], a, b);
      RunPays(Apply(net, events[0]), events[1..], a, b);
    }
  }

  /** In every run the pointer changes are paid for by the potential at the start and the joins. */
  lemma ChangesAreBounded(net: Net, events: seq<Event>, a: Id, b: Id)
    requires Inv(net, a, b) && CanRun(net, events)
    ensures ChangeCount(net, events) <= Potential(net) + JoinCredit(net.size, events)
  {
    RunPays(net, events, a, b);
    SumNonNegative(Final(net, events).nodes.Keys, NodeCost(Final(net, events)));
  }

  lemma FoundedPotential(net: Net, a: Id, b: Id)
    requires Founded(net, a, b)
    ensures Potential(net) == 2 * net.size
  {
    var f := NodeCost(net);
    assert net.nodes.Keys == {a, b};
    SumTakeOut({a, b}, f, a);
    assert {a, b} - {a} == {b};
    SumTakeOut({b}, f, b);
    assert {b} - {b} == {};
    DistRoundTrip(net.size, a, b);
  }

  lemma {:induction false} CreditIsPerJoin(size: nat, events: seq<Event>)
    ensures JoinCredit(size, events) == 2 * size * Joins(events)
  {
    if events != [] {
      CreditIsPerJoin(size, events[1..]);
      var k := Joins(events[1..]);
      assert 2 * size * (k + 1) == 2 * size * k + 2 * size;
    }
  }

  /** From the founding pair, at most 2 * size pointer changes for the pair and for each joining node. */
  lemma FoundedChangesAreBounded(net: Net, events: seq<Event>, a: Id, b: Id)
    requires Founded(net, a, b) && CanRun(net, events)
    ensures ChangeCount(net, events) <= 2 * net.size + 2 * net.size * Joins(events)
  {
    FoundedInv(net, a, b);
    FoundedPotential(net, a, b);
    ChangesAreBounded(net, events, a, b);
    CreditIsPerJoin(net.size, events);
  }

  // ----------------------------------------------------------- reachable states

  /** `net` is where the run `events` of the founding pair `start` ends. */
  ghost predicate RunsTo(start: Net, events: seq<Event>, net: Net, a: Id, b: Id) {
    Founded(start, a, b) && CanRun(start, events) && net == Final(start, events)
  }

  ghost predicate Reachable(net: Net, a: Id, b: Id) {
    exists start, events :: RunsTo(start, events, net, a, b)
  }

  lemma ReachableInv(net: Net, a: Id, b: Id)
    requires Reachable(net, a, b)
    ensures Inv(net, a, b)
  {
    var start, events :| RunsTo(start, events, net, a, b);
    FoundedInv(start, a, b);
    RunKeepsInv(start, events, a, b);
  }

  lemma {:induction false} RunsCompose(net: Net, first: seq<Event>, second: seq<Event>)
    requires CanRun(net, first) && CanRun(Final(net, first), second)
    ensures CanRun(net, first + second) && Final(net, first + second) == Final(Final(net, first), second)
    decreases |first|
  {
    if first == [] {
      assert first + second == second;
    } else {
      var net', all := Apply(net, first[0]), first + second;
      assert all[0] == first[0] && all[1..] == first[1..] + second;
      RunsCompose(net', first[1..], second);
      assert CanRun(net, all) && Final(net, all) == Final(net', all[1..]);
    }
  }

  lemma OneStepRun(net: Net, e: Event)
    requires Enabled(net, e)
    ensures CanRun(net, [e]) && Final(net, [e]) == Apply(net, e)
  {
    assert CanRun(Apply(net, e), []);
  }

  lemma ReachableStep(net: Net, e: Event, a: Id, b: Id)
    requires Reachable(net, a, b) && Enabled(net, e)
    ensures Reachable(Apply(net, e), a, b)
  {
    var start, events :| RunsTo(start, events, net, a, b);
    OneStepRun(net, e);
    RunsCompose(start, events, [e]);
    assert RunsTo(start, events + [e], Apply(net, e), a, b);
  }

  /** In every reachable state, rest means the ideal ring over all joined nodes. */
  lemma ReachableRestIffIdeal(net: Net, a: Id, b: Id)
    requires Reachable(net, a, b)
    ensures AtRest(net) <==> Ideal(Succ(net), Pred(net))
  {
    ReachableInv(net, a, b);
    RestIffIdeal(net, a, b);
  }

  lemma ReachablePays(net: Net, e: Event, a: Id, b: Id)
    requires Reachable(net, a, b) && Enabled(net, e) && !e.BeginJoin?
    ensures Named(net)
    ensures Potential(Apply(net, e)) + (if Changes(net, e) then 1 else 0) <= Potential(net)
  {
    ReachableInv(net, a, b);
    FactsNamed(net, Succ(net).Keys, Before(net.size, Succ(net)));
    StepPays(net, e, a, b);
  }

  // ---------------------------------------------- stabilization always gets there

  /** Events of the stabilization protocol: no joins, lookups, losses or keys. */
  predicate IsStabilization(e: Event) {
    e.TimeOut? || e.Stabilize? || e.AnswerAsk? || e.FinishStabilize? || e.HandleNotify?
  }

  /** The events are stabilization steps that can run, and do not raise the potential. */
  ghost predicate IsProgress(net: Net, events: seq<Event>) {
    && CanRun(net, events) && (forall e :: e in events ==> IsStabilization(e))
    && Potential(Final(net, events)) <= Potential(net)
  }

  lemma AppendStep(net: Net, events: seq<Event>, e: Event, a: Id, b: Id)
    requires IsProgress(net, events) && Reachable(Final(net, events), a, b)
    requires Enabled(Final(net, events), e) && IsStabilization(e)
    ensures IsProgress(net, events + [e]) && Reachable(Final(net, events + [e]), a, b)
    ensures Final(net, events + [e]) == Apply(Final(net, events), e)
    ensures Changes(Final(net, events), e) ==> Potential(Final(net, events + [e])) < Potential(net)
  {
    var mid := Final(net, events);
    ReachablePays(mid, e, a, b);
    ReachableStep(mid, e, a, b);
    OneStepRun(mid, e);
    RunsCompose(net, events, [e]);
  }

  /** The two steps that bring a Stabilize request of `x` to its answer. */
  lemma AskAndAnswer(net: Net, x: Id)
    requires x in net.nodes && net.nodes[x].successor.Some? && net.nodes[x].successor.value in net.nodes
    requires x !in net.asking
    ensures Enabled(net, Stabilize(x))
    ensures var net1 := Apply(net, Stabilize(x));
            && Enabled(net1, AnswerAsk(x))
            && var net2 := Apply(net1, AnswerAsk(x));
               && net2.nodes == net.nodes
               && Enabled(net2, FinishStabilize(x))
               && net2.asking[x] == Answered(net.nodes[net.nodes[x].successor.value].predecessor)
  {
  }

  /** Once answered, a round that is not idle changes a pointer in its reply or in its notify. */
  lemma FinishMakesProgress(net: Net, x: Id)
    requires Named(net) && Enabled(net, FinishStabilize(x))
    requires net.nodes[x].successor.value in net.nodes && !RoundIsIdle(net, x)
    requires net.asking[x].reply == net.nodes[net.nodes[x].successor.value].predecessor
    requires !Changes(net, FinishStabilize(x))
    ensures var net', e := Apply(net, FinishStabilize(x)), HandleNotify(Packet(x, net.nodes[x].successor.value, Notify));
            Enabled(net', e) && Changes(net', e)
  {
    var n := Adopt(net.nodes[x], net.asking[x].reply);
    assert n == net.nodes[x];
    assert Apply(net, FinishStabilize(x)).nodes == net.nodes;
  }

  /** A round that is not idle can be run, and changes a pointer. */
  lemma RoundMakesProgress(net: Net, x: Id, a: Id, b: Id) returns (events: seq<Event>)
    requires Reachable(net, a, b) && x in net.nodes && net.nodes[x].successor.Some? && x !in net.asking
    requires net.nodes[x].successor.value in net.nodes && !RoundIsIdle(net, x)
    ensures IsProgress(net, events) && Reachable(Final(net, events), a, b)
    ensures Potential(Final(net, events)) < Potential(net)
  {
    AskAndAnswer(net, x);
    AppendStep(net, [], Stabilize(x), a, b);
    assert [] + [Stabilize(x)] == [Stabilize(x)];
    AppendStep(net, [Stabilize(x)], AnswerAsk(x), a, b);
    var asked := [Stabilize(x), AnswerAsk(x)];
    assert [Stabilize(x)] + [AnswerAsk(x)] == asked;
    var net2 := Final(net, asked);
    ReachablePays(net2, FinishStabilize(x), a, b);
    AppendStep(net, asked, FinishStabilize(x), a, b);
    events := asked + [FinishStabilize(x)];
    if !Changes(net2, FinishStabilize(x)) {
      FinishMakesProgress(net2, x);
      var e := HandleNotify(Packet(x, net.nodes[x].successor.value, Notify));
      AppendStep(net, events, e, a, b);
      events := events + [e];
    }
  }

  lemma TimeOutsDrain(net: Net, x: Id, a: Id, b: Id)
    requires Reachable(net, a, b) && x in net.asking
    ensures IsProgress(net, [TimeOut(x)]) && Reachable(Final(net, [TimeOut(x)]), a, b)
    ensures |Final(net, [TimeOut(x)]).asking| < |net.asking|
  {
    AppendStep(net, [], TimeOut(x), a, b);
    assert [] + [TimeOut(x)] == [TimeOut(x)];
    assert (net.asking - {x}).Keys == net.asking.Keys - {x};
  }

  lemma JoinProgress(net: Net, first: seq<Event>, rest: seq<Event>)
    requires IsProgress(net, first) && IsProgress(Final(net, first), rest)
    ensures IsProgress(net, first + rest) && Final(net, first + rest) == Final(Final(net, first), rest)
  {
    RunsCompose(net, first, rest);
  }

  lemma RestlessNode(net: Net) returns (x: Id)
    requires !AtRest(net)
    ensures x in net.nodes && net.nodes[x].successor.Some? && net.nodes[x].successor.value in net.nodes
    ensures !RoundIsIdle(net, x)
  {
    x :| x in net.nodes && net.nodes[x].successor.Some? && net.nodes[x].successor.value in net.nodes
         && !RoundIsIdle(net, x);
  }

  /** The first events of a run towards the ideal ring, if there is anything left to do. */
  lemma NextProgress(net: Net, a: Id, b: Id) returns (events: seq<Event>)
    requires Reachable(net, a, b) && (net.asking != map[] || !AtRest(net))
    ensures IsProgress(net, events) && Reachable(Final(net, events), a, b)
    ensures Potential(Final(net, events)) < Potential(net) || |Final(net, events).asking| < |net.asking|
  {
    if net.asking != map[] {
      var x :| x in net.asking;
      TimeOutsDrain(net, x, a, b);
      events := [TimeOut(x)];
    } else {
      var x := RestlessNode(net);
      events := RoundMakesProgress(net, x, a, b);
    }
  }

  /**
    From every reachable state the stabilization protocol alone can reach the ideal ring over
    the nodes that have joined.
   */
  lemma {:induction false} StabilizationConverges(net: Net, a: Id, b: Id) returns (events: seq<Event>)
    requires Reachable(net, a, b)
    ensures IsProgress(net, events) && Reachable(Final(net, events), a, b)
    ensures Ideal(Succ(Final(net, events)), Pred(Final(net, events)))
    decreases Potential(net), |net.asking|
  {
    SumNonNegative(net.nodes.Keys, NodeCost(net));
    if net.asking != map[] || !AtRest(net) {
      var first := NextProgress(net, a, b);
      var rest := StabilizationConverges(Final(net, first), a, b);
      JoinProgress(net, first, rest);
      events := first + rest;
    } else {
      ReachableRestIffIdeal(net, a, b);
      events := [];
    }
  }
}
