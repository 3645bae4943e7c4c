/**
  What the consensus layer promises: local safety of every peer in every run, and agreement on
  values, blocks and chains in every run in which proposes rest on promises for their own ID and
  decisions count accepts of one ID.
 */
module PaxosAgreement {
  import opened Wrappers
  import opened Tlc
  import opened PaxosPeer
  import opened PaxosNetwork

  // ---------------------------------------------------------- local safety, every run

  /** A peer moves to a later step or keeps its step, its promised ID and its accepted ID from falling. */
  predicate NeverFalls(p: Peer, p': Peer) {
    p.Step() < p'.Step() || (p.Step() == p'.Step() && p.maxID <= p'.maxID && p.acceptedID <= p'.acceptedID)
  }

  lemma ActNeverFalls(c: Config, wire: set<Message>, me: PeerId, p: Peer, e: Event)
    requires 1 <= me <= c.n && c.threshold > 0 && PeerOk(c, wire, me, p) && EnabledAt(c, wire, p, e) && e.p == me
    ensures NeverFalls(p, Act(c, wire, p, e).0)
  {
    if e.Deliver? {
      DeliverNeverFalls(c, wire, me, p, e);
    }
  }

  lemma DeliverNeverFalls(c: Config, wire: set<Message>, me: PeerId, p: Peer, e: Event)
    requires 1 <= me <= c.n && c.threshold > 0 && PeerOk(c, wire, me, p) && EnabledAt(c, wire, p, e) && e.p == me
    requires e.Deliver?
    ensures NeverFalls(p, Act(c, wire, p, e).0)
  {
    if e.m.TlcMsg? {
      TlcKeepsPeer(c, wire, me, p, e.m);
    }
  }

  /** No acceptor ever takes back a promise, over any run. */
  lemma {:induction false} PromisedNeverFalls(c: Config, net: Net, events: seq<Event>, p: PeerId)
    requires Inv(c, false, net) && CanRun(c, net, events) && p in net.peers
    ensures p in Final(c, net, events).peers && NeverFalls(net.peers[p], Final(c, net, events).peers[p])
    decreases |events|
  {
    if events != [] {
      var e := events[0];
      ActNeverFalls(c, net.wire, e.p, net.peers[e.p], e);
      StepKeepsInv(c, false, net, e);
      PromisedNeverFalls(c, Apply(c, net, e), events[1..], p);
    }
  }

  /**
    Local safety: in every state of every run the accepted ID is at most the promised one, the IDs
    of different proposers never coincide, and an acceptor makes at most one promise per ID.
   */
  lemma LocalSafety(c: Config, start: Net, events: seq<Event>)
    requires ValidConfig(c) && Initial(c, start) && CanRun(c, start, events)
    ensures var net := Final(c, start, events);
            && (forall p :: p in net.peers ==> net.peers[p].acceptedID <= net.peers[p].maxID)
            && (forall p, q :: p in net.peers && q in net.peers && p != q ==>
                  net.peers[p].proposalID != net.peers[q].proposalID)
            && (forall m, m' :: m in net.wire && m' in net.wire && m.Prepare? && m'.Prepare? && m.id == m'.id ==>
                  m.source == m'.source)
            && (forall x, y :: Promise(x) in net.wire && Promise(y) in net.wire ==> OnePromise(x, y))
  {
    InitialInv(c, false, start);
    RunKeepsInv(c, false, start, events);
    var net := Final(c, start, events);
    forall m, m' | m in net.wire && m' in net.wire && m.Prepare? && m'.Prepare? && m.id == m'.id
      ensures m.source == m'.source
    {
      assert MsgOk(c, false, net.wire, m) && MsgOk(c, false, net.wire, m');
    }
    forall x, y | Promise(x) in net.wire && Promise(y) in net.wire ensures OnePromise(x, y) {
      assert PairOk(false, Promise(x), Promise(y));
    }
  }

  /**
    An acceptor promises an ID once: after a prepare has been answered with a promise, no later prepare
    for the same ID in the same step is, in whatever run.
   */
  lemma PromisesOnce(c: Config, net: Net, p: PeerId, m: Message, events: seq<Event>)
    requires Inv(c, false, net) && m.Prepare? && Enabled(c, net, Deliver(p, m))
    requires OnMessage(c, p, net.peers[p], m).1.Some? && CanRun(c, Apply(c, net, Deliver(p, m)), events)
    ensures var net' := Final(c, Apply(c, net, Deliver(p, m)), events);
            p in net'.peers && forall source :: OnMessage(c, p, net'.peers[p], Prepare(m.step, m.id, source)).1 == None
  {
    StepKeepsInv(c, false, net, Deliver(p, m));
    PromisedNeverFalls(c, Apply(c, net, Deliver(p, m)), events, p);
  }

  lemma {:induction false} OwnIdsAreApart(n: nat, k: nat, id: nat)
    requires 0 < k < id < k + n
    ensures OwnerOf(n, id) != OwnerOf(n, k)
    decreases k
  {
    if k > n {
      OwnIdsAreApart(n, k - n, id - n);
    }
  }

  /** A proposer whose timer fires takes the next ID that is its own. */
  lemma TimeoutTakesNextOwnId(c: Config, p: Peer, id: nat)
    requires c.n > 0 && p.proposalID > 0 && (p.round.Collecting? || p.round.Waiting?)
    ensures var p' := if p.round.Collecting? then PhaseOneTimeout(c, p) else PhaseTwoTimeout(c, p);
            && p.proposalID < p'.proposalID && OwnerOf(c.n, p'.proposalID) == OwnerOf(c.n, p.proposalID)
            && (p.proposalID < id < p'.proposalID ==> OwnerOf(c.n, id) != OwnerOf(c.n, p.proposalID))
  {
    if p.proposalID < id < p.proposalID + c.n {
      OwnIdsAreApart(c.n, p.proposalID, id);
    }
  }

  // ------------------------------------------------------------- agreement, good runs

  lemma AcceptorsAreMany(c: Config, net: Net, step: nat, id: nat, value: Value)
    requires Inv(c, true, net)
    ensures forall q :: q in Acceptors(net.wire, step, id, value) ==> 1 <= q <= c.n
  {
    forall q | q in Acceptors(net.wire, step, id, value) ensures 1 <= q <= c.n {
      var m :| m in net.wire && m.Accept? && m.step == step && m.id == id && m.value == value && m.from == q;
      assert MsgOk(c, true, net.wire, m);
    }
  }

  lemma BackersAreMany(c: Config, net: Net, m: Message)
    requires Inv(c, true, net) && m in net.wire && m.Propose?
    ensures forall q :: q in Backers(m.support) ==> 1 <= q <= c.n
  {
    assert MsgOk(c, true, net.wire, m);
    forall x | x in m.support ensures 1 <= x.from <= c.n {
      assert SupportOk(net.wire, m, x);
      assert MsgOk(c, true, net.wire, Promise(x));
    }
  }

  /** A later propose rests on a promise of some acceptor of the chosen value, made after that accept. */
  lemma BasisIsNotBefore(c: Config, net: Net, id: nat, value: Value, m: Message)
    requires Inv(c, true, net) && m in net.wire && m.Propose? && m.id > id
    requires |Acceptors(net.wire, m.step, id, value)| >= c.threshold
    ensures id <= m.basis
  {
    assert MsgOk(c, true, net.wire, m);
    AcceptorsAreMany(c, net, m.step, id, value);
    BackersAreMany(c, net, m);
    var q := QuorumsMeet(c, Acceptors(net.wire, m.step, id, value), Backers(m.support));
    var x :| x in m.support && x.from == q;
    var a :| a in net.wire && a.Accept? && a.step == m.step && a.id == id && a.value == value && a.from == q;
    assert SupportOk(net.wire, m, x);
    assert PairOk(true, a, Promise(x));
  }

  /** Once a value is chosen at an ID, every propose with at least that ID carries it. */
  lemma {:induction false} LaterProposesFollow(c: Config, net: Net, id: nat, value: Value, m: Message)
    requires Inv(c, true, net) && m in net.wire && m.Propose? && m.id >= id
    requires |Acceptors(net.wire, m.step, id, value)| >= c.threshold
    ensures m.value == value
    decreases m.id
  {
    var chosen := AcceptedWasProposed(c, net, m.step, id, value);
    if m.id == id {
      assert PairOk(true, m, chosen);
    } else {
      BasisIsNotBefore(c, net, id, value, m);
      assert MsgOk(c, true, net.wire, m);
      var m' :| m' in net.wire && m'.Propose? && m'.step == m.step && m'.id == m.basis && m'.value == m.value;
      LaterProposesFollow(c, net, id, value, m');
    }
  }

  lemma AcceptedWasProposed(c: Config, net: Net, step: nat, id: nat, value: Value) returns (m: Message)
    requires Inv(c, true, net) && |Acceptors(net.wire, step, id, value)| >= c.threshold
    ensures id > 0 && m in net.wire && m.Propose? && m.step == step && m.id == id && m.value == value
  {
    var q :| q in Acceptors(net.wire, step, id, value);
    var a :| a in net.wire && a.Accept? && a.step == step && a.id == id && a.value == value && a.from == q;
    assert MsgOk(c, true, net.wire, a);
    m :| m in net.wire && m.Propose? && m.step == step && m.id == id && m.value == value;
    assert MsgOk(c, true, net.wire, m);
  }

  /** At most one value is chosen in a step. */
  lemma ChosenIsUnique(c: Config, net: Net, step: nat, v: Value, w: Value)
    requires Inv(c, true, net) && Chosen(c, net.wire, step, v) && Chosen(c, net.wire, step, w)
    ensures v == w
  {
    var i :| |Acceptors(net.wire, step, i, v)| >= c.threshold;
    var j :| |Acceptors(net.wire, step, j, w)| >= c.threshold;
    var m := AcceptedWasProposed(c, net, step, i, v);
    var m' := AcceptedWasProposed(c, net, step, j, w);
    if i <= j {
      LaterProposesFollow(c, net, i, v, m');
    } else {
      LaterProposesFollow(c, net, j, w, m);
    }
  }

  /** At most one block is announced in a step: the chosen value on top of the block before it. */
  lemma {:induction false} OneBlockPerStep(c: Config, net: Net, m: Message, m': Message)
    requires Inv(c, true, net) && m in net.wire && m' in net.wire
    requires m.TlcMsg? && m'.TlcMsg? && m.step == m'.step
    ensures m.block == m'.block
    decreases m.step
  {
    assert MsgOk(c, true, net.wire, m) && MsgOk(c, true, net.wire, m');
    ChosenIsUnique(c, net, m.step, m.block.value, m'.block.value);
    if m.step > 0 {
      var before :| before in net.wire && before.TlcMsg? && before.step == m.step - 1 && before.block == m.block.prev;
      var before' :| before' in net.wire && before'.TlcMsg? && before'.step == m.step - 1 && before'.block == m'.block.prev;
      OneBlockPerStep(c, net, before, before');
    }
  }

  /** Block `i` of a chain is numbered `i` and stands on block `i - 1`. */
  ghost predicate LinkedAt(chain: seq<Block>, i: int)
    requires 0 <= i < |chain|
  {
    chain[i].Block? && chain[i].index == i && chain[i].prev == if i == 0 then NoBlock else chain[i - 1]
  }

  ghost predicate LinkedChain(chain: seq<Block>) {
    forall i :: 0 <= i < |chain| ==> LinkedAt(chain, i)
  }

  lemma ChainIsLinked(c: Config, net: Net, p: PeerId)
    requires Inv(c, true, net) && p in net.peers
    ensures LinkedChain(net.peers[p].clock.chain)
  {
    var chain := net.peers[p].clock.chain;
    forall i | 0 <= i < |chain| ensures LinkedAt(chain, i) {
      assert (i, chain[i]) in TlcBlocks(net.wire);
      var m :| m in net.wire && m.TlcMsg? && m.step == i && m.block == chain[i];
      assert MsgOk(c, true, net.wire, m);
      if i > 0 {
        assert (i - 1, chain[i - 1]) in TlcBlocks(net.wire);
        var a :| a in net.wire && a.TlcMsg? && a.step == i - 1 && a.block == chain[i - 1];
        var b :| b in net.wire && b.TlcMsg? && b.step == i - 1 && b.block == m.block.prev;
        OneBlockPerStep(c, net, a, b);
      }
    }
  }

  /**
    Agreement: in every run in which each propose rests on promises for its own ID and each decision
    counts accepts of one ID from distinct acceptors, all decisions of a step are for one value and
    one block, every chain is linked, and the chains of any two peers are prefixes of one another.
   */
  lemma Agreement(c: Config, start: Net, events: seq<Event>)
    requires ValidConfig(c) && Initial(c, start) && CanRun(c, start, events) && RunMeets(c, GOOD, start, events)
    ensures var net := Final(c, start, events);
            && (forall m, m' :: m in net.wire && m' in net.wire && m.TlcMsg? && m'.TlcMsg? && m.step == m'.step ==>
                  m.block == m'.block)
            && (forall p :: p in net.peers ==> LinkedChain(net.peers[p].clock.chain))
            && (forall p, q :: p in net.peers && q in net.peers ==>
                  net.peers[p].clock.chain <= net.peers[q].clock.chain ||
                  net.peers[q].clock.chain <= net.peers[p].clock.chain)
  {
    InitialInv(c, true, start);
    RunKeepsInv(c, true, start, events);
    var net := Final(c, start, events);
    forall m, m' | m in net.wire && m' in net.wire && m.TlcMsg? && m'.TlcMsg? && m.step == m'.step
      ensures m.block == m'.block
    {
      OneBlockPerStep(c, net, m, m');
    }
    forall p | p in net.peers ensures LinkedChain(net.peers[p].clock.chain) {
      ChainIsLinked(c, net, p);
    }
    forall p, q | p in net.peers && q in net.peers
      ensures net.peers[p].clock.chain <= net.peers[q].clock.chain ||
              net.peers[q].clock.chain <= net.peers[p].clock.chain
    {
      ChainsArePrefixes(c.threshold, net.peers[p].clock, net.peers[q].clock, TlcBlocks(net.wire));
    }
  }

  // ----------------------------------------------------------------- validity, every run

  ghost predicate Says(value: Option<Value>, said: set<Value>) {
    value.Some? ==> value.value in said
  }

  /** The peer knows of no value beyond those that were put forward. */
  ghost predicate PeerSays(p: Peer, said: set<Value>) {
    && Says(p.acceptedValue, said)
    && (p.round.Collecting? ==> p.round.value in said && p.round.proposed in said)
    && (p.round.Waiting? ==> p.round.value in said)
    && (forall i :: 0 <= i < |p.promiseCh| ==> Says(p.promiseCh[i].accVal, said))
  }

  ghost predicate MsgSays(m: Message, said: set<Value>) {
    match m
    case Prepare(_, _, _) => true
    case Promise(x) => Says(x.accVal, said)
    case Propose(_, _, _, value, _, _) => value in said
    case Accept(_, _, _, value) => value in said
    case TlcMsg(_, _, block) => block.Block? ==> block.value in said
  }

  ghost predicate NetSays(net: Net, said: set<Value>) {
    && (forall p :: p in net.peers ==> PeerSays(net.peers[p], said))
    && (forall m :: m in net.wire ==> MsgSays(m, said))
  }

  function Started(e: Event): (s: set<Value>) {
    if e.StartPropose? then {e.value} else {}
  }

  lemma ActSays(c: Config, wire: set<Message>, p: Peer, e: Event, said: set<Value>)
    requires EnabledAt(c, wire, p, e) && PeerSays(p, said) && (e.Deliver? ==> MsgSays(e.m, said))
    ensures var (p', sent) := Act(c, wire, p, e);
            PeerSays(p', said + Started(e)) && (sent.Some? ==> MsgSays(sent.value, said + Started(e)))
  {
  }

  /** The values that were put forward in a run. */
  function PutForward(events: seq<Event>): (s: set<Value>) {
    if events == [] then {} else Started(events[0]) + PutForward(events[1..])
  }

  lemma {:induction false} RunSays(c: Config, net: Net, events: seq<Event>, said: set<Value>)
    requires CanRun(c, net, events) && NetSays(net, said)
    ensures NetSays(Final(c, net, events), said + PutForward(events))
    decreases |events|
  {
    if events != [] {
      var e := events[0];
      ActSays(c, net.wire, net.peers[e.p], e, said);
      assert NetSays(Apply(c, net, e), said + Started(e));
      RunSays(c, Apply(c, net, e), events[1..], said + Started(e));
      assert said + Started(e) + PutForward(events[1..]) == said + PutForward(events);
    } else {
      assert said + PutForward(events) == said;
    }
  }

  lemma ChainSays(c: Config, net: Net, said: set<Value>, p: PeerId, i: nat)
    requires Inv(c, false, net) && NetSays(net, said) && p in net.peers && i < |net.peers[p].clock.chain|
    requires net.peers[p].clock.chain[i].Block?
    ensures net.peers[p].clock.chain[i].value in said
  {
    assert (i, net.peers[p].clock.chain[i]) in TlcBlocks(net.wire);
    var m :| m in net.wire && m.TlcMsg? && m.step == i && m.block == net.peers[p].clock.chain[i];
    assert MsgSays(m, said);
  }

  /** In every run, every value announced as decided or held by a chain was put forward by some proposer. */
  lemma OnlyProposedValues(c: Config, start: Net, events: seq<Event>)
    requires ValidConfig(c) && Initial(c, start) && CanRun(c, start, events)
    ensures var net := Final(c, start, events);
            && (forall m :: m in net.wire && m.TlcMsg? && m.block.Block? ==> m.block.value in PutForward(events))
            && (forall p, i :: p in net.peers && 0 <= i < |net.peers[p].clock.chain| && net.peers[p].clock.chain[i].Block? ==>
                  net.peers[p].clock.chain[i].value in PutForward(events))
  {
    InitialInv(c, false, start);
    RunKeepsInv(c, false, start, events);
    RunSays(c, start, events, {});
    var net := Final(c, start, events);
    assert {} + PutForward(events) == PutForward(events);
    forall p, i | p in net.peers && 0 <= i < |net.peers[p].clock.chain| && net.peers[p].clock.chain[i].Block?
      ensures net.peers[p].clock.chain[i].value in PutForward(events)
    {
      ChainSays(c, net, PutForward(events), p, i);
    }
    forall m | m in net.wire && m.TlcMsg? && m.block.Block? ensures m.block.value in PutForward(events) {
      assert MsgSays(m, PutForward(events));
    }
  }
}
