/**
  All peers of the consensus layer over a network that delays, reorders and repeats messages, and
  what every run of them keeps.

  A run is any sequence of events: a proposal starts, a turn of some proposer's loop is taken, a
  timer fires, or a message is handed to a peer. Messages stay on the wire; only promises are
  handed over at most once, which the gossip layer guarantees.
 */
module PaxosNetwork {
  import opened Wrappers
  import opened Sums
  import opened Tlc
  import opened PaxosPeer

  datatype Net = Net(peers: map<PeerId, Peer>, wire: set<Message>)

  datatype Event =
    | StartPropose(p: PeerId, value: Value)
    | Take(p: PeerId)
    | TimerOne(p: PeerId)
    | Again(p: PeerId)
    | GoTwo(p: PeerId)
    | Signal(p: PeerId)
    | TimerTwo(p: PeerId)
    | Deliver(p: PeerId, m: Message)

  predicate EnabledAt(c: Config, wire: set<Message>, p: Peer, e: Event) {
    match e
    case StartPropose(_, _) => p.phase == NotPropose
    case Take(_) => p.round.Collecting? && Turns(p.round) < c.threshold && p.promiseCh != []
    case TimerOne(_) => p.round.Collecting? && Turns(p.round) < c.threshold && !p.round.timedOut
    case Again(_) => p.round.Collecting? && Turns(p.round) == c.threshold && p.round.timedOut
    case GoTwo(_) => p.round.Collecting? && Turns(p.round) == c.threshold && !p.round.timedOut
    case Signal(_) => p.round.Waiting? && p.signalled
    case TimerTwo(_) => p.round.Waiting?
    case Deliver(_, m) => m in wire && (m.Promise? ==> m.pledge !in p.heard)
  }

  predicate Enabled(c: Config, net: Net, e: Event) {
    e.p in net.peers && EnabledAt(c, net.wire, net.peers[e.p], e)
  }

  /** What an event does to its peer, and the message it sends. */
  function Act(c: Config, wire: set<Message>, p: Peer, e: Event): (r: (Peer, Option<Message>))
    requires EnabledAt(c, wire, p, e)
  {
    match e
    case StartPropose(me, v) => (BeginPropose(p, v), Some(Prepare(p.Step(), p.proposalID, me)))
    case Take(_) => (TakePromise(p), None)
    case TimerOne(_) => (PhaseOneTimeout(c, p), None)
    case Again(me) => (Retry(p), Some(Prepare(p.Step(), p.proposalID, me)))
    case GoTwo(me) => (EnterPhaseTwo(p), Some(ProposeMessage(me, p)))
    case Signal(_) => (LearnerSignal(p), None)
    case TimerTwo(me) =>
      var p' := PhaseTwoTimeout(c, p);
      (p', Some(Prepare(p'.Step(), p'.proposalID, me)))
    case Deliver(me, m) => OnMessage(c, me, p, m)
  }

  function Sent(m: Option<Message>): (s: set<Message>) {
    if m.Some? then {m.value} else {}
  }

  function Apply(c: Config, net: Net, e: Event): (r: Net)
    requires Enabled(c, net, e)
  {
    var (p', m) := Act(c, net.wire, net.peers[e.p], e);
    Net(net.peers[e.p := p'], net.wire + Sent(m))
  }

  /** A threshold of more than half of the peers, who are 1..n. */
  predicate ValidConfig(c: Config) {
    c.n < 2 * c.threshold && c.threshold <= c.n
  }

  ghost predicate Initial(c: Config, net: Net) {
    && (forall p :: p in net.peers <==> 1 <= p <= c.n)
    && (forall p :: p in net.peers ==> net.peers[p] == FreshPeer(p, INITIAL))
    && net.wire == {}
  }

  // ------------------------------------------------------- what a good run is

  predicate OneBallot(s: seq<Message>)
    requires forall i :: 0 <= i < |s| ==> s[i].Accept?
  {
    forall i, j :: 0 <= i < j < |s| ==> s[i].id == s[j].id && s[i].from != s[j].from
  }

  /** A propose rests only on promises for its own ID; the code does not compare them. */
  predicate GoodProposal(p: Peer, e: Event) {
    e.GoTwo? && p.round.Collecting? ==> forall x :: x in p.round.got ==> x.id == p.proposalID
  }

  /** A decision counts accepts of one ID from distinct acceptors; the code groups them by value only. */
  predicate GoodDecision(c: Config, p: Peer, e: Event) {
    e.Deliver? && e.m.Accept? && Decides(c, p, e.m) ==>
      && (forall i :: 0 <= i < |Counted(p, e.m)| ==> Counted(p, e.m)[i].Accept?)
      && OneBallot(Counted(p, e.m))
  }

  /** What is demanded of the events of a run beyond being enabled. */
  datatype Demand = Demand(proposals: bool, decisions: bool)

  const GOOD := Demand(true, true)

  predicate Meets(c: Config, d: Demand, p: Peer, e: Event) {
    (d.proposals ==> GoodProposal(p, e)) && (d.decisions ==> GoodDecision(c, p, e))
  }

  // ----------------------------------------------------------------- invariant

  /** The peer to which a proposal ID belongs: IDs start at the PaxosID and grow by n. */
  function OwnerOf(n: nat, id: nat): (p: PeerId)
    requires n > 0
  {
    if id <= n then id else OwnerOf(n, id - n)
  }

  ghost predicate Proposed(wire: set<Message>, step: nat, id: nat, value: Value) {
    exists m :: m in wire && m.Propose? && m.step == step && m.id == id && m.value == value
  }

  ghost predicate MaybeProposed(wire: set<Message>, step: nat, id: nat, value: Option<Value>) {
    id > 0 ==> value.Some? && Proposed(wire, step, id, value.value)
  }

  /** Promises a proposer has been handed and has not used: those of this round, then the channel. */
  function Hand(p: Peer): (s: seq<Pledge>) {
    (if p.round.Collecting? then p.round.got else []) + p.promiseCh
  }

  ghost predicate NoDup(s: seq<Pledge>) {
    forall i, j :: 0 <= i < j < |s| ==> s[i] != s[j]
  }

  ghost predicate InHand(wire: set<Message>, me: PeerId, p: Peer, x: Pledge) {
    x in p.heard && Promise(x) in wire && x.to == me && x.step == p.Step()
  }

  ghost predicate AcceptorOk(wire: set<Message>, p: Peer) {
    && p.acceptedID <= p.maxID
    && MaybeProposed(wire, p.Step(), p.acceptedID, p.acceptedValue)
  }

  ghost predicate ProposerOk(c: Config, wire: set<Message>, me: PeerId, p: Peer)
    requires c.n > 0
  {
    && OwnerOf(c.n, p.proposalID) == me
    && NoDup(Hand(p))
    && (forall x :: x in Hand(p) ==> InHand(wire, me, p, x))
    && (p.round.Collecting? ==>
          && (forall x :: x in p.round.got ==> x.accId <= p.round.highest)
          && p.round.highest < p.proposalID
          && MaybeProposed(wire, p.Step(), p.round.highest, Some(p.round.proposed)))
  }

  ghost predicate Counts(wire: set<Message>, step: nat, value: Value, s: seq<Message>) {
    forall i :: 0 <= i < |s| ==> s[i] in wire && s[i].Accept? && s[i].step == step && s[i].value == value
  }

  ghost predicate LearnerOk(wire: set<Message>, p: Peer) {
    forall v :: v in p.learned ==> Counts(wire, p.Step(), v, p.learned[v])
  }

  ghost function TlcBlocks(wire: set<Message>): (s: iset<(nat, Block)>) {
    iset m | m in wire && m.TlcMsg? :: (m.step, m.block)
  }

  ghost predicate ClockOk(c: Config, wire: set<Message>, p: Peer) {
    ClockInv(c.threshold, p.clock) && From(p.clock, TlcBlocks(wire))
  }

  ghost predicate PeerOk(c: Config, wire: set<Message>, me: PeerId, p: Peer)
    requires c.n > 0
  {
    AcceptorOk(wire, p) && ProposerOk(c, wire, me, p) && LearnerOk(wire, p) && ClockOk(c, wire, p)
  }

  /** A message of the peer's current step with a bounded ID, or one of an earlier step. */
  predicate Past(p: Peer, step: nat, id: nat, bound: nat) {
    step < p.Step() || (step == p.Step() && id <= bound)
  }

  /** What a message on the wire says about the state of a peer that sent or caused it. */
  ghost predicate AboutPeer(m: Message, me: PeerId, p: Peer) {
    match m
    case Prepare(step, id, source) => source == me ==> Past(p, step, id, p.proposalID)
    case Promise(x) =>
      && (x.from == me ==> Past(p, x.step, x.id, p.maxID))
      && (x.to == me ==> Past(p, x.step, x.id, p.proposalID))
    case Propose(from, step, id, _, _, support) =>
      from == me ==>
        && Past(p, step, id, p.proposalID)
        && (step == p.Step() ==> support <= p.heard && forall x :: x in support ==> x !in Hand(p))
    case Accept(from, step, id, _) => from == me ==> Past(p, step, id, p.acceptedID)
    case TlcMsg(_, _, _) => true
  }

  function Backers(support: set<Pledge>): (q: set<PeerId>) {
    set x | x in support :: x.from
  }

  function Acceptors(wire: set<Message>, step: nat, id: nat, value: Value): (q: set<PeerId>) {
    set m | m in wire && m.Accept? && m.step == step && m.id == id && m.value == value :: m.from
  }

  /** A threshold of peers accepted the value at one ID. */
  ghost predicate Chosen(c: Config, wire: set<Message>, step: nat, value: Value) {
    exists id :: |Acceptors(wire, step, id, value)| >= c.threshold
  }

  ghost predicate SupportOk(wire: set<Message>, m: Message, x: Pledge)
    requires m.Propose?
  {
    Promise(x) in wire && x.step == m.step && x.accId <= m.basis
  }

  /** What every message on the wire satisfies; `good` marks what needs a good run. */
  ghost predicate MsgOk(c: Config, good: bool, wire: set<Message>, m: Message)
    requires c.n > 0
  {
    match m
    case Prepare(_, id, source) => OwnerOf(c.n, id) == source
    case Promise(x) =>
      && OwnerOf(c.n, x.id) == x.to && 1 <= x.from <= c.n
      && x.accId < x.id && MaybeProposed(wire, x.step, x.accId, x.accVal)
    case Propose(from, step, id, value, basis, support) =>
      && OwnerOf(c.n, id) == from && basis < id && MaybeProposed(wire, step, basis, Some(value))
      && (forall x :: x in support ==> SupportOk(wire, m, x))
      && (good ==> |Backers(support)| >= c.threshold && forall x :: x in support ==> x.id == id)
    case Accept(from, step, id, value) => 1 <= from <= c.n && Proposed(wire, step, id, value)
    case TlcMsg(_, step, block) =>
      good ==>
        && block.Block? && block.index == step && Chosen(c, wire, step, block.value)
        && (if step == 0 then block.prev == NoBlock else (step - 1, block.prev) in TlcBlocks(wire))
  }

  /** At most one promise of an acceptor for an ID. */
  ghost predicate OnePromise(x: Pledge, y: Pledge) {
    x.from == y.from && x.step == y.step && x.id == y.id ==> x == y
  }

  /** A promise reports every earlier accept, and no accept below its ID follows it. */
  ghost predicate KeepsWord(a: Message, x: Pledge)
    requires a.Accept?
  {
    a.from == x.from && a.step == x.step ==> a.id <= x.accId || a.id >= x.id
  }

  ghost predicate OneProposal(m: Message, m': Message)
    requires m.Propose? && m'.Propose?
  {
    m.step == m'.step && m.id == m'.id ==> m.value == m'.value
  }

  /** What any two messages on the wire satisfy together. */
  ghost predicate PairOk(good: bool, m: Message, m': Message) {
    && (m.Promise? && m'.Promise? ==> OnePromise(m.pledge, m'.pledge))
    && (m.Accept? && m'.Promise? ==> KeepsWord(m, m'.pledge))
    && (good && m.Propose? && m'.Propose? ==> OneProposal(m, m'))
  }

  ghost predicate Inv(c: Config, good: bool, net: Net) {
    && ValidConfig(c)
    && (forall p :: p in net.peers <==> 1 <= p <= c.n)
    && (forall p {:trigger net.peers[p]} :: p in net.peers ==> PeerOk(c, net.wire, p, net.peers[p]))
    && (forall m {:trigger MsgOk(c, good, net.wire, m)} :: m in net.wire ==> MsgOk(c, good, net.wire, m))
    && (forall m, p {:trigger AboutPeer(m, p, net.peers[p])} ::
          m in net.wire && p in net.peers ==> AboutPeer(m, p, net.peers[p]))
    && (forall m, m' {:trigger PairOk(good, m, m')} :: m in net.wire && m' in net.wire ==> PairOk(good, m, m'))
  }

  // ------------------------------------------------- one update keeps everything

  /** How a peer may change: it moves to a later step, or its numbers and its hand only move on. */
  ghost predicate Evolves(p: Peer, p': Peer) {
    || p.Step() < p'.Step()
    || (&& p.Step() == p'.Step() && p.maxID <= p'.maxID && p.acceptedID <= p'.acceptedID
        && p.proposalID <= p'.proposalID && p.heard <= p'.heard
        && (forall x :: x in Hand(p') ==> x in Hand(p) || x !in p.heard))
  }

  lemma AboutPeerKept(m: Message, me: PeerId, p: Peer, p': Peer)
    requires AboutPeer(m, me, p) && Evolves(p, p')
    ensures AboutPeer(m, me, p')
  {
  }

  lemma WireGrowsMsg(c: Config, good: bool, wire: set<Message>, wire': set<Message>, m: Message)
    requires c.n > 0 && wire <= wire' && MsgOk(c, good, wire, m)
    ensures MsgOk(c, good, wire', m)
  {
    if m.TlcMsg? && good {
      var id :| |Acceptors(wire, m.step, id, m.block.value)| >= c.threshold;
      SubsetIsSmaller(Acceptors(wire, m.step, id, m.block.value), Acceptors(wire', m.step, id, m.block.value));
    }
  }

  lemma WireGrowsPeer(c: Config, wire: set<Message>, wire': set<Message>, me: PeerId, p: Peer)
    requires c.n > 0 && wire <= wire' && PeerOk(c, wire, me, p)
    ensures PeerOk(c, wire', me, p)
  {
    FromGrows(p.clock, TlcBlocks(wire), TlcBlocks(wire'));
  }

  lemma FromGrows(c: Clock, from: iset<(nat, Block)>, from': iset<(nat, Block)>)
    requires From(c, from) && from <= from'
    ensures From(c, from')
  {
  }

  /** What a newly sent message needs. */
  ghost predicate NewOk(c: Config, good: bool, net: Net, p: PeerId, p': Peer, m: Message)
    requires c.n > 0
  {
    && MsgOk(c, good, net.wire + {m}, m)
    && AboutPeer(m, p, p')
    && (forall q {:trigger net.peers[q]} :: q in net.peers && q != p ==> AboutPeer(m, q, net.peers[q]))
    && (forall m' {:trigger PairOk(good, m, m')} {:trigger PairOk(good, m', m)} ::
          m' in net.wire ==> PairOk(good, m, m') && PairOk(good, m', m))
    && PairOk(good, m, m)
  }

  lemma UpdateKeeps(c: Config, good: bool, net: Net, p: PeerId, p': Peer, sent: Option<Message>)
    requires Inv(c, good, net) && p in net.peers
    requires PeerOk(c, net.wire + Sent(sent), p, p') && Evolves(net.peers[p], p')
    requires sent.Some? ==> NewOk(c, good, net, p, p', sent.value)
    ensures Inv(c, good, Net(net.peers[p := p'], net.wire + Sent(sent)))
  {
    var net' := Net(net.peers[p := p'], net.wire + Sent(sent));
    forall q | q in net'.peers ensures PeerOk(c, net'.wire, q, net'.peers[q]) {
      if q != p {
        WireGrowsPeer(c, net.wire, net'.wire, q, net.peers[q]);
      }
    }
    forall m | m in net'.wire ensures MsgOk(c, good, net'.wire, m) {
      if m in net.wire {
        WireGrowsMsg(c, good, net.wire, net'.wire, m);
      }
    }
    forall m, q | m in net'.wire && q in net'.peers ensures AboutPeer(m, q, net'.peers[q]) {
      if m in net.wire {
        assert AboutPeer(m, q, net.peers[q]);
        if q == p {
          AboutPeerKept(m, p, net.peers[p], p');
        }
      }
    }
    forall m, m' | m in net'.wire && m' in net'.wire ensures PairOk(good, m, m') {
    }
  }

  // ------------------------------------------------------------ the proposer's steps

  /** A promise is taken from the channel: the hand keeps its order. */
  lemma TakeKeeps(c: Config, good: bool, net: Net, p: PeerId)
    requires Inv(c, good, net) && Enabled(c, net, Take(p))
    ensures Inv(c, good, Apply(c, net, Take(p)))
  {
    var peer := net.peers[p];
    var p' := TakePromise(peer);
    var x := peer.promiseCh[0];
    assert Hand(p') == Hand(peer);
    assert x in Hand(peer);
    assert MsgOk(c, good, net.wire, Promise(x));
    assert AboutPeer(Promise(x), p, peer);
    UpdateKeeps(c, good, net, p, p', None);
  }

  /** Dropping the promises of the round leaves the channel. */
  lemma HandShrinks(p: Peer, p': Peer)
    requires NoDup(Hand(p)) && p'.promiseCh == p.promiseCh
    requires Hand(p') == Hand(p) || Hand(p') == p.promiseCh
    ensures NoDup(Hand(p')) && forall x :: x in Hand(p') ==> x in Hand(p)
  {
    var k := |Hand(p)| - |p.promiseCh|;
    assert p.promiseCh == Hand(p)[k..];
  }

  /** The start of a round, the timers and the learner's signal. */
  lemma TurnKeepsPeer(c: Config, wire: set<Message>, me: PeerId, p: Peer, e: Event)
    requires c.n > 0 && me > 0 && PeerOk(c, wire, me, p) && EnabledAt(c, wire, p, e)
    requires !e.Deliver? && !e.Take? && !e.GoTwo?
    ensures PeerOk(c, wire, me, Act(c, wire, p, e).0) && Evolves(p, Act(c, wire, p, e).0)
  {
    var p' := Act(c, wire, p, e).0;
    assert OwnerOf(c.n, p.proposalID + c.n) == OwnerOf(c.n, p.proposalID);
    HandShrinks(p, p');
  }

  lemma TurnKeeps(c: Config, good: bool, net: Net, e: Event)
    requires Inv(c, good, net) && Enabled(c, net, e) && !e.Deliver? && !e.Take? && !e.GoTwo?
    ensures Inv(c, good, Apply(c, net, e))
  {
    var peer := net.peers[e.p];
    var (p', sent) := Act(c, net.wire, peer, e);
    TurnKeepsPeer(c, net.wire, e.p, peer, e);
    WireGrowsPeer(c, net.wire, net.wire + Sent(sent), e.p, p');
    UpdateKeeps(c, good, net, e.p, p', sent);
  }

  // --------------------------------------------------------------- the acceptor's steps

  lemma DeliverPrepareKeeps(c: Config, good: bool, net: Net, p: PeerId, m: Message)
    requires Inv(c, good, net) && Enabled(c, net, Deliver(p, m)) && m.Prepare?
    ensures Inv(c, good, Apply(c, net, Deliver(p, m)))
  {
    var peer := net.peers[p];
    var (p', sent) := OnPrepare(p, peer, m.step, m.id, m.source);
    if sent.Some? {
      assert MsgOk(c, good, net.wire, m);
      var x := sent.value.pledge;
      WireGrowsPeer(c, net.wire, net.wire + Sent(sent), p, peer);
      forall q | q in net.peers && q != p ensures AboutPeer(sent.value, q, net.peers[q]) {
        assert AboutPeer(m, q, net.peers[q]);
      }
      assert AboutPeer(m, p, peer);
      forall m' | m' in net.wire ensures PairOk(good, sent.value, m') && PairOk(good, m', sent.value) {
        assert AboutPeer(m', p, peer);
      }
    }
    UpdateKeeps(c, good, net, p, p', sent);
  }

  lemma DeliverProposeKeeps(c: Config, good: bool, net: Net, p: PeerId, m: Message)
    requires Inv(c, good, net) && Enabled(c, net, Deliver(p, m)) && m.Propose?
    ensures Inv(c, good, Apply(c, net, Deliver(p, m)))
  {
    var peer := net.peers[p];
    var (p', sent) := OnPropose(p, peer, m.step, m.id, m.value);
    if sent.Some? {
      WireGrowsPeer(c, net.wire, net.wire + Sent(sent), p, peer);
      assert m in net.wire + Sent(sent);
      forall m' | m' in net.wire ensures PairOk(good, sent.value, m') && PairOk(good, m', sent.value) {
        assert AboutPeer(m', p, peer);
      }
    }
    UpdateKeeps(c, good, net, p, p', sent);
  }

  // ---------------------------------------------------- promises, accepts and the clock

  lemma PromiseKeepsPeer(c: Config, wire: set<Message>, me: PeerId, p: Peer, x: Pledge)
    requires c.n > 0 && PeerOk(c, wire, me, p) && Promise(x) in wire && x !in p.heard && x.to == me
    ensures PeerOk(c, wire, me, OnPromise(p, x)) && Evolves(p, OnPromise(p, x))
  {
    var p' := OnPromise(p, x);
    assert x !in Hand(p);
    assert Hand(p') == Hand(p) || Hand(p') == Hand(p) + [x];
  }

  lemma DeliverPromiseKeeps(c: Config, good: bool, net: Net, p: PeerId, m: Message)
    requires Inv(c, good, net) && Enabled(c, net, Deliver(p, m)) && m.Promise?
    ensures Inv(c, good, Apply(c, net, Deliver(p, m)))
  {
    if m.pledge.to == p {
      PromiseKeepsPeer(c, net.wire, p, net.peers[p], m.pledge);
    }
    UpdateKeeps(c, good, net, p, OnMessage(c, p, net.peers[p], m).0, None);
  }

  lemma TlcKeepsPeer(c: Config, wire: set<Message>, me: PeerId, p: Peer, m: Message)
    requires 1 <= me <= c.n && c.threshold > 0 && PeerOk(c, wire, me, p) && m in wire && m.TlcMsg?
    ensures PeerOk(c, wire, me, OnTlc(c, me, p, m.step, m.block)) && Evolves(p, OnTlc(c, me, p, m.step, m.block))
  {
    assert (m.step, m.block) in TlcBlocks(wire);
    ReceiveKeeps(c.threshold, p.clock, m.step, m.block, TlcBlocks(wire));
    var p' := OnTlc(c, me, p, m.step, m.block);
    assert p'.clock == Receive(c.threshold, p.clock, m.step, m.block);
    assert Hand(p') == Hand(p) || Hand(p') == [];
  }

  /** Messages from distinct senders. */
  lemma {:induction false} SendersCount(s: seq<Message>)
    requires forall i :: 0 <= i < |s| ==> s[i].Accept?
    requires forall i, j :: 0 <= i < j < |s| ==> s[i].from != s[j].from
    ensures |set i | 0 <= i < |s| :: s[i].from| == |s|
  {
    var froms := set i | 0 <= i < |s| :: s[i].from;
    if |s| > 0 {
      var t := s[..|s| - 1];
      SendersCount(t);
      var rest := set i | 0 <= i < |t| :: t[i].from;
      assert s[|s| - 1].from !in rest;
      assert froms == rest + {s[|s| - 1].from} by {
        forall q | q in froms ensures q in rest + {s[|s| - 1].from} {
          var i :| 0 <= i < |s| && s[i].from == q;
          assert i < |t| ==> t[i].from in rest;
        }
        forall q | q in rest ensures q in froms {
          var i :| 0 <= i < |t| && t[i].from == q;
          assert s[i].from in froms;
        }
      }
    } else {
      assert froms == {};
    }
  }

  /** A decision that counts accepts of one ID from distinct acceptors decides a chosen value. */
  lemma DecidedIsChosen(c: Config, wire: set<Message>, step: nat, value: Value, s: seq<Message>)
    requires Counts(wire, step, value, s) && OneBallot(s) && 0 < c.threshold <= |s|
    ensures Chosen(c, wire, step, value)
  {
    SendersCount(s);
    var froms := set i | 0 <= i < |s| :: s[i].from;
    forall q | q in froms ensures q in Acceptors(wire, step, s[0].id, value) {
      var i :| 0 <= i < |s| && s[i].from == q;
      assert s[i].id == s[0].id;
      assert s[i] in wire;
    }
    SubsetIsSmaller(froms, Acceptors(wire, step, s[0].id, value));
  }

  lemma AcceptKeepsPeer(c: Config, wire: set<Message>, me: PeerId, p: Peer, m: Message)
    requires c.n > 0 && PeerOk(c, wire, me, p) && m in wire && m.Accept?
    ensures PeerOk(c, wire, me, OnAccept(c, me, p, m).0) && Evolves(p, OnAccept(c, me, p, m).0)
    ensures Decides(c, p, m) ==> Counts(wire, p.Step(), m.value, Counted(p, m))
  {
    var p' := OnAccept(c, me, p, m).0;
    assert Hand(p') == Hand(p);
    if m.step == p.Step() {
      assert Counts(wire, p.Step(), m.value, Counted(p, m));
    }
  }

  lemma TlcMsgOk(c: Config, good: bool, wire: set<Message>, me: PeerId, p: Peer, m: Message)
    requires c.n > 0 && c.threshold > 0 && PeerOk(c, wire, me, p) && m.Accept? && Decides(c, p, m)
    requires Counts(wire, p.Step(), m.value, Counted(p, m)) && (good ==> OneBallot(Counted(p, m)))
    ensures MsgOk(c, good, wire, OnAccept(c, me, p, m).1.value)
  {
    if good {
      DecidedIsChosen(c, wire, p.Step(), m.value, Counted(p, m));
      var chain := p.clock.chain;
      assert |chain| == p.Step();
      assert |chain| > 0 ==> (|chain| - 1, chain[|chain| - 1]) in TlcBlocks(wire);
    }
  }

  lemma DeliverAcceptKeeps(c: Config, good: bool, net: Net, p: PeerId, m: Message)
    requires Inv(c, good, net) && Enabled(c, net, Deliver(p, m)) && m.Accept?
    requires good ==> Meets(c, GOOD, net.peers[p], Deliver(p, m))
    ensures Inv(c, good, Apply(c, net, Deliver(p, m)))
  {
    var (p', sent) := OnAccept(c, p, net.peers[p], m);
    AcceptKeepsPeer(c, net.wire, p, net.peers[p], m);
    WireGrowsPeer(c, net.wire, net.wire + Sent(sent), p, p');
    if sent.Some? {
      TlcMsgOk(c, good, net.wire, p, net.peers[p], m);
      WireGrowsMsg(c, good, net.wire, net.wire + Sent(sent), sent.value);
    }
    UpdateKeeps(c, good, net, p, p', sent);
  }

  lemma DeliverTlcKeeps(c: Config, good: bool, net: Net, p: PeerId, m: Message)
    requires Inv(c, good, net) && Enabled(c, net, Deliver(p, m)) && m.TlcMsg?
    ensures Inv(c, good, Apply(c, net, Deliver(p, m)))
  {
    TlcKeepsPeer(c, net.wire, p, net.peers[p], m);
    var p' := OnTlc(c, p, net.peers[p], m.step, m.block);
    assert net.wire + Sent(None) == net.wire;
    UpdateKeeps(c, good, net, p, p', None);
  }

  // ------------------------------------------------------------------ entering phase two

  lemma {:induction false} PeersAreFew(n: nat, q: set<PeerId>)
    requires forall p :: p in q ==> 1 <= p <= n
    ensures |q| <= n
  {
    if n == 0 {
      assert q == {};
    } else {
      PeersAreFew(n - 1, q - {n});
    }
  }

  lemma {:induction false} BackersCount(s: seq<Pledge>)
    requires NoDup(s) && forall x, y :: x in s && y in s && x.from == y.from ==> x == y
    ensures |Backers(set x | x in s)| == |s|
  {
    if s == [] {
      assert Backers(set x | x in s) == {};
    } else {
      var t, last := s[..|s| - 1], s[|s| - 1];
      assert s == t + [last];
      BackersCount(t);
      assert Backers(set x | x in s) == Backers(set x | x in t) + {last.from} by {
        assert forall x :: x in s <==> x in t || x == last;
      }
      assert last.from !in Backers(set x | x in t);
    }
  }

  lemma QuorumsMeet(c: Config, a: set<PeerId>, b: set<PeerId>) returns (p: PeerId)
    requires ValidConfig(c) && |a| >= c.threshold && |b| >= c.threshold
    requires forall q :: q in a + b ==> 1 <= q <= c.n
    ensures p in a && p in b
  {
    PeersAreFew(c.n, a + b);
    assert |a + b| == |a| + |b| - |a * b|;
    p :| p in a * b;
  }

  /** Two thresholds of promises for one ID cannot be disjoint. */
  lemma NoSecondRound(c: Config, a: set<Pledge>, b: set<Pledge>, step: nat, id: nat)
    requires ValidConfig(c)
    requires |Backers(a)| >= c.threshold && |Backers(b)| >= c.threshold
    requires forall x :: x in a + b ==> 1 <= x.from <= c.n && x.step == step && x.id == id
    requires forall x, y {:trigger OnePromise(x, y)} :: x in a && y in b ==> OnePromise(x, y)
    ensures exists x :: x in a && x in b
  {
    var p := QuorumsMeet(c, Backers(a), Backers(b));
    var x :| x in a && x.from == p;
    var y :| y in b && y.from == p;
    assert OnePromise(x, y);
  }

  /** The promises a proposer rests its propose on, when all are for its own ID. */
  lemma SupportIsQuorum(c: Config, net: Net, p: PeerId)
    requires Inv(c, true, net) && Enabled(c, net, GoTwo(p)) && Meets(c, GOOD, net.peers[p], GoTwo(p))
    ensures |Backers(set x | x in net.peers[p].round.got)| >= c.threshold
  {
    var peer := net.peers[p];
    var got := peer.round.got;
    assert got == Hand(peer)[..|got|];
    forall x, y | x in got && y in got && x.from == y.from ensures x == y {
      assert InHand(net.wire, p, peer, x) && InHand(net.wire, p, peer, y);
      assert PairOk(true, Promise(x), Promise(y));
    }
    BackersCount(got);
  }

  /** In a good run no two proposes share an ID. */
  lemma ProposesOnce(c: Config, net: Net, p: PeerId, m: Message)
    requires Inv(c, true, net) && Enabled(c, net, GoTwo(p)) && Meets(c, GOOD, net.peers[p], GoTwo(p))
    requires m in net.wire && m.Propose? && m.step == net.peers[p].Step()
    ensures m.id != net.peers[p].proposalID
  {
    var peer := net.peers[p];
    if m.id == peer.proposalID {
      var got := set x | x in peer.round.got;
      SupportIsQuorum(c, net, p);
      assert MsgOk(c, true, net.wire, m);
      assert AboutPeer(m, p, peer);
      forall x | x in m.support + got
        ensures 1 <= x.from <= c.n && x.step == m.step && x.id == m.id && Promise(x) in net.wire
      {
        assert x in m.support ==> SupportOk(net.wire, m, x);
        assert x in got ==> x in Hand(peer);
        assert MsgOk(c, true, net.wire, Promise(x));
      }
      forall x, y | x in m.support && y in got ensures OnePromise(x, y) {
        assert PairOk(true, Promise(x), Promise(y));
      }
      assert forall x :: x in got ==> x in Hand(peer);
      NoSecondRound(c, m.support, got, m.step, m.id);
      assert false;
    }
  }

  lemma RoundSplitsHand(p: Peer)
    requires p.round.Collecting? && NoDup(Hand(p))
    ensures forall x :: x in p.round.got ==> x in Hand(p) && x !in p.promiseCh
  {
    var k := |p.round.got|;
    assert p.round.got == Hand(p)[..k] && p.promiseCh == Hand(p)[k..];
  }

  lemma ProposeKeepsPeer(c: Config, wire: set<Message>, me: PeerId, p: Peer)
    requires c.n > 0 && PeerOk(c, wire, me, p) && p.round.Collecting?
    ensures PeerOk(c, wire, me, EnterPhaseTwo(p)) && Evolves(p, EnterPhaseTwo(p))
    ensures AboutPeer(ProposeMessage(me, p), me, EnterPhaseTwo(p))
  {
    HandShrinks(p, EnterPhaseTwo(p));
    RoundSplitsHand(p);
    assert Hand(EnterPhaseTwo(p)) == p.promiseCh;
  }

  lemma ProposeMsgOk(c: Config, wire: set<Message>, me: PeerId, p: Peer)
    requires c.n > 0 && PeerOk(c, wire, me, p) && p.round.Collecting?
    ensures MsgOk(c, false, wire, ProposeMessage(me, p))
  {
    RoundSplitsHand(p);
    forall x | x in p.round.got ensures SupportOk(wire, ProposeMessage(me, p), x) {
      assert InHand(wire, me, p, x);
    }
  }

  lemma GoTwoKeeps(c: Config, good: bool, net: Net, p: PeerId)
    requires Inv(c, good, net) && Enabled(c, net, GoTwo(p)) && (good ==> Meets(c, GOOD, net.peers[p], GoTwo(p)))
    ensures Inv(c, good, Apply(c, net, GoTwo(p)))
  {
    var peer := net.peers[p];
    var m := ProposeMessage(p, peer);
    ProposeKeepsPeer(c, net.wire, p, peer);
    ProposeMsgOk(c, net.wire, p, peer);
    WireGrowsPeer(c, net.wire, net.wire + {m}, p, EnterPhaseTwo(peer));
    if good {
      SupportIsQuorum(c, net, p);
    }
    WireGrowsMsg(c, good, net.wire, net.wire + {m}, m);
    forall m' | m' in net.wire ensures PairOk(good, m, m') && PairOk(good, m', m) {
      if good && m'.Propose? && m'.step == m.step {
        ProposesOnce(c, net, p, m');
      }
    }
    UpdateKeeps(c, good, net, p, EnterPhaseTwo(peer), Some(m));
  }

  // ----------------------------------------------------------------------- every run

  lemma StepKeepsInv(c: Config, good: bool, net: Net, e: Event)
    requires Inv(c, good, net) && Enabled(c, net, e) && (good ==> Meets(c, GOOD, net.peers[e.p], e))
    ensures Inv(c, good, Apply(c, net, e))
  {
    match e
    case Take(p) => TakeKeeps(c, good, net, p);
    case GoTwo(p) => GoTwoKeeps(c, good, net, p);
    case Deliver(p, m) =>
      match m {
        case Prepare(_, _, _) => DeliverPrepareKeeps(c, good, net, p, m);
        case Promise(_) => DeliverPromiseKeeps(c, good, net, p, m);
        case Propose(_, _, _, _, _, _) => DeliverProposeKeeps(c, good, net, p, m);
        case Accept(_, _, _, _) => DeliverAcceptKeeps(c, good, net, p, m);
        case TlcMsg(_, _, _) => DeliverTlcKeeps(c, good, net, p, m);
      }
    case _ => TurnKeeps(c, good, net, e);
  }

  ghost predicate CanRun(c: Config, net: Net, events: seq<Event>)
    decreases |events|
  {
    events == [] || (Enabled(c, net, events[0]) && CanRun(c, Apply(c, net, events[0]), events[1..]))
  }

  ghost function Final(c: Config, net: Net, events: seq<Event>): (r: Net)
    requires CanRun(c, net, events)
    decreases |events|
  {
    if events == [] then net else Final(c, Apply(c, net, events[0]), events[1..])
  }

  /** Every event of the run meets the demand where it happens. */
  ghost predicate RunMeets(c: Config, d: Demand, net: Net, events: seq<Event>)
    requires CanRun(c, net, events)
    decreases |events|
  {
    events == [] ||
    (Meets(c, d, net.peers[events[0].p], events[0]) && RunMeets(c, d, Apply(c, net, events[0]), events[1..]))
  }

  lemma InitialInv(c: Config, good: bool, net: Net)
    requires ValidConfig(c) && Initial(c, net)
    ensures Inv(c, good, net)
  {
  }

  lemma {:induction false} RunKeepsInv(c: Config, good: bool, net: Net, events: seq<Event>)
    requires Inv(c, good, net) && CanRun(c, net, events) && (good ==> RunMeets(c, GOOD, net, events))
    ensures Inv(c, good, Final(c, net, events))
    decreases |events|
  {
    if events != [] {
      StepKeepsInv(c, good, net, events[0]);
      RunKeepsInv(c, good, Apply(c, net, events[0]), events[1..]);
    }
  }
}
