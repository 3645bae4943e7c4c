/**
  Why agreement needs both demands: two runs of three peers that decide two values in one step.
  In the first every decision counts accepts of one ID, but a propose rests on a promise for an
  older ID; in the second every propose rests on promises for its own ID, but a decision counts
  accepts of two IDs.

  In both runs every peer is handed the messages of every peer, its own included, in the order in
  which they were sent, each once: what the gossip layer guarantees.
 */
module PaxosGaps {
  import opened Wrappers
  import opened Tlc
  import opened PaxosPeer
  import opened PaxosNetwork

  const THREE := Config(3, 2)

  // ------------------------------------------------------------------ runs in order

  /** The messages of one origin that the three peers have not been handed yet. */
  datatype Lanes = Lanes(to1: seq<Message>, to2: seq<Message>, to3: seq<Message>)
  {
    function To(p: PeerId): (s: seq<Message>) {
      if p == 1 then to1 else if p == 2 then to2 else to3
    }

    function Pop(p: PeerId): (r: Lanes)
      requires To(p) != []
    {
      if p == 1 then this.(to1 := to1[1..]) else if p == 2 then this.(to2 := to2[1..]) else this.(to3 := to3[1..])
    }

    function Post(m: Message): (r: Lanes) {
      Lanes(to1 + [m], to2 + [m], to3 + [m])
    }
  }

  datatype Queues = Queues(by1: Lanes, by2: Lanes, by3: Lanes)
  {
    function By(o: PeerId): (l: Lanes) {
      if o == 1 then by1 else if o == 2 then by2 else by3
    }

    function Set(o: PeerId, l: Lanes): (r: Queues) {
      if o == 1 then this.(by1 := l) else if o == 2 then this.(by2 := l) else this.(by3 := l)
    }
  }

  /** The network of three peers and, for every origin and receiver, the messages not yet handed over. */
  datatype Fifo = Fifo(net: Net, queues: Queues)

  function Origin(m: Message): (p: PeerId) {
    match m
    case Prepare(_, _, source) => source
    case Promise(x) => x.from
    case Propose(from, _, _, _, _, _) => from
    case Accept(from, _, _, _) => from
    case TlcMsg(from, _, _) => from
  }

  /** The message is the next one of its origin for the peer. */
  predicate InTurn(q: Queues, p: PeerId, m: Message) {
    q.By(Origin(m)).To(p) != [] && q.By(Origin(m)).To(p)[0] == m
  }

  function Pop(q: Queues, p: PeerId, m: Message): (r: Queues) {
    if InTurn(q, p, m) then q.Set(Origin(m), q.By(Origin(m)).Pop(p)) else q
  }

  function Post(q: Queues, from: PeerId, sent: Option<Message>): (r: Queues) {
    if sent.None? then q else q.Set(from, q.By(from).Post(sent.value))
  }

  /** The state after an event has changed its peer and perhaps sent a message. */
  function After(f: Fifo, e: Event, p': Peer, sent: Option<Message>): (r: Fifo) {
    Fifo(Net(f.net.peers[e.p := p'], f.net.wire + Sent(sent)),
         Post(if e.Deliver? then Pop(f.queues, e.p, e.m) else f.queues, e.p, sent))
  }

  predicate Allowed(c: Config, d: Demand, f: Fifo, e: Event) {
    && Enabled(c, f.net, e) && Meets(c, d, f.net.peers[e.p], e)
    && (e.Deliver? ==> InTurn(f.queues, e.p, e.m))
  }

  function Next(c: Config, f: Fifo, e: Event): (r: Fifo)
    requires Enabled(c, f.net, e)
  {
    var (p', sent) := Act(c, f.net.wire, f.net.peers[e.p], e);
    After(f, e, p', sent)
  }

  /** The events can happen one after the other, in order and meeting the demand, and lead from `f` to `g`. */
  ghost predicate OrderedRun(c: Config, d: Demand, f: Fifo, events: seq<Event>, g: Fifo)
    decreases |events|
  {
    if events == [] then f == g
    else Allowed(c, d, f, events[0]) && OrderedRun(c, d, Next(c, f, events[0]), events[1..], g)
  }

  const EMPTY := Lanes([], [], [])

  ghost predicate Start(c: Config, f: Fifo) {
    Initial(c, f.net) && f.queues == Queues(EMPTY, EMPTY, EMPTY)
  }

  /** A run in order from the start leads here. */
  ghost predicate OrderedReach(c: Config, d: Demand, start: Fifo, events: seq<Event>, f: Fifo) {
    Start(c, start) && OrderedRun(c, d, start, events, f)
  }

  ghost predicate Reaches(c: Config, d: Demand, f: Fifo) {
    exists start, events :: OrderedReach(c, d, start, events, f)
  }

  lemma {:induction false} RunExtends(c: Config, d: Demand, f: Fifo, events: seq<Event>, g: Fifo, e: Event)
    requires OrderedRun(c, d, f, events, g) && Allowed(c, d, g, e)
    ensures OrderedRun(c, d, f, events + [e], Next(c, g, e))
    decreases |events|
  {
    if events == [] {
      assert (events + [e])[1..] == [];
    } else {
      RunExtends(c, d, Next(c, f, events[0]), events[1..], g, e);
      assert (events + [e])[1..] == events[1..] + [e];
    }
  }

  lemma ReachesStep(c: Config, d: Demand, f: Fifo, e: Event)
    requires Reaches(c, d, f) && Allowed(c, d, f, e)
    ensures Reaches(c, d, Next(c, f, e))
  {
    var start, events :| OrderedReach(c, d, start, events, f);
    RunExtends(c, d, start, events, f, e);
    assert OrderedReach(c, d, start, events + [e], Next(c, f, e));
  }

  /** A run in order is a run of the network. */
  lemma {:induction false} OrderedIsRun(c: Config, d: Demand, f: Fifo, events: seq<Event>, g: Fifo)
    requires OrderedRun(c, d, f, events, g)
    ensures CanRun(c, f.net, events) && RunMeets(c, d, f.net, events) && Final(c, f.net, events) == g.net
    decreases |events|
  {
    if events != [] {
      OrderedIsRun(c, d, Next(c, f, events[0]), events[1..], g);
    }
  }

  /** A set of states that every step in order meeting the demand stays in. */
  ghost predicate Closed(d: Demand, all: iset<Fifo>) {
    forall f, e {:trigger Next(THREE, f, e)} :: f in all && Allowed(THREE, d, f, e) ==> Next(THREE, f, e) in all
  }

  // --------------------------------------------------------------------- single steps

  lemma Do(d: Demand, all: iset<Fifo>, f: Fifo, e: Event, p': Peer, sent: Option<Message>) returns (r: Fifo)
    requires Closed(d, all) && f in all && Allowed(THREE, d, f, e)
    requires Act(THREE, f.net.wire, f.net.peers[e.p], e) == (p', sent)
    ensures r == After(f, e, p', sent) && r in all
  {
    r := Next(THREE, f, e);
  }

  /** Peer `p` starts to propose `v`. */
  lemma Begin(d: Demand, all: iset<Fifo>, f: Fifo, p: PeerId, v: Value) returns (r: Fifo)
    requires Closed(d, all) && f in all && p in f.net.peers && f.net.peers[p].phase == NotPropose
    ensures var peer := f.net.peers[p];
            r == After(f, StartPropose(p, v), peer.(phase := PhaseOne, round := StartRound(v)),
                       Some(Prepare(peer.Step(), peer.proposalID, p)))
    ensures r in all
  {
    var peer := f.net.peers[p];
    r := Do(d, all, f, StartPropose(p, v), BeginPropose(peer, v), Some(Prepare(peer.Step(), peer.proposalID, p)));
  }

  /** Peer `p` promises. */
  lemma Vow(d: Demand, all: iset<Fifo>, f: Fifo, p: PeerId, id: nat, source: PeerId) returns (r: Fifo)
    requires Closed(d, all) && f in all && p in f.net.peers && id > f.net.peers[p].maxID
    requires var m := Prepare(f.net.peers[p].Step(), id, source); m in f.net.wire && InTurn(f.queues, p, m)
    ensures var peer := f.net.peers[p];
            r == After(f, Deliver(p, Prepare(peer.Step(), id, source)), peer.(maxID := id),
                       Some(Promise(Pledge(p, source, peer.Step(), id, peer.acceptedID, peer.acceptedValue))))
    ensures r in all
  {
    var peer := f.net.peers[p];
    var x := Pledge(p, source, peer.Step(), id, peer.acceptedID, peer.acceptedValue);
    r := Do(d, all, f, Deliver(p, Prepare(peer.Step(), id, source)), peer.(maxID := id), Some(Promise(x)));
  }

  /** Peer `p` is handed a message that does not change it. */
  lemma Skip(d: Demand, all: iset<Fifo>, f: Fifo, p: PeerId, m: Message) returns (r: Fifo)
    requires Closed(d, all) && f in all && p in f.net.peers && m in f.net.wire && InTurn(f.queues, p, m)
    requires (m.Promise? && m.pledge.to != p && m.pledge !in f.net.peers[p].heard)
             || (m.Prepare? && m.id <= f.net.peers[p].maxID)
             || (m.Propose? && m.id != f.net.peers[p].maxID)
    ensures r == After(f, Deliver(p, m), f.net.peers[p], None) && r in all
  {
    r := Do(d, all, f, Deliver(p, m), f.net.peers[p], None);
  }

  /** Peer `p` is handed a promise it no longer waits for. */
  lemma TooLate(d: Demand, all: iset<Fifo>, f: Fifo, p: PeerId, x: Pledge) returns (r: Fifo)
    requires Closed(d, all) && f in all && p in f.net.peers && Promise(x) in f.net.wire && InTurn(f.queues, p, Promise(x))
    requires x.to == p && x !in f.net.peers[p].heard && f.net.peers[p].phase != PhaseOne
    ensures r == After(f, Deliver(p, Promise(x)), f.net.peers[p].(heard := f.net.peers[p].heard + {x}), None) && r in all
  {
    r := Do(d, all, f, Deliver(p, Promise(x)), f.net.peers[p].(heard := f.net.peers[p].heard + {x}), None);
  }

  /** The peer after it has been handed the promise `x` and its loop has taken it. */
  function Taken(p: Peer, x: Pledge): (r: Peer)
    requires p.round.Collecting?
  {
    var better := x.accId > p.round.highest && x.accVal.Some?;
    p.(heard := p.heard + {x},
       round := p.round.(got := p.round.got + [x],
                         highest := if better then x.accId else p.round.highest,
                         proposed := if better then x.accVal.value else p.round.proposed))
  }

  lemma TakenIsTaken(p: Peer, x: Pledge)
    requires p.round.Collecting? && p.phase == PhaseOne && p.promiseCh == [] && x.step == p.Step()
    ensures OnPromise(p, x).promiseCh == [x] && OnPromise(p, x).round == p.round
    ensures TakePromise(OnPromise(p, x)) == Taken(p, x)
  {
    assert OnPromise(p, x).promiseCh == [x];
    assert [x][1..] == [];
  }

  lemma Queue(d: Demand, all: iset<Fifo>, f: Fifo, p: PeerId, x: Pledge) returns (r: Fifo)
    requires Closed(d, all) && f in all && p in f.net.peers && Promise(x) in f.net.wire && InTurn(f.queues, p, Promise(x))
    requires x.to == p && x !in f.net.peers[p].heard
    ensures r == After(f, Deliver(p, Promise(x)), OnPromise(f.net.peers[p], x), None) && r in all
  {
    r := Do(d, all, f, Deliver(p, Promise(x)), OnPromise(f.net.peers[p], x), None);
  }

  lemma TakeOne(d: Demand, all: iset<Fifo>, f: Fifo, p: PeerId) returns (r: Fifo)
    requires Closed(d, all) && f in all && p in f.net.peers && f.net.peers[p].promiseCh != []
    requires f.net.peers[p].round.Collecting? && Turns(f.net.peers[p].round) < 2
    ensures r == After(f, Take(p), TakePromise(f.net.peers[p]), None) && r in all
  {
    r := Do(d, all, f, Take(p), TakePromise(f.net.peers[p]), None);
  }

  /** Peer `p` is handed the promise `x` and takes it. */
  lemma Hear(d: Demand, all: iset<Fifo>, f: Fifo, p: PeerId, x: Pledge) returns (r: Fifo)
    requires Closed(d, all) && f in all && p in f.net.peers && Promise(x) in f.net.wire && InTurn(f.queues, p, Promise(x))
    requires var peer := f.net.peers[p];
             && peer.phase == PhaseOne && peer.round.Collecting? && Turns(peer.round) < 2 && peer.promiseCh == []
             && x.to == p && x.step == peer.Step() && x !in peer.heard
    ensures r == After(f, Deliver(p, Promise(x)), Taken(f.net.peers[p], x), None) && r in all
  {
    TakenIsTaken(f.net.peers[p], x);
    r := Queue(d, all, f, p, x);
    r := TakeOne(d, all, r, p);
    assert r.net.peers == f.net.peers[p := Taken(f.net.peers[p], x)];
  }

  lemma FireOne(d: Demand, all: iset<Fifo>, f: Fifo, p: PeerId) returns (r: Fifo)
    requires Closed(d, all) && f in all && p in f.net.peers
    requires f.net.peers[p].round.Collecting? && Turns(f.net.peers[p].round) < 2 && !f.net.peers[p].round.timedOut
    ensures r == After(f, TimerOne(p), PhaseOneTimeout(THREE, f.net.peers[p]), None) && r in all
  {
    r := Do(d, all, f, TimerOne(p), PhaseOneTimeout(THREE, f.net.peers[p]), None);
  }

  lemma PrepareAgain(d: Demand, all: iset<Fifo>, f: Fifo, p: PeerId) returns (r: Fifo)
    requires Closed(d, all) && f in all && p in f.net.peers
    requires f.net.peers[p].round.Collecting? && Turns(f.net.peers[p].round) == 2 && f.net.peers[p].round.timedOut
    ensures r == After(f, Again(p), Retry(f.net.peers[p]), Some(Prepare(f.net.peers[p].Step(), f.net.peers[p].proposalID, p)))
    ensures r in all
  {
    r := Do(d, all, f, Again(p), Retry(f.net.peers[p]), Some(Prepare(f.net.peers[p].Step(), f.net.peers[p].proposalID, p)));
  }

  lemma FireTwo(d: Demand, all: iset<Fifo>, f: Fifo, p: PeerId) returns (r: Fifo)
    requires Closed(d, all) && f in all && p in f.net.peers && f.net.peers[p].round.Waiting?
    ensures r == After(f, TimerTwo(p), PhaseTwoTimeout(THREE, f.net.peers[p]),
                       Some(Prepare(f.net.peers[p].Step(), f.net.peers[p].proposalID + 3, p)))
    ensures r in all
  {
    var m := Prepare(f.net.peers[p].Step(), f.net.peers[p].proposalID + 3, p);
    r := Do(d, all, f, TimerTwo(p), PhaseTwoTimeout(THREE, f.net.peers[p]), Some(m));
  }

  lemma Commit(d: Demand, all: iset<Fifo>, f: Fifo, p: PeerId) returns (r: Fifo)
    requires Closed(d, all) && f in all && p in f.net.peers
    requires f.net.peers[p].round.Collecting? && Turns(f.net.peers[p].round) == 2 && !f.net.peers[p].round.timedOut
    requires d.proposals ==> forall x :: x in f.net.peers[p].round.got ==> x.id == f.net.peers[p].proposalID
    ensures r == After(f, GoTwo(p), EnterPhaseTwo(f.net.peers[p]), Some(ProposeMessage(p, f.net.peers[p]))) && r in all
  {
    r := Do(d, all, f, GoTwo(p), EnterPhaseTwo(f.net.peers[p]), Some(ProposeMessage(p, f.net.peers[p])));
  }

  lemma Ratify(d: Demand, all: iset<Fifo>, f: Fifo, p: PeerId, m: Message) returns (r: Fifo)
    requires Closed(d, all) && f in all && p in f.net.peers && m in f.net.wire && InTurn(f.queues, p, m)
    requires m.Propose? && m.step == f.net.peers[p].Step() && m.id == f.net.peers[p].maxID
    ensures r == After(f, Deliver(p, m), f.net.peers[p].(acceptedID := m.id, acceptedValue := Some(m.value)),
                       Some(Accept(p, m.step, m.id, m.value)))
    ensures r in all
  {
    var p' := f.net.peers[p].(acceptedID := m.id, acceptedValue := Some(m.value));
    r := Do(d, all, f, Deliver(p, m), p', Some(Accept(p, m.step, m.id, m.value)));
  }

  /** The first accept of a value is counted. */
  lemma Tally(d: Demand, all: iset<Fifo>, f: Fifo, p: PeerId, m: Message) returns (r: Fifo)
    requires Closed(d, all) && f in all && p in f.net.peers && m in f.net.wire && InTurn(f.queues, p, m) && m.Accept?
    requires m.step == f.net.peers[p].Step() && !f.net.peers[p].decided && m.value !in f.net.peers[p].learned
    ensures r == After(f, Deliver(p, m), f.net.peers[p].(learned := f.net.peers[p].learned[m.value := [m]]), None)
    ensures r in all
  {
    assert Counted(f.net.peers[p], m) == [m];
    r := Do(d, all, f, Deliver(p, m), f.net.peers[p].(learned := f.net.peers[p].learned[m.value := [m]]), None);
  }

  /** The second accept of a value decides it in step 0. */
  lemma Settle(d: Demand, all: iset<Fifo>, f: Fifo, p: PeerId, m: Message, first: Message) returns (r: Fifo)
    requires Closed(d, all) && f in all && p in f.net.peers && m in f.net.wire && InTurn(f.queues, p, m) && m.Accept?
    requires m.step == 0 && f.net.peers[p].clock == INITIAL && !f.net.peers[p].decided && first.Accept?
    requires m.value in f.net.peers[p].learned && f.net.peers[p].learned[m.value] == [first]
    requires d.decisions ==> first.id == m.id && first.from != m.from
    ensures var peer := f.net.peers[p];
            r == After(f, Deliver(p, m),
                       peer.(learned := peer.learned[m.value := [first, m]], decided := true,
                             signalled := peer.phase == PhaseTwo || peer.signalled),
                       Some(TlcMsg(p, 0, Block(0, m.value, NoBlock))))
    ensures r in all
  {
    var peer := f.net.peers[p];
    assert Counted(peer, m) == [first, m];
    var (p', sent) := OnAccept(THREE, p, peer, m);
    r := Do(d, all, f, Deliver(p, m), p', sent);
  }

  const FRESH := Fifo(
    Net(map[1 := FreshPeer(1, INITIAL), 2 := FreshPeer(2, INITIAL), 3 := FreshPeer(3, INITIAL)], {}),
    Queues(EMPTY, EMPTY, EMPTY))

  /** A promise in step 0 of a peer that has accepted nothing. */
  function Free(from: PeerId, to: PeerId, id: nat): (x: Pledge) {
    Pledge(from, to, 0, id, 0, None)
  }

  function Vowed(from: PeerId, to: PeerId, id: nat): (m: Message) {
    Promise(Free(from, to, id))
  }

  function Prep(id: nat, source: PeerId): (m: Message) {
    Prepare(0, id, source)
  }

  function Prop(from: PeerId, id: nat, value: Value, basis: nat, x: Pledge, y: Pledge): (m: Message) {
    Propose(from, 0, id, value, basis, {x, y})
  }

  function Acc(from: PeerId, id: nat, value: Value): (m: Message) {
    Accept(from, 0, id, value)
  }

  lemma Pair(x: Pledge, y: Pledge)
    ensures (set z | z in [] + [x] + [y]) == {x, y}
  {
  }

  /** A peer that collects promises for `v` and has promised `max`. */
  function Proposer(me: PeerId, id: nat, max: nat, v: Value, heard: set<Pledge>): (p: Peer) {
    FreshPeer(me, INITIAL).(proposalID := id, maxID := max, phase := PhaseOne, round := StartRound(v), heard := heard)
  }

  /** A peer that has promised `max` and accepted `v` at ID `id`. */
  function Acceptor(me: PeerId, max: nat, id: nat, v: Option<Value>): (p: Peer) {
    FreshPeer(me, INITIAL).(maxID := max, acceptedID := id, acceptedValue := v)
  }

  // ------------------------------------------------------------------ stale promises

  const ANY_PROPOSAL := Demand(false, true)

  const PROP2 := Prop(2, 2, "b", 0, Free(2, 2, 2), Free(3, 2, 2))
  const PROP4 := Prop(1, 4, "a", 0, Free(2, 1, 1), Free(1, 1, 4))
  const LATE := Pledge(3, 1, 0, 4, 2, Some("b"))

  /** Peer 1 gives up on ID 1 and prepares ID 4; peer 2's promise for ID 1 is still on its way. */
  lemma StaleOne(all: iset<Fifo>) returns (f: Fifo)
    requires Closed(ANY_PROPOSAL, all) && FRESH in all
    ensures f in all && f.net.peers.Keys == {1, 2, 3} && f.net.peers[1] == Proposer(1, 4, 1, "a", {Free(1, 1, 1)})
    ensures f.net.peers[2] == Acceptor(2, 1, 0, None) && f.net.peers[3] == Acceptor(3, 0, 0, None)
    ensures f.queues.by1.to1 == [Prep(4, 1)] && f.queues.by1.to3 == [Prep(1, 1), Vowed(1, 1, 1), Prep(4, 1)]
    ensures f.queues.by2 == Lanes([Vowed(2, 1, 1)], [Vowed(2, 1, 1)], [Vowed(2, 1, 1)]) && f.queues.by3 == EMPTY
    ensures {Prep(1, 1), Vowed(1, 1, 1), Prep(4, 1), Vowed(2, 1, 1)} <= f.net.wire
  {
    var d := ANY_PROPOSAL;
    f := Begin(d, all, FRESH, 1, "a");
    f := Vow(d, all, f, 1, 1, 1);
    f := Vow(d, all, f, 2, 1, 1);
    f := FireOne(d, all, f, 1);
    f := Hear(d, all, f, 1, Free(1, 1, 1));
    f := PrepareAgain(d, all, f, 1);
  }

  /** Peer 2 prepares ID 2; peers 2 and 3 promise. */
  lemma StaleTwo(all: iset<Fifo>) returns (f: Fifo)
    requires Closed(ANY_PROPOSAL, all) && FRESH in all
    ensures f in all && f.net.peers.Keys == {1, 2, 3} && f.net.peers[1] == Proposer(1, 4, 1, "a", {Free(1, 1, 1)})
    ensures f.net.peers[2] == Proposer(2, 2, 2, "b", {}) && f.net.peers[3] == Acceptor(3, 2, 0, None)
    ensures f.queues.by1.to1 == [Prep(4, 1)] && f.queues.by1.to3 == [Prep(1, 1), Vowed(1, 1, 1), Prep(4, 1)]
    ensures |f.queues.by2.to1| > 0 && f.queues.by2.to1[0] == Vowed(2, 1, 1)
    ensures f.queues.by2.to2 == f.queues.by2.to3 == [Vowed(2, 2, 2)]
    ensures f.queues.by3.to1 == f.queues.by3.to2 == [Vowed(3, 2, 2)]
    ensures {Prep(1, 1), Vowed(1, 1, 1), Prep(4, 1), Vowed(2, 1, 1), Vowed(2, 2, 2), Vowed(3, 2, 2)} <= f.net.wire
  {
    var d := ANY_PROPOSAL;
    f := StaleOne(all);
    f := Begin(d, all, f, 2, "b");
    f := Skip(d, all, f, 2, Vowed(2, 1, 1));
    f := Vow(d, all, f, 2, 2, 2);
    f := Skip(d, all, f, 3, Vowed(2, 1, 1));
    f := Vow(d, all, f, 3, 2, 2);
  }

  /** Peer 2 proposes "b" and accepts it. */
  lemma StaleThree(all: iset<Fifo>) returns (f: Fifo)
    requires Closed(ANY_PROPOSAL, all) && FRESH in all
    ensures f in all && f.net.peers.Keys == {1, 2, 3} && f.net.peers[1] == Proposer(1, 4, 1, "a", {Free(1, 1, 1)})
    ensures f.net.peers[2] == Acceptor(2, 2, 2, Some("b")).(phase := PhaseTwo, round := Waiting("b"),
                                                           heard := {Free(2, 2, 2), Free(3, 2, 2)})
    ensures f.net.peers[3] == Acceptor(3, 2, 0, None)
    ensures f.queues.by1.to1 == [Prep(4, 1)] && f.queues.by1.to3 == [Prep(1, 1), Vowed(1, 1, 1), Prep(4, 1)]
    ensures |f.queues.by2.to1| > 0 && f.queues.by2.to1[0] == Vowed(2, 1, 1) && f.queues.by2.to2 == [Acc(2, 2, "b")]
    ensures f.queues.by2.to3 == [Vowed(2, 2, 2), PROP2, Acc(2, 2, "b")]
    ensures f.queues.by3.to1 == [Vowed(3, 2, 2)] && f.queues.by3.to2 == []
    ensures {Prep(1, 1), Vowed(1, 1, 1), Prep(4, 1), Vowed(2, 1, 1), Vowed(2, 2, 2), Vowed(3, 2, 2), PROP2,
             Acc(2, 2, "b")} <= f.net.wire
  {
    var d := ANY_PROPOSAL;
    f := StaleTwo(all);
    Pair(Free(2, 2, 2), Free(3, 2, 2));
    f := Hear(d, all, f, 2, Free(2, 2, 2));
    f := Hear(d, all, f, 2, Free(3, 2, 2));
    assert ProposeMessage(2, f.net.peers[2]) == PROP2;
    f := Commit(d, all, f, 2);
    f := Ratify(d, all, f, 2, PROP2);
  }

  /** Peer 3 accepts it too, and peer 2 decides "b". */
  lemma StaleFour(all: iset<Fifo>) returns (f: Fifo)
    requires Closed(ANY_PROPOSAL, all) && FRESH in all
    ensures f in all && f.net.peers.Keys == {1, 2, 3} && f.net.peers[1] == Proposer(1, 4, 1, "a", {Free(1, 1, 1)})
    ensures f.net.peers[3] == Acceptor(3, 2, 2, Some("b"))
    ensures f.queues.by1.to1 == [Prep(4, 1)] && f.queues.by1.to3 == [Prep(1, 1), Vowed(1, 1, 1), Prep(4, 1)]
    ensures |f.queues.by2.to1| > 0 && f.queues.by2.to1[0] == Vowed(2, 1, 1)
    ensures f.queues.by3.to1 == [Vowed(3, 2, 2), Acc(3, 2, "b")]
    ensures {Prep(1, 1), Vowed(1, 1, 1), Prep(4, 1), Vowed(2, 1, 1), Vowed(3, 2, 2), Acc(3, 2, "b"),
             TlcMsg(2, 0, Block(0, "b", NoBlock))} <= f.net.wire
  {
    var d := ANY_PROPOSAL;
    f := StaleThree(all);
    f := Skip(d, all, f, 3, Vowed(2, 2, 2));
    f := Ratify(d, all, f, 3, PROP2);
    f := Tally(d, all, f, 2, Acc(2, 2, "b"));
    f := Settle(d, all, f, 2, Acc(3, 2, "b"), Acc(2, 2, "b"));
  }

  /** Peers 1 and 3 promise ID 4; peer 3 was handed the prepare for ID 1 first and refused it. */
  lemma StaleFive(all: iset<Fifo>) returns (f: Fifo)
    requires Closed(ANY_PROPOSAL, all) && FRESH in all
    ensures f in all && f.net.peers.Keys == {1, 2, 3} && f.net.peers[1] == Proposer(1, 4, 4, "a", {Free(1, 1, 1)})
    ensures f.net.peers[3] == Acceptor(3, 4, 2, Some("b"))
    ensures f.queues.by1.to1 == f.queues.by1.to3 == [Vowed(1, 1, 4)]
    ensures |f.queues.by2.to1| > 0 && f.queues.by2.to1[0] == Vowed(2, 1, 1)
    ensures f.queues.by3.to1 == [Vowed(3, 2, 2), Acc(3, 2, "b"), Promise(LATE)]
    ensures {Vowed(1, 1, 4), Vowed(2, 1, 1), Vowed(3, 2, 2), Acc(3, 2, "b"), Promise(LATE),
             TlcMsg(2, 0, Block(0, "b", NoBlock))} <= f.net.wire
  {
    var d := ANY_PROPOSAL;
    f := StaleFour(all);
    f := Vow(d, all, f, 1, 4, 1);
    f := Skip(d, all, f, 3, Prep(1, 1));
    f := Skip(d, all, f, 3, Vowed(1, 1, 1));
    f := Vow(d, all, f, 3, 4, 1);
  }

  /** Peer 1 proposes "a" with ID 4 on one promise for ID 4 and peer 2's for ID 1, and accepts it. */
  lemma StaleSix(all: iset<Fifo>) returns (f: Fifo)
    requires Closed(ANY_PROPOSAL, all) && FRESH in all
    ensures f in all && f.net.peers.Keys == {1, 2, 3}
    ensures f.net.peers[1] == Acceptor(1, 4, 4, Some("a")).(proposalID := 4, phase := PhaseTwo, round := Waiting("a"),
                                heard := {Free(1, 1, 1), Free(2, 1, 1), Free(1, 1, 4)})
    ensures f.net.peers[3] == Acceptor(3, 4, 2, Some("b"))
    ensures f.queues.by1.to1 == [Acc(1, 4, "a")] && f.queues.by1.to3 == [Vowed(1, 1, 4), PROP4, Acc(1, 4, "a")]
    ensures f.queues.by3.to1 == [Vowed(3, 2, 2), Acc(3, 2, "b"), Promise(LATE)]
    ensures {Vowed(1, 1, 4), PROP4, Acc(1, 4, "a"), Vowed(3, 2, 2), Acc(3, 2, "b"), Promise(LATE),
             TlcMsg(2, 0, Block(0, "b", NoBlock))} <= f.net.wire
  {
    var d := ANY_PROPOSAL;
    f := StaleFive(all);
    Pair(Free(2, 1, 1), Free(1, 1, 4));
    f := Hear(d, all, f, 1, Free(2, 1, 1));
    f := Hear(d, all, f, 1, Free(1, 1, 4));
    assert ProposeMessage(1, f.net.peers[1]) == PROP4;
    f := Commit(d, all, f, 1);
    f := Ratify(d, all, f, 1, PROP4);
  }

  /** Peer 3 accepts "a" as well. */
  lemma StaleSeven(all: iset<Fifo>) returns (f: Fifo)
    requires Closed(ANY_PROPOSAL, all) && FRESH in all
    ensures f in all && f.net.peers.Keys == {1, 2, 3}
    ensures f.net.peers[1] == Acceptor(1, 4, 4, Some("a")).(proposalID := 4, phase := PhaseTwo, round := Waiting("a"),
                                heard := {Free(1, 1, 1), Free(2, 1, 1), Free(1, 1, 4)},
                                learned := map["a" := [Acc(1, 4, "a")]])
    ensures f.queues.by3.to1 == [Vowed(3, 2, 2), Acc(3, 2, "b"), Promise(LATE), Acc(3, 4, "a")]
    ensures {Vowed(3, 2, 2), Acc(3, 2, "b"), Promise(LATE), Acc(3, 4, "a"),
             TlcMsg(2, 0, Block(0, "b", NoBlock))} <= f.net.wire
  {
    var d := ANY_PROPOSAL;
    f := StaleSix(all);
    f := Tally(d, all, f, 1, Acc(1, 4, "a"));
    f := Skip(d, all, f, 3, Vowed(1, 1, 4));
    f := Ratify(d, all, f, 3, PROP4);
  }

  /** Peer 1 counts peer 3's accept of "b" first, then decides "a". */
  lemma StaleEnd(all: iset<Fifo>) returns (f: Fifo)
    requires Closed(ANY_PROPOSAL, all) && FRESH in all
    ensures f in all
    ensures TlcMsg(2, 0, Block(0, "b", NoBlock)) in f.net.wire && TlcMsg(1, 0, Block(0, "a", NoBlock)) in f.net.wire
  {
    var d := ANY_PROPOSAL;
    f := StaleSeven(all);
    f := Skip(d, all, f, 1, Vowed(3, 2, 2));
    f := Tally(d, all, f, 1, Acc(3, 2, "b"));
    f := TooLate(d, all, f, 1, LATE);
    f := Settle(d, all, f, 1, Acc(3, 4, "a"), Acc(1, 4, "a"));
  }

  /** The states some run in order meeting the demand reaches. */
  lemma Reachable(d: Demand) returns (all: iset<Fifo>)
    ensures all == iset f | Reaches(THREE, d, f)
    ensures Closed(d, all) && FRESH in all
  {
    all := iset f | Reaches(THREE, d, f);
    forall f, e {:trigger Next(THREE, f, e)} | f in all && Allowed(THREE, d, f, e) ensures Next(THREE, f, e) in all {
      ReachesStep(THREE, d, f, e);
    }
    assert OrderedReach(THREE, d, FRESH, [], FRESH);
  }

  /** Two different blocks decided in one step. */
  ghost predicate Disagrees(net: Net) {
    exists m, m' :: m in net.wire && m' in net.wire && m.TlcMsg? && m'.TlcMsg? && m.step == m'.step
                    && m.block != m'.block
  }

  /** A run of the network, in order and meeting the demand, after which two blocks are decided in one step. */
  ghost predicate BreaksAgreement(c: Config, d: Demand, start: Fifo, events: seq<Event>, f: Fifo) {
    && OrderedReach(c, d, start, events, f) && Disagrees(f.net)
    && CanRun(c, start.net, events) && RunMeets(c, d, start.net, events) && Final(c, start.net, events) == f.net
  }

  lemma DisagreementIsReached(d: Demand, f: Fifo)
    requires Reaches(THREE, d, f)
    requires TlcMsg(1, 0, Block(0, "a", NoBlock)) in f.net.wire && TlcMsg(2, 0, Block(0, "b", NoBlock)) in f.net.wire
    ensures exists start, events :: BreaksAgreement(THREE, d, start, events, f)
  {
    var start, events :| OrderedReach(THREE, d, start, events, f);
    OrderedIsRun(THREE, d, start, events, f);
    assert TlcMsg(2, 0, Block(0, "b", NoBlock)).block != TlcMsg(1, 0, Block(0, "a", NoBlock)).block;
    assert BreaksAgreement(THREE, d, start, events, f);
  }

  /** Counting promises for an older ID breaks agreement, even if every decision is sound. */
  lemma StalePromisesBreakAgreement()
    ensures exists start, events, f :: BreaksAgreement(THREE, ANY_PROPOSAL, start, events, f)
  {
    var all := Reachable(ANY_PROPOSAL);
    var f := StaleEnd(all);
    DisagreementIsReached(ANY_PROPOSAL, f);
  }

  // --------------------------------------------------------- accepts of different IDs

  const ANY_DECISION := Demand(true, false)

  const PROP1 := Prop(1, 1, "a", 0, Free(1, 1, 1), Free(2, 1, 1))
  const AGAIN4 := Pledge(1, 1, 0, 4, 1, Some("a"))
  const PROP4A := Prop(1, 4, "a", 1, Free(2, 1, 4), AGAIN4)
  const THIRD5 := Pledge(3, 2, 0, 5, 2, Some("b"))
  const PROP5 := Prop(2, 5, "b", 2, Free(2, 2, 5), THIRD5)

  /** Peer 1 as the proposer of "a" that has accepted it at ID 1 and counted that accept. */
  function First(id: nat, max: nat, heard: set<Pledge>): (p: Peer) {
    Acceptor(1, max, 1, Some("a")).(proposalID := id, heard := heard, learned := map["a" := [Acc(1, 1, "a")]])
  }

  /** Peer 1 prepares ID 1; peers 1 and 2 promise. */
  lemma MixedZero(all: iset<Fifo>) returns (f: Fifo)
    requires Closed(ANY_DECISION, all) && FRESH in all
    ensures f in all && f.net.peers.Keys == {1, 2, 3} && f.net.peers[1] == Proposer(1, 1, 1, "a", {})
    ensures f.net.peers[2] == Acceptor(2, 1, 0, None) && f.net.peers[3] == Acceptor(3, 0, 0, None)
    ensures f.queues.by1.to1 == f.queues.by1.to2 == [Vowed(1, 1, 1)]
    ensures f.queues.by2 == Lanes([Vowed(2, 1, 1)], [Vowed(2, 1, 1)], [Vowed(2, 1, 1)]) && f.queues.by3 == EMPTY
    ensures {Vowed(1, 1, 1), Vowed(2, 1, 1)} <= f.net.wire
  {
    var d := ANY_DECISION;
    f := Begin(d, all, FRESH, 1, "a");
    f := Vow(d, all, f, 1, 1, 1);
    f := Vow(d, all, f, 2, 1, 1);
  }

  /** Peer 1 proposes "a" with ID 1, accepts it and counts its accept. */
  lemma MixedOne(all: iset<Fifo>) returns (f: Fifo)
    requires Closed(ANY_DECISION, all) && FRESH in all
    ensures f in all && f.net.peers.Keys == {1, 2, 3}
    ensures f.net.peers[1] == First(1, 1, {Free(1, 1, 1), Free(2, 1, 1)}).(phase := PhaseTwo, round := Waiting("a"))
    ensures f.net.peers[2] == Acceptor(2, 1, 0, None) && f.net.peers[3] == Acceptor(3, 0, 0, None)
    ensures f.queues.by1.to1 == [] && f.queues.by1.to2 == [Vowed(1, 1, 1), PROP1, Acc(1, 1, "a")]
    ensures f.queues.by2.to1 == [] && f.queues.by2.to2 == f.queues.by2.to3 == [Vowed(2, 1, 1)] && f.queues.by3 == EMPTY
    ensures {Vowed(1, 1, 1), PROP1, Acc(1, 1, "a"), Vowed(2, 1, 1)} <= f.net.wire
  {
    var d := ANY_DECISION;
    f := MixedZero(all);
    Pair(Free(1, 1, 1), Free(2, 1, 1));
    f := Hear(d, all, f, 1, Free(1, 1, 1));
    f := Hear(d, all, f, 1, Free(2, 1, 1));
    assert ProposeMessage(1, f.net.peers[1]) == PROP1;
    f := Commit(d, all, f, 1);
    f := Ratify(d, all, f, 1, PROP1);
    f := Tally(d, all, f, 1, Acc(1, 1, "a"));
  }

  /** Peer 2 prepares ID 2; peers 2 and 3 promise. */
  lemma MixedTwo(all: iset<Fifo>) returns (f: Fifo)
    requires Closed(ANY_DECISION, all) && FRESH in all
    ensures f in all && f.net.peers.Keys == {1, 2, 3}
    ensures f.net.peers[1] == First(1, 1, {Free(1, 1, 1), Free(2, 1, 1)}).(phase := PhaseTwo, round := Waiting("a"))
    ensures f.net.peers[2] == Proposer(2, 2, 2, "b", {}) && f.net.peers[3] == Acceptor(3, 2, 0, None)
    ensures f.queues.by1.to1 == [] && f.queues.by1.to2 == [Vowed(1, 1, 1), PROP1, Acc(1, 1, "a")]
    ensures f.queues.by2 == Lanes([Prep(2, 2), Vowed(2, 2, 2)], [Vowed(2, 2, 2)], [Vowed(2, 2, 2)])
    ensures f.queues.by3.to2 == [Vowed(3, 2, 2)]
    ensures {Vowed(1, 1, 1), PROP1, Acc(1, 1, "a"), Prep(2, 2), Vowed(2, 2, 2), Vowed(3, 2, 2)} <= f.net.wire
  {
    var d := ANY_DECISION;
    f := MixedOne(all);
    f := Begin(d, all, f, 2, "b");
    f := Skip(d, all, f, 2, Vowed(2, 1, 1));
    f := Vow(d, all, f, 2, 2, 2);
    f := Skip(d, all, f, 3, Vowed(2, 1, 1));
    f := Vow(d, all, f, 3, 2, 2);
  }

  /** Peer 1 prepares ID 4 and promises it. */
  lemma MixedThree(all: iset<Fifo>) returns (f: Fifo)
    requires Closed(ANY_DECISION, all) && FRESH in all
    ensures f in all && f.net.peers.Keys == {1, 2, 3}
    ensures f.net.peers[1] == First(4, 4, {Free(1, 1, 1), Free(2, 1, 1)}).(phase := PhaseOne, round := StartRound("a"))
    ensures f.net.peers[2] == Proposer(2, 2, 2, "b", {Free(2, 2, 2), Free(3, 2, 2)}).(
                                round := StartRound("b").(got := [Free(2, 2, 2), Free(3, 2, 2)]))
    ensures f.net.peers[3] == Acceptor(3, 2, 0, None)
    ensures f.queues.by1.to1 == [Promise(AGAIN4)]
    ensures f.queues.by1.to2 == [Vowed(1, 1, 1), PROP1, Acc(1, 1, "a"), Prep(4, 1), Promise(AGAIN4)]
    ensures f.queues.by2 == Lanes([Prep(2, 2), Vowed(2, 2, 2)], [], [Vowed(2, 2, 2)]) && f.queues.by3.to2 == []
    ensures {Vowed(1, 1, 1), PROP1, Acc(1, 1, "a"), Prep(4, 1), Promise(AGAIN4), Prep(2, 2), Vowed(2, 2, 2)} <= f.net.wire
  {
    var d := ANY_DECISION;
    f := MixedTwo(all);
    f := Hear(d, all, f, 2, Free(2, 2, 2));
    f := Hear(d, all, f, 2, Free(3, 2, 2));
    assert [] + [Free(2, 2, 2)] + [Free(3, 2, 2)] == [Free(2, 2, 2), Free(3, 2, 2)];
    f := FireTwo(d, all, f, 1);
    f := Vow(d, all, f, 1, 4, 1);
  }

  /** Peer 2 is handed what peer 1 sent: it refuses the propose of ID 1, counts the accept and promises ID 4. */
  lemma MixedFour(all: iset<Fifo>) returns (f: Fifo)
    requires Closed(ANY_DECISION, all) && FRESH in all
    ensures f in all && f.net.peers.Keys == {1, 2, 3}
    ensures f.net.peers[1] == First(4, 4, {Free(1, 1, 1), Free(2, 1, 1)}).(phase := PhaseOne, round := StartRound("a"))
    ensures f.net.peers[2] == Proposer(2, 2, 4, "b", {Free(2, 2, 2), Free(3, 2, 2)}).(
                                round := StartRound("b").(got := [Free(2, 2, 2), Free(3, 2, 2)]),
                                learned := map["a" := [Acc(1, 1, "a")]])
    ensures f.net.peers[3] == Acceptor(3, 2, 0, None)
    ensures f.queues.by1.to1 == [Promise(AGAIN4)]
    ensures f.queues.by2 == Lanes([Prep(2, 2), Vowed(2, 2, 2), Vowed(2, 1, 4)], [Vowed(2, 1, 4)],
                                  [Vowed(2, 2, 2), Vowed(2, 1, 4)])
    ensures f.queues.by3.to2 == []
    ensures {Promise(AGAIN4), Prep(2, 2), Vowed(2, 2, 2), Vowed(2, 1, 4)} <= f.net.wire
  {
    var d := ANY_DECISION;
    f := MixedThree(all);
    f := Skip(d, all, f, 2, Vowed(1, 1, 1));
    f := Skip(d, all, f, 2, PROP1);
    f := Tally(d, all, f, 2, Acc(1, 1, "a"));
    f := Vow(d, all, f, 2, 4, 1);
  }

  /** Peers 1 and 3 catch up with what peer 2 sent, up to its promise of ID 4. */
  lemma MixedCaughtUp(all: iset<Fifo>) returns (f: Fifo)
    requires Closed(ANY_DECISION, all) && FRESH in all
    ensures f in all && f.net.peers.Keys == {1, 2, 3}
    ensures f.net.peers[1] == First(4, 4, {Free(1, 1, 1), Free(2, 1, 1)}).(phase := PhaseOne, round := StartRound("a"))
    ensures f.net.peers[2] == Proposer(2, 2, 4, "b", {Free(2, 2, 2), Free(3, 2, 2)}).(
                                round := StartRound("b").(got := [Free(2, 2, 2), Free(3, 2, 2)]),
                                learned := map["a" := [Acc(1, 1, "a")]])
    ensures f.net.peers[3] == Acceptor(3, 2, 0, None)
    ensures f.queues.by1.to1 == [Promise(AGAIN4)]
    ensures f.queues.by2 == Lanes([Vowed(2, 1, 4)], [Vowed(2, 1, 4)], []) && f.queues.by3.to2 == []
    ensures {Promise(AGAIN4), Vowed(2, 1, 4)} <= f.net.wire
  {
    var d := ANY_DECISION;
    f := MixedFour(all);
    f := Skip(d, all, f, 1, Prep(2, 2));
    f := Skip(d, all, f, 1, Vowed(2, 2, 2));
    f := Skip(d, all, f, 3, Vowed(2, 2, 2));
    f := Skip(d, all, f, 3, Vowed(2, 1, 4));
  }

  /** Peer 2 proposes "b" with ID 2, which it refuses itself and only peer 3 accepts. */
  lemma MixedFive(all: iset<Fifo>) returns (f: Fifo)
    requires Closed(ANY_DECISION, all) && FRESH in all
    ensures f in all && f.net.peers.Keys == {1, 2, 3}
    ensures f.net.peers[1] == First(4, 4, {Free(1, 1, 1), Free(2, 1, 1)}).(phase := PhaseOne, round := StartRound("a"))
    ensures f.net.peers[2] == Acceptor(2, 4, 0, None).(phase := PhaseTwo, round := Waiting("b"),
                                heard := {Free(2, 2, 2), Free(3, 2, 2)}, learned := map["a" := [Acc(1, 1, "a")]])
    ensures f.net.peers[3] == Acceptor(3, 2, 2, Some("b"))
    ensures f.queues.by1.to1 == [Promise(AGAIN4)]
    ensures f.queues.by2 == Lanes([Vowed(2, 1, 4), PROP2], [], []) && f.queues.by3.to2 == [Acc(3, 2, "b")]
    ensures {Promise(AGAIN4), Vowed(2, 1, 4), Acc(3, 2, "b")} <= f.net.wire
  {
    var d := ANY_DECISION;
    f := MixedCaughtUp(all);
    assert (set z | z in [Free(2, 2, 2), Free(3, 2, 2)]) == {Free(2, 2, 2), Free(3, 2, 2)};
    assert ProposeMessage(2, f.net.peers[2]) == PROP2;
    f := Commit(d, all, f, 2);
    f := Skip(d, all, f, 2, Vowed(2, 1, 4));
    f := Skip(d, all, f, 2, PROP2);
    f := Ratify(d, all, f, 3, PROP2);
  }

  /** Peer 1 proposes "a" again with ID 4 and accepts it. */
  lemma MixedSix(all: iset<Fifo>) returns (f: Fifo)
    requires Closed(ANY_DECISION, all) && FRESH in all
    ensures f in all && f.net.peers.Keys == {1, 2, 3}
    ensures f.net.peers[1] == First(4, 4, {Free(1, 1, 1), Free(2, 1, 1), Free(2, 1, 4), AGAIN4}).(
                                acceptedID := 4, phase := PhaseTwo, round := Waiting("a"))
    ensures f.net.peers[2] == Acceptor(2, 4, 0, None).(phase := PhaseTwo, round := Waiting("b"),
                                heard := {Free(2, 2, 2), Free(3, 2, 2)}, learned := map["a" := [Acc(1, 1, "a")]])
    ensures f.net.peers[3] == Acceptor(3, 2, 2, Some("b"))
    ensures f.queues.by1.to1 == [Acc(1, 4, "a")] && f.queues.by2.to2 == f.queues.by2.to3 == []
    ensures f.queues.by3.to2 == [Acc(3, 2, "b")]
    ensures {Acc(1, 4, "a"), Acc(3, 2, "b")} <= f.net.wire
  {
    var d := ANY_DECISION;
    f := MixedFive(all);
    Pair(Free(2, 1, 4), AGAIN4);
    f := Hear(d, all, f, 1, Free(2, 1, 4));
    f := Hear(d, all, f, 1, AGAIN4);
    assert ProposeMessage(1, f.net.peers[1]) == PROP4A;
    f := Commit(d, all, f, 1);
    f := Ratify(d, all, f, 1, PROP4A);
  }

  /** Peer 1 counts its own accepts of IDs 1 and 4 and decides "a"; peers 2 and 3 promise ID 5. */
  lemma MixedSeven(all: iset<Fifo>) returns (f: Fifo)
    requires Closed(ANY_DECISION, all) && FRESH in all
    ensures f in all && f.net.peers.Keys == {1, 2, 3}
    ensures f.net.peers[2] == Proposer(2, 5, 5, "b", {Free(2, 2, 2), Free(3, 2, 2)}).(
                                learned := map["a" := [Acc(1, 1, "a")]])
    ensures f.net.peers[3] == Acceptor(3, 5, 2, Some("b"))
    ensures f.queues.by2.to2 == f.queues.by2.to3 == [Vowed(2, 2, 5)]
    ensures f.queues.by3.to2 == [Acc(3, 2, "b"), Promise(THIRD5)]
    ensures {Acc(3, 2, "b"), Vowed(2, 2, 5), Promise(THIRD5), TlcMsg(1, 0, Block(0, "a", NoBlock))} <= f.net.wire
  {
    var d := ANY_DECISION;
    f := MixedSix(all);
    f := Settle(d, all, f, 1, Acc(1, 4, "a"), Acc(1, 1, "a"));
    f := FireTwo(d, all, f, 2);
    f := Vow(d, all, f, 2, 5, 2);
    f := Vow(d, all, f, 3, 5, 2);
  }

  /** Peer 2 counts peer 3's accept, proposes "b" with ID 5 since ID 2 is the highest it hears of, and decides it. */
  lemma MixedEnd(all: iset<Fifo>) returns (f: Fifo)
    requires Closed(ANY_DECISION, all) && FRESH in all
    ensures f in all
    ensures TlcMsg(1, 0, Block(0, "a", NoBlock)) in f.net.wire && TlcMsg(2, 0, Block(0, "b", NoBlock)) in f.net.wire
  {
    var d := ANY_DECISION;
    f := MixedSeven(all);
    Pair(Free(2, 2, 5), THIRD5);
    f := Hear(d, all, f, 2, Free(2, 2, 5));
    f := Tally(d, all, f, 2, Acc(3, 2, "b"));
    f := Hear(d, all, f, 2, THIRD5);
    assert ProposeMessage(2, f.net.peers[2]) == PROP5;
    f := Commit(d, all, f, 2);
    f := Ratify(d, all, f, 2, PROP5);
    f := Settle(d, all, f, 2, Acc(2, 5, "b"), Acc(3, 2, "b"));
  }

  /** Counting accepts of different IDs for one value breaks agreement, even if every propose is sound. */
  lemma MixedAcceptsBreakAgreement()
    ensures exists start, events, f :: BreaksAgreement(THREE, ANY_DECISION, start, events, f)
  {
    var all := Reachable(ANY_DECISION);
    var f := MixedEnd(all);
    DisagreementIsReached(ANY_DECISION, f);
  }
}
