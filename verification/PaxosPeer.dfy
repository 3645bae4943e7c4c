/**
  One peer of the multi-step Paxos of the consensus layer (peer/impl/consensus.go): acceptor,
  proposer, learner and clock, with every callback and every turn of the proposer's loop as a
  function of the peer's state, and the class whose methods perform them in place.

  Peers are named by their PaxosID, a number in 1..n. Messages carry their sender and, for a
  propose, the promises it rests on; no callback reads either.
 */
module PaxosPeer {
  import opened Wrappers
  import opened Tlc

  type PeerId = nat

  datatype Config = Config(n: nat, threshold: nat)

  /** The content of a promise message. */
  datatype Pledge = Pledge(from: PeerId, to: PeerId, step: nat, id: nat, accId: nat, accVal: Option<Value>)

  datatype Message =
    | Prepare(step: nat, id: nat, source: PeerId)
    | Promise(pledge: Pledge)
    | Propose(from: PeerId, step: nat, id: nat, value: Value, basis: nat, support: set<Pledge>)
    | Accept(from: PeerId, step: nat, id: nat, value: Value)
    | TlcMsg(from: PeerId, step: nat, block: Block)

  datatype Phase = NotPropose | PhaseOne | PhaseTwo

  /** Where the propose routine stands: idle, collecting promises, or waiting for the learner. */
  datatype Round =
    | NoRound
    | Collecting(value: Value, highest: nat, proposed: Value, got: seq<Pledge>, timedOut: bool)
    | Waiting(value: Value)

  datatype Peer = Peer(
    clock: Clock,
    proposalID: nat,
    maxID: nat,
    acceptedID: nat,
    acceptedValue: Option<Value>,
    phase: Phase,
    round: Round,
    promiseCh: seq<Pledge>,
    heard: set<Pledge>,
    learned: map<Value, seq<Message>>,
    decided: bool,
    signalled: bool)
  {
    function Step(): (s: nat) { clock.step }
  }

  function FreshPeer(me: PeerId, clock: Clock): (p: Peer) {
    Peer(clock, me, 0, 0, None, NotPropose, NoRound, [], {}, map[], false, false)
  }

  // ------------------------------------------------------------------ acceptor

  predicate Promises(p: Peer, step: nat, id: nat) {
    step == p.Step() && id > p.maxID
  }

  function OnPrepare(me: PeerId, p: Peer, step: nat, id: nat, source: PeerId): (r: (Peer, Option<Message>)) {
    if !Promises(p, step, id) then (p, None)
    else (p.(maxID := id), Some(Promise(Pledge(me, source, step, id, p.acceptedID, p.acceptedValue))))
  }

  predicate Accepts(p: Peer, step: nat, id: nat) {
    step == p.Step() && id == p.maxID
  }

  function OnPropose(me: PeerId, p: Peer, step: nat, id: nat, value: Value): (r: (Peer, Option<Message>)) {
    if !Accepts(p, step, id) then (p, None)
    else (p.(acceptedID := id, acceptedValue := Some(value)), Some(Accept(me, step, p.maxID, value)))
  }

  // ------------------------------------------------------------------ proposer

  function StartRound(value: Value): (r: Round) {
    Collecting(value, 0, value, [], false)
  }

  /** How often the promise loop has gone round. */
  function Turns(r: Round): (i: nat)
    requires r.Collecting?
  {
    |r.got| + if r.timedOut then 1 else 0
  }

  function BeginPropose(p: Peer, value: Value): (r: Peer) {
    p.(phase := PhaseOne, round := StartRound(value))
  }

  /** The callback queues a promise for the proposer while it is in phase one, whatever its ID. */
  function OnPromise(p: Peer, pledge: Pledge): (r: Peer) {
    var p' := p.(heard := p.heard + {pledge});
    if pledge.step == p.Step() && p.phase == PhaseOne then p'.(promiseCh := p.promiseCh + [pledge]) else p'
  }

  /** One turn of the loop that receives a promise. */
  function TakePromise(p: Peer): (r: Peer)
    requires p.round.Collecting? && p.promiseCh != []
  {
    var pledge := p.promiseCh[0];
    var better := pledge.accId > p.round.highest && pledge.accVal.Some?;
    p.(promiseCh := p.promiseCh[1..],
       round := p.round.(got := p.round.got + [pledge],
                         highest := if better then pledge.accId else p.round.highest,
                         proposed := if better then pledge.accVal.value else p.round.proposed))
  }

  /** One turn of the loop in which the timer fires. */
  function PhaseOneTimeout(c: Config, p: Peer): (r: Peer)
    requires p.round.Collecting?
  {
    p.(proposalID := p.proposalID + c.n, round := p.round.(timedOut := true))
  }

  /** The loop is over and the timer has fired: prepare again with the new ID. */
  function Retry(p: Peer): (r: Peer)
    requires p.round.Collecting?
  {
    p.(phase := PhaseOne, round := p.round.(got := [], timedOut := false))
  }

  function EnterPhaseTwo(p: Peer): (r: Peer)
    requires p.round.Collecting?
  {
    p.(phase := PhaseTwo, round := Waiting(p.round.value))
  }

  function ProposeMessage(me: PeerId, p: Peer): (m: Message)
    requires p.round.Collecting?
  {
    Propose(me, p.Step(), p.proposalID, p.round.proposed, p.round.highest, set x | x in p.round.got)
  }

  function LearnerSignal(p: Peer): (r: Peer) {
    p.(phase := NotPropose, round := NoRound, signalled := false)
  }

  function PhaseTwoTimeout(c: Config, p: Peer): (r: Peer)
    requires p.round.Waiting?
  {
    p.(proposalID := p.proposalID + c.n, phase := PhaseOne, round := StartRound(p.round.value))
  }

  // ------------------------------------------------------------------- learner

  /** The accepts counted for a value after one more, grouped by value across IDs. */
  function Counted(p: Peer, m: Message): (s: seq<Message>)
    requires m.Accept?
  {
    (if m.value in p.learned then p.learned[m.value] else []) + [m]
  }

  predicate Decides(c: Config, p: Peer, m: Message)
    requires m.Accept?
  {
    m.step == p.Step() && !p.decided && |Counted(p, m)| >= c.threshold
  }

  function LastBlock(chain: seq<Block>): (b: Block) {
    if chain == [] then NoBlock else chain[|chain| - 1]
  }

  function OnAccept(c: Config, me: PeerId, p: Peer, m: Message): (r: (Peer, Option<Message>))
    requires m.Accept?
  {
    if m.step != p.Step() || p.decided then (p, None)
    else
      var p' := p.(learned := p.learned[m.value := Counted(p, m)]);
      if !Decides(c, p, m) then (p', None)
      else (p'.(decided := true, signalled := p.phase == PhaseTwo || p.signalled),
            Some(TlcMsg(me, p.Step(), Block(p.Step(), m.value, LastBlock(p.clock.chain)))))
  }

  /** A TLC message; every advance of the clock resets the Paxos state of the step. */
  function OnTlc(c: Config, me: PeerId, p: Peer, step: nat, block: Block): (r: Peer) {
    var clock := Receive(c.threshold, p.clock, step, block);
    if clock.step == p.clock.step then p.(clock := clock) else FreshPeer(me, clock)
  }

  /** A message processed by the peer `me`; the gossip layer hands over each message once. */
  function OnMessage(c: Config, me: PeerId, p: Peer, m: Message): (r: (Peer, Option<Message>)) {
    match m
    case Prepare(step, id, source) => OnPrepare(me, p, step, id, source)
    case Promise(pledge) => (if pledge.to == me then OnPromise(p, pledge) else p, None)
    case Propose(_, step, id, value, _, _) => OnPropose(me, p, step, id, value)
    case Accept(_, _, _, _) => OnAccept(c, me, p, m)
    case TlcMsg(_, step, block) => (OnTlc(c, me, p, step, block), None)
  }

  // ---------------------------------------------------------- the mutable peer

  class MultiPaxos {
    const config: Config
    const paxosID: PeerId
    var step: nat
    var proposalID: nat
    var proposalMaxID: nat
    var acceptedID: nat
    var acceptedValue: Option<Value>
    var phase: Phase
    var round: Round
    var promiseCh: seq<Pledge>
    ghost var heard: set<Pledge>
    var learned: map<Value, seq<Message>>
    var decided: bool
    var signalled: bool
    var stepTlcMsgs: Pending
    var chain: seq<Block>

    ghost function View(): (p: Peer)
      reads this
    {
      Peer(ClockView(), proposalID, proposalMaxID, acceptedID, acceptedValue,
           phase, round, promiseCh, heard, learned, decided, signalled)
    }

    ghost function ClockView(): (c: Clock)
      reads this`step, this`stepTlcMsgs, this`chain
    {
      Clock(step, stepTlcMsgs, chain)
    }

    constructor (config: Config, paxosID: PeerId)
      ensures this.config == config && this.paxosID == paxosID
      ensures View() == FreshPeer(paxosID, INITIAL)
    {
      this.config, this.paxosID := config, paxosID;
      step, proposalID, proposalMaxID, acceptedID, acceptedValue := 0, paxosID, 0, 0, None;
      phase, round, promiseCh, heard := NotPropose, NoRound, [], {};
      learned, decided, signalled := map[], false, false;
      stepTlcMsgs, chain := map[], [];
    }

    method PrepareCallback(msgStep: nat, id: nat, source: PeerId) returns (promise: Option<Message>)
      modifies this`proposalMaxID
      ensures (View(), promise) == OnPrepare(paxosID, old(View()), msgStep, id, source)
    {
      if msgStep != step {
        return None;
      }
      if id <= proposalMaxID {
        return None;
      }
      proposalMaxID := id;
      promise := Some(Promise(Pledge(paxosID, source, step, proposalMaxID, acceptedID, acceptedValue)));
    }

    method ProposeCallback(msgStep: nat, id: nat, value: Value) returns (accept: Option<Message>)
      modifies this`acceptedID, this`acceptedValue
      ensures (View(), accept) == OnPropose(paxosID, old(View()), msgStep, id, value)
    {
      if msgStep != step {
        return None;
      }
      if id != proposalMaxID {
        return None;
      }
      acceptedID := id;
      acceptedValue := Some(value);
      accept := Some(Accept(paxosID, step, proposalMaxID, value));
    }

    method PromiseCallback(pledge: Pledge)
      modifies this`promiseCh, this`heard
      ensures View() == OnPromise(old(View()), pledge)
    {
      heard := heard + {pledge};
      if pledge.step != step {
        return;
      }
      if phase != PhaseOne {
        return;
      }
      promiseCh := promiseCh + [pledge];
    }

    /** One turn of the proposer's loop: the promise at the head of the channel, or the timer. */
    method LoopTurn(timer: bool)
      requires round.Collecting? && (timer || promiseCh != [])
      modifies this
      ensures View() == if timer then PhaseOneTimeout(config, old(View())) else TakePromise(old(View()))
    {
      if timer {
        proposalID := proposalID + config.n;
        round := round.(timedOut := true);
      } else {
        var pledge := promiseCh[0];
        if pledge.accId > round.highest && pledge.accVal.Some? {
          round := round.(highest := pledge.accId, proposed := pledge.accVal.value);
        }
        round := round.(got := round.got + [pledge]);
        promiseCh := promiseCh[1..];
      }
    }

    /** The start of a proposal: refused while one is under way in this step. */
    method Propose(value: Value) returns (prepare: Option<Message>)
      modifies this`phase, this`round
      ensures old(phase) != NotPropose ==> View() == old(View()) && prepare == None
      ensures old(phase) == NotPropose ==>
                View() == BeginPropose(old(View()), value) && prepare == Some(Prepare(step, proposalID, paxosID))
    {
      if phase != NotPropose {
        return None;
      }
      phase, round := PhaseOne, StartRound(value);
      prepare := Some(Prepare(step, proposalID, paxosID));
    }

    /** After the last turn of the loop: prepare again if the timer fired, otherwise propose. */
    method LoopEnd() returns (m: Message)
      requires round.Collecting? && Turns(round) == config.threshold
      modifies this`phase, this`round
      ensures old(round).timedOut ==> View() == Retry(old(View())) && m == Prepare(step, proposalID, paxosID)
      ensures !old(round).timedOut ==>
                View() == EnterPhaseTwo(old(View())) && m == ProposeMessage(paxosID, old(View()))
    {
      if round.timedOut {
        phase, round := PhaseOne, round.(got := [], timedOut := false);
        m := Message.Prepare(step, proposalID, paxosID);
      } else {
        m := Message.Propose(paxosID, step, proposalID, round.proposed, round.highest, set x | x in round.got);
        phase, round := PhaseTwo, Waiting(round.value);
      }
    }

    /** The wait for the learner ends with its signal or with the timer. */
    method PhaseTwoEnd(timer: bool) returns (prepare: Option<Message>)
      requires round.Waiting? && (timer || signalled)
      modifies this`proposalID, this`phase, this`round, this`signalled
      ensures timer ==>
                View() == PhaseTwoTimeout(config, old(View())) && prepare == Some(Prepare(step, proposalID, paxosID))
      ensures !timer ==> View() == LearnerSignal(old(View())) && prepare == None
    {
      if timer {
        proposalID := proposalID + config.n;
        phase, round := PhaseOne, StartRound(round.value);
        prepare := Some(Message.Prepare(step, proposalID, paxosID));
      } else {
        phase, round, signalled := NotPropose, NoRound, false;
        prepare := None;
      }
    }

    method AcceptCallback(m: Message) returns (tlc: Option<Message>)
      requires m.Accept?
      modifies this`learned, this`decided, this`signalled
      ensures (View(), tlc) == OnAccept(config, paxosID, old(View()), m)
    {
      if m.step != step || decided {
        return None;
      }
      if m.value !in learned {
        learned := learned[m.value := [m]];
        assert [m] == [] + [m];
      } else {
        learned := learned[m.value := learned[m.value] + [m]];
      }
      if |learned[m.value]| < config.threshold {
        return None;
      }
      decided := true;
      if phase == PhaseTwo {
        signalled := true;
      }
      tlc := Some(TlcMsg(paxosID, step, Block(step, m.value, LastBlock(chain))));
    }

    /** The Paxos state of a new step. */
    method ResetForNewStep()
      modifies this`proposalID, this`proposalMaxID, this`acceptedID, this`acceptedValue, this`phase, this`round
      modifies this`promiseCh, this`heard, this`learned, this`decided, this`signalled
      ensures proposalID == paxosID && proposalMaxID == 0 && acceptedID == 0 && acceptedValue == None
      ensures phase == NotPropose && round == NoRound && promiseCh == [] && heard == {}
      ensures learned == map[] && !decided && !signalled
    {
      proposalID := paxosID;
      proposalMaxID := 0;
      acceptedValue := None;
      acceptedID := 0;
      phase, round, promiseCh, heard := NotPropose, NoRound, [], {};
      learned, decided, signalled := map[], false, false;
    }

    method AdvanceClock()
      modifies this`step, this`stepTlcMsgs, this`proposalID, this`proposalMaxID, this`acceptedID, this`acceptedValue
      modifies this`phase, this`round, this`promiseCh, this`heard, this`learned, this`decided, this`signalled
      ensures step == old(step) + 1 && stepTlcMsgs == old(stepTlcMsgs) - {old(step)}
      ensures View() == FreshPeer(paxosID, ClockView())
    {
      stepTlcMsgs := stepTlcMsgs - {step};
      step := step + 1;
      ResetForNewStep();
    }

    /** Applies the block of the current step, advances, and recurses while the next step is complete. */
    method OnTlcReached(tlcStep: nat, block: Block)
      requires tlcStep == step
      modifies this
      ensures View() == FreshPeer(paxosID, CatchUp(config.threshold, Advance(old(ClockView()), block)))
      decreases |stepTlcMsgs - {step}|
    {
      chain := chain + [block];
      AdvanceClock();
      assert ClockView() == Advance(old(ClockView()), block);
      if step in stepTlcMsgs {
        var msgs := stepTlcMsgs[step];
        if |msgs| >= config.threshold && |msgs| > 0 {
          assert |stepTlcMsgs - {step}| < |stepTlcMsgs| by {
            assert (stepTlcMsgs - {step}).Keys == stepTlcMsgs.Keys - {step};
          }
          OnTlcReached(step, msgs[0]);
        }
      }
    }

    /** One TLC message taken from the daemon's channel. */
    method TlcMessage(tlcStep: nat, block: Block)
      requires config.threshold > 0
      modifies this
      ensures View() == OnTlc(config, paxosID, old(View()), tlcStep, block)
    {
      if tlcStep < step {
        return;
      }
      if tlcStep !in stepTlcMsgs {
        stepTlcMsgs := stepTlcMsgs[tlcStep := [block]];
        assert [block] == [] + [block];
      } else {
        stepTlcMsgs := stepTlcMsgs[tlcStep := stepTlcMsgs[tlcStep] + [block]];
      }
      if |stepTlcMsgs[tlcStep]| < config.threshold {
        return;
      }
      if step != tlcStep {
        return;
      }
      CatchUpAdvances(config.threshold, Advance(ClockView(), block));
      OnTlcReached(tlcStep, block);
    }
  }
}
