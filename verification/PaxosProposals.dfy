/**
  What a proposer proposes, told from the run: the value of its last StartPropose, or the accepted
  value of highest ID among all promises it has taken since its attempt began, however many
  timeouts came in between. And the phases of a proposal, in every state of every run.
 */
module PaxosProposals {
  import opened Wrappers
  import opened Tlc
  import opened PaxosPeer
  import opened PaxosNetwork

  // --------------------------------------------------------------------- runs from their end

  lemma {:induction false} RunSnoc(c: Config, net: Net, events: seq<Event>)
    requires CanRun(c, net, events) && events != []
    ensures var n := |events| - 1;
            && CanRun(c, net, events[..n]) && Enabled(c, Final(c, net, events[..n]), events[n])
            && Final(c, net, events) == Apply(c, Final(c, net, events[..n]), events[n])
    decreases |events|
  {
    var n := |events| - 1;
    if n > 0 {
      RunSnoc(c, Apply(c, net, events[0]), events[1..]);
      assert events[1..][..n - 1] == events[..n][1..];
    } else {
      assert events[..0] == [] && events[1..] == [];
    }
  }

  /** What a peer set out to propose: in which step, which value, and the promises taken since. */
  datatype Attempt = Attempt(step: nat, value: Value, took: seq<Pledge>)

  /** The attempt of peer `p` after a run: StartPropose sets it, a phase-two timeout begins it anew. */
  ghost function AttemptOf(c: Config, net: Net, events: seq<Event>, p: PeerId): (r: Option<Attempt>)
    requires CanRun(c, net, events)
    decreases |events|
  {
    if events == [] then None
    else
      var n := |events| - 1;
      RunSnoc(c, net, events);
      NextAttempt(Final(c, net, events[..n]), events[n], p, AttemptOf(c, net, events[..n], p))
  }

  ghost function NextAttempt(net: Net, e: Event, p: PeerId, r: Option<Attempt>): (r': Option<Attempt>) {
    if e.p != p || p !in net.peers then r
    else match e
      case StartPropose(_, v) => Some(Attempt(net.peers[p].Step(), v, []))
      case Take(_) =>
        if r.Some? && net.peers[p].promiseCh != [] then Some(r.value.(took := r.value.took + [net.peers[p].promiseCh[0]]))
        else r
      case TimerTwo(_) => if r.Some? then Some(r.value.(took := [])) else r
      case _ => r
  }

  /** The promise reports an accepted value. */
  predicate Reports(x: Pledge) {
    x.accId > 0 && x.accVal.Some?
  }

  /**
    The value to propose: the peer's own if no promise taken reports an accept, otherwise one that is
    reported with the highest ID.
   */
  ghost predicate Follows(a: Attempt, basis: nat, value: Value) {
    if basis == 0 then value == a.value && forall x :: x in a.took ==> !Reports(x)
    else
      && (exists x :: x in a.took && x.accId == basis && x.accVal == Some(value))
      && (forall x :: x in a.took && Reports(x) ==> x.accId <= basis)
  }

  ghost predicate RoundFollows(p: Peer, r: Option<Attempt>) {
    match p.round
    case NoRound => true
    case Collecting(value, highest, proposed, _, _) =>
      r.Some? && r.value.step == p.Step() && r.value.value == value && Follows(r.value, highest, proposed)
    case Waiting(value) => r.Some? && r.value.step == p.Step() && r.value.value == value
  }

  lemma TakeFollows(p: Peer, r: Option<Attempt>)
    requires p.round.Collecting? && p.promiseCh != [] && RoundFollows(p, r)
    ensures RoundFollows(TakePromise(p), Some(r.value.(took := r.value.took + [p.promiseCh[0]])))
  {
    var x, a := p.promiseCh[0], r.value;
    var a' := a.(took := a.took + [x]);
    var round' := TakePromise(p).round;
    if x.accId > p.round.highest && x.accVal.Some? {
      assert x in a'.took;
    } else if p.round.highest > 0 {
      var y :| y in a.took && y.accId == p.round.highest && y.accVal == Some(p.round.proposed);
      assert y in a'.took;
    }
    assert Follows(a', round'.highest, round'.proposed);
  }

  lemma ActFollows(c: Config, net: Net, e: Event, p: PeerId, r: Option<Attempt>)
    requires Enabled(c, net, e) && p in net.peers && RoundFollows(net.peers[p], r)
    ensures RoundFollows(Apply(c, net, e).peers[p], NextAttempt(net, e, p, r))
  {
    if e.p == p {
      if e.Take? {
        TakeFollows(net.peers[p], r);
      } else if e.Deliver? {
        DeliverFollows(c, p, net.peers[p], e.m, r);
      }
    }
  }

  lemma DeliverFollows(c: Config, me: PeerId, p: Peer, m: Message, r: Option<Attempt>)
    requires RoundFollows(p, r)
    ensures RoundFollows(OnMessage(c, me, p, m).0, r)
  {
  }

  /** In every state of every run a round is about its peer's attempt and follows what was reported to it. */
  lemma {:induction false} RunFollows(c: Config, start: Net, events: seq<Event>, p: PeerId)
    requires Initial(c, start) && CanRun(c, start, events) && p in start.peers
    ensures p in Final(c, start, events).peers
    ensures RoundFollows(Final(c, start, events).peers[p], AttemptOf(c, start, events, p))
    decreases |events|
  {
    if events != [] {
      var n := |events| - 1;
      RunSnoc(c, start, events);
      RunFollows(c, start, events[..n], p);
      var net := Final(c, start, events[..n]);
      ActFollows(c, net, events[n], p, AttemptOf(c, start, events[..n], p));
    }
  }

  /** Event `i` of the run sent the propose, and it follows its sender's attempt at that moment. */
  ghost predicate SentAt(c: Config, start: Net, events: seq<Event>, i: nat, m: Message)
    requires CanRun(c, start, events) && m.Propose?
  {
    && i < |events| && events[i] == GoTwo(m.from) && CanRun(c, start, events[..i])
    && var a := AttemptOf(c, start, events[..i], m.from);
       a.Some? && a.value.step == m.step && Follows(a.value, m.basis, m.value)
  }

  lemma OnlyGoTwoProposes(c: Config, wire: set<Message>, p: Peer, e: Event)
    requires EnabledAt(c, wire, p, e)
    ensures var sent := Act(c, wire, p, e).1; sent.Some? && sent.value.Propose? ==> e.GoTwo?
  {
  }

  /**
    Every propose on the wire was sent in the step of its sender's last StartPropose before, and
    carries that value, if no promise taken in the attempt reported an accept, or an accepted value of
    the highest ID reported in the attempt.
   */
  lemma {:induction false} ProposesFollow(c: Config, start: Net, events: seq<Event>, m: Message) returns (i: nat)
    requires Initial(c, start) && CanRun(c, start, events)
    requires m in Final(c, start, events).wire && m.Propose?
    ensures SentAt(c, start, events, i, m)
    decreases |events|
  {
    var n := |events| - 1;
    RunSnoc(c, start, events);
    var net := Final(c, start, events[..n]);
    if m in net.wire {
      i := ProposesFollow(c, start, events[..n], m);
      assert events[..n][..i] == events[..i];
    } else {
      i := n;
      var e := events[n];
      OnlyGoTwoProposes(c, net.wire, net.peers[e.p], e);
      InitialPeers(c, start, events[..n], e.p);
      RunFollows(c, start, events[..n], e.p);
    }
  }

  lemma {:induction false} InitialPeers(c: Config, net: Net, events: seq<Event>, p: PeerId)
    requires CanRun(c, net, events)
    ensures p in Final(c, net, events).peers <==> p in net.peers
    decreases |events|
  {
    if events != [] {
      InitialPeers(c, Apply(c, net, events[0]), events[1..], p);
    }
  }

  // ---------------------------------------------------------------------------- phases

  /** A proposal is under way exactly in phases one and two, and the learner signals only decisions. */
  ghost predicate PhaseOk(p: Peer) {
    && (p.phase == NotPropose <==> p.round.NoRound?)
    && (p.phase == PhaseOne <==> p.round.Collecting?)
    && (p.phase == PhaseTwo <==> p.round.Waiting?)
    && (p.signalled ==> p.decided && p.phase != NotPropose)
  }

  lemma ActKeepsPhase(c: Config, wire: set<Message>, p: Peer, e: Event)
    requires EnabledAt(c, wire, p, e) && PhaseOk(p)
    ensures PhaseOk(Act(c, wire, p, e).0)
  {
  }

  /** In every state of every run the phase says where the proposal stands. */
  lemma {:induction false} PhasesAreRight(c: Config, net: Net, events: seq<Event>)
    requires CanRun(c, net, events) && forall p :: p in net.peers ==> PhaseOk(net.peers[p])
    ensures forall p :: p in Final(c, net, events).peers ==> PhaseOk(Final(c, net, events).peers[p])
    decreases |events|
  {
    if events != [] {
      var e := events[0];
      ActKeepsPhase(c, net.wire, net.peers[e.p], e);
      PhasesAreRight(c, Apply(c, net, e), events[1..]);
    }
  }

  // ----------------------------------------------------------------- the channel of promises

  /** The promises of its step that a peer was handed while in phase one, in order. */
  ghost function HandedOver(c: Config, net: Net, events: seq<Event>, p: PeerId): (s: seq<Pledge>)
    requires CanRun(c, net, events)
    decreases |events|
  {
    if events == [] then []
    else
      var n := |events| - 1;
      RunSnoc(c, net, events);
      var before, e := Final(c, net, events[..n]), events[n];
      if e.p != p then HandedOver(c, net, events[..n], p)
      else if Apply(c, before, e).peers[p].Step() != before.peers[p].Step() then []
      else HandedOver(c, net, events[..n], p) + Handed(before.peers[p], p, e)
  }

  /** The promise of its step that an event hands to a peer in phase one. */
  function Handed(p: Peer, me: PeerId, e: Event): (s: seq<Pledge>) {
    if e.Deliver? && e.m.Promise? && e.m.pledge.to == me && e.m.pledge.step == p.Step() && p.phase == PhaseOne
    then [e.m.pledge]
    else []
  }

  /** The promises a peer has taken in its step, in order. */
  ghost function TakenSoFar(c: Config, net: Net, events: seq<Event>, p: PeerId): (s: seq<Pledge>)
    requires CanRun(c, net, events)
    decreases |events|
  {
    if events == [] then []
    else
      var n := |events| - 1;
      RunSnoc(c, net, events);
      var before, e := Final(c, net, events[..n]), events[n];
      if e.p != p then TakenSoFar(c, net, events[..n], p)
      else if Apply(c, before, e).peers[p].Step() != before.peers[p].Step() then []
      else TakenSoFar(c, net, events[..n], p) + TakenBy(before.peers[p], e)
  }

  function TakenBy(p: Peer, e: Event): (s: seq<Pledge>) {
    if e.Take? && p.promiseCh != [] then [p.promiseCh[0]] else []
  }

  lemma ActChannel(c: Config, wire: set<Message>, p: Peer, e: Event)
    requires EnabledAt(c, wire, p, e)
    ensures var p' := Act(c, wire, p, e).0;
            if p'.Step() == p.Step() then p.promiseCh + Handed(p, e.p, e) == TakenBy(p, e) + p'.promiseCh
            else p'.promiseCh == []
  {
  }

  lemma ChannelStep(taken: seq<Pledge>, ch: seq<Pledge>, handed: seq<Pledge>, took: seq<Pledge>, ch': seq<Pledge>)
    requires ch + handed == took + ch'
    ensures (taken + ch) + handed == (taken + took) + ch'
  {
    assert (taken + ch) + handed == taken + (ch + handed);
    assert (taken + took) + ch' == taken + (took + ch');
  }

  /**
    In every run the promises of a step that were handed to a peer in phase one are those it has taken,
    followed by those in its channel: none is lost, none comes from elsewhere, and the order is kept.
   */
  lemma {:induction false} ChannelKeeps(c: Config, start: Net, events: seq<Event>, p: PeerId)
    requires Initial(c, start) && CanRun(c, start, events) && p in start.peers
    ensures p in Final(c, start, events).peers
    ensures HandedOver(c, start, events, p) == TakenSoFar(c, start, events, p) + Final(c, start, events).peers[p].promiseCh
    decreases |events|
  {
    if events != [] {
      var n := |events| - 1;
      RunSnoc(c, start, events);
      ChannelKeeps(c, start, events[..n], p);
      var before, e := Final(c, start, events[..n]), events[n];
      if e.p == p {
        ActChannel(c, before.wire, before.peers[p], e);
        var after := Apply(c, before, e).peers[p];
        if after.Step() == before.peers[p].Step() {
          ChannelStep(TakenSoFar(c, start, events[..n], p), before.peers[p].promiseCh, Handed(before.peers[p], p, e),
                      TakenBy(before.peers[p], e), after.promiseCh);
        }
      }
    }
  }
}
