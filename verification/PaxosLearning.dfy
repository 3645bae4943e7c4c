/**
  What a peer has learned, told from the messages it was handed: its clock is where its TLC messages
  put it, and it has decided exactly if a threshold of the accepts of its step, whatever their IDs
  and senders, are for one value; the accept that completes the first such threshold announces it.
 */
module PaxosLearning {
  import opened Wrappers
  import opened Tlc
  import opened TlcRuns
  import opened PaxosPeer
  import opened PaxosNetwork
  import opened PaxosProposals

  // ------------------------------------------------------------------------- the clock

  /** The TLC messages handed to a peer, in order. */
  function TlcsOf(events: seq<Event>, p: PeerId): (ms: seq<(nat, Block)>) {
    if events == [] then []
    else
      var n := |events| - 1;
      var e := events[n];
      TlcsOf(events[..n], p) + if e.Deliver? && e.p == p && e.m.TlcMsg? then [(e.m.step, e.m.block)] else []
  }

  lemma ActClock(c: Config, wire: set<Message>, p: Peer, e: Event)
    requires EnabledAt(c, wire, p, e)
    ensures Act(c, wire, p, e).0.clock ==
            if e.Deliver? && e.m.TlcMsg? then Receive(c.threshold, p.clock, e.m.step, e.m.block) else p.clock
  {
  }

  /** In every run a peer's clock is what the TLC messages handed to it make of it. */
  lemma {:induction false} ClockOfRun(c: Config, start: Net, events: seq<Event>, p: PeerId)
    requires Initial(c, start) && CanRun(c, start, events) && p in start.peers
    ensures p in Final(c, start, events).peers
    ensures Final(c, start, events).peers[p].clock == ReceiveAll(c.threshold, INITIAL, TlcsOf(events, p))
    decreases |events|
  {
    if events != [] {
      var n := |events| - 1;
      RunSnoc(c, start, events);
      ClockOfRun(c, start, events[..n], p);
      var e, net := events[n], Final(c, start, events[..n]);
      if e.p == p && e.Deliver? && e.m.TlcMsg? {
        ReceiveAllSnoc(c.threshold, INITIAL, TlcsOf(events[..n], p), (e.m.step, e.m.block));
      } else {
        assert TlcsOf(events, p) == TlcsOf(events[..n], p);
      }
      if e.p == p {
        ActClock(c, net.wire, net.peers[p], e);
      }
    }
  }

  /** In every run a peer is at the least step for which it was handed fewer than a threshold of TLC messages. */
  lemma StepOfRun(c: Config, start: Net, events: seq<Event>, p: PeerId)
    requires ValidConfig(c) && Initial(c, start) && CanRun(c, start, events) && p in start.peers
    ensures var ms := TlcsOf(events, p);
            && p in Final(c, start, events).peers
            && var s := Final(c, start, events).peers[p].Step();
               FullBefore(c.threshold, ms, s) && |Blocks(ms, s)| < c.threshold
  {
    ClockOfRun(c, start, events, p);
    ClockIsExact(c.threshold, TlcsOf(events, p));
  }

  // ----------------------------------------------------------------------- the learner

  /** The accepts of its current step that a peer was handed, in order. */
  ghost function AcceptsOf(c: Config, net: Net, events: seq<Event>, p: PeerId): (s: seq<Message>)
    requires CanRun(c, net, events)
    decreases |events|
  {
    if events == [] then []
    else
      var n := |events| - 1;
      RunSnoc(c, net, events);
      NextAccepts(c, Final(c, net, events[..n]), events[n], p, AcceptsOf(c, net, events[..n], p))
  }

  ghost function NextAccepts(c: Config, net: Net, e: Event, p: PeerId, s: seq<Message>): (s': seq<Message>)
    requires Enabled(c, net, e)
  {
    if e.p != p then s
    else if Apply(c, net, e).peers[p].Step() != net.peers[p].Step() then []
    else if e.Deliver? && e.m.Accept? && e.m.step == net.peers[p].Step() then s + [e.m]
    else s
  }

  /** The accepts for one value. */
  function For(s: seq<Message>, v: Value): (r: seq<Message>)
  {
    if s == [] then []
    else
      var n := |s| - 1;
      For(s[..n], v) + if s[n].Accept? && s[n].value == v then [s[n]] else []
  }

  /** A threshold of accepts for one value. */
  ghost predicate Settled(threshold: nat, s: seq<Message>) {
    exists v :: |For(s, v)| >= threshold
  }

  lemma ForSnoc(s: seq<Message>, m: Message, v: Value)
    ensures For(s + [m], v) == For(s, v) + if m.Accept? && m.value == v then [m] else []
  {
    assert (s + [m])[..|s|] == s;
  }

  function LearnedFor(p: Peer, v: Value): (r: seq<Message>) {
    if v in p.learned then p.learned[v] else []
  }

  ghost predicate HasLearned(c: Config, p: Peer, s: seq<Message>) {
    && (p.decided <==> Settled(c.threshold, s))
    && (!p.decided ==> CountedAll(p, s))
  }

  lemma SettledStays(threshold: nat, s: seq<Message>, m: Message)
    requires Settled(threshold, s)
    ensures Settled(threshold, s + [m])
  {
    var v :| |For(s, v)| >= threshold;
    ForSnoc(s, m, v);
    assert |For(s + [m], v)| >= threshold;
  }

  /** Only the value of the accept can be settled by it. */
  lemma NewlySettled(threshold: nat, s: seq<Message>, m: Message)
    requires !Settled(threshold, s) && m.Accept?
    ensures Settled(threshold, s + [m]) <==> |For(s + [m], m.value)| >= threshold
  {
    if Settled(threshold, s + [m]) {
      var v :| |For(s + [m], v)| >= threshold;
      ForSnoc(s, m, v);
      assert |For(s, v)| < threshold;
    }
  }

  /** The accepts of the step for one value, as the peer has counted them. */
  ghost predicate CountedAll(p: Peer, s: seq<Message>) {
    forall v :: LearnedFor(p, v) == For(s, v)
  }

  lemma CountsOneMore(p: Peer, p': Peer, s: seq<Message>, m: Message)
    requires CountedAll(p, s) && m.Accept? && p'.learned == p.learned[m.value := Counted(p, m)]
    ensures CountedAll(p', s + [m]) && Counted(p, m) == For(s + [m], m.value)
  {
    assert LearnedFor(p, m.value) == For(s, m.value);
    ForSame(s, m);
    forall v ensures LearnedFor(p', v) == For(s + [m], v) {
      assert LearnedFor(p, v) == For(s, v);
      if v != m.value {
        ForOther(s, m, v);
      }
    }
  }

  lemma ForSame(s: seq<Message>, m: Message)
    requires m.Accept?
    ensures For(s + [m], m.value) == For(s, m.value) + [m]
  {
    ForSnoc(s, m, m.value);
  }

  lemma ForOther(s: seq<Message>, m: Message, v: Value)
    requires m.Accept? && m.value != v
    ensures For(s + [m], v) == For(s, v)
  {
    ForSnoc(s, m, v);
  }

  /** One accept more. */
  lemma AcceptIsLearned(c: Config, me: PeerId, p: Peer, s: seq<Message>, m: Message)
    requires HasLearned(c, p, s) && m.Accept? && m.step == p.Step()
    ensures HasLearned(c, OnAccept(c, me, p, m).0, s + [m])
    ensures OnAccept(c, me, p, m).1.Some? <==> !Settled(c.threshold, s) && Settled(c.threshold, s + [m])
  {
    if p.decided {
      SettledStays(c.threshold, s, m);
    } else {
      CountsOneMore(p, OnAccept(c, me, p, m).0, s, m);
      NewlySettled(c.threshold, s, m);
    }
  }

  /** The accept that settles the step lets a waiting proposer end its proposal and start another. */
  lemma DecisionEndsWaiting(c: Config, me: PeerId, wire: set<Message>, p: Peer, s: seq<Message>, m: Message)
    requires HasLearned(c, p, s) && PhaseOk(p) && p.phase == PhaseTwo && m.Accept? && m.step == p.Step()
    requires !Settled(c.threshold, s) && Settled(c.threshold, s + [m])
    ensures var p' := OnAccept(c, me, p, m).0;
            && EnabledAt(c, wire, p', Signal(me))
            && forall v :: EnabledAt(c, wire, Act(c, wire, p', Signal(me)).0, StartPropose(me, v))
  {
    AcceptIsLearned(c, me, p, s, m);
  }

  lemma OthersLearnNothing(c: Config, wire: set<Message>, p: Peer, e: Event)
    requires EnabledAt(c, wire, p, e) && !(e.Deliver? && e.m.Accept?)
    ensures var p' := Act(c, wire, p, e).0;
            if p'.Step() == p.Step() then p'.decided == p.decided && p'.learned == p.learned
            else !p'.decided && p'.learned == map[]
  {
  }

  lemma StepLearns(c: Config, net: Net, e: Event, p: PeerId, s: seq<Message>)
    requires c.threshold > 0 && Enabled(c, net, e) && p in net.peers && HasLearned(c, net.peers[p], s)
    ensures HasLearned(c, Apply(c, net, e).peers[p], NextAccepts(c, net, e, p, s))
  {
    if e.p == p {
      var peer := net.peers[p];
      if e.Deliver? && e.m.Accept? {
        if e.m.step == peer.Step() {
          AcceptIsLearned(c, p, peer, s, e.m);
        }
      } else {
        OthersLearnNothing(c, net.wire, peer, e);
        if Apply(c, net, e).peers[p].Step() == peer.Step() {
          SameLearned(peer, Apply(c, net, e).peers[p], s);
        } else {
          NothingSettled(c.threshold);
        }
      }
    }
  }

  lemma SameLearned(p: Peer, p': Peer, s: seq<Message>)
    requires p'.learned == p.learned
    ensures CountedAll(p', s) <==> CountedAll(p, s)
  {
    assert forall v :: LearnedFor(p', v) == LearnedFor(p, v);
  }

  lemma NothingSettled(threshold: nat)
    requires threshold > 0
    ensures !Settled(threshold, [])
  {
    forall v ensures |For([], v)| < threshold {
    }
  }

  /**
    In every run a peer has decided its step if and only if a threshold of the accepts of that step
    handed to it are for one value.
   */
  lemma {:induction false} DecidedIff(c: Config, start: Net, events: seq<Event>, p: PeerId)
    requires ValidConfig(c) && Initial(c, start) && CanRun(c, start, events) && p in start.peers
    ensures p in Final(c, start, events).peers
    ensures HasLearned(c, Final(c, start, events).peers[p], AcceptsOf(c, start, events, p))
    decreases |events|
  {
    if events == [] {
      NothingSettled(c.threshold);
    } else {
      var n := |events| - 1;
      RunSnoc(c, start, events);
      DecidedIff(c, start, events[..n], p);
      StepLearns(c, Final(c, start, events[..n]), events[n], p, AcceptsOf(c, start, events[..n], p));
    }
  }

  // ---------------------------------------------------------------------- the acceptor

  /** What an acceptor has promised and accepted in its step. */
  datatype Word = Word(promised: nat, acceptedID: nat, acceptedValue: Option<Value>)

  /** The highest ID prepared so far, and the last propose that came with the highest ID prepared then. */
  ghost function WordOf(c: Config, net: Net, events: seq<Event>, p: PeerId): (r: Word)
    requires CanRun(c, net, events)
    decreases |events|
  {
    if events == [] then Word(0, 0, None)
    else
      var n := |events| - 1;
      RunSnoc(c, net, events);
      var before, e := Final(c, net, events[..n]), events[n];
      var was := WordOf(c, net, events[..n], p);
      if e.p != p then was
      else if Apply(c, before, e).peers[p].Step() != before.peers[p].Step() then Word(0, 0, None)
      else NextWord(was, before.peers[p].Step(), e)
  }

  function NextWord(was: Word, step: nat, e: Event): (r: Word) {
    if !e.Deliver? then was
    else match e.m
      case Prepare(s, id, _) => if s == step && id > was.promised then was.(promised := id) else was
      case Propose(_, s, id, value, _, _) =>
        if s == step && id == was.promised then was.(acceptedID := id, acceptedValue := Some(value)) else was
      case _ => was
  }

  function WordGiven(p: Peer): (r: Word) {
    Word(p.maxID, p.acceptedID, p.acceptedValue)
  }

  lemma ActWord(c: Config, wire: set<Message>, p: Peer, e: Event)
    requires EnabledAt(c, wire, p, e)
    ensures var p' := Act(c, wire, p, e).0;
            WordGiven(p') == if p'.Step() == p.Step() then NextWord(WordGiven(p), p.Step(), e) else Word(0, 0, None)
  {
  }

  /**
    In every run an acceptor has promised the highest ID of its step that was prepared with it, and has
    accepted the last propose that was handed to it with the ID it had then promised.
   */
  lemma {:induction false} AcceptorOfRun(c: Config, start: Net, events: seq<Event>, p: PeerId)
    requires Initial(c, start) && CanRun(c, start, events) && p in start.peers
    ensures p in Final(c, start, events).peers
    ensures WordGiven(Final(c, start, events).peers[p]) == WordOf(c, start, events, p)
    decreases |events|
  {
    if events != [] {
      var n := |events| - 1;
      RunSnoc(c, start, events);
      AcceptorOfRun(c, start, events[..n], p);
      var before := Final(c, start, events[..n]);
      if events[n].p == p {
        ActWord(c, before.wire, before.peers[p], events[n]);
      }
    }
  }
}
