/**
  Lookups, joins and FixFinger calls as the network carries them out, message by message: a request
  that is handled wherever it goes leads to exactly the replies of the lookup, sent to who asked; a
  newcomer learns the member that follows it most closely; and a FixFinger call with its request and
  its reply does what the call does in one piece.
 */
module ChordRequests {
  import opened Wrappers
  import opened Circle
  import opened ChordNode
  import opened ChordNetwork
  import opened ChordConvergence
  import opened ChordLookup
  import opened ChordFingers
  import opened ChordRest
  import ChordKv

  predicate IsHandling(events: seq<Event>) {
    forall e :: e in events ==> e.HandleFindSuccessor?
  }

  /** The packets are the replies, one by one, on their way to who asked. */
  predicate CarryReplies(out: seq<Packet>, to: Id, replies: seq<Id>) {
    |out| == |replies| && forall i :: 0 <= i < |out| ==> out[i].dst == to && out[i].msg == FindReply(replies[i])
  }

  /** The handled requests have changed nothing but the wire. */
  ghost predicate OnlyWire(net: Net, events: seq<Event>, end: Net) {
    CanRun(net, events) && IsHandling(events) && Final(net, events) == end && end == net.(wire := end.wire)
  }

  lemma OneHandled(net: Net, p: Packet, end: Net)
    requires Enabled(net, HandleFindSuccessor(p)) && end == Apply(net, HandleFindSuccessor(p)) && end == net.(wire := end.wire)
    ensures OnlyWire(net, [HandleFindSuccessor(p)], end)
  {
    OneStepRun(net, HandleFindSuccessor(p));
  }

  lemma HandledThen(net: Net, first: seq<Event>, mid: Net, second: seq<Event>, end: Net)
    requires OnlyWire(net, first, mid) && OnlyWire(mid, second, end)
    ensures OnlyWire(net, first + second, end)
  {
    RunsCompose(net, first, second);
  }

  /** The reply a node sends at once if it owns the key. */
  function EarlyReply(n: Node, p: Packet): (out: seq<Packet>)
    requires p.msg.FindSuccessor?
  {
    if Owns(n, p.msg.key) then [Packet(p.dst, p.msg.source, FindReply(n.id))] else []
  }

  /** What it sends in any case. */
  function LastPacket(n: Node, p: Packet): (q: Packet)
    requires p.msg.FindSuccessor?
  {
    match Route(n, p.msg.key)
    case Reply(owner) => Packet(p.dst, p.msg.source, FindReply(owner))
    case Relay(next) => Packet(p.dst, next, FindSuccessor(p.msg.source, p.msg.key))
  }

  /** What one node does with a request. */
  lemma RequestStep(net: Net, p: Packet)
    requires Enabled(net, HandleFindSuccessor(p)) && net.nodes[p.dst].successor != Some(net.nodes[p.dst].id)
    ensures var n, end := net.nodes[p.dst], Apply(net, HandleFindSuccessor(p));
            && end == net.(wire := end.wire)
            && end.wire == net.wire - multiset{p} + multiset(EarlyReply(n, p)) + multiset{LastPacket(n, p)}
  {
    var n, rest := net.nodes[p.dst], AfterEarly(net, net.nodes[p.dst], p);
    HandledInParts(net, p);
    SendsLast(rest, n, p);
    EarlyWire(net, n, p);
  }

  /** The network once the request is taken and the early reply sent. */
  function AfterEarly(net: Net, n: Node, p: Packet): (r: Net)
    requires p.msg.FindSuccessor?
  {
    if Owns(n, p.msg.key) then Send(Take(net, p), p.dst, p.msg.source, FindReply(n.id)) else Take(net, p)
  }

  lemma HandledInParts(net: Net, p: Packet)
    requires Enabled(net, HandleFindSuccessor(p)) && net.nodes[p.dst].successor != Some(net.nodes[p.dst].id)
    ensures var n := net.nodes[p.dst];
            Apply(net, HandleFindSuccessor(p)) ==
            SendNext(AfterEarly(net, n, p), p.dst, p.msg.source, p.msg.key, Route(n, p.msg.key))
  {
  }

  lemma EarlyWire(net: Net, n: Node, p: Packet)
    requires p.msg.FindSuccessor?
    ensures AfterEarly(net, n, p) == net.(wire := net.wire - multiset{p} + multiset(EarlyReply(n, p)))
  {
    if Owns(n, p.msg.key) {
      assert multiset(EarlyReply(n, p)) == multiset{Packet(p.dst, p.msg.source, FindReply(n.id))};
    } else {
      assert multiset(EarlyReply(n, p)) == multiset{};
    }
  }

  lemma SendsLast(net: Net, n: Node, p: Packet)
    requires p.msg.FindSuccessor?
    ensures var end := SendNext(net, p.dst, p.msg.source, p.msg.key, Route(n, p.msg.key));
            end == net.(wire := net.wire + multiset{LastPacket(n, p)})
  {
  }

  /** The ring the lookups see, in a network in which a request is on its way. */
  ghost predicate CanAsk(net: Net, p: Packet) {
    && Linked(net.size, JoinedNodes(net)) && IdealRing(net.size, JoinedNodes(net))
    && p in net.wire && p.msg.FindSuccessor? && p.dst in JoinedNodes(net) && p.msg.key < net.size
  }

  /** The events handle a request to its end: `out` are its replies, and nothing else has changed. */
  ghost predicate Answered(net: Net, p: Packet, events: seq<Event>, out: seq<Packet>, end: Net)
    requires CanAsk(net, p)
  {
    && OnlyWire(net, events, end) && end.wire == net.wire - multiset{p} + multiset(out)
    && CarryReplies(out, p.msg.source, Replies(net.size, JoinedNodes(net), p.dst, p.msg.key))
  }

  lemma AskedNode(net: Net, p: Packet)
    requires CanAsk(net, p)
    ensures var n := JoinedNodes(net)[p.dst];
            && n == net.nodes[p.dst] && n.id == p.dst && p.dst < net.size && n.successor != Some(p.dst)
            && IdealNode(net.size, JoinedNodes(net).Keys, n) && FingersIn(n, JoinedNodes(net).Keys)
  {
    assert FingersIn(JoinedNodes(net)[p.dst], JoinedNodes(net).Keys);
    assert IdealNode(net.size, JoinedNodes(net).Keys, JoinedNodes(net)[p.dst]);
  }

  /** The request has been handled here. */
  lemma HandledHere(net: Net, p: Packet, mid: Net)
    requires CanAsk(net, p) && mid == Apply(net, HandleFindSuccessor(p))
    ensures var n := net.nodes[p.dst];
            && OnlyWire(net, [HandleFindSuccessor(p)], mid)
            && mid.wire == net.wire - multiset{p} + multiset(EarlyReply(n, p)) + multiset{LastPacket(n, p)}
  {
    AskedNode(net, p);
    RequestStep(net, p);
    OneHandled(net, p, mid);
  }

  lemma CarryConcat(out: seq<Packet>, more: seq<Packet>, to: Id, replies: seq<Id>, others: seq<Id>)
    requires CarryReplies(out, to, replies) && CarryReplies(more, to, others)
    ensures CarryReplies(out + more, to, replies + others)
  {
  }

  /** The replies that are sent here, and those that a relay leads to. */
  lemma RepliesFrom(size: nat, nodes: Nodes, p: Packet, more: seq<Packet>)
    requires Linked(size, nodes) && p.msg.FindSuccessor? && p.dst in nodes && p.msg.key < size
    requires nodes[p.dst].id == p.dst && nodes[p.dst].successor != Some(p.dst)
    requires var q := LastPacket(nodes[p.dst], p);
             if q.msg.FindReply? then more == [q]
             else q.dst in nodes && CarryReplies(more, p.msg.source, Replies(size, nodes, q.dst, p.msg.key))
    ensures CarryReplies(EarlyReply(nodes[p.dst], p) + more, p.msg.source, Replies(size, nodes, p.dst, p.msg.key))
  {
    var n := nodes[p.dst];
    RepliesUnfold(size, nodes, p.dst, p.msg.key);
    var early := if Owns(n, p.msg.key) then [p.dst] else [];
    match Route(n, p.msg.key)
    case Reply(owner) => CarryConcat(EarlyReply(n, p), more, p.msg.source, early, [owner]);
    case Relay(next) => CarryConcat(EarlyReply(n, p), more, p.msg.source, early, Replies(size, nodes, next, p.msg.key));
  }

  lemma AnsweredHere(net: Net, p: Packet, end: Net)
    requires CanAsk(net, p) && end == Apply(net, HandleFindSuccessor(p)) && Route(net.nodes[p.dst], p.msg.key).Reply?
    ensures var n := net.nodes[p.dst];
            Answered(net, p, [HandleFindSuccessor(p)], EarlyReply(n, p) + [LastPacket(n, p)], end)
  {
    AskedNode(net, p);
    HandledHere(net, p, end);
    var n := net.nodes[p.dst];
    RepliesFrom(net.size, JoinedNodes(net), p, [LastPacket(n, p)]);
    assert multiset(EarlyReply(n, p) + [LastPacket(n, p)]) == multiset(EarlyReply(n, p)) + multiset{LastPacket(n, p)};
  }

  lemma RelayedOn(net: Net, p: Packet, mid: Net)
    requires CanAsk(net, p) && mid == Apply(net, HandleFindSuccessor(p)) && Route(net.nodes[p.dst], p.msg.key).Relay?
    ensures var n := net.nodes[p.dst]; var q := LastPacket(n, p);
            && CanAsk(mid, q) && JoinedNodes(mid) == JoinedNodes(net) && mid.size == net.size
            && q.msg == p.msg && q.dst < net.size && p.dst < net.size
            && Dist(net.size, q.dst, q.msg.key) < Dist(net.size, p.dst, p.msg.key)
  {
    AskedNode(net, p);
    RequestStep(net, p);
    RelayMissesOwner(net.size, JoinedNodes(net).Keys, net.nodes[p.dst], p.msg.key);
    assert JoinedNodes(mid) == JoinedNodes(net);
    assert FingersIn(JoinedNodes(net)[LastPacket(net.nodes[p.dst], p).dst], JoinedNodes(net).Keys);
  }

  lemma HandledThere(net: Net, p: Packet, out: seq<Packet>, q: Packet, first: seq<Event>, mid: Net,
                     rest: seq<Event>, more: seq<Packet>, end: Net)
    requires OnlyWire(net, first, mid) && mid.wire == net.wire - multiset{p} + multiset(out) + multiset{q}
    requires OnlyWire(mid, rest, end) && end.wire == mid.wire - multiset{q} + multiset(more)
    ensures OnlyWire(net, first + rest, end) && end.wire == net.wire - multiset{p} + multiset(out + more)
  {
    HandledThen(net, first, mid, rest, end);
    WireAdds(net.wire, p, out, q, more);
  }

  lemma AnsweredThere(net: Net, p: Packet, mid: Net, rest: seq<Event>, more: seq<Packet>, end: Net)
    requires CanAsk(net, p) && mid == Apply(net, HandleFindSuccessor(p)) && Route(net.nodes[p.dst], p.msg.key).Relay?
    requires CanAsk(mid, LastPacket(net.nodes[p.dst], p)) && JoinedNodes(mid) == JoinedNodes(net) && mid.size == net.size
    requires Answered(mid, LastPacket(net.nodes[p.dst], p), rest, more, end)
    ensures Answered(net, p, [HandleFindSuccessor(p)] + rest, EarlyReply(net.nodes[p.dst], p) + more, end)
  {
    var n := net.nodes[p.dst];
    AskedNode(net, p);
    HandledHere(net, p, mid);
    HandledThere(net, p, EarlyReply(n, p), LastPacket(n, p), [HandleFindSuccessor(p)], mid, rest, more, end);
    RepliesFrom(net.size, JoinedNodes(net), p, more);
  }

  lemma WireAdds(wire: multiset<Packet>, p: Packet, out: seq<Packet>, q: Packet, more: seq<Packet>)
    ensures wire - multiset{p} + multiset(out) + multiset{q} - multiset{q} + multiset(more) ==
            wire - multiset{p} + multiset(out + more)
  {
    assert multiset(out + more) == multiset(out) + multiset(more);
  }

  ghost function Way(net: Net, p: Packet): (d: nat) {
    if p.msg.FindSuccessor? && p.dst < net.size && p.msg.key < net.size then Dist(net.size, p.dst, p.msg.key) else 0
  }

  /**
    A request that is handled at every node it comes to leads to exactly the replies of the lookup,
    each sent to the node that asked, and to nothing else.
   */
  lemma {:induction false} RequestRuns(net: Net, p: Packet) returns (events: seq<Event>, out: seq<Packet>, end: Net)
    requires CanAsk(net, p)
    ensures Answered(net, p, events, out, end)
    decreases Way(net, p)
  {
    AskedNode(net, p);
    var n, mid := net.nodes[p.dst], Apply(net, HandleFindSuccessor(p));
    if Route(n, p.msg.key).Reply? {
      AnsweredHere(net, p, mid);
      events, out, end := [HandleFindSuccessor(p)], EarlyReply(n, p) + [LastPacket(n, p)], mid;
    } else {
      RelayedOn(net, p, mid);
      var rest, more;
      rest, more, end := RequestRuns(mid, LastPacket(n, p));
      AnsweredThere(net, p, mid, rest, more, end);
      events, out := [HandleFindSuccessor(p)] + rest, EarlyReply(n, p) + more;
    }
  }

  // ------------------------------------------------------------------------------ joins

  lemma NewcomerIsApart(net: Net, n: Id, member: Id)
    requires Enabled(net, BeginJoin(n, member))
    ensures var net' := Apply(net, BeginJoin(n, member));
            && JoinedNodes(net') == JoinedNodes(net) && net'.size == net.size
            && n in net'.nodes && net'.nodes[n] == FreshNode(n, net.bits)
            && net'.wire == net.wire + multiset{Packet(n, member, FindSuccessor(n, n))}
  {
  }

  /** On a ring with right lookups every reply to a request for a key that is no member's names the owner. */
  lemma RepliesName(size: nat, nodes: Nodes, x: Id, key: Id) returns (o: Id)
    requires Linked(size, nodes) && Routable(size, nodes) && x in nodes && key < size && key !in nodes
    ensures IsOwner(size, nodes.Keys, key, o)
    ensures Replies(size, nodes, x, key) == [o] || Replies(size, nodes, x, key) == [o, o]
  {
    RingNode(size, nodes, x);
    RepliesExactly(size, nodes, x, key);
    OwnsIffOwner(size, nodes.Keys, nodes[x], key);
    if Owns(nodes[x], key) {
      o := x;
    } else {
      o :| IsOwner(size, nodes.Keys, key, o) && Replies(size, nodes, x, key) == [o];
    }
  }

  /** A reply that reaches a newcomer makes the node it names its successor. */
  lemma ReplyCompletesJoin(net: Net, q: Packet, n: Id, o: Id)
    requires q in net.wire && q.dst == n && q.msg == FindReply(o) && n in net.nodes && n != o
    requires net.nodes[n].id == n && net.nodes[n].successor.None?
    ensures Enabled(net, HandleFindReply(q, false)) && n in Apply(net, HandleFindReply(q, false)).nodes
    ensures Apply(net, HandleFindReply(q, false)).nodes[n].successor == Some(o)
  {
  }

  /**
    Whoever joins through whichever member, on a ring with right lookups: its request leads to one or
    two replies, all to the newcomer and all naming the member that follows it most closely, and any of
    them makes that member its successor.
   */
  lemma JoinFindsSuccessor(net: Net, n: Id, member: Id) returns (events: seq<Event>, out: seq<Packet>, o: Id)
    requires Linked(net.size, JoinedNodes(net)) && Routable(net.size, JoinedNodes(net)) && Enabled(net, BeginJoin(n, member))
    ensures IsOwner(net.size, JoinedNodes(net).Keys, n, o) && 1 <= |out| <= 2
    ensures CanRun(Apply(net, BeginJoin(n, member)), events) && IsHandling(events)
    ensures var end := Final(Apply(net, BeginJoin(n, member)), events);
            && end.wire == net.wire + multiset(out)
            && forall q :: q in out ==>
                 && q.dst == n && Enabled(end, HandleFindReply(q, false))
                 && n in Apply(end, HandleFindReply(q, false)).nodes
                 && Apply(end, HandleFindReply(q, false)).nodes[n].successor == Some(o)
  {
    var net' := Apply(net, BeginJoin(n, member));
    var p := Packet(n, member, FindSuccessor(n, n));
    NewcomerIsApart(net, n, member);
    var end;
    events, out, end := RequestRuns(net', p);
    o := RepliesName(net.size, JoinedNodes(net), member, n);
    assert net'.wire - multiset{p} == net.wire;
    forall q | q in out
      ensures && q.dst == n && Enabled(end, HandleFindReply(q, false))
              && n in Apply(end, HandleFindReply(q, false)).nodes
              && Apply(end, HandleFindReply(q, false)).nodes[n].successor == Some(o)
    {
      assert q in end.wire && q.msg == FindReply(o);
      ReplyCompletesJoin(end, q, n, o);
    }
  }

  /** The requests of `n` ask for `n` itself, and the replies to `n` name the member that follows it. */
  ghost predicate JoinTraffic(net: Net, n: Id, members: set<Id>) {
    forall p :: p in net.wire ==> JoinPacket(net.size, p, n, members)
  }

  ghost predicate JoinPacket(size: nat, p: Packet, n: Id, members: set<Id>) {
    && (p.msg.FindSuccessor? && p.msg.source == n ==> p.msg.key == n)
    && (p.msg.FindReply? && p.dst == n ==> IsOwner(size, members, n, p.msg.owner))
  }

  /** `n` waits for the answer to its join, among these members and with right lookups. */
  ghost predicate Waits(net: Net, n: Id, members: set<Id>) {
    && n in net.nodes && net.nodes[n].id == n && n < net.size && net.nodes[n].successor.None?
    && JoinedNodes(net).Keys == members && Linked(net.size, JoinedNodes(net)) && Routable(net.size, JoinedNodes(net))
    && forall p :: p in net.wire && p.msg.FindSuccessor? ==> p.dst in members
  }

  lemma AskedNodeAnswers(net: Net, p: Packet, n: Id, members: set<Id>)
    requires Waits(net, n, members) && JoinPacket(net.size, p, n, members)
    requires p in net.wire && p.msg.FindSuccessor? && p.dst in net.nodes
    ensures net.nodes[p.dst].successor != Some(net.nodes[p.dst].id)
    ensures JoinPacket(net.size, LastPacket(net.nodes[p.dst], p), n, members)
    ensures forall q :: q in EarlyReply(net.nodes[p.dst], p) ==> JoinPacket(net.size, q, n, members)
  {
    var x := net.nodes[p.dst];
    RingNode(net.size, JoinedNodes(net), p.dst);
    if p.msg.source == n {
      Decision(net.size, members, x, n);
      OwnsIffOwner(net.size, members, x, n);
    }
  }

  /** A step adds to the wire only what belongs there. */
  lemma StepKeepsTraffic(net: Net, e: Event, n: Id, members: set<Id>)
    requires Waits(net, n, members) && JoinTraffic(net, n, members) && Enabled(net, e)
    ensures JoinTraffic(Apply(net, e), n, members) && Apply(net, e).size == net.size
  {
    match e
    case HandleFindSuccessor(p) =>
      AskedNodeAnswers(net, p, n, members);
      RequestStep(net, p);
    case FixFinger(x) => FixKeepsTraffic(net, x, n, members);
    case _ => OtherKeepsTraffic(net, e, n, members);
  }

  lemma FixKeepsTraffic(net: Net, x: Id, n: Id, members: set<Id>)
    requires Waits(net, n, members) && JoinTraffic(net, n, members) && Enabled(net, FixFinger(x))
    ensures JoinTraffic(Apply(net, FixFinger(x)), n, members) && Apply(net, FixFinger(x)).size == net.size
  {
  }

  lemma OtherKeepsTraffic(net: Net, e: Event, n: Id, members: set<Id>)
    requires Waits(net, n, members) && JoinTraffic(net, n, members) && Enabled(net, e)
    requires !e.HandleFindSuccessor? && !e.FixFinger?
    ensures JoinTraffic(Apply(net, e), n, members) && Apply(net, e).size == net.size
  {
  }

  /** Along the whole run `n` waits among the same members, with right lookups. */
  ghost predicate WaitsAlong(net: Net, events: seq<Event>, n: Id, members: set<Id>)
    requires CanRun(net, events)
    decreases |events|
  {
    Waits(net, n, members) && (events == [] || WaitsAlong(Apply(net, events[0]), events[1..], n, members))
  }

  lemma {:induction false} RunKeepsTraffic(net: Net, events: seq<Event>, n: Id, members: set<Id>)
    requires CanRun(net, events) && WaitsAlong(net, events, n, members) && JoinTraffic(net, n, members)
    ensures JoinTraffic(Final(net, events), n, members) && Final(net, events).size == net.size
    decreases |events|
  {
    if events != [] {
      StepKeepsTraffic(net, events[0], n, members);
      RunKeepsTraffic(Apply(net, events[0]), events[1..], n, members);
    }
  }

  /** Nobody has asked for or been told about `n` yet. */
  ghost predicate Unknown(net: Net, n: Id) {
    forall p :: p in net.wire ==> !(p.msg.FindSuccessor? && p.msg.source == n) && !(p.msg.FindReply? && p.dst == n)
  }

  /** Requests come from nodes of the network, and replies go to them. */
  ghost predicate Known(net: Net) {
    forall p :: p in net.wire ==> KnownPacket(net, p)
  }

  ghost predicate KnownPacket(net: Net, p: Packet) {
    (p.msg.FindSuccessor? ==> p.msg.source in net.nodes) && (p.msg.FindReply? ==> p.dst in net.nodes)
  }

  lemma FindKeepsKnown(net: Net, p: Packet)
    requires Enabled(net, HandleFindSuccessor(p)) && Known(net)
    ensures Known(Apply(net, HandleFindSuccessor(p)))
  {
    assert KnownPacket(net, p);
    if net.nodes[p.dst].successor != Some(net.nodes[p.dst].id) {
      RequestStep(net, p);
      var end := Apply(net, HandleFindSuccessor(p));
      forall q | q in end.wire ensures KnownPacket(end, q) {
        assert q in net.wire ==> KnownPacket(net, q);
      }
    }
  }

  lemma StepKeepsKnown(net: Net, e: Event)
    requires Enabled(net, e) && Known(net) && Named(net)
    ensures Known(Apply(net, e))
  {
    StepNodes(net, e);
    assert net.nodes.Keys <= Apply(net, e).nodes.Keys;
    if e.HandleFindSuccessor? {
      FindKeepsKnown(net, e.p);
    } else {
      forall p | p in Apply(net, e).wire ensures KnownPacket(Apply(net, e), p) {
        assert p in net.wire ==> KnownPacket(net, p);
      }
    }
  }

  lemma {:induction false} RunKeepsKnown(net: Net, events: seq<Event>, a: Id, b: Id)
    requires Inv(net, a, b) && CanRun(net, events) && Known(net)
    ensures Known(Final(net, events))
    decreases |events|
  {
    if events != [] {
      FactsNamed(net, Succ(net).Keys, Before(net.size, Succ(net)));
      StepKeepsKnown(net, events[0]);
      StepKeepsInv(net, events[0], a, b);
      RunKeepsKnown(Apply(net, events[0]), events[1..], a, b);
    }
  }

  /** In a reachable network nobody has heard of a node that has not begun to join. */
  lemma NewcomerIsUnknown(net: Net, n: Id, a: Id, b: Id)
    requires Reachable(net, a, b) && n !in net.nodes
    ensures Unknown(net, n)
  {
    var start, events :| RunsTo(start, events, net, a, b);
    FoundedInv(start, a, b);
    RunKeepsKnown(start, events, a, b);
    forall p | p in net.wire ensures !(p.msg.FindSuccessor? && p.msg.source == n) && !(p.msg.FindReply? && p.dst == n) {
      assert KnownPacket(net, p);
    }
  }

  /**
    Whatever else happens after a join has begun, as long as the members stay the same and their
    lookups right: every reply that reaches the newcomer names the member that follows it most closely.
   */
  lemma JoinIsRight(net: Net, a: Id, b: Id, n: Id, member: Id, events: seq<Event>, members: set<Id>, q: Packet)
    requires Reachable(net, a, b) && Enabled(net, BeginJoin(n, member))
    requires CanRun(Apply(net, BeginJoin(n, member)), events)
    requires WaitsAlong(Apply(net, BeginJoin(n, member)), events, n, members)
    requires q in Final(Apply(net, BeginJoin(n, member)), events).wire && q.msg.FindReply? && q.dst == n
    ensures IsOwner(net.size, members, n, q.msg.owner)
  {
    var net' := Apply(net, BeginJoin(n, member));
    NewcomerIsApart(net, n, member);
    NewcomerIsUnknown(net, n, a, b);
    assert JoinTraffic(net', n, members);
    RunKeepsTraffic(net', events, n, members);
    assert JoinPacket(net.size, q, n, members);
  }

  // ------------------------------------------------------------------------- FixFinger

  /** The first steps of a FixFinger call: the answer is known at once, or a request goes out. */
  lemma FixBegins(net: Net, x: Id)
    requires Enabled(net, FixFinger(x)) && x in JoinedNodes(net) && net.nodes[x].id == x
    ensures var n := net.nodes[x]; var key := FingerTarget(net.size, x, Pow2(n.fixPointer));
            match FindLocal(n, key)
            case Reply(owner) => Apply(net, FixFinger(x)).nodes == net.nodes[x := FixFingerWith(n, owner)]
            case Relay(to) => Apply(net, FixFinger(x)) == Send(net, x, to, FindSuccessor(x, key))
  {
  }

  lemma JoinedAfterFix(net: Net, end: Net, x: Id, owner: Id)
    requires x in JoinedNodes(net) && net.nodes[x].fixPointer < |net.nodes[x].fingers|
    requires end.nodes == net.nodes[x := FixFingerWith(net.nodes[x], owner)]
    ensures JoinedNodes(end) == JoinedNodes(net)[x := FixFingerWith(net.nodes[x], owner)]
  {
  }

  lemma ReplyFixes(net: Net, q: Packet, x: Id)
    requires q in net.wire && q.dst == x && q.msg.FindReply? && x in net.nodes && net.nodes[x].id == x
    requires net.nodes[x].successor.Some? && net.nodes[x].fixPointer < |net.nodes[x].fingers|
    ensures Enabled(net, HandleFindReply(q, true))
    ensures Apply(net, HandleFindReply(q, true)).nodes == net.nodes[x := FixFingerWith(net.nodes[x], q.msg.owner)]
  {
  }

  /**
    A FixFinger call on an ideal ring, with its request handled wherever it goes and its first reply
    used, does to the joined nodes what the call does in one piece.
   */
  lemma FixFingerRuns(net: Net, x: Id) returns (events: seq<Event>)
    requires Linked(net.size, JoinedNodes(net)) && IdealRing(net.size, JoinedNodes(net)) && x in JoinedNodes(net)
    requires Enabled(net, FixFinger(x))
    ensures CanRun(Apply(net, FixFinger(x)), events)
    ensures JoinedNodes(Final(Apply(net, FixFinger(x)), events)) == FixOne(net.size, JoinedNodes(net), x)
  {
    var nodes, n, net' := JoinedNodes(net), net.nodes[x], Apply(net, FixFinger(x));
    var key := FingerTarget(net.size, x, Pow2(n.fixPointer));
    assert FingersIn(nodes[x], nodes.Keys);
    FixBegins(net, x);
    match FindLocal(n, key)
    case Reply(owner) =>
      events := [];
      JoinedAfterFix(net, net', x, owner);
    case Relay(to) =>
      events := RemoteFix(net, net', x, to, key);
  }

  lemma RemoteFix(net: Net, net': Net, x: Id, to: Id, key: Id) returns (events: seq<Event>)
    requires Linked(net.size, JoinedNodes(net)) && IdealRing(net.size, JoinedNodes(net)) && x in JoinedNodes(net)
    requires net.nodes[x].fixPointer < |net.nodes[x].fingers| && net.nodes[x].id == x && key < net.size
    requires key == FingerTarget(net.size, x, Pow2(net.nodes[x].fixPointer))
    requires FindLocal(net.nodes[x], key) == Relay(to) && net' == Send(net, x, to, FindSuccessor(x, key))
    ensures CanRun(net', events) && JoinedNodes(Final(net', events)) == FixOne(net.size, JoinedNodes(net), x)
  {
    var nodes, p := JoinedNodes(net), Packet(x, to, FindSuccessor(x, key));
    assert FingersIn(nodes[x], nodes.Keys);
    RelayIsFinger(nodes[x], key);
    assert JoinedNodes(net') == nodes;
    var asked, out, end := RequestRuns(net', p);
    RepliesCount(net.size, nodes, to, key);
    var q := out[0];
    assert q in multiset(out);
    ReplyFixes(end, q, x);
    JoinedAfterFix(net, Apply(end, HandleFindReply(q, true)), x, q.msg.owner);
    OneStepRun(end, HandleFindReply(q, true));
    RunsCompose(net', asked, [HandleFindReply(q, true)]);
    events := asked + [HandleFindReply(q, true)];
  }

  // ------------------------------------------------------------------------ Put and Get

  /** The ring of the joined nodes as Put and Get see it. */
  ghost function KvOf(net: Net): (kv: ChordKv.KvNet) {
    ChordKv.KvNet(net.size, JoinedNodes(net), InFlight(net.wire))
  }

  lemma InFlightAdds(wire: multiset<Packet>, p: Packet, m: ChordKv.Message)
    requires AsMessage(p) == Some(m)
    ensures InFlight(wire + multiset{p}) == InFlight(wire) + multiset{m}
  {
    forall x ensures InFlight(wire + multiset{p})[x] == (InFlight(wire) + multiset{m})[x] {
      InFlightCounts(wire + multiset{p}, x);
      InFlightCounts(wire, x);
      SameMessage(p, x);
      assert AsPacket(x) == Some(p) <==> x == m;
    }
  }

  lemma InFlightTakes(wire: multiset<Packet>, p: Packet, m: ChordKv.Message)
    requires p in wire && AsMessage(p) == Some(m)
    ensures m in InFlight(wire) && InFlight(wire - multiset{p}) == InFlight(wire) - multiset{m}
  {
    InFlightAdds(wire - multiset{p}, p, m);
    assert wire - multiset{p} + multiset{p} == wire;
  }

  lemma JoinedAfterStore(net: Net, end: Net, x: Id, store: map<Id, Value>)
    requires x in JoinedNodes(net) && end.nodes == net.nodes[x := net.nodes[x].(store := store)]
    ensures JoinedNodes(end) == JoinedNodes(net)[x := net.nodes[x].(store := store)]
  {
  }

  /** A Put of the network to the node its lookup names is a Put of the ring. */
  lemma PutIsPut(net: Net, n: Id, key: Id, value: Value)
    requires ChordKv.RingOk(KvOf(net)) && n in JoinedNodes(net) && key < net.size
    requires Lookup(net.size, JoinedNodes(net), n, key) in net.nodes
    ensures var e := Put(n, key, value, Lookup(net.size, JoinedNodes(net), n, key));
            Enabled(net, e) && KvOf(Apply(net, e)) == ChordKv.Do(KvOf(net), ChordKv.BeginPut(n, key, value))
  {
    var dest := Lookup(net.size, JoinedNodes(net), n, key);
    var end := Apply(net, Put(n, key, value, dest));
    assert FingersIn(JoinedNodes(net)[n], JoinedNodes(net).Keys);
    if dest == n {
      JoinedAfterStore(net, end, n, InsertKey(net.nodes[n], key, value).store);
    } else {
      assert JoinedNodes(end) == JoinedNodes(net);
      InFlightAdds(net.wire, Packet(n, dest, Insert(key, value)), ChordKv.InsertKV(n, dest, key, value));
    }
  }

  /** The arrival of an insert at a joined node is its delivery on the ring. */
  lemma InsertIsDelivery(net: Net, p: Packet)
    requires ChordKv.RingOk(KvOf(net)) && p in net.wire && p.dst in JoinedNodes(net) && p.msg.Insert?
    ensures var op := ChordKv.Deliver(AsMessage(p).value);
            && Enabled(net, HandleInsert(p)) && ChordKv.CanDo(KvOf(net), op)
            && KvOf(Apply(net, HandleInsert(p))) == ChordKv.Do(KvOf(net), op)
  {
    InFlightTakes(net.wire, p, AsMessage(p).value);
    assert FingersIn(JoinedNodes(net)[p.dst], JoinedNodes(net).Keys);
    JoinedAfterStore(net, Apply(net, HandleInsert(p)), p.dst, InsertKey(net.nodes[p.dst], p.msg.key, p.msg.value).store);
  }

  /** The arrival of a transfer at a joined node is its delivery on the ring. */
  lemma TransferIsDelivery(net: Net, p: Packet)
    requires ChordKv.RingOk(KvOf(net)) && p in net.wire && p.dst in JoinedNodes(net) && p.msg.Transfer?
    ensures var op := ChordKv.Deliver(AsMessage(p).value);
            && Enabled(net, HandleTransfer(p)) && ChordKv.CanDo(KvOf(net), op)
            && KvOf(Apply(net, HandleTransfer(p))) == ChordKv.Do(KvOf(net), op)
  {
    InFlightTakes(net.wire, p, AsMessage(p).value);
    assert FingersIn(JoinedNodes(net)[p.dst], JoinedNodes(net).Keys);
    JoinedAfterStore(net, Apply(net, HandleTransfer(p)), p.dst, ReceiveKeys(net.nodes[p.dst], p.msg.data).store);
  }
}
