/**
  The Chord network as a machine whose steps are the atomic handlers of its nodes: joins, the
  Stabilize exchange, notifies, key transfers, lookups and finger fixing, over a wire that may
  delay, reorder and (where the source only times out) lose messages.

  A node has at most one Stabilize request outstanding, so the request and its reply are kept
  with the asking node; the reply then always comes from its current successor.
 */
module ChordNetwork {
  import opened Wrappers
  import opened Circle
  import opened ChordNode
  import opened ChordGraph

  datatype Message =
    | FindSuccessor(source: Id, key: Id)
    | FindReply(owner: Id)
    | Notify
    | Transfer(data: map<Id, Value>)
    | Insert(key: Id, value: Value)

  datatype Packet = Packet(src: Id, dst: Id, msg: Message)

  datatype Exchange = Asked | Answered(reply: Option<Id>)

  datatype Net = Net(
    bits: nat,
    size: nat,
    nodes: map<Id, Node>,
    asking: map<Id, Exchange>,
    wire: multiset<Packet>)

  datatype Event =
    | BeginJoin(n: Id, member: Id)
    | HandleFindSuccessor(p: Packet)
    | HandleFindReply(p: Packet, fixing: bool)
    | FixFinger(n: Id)
    | Stabilize(n: Id)
    | AnswerAsk(n: Id)
    | FinishStabilize(n: Id)
    | TimeOut(n: Id)
    | HandleNotify(p: Packet)
    | HandleTransfer(p: Packet)
    | Put(n: Id, key: Id, value: Value, dest: Id)
    | HandleInsert(p: Packet)
    | Lose(p: Packet)

  /** The successor pointers of the nodes that have joined. */
  ghost function Succ(net: Net): (s: Links) {
    map x | x in net.nodes && net.nodes[x].successor.Some? :: net.nodes[x].successor.value
  }

  function FreshNode(n: Id, bits: nat): (r: Node) {
    Node(n, None, None, seq(bits, i => None), 0, map[])
  }

  /** The identifier finger `i` of node `n` should point at or after. */
  function FingerTarget(size: nat, n: Id, offset: nat): (k: Id)
    requires size > 0
    ensures k < size
  {
    (n + offset) % size
  }

  function Pow2(i: nat): (r: nat)
    ensures r >= 1
  {
    if i == 0 then 1 else 2 * Pow2(i - 1)
  }

  function Take(net: Net, p: Packet): (r: Net) {
    net.(wire := net.wire - multiset{p})
  }

  function Send(net: Net, src: Id, dst: Id, msg: Message): (r: Net) {
    net.(wire := net.wire + multiset{Packet(src, dst, msg)})
  }

  function SetNode(net: Net, n: Node): (r: Net) {
    net.(nodes := net.nodes[n.id := n])
  }

  function Stop(net: Net, x: Id): (r: Net) {
    net.(asking := net.asking - {x})
  }

  /** Forwards the outcome of a routing decision taken at `at` for a lookup by `source`. */
  function SendNext(net: Net, at: Id, source: Id, key: Id, next: Hop): (r: Net) {
    match next
    case Reply(owner) => Send(net, at, source, FindReply(owner))
    case Relay(to) => Send(net, at, to, FindSuccessor(source, key))
  }

  ghost predicate Enabled(net: Net, e: Event) {
    match e
    case BeginJoin(n, member) => n !in net.nodes && n < net.size && member in net.nodes && net.nodes[member].successor.Some?
    case HandleFindSuccessor(p) => p in net.wire && p.msg.FindSuccessor? && p.dst in net.nodes
    case HandleFindReply(p, fixing) =>
      && p in net.wire && p.msg.FindReply? && p.dst in net.nodes
      && (fixing ==> net.nodes[p.dst].fixPointer < |net.nodes[p.dst].fingers|)
    case FixFinger(n) => n in net.nodes && net.nodes[n].fixPointer < |net.nodes[n].fingers| && net.size > 0
    case Stabilize(n) => n in net.nodes && net.nodes[n].successor.Some? && n !in net.asking
    case AnswerAsk(n) =>
      && n in net.asking && net.asking[n].Asked? && n in net.nodes && net.nodes[n].successor.Some?
      && net.nodes[n].successor.value in net.nodes
    case FinishStabilize(n) =>
      n in net.asking && net.asking[n].Answered? && n in net.nodes && net.nodes[n].successor.Some?
    case TimeOut(n) => n in net.asking
    case HandleNotify(p) => p in net.wire && p.msg.Notify? && p.dst in net.nodes
    case HandleTransfer(p) => p in net.wire && p.msg.Transfer? && p.dst in net.nodes
    case Put(n, key, value, dest) => n in net.nodes && dest in net.nodes && key < net.size
    case HandleInsert(p) => p in net.wire && p.msg.Insert? && p.dst in net.nodes
    case Lose(p) => p in net.wire && (p.msg.FindSuccessor? || p.msg.FindReply? || p.msg.Notify?)
  }

  ghost function Apply(net: Net, e: Event): (r: Net)
    requires Enabled(net, e)
  {
    match e
    case BeginJoin(n, member) =>
      Send(SetNode(net, FreshNode(n, net.bits)), n, member, FindSuccessor(n, n))
    case HandleFindSuccessor(p) =>
      (match HandleFind(net.nodes[p.dst], p.msg.key)
       case FindError => Take(net, p)
       case FindSent(None, last) => SendNext(Take(net, p), p.dst, p.msg.source, p.msg.key, last)
       case FindSent(Some(early), last) =>
         SendNext(Send(Take(net, p), p.dst, p.msg.source, FindReply(early)), p.dst, p.msg.source, p.msg.key, last))
    case HandleFindReply(p, fixing) =>
      var n := net.nodes[p.dst];
      if n.successor.None? then SetNode(Take(net, p), JoinReply(n, p.msg.owner))
      else if fixing then SetNode(Take(net, p), FixFingerWith(n, p.msg.owner))
      else Take(net, p)
    case FixFinger(x) =>
      var n := net.nodes[x];
      var key := FingerTarget(net.size, x, Pow2(n.fixPointer));
      (match FindLocal(n, key)
       case Reply(owner) => SetNode(net, FixFingerWith(n, owner))
       case Relay(to) => Send(net, x, to, FindSuccessor(x, key)))
    case Stabilize(x) => net.(asking := net.asking[x := Asked])
    case AnswerAsk(x) =>
      net.(asking := net.asking[x := Answered(net.nodes[net.nodes[x].successor.value].predecessor)])
    case FinishStabilize(x) =>
      var n := Adopt(net.nodes[x], net.asking[x].reply);
      Send(Stop(SetNode(net, n), x), x, n.successor.value, Notify)
    case TimeOut(x) => Stop(net, x)
    case HandleNotify(p) =>
      var n := net.nodes[p.dst];
      var net' := SetNode(Take(net, p), Notified(n, p.src));
      (match HandOver(n, p.src)
       case None => net'
       case Some(data) => Send(net', p.dst, p.src, Transfer(data)))
    case HandleTransfer(p) => SetNode(Take(net, p), ReceiveKeys(net.nodes[p.dst], p.msg.data))
    case Put(n, key, value, dest) =>
      if dest == n then SetNode(net, InsertKey(net.nodes[n], key, value))
      else Send(net, n, dest, Insert(key, value))
    case HandleInsert(p) => SetNode(Take(net, p), InsertKey(net.nodes[p.dst], p.msg.key, p.msg.value))
    case Lose(p) => Take(net, p)
  }

  /** The two founding nodes after their mutual Init. */
  ghost predicate Founded(net: Net, a: Id, b: Id) {
    && a < net.size && b < net.size && a != b
    && net.nodes == map[a := InitWith(FreshNode(a, net.bits), b), b := InitWith(FreshNode(b, net.bits), a)]
    && net.asking == map[] && net.wire == multiset{}
  }

  /** The events can happen one after the other, starting in `net`. */
  ghost predicate CanRun(net: Net, events: seq<Event>)
    decreases |events|
  {
    events == [] || (Enabled(net, events[0]) && CanRun(Apply(net, events[0]), events[1..]))
  }

  /** The network after the events. */
  ghost function Final(net: Net, events: seq<Event>): (r: Net)
    requires CanRun(net, events)
    decreases |events|
  {
    if events == [] then net else Final(Apply(net, events[0]), events[1..])
  }

  // ---------------------------------------------------------------- invariant

  /** Pairs of distinct joined nodes of which the first reaches the second without overshooting. */
  ghost function Before(size: nat, succ: Links): (r: set<(Id, Id)>)
    requires Closed(size, succ)
  {
    set u, v | u in succ && v in succ && u != v && Reaches(size, succ, u, v) :: (u, v)
  }

  /** `p` and `x` are different joined nodes, and `p` reaches `x` without overshooting. */
  ghost predicate Respects(joined: set<Id>, before: set<(Id, Id)>, p: Id, x: Id) {
    p in joined && x in joined && p != x && (p, x) in before
  }

  ghost predicate NodeOk(size: nat, joined: set<Id>, before: set<(Id, Id)>, x: Id, n: Node) {
    && n.id == x && x < size
    && (n.successor.Some? <==> x in joined)
    && (n.successor.Some? ==> n.successor.value in joined && n.successor.value != x)
    && (n.predecessor.Some? ==> Respects(joined, before, n.predecessor.value, x))
    && (forall f :: f in n.fingers && f.Some? ==> f.value in joined || f.value == x)
  }

  ghost predicate ExchangeOk(joined: set<Id>, before: set<(Id, Id)>, n: Node, e: Exchange) {
    && n.successor.Some?
    && (e.Answered? && e.reply.Some? ==> Respects(joined, before, e.reply.value, n.successor.value))
  }

  ghost predicate PacketOk(joined: set<Id>, before: set<(Id, Id)>, p: Packet) {
    match p.msg
    case FindSuccessor(_, _) => p.dst in joined
    case FindReply(owner) => owner in joined
    case Notify => Respects(joined, before, p.src, p.dst)
    case Transfer(_) => true
    case Insert(_, _) => true
  }

  /** Every recorded pointer and every message respects `before`, the paths of the joined nodes. */
  ghost predicate Facts(net: Net, joined: set<Id>, before: set<(Id, Id)>) {
    && (forall y :: y in joined ==> y in net.nodes)
    && NodesOk(net.size, net.nodes, joined, before)
    && AskingOk(net.nodes, net.asking, joined, before)
    && (forall p :: p in net.wire ==> PacketOk(joined, before, p))
  }

  ghost predicate NodesOk(size: nat, nodes: map<Id, Node>, joined: set<Id>, before: set<(Id, Id)>) {
    forall x {:trigger NodeOk(size, joined, before, x, nodes[x])} :: x in nodes ==>
      NodeOk(size, joined, before, x, nodes[x])
  }

  ghost predicate AskingOk(nodes: map<Id, Node>, asking: map<Id, Exchange>, joined: set<Id>, before: set<(Id, Id)>) {
    && (forall x :: x in asking ==> x in nodes)
    && forall x {:trigger ExchangeOk(joined, before, nodes[x], asking[x])} :: x in asking ==>
         ExchangeOk(joined, before, nodes[x], asking[x])
  }

  /** What the founders keep: they reach each other, and everybody leads to the first of them. */
  ghost predicate Anchored(size: nat, succ: Links, a: Id, b: Id)
    requires Closed(size, succ)
  {
    Mutual(size, succ, a, b) && AllLeadTo(succ, a)
  }

  ghost predicate Inv(net: Net, a: Id, b: Id) {
    var succ := Succ(net);
    && Closed(net.size, succ)
    && Anchored(net.size, succ, a, b)
    && Facts(net, succ.Keys, Before(net.size, succ))
  }

  // Building blocks of the steps, over arbitrary paths.

  lemma SendFacts(net: Net, src: Id, dst: Id, msg: Message, joined: set<Id>, before: set<(Id, Id)>)
    requires Facts(net, joined, before) && PacketOk(joined, before, Packet(src, dst, msg))
    ensures Facts(Send(net, src, dst, msg), joined, before)
  {
  }

  lemma TakeFacts(net: Net, p: Packet, joined: set<Id>, before: set<(Id, Id)>)
    requires Facts(net, joined, before)
    ensures Facts(Take(net, p), joined, before)
  {
  }

  lemma StopFacts(net: Net, x: Id, joined: set<Id>, before: set<(Id, Id)>)
    requires Facts(net, joined, before)
    ensures Facts(Stop(net, x), joined, before)
  {
  }

  lemma SetNodesOk(size: nat, nodes: map<Id, Node>, n: Node, joined: set<Id>, before: set<(Id, Id)>)
    requires NodesOk(size, nodes, joined, before) && NodeOk(size, joined, before, n.id, n)
    ensures NodesOk(size, nodes[n.id := n], joined, before)
  {
  }

  lemma SetAskingOk(nodes: map<Id, Node>, asking: map<Id, Exchange>, n: Node, joined: set<Id>, before: set<(Id, Id)>)
    requires AskingOk(nodes, asking, joined, before)
    requires n.id in nodes ==> n.successor == nodes[n.id].successor
    ensures AskingOk(nodes[n.id := n], asking, joined, before)
  {
    var nodes' := nodes[n.id := n];
    forall x | x in asking ensures ExchangeOk(joined, before, nodes'[x], asking[x]) {
      assert ExchangeOk(joined, before, nodes[x], asking[x]);
    }
  }

  lemma SetNodeFacts(net: Net, n: Node, joined: set<Id>, before: set<(Id, Id)>)
    requires Facts(net, joined, before) && NodeOk(net.size, joined, before, n.id, n)
    requires n.id in net.nodes ==> n.successor == net.nodes[n.id].successor
    ensures Facts(SetNode(net, n), joined, before)
  {
    SetNodesOk(net.size, net.nodes, n, joined, before);
    SetAskingOk(net.nodes, net.asking, n, joined, before);
  }

  /** Linking a node to a new successor, by joining or by adopting, over a graph that has grown. */
  lemma LinkFacts(net: Net, n: Node, joined: set<Id>, before: set<(Id, Id)>,
                  joined': set<Id>, before': set<(Id, Id)>)
    requires Facts(net, joined, before) && n.id in net.nodes && n.id !in net.asking
    requires joined' == joined + {n.id} && before <= before'
    requires n == net.nodes[n.id].(successor := n.successor) && n.successor.Some?
    requires n.successor.value in joined && n.successor.value != n.id
    ensures Facts(SetNode(net, n), joined', before')
  {
    var net' := SetNode(net, n);
    forall x | x in net'.nodes ensures NodeOk(net.size, joined', before', x, net'.nodes[x]) {
      assert NodeOk(net.size, joined, before, x, net.nodes[x]);
    }
    forall x | x in net'.asking ensures x in net'.nodes && ExchangeOk(joined', before', net'.nodes[x], net'.asking[x]) {
      assert ExchangeOk(joined, before, net.nodes[x], net.asking[x]);
    }
    forall p | p in net'.wire ensures PacketOk(joined', before', p) {
      assert PacketOk(joined, before, p);
    }
  }

  lemma SendNextFacts(net: Net, at: Id, source: Id, key: Id, next: Hop, joined: set<Id>, before: set<(Id, Id)>)
    requires Facts(net, joined, before)
    requires match next case Reply(owner) => owner in joined case Relay(to) => to in joined
    ensures Facts(SendNext(net, at, source, key, next), joined, before)
  {
    match next
    case Reply(owner) => SendFacts(net, at, source, FindReply(owner), joined, before);
    case Relay(to) => SendFacts(net, at, to, FindSuccessor(source, key), joined, before);
  }

  /** The routing decisions of a joined node name joined nodes. */
  lemma RouteIsJoined(size: nat, joined: set<Id>, before: set<(Id, Id)>, n: Node, key: Id)
    requires NodeOk(size, joined, before, n.id, n) && n.id in joined
    ensures match Route(n, key) case Reply(owner) => owner in joined case Relay(to) => to in joined
  {
    if Route(n, key).Relay? {
      RelayIsFinger(n, key);
    }
  }

  lemma HandleFindFacts(net: Net, p: Packet, joined: set<Id>, before: set<(Id, Id)>)
    requires Facts(net, joined, before) && Enabled(net, HandleFindSuccessor(p))
    ensures Facts(Apply(net, HandleFindSuccessor(p)), joined, before)
  {
    assert PacketOk(joined, before, p);
    var n := net.nodes[p.dst];
    assert NodeOk(net.size, joined, before, p.dst, n);
    RouteIsJoined(net.size, joined, before, n, p.msg.key);
    TakeFacts(net, p, joined, before);
    match HandleFind(n, p.msg.key)
    case FindError =>
    case FindSent(None, last) =>
      SendNextFacts(Take(net, p), p.dst, p.msg.source, p.msg.key, last, joined, before);
    case FindSent(Some(early), last) =>
      SendFacts(Take(net, p), p.dst, p.msg.source, FindReply(early), joined, before);
      SendNextFacts(Send(Take(net, p), p.dst, p.msg.source, FindReply(early)), p.dst, p.msg.source, p.msg.key,
                    last, joined, before);
  }

  lemma FixFingerFacts(net: Net, x: Id, joined: set<Id>, before: set<(Id, Id)>)
    requires Facts(net, joined, before) && Enabled(net, FixFinger(x))
    ensures Facts(Apply(net, FixFinger(x)), joined, before)
  {
    var n := net.nodes[x];
    assert NodeOk(net.size, joined, before, x, n);
    var key := FingerTarget(net.size, x, Pow2(n.fixPointer));
    if FindLocal(n, key).Relay? {
      RelayIsFinger(n, key);
    }
    match FindLocal(n, key)
    case Reply(owner) => SetNodeFacts(net, FixFingerWith(n, owner), joined, before);
    case Relay(to) => SendFacts(net, x, to, FindSuccessor(x, key), joined, before);
  }

  lemma HandleNotifyFacts(net: Net, p: Packet, joined: set<Id>, before: set<(Id, Id)>)
    requires Facts(net, joined, before) && Enabled(net, HandleNotify(p))
    ensures Facts(Apply(net, HandleNotify(p)), joined, before)
  {
    var n := net.nodes[p.dst];
    assert PacketOk(joined, before, p) && NodeOk(net.size, joined, before, p.dst, n);
    TakeFacts(net, p, joined, before);
    SetNodeFacts(Take(net, p), Notified(n, p.src), joined, before);
    if HandOver(n, p.src).Some? {
      SendFacts(SetNode(Take(net, p), Notified(n, p.src)), p.dst, p.src, Transfer(HandOver(n, p.src).value),
                joined, before);
    }
  }

  lemma AnswerAskFacts(net: Net, x: Id, joined: set<Id>, before: set<(Id, Id)>)
    requires Facts(net, joined, before) && Enabled(net, AnswerAsk(x))
    ensures Facts(Apply(net, AnswerAsk(x)), joined, before)
  {
    var s := net.nodes[x].successor.value;
    assert NodeOk(net.size, joined, before, s, net.nodes[s]);
  }

  /** The successor a step gives to a node, if it gives one. */
  ghost function NewLink(net: Net, e: Event): (r: Option<(Id, Id)>)
    requires Enabled(net, e)
  {
    match e
    case HandleFindReply(p, _) =>
      if net.nodes[p.dst].successor.None? && p.msg.owner != p.dst then Some((p.dst, p.msg.owner)) else None
    case FinishStabilize(x) =>
      var n := Adopt(net.nodes[x], net.asking[x].reply);
      if n != net.nodes[x] then Some((x, n.successor.value)) else None
    case _ => None
  }

  /** A step that links nothing keeps all facts over the same paths. */
  lemma QuietStepFacts(net: Net, e: Event, joined: set<Id>, before: set<(Id, Id)>)
    requires Facts(net, joined, before) && Enabled(net, e) && NewLink(net, e).None?
    requires e.FinishStabilize? ==> (e.n, net.nodes[e.n].successor.value) in before
    ensures Facts(Apply(net, e), joined, before)
  {
    match e
    case BeginJoin(n, member) =>
      assert NodeOk(net.size, joined, before, member, net.nodes[member]);
      SetNodeFacts(net, FreshNode(n, net.bits), joined, before);
      SendFacts(SetNode(net, FreshNode(n, net.bits)), n, member, FindSuccessor(n, n), joined, before);
    case HandleFindSuccessor(p) => HandleFindFacts(net, p, joined, before);
    case HandleFindReply(p, fixing) =>
      assert PacketOk(joined, before, p) && NodeOk(net.size, joined, before, p.dst, net.nodes[p.dst]);
      TakeFacts(net, p, joined, before);
      if net.nodes[p.dst].successor.Some? && fixing {
        SetNodeFacts(Take(net, p), FixFingerWith(net.nodes[p.dst], p.msg.owner), joined, before);
      }
    case FixFinger(x) => FixFingerFacts(net, x, joined, before);
    case Stabilize(x) =>
    case AnswerAsk(x) => AnswerAskFacts(net, x, joined, before);
    case FinishStabilize(x) =>
      assert NodeOk(net.size, joined, before, x, net.nodes[x]);
      SetNodeFacts(net, net.nodes[x], joined, before);
      StopFacts(SetNode(net, net.nodes[x]), x, joined, before);
      SendFacts(Stop(SetNode(net, net.nodes[x]), x), x, net.nodes[x].successor.value, Notify, joined, before);
    case TimeOut(x) => StopFacts(net, x, joined, before);
    case HandleNotify(p) => HandleNotifyFacts(net, p, joined, before);
    case HandleTransfer(p) =>
      assert NodeOk(net.size, joined, before, p.dst, net.nodes[p.dst]);
      TakeFacts(net, p, joined, before);
      SetNodeFacts(Take(net, p), ReceiveKeys(net.nodes[p.dst], p.msg.data), joined, before);
    case Put(n, key, value, dest) =>
      if dest == n {
        assert NodeOk(net.size, joined, before, n, net.nodes[n]);
        SetNodeFacts(net, InsertKey(net.nodes[n], key, value), joined, before);
      } else {
        SendFacts(net, n, dest, Insert(key, value), joined, before);
      }
    case HandleInsert(p) =>
      assert NodeOk(net.size, joined, before, p.dst, net.nodes[p.dst]);
      TakeFacts(net, p, joined, before);
      SetNodeFacts(Take(net, p), InsertKey(net.nodes[p.dst], p.msg.key, p.msg.value), joined, before);
    case Lose(p) => TakeFacts(net, p, joined, before);
  }

  /** A step that links `x` to `s` keeps all facts over paths that have grown to include the link. */
  lemma LinkStepFacts(net: Net, e: Event, joined: set<Id>, before: set<(Id, Id)>, before': set<(Id, Id)>)
    requires Facts(net, joined, before) && Enabled(net, e) && NewLink(net, e).Some?
    requires before <= before' && NewLink(net, e).value in before'
    ensures Facts(Apply(net, e), joined + {NewLink(net, e).value.0}, before')
  {
    var x := NewLink(net, e).value.0;
    var joined' := joined + {x};
    assert NodeOk(net.size, joined, before, x, net.nodes[x]);
    match e
    case HandleFindReply(p, fixing) =>
      assert PacketOk(joined, before, p);
      assert x in net.asking ==> ExchangeOk(joined, before, net.nodes[x], net.asking[x]);
      TakeFacts(net, p, joined, before);
      LinkFacts(Take(net, p), JoinReply(net.nodes[x], p.msg.owner), joined, before, joined', before');
    case FinishStabilize(_) =>
      assert ExchangeOk(joined, before, net.nodes[x], net.asking[x]);
      var n := Adopt(net.nodes[x], net.asking[x].reply);
      var idle := Stop(net, x);
      StopFacts(net, x, joined, before);
      LinkFacts(idle, n, joined, before, joined', before');
      SendFacts(SetNode(idle, n), x, n.successor.value, Notify, joined', before');
      assert Apply(net, e) == Send(SetNode(idle, n), x, n.successor.value, Notify);
  }

  // ------------------------------------------------------------- the graph side

  lemma JoinKeepsLeads(size: nat, succ: Links, a: Id, n: Id, s: Id, x: Id)
    requires Closed(size, succ) && AllLeadTo(succ, a)
    requires n < size && n !in succ && s in succ && x in succ[n := s]
    ensures Closed(size, succ[n := s]) && Leads(succ[n := s], x, a)
  {
    var succ' := succ[n := s];
    LinkCloses(size, succ, n, s);
    var y := if x == n then s else x;
    var k :| Walk(succ, y, k) == a;
    JoinKeepsWalk(succ, n, s, y, k);
    if x == n {
      NextLeads(succ', n);
      LeadsTransitive(succ', n, s, a);
    }
  }

  lemma JoinKeepsAnchor(size: nat, succ: Links, a: Id, b: Id, n: Id, s: Id)
    requires Closed(size, succ) && Anchored(size, succ, a, b)
    requires n < size && n !in succ && s in succ
    ensures Closed(size, succ[n := s]) && Anchored(size, succ[n := s], a, b)
  {
    JoinKeepsReaches(size, succ, n, s, a, b);
    JoinKeepsReaches(size, succ, n, s, b, a);
    var succ' := succ[n := s];
    forall x | x in succ' ensures Leads(succ', x, a) {
      JoinKeepsLeads(size, succ, a, n, s, x);
    }
  }

  lemma JoinKeepsBefore(size: nat, succ: Links, n: Id, s: Id)
    requires Closed(size, succ) && n < size && n !in succ && s in succ
    ensures Closed(size, succ[n := s]) && Before(size, succ) <= Before(size, succ[n := s])
  {
    LinkCloses(size, succ, n, s);
    forall u, v | (u, v) in Before(size, succ) ensures (u, v) in Before(size, succ[n := s]) {
      JoinKeepsReaches(size, succ, n, s, u, v);
    }
  }

  lemma AdoptKeepsAnchor(size: nat, succ: Links, a: Id, b: Id, x: Id, p: Id)
    requires Closed(size, succ) && Anchored(size, succ, a, b)
    requires x in succ && p in succ && Reaches(size, succ, p, Next(succ, x)) && Between(p, x, Next(succ, x))
    ensures Closed(size, succ[x := p]) && Anchored(size, succ[x := p], a, b)
  {
    AdoptKeepsReaches(size, succ, x, p, a, b);
    AdoptKeepsReaches(size, succ, x, p, b, a);
    var succ' := succ[x := p];
    forall u | u in succ' ensures Leads(succ', u, a) {
      var k :| Walk(succ, u, k) == a;
      AdoptKeepsLeads(size, succ, x, p, u, k);
    }
  }

  lemma AdoptKeepsBefore(size: nat, succ: Links, x: Id, p: Id)
    requires Closed(size, succ)
    requires x in succ && p in succ && Reaches(size, succ, p, Next(succ, x)) && Between(p, x, Next(succ, x))
    ensures Closed(size, succ[x := p]) && Before(size, succ) <= Before(size, succ[x := p])
  {
    BetweenIsDistance(size, p, x, Next(succ, x));
    LinkCloses(size, succ, x, p);
    forall u, v | (u, v) in Before(size, succ) ensures (u, v) in Before(size, succ[x := p]) {
      AdoptKeepsReaches(size, succ, x, p, u, v);
    }
  }

  lemma NextIsBefore(size: nat, succ: Links, x: Id)
    requires Closed(size, succ) && x in succ
    ensures (x, Next(succ, x)) in Before(size, succ)
  {
    assert Reaches(size, succ, Next(succ, x), Next(succ, x));
    assert Reaches(size, succ, x, Next(succ, x));
  }

  /** The graph after a new link; `None` links nothing. */
  ghost function Relinked(succ: Links, link: Option<(Id, Id)>): (r: Links) {
    match link case None => succ case Some((x, s)) => succ[x := s]
  }

  /** A link that a step may add: a newcomer's, or to a node in between that reaches the old successor. */
  ghost predicate LinkOk(size: nat, succ: Links, x: Id, s: Id)
    requires Closed(size, succ)
  {
    && s in succ && x < size && s != x
    && (x in succ ==> (s, Next(succ, x)) in Before(size, succ) && Between(s, x, Next(succ, x)))
  }

  /** Adding such a link keeps every path without overshooting. */
  lemma LinkKeepsPaths(size: nat, succ: Links, x: Id, s: Id, a: Id, b: Id)
    requires Closed(size, succ) && Anchored(size, succ, a, b) && LinkOk(size, succ, x, s)
    ensures Closed(size, succ[x := s]) && Anchored(size, succ[x := s], a, b)
    ensures Before(size, succ) <= Before(size, succ[x := s])
    ensures (x, s) in Before(size, succ[x := s])
  {
    if x in succ {
      AdoptKeepsAnchor(size, succ, a, b, x, s);
      AdoptKeepsBefore(size, succ, x, s);
    } else {
      JoinKeepsAnchor(size, succ, a, b, x, s);
      JoinKeepsBefore(size, succ, x, s);
    }
    NextIsBefore(size, succ[x := s], x);
  }

  lemma SuccSetNode(net: Net, n: Node)
    ensures Succ(SetNode(net, n)) ==
            if n.successor.Some? then Succ(net)[n.id := n.successor.value] else Succ(net) - {n.id}
  {
  }

  lemma SuccSameNodes(net: Net, net': Net)
    requires net'.nodes == net.nodes
    ensures Succ(net') == Succ(net)
  {
  }

  /** How the nodes change in one step. */
  ghost function StepNode(net: Net, e: Event): (r: Option<Node>)
    requires Enabled(net, e)
  {
    match e
    case BeginJoin(n, member) => Some(FreshNode(n, net.bits))
    case HandleFindReply(p, fixing) =>
      var n := net.nodes[p.dst];
      Some(if n.successor.None? then JoinReply(n, p.msg.owner)
           else if fixing then FixFingerWith(n, p.msg.owner) else n)
    case FixFinger(x) =>
      var n := net.nodes[x];
      (match FindLocal(n, FingerTarget(net.size, x, Pow2(n.fixPointer)))
       case Reply(owner) => Some(FixFingerWith(n, owner))
       case Relay(_) => None)
    case FinishStabilize(x) => Some(Adopt(net.nodes[x], net.asking[x].reply))
    case HandleNotify(p) => Some(Notified(net.nodes[p.dst], p.src))
    case HandleTransfer(p) => Some(ReceiveKeys(net.nodes[p.dst], p.msg.data))
    case Put(n, key, value, dest) => if dest == n then Some(InsertKey(net.nodes[n], key, value)) else None
    case HandleInsert(p) => Some(InsertKey(net.nodes[p.dst], p.msg.key, p.msg.value))
    case _ => None
  }

  ghost predicate Named(net: Net) {
    forall x {:trigger net.nodes[x]} :: x in net.nodes ==> net.nodes[x].id == x
  }

  /** The nodes after a step. */
  ghost function NodesAfter(net: Net, e: Event): (r: map<Id, Node>)
    requires Enabled(net, e)
  {
    match StepNode(net, e) case None => net.nodes case Some(n) => net.nodes[n.id := n]
  }

  lemma FindStepNodes(net: Net, p: Packet)
    requires Enabled(net, HandleFindSuccessor(p))
    ensures var net' := Apply(net, HandleFindSuccessor(p));
            net'.nodes == net.nodes && net'.size == net.size && net'.bits == net.bits
  {
    var sent := HandleFind(net.nodes[p.dst], p.msg.key);
    if sent.FindSent? {
      var after := if sent.early.None? then Take(net, p)
                   else Send(Take(net, p), p.dst, p.msg.source, FindReply(sent.early.value));
      assert Apply(net, HandleFindSuccessor(p)) == SendNext(after, p.dst, p.msg.source, p.msg.key, sent.last);
    }
  }

  lemma ReplyStepNodes(net: Net, p: Packet, fixing: bool)
    requires Enabled(net, HandleFindReply(p, fixing)) && net.nodes[p.dst].id == p.dst
    ensures var e := HandleFindReply(p, fixing); var net' := Apply(net, e);
            net'.nodes == NodesAfter(net, e) && net'.size == net.size && net'.bits == net.bits
  {
    var n := net.nodes[p.dst];
    assert net.nodes[p.dst := n] == net.nodes;
  }

  lemma FixStepNodes(net: Net, x: Id)
    requires Enabled(net, FixFinger(x)) && net.nodes[x].id == x
    ensures var e := FixFinger(x); var net' := Apply(net, e);
            net'.nodes == NodesAfter(net, e) && net'.size == net.size && net'.bits == net.bits
  {
  }

  lemma NotifyStepNodes(net: Net, p: Packet)
    requires Enabled(net, HandleNotify(p)) && net.nodes[p.dst].id == p.dst
    ensures var e := HandleNotify(p); var net' := Apply(net, e);
            net'.nodes == NodesAfter(net, e) && net'.size == net.size && net'.bits == net.bits
  {
  }

  lemma StepNodes(net: Net, e: Event)
    requires Enabled(net, e) && Named(net)
    ensures Apply(net, e).size == net.size && Apply(net, e).bits == net.bits
    ensures Apply(net, e).nodes == NodesAfter(net, e)
  {
    match e
    case HandleFindSuccessor(p) => FindStepNodes(net, p);
    case HandleFindReply(p, fixing) => ReplyStepNodes(net, p, fixing);
    case FixFinger(x) => FixStepNodes(net, x);
    case HandleNotify(p) => NotifyStepNodes(net, p);
    case _ =>
  }

  /** A new link is exactly a changed successor. */
  lemma NewLinkOfNode(net: Net, e: Event)
    requires Enabled(net, e) && Named(net)
    ensures match StepNode(net, e)
            case None => NewLink(net, e).None?
            case Some(n) =>
              if n.successor == (if n.id in net.nodes then net.nodes[n.id].successor else None)
              then NewLink(net, e).None?
              else n.successor.Some? && NewLink(net, e) == Some((n.id, n.successor.value))
  {
    match e
    case HandleFindReply(p, fixing) => assert net.nodes[p.dst].id == p.dst;
    case FinishStabilize(x) => assert net.nodes[x].id == x;
    case _ =>
  }

  lemma StepSucc(net: Net, e: Event)
    requires Enabled(net, e) && Named(net)
    ensures Succ(Apply(net, e)) == Relinked(Succ(net), NewLink(net, e))
  {
    StepNodes(net, e);
    NewLinkOfNode(net, e);
    match StepNode(net, e)
    case None => SuccSameNodes(net, Apply(net, e));
    case Some(n) =>
      SuccSameNodes(SetNode(net, n), Apply(net, e));
      SuccSetNode(net, n);
  }

  lemma NewLinkShape(net: Net, e: Event, joined: set<Id>, before: set<(Id, Id)>)
    requires Facts(net, joined, before) && Enabled(net, e) && NewLink(net, e).Some?
    ensures var (x, s) := NewLink(net, e).value;
            && x in net.nodes && s in joined && x < net.size && s != x
            && (net.nodes[x].successor.Some? ==>
                  (s, net.nodes[x].successor.value) in before && Between(s, x, net.nodes[x].successor.value))
  {
    match e
    case HandleFindReply(p, _) =>
      assert PacketOk(joined, before, p) && NodeOk(net.size, joined, before, p.dst, net.nodes[p.dst]);
    case FinishStabilize(x) =>
      assert NodeOk(net.size, joined, before, x, net.nodes[x]);
      assert ExchangeOk(joined, before, net.nodes[x], net.asking[x]);
  }

  lemma StepFacts(net: Net, e: Event, joined: set<Id>, before: set<(Id, Id)>,
                  joined': set<Id>, before': set<(Id, Id)>)
    requires Facts(net, joined, before) && Enabled(net, e)
    requires before <= before'
    requires match NewLink(net, e)
             case Some((x, s)) => joined' == joined + {x} && (x, s) in before'
             case None => joined' == joined && (e.FinishStabilize? ==> (e.n, net.nodes[e.n].successor.value) in before)
    ensures Facts(Apply(net, e), joined', before')
  {
    match NewLink(net, e)
    case Some((x, s)) => LinkStepFacts(net, e, joined, before, before');
    case None =>
      QuietStepFacts(net, e, joined, before);
      FactsGrow(Apply(net, e), joined, before, before');
  }

  lemma FactsGrow(net: Net, joined: set<Id>, before: set<(Id, Id)>, before': set<(Id, Id)>)
    requires Facts(net, joined, before) && before <= before'
    ensures Facts(net, joined, before')
  {
    forall x | x in net.nodes ensures NodeOk(net.size, joined, before', x, net.nodes[x]) {
      assert NodeOk(net.size, joined, before, x, net.nodes[x]);
    }
    forall x | x in net.asking ensures ExchangeOk(joined, before', net.nodes[x], net.asking[x]) {
      assert ExchangeOk(joined, before, net.nodes[x], net.asking[x]);
    }
    forall p | p in net.wire ensures PacketOk(joined, before', p) {
      assert PacketOk(joined, before, p);
    }
  }

  lemma FactsNamed(net: Net, joined: set<Id>, before: set<(Id, Id)>)
    requires Facts(net, joined, before)
    ensures Named(net)
  {
    forall x | x in net.nodes ensures net.nodes[x].id == x {
      assert NodeOk(net.size, joined, before, x, net.nodes[x]);
    }
  }

  lemma NewLinkOk(net: Net, e: Event, a: Id, b: Id)
    requires Inv(net, a, b) && Enabled(net, e) && NewLink(net, e).Some?
    ensures LinkOk(net.size, Succ(net), NewLink(net, e).value.0, NewLink(net, e).value.1)
  {
    NewLinkShape(net, e, Succ(net).Keys, Before(net.size, Succ(net)));
  }

  /** The graph side of a step. */
  lemma StepGraph(size: nat, succ: Links, link: Option<(Id, Id)>, a: Id, b: Id)
    requires Closed(size, succ) && Anchored(size, succ, a, b)
    requires link.Some? ==> LinkOk(size, succ, link.value.0, link.value.1)
    ensures var succ' := Relinked(succ, link);
            && Closed(size, succ') && Anchored(size, succ', a, b)
            && Before(size, succ) <= Before(size, succ')
            && (link.Some? ==> link.value in Before(size, succ') && succ'.Keys == succ.Keys + {link.value.0})
  {
    if link.Some? {
      LinkKeepsPaths(size, succ, link.value.0, link.value.1, a, b);
    }
  }

  /** Every step keeps every path without overshooting, and the founders' anchor. */
  lemma StepKeepsPaths(net: Net, e: Event, a: Id, b: Id)
    requires Inv(net, a, b) && Enabled(net, e)
    ensures Succ(Apply(net, e)) == Relinked(Succ(net), NewLink(net, e))
    ensures Closed(net.size, Succ(Apply(net, e))) && Anchored(net.size, Succ(Apply(net, e)), a, b)
    ensures Before(net.size, Succ(net)) <= Before(net.size, Succ(Apply(net, e)))
    ensures NewLink(net, e).Some? ==> NewLink(net, e).value in Before(net.size, Succ(Apply(net, e)))
  {
    FactsNamed(net, Succ(net).Keys, Before(net.size, Succ(net)));
    StepSucc(net, e);
    if NewLink(net, e).Some? {
      NewLinkOk(net, e, a, b);
    }
    StepGraph(net.size, Succ(net), NewLink(net, e), a, b);
  }

  /** The facts a step keeps, given what it does to the graph. */
  lemma StepKeepsFacts(net: Net, e: Event, succ: Links, succ': Links, before: set<(Id, Id)>, before': set<(Id, Id)>)
    requires Enabled(net, e) && Facts(net, succ.Keys, before) && before <= before'
    requires succ' == Relinked(succ, NewLink(net, e))
    requires NewLink(net, e).Some? ==> NewLink(net, e).value in before'
    requires e.FinishStabilize? ==> e.n in succ && (e.n, Next(succ, e.n)) in before
    requires e.FinishStabilize? ==> Next(succ, e.n) == net.nodes[e.n].successor.value
    ensures Facts(Apply(net, e), succ'.Keys, before')
  {
    StepFacts(net, e, succ.Keys, before, succ'.Keys, before');
  }

  lemma SuccOf(net: Net, x: Id)
    requires x in net.nodes && net.nodes[x].successor.Some?
    ensures x in Succ(net) && Succ(net)[x] == net.nodes[x].successor.value
  {
  }

  /** Every step keeps the invariant. */
  lemma StepKeepsInv(net: Net, e: Event, a: Id, b: Id)
    requires Inv(net, a, b) && Enabled(net, e)
    ensures Inv(Apply(net, e), a, b)
  {
    var succ, succ' := Succ(net), Succ(Apply(net, e));
    StepKeepsPaths(net, e, a, b);
    FactsNamed(net, succ.Keys, Before(net.size, succ));
    StepNodes(net, e);
    if e.FinishStabilize? {
      SuccOf(net, e.n);
      NextIsBefore(net.size, succ, e.n);
    }
    StepKeepsFacts(net, e, succ, succ', Before(net.size, succ), Before(net.size, succ'));
  }

  lemma PairIsAnchored(size: nat, a: Id, b: Id)
    requires a < size && b < size && a != b
    ensures var succ := map[a := b, b := a];
            && Closed(size, succ) && Anchored(size, succ, a, b)
            && (a, b) in Before(size, succ) && (b, a) in Before(size, succ)
  {
    var succ := map[a := b, b := a];
    assert Closed(size, succ);
    NextIsBefore(size, succ, a);
    NextIsBefore(size, succ, b);
    assert Walk(succ, a, 0) == a;
    NextLeads(succ, b);
  }

  lemma FoundedFacts(net: Net, a: Id, b: Id, before: set<(Id, Id)>)
    requires Founded(net, a, b) && (a, b) in before && (b, a) in before
    ensures Facts(net, {a, b}, before)
  {
  }

  lemma FoundedInv(net: Net, a: Id, b: Id)
    requires Founded(net, a, b)
    ensures Inv(net, a, b)
  {
    PairIsAnchored(net.size, a, b);
    assert Succ(net) == map[a := b, b := a];
    assert Succ(net).Keys == {a, b};
    FoundedFacts(net, a, b, Before(net.size, Succ(net)));
  }

  /** The invariant holds throughout every run. */
  lemma {:induction false} RunKeepsInv(net: Net, events: seq<Event>, a: Id, b: Id)
    requires Inv(net, a, b) && CanRun(net, events)
    ensures Inv(Final(net, events), a, b)
    decreases |events|
  {
    if events != [] {
      StepKeepsInv(net, events[0], a, b);
      RunKeepsInv(Apply(net, events[0]), events[1..], a, b);
    }
  }

  /**
    In every run from the founding pair, a node that once could be reached from another by
    following successors without overshooting can be reached so ever after.
   */
  lemma {:induction false} ReachabilityIsForever(net: Net, events: seq<Event>, a: Id, b: Id, x: Id, y: Id)
    requires Inv(net, a, b) && CanRun(net, events)
    requires (x, y) in Before(net.size, Succ(net))
    ensures Closed(net.size, Succ(Final(net, events)))
    ensures (x, y) in Before(net.size, Succ(Final(net, events)))
    decreases |events|
  {
    if events != [] {
      StepKeepsPaths(net, events[0], a, b);
      StepKeepsInv(net, events[0], a, b);
      FactsNamed(net, Succ(net).Keys, Before(net.size, Succ(net)));
      StepNodes(net, events[0]);
      ReachabilityIsForever(Apply(net, events[0]), events[1..], a, b, x, y);
    }
  }

  // ------------------------------------------------------------------ the keys

  ghost predicate Carries(p: Packet, key: Id) {
    match p.msg
    case Transfer(data) => key in data
    case Insert(k, _) => k == key
    case _ => false
  }

  /** Some store or some message in flight holds the key. */
  ghost predicate Holds(net: Net, key: Id) {
    || (exists x :: x in net.nodes && key in net.nodes[x].store)
    || (exists p :: p in net.wire && Carries(p, key))
  }

  /** The packet a step takes off the wire. */
  function Handled(e: Event): (r: Option<Packet>) {
    match e
    case HandleFindSuccessor(p) => Some(p)
    case HandleFindReply(p, _) => Some(p)
    case HandleNotify(p) => Some(p)
    case HandleTransfer(p) => Some(p)
    case HandleInsert(p) => Some(p)
    case Lose(p) => Some(p)
    case _ => None
  }

  lemma TakeKeeps(net: Net, q: Packet, p: Packet)
    requires p in net.wire && p != q
    ensures p in Take(net, q).wire
  {
  }

  lemma SendKeeps(net: Net, src: Id, dst: Id, msg: Message, p: Packet)
    requires p in net.wire
    ensures p in Send(net, src, dst, msg).wire
  {
  }

  lemma SendNextKeeps(net: Net, at: Id, source: Id, key: Id, next: Hop, p: Packet)
    requires p in net.wire
    ensures p in SendNext(net, at, source, key, next).wire
  {
  }

  lemma FindStepWire(net: Net, q: Packet, p: Packet)
    requires Enabled(net, HandleFindSuccessor(q)) && p in net.wire && p != q
    ensures p in Apply(net, HandleFindSuccessor(q)).wire
  {
    TakeKeeps(net, q, p);
    match HandleFind(net.nodes[q.dst], q.msg.key)
    case FindError =>
    case FindSent(None, last) => SendNextKeeps(Take(net, q), q.dst, q.msg.source, q.msg.key, last, p);
    case FindSent(Some(early), last) =>
      SendKeeps(Take(net, q), q.dst, q.msg.source, FindReply(early), p);
      SendNextKeeps(Send(Take(net, q), q.dst, q.msg.source, FindReply(early)), q.dst, q.msg.source, q.msg.key, last, p);
  }

  lemma StepWire(net: Net, e: Event, p: Packet)
    requires Enabled(net, e) && p in net.wire && Handled(e) != Some(p)
    ensures p in Apply(net, e).wire
  {
    if e.HandleFindSuccessor? {
      FindStepWire(net, e.p, p);
    } else if Handled(e).Some? {
      TakeKeeps(net, e.p, p);
      if e.HandleNotify? && HandOver(net.nodes[e.p.dst], e.p.src).Some? {
        var n := net.nodes[e.p.dst];
        SendKeeps(SetNode(Take(net, e.p), Notified(n, e.p.src)), e.p.dst, e.p.src,
                  Transfer(HandOver(n, e.p.src).value), p);
      }
    }
  }

  /** Only a notify takes a key out of a store. */
  lemma StoresGrow(net: Net, e: Event, x: Id, key: Id)
    requires Enabled(net, e) && Named(net) && x in net.nodes && key in net.nodes[x].store
    requires !e.HandleNotify?
    ensures x in NodesAfter(net, e) && key in NodesAfter(net, e)[x].store
  {
    match e
    case FixFinger(y) =>
    case HandleFindReply(p, fixing) =>
    case _ =>
  }

  /** A notify moves the keys it takes out of a store into its transfer message. */
  lemma NotifyMovesKeys(net: Net, p: Packet, x: Id, key: Id)
    requires Enabled(net, HandleNotify(p)) && net.nodes[p.dst].id == p.dst && x in net.nodes && key in net.nodes[x].store
    ensures Holds(Apply(net, HandleNotify(p)), key)
  {
    var n, net' := net.nodes[p.dst], Apply(net, HandleNotify(p));
    NotifyStepNodes(net, p);
    if x == p.dst && key !in Notified(n, p.src).store {
      var t := Packet(p.dst, p.src, Transfer(HandOver(n, p.src).value));
      assert t in net'.wire && Carries(t, key);
    } else {
      assert x in net'.nodes && key in net'.nodes[x].store;
    }
  }

  lemma StepKeepsStored(net: Net, e: Event, x: Id, key: Id)
    requires Enabled(net, e) && Named(net) && x in net.nodes && key in net.nodes[x].store
    ensures Holds(Apply(net, e), key)
  {
    if e.HandleNotify? {
      NotifyMovesKeys(net, e.p, x, key);
    } else {
      StepNodes(net, e);
      StoresGrow(net, e, x, key);
    }
  }

  /** No step makes a key vanish from the stores and the messages in flight. */
  lemma StepKeepsKey(net: Net, e: Event, key: Id)
    requires Enabled(net, e) && Named(net) && Holds(net, key)
    ensures Holds(Apply(net, e), key)
  {
    var net' := Apply(net, e);
    if x :| x in net.nodes && key in net.nodes[x].store {
      StepKeepsStored(net, e, x, key);
    } else {
      var p :| p in net.wire && Carries(p, key);
      if Handled(e) == Some(p) {
        StepNodes(net, e);
        assert p.dst in net'.nodes && key in net'.nodes[p.dst].store;
      } else {
        StepWire(net, e, p);
      }
    }
  }

  /** In every run, a key once held is held ever after. */
  lemma {:induction false} KeysAreForever(net: Net, events: seq<Event>, a: Id, b: Id, key: Id)
    requires Inv(net, a, b) && CanRun(net, events) && Holds(net, key)
    ensures Holds(Final(net, events), key)
    decreases |events|
  {
    if events != [] {
      FactsNamed(net, Succ(net).Keys, Before(net.size, Succ(net)));
      StepKeepsKey(net, events[0], key);
      StepKeepsInv(net, events[0], a, b);
      KeysAreForever(Apply(net, events[0]), events[1..], a, b, key);
    }
  }
}
