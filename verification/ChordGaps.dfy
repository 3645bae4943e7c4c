/**
  Why rest alone is not enough: two networks of three nodes, reached from the founders 0 and 4 by one
  join and stabilization. In the first no FixFinger call has been made and a lookup is answered
  wrongly; in the second the keys of the new node are still on their way, and overwrite a newer Put.
 */
module ChordGaps {
  import opened Wrappers
  import opened Circle
  import opened ChordNode
  import opened ChordNetwork
  import opened ChordConvergence
  import opened ChordLookup
  import opened ChordFingers
  import opened ChordRest

  const EMPTY: seq<Option<Id>> := [None, None, None]

  /** A set of networks that every step stays in. */
  ghost predicate ClosedUnder(all: iset<Net>) {
    forall net, e {:trigger Apply(net, e)} :: net in all && Enabled(net, e) ==> Apply(net, e) in all
  }

  /** Node 0, 2 or 4 with an empty finger table. */
  function Plain(x: Id, successor: Option<Id>, predecessor: Option<Id>, store: map<Id, Value>): (n: Node) {
    Node(x, successor, predecessor, EMPTY, 0, store)
  }

  function Ring(zero: Node, two: Node, four: Node, wire: multiset<Packet>): (net: Net) {
    Net(3, 8, map[0 := zero, 2 := two, 4 := four], map[], wire)
  }

  /** The founders 0 and 4, the second with some keys. */
  function Pair(s: map<Id, Value>): (net: Net) {
    Net(3, 8, map[0 := Plain(0, Some(4), Some(4), map[]), 4 := Plain(4, Some(0), Some(0), s)], map[], multiset{})
  }

  /** The ring of 0, 2 and 4 with ideal pointers. */
  function Resting(two: map<Id, Value>, four: map<Id, Value>, wire: multiset<Packet>): (net: Net) {
    Ring(Plain(0, Some(2), Some(4), map[]), Plain(2, Some(4), Some(0), two), Plain(4, Some(0), Some(2), four), wire)
  }

  const ASK := Packet(2, 0, FindSuccessor(2, 2))
  const REPLY := Packet(0, 2, FindReply(4))

  function Joining(s: map<Id, Value>, successor: Option<Id>, wire: multiset<Packet>): (net: Net) {
    Ring(Plain(0, Some(4), Some(4), map[]), Plain(2, successor, None, map[]), Plain(4, Some(0), Some(0), s), wire)
  }

  /** Node 2 joins through node 0. */
  lemma JoinBegins(all: iset<Net>, s: map<Id, Value>)
    requires ClosedUnder(all) && Pair(s) in all
    ensures Joining(s, None, multiset{ASK}) in all
  {
    assert FreshNode(2, 3) == Plain(2, None, None, map[]);
    var net := Apply(Pair(s), BeginJoin(2, 0));
    assert net.wire == multiset{ASK};
    assert net.nodes == Joining(s, None, multiset{ASK}).nodes;
  }

  lemma JoinIsAnswered(all: iset<Net>, s: map<Id, Value>)
    requires ClosedUnder(all) && Joining(s, None, multiset{ASK}) in all
    ensures Joining(s, None, multiset{REPLY}) in all
  {
    var net := Joining(s, None, multiset{ASK});
    assert HandleFind(net.nodes[0], 2) == FindSent(None, Reply(4));
    net := Apply(net, HandleFindSuccessor(ASK));
    assert net.wire == multiset{REPLY};
  }

  /** It gets node 4 as its successor. */
  lemma JoinEnds(all: iset<Net>, s: map<Id, Value>)
    requires ClosedUnder(all) && Joining(s, None, multiset{REPLY}) in all
    ensures Joining(s, Some(4), multiset{}) in all
  {
    var net := Apply(Joining(s, None, multiset{REPLY}), HandleFindReply(REPLY, false));
    assert net.wire == multiset{};
    assert net.nodes == Joining(s, Some(4), multiset{}).nodes;
  }

  /** A Stabilize exchange of `x` up to its notify. */
  lemma Exchanges(all: iset<Net>, net: Net, x: Id) returns (r: Net)
    requires ClosedUnder(all) && net in all && net.asking == map[]
    requires x in net.nodes && net.nodes[x].id == x && net.nodes[x].successor.Some?
    requires net.nodes[x].successor.value in net.nodes
    ensures var n := Adopt(net.nodes[x], net.nodes[net.nodes[x].successor.value].predecessor);
            && r in all && n.successor.Some?
            && r == Net(net.bits, net.size, net.nodes[x := n], map[],
                        net.wire + multiset{Packet(x, n.successor.value, Notify)})
  {
    var s := net.nodes[x].successor.value;
    r := Apply(net, Stabilize(x));
    r := Apply(r, AnswerAsk(x));
    assert r == net.(asking := map[x := Answered(net.nodes[s].predecessor)]);
    r := Apply(r, FinishStabilize(x));
    assert r.asking == map[];
  }

  function HandedOver(s: map<Id, Value>): (p: Packet) {
    Packet(4, 2, Transfer(KeysIn(s, 0, 2)))
  }

  /** Node 2 stabilizes: node 4 takes it as its predecessor and hands over its keys. */
  lemma TwoStabilizes(all: iset<Net>, s: map<Id, Value>)
    requires ClosedUnder(all) && Joining(s, Some(4), multiset{}) in all
    ensures Ring(Plain(0, Some(4), Some(4), map[]), Plain(2, Some(4), None, map[]),
                 Plain(4, Some(0), Some(2), WithoutKeysIn(s, 0, 2)), multiset{HandedOver(s)}) in all
  {
    var notify := Packet(2, 4, Notify);
    var net := Exchanges(all, Joining(s, Some(4), multiset{}), 2);
    assert net.wire == multiset{notify};
    assert net.nodes == Joining(s, Some(4), multiset{}).nodes;
    net := Apply(net, HandleNotify(notify));
    assert net.wire == multiset{HandedOver(s)};
    assert net.nodes == map[0 := Plain(0, Some(4), Some(4), map[]), 2 := Plain(2, Some(4), None, map[]),
                            4 := Plain(4, Some(0), Some(2), WithoutKeysIn(s, 0, 2))];
  }

  /** Node 0 stabilizes: it takes node 2 as its successor, which closes the ring. */
  lemma ZeroStabilizes(all: iset<Net>, four: map<Id, Value>, p: Packet)
    requires ClosedUnder(all) && !p.msg.Notify?
    requires Ring(Plain(0, Some(4), Some(4), map[]), Plain(2, Some(4), None, map[]), Plain(4, Some(0), Some(2), four),
                  multiset{p}) in all
    ensures Resting(map[], four, multiset{p}) in all
  {
    var notify := Packet(0, 2, Notify);
    var net := Ring(Plain(0, Some(4), Some(4), map[]), Plain(2, Some(4), None, map[]), Plain(4, Some(0), Some(2), four),
                    multiset{p});
    net := Exchanges(all, net, 0);
    assert net.wire == multiset{p} + multiset{notify};
    assert net.nodes[0] == Plain(0, Some(2), Some(4), map[]);
    net := Apply(net, HandleNotify(notify));
    assert net.wire == multiset{p};
    assert net.nodes == Resting(map[], four, multiset{p}).nodes;
  }

  lemma PairIsFounded()
    ensures Founded(Pair(map[]), 0, 4)
  {
    assert FreshNode(0, 3) == Plain(0, None, None, map[]) && FreshNode(4, 3) == Plain(4, None, None, map[]);
  }

  lemma ReachableIsClosed() returns (all: iset<Net>)
    ensures all == (iset net | Reachable(net, 0, 4)) && ClosedUnder(all) && Pair(map[]) in all
  {
    all := iset net | Reachable(net, 0, 4);
    forall net, e {:trigger Apply(net, e)} | net in all && Enabled(net, e) ensures Apply(net, e) in all {
      ReachableStep(net, e, 0, 4);
    }
    PairIsFounded();
    assert RunsTo(Pair(map[]), [], Pair(map[]), 0, 4);
  }

  /** From the founders the ring of three closes with the keys of node 2 still on their way. */
  lemma RingCloses(all: iset<Net>, s: map<Id, Value>)
    requires ClosedUnder(all) && Pair(s) in all
    ensures Resting(map[], WithoutKeysIn(s, 0, 2), multiset{HandedOver(s)}) in all
  {
    JoinBegins(all, s);
    JoinIsAnswered(all, s);
    JoinEnds(all, s);
    TwoStabilizes(all, s);
    ZeroStabilizes(all, WithoutKeysIn(s, 0, 2), HandedOver(s));
  }

  lemma RestingIsAtRest(two: map<Id, Value>, four: map<Id, Value>, wire: multiset<Packet>)
    ensures AtRest(Resting(two, four, wire))
  {
  }

  const OLD: map<Id, Value> := map[1 := "old"]
  const LATE := Packet(4, 2, Transfer(OLD))

  /** Node 4 stores key 1 before node 2 joins. */
  lemma OldIsStored(all: iset<Net>)
    requires ClosedUnder(all) && Pair(map[]) in all
    ensures Pair(OLD) in all
  {
    var net := Apply(Pair(map[]), Put(4, 1, "old", 4));
    assert net.nodes == Pair(OLD).nodes;
  }

  lemma LateIsReachable()
    ensures Reachable(Resting(map[], map[], multiset{LATE}), 0, 4)
  {
    var all := ReachableIsClosed();
    OldIsStored(all);
    RingCloses(all, OLD);
    OldIsHandedOver();
  }

  lemma OldIsHandedOver()
    ensures HandedOver(OLD) == LATE && WithoutKeysIn(OLD, 0, 2) == map[]
  {
    assert KeysIn(OLD, 0, 2) == OLD;
  }

  /** What the store of node 2 says about key 1. */
  function Reads(net: Net): (v: Option<Value>) {
    if 2 in net.nodes then Get(net.nodes[2], 1) else None
  }

  lemma LateArrives(two: map<Id, Value>)
    ensures var net := Resting(two, map[], multiset{LATE});
            Enabled(net, HandleTransfer(LATE)) && Reads(Apply(net, HandleTransfer(LATE))) == Some("old")
  {
  }

  lemma PutArrives()
    ensures var net := Resting(map[], map[], multiset{LATE});
            && Enabled(net, Put(2, 1, "new", 2))
            && Apply(net, Put(2, 1, "new", 2)) == Resting(map[1 := "new"], map[], multiset{LATE})
  {
    var net := Resting(map[], map[], multiset{LATE});
    assert Apply(net, Put(2, 1, "new", 2)).nodes == Resting(map[1 := "new"], map[], multiset{LATE}).nodes;
  }

  lemma LateIsOutOfPlace()
    ensures var net := Resting(map[], map[], multiset{LATE});
            IsOwner(8, JoinedNodes(net).Keys, 1, 2) && !WireInPlace(net)
  {
    var net := Resting(map[], map[], multiset{LATE});
    assert JoinedNodes(net).Keys == {0, 2, 4};
    assert IsOwner(8, JoinedNodes(net).Keys, 1, 2);
    assert 1 in OLD && LATE in net.wire && !InPlace(8, JoinedNodes(net).Keys, LATE);
  }

  /**
    Rest does not make Put and Get one map: in a reachable network at rest the hand-over of key 1 to
    its owner, node 2, is still under way. Until it arrives the key reads as absent, then as "old",
    with no Put in between; and it overwrites a newer Put at the owner.
   */
  lemma LateTransferOverwrites()
    ensures var net := Resting(map[], map[], multiset{LATE});
            && Reachable(net, 0, 4) && AtRest(net)
            && IsOwner(8, JoinedNodes(net).Keys, 1, 2) && !WireInPlace(net)
            && Reads(net) == None && Enabled(net, HandleTransfer(LATE))
            && Reads(Apply(net, HandleTransfer(LATE))) == Some("old")
            && Enabled(net, Put(2, 1, "new", 2))
            && var put := Apply(net, Put(2, 1, "new", 2));
               && Reads(put) == Some("new") && Enabled(put, HandleTransfer(LATE))
               && Reads(Apply(put, HandleTransfer(LATE))) == Some("old")
  {
    LateIsReachable();
    RestingIsAtRest(map[], map[], multiset{LATE});
    LateIsOutOfPlace();
    LateArrives(map[]);
    PutArrives();
    LateArrives(map[1 := "new"]);
  }

  const AT_REST := Resting(map[], map[], multiset{})

  lemma RestIsReachable()
    ensures Reachable(AT_REST, 0, 4)
  {
    var all := ReachableIsClosed();
    RingCloses(all, map[]);
    var p := HandedOver(map[]);
    assert KeysIn(map[], 0, 2) == map[] && WithoutKeysIn(map[], 0, 2) == map[];
    var net := Apply(Resting(map[], map[], multiset{p}), HandleTransfer(p));
    assert net.wire == multiset{};
    assert net.nodes == AT_REST.nodes;
  }

  /**
    Rest is not enough: when a third node has joined and the ring is ideal, but no FixFinger call has
    been made, node 0 answers a lookup of key 3 with node 2, although node 4 owns it.
   */
  lemma RestAloneAnswersWrongly()
    ensures Reachable(AT_REST, 0, 4) && AtRest(AT_REST) && Linked(8, JoinedNodes(AT_REST))
    ensures Lookup(8, JoinedNodes(AT_REST), 0, 3) == 2 && IsOwner(8, JoinedNodes(AT_REST).Keys, 3, 4)
  {
    RestIsReachable();
    RestingIsAtRest(map[], map[], multiset{});
    RestIsReady(AT_REST, 0, 4);
    var nodes := JoinedNodes(AT_REST);
    assert nodes == AT_REST.nodes;
    assert |nodes.Keys| == |{0, 2, 4}| == 3;
    BlindNodeAnswers(8, 3, nodes, 0);
    assert IdealNode(8, nodes.Keys, nodes[2]);
    NextIdentifier(8, nodes.Keys, nodes[2]);
  }
}
