/**
  What a Chord network at rest offers. Every reachable network at rest is an ideal ring whose finger
  tables hold members or nothing; whether its lookups are right depends on the tables, and FixFinger
  calls make them right.
 */
module ChordRest {
  import opened Wrappers
  import opened Circle
  import opened ChordNode
  import opened ChordGraph
  import opened ChordNetwork
  import opened ChordConvergence
  import opened ChordLookup
  import opened ChordFingers
  import ChordKv

  ghost function JoinedNodes(net: Net): (r: Nodes) {
    map x | x in net.nodes && net.nodes[x].successor.Some? :: net.nodes[x]
  }

  /** The nodes of a reachable network at rest form an ideal ring in the sense of the lookups. */
  lemma RestIsIdealRing(net: Net, a: Id, b: Id)
    requires Reachable(net, a, b) && AtRest(net)
    ensures IdealRing(net.size, JoinedNodes(net))
  {
    ReachableRestIffIdeal(net, a, b);
    IdealHasIdealNodes(net);
    ReachableIsNamed(net, a, b);
    IdealNodesRing(net, Succ(net), JoinedNodes(net));
  }

  lemma ReachableIsNamed(net: Net, a: Id, b: Id)
    requires Reachable(net, a, b)
    ensures Named(net) && Closed(net.size, Succ(net))
  {
    ReachableInv(net, a, b);
    FactsNamed(net, Succ(net).Keys, Before(net.size, Succ(net)));
  }

  lemma IdealNodesRing(net: Net, succ: Links, nodes: Nodes)
    requires Closed(net.size, succ) && Ordered(succ) && IdealNodes(net, succ) && Named(net)
    requires nodes.Keys == succ.Keys && forall x :: x in nodes ==> x in net.nodes && nodes[x] == net.nodes[x]
    ensures IdealRing(net.size, nodes)
  {
    forall x {:trigger IdealNode(net.size, nodes.Keys, nodes[x])} | x in nodes
      ensures IdealNode(net.size, nodes.Keys, nodes[x])
    {
      IdealNeighbours(net, succ, x);
    }
  }

  lemma IdealNeighbours(net: Net, succ: Links, x: Id)
    requires Closed(net.size, succ) && Ordered(succ) && IdealNodes(net, succ) && Named(net) && x in succ
    ensures x in net.nodes && IdealNode(net.size, succ.Keys, net.nodes[x])
  {
    var n := net.nodes[x];
    assert IdealLinks(succ, x, n);
    var q := n.predecessor.value;
    assert Next(succ, x) in succ && Next(succ, q) == x;
    forall m | m in succ.Keys ensures !Between(m, x, Next(succ, x)) && !Between(m, q, x) {
      assert !Between(m, x, Next(succ, x)) && !Between(m, q, Next(succ, q));
    }
  }

  // ----------------------------------------------------------------- finger tables

  /** Every node has a table of the network's size and a position in it. */
  ghost predicate TablesOk(bits: nat, nodes: map<Id, Node>) {
    forall x {:trigger nodes[x]} :: x in nodes ==>
      |nodes[x].fingers| == bits && (bits > 0 ==> nodes[x].fixPointer < bits)
  }

  lemma StepKeepsTable(net: Net, e: Event)
    requires Enabled(net, e) && TablesOk(net.bits, net.nodes)
    ensures StepNode(net, e).Some? ==>
              var n := StepNode(net, e).value; |n.fingers| == net.bits && (net.bits > 0 ==> n.fixPointer < net.bits)
  {
  }

  lemma StepKeepsTables(net: Net, e: Event)
    requires Enabled(net, e) && Named(net) && TablesOk(net.bits, net.nodes)
    ensures Apply(net, e).bits == net.bits && TablesOk(net.bits, Apply(net, e).nodes)
  {
    StepNodes(net, e);
    StepKeepsTable(net, e);
  }

  lemma {:induction false} RunKeepsTables(net: Net, events: seq<Event>, a: Id, b: Id)
    requires Inv(net, a, b) && CanRun(net, events) && TablesOk(net.bits, net.nodes)
    ensures TablesOk(Final(net, events).bits, Final(net, events).nodes)
    decreases |events|
  {
    if events != [] {
      FactsNamed(net, Succ(net).Keys, Before(net.size, Succ(net)));
      StepKeepsTables(net, events[0]);
      StepKeepsInv(net, events[0], a, b);
      RunKeepsTables(Apply(net, events[0]), events[1..], a, b);
    }
  }

  lemma ReachableTables(net: Net, a: Id, b: Id)
    requires Reachable(net, a, b)
    ensures TablesOk(net.bits, net.nodes)
  {
    var start, events :| RunsTo(start, events, net, a, b);
    FoundedInv(start, a, b);
    RunKeepsTables(start, events, a, b);
  }

  lemma ReachableFingers(net: Net, a: Id, b: Id, x: Id)
    requires Reachable(net, a, b) && x in JoinedNodes(net)
    ensures FingersIn(net.nodes[x], JoinedNodes(net).Keys)
  {
    ReachableInv(net, a, b);
    var succ := Succ(net);
    assert JoinedNodes(net).Keys == succ.Keys;
    assert NodeOk(net.size, succ.Keys, Before(net.size, succ), x, net.nodes[x]);
  }

  /** A reachable network at rest is ready for lookups and FixFinger calls. */
  lemma RestIsReady(net: Net, a: Id, b: Id)
    requires Reachable(net, a, b) && AtRest(net) && net.bits > 0
    ensures Ready(net.size, net.bits, JoinedNodes(net))
  {
    var nodes := JoinedNodes(net);
    RestIsIdealRing(net, a, b);
    ReachableTables(net, a, b);
    forall x | x in nodes ensures Table(net.bits, nodes.Keys, nodes[x]) {
      ReachableFingers(net, a, b, x);
    }
    TabledIsLinked(net.size, net.bits, nodes);
    ReachableInv(net, a, b);
  }

  /** At rest, with three or more nodes, lookups are right if and only if every node has its successor as a finger. */
  lemma RestLooksUpRightIff(net: Net, a: Id, b: Id)
    requires Reachable(net, a, b) && AtRest(net) && net.bits > 0 && |JoinedNodes(net)| >= 3
    ensures Linked(net.size, JoinedNodes(net))
    ensures LookupsAreRight(net.size, JoinedNodes(net)) <==>
            forall x :: x in JoinedNodes(net) ==> net.nodes[x].successor in net.nodes[x].fingers
  {
    RestIsReady(net, a, b);
    LookupsAreRightIff(net.size, net.bits, JoinedNodes(net));
  }

  /** At rest, two passes of FixFinger calls in any order make every finger correct. */
  lemma RestBecomesCorrect(net: Net, a: Id, b: Id, first: seq<Id>, second: seq<Id>)
    requires Reachable(net, a, b) && AtRest(net) && net.bits > 0
    requires Within(first, JoinedNodes(net).Keys) && Within(second, JoinedNodes(net).Keys)
    requires forall x :: x in JoinedNodes(net) ==> Count(first, x) >= net.bits && Count(second, x) >= net.bits
    ensures var r := FixRun(net.size, FixRun(net.size, JoinedNodes(net), first), second);
            net.size > 0 && Routable(net.size, r) && AllCorrect(net.size, net.bits, r)
  {
    RestIsReady(net, a, b);
    TwoPassesCorrectAll(net.size, net.bits, JoinedNodes(net), first, second);
  }

  // ------------------------------------------------------------- Put and Get at rest

  /** The map that the stores of a ring hold: for every key, what its owner stores. */
  ghost function Contents(size: nat, nodes: Nodes): (m: map<Id, Value>) {
    map key: Id | key < size && StoredAt(size, nodes, key) :: OwnersValue(size, nodes, key)
  }

  ghost predicate StoredAt(size: nat, nodes: Nodes, key: Id) {
    exists o :: IsOwner(size, nodes.Keys, key, o) && key in nodes[o].store
  }

  ghost function OwnersValue(size: nat, nodes: Nodes, key: Id): (v: Value)
    requires StoredAt(size, nodes, key)
  {
    var o :| IsOwner(size, nodes.Keys, key, o) && key in nodes[o].store;
    nodes[o].store[key]
  }

  lemma ContentsRepresented(size: nat, nodes: Nodes, key: Id, o: Id)
    requires IsOwner(size, nodes.Keys, key, o)
    ensures Get(nodes[o], key) == ChordKv.At(Contents(size, nodes), key)
  {
    if StoredAt(size, nodes, key) {
      var p :| IsOwner(size, nodes.Keys, key, p) && key in nodes[p].store && nodes[p].store[key] == OwnersValue(size, nodes, key);
      OwnerIsUnique(size, nodes.Keys, key, o, p);
    }
  }

  /** The message of Put and Get, or of the hand-over of keys, that a packet is. */
  function AsMessage(p: Packet): (m: Option<ChordKv.Message>) {
    match p.msg
    case Insert(key, value) => Some(ChordKv.InsertKV(p.src, p.dst, key, value))
    case Transfer(data) => Some(ChordKv.TransferKV(p.src, p.dst, data))
    case _ => None
  }

  function AsPacket(m: ChordKv.Message): (p: Option<Packet>) {
    match m
    case InsertKV(src, dst, key, value) => Some(Packet(src, dst, Insert(key, value)))
    case TransferKV(src, dst, data) => Some(Packet(src, dst, Transfer(data)))
    case _ => None
  }

  ghost function SomePacket(wire: multiset<Packet>): (p: Packet)
    requires wire != multiset{}
    ensures p in wire
  {
    var p :| p in wire;
    p
  }

  /** The inserts and transfers of a wire. */
  ghost function InFlight(wire: multiset<Packet>): (r: multiset<ChordKv.Message>)
    decreases |wire|
  {
    if wire == multiset{} then multiset{}
    else
      var p := SomePacket(wire);
      var rest := InFlight(wire - multiset{p});
      if AsMessage(p).Some? then rest + multiset{AsMessage(p).value} else rest
  }

  lemma SameMessage(p: Packet, m: ChordKv.Message)
    ensures AsMessage(p) == Some(m) <==> AsPacket(m) == Some(p)
  {
  }

  function Copies(wire: multiset<Packet>, p: Option<Packet>): (n: nat) {
    if p.Some? then wire[p.value] else 0
  }

  /** Each is in flight as often as on the wire, and nothing else is. */
  lemma {:induction false} InFlightCounts(wire: multiset<Packet>, m: ChordKv.Message)
    ensures InFlight(wire)[m] == Copies(wire, AsPacket(m))
    decreases |wire|
  {
    if wire != multiset{} {
      var p := SomePacket(wire);
      var rest := wire - multiset{p};
      InFlightCounts(rest, m);
      SameMessage(p, m);
      assert Copies(wire, AsPacket(m)) == Copies(rest, AsPacket(m)) + if AsPacket(m) == Some(p) then 1 else 0;
    }
  }

  /** The ring that Put and Get see: the joined nodes after FixFinger calls, and what is in flight. */
  ghost function KvView(net: Net, schedule: seq<Id>): (kv: ChordKv.KvNet) {
    ChordKv.KvNet(net.size, FixRun(net.size, JoinedNodes(net), schedule), InFlight(net.wire))
  }

  ghost function MapView(net: Net, schedule: seq<Id>): (spec: ChordKv.Spec) {
    ChordKv.Spec(Contents(net.size, FixRun(net.size, JoinedNodes(net), schedule)), InFlight(net.wire))
  }

  /** No transfer brings its receiver a key that the receiver owns, and inserts go to the owner. */
  ghost predicate InPlace(size: nat, members: set<Id>, p: Packet) {
    match p.msg
    case Transfer(data) => forall key :: key in data ==> !IsOwner(size, members, key, p.dst)
    case Insert(key, _) => p.dst in members && key < size ==> IsOwner(size, members, key, p.dst)
    case _ => true
  }

  ghost predicate WireInPlace(net: Net) {
    forall p :: p in net.wire ==> InPlace(net.size, JoinedNodes(net).Keys, p)
  }

  lemma PacketInPlace(kv: ChordKv.KvNet, p: Packet, m: ChordKv.Message)
    requires AsMessage(p) == Some(m)
    ensures InPlace(kv.size, kv.nodes.Keys, p) <==> ChordKv.InOrder(kv, m)
  {
    if m.InsertKV? {
      assert m.dst in kv.nodes <==> p.dst in kv.nodes.Keys;
    }
  }

  lemma InPlaceIsInOrder(net: Net, kv: ChordKv.KvNet)
    requires kv.size == net.size && kv.nodes.Keys == JoinedNodes(net).Keys && kv.wire == InFlight(net.wire)
    ensures WireInPlace(net) <==> ChordKv.AllInOrder(kv)
  {
    if WireInPlace(net) {
      forall m | m in kv.wire ensures ChordKv.InOrder(kv, m) {
        InFlightCounts(net.wire, m);
        PacketInPlace(kv, AsPacket(m).value, m);
      }
    }
    if ChordKv.AllInOrder(kv) {
      forall p | p in net.wire ensures InPlace(net.size, JoinedNodes(net).Keys, p) {
        if AsMessage(p).Some? {
          InFlightCounts(net.wire, AsMessage(p).value);
          PacketInPlace(kv, p, AsMessage(p).value);
        }
      }
    }
  }

  /** Each node with its table at the start calls FixFinger, each other one runs through its table. */
  ghost predicate IsPass(net: Net, schedule: seq<Id>) {
    && Within(schedule, JoinedNodes(net).Keys)
    && forall x :: x in JoinedNodes(net) ==>
         Count(schedule, x) >= if net.nodes[x].fixPointer == 0 then 1 else net.bits
  }

  lemma NothingAsked(wire: multiset<Packet>, m: ChordKv.Message)
    requires m in InFlight(wire)
    ensures !m.AskKV?
  {
    InFlightCounts(wire, m);
  }

  lemma RestIsRing(net: Net, a: Id, b: Id, schedule: seq<Id>)
    requires Reachable(net, a, b) && AtRest(net) && net.bits > 0 && IsPass(net, schedule)
    ensures ChordKv.RingOk(KvView(net, schedule)) && ChordKv.AsksOk(KvView(net, schedule))
    ensures KvView(net, schedule).nodes.Keys == JoinedNodes(net).Keys
    ensures ChordKv.Represents(KvView(net, schedule), MapView(net, schedule))
  {
    RestIsReady(net, a, b);
    PassMakesRoutable(net.size, net.bits, JoinedNodes(net), schedule);
    RunKeepsReady(net.size, net.bits, JoinedNodes(net), schedule);
    forall m | m in InFlight(net.wire) ensures !m.AskKV? {
      NothingAsked(net.wire, m);
    }
    var nodes := FixRun(net.size, JoinedNodes(net), schedule);
    forall key, o {:trigger IsOwner(net.size, nodes.Keys, key, o)} | IsOwner(net.size, nodes.Keys, key, o)
      ensures Get(nodes[o], key) == ChordKv.At(Contents(net.size, nodes), key)
    {
      ContentsRepresented(net.size, nodes, key, o);
    }
  }

  /**
    A reachable network at rest, whose nodes have found their successors by FixFinger calls, serves
    Put and Get as one map, in every run and with everything that was in flight still arriving, if
    and only if nothing in flight is out of place.
   */
  lemma RestServesPutAndGetIff(net: Net, a: Id, b: Id, schedule: seq<Id>)
    requires Reachable(net, a, b) && AtRest(net) && net.bits > 0 && IsPass(net, schedule)
    ensures ChordKv.RingOk(KvView(net, schedule))
    ensures ChordKv.Represents(KvView(net, schedule), MapView(net, schedule))
    ensures ChordKv.AnswersAsMap(KvView(net, schedule), MapView(net, schedule)) <==> WireInPlace(net)
    ensures ChordKv.KvInv(KvView(net, schedule)) <==> WireInPlace(net)
  {
    RestIsRing(net, a, b, schedule);
    InPlaceIsInOrder(net, KvView(net, schedule));
    ChordKv.AnswersAsMapIff(KvView(net, schedule), MapView(net, schedule));
  }

  /** At rest no step but the completion of a join sends keys, so the transfers in flight only become fewer. */
  lemma RestSendsNoKeys(net: Net, e: Event, a: Id, b: Id, p: Packet)
    requires Reachable(net, a, b) && AtRest(net) && Enabled(net, e) && !CompletesJoin(net, e) && p.msg.Transfer?
    ensures AtRest(Apply(net, e)) && Apply(net, e).wire[p] <= net.wire[p]
    ensures e == HandleTransfer(p) ==> Apply(net, e).wire[p] < net.wire[p]
  {
    ReachableRestIffIdeal(net, a, b);
    ReachableInv(net, a, b);
    IdealIsStable(net, e, a, b);
    StepKeepsInv(net, e, a, b);
    RestIffIdeal(Apply(net, e), a, b);
    if e.HandleNotify? {
      IdealHasIdealNodes(net);
      NotifyIsRefused(net, e.p, Succ(net), Before(net.size, Succ(net)));
    }
    NoKeysSent(net, e, p);
  }

  lemma NoKeysSent(net: Net, e: Event, p: Packet)
    requires Enabled(net, e) && p.msg.Transfer? && (e.HandleNotify? ==> !TakesNotify(net.nodes[e.p.dst], e.p.src))
    ensures Apply(net, e).wire[p] <= net.wire[p] && (e == HandleTransfer(p) ==> Apply(net, e).wire[p] < net.wire[p])
  {
    if e.HandleFindSuccessor? {
      FindSendsNoKeys(net, e.p, p);
    } else if e.HandleNotify? {
      assert HandOver(net.nodes[e.p.dst], e.p.src) == None;
    }
  }

  lemma FindSendsNoKeys(net: Net, q: Packet, p: Packet)
    requires Enabled(net, HandleFindSuccessor(q)) && p.msg.Transfer?
    ensures Apply(net, HandleFindSuccessor(q)).wire[p] <= net.wire[p]
  {
    match HandleFind(net.nodes[q.dst], q.msg.key)
    case FindError =>
    case FindSent(None, _) =>
    case FindSent(Some(early), _) =>
  }
}
