/**
  Put and Get on an ideal ring: the stores of all nodes, with requests, answers and late key
  transfers travelling between them in any order, refine one global key-value map if and only if
  every message in flight is in order: requests go to the owner of their key, and no transfer
  brings its receiver a key that the receiver owns.
 */
module ChordKv {
  import opened Wrappers
  import opened Circle
  import opened ChordNode
  import opened ChordLookup

  datatype Message =
    | InsertKV(src: Id, dst: Id, key: Id, value: Value)
    | AskKV(client: Id, dst: Id, key: Id)
    | GiveKV(client: Id, key: Id, answer: Option<Value>)
    | TransferKV(src: Id, dst: Id, data: map<Id, Value>)

  datatype Op =
    | BeginPut(n: Id, key: Id, value: Value)
    | BeginGet(n: Id, key: Id)
    | Deliver(m: Message)

  /** The nodes of the ring and the messages between them. */
  datatype KvNet = KvNet(size: nat, nodes: Nodes, wire: multiset<Message>)

  /** The specification: one map, and the operations that are under way. */
  datatype Spec = Spec(contents: map<Id, Value>, pending: multiset<Message>)

  /** An ideal ring whose lookups are right. */
  ghost predicate RingOk(net: KvNet) {
    Linked(net.size, net.nodes) && Routable(net.size, net.nodes)
  }

  /** Questions are for keys on the circle. */
  ghost predicate AsksOk(net: KvNet) {
    forall m :: m in net.wire && m.AskKV? ==> m.key < net.size
  }

  /**
    What reaches a node of the ring is in its place: requests come to the owner of their key, and a
    transfer brings no key that its receiver owns.
   */
  ghost predicate InOrder(net: KvNet, m: Message) {
    match m
    case InsertKV(_, dst, key, _) => dst in net.nodes && key < net.size ==> IsOwner(net.size, net.nodes.Keys, key, dst)
    case AskKV(_, dst, key) => dst in net.nodes ==> IsOwner(net.size, net.nodes.Keys, key, dst)
    case GiveKV(_, _, _) => true
    case TransferKV(_, dst, data) => forall key :: key in data ==> !IsOwner(net.size, net.nodes.Keys, key, dst)
  }

  ghost predicate AllInOrder(net: KvNet) {
    forall m :: m in net.wire ==> InOrder(net, m)
  }

  ghost predicate KvInv(net: KvNet) {
    RingOk(net) && AllInOrder(net)
  }

  ghost predicate CanDo(net: KvNet, op: Op) {
    match op
    case BeginPut(n, key, _) => n in net.nodes && key < net.size
    case BeginGet(n, key) => n in net.nodes && key < net.size
    case Deliver(m) => m in net.wire && (m.GiveKV? || m.dst in net.nodes)
  }

  function Store(net: KvNet, x: Id, key: Id, value: Value): (r: KvNet)
    requires x in net.nodes
  {
    net.(nodes := net.nodes[x := InsertKey(net.nodes[x], key, value)])
  }

  function Receive(net: KvNet, x: Id, data: map<Id, Value>): (r: KvNet)
    requires x in net.nodes
  {
    net.(nodes := net.nodes[x := ReceiveKeys(net.nodes[x], data)])
  }

  /** One step of the ring: an operation starts, or a message is handled. */
  ghost function Do(net: KvNet, op: Op): (r: KvNet)
    requires RingOk(net) && CanDo(net, op)
  {
    match op
    case BeginPut(n, key, value) =>
      var dest := Lookup(net.size, net.nodes, n, key);
      if dest == n then Store(net, n, key, value)
      else net.(wire := net.wire + multiset{InsertKV(n, dest, key, value)})
    case BeginGet(n, key) =>
      var dest := Lookup(net.size, net.nodes, n, key);
      if dest == n then net.(wire := net.wire + multiset{GiveKV(n, key, Get(net.nodes[n], key))})
      else net.(wire := net.wire + multiset{AskKV(n, dest, key)})
    case Deliver(InsertKV(_, dst, key, value)) =>
      Store(net, dst, key, value).(wire := net.wire - multiset{op.m})
    case Deliver(AskKV(client, dst, key)) =>
      net.(wire := net.wire - multiset{op.m} + multiset{GiveKV(client, key, Get(net.nodes[dst], key))})
    case Deliver(GiveKV(_, _, _)) => net.(wire := net.wire - multiset{op.m})
    case Deliver(TransferKV(_, dst, data)) => Receive(net, dst, data).(wire := net.wire - multiset{op.m})
  }

  function At(contents: map<Id, Value>, key: Id): (r: Option<Value>) {
    if key in contents then Some(contents[key]) else None
  }

  /**
    The same step on the specification. A Put whose key the caller owns takes effect at once,
    any other when its request arrives; a Get is answered from the map at the same moments. The
    arrival of a transfer is no operation of the map.
   */
  function SpecDo(spec: Spec, op: Op, owner: Id): (r: Spec) {
    match op
    case BeginPut(n, key, value) =>
      if owner == n then spec.(contents := spec.contents[key := value])
      else spec.(pending := spec.pending + multiset{InsertKV(n, owner, key, value)})
    case BeginGet(n, key) =>
      if owner == n then spec.(pending := spec.pending + multiset{GiveKV(n, key, At(spec.contents, key))})
      else spec.(pending := spec.pending + multiset{AskKV(n, owner, key)})
    case Deliver(InsertKV(_, _, key, value)) =>
      Spec(spec.contents[key := value], spec.pending - multiset{op.m})
    case Deliver(AskKV(client, _, key)) =>
      spec.(pending := spec.pending - multiset{op.m} + multiset{GiveKV(client, key, At(spec.contents, key))})
    case Deliver(GiveKV(_, _, _)) => spec.(pending := spec.pending - multiset{op.m})
    case Deliver(TransferKV(_, _, _)) => spec.(pending := spec.pending - multiset{op.m})
  }

  /** The map holds, for every key, what the key's owner stores; the pending operations are the wire. */
  ghost predicate Represents(net: KvNet, spec: Spec) {
    && net.wire == spec.pending
    && forall key, o {:trigger IsOwner(net.size, net.nodes.Keys, key, o)} ::
         IsOwner(net.size, net.nodes.Keys, key, o) ==> Get(net.nodes[o], key) == At(spec.contents, key)
  }

  // ---------------------------------------------------------------- what steps keep

  /** New contents of a store leave the ring as it was. */
  lemma StoresKeepRing(net: KvNet, x: Id, n': Node)
    requires RingOk(net) && x in net.nodes && n' == net.nodes[x].(store := n'.store)
    ensures var net' := net.(nodes := net.nodes[x := n']);
            net'.nodes.Keys == net.nodes.Keys && RingOk(net')
  {
    RingNode(net.size, net.nodes, x);
    assert IdealNode(net.size, net.nodes.Keys, n') && RoutesNode(net.nodes.Keys, n');
    ReplaceNode(net.size, net.nodes, n');
  }

  lemma StepKeepsRing(net: KvNet, op: Op)
    requires RingOk(net) && CanDo(net, op)
    ensures RingOk(Do(net, op)) && Do(net, op).nodes.Keys == net.nodes.Keys && Do(net, op).size == net.size
  {
    match op
    case BeginPut(n, key, value) => StoresKeepRing(net, n, InsertKey(net.nodes[n], key, value));
    case BeginGet(n, key) =>
    case Deliver(InsertKV(_, dst, key, value)) => StoresKeepRing(net, dst, InsertKey(net.nodes[dst], key, value));
    case Deliver(TransferKV(_, dst, data)) => StoresKeepRing(net, dst, ReceiveKeys(net.nodes[dst], data));
    case Deliver(_) =>
  }

  /** Order is a matter of the members alone. */
  lemma OrderStays(net: KvNet, net': KvNet, m: Message)
    requires net'.nodes.Keys == net.nodes.Keys && net'.size == net.size && InOrder(net, m)
    ensures InOrder(net', m)
  {
    match m
    case InsertKV(_, dst, key, _) => assert dst in net'.nodes <==> dst in net.nodes;
    case AskKV(_, dst, _) => assert dst in net'.nodes <==> dst in net.nodes;
    case TransferKV(_, _, _) =>
    case GiveKV(_, _, _) =>
  }

  /** A step adds only messages that are in order. */
  lemma NewMessages(net: KvNet, op: Op, m: Message)
    requires RingOk(net) && CanDo(net, op) && m in Do(net, op).wire
    ensures m in net.wire || (InOrder(net, m) && (m.AskKV? ==> m.key < net.size))
  {
    match op
    case BeginPut(n, key, _) => LookupIsOwner(net.size, net.nodes, n, key);
    case BeginGet(n, key) => LookupIsOwner(net.size, net.nodes, n, key);
    case Deliver(_) =>
  }

  lemma StepKeepsKvInv(net: KvNet, op: Op)
    requires KvInv(net) && CanDo(net, op)
    ensures KvInv(Do(net, op))
  {
    StepKeepsRing(net, op);
    forall m | m in Do(net, op).wire ensures InOrder(Do(net, op), m) {
      NewMessages(net, op, m);
      OrderStays(net, Do(net, op), m);
    }
  }

  // ------------------------------------------------------------------- refinement

  /** Storing a key at its owner, or one off the circle, is an update of the map. */
  lemma StoreRepresents(net: KvNet, spec: Spec, x: Id, key: Id, value: Value)
    requires RingOk(net) && Represents(net, spec) && x in net.nodes
    requires key < net.size ==> IsOwner(net.size, net.nodes.Keys, key, x)
    ensures Represents(Store(net, x, key, value), spec.(contents := spec.contents[key := value]))
  {
    var net' := Store(net, x, key, value);
    assert net'.nodes.Keys == net.nodes.Keys;
    forall k, o | IsOwner(net'.size, net'.nodes.Keys, k, o)
      ensures Get(net'.nodes[o], k) == At(spec.contents[key := value], k)
    {
      assert IsOwner(net.size, net.nodes.Keys, k, o);
      if k == key {
        OwnerIsUnique(net.size, net.nodes.Keys, key, x, o);
      }
    }
  }

  /** A transfer of keys that the receiver does not own changes nothing of the map. */
  lemma ReceiveRepresents(net: KvNet, spec: Spec, x: Id, data: map<Id, Value>)
    requires RingOk(net) && Represents(net, spec) && x in net.nodes
    requires forall key :: key in data ==> !IsOwner(net.size, net.nodes.Keys, key, x)
    ensures Represents(Receive(net, x, data), spec)
  {
    var net' := Receive(net, x, data);
    assert net'.nodes.Keys == net.nodes.Keys;
    forall k, o | IsOwner(net'.size, net'.nodes.Keys, k, o) ensures Get(net'.nodes[o], k) == At(spec.contents, k) {
      assert IsOwner(net.size, net.nodes.Keys, k, o);
    }
  }

  lemma WireRepresents(net: KvNet, spec: Spec, wire: multiset<Message>)
    requires Represents(net, spec)
    ensures Represents(net.(wire := wire), spec.(pending := wire))
  {
    var net' := net.(wire := wire);
    forall k, o | IsOwner(net'.size, net'.nodes.Keys, k, o) ensures Get(net'.nodes[o], k) == At(spec.contents, k) {
      assert IsOwner(net.size, net.nodes.Keys, k, o);
    }
  }

  ghost function OwnerOf(net: KvNet, op: Op): (o: Id)
    requires RingOk(net) && CanDo(net, op)
  {
    match op
    case BeginPut(n, key, _) => Lookup(net.size, net.nodes, n, key)
    case BeginGet(n, key) => Lookup(net.size, net.nodes, n, key)
    case Deliver(_) => 0
  }

  lemma DeliveryRefines(net: KvNet, spec: Spec, m: Message)
    requires RingOk(net) && Represents(net, spec) && CanDo(net, Deliver(m)) && InOrder(net, m)
    ensures Represents(Do(net, Deliver(m)), SpecDo(spec, Deliver(m), 0))
  {
    var wire := net.wire - multiset{m};
    match m
    case InsertKV(_, dst, key, value) =>
      WireRepresents(net, spec, wire);
      StoreRepresents(net.(wire := wire), spec.(pending := wire), dst, key, value);
    case AskKV(client, dst, key) => WireRepresents(net, spec, Do(net, Deliver(m)).wire);
    case GiveKV(_, _, _) => WireRepresents(net, spec, wire);
    case TransferKV(_, dst, data) =>
      WireRepresents(net, spec, wire);
      ReceiveRepresents(net.(wire := wire), spec.(pending := wire), dst, data);
  }

  /** Every step of the ring is a step of the map. */
  lemma StepRefines(net: KvNet, spec: Spec, op: Op)
    requires KvInv(net) && Represents(net, spec) && CanDo(net, op)
    ensures Represents(Do(net, op), SpecDo(spec, op, OwnerOf(net, op)))
  {
    match op
    case BeginPut(n, key, value) =>
      LookupIsOwner(net.size, net.nodes, n, key);
      if OwnerOf(net, op) == n {
        StoreRepresents(net, spec, n, key, value);
      } else {
        WireRepresents(net, spec, Do(net, op).wire);
      }
    case BeginGet(n, key) =>
      LookupIsOwner(net.size, net.nodes, n, key);
      WireRepresents(net, spec, Do(net, op).wire);
    case Deliver(m) => DeliveryRefines(net, spec, m);
  }

  ghost predicate CanDoAll(net: KvNet, ops: seq<Op>)
    requires RingOk(net)
    decreases |ops|
  {
    if ops == [] then true
    else if !CanDo(net, ops[0]) then false
    else
      StepKeepsRing(net, ops[0]);
      CanDoAll(Do(net, ops[0]), ops[1..])
  }

  ghost function DoAll(net: KvNet, ops: seq<Op>): (r: KvNet)
    requires RingOk(net) && CanDoAll(net, ops)
    decreases |ops|
  {
    if ops == [] then net
    else
      StepKeepsRing(net, ops[0]);
      DoAll(Do(net, ops[0]), ops[1..])
  }

  ghost function SpecDoAll(net: KvNet, spec: Spec, ops: seq<Op>): (r: Spec)
    requires RingOk(net) && CanDoAll(net, ops)
    decreases |ops|
  {
    if ops == [] then spec
    else
      StepKeepsRing(net, ops[0]);
      SpecDoAll(Do(net, ops[0]), SpecDo(spec, ops[0], OwnerOf(net, ops[0])), ops[1..])
  }

  /** In every run the ring gives exactly the answers that one global map gives. */
  lemma {:induction false} RunRefines(net: KvNet, spec: Spec, ops: seq<Op>)
    requires KvInv(net) && Represents(net, spec) && CanDoAll(net, ops)
    ensures Represents(DoAll(net, ops), SpecDoAll(net, spec, ops))
    decreases |ops|
  {
    if ops != [] {
      StepKeepsKvInv(net, ops[0]);
      StepRefines(net, spec, ops[0]);
      RunRefines(Do(net, ops[0]), SpecDo(spec, ops[0], OwnerOf(net, ops[0])), ops[1..]);
    }
  }

  // ------------------------------------------------------- the condition is exact

  /** In every run the messages in flight, answers included, are those of the map. */
  ghost predicate AnswersAsMap(net: KvNet, spec: Spec)
    requires RingOk(net)
  {
    forall ops :: CanDoAll(net, ops) ==> DoAll(net, ops).wire == SpecDoAll(net, spec, ops).pending
  }

  /** A step of both from states that answer alike leads to states that answer alike. */
  lemma AnswersStay(net: KvNet, spec: Spec, op: Op)
    requires RingOk(net) && AnswersAsMap(net, spec) && CanDo(net, op)
    ensures RingOk(Do(net, op)) && AnswersAsMap(Do(net, op), SpecDo(spec, op, OwnerOf(net, op)))
  {
    StepKeepsRing(net, op);
    var net', spec' := Do(net, op), SpecDo(spec, op, OwnerOf(net, op));
    forall ops | CanDoAll(net', ops) ensures DoAll(net', ops).wire == SpecDoAll(net', spec', ops).pending {
      var all := [op] + ops;
      assert all[0] == op && all[1..] == ops;
      assert CanDoAll(net, all);
      assert DoAll(net, all) == DoAll(net', ops) && SpecDoAll(net, spec, all) == SpecDoAll(net', spec', ops);
    }
  }

  lemma AnswersNow(net: KvNet, spec: Spec)
    requires RingOk(net) && AnswersAsMap(net, spec)
    ensures net.wire == spec.pending
  {
    assert CanDoAll(net, []);
    assert DoAll(net, []).wire == SpecDoAll(net, spec, []).pending;
  }

  lemma OneMore(w: multiset<Message>, m: Message, m': Message)
    requires w + multiset{m} == w + multiset{m'}
    ensures m == m'
  {
    assert (w + multiset{m})[m] == w[m] + 1;
    assert m != m' ==> (w + multiset{m'})[m] == w[m];
  }

  /** What answers like the map stores like the map: a Get at the owner would tell. */
  lemma AnswersTellContents(net: KvNet, spec: Spec, key: Id, o: Id)
    requires RingOk(net) && AnswersAsMap(net, spec) && IsOwner(net.size, net.nodes.Keys, key, o)
    ensures Get(net.nodes[o], key) == At(spec.contents, key)
  {
    var op := BeginGet(o, key);
    LookupIsOwner(net.size, net.nodes, o, key);
    OwnerIsUnique(net.size, net.nodes.Keys, key, o, Lookup(net.size, net.nodes, o, key));
    AnswersNow(net, spec);
    AnswersStay(net, spec, op);
    AnswersNow(Do(net, op), SpecDo(spec, op, OwnerOf(net, op)));
    OneMore(net.wire, GiveKV(o, key, Get(net.nodes[o], key)), GiveKV(o, key, At(spec.contents, key)));
  }

  /** A Put at the owner takes effect at once. */
  lemma PutAtOwner(net: KvNet, spec: Spec, key: Id, o: Id, value: Value)
    requires RingOk(net) && AnswersAsMap(net, spec) && IsOwner(net.size, net.nodes.Keys, key, o)
    ensures var net', spec' := Store(net, o, key, value), spec.(contents := spec.contents[key := value]);
            RingOk(net') && net'.nodes.Keys == net.nodes.Keys && AnswersAsMap(net', spec')
  {
    var op := BeginPut(o, key, value);
    LookupIsOwner(net.size, net.nodes, o, key);
    OwnerIsUnique(net.size, net.nodes.Keys, key, o, Lookup(net.size, net.nodes, o, key));
    StepKeepsRing(net, op);
    AnswersStay(net, spec, op);
  }

  /** Some other value. */
  function Other(v: Value): (r: Value)
    ensures r != v
  {
    v + "'"
  }

  /** A transfer of a key its receiver owns overwrites a newer Put. */
  lemma LateTransferShows(net: KvNet, spec: Spec, m: Message, key: Id)
    requires RingOk(net) && AnswersAsMap(net, spec) && m in net.wire && m.TransferKV? && key in m.data
    ensures !IsOwner(net.size, net.nodes.Keys, key, m.dst)
  {
    if IsOwner(net.size, net.nodes.Keys, key, m.dst) {
      var v := Other(m.data[key]);
      PutAtOwner(net, spec, key, m.dst, v);
      var net', spec' := Store(net, m.dst, key, v), spec.(contents := spec.contents[key := v]);
      AnswersStay(net', spec', Deliver(m));
      AnswersTellContents(Do(net', Deliver(m)), SpecDo(spec', Deliver(m), 0), key, m.dst);
      assert false;
    }
  }

  /** An insert that reaches a node which does not own its key is not found by a Get. */
  lemma StrayInsertShows(net: KvNet, spec: Spec, m: Message, o: Id)
    requires RingOk(net) && AnswersAsMap(net, spec) && m in net.wire && m.InsertKV? && m.dst in net.nodes
    requires IsOwner(net.size, net.nodes.Keys, m.key, o)
    ensures m.dst == o
  {
    if m.dst != o {
      var v := Other(m.value);
      PutAtOwner(net, spec, m.key, o, v);
      var net', spec' := Store(net, o, m.key, v), spec.(contents := spec.contents[m.key := v]);
      AnswersStay(net', spec', Deliver(m));
      AnswersTellContents(Do(net', Deliver(m)), SpecDo(spec', Deliver(m), 0), m.key, o);
      assert false;
    }
  }

  /** A question that reaches a node which does not own its key misses a Put. */
  lemma StrayAskShows(net: KvNet, spec: Spec, m: Message, o: Id)
    requires RingOk(net) && AnswersAsMap(net, spec) && m in net.wire && m.AskKV? && m.dst in net.nodes
    requires IsOwner(net.size, net.nodes.Keys, m.key, o)
    ensures m.dst == o
  {
    if m.dst != o {
      var got := Get(net.nodes[m.dst], m.key);
      var v := if got.Some? then Other(got.value) else "";
      PutAtOwner(net, spec, m.key, o, v);
      var net', spec' := Store(net, o, m.key, v), spec.(contents := spec.contents[m.key := v]);
      AnswersNow(net', spec');
      AnswersStay(net', spec', Deliver(m));
      AnswersNow(Do(net', Deliver(m)), SpecDo(spec', Deliver(m), 0));
      OneMore(net.wire - multiset{m}, GiveKV(m.client, m.key, got), GiveKV(m.client, m.key, Some(v)));
      assert false;
    }
  }

  lemma OwnerExists(net: KvNet, x: Id, key: Id) returns (o: Id)
    requires RingOk(net) && x in net.nodes && key < net.size
    ensures IsOwner(net.size, net.nodes.Keys, key, o)
  {
    o := Lookup(net.size, net.nodes, x, key);
    LookupIsOwner(net.size, net.nodes, x, key);
  }

  lemma RightAnswersAreInOrder(net: KvNet, spec: Spec, m: Message)
    requires RingOk(net) && AsksOk(net) && AnswersAsMap(net, spec) && m in net.wire
    ensures InOrder(net, m)
  {
    match m
    case InsertKV(_, dst, key, _) =>
      if dst in net.nodes && key < net.size {
        var o := OwnerExists(net, dst, key);
        StrayInsertShows(net, spec, m, o);
      }
    case AskKV(_, dst, key) =>
      if dst in net.nodes {
        var o := OwnerExists(net, dst, key);
        StrayAskShows(net, spec, m, o);
      }
    case GiveKV(_, _, _) =>
    case TransferKV(_, dst, data) =>
      forall key | key in data ensures !IsOwner(net.size, net.nodes.Keys, key, dst) {
        LateTransferShows(net, spec, m, key);
      }
  }

  /**
    A ring whose stores represent a map answers as that map in every run if and only if every message
    in flight is in order.
   */
  lemma AnswersAsMapIff(net: KvNet, spec: Spec)
    requires RingOk(net) && AsksOk(net) && Represents(net, spec)
    ensures AnswersAsMap(net, spec) <==> AllInOrder(net)
  {
    if AllInOrder(net) {
      forall ops | CanDoAll(net, ops) ensures DoAll(net, ops).wire == SpecDoAll(net, spec, ops).pending {
        RunRefines(net, spec, ops);
      }
    }
    if AnswersAsMap(net, spec) {
      forall m | m in net.wire ensures InOrder(net, m) {
        RightAnswersAreInOrder(net, spec, m);
      }
    }
  }
}
