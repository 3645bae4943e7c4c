/**
  Lookups on an ideal ring: every lookup ends at the key's true owner, exactly how many replies a
  remote request produces, and how many hops it takes with correct fingers.
 */
module ChordLookup {
  import opened Wrappers
  import opened Circle
  import opened ChordNode
  import opened ChordNetwork

  type Nodes = map<Id, Node>

  ghost predicate OnCircle(size: nat, members: set<Id>) {
    forall m :: m in members ==> m < size
  }

  /** The node's neighbours are the nearest members on either side. */
  ghost predicate IdealNode(size: nat, members: set<Id>, n: Node) {
    && n.id in members && OnCircle(size, members)
    && n.successor.Some? && n.successor.value in members && n.successor.value != n.id
    && n.predecessor.Some? && n.predecessor.value in members && n.predecessor.value != n.id
    && (forall m {:trigger Between(m, n.id, n.successor.value)} :: m in members ==> !Between(m, n.id, n.successor.value))
    && (forall m {:trigger Between(m, n.predecessor.value, n.id)} :: m in members ==> !Between(m, n.predecessor.value, n.id))
  }

  /** The fingers are members or empty, and the successor is one of them. */
  ghost predicate RoutesNode(members: set<Id>, n: Node) {
    n.successor in n.fingers && FingersIn(n, members)
  }

  ghost predicate FingersIn(n: Node, members: set<Id>) {
    forall f :: f in n.fingers && f.Some? ==> f.value in members
  }

  ghost predicate IdealRing(size: nat, nodes: Nodes) {
    && (forall x :: x in nodes ==> nodes[x].id == x)
    && forall x {:trigger IdealNode(size, nodes.Keys, nodes[x])} :: x in nodes ==> IdealNode(size, nodes.Keys, nodes[x])
  }

  ghost predicate AllRoute(nodes: Nodes) {
    forall x {:trigger RoutesNode(nodes.Keys, nodes[x])} :: x in nodes ==> RoutesNode(nodes.Keys, nodes[x])
  }

  ghost predicate Routable(size: nat, nodes: Nodes) {
    IdealRing(size, nodes) && AllRoute(nodes)
  }

  /** `o` is the first member at or after the key, going clockwise. */
  ghost predicate IsOwner(size: nat, members: set<Id>, key: Id, o: Id) {
    && key < size && OnCircle(size, members)
    && o in members && forall m :: m in members ==> Dist(size, key, o) <= Dist(size, key, m)
  }

  lemma OwnerIsUnique(size: nat, members: set<Id>, key: Id, o: Id, o': Id)
    requires IsOwner(size, members, key, o) && IsOwner(size, members, key, o')
    ensures o == o'
  {
    assert Dist(size, key, o) == Dist(size, key, o');
  }

  /** On an ideal ring the local ownership test recognises exactly the owner. */
  lemma OwnsIffOwner(size: nat, members: set<Id>, n: Node, key: Id)
    requires IdealNode(size, members, n) && key < size
    ensures Owns(n, key) <==> IsOwner(size, members, key, n.id)
  {
    var p := n.predecessor.value;
    if Owns(n, key) {
      forall m | m in members ensures Dist(size, key, n.id) <= Dist(size, key, m) {
        assert !Between(m, p, n.id);
      }
    } else {
      assert Dist(size, key, p) < Dist(size, key, n.id);
    }
  }

  /** A key between a node and its successor belongs to the successor. */
  lemma SuccessorOwns(size: nat, members: set<Id>, n: Node, key: Id)
    requires IdealNode(size, members, n) && key < size
    requires BetweenRightInclude(key, n.id, n.successor.value)
    ensures IsOwner(size, members, key, n.successor.value)
  {
    var s := n.successor.value;
    forall m | m in members ensures Dist(size, key, s) <= Dist(size, key, m) {
      assert !Between(m, n.id, s);
    }
  }

  /** A relay goes to a member strictly closer to the key, which does not own the key. */
  lemma RelayMakesProgress(size: nat, members: set<Id>, n: Node, key: Id)
    requires IdealNode(size, members, n) && RoutesNode(members, n) && key < size && key != n.id
    requires !BetweenRightInclude(key, n.id, n.successor.value)
    ensures Route(n, key).Relay?
    ensures var f := Route(n, key).next;
            f in members && Dist(size, f, key) < Dist(size, n.id, key) && !IsOwner(size, members, key, f)
  {
    assert Between(n.successor.value, n.id, key);
    var i :| 0 <= i < |n.fingers| && n.fingers[i] == n.successor;
    var j := ScanFindsHighest(n, key, |n.fingers|);
    var f := Route(n, key).next;
    BetweenIsDistance(size, f, n.id, key);
    DistAdds(size, n.id, f, key);
    assert Dist(size, key, n.id) < Dist(size, key, f);
  }

  /** A relay is always a step towards the key. */
  lemma RelayIsCloser(size: nat, x: Id, next: Id, key: Id)
    requires x < size && next < size && key < size && Between(next, x, key)
    ensures Dist(size, next, key) < Dist(size, x, key)
  {
    BetweenIsDistance(size, next, x, key);
    DistAdds(size, x, next, key);
  }

  /** Nodes are where their names say, on the circle, and point their fingers at each other. */
  ghost predicate Linked(size: nat, nodes: Nodes) {
    forall x {:trigger FingersIn(nodes[x], nodes.Keys)} :: x in nodes ==>
      nodes[x].id == x && x < size && FingersIn(nodes[x], nodes.Keys)
  }

  lemma RoutableIsLinked(size: nat, nodes: Nodes)
    requires Routable(size, nodes)
    ensures Linked(size, nodes)
  {
    forall x | x in nodes ensures nodes[x].id == x && x < size && FingersIn(nodes[x], nodes.Keys) {
      assert IdealNode(size, nodes.Keys, nodes[x]) && RoutesNode(nodes.Keys, nodes[x]);
    }
  }

  /** All replies that a request for `key` delivered at `x` gives rise to, in the order they are sent. */
  ghost function Replies(size: nat, nodes: Nodes, x: Id, key: Id): (r: seq<Id>)
    requires Linked(size, nodes) && x in nodes && key < size
    decreases if x < size then Dist(size, x, key) else 0
  {
    match HandleFind(nodes[x], key)
    case FindError => []
    case FindSent(early, last) =>
      (if early.Some? then [early.value] else []) +
      (match last
       case Reply(owner) => [owner]
       case Relay(next) =>
         RelayIsFinger(nodes[x], key);
         assert FingersIn(nodes[x], nodes.Keys) && next in nodes;
         assert FingersIn(nodes[next], nodes.Keys);
         RelayIsCloser(size, x, next, key);
         Replies(size, nodes, next, key))
  }

  lemma RepliesUnfold(size: nat, nodes: Nodes, x: Id, key: Id)
    requires Linked(size, nodes) && x in nodes && key < size && nodes[x].successor != Some(x)
    ensures var early, next := if Owns(nodes[x], key) then [x] else [], Route(nodes[x], key);
            && (next.Reply? ==> Replies(size, nodes, x, key) == early + [next.owner])
            && (next.Relay? ==> next.next in nodes)
            && (next.Relay? ==> Replies(size, nodes, x, key) == early + Replies(size, nodes, next.next, key))
  {
    assert FingersIn(nodes[x], nodes.Keys);
    if Route(nodes[x], key).Relay? {
      RelayIsFinger(nodes[x], key);
    }
  }

  /** What a node of the ring does with a key that is not its own identifier. */
  lemma Decision(size: nat, members: set<Id>, n: Node, key: Id)
    requires IdealNode(size, members, n) && RoutesNode(members, n) && key < size && key != n.id
    ensures match Route(n, key)
            case Reply(o) => IsOwner(size, members, key, o) && !Owns(n, key)
            case Relay(f) => f in members && Dist(size, f, key) < Dist(size, n.id, key) && !IsOwner(size, members, key, f)
  {
    OwnsIffOwner(size, members, n, key);
    if BetweenRightInclude(key, n.id, n.successor.value) {
      SuccessorOwns(size, members, n, key);
      if Owns(n, key) {
        OwnerIsUnique(size, members, key, n.id, n.successor.value);
      }
    } else {
      RelayMakesProgress(size, members, n, key);
    }
  }

  lemma RingNode(size: nat, nodes: Nodes, x: Id)
    requires Routable(size, nodes) && x in nodes
    ensures nodes[x].id == x && IdealNode(size, nodes.Keys, nodes[x]) && RoutesNode(nodes.Keys, nodes[x])
    ensures nodes[x].successor.Some? && nodes[x].successor.value != x && x < size
  {
    assert IdealNode(size, nodes.Keys, nodes[x]) && RoutesNode(nodes.Keys, nodes[x]);
  }

  /** A request at a node that does not own the key yields exactly one reply, naming the owner. */
  lemma {:induction false} OneReply(size: nat, nodes: Nodes, x: Id, key: Id) returns (o: Id)
    requires Linked(size, nodes) && Routable(size, nodes) && x in nodes && key < size
    requires !IsOwner(size, nodes.Keys, key, x)
    ensures Replies(size, nodes, x, key) == [o] && IsOwner(size, nodes.Keys, key, o)
    decreases if x < size then Dist(size, x, key) else 0
  {
    RingNode(size, nodes, x);
    OwnsIffOwner(size, nodes.Keys, nodes[x], key);
    Decision(size, nodes.Keys, nodes[x], key);
    RepliesUnfold(size, nodes, x, key);
    match Route(nodes[x], key)
    case Reply(owner) => o := owner;
    case Relay(f) => o := OneReply(size, nodes, f, key);
  }

  lemma OwnerRepliesTwice(size: nat, nodes: Nodes, x: Id, key: Id)
    requires Linked(size, nodes) && Routable(size, nodes) && x in nodes && key < size
    requires Owns(nodes[x], key) && key != x
    ensures Replies(size, nodes, x, key) == [x, x]
  {
    RingNode(size, nodes, x);
    OwnsIffOwner(size, nodes.Keys, nodes[x], key);
    Decision(size, nodes.Keys, nodes[x], key);
    RepliesUnfold(size, nodes, x, key);
    var o := OneReply(size, nodes, Route(nodes[x], key).next, key);
    OwnerIsUnique(size, nodes.Keys, key, x, o);
  }

  /** A node of an ideal ring, whatever its fingers, relays only to nodes that do not own the key. */
  lemma RelayMissesOwner(size: nat, members: set<Id>, n: Node, key: Id)
    requires IdealNode(size, members, n) && FingersIn(n, members) && key < size && Route(n, key).Relay?
    ensures Route(n, key).next in members && !IsOwner(size, members, key, Route(n, key).next)
    ensures Dist(size, Route(n, key).next, key) < Dist(size, n.id, key)
  {
    RelayIsFinger(n, key);
    var f := Route(n, key).next;
    RelayIsCloser(size, n.id, f, key);
    BetweenIsDistance(size, f, n.id, key);
    assert Dist(size, key, n.id) < Dist(size, key, f);
  }

  /** On an ideal ring, whatever the fingers, the owner of a key sends two replies and any other node yields one. */
  lemma {:induction false} RepliesCount(size: nat, nodes: Nodes, x: Id, key: Id)
    requires Linked(size, nodes) && IdealRing(size, nodes) && x in nodes && key < size
    ensures |Replies(size, nodes, x, key)| == if Owns(nodes[x], key) then 2 else 1
    decreases if x < size then Dist(size, x, key) else 0
  {
    var n := nodes[x];
    assert IdealNode(size, nodes.Keys, n) && FingersIn(n, nodes.Keys);
    RepliesUnfold(size, nodes, x, key);
    if Route(n, key).Relay? {
      var f := Route(n, key).next;
      RelayMissesOwner(size, nodes.Keys, n, key);
      assert IdealNode(size, nodes.Keys, nodes[f]);
      OwnsIffOwner(size, nodes.Keys, nodes[f], key);
      RepliesCount(size, nodes, f, key);
    }
  }

  lemma OwnKeyReplies(size: nat, nodes: Nodes, x: Id)
    requires Linked(size, nodes) && IdealRing(size, nodes) && x in nodes && x < size
    ensures nodes[x].successor.Some? && Replies(size, nodes, x, x) == [x, nodes[x].successor.value]
  {
    assert IdealNode(size, nodes.Keys, nodes[x]);
    RepliesUnfold(size, nodes, x, x);
  }

  /**
    Exactly which replies a request produces on an ideal ring. The ownership case of the callback does
    not return, so a request that reaches the owner produces two replies, whatever the fingers; the
    second one is wrong when the key is the owner's own identifier. If every node has its successor
    among its fingers, all other replies name the owner.
   */
  lemma RepliesExactly(size: nat, nodes: Nodes, x: Id, key: Id)
    requires Linked(size, nodes) && IdealRing(size, nodes) && x in nodes && key < size
    ensures |Replies(size, nodes, x, key)| == if Owns(nodes[x], key) then 2 else 1
    ensures key == x ==> nodes[x].successor.Some? && Replies(size, nodes, x, key) == [x, nodes[x].successor.value]
    ensures Routable(size, nodes) && Owns(nodes[x], key) && key != x ==> Replies(size, nodes, x, key) == [x, x]
    ensures Routable(size, nodes) && !Owns(nodes[x], key) ==>
              exists o: Id :: IsOwner(size, nodes.Keys, key, o) && Replies(size, nodes, x, key) == [o]
  {
    RepliesCount(size, nodes, x, key);
    if key == x {
      assert IdealNode(size, nodes.Keys, nodes[x]);
      OwnKeyReplies(size, nodes, x);
    } else if Routable(size, nodes) {
      RingNode(size, nodes, x);
      if Owns(nodes[x], key) {
        OwnerRepliesTwice(size, nodes, x, key);
      } else {
        OwnsIffOwner(size, nodes.Keys, nodes[x], key);
        var o := OneReply(size, nodes, x, key);
      }
    }
  }

  /** A lookup issued at `x`: answered locally, or by the first reply to a remote request. */
  ghost function Lookup(size: nat, nodes: Nodes, x: Id, key: Id): (o: Id)
    requires Linked(size, nodes) && x in nodes && key < size
  {
    match FindLocal(nodes[x], key)
    case Reply(owner) => owner
    case Relay(next) =>
      RelayIsFinger(nodes[x], key);
      assert FingersIn(nodes[x], nodes.Keys);
      var r := Replies(size, nodes, next, key);
      if r == [] then x else r[0]
  }

  /** Every lookup names the key's owner, and a remote one gets exactly one reply. */
  lemma LookupIsOwner(size: nat, nodes: Nodes, x: Id, key: Id)
    requires Linked(size, nodes) && Routable(size, nodes) && x in nodes && key < size
    ensures IsOwner(size, nodes.Keys, key, Lookup(size, nodes, x, key))
    ensures FindLocal(nodes[x], key).Relay? ==>
              var f := FindLocal(nodes[x], key).next;
              f in nodes && Replies(size, nodes, f, key) == [Lookup(size, nodes, x, key)]
  {
    RingNode(size, nodes, x);
    OwnsIffOwner(size, nodes.Keys, nodes[x], key);
    if !Owns(nodes[x], key) {
      Decision(size, nodes.Keys, nodes[x], key);
      if Route(nodes[x], key).Relay? {
        var o := OneReply(size, nodes, Route(nodes[x], key).next, key);
      }
    }
  }

  // ------------------------------------------------------------------ hop count

  /** How often a request for `key` delivered at `x` is relayed. */
  ghost function Hops(size: nat, nodes: Nodes, x: Id, key: Id): (h: nat)
    requires Linked(size, nodes) && x in nodes && key < size
    decreases if x < size then Dist(size, x, key) else 0
  {
    match HandleFind(nodes[x], key)
    case FindError => 0
    case FindSent(_, Reply(_)) => 0
    case FindSent(_, Relay(next)) =>
      RelayIsFinger(nodes[x], key);
      assert FingersIn(nodes[x], nodes.Keys) && next in nodes;
      assert FingersIn(nodes[next], nodes.Keys);
      RelayIsCloser(size, x, next, key);
      1 + Hops(size, nodes, next, key)
  }

  /** Finger `i` points at the owner of the identifier 2^i after the node. */
  ghost predicate CorrectFinger(size: nat, members: set<Id>, n: Node, i: nat)
    requires size > 0 && i < |n.fingers|
  {
    n.fingers[i].Some? && IsOwner(size, members, FingerTarget(size, n.id, Pow2(i)), n.fingers[i].value)
  }

  ghost predicate CorrectFingers(size: nat, bits: nat, members: set<Id>, n: Node)
    requires size > 0
  {
    |n.fingers| == bits && forall i :: 0 <= i < bits ==> CorrectFinger(size, members, n, i)
  }

  /** `q` is the last member strictly before the key. */
  ghost predicate IsPreceding(members: set<Id>, key: Id, q: Id) {
    q in members && q != key && forall m {:trigger Between(m, q, key)} :: m in members ==> !Between(m, q, key)
  }

  lemma {:induction false} Pow2Monotone(i: nat, j: nat)
    requires i <= j
    ensures Pow2(i) <= Pow2(j)
  {
    if i < j {
      Pow2Monotone(i, j - 1);
    }
  }

  /** The exponent of the largest power of two not above `d`. */
  lemma {:induction false} Log2(d: nat, k: nat) returns (i: nat)
    requires 0 < d < Pow2(k)
    ensures i < k && Pow2(i) <= d < Pow2(i + 1)
  {
    if d >= Pow2(k - 1) {
      i := k - 1;
    } else {
      i := Log2(d, k - 1);
    }
  }

  lemma TargetDist(size: nat, x: Id, offset: nat)
    requires x < size && offset < size
    ensures Dist(size, x, FingerTarget(size, x, offset)) == offset
  {
    if x + offset >= size {
      WrapsOnce(x + offset, size);
    } else {
      assert (x + offset) % size == x + offset;
    }
  }

  lemma WrapsOnce(a: nat, size: nat)
    requires size <= a < 2 * size
    ensures a % size == a - size
  {
    assert a / size == 1;
  }

  /** The owner of an identifier `offset` away is itself at least `offset` away, or the node. */
  lemma FingerSpan(size: nat, members: set<Id>, x: Id, offset: nat, o: Id)
    requires x in members && x < size && offset < size
    requires IsOwner(size, members, FingerTarget(size, x, offset), o)
    ensures o == x || Dist(size, x, o) >= offset
    ensures forall m :: m in members && Dist(size, x, m) >= offset && o != x ==> Dist(size, x, o) <= Dist(size, x, m)
    ensures forall m :: m in members && m != x && Dist(size, x, m) >= offset && offset > 0 ==> o != x
  {
    var t := FingerTarget(size, x, offset);
    TargetDist(size, x, offset);
    forall m | m in members && m != x && Dist(size, x, m) >= offset && offset > 0
      ensures o != x && Dist(size, x, o) <= Dist(size, x, m)
    {
      DistAdds(size, x, t, m);
      assert Dist(size, t, o) <= Dist(size, t, m);
      DistRoundTrip(size, x, t);
    }
    assert Dist(size, t, o) <= Dist(size, t, x);
  }

  /** The finger for 2^i lies strictly before the key if the key's predecessor is that far away. */
  lemma FingerIsBefore(size: nat, bits: nat, members: set<Id>, n: Node, key: Id, q: Id, i: nat)
    requires size == Pow2(bits) && n.id in members && OnCircle(size, members) && key < size
    requires CorrectFingers(size, bits, members, n) && IsPreceding(members, key, q)
    requires i < bits && Pow2(i) <= Dist(size, n.id, q) && Between(q, n.id, key)
    ensures n.fingers[i].Some? && Between(n.fingers[i].value, n.id, key)
  {
    Pow2Monotone(i + 1, bits);
    assert CorrectFinger(size, members, n, i);
    FingerSpan(size, members, n.id, Pow2(i), n.fingers[i].value);
    BetweenIsDistance(size, n.fingers[i].value, n.id, key);
    BetweenIsDistance(size, q, n.id, key);
  }

  /** Of two identifiers before the key, the one that is not past the other is no further. */
  lemma NotPast(size: nat, x: Id, f: Id, q: Id, key: Id)
    requires x < size && f < size && q < size && key < size
    requires Between(f, x, key) && Between(q, x, key) && !Between(f, q, key)
    ensures Dist(size, x, f) <= Dist(size, x, q)
  {
  }

  /** The relay target is the finger of some power of two that is at least 2^i. */
  lemma RelayIsHighFinger(size: nat, bits: nat, members: set<Id>, n: Node, key: Id, q: Id, i: nat) returns (j: nat)
    requires size == Pow2(bits) && n.id in members && OnCircle(size, members) && key < size
    requires CorrectFingers(size, bits, members, n) && IsPreceding(members, key, q)
    requires Route(n, key).Relay? && i < bits && Pow2(i) <= Dist(size, n.id, q)
    ensures i <= j < bits && n.fingers[j] == Some(Route(n, key).next)
    ensures Between(Route(n, key).next, n.id, key) && Between(q, n.id, key)
  {
    j := ScanFindsHighest(n, key, |n.fingers|);
    assert Between(q, n.id, key) by {
      assert !Between(n.id, q, key);
      assert Between(Route(n, key).next, n.id, key);
    }
    FingerIsBefore(size, bits, members, n, key, q, i);
  }

  /** With correct fingers a relay goes at least 2^i, and not past the key's predecessor. */
  lemma RelayJumps(size: nat, bits: nat, members: set<Id>, n: Node, key: Id, q: Id, i: nat)
    requires size == Pow2(bits) && n.id in members && OnCircle(size, members) && key < size
    requires CorrectFingers(size, bits, members, n) && IsPreceding(members, key, q)
    requires Route(n, key).Relay? && i < bits && Pow2(i) <= Dist(size, n.id, q)
    ensures var f := Route(n, key).next;
            f in members && Pow2(i) <= Dist(size, n.id, f) <= Dist(size, n.id, q)
  {
    var f := Route(n, key).next;
    var j := RelayIsHighFinger(size, bits, members, n, key, q, i);
    Pow2Monotone(i, j);
    Pow2Monotone(j + 1, bits);
    assert CorrectFinger(size, members, n, j);
    FingerSpan(size, members, n.id, Pow2(j), f);
    assert !Between(f, q, key);
    NotPast(size, n.id, f, q, key);
  }

  ghost predicate AllCorrect(size: nat, bits: nat, nodes: Nodes)
    requires size > 0
  {
    forall x {:trigger CorrectFingers(size, bits, nodes.Keys, nodes[x])} :: x in nodes ==>
      CorrectFingers(size, bits, nodes.Keys, nodes[x])
  }

  /**
    With correct fingers each relay brings the distance to the key's predecessor below the next
    lower power of two.
   */
  lemma {:induction false} HopsBelow(size: nat, bits: nat, nodes: Nodes, x: Id, key: Id, q: Id, k: nat)
    requires size == Pow2(bits) && Linked(size, nodes) && AllCorrect(size, bits, nodes)
    requires OnCircle(size, nodes.Keys) && x in nodes && key < size
    requires IsPreceding(nodes.Keys, key, q) && k <= bits && Dist(size, x, q) < Pow2(k)
    ensures Hops(size, nodes, x, key) <= k
    decreases k
  {
    var n := nodes[x];
    assert FingersIn(n, nodes.Keys);
    if n.successor != Some(x) && Route(n, key).Relay? {
      var f := Route(n, key).next;
      RelayIsFinger(n, key);
      assert !Between(f, q, key);
      var d := Dist(size, x, q);
      var i := Log2(d, k);
      assert CorrectFingers(size, bits, nodes.Keys, n);
      RelayJumps(size, bits, nodes.Keys, n, key, q, i);
      DistAdds(size, x, f, q);
      HopsBelow(size, bits, nodes, f, key, q, i);
    }
  }

  /** The predecessor of the owner is the last member before the key. */
  lemma OwnersPredecessor(size: nat, nodes: Nodes, key: Id, o: Id)
    requires IdealRing(size, nodes) && IsOwner(size, nodes.Keys, key, o)
    ensures nodes[o].predecessor.Some? && IsPreceding(nodes.Keys, key, nodes[o].predecessor.value)
  {
    assert IdealNode(size, nodes.Keys, nodes[o]);
    OwnsIffOwner(size, nodes.Keys, nodes[o], key);
    var q := nodes[o].predecessor.value;
    forall m | m in nodes ensures !Between(m, q, key) {
      assert !Between(m, q, o);
    }
  }

  /** The identifier right after a node belongs to its successor. */
  lemma NextIdentifier(size: nat, members: set<Id>, n: Node)
    requires IdealNode(size, members, n)
    ensures BetweenRightInclude(FingerTarget(size, n.id, 1), n.id, n.successor.value)
    ensures IsOwner(size, members, FingerTarget(size, n.id, 1), n.successor.value)
  {
    TargetDist(size, n.id, 1);
    var t := FingerTarget(size, n.id, 1);
    BetweenIsDistance(size, t, n.id, n.successor.value);
    SuccessorOwns(size, members, n, t);
  }

  /** A correct first finger is the successor. */
  lemma CorrectFirst(size: nat, members: set<Id>, n: Node)
    requires IdealNode(size, members, n) && |n.fingers| > 0
    ensures CorrectFinger(size, members, n, 0) <==> n.fingers[0] == n.successor
  {
    NextIdentifier(size, members, n);
    if CorrectFinger(size, members, n, 0) {
      OwnerIsUnique(size, members, FingerTarget(size, n.id, 1), n.successor.value, n.fingers[0].value);
    }
  }

  /** Correct fingers are members, and the first is the successor. */
  lemma CorrectIsRoutable(size: nat, bits: nat, nodes: Nodes)
    requires size > 0 && bits > 0 && IdealRing(size, nodes) && AllCorrect(size, bits, nodes)
    ensures Routable(size, nodes) && Linked(size, nodes)
  {
    forall x | x in nodes ensures RoutesNode(nodes.Keys, nodes[x]) {
      var n := nodes[x];
      assert IdealNode(size, nodes.Keys, n) && CorrectFingers(size, bits, nodes.Keys, n);
      assert CorrectFinger(size, nodes.Keys, n, 0);
      CorrectFirst(size, nodes.Keys, n);
      forall f | f in n.fingers && f.Some? ensures f.value in nodes.Keys {
        var i :| 0 <= i < |n.fingers| && n.fingers[i] == f;
        assert CorrectFinger(size, nodes.Keys, n, i);
      }
    }
    RoutableIsLinked(size, nodes);
  }

  /** On an ideal ring with correct fingers a request is relayed at most ChordBits times. */
  lemma HopsAreLogarithmic(size: nat, bits: nat, nodes: Nodes, x: Id, key: Id)
    requires size == Pow2(bits) && bits > 0 && IdealRing(size, nodes) && AllCorrect(size, bits, nodes)
    requires x in nodes && key < size
    ensures Linked(size, nodes) && Hops(size, nodes, x, key) <= bits
  {
    CorrectIsRoutable(size, bits, nodes);
    LookupIsOwner(size, nodes, x, key);
    var o := Lookup(size, nodes, x, key);
    OwnersPredecessor(size, nodes, key, o);
    HopsBelow(size, bits, nodes, x, key, nodes[o].predecessor.value, bits);
  }

  // ------------------------------------------------------------ replacing one node

  lemma ReplaceIdeal(size: nat, nodes: Nodes, n: Node)
    requires IdealRing(size, nodes) && n.id in nodes && IdealNode(size, nodes.Keys, n)
    ensures IdealRing(size, nodes[n.id := n])
  {
    var nodes' := nodes[n.id := n];
    assert nodes'.Keys == nodes.Keys;
    forall y {:trigger IdealNode(size, nodes'.Keys, nodes'[y])} | y in nodes'
      ensures IdealNode(size, nodes'.Keys, nodes'[y])
    {
      assert IdealNode(size, nodes.Keys, nodes[y]);
    }
  }

  lemma ReplaceRoutes(nodes: Nodes, n: Node)
    requires AllRoute(nodes) && n.id in nodes && RoutesNode(nodes.Keys, n)
    ensures AllRoute(nodes[n.id := n])
  {
    var nodes' := nodes[n.id := n];
    assert nodes'.Keys == nodes.Keys;
    forall y | y in nodes' ensures RoutesNode(nodes'.Keys, nodes'[y]) {
      assert RoutesNode(nodes.Keys, nodes[y]);
    }
  }

  lemma ReplaceNode(size: nat, nodes: Nodes, n: Node)
    requires Routable(size, nodes) && n.id in nodes
    requires IdealNode(size, nodes.Keys, n) && RoutesNode(nodes.Keys, n)
    ensures Linked(size, nodes[n.id := n]) && Routable(size, nodes[n.id := n])
    ensures nodes[n.id := n].Keys == nodes.Keys
  {
    ReplaceIdeal(size, nodes, n);
    ReplaceRoutes(nodes, n);
    RoutableIsLinked(size, nodes[n.id := n]);
  }
}
