/**
  Finger tables: when exactly lookups on an ideal ring are right, and how FixFinger gets there from
  any tables, in particular the empty ones a node starts with.
 */
module ChordFingers {
  import opened Wrappers
  import opened Sums
  import opened Circle
  import opened ChordNode
  import opened ChordNetwork
  import opened ChordLookup

  /** A table of `bits` fingers that are members or empty, and a position in it. */
  ghost predicate Table(bits: nat, members: set<Id>, n: Node) {
    |n.fingers| == bits && n.fixPointer < bits && FingersIn(n, members)
  }

  ghost predicate Tables(bits: nat, nodes: Nodes) {
    forall x {:trigger Table(bits, nodes.Keys, nodes[x])} :: x in nodes ==> Table(bits, nodes.Keys, nodes[x])
  }

  /** An ideal ring whose fingers are any members or empty. */
  ghost predicate Tabled(size: nat, bits: nat, nodes: Nodes) {
    IdealRing(size, nodes) && Tables(bits, nodes)
  }

  lemma TabledNode(size: nat, bits: nat, nodes: Nodes, x: Id)
    requires Tabled(size, bits, nodes) && x in nodes
    ensures nodes[x].id == x && x < size && IdealNode(size, nodes.Keys, nodes[x]) && Table(bits, nodes.Keys, nodes[x])
    ensures nodes[x].successor.Some? && nodes[x].successor.value in nodes && nodes[x].successor.value != x
  {
    assert IdealNode(size, nodes.Keys, nodes[x]) && Table(bits, nodes.Keys, nodes[x]);
  }

  lemma TabledIsLinked(size: nat, bits: nat, nodes: Nodes)
    requires Tabled(size, bits, nodes)
    ensures Linked(size, nodes)
  {
    forall x | x in nodes ensures nodes[x].id == x && x < size && FingersIn(nodes[x], nodes.Keys) {
      TabledNode(size, bits, nodes, x);
    }
  }

  // -------------------------------------------------- exactly when lookups are right

  /** The second node after `x` is another one if there are at least three. */
  lemma ThirdNode(size: nat, bits: nat, nodes: Nodes, x: Id)
    requires Tabled(size, bits, nodes) && x in nodes && |nodes| >= 3
    ensures nodes[x].successor.Some? && nodes[x].successor.value in nodes
    ensures nodes[nodes[x].successor.value].successor != Some(x)
  {
    TabledNode(size, bits, nodes, x);
    var s := nodes[x].successor.value;
    TabledNode(size, bits, nodes, s);
    if nodes[s].successor == Some(x) {
      forall m | m in nodes.Keys ensures m in {x, s} {
        assert !Between(m, x, s) && !Between(m, s, x);
      }
      assert nodes.Keys <= {x, s};
      SubsetIsSmaller(nodes.Keys, {x, s});
      assert false;
    }
  }

  /** The key right after the successor: its owner is the successor's successor. */
  function KeyBeyond(size: nat, n: Node): (key: Id)
    requires size > 0 && n.successor.Some?
    ensures key < size
  {
    FingerTarget(size, n.successor.value, 1)
  }

  /** Without the successor among its fingers a node answers the key right after it with the successor. */
  lemma BlindNodeAnswers(size: nat, bits: nat, nodes: Nodes, x: Id)
    requires Tabled(size, bits, nodes) && x in nodes && |nodes| >= 3 && nodes[x].successor !in nodes[x].fingers
    ensures nodes[x].successor.Some? && x < size
    ensures FindLocal(nodes[x], KeyBeyond(size, nodes[x])) == Reply(nodes[x].successor.value)
    ensures !IsOwner(size, nodes.Keys, KeyBeyond(size, nodes[x]), nodes[x].successor.value)
  {
    var n := nodes[x];
    TabledNode(size, bits, nodes, x);
    ThirdNode(size, bits, nodes, x);
    var s, key := n.successor.value, KeyBeyond(size, n);
    TabledNode(size, bits, nodes, s);
    var t := nodes[s].successor.value;
    NextIdentifier(size, nodes.Keys, nodes[s]);
    if IsOwner(size, nodes.Keys, key, s) {
      OwnerIsUnique(size, nodes.Keys, key, s, t);
    }
    OwnsIffOwner(size, nodes.Keys, n, key);
    if Owns(n, key) {
      OwnerIsUnique(size, nodes.Keys, key, x, t);
    }
    NothingBetween(size, nodes.Keys, n, s, key);
  }

  lemma NothingBetween(size: nat, members: set<Id>, n: Node, s: Id, key: Id)
    requires IdealNode(size, members, n) && FingersIn(n, members) && n.successor == Some(s) && Some(s) !in n.fingers
    requires key == FingerTarget(size, s, 1) && key != n.id && key != s
    ensures Route(n, key) == Reply(s)
  {
    TargetDist(size, s, 1);
    var j := ScanFindsHighest(n, key, |n.fingers|);
    if j >= 0 {
      var f := n.fingers[j].value;
      assert n.fingers[j] in n.fingers;
      assert !Between(f, n.id, s);
      BetweenIsDistance(size, f, n.id, key);
      BetweenIsDistance(size, f, n.id, s);
    }
  }

  /** All lookups from all nodes for all keys name the owner. */
  ghost predicate LookupsAreRight(size: nat, nodes: Nodes)
    requires Linked(size, nodes)
  {
    forall x: Id, key: Id :: x in nodes && key < size ==> IsOwner(size, nodes.Keys, key, Lookup(size, nodes, x, key))
  }

  /**
    On an ideal ring of at least three nodes, whatever members or gaps the finger tables hold, all
    lookups are right if and only if every node has its successor among its fingers.
   */
  lemma LookupsAreRightIff(size: nat, bits: nat, nodes: Nodes)
    requires Tabled(size, bits, nodes) && |nodes| >= 3
    ensures Linked(size, nodes)
    ensures LookupsAreRight(size, nodes) <==> forall x :: x in nodes ==> nodes[x].successor in nodes[x].fingers
  {
    TabledIsLinked(size, bits, nodes);
    if forall x :: x in nodes ==> nodes[x].successor in nodes[x].fingers {
      SuccessorsRoute(size, bits, nodes);
      forall x: Id, key: Id | x in nodes && key < size ensures IsOwner(size, nodes.Keys, key, Lookup(size, nodes, x, key)) {
        LookupIsOwner(size, nodes, x, key);
      }
    } else {
      var x :| x in nodes && nodes[x].successor !in nodes[x].fingers;
      BlindNodeAnswers(size, bits, nodes, x);
      assert !IsOwner(size, nodes.Keys, KeyBeyond(size, nodes[x]), Lookup(size, nodes, x, KeyBeyond(size, nodes[x])));
    }
  }

  lemma SuccessorsRoute(size: nat, bits: nat, nodes: Nodes)
    requires Tabled(size, bits, nodes) && forall x :: x in nodes ==> nodes[x].successor in nodes[x].fingers
    ensures Routable(size, nodes)
  {
    forall x | x in nodes ensures RoutesNode(nodes.Keys, nodes[x]) {
      TabledNode(size, bits, nodes, x);
    }
  }

  /** Two nodes answer every lookup locally, whatever their fingers. */
  lemma PairIsRight(size: nat, bits: nat, nodes: Nodes)
    requires Tabled(size, bits, nodes) && |nodes| == 2
    ensures Linked(size, nodes) && LookupsAreRight(size, nodes)
  {
    TabledIsLinked(size, bits, nodes);
    forall x: Id, key: Id | x in nodes && key < size ensures IsOwner(size, nodes.Keys, key, Lookup(size, nodes, x, key)) {
      var n := nodes[x];
      TabledNode(size, bits, nodes, x);
      OwnsIffOwner(size, nodes.Keys, n, key);
      if !Owns(n, key) {
        var s := n.successor.value;
        PairNeighbours(nodes.Keys, x, s, n.predecessor.value);
        assert BetweenRightInclude(key, x, s);
        SuccessorOwns(size, nodes.Keys, n, key);
      }
    }
  }

  lemma PairNeighbours(members: set<Id>, x: Id, s: Id, p: Id)
    requires |members| == 2 && x in members && s in members && p in members && s != x && p != x
    ensures s == p
  {
    SubsetIsSmaller({x, s, p}, members);
    assert s != p ==> |{x, s, p}| == 3;
  }

  // ------------------------------------------------------------------ FixFinger calls

  /** The call can be made: the ring is one, and `x` has a table. */
  ghost predicate CanFix(size: nat, nodes: Nodes, x: Id) {
    Linked(size, nodes) && x in nodes && nodes[x].fixPointer < |nodes[x].fingers| && size > 0
  }

  /** One FixFinger call of node `x`, its lookup included. */
  ghost function FixOne(size: nat, nodes: Nodes, x: Id): (r: Nodes) {
    if !CanFix(size, nodes, x) then nodes
    else
      var n := nodes[x];
      nodes[x := FixFingerWith(n, Lookup(size, nodes, x, FingerTarget(size, x, Pow2(n.fixPointer))))]
  }

  /** Whatever the fingers, a request is answered, and only members are named. */
  lemma {:induction false} RepliesAreMembers(size: nat, bits: nat, nodes: Nodes, x: Id, key: Id)
    requires Tabled(size, bits, nodes) && Linked(size, nodes) && x in nodes && key < size
    ensures Replies(size, nodes, x, key) != []
    ensures forall i :: 0 <= i < |Replies(size, nodes, x, key)| ==> Replies(size, nodes, x, key)[i] in nodes
    decreases if x < size then Dist(size, x, key) else 0
  {
    TabledNode(size, bits, nodes, x);
    RepliesUnfold(size, nodes, x, key);
    if Route(nodes[x], key).Relay? {
      var f := Route(nodes[x], key).next;
      TabledNode(size, bits, nodes, f);
      RelayIsCloser(size, x, f, key);
      RepliesAreMembers(size, bits, nodes, f, key);
    }
  }

  lemma LookupIsMember(size: nat, bits: nat, nodes: Nodes, x: Id, key: Id)
    requires Tabled(size, bits, nodes) && Linked(size, nodes) && x in nodes && key < size
    ensures Lookup(size, nodes, x, key) in nodes
  {
    TabledNode(size, bits, nodes, x);
    if FindLocal(nodes[x], key).Relay? {
      RelayIsFinger(nodes[x], key);
      RepliesAreMembers(size, bits, nodes, FindLocal(nodes[x], key).next, key);
    }
  }

  /** The lookup of the first finger is answered locally with the successor, whatever the fingers. */
  lemma FirstFingerLookup(size: nat, bits: nat, nodes: Nodes, x: Id)
    requires Tabled(size, bits, nodes) && Linked(size, nodes) && x in nodes && size > 0
    ensures Some(Lookup(size, nodes, x, FingerTarget(size, x, 1))) == nodes[x].successor
  {
    var n, key := nodes[x], FingerTarget(size, x, 1);
    TabledNode(size, bits, nodes, x);
    NextIdentifier(size, nodes.Keys, n);
    OwnsIffOwner(size, nodes.Keys, n, key);
    if Owns(n, key) {
      OwnerIsUnique(size, nodes.Keys, key, x, n.successor.value);
    }
  }

  lemma FixedTable(bits: nat, members: set<Id>, n: Node, owner: Id)
    requires Table(bits, members, n) && owner in members
    ensures Table(bits, members, FixFingerWith(n, owner))
  {
    var n' := FixFingerWith(n, owner);
    forall f | f in n'.fingers && f.Some? ensures f.value in members {
      var i :| 0 <= i < |n'.fingers| && n'.fingers[i] == f;
      assert i != n.fixPointer ==> n.fingers[i] in n.fingers;
    }
  }

  /** A call changes one finger of one node and keeps the ring. */
  lemma FixOneKeeps(size: nat, bits: nat, nodes: Nodes, x: Id)
    requires Tabled(size, bits, nodes) && Linked(size, nodes) && x in nodes && size > 0
    ensures nodes[x].fixPointer < |nodes[x].fingers|
    ensures var r := FixOne(size, nodes, x);
            && Tabled(size, bits, r) && Linked(size, r) && r.Keys == nodes.Keys
            && r[x].successor == nodes[x].successor && r[x].predecessor == nodes[x].predecessor
            && (forall y :: y in nodes && y != x ==> r[y] == nodes[y])
  {
    var n := nodes[x];
    TabledNode(size, bits, nodes, x);
    var owner := Lookup(size, nodes, x, FingerTarget(size, x, Pow2(n.fixPointer)));
    LookupIsMember(size, bits, nodes, x, FingerTarget(size, x, Pow2(n.fixPointer)));
    FixedTable(bits, nodes.Keys, n, owner);
    var r := FixOne(size, nodes, x);
    ReplaceIdeal(size, nodes, FixFingerWith(n, owner));
    assert r.Keys == nodes.Keys;
    forall y | y in r ensures Table(bits, r.Keys, r[y]) {
      assert Table(bits, nodes.Keys, nodes[y]);
    }
    TabledIsLinked(size, bits, r);
  }

  ghost predicate Within(schedule: seq<Id>, members: set<Id>) {
    forall i :: 0 <= i < |schedule| ==> schedule[i] in members
  }

  /** FixFinger calls of the nodes of a schedule, one after the other. */
  ghost function FixRun(size: nat, nodes: Nodes, schedule: seq<Id>): (r: Nodes)
    decreases |schedule|
  {
    if schedule == [] then nodes
    else FixOne(size, FixRun(size, nodes, schedule[..|schedule| - 1]), schedule[|schedule| - 1])
  }

  /** What the calls need and keep. */
  ghost predicate Ready(size: nat, bits: nat, nodes: Nodes) {
    Tabled(size, bits, nodes) && Linked(size, nodes) && size > 0
  }

  lemma {:induction false} RunKeepsReady(size: nat, bits: nat, nodes: Nodes, schedule: seq<Id>)
    requires Ready(size, bits, nodes) && Within(schedule, nodes.Keys)
    ensures Ready(size, bits, FixRun(size, nodes, schedule)) && FixRun(size, nodes, schedule).Keys == nodes.Keys
    decreases |schedule|
  {
    if schedule != [] {
      var k := |schedule| - 1;
      RunKeepsReady(size, bits, nodes, schedule[..k]);
      FixOneKeeps(size, bits, FixRun(size, nodes, schedule[..k]), schedule[k]);
    }
  }

  /** How often a node calls FixFinger. */
  function Count(schedule: seq<Id>, x: Id): (c: nat) {
    if schedule == [] then 0
    else Count(schedule[..|schedule| - 1], x) + if schedule[|schedule| - 1] == x then 1 else 0
  }

  // -------------------------------------------------------- the first pass: the successor

  predicate First(n: Node) {
    |n.fingers| > 0 && n.fingers[0] == n.successor
  }

  /** If one of the last `k` calls was for finger 0, that finger is the successor. */
  predicate FirstSeen(n: Node, k: nat) {
    (if n.fixPointer == 0 then |n.fingers| else n.fixPointer) <= k ==> First(n)
  }

  lemma FixedFirst(n: Node, owner: Id, k: nat)
    requires n.fixPointer < |n.fingers| && (n.fixPointer == 0 ==> n.successor == Some(owner))
    ensures First(n) || n.fixPointer == 0 ==> First(FixFingerWith(n, owner))
    ensures FirstSeen(n, k) ==> FirstSeen(FixFingerWith(n, owner), k + 1)
  {
    var p, m := n.fixPointer, |n.fingers|;
    assert (p + 1) % m == if p + 1 < m then p + 1 else 0;
  }

  lemma FixOneFirst(size: nat, bits: nat, nodes: Nodes, x: Id, k: nat)
    requires Tabled(size, bits, nodes) && Linked(size, nodes) && x in nodes && size > 0
    ensures nodes[x].fixPointer < |nodes[x].fingers|
    ensures First(nodes[x]) || nodes[x].fixPointer == 0 ==> First(FixOne(size, nodes, x)[x])
    ensures FirstSeen(nodes[x], k) ==> FirstSeen(FixOne(size, nodes, x)[x], k + 1)
  {
    TabledNode(size, bits, nodes, x);
    FirstFingerLookup(size, bits, nodes, x);
    assert Pow2(0) == 1;
    FixedFirst(nodes[x], Lookup(size, nodes, x, FingerTarget(size, x, Pow2(nodes[x].fixPointer))), k);
  }

  /** The last call of a schedule, seen from one node. */
  lemma LastCall(size: nat, bits: nat, nodes: Nodes, schedule: seq<Id>, x: Id, c: nat)
    requires Ready(size, bits, nodes) && Within(schedule, nodes.Keys) && x in nodes && schedule != []
    ensures var k := |schedule| - 1;
            var before, after := FixRun(size, nodes, schedule[..k]), FixRun(size, nodes, schedule);
            && x in before && x in after
            && (schedule[k] != x ==> after[x] == before[x])
            && (First(before[x]) ==> First(after[x]))
            && (schedule[k] == x && before[x].fixPointer == 0 ==> First(after[x]))
            && (schedule[k] == x && FirstSeen(before[x], c) ==> FirstSeen(after[x], c + 1))
  {
    var k := |schedule| - 1;
    RunKeepsReady(size, bits, nodes, schedule[..k]);
    var before := FixRun(size, nodes, schedule[..k]);
    FixOneKeeps(size, bits, before, schedule[k]);
    if schedule[k] == x {
      FixOneFirst(size, bits, before, x, c);
    }
  }

  lemma {:induction false} PassKeepsFirst(size: nat, bits: nat, nodes: Nodes, schedule: seq<Id>, x: Id)
    requires Ready(size, bits, nodes) && Within(schedule, nodes.Keys) && x in nodes && First(nodes[x])
    ensures x in FixRun(size, nodes, schedule) && First(FixRun(size, nodes, schedule)[x])
    decreases |schedule|
  {
    if schedule != [] {
      PassKeepsFirst(size, bits, nodes, schedule[..|schedule| - 1], x);
      LastCall(size, bits, nodes, schedule, x, 0);
    }
  }

  lemma {:induction false} PassSeesFirst(size: nat, bits: nat, nodes: Nodes, schedule: seq<Id>, x: Id)
    requires Ready(size, bits, nodes) && Within(schedule, nodes.Keys) && x in nodes
    ensures x in FixRun(size, nodes, schedule) && FirstSeen(FixRun(size, nodes, schedule)[x], Count(schedule, x))
    decreases |schedule|
  {
    if schedule == [] {
      TabledNode(size, bits, nodes, x);
    } else {
      var k := |schedule| - 1;
      PassSeesFirst(size, bits, nodes, schedule[..k], x);
      LastCall(size, bits, nodes, schedule, x, Count(schedule[..k], x));
    }
  }

  /** As many calls of a node as it has fingers, among any others, make its first finger the successor. */
  lemma PassFindsSuccessor(size: nat, bits: nat, nodes: Nodes, schedule: seq<Id>, x: Id)
    requires Ready(size, bits, nodes) && Within(schedule, nodes.Keys) && x in nodes && Count(schedule, x) >= bits
    ensures x in FixRun(size, nodes, schedule) && First(FixRun(size, nodes, schedule)[x])
  {
    PassSeesFirst(size, bits, nodes, schedule, x);
    RunKeepsReady(size, bits, nodes, schedule);
    TabledNode(size, bits, FixRun(size, nodes, schedule), x);
  }

  /** One call suffices where the table is at its start. */
  lemma {:induction false} FreshTableFindsSuccessor(size: nat, bits: nat, nodes: Nodes, schedule: seq<Id>, x: Id)
    requires Ready(size, bits, nodes) && Within(schedule, nodes.Keys) && x in nodes && nodes[x].fixPointer == 0
    ensures x in FixRun(size, nodes, schedule)
    ensures var n := FixRun(size, nodes, schedule)[x];
            if Count(schedule, x) == 0 then n == nodes[x] else First(n)
    decreases |schedule|
  {
    if schedule != [] {
      FreshTableFindsSuccessor(size, bits, nodes, schedule[..|schedule| - 1], x);
      LastCall(size, bits, nodes, schedule, x, 0);
    }
  }

  lemma FirstsRoute(size: nat, bits: nat, nodes: Nodes)
    requires Tabled(size, bits, nodes) && forall x :: x in nodes ==> First(nodes[x])
    ensures Routable(size, nodes)
  {
    forall x | x in nodes ensures RoutesNode(nodes.Keys, nodes[x]) {
      TabledNode(size, bits, nodes, x);
      assert nodes[x].fingers[0] in nodes[x].fingers;
    }
  }

  /** Any ideal ring routes once every node has run through its table, in whatever order the calls come. */
  lemma PassMakesRoutable(size: nat, bits: nat, nodes: Nodes, schedule: seq<Id>)
    requires Ready(size, bits, nodes) && Within(schedule, nodes.Keys)
    requires forall x :: x in nodes ==> Count(schedule, x) >= if nodes[x].fixPointer == 0 then 1 else bits
    ensures Routable(size, FixRun(size, nodes, schedule)) && Ready(size, bits, FixRun(size, nodes, schedule))
    ensures forall x :: x in FixRun(size, nodes, schedule) ==> First(FixRun(size, nodes, schedule)[x])
  {
    RunKeepsReady(size, bits, nodes, schedule);
    var r := FixRun(size, nodes, schedule);
    forall x | x in r ensures First(r[x]) {
      if nodes[x].fixPointer == 0 {
        FreshTableFindsSuccessor(size, bits, nodes, schedule, x);
      } else {
        PassFindsSuccessor(size, bits, nodes, schedule, x);
      }
    }
    FirstsRoute(size, bits, r);
  }

  // ------------------------------------------------------- the second pass: all fingers

  /** The position `j` places behind `p` on a table of `m` entries. */
  function Behind(p: nat, j: nat, m: nat): (i: nat)
    requires p < m && j <= m
    ensures i < m
  {
    if j <= p then p - j else p + m - j
  }

  /** The fingers of the last `k` calls are correct. */
  ghost predicate RecentCorrect(size: nat, members: set<Id>, n: Node, k: nat)
    requires size > 0
  {
    && n.fixPointer < |n.fingers| && k <= |n.fingers|
    && forall j :: 1 <= j <= k ==> CorrectFinger(size, members, n, Behind(n.fixPointer, j, |n.fingers|))
  }

  function Capped(k: nat, m: nat): (r: nat) {
    if k < m then k else m
  }

  lemma Step(p: nat, m: nat)
    requires p < m
    ensures (p + 1) % m == if p + 1 < m then p + 1 else 0
  {
  }

  lemma FixedRecent(size: nat, members: set<Id>, n: Node, owner: Id, k: nat)
    requires size > 0 && RecentCorrect(size, members, n, k)
    requires IsOwner(size, members, FingerTarget(size, n.id, Pow2(n.fixPointer)), owner)
    ensures RecentCorrect(size, members, FixFingerWith(n, owner), Capped(k + 1, |n.fingers|))
  {
    var n' := FixFingerWith(n, owner);
    var p, m := n.fixPointer, |n.fingers|;
    Step(p, m);
    forall j | 1 <= j <= Capped(k + 1, m) ensures CorrectFinger(size, members, n', Behind(n'.fixPointer, j, m)) {
      if j == 1 {
        assert Behind(n'.fixPointer, 1, m) == p;
      } else {
        var i := Behind(p, j - 1, m);
        assert Behind(n'.fixPointer, j, m) == i != p;
        assert CorrectFinger(size, members, n, i);
        assert n'.fingers[i] == n.fingers[i];
      }
    }
  }

  /** The nodes that call have their successor first, so a call leaves the ring routable. */
  lemma FixOneRoutes(size: nat, bits: nat, nodes: Nodes, x: Id)
    requires Tabled(size, bits, nodes) && Linked(size, nodes) && Routable(size, nodes) && x in nodes && size > 0
    requires First(nodes[x])
    ensures nodes[x].fixPointer < |nodes[x].fingers|
    ensures Routable(size, FixOne(size, nodes, x)) && First(FixOne(size, nodes, x)[x])
  {
    FixOneKeeps(size, bits, nodes, x);
    FixOneFirst(size, bits, nodes, x, 0);
    var r := FixOne(size, nodes, x);
    forall y | y in r ensures RoutesNode(r.Keys, r[y]) {
      TabledNode(size, bits, r, y);
      if y == x {
        assert r[x].fingers[0] in r[x].fingers;
      } else {
        assert RoutesNode(nodes.Keys, nodes[y]);
      }
    }
  }

  /** Callers that have their successor first keep it, and the ring stays routable. */
  lemma {:induction false} PassKeepsRoutable(size: nat, bits: nat, nodes: Nodes, schedule: seq<Id>)
    requires Ready(size, bits, nodes) && Within(schedule, nodes.Keys)
    requires Routable(size, nodes) && forall i :: 0 <= i < |schedule| ==> First(nodes[schedule[i]])
    ensures Routable(size, FixRun(size, nodes, schedule))
    decreases |schedule|
  {
    if schedule != [] {
      var k := |schedule| - 1;
      PassKeepsRoutable(size, bits, nodes, schedule[..k]);
      PassKeepsFirst(size, bits, nodes, schedule[..k], schedule[k]);
      RunKeepsReady(size, bits, nodes, schedule[..k]);
      FixOneRoutes(size, bits, FixRun(size, nodes, schedule[..k]), schedule[k]);
    }
  }

  lemma FixOneRecent(size: nat, bits: nat, nodes: Nodes, x: Id, k: nat)
    requires Tabled(size, bits, nodes) && Linked(size, nodes) && Routable(size, nodes) && x in nodes && size > 0
    requires RecentCorrect(size, nodes.Keys, nodes[x], k)
    ensures RecentCorrect(size, nodes.Keys, FixOne(size, nodes, x)[x], Capped(k + 1, bits))
  {
    var t := FingerTarget(size, x, Pow2(nodes[x].fixPointer));
    TabledNode(size, bits, nodes, x);
    LookupIsOwner(size, nodes, x, t);
    FixedRecent(size, nodes.Keys, nodes[x], Lookup(size, nodes, x, t), k);
  }

  lemma LastCallCorrects(size: nat, bits: nat, nodes: Nodes, schedule: seq<Id>, x: Id, c: nat)
    requires Ready(size, bits, nodes) && Within(schedule, nodes.Keys) && x in nodes && schedule != []
    requires Routable(size, nodes) && (forall i :: 0 <= i < |schedule| ==> First(nodes[schedule[i]]))
    requires var before := FixRun(size, nodes, schedule[..|schedule| - 1]);
             x in before && RecentCorrect(size, nodes.Keys, before[x], c)
    ensures var after := FixRun(size, nodes, schedule);
            && x in after
            && RecentCorrect(size, nodes.Keys, after[x], if schedule[|schedule| - 1] == x then Capped(c + 1, bits) else c)
  {
    var k := |schedule| - 1;
    RunKeepsReady(size, bits, nodes, schedule[..k]);
    PassKeepsRoutable(size, bits, nodes, schedule[..k]);
    var before := FixRun(size, nodes, schedule[..k]);
    FixOneKeeps(size, bits, before, schedule[k]);
    if schedule[k] == x {
      FixOneRecent(size, bits, before, x, c);
    }
  }

  /** On a routable ring every call of a node makes one more of its fingers correct, whoever else calls. */
  lemma {:induction false} PassCorrects(size: nat, bits: nat, nodes: Nodes, schedule: seq<Id>, x: Id, k: nat)
    requires Ready(size, bits, nodes) && Within(schedule, nodes.Keys) && x in nodes && k <= bits
    requires Routable(size, nodes) && (forall i :: 0 <= i < |schedule| ==> First(nodes[schedule[i]]))
    requires RecentCorrect(size, nodes.Keys, nodes[x], k)
    ensures x in FixRun(size, nodes, schedule)
    ensures RecentCorrect(size, nodes.Keys, FixRun(size, nodes, schedule)[x], Capped(k + Count(schedule, x), bits))
    decreases |schedule|
  {
    if schedule != [] {
      var i := |schedule| - 1;
      PassCorrects(size, bits, nodes, schedule[..i], x, k);
      LastCallCorrects(size, bits, nodes, schedule, x, Capped(k + Count(schedule[..i], x), bits));
    }
  }

  lemma AllRecent(size: nat, members: set<Id>, n: Node)
    requires size > 0 && RecentCorrect(size, members, n, |n.fingers|)
    ensures CorrectFingers(size, |n.fingers|, members, n)
  {
    var p, m := n.fixPointer, |n.fingers|;
    forall i | 0 <= i < m ensures CorrectFinger(size, members, n, i) {
      var j := if i < p then p - i else p + m - i;
      assert Behind(p, j, m) == i;
    }
  }

  /**
    From any ideal ring with any tables, two passes of FixFinger calls in any order make all fingers
    correct: the first finds every node's successor, the second everything else.
   */
  lemma TwoPassesCorrectAll(size: nat, bits: nat, nodes: Nodes, first: seq<Id>, second: seq<Id>)
    requires Ready(size, bits, nodes) && Within(first, nodes.Keys) && Within(second, nodes.Keys)
    requires forall x :: x in nodes ==> Count(first, x) >= if nodes[x].fixPointer == 0 then 1 else bits
    requires forall x :: x in nodes ==> Count(second, x) >= bits
    ensures var r := FixRun(size, FixRun(size, nodes, first), second);
            && r.Keys == nodes.Keys && Ready(size, bits, r) && Routable(size, r) && AllCorrect(size, bits, r)
  {
    var mid := FixRun(size, nodes, first);
    RunKeepsReady(size, bits, nodes, first);
    PassMakesRoutable(size, bits, nodes, first);
    RunKeepsReady(size, bits, mid, second);
    PassKeepsRoutable(size, bits, mid, second);
    var r := FixRun(size, mid, second);
    forall x | x in r ensures CorrectFingers(size, bits, r.Keys, r[x]) {
      TabledNode(size, bits, mid, x);
      TabledNode(size, bits, r, x);
      PassCorrects(size, bits, mid, second, x, 0);
      AllRecent(size, r.Keys, r[x]);
    }
  }

  lemma {:induction false} FirstCallFirst(size: nat, nodes: Nodes, x: Id, rest: seq<Id>)
    ensures FixRun(size, nodes, [x] + rest) == FixRun(size, FixOne(size, nodes, x), rest)
    decreases |rest|
  {
    var k := |rest| - 1;
    if rest == [] {
      assert [x] + rest == [x] && [x][..0] == [];
      assert FixRun(size, nodes, []) == nodes;
    } else {
      assert ([x] + rest)[..k + 1] == [x] + rest[..k];
      FirstCallFirst(size, nodes, x, rest[..k]);
    }
  }

  function Calls(x: Id, k: nat): (s: seq<Id>) {
    seq(k, _ => x)
  }

  lemma {:induction false} CallsCount(x: Id, k: nat)
    ensures Count(Calls(x, k), x) == k
  {
    if k > 0 {
      assert Calls(x, k)[..k - 1] == Calls(x, k - 1);
      CallsCount(x, k - 1);
    }
  }

  lemma RunOfFirst(size: nat, bits: nat, nodes: Nodes, x: Id, k: nat)
    requires Ready(size, bits, nodes) && Routable(size, nodes) && x in nodes && First(nodes[x])
    requires k <= bits && RecentCorrect(size, nodes.Keys, nodes[x], k)
    ensures x in FixRun(size, nodes, Calls(x, bits - k))
    ensures CorrectFingers(size, bits, nodes.Keys, FixRun(size, nodes, Calls(x, bits - k))[x])
  {
    CallsCount(x, bits - k);
    PassCorrects(size, bits, nodes, Calls(x, bits - k), x, k);
    RunKeepsReady(size, bits, nodes, Calls(x, bits - k));
    TabledNode(size, bits, FixRun(size, nodes, Calls(x, bits - k)), x);
    AllRecent(size, nodes.Keys, FixRun(size, nodes, Calls(x, bits - k))[x]);
  }

  lemma FirstCallRoutes(size: nat, bits: nat, nodes: Nodes, x: Id)
    requires Ready(size, bits, nodes) && x in nodes && nodes[x].fixPointer == 0
    requires forall y :: y in nodes && y != x ==> RoutesNode(nodes.Keys, nodes[y])
    ensures var r := FixOne(size, nodes, x);
            && r.Keys == nodes.Keys && Ready(size, bits, r) && Routable(size, r)
            && First(r[x]) && RecentCorrect(size, r.Keys, r[x], 1)
  {
    FixOneKeeps(size, bits, nodes, x);
    FixOneFirst(size, bits, nodes, x, 0);
    var r := FixOne(size, nodes, x);
    forall y | y in r ensures RoutesNode(r.Keys, r[y]) {
      TabledNode(size, bits, r, y);
      assert y == x ==> r[x].fingers[0] in r[x].fingers;
    }
    TabledNode(size, bits, nodes, x);
    TabledNode(size, bits, r, x);
    CorrectFirst(size, r.Keys, r[x]);
    Step(0, bits);
  }

  /**
    ChordBits consecutive calls make the fingers of a node correct if the other nodes have their
    successors among their fingers and the node starts a fresh table or has its successor first.
   */
  lemma FixAllCorrects(size: nat, bits: nat, nodes: Nodes, x: Id)
    requires Ready(size, bits, nodes) && x in nodes && (nodes[x].fixPointer == 0 || First(nodes[x]))
    requires forall y :: y in nodes && y != x ==> RoutesNode(nodes.Keys, nodes[y])
    ensures x in FixRun(size, nodes, Calls(x, bits))
    ensures CorrectFingers(size, bits, nodes.Keys, FixRun(size, nodes, Calls(x, bits))[x])
  {
    TabledNode(size, bits, nodes, x);
    if nodes[x].fixPointer == 0 {
      FirstCallRoutes(size, bits, nodes, x);
      RunOfFirst(size, bits, FixOne(size, nodes, x), x, 1);
      assert Calls(x, bits) == [x] + Calls(x, bits - 1);
      FirstCallFirst(size, nodes, x, Calls(x, bits - 1));
    } else {
      assert nodes[x].fingers[0] in nodes[x].fingers;
      forall y | y in nodes ensures RoutesNode(nodes.Keys, nodes[y]) {
      }
      RunOfFirst(size, bits, nodes, x, 0);
    }
  }
}
