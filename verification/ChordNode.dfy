/**
  One Chord node (chord/chord.go, chord/callback.go, chord/storage.go, chord/fingerTable.go):
  its state as a value, its handlers as functions of that value, and the class whose methods
  update the fields in place and are proved against those functions.

  A node is named by its identifier, the collision-free hash of its address; an empty address
  is `None`.
 */
module ChordNode {
  import opened Wrappers
  import opened Circle

  type Value = string

  datatype Node = Node(
    id: Id,
    successor: Option<Id>,
    predecessor: Option<Id>,
    fingers: seq<Option<Id>>,
    fixPointer: nat,
    store: map<Id, Value>)

  // ------------------------------------------------------------------ routing

  /** Scanning the fingers from index `i - 1` down, the first one strictly between the node and `id`. */
  function ScanFingers(n: Node, id: Id, i: nat): (r: Id)
    requires i <= |n.fingers|
    ensures r == n.id || Between(r, n.id, id)
  {
    if i == 0 then n.id
    else if n.fingers[i - 1].Some? && Between(n.fingers[i - 1].value, n.id, id) then n.fingers[i - 1].value
    else ScanFingers(n, id, i - 1)
  }

  /** The scan finds the finger of highest index strictly between the node and `id`, if there is one. */
  lemma {:induction false} ScanFindsHighest(n: Node, id: Id, i: nat) returns (j: int)
    requires i <= |n.fingers|
    ensures -1 <= j < i
    ensures j >= 0 ==> n.fingers[j] == Some(ScanFingers(n, id, i)) && ScanFingers(n, id, i) != n.id
    ensures j == -1 ==> ScanFingers(n, id, i) == n.id
    ensures forall k :: j < k < i && n.fingers[k].Some? ==> !Between(n.fingers[k].value, n.id, id)
  {
    if i == 0 {
      j := -1;
    } else if n.fingers[i - 1].Some? && Between(n.fingers[i - 1].value, n.id, id) {
      j := i - 1;
    } else {
      j := ScanFindsHighest(n, id, i - 1);
    }
  }

  function ClosestPrecedingNode(n: Node, id: Id): (r: Id)
    ensures r == n.id || Between(r, n.id, id)
  {
    ScanFingers(n, id, |n.fingers|)
  }

  /** The key lies in the interval the node knows to be its own. */
  predicate Owns(n: Node, id: Id) {
    id == n.id || (n.predecessor.Some? && BetweenRightInclude(id, n.predecessor.value, n.id))
  }

  /** Where a lookup goes next: an answer, or another node to ask. */
  datatype Hop = Reply(owner: Id) | Relay(next: Id)

  /** The part of a lookup that follows the ownership test, shared by local and remote lookups. */
  function Route(n: Node, id: Id): (r: Hop)
    ensures r.Relay? ==> Between(r.next, n.id, id)
  {
    match n.successor
    case None => Reply(n.id)
    case Some(s) =>
      if BetweenRightInclude(id, n.id, s) then Reply(s)
      else
        var nStar := ClosestPrecedingNode(n, id);
        if nStar == n.id then Reply(s) else Relay(nStar)
  }

  /** A relay goes to a finger. */
  lemma RelayIsFinger(n: Node, id: Id)
    requires Route(n, id).Relay?
    ensures Some(Route(n, id).next) in n.fingers
  {
    var j := ScanFindsHighest(n, id, |n.fingers|);
  }

  /** A lookup issued by the node itself. */
  function FindLocal(n: Node, id: Id): (r: Hop)
    ensures r.Relay? ==> Between(r.next, n.id, id) && !Owns(n, id)
  {
    if Owns(n, id) then Reply(n.id) else Route(n, id)
  }

  /**
    What a remote lookup request makes the node send. The ownership test sends a reply and does
    not return, so the rest of the callback always sends something as well.
   */
  datatype FindOutput = FindError | FindSent(early: Option<Id>, last: Hop)

  function HandleFind(n: Node, id: Id): (r: FindOutput)
    ensures r.FindSent? && r.last.Relay? ==> Between(r.last.next, n.id, id)
  {
    if n.successor == Some(n.id) then FindError
    else FindSent(if Owns(n, id) then Some(n.id) else None, Route(n, id))
  }

  // ------------------------------------------------------- ring maintenance

  function JoinReply(n: Node, owner: Id): (r: Node) {
    if owner != n.id then n.(successor := Some(owner)) else n
  }

  function InitWith(n: Node, member: Id): (r: Node) {
    n.(successor := if n.successor.None? then Some(member) else n.successor,
       predecessor := if n.predecessor.None? then Some(member) else n.predecessor)
  }

  /** A second Init changes nothing, and a pointer that a node has is never overwritten by one. */
  lemma InitOnlyFills(n: Node, a: Id, b: Id)
    ensures InitWith(InitWith(n, a), b) == InitWith(n, a)
    ensures InitWith(n, a) == n <==> (n.successor.Some? && n.predecessor.Some?)
    ensures n.successor.Some? ==> InitWith(n, a).successor == n.successor
    ensures n.predecessor.Some? ==> InitWith(n, a).predecessor == n.predecessor
    ensures InitWith(n, a).successor.Some? && InitWith(n, a).predecessor.Some?
  {
  }

  /** The reply to a Stabilize request: adopt the successor's predecessor if it lies in between. */
  function Adopt(n: Node, reply: Option<Id>): (r: Node) {
    if n.successor.Some? && reply.Some? && Between(reply.value, n.id, n.successor.value)
    then n.(successor := reply)
    else n
  }

  function KeysIn(store: map<Id, Value>, begin: Id, end: Id): (r: map<Id, Value>) {
    map k | k in store && BetweenRightInclude(k, begin, end) :: store[k]
  }

  function WithoutKeysIn(store: map<Id, Value>, begin: Id, end: Id): (r: map<Id, Value>) {
    map k | k in store && !BetweenRightInclude(k, begin, end) :: store[k]
  }

  /** Whether a notify from `from` replaces the predecessor. */
  predicate TakesNotify(n: Node, from: Id) {
    n.predecessor.None? || Between(from, n.predecessor.value, n.id)
  }

  /** The node after a notify from `from`. */
  function Notified(n: Node, from: Id): (r: Node) {
    if !TakesNotify(n, from) then n
    else if n.predecessor.None? then n.(predecessor := Some(from))
    else n.(predecessor := Some(from), store := WithoutKeysIn(n.store, n.predecessor.value, from))
  }

  /** The key-transfer message that a notify from `from` makes the node send, if any. */
  function HandOver(n: Node, from: Id): (r: Option<map<Id, Value>>) {
    if TakesNotify(n, from) && n.predecessor.Some?
    then Some(KeysIn(n.store, n.predecessor.value, from))
    else None
  }

  function ReceiveKeys(n: Node, data: map<Id, Value>): (r: Node) {
    n.(store := n.store + data)
  }

  function InsertKey(n: Node, key: Id, value: Value): (r: Node) {
    n.(store := n.store[key := value])
  }

  function Get(n: Node, key: Id): (r: Option<Value>) {
    if key in n.store then Some(n.store[key]) else None
  }

  /** FixFinger once its lookup has answered `owner`. */
  function FixFingerWith(n: Node, owner: Id): (r: Node)
    requires n.fixPointer < |n.fingers|
  {
    n.(fingers := n.fingers[n.fixPointer := Some(owner)],
       fixPointer := (n.fixPointer + 1) % |n.fingers|)
  }

  /**
    Replacing a known predecessor `p` by `from` moves exactly the keys in (p, from] out of the
    store and into the message, loses nothing, and keeps the node's keys inside its interval.
   */
  lemma HandOverIsExact(size: nat, n: Node, from: Id)
    requires n.predecessor.Some? && TakesNotify(n, from)
    requires n.id < size && from < size && n.predecessor.value < size
    requires forall k :: k in n.store ==> k < size
    ensures HandOver(n, from).Some?
    ensures var sent := HandOver(n, from).value; var kept := Notified(n, from).store;
            && sent.Keys !! kept.Keys && sent + kept == n.store
            && (forall k :: k in sent <==> k in n.store && BetweenRightInclude(k, n.predecessor.value, from))
            && ((forall k :: k in n.store ==> Owns(n, k)) ==>
                  && (forall k :: k in kept ==> Owns(Notified(n, from), k))
                  && (forall k :: k in sent ==> !Owns(Notified(n, from), k)))
  {
    var sent := HandOver(n, from).value;
    var kept := Notified(n, from).store;
    forall k | k in n.store ensures k < size {
      BetweenIsDistance(size, k, n.predecessor.value, n.id);
      BetweenIsDistance(size, k, n.predecessor.value, from);
      BetweenIsDistance(size, from, n.predecessor.value, n.id);
    }
    assert sent + kept == n.store;
  }

  lemma PutOneOfMany(store: map<Id, Value>, data: map<Id, Value>, key: Id)
    requires key in data
    ensures store[key := data[key]] + data == store + data
  {
  }

  // ------------------------------------------------------ the mutable objects

  /** The finger table: a slice of addresses written in place. */
  class FingerTable {
    var data: seq<Option<Id>>
    var fixPointer: nat

    constructor (bits: nat)
      ensures |data| == bits && fixPointer == 0
      ensures forall i :: 0 <= i < bits ==> data[i] == None
    {
      data := seq(bits, i => None);
      fixPointer := 0;
    }

    method Insert(loc: int, address: Option<Id>) returns (r: Result<(), string>)
      modifies this`data
      ensures r.Ok? <==> 0 <= loc < |old(data)|
      ensures data == if r.Ok? then old(data)[loc := address] else old(data)
    {
      if loc < |data| && loc >= 0 {
        data := data[loc := address];
        r := Ok(());
      } else {
        r := Err("insert finger table is out of range");
      }
    }

    method Load(loc: int) returns (r: Result<Option<Id>, string>)
      ensures r.Ok? <==> 0 <= loc < |data|
      ensures r.Ok? ==> r.value == data[loc]
    {
      if loc < |data| && loc >= 0 {
        r := Ok(data[loc]);
      } else {
        r := Err("the index of finger table is out of range");
      }
    }
  }

  /** The key store: a map changed in place, with loops that collect and delete keys. */
  class ChordStorage {
    var data: map<Id, Value>

    constructor ()
      ensures data == map[]
    {
      data := map[];
    }

    method Lookup(key: Id) returns (r: Option<Value>)
      ensures r == if key in data then Some(data[key]) else None
    {
      r := if key in data then Some(data[key]) else None;
    }

    method Put(key: Id, value: Value)
      modifies this
      ensures data == old(data)[key := value]
    {
      data := data[key := value];
    }

    method FindBetweenRightInclude(begin: Id, end: Id) returns (res: map<Id, Value>)
      ensures res == KeysIn(data, begin, end)
    {
      res := map[];
      var todo := data.Keys;
      while todo != {}
        invariant todo <= data.Keys
        invariant res == map k | k in data && k !in todo && BetweenRightInclude(k, begin, end) :: data[k]
        decreases |todo|
      {
        var key :| key in todo;
        if BetweenRightInclude(key, begin, end) {
          res := res[key := data[key]];
        }
        todo := todo - {key};
      }
    }

    method DeleteBetweenRightInclude(begin: Id, end: Id)
      modifies this
      ensures data == WithoutKeysIn(old(data), begin, end)
    {
      var kv := FindBetweenRightInclude(begin, end);
      var todo := kv.Keys;
      while todo != {}
        invariant todo <= kv.Keys
        invariant data == map k | k in old(data) && (k in todo || k !in kv) :: old(data)[k]
        decreases |todo|
      {
        var key :| key in todo;
        data := data - {key};
        todo := todo - {key};
      }
      assert forall k :: k in old(data) ==> (k in kv <==> BetweenRightInclude(k, begin, end));
    }
  }

  /** The node object. Waiting for a reply splits an operation into the call and its continuation. */
  class Chord {
    const id: Id
    var successor: Option<Id>
    var predecessor: Option<Id>
    const fingerTable: FingerTable
    const blockStore: ChordStorage

    ghost function View(): (n: Node)
      reads this, fingerTable, blockStore
    {
      Node(id, successor, predecessor, fingerTable.data, fingerTable.fixPointer, blockStore.data)
    }

    constructor (id: Id, bits: nat)
      ensures fresh(fingerTable) && fresh(blockStore)
      ensures View() == Node(id, None, None, seq(bits, i => None), 0, map[])
    {
      this.id := id;
      successor := None;
      predecessor := None;
      fingerTable := new FingerTable(bits);
      blockStore := new ChordStorage();
    }

    /** No finger from index `from` up lies strictly between the node and `key`. */
    ghost predicate NoneBetween(from: nat, key: Id)
      reads this, fingerTable
    {
      forall j :: from <= j < |fingerTable.data| && fingerTable.data[j].Some? ==>
        !Between(fingerTable.data[j].value, id, key)
    }

    /** Finger `i` holds `node`, lies strictly between the node and `key`, and no higher finger does. */
    ghost predicate IsHighestBetween(i: nat, node: Id, key: Id)
      reads this, fingerTable
    {
      && i < |fingerTable.data|
      && fingerTable.data[i] == Some(node)
      && Between(node, id, key)
      && NoneBetween(i + 1, key)
    }

    /** Returns the highest finger strictly between the node and `key`, or the node itself. */
    method ClosestPreceding(key: Id) returns (r: Result<Id, string>)
      ensures r == Ok(ClosestPrecedingNode(View(), key))
      ensures r.value != id ==> exists i :: IsHighestBetween(i, r.value, key)
      ensures r.value == id ==> NoneBetween(0, key)
    {
      var i := |fingerTable.data| - 1;
      while i >= 0
        invariant -1 <= i < |fingerTable.data|
        invariant NoneBetween(i + 1, key)
        invariant ClosestPrecedingNode(View(), key) == ScanFingers(View(), key, i + 1)
      {
        var entry := fingerTable.Load(i);
        if entry.Err? {
          assert false;
        }
        if entry.value.Some? && Between(entry.value.value, id, key) {
          assert IsHighestBetween(i, entry.value.value, key);
          return Ok(entry.value.value);
        }
        i := i - 1;
      }
      r := Ok(id);
    }

    method FindSuccessor(key: Id) returns (r: Hop)
      ensures r == FindLocal(View(), key)
    {
      if key == id || (predecessor.Some? && BetweenRightInclude(key, predecessor.value, id)) {
        return Reply(id);
      }
      if successor.None? {
        return Reply(id);
      }
      if BetweenRightInclude(key, id, successor.value) {
        return Reply(successor.value);
      }
      var nStar := ClosestPreceding(key);
      if nStar.value == id {
        return Reply(successor.value);
      }
      return Relay(nStar.value);
    }

    method FindSuccessorCallback(key: Id) returns (r: FindOutput)
      ensures r == HandleFind(View(), key)
    {
      if successor == Some(id) {
        return FindError;
      }
      var early: Option<Id> := None;
      if key == id || (predecessor.Some? && BetweenRightInclude(key, predecessor.value, id)) {
        early := Some(id);
      }
      if successor.None? {
        return FindSent(early, Reply(id));
      } else if BetweenRightInclude(key, id, successor.value) {
        return FindSent(early, Reply(successor.value));
      } else {
        var nStar := ClosestPreceding(key);
        if nStar.value == id {
          return FindSent(early, Reply(successor.value));
        }
        return FindSent(early, Relay(nStar.value));
      }
    }

    method FinishJoin(owner: Id)
      modifies this
      ensures View() == JoinReply(old(View()), owner)
    {
      if owner != id {
        successor := Some(owner);
      }
    }

    method Init(member: Id)
      modifies this
      ensures View() == InitWith(old(View()), member)
    {
      if successor.None? {
        successor := Some(member);
      }
      if predecessor.None? {
        predecessor := Some(member);
      }
    }

    /** Stabilize once the successor has answered; the result is the node to notify. */
    method FinishStabilize(reply: Option<Id>) returns (notify: Id)
      requires successor.Some?
      modifies this
      ensures View() == Adopt(old(View()), reply)
      ensures successor == Some(notify)
    {
      if reply.Some? && Between(reply.value, id, successor.value) {
        successor := reply;
      }
      notify := successor.value;
    }

    method TransferKey(begin: Id, end: Id) returns (data: map<Id, Value>)
      modifies blockStore
      ensures data == KeysIn(old(blockStore.data), begin, end)
      ensures blockStore.data == WithoutKeysIn(old(blockStore.data), begin, end)
    {
      data := blockStore.FindBetweenRightInclude(begin, end);
      blockStore.DeleteBetweenRightInclude(begin, end);
    }

    method NotifyCallback(from: Id) returns (transfer: Option<map<Id, Value>>)
      modifies this, blockStore
      ensures View() == Notified(old(View()), from)
      ensures transfer == HandOver(old(View()), from)
    {
      var was := predecessor;
      transfer := None;
      if was.None? || Between(from, was.value, id) {
        predecessor := Some(from);
        if was.Some? {
          var data := TransferKey(was.value, from);
          transfer := Some(data);
        }
      }
    }

    method TransferKeyCallback(transferred: map<Id, Value>)
      modifies blockStore
      ensures View() == ReceiveKeys(old(View()), transferred)
    {
      ghost var goal := blockStore.data + transferred;
      var todo := transferred.Keys;
      while todo != {}
        invariant todo <= transferred.Keys
        invariant blockStore.data + transferred == goal
        invariant forall k :: k in transferred && k !in todo ==> k in blockStore.data && blockStore.data[k] == transferred[k]
        decreases |todo|
      {
        var key :| key in todo;
        PutOneOfMany(blockStore.data, transferred, key);
        blockStore.Put(key, transferred[key]);
        todo := todo - {key};
      }
      assert blockStore.data + transferred == blockStore.data;
    }

    method FinishFixFinger(owner: Id)
      requires fingerTable.fixPointer < |fingerTable.data|
      modifies fingerTable
      ensures View() == FixFingerWith(old(View()), owner)
    {
      var r := fingerTable.Insert(fingerTable.fixPointer, Some(owner));
      if r.Ok? {
        fingerTable.fixPointer := (fingerTable.fixPointer + 1) % |fingerTable.data|;
      }
    }
  }
}
