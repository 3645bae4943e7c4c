/**
  The world state as the program keeps it (blockchain/storage/simple.go, blockchain/account/state.go,
  blockchain/miner/execute.go, blockchain/miner/daemon.go): a map from addresses to account objects
  that are changed in place, copied in depth before a block is built or checked.
 */
module WorldState {
  import opened Wrappers
  import opened Ledger
  import opened Mining

  class State {
    var nonce: nat
    var balance: nat
    var storageRoot: map<string, Item>
    var code: string

    constructor (nonce: nat, balance: nat, storageRoot: map<string, Item>, code: string)
      ensures View() == Account(nonce, balance, storageRoot, code)
    {
      this.nonce, this.balance, this.storageRoot, this.code := nonce, balance, storageRoot, code;
    }

    function View(): (a: Account)
      reads this
    {
      Account(nonce, balance, storageRoot, code)
    }

    /** A copy that shares nothing with the original. */
    method Copy() returns (ret: State)
      ensures fresh(ret) && ret.View() == View()
    {
      ret := new State(nonce, balance, storageRoot, code);
    }
  }

  class WorldKV {
    var internal: map<Addr, State>
    ghost var contents: World
    ghost var Repr: set<object>

    /** Every account has its own object, which holds what `contents` says. */
    ghost predicate Valid()
      reads this, Repr
    {
      && this in Repr && contents.Keys == internal.Keys
      && (forall a {:trigger internal[a]} :: a in internal ==> internal[a] in Repr && internal[a].View() == contents[a])
      && (forall a, b {:trigger internal[a], internal[b]} ::
            a in internal && b in internal && internal[a] == internal[b] ==> a == b)
    }

    constructor ()
      ensures Valid() && fresh(Repr) && contents == map[]
    {
      internal, contents := map[], map[];
      Repr := {this};
    }

    /** The world state as a value, as contracts read it. */
    function Snapshot(): (w: World)
      requires Valid()
      reads this, Repr
      ensures w == contents
    {
      map a | a in internal :: internal[a].View()
    }

    method AddBalance(a: Addr, x: int)
      requires Valid() && a in internal
      modifies Repr
      ensures Valid() && Repr == old(Repr) && contents == Ledger.AddBalance(old(contents), a, x)
    {
      var state := internal[a];
      state.balance := Wrap(state.balance + x);
      contents := Ledger.AddBalance(contents, a, x);
    }

    method BumpNonce(a: Addr)
      requires Valid() && a in internal
      modifies Repr
      ensures Valid() && Repr == old(Repr) && contents == Ledger.BumpNonce(old(contents), a)
    {
      var state := internal[a];
      state.nonce := Wrap(state.nonce + 1);
      contents := Ledger.BumpNonce(contents, a);
    }

    method PutItem(a: Addr, key: string, item: Item)
      requires Valid() && a in internal
      modifies Repr
      ensures Valid() && Repr == old(Repr) && contents == Ledger.PutItem(old(contents), a, key, item)
    {
      var state := internal[a];
      state.storageRoot := state.storageRoot[key := item];
      contents := Ledger.PutItem(contents, a, key, item);
    }

    /** Puts an account of its own under an address. */
    method Put(a: Addr, state: State)
      requires Valid() && state !in Repr
      modifies this
      ensures Valid() && Repr == old(Repr) + {state}
      ensures contents == old(contents)[a := old(state.View())]
    {
      internal := internal[a := state];
      contents := contents[a := state.View()];
      Repr := Repr + {state};
    }

    /** A copy in depth: the copy is new altogether and holds the same accounts. */
    method Copy() returns (ret: WorldKV)
      requires Valid()
      ensures ret.Valid() && fresh(ret.Repr) && ret.contents == contents
    {
      ret := new WorldKV();
      var todo := internal.Keys;
      while todo != {}
        invariant todo <= internal.Keys
        invariant ret.Valid() && fresh(ret.Repr)
        invariant ret.contents == contents - todo
        decreases |todo|
      {
        var a :| a in todo;
        PutBack(contents, todo, a);
        var state := internal[a].Copy();
        ret.Put(a, state);
        todo := todo - {a};
      }
    }
  }

  class Miner {
    const decode: Decoder

    constructor (decode: Decoder)
      ensures this.decode == decode
    {
      this.decode := decode;
    }

    method DoValueTransfer(t: Txn, world: WorldKV) returns (ok: bool)
      requires world.Valid()
      modifies world.Repr
      ensures world.Valid() && world.Repr == old(world.Repr)
      ensures Outcome(world.contents, ok) == Ledger.DoValueTransfer(old(world.contents), t)
    {
      if t.from !in world.internal {
        return false;
      }
      if t.to !in world.internal {
        return false;
      }
      world.AddBalance(t.from, -t.value);
      world.BumpNonce(t.from);
      world.AddBalance(t.to, t.value);
      ok := true;
    }

    method DoSetStorage(t: Txn, world: WorldKV) returns (ok: bool)
      requires world.Valid()
      modifies world.Repr
      ensures world.Valid() && world.Repr == old(world.Repr)
      ensures Outcome(world.contents, ok) == Ledger.DoSetStorage(old(world.contents), t)
    {
      if t.from !in world.internal {
        return false;
      }
      world.BumpNonce(t.from);
      world.PutItem(t.from, t.key, t.item);
      ok := true;
    }

    method DoCreateContract(t: Txn, world: WorldKV) returns (ok: bool)
      requires world.Valid()
      modifies world.Repr
      ensures world.Valid() && fresh(world.Repr - old(world.Repr))
      ensures Outcome(world.contents, ok) == Ledger.DoCreateContract(old(world.contents), t)
    {
      var state := new State(0, 0, map[], t.code);
      if t.from !in world.internal {
        return false;
      }
      world.BumpNonce(t.from);
      world.Put(t.to, state);
      ok := true;
    }

    method DoReceive(world: WorldKV, taker: Addr, product: string, quantity: real) returns (ok: bool)
      requires world.Valid() && taker in world.internal
      modifies world.Repr
      ensures world.Valid() && world.Repr == old(world.Repr)
      ensures Outcome(world.contents, ok) == Ledger.DoReceive(old(world.contents), taker, product, quantity)
    {
      var has := world.internal[taker].storageRoot;
      assert has == world.contents[taker].storage;
      if product !in has {
        world.PutItem(taker, product, Num(quantity));
      } else {
        if !has[product].Num? {
          return false;
        }
        world.PutItem(taker, product, Num(quantity + has[product].amount));
      }
      ok := true;
    }

    method DoSend(world: WorldKV, giver: Addr, taker: Addr, product: string, quantity: real) returns (ok: bool)
      requires world.Valid() && giver in world.internal && taker in world.internal
      modifies world.Repr
      ensures world.Valid() && world.Repr == old(world.Repr)
      ensures Outcome(world.contents, ok) == Ledger.DoSend(old(world.contents), giver, taker, product, quantity)
    {
      var held := world.internal[giver].storageRoot;
      assert held == world.contents[giver].storage;
      if product !in held || !held[product].Num? {
        return false;
      }
      if held[product].amount < quantity {
        return false;
      }
      world.PutItem(giver, product, Num(held[product].amount - quantity));
      ok := DoReceive(world, taker, product, quantity);
    }

    method DoAction(world: WorldKV, proposer: Addr, acceptor: Addr, action: Action) returns (ok: bool)
      requires world.Valid() && proposer in world.internal && acceptor in world.internal
      modifies world.Repr
      ensures world.Valid() && world.Repr == old(world.Repr)
      ensures Outcome(world.contents, ok) == Ledger.DoAction(old(world.contents), proposer, acceptor, action)
    {
      ok := true;
      match action
      case Transfer(Buyer, n) =>
        world.AddBalance(proposer, -n);
        world.AddBalance(acceptor, n);
      case Transfer(Seller, n) =>
        world.AddBalance(proposer, n);
        world.AddBalance(acceptor, -n);
      case Send(Buyer, product, q) =>
        ok := DoSend(world, proposer, acceptor, product, q);
      case Send(Seller, product, q) =>
        ok := DoSend(world, acceptor, proposer, product, q);
      case _ =>
    }

    /** The actions of a contract one after the other; a failing one leaves the earlier ones done. */
    method DoActions(world: WorldKV, proposer: Addr, acceptor: Addr, actions: seq<Action>) returns (ok: bool)
      requires world.Valid() && proposer in world.internal && acceptor in world.internal
      modifies world.Repr
      ensures world.Valid() && world.Repr == old(world.Repr)
      ensures Outcome(world.contents, ok) == Ledger.DoActions(old(world.contents), proposer, acceptor, actions)
    {
      ghost var goal := Ledger.DoActions(world.contents, proposer, acceptor, actions);
      for i := 0 to |actions|
        invariant world.Valid() && world.Repr == old(world.Repr)
        invariant proposer in world.internal && acceptor in world.internal
        invariant Ledger.DoActions(world.contents, proposer, acceptor, actions[i..]) == goal
      {
        assert actions[i..][1..] == actions[i + 1..];
        ok := DoAction(world, proposer, acceptor, actions[i]);
        if !ok {
          return false;
        }
      }
      ok := true;
    }

    method DoContract(t: Txn, world: WorldKV) returns (ok: bool)
      requires world.Valid()
      modifies world.Repr
      ensures world.Valid() && world.Repr == old(world.Repr)
      ensures Outcome(world.contents, ok) == Ledger.DoContract(decode, old(world.contents), t)
    {
      if t.to !in world.internal {
        return false;
      }
      var contract := decode(world.internal[t.to].code);
      assert world.internal[t.to].View() == world.contents[t.to];
      if contract.None? {
        return false;
      }
      var c := contract.value;
      if t.from != c.acceptor {
        return false;
      }
      var holds := c.holds(world.Snapshot());
      if holds.Err? {
        return false;
      }
      if !holds.value {
        return true;
      }
      var actions := c.actions(world.Snapshot());
      if actions.Err? {
        return false;
      }
      if c.proposer !in world.internal || c.acceptor !in world.internal {
        return false;
      }
      ok := DoActions(world, c.proposer, c.acceptor, actions.value);
      if ok {
        world.BumpNonce(c.acceptor);
      }
    }

    method ExecuteTxn(t: Txn, world: WorldKV) returns (ok: bool)
      requires world.Valid()
      modifies world.Repr
      ensures world.Valid() && fresh(world.Repr - old(world.Repr))
      ensures Outcome(world.contents, ok) == Execute(decode, old(world.contents), t)
    {
      if CallsContract(t) {
        ok := DoContract(t, world);
      } else {
        match t.kind
        case CreateContract => ok := DoCreateContract(t, world);
        case SetStorage => ok := DoSetStorage(t, world);
        case ValueTransfer => ok := DoValueTransfer(t, world);
      }
    }

    method VerifyTxn(t: Txn, world: WorldKV) returns (ok: bool)
      requires world.Valid()
      ensures ok == Verify(world.contents, t)
    {
      if t.signer != Some(t.from) {
        return false;
      }
      if t.from !in world.internal {
        return false;
      }
      var state := world.internal[t.from];
      assert state.View() == world.contents[t.from];
      if t.nonce != ToInt(state.nonce) {
        return false;
      }
      if ToInt(state.balance) < t.value {
        return false;
      }
      ok := true;
    }

    /** One transaction from the channel: verified, executed, and kept if both went well. */
    method TakeTxn(t: Txn, world: WorldKV) returns (kept: bool)
      requires world.Valid()
      modifies world.Repr
      ensures world.Valid() && fresh(world.Repr - old(world.Repr))
      ensures !Verify(old(world.contents), t) ==> !kept && world.contents == old(world.contents)
      ensures Verify(old(world.contents), t) ==> Outcome(world.contents, kept) == Execute(decode, old(world.contents), t)
    {
      var verified := VerifyTxn(t, world);
      if !verified {
        return false;
      }
      kept := ExecuteTxn(t, world);
    }

    /**
      Builds a block's worth of transactions on a copy of the parent's state. Nothing that existed
      before is changed: the method has no frame to write to.
     */
    method MineOn(parent: WorldKV, txns: seq<Txn>, blockTxns: nat) returns (world: WorldKV, accepted: seq<Txn>, taken: nat)
      requires parent.Valid() && blockTxns > 0
      ensures world.Valid() && fresh(world.Repr) && taken <= |txns|
      ensures Mined(world.contents, accepted) == Mine(decode, parent.contents, txns[..taken])
      ensures |accepted| <= blockTxns && (taken < |txns| ==> |accepted| == blockTxns)
    {
      world := parent.Copy();
      accepted, taken := [], 0;
      while taken < |txns| && |accepted| < blockTxns
        invariant taken <= |txns| && |accepted| <= blockTxns
        invariant world.Valid() && fresh(world.Repr)
        invariant Mined(world.contents, accepted) == Mine(decode, parent.contents, txns[..taken])
      {
        assert txns[..taken + 1][..taken] == txns[..taken];
        var kept := TakeTxn(txns[taken], world);
        if kept {
          accepted := accepted + [txns[taken]];
        }
        taken := taken + 1;
      }
    }

    /** Executes a block's transactions on a copy of its parent's state; errors are passed over. */
    method ReplayOn(parent: WorldKV, txns: seq<Txn>) returns (world: WorldKV)
      requires parent.Valid()
      ensures world.Valid() && fresh(world.Repr)
      ensures world.contents == Replay(decode, parent.contents, txns)
    {
      world := parent.Copy();
      for i := 0 to |txns|
        invariant world.Valid() && fresh(world.Repr)
        invariant world.contents == Replay(decode, parent.contents, txns[..i])
      {
        assert txns[..i + 1][..i] == txns[..i];
        var ok := ExecuteTxn(txns[i], world);
        if !ok {
          continue;
        }
      }
      assert txns[..|txns|] == txns;
    }
  }

  lemma PutBack(w: World, todo: set<Addr>, a: Addr)
    requires a in w && a in todo
    ensures (w - todo)[a := w[a]] == w - (todo - {a})
  {
  }
}
