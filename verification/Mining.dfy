/**
  Building a block and checking it (blockchain/miner/daemon.go): a miner verifies and executes
  transactions on a copy of the last block's state; other miners execute the block's transactions
  on their own copy and compare. State hashes are free of collisions, so comparing hashes compares
  states.
 */
module Mining {
  import opened Wrappers
  import opened Words
  import opened Ledger
  import opened ContractRuns

  /** The working state after a mining run and the transactions that go into the block. */
  datatype Mined = Mined(world: World, accepted: seq<Txn>)

  /** Transactions in the order they come; a rejected one is dropped, whatever it did to the state. */
  function Mine(dec: Decoder, w: World, txns: seq<Txn>): (r: Mined) {
    if txns == [] then Mined(w, [])
    else
      var n := |txns| - 1;
      var r := Mine(dec, w, txns[..n]);
      if !Verify(r.world, txns[n]) then r
      else
        var o := Execute(dec, r.world, txns[n]);
        Mined(o.world, if o.ok then r.accepted + [txns[n]] else r.accepted)
  }

  /** The transactions of a block on a parent's state; errors are passed over. */
  function Replay(dec: Decoder, w: World, txns: seq<Txn>): (r: World) {
    if txns == [] then w
    else
      var n := |txns| - 1;
      Execute(dec, Replay(dec, w, txns[..n]), txns[n]).world
  }

  /**
    No contract call of the run fails part-way and leaves a trace: what the parties hold when it comes
    says so.
   */
  ghost predicate Clean(dec: Decoder, w: World, txns: seq<Txn>) {
    txns == [] ||
    (var n := |txns| - 1;
     var r := Mine(dec, w, txns[..n]);
     Clean(dec, w, txns[..n]) && (Verify(r.world, txns[n]) ==> Traceless(dec, r.world, txns[n])))
  }

  lemma {:induction false} MineKeepsTyped(dec: Decoder, w: World, txns: seq<Txn>)
    requires Typed(w)
    ensures Typed(Mine(dec, w, txns).world)
    decreases |txns|
  {
    if txns != [] {
      var n := |txns| - 1;
      MineKeepsTyped(dec, w, txns[..n]);
      ExecuteKeepsTyped(dec, Mine(dec, w, txns[..n]).world, txns[n]);
    }
  }

  /**
    Replaying a mined block from its parent's state gives the block's state, if no contract call
    failed part-way with a trace.
   */
  lemma {:induction false} ReplayIsExact(dec: Decoder, w: World, txns: seq<Txn>)
    requires Typed(w) && Clean(dec, w, txns)
    ensures Replay(dec, w, Mine(dec, w, txns).accepted) == Mine(dec, w, txns).world
    decreases |txns|
  {
    if txns != [] {
      var n := |txns| - 1;
      ReplayIsExact(dec, w, txns[..n]);
      MineKeepsTyped(dec, w, txns[..n]);
      var r, r' := Mine(dec, w, txns[..n]), Mine(dec, w, txns);
      if Verify(r.world, txns[n]) {
        if Execute(dec, r.world, txns[n]).ok {
          assert r'.accepted[..|r.accepted|] == r.accepted;
        } else {
          RejectedIsUnchangedIff(dec, r.world, txns[n]);
        }
      }
    }
  }

  /**
    The first contract call that fails part-way decides: replay reproduces the miner's state if and
    only if what the parties hold then says the call leaves no trace.
   */
  lemma FirstFailureDecides(dec: Decoder, w: World, txns: seq<Txn>)
    requires Typed(w) && txns != [] && Clean(dec, w, txns[..|txns| - 1])
    requires var r := Mine(dec, w, txns[..|txns| - 1]);
             Verify(r.world, txns[|txns| - 1]) && FailsPartWay(dec, r.world, txns[|txns| - 1])
    ensures Replay(dec, w, Mine(dec, w, txns).accepted) == Mine(dec, w, txns).world <==>
            Traceless(dec, Mine(dec, w, txns[..|txns| - 1]).world, txns[|txns| - 1])
  {
    var n := |txns| - 1;
    var r := Mine(dec, w, txns[..n]);
    ReplayIsExact(dec, w, txns[..n]);
    MineKeepsTyped(dec, w, txns[..n]);
    ContractAcceptedIff(dec, r.world, txns[n]);
    RejectedIsUnchangedIff(dec, r.world, txns[n]);
  }

  /** Runs without contract calls are clean. */
  lemma {:induction false} NoContractIsClean(dec: Decoder, w: World, txns: seq<Txn>)
    requires forall i :: 0 <= i < |txns| ==> !CallsContract(txns[i])
    ensures Clean(dec, w, txns)
    decreases |txns|
  {
    if txns != [] {
      NoContractIsClean(dec, w, txns[..|txns| - 1]);
    }
  }

  /** Mining never forgets or reorders: the accepted transactions are a subsequence of those that came. */
  ghost predicate Subsequence(a: seq<Txn>, b: seq<Txn>)
    decreases |b|
  {
    if b == [] then a == []
    else
      || Subsequence(a, b[..|b| - 1])
      || (a != [] && a[|a| - 1] == b[|b| - 1] && Subsequence(a[..|a| - 1], b[..|b| - 1]))
  }

  lemma {:induction false} AcceptedInOrder(dec: Decoder, w: World, txns: seq<Txn>)
    ensures Subsequence(Mine(dec, w, txns).accepted, txns)
    decreases |txns|
  {
    if txns != [] {
      var n := |txns| - 1;
      AcceptedInOrder(dec, w, txns[..n]);
      var r, r' := Mine(dec, w, txns[..n]), Mine(dec, w, txns);
      if r'.accepted != r.accepted {
        assert r'.accepted[..|r'.accepted| - 1] == r.accepted;
      }
    }
  }

  // ---------------------------------------------------------------------- conservation

  lemma ExecuteKeepsTyped(dec: Decoder, w: World, t: Txn)
    requires Typed(w)
    ensures Typed(Execute(dec, w, t).world)
  {
    if CallsContract(t) {
      ContractDoes(dec, w, t);
      if Asked(dec, w, t).Some? {
        var (c, actions) := Asked(dec, w, t).value;
        ActionsKeepTyped(w, c.proposer, c.acceptor, actions);
      }
    }
  }

  lemma {:induction false} ActionsKeepTyped(w: World, p: Addr, a: Addr, actions: seq<Action>)
    requires p in w && a in w && Typed(w)
    ensures Typed(DoActions(w, p, a, actions).world)
    decreases |actions|
  {
    if actions != [] {
      ActionKeepsTyped(w, p, a, actions[0]);
      if DoAction(w, p, a, actions[0]).ok {
        ActionsKeepTyped(DoAction(w, p, a, actions[0]).world, p, a, actions[1..]);
      }
    }
  }

  /** No transaction of the sequence creates a contract on top of an account with money. */
  ghost predicate NothingBuried(dec: Decoder, w: World, txns: seq<Txn>) {
    txns == [] ||
    (var n := |txns| - 1;
     NothingBuried(dec, w, txns[..n]) && !BuriesMoney(Replay(dec, w, txns[..n]), txns[n]))
  }

  /** Over any sequence of executions the sum of all balances stays the same modulo 2^64. */
  lemma {:induction false} SupplyIsForever(dec: Decoder, w: World, txns: seq<Txn>)
    requires Typed(w) && NothingBuried(dec, w, txns)
    ensures Typed(Replay(dec, w, txns)) && SameModulo(Supply(Replay(dec, w, txns)), Supply(w))
    decreases |txns|
  {
    if txns != [] {
      var n := |txns| - 1;
      SupplyIsForever(dec, w, txns[..n]);
      ExecuteConserves(dec, Replay(dec, w, txns[..n]), txns[n]);
      ExecuteKeepsTyped(dec, Replay(dec, w, txns[..n]), txns[n]);
    }
  }

  /** Every debit of the sequence is covered where it happens. */
  ghost predicate AllCovered(dec: Decoder, w: World, txns: seq<Txn>) {
    txns == [] ||
    (var n := |txns| - 1;
     AllCovered(dec, w, txns[..n]) && Covered(dec, Replay(dec, w, txns[..n]), txns[n]))
  }

  /** If moreover every debit is covered, the sum stays exactly the same, below 2^64. */
  lemma {:induction false} SupplyIsExactForever(dec: Decoder, w: World, txns: seq<Txn>)
    requires Typed(w) && Supply(w) < UINT_SIZE && NothingBuried(dec, w, txns) && AllCovered(dec, w, txns)
    ensures Typed(Replay(dec, w, txns)) && Supply(Replay(dec, w, txns)) == Supply(w)
    decreases |txns|
  {
    if txns != [] {
      var n := |txns| - 1;
      SupplyIsExactForever(dec, w, txns[..n]);
      CoveredIsExact(dec, Replay(dec, w, txns[..n]), txns[n]);
      ExecuteKeepsTyped(dec, Replay(dec, w, txns[..n]), txns[n]);
    }
  }

  // ----------------------------------------------------- a contract that fails part-way

  const BUYER: Addr := "1buyer00"
  const SELLER: Addr := "2seller0"
  const CONTRACT: Addr := "00000000"

  /** The buyer pays five and then sends goods it does not have. */
  const DEAL := Contract(BUYER, SELLER, _ => Ok(true), _ => Ok([Transfer(Buyer, 5), Send(Buyer, "apple", 1.0)]))

  function OnlyDeal(code: string): (c: Option<Contract>) {
    Some(DEAL)
  }

  const BEFORE: World := map[
    BUYER := Account(0, 9, map[], ""),
    SELLER := Account(0, 0, map[], ""),
    CONTRACT := Account(0, 0, map[], "deal")]

  const CALL := Txn(0, SELLER, CONTRACT, ValueTransfer, "", 0, "", Text(""), Some(SELLER))

  const NOTE := Txn(0, BUYER, BUYER, SetStorage, "", 0, "note", Text("hello"), Some(BUYER))

  /** Another miner appends a block if replaying it on the parent's state gives the state it claims. */
  ghost predicate Accepts(dec: Decoder, parent: World, txns: seq<Txn>, claimed: World) {
    Replay(dec, parent, txns) == claimed
  }

  const PAID: World := map[
    BUYER := Account(0, 4, map[], ""),
    SELLER := Account(0, 5, map[], ""),
    CONTRACT := Account(0, 0, map[], "deal")]

  /** The call is rejected but its payment stays. */
  lemma CallPays()
    ensures Verify(BEFORE, CALL) && Execute(OnlyDeal, BEFORE, CALL) == Outcome(PAID, false)
  {
    var actions := [Transfer(Buyer, 5), Send(Buyer, "apple", 1.0)];
    assert DoAction(BEFORE, BUYER, SELLER, actions[0]).world == PAID;
    assert IsContract(CONTRACT) && Asked(OnlyDeal, BEFORE, CALL) == Some((DEAL, actions));
    assert DoActions(PAID, BUYER, SELLER, actions[1..]) == Outcome(PAID, false);
    ContractDoes(OnlyDeal, BEFORE, CALL);
  }

  /** The note is an ordinary storage write. */
  lemma NoteIsWritten(w: World)
    requires BUYER in w && SELLER in w && w[BUYER].nonce == 0 && w[BUYER].balance < INT_LIMIT
    ensures Verify(w, NOTE) && Execute(OnlyDeal, w, NOTE).ok
    ensures SELLER in Execute(OnlyDeal, w, NOTE).world && Execute(OnlyDeal, w, NOTE).world[SELLER] == w[SELLER]
  {
    assert BUYER[0] == '1';
    assert !CallsContract(NOTE);
  }

  /** A rejected transaction and an accepted one. */
  lemma MineTwo(dec: Decoder, w: World, s: Txn, w': World, t: Txn)
    requires Verify(w, s) && Execute(dec, w, s) == Outcome(w', false) && Verify(w', t) && Execute(dec, w', t).ok
    ensures Mine(dec, w, [s, t]) == Mined(Execute(dec, w', t).world, [t])
  {
    assert [s][..0] == [] && [s, t][..1] == [s];
    assert Mine(dec, w, [s]) == Mined(w', []);
  }

  lemma ReplayOne(dec: Decoder, w: World, t: Txn)
    ensures Replay(dec, w, [t]) == Execute(dec, w, t).world
  {
    assert [t][..0] == [];
  }

  /**
    The block the miner builds from the next transaction claims a state that replaying it does not
    give, so other miners refuse it.
   */
  lemma PartialFailureBreaksReplay()
    ensures Verify(BEFORE, CALL) && !Execute(OnlyDeal, BEFORE, CALL).ok
    ensures var r := Mine(OnlyDeal, BEFORE, [CALL, NOTE]);
            r.accepted == [NOTE] && !Accepts(OnlyDeal, BEFORE, r.accepted, r.world)
  {
    CallPays();
    NoteIsWritten(BEFORE);
    NoteIsWritten(PAID);
    MineTwo(OnlyDeal, BEFORE, CALL, PAID, NOTE);
    ReplayOne(OnlyDeal, BEFORE, NOTE);
  }
}
