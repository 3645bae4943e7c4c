/**
  When money appears or disappears. Verification compares a transaction's value with the sender's
  balance and looks at nothing a contract pays, so a balance may pass below zero and wrap around.
  Exactly then, and when a contract is created over an account with money, the sum of all balances
  changes.
 */
module Minting {
  import opened Wrappers
  import opened Words
  import opened Sums
  import opened Ledger
  import opened ContractRuns
  import opened Mining

  /** A payment of `n` from one account to another leaves their sum alone. */
  predicate SumKept(w: World, p: Addr, a: Addr, n: int)
    requires p in w && a in w
  {
    p == a || Wrap(n) <= w[p].balance || Wrap(-n) <= w[a].balance
  }

  lemma WrapIs(x: int, q: int, r: nat)
    requires x == q * UINT_SIZE + r && r < UINT_SIZE
    ensures Wrap(x) == r
  {
  }

  lemma WrapNegative(n: int)
    ensures Wrap(-n) == if Wrap(n) == 0 then 0 else UINT_SIZE - Wrap(n)
  {
    var q := n / UINT_SIZE;
    if Wrap(n) == 0 {
      WrapIs(-n, -q, 0);
    } else {
      WrapIs(-n, -q - 1, UINT_SIZE - Wrap(n));
    }
  }

  lemma WrapSmall(x: int)
    requires 0 <= x + UINT_SIZE && x < 2 * UINT_SIZE
    ensures Wrap(x) == if x < 0 then x + UINT_SIZE else if x < UINT_SIZE then x else x - UINT_SIZE
  {
  }

  /** Two balances below 2^64 together are paid between exactly if one of them covers it. */
  lemma PairSum(b: nat, c: nat, n: int)
    requires b + c < UINT_SIZE
    ensures Wrap(b - n) + Wrap(c + n) == b + c <==> Wrap(n) <= b || Wrap(-n) <= c
  {
    var r: int := Wrap(n);
    WrapNegative(n);
    assert Wrap(b - n) == Wrap(b - r) by {
      WrapAdds(-n, b);
      WrapAdds(-r, b);
      WrapNegative(r);
      WrapFits(r);
    }
    assert Wrap(c + n) == Wrap(c + r) by {
      WrapAdds(n, c);
    }
    WrapSmall(b - r);
    WrapSmall(c + r);
  }

  /** Only two accounts change their balance. */
  ghost predicate OnlyTwo(w: World, w': World, p: Addr, a: Addr) {
    p in w && a in w && w'.Keys == w.Keys && forall b :: b in w && b != p && b != a ==> w'[b].balance == w[b].balance
  }

  lemma TwoChange(w: World, w': World, p: Addr, a: Addr)
    requires OnlyTwo(w, w', p, a) && p != a
    ensures Supply(w') == Supply(w) - w[p].balance - w[a].balance + w'[p].balance + w'[a].balance
  {
    BalanceChanges(w, p, w'[p]);
    BalanceChanges(w[p := w'[p]], a, w'[a]);
    SameBalancesSameSupply(w[p := w'[p]][a := w'[a]], w');
  }

  lemma PaidIsExactIff(w: World, w': World, p: Addr, a: Addr, n: int)
    requires OnlyTwo(w, w', p, a) && BalancesTold(w, w', p, a, n) && Supply(w) < UINT_SIZE
    ensures Supply(w') == Supply(w) <==> SumKept(w, p, a, n)
  {
    if p == a {
      SameBalancesSameSupply(w, w');
    } else {
      TwoBalancesWithinSupply(w, p, a);
      TwoChange(w, w', p, a);
      PairSum(w[p].balance, w[a].balance, n);
    }
  }

  // --------------------------------------------------------------------- contract calls

  /** The actions that are carried out before the first that cannot be. */
  ghost function CarriedOut(w: World, p: Addr, a: Addr, actions: seq<Action>): (r: seq<Action>)
    requires p in w && a in w
  {
    if CanCarryOut(w, p, a, actions) then actions else actions[..Stuck(w, p, a, actions)]
  }

  /** Balances after a contract's actions, carried out to the end or not. */
  lemma ActionsPay(w: World, p: Addr, a: Addr, actions: seq<Action>)
    requires p in w && a in w && Typed(w)
    ensures var w', done := DoActions(w, p, a, actions).world, CarriedOut(w, p, a, actions);
            OnlyTwo(w, w', p, a) && BalancesTold(w, w', p, a, Paid(done))
  {
    var done := CarriedOut(w, p, a, actions);
    CarriesOutIff(w, p, a, actions);
    if !CanCarryOut(w, p, a, actions) {
      var k := Stuck(w, p, a, actions);
      StuckThere(w, p, a, actions);
      CarriesOutIff(w, p, a, done);
      FailedActionPaysNothing(DoActions(w, p, a, done).world, p, a, actions[k]);
    }
  }

  lemma FailedActionPaysNothing(w: World, p: Addr, a: Addr, action: Action)
    requires p in w && a in w && (action.Send? || action.NoAction?)
    ensures SameBalances(w, DoAction(w, p, a, action).world)
  {
    match action
    case Send(Buyer, product, q) => SendKeepsBalances(w, p, a, product, q);
    case Send(Seller, product, q) => SendKeepsBalances(w, a, p, product, q);
    case _ =>
  }

  /** What an execution does to the sum can be told before it: no payment passes below zero, and no money is buried. */
  ghost predicate KeepsSum(dec: Decoder, w: World, t: Txn) {
    if CallsContract(t) then
      Asked(dec, w, t).Some? ==>
        var (c, actions) := Asked(dec, w, t).value;
        c.proposer in w && c.acceptor in w
        && SumKept(w, c.proposer, c.acceptor, Paid(CarriedOut(w, c.proposer, c.acceptor, actions)))
    else match t.kind
      case CreateContract => !BuriesMoney(w, t)
      case SetStorage => true
      case ValueTransfer => t.from in w && t.to in w ==> SumKept(w, t.from, t.to, t.value)
  }

  lemma CallIsExactIff(dec: Decoder, w: World, t: Txn)
    requires Typed(w) && Supply(w) < UINT_SIZE && CallsContract(t)
    ensures Supply(Execute(dec, w, t).world) == Supply(w) <==> KeepsSum(dec, w, t)
  {
    ContractDoes(dec, w, t);
    if Asked(dec, w, t).Some? {
      var (c, actions) := Asked(dec, w, t).value;
      var p, a := c.proposer, c.acceptor;
      var w' := DoActions(w, p, a, actions).world;
      ActionsPay(w, p, a, actions);
      PaidIsExactIff(w, w', p, a, Paid(CarriedOut(w, p, a, actions)));
      SameBalancesSameSupply(w', DoContract(dec, w, t).world);
    }
  }

  lemma TransferPays(w: World, t: Txn)
    requires Typed(w) && t.from in w && t.to in w
    ensures var w' := DoValueTransfer(w, t).world;
            OnlyTwo(w, w', t.from, t.to) && BalancesTold(w, w', t.from, t.to, t.value)
  {
    if t.from == t.to {
      WrapTwice(w[t.from].balance, -t.value);
    }
  }

  /**
    With less than 2^64 in all, an execution of any kind, accepted or not, keeps the sum of balances
    exactly if and only if the state before says that no payment passes below zero and no money is
    buried.
   */
  lemma ExactIff(dec: Decoder, w: World, t: Txn)
    requires Typed(w) && Supply(w) < UINT_SIZE
    ensures Supply(Execute(dec, w, t).world) == Supply(w) <==> KeepsSum(dec, w, t)
  {
    if CallsContract(t) {
      CallIsExactIff(dec, w, t);
    } else if t.kind == CreateContract {
      if t.from in w {
        CreateChangesSupply(w, t);
      }
    } else if t.kind == SetStorage {
      SameBalancesSameSupply(w, DoSetStorage(w, t).world);
    } else if t.from in w && t.to in w {
      TransferPays(w, t);
      PaidIsExactIff(w, DoValueTransfer(w, t).world, t.from, t.to, t.value);
    }
  }

  /** Every execution of the sequence keeps the sum. */
  ghost predicate AllKeepSum(dec: Decoder, w: World, txns: seq<Txn>) {
    txns == [] ||
    (var n := |txns| - 1;
     AllKeepSum(dec, w, txns[..n]) && KeepsSum(dec, Replay(dec, w, txns[..n]), txns[n]))
  }

  lemma {:induction false} ExactForever(dec: Decoder, w: World, txns: seq<Txn>)
    requires Typed(w) && Supply(w) < UINT_SIZE && AllKeepSum(dec, w, txns)
    ensures Typed(Replay(dec, w, txns)) && Supply(Replay(dec, w, txns)) == Supply(w)
    decreases |txns|
  {
    if txns != [] {
      var n := |txns| - 1;
      ExactForever(dec, w, txns[..n]);
      ExactIff(dec, Replay(dec, w, txns[..n]), txns[n]);
      ExecuteKeepsTyped(dec, Replay(dec, w, txns[..n]), txns[n]);
    }
  }

  /** Over every sequence of executions, the first that does not keep the sum is the first to change it. */
  lemma FirstChangeDecides(dec: Decoder, w: World, txns: seq<Txn>)
    requires Typed(w) && Supply(w) < UINT_SIZE && txns != [] && AllKeepSum(dec, w, txns[..|txns| - 1])
    ensures Supply(Replay(dec, w, txns)) == Supply(w) <==> AllKeepSum(dec, w, txns)
  {
    var n := |txns| - 1;
    ExactForever(dec, w, txns[..n]);
    ExactIff(dec, Replay(dec, w, txns[..n]), txns[n]);
  }

  // ------------------------------------------------------------------------- a witness

  const POOR: Addr := "1poor000"
  const PEER: Addr := "2peer000"
  const SHOP: Addr := "00000000"

  /** The proposer pays one coin that it does not have. */
  const GIFT := Contract(POOR, PEER, _ => Ok(true), _ => Ok([Transfer(Buyer, 1)]))

  function OnlyGift(code: string): (c: Option<Contract>) {
    Some(GIFT)
  }

  const BROKE: World := map[
    POOR := Account(0, 0, map[], ""), PEER := Account(0, 0, map[], ""), SHOP := Account(0, 0, map[], "gift")]

  const ACCEPT := Txn(0, PEER, SHOP, ValueTransfer, "", 0, "", Text(""), Some(PEER))

  lemma BrokeHasNothing()
    ensures Typed(BROKE) && Supply(BROKE) == 0
  {
    SumTakeOut(BROKE.Keys, Balances(BROKE), POOR);
    SumTakeOut(BROKE.Keys - {POOR}, Balances(BROKE), PEER);
    SumTakeOut(BROKE.Keys - {POOR} - {PEER}, Balances(BROKE), SHOP);
    assert BROKE.Keys - {POOR} - {PEER} - {SHOP} == {};
  }

  const MINTED: World := map[
    POOR := Account(0, UINT_SIZE - 1, map[], ""), PEER := Account(1, 1, map[], ""), SHOP := Account(0, 0, map[], "gift")]

  lemma GiftIsPaid()
    ensures Verify(BROKE, ACCEPT) && Execute(OnlyGift, BROKE, ACCEPT) == Outcome(MINTED, true)
  {
    var actions := [Transfer(Buyer, 1)];
    assert IsContract(SHOP) && Asked(OnlyGift, BROKE, ACCEPT) == Some((GIFT, actions));
    ContractDoes(OnlyGift, BROKE, ACCEPT);
    assert actions[1..] == [];
    var w' := DoActions(BROKE, POOR, PEER, actions).world;
    assert w' == AddBalance(AddBalance(BROKE, POOR, -1), PEER, 1);
    assert BumpNonce(w', PEER) == MINTED;
  }

  /** A verified and accepted call makes 2^64 coins out of none. */
  lemma ContractMints()
    ensures Verify(BROKE, ACCEPT) && Execute(OnlyGift, BROKE, ACCEPT).ok
    ensures Supply(BROKE) == 0 && Supply(Execute(OnlyGift, BROKE, ACCEPT).world) == UINT_SIZE
  {
    BrokeHasNothing();
    GiftIsPaid();
    TwoChange(BROKE, MINTED, POOR, PEER);
  }
}
