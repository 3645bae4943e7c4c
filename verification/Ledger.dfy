/**
  Transaction execution of the ledger (blockchain/miner/execute.go, blockchain/miner/verify.go) as
  functions on world states, and the laws they obey.

  Balances and nonces are 64-bit unsigned numbers, transaction values 64-bit signed ones. What a
  contract's code means is a parameter: its two parties, whether its assumptions hold in a world
  state, and the actions it asks for there. Amounts of goods are exact real numbers, where the program
  has float64.
 */
module Ledger {
  import opened Wrappers
  import opened Words
  import opened Sums

  type Addr = string

  const INT_LIMIT: nat := 0x8000_0000_0000_0000

  datatype Item = Num(amount: real) | Text(text: string)

  datatype Account = Account(nonce: nat, balance: nat, storage: map<string, Item>, code: string)

  type World = map<Addr, Account>

  datatype Role = Buyer | Seller | NoRole

  datatype Action =
    | Transfer(role: Role, amount: int)
    | Send(role: Role, product: string, quantity: real)
    | NoAction

  datatype Contract = Contract(
    proposer: Addr,
    acceptor: Addr,
    holds: World -> Result<bool, string>,
    actions: World -> Result<seq<Action>, string>)

  /** What the code of a contract account means, if anything. */
  type Decoder = string -> Option<Contract>

  datatype Kind = ValueTransfer | CreateContract | SetStorage

  /** A transaction; `signer` is the address its signature recovers to. */
  datatype Txn = Txn(
    nonce: int, from: Addr, to: Addr, kind: Kind, code: string, value: int, key: string, item: Item,
    signer: Option<Addr>)

  /** The state after an execution, and whether the execution was accepted. */
  datatype Outcome = Outcome(world: World, ok: bool)

  /** The conversion of a number to 64 unsigned bits. */
  function Wrap(x: int): (r: nat)
    ensures r < UINT_SIZE
  {
    x % UINT_SIZE
  }

  /** The conversion of 64 unsigned bits to a signed number. */
  function ToInt(x: nat): (r: int) {
    if x < INT_LIMIT then x else x - UINT_SIZE
  }

  /** Contract addresses start with four zero bytes. */
  predicate IsContract(a: Addr) {
    |a| >= 8 && forall i :: 0 <= i < 8 ==> a[i] == '0'
  }

  // -------------------------------------------------------------- changes of one account

  function AddBalance(w: World, a: Addr, x: int): (r: World)
    requires a in w
  {
    w[a := w[a].(balance := Wrap(w[a].balance + x))]
  }

  function BumpNonce(w: World, a: Addr): (r: World)
    requires a in w
  {
    w[a := w[a].(nonce := Wrap(w[a].nonce + 1))]
  }

  function PutItem(w: World, a: Addr, key: string, item: Item): (r: World)
    requires a in w
  {
    w[a := w[a].(storage := w[a].storage[key := item])]
  }

  // --------------------------------------------------------------------------- execution

  function DoSetStorage(w: World, t: Txn): (r: Outcome) {
    if t.from !in w then Outcome(w, false)
    else Outcome(PutItem(BumpNonce(w, t.from), t.from, t.key, t.item), true)
  }

  function DoValueTransfer(w: World, t: Txn): (r: Outcome) {
    if t.from !in w || t.to !in w then Outcome(w, false)
    else Outcome(AddBalance(BumpNonce(AddBalance(w, t.from, -t.value), t.from), t.to, t.value), true)
  }

  function DoCreateContract(w: World, t: Txn): (r: Outcome) {
    if t.from !in w then Outcome(w, false)
    else Outcome(BumpNonce(w, t.from)[t.to := Account(0, 0, map[], t.code)], true)
  }

  /** Goods are added to what an account holds of them, which must be a number if it is there. */
  function DoReceive(w: World, taker: Addr, product: string, quantity: real): (r: Outcome)
    requires taker in w
  {
    var has := w[taker].storage;
    if product !in has then Outcome(PutItem(w, taker, product, Num(quantity)), true)
    else if !has[product].Num? then Outcome(w, false)
    else Outcome(PutItem(w, taker, product, Num(quantity + has[product].amount)), true)
  }

  /** Goods move from one account to another; the second half may fail after the first was done. */
  function DoSend(w: World, giver: Addr, taker: Addr, product: string, quantity: real): (r: Outcome)
    requires giver in w && taker in w
  {
    var held := w[giver].storage;
    if product !in held || !held[product].Num? || held[product].amount < quantity then Outcome(w, false)
    else DoReceive(PutItem(w, giver, product, Num(held[product].amount - quantity)), taker, product, quantity)
  }

  function DoAction(w: World, proposer: Addr, acceptor: Addr, action: Action): (r: Outcome)
    requires proposer in w && acceptor in w
    ensures r.world.Keys == w.Keys
  {
    match action
    case Transfer(Buyer, n) => Outcome(AddBalance(AddBalance(w, proposer, -n), acceptor, n), true)
    case Transfer(Seller, n) => Outcome(AddBalance(AddBalance(w, proposer, n), acceptor, -n), true)
    case Send(Buyer, product, q) => DoSend(w, proposer, acceptor, product, q)
    case Send(Seller, product, q) => DoSend(w, acceptor, proposer, product, q)
    case _ => Outcome(w, true)
  }

  /** The actions in order, up to the first that fails. */
  function DoActions(w: World, proposer: Addr, acceptor: Addr, actions: seq<Action>): (r: Outcome)
    requires proposer in w && acceptor in w
    ensures r.world.Keys == w.Keys
    decreases |actions|
  {
    if actions == [] then Outcome(w, true)
    else
      var r := DoAction(w, proposer, acceptor, actions[0]);
      if !r.ok then r else DoActions(r.world, proposer, acceptor, actions[1..])
  }

  /** The contract a transaction calls, if it gets as far as asking for actions. */
  function Called(dec: Decoder, w: World, t: Txn): (c: Option<Contract>) {
    if t.to !in w then None
    else
      var c := dec(w[t.to].code);
      if c.None? || t.from != c.value.acceptor then None else c
  }

  function DoContract(dec: Decoder, w: World, t: Txn): (r: Outcome) {
    var called := Called(dec, w, t);
    if called.None? then Outcome(w, false)
    else
      var c := called.value;
      var holds := c.holds(w);
      if holds.Err? then Outcome(w, false)
      else if !holds.value then Outcome(w, true)
      else
        var actions := c.actions(w);
        if actions.Err? || c.proposer !in w || c.acceptor !in w then Outcome(w, false)
        else
          var r := DoActions(w, c.proposer, c.acceptor, actions.value);
          if !r.ok then r else Outcome(BumpNonce(r.world, c.acceptor), true)
  }

  predicate CallsContract(t: Txn) {
    IsContract(t.to) && t.kind != CreateContract
  }

  function Execute(dec: Decoder, w: World, t: Txn): (r: Outcome) {
    if CallsContract(t) then DoContract(dec, w, t)
    else match t.kind
      case CreateContract => DoCreateContract(w, t)
      case SetStorage => DoSetStorage(w, t)
      case ValueTransfer => DoValueTransfer(w, t)
  }

  /** Signature, sender, nonce and balance. */
  predicate Verify(w: World, t: Txn) {
    && t.signer == Some(t.from)
    && t.from in w
    && t.nonce == ToInt(w[t.from].nonce)
    && !(ToInt(w[t.from].balance) < t.value)
  }

  /** All balances and nonces fit into their type. */
  ghost predicate Typed(w: World) {
    forall a :: a in w ==> w[a].balance < UINT_SIZE && w[a].nonce < UINT_SIZE
  }

  // ------------------------------------------------------------------------ conservation

  ghost function Balances(w: World): (f: Addr -> int) {
    a => if a in w then w[a].balance else 0
  }

  /** All the money there is. */
  ghost function Supply(w: World): (n: int) {
    Sum(w.Keys, Balances(w))
  }

  ghost predicate SameModulo(x: int, y: int) {
    x % UINT_SIZE == y % UINT_SIZE
  }

  lemma BalanceChanges(w: World, a: Addr, account: Account)
    requires a in w
    ensures Supply(w[a := account]) == Supply(w) - w[a].balance + account.balance
  {
    assert w[a := account].Keys == w.Keys;
    SumChange(w.Keys, Balances(w), Balances(w[a := account]), a);
  }

  lemma WrapShifts(s: int, b: nat, x: int)
    ensures SameModulo(s - b + Wrap(b + x), s + x)
  {
    var q := (b + x) / UINT_SIZE;
    assert Wrap(b + x) == b + x - q * UINT_SIZE;
    assert (s + x - q * UINT_SIZE) % UINT_SIZE == (s + x) % UINT_SIZE;
  }

  lemma AddBalanceSupply(w: World, a: Addr, x: int)
    requires a in w
    ensures SameModulo(Supply(AddBalance(w, a, x)), Supply(w) + x)
  {
    BalanceChanges(w, a, AddBalance(w, a, x)[a]);
    WrapShifts(Supply(w), w[a].balance, x);
  }

  lemma ModuloShifts(x: int, y: int, z: int)
    requires SameModulo(x, y)
    ensures SameModulo(x + z, y + z)
  {
    var k := x / UINT_SIZE - y / UINT_SIZE;
    assert x == y + k * UINT_SIZE;
    assert (y + z + k * UINT_SIZE) % UINT_SIZE == (y + z) % UINT_SIZE;
  }

  /** Taking from one account and giving to another, in either order, keeps the supply modulo 2^64. */
  lemma MoveKeepsSupply(w: World, a: Addr, b: Addr, x: int)
    requires a in w && b in w
    ensures SameModulo(Supply(AddBalance(AddBalance(w, a, x), b, -x)), Supply(w))
  {
    AddBalanceSupply(w, a, x);
    AddBalanceSupply(AddBalance(w, a, x), b, -x);
    ModuloShifts(Supply(AddBalance(w, a, x)), Supply(w) + x, -x);
  }

  /** The same accounts with the same balances. */
  ghost predicate SameBalances(w: World, w': World) {
    w.Keys == w'.Keys && forall a :: a in w ==> w'[a].balance == w[a].balance
  }

  lemma SameBalancesSameSupply(w: World, w': World)
    requires SameBalances(w, w')
    ensures Supply(w') == Supply(w)
  {
    SumAgree(w.Keys, Balances(w), Balances(w'));
  }

  lemma SendKeepsBalances(w: World, giver: Addr, taker: Addr, product: string, q: real)
    requires giver in w && taker in w
    ensures SameBalances(w, DoSend(w, giver, taker, product, q).world)
  {
  }

  lemma ActionKeepsSupply(w: World, p: Addr, a: Addr, action: Action)
    requires p in w && a in w
    ensures SameModulo(Supply(DoAction(w, p, a, action).world), Supply(w))
  {
    match action
    case Transfer(Buyer, n) => MoveKeepsSupply(w, p, a, -n);
    case Transfer(Seller, n) => MoveKeepsSupply(w, p, a, n);
    case Send(Buyer, product, q) =>
      SendKeepsBalances(w, p, a, product, q);
      SameBalancesSameSupply(w, DoSend(w, p, a, product, q).world);
    case Send(Seller, product, q) =>
      SendKeepsBalances(w, a, p, product, q);
      SameBalancesSameSupply(w, DoSend(w, a, p, product, q).world);
    case _ =>
  }

  lemma {:induction false} ActionsKeepSupply(w: World, p: Addr, a: Addr, actions: seq<Action>)
    requires p in w && a in w
    ensures SameModulo(Supply(DoActions(w, p, a, actions).world), Supply(w))
    decreases |actions|
  {
    if actions != [] {
      var r := DoAction(w, p, a, actions[0]);
      ActionKeepsSupply(w, p, a, actions[0]);
      if r.ok {
        ActionsKeepSupply(r.world, p, a, actions[1..]);
      }
    }
  }

  /** The actions a contract call carries out, if it gets that far. */
  function Asked(dec: Decoder, w: World, t: Txn): (r: Option<(Contract, seq<Action>)>) {
    var called := Called(dec, w, t);
    if called.None? then None
    else
      var c := called.value;
      var actions := c.actions(w);
      if c.holds(w) == Ok(true) && actions.Ok? && c.proposer in w && c.acceptor in w then Some((c, actions.value))
      else None
  }

  /** A contract call does its actions and bumps the acceptor's nonce, or nothing at all. */
  lemma ContractDoes(dec: Decoder, w: World, t: Txn)
    ensures Asked(dec, w, t).None? ==> DoContract(dec, w, t).world == w
    ensures Asked(dec, w, t).Some? ==>
              var (c, actions) := Asked(dec, w, t).value;
              var r := DoActions(w, c.proposer, c.acceptor, actions);
              && c.acceptor == t.from && t.from in w && c.proposer in w
              && DoContract(dec, w, t) == if r.ok then Outcome(BumpNonce(r.world, t.from), true) else r
  {
  }

  lemma ContractKeepsSupply(dec: Decoder, w: World, t: Txn)
    ensures SameModulo(Supply(DoContract(dec, w, t).world), Supply(w))
  {
    ContractDoes(dec, w, t);
    if Asked(dec, w, t).Some? {
      var (c, actions) := Asked(dec, w, t).value;
      ActionsKeepSupply(w, c.proposer, c.acceptor, actions);
      SameBalancesSameSupply(DoActions(w, c.proposer, c.acceptor, actions).world, DoContract(dec, w, t).world);
    }
  }

  /** A contract is created where an account with money already is. */
  predicate BuriesMoney(w: World, t: Txn) {
    t.kind == CreateContract && t.from in w && t.to in w && w[t.to].balance > 0
  }

  lemma SumNewKey(w: World, a: Addr, account: Account)
    requires a !in w
    ensures Supply(w[a := account]) == Supply(w) + account.balance
  {
    var w' := w[a := account];
    assert w'.Keys == w.Keys + {a};
    SumInsert(w.Keys, Balances(w'), a);
    SumAgree(w.Keys, Balances(w), Balances(w'));
  }

  lemma CreateChangesSupply(w: World, t: Txn)
    requires t.from in w
    ensures Supply(DoCreateContract(w, t).world) == Supply(w) - if t.to in w then w[t.to].balance else 0
  {
    var bumped := BumpNonce(w, t.from);
    SameBalancesSameSupply(w, bumped);
    if t.to in w {
      BalanceChanges(bumped, t.to, Account(0, 0, map[], t.code));
    } else {
      SumNewKey(bumped, t.to, Account(0, 0, map[], t.code));
    }
  }

  /**
    Conservation: an execution, accepted or not, keeps the sum of all balances modulo 2^64 exactly
    if it does not create a contract on top of an account that has money.
   */
  lemma ExecuteConserves(dec: Decoder, w: World, t: Txn)
    requires Typed(w)
    ensures SameModulo(Supply(Execute(dec, w, t).world), Supply(w)) <==> !BuriesMoney(w, t)
  {
    if CallsContract(t) {
      ContractKeepsSupply(dec, w, t);
    } else if t.kind == CreateContract {
      if t.from in w {
        CreateChangesSupply(w, t);
        if BuriesMoney(w, t) {
          NotSameModulo(Supply(w), w[t.to].balance);
        }
      }
    } else if t.kind == SetStorage {
      SameBalancesSameSupply(w, DoSetStorage(w, t).world);
    } else if t.from in w && t.to in w {
      TransferKeepsSupply(w, t);
    }
  }

  lemma NotSameModulo(x: int, d: int)
    requires 0 < d < UINT_SIZE
    ensures !SameModulo(x - d, x)
  {
    var k := x / UINT_SIZE - (x - d) / UINT_SIZE;
    assert SameModulo(x - d, x) ==> d == k * UINT_SIZE;
  }

  lemma TransferMovesValue(w: World, t: Txn)
    requires t.from in w && t.to in w
    ensures SameBalances(AddBalance(AddBalance(w, t.from, -t.value), t.to, t.value), DoValueTransfer(w, t).world)
  {
  }

  lemma TransferKeepsSupply(w: World, t: Txn)
    requires t.from in w && t.to in w
    ensures SameModulo(Supply(DoValueTransfer(w, t).world), Supply(w))
  {
    var moved := AddBalance(AddBalance(w, t.from, -t.value), t.to, t.value);
    TransferMovesValue(w, t);
    SameBalancesSameSupply(moved, DoValueTransfer(w, t).world);
    MoveKeepsSupply(w, t.from, t.to, -t.value);
  }

  // -------------------------------------------------------------- covered debits are exact

  ghost predicate CoveredAction(w: World, p: Addr, a: Addr, action: Action)
    requires p in w && a in w
  {
    match action
    case Transfer(Buyer, n) => 0 <= n <= w[p].balance
    case Transfer(Seller, n) => 0 <= n <= w[a].balance
    case _ => true
  }

  ghost predicate CoveredActions(w: World, p: Addr, a: Addr, actions: seq<Action>)
    requires p in w && a in w
    decreases |actions|
  {
    actions == [] ||
    (&& CoveredAction(w, p, a, actions[0])
     && (DoAction(w, p, a, actions[0]).ok ==>
           CoveredActions(DoAction(w, p, a, actions[0]).world, p, a, actions[1..])))
  }

  /** Every account a transaction debits has what is taken from it. */
  ghost predicate Covered(dec: Decoder, w: World, t: Txn) {
    if CallsContract(t) then
      var asked := Asked(dec, w, t);
      asked.Some? ==> CoveredActions(w, asked.value.0.proposer, asked.value.0.acceptor, asked.value.1)
    else t.kind == ValueTransfer && t.from in w ==> 0 <= t.value <= w[t.from].balance
  }

  lemma BalanceWithinSupply(w: World, a: Addr)
    requires a in w
    ensures w[a].balance <= Supply(w)
  {
    SumTakeOut(w.Keys, Balances(w), a);
    SumNonNegative(w.Keys - {a}, Balances(w));
  }

  lemma TwoBalancesWithinSupply(w: World, a: Addr, b: Addr)
    requires a in w && b in w && a != b
    ensures w[a].balance + w[b].balance <= Supply(w)
  {
    SumTakeOut(w.Keys, Balances(w), a);
    SumTakeOut(w.Keys - {a}, Balances(w), b);
    SumNonNegative(w.Keys - {a} - {b}, Balances(w));
  }

  lemma WrapFits(x: int)
    requires 0 <= x < UINT_SIZE
    ensures Wrap(x) == x
  {
  }

  lemma WrapTwice(b: nat, x: int)
    requires b < UINT_SIZE
    ensures Wrap(Wrap(b + x) - x) == b
  {
    var q := (b + x) / UINT_SIZE;
    assert Wrap(b + x) - x == b - q * UINT_SIZE;
    assert (b - q * UINT_SIZE) % UINT_SIZE == b % UINT_SIZE;
  }

  lemma MoveOnSupply(w: World, a: Addr, b: Addr, x: int)
    requires a in w && b in w
    ensures var first := AddBalance(w, a, x);
            var second := AddBalance(first, b, -x);
            Supply(second) == Supply(w) - w[a].balance + first[a].balance - first[b].balance + second[b].balance
  {
    var first := AddBalance(w, a, x);
    BalanceChanges(w, a, first[a]);
    BalanceChanges(first, b, AddBalance(first, b, -x)[b]);
  }

  /** A covered move between accounts changes no sum, in whichever order it is written. */
  lemma MoveIsExact(w: World, a: Addr, b: Addr, x: int)
    requires a in w && b in w && Typed(w) && Supply(w) < UINT_SIZE
    requires if x < 0 then -x <= w[a].balance else x <= w[b].balance
    ensures Supply(AddBalance(AddBalance(w, a, x), b, -x)) == Supply(w)
  {
    MoveOnSupply(w, a, b, x);
    if a == b {
      WrapTwice(w[a].balance, x);
    } else {
      TwoBalancesWithinSupply(w, a, b);
      WrapFits(w[a].balance + x);
      WrapFits(w[b].balance - x);
    }
  }

  lemma ActionKeepsTyped(w: World, p: Addr, a: Addr, action: Action)
    requires p in w && a in w && Typed(w)
    ensures Typed(DoAction(w, p, a, action).world)
  {
    match action
    case Send(Buyer, product, q) => SendKeepsTyped(w, p, a, product, q);
    case Send(Seller, product, q) => SendKeepsTyped(w, a, p, product, q);
    case _ =>
  }

  lemma SendKeepsTyped(w: World, giver: Addr, taker: Addr, product: string, q: real)
    requires giver in w && taker in w && Typed(w)
    ensures Typed(DoSend(w, giver, taker, product, q).world)
  {
  }

  lemma ActionIsExact(w: World, p: Addr, a: Addr, action: Action)
    requires p in w && a in w && Typed(w) && Supply(w) < UINT_SIZE && CoveredAction(w, p, a, action)
    ensures Supply(DoAction(w, p, a, action).world) == Supply(w)
  {
    match action
    case Transfer(Buyer, n) => MoveIsExact(w, p, a, -n);
    case Transfer(Seller, n) => MoveIsExact(w, p, a, n);
    case Send(Buyer, product, q) =>
      SendKeepsBalances(w, p, a, product, q);
      SameBalancesSameSupply(w, DoSend(w, p, a, product, q).world);
    case Send(Seller, product, q) =>
      SendKeepsBalances(w, a, p, product, q);
      SameBalancesSameSupply(w, DoSend(w, a, p, product, q).world);
    case _ =>
  }

  lemma {:induction false} ActionsAreExact(w: World, p: Addr, a: Addr, actions: seq<Action>)
    requires p in w && a in w && Typed(w) && Supply(w) < UINT_SIZE && CoveredActions(w, p, a, actions)
    ensures Supply(DoActions(w, p, a, actions).world) == Supply(w)
    decreases |actions|
  {
    if actions != [] {
      ActionIsExact(w, p, a, actions[0]);
      ActionKeepsTyped(w, p, a, actions[0]);
      if DoAction(w, p, a, actions[0]).ok {
        ActionsAreExact(DoAction(w, p, a, actions[0]).world, p, a, actions[1..]);
      }
    }
  }

  lemma TransferIsExact(w: World, t: Txn)
    requires Typed(w) && Supply(w) < UINT_SIZE && t.from in w && t.to in w && 0 <= t.value <= w[t.from].balance
    ensures Supply(DoValueTransfer(w, t).world) == Supply(w)
  {
    var moved := AddBalance(AddBalance(w, t.from, -t.value), t.to, t.value);
    TransferMovesValue(w, t);
    SameBalancesSameSupply(moved, DoValueTransfer(w, t).world);
    MoveIsExact(w, t.from, t.to, -t.value);
  }

  /** If every debit is covered and nothing is buried, not a coin appears or disappears. */
  lemma CoveredIsExact(dec: Decoder, w: World, t: Txn)
    requires Typed(w) && Supply(w) < UINT_SIZE && Covered(dec, w, t) && !BuriesMoney(w, t)
    ensures Supply(Execute(dec, w, t).world) == Supply(w)
  {
    if CallsContract(t) {
      ContractDoes(dec, w, t);
      if Asked(dec, w, t).Some? {
        var (c, actions) := Asked(dec, w, t).value;
        ActionsAreExact(w, c.proposer, c.acceptor, actions);
        SameBalancesSameSupply(DoActions(w, c.proposer, c.acceptor, actions).world, DoContract(dec, w, t).world);
      }
    } else if t.kind == CreateContract {
      if t.from in w {
        CreateChangesSupply(w, t);
      }
    } else if t.kind == SetStorage {
      SameBalancesSameSupply(w, DoSetStorage(w, t).world);
    } else if t.from in w && t.to in w {
      TransferIsExact(w, t);
    }
  }

  /** Verification covers the debit of a transfer if and only if the value is not negative. */
  lemma VerifiedIsCoveredIff(dec: Decoder, w: World, t: Txn)
    requires Typed(w) && Verify(w, t) && !CallsContract(t) && t.kind == ValueTransfer
    ensures Covered(dec, w, t) <==> t.value >= 0
  {
  }

  // ------------------------------------------------------------------------------- nonces

  /** A contract call whose assumptions do not hold is accepted without any effect. */
  predicate Idle(dec: Decoder, w: World, t: Txn) {
    CallsContract(t) && Called(dec, w, t).Some? && Called(dec, w, t).value.holds(w) == Ok(false)
  }

  ghost predicate SameNonces(w: World, w': World) {
    w.Keys == w'.Keys && forall a :: a in w ==> w'[a].nonce == w[a].nonce
  }

  lemma {:induction false} ActionsKeepNonces(w: World, p: Addr, a: Addr, actions: seq<Action>)
    requires p in w && a in w
    ensures SameNonces(w, DoActions(w, p, a, actions).world)
    decreases |actions|
  {
    if actions != [] {
      assert SameNonces(w, DoAction(w, p, a, actions[0]).world);
      if DoAction(w, p, a, actions[0]).ok {
        ActionsKeepNonces(DoAction(w, p, a, actions[0]).world, p, a, actions[1..]);
      }
    }
  }

  /** The nonce of an account after an execution. */
  function NonceAfter(dec: Decoder, w: World, t: Txn, a: Addr): (n: nat)
    requires a in w
  {
    if t.kind == CreateContract && t.from in w && a == t.to then 0
    else if Execute(dec, w, t).ok && !Idle(dec, w, t) && a == t.from then Wrap(w[a].nonce + 1) else w[a].nonce
  }

  /**
    An accepted transaction raises the nonce of its sender by one and no other; a rejected one, and
    a contract call whose assumptions do not hold, raise none. Only an account that a new contract
    replaces starts again at zero.
   */
  lemma NonceLaw(dec: Decoder, w: World, t: Txn, a: Addr)
    requires a in w
    ensures var w' := Execute(dec, w, t).world; a in w' && w'[a].nonce == NonceAfter(dec, w, t, a)
  {
    if CallsContract(t) {
      ContractDoes(dec, w, t);
      if Asked(dec, w, t).Some? {
        var (c, actions) := Asked(dec, w, t).value;
        ActionsKeepNonces(w, c.proposer, c.acceptor, actions);
      }
    }
  }

  /**
    A verified and accepted transaction verifies again right afterwards if and only if it was a
    contract call whose assumptions did not hold, or the first one of its sender and replaced the
    sender's own account by a contract.
   */
  lemma VerifiesAgainIff(dec: Decoder, w: World, t: Txn)
    requires Typed(w) && Verify(w, t) && Execute(dec, w, t).ok
    ensures Verify(Execute(dec, w, t).world, t) <==>
            Idle(dec, w, t) || (t.kind == CreateContract && t.to == t.from && t.nonce == 0 && t.value <= 0)
  {
    if !Idle(dec, w, t) {
      NonceLaw(dec, w, t, t.from);
      var n := w[t.from].nonce;
      assert Wrap(n + 1) == if n + 1 == UINT_SIZE then 0 else n + 1;
    }
  }

  // --------------------------------------------------------------------------- rejections

  /** A rejected transfer, storage write or contract creation leaves the state alone. */
  lemma RejectedIsUnchanged(dec: Decoder, w: World, t: Txn)
    requires !Execute(dec, w, t).ok
    ensures !CallsContract(t) || Asked(dec, w, t).None? ==> Execute(dec, w, t).world == w
  {
    if CallsContract(t) {
      ContractDoes(dec, w, t);
    }
  }

  // -------------------------------------------------------------- what moves, and what does not

  /** How much of a product an account holds. */
  function Held(w: World, a: Addr, product: string): (q: real) {
    if a in w && product in w[a].storage && w[a].storage[product].Num? then w[a].storage[product].amount else 0.0
  }

  function HeldByBoth(w: World, p: Addr, a: Addr, product: string): (q: real) {
    if p == a then Held(w, p, product) else Held(w, p, product) + Held(w, a, product)
  }

  /** Completed sends move exactly the quantity, never more than the giver holds. */
  lemma SendMovesGoods(w: World, giver: Addr, taker: Addr, product: string, quantity: real, other: string)
    requires giver in w && taker in w && DoSend(w, giver, taker, product, quantity).ok
    ensures var w' := DoSend(w, giver, taker, product, quantity).world;
            && quantity <= Held(w, giver, product)
            && (giver != taker ==>
                  && Held(w', giver, product) == Held(w, giver, product) - quantity
                  && Held(w', taker, product) == Held(w, taker, product) + quantity)
            && HeldByBoth(w', giver, taker, product) == HeldByBoth(w, giver, taker, product)
            && (other != product ==> Held(w', giver, other) == Held(w, giver, other)
                                     && Held(w', taker, other) == Held(w, taker, other))
  {
  }

  lemma ActionConservesGoods(w: World, p: Addr, a: Addr, action: Action, product: string)
    requires p in w && a in w && DoAction(w, p, a, action).ok
    ensures HeldByBoth(DoAction(w, p, a, action).world, p, a, product) == HeldByBoth(w, p, a, product)
  {
    match action
    case Send(Buyer, sent, q) => SendMovesGoods(w, p, a, sent, q, product);
    case Send(Seller, sent, q) => SendMovesGoods(w, a, p, sent, q, product);
    case _ =>
  }

  /** A contract that is carried out to the end conserves every product between its two parties. */
  lemma {:induction false} ActionsConserveGoods(w: World, p: Addr, a: Addr, actions: seq<Action>, product: string)
    requires p in w && a in w && DoActions(w, p, a, actions).ok
    ensures HeldByBoth(DoActions(w, p, a, actions).world, p, a, product) == HeldByBoth(w, p, a, product)
    decreases |actions|
  {
    if actions != [] {
      ActionConservesGoods(w, p, a, actions[0], product);
      ActionsConserveGoods(DoAction(w, p, a, actions[0]).world, p, a, actions[1..], product);
    }
  }

  /** A covered payment between different accounts leaves the payer and arrives at the payee in full. */
  lemma PaymentArrives(w: World, payer: Addr, payee: Addr, n: int)
    requires payer in w && payee in w && payer != payee && Supply(w) < UINT_SIZE && 0 <= n <= w[payer].balance
    ensures var w' := AddBalance(AddBalance(w, payer, -n), payee, n);
            && w'[payer].balance == w[payer].balance - n && w'[payee].balance == w[payee].balance + n
            && AddBalance(AddBalance(w, payee, n), payer, -n) == w'
  {
    TwoBalancesWithinSupply(w, payer, payee);
    BalanceWithinSupply(w, payer);
    WrapFits(w[payer].balance - n);
    WrapFits(w[payee].balance + n);
  }

  /**
    A verified transfer between different accounts moves exactly its value if and only if the receiver
    has what a negative value takes from it. A negative value is taken from the receiver, who has
    signed nothing.
   */
  lemma TransferArrivesIff(w: World, t: Txn)
    requires Typed(w) && Supply(w) < UINT_SIZE && Verify(w, t) && t.to in w && t.from != t.to
    ensures var w' := DoValueTransfer(w, t).world;
            w'[t.from].balance == w[t.from].balance - t.value && w'[t.to].balance == w[t.to].balance + t.value
            <==> -t.value <= w[t.to].balance
  {
    TransferMovesValue(w, t);
    if t.value >= 0 {
      PaymentArrives(w, t.from, t.to, t.value);
    } else if -t.value <= w[t.to].balance {
      PaymentArrives(w, t.to, t.from, -t.value);
    }
  }

  const RICH: Addr := "1rich000"
  const THIEF: Addr := "2thief00"

  /** A transfer of a negative value, signed by the one who gains, empties another account. */
  lemma NegativeTransferSteals()
    ensures var w: World := map[RICH := Account(0, 9, map[], ""), THIEF := Account(0, 0, map[], "")];
            var t := Txn(0, THIEF, RICH, ValueTransfer, "", -9, "", Text(""), Some(THIEF));
            && Verify(w, t) && DoValueTransfer(w, t).ok
            && DoValueTransfer(w, t).world[RICH].balance == 0 && DoValueTransfer(w, t).world[THIEF].balance == 9
  {
  }

  /** A buyer's transfer goes from the proposer to the acceptor of a contract, a seller's the other way. */
  lemma ContractPaymentArrives(w: World, p: Addr, a: Addr, n: int)
    requires p in w && a in w && p != a && Supply(w) < UINT_SIZE
    ensures 0 <= n <= w[p].balance ==>
              var w' := DoAction(w, p, a, Transfer(Buyer, n)).world;
              w'[p].balance == w[p].balance - n && w'[a].balance == w[a].balance + n
    ensures 0 <= n <= w[a].balance ==>
              var w' := DoAction(w, p, a, Transfer(Seller, n)).world;
              w'[a].balance == w[a].balance - n && w'[p].balance == w[p].balance + n
  {
    if 0 <= n <= w[p].balance {
      PaymentArrives(w, p, a, n);
    }
    if 0 <= n <= w[a].balance {
      PaymentArrives(w, a, p, n);
    }
  }

  /** The accounts a transaction may change. */
  ghost function Touched(dec: Decoder, w: World, t: Txn): (s: set<Addr>) {
    if CallsContract(t) then
      var asked := Asked(dec, w, t);
      if asked.None? then {} else {asked.value.0.proposer, asked.value.0.acceptor}
    else if t.kind == SetStorage then {t.from}
    else {t.from, t.to}
  }

  lemma {:induction false} ActionsTouchParties(w: World, p: Addr, a: Addr, actions: seq<Action>, b: Addr)
    requires p in w && a in w && b in w && b != p && b != a
    ensures DoActions(w, p, a, actions).world[b] == w[b]
    decreases |actions|
  {
    if actions != [] && DoAction(w, p, a, actions[0]).ok {
      ActionsTouchParties(DoAction(w, p, a, actions[0]).world, p, a, actions[1..], b);
    }
  }

  /** No execution changes an account that is not a party to it. */
  lemma OthersAreUntouched(dec: Decoder, w: World, t: Txn, b: Addr)
    requires b in w && b !in Touched(dec, w, t)
    ensures b in Execute(dec, w, t).world && Execute(dec, w, t).world[b] == w[b]
  {
    if CallsContract(t) {
      ContractDoes(dec, w, t);
      if Asked(dec, w, t).Some? {
        var (c, actions) := Asked(dec, w, t).value;
        ActionsTouchParties(w, c.proposer, c.acceptor, actions, b);
      }
    }
  }
}
