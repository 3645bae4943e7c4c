/**
  A chain of blocks with their states, grown as the block daemon grows it (blockchain/miner/daemon.go):
  a block is appended if replaying its transactions on its parent's state gives the state it claims.
 */
module LedgerChain {
  import opened Wrappers
  import opened Words
  import opened Ledger
  import opened ContractRuns
  import opened Mining

  datatype StateBlock = StateBlock(txns: seq<Txn>, state: World)

  ghost predicate Grown(dec: Decoder, chain: seq<StateBlock>) {
    && chain != []
    && forall i :: 0 < i < |chain| ==> Accepts(dec, chain[i - 1].state, chain[i].txns, chain[i].state)
  }

  /** The transactions of all blocks after the first. */
  function AllTxns(chain: seq<StateBlock>): (txns: seq<Txn>) {
    if |chain| <= 1 then [] else AllTxns(chain[..|chain| - 1]) + chain[|chain| - 1].txns
  }

  lemma {:induction false} ReplayConcat(dec: Decoder, w: World, s: seq<Txn>, t: seq<Txn>)
    ensures Replay(dec, w, s + t) == Replay(dec, Replay(dec, w, s), t)
    decreases |t|
  {
    if t == [] {
      assert s + t == s;
    } else {
      assert (s + t)[..|s + t| - 1] == s + t[..|t| - 1];
      ReplayConcat(dec, w, s, t[..|t| - 1]);
    }
  }

  /** The state of the last block is the replay of everything since the first block. */
  lemma {:induction false} StateIsReplay(dec: Decoder, chain: seq<StateBlock>)
    requires Grown(dec, chain)
    ensures chain[|chain| - 1].state == Replay(dec, chain[0].state, AllTxns(chain))
    decreases |chain|
  {
    if |chain| > 1 {
      var n := |chain| - 1;
      StateIsReplay(dec, chain[..n]);
      ReplayConcat(dec, chain[0].state, AllTxns(chain[..n]), chain[n].txns);
      assert Accepts(dec, chain[n - 1].state, chain[n].txns, chain[n].state);
    }
  }

  /** The money in the last block is that in the first, modulo 2^64, and exactly if all debits were covered. */
  lemma SupplyAlongChain(dec: Decoder, chain: seq<StateBlock>)
    requires Grown(dec, chain) && Typed(chain[0].state) && NothingBuried(dec, chain[0].state, AllTxns(chain))
    ensures SameModulo(Supply(chain[|chain| - 1].state), Supply(chain[0].state))
    ensures Supply(chain[0].state) < UINT_SIZE && AllCovered(dec, chain[0].state, AllTxns(chain)) ==>
              Supply(chain[|chain| - 1].state) == Supply(chain[0].state)
  {
    StateIsReplay(dec, chain);
    SupplyIsForever(dec, chain[0].state, AllTxns(chain));
    if Supply(chain[0].state) < UINT_SIZE && AllCovered(dec, chain[0].state, AllTxns(chain)) {
      SupplyIsExactForever(dec, chain[0].state, AllTxns(chain));
    }
  }

  // ------------------------------------------------------------------ nothing twice

  /** The state in which transaction `i` is executed. */
  function Before(dec: Decoder, w: World, txns: seq<Txn>, i: nat): (r: World)
    requires i <= |txns|
  {
    Replay(dec, w, txns[..i])
  }

  lemma OneStep(dec: Decoder, w: World, txns: seq<Txn>, i: nat)
    requires i < |txns|
    ensures Before(dec, w, txns, i + 1) == Execute(dec, Before(dec, w, txns, i), txns[i]).world
  {
    assert txns[..i + 1][..i] == txns[..i];
  }

  ghost predicate StepAt(dec: Decoder, h: seq<World>, txns: seq<Txn>, i: nat)
    requires i < |txns| < |h|
  {
    h[i + 1] == Execute(dec, h[i], txns[i]).world
  }

  /** The states before each transaction, and after the last one. */
  ghost predicate IsHistory(dec: Decoder, h: seq<World>, txns: seq<Txn>) {
    |h| == |txns| + 1 && forall i :: 0 <= i < |txns| ==> StepAt(dec, h, txns, i)
  }

  /** Replay goes through a history. */
  lemma ReplayHasHistory(dec: Decoder, w: World, txns: seq<Txn>) returns (h: seq<World>)
    ensures IsHistory(dec, h, txns) && h[0] == w && h[|txns|] == Replay(dec, w, txns)
    ensures forall i :: 0 <= i <= |txns| ==> h[i] == Before(dec, w, txns, i)
  {
    h := seq(|txns| + 1, i requires 0 <= i <= |txns| => Before(dec, w, txns, i));
    forall i | 0 <= i < |txns| ensures StepAt(dec, h, txns, i) {
      OneStep(dec, w, txns, i);
    }
    assert txns[..|txns|] == txns;
  }

  /** The execution was accepted and did something. */
  predicate TakesEffect(dec: Decoder, w: World, t: Txn) {
    Execute(dec, w, t).ok && !Idle(dec, w, t)
  }

  /** The transaction creates a contract in the account's place. */
  predicate Replaces(w: World, t: Txn, a: Addr) {
    t.kind == CreateContract && t.to == a && t.from in w
  }

  /** Where the account as it is at `j` began: right after it was last replaced, or at `i`. */
  function Since(h: seq<World>, txns: seq<Txn>, i: nat, j: nat, a: Addr): (k: nat)
    requires i <= j <= |txns| < |h|
    ensures i <= k <= j
    decreases j - i
  {
    if i == j then i else if Replaces(h[j - 1], txns[j - 1], a) then j else Since(h, txns, i, j - 1, a)
  }

  /** How many transactions of the account took effect. */
  function Effects(dec: Decoder, h: seq<World>, txns: seq<Txn>, i: nat, j: nat, a: Addr): (n: nat)
    requires i <= j <= |txns| < |h|
    decreases j - i
  {
    if i == j then 0
    else
      Effects(dec, h, txns, i, j - 1, a) +
      if txns[j - 1].from == a && TakesEffect(dec, h[j - 1], txns[j - 1]) then 1 else 0
  }

  /** The nonce an account began with. */
  function FirstNonce(h: seq<World>, i: nat, k: nat, a: Addr): (n: nat)
    requires i < |h| && a in h[i]
  {
    if k == i then h[i][a].nonce else 0
  }

  /** One step of the count. */
  lemma NonceStep(dec: Decoder, w: World, t: Txn, a: Addr, n: nat)
    requires a in w && w[a].nonce == Wrap(n) && !Replaces(w, t, a)
    ensures a in Execute(dec, w, t).world
    ensures Execute(dec, w, t).world[a].nonce == Wrap(n + if t.from == a && TakesEffect(dec, w, t) then 1 else 0)
  {
    NonceLaw(dec, w, t, a);
    WrapAdds(n, 1);
  }

  /**
    The exact nonce after any transactions: what the account began with, plus one for each effective
    transaction of it since, wrapped around at 2^64.
   */
  lemma {:induction false} NonceCounts(dec: Decoder, h: seq<World>, txns: seq<Txn>, i: nat, j: nat, a: Addr)
    requires IsHistory(dec, h, txns) && i <= j <= |txns| && a in h[i] && h[i][a].nonce < UINT_SIZE
    ensures var k := Since(h, txns, i, j, a);
            a in h[j] && h[j][a].nonce == Wrap(FirstNonce(h, i, k, a) + Effects(dec, h, txns, k, j, a))
    decreases j - i
  {
    if i == j {
      WrapFits(h[i][a].nonce);
    } else {
      NonceCounts(dec, h, txns, i, j - 1, a);
      assert StepAt(dec, h, txns, j - 1);
      var k := Since(h, txns, i, j - 1, a);
      if Replaces(h[j - 1], txns[j - 1], a) {
        NonceLaw(dec, h[j - 1], txns[j - 1], a);
      } else {
        NonceStep(dec, h[j - 1], txns[j - 1], a, FirstNonce(h, i, k, a) + Effects(dec, h, txns, k, j - 1, a));
      }
    }
  }

  lemma ToIntIsInjective(x: nat, y: nat)
    requires x < UINT_SIZE && y < UINT_SIZE
    ensures ToInt(x) == ToInt(y) <==> x == y
  {
  }

  /** A nonce that has moved on by `c` is the same again exactly after whole turns. */
  lemma MovedOnVerifiesIff(w: World, w': World, t: Txn, c: nat)
    requires Verify(w, t) && w[t.from].nonce < UINT_SIZE && t.from in w' && w'[t.from].nonce == Wrap(w[t.from].nonce + c)
    ensures Verify(w', t) <==> t.value <= ToInt(w'[t.from].balance) && c % UINT_SIZE == 0
  {
    BalanceCancels(w[t.from].nonce, c);
    ToIntIsInjective(w'[t.from].nonce, w[t.from].nonce);
  }

  lemma StartedAgainVerifiesIff(w: World, t: Txn, c: nat)
    requires t.signer == Some(t.from) && t.from in w && w[t.from].nonce == Wrap(c)
    ensures Verify(w, t) <==> t.value <= ToInt(w[t.from].balance) && t.nonce == ToInt(Wrap(c))
  {
  }

  /**
    A verified transaction verifies again at a later place of the chain if and only if its sender can
    cover it then, and either a whole number of times 2^64 transactions of the sender took effect since,
    or the sender was replaced and as many took effect after that as the transaction's nonce says.
   */
  lemma VerifiesLaterIff(dec: Decoder, h: seq<World>, txns: seq<Txn>, i: nat, j: nat)
    requires IsHistory(dec, h, txns) && i < j <= |txns| && Verify(h[i], txns[i]) && h[i][txns[i].from].nonce < UINT_SIZE
    ensures var t := txns[i];
            var k := Since(h, txns, i, j, t.from);
            var c := Effects(dec, h, txns, k, j, t.from);
            && t.from in h[j]
            && (Verify(h[j], t) <==>
                  && t.value <= ToInt(h[j][t.from].balance)
                  && (if k == i then c % UINT_SIZE == 0 else t.nonce == ToInt(Wrap(c))))
  {
    var t := txns[i];
    var k := Since(h, txns, i, j, t.from);
    var c := Effects(dec, h, txns, k, j, t.from);
    NonceCounts(dec, h, txns, i, j, t.from);
    if k == i {
      MovedOnVerifiesIff(h[i], h[j], t, c);
    } else {
      StartedAgainVerifiesIff(h[j], t, c);
    }
  }

  lemma {:induction false} EffectsAreFew(dec: Decoder, h: seq<World>, txns: seq<Txn>, i: nat, j: nat)
    requires i < j <= |txns| < |h| && TakesEffect(dec, h[i], txns[i])
    ensures 1 <= Effects(dec, h, txns, i, j, txns[i].from) <= j - i
    decreases j - i
  {
    if i < j - 1 {
      EffectsAreFew(dec, h, txns, i, j - 1);
    } else {
      assert Effects(dec, h, txns, i, i, txns[i].from) == 0;
    }
  }

  /** None of these transactions creates a contract in the account's place. */
  predicate NeverReplaced(txns: seq<Txn>, i: nat, j: nat, a: Addr)
    requires i <= j <= |txns|
  {
    forall k :: i <= k < j && txns[k].kind == CreateContract ==> txns[k].to != a
  }

  lemma {:induction false} SinceTheStart(h: seq<World>, txns: seq<Txn>, i: nat, j: nat, a: Addr)
    requires i <= j <= |txns| < |h| && NeverReplaced(txns, i, j, a)
    ensures Since(h, txns, i, j, a) == i
    decreases j - i
  {
    if i < j {
      SinceTheStart(h, txns, i, j - 1, a);
    }
  }

  /**
    Along a chain of less than 2^64 transactions, a verified transaction that took effect never verifies
    again, as long as no contract is created in its sender's place.
   */
  lemma NothingTwice(dec: Decoder, h: seq<World>, txns: seq<Txn>, i: nat, j: nat)
    requires IsHistory(dec, h, txns) && i < j <= |txns| && j - i < UINT_SIZE
    requires Verify(h[i], txns[i]) && h[i][txns[i].from].nonce < UINT_SIZE
    requires TakesEffect(dec, h[i], txns[i]) && NeverReplaced(txns, i, j, txns[i].from)
    ensures !Verify(h[j], txns[i])
  {
    SinceTheStart(h, txns, i, j, txns[i].from);
    EffectsAreFew(dec, h, txns, i, j);
    VerifiesLaterIff(dec, h, txns, i, j);
  }

  /** Right after its sender was replaced, exactly a first transaction that moves nothing verifies. */
  lemma ReplacedVerifiesIff(dec: Decoder, w: World, creation: Txn, t: Txn)
    requires Replaces(w, creation, t.from)
    ensures Verify(Execute(dec, w, creation).world, t) <==>
            t.signer == Some(t.from) && t.nonce == 0 && t.value <= 0
  {
  }

  // ------------------------------------------------------- replay without verification

  lemma {:induction false} AccountsStay(dec: Decoder, h: seq<World>, txns: seq<Txn>, i: nat, j: nat)
    requires IsHistory(dec, h, txns) && i <= j <= |txns|
    ensures h[i].Keys <= h[j].Keys
    decreases j - i
  {
    if i < j {
      AccountsStay(dec, h, txns, i, j - 1);
      assert StepAt(dec, h, txns, j - 1);
    }
  }

  /** A repeated transaction takes effect again in replay, unless it calls a contract. */
  lemma RepeatsTakeEffect(dec: Decoder, h: seq<World>, txns: seq<Txn>, i: nat, j: nat)
    requires IsHistory(dec, h, txns) && i < j < |txns| && txns[j] == txns[i]
    requires !CallsContract(txns[i]) && TakesEffect(dec, h[i], txns[i])
    ensures TakesEffect(dec, h[j], txns[j])
  {
    AccountsStay(dec, h, txns, i, j);
  }

  /** The transaction at `i` takes effect and occurs again at `j`. */
  predicate OccursAgain(dec: Decoder, h: seq<World>, txns: seq<Txn>, i: nat, j: nat)
    requires i < j < |txns| < |h|
  {
    txns[j] == txns[i] && TakesEffect(dec, h[i], txns[i])
  }

  /**
    Along a chain without contract calls, replay lets no transaction take effect twice if and only if
    none that takes effect occurs twice: neither nonces nor signatures stand in the way.
   */
  lemma ReplayedOnceIff(dec: Decoder, h: seq<World>, txns: seq<Txn>)
    requires IsHistory(dec, h, txns) && forall i :: 0 <= i < |txns| ==> !CallsContract(txns[i])
    ensures (forall i, j :: 0 <= i < j < |txns| && OccursAgain(dec, h, txns, i, j) ==> !TakesEffect(dec, h[j], txns[j]))
            <==> forall i, j :: 0 <= i < j < |txns| ==> !OccursAgain(dec, h, txns, i, j)
  {
    forall i, j | 0 <= i < j < |txns| && OccursAgain(dec, h, txns, i, j) ensures TakesEffect(dec, h[j], txns[j]) {
      RepeatsTakeEffect(dec, h, txns, i, j);
    }
  }

  /** Transaction `i` verifies and is accepted in its turn. */
  predicate StandsAt(dec: Decoder, w: World, txns: seq<Txn>, i: nat)
    requires i < |txns|
  {
    Verify(Before(dec, w, txns, i), txns[i]) && Execute(dec, Before(dec, w, txns, i), txns[i]).ok
  }

  lemma {:induction false} MineIsShort(dec: Decoder, w: World, txns: seq<Txn>)
    ensures |Mine(dec, w, txns).accepted| <= |txns|
    decreases |txns|
  {
    if txns != [] {
      MineIsShort(dec, w, txns[..|txns| - 1]);
    }
  }

  lemma StandsBefore(dec: Decoder, w: World, txns: seq<Txn>, n: nat, i: nat)
    requires i < n <= |txns|
    ensures StandsAt(dec, w, txns[..n], i) <==> StandsAt(dec, w, txns, i)
  {
    assert txns[..n][..i] == txns[..i];
  }

  /** A miner can build a block from exactly these transactions, in this order. */
  ghost predicate Minable(dec: Decoder, w: World, txns: seq<Txn>) {
    Mine(dec, w, txns).accepted == txns
  }

  /**
    A miner takes all of a sequence of transactions into its block if and only if each of them verifies
    and is accepted in its turn; replay then gives the miner's state.
   */
  lemma {:induction false} MinableIff(dec: Decoder, w: World, txns: seq<Txn>)
    ensures Minable(dec, w, txns) <==> forall i :: 0 <= i < |txns| ==> StandsAt(dec, w, txns, i)
    ensures Minable(dec, w, txns) ==> Accepts(dec, w, txns, Mine(dec, w, txns).world)
    decreases |txns|
  {
    if txns != [] {
      var n := |txns| - 1;
      MinableIff(dec, w, txns[..n]);
      MineIsShort(dec, w, txns[..n]);
      LastMinable(dec, w, txns);
      forall i | 0 <= i < n ensures StandsAt(dec, w, txns[..n], i) <==> StandsAt(dec, w, txns, i) {
        StandsBefore(dec, w, txns, n, i);
      }
    }
  }

  lemma SameSnoc(s: seq<Txn>, t: seq<Txn>)
    requires |s| < |t|
    ensures s + [t[|t| - 1]] == t <==> s == t[..|t| - 1]
  {
    if s + [t[|t| - 1]] == t {
      assert s == (s + [t[|t| - 1]])[..|s|];
    }
  }

  lemma MineLast(dec: Decoder, w: World, txns: seq<Txn>, r: Mined)
    requires txns != [] && r == Mine(dec, w, txns[..|txns| - 1])
    ensures var t := txns[|txns| - 1]; var o := Execute(dec, r.world, t);
            Mine(dec, w, txns) == if !Verify(r.world, t) then r
                                  else Mined(o.world, if o.ok then r.accepted + [t] else r.accepted)
  {
  }

  lemma LastMinable(dec: Decoder, w: World, txns: seq<Txn>)
    requires txns != []
    requires Minable(dec, w, txns[..|txns| - 1]) ==>
               Accepts(dec, w, txns[..|txns| - 1], Mine(dec, w, txns[..|txns| - 1]).world)
    ensures Minable(dec, w, txns) <==> Minable(dec, w, txns[..|txns| - 1]) && StandsAt(dec, w, txns, |txns| - 1)
    ensures Minable(dec, w, txns) ==> Accepts(dec, w, txns, Mine(dec, w, txns).world)
  {
    var n := |txns| - 1;
    var r := Mine(dec, w, txns[..n]);
    MineIsShort(dec, w, txns[..n]);
    MineLast(dec, w, txns, r);
    SameSnoc(r.accepted, txns);
    OneStep(dec, w, txns, n);
    assert txns[..n + 1] == txns;
  }

  /** The transactions of a mined block are verified on its parent's state, if the run was clean. */
  lemma {:induction false} MinedIsVerified(dec: Decoder, w: World, txns: seq<Txn>)
    requires Typed(w) && Clean(dec, w, txns)
    ensures var accepted := Mine(dec, w, txns).accepted;
            forall i :: 0 <= i < |accepted| ==> Verify(Before(dec, w, accepted, i), accepted[i])
    decreases |txns|
  {
    if txns != [] {
      var n := |txns| - 1;
      MinedIsVerified(dec, w, txns[..n]);
      ReplayIsExact(dec, w, txns[..n]);
      var r, r' := Mine(dec, w, txns[..n]), Mine(dec, w, txns);
      forall i | 0 <= i < |r'.accepted| ensures Verify(Before(dec, w, r'.accepted, i), r'.accepted[i]) {
        if i < |r.accepted| {
          assert Verify(Before(dec, w, r.accepted, i), r.accepted[i]);
          assert r'.accepted[..i] == r.accepted[..i];
        } else {
          assert r'.accepted[..i] == r.accepted;
        }
      }
    }
  }

  // --------------------------------------------- a block daemon that verifies nothing

  const PAYER: Addr := "1payer00"
  const PAYEE: Addr := "2payee00"

  const PARENT: World := map[PAYER := Account(0, 9, map[], ""), PAYEE := Account(0, 0, map[], "")]

  const PAYMENT := Txn(0, PAYER, PAYEE, ValueTransfer, "", 4, "", Text(""), Some(PAYER))

  function NoContracts(code: string): (c: Option<Contract>) {
    None
  }

  /**
    The daemon replays a block without verifying its transactions, so a block that holds one payment
    twice is appended and pays twice, although the second does not verify.
   */
  lemma BlockDaemonPaysTwice()
    ensures var once := Execute(NoContracts, PARENT, PAYMENT).world;
            var twice := Replay(NoContracts, PARENT, [PAYMENT, PAYMENT]);
            && Verify(PARENT, PAYMENT) && !Verify(once, PAYMENT)
            && Accepts(NoContracts, PARENT, [PAYMENT, PAYMENT], twice)
            && PAYEE in twice && twice[PAYEE].balance == 8
  {
    assert PAYEE[0] == '2';
    assert !CallsContract(PAYMENT);
    assert [PAYMENT, PAYMENT][..1] == [PAYMENT] && [PAYMENT][..0] == [];
    var once := Execute(NoContracts, PARENT, PAYMENT).world;
    assert Replay(NoContracts, PARENT, [PAYMENT]) == once;
    assert once == map[PAYER := Account(1, 5, map[], ""), PAYEE := Account(0, 4, map[], "")];
  }

  const WRITE := Txn(0, PAYER, PAYER, SetStorage, "", 0, "note", Text(""), Some(PAYER))
  const REPLACE := Txn(0, PAYEE, PAYER, CreateContract, "", 0, "", Text(""), Some(PAYEE))

  /** A contract in the sender's place resets its nonce, so that its first transaction takes effect again. */
  lemma ReplacedSenderRepeats()
    ensures var w1 := Execute(NoContracts, PARENT, WRITE).world;
            var w2 := Execute(NoContracts, w1, REPLACE).world;
            && Verify(PARENT, WRITE) && TakesEffect(NoContracts, PARENT, WRITE)
            && !Verify(w1, WRITE) && Verify(w1, REPLACE)
            && Verify(w2, WRITE) && TakesEffect(NoContracts, w2, WRITE)
  {
    assert PAYER[0] == '1';
    assert !CallsContract(WRITE) && !CallsContract(REPLACE);
  }
}
