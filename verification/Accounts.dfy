/**
  What happens to one account in whole runs: without its owner's signature only what others pay to
  it; what it writes is read back until it is written again; and a contract account runs the code it
  was created with.
 */
module Accounts {
  import opened Wrappers
  import opened Words
  import opened Ledger
  import opened ContractRuns
  import opened Mining
  import opened LedgerChain

  // ------------------------------------------------------------------------- signatures

  /** Every transaction a miner takes into a block is signed by its sender. */
  lemma {:induction false} AcceptedAreSigned(dec: Decoder, w: World, txns: seq<Txn>, t: Txn)
    requires t in Mine(dec, w, txns).accepted
    ensures t in txns && t.signer == Some(t.from)
    decreases |txns|
  {
    var n := |txns| - 1;
    if t in Mine(dec, w, txns[..n]).accepted {
      AcceptedAreSigned(dec, w, txns[..n], t);
    }
  }

  /** The account is one of the two between which a contract call would act. */
  predicate IsParty(dec: Decoder, w: World, t: Txn, a: Addr) {
    CallsContract(t) && Asked(dec, w, t).Some? &&
    var c := Asked(dec, w, t).value.0; a == c.proposer || a == c.acceptor
  }

  /** What a transaction pays to an account if it is accepted; a negative value takes. */
  function PaysTo(t: Txn, a: Addr): (n: int) {
    if !CallsContract(t) && t.kind == ValueTransfer && t.to == a then t.value else 0
  }

  function PaysAll(txns: seq<Txn>, a: Addr): (n: int) {
    if txns == [] then 0 else PaysAll(txns[..|txns| - 1], a) + PaysTo(txns[|txns| - 1], a)
  }

  /** The transaction does not come from the account, is no contract between it and another, and does not replace it. */
  predicate Foreign(dec: Decoder, w: World, t: Txn, a: Addr) {
    t.signer != Some(a) && !IsParty(dec, w, t, a) && !Replaces(w, t, a)
  }

  /** The same account but for its balance. */
  predicate SameButBalance(w: World, w': World, a: Addr) {
    a in w && a in w' && w'[a] == w[a].(balance := w'[a].balance)
  }

  lemma ForeignOnlyPays(dec: Decoder, w: World, t: Txn, a: Addr)
    requires Verify(w, t) && a in w && w[a].balance < UINT_SIZE && Foreign(dec, w, t, a)
    ensures var r := Execute(dec, w, t);
            && SameButBalance(w, r.world, a)
            && r.world[a].balance == Wrap(w[a].balance + if r.ok then PaysTo(t, a) else 0)
  {
    WrapFits(w[a].balance);
    if CallsContract(t) {
      OthersAreUntouched(dec, w, t, a);
    }
  }

  /** Every transaction of the mining run is foreign to the account where it comes. */
  ghost predicate AllForeign(dec: Decoder, w: World, txns: seq<Txn>, a: Addr) {
    txns == [] ||
    (var n := |txns| - 1;
     AllForeign(dec, w, txns[..n], a) && Foreign(dec, Mine(dec, w, txns[..n]).world, txns[n], a))
  }

  lemma PaysAllSnoc(txns: seq<Txn>, t: Txn, a: Addr)
    ensures PaysAll(txns + [t], a) == PaysAll(txns, a) + PaysTo(t, a)
  {
    assert (txns + [t])[..|txns|] == txns;
  }

  /** All that has happened to the account is that it was paid by the accepted transactions. */
  ghost predicate OnlyReceived(w: World, r: Mined, a: Addr) {
    SameButBalance(w, r.world, a) && r.world[a].balance == Wrap(w[a].balance + PaysAll(r.accepted, a))
  }

  lemma PaidOnce(paid: int, n: int, x: int)
    requires n == Wrap(paid)
    ensures Wrap(n + x) == Wrap(paid + x) && Wrap(n) == n
  {
    WrapAdds(paid, x);
    WrapAdds(paid, 0);
  }

  lemma ReceivesOnce(dec: Decoder, w: World, r: Mined, t: Txn, a: Addr)
    requires OnlyReceived(w, r, a) && Verify(r.world, t) && Foreign(dec, r.world, t, a)
    ensures var o := Execute(dec, r.world, t);
            OnlyReceived(w, Mined(o.world, if o.ok then r.accepted + [t] else r.accepted), a)
  {
    ForeignOnlyPays(dec, r.world, t, a);
    ReceivesMore(w, r, Execute(dec, r.world, t), t, a);
  }

  lemma ReceivesMore(w: World, r: Mined, o: Outcome, t: Txn, a: Addr)
    requires OnlyReceived(w, r, a) && SameButBalance(r.world, o.world, a)
    requires o.world[a].balance == Wrap(r.world[a].balance + if o.ok then PaysTo(t, a) else 0)
    ensures OnlyReceived(w, Mined(o.world, if o.ok then r.accepted + [t] else r.accepted), a)
  {
    PaysAllSnoc(r.accepted, t, a);
    PaidOnce(w[a].balance + PaysAll(r.accepted, a), r.world[a].balance, PaysTo(t, a));
  }

  /**
    If the owner of an account signed none of the transactions, and the account is no party of a
    contract call and is not replaced, mining leaves its nonce, storage and code alone, and its balance
    is what it was plus what the accepted transfers pay to it, modulo 2^64.
   */
  lemma {:induction false} UnsignedOnlyReceives(dec: Decoder, w: World, txns: seq<Txn>, a: Addr)
    requires a in w && w[a].balance < UINT_SIZE && AllForeign(dec, w, txns, a)
    ensures OnlyReceived(w, Mine(dec, w, txns), a)
    decreases |txns|
  {
    if txns == [] {
      WrapFits(w[a].balance);
    } else {
      var n := |txns| - 1;
      var r := Mine(dec, w, txns[..n]);
      UnsignedOnlyReceives(dec, w, txns[..n], a);
      MineLast(dec, w, txns, r);
      if Verify(r.world, txns[n]) {
        ReceivesOnce(dec, w, r, txns[n], a);
      }
    }
  }

  // ------------------------------------------------------------------------ what is written

  /** The transaction writes the entry of the account. */
  predicate Writes(t: Txn, a: Addr, key: string) {
    !IsContract(t.to) && t.kind == SetStorage && t.from == a && t.key == key
  }

  lemma EntryStays(dec: Decoder, w: World, t: Txn, a: Addr, key: string)
    requires a in w && !Replaces(w, t, a) && !IsParty(dec, w, t, a) && !Writes(t, a, key)
    ensures a in Execute(dec, w, t).world && Entry(Execute(dec, w, t).world, a, key) == Entry(w, a, key)
  {
    if CallsContract(t) {
      OthersAreUntouched(dec, w, t, a);
    }
  }

  /** Nothing between `i` and `j` may change the entry of the account. */
  ghost predicate LeftAlone(dec: Decoder, h: seq<World>, txns: seq<Txn>, i: nat, j: nat, a: Addr, key: string)
    requires i <= j <= |txns| < |h|
  {
    forall k :: i <= k < j ==>
      !Replaces(h[k], txns[k], a) && !IsParty(dec, h[k], txns[k], a) && !Writes(txns[k], a, key)
  }

  /** What an account writes is read back until it is written again, replaced, or dealt with by a contract. */
  lemma {:induction false} WrittenIsRead(dec: Decoder, h: seq<World>, txns: seq<Txn>, i: nat, j: nat)
    requires IsHistory(dec, h, txns) && i < j <= |txns| && txns[i].from in h[i]
    requires Writes(txns[i], txns[i].from, txns[i].key)
    requires LeftAlone(dec, h, txns, i + 1, j, txns[i].from, txns[i].key)
    ensures txns[i].from in h[j] && Entry(h[j], txns[i].from, txns[i].key) == Some(txns[i].item)
    decreases j - i
  {
    assert StepAt(dec, h, txns, j - 1);
    if i < j - 1 {
      WrittenIsRead(dec, h, txns, i, j - 1);
      EntryStays(dec, h[j - 1], txns[j - 1], txns[i].from, txns[i].key);
    }
  }

  /** A created contract owns nothing until something is written, paid or sent to it. */
  lemma {:induction false} CreatedStartsEmpty(dec: Decoder, h: seq<World>, txns: seq<Txn>, i: nat, j: nat, key: string)
    requires IsHistory(dec, h, txns) && i < j <= |txns| && Replaces(h[i], txns[i], txns[i].to)
    requires LeftAlone(dec, h, txns, i + 1, j, txns[i].to, key)
    ensures txns[i].to in h[j] && Entry(h[j], txns[i].to, key) == None
    ensures txns[i].to in h[i + 1] && h[i + 1][txns[i].to].balance == 0 && h[i + 1][txns[i].to].nonce == 0
    decreases j - i
  {
    assert StepAt(dec, h, txns, i) && StepAt(dec, h, txns, j - 1);
    if i < j - 1 {
      CreatedStartsEmpty(dec, h, txns, i, j - 1, key);
      EntryStays(dec, h[j - 1], txns[j - 1], txns[i].to, key);
    }
  }

  // ---------------------------------------------------------------------- contract addresses

  function HexChar(d: nat): (c: char)
    requires d < 16
    ensures c == '0' <==> d == 0
  {
    "0123456789abcdef"[d]
  }

  /** An address in hexadecimal. */
  function HexAddr(bytes: seq<nat>): (a: Addr)
    requires forall i :: 0 <= i < |bytes| ==> bytes[i] < 256
    ensures |a| == 2 * |bytes|
  {
    if bytes == [] then "" else [HexChar(bytes[0] / 16), HexChar(bytes[0] % 16)] + HexAddr(bytes[1..])
  }

  lemma {:induction false} HexAt(bytes: seq<nat>, i: nat)
    requires (forall k :: 0 <= k < |bytes| ==> bytes[k] < 256) && i < |bytes|
    ensures HexAddr(bytes)[2 * i] == HexChar(bytes[i] / 16) && HexAddr(bytes)[2 * i + 1] == HexChar(bytes[i] % 16)
    decreases i
  {
    if i > 0 {
      HexAt(bytes[1..], i - 1);
    }
  }

  /** A byte is zero exactly if both its digits are. */
  lemma ZeroDigits(bytes: seq<nat>, i: nat)
    requires (forall k :: 0 <= k < |bytes| ==> bytes[k] < 256) && i < |bytes|
    ensures HexAddr(bytes)[2 * i] == '0' && HexAddr(bytes)[2 * i + 1] == '0' <==> bytes[i] == 0
  {
    HexAt(bytes, i);
  }

  /** An address is a contract's exactly if its first four bytes are zero. */
  lemma ContractAddress(bytes: seq<nat>)
    requires (forall i :: 0 <= i < |bytes| ==> bytes[i] < 256) && |bytes| >= 4
    ensures IsContract(HexAddr(bytes)) <==> bytes[0] == bytes[1] == bytes[2] == bytes[3] == 0
  {
    ZeroDigits(bytes, 0);
    ZeroDigits(bytes, 1);
    ZeroDigits(bytes, 2);
    ZeroDigits(bytes, 3);
    EightDigits(HexAddr(bytes));
  }

  lemma EightDigits(a: Addr)
    requires |a| >= 8
    ensures IsContract(a) <==> a[0] == a[1] == a[2] == a[3] == a[4] == a[5] == a[6] == a[7] == '0'
  {
  }

  // ------------------------------------------------------------------------- contract code

  lemma {:induction false} ActionsKeepCode(w: World, p: Addr, a: Addr, actions: seq<Action>, x: Addr)
    requires p in w && a in w && x in w
    ensures DoActions(w, p, a, actions).world[x].code == w[x].code
    decreases |actions|
  {
    if actions != [] {
      assert DoAction(w, p, a, actions[0]).world[x].code == w[x].code;
      if DoAction(w, p, a, actions[0]).ok {
        ActionsKeepCode(DoAction(w, p, a, actions[0]).world, p, a, actions[1..], x);
      }
    }
  }

  /** Nothing but a creation in its place changes the code of an account. */
  lemma CodeStays(dec: Decoder, w: World, t: Txn, a: Addr)
    requires a in w && !Replaces(w, t, a)
    ensures a in Execute(dec, w, t).world && Execute(dec, w, t).world[a].code == w[a].code
  {
    if CallsContract(t) {
      ContractDoes(dec, w, t);
      if Asked(dec, w, t).Some? {
        var (c, actions) := Asked(dec, w, t).value;
        ActionsKeepCode(w, c.proposer, c.acceptor, actions, a);
      }
    }
  }

  lemma {:induction false} CreatedCodeStays(dec: Decoder, h: seq<World>, txns: seq<Txn>, i: nat, j: nat)
    requires IsHistory(dec, h, txns) && i < j <= |txns| && Replaces(h[i], txns[i], txns[i].to)
    requires forall k :: i < k < j ==> !Replaces(h[k], txns[k], txns[i].to)
    ensures txns[i].to in h[j] && h[j][txns[i].to].code == txns[i].code
    decreases j - i
  {
    assert StepAt(dec, h, txns, j - 1);
    if i < j - 1 {
      CreatedCodeStays(dec, h, txns, i, j - 1);
      CodeStays(dec, h[j - 1], txns[j - 1], txns[i].to);
    }
  }

  /** What a contract asks for when somebody calls it: nothing unless it is its acceptor and its assumptions hold. */
  function AsksFor(c: Option<Contract>, w: World, caller: Addr): (r: Option<(Contract, seq<Action>)>) {
    if c.None? || caller != c.value.acceptor || c.value.holds(w) != Ok(true) then None
    else
      match c.value.actions(w)
      case Err(_) => None
      case Ok(actions) => if c.value.proposer in w && caller in w then Some((c.value, actions)) else None
  }

  /**
    After a contract was created, and as long as no other is created in its place, a call of it asks
    for what the code of its creation means then and there, whatever code the call itself carries.
   */
  lemma CallsRunCreatedCode(dec: Decoder, h: seq<World>, txns: seq<Txn>, i: nat, j: nat)
    requires IsHistory(dec, h, txns) && i < j < |txns| && Replaces(h[i], txns[i], txns[i].to)
    requires forall k :: i < k < j ==> !Replaces(h[k], txns[k], txns[i].to)
    requires IsContract(txns[i].to) && txns[j].to == txns[i].to && txns[j].kind != CreateContract
    ensures Asked(dec, h[j], txns[j]) == AsksFor(dec(txns[i].code), h[j], txns[j].from)
    ensures Runs(dec, h[j], txns[j], dec(txns[i].code))
  {
    CreatedCodeStays(dec, h, txns, i, j);
    ContractDoes(dec, h[j], txns[j]);
  }

  /**
    An execution does what the contract asks for, no more and no less; it is accepted with nothing done
    exactly if the caller is the acceptor and the assumptions are known not to hold.
   */
  ghost predicate Runs(dec: Decoder, w: World, t: Txn, c: Option<Contract>) {
    match AsksFor(c, w, t.from)
    case None => Execute(dec, w, t) == Outcome(w, c.Some? && t.from == c.value.acceptor && c.value.holds(w) == Ok(false))
    case Some((c, actions)) =>
      && c.proposer in w && c.acceptor in w && t.from == c.acceptor
      && var r := DoActions(w, c.proposer, c.acceptor, actions);
         Execute(dec, w, t) == if r.ok then Outcome(BumpNonce(r.world, t.from), true) else r
  }
}
