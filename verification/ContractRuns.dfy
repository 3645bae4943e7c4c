/**
  When a contract call goes through and when a rejected one leaves no trace, in terms of the state
  before the call: what the two parties hold and what the actions would move.
 */
module ContractRuns {
  import opened Wrappers
  import opened Words
  import opened Ledger

  // ---------------------------------------------------------------- what actions move

  /** What an action adds to the proposer's holding of a product. */
  function Delta(action: Action, product: string): (d: real) {
    match action
    case Send(Buyer, p, q) => if p == product then -q else 0.0
    case Send(Seller, p, q) => if p == product then q else 0.0
    case _ => 0.0
  }

  /** What actions add to the proposer's holding; between an account and itself nothing moves. */
  function Flow(p: Addr, a: Addr, actions: seq<Action>, product: string): (d: real) {
    if actions == [] || p == a then 0.0
    else Flow(p, a, actions[..|actions| - 1], product) + Delta(actions[|actions| - 1], product)
  }

  predicate Sends(action: Action, product: string) {
    action.Send? && action.role != NoRole && action.product == product
  }

  predicate Touches(actions: seq<Action>, product: string) {
    actions != [] && (Touches(actions[..|actions| - 1], product) || Sends(actions[|actions| - 1], product))
  }

  /** What actions take from the proposer's balance. */
  function Paid(actions: seq<Action>): (n: int) {
    if actions == [] then 0
    else
      Paid(actions[..|actions| - 1]) +
      match actions[|actions| - 1]
      case Transfer(Buyer, n) => n
      case Transfer(Seller, n) => -n
      case _ => 0
  }

  // ---------------------------------------------------------------------------- guards

  predicate IsNumber(w: World, x: Addr, product: string) {
    x in w && product in w[x].storage && w[x].storage[product].Num?
  }

  predicate NotText(w: World, x: Addr, product: string)
    requires x in w
  {
    product in w[x].storage ==> w[x].storage[product].Num?
  }

  /** The giver holds enough of the product after the actions before. */
  predicate GiverGuard(w: World, p: Addr, a: Addr, before: seq<Action>, role: Role, product: string, q: real) {
    var giver := if role == Buyer then p else a;
    var moved := Flow(p, a, before, product);
    && (Touches(before, product) || IsNumber(w, giver, product))
    && q <= Held(w, giver, product) + (if role == Buyer then moved else -moved)
  }

  /** The taker's entry, if there is one, is a number. */
  predicate TakerGuard(w: World, p: Addr, a: Addr, before: seq<Action>, role: Role, product: string)
    requires p in w && a in w
  {
    var taker := if role == Buyer then a else p;
    p == a || Touches(before, product) || product !in w[taker].storage || w[taker].storage[product].Num?
  }

  predicate Guard(w: World, p: Addr, a: Addr, before: seq<Action>, action: Action)
    requires p in w && a in w
  {
    match action
    case Send(role, product, q) =>
      role != NoRole ==>
        GiverGuard(w, p, a, before, role, product, q) && TakerGuard(w, p, a, before, role, product)
    case _ => true
  }

  /** Every action finds its guard true in its turn. */
  predicate CanCarryOut(w: World, p: Addr, a: Addr, actions: seq<Action>)
    requires p in w && a in w
    decreases |actions|
  {
    actions == [] ||
    (var n := |actions| - 1;
     CanCarryOut(w, p, a, actions[..n]) && Guard(w, p, a, actions[..n], actions[n]))
  }

  // -------------------------------------------------------------- the state after actions

  /** The entry of a product after actions that all went through. */
  function EntryAfter(w: World, x: Addr, touched: bool, moved: real, product: string): (e: Option<Item>)
    requires x in w
  {
    if touched then Some(Num(Held(w, x, product) + moved))
    else if product in w[x].storage then Some(w[x].storage[product])
    else None
  }

  function Entry(w: World, x: Addr, product: string): (e: Option<Item>)
    requires x in w
  {
    if product in w[x].storage then Some(w[x].storage[product]) else None
  }

  ghost predicate EntryOk(w: World, w': World, p: Addr, a: Addr, actions: seq<Action>, product: string)
    requires p in w && a in w && p in w' && a in w'
  {
    var touched, moved := Touches(actions, product), Flow(p, a, actions, product);
    && Entry(w', p, product) == EntryAfter(w, p, touched, moved, product)
    && Entry(w', a, product) == EntryAfter(w, a, touched, -moved, product)
    && (touched ==> NotText(w, p, product) && NotText(w, a, product) && (p == a ==> IsNumber(w, p, product)))
  }

  /** Nobody else changes, and the parties keep their nonces and code. */
  ghost predicate Framed(w: World, w': World, p: Addr, a: Addr)
    requires p in w && a in w
  {
    && w'.Keys == w.Keys
    && (forall b :: b in w && b != p && b != a ==> w'[b] == w[b])
    && w'[p].nonce == w[p].nonce && w'[p].code == w[p].code && w'[a].nonce == w[a].nonce && w'[a].code == w[a].code
  }

  ghost predicate BalancesTold(w: World, w': World, p: Addr, a: Addr, paid: int)
    requires p in w && a in w && p in w' && a in w'
  {
    && w'[p].balance == (if p == a then w[p].balance else Wrap(w[p].balance - paid))
    && w'[a].balance == (if p == a then w[a].balance else Wrap(w[a].balance + paid))
  }

  ghost predicate EntriesTold(w: World, w': World, p: Addr, a: Addr, actions: seq<Action>)
    requires p in w && a in w && p in w' && a in w'
  {
    forall product :: EntryOk(w, w', p, a, actions, product)
  }

  /** The state after actions that all went through, told from the state before. */
  ghost predicate Matches(w: World, w': World, p: Addr, a: Addr, actions: seq<Action>)
    requires p in w && a in w
  {
    Framed(w, w', p, a) && BalancesTold(w, w', p, a, Paid(actions)) && EntriesTold(w, w', p, a, actions)
  }

  lemma WrapAdds(x: int, y: int)
    ensures Wrap(Wrap(x) + y) == Wrap(x + y)
  {
    var q := x / UINT_SIZE;
    assert Wrap(x) + y == x + y - q * UINT_SIZE;
    assert (x + y - q * UINT_SIZE) % UINT_SIZE == (x + y) % UINT_SIZE;
  }

  /** Actions one longer. */
  lemma Snoc(p: Addr, a: Addr, before: seq<Action>, action: Action, product: string)
    ensures (before + [action])[..|before|] == before
    ensures Touches(before + [action], product) <==> Touches(before, product) || Sends(action, product)
    ensures Flow(p, a, before + [action], product) ==
            if p == a then 0.0 else Flow(p, a, before, product) + Delta(action, product)
  {
    assert (before + [action])[..|before|] == before;
  }

  lemma {:induction false} UntouchedStays(p: Addr, a: Addr, actions: seq<Action>, product: string)
    requires !Touches(actions, product)
    ensures Flow(p, a, actions, product) == 0.0
    decreases |actions|
  {
    if actions != [] {
      UntouchedStays(p, a, actions[..|actions| - 1], product);
    }
  }

  /** The holdings after actions that all went through. */
  lemma HeldTold(w: World, w': World, p: Addr, a: Addr, before: seq<Action>, product: string)
    requires p in w && a in w && p in w' && a in w' && EntryOk(w, w', p, a, before, product)
    ensures Held(w', p, product) == Held(w, p, product) + Flow(p, a, before, product)
    ensures Held(w', a, product) == Held(w, a, product) - Flow(p, a, before, product)
  {
    if !Touches(before, product) {
      UntouchedStays(p, a, before, product);
    }
  }

  lemma SamePlaceEntries(w: World, w': World, w'': World, p: Addr, a: Addr, before: seq<Action>, action: Action)
    requires p in w && a in w && p in w' && a in w' && p in w'' && a in w'' && EntriesTold(w, w', p, a, before)
    requires w''[p].storage == w'[p].storage && w''[a].storage == w'[a].storage
    requires !action.Send? || action.role == NoRole
    ensures EntriesTold(w, w'', p, a, before + [action])
  {
    forall product ensures EntryOk(w, w'', p, a, before + [action], product) {
      assert EntryOk(w, w', p, a, before, product);
      Snoc(p, a, before, action, product);
    }
  }

  lemma PaymentBalances(w: World, w': World, p: Addr, a: Addr, paid: int, x: int)
    requires p in w && a in w && p in w' && a in w' && Typed(w) && BalancesTold(w, w', p, a, paid)
    ensures BalancesTold(w, AddBalance(AddBalance(w', p, -x), a, x), p, a, paid + x)
  {
    if p == a {
      WrapTwice(w[p].balance, -x);
    } else {
      WrapAdds(w[p].balance - paid, -x);
      WrapAdds(w[a].balance + paid, x);
    }
  }

  lemma PaymentMatches(w: World, w': World, p: Addr, a: Addr, before: seq<Action>, role: Role, n: int)
    requires p in w && a in w && Typed(w) && Matches(w, w', p, a, before) && role != NoRole
    ensures Matches(w, DoAction(w', p, a, Transfer(role, n)).world, p, a, before + [Transfer(role, n)])
  {
    var action, x := Transfer(role, n), if role == Buyer then n else -n;
    Snoc(p, a, before, action, "");
    PaymentBalances(w, w', p, a, Paid(before), x);
    SamePlaceEntries(w, w', DoAction(w', p, a, action).world, p, a, before, action);
  }

  lemma NothingMatches(w: World, w': World, p: Addr, a: Addr, before: seq<Action>, action: Action)
    requires p in w && a in w && Matches(w, w', p, a, before)
    requires action.NoAction? || action.role == NoRole
    ensures Matches(w, w', p, a, before + [action])
  {
    Snoc(p, a, before, action, "");
    SamePlaceEntries(w, w', w', p, a, before, action);
  }

  // ------------------------------------------------------------------------ one send

  function Giver(p: Addr, a: Addr, role: Role): (x: Addr) {
    if role == Buyer then p else a
  }

  function Taker(p: Addr, a: Addr, role: Role): (x: Addr) {
    if role == Buyer then a else p
  }

  /** The guards, read off the state before, decide a send. */
  lemma SendGuards(w: World, w': World, p: Addr, a: Addr, before: seq<Action>, role: Role, product: string, q: real)
    requires p in w && a in w && Matches(w, w', p, a, before) && role != NoRole
    ensures var giver, taker := Giver(p, a, role), Taker(p, a, role);
            && (GiverGuard(w, p, a, before, role, product, q) <==>
                  IsNumber(w', giver, product) && q <= w'[giver].storage[product].amount)
            && (GiverGuard(w, p, a, before, role, product, q) ==>
                  (TakerGuard(w, p, a, before, role, product) <==>
                     product !in w'[taker].storage || w'[taker].storage[product].Num?))
            && (GiverGuard(w, p, a, before, role, product, q) && !TakerGuard(w, p, a, before, role, product) ==>
                  giver != taker && !Touches(before, product))
  {
    assert EntryOk(w, w', p, a, before, product);
    HeldTold(w, w', p, a, before, product);
  }

  lemma SendIsDecided(w: World, w': World, p: Addr, a: Addr, before: seq<Action>, role: Role, product: string, q: real)
    requires p in w && a in w && Matches(w, w', p, a, before) && role != NoRole
    ensures DoAction(w', p, a, Send(role, product, q)).ok <==> Guard(w, p, a, before, Send(role, product, q))
  {
    SendGuards(w, w', p, a, before, role, product, q);
  }

  /** After a completed send both parties hold a number, and other entries are as before. */
  lemma SentEntries(w: World, giver: Addr, taker: Addr, product: string, q: real, other: string)
    requires giver in w && taker in w && DoSend(w, giver, taker, product, q).ok
    ensures var w' := DoSend(w, giver, taker, product, q).world;
            && giver in w' && taker in w'
            && IsNumber(w', giver, product) && IsNumber(w', taker, product)
            && IsNumber(w, giver, product) && NotText(w, taker, product)
            && (other != product ==> Entry(w', giver, other) == Entry(w, giver, other)
                                     && Entry(w', taker, other) == Entry(w, taker, other))
  {
  }

  lemma SendEntry(w: World, w': World, p: Addr, a: Addr, before: seq<Action>, role: Role, product: string, q: real, other: string)
    requires p in w && a in w && p in w' && a in w' && EntryOk(w, w', p, a, before, other) && role != NoRole
    requires DoAction(w', p, a, Send(role, product, q)).ok
    ensures EntryOk(w, DoAction(w', p, a, Send(role, product, q)).world, p, a, before + [Send(role, product, q)], other)
  {
    var giver, taker := Giver(p, a, role), Taker(p, a, role);
    Snoc(p, a, before, Send(role, product, q), other);
    HeldTold(w, w', p, a, before, other);
    SentEntries(w', giver, taker, product, q, other);
    SendMovesGoods(w', giver, taker, product, q, other);
  }

  lemma SendFrames(w: World, giver: Addr, taker: Addr, product: string, q: real)
    requires giver in w && taker in w
    ensures var w' := DoSend(w, giver, taker, product, q).world;
            && Framed(w, w', giver, taker)
            && w'[giver].balance == w[giver].balance && w'[taker].balance == w[taker].balance
  {
  }

  lemma SendMatches(w: World, w': World, p: Addr, a: Addr, before: seq<Action>, role: Role, product: string, q: real)
    requires p in w && a in w && Matches(w, w', p, a, before) && role != NoRole
    requires DoAction(w', p, a, Send(role, product, q)).ok
    ensures Matches(w, DoAction(w', p, a, Send(role, product, q)).world, p, a, before + [Send(role, product, q)])
  {
    var w'' := DoAction(w', p, a, Send(role, product, q)).world;
    forall other ensures EntryOk(w, w'', p, a, before + [Send(role, product, q)], other) {
      assert EntryOk(w, w', p, a, before, other);
      SendEntry(w, w', p, a, before, role, product, q, other);
    }
    Snoc(p, a, before, Send(role, product, q), product);
    SendFrames(w', Giver(p, a, role), Taker(p, a, role), product, q);
  }

  // --------------------------------------------------------------- when a call goes through

  /** Actions in order: the last one is reached if those before went through. */
  lemma {:induction false} ActionsSnoc(w: World, p: Addr, a: Addr, actions: seq<Action>)
    requires p in w && a in w && actions != []
    ensures var n := |actions| - 1;
            var r := DoActions(w, p, a, actions[..n]);
            DoActions(w, p, a, actions) == if r.ok then DoAction(r.world, p, a, actions[n]) else r
    decreases |actions|
  {
    var n := |actions| - 1;
    if n == 0 {
      assert actions[..0] == [] && actions[1..] == [];
    } else {
      var r := DoAction(w, p, a, actions[0]);
      assert actions[..n][1..] == actions[1..][..n - 1];
      if r.ok {
        ActionsSnoc(r.world, p, a, actions[1..]);
      }
    }
  }

  lemma ActionMatches(w: World, w': World, p: Addr, a: Addr, before: seq<Action>, action: Action)
    requires p in w && a in w && Typed(w) && Matches(w, w', p, a, before)
    ensures DoAction(w', p, a, action).ok <==> Guard(w, p, a, before, action)
    ensures DoAction(w', p, a, action).ok ==> Matches(w, DoAction(w', p, a, action).world, p, a, before + [action])
  {
    match action
    case Transfer(NoRole, _) => NothingMatches(w, w', p, a, before, action);
    case Transfer(role, n) => PaymentMatches(w, w', p, a, before, role, n);
    case Send(NoRole, _, _) => NothingMatches(w, w', p, a, before, action);
    case Send(role, product, q) =>
      SendIsDecided(w, w', p, a, before, role, product, q);
      if DoAction(w', p, a, action).ok {
        SendMatches(w, w', p, a, before, role, product, q);
      }
    case NoAction => NothingMatches(w, w', p, a, before, action);
  }

  /** The actions of a contract all go through if and only if their guards hold in turn on the state before. */
  lemma {:induction false} CarriesOutIff(w: World, p: Addr, a: Addr, actions: seq<Action>)
    requires p in w && a in w && Typed(w)
    ensures DoActions(w, p, a, actions).ok <==> CanCarryOut(w, p, a, actions)
    ensures DoActions(w, p, a, actions).ok ==> Matches(w, DoActions(w, p, a, actions).world, p, a, actions)
    decreases |actions|
  {
    if actions == [] {
      NothingYet(w, p, a);
    } else {
      var n := |actions| - 1;
      CarriesOutIff(w, p, a, actions[..n]);
      ActionsSnoc(w, p, a, actions);
      if CanCarryOut(w, p, a, actions[..n]) {
        ActionMatches(w, DoActions(w, p, a, actions[..n]).world, p, a, actions[..n], actions[n]);
        assert actions[..n] + [actions[n]] == actions;
      }
    }
  }

  lemma NothingYet(w: World, p: Addr, a: Addr)
    requires p in w && a in w && Typed(w)
    ensures Matches(w, w, p, a, [])
  {
    WrapFits(w[p].balance);
    WrapFits(w[a].balance);
  }

  // ------------------------------------------------------- when a rejection leaves no trace

  /** The first action whose guard fails. */
  function Stuck(w: World, p: Addr, a: Addr, actions: seq<Action>): (k: nat)
    requires p in w && a in w && !CanCarryOut(w, p, a, actions)
    ensures k < |actions| && CanCarryOut(w, p, a, actions[..k]) && !Guard(w, p, a, actions[..k], actions[k])
    decreases |actions|
  {
    var n := |actions| - 1;
    if CanCarryOut(w, p, a, actions[..n]) then n
    else
      var k := Stuck(w, p, a, actions[..n]);
      assert actions[..n][..k] == actions[..k];
      k
  }

  /** Every product that was sent was sent back, and both parties had it before. */
  ghost predicate GoodsCancel(w: World, p: Addr, a: Addr, actions: seq<Action>)
    requires p in w && a in w
  {
    forall product :: Touches(actions, product) ==>
      Flow(p, a, actions, product) == 0.0 && product in w[p].storage && product in w[a].storage
  }

  /** Actions that went through have moved nothing on balance. */
  ghost predicate CancelsOut(w: World, p: Addr, a: Addr, actions: seq<Action>)
    requires p in w && a in w
  {
    p == a || (Paid(actions) % UINT_SIZE == 0 && GoodsCancel(w, p, a, actions))
  }

  /**
    The actions before the failing one cancel out, and that one fails at its giver, or at its taker
    with nothing to give.
   */
  ghost predicate NoTrace(w: World, p: Addr, a: Addr, actions: seq<Action>)
    requires p in w && a in w && !CanCarryOut(w, p, a, actions)
  {
    var k := Stuck(w, p, a, actions);
    var action := actions[k];
    CancelsOut(w, p, a, actions[..k]) &&
    (!GiverGuard(w, p, a, actions[..k], action.role, action.product, action.quantity) || action.quantity == 0.0)
  }

  lemma EntryCancels(w: World, w': World, p: Addr, a: Addr, actions: seq<Action>, product: string)
    requires p in w && a in w && p in w' && a in w' && EntryOk(w, w', p, a, actions, product)
    ensures Entry(w', p, product) == Entry(w, p, product) && Entry(w', a, product) == Entry(w, a, product) <==>
            p == a || (Touches(actions, product) ==>
                         Flow(p, a, actions, product) == 0.0 && product in w[p].storage && product in w[a].storage)
  {
  }

  lemma SameEntries(m: map<string, Item>, m': map<string, Item>)
    requires forall k :: (k in m <==> k in m') && (k in m ==> m'[k] == m[k])
    ensures m' == m
  {
  }

  lemma EntriesCancel(w: World, w': World, p: Addr, a: Addr, actions: seq<Action>)
    requires p in w && a in w && p in w' && a in w' && EntriesTold(w, w', p, a, actions)
    ensures w'[p].storage == w[p].storage && w'[a].storage == w[a].storage <==> p == a || GoodsCancel(w, p, a, actions)
  {
    forall product
      ensures Entry(w', p, product) == Entry(w, p, product) && Entry(w', a, product) == Entry(w, a, product) <==>
              p == a || (Touches(actions, product) ==>
                           Flow(p, a, actions, product) == 0.0 && product in w[p].storage && product in w[a].storage)
    {
      assert EntryOk(w, w', p, a, actions, product);
      EntryCancels(w, w', p, a, actions, product);
    }
    if forall product :: Entry(w', p, product) == Entry(w, p, product) && Entry(w', a, product) == Entry(w, a, product) {
      forall k ensures (k in w[p].storage <==> k in w'[p].storage) && (k in w[a].storage <==> k in w'[a].storage) {
        assert Entry(w', p, k) == Entry(w, p, k) && Entry(w', a, k) == Entry(w, a, k);
      }
      forall k | k in w[p].storage ensures w'[p].storage[k] == w[p].storage[k] {
        assert Entry(w', p, k) == Entry(w, p, k);
      }
      forall k | k in w[a].storage ensures w'[a].storage[k] == w[a].storage[k] {
        assert Entry(w', a, k) == Entry(w, a, k);
      }
      SameEntries(w[p].storage, w'[p].storage);
      SameEntries(w[a].storage, w'[a].storage);
    }
  }

  lemma BalanceCancels(b: nat, x: int)
    requires b < UINT_SIZE
    ensures Wrap(b + x) == b <==> x % UINT_SIZE == 0
  {
    if x % UINT_SIZE == 0 {
      var q := x / UINT_SIZE;
      assert (b + q * UINT_SIZE) % UINT_SIZE == b % UINT_SIZE;
    }
    if Wrap(b + x) == b {
      var q := (b + x) / UINT_SIZE;
      assert x == q * UINT_SIZE;
    }
  }

  lemma Opposite(x: int)
    ensures x % UINT_SIZE == 0 ==> (-x) % UINT_SIZE == 0
  {
    var q := x / UINT_SIZE;
    assert x % UINT_SIZE == 0 ==> -x == -q * UINT_SIZE;
  }

  /** Actions that went through leave the state as it was if and only if they cancel out. */
  lemma CancelsOutIff(w: World, w': World, p: Addr, a: Addr, actions: seq<Action>)
    requires p in w && a in w && Typed(w) && Matches(w, w', p, a, actions)
    ensures w' == w <==> CancelsOut(w, p, a, actions)
  {
    EntriesCancel(w, w', p, a, actions);
    BalanceCancels(w[a].balance, Paid(actions));
    assert Paid(actions) % UINT_SIZE == 0 ==> Wrap(w[p].balance - Paid(actions)) == w[p].balance by {
      BalanceCancels(w[p].balance, -Paid(actions));
      Opposite(Paid(actions));
    }
    if CancelsOut(w, p, a, actions) {
      assert w'[p] == w[p] && w'[a] == w[a];
      assert w' == w;
    }
  }

  lemma {:induction false} StuckThere(w: World, p: Addr, a: Addr, actions: seq<Action>)
    requires p in w && a in w && Typed(w) && !CanCarryOut(w, p, a, actions)
    ensures var k := Stuck(w, p, a, actions);
            && DoActions(w, p, a, actions[..k]).ok
            && DoActions(w, p, a, actions) == DoAction(DoActions(w, p, a, actions[..k]).world, p, a, actions[k])
    decreases |actions|
  {
    var n := |actions| - 1;
    ActionsSnoc(w, p, a, actions);
    CarriesOutIff(w, p, a, actions[..n]);
    if !CanCarryOut(w, p, a, actions[..n]) {
      StuckThere(w, p, a, actions[..n]);
      var k := Stuck(w, p, a, actions[..n]);
      assert actions[..n][..k] == actions[..k];
    }
  }

  /** A send that fails at its giver does nothing; one that fails at its taker has taken from the giver. */
  lemma FailedSend(w: World, w': World, p: Addr, a: Addr, before: seq<Action>, role: Role, product: string, q: real)
    requires p in w && a in w && Matches(w, w', p, a, before) && role != NoRole
    requires !Guard(w, p, a, before, Send(role, product, q))
    ensures var giver, r := Giver(p, a, role), DoAction(w', p, a, Send(role, product, q)).world;
            && (!GiverGuard(w, p, a, before, role, product, q) ==> r == w')
            && (GiverGuard(w, p, a, before, role, product, q) ==>
                  && !Touches(before, product) && IsNumber(w', giver, product)
                  && r == PutItem(w', giver, product, Num(w'[giver].storage[product].amount - q)))
  {
    SendGuards(w, w', p, a, before, role, product, q);
  }

  /** What a failing send took from the giver shows, unless it was nothing. */
  lemma TakenShows(w: World, w': World, p: Addr, a: Addr, before: seq<Action>, giver: Addr, product: string, q: real)
    requires p in w && a in w && Matches(w, w', p, a, before) && (giver == p || giver == a)
    requires !Touches(before, product) && IsNumber(w', giver, product)
    ensures PutItem(w', giver, product, Num(w'[giver].storage[product].amount - q)) == w <==> w' == w && q == 0.0
  {
    var r := PutItem(w', giver, product, Num(w'[giver].storage[product].amount - q));
    assert EntryOk(w, w', p, a, before, product);
    assert Entry(w', giver, product) == Entry(w, giver, product);
    if q == 0.0 {
      assert w'[giver].storage[product := w'[giver].storage[product]] == w'[giver].storage;
      assert r == w';
    } else {
      assert r[giver].storage[product] != w[giver].storage[product];
    }
  }

  lemma FailedSendTrace(w: World, w': World, p: Addr, a: Addr, before: seq<Action>, role: Role, product: string, q: real)
    requires p in w && a in w && Typed(w) && Matches(w, w', p, a, before) && role != NoRole
    requires !Guard(w, p, a, before, Send(role, product, q))
    ensures DoAction(w', p, a, Send(role, product, q)).world == w <==>
            CancelsOut(w, p, a, before) && (!GiverGuard(w, p, a, before, role, product, q) || q == 0.0)
  {
    CancelsOutIff(w, w', p, a, before);
    FailedSend(w, w', p, a, before, role, product, q);
    if GiverGuard(w, p, a, before, role, product, q) {
      TakenShows(w, w', p, a, before, Giver(p, a, role), product, q);
    }
  }

  /** A contract that is not carried out leaves no trace if and only if the guards say so. */
  lemma NoTraceIff(w: World, p: Addr, a: Addr, actions: seq<Action>)
    requires p in w && a in w && Typed(w) && !CanCarryOut(w, p, a, actions)
    ensures DoActions(w, p, a, actions).world == w <==> NoTrace(w, p, a, actions)
  {
    var k := Stuck(w, p, a, actions);
    var before, action := actions[..k], actions[k];
    StuckThere(w, p, a, actions);
    CarriesOutIff(w, p, a, before);
    FailedSendTrace(w, DoActions(w, p, a, before).world, p, a, before, action.role, action.product, action.quantity);
  }

  // -------------------------------------------------------------------- whole transactions

  /** The transaction asks for actions that cannot all be carried out. */
  ghost predicate FailsPartWay(dec: Decoder, w: World, t: Txn) {
    CallsContract(t) && Asked(dec, w, t).Some? &&
    var (c, actions) := Asked(dec, w, t).value;
    c.proposer in w && c.acceptor in w && !CanCarryOut(w, c.proposer, c.acceptor, actions)
  }

  /** Nothing the transaction would do before it is rejected stays. */
  ghost predicate Traceless(dec: Decoder, w: World, t: Txn) {
    FailsPartWay(dec, w, t) ==>
      var (c, actions) := Asked(dec, w, t).value;
      NoTrace(w, c.proposer, c.acceptor, actions)
  }

  /** A rejected execution leaves the state alone if and only if the guards on the state before say so. */
  lemma RejectedIsUnchangedIff(dec: Decoder, w: World, t: Txn)
    requires Typed(w) && !Execute(dec, w, t).ok
    ensures Execute(dec, w, t).world == w <==> Traceless(dec, w, t)
  {
    RejectedIsUnchanged(dec, w, t);
    if CallsContract(t) && Asked(dec, w, t).Some? {
      ContractDoes(dec, w, t);
      var (c, actions) := Asked(dec, w, t).value;
      CarriesOutIff(w, c.proposer, c.acceptor, actions);
      NoTraceIff(w, c.proposer, c.acceptor, actions);
    }
  }

  /** A contract call that asks for actions is accepted if and only if their guards hold in turn. */
  lemma ContractAcceptedIff(dec: Decoder, w: World, t: Txn)
    requires Typed(w) && CallsContract(t) && Asked(dec, w, t).Some?
    ensures Execute(dec, w, t).ok <==> !FailsPartWay(dec, w, t)
  {
    ContractDoes(dec, w, t);
    var (c, actions) := Asked(dec, w, t).value;
    CarriesOutIff(w, c.proposer, c.acceptor, actions);
  }
}
