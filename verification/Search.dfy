/**
  The expanding search of the data-sharing layer (peer/impl/utils.go, peer/impl/handler.go): a
  request carries a budget, a node that sees it for the first time splits what is left of the
  budget among its other neighbours, and the whole flood stays within the first budget.
 */
module Search {
  import opened Words
  import opened Gossip
  import opened Messager

  function Total(budgets: seq<nat>): (n: nat) {
    if budgets == [] then 0 else Total(budgets[..|budgets| - 1]) + budgets[|budgets| - 1]
  }

  ghost predicate Distinct(s: seq<Addr>) {
    forall i, j :: 0 <= i < j < |s| ==> s[i] != s[j]
  }

  /** A split of a budget among neighbours: nobody gets nothing, and all of it is given away. */
  ghost predicate IsAllocation(neis: seq<Addr>, budget: nat, chosen: seq<Addr>, budgets: seq<nat>) {
    && |chosen| == |budgets| && Distinct(chosen)
    && (forall i :: 0 <= i < |chosen| ==> chosen[i] in neis)
    && (forall i :: 0 <= i < |budgets| ==> budgets[i] >= 1)
    && Total(budgets) == if neis == [] then 0 else budget
  }

  lemma TotalAppend(budgets: seq<nat>, b: nat)
    ensures Total(budgets + [b]) == Total(budgets) + b
  {
    assert (budgets + [b])[..|budgets|] == budgets;
  }

  /** The random order of the first `k` entries, as a sequence of swaps. */
  method Shuffle(a: array<Addr>, k: nat)
    requires k <= a.Length && Distinct(a[..])
    modifies a
    ensures Distinct(a[..]) && (forall x :: x in a[..] <==> x in old(a[..]))
    ensures forall x :: x in a[..k] <==> x in old(a[..k])
  {
    var i := k;
    while i > 1
      invariant 0 <= i <= k
      invariant Distinct(a[..]) && (forall x :: x in a[..] <==> x in old(a[..]))
      invariant forall x :: x in a[..k] <==> x in old(a[..k])
    {
      i := i - 1;
      var j :| 0 <= j <= i;
      SwapKeeps(a[..], k, i, j);
      ghost var was := a[..];
      a[i], a[j] := a[j], a[i];
      assert a[..] == was[i := was[j]][j := was[i]];
      assert a[..k] == a[..][..k] && was[..k] == was[..][..k];
    }
  }

  lemma SwapKeeps(s: seq<Addr>, k: nat, i: nat, j: nat)
    requires Distinct(s) && i < k <= |s| && j < k
    ensures var t := s[i := s[j]][j := s[i]];
            && Distinct(t) && (forall x :: x in t <==> x in s)
            && (forall x :: x in t[..k] <==> x in s[..k])
  {
    var t := s[i := s[j]][j := s[i]];
    forall x | x in s ensures x in t {
      var m :| 0 <= m < |s| && s[m] == x;
      assert t[if m == i then j else if m == j then i else m] == x;
    }
    forall x | x in s[..k] ensures x in t[..k] {
      var m :| 0 <= m < k && s[m] == x;
      assert t[..k][if m == i then j else if m == j then i else m] == x;
    }
  }

  /** A budget smaller than the number of neighbours: one for each of the first few, in random order. */
  method OneEach(neighbors: seq<Addr>, budget: nat) returns (chosen: seq<Addr>, budgets: seq<nat>)
    requires Distinct(neighbors) && budget < |neighbors|
    ensures IsAllocation(neighbors, budget, chosen, budgets)
    ensures forall x :: x in chosen <==> x in neighbors[..budget]
  {
    var neis := new Addr[|neighbors|](i requires 0 <= i < |neighbors| => neighbors[i]);
    assert neis[..] == neighbors && neis[..budget] == neighbors[..budget];
    Shuffle(neis, budget);
    chosen := neis[..budget];
    ghost var shuffled := neis[..];
    assert chosen == shuffled[..budget];
    assert forall i :: 0 <= i < budget ==> chosen[i] == shuffled[i] && shuffled[i] in shuffled;
    budgets := [];
    for i := 0 to budget
      invariant |budgets| == i && Total(budgets) == i
      invariant forall j :: 0 <= j < i ==> budgets[j] == 1
    {
      TotalAppend(budgets, 1);
      budgets := budgets + [1];
    }
  }

  function Times(share: nat, n: nat): (r: nat) {
    if n == 0 then 0 else Times(share, n - 1) + share
  }

  lemma {:induction false} TimesIsProduct(share: nat, n: nat)
    ensures Times(share, n) == share * n
  {
    if n > 0 {
      TimesIsProduct(share, n - 1);
      assert share * n == share * (n - 1) + share;
    }
  }

  lemma SharesFit(budget: nat, n: nat)
    requires n > 0
    ensures Times(budget / n, n) <= budget
  {
    TimesIsProduct(budget / n, n);
  }

  function LuckyBudget(budget: nat, share: nat, n: nat): (r: nat)
    requires n > 0 && Times(share, n) <= budget
    ensures Times(share, n - 1) + r == budget && r >= share
  {
    TimesIsProduct(share, n - 1);
    budget - share * (n - 1)
  }

  /** An equal share for everybody, and what is left over for one lucky neighbour. */
  method EvenShares(neighbors: seq<Addr>, budget: nat, perNei: nat, lucky: nat) returns (budgets: seq<nat>)
    requires Distinct(neighbors) && lucky < |neighbors| && Times(perNei, |neighbors|) <= budget
    ensures |budgets| == |neighbors| && Total(budgets) == budget && budgets[lucky] >= perNei
    ensures forall i :: 0 <= i < |budgets| && i != lucky ==> budgets[i] == perNei
  {
    var luckyBudget := LuckyBudget(budget, perNei, |neighbors|);
    var luckyNei := neighbors[lucky];
    budgets := [];
    for i := 0 to |neighbors|
      invariant |budgets| == i
      invariant forall j :: 0 <= j < i ==> budgets[j] == if j == lucky then luckyBudget else perNei
      invariant Total(budgets) == Times(perNei, i) + if lucky < i then luckyBudget - perNei else 0
    {
      var b := if neighbors[i] == luckyNei then luckyBudget else perNei;
      assert b == if i == lucky then luckyBudget else perNei;
      TotalAppend(budgets, b);
      budgets := budgets + [b];
    }
  }

  /** The share is nothing exactly if there are more neighbours than budget. */
  lemma ShareIsNothing(budget: nat, n: nat)
    requires n > 0
    ensures budget / n < 1 <==> budget < n
  {
  }

  /** Splits the budget evenly with one lucky neighbour, or gives one to each of the first few. */
  method BudgetAllocation(neighbors: seq<Addr>, budget: nat) returns (chosen: seq<Addr>, budgets: seq<nat>)
    requires Distinct(neighbors)
    ensures IsAllocation(neighbors, budget, chosen, budgets)
    ensures budget < |neighbors| ==> forall x :: x in chosen <==> x in neighbors[..budget]
    ensures 0 < |neighbors| <= budget ==>
              chosen == neighbors && forall i :: 0 <= i < |budgets| ==> budgets[i] >= budget / |neighbors|
  {
    if |neighbors| == 0 || budget == 0 {
      return [], [];
    }
    var perNei := budget / |neighbors|;
    ShareIsNothing(budget, |neighbors|);
    if perNei < 1 {
      chosen, budgets := OneEach(neighbors, budget);
    } else {
      var lucky: nat :| lucky < |neighbors|;
      SharesFit(budget, |neighbors|);
      budgets := EvenShares(neighbors, budget, perNei, lucky);
      chosen := neighbors;
    }
  }

  // -------------------------------------------------------------------- the flood

  datatype Request = Request(origin: Addr, relayedBy: Addr, dst: Addr, budget: nat)

  /**
    One search: who knows its request ID already, all requests ever sent, and the indices of those
    that were forwarded. Requests are handed over in any order, any number of times or never.
   */
  datatype Flood = Flood(neighbors: map<Addr, seq<Addr>>, seen: set<Addr>, sent: seq<Request>, spent: set<nat>)

  /** Request `i` is handed over; its receiver sends the first `k` of the requests it wants to send. */
  datatype Event = Handle(i: nat, chosen: seq<Addr>, budgets: seq<nat>, k: nat)

  /** The unsigned decrement of the handler. */
  function NewBudget(budget: nat): (n: nat) {
    if budget == 0 then UINT_SIZE - 1 else budget - 1
  }

  function Requests(origin: Addr, me: Addr, chosen: seq<Addr>, budgets: seq<nat>, k: nat): (rs: seq<Request>)
    requires k <= |chosen| == |budgets|
  {
    seq(k, i requires 0 <= i < k => Request(origin, me, chosen[i], budgets[i]))
  }

  /** The part of a node that answers search requests. */
  class SearchNode {
    const messager: Messager
    var searchReqs: set<string>

    constructor (messager: Messager)
      ensures this.messager == messager && searchReqs == {}
    {
      this.messager, searchReqs := messager, {};
    }

    /** A request is forwarded the first time its ID is seen, to all but the relay and the origin. */
    method SearchRequestCallback(id: string, r: Request)
      returns (out: seq<Request>, ghost chosen: seq<Addr>, ghost budgets: seq<nat>)
      requires messager.Valid()
      modifies this`searchReqs
      ensures searchReqs == old(searchReqs) + {id}
      ensures id in old(searchReqs) || NewBudget(r.budget) == 0 ==> out == []
      ensures id !in old(searchReqs) && NewBudget(r.budget) > 0 ==>
                && IsAllocation(Except(messager.neighbors, [r.relayedBy, r.origin]), NewBudget(r.budget), chosen, budgets)
                && out == Requests(r.origin, messager.addr, chosen, budgets, |chosen|)
    {
      out, chosen, budgets := [], [], [];
      if id in searchReqs {
        return;
      }
      searchReqs := searchReqs + {id};
      var newBudget := NewBudget(r.budget);
      if newBudget > 0 {
        var neis := messager.GetNeisExcept([r.relayedBy, r.origin]);
        var tos, bs := BudgetAllocation(neis, newBudget);
        chosen, budgets := tos, bs;
        for i := 0 to |tos|
          invariant out == Requests(r.origin, messager.addr, tos, bs, i)
        {
          out := out + [Request(r.origin, messager.addr, tos[i], bs[i])];
        }
      }
    }
  }

  /** The node forwards: it sees the request for the first time, and some budget is left. */
  predicate Forwards(f: Flood, r: Request) {
    r.dst in f.neighbors && r.dst !in f.seen && NewBudget(r.budget) > 0
  }

  ghost predicate Enabled(f: Flood, e: Event) {
    && e.i < |f.sent|
    && (Forwards(f, f.sent[e.i]) ==>
          var r := f.sent[e.i];
          IsAllocation(Except(f.neighbors[r.dst], [r.relayedBy, r.origin]), NewBudget(r.budget), e.chosen, e.budgets)
          && e.k <= |e.chosen|)
  }

  ghost function Apply(f: Flood, e: Event): (f': Flood)
    requires Enabled(f, e)
  {
    var r := f.sent[e.i];
    if Forwards(f, r) then
      Flood(f.neighbors, f.seen + {r.dst}, f.sent + Requests(r.origin, r.dst, e.chosen, e.budgets, e.k), f.spent + {e.i})
    else
      f.(seen := f.seen + {r.dst})
  }

  /** The requests the origin sends for a search with the given budget. */
  ghost predicate Started(f: Flood, origin: Addr, budget: nat, chosen: seq<Addr>, budgets: seq<nat>, k: nat) {
    && origin in f.neighbors && IsAllocation(f.neighbors[origin], budget, chosen, budgets) && k <= |chosen|
    && f.seen == {origin} && f.sent == Requests(origin, origin, chosen, budgets, k) && f.spent == {}
  }

  /** What the requests that have not been forwarded may still spend. */
  function Open(rs: seq<Request>, spent: set<nat>): (n: int) {
    if rs == [] then 0
    else Open(rs[..|rs| - 1], spent) + if |rs| - 1 in spent then 0 else rs[|rs| - 1].budget - 1
  }

  ghost predicate Inv(f: Flood, budget: nat) {
    && |f.sent| + Open(f.sent, f.spent) <= budget
    && (forall i :: 0 <= i < |f.sent| ==> f.sent[i].budget >= 1)
    && (forall i :: i in f.spent ==> i < |f.sent| && f.sent[i].dst in f.seen)
  }

  lemma {:induction false} OpenConcat(a: seq<Request>, b: seq<Request>, spent: set<nat>)
    requires forall i :: i in spent ==> i < |a|
    ensures Open(a + b, spent) == Open(a, spent) + Open(b, {})
    decreases |b|
  {
    if b == [] {
      assert a + b == a;
    } else {
      assert (a + b)[..|a + b| - 1] == a + b[..|b| - 1];
      OpenConcat(a, b[..|b| - 1], spent);
    }
  }

  lemma {:induction false} OpenSpend(s: seq<Request>, spent: set<nat>, i: nat)
    requires i !in spent
    ensures Open(s, spent + {i}) == Open(s, spent) - if i < |s| then s[i].budget - 1 else 0
    decreases |s|
  {
    if s != [] {
      OpenSpend(s[..|s| - 1], spent, i);
    }
  }

  lemma {:induction false} OpenNonNegative(s: seq<Request>, spent: set<nat>)
    requires forall i :: 0 <= i < |s| ==> s[i].budget >= 1
    ensures Open(s, spent) >= 0
    decreases |s|
  {
    if s != [] {
      OpenNonNegative(s[..|s| - 1], spent);
    }
  }

  /** Sending the first requests of a split costs and leaves open no more than the budget split. */
  lemma {:induction false} RequestsCost(origin: Addr, me: Addr, chosen: seq<Addr>, budgets: seq<nat>, k: nat)
    requires k <= |chosen| == |budgets| && forall i :: 0 <= i < |budgets| ==> budgets[i] >= 1
    ensures var rs := Requests(origin, me, chosen, budgets, k); |rs| + Open(rs, {}) <= Total(budgets)
    decreases |chosen|, k
  {
    if |chosen| > k {
      var n := |chosen| - 1;
      assert Requests(origin, me, chosen[..n], budgets[..n], k) == Requests(origin, me, chosen, budgets, k);
      RequestsCost(origin, me, chosen[..n], budgets[..n], k);
    } else if k > 0 {
      var rs := Requests(origin, me, chosen, budgets, k);
      assert rs[..k - 1] == Requests(origin, me, chosen[..k - 1], budgets[..k - 1], k - 1);
      RequestsCost(origin, me, chosen[..k - 1], budgets[..k - 1], k - 1);
    }
  }

  lemma StartedInv(f: Flood, origin: Addr, budget: nat, chosen: seq<Addr>, budgets: seq<nat>, k: nat)
    requires Started(f, origin, budget, chosen, budgets, k)
    ensures Inv(f, budget)
  {
    RequestsCost(origin, origin, chosen, budgets, k);
  }

  lemma StepKeepsInv(f: Flood, e: Event, budget: nat)
    requires Inv(f, budget) && Enabled(f, e)
    ensures Inv(Apply(f, e), budget)
  {
    var r := f.sent[e.i];
    if Forwards(f, r) {
      RequestsCost(r.origin, r.dst, e.chosen, e.budgets, e.k);
      OpenSpend(f.sent, f.spent, e.i);
      OpenConcat(f.sent, Requests(r.origin, r.dst, e.chosen, e.budgets, e.k), f.spent + {e.i});
    }
  }

  ghost predicate CanRun(f: Flood, events: seq<Event>)
    decreases |events|
  {
    events == [] || (Enabled(f, events[0]) && CanRun(Apply(f, events[0]), events[1..]))
  }

  ghost function Final(f: Flood, events: seq<Event>): (r: Flood)
    requires CanRun(f, events)
    decreases |events|
  {
    if events == [] then f else Final(Apply(f, events[0]), events[1..])
  }

  lemma {:induction false} RunKeepsInv(f: Flood, events: seq<Event>, budget: nat)
    requires Inv(f, budget) && CanRun(f, events)
    ensures Inv(Final(f, events), budget)
    decreases |events|
  {
    if events != [] {
      StepKeepsInv(f, events[0], budget);
      RunKeepsInv(Apply(f, events[0]), events[1..], budget);
    }
  }

  /**
    A search started with a budget causes at most that many requests in the whole network, whatever
    the topology and whatever is lost, repeated or reordered, and no request carries budget zero.
   */
  lemma FloodIsBounded(f: Flood, origin: Addr, budget: nat, chosen: seq<Addr>, budgets: seq<nat>, k: nat, events: seq<Event>)
    requires Started(f, origin, budget, chosen, budgets, k) && CanRun(f, events)
    ensures |Final(f, events).sent| <= budget
    ensures forall i :: 0 <= i < |Final(f, events).sent| ==> Final(f, events).sent[i].budget >= 1
  {
    StartedInv(f, origin, budget, chosen, budgets, k);
    RunKeepsInv(f, events, budget);
    OpenNonNegative(Final(f, events).sent, Final(f, events).spent);
  }

  // ----------------------------------------------------------- nothing lost, nothing wasted

  /** All requests of a split are sent: their cost and what they leave open are exactly the budget split. */
  lemma {:induction false} RequestsCostAll(origin: Addr, me: Addr, chosen: seq<Addr>, budgets: seq<nat>)
    requires |chosen| == |budgets|
    ensures var rs := Requests(origin, me, chosen, budgets, |chosen|); |rs| + Open(rs, {}) == Total(budgets)
    decreases |chosen|
  {
    if chosen != [] {
      var n := |chosen| - 1;
      var rs := Requests(origin, me, chosen, budgets, |chosen|);
      assert rs[..n] == Requests(origin, me, chosen[..n], budgets[..n], n);
      RequestsCostAll(origin, me, chosen[..n], budgets[..n]);
    }
  }

  /** Everything a forwarding node wants to send is sent, and it has somebody to send it to. */
  ghost predicate Lossless(f: Flood, e: Event)
    requires Enabled(f, e)
  {
    var r := f.sent[e.i];
    Forwards(f, r) ==> e.k == |e.chosen| && Except(f.neighbors[r.dst], [r.relayedBy, r.origin]) != []
  }

  ghost predicate LosslessRun(f: Flood, events: seq<Event>)
    requires CanRun(f, events)
    decreases |events|
  {
    events == [] || (Lossless(f, events[0]) && LosslessRun(Apply(f, events[0]), events[1..]))
  }

  lemma StepSpendsExactly(f: Flood, e: Event, budget: nat)
    requires Inv(f, budget) && Enabled(f, e) && Lossless(f, e)
    ensures |Apply(f, e).sent| + Open(Apply(f, e).sent, Apply(f, e).spent) == |f.sent| + Open(f.sent, f.spent)
  {
    var r := f.sent[e.i];
    if Forwards(f, r) {
      RequestsCostAll(r.origin, r.dst, e.chosen, e.budgets);
      OpenSpend(f.sent, f.spent, e.i);
      OpenConcat(f.sent, Requests(r.origin, r.dst, e.chosen, e.budgets, e.k), f.spent + {e.i});
    }
  }

  lemma {:induction false} RunSpendsExactly(f: Flood, events: seq<Event>, budget: nat)
    requires Inv(f, budget) && CanRun(f, events) && LosslessRun(f, events)
    ensures var f' := Final(f, events); |f'.sent| + Open(f'.sent, f'.spent) == |f.sent| + Open(f.sent, f.spent)
    decreases |events|
  {
    if events != [] {
      StepSpendsExactly(f, events[0], budget);
      StepKeepsInv(f, events[0], budget);
      RunSpendsExactly(Apply(f, events[0]), events[1..], budget);
    }
  }

  /**
    If nothing is lost and every node that forwards has somebody to forward to, the requests sent and
    what the open ones may still spend are exactly the budget of the search, all the time.
   */
  lemma FloodSpendsExactly(f: Flood, origin: Addr, budget: nat, chosen: seq<Addr>, budgets: seq<nat>, events: seq<Event>)
    requires Started(f, origin, budget, chosen, budgets, |chosen|) && f.neighbors[origin] != []
    requires CanRun(f, events) && LosslessRun(f, events)
    ensures var f' := Final(f, events); |f'.sent| + Open(f'.sent, f'.spent) == budget
  {
    StartedInv(f, origin, budget, chosen, budgets, |chosen|);
    RequestsCostAll(origin, origin, chosen, budgets);
    RunSpendsExactly(f, events, budget);
  }

  // --------------------------------------------------------------------- never back

  /** No request goes to the origin of the search. */
  ghost predicate NeverHome(f: Flood, origin: Addr) {
    forall i :: 0 <= i < |f.sent| ==> f.sent[i].origin == origin && f.sent[i].dst != origin
  }

  /** What a node forwards goes neither to the origin nor back to where the request came from. */
  lemma ForwardsAway(f: Flood, e: Event, i: nat)
    requires Enabled(f, e) && |f.sent| <= i < |Apply(f, e).sent|
    ensures var r, s := f.sent[e.i], Apply(f, e).sent[i];
            && s.origin == r.origin && s.relayedBy == r.dst && s.dst in f.neighbors[r.dst]
            && s.dst != r.origin && s.dst != r.relayedBy
  {
    var r, s := f.sent[e.i], Apply(f, e).sent[i];
    assert s == Requests(r.origin, r.dst, e.chosen, e.budgets, e.k)[i - |f.sent|];
    ExceptKeeps(f.neighbors[r.dst], [r.relayedBy, r.origin], s.dst);
    assert s.dst in multiset(Except(f.neighbors[r.dst], [r.relayedBy, r.origin]));
  }

  /** In every run no request ever goes back to the origin of the search. */
  lemma {:induction false} NeverGoesHome(f: Flood, events: seq<Event>, origin: Addr)
    requires CanRun(f, events) && NeverHome(f, origin)
    ensures NeverHome(Final(f, events), origin)
    decreases |events|
  {
    if events != [] {
      var f' := Apply(f, events[0]);
      forall i | 0 <= i < |f'.sent| ensures f'.sent[i].origin == origin && f'.sent[i].dst != origin {
        if i >= |f.sent| {
          ForwardsAway(f, events[0], i);
        } else {
          assert f'.sent[i] == f.sent[i];
        }
      }
      NeverGoesHome(f', events[1..], origin);
    }
  }
}
