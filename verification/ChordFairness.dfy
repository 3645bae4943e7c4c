/**
  Convergence of every fair run: if every joined node keeps completing Stabilize rounds, whatever
  else happens in between, then the ring becomes ideal within as many rounds as the potential has
  units, and stays so as long as nobody joins.
 */
module ChordFairness {
  import opened Wrappers
  import opened Circle
  import opened ChordNode
  import opened ChordGraph
  import opened ChordNetwork
  import opened Sums
  import opened ChordConvergence

  /** The network after the first `i` events. */
  ghost function At(net: Net, events: seq<Event>, i: nat): (r: Net)
    requires CanRun(net, events) && i <= |events|
    decreases i
  {
    if i == 0 then net else At(Apply(net, events[0]), events[1..], i - 1)
  }

  /** The notify a Stabilize round of `x` ends with. */
  function RoundNotify(n: Node): (e: Event)
    requires n.successor.Some?
  {
    HandleNotify(Packet(n.id, n.successor.value, Notify))
  }

  /**
    A complete Stabilize round of `x`: its request is answered at `i`, the answer is used at `j`,
    and the notify that is then sent is handled at `k`.
   */
  ghost predicate IsRound(net: Net, events: seq<Event>, x: Id, i: nat, j: nat, k: nat)
    requires CanRun(net, events)
  {
    && i < j < k < |events| && events[i] == AnswerAsk(x) && events[j] == FinishStabilize(x)
    && x in At(net, events, j + 1).nodes && At(net, events, j + 1).nodes[x].successor.Some?
    && events[k] == RoundNotify(At(net, events, j + 1).nodes[x])
  }

  ghost predicate HasRound(net: Net, events: seq<Event>, x: Id)
    requires CanRun(net, events)
  {
    exists i, j, k :: IsRound(net, events, x, i, j, k)
  }

  /** Every joined node completes a Stabilize round. */
  ghost predicate Fair(net: Net, events: seq<Event>)
    requires CanRun(net, events)
  {
    forall x :: x in Succ(net) ==> HasRound(net, events, x)
  }

  /** The events lead from `net` to `end`, and none of them begins or completes a join. */
  ghost predicate JoinFree(net: Net, events: seq<Event>, end: Net)
    decreases |events|
  {
    if events == [] then net == end
    else
      && Enabled(net, events[0]) && !events[0].BeginJoin? && !CompletesJoin(net, events[0])
      && JoinFree(Apply(net, events[0]), events[1..], end)
  }

  // --------------------------------------------------- a quiet fair stretch is ideal

  lemma {:induction false} QuietAt(net: Net, events: seq<Event>, i: nat, a: Id, b: Id)
    requires Inv(net, a, b) && CanRun(net, events) && ChangeCount(net, events) == 0 && i <= |events|
    ensures var m := At(net, events, i);
            && Inv(m, a, b) && m.size == net.size && Succ(m) == Succ(net) && Pred(m) == Pred(net)
            && (i < |events| ==> Enabled(m, events[i]) && !Changes(m, events[i])
                                 && Apply(m, events[i]) == At(net, events, i + 1))
    decreases i
  {
    if i > 0 {
      FactsNamed(net, Succ(net).Keys, Before(net.size, Succ(net)));
      QuietKeepsPointers(net, events[0]);
      StepKeepsInv(net, events[0], a, b);
      StepPays(net, events[0], a, b);
      QuietAt(Apply(net, events[0]), events[1..], i - 1, a, b);
    } else if events != [] {
      assert At(Apply(net, events[0]), events[1..], 0) == Apply(net, events[0]);
    }
  }

  /** What the successor of `x` has recorded as its predecessor. */
  function Recorded(succ: Links, pred: Links, x: Id): (r: Option<Id>)
    requires x in succ
  {
    if succ[x] in pred then Some(pred[succ[x]]) else None
  }

  /** An answer `x` holds is what its successor would still answer. */
  ghost predicate UpToDate(net: Net, x: Id, succ: Links, pred: Links) {
    x in succ && (x in net.asking && net.asking[x].Answered? ==> net.asking[x].reply == Recorded(succ, pred, x))
  }

  lemma AnswerIsUpToDate(net: Net, x: Id)
    requires Enabled(net, AnswerAsk(x))
    ensures UpToDate(Apply(net, AnswerAsk(x)), x, Succ(net), Pred(net))
  {
  }

  lemma StaysUpToDate(net: Net, e: Event, x: Id)
    requires Enabled(net, e) && UpToDate(net, x, Succ(net), Pred(net))
    ensures UpToDate(Apply(net, e), x, Succ(net), Pred(net))
  {
    if e.AnswerAsk? && e.n == x {
      AnswerIsUpToDate(net, x);
    }
  }

  /** The event happens while the pointers are `succ` and `pred`. */
  ghost predicate Calm(m: Net, e: Event, m': Net, succ: Links, pred: Links) {
    Succ(m) == succ && Pred(m) == pred && Enabled(m, e) && Apply(m, e) == m'
  }

  ghost predicate AllCalm(h: seq<Net>, events: seq<Event>, succ: Links, pred: Links)
    requires |h| == |events| + 1
  {
    forall i :: 0 <= i < |events| ==> Calm(h[i], events[i], h[i + 1], succ, pred)
  }

  lemma CalmStep(m: Net, e: Event, m': Net, x: Id, succ: Links, pred: Links)
    requires Calm(m, e, m', succ, pred) && (e == AnswerAsk(x) || UpToDate(m, x, succ, pred))
    ensures UpToDate(m', x, succ, pred)
  {
    if e == AnswerAsk(x) {
      AnswerIsUpToDate(m, x);
    } else {
      StaysUpToDate(m, e, x);
    }
  }

  /** Once asked and answered, what `x` holds is up to date until the end. */
  lemma {:induction false} UpToDateFrom(h: seq<Net>, events: seq<Event>, x: Id, i: nat, j: nat, succ: Links, pred: Links)
    requires |h| == |events| + 1 && AllCalm(h, events, succ, pred)
    requires i < j <= |events| && events[i] == AnswerAsk(x)
    ensures UpToDate(h[j], x, succ, pred)
    decreases j
  {
    if i < j - 1 {
      UpToDateFrom(h, events, x, i, j - 1, succ, pred);
    }
    CalmStep(h[j - 1], events[j - 1], h[j], x, succ, pred);
  }

  /** The states of a run without changes. */
  lemma QuietIsCalm(net: Net, events: seq<Event>, a: Id, b: Id) returns (h: seq<Net>)
    requires Inv(net, a, b) && CanRun(net, events) && ChangeCount(net, events) == 0
    ensures |h| == |events| + 1 && (forall k :: 0 <= k <= |events| ==> h[k] == At(net, events, k))
    ensures AllCalm(h, events, Succ(net), Pred(net))
  {
    h := seq(|events| + 1, k requires 0 <= k <= |events| => At(net, events, k));
    forall k | 0 <= k < |events| ensures Calm(h[k], events[k], h[k + 1], Succ(net), Pred(net)) {
      QuietAt(net, events, k, a, b);
    }
  }

  lemma QuietFinish(net: Net, x: Id)
    requires Enabled(net, FinishStabilize(x)) && UpToDate(net, x, Succ(net), Pred(net)) && net.nodes[x].id == x
    requires !Changes(net, FinishStabilize(x))
    ensures Recorded(Succ(net), Pred(net), x).Some? ==>
              !Between(Recorded(Succ(net), Pred(net), x).value, x, Succ(net)[x])
    ensures Apply(net, FinishStabilize(x)).nodes == net.nodes
  {
  }

  lemma QuietNotify(net: Net, x: Id, s: Id)
    requires Enabled(net, HandleNotify(Packet(x, s, Notify))) && net.nodes[s].id == s
    requires !Changes(net, HandleNotify(Packet(x, s, Notify)))
    ensures s in Pred(net) && !Between(x, Pred(net)[s], s)
  {
  }

  /** A round in a stretch without changes was idle. */
  lemma QuietRound(net: Net, events: seq<Event>, x: Id, i: nat, j: nat, k: nat, a: Id, b: Id)
    requires Inv(net, a, b) && CanRun(net, events) && ChangeCount(net, events) == 0
    requires x in Succ(net) && IsRound(net, events, x, i, j, k)
    ensures Recorded(Succ(net), Pred(net), x) == Some(x)
  {
    var succ := Succ(net);
    var s := succ[x];
    var h := QuietIsCalm(net, events, a, b);
    UpToDateFrom(h, events, x, i, j, Succ(net), Pred(net));
    QuietAt(net, events, j, a, b);
    var m := At(net, events, j);
    FactsNamed(m, Succ(m).Keys, Before(m.size, Succ(m)));
    QuietFinish(m, x);
    SuccOf(m, x);
    QuietAt(net, events, k, a, b);
    var m' := At(net, events, k);
    FactsNamed(m', Succ(m').Keys, Before(m'.size, Succ(m')));
    QuietNotify(m', x, s);
    PredecessorIsOther(net, x, a, b);
    BetweenExcludes(Pred(net)[s], x, s);
  }

  lemma PredecessorIsOther(net: Net, x: Id, a: Id, b: Id)
    requires Inv(net, a, b) && x in Succ(net)
    ensures x != Succ(net)[x] && (Succ(net)[x] in Pred(net) ==> Pred(net)[Succ(net)[x]] != Succ(net)[x])
  {
    var before := Before(net.size, Succ(net));
    assert NodeOk(net.size, Succ(net).Keys, before, x, net.nodes[x]);
    var s := Succ(net)[x];
    assert NodeOk(net.size, Succ(net).Keys, before, s, net.nodes[s]);
  }

  lemma RecordedIsSettled(net: Net, succ: Links)
    requires forall x :: x in succ ==> Recorded(succ, Pred(net), x) == Some(x)
    ensures SettledNet(net, succ)
  {
    forall x | x in succ ensures Next(succ, x) in net.nodes && net.nodes[Next(succ, x)].predecessor == Some(x) {
      assert Recorded(succ, Pred(net), x) == Some(x);
    }
  }

  /** If a fair stretch changes no pointer, the ring is ideal. */
  lemma QuietFairIsIdeal(net: Net, events: seq<Event>, a: Id, b: Id)
    requires Inv(net, a, b) && CanRun(net, events) && Fair(net, events) && ChangeCount(net, events) == 0
    ensures Ideal(Succ(net), Pred(net))
  {
    forall x | x in Succ(net) ensures Recorded(Succ(net), Pred(net), x) == Some(x) {
      assert HasRound(net, events, x);
      var i: nat, j: nat, k: nat :| IsRound(net, events, x, i, j, k);
      QuietRound(net, events, x, i, j, k, a, b);
    }
    RecordedIsSettled(net, Succ(net));
    RestIsSettled(net, a, b);
    RestIffIdeal(net, a, b);
  }

  // ------------------------------------------------------------------ fair runs

  lemma {:induction false} JoinFreeRuns(net: Net, events: seq<Event>, end: Net)
    requires JoinFree(net, events, end)
    ensures CanRun(net, events) && Final(net, events) == end
    decreases |events|
  {
    if events != [] {
      JoinFreeRuns(Apply(net, events[0]), events[1..], end);
    }
  }

  lemma {:induction false} JoinFreeHasNoCredit(net: Net, events: seq<Event>, end: Net, size: nat)
    requires JoinFree(net, events, end)
    ensures JoinCredit(size, events) == 0
    decreases |events|
  {
    if events != [] {
      JoinFreeHasNoCredit(Apply(net, events[0]), events[1..], end, size);
    }
  }

  /** Nothing but joins disturbs the ideal ring. */
  lemma {:induction false} IdealLasts(net: Net, events: seq<Event>, end: Net, a: Id, b: Id)
    requires Inv(net, a, b) && JoinFree(net, events, end) && Ideal(Succ(net), Pred(net))
    ensures Ideal(Succ(end), Pred(end))
    decreases |events|
  {
    if events != [] {
      IdealIsStable(net, events[0], a, b);
      StepKeepsInv(net, events[0], a, b);
      IdealLasts(Apply(net, events[0]), events[1..], end, a, b);
    }
  }

  /** Nobody joins and every joined node completes a round. */
  ghost predicate IsStretch(net: Net, events: seq<Event>) {
    CanRun(net, events) && JoinFree(net, events, Final(net, events)) && Fair(net, events)
  }

  /** Consecutive fair stretches. */
  ghost predicate FairRun(net: Net, stretches: seq<seq<Event>>)
    decreases |stretches|
  {
    stretches == []
    || (IsStretch(net, stretches[0]) && FairRun(Final(net, stretches[0]), stretches[1..]))
  }

  function Flat(stretches: seq<seq<Event>>): (r: seq<Event>) {
    if stretches == [] then [] else stretches[0] + Flat(stretches[1..])
  }

  lemma {:induction false} JoinFreeComposes(net: Net, first: seq<Event>, mid: Net, second: seq<Event>, end: Net)
    requires JoinFree(net, first, mid) && JoinFree(mid, second, end)
    ensures JoinFree(net, first + second, end)
    decreases |first|
  {
    if first == [] {
      assert first + second == second;
    } else {
      assert (first + second)[0] == first[0] && (first + second)[1..] == first[1..] + second;
      JoinFreeComposes(Apply(net, first[0]), first[1..], mid, second, end);
    }
  }

  lemma {:induction false} FairRunIsJoinFree(net: Net, stretches: seq<seq<Event>>) returns (end: Net)
    requires FairRun(net, stretches)
    ensures JoinFree(net, Flat(stretches), end)
    decreases |stretches|
  {
    if stretches == [] {
      end := net;
    } else {
      var mid := Final(net, stretches[0]);
      end := FairRunIsJoinFree(mid, stretches[1..]);
      JoinFreeComposes(net, stretches[0], mid, Flat(stretches[1..]), end);
    }
  }

  /** A fair stretch lowers the potential unless the ring was ideal before it. */
  lemma FairStretchPays(net: Net, events: seq<Event>, a: Id, b: Id)
    requires Inv(net, a, b) && IsStretch(net, events)
    ensures Inv(Final(net, events), a, b)
    ensures Ideal(Succ(net), Pred(net)) || Potential(Final(net, events)) < Potential(net)
  {
    RunKeepsInv(net, events, a, b);
    JoinFreeHasNoCredit(net, events, Final(net, events), net.size);
    RunPays(net, events, a, b);
    if ChangeCount(net, events) == 0 {
      QuietFairIsIdeal(net, events, a, b);
    }
  }

  /**
    Every fair run converges: after more fair stretches than the potential at the start, whatever
    else happens in them short of a join, the pointers are the ideal ring over the joined nodes.
   */
  lemma {:induction false} FairRunsConverge(net: Net, stretches: seq<seq<Event>>, a: Id, b: Id)
    requires Inv(net, a, b) && FairRun(net, stretches)
    requires |stretches| > Potential(net)
    ensures CanRun(net, Flat(stretches))
    ensures Ideal(Succ(Final(net, Flat(stretches))), Pred(Final(net, Flat(stretches))))
    decreases |stretches|
  {
    SumNonNegative(net.nodes.Keys, NodeCost(net));
    FairStretchPays(net, stretches[0], a, b);
    if Ideal(Succ(net), Pred(net)) {
      var end := FairRunIsJoinFree(net, stretches);
      JoinFreeRuns(net, Flat(stretches), end);
      IdealLasts(net, Flat(stretches), end, a, b);
    } else {
      FairRunsConverge(Final(net, stretches[0]), stretches[1..], a, b);
      RunsCompose(net, stretches[0], Flat(stretches[1..]));
    }
  }

  /**
    From the founding pair and after any run with any number of joins: more fair stretches than
    twice the circle's size for the pair and for each join end in the ideal ring.
   */
  lemma FoundedFairRunsConverge(start: Net, events: seq<Event>, stretches: seq<seq<Event>>, a: Id, b: Id)
    requires Founded(start, a, b) && CanRun(start, events) && FairRun(Final(start, events), stretches)
    requires |stretches| > 2 * start.size + 2 * start.size * Joins(events)
    ensures CanRun(start, events + Flat(stretches))
    ensures var net := Final(start, events + Flat(stretches)); AtRest(net) && Ideal(Succ(net), Pred(net))
  {
    FoundedInv(start, a, b);
    FoundedPotential(start, a, b);
    RunPays(start, events, a, b);
    CreditIsPerJoin(start.size, events);
    RunKeepsInv(start, events, a, b);
    FairRunsConverge(Final(start, events), stretches, a, b);
    RunsCompose(start, events, Flat(stretches));
    RunKeepsInv(start, events + Flat(stretches), a, b);
    RestIffIdeal(Final(start, events + Flat(stretches)), a, b);
  }

  // ------------------------------------------------------- fair runs always exist

  lemma {:induction false} AtExtends(net: Net, first: seq<Event>, rest: seq<Event>, i: nat)
    requires CanRun(net, first) && CanRun(net, first + rest) && i <= |first|
    ensures At(net, first + rest, i) == At(net, first, i)
    decreases i
  {
    if i > 0 {
      var net' := Apply(net, first[0]);
      assert (first + rest)[0] == first[0] && (first + rest)[1..] == first[1..] + rest;
      assert CanRun(net', first[1..]) && CanRun(net', first[1..] + rest);
      AtExtends(net', first[1..], rest, i - 1);
      assert At(net, first, i) == At(net', first[1..], i - 1);
      assert At(net, first + rest, i) == At(net', first[1..] + rest, i - 1);
    }
  }

  lemma RoundExtends(net: Net, first: seq<Event>, rest: seq<Event>, x: Id)
    requires CanRun(net, first) && CanRun(net, first + rest) && HasRound(net, first, x)
    ensures HasRound(net, first + rest, x)
  {
    var i: nat, j: nat, k: nat :| IsRound(net, first, x, i, j, k);
    AtExtends(net, first, rest, j + 1);
    assert IsRound(net, first + rest, x, i, j, k);
  }

  lemma LaterRound(net: Net, events: seq<Event>, x: Id)
    requires CanRun(net, events) && events != [] && HasRound(Apply(net, events[0]), events[1..], x)
    ensures HasRound(net, events, x)
  {
    var i: nat, j: nat, k: nat :| IsRound(Apply(net, events[0]), events[1..], x, i, j, k);
    assert At(net, events, j + 2) == At(Apply(net, events[0]), events[1..], j + 1);
    assert IsRound(net, events, x, i + 1, j + 1, k + 1);
  }

  lemma {:induction false} RoundShifts(net: Net, first: seq<Event>, rest: seq<Event>, x: Id)
    requires CanRun(net, first) && CanRun(Final(net, first), rest) && CanRun(net, first + rest)
    requires HasRound(Final(net, first), rest, x)
    ensures HasRound(net, first + rest, x)
    decreases |first|
  {
    if first == [] {
      assert first + rest == rest;
    } else {
      assert (first + rest)[0] == first[0] && (first + rest)[1..] == first[1..] + rest;
      RoundShifts(Apply(net, first[0]), first[1..], rest, x);
      LaterRound(net, first + rest, x);
    }
  }

  lemma Prepend(net: Net, e: Event, rest: seq<Event>, end: Net)
    requires Enabled(net, e) && !e.BeginJoin? && !CompletesJoin(net, e) && JoinFree(Apply(net, e), rest, end)
    ensures JoinFree(net, [e] + rest, end)
  {
    assert ([e] + rest)[0] == e && ([e] + rest)[1..] == rest;
  }

  /** The answer a node waits for is used, and its notify handled. */
  lemma UseAndNotify(net: Net, x: Id) returns (e: Event)
    requires Named(net) && Enabled(net, FinishStabilize(x)) && net.nodes[x].successor.value in net.nodes
    requires net.asking[x].reply.Some? ==> net.asking[x].reply.value in net.nodes
    ensures var n := Adopt(net.nodes[x], net.asking[x].reply); n.successor.Some? && n.id == x && e == RoundNotify(n)
    ensures Apply(net, FinishStabilize(x)).nodes == net.nodes[x := Adopt(net.nodes[x], net.asking[x].reply)]
    ensures Enabled(Apply(net, FinishStabilize(x)), e)
  {
    e := RoundNotify(Adopt(net.nodes[x], net.asking[x].reply));
  }

  /** A node that is not waiting for an answer can complete a round. */
  lemma RoundSteps(net: Net, x: Id) returns (events: seq<Event>, end: Net)
    requires Named(net) && x in net.nodes && net.nodes[x].successor.Some? && net.nodes[x].successor.value in net.nodes
    requires x !in net.asking && (forall y :: y in net.nodes && net.nodes[y].predecessor.Some? ==>
                                              net.nodes[y].predecessor.value in net.nodes)
    ensures JoinFree(net, events, end) && CanRun(net, events) && HasRound(net, events, x)
  {
    AskAndAnswer(net, x);
    var net1 := Apply(net, Stabilize(x));
    var net2 := Apply(net1, AnswerAsk(x));
    var e := UseAndNotify(net2, x);
    var net3 := Apply(net2, FinishStabilize(x));
    end := Apply(net3, e);
    Prepend(net3, e, [], end);
    Prepend(net2, FinishStabilize(x), [e] + [], end);
    Prepend(net1, AnswerAsk(x), [FinishStabilize(x)] + ([e] + []), end);
    var round := [AnswerAsk(x)] + ([FinishStabilize(x)] + ([e] + []));
    Prepend(net, Stabilize(x), round, end);
    events := [Stabilize(x)] + round;
    assert events[1..] == round;
    JoinFreeRuns(net, events, end);
    assert round[1..][0] == FinishStabilize(x);
    assert At(net2, round[1..], 1) == At(net3, round[1..][1..], 0) == net3;
    assert At(net1, round, 2) == At(net2, round[1..], 1);
    assert IsRound(net1, round, x, 0, 1, 2);
    LaterRound(net, events, x);
  }

  /** The joined nodes stay the same where nobody joins. */
  lemma {:induction false} JoinFreeKeepsJoined(net: Net, events: seq<Event>, end: Net, a: Id, b: Id)
    requires Inv(net, a, b) && JoinFree(net, events, end)
    ensures Inv(end, a, b) && Succ(end).Keys == Succ(net).Keys
    decreases |events|
  {
    if events != [] {
      StepKeepsInv(net, events[0], a, b);
      StepKeepsPaths(net, events[0], a, b);
      QuietLink(net, events[0]);
      JoinFreeKeepsJoined(Apply(net, events[0]), events[1..], end, a, b);
    }
  }

  lemma QuietLink(net: Net, e: Event)
    requires Enabled(net, e) && !CompletesJoin(net, e)
    ensures NewLink(net, e).Some? ==> NewLink(net, e).value.0 in Succ(net)
  {
  }

  /** A joined node can complete a round at any time. */
  lemma RoundIsPossible(net: Net, x: Id, a: Id, b: Id) returns (events: seq<Event>, end: Net)
    requires Inv(net, a, b) && x in Succ(net)
    ensures JoinFree(net, events, end) && CanRun(net, events) && HasRound(net, events, x)
  {
    if x in net.asking {
      var net' := Apply(net, TimeOut(x));
      StepKeepsInv(net, TimeOut(x), a, b);
      InvSuits(net', x, a, b);
      var rest;
      rest, end := RoundSteps(net', x);
      events := [TimeOut(x)] + rest;
      Prepend(net, TimeOut(x), rest, end);
      assert events[1..] == rest;
      LaterRound(net, events, x);
    } else {
      InvSuits(net, x, a, b);
      events, end := RoundSteps(net, x);
    }
  }

  lemma InvSuits(net: Net, x: Id, a: Id, b: Id)
    requires Inv(net, a, b) && x in Succ(net)
    ensures Named(net) && x in net.nodes && net.nodes[x].successor.Some? && net.nodes[x].successor.value in net.nodes
    ensures forall y :: y in net.nodes && net.nodes[y].predecessor.Some? ==> net.nodes[y].predecessor.value in net.nodes
  {
    var before := Before(net.size, Succ(net));
    FactsNamed(net, Succ(net).Keys, before);
    assert NodeOk(net.size, Succ(net).Keys, before, x, net.nodes[x]);
    forall y | y in net.nodes && net.nodes[y].predecessor.Some? ensures net.nodes[y].predecessor.value in net.nodes {
      assert NodeOk(net.size, Succ(net).Keys, before, y, net.nodes[y]);
    }
  }

  lemma {:induction false} RoundsArePossible(net: Net, todo: set<Id>, a: Id, b: Id) returns (events: seq<Event>, end: Net)
    requires Inv(net, a, b) && todo <= Succ(net).Keys
    ensures JoinFree(net, events, end) && CanRun(net, events)
    ensures forall x :: x in todo ==> HasRound(net, events, x)
    decreases |todo|
  {
    events, end := [], net;
    if todo != {} {
      var x :| x in todo;
      var first, mid := RoundIsPossible(net, x, a, b);
      JoinFreeRuns(net, first, mid);
      JoinFreeKeepsJoined(net, first, mid, a, b);
      var rest;
      rest, end := RoundsArePossible(mid, todo - {x}, a, b);
      JoinFreeComposes(net, first, mid, rest, end);
      events := first + rest;
      JoinFreeRuns(net, events, end);
      RoundExtends(net, first, rest, x);
      forall y | y in todo - {x} ensures HasRound(net, events, y) {
        RoundShifts(net, first, rest, y);
      }
    }
  }

  /** Every joined node can complete a round, one after the other. */
  lemma FairStretchExists(net: Net, a: Id, b: Id) returns (events: seq<Event>)
    requires Inv(net, a, b)
    ensures IsStretch(net, events) && Inv(Final(net, events), a, b)
  {
    var end;
    events, end := RoundsArePossible(net, Succ(net).Keys, a, b);
    JoinFreeRuns(net, events, end);
    RunKeepsInv(net, events, a, b);
  }

  /** From every state of every run there are fair runs of any length. */
  lemma {:induction false} FairRunsExist(net: Net, n: nat, a: Id, b: Id) returns (stretches: seq<seq<Event>>)
    requires Inv(net, a, b)
    ensures FairRun(net, stretches) && |stretches| == n
    decreases n
  {
    if n == 0 {
      stretches := [];
    } else {
      var first := FairStretchExists(net, a, b);
      var rest := FairRunsExist(Final(net, first), n - 1, a, b);
      stretches := [first] + rest;
      assert stretches[0] == first && stretches[1..] == rest;
    }
  }
}
