/**
  Where the threshold clock stands after any messages, told from the messages alone: at the least
  step for which fewer than a threshold came, whatever their order, with the messages for that and
  for later steps kept; and which block was applied for every step before.
 */
module TlcRuns {
  import opened Tlc

  /** The blocks of the messages for a step, in the order they came. */
  function Blocks(ms: seq<(nat, Block)>, s: nat): (bs: seq<Block>) {
    if ms == [] then []
    else
      var n := |ms| - 1;
      Blocks(ms[..n], s) + if ms[n].0 == s then [ms[n].1] else []
  }

  /** After how many messages a step had a threshold of them. */
  function FullAt(threshold: nat, ms: seq<(nat, Block)>, s: nat): (n: nat)
    requires |Blocks(ms, s)| >= threshold
    ensures n <= |ms|
  {
    if ms == [] || |Blocks(ms[..|ms| - 1], s)| < threshold then |ms|
    else FullAt(threshold, ms[..|ms| - 1], s)
  }

  /** The step was full later than all steps before it, so that its last message was awaited. */
  ghost predicate Awaited(threshold: nat, ms: seq<(nat, Block)>, s: nat)
    requires forall r :: 0 <= r <= s ==> |Blocks(ms, r)| >= threshold
  {
    forall r :: 0 <= r < s ==> FullAt(threshold, ms, r) < FullAt(threshold, ms, s)
  }

  /** The steps before `s` are full. */
  ghost predicate FullBefore(threshold: nat, ms: seq<(nat, Block)>, s: nat) {
    forall r :: 0 <= r < s ==> |Blocks(ms, r)| >= threshold
  }

  function PendingFor(c: Clock, s: nat): (bs: seq<Block>) {
    if s in c.pending then c.pending[s] else []
  }

  /** The block applied for a full step: the one that filled it if it was awaited, otherwise the first. */
  ghost function Applied(threshold: nat, ms: seq<(nat, Block)>, s: nat): (b: Block)
    requires threshold > 0 && FullBefore(threshold, ms, s + 1)
  {
    Blocks(ms, s)[if Awaited(threshold, ms, s) then threshold - 1 else 0]
  }

  /** What the clock holds, told from the messages. */
  ghost predicate Told(threshold: nat, ms: seq<(nat, Block)>, c: Clock)
    requires threshold > 0
  {
    ChainTold(threshold, ms, c.step, c.chain) && PendingTold(ms, c)
  }

  ghost predicate ChainTold(threshold: nat, ms: seq<(nat, Block)>, step: nat, chain: seq<Block>)
    requires threshold > 0
  {
    && |chain| == step && FullBefore(threshold, ms, step)
    && (forall s :: 0 <= s < step ==> chain[s] == Applied(threshold, ms, s))
  }

  ghost predicate PendingTold(ms: seq<(nat, Block)>, c: Clock) {
    && (forall s :: s in c.pending ==> s >= c.step)
    && (forall s :: s >= c.step ==> PendingFor(c, s) == Blocks(ms, s))
  }

  // ------------------------------------------------------------------ one message more

  lemma BlocksGrow(ms: seq<(nat, Block)>, m: (nat, Block), s: nat)
    ensures Blocks(ms + [m], s) == Blocks(ms, s) + if m.0 == s then [m.1] else []
  {
    assert (ms + [m])[..|ms|] == ms;
  }

  /** A full step stays as it was. */
  lemma FullStays(threshold: nat, ms: seq<(nat, Block)>, m: (nat, Block), s: nat)
    requires |Blocks(ms, s)| >= threshold
    ensures |Blocks(ms + [m], s)| >= threshold && FullAt(threshold, ms + [m], s) == FullAt(threshold, ms, s)
    ensures FullAt(threshold, ms, s) <= |ms|
  {
    BlocksGrow(ms, m, s);
    assert (ms + [m])[..|ms|] == ms;
  }

  lemma AppliedStays(threshold: nat, ms: seq<(nat, Block)>, m: (nat, Block), s: nat)
    requires threshold > 0 && FullBefore(threshold, ms, s + 1)
    ensures FullBefore(threshold, ms + [m], s + 1) && Applied(threshold, ms + [m], s) == Applied(threshold, ms, s)
  {
    forall r | 0 <= r < s + 1
      ensures |Blocks(ms + [m], r)| >= threshold && FullAt(threshold, ms + [m], r) == FullAt(threshold, ms, r)
    {
      FullStays(threshold, ms, m, r);
    }
    BlocksGrow(ms, m, s);
  }

  /** A message that does not fill the current step only joins the others. */
  lemma CollectTold(threshold: nat, ms: seq<(nat, Block)>, c: Clock, m: (nat, Block))
    requires threshold > 0 && Told(threshold, ms, c) && m.0 >= c.step
    ensures Told(threshold, ms + [m], Collect(c, m.0, m.1))
  {
    var c' := Collect(c, m.0, m.1);
    forall s | 0 <= s < c.step
      ensures |Blocks(ms + [m], s)| >= threshold && FullBefore(threshold, ms + [m], s + 1)
      ensures c'.chain[s] == Applied(threshold, ms + [m], s)
    {
      AppliedStays(threshold, ms, m, s);
    }
    forall s | s >= c'.step ensures PendingFor(c', s) == Blocks(ms + [m], s) {
      BlocksGrow(ms, m, s);
      assert PendingFor(c, s) == Blocks(ms, s);
    }
  }

  lemma LateTold(threshold: nat, ms: seq<(nat, Block)>, c: Clock, m: (nat, Block))
    requires threshold > 0 && Told(threshold, ms, c) && m.0 < c.step
    ensures Told(threshold, ms + [m], c)
  {
    forall s | 0 <= s < c.step
      ensures |Blocks(ms + [m], s)| >= threshold && FullBefore(threshold, ms + [m], s + 1)
      ensures c.chain[s] == Applied(threshold, ms + [m], s)
    {
      AppliedStays(threshold, ms, m, s);
    }
    forall s | s >= c.step ensures PendingFor(c, s) == Blocks(ms + [m], s) {
      BlocksGrow(ms, m, s);
    }
  }

  /** The clock passes its step, whose block is the one to apply. */
  lemma AdvanceTold(threshold: nat, ms: seq<(nat, Block)>, c: Clock, block: Block)
    requires threshold > 0 && Told(threshold, ms, c) && |Blocks(ms, c.step)| >= threshold
    requires FullBefore(threshold, ms, c.step + 1) && block == Applied(threshold, ms, c.step)
    ensures Told(threshold, ms, Advance(c, block))
  {
    PassPending(ms, c, block);
    ChainGrows(threshold, ms, c.step, c.chain, block);
  }

  lemma PassPending(ms: seq<(nat, Block)>, c: Clock, block: Block)
    requires PendingTold(ms, c)
    ensures PendingTold(ms, Advance(c, block))
  {
    var c' := Advance(c, block);
    forall s | s >= c'.step ensures PendingFor(c', s) == Blocks(ms, s) {
      assert PendingFor(c, s) == Blocks(ms, s);
    }
  }

  lemma ChainGrows(threshold: nat, ms: seq<(nat, Block)>, step: nat, chain: seq<Block>, block: Block)
    requires threshold > 0 && ChainTold(threshold, ms, step, chain)
    requires FullBefore(threshold, ms, step + 1) && block == Applied(threshold, ms, step)
    ensures ChainTold(threshold, ms, step + 1, chain + [block])
  {
    forall s | 0 <= s < step + 1 ensures (chain + [block])[s] == Applied(threshold, ms, s) {
      if s < step {
        assert chain[s] == Applied(threshold, ms, s);
      }
    }
  }

  /** Some step before the current one was filled by the very last message. */
  ghost predicate JustFilled(threshold: nat, ms: seq<(nat, Block)>, r: nat) {
    ms != [] && ms[|ms| - 1].0 == r && |Blocks(ms, r)| >= threshold && FullAt(threshold, ms, r) == |ms|
  }

  /** A step that was full before the last message is passed with its first block. */
  lemma PassedIsFirst(threshold: nat, ms: seq<(nat, Block)>, r: nat, s: nat)
    requires threshold > 0 && FullBefore(threshold, ms, s + 1) && r < s && JustFilled(threshold, ms, r)
    ensures Applied(threshold, ms, s) == Blocks(ms, s)[0]
  {
    var n := |ms| - 1;
    assert Blocks(ms, s) == Blocks(ms[..n], s);
    assert FullAt(threshold, ms, s) <= n;
  }

  lemma {:induction false} CatchUpTold(threshold: nat, ms: seq<(nat, Block)>, c: Clock, r: nat)
    requires threshold > 0 && Told(threshold, ms, c) && r < c.step && JustFilled(threshold, ms, r)
    ensures Told(threshold, ms, CatchUp(threshold, c)) && !Complete(threshold, CatchUp(threshold, c))
    decreases |c.pending|
  {
    if Complete(threshold, c) {
      assert |c.pending - {c.step}| < |c.pending| by {
        assert (c.pending - {c.step}).Keys == c.pending.Keys - {c.step};
      }
      assert PendingFor(c, c.step) == Blocks(ms, c.step);
      PassedIsFirst(threshold, ms, r, c.step);
      AdvanceTold(threshold, ms, c, c.pending[c.step][0]);
      CatchUpTold(threshold, ms, Advance(c, c.pending[c.step][0]), r);
    }
  }

  /** The message that fills the current step was awaited, and its block is applied. */
  lemma FillingIsAwaited(threshold: nat, ms: seq<(nat, Block)>, m: (nat, Block), s: nat)
    requires threshold > 0 && FullBefore(threshold, ms, s) && m.0 == s && |Blocks(ms, s)| == threshold - 1
    ensures FullBefore(threshold, ms + [m], s + 1) && JustFilled(threshold, ms + [m], s)
    ensures Applied(threshold, ms + [m], s) == m.1
  {
    var ms' := ms + [m];
    assert ms'[..|ms|] == ms;
    BlocksGrow(ms, m, s);
    forall r | 0 <= r < s ensures |Blocks(ms', r)| >= threshold && FullAt(threshold, ms', r) < FullAt(threshold, ms', s) {
      FullStays(threshold, ms, m, r);
    }
  }

  lemma ReceiveTold(threshold: nat, ms: seq<(nat, Block)>, c: Clock, m: (nat, Block))
    requires threshold > 0 && Told(threshold, ms, c) && !Complete(threshold, c)
    ensures var r := Receive(threshold, c, m.0, m.1); Told(threshold, ms + [m], r) && !Complete(threshold, r)
  {
    if m.0 < c.step {
      LateTold(threshold, ms, c, m);
    } else {
      var c' := Collect(c, m.0, m.1);
      CollectTold(threshold, ms, c, m);
      if |c'.pending[m.0]| >= threshold && m.0 == c.step {
        assert PendingFor(c, c.step) == Blocks(ms, c.step);
        FillingIsAwaited(threshold, ms, m, c.step);
        AdvanceTold(threshold, ms + [m], c', m.1);
        CatchUpTold(threshold, ms + [m], Advance(c', m.1), c.step);
      }
    }
  }

  lemma {:induction false} ReceiveAllSnoc(threshold: nat, c: Clock, ms: seq<(nat, Block)>, m: (nat, Block))
    ensures ReceiveAll(threshold, c, ms + [m]) == Receive(threshold, ReceiveAll(threshold, c, ms), m.0, m.1)
    decreases |ms|
  {
    if ms == [] {
      assert (ms + [m])[1..] == [];
    } else {
      assert (ms + [m])[0] == ms[0] && (ms + [m])[1..] == ms[1..] + [m];
      ReceiveAllSnoc(threshold, Receive(threshold, c, ms[0].0, ms[0].1), ms[1..], m);
    }
  }

  lemma {:induction false} AllTold(threshold: nat, ms: seq<(nat, Block)>)
    requires threshold > 0
    ensures var c := ReceiveAll(threshold, INITIAL, ms); Told(threshold, ms, c) && !Complete(threshold, c)
    decreases |ms|
  {
    if ms != [] {
      var n := |ms| - 1;
      AllTold(threshold, ms[..n]);
      ReceiveAllSnoc(threshold, INITIAL, ms[..n], ms[n]);
      ReceiveTold(threshold, ms[..n], ReceiveAll(threshold, INITIAL, ms[..n]), ms[n]);
      assert ms == ms[..n] + [ms[n]];
    }
  }

  /**
    After any messages in any order the clock is at the least step for which fewer than a threshold
    came; it keeps the messages for that and later steps; and the block applied for an earlier step is
    the one that filled it if the step was awaited, the first one otherwise.
   */
  lemma ClockIsExact(threshold: nat, ms: seq<(nat, Block)>)
    requires threshold > 0
    ensures var c := ReceiveAll(threshold, INITIAL, ms);
            && FullBefore(threshold, ms, c.step) && |Blocks(ms, c.step)| < threshold
            && (forall s :: s >= c.step ==> PendingFor(c, s) == Blocks(ms, s))
            && |c.chain| == c.step
            && (forall s :: 0 <= s < c.step ==> c.chain[s] == Applied(threshold, ms, s))
  {
    AllTold(threshold, ms);
    var c := ReceiveAll(threshold, INITIAL, ms);
    assert PendingFor(c, c.step) == Blocks(ms, c.step);
  }

  /** Two peers that got equally many messages for every step are at the same step, whatever the order. */
  lemma OrderDoesNotMatter(threshold: nat, ms: seq<(nat, Block)>, ns: seq<(nat, Block)>)
    requires threshold > 0 && forall s :: |Blocks(ms, s)| == |Blocks(ns, s)|
    ensures ReceiveAll(threshold, INITIAL, ms).step == ReceiveAll(threshold, INITIAL, ns).step
  {
    ClockIsExact(threshold, ms);
    ClockIsExact(threshold, ns);
    var s, r := ReceiveAll(threshold, INITIAL, ms).step, ReceiveAll(threshold, INITIAL, ns).step;
    assert |Blocks(ms, s)| == |Blocks(ns, s)| && |Blocks(ms, r)| == |Blocks(ns, r)|;
  }
}
