/**
  The threshold logical clock of the consensus layer (peer/impl/consensus.go): TLC messages are
  collected per step, a threshold of them for the current step applies its block and advances the
  clock, and steps that were already complete are caught up with at once.
 */
module Tlc {

  type Value = string

  /** A block; its hash is collision-free, so the previous block stands for its hash. */
  datatype Block = NoBlock | Block(index: nat, value: Value, prev: Block)

  type Pending = map<nat, seq<Block>>

  /** The clock: current step, TLC messages per step, and the blocks applied so far. */
  datatype Clock = Clock(step: nat, pending: Pending, chain: seq<Block>)

  const INITIAL := Clock(0, map[], [])

  /** Applies the block of the current step and forgets the step's messages. */
  function Advance(c: Clock, block: Block): (r: Clock) {
    Clock(c.step + 1, c.pending - {c.step}, c.chain + [block])
  }

  /** The current step has collected a threshold of messages. */
  predicate Complete(threshold: nat, c: Clock) {
    c.step in c.pending && |c.pending[c.step]| >= threshold && |c.pending[c.step]| > 0
  }

  /** Advances as long as the current step is complete; each advance removes a step from the map. */
  function CatchUp(threshold: nat, c: Clock): (r: Clock)
    decreases |c.pending|
  {
    if Complete(threshold, c) then
      assert |c.pending - {c.step}| < |c.pending| by {
        assert (c.pending - {c.step}).Keys == c.pending.Keys - {c.step};
      }
      CatchUp(threshold, Advance(c, c.pending[c.step][0]))
    else c
  }

  lemma {:induction false} CatchUpAdvances(threshold: nat, c: Clock)
    ensures c.step <= CatchUp(threshold, c).step
    decreases |c.pending|
  {
    if Complete(threshold, c) {
      assert |c.pending - {c.step}| < |c.pending| by {
        assert (c.pending - {c.step}).Keys == c.pending.Keys - {c.step};
      }
      CatchUpAdvances(threshold, Advance(c, c.pending[c.step][0]));
    }
  }

  function Collect(c: Clock, step: nat, block: Block): (r: Clock) {
    c.(pending := c.pending[step := (if step in c.pending then c.pending[step] else []) + [block]])
  }

  /** One iteration of the daemon. */
  function Receive(threshold: nat, c: Clock, step: nat, block: Block): (r: Clock) {
    if step < c.step then c
    else
      var c' := Collect(c, step, block);
      if |c'.pending[step]| < threshold || step != c.step then c'
      else CatchUp(threshold, Advance(c', block))
  }

  /** One block per applied step, only current and future steps pending, and nothing complete left waiting. */
  ghost predicate ClockInv(threshold: nat, c: Clock) {
    && |c.chain| == c.step
    && (forall s :: s in c.pending ==> s >= c.step && |c.pending[s]| > 0)
    && !Complete(threshold, c)
  }

  /** Every block that is pending or applied for a step is in `from` for that step. */
  ghost predicate From(c: Clock, from: iset<(nat, Block)>) {
    && (forall i :: 0 <= i < |c.chain| ==> (i, c.chain[i]) in from)
    && (forall s, k :: s in c.pending && 0 <= k < |c.pending[s]| ==> (s, c.pending[s][k]) in from)
  }

  lemma AdvanceKeeps(c: Clock, block: Block, from: iset<(nat, Block)>)
    requires |c.chain| == c.step && (forall s :: s in c.pending ==> s >= c.step && |c.pending[s]| > 0)
    requires From(c, from) && (c.step, block) in from
    ensures var c' := Advance(c, block);
            && |c'.chain| == c'.step && (forall s :: s in c'.pending ==> s >= c'.step && |c'.pending[s]| > 0)
            && From(c', from)
  {
  }

  /** Catching up applies consecutive steps once each and stops at an incomplete one. */
  lemma {:induction false} CatchUpKeeps(threshold: nat, c: Clock, from: iset<(nat, Block)>)
    requires |c.chain| == c.step && (forall s :: s in c.pending ==> s >= c.step && |c.pending[s]| > 0)
    requires From(c, from)
    ensures var r := CatchUp(threshold, c);
            && ClockInv(threshold, r) && From(r, from)
            && c.chain <= r.chain && r.pending.Keys <= c.pending.Keys
            && (forall s :: s in r.pending ==> r.pending[s] == c.pending[s])
    decreases |c.pending|
  {
    if Complete(threshold, c) {
      assert |c.pending - {c.step}| < |c.pending| by {
        assert (c.pending - {c.step}).Keys == c.pending.Keys - {c.step};
      }
      AdvanceKeeps(c, c.pending[c.step][0], from);
      CatchUpKeeps(threshold, Advance(c, c.pending[c.step][0]), from);
    }
  }

  /**
    Every message leaves the clock with exactly one block per passed step, in order, taken from
    the messages for that step, and with the current step short of the threshold.
   */
  lemma ReceiveKeeps(threshold: nat, c: Clock, step: nat, block: Block, from: iset<(nat, Block)>)
    requires threshold > 0 && ClockInv(threshold, c) && From(c, from) && (step, block) in from
    ensures var r := Receive(threshold, c, step, block);
            && ClockInv(threshold, r) && From(r, from)
            && c.chain <= r.chain && c.step <= r.step
  {
    if step >= c.step {
      var c' := Collect(c, step, block);
      forall s, k | s in c'.pending && 0 <= k < |c'.pending[s]| ensures (s, c'.pending[s][k]) in from {
        if s == step && k == |c'.pending[s]| - 1 {
        } else {
          assert (s, c.pending[s][k]) in from;
        }
      }
      if |c'.pending[step]| >= threshold && step == c.step {
        AdvanceKeeps(c', block, from);
        CatchUpKeeps(threshold, Advance(c', block), from);
      }
    }
  }

  /** With one block per step, the chains of any two clocks are prefixes of one another. */
  lemma ChainsArePrefixes(threshold: nat, c: Clock, d: Clock, from: iset<(nat, Block)>)
    requires ClockInv(threshold, c) && ClockInv(threshold, d) && From(c, from) && From(d, from)
    requires forall s, b, b' :: (s, b) in from && (s, b') in from ==> b == b'
    ensures c.chain <= d.chain || d.chain <= c.chain
  {
    assert forall i :: 0 <= i < |c.chain| && i < |d.chain| ==> c.chain[i] == d.chain[i];
  }

  /** All messages of a run, in the order the daemon takes them from its channel. */
  function ReceiveAll(threshold: nat, c: Clock, messages: seq<(nat, Block)>): (r: Clock)
    decreases |messages|
  {
    if messages == [] then c
    else ReceiveAll(threshold, Receive(threshold, c, messages[0].0, messages[0].1), messages[1..])
  }

  lemma {:induction false} ReceiveAllKeeps(threshold: nat, c: Clock, messages: seq<(nat, Block)>, from: iset<(nat, Block)>)
    requires threshold > 0 && ClockInv(threshold, c) && From(c, from)
    requires forall m :: m in messages ==> m in from
    ensures ClockInv(threshold, ReceiveAll(threshold, c, messages)) && From(ReceiveAll(threshold, c, messages), from)
    decreases |messages|
  {
    if messages != [] {
      ReceiveKeeps(threshold, c, messages[0].0, messages[0].1, from);
      ReceiveAllKeeps(threshold, Receive(threshold, c, messages[0].0, messages[0].1), messages[1..], from);
    }
  }

  /**
    Whatever TLC messages two peers receive, in whatever order, if there is one block per step
    then one of their chains is a prefix of the other.
   */
  lemma PeersAgreeOnPrefix(threshold: nat, ms: seq<(nat, Block)>, ns: seq<(nat, Block)>)
    requires threshold > 0
    requires forall m, n :: m in ms + ns && n in ms + ns && m.0 == n.0 ==> m.1 == n.1
    ensures var c, d := ReceiveAll(threshold, INITIAL, ms).chain, ReceiveAll(threshold, INITIAL, ns).chain;
            c <= d || d <= c
  {
    var from := iset m | m in ms + ns;
    ReceiveAllKeeps(threshold, INITIAL, ms, from);
    ReceiveAllKeeps(threshold, INITIAL, ns, from);
    ChainsArePrefixes(threshold, ReceiveAll(threshold, INITIAL, ms), ReceiveAll(threshold, INITIAL, ns), from);
  }
}
