/**
  Rumor mongering (peer/impl/handler.go, peer/impl/messaging.go): every node numbers its own
  rumors, accepts those of others only in sequence, and repairs gaps by comparing views.

  Node addresses are distinct; sequence numbers are unbounded. `done` records the rumors whose
  embedded message has been processed, in that order.
 */
module Gossip {
  import opened Sums

  type Addr = string
  type Payload = string
  type View = map<Addr, nat>

  datatype Rumor = Rumor(origin: Addr, sequence: nat, msg: Payload)

  /** The zero value that pads a short reply. */
  const PADDING := Rumor("", 0, "")

  const REPLY_SIZE: nat := 10

  datatype Node = Node(seqs: View, rumors: map<Addr, seq<Rumor>>, done: seq<Rumor>)

  const EMPTY := Node(map[], map[], [])

  function Last(view: View, o: Addr): (n: nat) {
    if o in view then view[o] else 0
  }

  function LogOf(n: Node, o: Addr): (s: seq<Rumor>) {
    if o in n.rumors then n.rumors[o] else []
  }

  // --------------------------------------------------------------------- handlers

  /** The next rumor of its origin; the first one a node sees of an origin must be number 1. */
  predicate Expected(n: Node, r: Rumor) {
    r.sequence == Last(n.seqs, r.origin) + 1
  }

  function Record(n: Node, r: Rumor): (n': Node) {
    Node(n.seqs[r.origin := r.sequence], n.rumors[r.origin := LogOf(n, r.origin) + [r]], n.done + [r])
  }

  function HearOne(n: Node, r: Rumor): (n': Node) {
    if Expected(n, r) then Record(n, r) else n
  }

  function HearAll(n: Node, rs: seq<Rumor>): (n': Node)
    decreases |rs|
  {
    if rs == [] then n else HearAll(HearOne(n, rs[0]), rs[1..])
  }

  function NextOwn(n: Node, me: Addr, msg: Payload): (r: Rumor) {
    Rumor(me, Last(n.seqs, me) + 1, msg)
  }

  /** What the node holds of an origin beyond the other's view. */
  function Ahead(n: Node, other: View, o: Addr): (s: seq<Rumor>) {
    if Last(other, o) < |LogOf(n, o)| then LogOf(n, o)[Last(other, o)..] else []
  }

  function AllAhead(n: Node, other: View, order: seq<Addr>): (s: seq<Rumor>) {
    if order == [] then [] else Ahead(n, other, order[0]) + AllAhead(n, other, order[1..])
  }

  function Padding(k: nat): (s: seq<Rumor>) {
    seq(k, _ => PADDING)
  }

  /** Exactly ten entries: the first ten, or all of them and padding. */
  function FirstTen(s: seq<Rumor>): (r: seq<Rumor>) {
    if |s| >= REPLY_SIZE then s[..REPLY_SIZE] else s + Padding(REPLY_SIZE - |s|)
  }

  ghost predicate Lists(order: seq<Addr>, s: set<Addr>) {
    (forall i, j :: 0 <= i < j < |order| ==> order[i] != order[j]) && (forall o :: o in order <==> o in s)
  }

  ghost function OriginsAhead(n: Node, other: View): (s: set<Addr>) {
    set o | o in n.seqs && Last(other, o) < n.seqs[o]
  }

  // -------------------------------------------------------------- one node's log

  function OfOrigin(s: seq<Rumor>, o: Addr): (r: seq<Rumor>) {
    if s == [] then []
    else OfOrigin(s[..|s| - 1], o) + (if s[|s| - 1].origin == o then [s[|s| - 1]] else [])
  }

  /** Rumor `i` of an origin sits at index `i - 1` of its log. */
  ghost predicate InSequence(o: Addr, log: seq<Rumor>) {
    forall i {:trigger log[i]} :: 0 <= i < |log| ==> log[i].origin == o && log[i].sequence == i + 1
  }

  /** The log of an origin is complete up to its last sequence number, and is what was processed of it. */
  ghost predicate OriginOk(n: Node, o: Addr) {
    && LogOf(n, o) == OfOrigin(n.done, o)
    && |LogOf(n, o)| == Last(n.seqs, o)
    && InSequence(o, LogOf(n, o))
    && (o in n.seqs <==> o in n.rumors) && (o in n.seqs ==> n.seqs[o] > 0)
  }

  ghost predicate NodeOk(n: Node) {
    forall o :: OriginOk(n, o)
  }

  lemma RecordOther(n: Node, r: Rumor, o: Addr)
    requires o != r.origin
    ensures LogOf(Record(n, r), o) == LogOf(n, o) && Last(Record(n, r).seqs, o) == Last(n.seqs, o)
    ensures OfOrigin(Record(n, r).done, o) == OfOrigin(n.done, o)
  {
    assert (n.done + [r])[..|n.done|] == n.done;
  }

  lemma RecordKeeps(n: Node, r: Rumor)
    requires NodeOk(n) && Expected(n, r)
    ensures NodeOk(Record(n, r)) && LogOf(Record(n, r), r.origin) == LogOf(n, r.origin) + [r]
  {
    var n' := Record(n, r);
    forall o ensures OriginOk(n', o) {
      assert OriginOk(n, o);
      if o == r.origin {
        assert (n.done + [r])[..|n.done|] == n.done;
      } else {
        RecordOther(n, r, o);
      }
    }
  }

  lemma HearOneKeeps(n: Node, r: Rumor)
    requires NodeOk(n)
    ensures NodeOk(HearOne(n, r))
  {
    if Expected(n, r) {
      RecordKeeps(n, r);
    }
  }

  // ------------------------------------------------------------------ the network

  /**
    The nodes and every rumor list ever sent. Lists stay available for ever and are handed over in
    any order, any number of times or never: loss, duplication and reordering.
   */
  datatype Net = Net(nodes: map<Addr, Node>, wire: set<seq<Rumor>>)

  datatype Event =
    | Tell(p: Addr, msg: Payload)
    | Hear(p: Addr, rs: seq<Rumor>)
    | Repair(p: Addr, other: View, order: seq<Addr>)

  predicate Enabled(net: Net, e: Event) {
    e.p in net.nodes && (e.Hear? ==> e.rs in net.wire)
  }

  function Apply(net: Net, e: Event): (r: Net)
    requires Enabled(net, e)
  {
    var n := net.nodes[e.p];
    match e
    case Tell(p, msg) => Net(net.nodes[p := Record(n, NextOwn(n, p, msg))], net.wire + {[NextOwn(n, p, msg)]})
    case Hear(p, rs) => net.(nodes := net.nodes[p := HearAll(n, rs)])
    case Repair(p, other, order) => net.(wire := net.wire + {FirstTen(AllAhead(n, other, order))})
  }

  /** The rumors an origin has told so far. */
  function Told(net: Net, o: Addr): (s: seq<Rumor>) {
    if o in net.nodes then LogOf(net.nodes[o], o) else []
  }

  ghost predicate Genuine(net: Net, r: Rumor) {
    r == PADDING || (0 < r.sequence <= |Told(net, r.origin)| && Told(net, r.origin)[r.sequence - 1] == r)
  }

  /** The node's log of an origin is a prefix of the origin's own log. */
  ghost predicate Follows(net: Net, p: Addr, o: Addr)
    requires p in net.nodes
  {
    LogOf(net.nodes[p], o) <= Told(net, o)
  }

  ghost predicate Inv(net: Net) {
    && (forall p :: p in net.nodes ==> NodeOk(net.nodes[p]))
    && (forall p, o :: p in net.nodes ==> Follows(net, p, o))
    && (forall rs, k :: rs in net.wire && 0 <= k < |rs| ==> Genuine(net, rs[k]))
  }

  /** A rumor accepted from the wire continues the log as the origin wrote it. */
  lemma HearOneFollows(net: Net, n: Node, r: Rumor)
    requires NodeOk(n) && (forall o :: LogOf(n, o) <= Told(net, o)) && Genuine(net, r)
    ensures NodeOk(HearOne(n, r)) && (forall o :: LogOf(HearOne(n, r), o) <= Told(net, o))
  {
    HearOneKeeps(n, r);
    if Expected(n, r) {
      assert OriginOk(n, r.origin);
      forall o ensures LogOf(HearOne(n, r), o) <= Told(net, o) {
        if o != r.origin {
          RecordOther(n, r, o);
        }
      }
    }
  }

  lemma {:induction false} HearAllFollows(net: Net, n: Node, rs: seq<Rumor>)
    requires NodeOk(n) && (forall o :: LogOf(n, o) <= Told(net, o))
    requires forall k :: 0 <= k < |rs| ==> Genuine(net, rs[k])
    ensures NodeOk(HearAll(n, rs)) && (forall o :: LogOf(HearAll(n, rs), o) <= Told(net, o))
    decreases |rs|
  {
    if rs != [] {
      HearOneFollows(net, n, rs[0]);
      HearAllFollows(net, HearOne(n, rs[0]), rs[1..]);
    }
  }

  /** Nothing an origin has told is ever taken back or changed. */
  ghost predicate Grows(net: Net, net': Net) {
    && net.nodes.Keys == net'.nodes.Keys
    && forall o :: Told(net, o) <= Told(net', o)
  }

  lemma GenuineKept(net: Net, net': Net, r: Rumor)
    requires Genuine(net, r) && Grows(net, net')
    ensures Genuine(net', r)
  {
  }

  lemma TellKeeps(net: Net, p: Addr, msg: Payload)
    requires Inv(net) && Enabled(net, Tell(p, msg))
    ensures Inv(Apply(net, Tell(p, msg))) && Grows(net, Apply(net, Tell(p, msg)))
  {
    var n, r := net.nodes[p], NextOwn(net.nodes[p], p, msg);
    var net' := Apply(net, Tell(p, msg));
    RecordKeeps(n, r);
    assert OriginOk(n, p);
    forall o ensures Told(net, o) <= Told(net', o) {
    }
    forall q, o | q in net'.nodes ensures Follows(net', q, o) {
      assert Follows(net, q, o);
      if q == p && o != p {
        RecordOther(n, r, o);
      }
    }
    forall rs, k | rs in net'.wire && 0 <= k < |rs| ensures Genuine(net', rs[k]) {
      if rs in net.wire {
        GenuineKept(net, net', rs[k]);
      }
    }
  }

  /** Nobody learns rumors of its own from others. */
  lemma HearTellsNothing(net: Net, p: Addr, rs: seq<Rumor>)
    requires Inv(net) && Enabled(net, Hear(p, rs))
    ensures forall o :: Told(Apply(net, Hear(p, rs)), o) == Told(net, o)
  {
    var n := net.nodes[p];
    forall o ensures LogOf(n, o) <= Told(net, o) {
      assert Follows(net, p, o);
    }
    HearAllFollows(net, n, rs);
    LogsOnlyGrow(n, rs, p);
    assert Told(Apply(net, Hear(p, rs)), p) == Told(net, p);
  }

  lemma HearKeeps(net: Net, p: Addr, rs: seq<Rumor>)
    requires Inv(net) && Enabled(net, Hear(p, rs))
    ensures Inv(Apply(net, Hear(p, rs))) && Grows(net, Apply(net, Hear(p, rs)))
  {
    var n := net.nodes[p];
    var net' := Apply(net, Hear(p, rs));
    forall o ensures LogOf(n, o) <= Told(net, o) {
      assert Follows(net, p, o);
    }
    HearAllFollows(net, n, rs);
    LogsOnlyGrow(n, rs, p);
    HearTellsNothing(net, p, rs);
    forall q, o | q in net'.nodes ensures Follows(net', q, o) {
      assert q != p ==> Follows(net, q, o);
    }
    forall l, k | l in net'.wire && 0 <= k < |l| ensures Genuine(net', l[k]) {
      GenuineKept(net, net', l[k]);
    }
  }

  /** Hearing rumors only extends logs. */
  lemma {:induction false} LogsOnlyGrow(n: Node, rs: seq<Rumor>, o: Addr)
    ensures LogOf(n, o) <= LogOf(HearAll(n, rs), o)
    decreases |rs|
  {
    if rs != [] {
      LogsOnlyGrow(HearOne(n, rs[0]), rs[1..], o);
    }
  }

  lemma HeadIsGenuine(net: Net, p: Addr, other: View, o: Addr, k: nat)
    requires Inv(net) && p in net.nodes && k < |Ahead(net.nodes[p], other, o)|
    ensures Genuine(net, Ahead(net.nodes[p], other, o)[k])
  {
    var n := net.nodes[p];
    assert OriginOk(n, o) && Follows(net, p, o);
    assert Ahead(n, other, o)[k] == LogOf(n, o)[Last(other, o) + k];
  }

  lemma {:induction false} AheadIsGenuine(net: Net, p: Addr, other: View, order: seq<Addr>, k: nat)
    requires Inv(net) && p in net.nodes && k < |AllAhead(net.nodes[p], other, order)|
    ensures Genuine(net, AllAhead(net.nodes[p], other, order)[k])
    decreases |order|
  {
    var head, tail := Ahead(net.nodes[p], other, order[0]), AllAhead(net.nodes[p], other, order[1..]);
    assert AllAhead(net.nodes[p], other, order) == head + tail;
    if k < |head| {
      HeadIsGenuine(net, p, other, order[0], k);
    } else {
      AheadIsGenuine(net, p, other, order[1..], k - |head|);
    }
  }

  lemma RepairKeeps(net: Net, e: Event)
    requires Inv(net) && Enabled(net, e) && e.Repair?
    ensures Inv(Apply(net, e)) && Grows(net, Apply(net, e))
  {
    var net' := Apply(net, e);
    forall q, o | q in net'.nodes ensures Follows(net', q, o) {
      assert Follows(net, q, o);
    }
    forall l, k | l in net'.wire && 0 <= k < |l| ensures Genuine(net', l[k]) {
      if l in net.wire {
        GenuineKept(net, net', l[k]);
      } else if k < |AllAhead(net.nodes[e.p], e.other, e.order)| {
        AheadIsGenuine(net, e.p, e.other, e.order, k);
        GenuineKept(net, net', l[k]);
      }
    }
  }

  ghost predicate CanRun(net: Net, events: seq<Event>)
    decreases |events|
  {
    events == [] || (Enabled(net, events[0]) && CanRun(Apply(net, events[0]), events[1..]))
  }

  ghost function Final(net: Net, events: seq<Event>): (r: Net)
    requires CanRun(net, events)
    decreases |events|
  {
    if events == [] then net else Final(Apply(net, events[0]), events[1..])
  }

  lemma StepKeepsInv(net: Net, e: Event)
    requires Inv(net) && Enabled(net, e)
    ensures Inv(Apply(net, e)) && Grows(net, Apply(net, e))
  {
    match e
    case Tell(p, msg) => TellKeeps(net, p, msg);
    case Hear(p, rs) => HearKeeps(net, p, rs);
    case Repair(_, _, _) => RepairKeeps(net, e);
  }

  lemma {:induction false} RunKeepsInv(net: Net, events: seq<Event>)
    requires Inv(net) && CanRun(net, events)
    ensures Inv(Final(net, events)) && Grows(net, Final(net, events))
    decreases |events|
  {
    if events != [] {
      StepKeepsInv(net, events[0]);
      RunKeepsInv(Apply(net, events[0]), events[1..]);
    }
  }

  ghost predicate Initial(net: Net) {
    (forall p :: p in net.nodes ==> net.nodes[p] == EMPTY) && net.wire == {}
  }

  /**
    Safety of gossip: whatever the network loses, repeats or reorders, every node's log of an origin
    is a prefix of that origin's own log with rumor `i` at index `i - 1`, and the rumors of the
    origin it has processed are exactly that log, so each is processed once and in order.
   */
  lemma GossipSafety(net: Net, events: seq<Event>, p: Addr, o: Addr)
    requires Initial(net) && CanRun(net, events) && p in net.nodes
    ensures var r := Final(net, events);
            && p in r.nodes
            && LogOf(r.nodes[p], o) <= Told(r, o)
            && InSequence(o, LogOf(r.nodes[p], o))
            && OfOrigin(r.nodes[p].done, o) == LogOf(r.nodes[p], o)
            && |LogOf(r.nodes[p], o)| == Last(r.nodes[p].seqs, o)
  {
    RunKeepsInv(net, events);
    var r := Final(net, events);
    assert Follows(r, p, o);
    assert OriginOk(r.nodes[p], o);
  }

  /** The messages a node was asked to tell, in order. */
  function Tells(events: seq<Event>, o: Addr): (s: seq<Payload>) {
    if events == [] then []
    else (if events[0].Tell? && events[0].p == o then [events[0].msg] else []) + Tells(events[1..], o)
  }

  function Payloads(log: seq<Rumor>): (s: seq<Payload>) {
    seq(|log|, i requires 0 <= i < |log| => log[i].msg)
  }

  lemma StepTells(net: Net, e: Event, o: Addr)
    requires Inv(net) && Enabled(net, e) && o in net.nodes
    ensures Payloads(Told(Apply(net, e), o)) == Payloads(Told(net, o)) + if e.Tell? && e.p == o then [e.msg] else []
  {
    if e.Hear? {
      HearTellsNothing(net, e.p, e.rs);
    }
  }

  lemma Regroup(a: seq<Payload>, b: seq<Payload>, c: seq<Payload>)
    ensures (a + b) + c == a + (b + c)
  {
  }

  /** In every run the log of an origin is what it was asked to tell, message by message. */
  lemma {:induction false} ToldIsTold(net: Net, events: seq<Event>, o: Addr)
    requires Inv(net) && CanRun(net, events) && o in net.nodes
    ensures Payloads(Told(Final(net, events), o)) == Payloads(Told(net, o)) + Tells(events, o)
    decreases |events|
  {
    if events != [] {
      var net' := Apply(net, events[0]);
      StepTells(net, events[0], o);
      StepKeepsInv(net, events[0]);
      ToldIsTold(net', events[1..], o);
      var said := if events[0].Tell? && events[0].p == o then [events[0].msg] else [];
      Regroup(Payloads(Told(net, o)), said, Tells(events[1..], o));
    }
  }

  /**
    In every run the messages of an origin that a node has processed are the first ones the origin was
    asked to tell, in that order and without gap or repetition.
   */
  lemma ProcessedAsTold(net: Net, events: seq<Event>, p: Addr, o: Addr)
    requires Initial(net) && CanRun(net, events) && p in net.nodes && o in net.nodes
    ensures p in Final(net, events).nodes
    ensures Payloads(OfOrigin(Final(net, events).nodes[p].done, o)) <= Tells(events, o)
  {
    GossipSafety(net, events, p, o);
    ToldIsTold(net, events, o);
    var r := Final(net, events);
    assert Told(net, o) == [];
    PayloadsOfPrefix(LogOf(r.nodes[p], o), Told(r, o));
  }

  lemma PayloadsOfPrefix(a: seq<Rumor>, b: seq<Rumor>)
    requires a <= b
    ensures Payloads(a) <= Payloads(b)
  {
  }

  /** A rumor that was just told is on its way, and whoever had all before it has all with it. */
  lemma ToldIsHeard(net: Net, p: Addr, msg: Payload, q: Addr)
    requires Inv(net) && Enabled(net, Tell(p, msg)) && q in net.nodes && LogOf(net.nodes[q], p) == Told(net, p)
    ensures var net' := Apply(net, Tell(p, msg)); var rs := [NextOwn(net.nodes[p], p, msg)];
            && Enabled(net', Hear(q, rs)) && q in Apply(net', Hear(q, rs)).nodes
            && LogOf(Apply(net', Hear(q, rs)).nodes[q], p) == Told(net', p)
            && Payloads(Told(net', p)) == Payloads(Told(net, p)) + [msg]
  {
    var net', rs := Apply(net, Tell(p, msg)), [NextOwn(net.nodes[p], p, msg)];
    assert OriginOk(net.nodes[p], p) && OriginOk(net.nodes[q], p);
    assert HearAll(net'.nodes[q], rs) == HearOne(net'.nodes[q], rs[0]) by {
      assert rs[1..] == [];
    }
  }

  // ----------------------------------------------------------------- anti-entropy

  lemma {:induction false} HearConcat(n: Node, a: seq<Rumor>, b: seq<Rumor>)
    ensures HearAll(n, a + b) == HearAll(HearAll(n, a), b)
    decreases |a|
  {
    if a == [] {
      assert a + b == b;
    } else {
      assert (a + b)[1..] == a[1..] + b;
      HearConcat(HearOne(n, a[0]), a[1..], b);
    }
  }

  /** Padding is never accepted. */
  lemma {:induction false} HearPadding(n: Node, k: nat)
    ensures HearAll(n, Padding(k)) == n
  {
    if k > 0 {
      assert Padding(k)[1..] == Padding(k - 1);
      HearPadding(n, k - 1);
    }
  }

  ghost predicate Continues(n: Node, o: Addr, run: seq<Rumor>) {
    forall i {:trigger run[i]} ::
      0 <= i < |run| ==> run[i].origin == o && run[i].sequence == Last(n.seqs, o) + 1 + i
  }

  /** The next rumors of one origin are all accepted, and say nothing about other origins. */
  lemma {:induction false} HearRun(n: Node, o: Addr, run: seq<Rumor>)
    requires Continues(n, o, run)
    ensures HearAll(n, run).done == n.done + run
    ensures forall q :: Last(HearAll(n, run).seqs, q) == Last(n.seqs, q) + if q == o then |run| else 0
    decreases |run|
  {
    if run != [] {
      HearRun(HearOne(n, run[0]), o, run[1..]);
      assert n.done + run == (n.done + [run[0]]) + run[1..];
    }
  }

  lemma AheadContinues(sender: Node, view: View, n: Node, o: Addr, k: nat)
    requires NodeOk(sender) && Last(n.seqs, o) == Last(view, o) && k <= |Ahead(sender, view, o)|
    ensures Continues(n, o, Ahead(sender, view, o)[..k])
  {
    assert OriginOk(sender, o);
  }

  ghost predicate Reported(n: Node, view: View, order: seq<Addr>) {
    forall i :: 0 <= i < |order| ==> Last(n.seqs, order[i]) == Last(view, order[i])
  }

  /** The missing rumors of the first origin are accepted and leave the rest as reported. */
  lemma HeadAccepted(sender: Node, view: View, n: Node, order: seq<Addr>)
    requires NodeOk(sender) && order != [] && (forall i, j :: 0 <= i < j < |order| ==> order[i] != order[j])
    requires Reported(n, view, order)
    ensures var n' := HearAll(n, Ahead(sender, view, order[0]));
            n'.done == n.done + Ahead(sender, view, order[0]) && Reported(n', view, order[1..])
  {
    var head := Ahead(sender, view, order[0]);
    assert head[..|head|] == head;
    AheadContinues(sender, view, n, order[0], |head|);
    HearRun(n, order[0], head);
  }

  /** Any first part of the missing rumors is accepted in full, whatever the order of the origins. */
  lemma {:induction false} AllAccepted(sender: Node, view: View, n: Node, order: seq<Addr>, k: nat)
    requires NodeOk(sender) && (forall i, j :: 0 <= i < j < |order| ==> order[i] != order[j])
    requires Reported(n, view, order) && k <= |AllAhead(sender, view, order)|
    ensures HearAll(n, AllAhead(sender, view, order)[..k]).done == n.done + AllAhead(sender, view, order)[..k]
    decreases |order|
  {
    if order != [] {
      var head, tail := Ahead(sender, view, order[0]), AllAhead(sender, view, order[1..]);
      assert AllAhead(sender, view, order) == head + tail;
      if k <= |head| {
        assert (head + tail)[..k] == head[..k];
        AheadContinues(sender, view, n, order[0], k);
        HearRun(n, order[0], head[..k]);
      } else {
        var rest := tail[..k - |head|];
        assert (head + tail)[..k] == head + rest;
        HeadAccepted(sender, view, n, order);
        HearConcat(n, head, rest);
        AllAccepted(sender, view, HearAll(n, head), order[1..], k - |head|);
        assert n.done + (head + rest) == (n.done + head) + rest;
      }
    }
  }

  function Gap(mine: View, other: View, o: Addr): (k: nat) {
    if Last(other, o) < Last(mine, o) then Last(mine, o) - Last(other, o) else 0
  }

  ghost function Gaps(mine: View, other: View): (f: Addr -> int) {
    o => Gap(mine, other, o)
  }

  /** How many rumors the other node is missing. */
  ghost function Missing(mine: View, other: View): (k: int) {
    Sum(mine.Keys, Gaps(mine, other))
  }

  lemma {:induction false} AheadCounts(n: Node, other: View, order: seq<Addr>, s: set<Addr>)
    requires NodeOk(n) && Lists(order, s)
    ensures |AllAhead(n, other, order)| == Sum(s, Gaps(n.seqs, other))
    decreases |order|
  {
    if order == [] {
      assert s == {};
    } else {
      var o := order[0];
      assert o in order && OriginOk(n, o);
      SumTakeOut(s, Gaps(n.seqs, other), o);
      forall q ensures q in order[1..] <==> q in s - {o} {
        if q in s && q != o {
          var i :| 0 <= i < |order| && order[i] == q;
          assert order[1..][i - 1] == q;
        }
      }
      AheadCounts(n, other, order[1..], s - {o});
    }
  }

  /** Origins that are not ahead add nothing. */
  lemma {:induction false} OnlyAheadCounts(s: set<Addr>, t: set<Addr>, f: Addr -> int)
    requires s <= t && forall o :: o in t - s ==> f(o) == 0
    ensures Sum(s, f) == Sum(t, f)
    decreases |t|
  {
    if o :| o in t && o !in s {
      SumTakeOut(t, f, o);
      OnlyAheadCounts(s, t - {o}, f);
    } else {
      assert s == t;
    }
  }

  /** The reply to a status message. */
  function ReplyTo(sender: Node, other: View, order: seq<Addr>): (rs: seq<Rumor>) {
    FirstTen(AllAhead(sender, other, order))
  }

  function Min(a: int, b: int): (r: int) {
    if a < b then a else b
  }

  lemma ReplyWithoutPadding(sender: Node, n: Node, order: seq<Addr>)
    ensures var missing := AllAhead(sender, n.seqs, order);
            HearAll(n, ReplyTo(sender, n.seqs, order)) == HearAll(n, missing[..Min(REPLY_SIZE, |missing|)])
  {
    var missing := AllAhead(sender, n.seqs, order);
    if |missing| < REPLY_SIZE {
      assert missing[..|missing|] == missing;
      HearConcat(n, missing, Padding(REPLY_SIZE - |missing|));
      HearPadding(HearAll(n, missing), REPLY_SIZE - |missing|);
    }
  }

  /**
    Progress of anti-entropy: a receiver that still has the view it reported accepts exactly the
    first ten missing rumors, or all of them if there are fewer, and none of the padding.
   */
  lemma AntiEntropyProgress(sender: Node, receiver: Node, order: seq<Addr>)
    requires NodeOk(sender) && Lists(order, OriginsAhead(sender, receiver.seqs))
    ensures var missing := AllAhead(sender, receiver.seqs, order);
            && |missing| == Missing(sender.seqs, receiver.seqs)
            && HearAll(receiver, ReplyTo(sender, receiver.seqs, order)).done
               == receiver.done + missing[..Min(10, |missing|)]
  {
    var missing := AllAhead(sender, receiver.seqs, order);
    AheadCounts(sender, receiver.seqs, order, OriginsAhead(sender, receiver.seqs));
    OnlyAheadCounts(OriginsAhead(sender, receiver.seqs), sender.seqs.Keys, Gaps(sender.seqs, receiver.seqs));
    var k := Min(REPLY_SIZE, |missing|);
    AllAccepted(sender, receiver.seqs, receiver, order, k);
    ReplyWithoutPadding(sender, receiver, order);
  }

  lemma {:induction false} DoneIsBounded(n: Node, rs: seq<Rumor>)
    ensures |HearAll(n, rs).done| <= |n.done| + |rs|
    decreases |rs|
  {
    if rs != [] {
      DoneIsBounded(HearOne(n, rs[0]), rs[1..]);
    }
  }

  ghost predicate Covers(mine: View, r: Rumor) {
    r.origin in mine && r.sequence <= mine[r.origin]
  }

  lemma OneFewerMissing(mine: View, n: Node, r: Rumor)
    requires Expected(n, r) && Covers(mine, r)
    ensures Missing(mine, Record(n, r).seqs) == Missing(mine, n.seqs) - 1
  {
    SumChange(mine.Keys, Gaps(mine, n.seqs), Gaps(mine, Record(n, r).seqs), r.origin);
  }

  /** Each accepted rumor of the sender's leaves one fewer missing. */
  lemma {:induction false} AcceptedCloseGaps(mine: View, n: Node, rs: seq<Rumor>)
    requires |HearAll(n, rs).done| == |n.done| + |rs|
    requires forall i :: 0 <= i < |rs| ==> Covers(mine, rs[i])
    ensures Missing(mine, HearAll(n, rs).seqs) == Missing(mine, n.seqs) - |rs|
    decreases |rs|
  {
    if rs != [] {
      DoneIsBounded(HearOne(n, rs[0]), rs[1..]);
      OneFewerMissing(mine, n, rs[0]);
      AcceptedCloseGaps(mine, HearOne(n, rs[0]), rs[1..]);
    }
  }

  lemma {:induction false} AheadIsMine(n: Node, other: View, order: seq<Addr>, k: nat)
    requires NodeOk(n) && k < |AllAhead(n, other, order)|
    ensures Covers(n.seqs, AllAhead(n, other, order)[k])
    decreases |order|
  {
    var head, tail := Ahead(n, other, order[0]), AllAhead(n, other, order[1..]);
    assert AllAhead(n, other, order) == head + tail;
    if k < |head| {
      assert OriginOk(n, order[0]);
      assert (head + tail)[k] == LogOf(n, order[0])[Last(other, order[0]) + k];
    } else {
      assert (head + tail)[k] == tail[k - |head|];
      AheadIsMine(n, other, order[1..], k - |head|);
    }
  }

  lemma ReplyClosesGaps(sender: Node, n: Node, order: seq<Addr>)
    requires NodeOk(sender) && Lists(order, OriginsAhead(sender, n.seqs))
    ensures var before := Missing(sender.seqs, n.seqs);
            Missing(sender.seqs, HearAll(n, ReplyTo(sender, n.seqs, order)).seqs) == before - Min(10, before)
  {
    var missing := AllAhead(sender, n.seqs, order);
    AntiEntropyProgress(sender, n, order);
    ReplyWithoutPadding(sender, n, order);
    var accepted := missing[..Min(REPLY_SIZE, |missing|)];
    forall i | 0 <= i < |accepted| ensures Covers(sender.seqs, accepted[i]) {
      AheadIsMine(sender, n.seqs, order, i);
    }
    AcceptedCloseGaps(sender.seqs, n, accepted);
  }

  /** Rounds of status and reply between two nodes, each with its own order of the origins. */
  ghost predicate Rounds(sender: Node, n: Node, orders: seq<seq<Addr>>)
    decreases |orders|
  {
    orders == [] ||
    (&& Lists(orders[0], OriginsAhead(sender, n.seqs))
     && Rounds(sender, HearAll(n, ReplyTo(sender, n.seqs, orders[0])), orders[1..]))
  }

  function AfterRounds(sender: Node, n: Node, orders: seq<seq<Addr>>): (n': Node)
    decreases |orders|
  {
    if orders == [] then n else AfterRounds(sender, HearAll(n, ReplyTo(sender, n.seqs, orders[0])), orders[1..])
  }

  /** Every round delivers ten missing rumors until none is missing. */
  lemma {:induction false} RoundsCloseGaps(sender: Node, n: Node, orders: seq<seq<Addr>>)
    requires NodeOk(sender) && Rounds(sender, n, orders)
    ensures var before := Missing(sender.seqs, n.seqs);
            Missing(sender.seqs, AfterRounds(sender, n, orders).seqs) == before - Min(10 * |orders|, before)
    decreases |orders|
  {
    SumNonNegative(sender.seqs.Keys, Gaps(sender.seqs, n.seqs));
    if orders != [] {
      var n' := HearAll(n, ReplyTo(sender, n.seqs, orders[0]));
      ReplyClosesGaps(sender, n, orders[0]);
      RoundsCloseGaps(sender, n', orders[1..]);
    }
  }

  lemma NothingMissing(mine: View, other: View, o: Addr)
    requires Missing(mine, other) == 0
    ensures Last(mine, o) <= Last(other, o)
  {
    if o in mine {
      SumTakeOut(mine.Keys, Gaps(mine, other), o);
      SumNonNegative(mine.Keys - {o}, Gaps(mine, other));
    }
  }

  /** Anti-entropy completes: a tenth as many rounds as rumors are missing bring the whole of the sender's logs. */
  lemma AntiEntropyCompletes(sender: Node, n: Node, orders: seq<seq<Addr>>, o: Addr)
    requires NodeOk(sender) && Rounds(sender, n, orders)
    requires 10 * |orders| >= Missing(sender.seqs, n.seqs)
    ensures Last(sender.seqs, o) <= Last(AfterRounds(sender, n, orders).seqs, o)
  {
    RoundsCloseGaps(sender, n, orders);
    NothingMissing(sender.seqs, AfterRounds(sender, n, orders).seqs, o);
  }
}
