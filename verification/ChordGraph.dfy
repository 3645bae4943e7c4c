/**
  The successor graph of a Chord ring, apart from messages and steps: what it means to follow
  successors from one node to another without overshooting, which pointer changes keep that
  relation, and why a settled graph is one ordered ring.
 */
module ChordGraph {
  import opened Circle

  type Links = map<Id, Id>

  /** The successor of `x`. Naming it keeps the solver from following links on its own. */
  ghost function Next(succ: Links, x: Id): (y: Id)
    requires x in succ
  {
    succ[x]
  }

  /** Successors are nodes. */
  ghost predicate Total(succ: Links) {
    forall x {:trigger Next(succ, x)} :: x in succ ==> Next(succ, x) in succ
  }

  /** Every node has a successor, in the graph, on the circle, and other than itself. */
  ghost predicate Closed(size: nat, succ: Links) {
    && Total(succ)
    && (forall x :: x in succ ==> x < size)
    && forall x {:trigger Next(succ, x)} :: x in succ ==> Next(succ, x) < size && Next(succ, x) != x
  }

  /** Following successors from `x` arrives at `y` without going past it. */
  ghost predicate Reaches(size: nat, succ: Links, x: Id, y: Id)
    requires Closed(size, succ) && x in succ && y in succ
    decreases Dist(size, x, y)
  {
    x == y || (Dist(size, x, Next(succ, x)) <= Dist(size, x, y) && Reaches(size, succ, Next(succ, x), y))
  }

  /** Following `k` successors from `x`. */
  ghost function Walk(succ: Links, x: Id, k: nat): (y: Id)
    requires Total(succ)
    requires x in succ
    ensures y in succ
    decreases k
  {
    if k == 0 then x else Walk(succ, Next(succ, x), k - 1)
  }

  /** Following successors from `x` arrives at `y`, possibly after going past it. */
  ghost predicate Leads(succ: Links, x: Id, y: Id)
    requires Total(succ)
    requires x in succ
  {
    exists k :: Walk(succ, x, k) == y
  }

  lemma {:induction false} WalkAdds(succ: Links, x: Id, j: nat, k: nat)
    requires Total(succ)
    requires x in succ
    ensures Walk(succ, x, j + k) == Walk(succ, Walk(succ, x, j), k)
    decreases j
  {
    if j > 0 {
      WalkAdds(succ, Next(succ, x), j - 1, k);
    }
  }

  lemma NextLeads(succ: Links, x: Id)
    requires Total(succ) && x in succ
    ensures Leads(succ, x, Next(succ, x))
  {
    assert Walk(succ, Next(succ, x), 0) == Next(succ, x);
    assert Walk(succ, x, 1) == Next(succ, x);
  }

  lemma LeadsTransitive(succ: Links, x: Id, y: Id, z: Id)
    requires Total(succ)
    requires x in succ && y in succ
    requires Leads(succ, x, y) && Leads(succ, y, z)
    ensures Leads(succ, x, z)
  {
    var j :| Walk(succ, x, j) == y;
    var k :| Walk(succ, y, k) == z;
    WalkAdds(succ, x, j, k);
  }

  lemma {:induction false} ReachesLeads(size: nat, succ: Links, x: Id, y: Id)
    requires Closed(size, succ) && x in succ && y in succ
    requires Reaches(size, succ, x, y)
    ensures Leads(succ, x, y)
    decreases Dist(size, x, y)
  {
    if x == y {
      assert Walk(succ, x, 0) == y;
    } else {
      ReachesLeads(size, succ, Next(succ, x), y);
      NextLeads(succ, x);
      LeadsTransitive(succ, x, Next(succ, x), y);
    }
  }

  lemma {:induction false} ReachesTransitive(size: nat, succ: Links, x: Id, y: Id, z: Id)
    requires Closed(size, succ) && x in succ && y in succ && z in succ
    requires Reaches(size, succ, x, y) && Reaches(size, succ, y, z)
    requires Dist(size, x, y) <= Dist(size, x, z)
    ensures Reaches(size, succ, x, z)
    decreases Dist(size, x, y)
  {
    if x != y {
      DistAdds(size, x, Next(succ, x), y);
      DistAdds(size, x, Next(succ, x), z);
      ReachesTransitive(size, succ, Next(succ, x), y, z);
    }
  }

  // ------------------------------------------------------------ pointer changes

  /** Linking `x`, old or new, to a node of the graph keeps it closed and every other link in place. */
  lemma LinkCloses(size: nat, succ: Links, x: Id, s: Id)
    requires Closed(size, succ) && x < size && s in succ && s != x
    ensures Closed(size, succ[x := s]) && Next(succ[x := s], x) == s
    ensures forall y {:trigger Next(succ[x := s], y)} :: y in succ && y != x ==> Next(succ[x := s], y) == Next(succ, y)
  {
    var succ' := succ[x := s];
    forall y {:trigger Next(succ', y)} | y in succ'
      ensures Next(succ', y) in succ' && Next(succ', y) < size && Next(succ', y) != y
    {
      if y != x {
        assert Next(succ', y) == Next(succ, y);
      }
    }
  }

  /** A node that joins, pointing at any member, disturbs no existing path. */
  lemma {:induction false} JoinKeepsReaches(size: nat, succ: Links, n: Id, s: Id, x: Id, y: Id)
    requires Closed(size, succ) && n < size && n !in succ && s in succ
    requires x in succ && y in succ
    requires Reaches(size, succ, x, y)
    ensures Closed(size, succ[n := s])
    ensures Reaches(size, succ[n := s], x, y)
    decreases Dist(size, x, y)
  {
    LinkCloses(size, succ, n, s);
    if x != y {
      assert Next(succ[n := s], x) == Next(succ, x);
      JoinKeepsReaches(size, succ, n, s, Next(succ, x), y);
    }
  }

  lemma {:induction false} JoinKeepsWalk(succ: Links, n: Id, s: Id, x: Id, k: nat)
    requires Total(succ) && Total(succ[n := s])
    requires n !in succ && s in succ && x in succ
    ensures Walk(succ[n := s], x, k) == Walk(succ, x, k)
    decreases k
  {
    if k > 0 {
      assert Next(succ[n := s], x) == Next(succ, x);
      JoinKeepsWalk(succ, n, s, Next(succ, x), k - 1);
    }
  }

  /** A path that stays clear of `x` is unaffected by a change of the successor of `x`. */
  lemma {:induction false} ClearPathKept(size: nat, succ: Links, x: Id, p: Id, u: Id, v: Id)
    requires Closed(size, succ) && x in succ && p in succ && p != x && u in succ && v in succ
    requires Reaches(size, succ, u, v)
    requires Dist(size, u, v) < Dist(size, u, x) || u == v
    ensures Closed(size, succ[x := p])
    ensures Reaches(size, succ[x := p], u, v)
    decreases Dist(size, u, v)
  {
    LinkCloses(size, succ, x, p);
    if u != v {
      assert u == x || Next(succ[x := p], u) == Next(succ, u);
      DistAdds(size, u, Next(succ, u), v);
      DistAdds(size, u, Next(succ, u), x);
      ClearPathKept(size, succ, x, p, Next(succ, u), v);
    }
  }

  /**
    The key step: when `x` replaces its successor by a node in between from which the old
    successor can be reached, every path without overshooting survives.
   */
  lemma {:induction false} AdoptKeepsReaches(size: nat, succ: Links, x: Id, p: Id, u: Id, v: Id)
    requires Closed(size, succ) && x in succ && p in succ && u in succ && v in succ
    requires Between(p, x, Next(succ, x)) && Reaches(size, succ, p, Next(succ, x))
    requires Reaches(size, succ, u, v)
    ensures Closed(size, succ[x := p])
    ensures Reaches(size, succ[x := p], u, v)
    decreases Dist(size, u, v)
  {
    BetweenIsDistance(size, p, x, Next(succ, x));
    LinkCloses(size, succ, x, p);
    if u != v {
      assert u == x || Next(succ[x := p], u) == Next(succ, u);
      AdoptKeepsReaches(size, succ, x, p, Next(succ, u), v);
      if u == x {
        var s, succ' := Next(succ, x), succ[x := p];
        DistAdds(size, x, p, s);
        DistAdds(size, x, s, v);
        DistAdds(size, x, p, v);
        DistRoundTrip(size, x, p);
        DistRoundTrip(size, x, s);
        ClearPathKept(size, succ, x, p, p, s);
        assert Dist(size, p, s) <= Dist(size, p, v);
        ReachesTransitive(size, succ', p, s, v);
      }
    }
  }

  lemma {:induction false} AdoptKeepsLeads(size: nat, succ: Links, x: Id, p: Id, u: Id, k: nat)
    requires Closed(size, succ) && x in succ && p in succ && u in succ
    requires Between(p, x, Next(succ, x)) && Reaches(size, succ, p, Next(succ, x))
    ensures Closed(size, succ[x := p])
    ensures Leads(succ[x := p], u, Walk(succ, u, k))
    decreases k
  {
    var succ' := succ[x := p];
    BetweenIsDistance(size, p, x, Next(succ, x));
    LinkCloses(size, succ, x, p);
    if k == 0 {
      assert Walk(succ', u, 0) == u;
    } else {
      AdoptKeepsLeads(size, succ, x, p, Next(succ, u), k - 1);
      NextLeads(succ', u);
      if u == x {
        AdoptKeepsReaches(size, succ, x, p, p, Next(succ, x));
        ReachesLeads(size, succ', p, Next(succ, x));
        LeadsTransitive(succ', u, p, Next(succ, x));
      }
      LeadsTransitive(succ', u, Next(succ, u), Walk(succ, u, k));
    }
  }

  // ------------------------------------------------------------- settled graphs

  /** Everybody's successor has recorded them as its predecessor. */
  ghost predicate Settled(succ: Links, pred: Links) {
    forall x {:trigger Next(succ, x)} :: x in succ ==> Next(succ, x) in pred && pred[Next(succ, x)] == x
  }

  /** Nobody sits between a node and its successor: the members form one ordered ring. */
  ghost predicate Ordered(succ: Links) {
    forall x, m {:trigger Between(m, x, Next(succ, x))} :: x in succ && m in succ ==> !Between(m, x, Next(succ, x))
  }

  /** The last stop before `y` on a path from `x`. */
  lemma {:induction false} LastStop(size: nat, succ: Links, x: Id, y: Id) returns (z: Id)
    requires Closed(size, succ) && x in succ && y in succ && x != y
    requires Reaches(size, succ, x, y)
    ensures z in succ && Next(succ, z) == y
    ensures Reaches(size, succ, x, z)
    ensures Dist(size, x, z) + Dist(size, z, y) == Dist(size, x, y)
    decreases Dist(size, x, y)
  {
    if Next(succ, x) == y {
      z := x;
    } else {
      DistAdds(size, x, Next(succ, x), y);
      z := LastStop(size, succ, Next(succ, x), y);
      DistAdds(size, Next(succ, x), z, y);
      assert Dist(size, x, Next(succ, x)) + Dist(size, Next(succ, x), z) < size;
      assert Dist(size, x, Next(succ, x)) <= Dist(size, x, z);
    }
  }

  /** Two nodes on the same path from `a` are on each other's path in order of distance. */
  lemma {:induction false} SamePath(size: nat, succ: Links, a: Id, x: Id, m: Id)
    requires Closed(size, succ) && a in succ && x in succ && m in succ
    requires Reaches(size, succ, a, x) && Reaches(size, succ, a, m)
    requires Dist(size, a, x) <= Dist(size, a, m)
    ensures Reaches(size, succ, x, m)
    decreases Dist(size, a, x)
  {
    if a != x {
      DistAdds(size, a, Next(succ, a), x);
      DistAdds(size, a, Next(succ, a), m);
      SamePath(size, succ, Next(succ, a), x, m);
    }
  }

  /** Two nodes that reach each other, as the founders do. */
  ghost predicate Mutual(size: nat, succ: Links, a: Id, b: Id)
    requires Closed(size, succ)
  {
    && a in succ && b in succ && a != b
    && Reaches(size, succ, a, b) && Reaches(size, succ, b, a)
  }

  /** In a settled graph, whoever leads to `a` is reached from `a` without overshooting. */
  lemma {:induction false} SettledReach(size: nat, succ: Links, pred: Links, a: Id, b: Id, x: Id, k: nat)
    requires Closed(size, succ) && Mutual(size, succ, a, b) && Settled(succ, pred)
    requires x in succ && Walk(succ, x, k) == a
    ensures Reaches(size, succ, a, x)
    decreases k
  {
    if k > 0 && x != a {
      var y := Next(succ, x);
      SettledReach(size, succ, pred, a, b, y, k - 1);
      if y != a {
        var z := LastStop(size, succ, a, y);
      } else {
        var z := LastStop(size, succ, b, a);
        assert z == x;
        DistRoundTrip(size, a, b);
        DistRoundTrip(size, a, x);
        assert Dist(size, a, b) <= Dist(size, a, x);
        ReachesTransitive(size, succ, a, b, x);
      }
    }
  }

  ghost predicate AllLeadTo(succ: Links, a: Id)
    requires Total(succ)
  {
    forall x :: x in succ ==> Leads(succ, x, a)
  }

  ghost predicate AllReachedFrom(size: nat, succ: Links, a: Id)
    requires Closed(size, succ) && a in succ
  {
    forall x :: x in succ ==> Reaches(size, succ, a, x)
  }

  /** A settled graph in which everybody leads to a founder is one ordered ring. */
  lemma SettledIsOrdered(size: nat, succ: Links, pred: Links, a: Id, b: Id)
    requires Closed(size, succ) && Mutual(size, succ, a, b) && Settled(succ, pred)
    requires AllLeadTo(succ, a)
    ensures Ordered(succ)
    ensures forall y :: y in succ ==> IsInverseAt(succ, pred, y)
  {
    SettledAllReached(size, succ, pred, a, b);
    forall y | y in succ ensures IsInverseAt(succ, pred, y) {
      SettledInverse(size, succ, pred, a, b, y);
    }
    ReachedIsOrdered(size, succ, pred, a);
  }

  lemma ReachedIsOrdered(size: nat, succ: Links, pred: Links, a: Id)
    requires Closed(size, succ) && Settled(succ, pred) && a in succ && AllReachedFrom(size, succ, a)
    ensures Ordered(succ)
  {
    forall x, m | x in succ && m in succ ensures !Between(m, x, Next(succ, x)) {
      assert Next(succ, x) in succ;
      NobodyBetween(size, succ, pred, a, x, m);
    }
  }

  /** `y` has a recorded predecessor, whose successor is `y`. */
  ghost predicate IsInverseAt(succ: Links, pred: Links, y: Id) {
    y in pred && pred[y] in succ && Next(succ, pred[y]) == y
  }

  lemma SettledAllReached(size: nat, succ: Links, pred: Links, a: Id, b: Id)
    requires Closed(size, succ) && Mutual(size, succ, a, b) && Settled(succ, pred)
    requires AllLeadTo(succ, a)
    ensures AllReachedFrom(size, succ, a)
  {
    forall x | x in succ ensures Reaches(size, succ, a, x) {
      var k :| Walk(succ, x, k) == a;
      SettledReach(size, succ, pred, a, b, x, k);
    }
  }

  lemma SettledInverse(size: nat, succ: Links, pred: Links, a: Id, b: Id, y: Id)
    requires Closed(size, succ) && Mutual(size, succ, a, b) && Settled(succ, pred)
    requires y in succ && Reaches(size, succ, a, y)
    ensures IsInverseAt(succ, pred, y)
  {
    var z := LastStop(size, succ, if y == a then b else a, y);
  }

  lemma NobodyBetween(size: nat, succ: Links, pred: Links, a: Id, x: Id, m: Id)
    requires Closed(size, succ) && Settled(succ, pred) && a in succ && x in succ && m in succ
    requires Reaches(size, succ, a, x) && Reaches(size, succ, a, m) && Reaches(size, succ, a, Next(succ, x))
    ensures !Between(m, x, Next(succ, x))
  {
    var y := Next(succ, x);
    BetweenIsDistance(size, m, x, y);
    if Dist(size, a, x) <= Dist(size, a, m) {
      SamePath(size, succ, a, x, m);
    } else if a != y {
      var z := LastStop(size, succ, a, y);
      assert z == x;
      DistAdds(size, a, m, x);
    } else {
      DistAdds(size, a, m, x);
      DistRoundTrip(size, a, x);
    }
  }
}
