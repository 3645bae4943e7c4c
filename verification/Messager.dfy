/**
  The messaging object of a peer (peer/impl/messaging.go, peer/impl/handler.go): its neighbours,
  its routes and its rumor logs, updated in place.
 */
module Messager {
  import opened Gossip

  datatype Reply =
    | SendRumors(rs: seq<Rumor>)
    | SendStatus
    | SameView

  /** A list without the entries that occur in another. */
  function Except(s: seq<Addr>, excepts: seq<Addr>): (r: seq<Addr>) {
    if s == [] then []
    else
      var n := |s| - 1;
      Except(s[..n], excepts) + if s[n] in excepts then [] else [s[n]]
  }

  /** Exactly the entries that do not occur in the other list are kept, as often as before. */
  lemma {:induction false} ExceptKeeps(s: seq<Addr>, excepts: seq<Addr>, x: Addr)
    ensures multiset(Except(s, excepts))[x] == if x in excepts then 0 else multiset(s)[x]
    decreases |s|
  {
    if s != [] {
      var n := |s| - 1;
      ExceptKeeps(s[..n], excepts, x);
      assert s == s[..n] + [s[n]];
    }
  }

  /** Before in the list. */
  ghost predicate ComesBefore(s: seq<Addr>, x: Addr, y: Addr) {
    exists i, j :: 0 <= i < j < |s| && s[i] == x && s[j] == y
  }

  /** What is kept is in the order it was. */
  lemma {:induction false} ExceptKeepsOrder(s: seq<Addr>, excepts: seq<Addr>, x: Addr, y: Addr)
    requires ComesBefore(Except(s, excepts), x, y)
    ensures ComesBefore(s, x, y)
    decreases |s|
  {
    var n := |s| - 1;
    var r := Except(s[..n], excepts);
    var i, j :| 0 <= i < j < |Except(s, excepts)| && Except(s, excepts)[i] == x && Except(s, excepts)[j] == y;
    if j < |r| {
      assert r[i] == x && r[j] == y;
      ExceptKeepsOrder(s[..n], excepts, x, y);
      var k, l :| 0 <= k < l < n && s[..n][k] == x && s[..n][l] == y;
      assert s[k] == x && s[l] == y;
    } else {
      ExceptKeeps(s[..n], excepts, x);
      assert x in multiset(r) by { assert r[i] == x; }
      assert x in s[..n];
      var k :| 0 <= k < n && s[..n][k] == x;
      assert s[k] == x && s[n] == y;
    }
  }

  class Messager {
    const addr: Addr
    var neighbors: seq<Addr>
    var neighborSet: set<Addr>
    var route: map<Addr, Addr>
    var seqs: View
    var rumors: map<Addr, seq<Rumor>>
    var done: seq<Rumor>

    ghost function Log(): (n: Node)
      reads this
    {
      Node(seqs, rumors, done)
    }

    /** The neighbours are distinct and exclude the node itself. */
    ghost predicate Valid()
      reads this
    {
      && (forall i, j :: 0 <= i < j < |neighbors| ==> neighbors[i] != neighbors[j])
      && (forall a :: a in neighborSet <==> a in neighbors)
      && addr !in neighbors
    }

    constructor (addr: Addr)
      ensures this.addr == addr && Valid() && neighbors == [] && Log() == EMPTY
      ensures route == map[addr := addr]
    {
      this.addr := addr;
      neighbors, neighborSet, route := [], {}, map[addr := addr];
      seqs, rumors, done := map[], map[], [];
    }

    /** Adds neighbours with a direct route each; the node itself is never its own neighbour. */
    method AddPeer(addrs: seq<Addr>)
      requires Valid()
      modifies this`neighbors, this`neighborSet, this`route
      ensures Valid() && old(neighbors) <= neighbors
      ensures forall a :: a in neighbors <==> a in old(neighbors) || (a in addrs && a != addr)
      ensures forall a :: a in addrs ==> a in route && route[a] == a
      ensures forall a :: a !in addrs ==> (a in route <==> a in old(route)) && (a in route ==> route[a] == old(route)[a])
    {
      for i := 0 to |addrs|
        invariant Valid() && old(neighbors) <= neighbors
        invariant forall a :: a in neighbors <==> a in old(neighbors) || (a in addrs[..i] && a != addr)
        invariant forall a :: a in addrs[..i] ==> a in route && route[a] == a
        invariant forall a :: a !in addrs[..i] ==>
                    (a in route <==> a in old(route)) && (a in route ==> route[a] == old(route)[a])
      {
        route := route[addrs[i] := addrs[i]];
        if addrs[i] !in neighborSet && addrs[i] != addr {
          neighborSet := neighborSet + {addrs[i]};
          neighbors := neighbors + [addrs[i]];
        }
        assert addrs[..i + 1] == addrs[..i] + [addrs[i]];
      }
      assert addrs[..|addrs|] == addrs;
    }

    /** The neighbours without the given ones, in order and still distinct. */
    method GetNeisExcept(excepts: seq<Addr>) returns (ret: seq<Addr>)
      requires Valid()
      ensures ret == Except(neighbors, excepts)
      ensures forall i, j :: 0 <= i < j < |ret| ==> ret[i] != ret[j]
    {
      ret := [];
      for i := 0 to |neighbors|
        invariant ret == Except(neighbors[..i], excepts)
        invariant forall a :: a in ret ==> a in neighbors[..i]
        invariant forall k, j :: 0 <= k < j < |ret| ==> ret[k] != ret[j]
      {
        var filtered := false;
        for k := 0 to |excepts|
          invariant filtered <==> neighbors[i] in excepts[..k]
        {
          if excepts[k] == neighbors[i] {
            filtered := true;
            assert excepts[k] in excepts[..k + 1];
            break;
          }
          assert excepts[..k + 1] == excepts[..k] + [excepts[k]];
        }
        assert filtered <==> neighbors[i] in excepts;
        assert neighbors[i] !in neighbors[..i];
        if !filtered {
          ret := ret + [neighbors[i]];
        }
        assert neighbors[..i + 1][..i] == neighbors[..i];
      }
      assert neighbors[..|neighbors|] == neighbors;
    }

    /** Numbers a new rumor, logs it, and processes its message locally. */
    method Broadcast(msg: Payload) returns (ru: Rumor)
      requires addr in seqs <==> addr in rumors
      modifies this`seqs, this`rumors, this`done
      ensures ru == NextOwn(old(Log()), addr, msg) && Log() == Record(old(Log()), ru)
    {
      ghost var seqsBefore, rumorsBefore := seqs, rumors;
      if addr !in seqs {
        seqs := seqs[addr := 0];
        rumors := rumors[addr := []];
      }
      var seqNo := seqs[addr] + 1;
      seqs := seqs[addr := seqNo];
      ru := Rumor(addr, seqNo, msg);
      rumors := rumors[addr := rumors[addr] + [ru]];
      done := done + [ru];
      assert seqs == seqsBefore[addr := seqNo];
      assert rumors == rumorsBefore[addr := (if addr in rumorsBefore then rumorsBefore[addr] else []) + [ru]];
    }

    /** One rumor of a list: accepted if it is the next of its origin. */
    method Accept(rumor: Rumor) returns (expected: bool)
      requires NodeOk(Log())
      modifies this`seqs, this`rumors, this`done
      ensures NodeOk(Log())
      ensures expected == Expected(old(Log()), rumor) && Log() == HearOne(old(Log()), rumor)
    {
      assert OriginOk(Log(), rumor.origin);
      HearOneKeeps(Log(), rumor);
      expected := false;
      if rumor.origin in seqs {
        if seqs[rumor.origin] + 1 == rumor.sequence {
          expected := true;
          seqs := seqs[rumor.origin := rumor.sequence];
          rumors := rumors[rumor.origin := rumors[rumor.origin] + [rumor]];
        }
      } else {
        if rumor.sequence == 1 {
          expected := true;
          seqs := seqs[rumor.origin := 1];
          rumors := rumors[rumor.origin := [rumor]];
          assert [rumor] == [] + [rumor];
        }
      }
      if expected {
        done := done + [rumor];
      }
    }

    /** The rumors of a message, in order; something is new if any of them was accepted. */
    method RumorsMsgCallback(list: seq<Rumor>, relayedBy: Addr) returns (isNew: bool)
      requires NodeOk(Log())
      modifies this`seqs, this`rumors, this`done, this`route
      ensures NodeOk(Log()) && Log() == HearAll(old(Log()), list)
      ensures isNew <==> |done| > |old(done)|
    {
      isNew := false;
      for i := 0 to |list|
        invariant NodeOk(Log()) && HearAll(Log(), list[i..]) == HearAll(old(Log()), list)
        invariant |done| >= |old(done)| && (isNew <==> |done| > |old(done)|)
      {
        assert list[i..][1..] == list[i + 1..];
        var expected := Accept(list[i]);
        if !expected {
          continue;
        }
        isNew := true;
        route := if relayedBy == "" then route - {list[i].origin} else route[list[i].origin := relayedBy];
      }
    }

    /** Compares the own view with the other's: what the other is missing, and whether it is ahead somewhere. */
    method CompareMine(otherView: View) returns (meExceptOther: map<Addr, seq<Rumor>>, otherExceptMe: bool)
      requires NodeOk(Log())
      ensures meExceptOther.Keys == OriginsAhead(Log(), otherView)
      ensures forall o :: o in meExceptOther ==> meExceptOther[o] == Ahead(Log(), otherView, o)
      ensures otherExceptMe <==> exists o :: o in seqs && seqs[o] < Last(otherView, o)
    {
      meExceptOther, otherExceptMe := map[], false;
      ghost var n := Log();
      var todo := seqs.Keys;
      while todo != {}
        invariant todo <= seqs.Keys
        invariant meExceptOther.Keys == OriginsAhead(n, otherView) - todo
        invariant forall o :: o in meExceptOther ==> meExceptOther[o] == Ahead(n, otherView, o)
        invariant otherExceptMe <==> exists o :: o in seqs && o !in todo && seqs[o] < Last(otherView, o)
        decreases |todo|
      {
        var p :| p in todo;
        AheadIsSlice(n, otherView, p);
        todo := todo - {p};
        if p in otherView {
          if seqs[p] < otherView[p] {
            otherExceptMe := true;
          } else if seqs[p] > otherView[p] {
            meExceptOther := meExceptOther[p := rumors[p][otherView[p]..seqs[p]]];
          }
        } else {
          meExceptOther := meExceptOther[p := rumors[p]];
        }
      }
    }

    /** What this node has and the other has not, per origin, and whether the other is ahead somewhere. */
    method Compare(otherView: View) returns (meExceptOther: map<Addr, seq<Rumor>>, otherExceptMe: bool)
      requires NodeOk(Log())
      ensures meExceptOther.Keys == OriginsAhead(Log(), otherView)
      ensures forall o :: o in meExceptOther ==> meExceptOther[o] == Ahead(Log(), otherView, o)
      ensures otherExceptMe <==> exists o :: o in otherView && (o in seqs ==> seqs[o] < otherView[o])
    {
      meExceptOther, otherExceptMe := CompareMine(otherView);
      var rest := otherView.Keys;
      ghost var within := otherExceptMe;
      while rest != {}
        invariant rest <= otherView.Keys
        invariant otherExceptMe <==> within || exists o :: o in otherView && o !in rest && o !in seqs
        decreases |rest|
      {
        var p :| p in rest;
        rest := rest - {p};
        if p !in seqs {
          otherExceptMe := true;
        }
      }
    }

    /** Answers a status: ten of the missing rumors, or the own status if only the other is ahead. */
    method StatusMsgCallback(otherView: View) returns (reply: Reply, ghost order: seq<Addr>)
      requires NodeOk(Log())
      ensures reply.SendRumors? <==> OriginsAhead(Log(), otherView) != {}
      ensures reply.SendRumors? ==>
                Lists(order, OriginsAhead(Log(), otherView)) && reply.rs == ReplyTo(Log(), otherView, order)
      ensures reply.SendStatus? <==>
                OriginsAhead(Log(), otherView) == {} && exists o :: o in otherView && (o in seqs ==> seqs[o] < otherView[o])
    {
      var meExceptOther, otherExceptMe := Compare(otherView);
      order := [];
      if |meExceptOther| > 0 {
        var missing: seq<Rumor> := [];
        var todo := meExceptOther.Keys;
        while todo != {}
          invariant todo <= meExceptOther.Keys
          invariant Lists(order, meExceptOther.Keys - todo)
          invariant missing == AllAhead(Log(), otherView, order)
          decreases |todo|
        {
          var p :| p in todo;
          AheadAppends(Log(), otherView, order, p);
          todo := todo - {p};
          order := order + [p];
          missing := missing + meExceptOther[p];
        }
        reply := SendRumors(FirstTen(missing));
      } else if otherExceptMe {
        reply := SendStatus;
      } else {
        reply := SameView;
      }
    }
  }

  /** The rumors of an origin beyond the other's view, as the code slices them. */
  lemma AheadIsSlice(n: Node, other: View, o: Addr)
    requires NodeOk(n) && o in n.seqs
    ensures o in n.rumors && |n.rumors[o]| == n.seqs[o] > 0
    ensures Last(other, o) < n.seqs[o] ==> Ahead(n, other, o) == n.rumors[o][Last(other, o)..n.seqs[o]]
    ensures o !in other ==> Ahead(n, other, o) == n.rumors[o]
  {
    assert OriginOk(n, o);
  }

  lemma {:induction false} AheadAppends(n: Node, other: View, order: seq<Addr>, o: Addr)
    ensures AllAhead(n, other, order + [o]) == AllAhead(n, other, order) + Ahead(n, other, o)
    decreases |order|
  {
    if order != [] {
      assert (order + [o])[1..] == order[1..] + [o];
      AheadAppends(n, other, order[1..], o);
    } else {
      assert AllAhead(n, other, []) == [];
    }
  }
}
