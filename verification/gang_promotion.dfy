/** What one promotion of the allocation manager's queue does: a declarative
    account of who is served, and of why nobody left waiting could be. */
module GangPromotion {
  import opened Wrappers
  import opened GangModel
  import opened GangProofs

  // ------------------------------------------------------------ who is served

  /** The units a request asks for; none if it names no known topology. */
  function Wanted<U>(m: Manager<U>, inv: Inv): seq<U> {
    if inv.wants.name in m.topologies then m.topologies[inv.wants.name] else []
  }

  predicate Named<U>(m: Manager<U>, inv: Inv) {
    inv.wants.name != "" && inv.wants.name in m.topologies
  }

  ghost predicate Disjoint<U>(a: seq<U>, b: seq<U>) {
    forall i, j | 0 <= i < |a| && 0 <= j < |b| :: a[i] != b[j]
  }

  /** Request `i` is served: it names a known topology, all of that topology was
      free to begin with, and no earlier request that is served shares a unit. */
  ghost predicate Wins<U>(m: Manager<U>, q: seq<Inv>, i: nat)
    requires i < |q|
    decreases i
  {
    && Named(m, q[i])
    && Free(m.holders, Wanted(m, q[i]))
    && forall j: nat | j < i && Wins(m, q, j) :: Disjoint(Wanted(m, q[j]), Wanted(m, q[i]))
  }

  /** The requests among the first `n` that are not served, in order. */
  ghost function Losers<U>(m: Manager<U>, q: seq<Inv>, n: nat): seq<Inv>
    requires n <= |q|
  {
    if n == 0 then [] else Losers(m, q, n - 1) + if Wins(m, q, n - 1) then [] else [q[n - 1]]
  }

  /** Who holds what once the first `n` requests were considered. */
  ghost function Winnings<U>(m: Manager<U>, q: seq<Inv>, n: nat): map<U, Inv>
    requires n <= |q|
  {
    if n == 0 then m.holders
    else if Wins(m, q, n - 1) then Granted(Winnings(m, q, n - 1), Wanted(m, q[n - 1]), q[n - 1])
    else Winnings(m, q, n - 1)
  }

  /** `u` went to request `j`. */
  ghost predicate WonBy<U>(m: Manager<U>, q: seq<Inv>, u: U, j: nat)
    requires j < |q|
  {
    Wins(m, q, j) && u in Wanted(m, q[j])
  }

  lemma {:induction false} WinnersHold<U>(m: Manager<U>, q: seq<Inv>, n: nat)
    requires n <= |q|
    ensures forall u :: u in Winnings(m, q, n) <==> u in m.holders || exists j: nat | j < n :: WonBy(m, q, u, j)
  {
    if n > 0 {
      WinnersHold(m, q, n - 1);
      var w' := Winnings(m, q, n);
      hide Wins;
      forall u ensures u in w' <==> u in m.holders || exists j: nat | j < n :: WonBy(m, q, u, j) {
        if WonBy(m, q, u, n - 1) {
          assert u in w';
        } else if j: nat :| j < n && WonBy(m, q, u, j) {
          assert j < n - 1;
        }
      }
    }
  }

  lemma {:induction false} HoldersKeep<U>(m: Manager<U>, q: seq<Inv>, n: nat, u: U)
    requires n <= |q| && u in m.holders
    ensures u in Winnings(m, q, n) && Winnings(m, q, n)[u] == m.holders[u]
  {
    if n > 0 {
      HoldersKeep(m, q, n - 1, u);
      if Wins(m, q, n - 1) {
        assert u !in Wanted(m, q[n - 1]);
      }
    }
  }

  lemma {:induction false} WinnerHolds<U>(m: Manager<U>, q: seq<Inv>, n: nat, u: U, j: nat)
    requires j < n <= |q| && WonBy(m, q, u, j)
    ensures u in Winnings(m, q, n) && Winnings(m, q, n)[u] == q[j]
  {
    if j < n - 1 {
      WinnerHolds(m, q, n - 1, u, j);
      if Wins(m, q, n - 1) {
        assert Disjoint(Wanted(m, q[j]), Wanted(m, q[n - 1]));
        assert u !in Wanted(m, q[n - 1]);
      }
    }
  }

  lemma HeldByWinners<U>(m: Manager<U>, q: seq<Inv>, n: nat)
    requires n <= |q|
    ensures forall u :: u in Winnings(m, q, n) <==> u in m.holders || exists j: nat | j < n :: WonBy(m, q, u, j)
    ensures forall u | u in m.holders :: Winnings(m, q, n)[u] == m.holders[u]
    ensures forall u, j: nat | j < n && WonBy(m, q, u, j) :: Winnings(m, q, n)[u] == q[j]
  {
    hide WonBy, Wins, Winnings;
    WinnersHold(m, q, n);
    forall u | u in m.holders ensures Winnings(m, q, n)[u] == m.holders[u] {
      HoldersKeep(m, q, n, u);
    }
    forall u, j: nat | j < n && WonBy(m, q, u, j) ensures Winnings(m, q, n)[u] == q[j] {
      WinnerHolds(m, q, n, u, j);
    }
  }

  /** Request `n` finds its topology free exactly when it wins. */
  lemma FreeMeansWins<U>(m: Manager<U>, q: seq<Inv>, n: nat)
    requires n < |q| && Named(m, q[n])
    ensures Free(Winnings(m, q, n), Wanted(m, q[n])) <==> Wins(m, q, n)
  {
    HeldByWinners(m, q, n);
    var w, wanted := Winnings(m, q, n), Wanted(m, q[n]);
    if Free(w, wanted) {
      forall j: nat | j < n && Wins(m, q, j) ensures Disjoint(Wanted(m, q[j]), wanted) {
        var before := Wanted(m, q[j]);
        forall a, b | 0 <= a < |before| && 0 <= b < |wanted| ensures before[a] != wanted[b] {
          assert WonBy(m, q, before[a], j);
        }
      }
    }
    if Wins(m, q, n) {
      forall b | 0 <= b < |wanted| ensures wanted[b] !in w {
        assert wanted[b] !in m.holders;
      }
    }
  }

  // ----------------------------------------------------- the loop and the rule

  lemma {:induction false} WithoutNone(q: seq<Inv>, id: string)
    requires forall i | 0 <= i < |q| :: q[i].id != id
    ensures Without(q, id) == q
  {
    if q != [] {
      WithoutNone(q[..|q| - 1], id);
    }
  }

  lemma {:induction false} WithoutSplits(a: seq<Inv>, b: seq<Inv>, id: string)
    ensures Without(a + b, id) == Without(a, id) + Without(b, id)
  {
    if b == [] {
      assert a + b == a;
    } else {
      var front := b[..|b| - 1];
      assert (a + b)[..|a + b| - 1] == a + front;
      WithoutSplits(a, front, id);
    }
  }

  lemma {:induction false} LosersAre<U>(m: Manager<U>, q: seq<Inv>, n: nat)
    requires n <= |q|
    ensures forall x | x in Losers(m, q, n) :: x in q[..n]
    ensures forall i: nat | i < n && !Wins(m, q, i) :: q[i] in Losers(m, q, n)
  {
    if n > 0 {
      LosersAre(m, q, n - 1);
      assert q[..n] == q[..n - 1] + [q[n - 1]];
    }
  }

  /** Removing the one entry with this id. */
  lemma WithoutOne(a: seq<Inv>, x: Inv, b: seq<Inv>)
    requires forall i | 0 <= i < |a| :: a[i].id != x.id
    requires forall i | 0 <= i < |b| :: b[i].id != x.id
    ensures Without(a + ([x] + b), x.id) == a + b
  {
    assert Without([x], x.id) == [] by {
      assert [x][..0] == [];
    }
    hide Without;
    WithoutSplits(a, [x] + b, x.id);
    WithoutSplits([x], b, x.id);
    WithoutNone(a, x.id);
    WithoutNone(b, x.id);
    assert [] + b == b;
  }

  /** Removing request `n` from what is queued when its turn comes. */
  lemma ServedLeaves<U>(m: Manager<U>, q: seq<Inv>, n: nat)
    requires n < |q| && DistinctIds(q)
    ensures Without(Losers(m, q, n) + q[n..], q[n].id) == Losers(m, q, n) + q[n + 1..]
  {
    hide Wins, Without;
    var l := Losers(m, q, n);
    LosersAre(m, q, n);
    assert q[n..] == [q[n]] + q[n + 1..];
    forall i | 0 <= i < |l| ensures l[i].id != q[n].id {
      assert l[i] in q[..n];
    }
    WithoutOne(l, q[n], q[n + 1..]);
  }

  /** The manager once the first `n` requests were considered. */
  ghost function After<U>(m: Manager<U>, n: nat): Manager<U>
    requires n <= |m.queue|
  {
    m.(queue := Losers(m, m.queue, n) + m.queue[n..], holders := Winnings(m, m.queue, n))
  }

  lemma AfterOneMore<U>(m: Manager<U>, n: nat)
    requires Configured(m) && DistinctIds(m.queue) && n < |m.queue|
    ensures PromoteOne(After(m, n), m.queue[n]) == After(m, n + 1)
  {
    var q, inv := m.queue, m.queue[n];
    if Named(m, inv) {
      FreeMeansWins(m, q, n);
    }
    hide Wins, DistinctIds;
    if Wins(m, q, n) {
      TakeAll(Winnings(m, q, n), Wanted(m, inv), inv);
      ServedLeaves(m, q, n);
    } else {
      assert q[n..] == [inv] + q[n + 1..];
      assert Losers(m, q, n) + q[n..] == Losers(m, q, n) + [inv] + q[n + 1..];
    }
  }

  lemma {:induction false} PromoteEachIsGreedy<U>(m: Manager<U>, n: nat)
    requires Configured(m) && DistinctIds(m.queue) && n <= |m.queue|
    ensures PromoteEach(m, m.queue[..n]) == After(m, n)
  {
    if n == 0 {
      assert [] + m.queue[0..] == m.queue;
    } else {
      PromoteEachIsGreedy(m, n - 1);
      assert m.queue[..n][..n - 1] == m.queue[..n - 1];
      AfterOneMore(m, n - 1);
    }
  }

  /** Although the loop removes entries from the queue it ranges over, it serves
      exactly the winners, in the order of the queue, and leaves the rest as it
      was. */
  lemma PromoteIsGreedy<U>(m: Manager<U>)
    requires Configured(m) && DistinctIds(m.queue)
    ensures Promote(m).queue == Losers(m, m.queue, |m.queue|)
    ensures Promote(m).holders == Winnings(m, m.queue, |m.queue|)
  {
    PromoteEachIsGreedy(m, |m.queue|);
    assert m.queue[..|m.queue|] == m.queue;
  }

  /** A request leaves the queue exactly when it wins, and then all the units it
      asked for, and nothing else, change hands. */
  lemma PromoteServes<U>(m: Manager<U>)
    requires Configured(m) && DistinctIds(m.queue)
    ensures forall i: nat | i < |m.queue| :: m.queue[i] !in Promote(m).queue <==> Wins(m, m.queue, i)
    ensures forall u :: u in Promote(m).holders <==>
                        u in m.holders || exists i: nat | i < |m.queue| :: WonBy(m, m.queue, u, i)
    ensures forall u, i: nat | i < |m.queue| && WonBy(m, m.queue, u, i) :: Promote(m).holders[u] == m.queue[i]
    ensures forall u | u in m.holders :: Promote(m).holders[u] == m.holders[u]
  {
    var q := m.queue;
    PromoteIsGreedy(m);
    HeldByWinners(m, q, |q|);
    LosersAre(m, q, |q|);
    forall i: nat | i < |q| && Wins(m, q, i) ensures q[i] !in Losers(m, q, |q|) {
      WinnersLeave(m, q, i, |q|);
    }
  }

  lemma {:induction false} WinnersLeave<U>(m: Manager<U>, q: seq<Inv>, i: nat, n: nat)
    requires i < |q| && n <= |q| && DistinctIds(q) && Wins(m, q, i)
    ensures q[i] !in Losers(m, q, n)
  {
    if n > 0 {
      WinnersLeave(m, q, i, n - 1);
    }
  }

  // --------------------------------------------------------------- maximality

  lemma PromoteOneGrows<U>(m: Manager<U>, inv: Inv)
    ensures PromoteOne(m, inv).topologies == m.topologies
    ensures m.holders.Keys <= PromoteOne(m, inv).holders.Keys
    ensures forall x | x in PromoteOne(m, inv).queue :: x in m.queue
    ensures inv in PromoteOne(m, inv).queue ==> Match(PromoteOne(m, inv), inv.wants, false) == None
  {
    var name := Match(m, inv.wants, false);
    if name.Some? {
      TakeGrows(m.holders, m.topologies[name.value], inv);
      WithoutIs(m.queue, inv.id);
    }
  }

  lemma StaysTaken<U>(m: Manager<U>, m': Manager<U>, wants: TopologyRequest)
    requires m'.topologies == m.topologies && m.holders.Keys <= m'.holders.Keys
    requires Match(m, wants, false) == None
    ensures Match(m', wants, false) == None
  {
    if wants.name != "" && wants.name in m.topologies {
      var units := m.topologies[wants.name];
      var i :| 0 <= i < |units| && units[i] in m.holders;
      assert units[i] in m'.holders;
    }
  }

  lemma {:induction false} PromoteEachMaximal<U>(m: Manager<U>, q: seq<Inv>)
    ensures PromoteEach(m, q).topologies == m.topologies
    ensures m.holders.Keys <= PromoteEach(m, q).holders.Keys
    ensures forall x | x in PromoteEach(m, q).queue :: x in m.queue
    ensures forall x | x in q && x in PromoteEach(m, q).queue :: Match(PromoteEach(m, q), x.wants, false) == None
  {
    if q != [] {
      var front, last := q[..|q| - 1], q[|q| - 1];
      PromoteEachMaximal(m, front);
      var before := PromoteEach(m, front);
      PromoteOneGrows(before, last);
      assert q == front + [last];
      forall x | x in q && x in PromoteEach(m, q).queue
        ensures Match(PromoteEach(m, q), x.wants, false) == None
      {
        if x in front {
          StaysTaken(before, PromoteOne(before, last), x.wants);
        }
      }
    }
  }

  /** Scheduling is maximal, from any state: whatever is still queued after a
      promotion names no known topology, or one with a unit that is held. */
  lemma PromoteMaximal<U>(m: Manager<U>)
    ensures forall x | x in Promote(m).queue :: x in m.queue && Match(Promote(m), x.wants, false) == None
  {
    PromoteEachMaximal(m, m.queue);
  }

  /** So a second promotion does nothing. */
  lemma PromoteTwice<U>(m: Manager<U>)
    ensures Promote(Promote(m)) == Promote(m)
  {
    PromoteMaximal(m);
    var m' := Promote(m);
    NothingToPromote(m', m'.queue);
  }

  lemma {:induction false} NothingToPromote<U>(m: Manager<U>, q: seq<Inv>)
    requires forall x | x in q :: Match(m, x.wants, false) == None
    ensures PromoteEach(m, q) == m
  {
    if q != [] {
      var front := q[..|q| - 1];
      assert q == front + [q[|q| - 1]];
      NothingToPromote(m, front);
    }
  }
}
