/** Fairness of the even-owners prioritizer. It rests on one property of the
    state: the requests of each owner are numbered 1, 2, 3, ... in queue order
    (`InOrder`). */
module EvenOwnersFairness {
  import opened Integers
  import opened Prioritizers
  import opened StableSorting
  import opened LicenseModel
  import opened LicenseInvariant

  ghost predicate Ordered(l: License) {
    match l.prioritizer
    case FIFO => false
    case EvenOwners(c) => InOrder(c, l.queue)
  }

  // ------------------------------------------------------- sorting in order

  lemma OwnerCountTail(q: seq<Entry>, i: nat, o: string)
    requires 1 <= i <= |q|
    ensures OwnerCount(q[1..][..i - 1], o) == OwnerCount(q[..i], o) - (if q[0].owner == o then 1 else 0)
  {
    assert q[..i] == [q[0]] + q[1..][..i - 1];
    OwnerCountConcat([q[0]], q[1..][..i - 1], o);
    OwnerCountOne(q[0], o);
  }

  lemma OwnerCountMonotone(q: seq<Entry>, i: nat, j: nat, o: string)
    requires i <= j <= |q|
    ensures OwnerCount(q[..i], o) <= OwnerCount(q[..j], o)
    ensures i < j && q[i].owner == o ==> OwnerCount(q[..i], o) < OwnerCount(q[..j], o)
  {
    assert q[..j] == q[..i] + q[i..j];
    OwnerCountConcat(q[..i], q[i..j], o);
    if i < j {
      OwnerCountSplit(q[i..j], 0, o);
    }
  }

  /** No owner holds so many licences that a key could wrap around. */
  ghost predicate SmallKeys(c: Counters) {
    forall o :: Lookup(c.granted, o) <= MAX_TOTAL
  }

  lemma IndexedSmallKeys(l: License)
    requires Consistent(l) && l.prioritizer.EvenOwners?
    ensures SmallKeys(l.prioritizer.counters)
  {
    forall o ensures Lookup(l.prioritizer.counters.granted, o) <= MAX_TOTAL {
      assert OwnerIndexed(l.prioritizer.counters, l.queue, l.allocations, o);
      HeldByBound(l.allocations, o);
    }
  }

  /** In order, a key is the owner's place plus the licences the owner has. */
  lemma KeyInOrder(c: Counters, q: seq<Entry>, i: nat)
    requires InOrder(c, q) && SmallKeys(c) && |q| <= MAX_LEN && i < |q|
    ensures Key(c, q[i]) == 1 + OwnerCount(q[..i], q[i].owner) + Lookup(c.granted, q[i].owner)
  {
    assert InPlace(c, q, i);
    OwnerCountBound(q[..i], q[i].owner);
    assert Lookup(c.granted, q[i].owner) <= MAX_TOTAL;
  }

  lemma InsertedInPlace(c: Counters, s: seq<Entry>, n: nat, e: Entry, i: nat)
    requires InOrder(c, s) && n <= |s| && i <= |s|
    requires OwnerPlace(c, e) == 1 + OwnerCount(s[..n], e.owner)
    requires forall j | n <= j < |s| :: s[j].owner != e.owner
    ensures InPlace(c, s[..n] + [e] + s[n..], i)
  {
    hide OwnerCount, OwnerPlace;
    var r := s[..n] + [e] + s[n..];
    if i < n {
      assert InPlace(c, s, i) && r[..i] == s[..i];
    } else if i == n {
      assert r[..i] == s[..n];
    } else {
      assert InPlace(c, s, i - 1) && r[i] == s[i - 1];
      InsertedBefore(s, n, e, i, r[i].owner);
    }
  }

  lemma InsertInOrder(c: Counters, s: seq<Entry>, n: nat, e: Entry)
    requires InOrder(c, s) && SmallKeys(c) && |s| < MAX_LEN
    requires OwnerPlace(c, e) == 1 + OwnerCount(s, e.owner)
    requires n <= |s| && forall i | n <= i < |s| :: Key(c, e) < Key(c, s[i])
    ensures InOrder(c, s[..n] + [e] + s[n..])
  {
    var r := s[..n] + [e] + s[n..];
    NoneOfOwnerBehind(c, s, n, e);
    NoneBehind(s, n, e.owner);
    hide SmallKeys, Key, OwnerCount, OwnerPlace;
    forall i | 0 <= i < |r| ensures InPlace(c, r, i) {
      InsertedInPlace(c, s, n, e, i);
    }
  }

  lemma NoneOfOwnerBehind(c: Counters, s: seq<Entry>, n: nat, e: Entry)
    requires InOrder(c, s) && SmallKeys(c) && |s| < MAX_LEN
    requires OwnerPlace(c, e) == 1 + OwnerCount(s, e.owner)
    requires n <= |s| && forall i | n <= i < |s| :: Key(c, e) < Key(c, s[i])
    ensures forall i | n <= i < |s| :: s[i].owner != e.owner
  {
    forall i | n <= i < |s| ensures s[i].owner != e.owner {
      KeyInOrder(c, s, i);
      OwnerCountBound(s, e.owner);
      assert s[..|s|] == s;
      OwnerCountMonotone(s, i, |s|, e.owner);
      assert Lookup(c.granted, e.owner) <= MAX_TOTAL;
    }
  }

  lemma InsertedBefore(s: seq<Entry>, n: nat, e: Entry, i: nat, o: string)
    requires n < i <= |s| && e.owner != o
    ensures OwnerCount((s[..n] + [e] + s[n..])[..i], o) == OwnerCount(s[..i - 1], o)
  {
    var mid := s[n..i - 1];
    assert (s[..n] + [e] + s[n..])[..i] == s[..n] + [e] + mid;
    assert s[..i - 1] == s[..n] + mid;
    OwnerCountConcat(s[..n] + [e], mid, o);
    OwnerCountConcat(s[..n], [e], o);
    OwnerCountConcat(s[..n], mid, o);
    OwnerCountOne(e, o);
  }

  lemma {:induction false} NoneBehind(s: seq<Entry>, n: nat, o: string)
    requires n <= |s| && forall i | n <= i < |s| :: s[i].owner != o
    ensures OwnerCount(s[..n], o) == OwnerCount(s, o)
  {
    if n == |s| {
      assert s[..n] == s;
    } else {
      NoneBehind(s[..|s| - 1], n, o);
      assert s[..|s| - 1][..n] == s[..n];
    }
  }

  /** Sorting never reorders the requests of one owner. */
  lemma {:induction false} StableSortInOrder(c: Counters, q: seq<Entry>)
    requires InOrder(c, q) && SmallKeys(c) && |q| <= MAX_LEN
    ensures InOrder(c, StableSort(c, q))
  {
    if q != [] {
      var front, e := q[..|q| - 1], q[|q| - 1];
      forall i | 0 <= i < |front| ensures InPlace(c, front, i) {
        assert InPlace(c, q, i) && front[..i] == q[..i];
      }
      assert InPlace(c, q, |q| - 1);
      StableSortInOrder(c, front);
      StableSortOwnerCount(c, front, e.owner);
      InsertInOrder(c, StableSort(c, front), Slot(c, StableSort(c, front), Key(c, e)), e);
    }
  }

  lemma EnqueueOrdered(l: License, e: Entry)
    requires Consistent(l) && Ordered(l) && |l.queue| < MAX_LEN
    requires e.id !in Ids(l.queue) && e.id !in l.allocations
    ensures Ordered(Enqueue(l, e))
  {
    var c, q := l.prioritizer.counters, l.queue;
    AppendInOrder(c, q, l.allocations, e);
    IndexedSmallKeys(l);
    StableSortInOrder(CountEnqueue(c, e), q + [e]);
  }

  lemma AppendInOrder(c: Counters, q: seq<Entry>, a: map<string, Entry>, e: Entry)
    requires Indexed(c, q, a) && InOrder(c, q) && |q| < MAX_LEN && e.id !in Ids(q)
    ensures InOrder(CountEnqueue(c, e), q + [e])
  {
    var c', r := CountEnqueue(c, e), q + [e];
    assert OwnerIndexed(c, q, a, e.owner);
    OwnerCountBound(q, e.owner);
    forall i | 0 <= i < |r| ensures InPlace(c', r, i) {
      if i < |q| {
        assert InPlace(c, q, i) && r[..i] == q[..i];
        assert q[i].id in Ids(q);
      } else {
        assert r[..i] == q;
      }
    }
  }

  // --------------------------------------------------------- who is served

  lemma {:induction false} FirstOf(q: seq<Entry>, o: string) returns (i: nat)
    requires OwnerCount(q, o) > 0
    ensures i < |q| && q[i].owner == o && OwnerCount(q[..i], o) == 0
  {
    if OwnerCount(q[..|q| - 1], o) > 0 {
      i := FirstOf(q[..|q| - 1], o);
      assert q[..|q| - 1][..i] == q[..i];
    } else {
      i := |q| - 1;
    }
  }

  lemma HeadOfSorted(c: Counters, s: seq<Entry>, o: string)
    requires InOrder(c, s) && SmallKeys(c) && 0 < |s| <= MAX_LEN && Sorted(c, s)
    ensures OwnerPlace(c, s[0]) == 1
    ensures OwnerCount(s, o) > 0 ==> Lookup(c.granted, s[0].owner) <= Lookup(c.granted, o)
  {
    assert InPlace(c, s, 0);
    KeyInOrder(c, s, 0);
    if OwnerCount(s, o) > 0 {
      var i := FirstOf(s, o);
      KeyInOrder(c, s, i);
      assert Key(c, s[0]) <= Key(c, s[i]);
    }
  }

  /** Each iteration of Promote serves the oldest request of an owner that has
      the fewest licences among the owners that wait. */
  lemma ServesFewest(l: License, o: string)
    requires Consistent(l) && Ordered(l) && l.queue != []
    ensures Next(l) in l.queue
    ensures forall i | 0 <= i < |l.queue| && l.queue[i].owner == Next(l).owner
              :: l.queue[i] == Next(l) || exists j | 0 <= j < i :: l.queue[j] == Next(l)
    ensures Waiting(l, o) > 0 ==> Holding(l, Next(l).owner) <= Holding(l, o)
  {
    var c, q := l.prioritizer.counters, l.queue;
    var s := StableSort(c, q);
    assert Next(l) == s[0];
    IndexedSmallKeys(l);
    StableSortInOrder(c, q);
    StableSortIsStable(c, q);
    StableSortOwnerCount(c, q, o);
    HeadOfSorted(c, s, o);
    assert s[0] in q by {
      StableSortPermutes(c, q);
      assert s[0] in multiset(s);
    }
    OldestIsFirst(c, q, s[0]);
    assert OwnerIndexed(c, q, l.allocations, o) && OwnerIndexed(c, q, l.allocations, s[0].owner);
  }

  lemma OldestIsFirst(c: Counters, q: seq<Entry>, e: Entry)
    requires InOrder(c, q) && e in q && OwnerPlace(c, e) == 1
    ensures forall i | 0 <= i < |q| && q[i].owner == e.owner :: q[i] == e || exists j | 0 <= j < i :: q[j] == e
  {
    var k :| 0 <= k < |q| && q[k] == e;
    forall i | 0 <= i < |q| && q[i].owner == e.owner ensures q[i] == e || exists j | 0 <= j < i :: q[j] == e {
      if i < k {
        assert InPlace(c, q, k);
        OwnerCountMonotone(q, i, k, e.owner);
      }
    }
  }

  lemma PromoteOneOrdered(l: License)
    requires Consistent(l) && Ordered(l) && l.queue != []
    ensures Ordered(PromoteOne(l))
  {
    var c, q := l.prioritizer.counters, l.queue;
    var s := StableSort(c, q);
    IndexedSmallKeys(l);
    StableSortInOrder(c, q);
    StableSortDistinct(c, q);
    SortIndexed(c, q, l.allocations);
    DequeueHeadInOrder(c, s, l.allocations);
    GrantKeepsOrder(CountDequeue(c, s[0]), s[1..], s[0]);
  }

  lemma GrantKeepsOrder(c: Counters, q: seq<Entry>, e: Entry)
    requires InOrder(c, q)
    ensures InOrder(CountAllocate(c, e), q)
  {
    forall i | 0 <= i < |q| ensures InPlace(CountAllocate(c, e), q, i) {
      assert InPlace(c, q, i);
    }
  }

  lemma DequeueHeadInOrder(c: Counters, s: seq<Entry>, a: map<string, Entry>)
    requires Indexed(c, s, a) && InOrder(c, s) && DistinctIds(s) && 0 < |s| <= MAX_LEN
    ensures InOrder(CountDequeue(c, s[0]), s[1..])
  {
    forall i | 0 <= i < |s[1..]| ensures InPlace(CountDequeue(c, s[0]), s[1..], i) {
      assert OwnerIndexed(c, s, a, s[0].owner);
      assert InPlace(c, s, i + 1) && s[1..][i] == s[i + 1];
      MovesUp(c, s, i + 1);
    }
  }

  lemma MovesUp(c: Counters, s: seq<Entry>, i: nat)
    requires 1 <= i < |s| <= MAX_LEN && s[0].id != s[i].id
    requires InPlace(c, s, i)
    requires Sub(Lookup(c.enqueued, s[0].owner), Lookup(c.dequeued, s[0].owner)) == OwnerCount(s, s[0].owner)
    ensures InPlace(CountDequeue(c, s[0]), s[1..], i - 1)
  {
    var o := s[i].owner;
    OwnerCountTail(s, i, o);
    OwnerCountBound(s, o);
    if o == s[0].owner {
      assert s[..|s|] == s;
      OwnerCountMonotone(s, i, |s|, o);
      OwnerCountMonotone(s, 0, i, o);
    }
  }

  // ------------------------------------------------------ fairness of a run

  lemma PromoteOneCounts(l: License, o: string)
    requires Consistent(l) && l.queue != [] && |l.allocations| < l.total
    ensures Holding(PromoteOne(l), o) == Holding(l, o) + (if Next(l).owner == o then 1 else 0)
    ensures Waiting(PromoteOne(l), o) == Waiting(l, o) - (if Next(l).owner == o then 1 else 0)
  {
    PromoteOneConsistent(l);
    HeldByInsert(l.allocations, Next(l), o);
    var s := SortQueue(l).queue;
    if l.prioritizer.EvenOwners? {
      StableSortOwnerCount(l.prioritizer.counters, l.queue, o);
    }
    OwnerCountSplit(s, 0, o);
    assert s[..0] == [];
  }

  /** From `l` to `m` nobody lost a licence or started to wait, and if `winner`
      gained while `loser` still waits, it is at most one licence ahead. */
  ghost predicate FairStep(l: License, m: License, winner: string, loser: string) {
    && Holding(l, winner) <= Holding(m, winner)
    && Holding(l, loser) <= Holding(m, loser)
    && Waiting(m, loser) <= Waiting(l, loser)
    && (Holding(m, winner) > Holding(l, winner) && Waiting(m, loser) > 0
        ==> Holding(m, winner) <= Holding(m, loser) + 1)
  }

  lemma FairStepTransitive(l: License, m: License, n: License, winner: string, loser: string)
    requires FairStep(l, m, winner, loser) && FairStep(m, n, winner, loser)
    ensures FairStep(l, n, winner, loser)
  {
  }

  lemma PromoteOneFair(l: License, winner: string, loser: string)
    requires Consistent(l) && Ordered(l) && l.queue != [] && |l.allocations| < l.total
    ensures FairStep(l, PromoteOne(l), winner, loser)
  {
    PromoteOneCounts(l, winner);
    PromoteOneCounts(l, loser);
    ServesFewest(l, loser);
  }

  lemma {:induction false} PromoteUpToOrdered(l: License, n: nat)
    requires Consistent(l) && Ordered(l) && n <= l.total - |l.allocations|
    ensures Ordered(PromoteUpTo(l, n))
    decreases n
  {
    hide Ordered, PromoteOne, Consistent;
    if n != 0 && l.queue != [] {
      var m := PromoteOne(l);
      PromoteOneConsistent(l);
      PromoteOneOrdered(l);
      PromoteUpToOrdered(m, n - 1);
    }
  }

  lemma {:induction false} PromoteUpToFair(l: License, n: nat, winner: string, loser: string)
    requires Consistent(l) && Ordered(l) && n <= l.total - |l.allocations|
    ensures FairStep(l, PromoteUpTo(l, n), winner, loser)
    decreases n
  {
    hide Ordered, PromoteOne, Consistent;
    if n != 0 && l.queue != [] {
      var m := PromoteOne(l);
      PromoteOneConsistent(l);
      PromoteOneOrdered(l);
      PromoteUpToFair(m, n - 1, winner, loser);
      PromoteOneFair(l, winner, loser);
      FairStepTransitive(l, m, PromoteUpTo(m, n - 1), winner, loser);
    }
  }

  /** After Promote, an owner that gained a licence holds at most one more than
      any owner whose requests still wait. */
  lemma PromoteFair(l: License, winner: string, loser: string)
    requires Consistent(l) && Ordered(l)
    ensures Ordered(Promote(l))
    ensures Holding(Promote(l), winner) > Holding(l, winner) && Waiting(Promote(l), loser) > 0
        ==> Holding(Promote(l), winner) <= Holding(Promote(l), loser) + 1
  {
    PromoteUpToOrdered(l, Free(l));
    PromoteUpToFair(l, Free(l), winner, loser);
  }
}
