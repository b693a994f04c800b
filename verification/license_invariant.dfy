/** Every operation of a licence keeps the prioritizer's index, the uniqueness
    of ids and the licence limit. */
module LicenseInvariant {
  import opened Integers
  import opened Prioritizers
  import opened StableSorting
  import opened LicenseModel

  // ---------------------------------------------------- removing by a filter

  /** A filter splits the queue: every entry is kept or dropped, none twice. */
  lemma {:induction false} FilterSplits(q: seq<Entry>, d: Drop)
    ensures multiset(q) == multiset(Kept(q, d)) + multiset(Dropped(q, d))
    ensures forall e :: e in Kept(q, d) <==> e in q && !Drops(d, e)
    ensures forall e :: e in Dropped(q, d) <==> e in q && Drops(d, e)
    ensures |Kept(q, d)| + |Dropped(q, d)| == |q|
  {
    if q != [] {
      var front := q[..|q| - 1];
      FilterSplits(front, d);
      assert q == front + [q[|q| - 1]];
    }
  }

  /** Removing the entry that follows those kept so far. */
  lemma DropNext(c: Counters, kept: seq<Entry>, e: Entry, rest: seq<Entry>, a: map<string, Entry>)
    requires Indexed(c, kept + [e] + rest, a)
    requires |kept + [e] + rest| <= MAX_LEN && DistinctIds(kept + [e] + rest)
    ensures Indexed(CountDequeue(c, e), kept + rest, a)
    ensures DistinctIds(kept + rest)
  {
    var q := kept + [e] + rest;
    assert q[..|kept|] + q[|kept| + 1..] == kept + rest;
    DequeueIndexed(c, q, a, |kept|);
    DropAtIds(q, |kept|);
  }

  /** Part-way through a filter: `q` is dealt with, `rest` is not. */
  lemma {:induction false} FilterIndexed(c: Counters, q: seq<Entry>, rest: seq<Entry>, a: map<string, Entry>, d: Drop)
    requires Indexed(c, q + rest, a) && |q + rest| <= MAX_LEN && DistinctIds(q + rest)
    ensures Indexed(DequeueAll(c, Dropped(q, d)), Kept(q, d) + rest, a)
    ensures DistinctIds(Kept(q, d) + rest)
  {
    if q == [] {
      assert q + rest == Kept(q, d) + rest;
    } else {
      var front, e := q[..|q| - 1], q[|q| - 1];
      assert q + rest == front + ([e] + rest);
      FilterIndexed(c, front, [e] + rest, a, d);
      assert Kept(front, d) + ([e] + rest) == Kept(front, d) + [e] + rest;
      FilterSplits(front, d);
      FilterLast(q, d);
      if Drops(d, e) {
        DropNext(DequeueAll(c, Dropped(front, d)), Kept(front, d), e, rest, a);
        DequeueAllSnoc(c, Dropped(front, d), e);
        assert Kept(q, d) == Kept(front, d);
      } else {
        assert Dropped(q, d) == Dropped(front, d);
        assert Kept(q, d) + rest == Kept(front, d) + ([e] + rest);
      }
    }
  }

  lemma FilterLast(q: seq<Entry>, d: Drop)
    requires q != []
    ensures Kept(q, d) == Kept(q[..|q| - 1], d) + (if Drops(d, q[|q| - 1]) then [] else [q[|q| - 1]])
    ensures Dropped(q, d) == Dropped(q[..|q| - 1], d) + (if Drops(d, q[|q| - 1]) then [q[|q| - 1]] else [])
  {
  }

  lemma DequeueAllSnoc(c: Counters, gone: seq<Entry>, e: Entry)
    ensures DequeueAll(c, gone + [e]) == CountDequeue(DequeueAll(c, gone), e)
  {
    assert (gone + [e])[..|gone|] == gone;
  }

  lemma KeptIndexed(c: Counters, q: seq<Entry>, a: map<string, Entry>, d: Drop)
    requires Indexed(c, q, a) && |q| <= MAX_LEN && DistinctIds(q)
    ensures Indexed(DequeueAll(c, Dropped(q, d)), Kept(q, d), a)
  {
    assert q + [] == q && Kept(q, d) + [] == Kept(q, d);
    FilterIndexed(c, q, [], a, d);
  }

  lemma {:induction false} KeptDistinct(q: seq<Entry>, d: Drop)
    requires DistinctIds(q)
    ensures DistinctIds(Kept(q, d)) && Ids(Kept(q, d)) <= Ids(q)
  {
    FilterSplits(q, d);
    assert forall i | 0 <= i < |Kept(q, d)| :: Kept(q, d)[i] in q;
    if q != [] {
      var front := q[..|q| - 1];
      KeptDistinct(front, d);
      FilterSplits(front, d);
      forall i | 0 <= i < |Kept(front, d)| ensures Kept(front, d)[i].id != q[|q| - 1].id {
        assert Kept(front, d)[i] in front;
      }
    }
  }

  /** With distinct ids, at most one entry has a given id. */
  lemma {:induction false} DroppedById(q: seq<Entry>, id: string)
    requires DistinctIds(q)
    ensures Dropped(q, WithId(id)) == [] <==> id !in Ids(q)
    ensures |Dropped(q, WithId(id))| <= 1
  {
    if q != [] {
      var front, e := q[..|q| - 1], q[|q| - 1];
      DroppedById(front, id);
      assert Ids(q) == Ids(front) + {e.id} by {
        InsertAtIds(front, |front|, e);
        assert front[..|front|] + [e] + front[|front|..] == q;
      }
    }
  }

  lemma ForgetQueuedCounters(l: License, id: string)
    requires DistinctIds(l.queue) && l.prioritizer.EvenOwners?
    ensures ForgetQueued(l, id).prioritizer
         == EvenOwners(DequeueAll(l.prioritizer.counters, Dropped(l.queue, WithId(id))))
  {
    DroppedById(l.queue, id);
    var gone := Dropped(l.queue, WithId(id));
    if gone != [] {
      assert gone[..0] == [] && gone == [gone[0]];
    }
  }

  // ------------------------------------------------------------ known ids

  lemma SortIds(l: License)
    ensures Ids(SortQueue(l).queue) == Ids(l.queue)
  {
    if l.prioritizer.EvenOwners? {
      StableSortPermutes(l.prioritizer.counters, l.queue);
      SamePermutationIds(l.queue, StableSort(l.prioritizer.counters, l.queue));
    }
  }

  lemma InsertLast(q: seq<Entry>, e: Entry)
    ensures Ids(q + [e]) == Ids(q) + {e.id}
  {
    InsertAtIds(q, |q|, e);
    assert q[..|q|] + [e] + q[|q|..] == q + [e];
  }

  lemma EnqueueIds(l: License, e: Entry)
    ensures Ids(Enqueue(l, e).queue) == Ids(l.queue) + {e.id}
  {
    InsertLast(l.queue, e);
    SortIds(l.(queue := l.queue + [e], prioritizer := OnEnqueue(l.prioritizer, e)));
  }

  lemma PromoteOneKnows(l: License, id: string)
    requires l.queue != [] && Knows(l, id)
    ensures Knows(PromoteOne(l), id)
  {
    hide SortQueue;
    SortIds(l);
    var s := SortQueue(l).queue;
    if id in Ids(s) && id != s[0].id {
      var i :| 0 <= i < |s| && s[i].id == id;
      assert s[1..][i - 1].id == id;
    }
  }

  /** Promote forgets nobody. */
  lemma {:induction false} PromoteUpToKnows(l: License, n: nat, id: string)
    requires Knows(l, id)
    ensures Knows(PromoteUpTo(l, n), id)
    decreases n
  {
    hide Knows, PromoteOne;
    if n != 0 && l.queue != [] {
      PromoteOneKnows(l, id);
      PromoteUpToKnows(PromoteOne(l), n - 1, id);
    }
  }

  // ---------------------------------------------------------- preservation

  lemma SortConsistent(l: License)
    requires Consistent(l)
    ensures Consistent(SortQueue(l))
    ensures multiset(SortQueue(l).queue) == multiset(l.queue)
    ensures |SortQueue(l).queue| == |l.queue|
  {
    if l.prioritizer.EvenOwners? {
      var c := l.prioritizer.counters;
      StableSortPermutes(c, l.queue);
      SamePermutationIds(l.queue, StableSort(c, l.queue));
      StableSortDistinct(c, l.queue);
      SortIndexed(c, l.queue, l.allocations);
    }
  }

  lemma EnqueueConsistent(l: License, e: Entry)
    requires Consistent(l) && |l.queue| < MAX_LEN
    requires e.id !in Ids(l.queue) && e.id !in l.allocations
    ensures Consistent(Enqueue(l, e))
    ensures multiset(Enqueue(l, e).queue) == multiset(l.queue) + multiset{e}
  {
    var l1 := l.(queue := l.queue + [e], prioritizer := OnEnqueue(l.prioritizer, e));
    InsertAtIds(l.queue, |l.queue|, e);
    assert l.queue[..|l.queue|] + [e] + l.queue[|l.queue|..] == l.queue + [e];
    if l.prioritizer.EvenOwners? {
      EnqueueIndexed(l.prioritizer.counters, l.queue, l.allocations, e);
    }
    SortConsistent(l1);
  }

  lemma AllocateConsistent(l: License, e: Entry)
    requires Consistent(l)
    requires e.id !in Ids(l.queue) && e.id !in l.allocations
    ensures Consistent(Allocate(l, e).0)
  {
    if |l.allocations| < l.total && l.prioritizer.EvenOwners? {
      AllocateIndexed(l.prioritizer.counters, l.queue, l.allocations, e);
    }
  }

  lemma HeadLeaves(s: seq<Entry>)
    requires s != [] && DistinctIds(s)
    ensures multiset(s) == multiset(s[1..]) + multiset{s[0]}
    ensures s[0].id in Ids(s) && Ids(s[1..]) == Ids(s) - {s[0].id} && DistinctIds(s[1..])
    ensures s[..0] + s[1..] == s[1..]
  {
    assert s == [s[0]] + s[1..];
    DropAtIds(s, 0);
    assert s[..0] + s[1..] == s[1..];
  }

  lemma PromoteOneMoves(l: License)
    requires Consistent(l) && l.queue != []
    ensures Next(l) in l.queue && Next(l).id in Ids(l.queue) && Next(l).id !in l.allocations
    ensures multiset(l.queue) == multiset(PromoteOne(l).queue) + multiset{Next(l)}
    ensures |PromoteOne(l).queue| == |l.queue| - 1
    ensures DistinctIds(PromoteOne(l).queue) && Ids(PromoteOne(l).queue) == Ids(l.queue) - {Next(l).id}
  {
    SortConsistent(l);
    SortIds(l);
    HeadLeaves(SortQueue(l).queue);
    hide SortQueue, Ids, DistinctIds;
    assert Next(l) in multiset(l.queue);
  }

  lemma PromoteOneIndexed(l: License)
    requires Consistent(l) && l.queue != [] && |l.allocations| < l.total && l.prioritizer.EvenOwners?
    requires Next(l).id !in l.allocations
    ensures Indexed(PromoteOne(l).prioritizer.counters, PromoteOne(l).queue, PromoteOne(l).allocations)
  {
    var s := SortQueue(l).queue;
    SortConsistent(l);
    hide SortQueue, Indexed, DistinctIds, CountDequeue, CountAllocate;
    ServeHeadIndexed(l.prioritizer.counters, s, l.allocations);
  }

  lemma ServeHeadIndexed(c: Counters, s: seq<Entry>, a: map<string, Entry>)
    requires Indexed(c, s, a) && DistinctIds(s) && 0 < |s| <= MAX_LEN && |a| < MAX_TOTAL && s[0].id !in a
    ensures Indexed(CountAllocate(CountDequeue(c, s[0]), s[0]), s[1..], a[s[0].id := s[0]])
  {
    hide Indexed, DistinctIds, CountDequeue, CountAllocate;
    DequeueIndexed(c, s, a, 0);
    assert s[..0] + s[1..] == s[1..];
    AllocateIndexed(CountDequeue(c, s[0]), s[1..], a, s[0]);
  }

  lemma PromoteOneConsistent(l: License)
    requires Consistent(l) && l.queue != [] && |l.allocations| < l.total
    ensures Consistent(PromoteOne(l))
    ensures Next(l) in l.queue && Next(l).id !in l.allocations
    ensures multiset(l.queue) == multiset(PromoteOne(l).queue) + multiset{Next(l)}
    ensures |PromoteOne(l).queue| == |l.queue| - 1
    ensures |PromoteOne(l).allocations| == |l.allocations| + 1
    ensures PromoteOne(l).total == l.total
    ensures PromoteOne(l).allocations == l.allocations[Next(l).id := Next(l)]
  {
    PromoteOneMoves(l);
    if l.prioritizer.EvenOwners? {
      PromoteOneIndexed(l);
    }
    hide SortQueue, Ids, DistinctIds, Indexed, Next;
  }

  lemma {:induction false} PromoteUpToConsistent(l: License, n: nat)
    requires Consistent(l) && n <= l.total - |l.allocations|
    ensures Consistent(PromoteUpTo(l, n))
    decreases n
  {
    if n != 0 && l.queue != [] {
      PromoteOneConsistent(l);
      PromoteUpToConsistent(PromoteOne(l), n - 1);
    }
  }

  lemma PromoteConsistent(l: License)
    requires Consistent(l)
    ensures Consistent(Promote(l))
  {
    PromoteUpToConsistent(l, Free(l));
  }

  lemma ExpireAllocationsConsistent(l: License, expiry: int)
    requires Consistent(l)
    ensures Consistent(ExpireAllocations(l, expiry))
  {
    var gone := Expired(l.allocations, expiry);
    SubsetSize((l.allocations - gone.Keys).Keys, l.allocations.Keys);
    if l.prioritizer.EvenOwners? {
      ReleaseAllIndexed(l.prioritizer.counters, l.queue, l.allocations, gone);
    }
  }

  lemma ExpireQueuedConsistent(l: License, expiry: int)
    requires Consistent(l)
    ensures Consistent(ExpireQueued(l, expiry))
  {
    var d := SilentSince(expiry);
    KeptDistinct(l.queue, d);
    FilterSplits(l.queue, d);
    if l.prioritizer.EvenOwners? {
      KeptIndexed(l.prioritizer.counters, l.queue, l.allocations, d);
    }
  }

  lemma ForgetConsistent(l: License, id: string)
    requires Consistent(l)
    ensures Consistent(Forget(l, id).0)
    ensures id !in Forget(l, id).0.allocations && id !in Ids(Forget(l, id).0.queue)
  {
    var m := ForgetAllocated(l, id);
    if id in l.allocations {
      SubsetSize(m.allocations.Keys, l.allocations.Keys);
      if l.prioritizer.EvenOwners? {
        ReleaseIndexed(l.prioritizer.counters, l.queue, l.allocations, id);
      }
    }
    var d := WithId(id);
    KeptDistinct(m.queue, d);
    FilterSplits(m.queue, d);
    assert forall i | 0 <= i < |Kept(m.queue, d)| :: Kept(m.queue, d)[i] in Kept(m.queue, d);
    if l.prioritizer.EvenOwners? {
      ForgetQueuedCounters(m, id);
      KeptIndexed(m.prioritizer.counters, m.queue, m.allocations, d);
    }
  }
}
