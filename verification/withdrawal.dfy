/** When the even-owners order survives a withdrawal or an expiry, and what
    happens when it does not. */
module Withdrawal {
  import opened Integers
  import opened Prioritizers
  import opened LicenseModel
  import opened LicenseInvariant
  import opened EvenOwnersFairness

  /** Nobody keeps a request older than one of theirs that is dropped. */
  ghost predicate OldestFirst(q: seq<Entry>, d: Drop) {
    forall i, j | 0 <= i < j < |q| && q[i].owner == q[j].owner && Drops(d, q[j]) :: Drops(d, q[i])
  }

  // --------------------------------------------- places after some dequeues

  lemma {:induction false} DequeueAllPosition(c: Counters, gone: seq<Entry>, id: string)
    requires id !in Ids(gone)
    ensures Lookup(DequeueAll(c, gone).position, id) == Lookup(c.position, id)
  {
    if gone != [] {
      var front := gone[..|gone| - 1];
      assert forall i | 0 <= i < |front| :: front[i] == gone[i] && gone[i].id in Ids(gone);
      DequeueAllPosition(c, front, id);
      assert gone[|gone| - 1].id in Ids(gone);
    }
  }

  /** As long as the owner keeps something queued, each dequeue counts. */
  lemma {:induction false} DequeueAllCounts(c: Counters, gone: seq<Entry>, o: string)
    requires OwnerCount(gone, o) < Sub(Lookup(c.enqueued, o), Lookup(c.dequeued, o))
    ensures var c' := DequeueAll(c, gone);
      && Lookup(c'.enqueued, o) == Lookup(c.enqueued, o)
      && Lookup(c'.dequeued, o) == Add(Lookup(c.dequeued, o), OwnerCount(gone, o))
  {
    if gone != [] {
      DequeueAllCounts(c, gone[..|gone| - 1], o);
    }
  }

  // --------------------------------------------------- where kept ones stand

  /** The kept entries before place `i` of the queue are the first ones kept. */
  lemma {:induction false} KeptPrefix(q: seq<Entry>, d: Drop, i: nat)
    requires i <= |q|
    ensures |Kept(q[..i], d)| <= |Kept(q, d)|
    ensures Kept(q, d)[..|Kept(q[..i], d)|] == Kept(q[..i], d)
    ensures i < |q| && !Drops(d, q[i]) ==>
      |Kept(q[..i], d)| < |Kept(q, d)| && Kept(q, d)[|Kept(q[..i], d)|] == q[i]
  {
    if i == |q| {
      assert q[..i] == q;
    } else {
      var front := q[..|q| - 1];
      KeptPrefix(front, d, i);
      assert front[..i] == q[..i];
    }
  }

  /** Every kept entry comes from some place of the queue. */
  lemma {:induction false} KeptFrom(q: seq<Entry>, d: Drop, k: nat) returns (i: nat)
    requires k < |Kept(q, d)|
    ensures i < |q| && !Drops(d, q[i]) && |Kept(q[..i], d)| == k
  {
    var front := q[..|q| - 1];
    if k < |Kept(front, d)| {
      i := KeptFrom(front, d, k);
      assert front[..i] == q[..i];
    } else {
      i := |q| - 1;
    }
  }

  lemma {:induction false} SplitCount(q: seq<Entry>, d: Drop, o: string)
    ensures OwnerCount(Kept(q, d), o) + OwnerCount(Dropped(q, d), o) == OwnerCount(q, o)
  {
    if q != [] {
      var front, e := q[..|q| - 1], q[|q| - 1];
      SplitCount(front, d, o);
      FilterLast(q, d);
      OwnerCountConcat(Kept(front, d), if Drops(d, e) then [] else [e], o);
      OwnerCountConcat(Dropped(front, d), if Drops(d, e) then [e] else [], o);
      OwnerCountOne(e, o);
    }
  }

  predicate DropsOf(q: seq<Entry>, d: Drop, k: nat, o: string)
    requires k < |q|
  {
    Drops(d, q[k]) && q[k].owner == o
  }

  lemma DroppedStep(q: seq<Entry>, d: Drop, j: nat, o: string)
    requires j < |q|
    ensures OwnerCount(Dropped(q[..j + 1], d), o) ==
            OwnerCount(Dropped(q[..j], d), o) + if DropsOf(q, d, j, o) then 1 else 0
  {
    hide OwnerCount;
    var e := q[j];
    assert q[..j + 1][..j] == q[..j];
    OwnerCountConcat(Dropped(q[..j], d), if Drops(d, e) then [e] else [], o);
    OwnerCountOne(e, o);
    OwnerCountNone(o);
  }

  lemma OwnerCountNone(o: string)
    ensures OwnerCount([], o) == 0
  {
  }

  lemma {:induction false} DroppedMonotone(q: seq<Entry>, d: Drop, i: nat, j: nat, o: string)
    requires i <= j <= |q|
    ensures OwnerCount(Dropped(q[..i], d), o) <= OwnerCount(Dropped(q[..j], d), o)
    ensures (exists k: nat :: i <= k < j && DropsOf(q, d, k, o))
        <==> OwnerCount(Dropped(q[..i], d), o) < OwnerCount(Dropped(q[..j], d), o)
  {
    hide OwnerCount, Dropped, DropsOf;
    if i < j {
      DroppedMonotone(q, d, i, j - 1, o);
      DroppedStep(q, d, j - 1, o);
    }
  }

  /** Nothing that `q[i]`'s owner queued later is dropped. */
  ghost predicate NothingBehind(q: seq<Entry>, d: Drop, i: nat)
    requires i < |q|
  {
    forall j | i < j < |q| && q[j].owner == q[i].owner :: !Drops(d, q[j])
  }

  lemma PlaceShift(position: u64, dequeued: u64, gone: nat, rank: nat, goneBefore: nat)
    requires Sub(position, dequeued) == 1 + rank
    requires goneBefore <= gone <= MAX_LEN && goneBefore <= rank <= MAX_LEN
    ensures Sub(position, Add(dequeued, gone)) == 1 + rank - goneBefore <==> gone == goneBefore
  {
  }

  lemma DroppedBehind(q: seq<Entry>, d: Drop, i: nat)
    requires i < |q| && !Drops(d, q[i])
    ensures OwnerCount(Dropped(q[..i], d), q[i].owner) <= OwnerCount(Dropped(q, d), q[i].owner)
    ensures OwnerCount(Dropped(q[..i], d), q[i].owner) == OwnerCount(Dropped(q, d), q[i].owner)
       <==> NothingBehind(q, d, i)
  {
    hide OwnerCount, Dropped;
    DroppedMonotone(q, d, i, |q|, q[i].owner);
    assert q[..|q|] == q;
    if j :| i < j < |q| && q[j].owner == q[i].owner && Drops(d, q[j]) {
      assert DropsOf(q, d, j, q[i].owner);
    }
  }

  /** What the counters say about a request that stays. */
  lemma CountersAfterDrop(c: Counters, q: seq<Entry>, a: map<string, Entry>, d: Drop, i: nat)
    requires Indexed(c, q, a) && DistinctIds(q) && |q| <= MAX_LEN
    requires i < |q| && !Drops(d, q[i])
    ensures OwnerCount(Dropped(q, d), q[i].owner) <= MAX_LEN
    ensures OwnerPlace(DequeueAll(c, Dropped(q, d)), q[i])
         == Sub(Lookup(c.position, q[i].id),
                Add(Lookup(c.dequeued, q[i].owner), OwnerCount(Dropped(q, d), q[i].owner)))
  {
    var o, gone := q[i].owner, Dropped(q, d);
    SplitCount(q, d, o);
    KeptCounts(q, d, i);
    OwnerCountBound(q, o);
    assert OwnerIndexed(c, q, a, o);
    DequeueAllCounts(c, gone, o);
    KeptIsNotGone(q, d, i);
    DequeueAllPosition(c, gone, q[i].id);
  }

  lemma KeptIsNotGone(q: seq<Entry>, d: Drop, i: nat)
    requires DistinctIds(q) && i < |q| && !Drops(d, q[i])
    ensures q[i].id !in Ids(Dropped(q, d))
  {
    var gone := Dropped(q, d);
    FilterSplits(q, d);
    forall k | 0 <= k < |gone| ensures gone[k].id != q[i].id {
      assert gone[k] in q && Drops(d, gone[k]);
    }
  }

  /** A kept request is still in place exactly when nothing of its owner behind
      it was dropped. */
  lemma PlaceAfterDrop(c: Counters, q: seq<Entry>, a: map<string, Entry>, d: Drop, i: nat)
    requires Indexed(c, q, a) && InOrder(c, q) && |q| <= MAX_LEN && DistinctIds(q)
    requires i < |q| && !Drops(d, q[i])
    ensures |Kept(q[..i], d)| < |Kept(q, d)|
    ensures InPlace(DequeueAll(c, Dropped(q, d)), Kept(q, d), |Kept(q[..i], d)|) <==> NothingBehind(q, d, i)
  {
    var e, o := q[i], q[i].owner;
    KeptPrefix(q, d, i);
    SplitCount(q[..i], d, o);
    OwnerCountBound(q[..i], o);
    DroppedBehind(q, d, i);
    CountersAfterDrop(c, q, a, d, i);
    assert InPlace(c, q, i);
    PlaceShift(Lookup(c.position, e.id), Lookup(c.dequeued, o), OwnerCount(Dropped(q, d), o),
               OwnerCount(q[..i], o), OwnerCount(Dropped(q[..i], d), o));
  }

  lemma KeptCounts(q: seq<Entry>, d: Drop, i: nat)
    requires i < |q| && !Drops(d, q[i])
    ensures OwnerCount(Kept(q, d), q[i].owner) > 0
  {
    KeptPrefix(q, d, i);
    OwnerCountSplit(Kept(q, d), |Kept(q[..i], d)|, q[i].owner);
  }

  /** Requests that leave the queue unserved keep the order exactly when every
      owner's leave oldest first. */
  lemma DropKeepsOrder(c: Counters, q: seq<Entry>, a: map<string, Entry>, d: Drop)
    requires Indexed(c, q, a) && InOrder(c, q) && |q| <= MAX_LEN && DistinctIds(q)
    ensures InOrder(DequeueAll(c, Dropped(q, d)), Kept(q, d)) <==> OldestFirst(q, d)
  {
    var c', r := DequeueAll(c, Dropped(q, d)), Kept(q, d);
    if InOrder(c', r) {
      forall i | 0 <= i < |q| ensures Drops(d, q[i]) || NothingBehind(q, d, i) {
        if !Drops(d, q[i]) {
          PlaceAfterDrop(c, q, a, d, i);
          assert InPlace(c', r, |Kept(q[..i], d)|);
        }
      }
    }
    if OldestFirst(q, d) {
      forall k | 0 <= k < |r| ensures InPlace(c', r, k) {
        var i := KeptFrom(q, d, k);
        PlaceAfterDrop(c, q, a, d, i);
      }
    }
  }

  // ----------------------------------------------------- the key afterwards

  lemma {:induction false} DequeueAllGranted(c: Counters, gone: seq<Entry>)
    ensures DequeueAll(c, gone).granted == c.granted
  {
    if gone != [] {
      DequeueAllGranted(c, gone[..|gone| - 1]);
    }
  }

  lemma KeyShift(position: u64, dequeued: u64, gone: u64, granted: u64)
    ensures Add(Sub(position, Add(dequeued, gone)), granted) == Sub(Add(Sub(position, dequeued), granted), gone)
  {
  }

  /** In order or not, every request of an owner that leaves unserved takes one
      from the key of each request the owner keeps. The subtraction is unsigned:
      the key wraps around exactly when more leave than it says. */
  lemma KeyAfterDrop(l: License, d: Drop, i: nat)
    requires Consistent(l) && l.prioritizer.EvenOwners? && i < |l.queue| && !Drops(d, l.queue[i])
    ensures var c, gone := l.prioritizer.counters, OwnerCount(Dropped(l.queue, d), l.queue[i].owner);
      && gone <= MAX_LEN
      && Key(DequeueAll(c, Dropped(l.queue, d)), l.queue[i]) == Sub(Key(c, l.queue[i]), gone)
  {
    var c, q, o := l.prioritizer.counters, l.queue, l.queue[i].owner;
    CountersAfterDrop(c, q, l.allocations, d, i);
    DequeueAllGranted(c, Dropped(q, d));
    KeyShift(Lookup(c.position, q[i].id), Lookup(c.dequeued, o), OwnerCount(Dropped(q, d), o), Lookup(c.granted, o));
  }

  /** The key that a kept request would have if keys could be negative: one, plus
      the older requests and the licences of its owner, less what is dropped. */
  ghost function KeyLeft(l: License, d: Drop, i: nat): int
    requires i < |l.queue|
  {
    var o := l.queue[i].owner;
    1 + OwnerCount(l.queue[..i], o) + Holding(l, o) - OwnerCount(Dropped(l.queue, d), o)
  }

  /** From an orderly licence, a key wraps around exactly when the owner's dropped
      requests outnumber its older ones and its licences by two or more. */
  lemma KeyWrapsExactlyWhen(l: License, d: Drop, i: nat)
    requires Consistent(l) && Ordered(l) && i < |l.queue| && !Drops(d, l.queue[i])
    ensures var n := KeyLeft(l, d, i);
      Key(DequeueAll(l.prioritizer.counters, Dropped(l.queue, d)), l.queue[i]) == if n >= 0 then n else n + U64_SIZE
  {
    KeyAfterDrop(l, d, i);
    IndexedSmallKeys(l);
    KeyInOrder(l.prioritizer.counters, l.queue, i);
    assert OwnerIndexed(l.prioritizer.counters, l.queue, l.allocations, l.queue[i].owner);
  }

  lemma ForgottenCounters(l: License, id: string)
    requires Consistent(l) && Ordered(l)
    ensures Consistent(ForgetAllocated(l, id)) && Ordered(ForgetAllocated(l, id))
    ensures Forget(l, id).0.prioritizer
         == EvenOwners(DequeueAll(ForgetAllocated(l, id).prioritizer.counters, Dropped(l.queue, WithId(id))))
  {
    var m := ForgetAllocated(l, id);
    var c := l.prioritizer.counters;
    if id in l.allocations {
      ReleaseIndexed(c, l.queue, l.allocations, id);
      forall i | 0 <= i < |l.queue| ensures InPlace(m.prioritizer.counters, l.queue, i) {
        assert InPlace(c, l.queue, i);
      }
    }
    ForgetQueuedCounters(m, id);
  }

  /** One withdrawal or release from an orderly licence wraps no key around. */
  lemma KeyAfterForget(l: License, id: string, i: nat)
    requires Consistent(l) && Ordered(l) && i < |l.queue| && l.queue[i].id != id
    ensures var m, o := Forget(l, id).0, l.queue[i].owner;
      Key(m.prioritizer.counters, l.queue[i])
      == 1 + OwnerCount(l.queue[..i], o) + Holding(m, o) - OwnerCount(Dropped(l.queue, WithId(id)), o)
  {
    ForgottenCounters(l, id);
    KeyWrapsExactlyWhen(ForgetAllocated(l, id), WithId(id), i);
    DroppedById(l.queue, id);
    OwnerCountBound(Dropped(l.queue, WithId(id)), l.queue[i].owner);
  }

  // ------------------------------------------------------- the two operations

  /** Expiry of silent requests. */
  lemma ExpireQueuedOrder(l: License, expiry: int)
    requires Consistent(l) && Ordered(l)
    ensures Ordered(ExpireQueued(l, expiry)) <==> OldestFirst(l.queue, SilentSince(expiry))
  {
    DropKeepsOrder(l.prioritizer.counters, l.queue, l.allocations, SilentSince(expiry));
  }

  /** Withdrawal of one request, or release of one licence: what matters is that
      no older request of the same owner stays behind. */
  lemma ForgetOrder(l: License, id: string)
    requires Consistent(l) && Ordered(l)
    ensures Ordered(Forget(l, id).0) <==> OldestFirst(l.queue, WithId(id))
  {
    var m := ForgetAllocated(l, id);
    ForgottenCounters(l, id);
    DropKeepsOrder(m.prioritizer.counters, m.queue, m.allocations, WithId(id));
  }

  /** Losing licences never disturbs the order. */
  lemma ExpireAllocationsOrder(l: License, expiry: int)
    requires Ordered(l)
    ensures Ordered(ExpireAllocations(l, expiry))
  {
    var c' := ExpireAllocations(l, expiry).prioritizer.counters;
    forall i | 0 <= i < |l.queue| ensures InPlace(c', l.queue, i) {
      assert InPlace(l.prioritizer.counters, l.queue, i);
    }
  }

  lemma AllocateOrder(l: License, e: Entry)
    requires Ordered(l)
    ensures Ordered(Allocate(l, e).0)
  {
    if |l.allocations| < l.total {
      GrantKeepsOrder(l.prioritizer.counters, l.queue, e);
    }
  }
}
