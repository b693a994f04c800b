/** One licence type as a value: what each operation of flextape's `license`
    computes, before any object is involved. */
module LicenseModel {
  import opened Integers
  import opened Prioritizers
  import opened StableSorting

  datatype License = License(
    total: nat,
    allocations: map<string, Entry>,
    queue: seq<Entry>,
    prioritizer: Prioritizer)

  /** The quantity of a licence is configured as an unsigned 32-bit number. */
  const MAX_TOTAL: int := 0xFFFF_FFFF

  /** The two filters the server runs over a queue. */
  datatype Drop = WithId(id: string) | SilentSince(expiry: int)

  predicate Drops(d: Drop, e: Entry) {
    match d
    case WithId(id) => e.id == id
    case SilentSince(expiry) => e.lastCheckin <= expiry
  }

  function Kept(q: seq<Entry>, d: Drop): seq<Entry> {
    if q == [] then []
    else Kept(q[..|q| - 1], d) + (if Drops(d, q[|q| - 1]) then [] else [q[|q| - 1]])
  }

  function Dropped(q: seq<Entry>, d: Drop): seq<Entry> {
    if q == [] then []
    else Dropped(q[..|q| - 1], d) + (if Drops(d, q[|q| - 1]) then [q[|q| - 1]] else [])
  }

  /** OnDequeue for each entry, first to last. */
  function DequeueAll(c: Counters, gone: seq<Entry>): Counters {
    if gone == [] then c else CountDequeue(DequeueAll(c, gone[..|gone| - 1]), gone[|gone| - 1])
  }

  /** OnRelease for each entry of a map; the order does not matter. */
  function ReleaseAll(c: Counters, gone: map<string, Entry>): Counters {
    c.(granted := map o | o in c.granted && (HeldBy(gone, o) == 0 || HeldBy(gone, o) < c.granted[o])
                    :: c.granted[o] - HeldBy(gone, o))
  }

  function OnReleaseAll(p: Prioritizer, gone: map<string, Entry>): Prioritizer {
    if p.FIFO? then p else EvenOwners(ReleaseAll(p.counters, gone))
  }

  function OnDequeueAll(p: Prioritizer, gone: seq<Entry>): Prioritizer {
    if p.FIFO? then p else EvenOwners(DequeueAll(p.counters, gone))
  }

  // ------------------------------------------------------------- operations

  function SortedBy(p: Prioritizer, q: seq<Entry>): (r: seq<Entry>)
    ensures |r| == |q|
  {
    if p.FIFO? then q else StableSort(p.counters, q)
  }

  function SortQueue(l: License): License {
    l.(queue := SortedBy(l.prioritizer, l.queue))
  }

  function Enqueue(l: License, e: Entry): License {
    SortQueue(l.(queue := l.queue + [e], prioritizer := OnEnqueue(l.prioritizer, e)))
  }

  function Allocate(l: License, e: Entry): (License, bool) {
    if |l.allocations| >= l.total then (l, false)
    else (l.(allocations := l.allocations[e.id := e], prioritizer := OnAllocate(l.prioritizer, e)), true)
  }

  /** The request that the next iteration of Promote serves. */
  function Next(l: License): Entry
    requires l.queue != []
  {
    SortQueue(l).queue[0]
  }

  function PromoteOne(l: License): License
    requires l.queue != []
  {
    var e := Next(l);
    License(l.total,
            l.allocations[e.id := e],
            SortQueue(l).queue[1..],
            OnAllocate(OnDequeue(l.prioritizer, e), e))
  }

  function PromoteUpTo(l: License, n: nat): License
    decreases n
  {
    if n == 0 || l.queue == [] then l else PromoteUpTo(PromoteOne(l), n - 1)
  }

  function Free(l: License): nat {
    if |l.allocations| < l.total then l.total - |l.allocations| else 0
  }

  function Promote(l: License): License {
    PromoteUpTo(l, Free(l))
  }

  function Expired(allocations: map<string, Entry>, expiry: int): map<string, Entry> {
    map k | k in allocations && allocations[k].lastCheckin <= expiry :: allocations[k]
  }

  function ExpireAllocations(l: License, expiry: int): License {
    var gone := Expired(l.allocations, expiry);
    l.(allocations := l.allocations - gone.Keys, prioritizer := OnReleaseAll(l.prioritizer, gone))
  }

  function ExpireQueued(l: License, expiry: int): License {
    var d := SilentSince(expiry);
    l.(queue := Kept(l.queue, d), prioritizer := OnDequeueAll(l.prioritizer, Dropped(l.queue, d)))
  }

  function ForgetAllocated(l: License, id: string): License {
    if id in l.allocations then
      l.(allocations := l.allocations - {id}, prioritizer := OnRelease(l.prioritizer, l.allocations[id]))
    else l
  }

  /** The queue's Forget returns the last entry it removed, and only that one
      is reported to the prioritizer. */
  function ForgetQueued(l: License, id: string): License {
    var gone := Dropped(l.queue, WithId(id));
    l.(queue := Kept(l.queue, WithId(id)),
       prioritizer := if gone == [] then l.prioritizer else OnDequeue(l.prioritizer, gone[|gone| - 1]))
  }

  function Forget(l: License, id: string): (License, nat) {
    var l' := ForgetQueued(ForgetAllocated(l, id), id);
    (l', (if id in l.allocations then 1 else 0) + (if id in Ids(l.queue) then 1 else 0))
  }

  function CheckInAllocated(l: License, id: string, now: int): License
    requires id in l.allocations
  {
    l.(allocations := l.allocations[id := l.allocations[id].(lastCheckin := now)])
  }

  function CheckInQueued(l: License, i: nat, now: int): License
    requires i < |l.queue|
  {
    l.(queue := l.queue[i := l.queue[i].(lastCheckin := now)])
  }

  predicate Knows(l: License, id: string) {
    id in l.allocations || id in Ids(l.queue)
  }

  // -------------------------------------------------------------- invariant

  /** What holds of a licence between any two calls, as long as ids are unique. */
  ghost predicate Consistent(l: License) {
    match l
    case License(total, allocations, queue, prioritizer) =>
      && |allocations| <= total <= MAX_TOTAL
      && |queue| <= MAX_LEN
      && (forall k | k in allocations :: allocations[k].id == k)
      && DistinctIds(queue)
      && Ids(queue) !! allocations.Keys
      && (prioritizer.EvenOwners? ==> Indexed(prioritizer.counters, queue, allocations))
  }

  function Waiting(l: License, o: string): nat { OwnerCount(l.queue, o) }

  function Holding(l: License, o: string): nat { HeldBy(l.allocations, o) }

  // ------------------------------------------- how each hook keeps the index

  lemma DropAtOwnerCount(q: seq<Entry>, i: nat, o: string)
    requires i < |q|
    ensures OwnerCount(q[..i] + q[i + 1..], o) == OwnerCount(q, o) - (if q[i].owner == o then 1 else 0)
  {
    OwnerCountSplit(q, i, o);
    OwnerCountConcat(q[..i], q[i + 1..], o);
  }

  lemma IdsConcat(a: seq<Entry>, b: seq<Entry>)
    ensures Ids(a + b) == Ids(a) + Ids(b)
  {
    forall id ensures id in Ids(a + b) <==> id in Ids(a) + Ids(b) {
      if id in Ids(a + b) {
        var k :| 0 <= k < |a + b| && (a + b)[k].id == id;
        assert if k < |a| then a[k].id == id else b[k - |a|].id == id;
      }
      if id in Ids(a) {
        var k :| 0 <= k < |a| && a[k].id == id;
        assert (a + b)[k].id == id;
      }
      if id in Ids(b) {
        var k :| 0 <= k < |b| && b[k].id == id;
        assert (a + b)[|a| + k].id == id;
      }
    }
  }

  lemma DistinctParts(a: seq<Entry>, b: seq<Entry>)
    requires DistinctIds(a + b)
    ensures DistinctIds(a) && DistinctIds(b) && Ids(a) !! Ids(b)
  {
    forall i, j | 0 <= i < j < |a| ensures a[i].id != a[j].id {
      assert (a + b)[i].id != (a + b)[j].id;
    }
    forall i, j | 0 <= i < j < |b| ensures b[i].id != b[j].id {
      assert (a + b)[|a| + i].id != (a + b)[|a| + j].id;
    }
    forall i, j | 0 <= i < |a| && 0 <= j < |b| ensures a[i].id != b[j].id {
      assert (a + b)[i].id != (a + b)[|a| + j].id;
    }
  }

  lemma DistinctWhole(a: seq<Entry>, b: seq<Entry>)
    requires DistinctIds(a) && DistinctIds(b) && Ids(a) !! Ids(b)
    ensures DistinctIds(a + b)
  {
    forall i, j | 0 <= i < j < |a + b| ensures (a + b)[i].id != (a + b)[j].id {
      if i < |a| <= j {
        assert a[i].id in Ids(a) && b[j - |a|].id in Ids(b);
      }
    }
  }

  lemma IdsOfOne(e: Entry)
    ensures Ids([e]) == {e.id}
  {
    assert [e][0] == e;
  }

  lemma DropAtIds(q: seq<Entry>, i: nat)
    requires i < |q| && DistinctIds(q)
    ensures Ids(q[..i] + q[i + 1..]) == Ids(q) - {q[i].id}
    ensures DistinctIds(q[..i] + q[i + 1..])
  {
    var front, e, back := q[..i], q[i], q[i + 1..];
    assert q == (front + [e]) + back;
    hide Ids, DistinctIds;
    DistinctParts(front + [e], back);
    DistinctParts(front, [e]);
    IdsConcat(front + [e], back);
    IdsConcat(front, [e]);
    IdsConcat(front, back);
    IdsOfOne(e);
    DistinctWhole(front, back);
  }

  lemma EnqueueIndexed(c: Counters, q: seq<Entry>, a: map<string, Entry>, e: Entry)
    requires Indexed(c, q, a) && |q| < MAX_LEN && e.id !in Ids(q)
    ensures Indexed(CountEnqueue(c, e), q + [e], a)
  {
    forall o ensures OwnerIndexed(CountEnqueue(c, e), q + [e], a, o) {
      assert OwnerIndexed(c, q, a, o);
      assert (q + [e])[..|q|] == q;
      OwnerCountBound(q, o);
    }
    InsertAtIds(q, |q|, e);
    assert q[..|q|] + [e] + q[|q|..] == q + [e];
  }

  lemma DequeueIndexed(c: Counters, q: seq<Entry>, a: map<string, Entry>, i: nat)
    requires Indexed(c, q, a) && |q| <= MAX_LEN && DistinctIds(q) && i < |q|
    ensures Indexed(CountDequeue(c, q[i]), q[..i] + q[i + 1..], a)
  {
    var r := q[..i] + q[i + 1..];
    forall o ensures OwnerIndexed(CountDequeue(c, q[i]), r, a, o) {
      assert OwnerIndexed(c, q, a, o) && OwnerIndexed(c, q, a, q[i].owner);
      DropAtOwnerCount(q, i, o);
      OwnerCountBound(q, o);
    }
    DropAtIds(q, i);
  }

  lemma AllocateIndexed(c: Counters, q: seq<Entry>, a: map<string, Entry>, e: Entry)
    requires Indexed(c, q, a) && |a| < MAX_TOTAL && e.id !in a
    ensures Indexed(CountAllocate(c, e), q, a[e.id := e])
  {
    var b := a[e.id := e];
    forall o ensures OwnerIndexed(CountAllocate(c, e), q, b, o) {
      assert OwnerIndexed(c, q, a, o);
      HeldByInsert(a, e, o);
      HeldByBound(a, o);
    }
  }

  lemma ReleaseIndexed(c: Counters, q: seq<Entry>, a: map<string, Entry>, k: string)
    requires Indexed(c, q, a) && k in a
    ensures Indexed(CountRelease(c, a[k]), q, a - {k})
  {
    forall o ensures OwnerIndexed(CountRelease(c, a[k]), q, a - {k}, o) {
      assert OwnerIndexed(c, q, a, o);
      HeldByRemove(a, k, o);
    }
  }

  lemma SortIndexed(c: Counters, q: seq<Entry>, a: map<string, Entry>)
    requires Indexed(c, q, a)
    ensures Indexed(c, StableSort(c, q), a)
  {
    StableSortPermutes(c, q);
    SamePermutationIds(q, StableSort(c, q));
    forall o ensures OwnerIndexed(c, StableSort(c, q), a, o) {
      assert OwnerIndexed(c, q, a, o);
      StableSortOwnerCount(c, q, o);
    }
  }

  lemma HeldBySplit(a: map<string, Entry>, gone: map<string, Entry>, o: string)
    requires gone.Keys <= a.Keys && forall k | k in gone :: gone[k] == a[k]
    ensures HeldBy(a, o) == HeldBy(a - gone.Keys, o) + HeldBy(gone, o)
  {
    var rest, out := Holders(a - gone.Keys, o), Holders(gone, o);
    assert Holders(a, o) == rest + out;
    assert rest !! out;
  }

  lemma ReleaseAllIndexed(c: Counters, q: seq<Entry>, a: map<string, Entry>, gone: map<string, Entry>)
    requires Indexed(c, q, a)
    requires gone.Keys <= a.Keys && forall k | k in gone :: gone[k] == a[k]
    ensures Indexed(ReleaseAll(c, gone), q, a - gone.Keys)
  {
    forall o ensures OwnerIndexed(ReleaseAll(c, gone), q, a - gone.Keys, o) {
      assert OwnerIndexed(c, q, a, o);
      HeldBySplit(a, gone, o);
    }
  }

  /** Releasing one more licence after a set of others: the loop over the
      allocation map may visit it in any order. */
  lemma ReleaseAllStep(c: Counters, gone: map<string, Entry>, e: Entry)
    requires e.id !in gone
    ensures ReleaseAll(c, gone[e.id := e]) == CountRelease(ReleaseAll(c, gone), e)
  {
    var m, n := ReleaseAll(c, gone[e.id := e]).granted, CountRelease(ReleaseAll(c, gone), e).granted;
    forall o ensures (o in m <==> o in n) && (o in m ==> m[o] == n[o]) {
      HeldByInsert(gone, e, o);
    }
    assert m == n;
  }

  lemma ReleaseNone(p: Prioritizer)
    ensures OnReleaseAll(p, map[]) == p
  {
    if p.EvenOwners? {
      forall o ensures HeldBy(map[], o) == 0 {
        assert Holders(map[], o) == {};
      }
      assert ReleaseAll(p.counters, map[]).granted == p.counters.granted;
    }
  }

  lemma ReleaseOneMore(p: Prioritizer, gone: map<string, Entry>, e: Entry)
    requires e.id !in gone
    ensures OnReleaseAll(p, gone[e.id := e]) == OnRelease(OnReleaseAll(p, gone), e)
  {
    if p.EvenOwners? {
      ReleaseAllStep(p.counters, gone, e);
    }
  }

  lemma DequeueOneMore(p: Prioritizer, gone: seq<Entry>, i: nat)
    requires i < |gone|
    ensures OnDequeueAll(p, gone[..i + 1]) == OnDequeue(OnDequeueAll(p, gone[..i]), gone[i])
  {
    assert gone[..i + 1][..i] == gone[..i];
  }
}
