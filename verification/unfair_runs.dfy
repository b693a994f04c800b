/** Concrete runs of an even-owners licence, each from an empty one: in the first
    the licences end up uneven, in the second a sort key wraps around, in the
    third a counter is left behind. */
module UnfairRuns {
  import opened Integers
  import opened Prioritizers
  import opened StableSorting
  import opened LicenseModel
  import opened LicenseInvariant
  import opened EvenOwnersFairness

  const A0 := Entry("a0", "ann", "", 0)
  const A1 := Entry("a1", "ann", "", 0)
  const A2 := Entry("a2", "ann", "", 0)
  const A3 := Entry("a3", "ann", "", 0)
  const B1 := Entry("b1", "bob", "", 0)
  const C0 := Entry("c0", "cid", "", 0)

  function Empty(total: nat): License {
    License(total, map[], [], EvenOwners(NO_COUNTERS))
  }

  lemma EmptyIsFine(total: nat)
    requires total <= MAX_TOTAL
    ensures Consistent(Empty(total)) && Ordered(Empty(total))
  {
    forall o ensures OwnerIndexed(NO_COUNTERS, [], map[], o) {
      assert Holders(map[], o) == {};
    }
  }

  // ------------------------------------------------------------ single steps

  /** A request that sorts behind all others stays at the end of the queue. */
  lemma EnqueueLast(l: License, e: Entry, c: Counters, q: seq<Entry>)
    requires l.prioritizer.EvenOwners? && c == CountEnqueue(l.prioritizer.counters, e)
    requires q == l.queue + [e] && Sorted(c, q)
    ensures Enqueue(l, e) == License(l.total, l.allocations, q, EvenOwners(c))
  {
    AnyStableSort(c, q, q);
  }

  /** What becomes of a licence when its first request is served. */
  function Served(l: License): License
    requires l.prioritizer.EvenOwners? && l.queue != []
  {
    var e := l.queue[0];
    License(l.total, l.allocations[e.id := e], l.queue[1..],
            EvenOwners(CountAllocate(CountDequeue(l.prioritizer.counters, e), e)))
  }

  /** With one licence free, or one request waiting, Promote serves one. */
  lemma PromoteServesHead(l: License)
    requires l.prioritizer.EvenOwners? && l.queue != [] && Sorted(l.prioritizer.counters, l.queue)
    requires Free(l) == 1 || (Free(l) > 1 && |l.queue| == 1)
    ensures Promote(l) == Served(l)
  {
    AnyStableSort(l.prioritizer.counters, l.queue, l.queue);
    assert PromoteOne(l) == Served(l);
    assert PromoteUpTo(Served(l), Free(l) - 1) == Served(l);
  }

  lemma EnqueueFirst(l: License, e: Entry, c: Counters)
    requires l.prioritizer.EvenOwners? && c == CountEnqueue(l.prioritizer.counters, e) && l.queue == []
    ensures Enqueue(l, e) == License(l.total, l.allocations, [e], EvenOwners(c))
  {
    EnqueueLast(l, e, c, [e]);
  }

  lemma SortedTwo(c: Counters, a: Entry, b: Entry)
    requires Key(c, a) <= Key(c, b)
    ensures Sorted(c, [a, b])
  {
  }

  lemma CountedAndServed(c: Counters, e: Entry)
    requires c == NO_COUNTERS.(granted := c.granted)
    ensures CountDequeue(CountEnqueue(c, e), e) == c
  {
    var d := CountEnqueue(c, e);
    assert d.position - {e.id} == map[] && d.enqueued - {e.owner} == map[] && d.dequeued - {e.owner} == map[];
  }

  /** Only licences that are held are counted. */
  function Holds(g: map<string, u64>): Prioritizer {
    EvenOwners(Counters(map[], map[], map[], g))
  }

  /** A request that is queued and served at once leaves no trace but the
      licence its owner holds. */
  lemma EnqueueAndServe(l: License, e: Entry)
    requires l.queue == [] && Free(l) > 0
    requires l.prioritizer.EvenOwners? && l.prioritizer == Holds(l.prioritizer.counters.granted)
    ensures var g := CountAllocate(l.prioritizer.counters, e).granted;
      Promote(Enqueue(l, e)) == License(l.total, l.allocations[e.id := e], [], Holds(g))
  {
    var c := CountEnqueue(l.prioritizer.counters, e);
    EnqueueLast(l, e, c, [e]);
    CountedAndServed(l.prioritizer.counters, e);
    hide Enqueue, Promote, CountEnqueue, CountDequeue;
    PromoteServesHead(Enqueue(l, e));
  }

  lemma EnqueueFine(l: License, e: Entry)
    requires Consistent(l) && Ordered(l) && |l.queue| < MAX_LEN && !Knows(l, e.id)
    ensures Consistent(Enqueue(l, e)) && Ordered(Enqueue(l, e))
  {
    EnqueueConsistent(l, e);
    EnqueueOrdered(l, e);
  }

  lemma PromoteFine(l: License)
    requires Consistent(l) && Ordered(l)
    ensures Consistent(Promote(l)) && Ordered(Promote(l))
  {
    PromoteConsistent(l);
    PromoteFair(l, "", "");
  }

  /** Withdrawal of the last request in the queue. */
  lemma ForgetLast(l: License, q: seq<Entry>, e: Entry)
    requires l.queue == q + [e] && e.id !in l.allocations && forall i | 0 <= i < |q| :: q[i].id != e.id
    ensures Forget(l, e.id).0 == l.(queue := q, prioritizer := OnDequeue(l.prioritizer, e))
  {
    ForgetNobody(q, e.id);
    assert l.queue[..|q|] == q;
  }

  lemma {:induction false} ForgetNobody(q: seq<Entry>, id: string)
    requires forall i | 0 <= i < |q| :: q[i].id != id
    ensures Kept(q, WithId(id)) == q && Dropped(q, WithId(id)) == []
  {
    if q != [] {
      ForgetNobody(q[..|q| - 1], id);
    }
  }

  // ------------------------------------------------------------ a lead of two

  /** Two licences, both taken: ann has one and waits for two more. */
  const BUSY: License := License(
    2,
    map["a0" := A0, "c0" := C0],
    [A1, A2],
    EvenOwners(Counters(map["a1" := 1, "a2" := 2], map["ann" := 2], map[], map["ann" := 1, "cid" := 1])))

  const ANN_HOLDS: License := License(2, map["a0" := A0], [], Holds(map["ann" := 1]))

  const BOTH_TAKEN: License := License(2, map["a0" := A0, "c0" := C0], [], Holds(map["ann" := 1, "cid" := 1]))

  const ANN_WAITS: License := License(
    2,
    map["a0" := A0, "c0" := C0],
    [A1],
    EvenOwners(Counters(map["a1" := 1], map["ann" := 1], map[], map["ann" := 1, "cid" := 1])))

  lemma BothAreServed()
    ensures Promote(Enqueue(Empty(2), A0)) == ANN_HOLDS
    ensures Promote(Enqueue(ANN_HOLDS, C0)) == BOTH_TAKEN
  {
    EnqueueAndServe(Empty(2), A0);
    EnqueueAndServe(ANN_HOLDS, C0);
  }

  lemma AnnAsksTwice()
    ensures Enqueue(BOTH_TAKEN, A1) == ANN_WAITS
    ensures Enqueue(ANN_WAITS, A2) == BUSY
  {
    EnqueueFirst(BOTH_TAKEN, A1, ANN_WAITS.prioritizer.counters);
    SortedTwo(BUSY.prioritizer.counters, A1, A2);
    EnqueueLast(ANN_WAITS, A2, BUSY.prioritizer.counters, [A1, A2]);
  }

  lemma BusyIsFine()
    ensures Consistent(BUSY) && Ordered(BUSY)
  {
    BothAreServed();
    AnnAsksTwice();
    hide Enqueue, Promote, Consistent, Ordered;
    EmptyIsFine(2);
    EnqueueFine(Empty(2), A0);
    PromoteFine(Enqueue(Empty(2), A0));
    EnqueueFine(ANN_HOLDS, C0);
    PromoteFine(Enqueue(ANN_HOLDS, C0));
    EnqueueFine(BOTH_TAKEN, A1);
    EnqueueFine(ANN_WAITS, A2);
  }

  /** ann withdraws her newer request. */
  const WITHDRAWN: License := License(
    2,
    map["a0" := A0, "c0" := C0],
    [A1],
    EvenOwners(Counters(map["a1" := 1], map["ann" := 2], map["ann" := 1], map["ann" := 1, "cid" := 1])))

  /** bob, who holds nothing, asks for a licence. */
  const BOB_WAITS: License := License(
    2,
    map["a0" := A0, "c0" := C0],
    [A1, B1],
    EvenOwners(Counters(map["a1" := 1, "b1" := 1], map["ann" := 2, "bob" := 1], map["ann" := 1],
                        map["ann" := 1, "cid" := 1])))

  /** cid gives a licence back. */
  const ONE_FREE: License := License(
    2,
    map["a0" := A0],
    [A1, B1],
    EvenOwners(Counters(map["a1" := 1, "b1" := 1], map["ann" := 2, "bob" := 1], map["ann" := 1], map["ann" := 1])))

  lemma Withdraw()
    ensures Forget(BUSY, "a2").0 == WITHDRAWN
  {
    ForgetLast(BUSY, [A1], A2);
    var c := BUSY.prioritizer.counters;
    assert c.position - {"a2"} == map["a1" := 1];
    assert CountDequeue(c, A2) == WITHDRAWN.prioritizer.counters;
  }

  lemma BobAsks()
    ensures Enqueue(WITHDRAWN, B1) == BOB_WAITS
  {
    SortedTwo(BOB_WAITS.prioritizer.counters, A1, B1);
    EnqueueLast(WITHDRAWN, B1, BOB_WAITS.prioritizer.counters, [A1, B1]);
  }

  lemma CidReleases()
    ensures Forget(BOB_WAITS, "c0").0 == ONE_FREE
  {
    var c := BOB_WAITS.prioritizer.counters;
    assert BOB_WAITS.allocations - {"c0"} == map["a0" := A0];
    assert c.granted - {"cid"} == map["ann" := 1];
    assert ForgetAllocated(BOB_WAITS, "c0") == ONE_FREE;
    ForgetNobody([A1, B1], "c0");
  }

  lemma AnnIsServed()
    ensures Promote(ONE_FREE) == Served(ONE_FREE)
  {
    SortedTwo(ONE_FREE.prioritizer.counters, A1, B1);
    PromoteServesHead(ONE_FREE);
  }

  lemma AnnIsTwoAhead()
    ensures Holding(ONE_FREE, "ann") == 1
    ensures Holding(Served(ONE_FREE), "ann") == 2
    ensures Holding(Served(ONE_FREE), "bob") == 0
    ensures Waiting(Served(ONE_FREE), "bob") == 1
  {
    assert Served(ONE_FREE).queue == [B1] && [B1][..0] == [] && OwnerCount([B1], "bob") == 1;
    assert Holders(ONE_FREE.allocations, "ann") == {"a0"};
    assert Holders(Served(ONE_FREE).allocations, "ann") == {"a0", "a1"};
    assert Holders(Served(ONE_FREE).allocations, "bob") == {};
  }

  /** From an empty licence to `BUSY`, which is consistent and in order; then the
      free licence goes to ann, who holds two while bob waits with none: no owner
      that gains a licence should end up two ahead. */
  lemma UnfairAfterWithdrawal()
    ensures Enqueue(Enqueue(Promote(Enqueue(Promote(Enqueue(Empty(2), A0)), C0)), A1), A2) == BUSY
    ensures Consistent(BUSY) && Ordered(BUSY)
    ensures var l := Forget(Enqueue(Forget(BUSY, "a2").0, B1), "c0").0;
      && Holding(Promote(l), "ann") > Holding(l, "ann")
      && Waiting(Promote(l), "bob") > 0
      && Holding(Promote(l), "ann") == Holding(Promote(l), "bob") + 2
  {
    hide Served, Forget, Enqueue, Promote, Holding, Waiting, Consistent, Ordered;
    BothAreServed();
    AnnAsksTwice();
    BusyIsFine();
    Withdraw();
    BobAsks();
    CidReleases();
    AnnIsServed();
    AnnIsTwoAhead();
  }

  // ------------------------------------------------------- the key wraps around

  /** One licence, which cid holds; ann has asked for one three times. */
  const THREE_WAIT: License := License(
    1,
    map["c0" := C0],
    [A1, A2, A3],
    EvenOwners(Counters(map["a1" := 1, "a2" := 2, "a3" := 3], map["ann" := 3], map[], map["cid" := 1])))

  /** ann withdraws both of the requests she queued after A1. */
  const TWO_WITHDRAWN: License := License(
    1,
    map["c0" := C0],
    [A1],
    EvenOwners(Counters(map["a1" := 1], map["ann" := 3], map["ann" := 2], map["cid" := 1])))

  const CID_HOLDS: License := License(1, map["c0" := C0], [], Holds(map["cid" := 1]))

  const ONE_WAITS: License := License(
    1, map["c0" := C0], [A1], EvenOwners(Counters(map["a1" := 1], map["ann" := 1], map[], map["cid" := 1])))

  const TWO_WAIT: License := License(
    1,
    map["c0" := C0],
    [A1, A2],
    EvenOwners(Counters(map["a1" := 1, "a2" := 2], map["ann" := 2], map[], map["cid" := 1])))

  lemma ThreeWaitRun()
    ensures Promote(Enqueue(Empty(1), C0)) == CID_HOLDS
    ensures Enqueue(CID_HOLDS, A1) == ONE_WAITS
    ensures Enqueue(ONE_WAITS, A2) == TWO_WAIT
    ensures Enqueue(TWO_WAIT, A3) == THREE_WAIT
  {
    EnqueueAndServe(Empty(1), C0);
    EnqueueFirst(CID_HOLDS, A1, ONE_WAITS.prioritizer.counters);
    SortedTwo(TWO_WAIT.prioritizer.counters, A1, A2);
    EnqueueLast(ONE_WAITS, A2, TWO_WAIT.prioritizer.counters, [A1, A2]);
    AnnAsksThird();
  }

  lemma AnnAsksThird()
    ensures Enqueue(TWO_WAIT, A3) == THREE_WAIT
  {
    var c, q := THREE_WAIT.prioritizer.counters, [A1, A2, A3];
    assert Key(c, q[0]) == 1 && Key(c, q[1]) == 2 && Key(c, q[2]) == 3;
    assert Sorted(c, q);
    hide Sorted, Key;
    EnqueueLast(TWO_WAIT, A3, c, q);
  }

  lemma AnnWithdrawsTwo()
    ensures Forget(Forget(THREE_WAIT, "a3").0, "a2").0 == TWO_WITHDRAWN
  {
    var c := THREE_WAIT.prioritizer.counters;
    assert c.position - {"a3"} == map["a1" := 1, "a2" := 2];
    var d := CountDequeue(c, A3);
    assert d == Counters(map["a1" := 1, "a2" := 2], map["ann" := 3], map["ann" := 1], map["cid" := 1]);
    assert d.position - {"a2"} == map["a1" := 1];
    assert CountDequeue(d, A2) == TWO_WITHDRAWN.prioritizer.counters;
    hide Forget, CountDequeue;
    ForgetLast(THREE_WAIT, [A1, A2], A3);
    ForgetLast(Forget(THREE_WAIT, "a3").0, [A1], A2);
  }

  /** After two withdrawals A1, which should sort in front of any request of an
      owner with licences, sorts behind all of them. */
  lemma KeyWrapsAround()
    ensures var l := Enqueue(Enqueue(Enqueue(Promote(Enqueue(Empty(1), C0)), A1), A2), A3);
      var m := Forget(Forget(l, "a3").0, "a2").0;
      && m.queue == [A1] && m.allocations == map["c0" := C0]
      && m.prioritizer.EvenOwners? && Key(m.prioritizer.counters, A1) == U64_SIZE - 1
  {
    hide Enqueue, Promote, Forget;
    ThreeWaitRun();
    AnnWithdrawsTwo();
  }

  // -------------------------------------------- adopting what is still queued

  const QUEUED: License := Enqueue(Empty(2), A1)

  lemma QueuedState()
    ensures QUEUED == License(2, map[], [A1], EvenOwners(Counters(map["a1" := 1], map["ann" := 1], map[], map[])))
  {
    EnqueueLast(Empty(2), A1, Counters(map["a1" := 1], map["ann" := 1], map[], map[]), [A1]);
  }

  const ADOPTED: License := License(
    2, map["a1" := A1], [A1], EvenOwners(Counters(map["a1" := 1], map["ann" := 1], map[], map["ann" := 1])))

  const DOUBLED: License := License(
    2, map["a1" := A1], [], EvenOwners(Counters(map[], map[], map[], map["ann" := 2])))

  lemma PromoteAdopted()
    ensures Promote(ADOPTED) == DOUBLED
  {
    PromoteServesHead(ADOPTED);
    var c := ADOPTED.prioritizer.counters;
    assert c.position - {"a1"} == map[] && c.enqueued - {"ann"} == map[];
    assert map["ann" := 1] - {"ann"} == map[];
    assert CountDequeue(c, A1) == Counters(map[], map[], map[], map["ann" := 1]);
    assert map["a1" := A1][A1.id := A1] == map["a1" := A1];
    assert map["ann" := 1]["ann" := 2] == map["ann" := 2];
    assert CountAllocate(CountDequeue(c, A1), A1) == DOUBLED.prioritizer.counters;
    assert [A1][1..] == [];
  }

  lemma ForgetDoubled()
    ensures Forget(DOUBLED, "a1").0 == License(2, map[], [], EvenOwners(Counters(map[], map[], map[], map["ann" := 1])))
  {
    assert map["a1" := A1] - {"a1"} == map[];
    assert map["ann" := 2]["ann" := 1] == map["ann" := 1];
    ForgetNobody([], "a1");
  }

  /** During start-up ann's queued request is adopted as if it held a licence.
      Once it is promoted and released, ann holds nothing and waits for nothing,
      yet the prioritizer counts one licence against her for good. */
  lemma AdoptionDrifts()
    ensures Allocate(QUEUED, A1) == (ADOPTED, true)
    ensures var l := Forget(Promote(ADOPTED), "a1").0;
      l.queue == [] && l.allocations == map[] && Lookup(l.prioritizer.counters.granted, "ann") == 1
  {
    QueuedState();
    PromoteAdopted();
    ForgetDoubled();
  }
}
