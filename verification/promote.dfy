/** What Promote moves from the queue to the allocations: everything it can,
    nothing twice, and each owner's requests oldest first. */
module Promotion {
  import opened Integers
  import opened Prioritizers
  import opened StableSorting
  import opened LicenseModel
  import opened LicenseInvariant
  import opened EvenOwnersFairness

  /** The requests that `n` iterations of Promote serve, in the order served. */
  function Served(l: License, n: nat): seq<Entry>
    decreases n
  {
    if n == 0 || l.queue == [] then [] else [Next(l)] + Served(PromoteOne(l), n - 1)
  }

  /** The requests of one owner, in queue order. */
  function OwnerQueue(q: seq<Entry>, o: string): seq<Entry> {
    if q == [] then []
    else OwnerQueue(q[..|q| - 1], o) + (if q[|q| - 1].owner == o then [q[|q| - 1]] else [])
  }

  /** `b` is `a` with the served requests added, each under its own id. */
  ghost predicate Grants(a: map<string, Entry>, served: seq<Entry>, b: map<string, Entry>) {
    && b.Keys == a.Keys + Ids(served)
    && (forall k | k in a :: b[k] == a[k])
    && (forall i | 0 <= i < |served| :: b[served[i].id] == served[i])
    && |b| == |a| + |served|
  }

  /** From `l` to `l'` exactly the served requests moved. */
  ghost predicate Conserves(l: License, served: seq<Entry>, l': License) {
    && l'.total == l.total
    && multiset(l.queue) == multiset(served) + multiset(l'.queue)
    && Grants(l.allocations, served, l'.allocations)
  }

  /** Nobody loses a licence to Promote. */
  lemma {:induction false} PromoteKeeps(l: License, n: nat, k: string)
    requires Consistent(l) && n <= l.total - |l.allocations| && k in l.allocations
    ensures k in PromoteUpTo(l, n).allocations && PromoteUpTo(l, n).allocations[k] == l.allocations[k]
    decreases n
  {
    hide Consistent, PromoteOne;
    if n != 0 && l.queue != [] {
      PromoteOneConsistent(l);
      PromoteKeeps(PromoteOne(l), n - 1, k);
    }
  }

  /** Whoever is served holds a licence under its own id afterwards. */
  lemma {:induction false} PromoteGives(l: License, n: nat, i: nat)
    requires Consistent(l) && n <= l.total - |l.allocations| && i < |Served(l, n)|
    ensures var e := Served(l, n)[i];
      e.id !in l.allocations && e.id in PromoteUpTo(l, n).allocations && PromoteUpTo(l, n).allocations[e.id] == e
    decreases n
  {
    hide Consistent, PromoteOne;
    PromoteOneConsistent(l);
    if i == 0 {
      PromoteKeeps(PromoteOne(l), n - 1, Next(l).id);
    } else {
      PromoteGives(PromoteOne(l), n - 1, i - 1);
    }
  }

  /** Nobody else gets one. */
  lemma {:induction false} PromoteGivesOnly(l: License, n: nat, k: string)
    requires Consistent(l) && n <= l.total - |l.allocations|
    requires k in PromoteUpTo(l, n).allocations && k !in l.allocations
    ensures k in Ids(Served(l, n))
    decreases n
  {
    hide Consistent, PromoteOne, Ids;
    if n != 0 && l.queue != [] {
      var m := PromoteOne(l);
      PromoteOneConsistent(l);
      IdsCons(Next(l), Served(m, n - 1));
      if k != Next(l).id {
        PromoteGivesOnly(m, n - 1, k);
      }
    }
  }

  lemma IdsCons(e: Entry, rest: seq<Entry>)
    ensures Ids([e] + rest) == {e.id} + Ids(rest)
  {
    InsertAtIds(rest, 0, e);
    assert rest[..0] + [e] + rest[0..] == [e] + rest;
  }

  lemma {:induction false} PromoteSize(l: License, n: nat)
    requires Consistent(l) && n <= l.total - |l.allocations|
    ensures |PromoteUpTo(l, n).allocations| == |l.allocations| + |Served(l, n)|
    ensures PromoteUpTo(l, n).total == l.total
    ensures |Served(l, n)| == if n <= |l.queue| then n else |l.queue|
    decreases n
  {
    hide Consistent, PromoteOne;
    if n != 0 && l.queue != [] {
      PromoteOneConsistent(l);
      PromoteSize(PromoteOne(l), n - 1);
    }
  }

  lemma PromoteUpToGrants(l: License, n: nat)
    requires Consistent(l) && n <= l.total - |l.allocations|
    ensures Grants(l.allocations, Served(l, n), PromoteUpTo(l, n).allocations)
  {
    hide Consistent, PromoteUpTo, Served, Ids;
    PromoteKeepsAll(l, n);
    PromoteGivesAll(l, n);
    PromoteSize(l, n);
  }

  lemma PromoteKeepsAll(l: License, n: nat)
    requires Consistent(l) && n <= l.total - |l.allocations|
    ensures forall k | k in l.allocations ::
              k in PromoteUpTo(l, n).allocations && PromoteUpTo(l, n).allocations[k] == l.allocations[k]
    ensures forall k | k in PromoteUpTo(l, n).allocations && k !in l.allocations :: k in Ids(Served(l, n))
  {
    hide Consistent, PromoteUpTo, Served, Ids;
    forall k | k in l.allocations
      ensures k in PromoteUpTo(l, n).allocations && PromoteUpTo(l, n).allocations[k] == l.allocations[k]
    {
      PromoteKeeps(l, n, k);
    }
    forall k | k in PromoteUpTo(l, n).allocations && k !in l.allocations ensures k in Ids(Served(l, n)) {
      PromoteGivesOnly(l, n, k);
    }
  }

  lemma PromoteGivesAll(l: License, n: nat)
    requires Consistent(l) && n <= l.total - |l.allocations|
    ensures var b, served := PromoteUpTo(l, n).allocations, Served(l, n);
      && (forall i | 0 <= i < |served| :: served[i].id in b && b[served[i].id] == served[i])
      && Ids(served) <= b.Keys
  {
    hide Consistent, PromoteUpTo, Served;
    var b, served := PromoteUpTo(l, n).allocations, Served(l, n);
    forall i | 0 <= i < |served| ensures served[i].id in b && b[served[i].id] == served[i] {
      PromoteGives(l, n, i);
    }
  }

  lemma QueueStep(q: seq<Entry>, e: Entry, q1: seq<Entry>, rest: seq<Entry>, q2: seq<Entry>)
    requires multiset(q) == multiset(q1) + multiset{e}
    requires multiset(q1) == multiset(rest) + multiset(q2)
    ensures multiset(q) == multiset([e] + rest) + multiset(q2)
  {
  }

  lemma ServeFirst(l: License, n: nat)
    requires n > 0 && l.queue != []
    ensures Served(l, n) == [Next(l)] + Served(PromoteOne(l), n - 1)
    ensures PromoteUpTo(l, n) == PromoteUpTo(PromoteOne(l), n - 1)
  {
  }

  lemma ServeNobody(l: License, n: nat)
    requires n == 0 || l.queue == []
    ensures Served(l, n) == [] && PromoteUpTo(l, n) == l
  {
  }

  lemma {:induction false} PromoteSplitsQueue(l: License, n: nat)
    requires Consistent(l) && n <= l.total - |l.allocations|
    ensures multiset(l.queue) == multiset(Served(l, n)) + multiset(PromoteUpTo(l, n).queue)
    decreases n
  {
    hide Consistent, PromoteOne, PromoteUpTo, Served, Next;
    if n == 0 || l.queue == [] {
      ServeNobody(l, n);
    } else {
      var m := PromoteOne(l);
      PromoteOneConsistent(l);
      PromoteSplitsQueue(m, n - 1);
      ServeFirst(l, n);
      QueueStep(l.queue, Next(l), m.queue, Served(m, n - 1), PromoteUpTo(m, n - 1).queue);
    }
  }

  /** Promote loses and duplicates nothing, and stops only when the queue is
      empty or every licence is taken. */
  lemma PromoteConserves(l: License)
    requires Consistent(l)
    ensures Conserves(l, Served(l, Free(l)), Promote(l))
    ensures Promote(l).queue == [] || |Promote(l).allocations| == l.total
  {
    PromoteUpToGrants(l, Free(l));
    PromoteSplitsQueue(l, Free(l));
    PromoteSize(l, Free(l));
    assert |multiset(l.queue)| == |l.queue|;
    assert |multiset(Promote(l).queue)| == |Promote(l).queue|;
    assert |multiset(Served(l, Free(l)))| == |Served(l, Free(l))|;
  }

  // ---------------------------------------------------- where a new request stands

  /** A new request goes to the end of a FIFO queue; with even owners the queue is
      sorted at once, by the counters that include the request. */
  lemma EnqueueSorts(l: License, e: Entry)
    ensures l.prioritizer.FIFO? ==> Enqueue(l, e).queue == l.queue + [e]
    ensures l.prioritizer.EvenOwners? ==>
              && Enqueue(l, e).prioritizer == EvenOwners(CountEnqueue(l.prioritizer.counters, e))
              && IsStableSortOf(Enqueue(l, e).prioritizer.counters, Enqueue(l, e).queue, l.queue + [e])
  {
    if l.prioritizer.EvenOwners? {
      StableSortIsStable(CountEnqueue(l.prioritizer.counters, e), l.queue + [e]);
    }
  }

  // ------------------------------------------------------------------ FIFO

  lemma {:induction false} PromoteUpToFIFO(l: License, n: nat)
    requires l.prioritizer.FIFO?
    ensures var k := if n <= |l.queue| then n else |l.queue|;
      && Served(l, n) == l.queue[..k]
      && PromoteUpTo(l, n).queue == l.queue[k..]
    decreases n
  {
    if n != 0 && l.queue != [] {
      PromoteUpToFIFO(PromoteOne(l), n - 1);
    }
  }

  /** First come, first served: what is promoted is exactly the front of the
      queue. */
  lemma PromoteFIFO(l: License)
    requires Consistent(l) && l.prioritizer.FIFO?
    ensures |Served(l, Free(l))| <= |l.queue|
    ensures Served(l, Free(l)) == l.queue[..|Served(l, Free(l))|]
    ensures Promote(l).queue == l.queue[|Served(l, Free(l))|..]
  {
    PromoteSize(l, Free(l));
    PromoteUpToFIFO(l, Free(l));
  }

  // ------------------------------------------------- oldest first, per owner

  lemma {:induction false} OwnerQueueConcat(a: seq<Entry>, b: seq<Entry>, o: string)
    ensures OwnerQueue(a + b, o) == OwnerQueue(a, o) + OwnerQueue(b, o)
  {
    if b == [] {
      assert a + b == a;
    } else {
      OwnerQueueConcat(a, b[..|b| - 1], o);
      assert (a + b)[..|a + b| - 1] == a + b[..|b| - 1];
    }
  }

  lemma {:induction false} OwnerQueueNone(q: seq<Entry>, o: string)
    requires forall i | 0 <= i < |q| :: q[i].owner != o
    ensures OwnerQueue(q, o) == []
  {
    if q != [] {
      OwnerQueueNone(q[..|q| - 1], o);
    }
  }

  lemma InsertOwnerQueue(s: seq<Entry>, n: nat, e: Entry, o: string)
    requires n <= |s| && forall i | n <= i < |s| :: s[i].owner != e.owner
    ensures OwnerQueue(s[..n] + [e] + s[n..], o) == OwnerQueue(s, o) + (if e.owner == o then [e] else [])
  {
    var front, back := s[..n], s[n..];
    assert s == front + back;
    OwnerQueueConcat(front + [e], back, o);
    OwnerQueueConcat(front, [e], o);
    OwnerQueueConcat(front, back, o);
    assert [e][..0] == [];
    if e.owner == o {
      OwnerQueueNone(back, o);
    }
  }

  /** Sorting leaves the requests of each owner in their order. */
  lemma {:induction false} StableSortOwnerQueue(c: Counters, q: seq<Entry>, o: string)
    requires InOrder(c, q) && SmallKeys(c) && |q| <= MAX_LEN
    ensures OwnerQueue(StableSort(c, q), o) == OwnerQueue(q, o)
  {
    if q != [] {
      var front, e := q[..|q| - 1], q[|q| - 1];
      InOrderPrefix(c, q);
      StableSortOwnerQueue(c, front, o);
      StableSortInOrder(c, front);
      StableSortOwnerCount(c, front, e.owner);
      var s := StableSort(c, front);
      NoneOfOwnerBehind(c, s, Slot(c, s, Key(c, e)), e);
      InsertOwnerQueue(s, Slot(c, s, Key(c, e)), e, o);
    }
  }

  lemma InOrderPrefix(c: Counters, q: seq<Entry>)
    requires InOrder(c, q) && q != []
    ensures InOrder(c, q[..|q| - 1])
    ensures OwnerPlace(c, q[|q| - 1]) == 1 + OwnerCount(q[..|q| - 1], q[|q| - 1].owner)
  {
    var front := q[..|q| - 1];
    forall i | 0 <= i < |front| ensures InPlace(c, front, i) {
      assert InPlace(c, q, i) && front[..i] == q[..i];
    }
    assert InPlace(c, q, |q| - 1);
  }

  lemma ServeOneOwnerQueue(l: License, o: string)
    requires Consistent(l) && Ordered(l) && l.queue != []
    ensures OldestServed(l.queue, [Next(l)], PromoteOne(l).queue, o)
  {
    hide Consistent, Ordered, OwnerQueue, SortQueue, OnAllocate, OnDequeue;
    SortedOwnerQueue(l, o);
    OwnerQueueFront(SortQueue(l).queue, o);
  }

  lemma OwnerQueueFront(q: seq<Entry>, o: string)
    requires q != []
    ensures OwnerQueue(q, o) == OwnerQueue([q[0]], o) + OwnerQueue(q[1..], o)
  {
    assert q == [q[0]] + q[1..];
    OwnerQueueConcat([q[0]], q[1..], o);
  }

  lemma SortedOwnerQueue(l: License, o: string)
    requires Consistent(l) && Ordered(l)
    ensures OwnerQueue(SortQueue(l).queue, o) == OwnerQueue(l.queue, o)
    ensures |SortQueue(l).queue| == |l.queue|
  {
    hide OwnerQueue;
    IndexedSmallKeys(l);
    StableSortOwnerQueue(l.prioritizer.counters, l.queue, o);
    StableSortPermutes(l.prioritizer.counters, l.queue);
  }

  /** One owner's requests in the queue: first those served, then those left. */
  ghost predicate OldestServed(q: seq<Entry>, served: seq<Entry>, left: seq<Entry>, o: string) {
    OwnerQueue(q, o) == OwnerQueue(served, o) + OwnerQueue(left, o)
  }

  lemma OldestServedNone(q: seq<Entry>, o: string)
    ensures OldestServed(q, [], q, o)
  {
    assert [] + OwnerQueue(q, o) == OwnerQueue(q, o);
  }

  lemma OldestServedStep(q: seq<Entry>, e: Entry, q1: seq<Entry>, rest: seq<Entry>, q2: seq<Entry>, o: string)
    requires OldestServed(q, [e], q1, o) && OldestServed(q1, rest, q2, o)
    ensures OldestServed(q, [e] + rest, q2, o)
  {
    hide OwnerQueue;
    OwnerQueueConcat([e], rest, o);
    Associate(OwnerQueue([e], o), OwnerQueue(rest, o), OwnerQueue(q2, o));
  }

  lemma Associate<T>(a: seq<T>, b: seq<T>, c: seq<T>)
    ensures (a + b) + c == a + (b + c)
  {
  }

  lemma PromoteOneKeeps(l: License)
    requires Consistent(l) && Ordered(l) && l.queue != [] && |l.allocations| < l.total
    ensures Consistent(PromoteOne(l)) && Ordered(PromoteOne(l))
    ensures PromoteOne(l).total - |PromoteOne(l).allocations| == l.total - |l.allocations| - 1
  {
    hide Consistent, Ordered, PromoteOne;
    PromoteOneConsistent(l);
    PromoteOneOrdered(l);
  }

  lemma {:induction false} PromoteUpToOldestFirst(l: License, n: nat, o: string)
    requires Consistent(l) && Ordered(l) && n <= l.total - |l.allocations|
    ensures OldestServed(l.queue, Served(l, n), PromoteUpTo(l, n).queue, o)
    decreases n
  {
    hide Ordered, PromoteOne, Consistent, PromoteUpTo, Served, Next, OldestServed;
    if n == 0 || l.queue == [] {
      ServeNobody(l, n);
      OldestServedNone(l.queue, o);
    } else {
      var m := PromoteOne(l);
      PromoteOneKeeps(l);
      ServeFirst(l, n);
      ServeOneOwnerQueue(l, o);
      PromoteUpToOldestFirst(m, n - 1, o);
      OldestServedStep(l.queue, Next(l), m.queue, Served(m, n - 1), PromoteUpTo(m, n - 1).queue, o);
    }
  }

  /** Among one owner's requests, those served are the oldest, in order. */
  lemma PromoteOldestFirst(l: License, o: string)
    requires Consistent(l) && Ordered(l)
    ensures OwnerQueue(l.queue, o) == OwnerQueue(Served(l, Free(l)), o) + OwnerQueue(Promote(l).queue, o)
  {
    PromoteUpToOldestFirst(l, Free(l), o);
  }
}
