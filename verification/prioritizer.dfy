/** The prioritizers of flextape: the bookkeeping that tells how many requests
    and licences each owner has, and the comparison used to sort the queue. */
module Prioritizers {
  import opened Integers

  /** What the server knows about an invocation, without the cached queue id. */
  datatype Entry = Entry(id: string, owner: string, buildTag: string, lastCheckin: int)

  /** The four maps of EvenOwnersPrioritizer; `granted` is its `allocated`, a word
      Dafny keeps for itself. */
  datatype Counters = Counters(
    position: map<string, u64>,
    enqueued: map<string, u64>,
    dequeued: map<string, u64>,
    granted: map<string, u64>)

  const NO_COUNTERS: Counters := Counters(map[], map[], map[], map[])

  datatype Prioritizer = FIFO | EvenOwners(counters: Counters)

  // ---------------------------------------------------------------- hooks

  function CountEnqueue(c: Counters, e: Entry): Counters {
    var n := Add(Lookup(c.enqueued, e.owner), 1);
    c.(enqueued := c.enqueued[e.owner := n], position := c.position[e.id := n])
  }

  function CountDequeue(c: Counters, e: Entry): Counters {
    var n := Add(Lookup(c.dequeued, e.owner), 1);
    // The comparison is unsigned, so "<= 0" can only mean "== 0".
    if Sub(n, Lookup(c.enqueued, e.owner)) <= 0 then
      c.(position := c.position - {e.id}, enqueued := c.enqueued - {e.owner}, dequeued := c.dequeued - {e.owner})
    else
      c.(position := c.position - {e.id}, dequeued := c.dequeued[e.owner := n])
  }

  function CountAllocate(c: Counters, e: Entry): Counters {
    c.(granted := c.granted[e.owner := Add(Lookup(c.granted, e.owner), 1)])
  }

  function CountRelease(c: Counters, e: Entry): Counters {
    var value := Lookup(c.granted, e.owner);
    if value <= 1 then
      c.(granted := c.granted - {e.owner})
    else
      c.(granted := c.granted[e.owner := value - 1])
  }

  function OnEnqueue(p: Prioritizer, e: Entry): Prioritizer {
    if p.FIFO? then p else EvenOwners(CountEnqueue(p.counters, e))
  }

  function OnDequeue(p: Prioritizer, e: Entry): Prioritizer {
    if p.FIFO? then p else EvenOwners(CountDequeue(p.counters, e))
  }

  function OnAllocate(p: Prioritizer, e: Entry): Prioritizer {
    if p.FIFO? then p else EvenOwners(CountAllocate(p.counters, e))
  }

  function OnRelease(p: Prioritizer, e: Entry): Prioritizer {
    if p.FIFO? then p else EvenOwners(CountRelease(p.counters, e))
  }

  /** The place of a request among those of its owner, 1 for the oldest as long
      as the counters are in order. */
  function OwnerPlace(c: Counters, e: Entry): u64 {
    Sub(Lookup(c.position, e.id), Lookup(c.dequeued, e.owner))
  }

  /** The number the queue is sorted by. */
  function Key(c: Counters, e: Entry): u64 {
    Add(OwnerPlace(c, e), Lookup(c.granted, e.owner))
  }

  predicate Less(c: Counters, a: Entry, b: Entry) {
    Key(c, a) < Key(c, b)
  }

  // ------------------------------------------------- counting the real state

  /** How many entries of a queue belong to an owner. */
  function OwnerCount(q: seq<Entry>, o: string): nat {
    if q == [] then 0 else OwnerCount(q[..|q| - 1], o) + (if q[|q| - 1].owner == o then 1 else 0)
  }

  function Holders(allocations: map<string, Entry>, o: string): set<string> {
    set k | k in allocations && allocations[k].owner == o
  }

  /** How many licences of an allocation map belong to an owner. */
  function HeldBy(allocations: map<string, Entry>, o: string): nat {
    |Holders(allocations, o)|
  }

  function Ids(q: seq<Entry>): set<string> {
    set i | 0 <= i < |q| :: q[i].id
  }

  ghost predicate DistinctIds(q: seq<Entry>) {
    forall i, j | 0 <= i < j < |q| :: q[i].id != q[j].id
  }

  /** For one owner: enqueued minus dequeued is what the owner has queued,
      granted is what the owner holds, and no key outlives its use. */
  ghost predicate OwnerIndexed(c: Counters, q: seq<Entry>, allocations: map<string, Entry>, o: string) {
    && Sub(Lookup(c.enqueued, o), Lookup(c.dequeued, o)) == OwnerCount(q, o)
    && (o in c.enqueued <==> OwnerCount(q, o) > 0)
    && (o in c.dequeued ==> o in c.enqueued)
    && Lookup(c.granted, o) == HeldBy(allocations, o)
    && (o in c.granted <==> HeldBy(allocations, o) > 0)
  }

  /** The counters describe exactly this queue and these allocations. */
  ghost predicate Indexed(c: Counters, q: seq<Entry>, allocations: map<string, Entry>) {
    && c.position.Keys == Ids(q)
    && forall o :: OwnerIndexed(c, q, allocations, o)
  }

  ghost predicate InPlace(c: Counters, q: seq<Entry>, i: nat)
    requires i < |q|
  {
    OwnerPlace(c, q[i]) == 1 + OwnerCount(q[..i], q[i].owner)
  }

  /** The requests of each owner stand in the queue at places 1, 2, 3, ... */
  ghost predicate InOrder(c: Counters, q: seq<Entry>) {
    forall i | 0 <= i < |q| :: InPlace(c, q, i)
  }

  // ---------------------------------------------------------------- lemmas

  lemma OwnerCountBound(q: seq<Entry>, o: string)
    ensures OwnerCount(q, o) <= |q|
  {
  }

  lemma {:induction false} OwnerCountConcat(a: seq<Entry>, b: seq<Entry>, o: string)
    ensures OwnerCount(a + b, o) == OwnerCount(a, o) + OwnerCount(b, o)
  {
    if b == [] {
      assert a + b == a;
    } else {
      OwnerCountConcat(a, b[..|b| - 1], o);
      assert (a + b)[..|a + b| - 1] == a + b[..|b| - 1];
    }
  }

  lemma OwnerCountOne(e: Entry, o: string)
    ensures OwnerCount([e], o) == if e.owner == o then 1 else 0
  {
    assert [e][..0] == [];
  }

  /** Cutting a queue at one entry. */
  lemma OwnerCountSplit(q: seq<Entry>, i: nat, o: string)
    requires i < |q|
    ensures OwnerCount(q, o) == OwnerCount(q[..i], o) + (if q[i].owner == o then 1 else 0) + OwnerCount(q[i + 1..], o)
  {
    assert q == q[..i] + ([q[i]] + q[i + 1..]);
    OwnerCountConcat(q[..i], [q[i]] + q[i + 1..], o);
    OwnerCountConcat([q[i]], q[i + 1..], o);
    OwnerCountOne(q[i], o);
  }

  lemma HeldByBound(allocations: map<string, Entry>, o: string)
    ensures HeldBy(allocations, o) <= |allocations|
  {
    SubsetSize(Holders(allocations, o), allocations.Keys);
  }

  lemma SubsetSize<T>(a: set<T>, b: set<T>)
    requires a <= b
    ensures |a| <= |b|
  {
    assert b == a + (b - a);
  }

  lemma HeldByInsert(allocations: map<string, Entry>, e: Entry, o: string)
    requires e.id !in allocations
    ensures HeldBy(allocations[e.id := e], o) == HeldBy(allocations, o) + (if e.owner == o then 1 else 0)
  {
    var more := Holders(allocations[e.id := e], o);
    if e.owner == o {
      assert more == Holders(allocations, o) + {e.id};
    } else {
      assert more == Holders(allocations, o);
    }
  }

  lemma HeldByRemove(allocations: map<string, Entry>, k: string, o: string)
    requires k in allocations
    ensures HeldBy(allocations - {k}, o) == HeldBy(allocations, o) - (if allocations[k].owner == o then 1 else 0)
  {
    assert Holders(allocations - {k}, o) == Holders(allocations, o) - {k};
  }
}
