/** The queue of invocations, with the queue id cached on each of them. */
module InvocationQueues {
  import opened Integers
  import opened Prioritizers
  import opened StableSorting
  import opened LicenseModel
  import opened QueuePositions

  class Invocation {
    const id: string
    const owner: string
    const buildTag: string
    var lastCheckin: int
    var queueId: u64 // 0 means the invocation is not queued

    constructor (id: string, owner: string, buildTag: string, lastCheckin: int)
      ensures Val() == Entry(id, owner, buildTag, lastCheckin)
      ensures queueId == 0
    {
      this.id, this.owner, this.buildTag := id, owner, buildTag;
      this.lastCheckin, this.queueId := lastCheckin, 0;
    }

    function Val(): Entry
      reads this`lastCheckin
    {
      Entry(id, owner, buildTag, lastCheckin)
    }
  }

  /** A prioritizer with its state. `even` tells which of the two it is; the
      FIFO one has no counters, and its hooks do nothing. */
  class QueuePrioritizer {
    const even: bool
    var position: map<string, u64>
    var enqueued: map<string, u64>
    var dequeued: map<string, u64>
    var granted: map<string, u64>

    constructor (even: bool)
      ensures Kind() == if even then EvenOwners(NO_COUNTERS) else FIFO
    {
      this.even := even;
      position, enqueued, dequeued, granted := map[], map[], map[], map[];
    }

    function Kind(): Prioritizer
      reads this
    {
      if even then EvenOwners(Counters(position, enqueued, dequeued, granted)) else FIFO
    }

    method OnEnqueue(inv: Invocation)
      modifies this
      ensures Kind() == Prioritizers.OnEnqueue(old(Kind()), inv.Val())
    {
      if even {
        enqueued := enqueued[inv.owner := Add(Lookup(enqueued, inv.owner), 1)];
        position := position[inv.id := enqueued[inv.owner]];
      }
    }

    method OnDequeue(inv: Invocation)
      modifies this
      ensures Kind() == Prioritizers.OnDequeue(old(Kind()), inv.Val())
    {
      if even {
        dequeued := dequeued[inv.owner := Add(Lookup(dequeued, inv.owner), 1)];
        position := position - {inv.id};
        if Sub(dequeued[inv.owner], Lookup(enqueued, inv.owner)) <= 0 {
          enqueued := enqueued - {inv.owner};
          dequeued := dequeued - {inv.owner};
          assert dequeued == old(dequeued) - {inv.owner};
        }
      }
    }

    method OnAllocate(inv: Invocation)
      modifies this
      ensures Kind() == Prioritizers.OnAllocate(old(Kind()), inv.Val())
    {
      if even {
        granted := granted[inv.owner := Add(Lookup(granted, inv.owner), 1)];
      }
    }

    method OnRelease(inv: Invocation)
      modifies this
      ensures Kind() == Prioritizers.OnRelease(old(Kind()), inv.Val())
    {
      if even {
        var value := Lookup(granted, inv.owner);
        if value <= 1 {
          granted := granted - {inv.owner};
        } else {
          granted := granted[inv.owner := value - 1];
        }
      }
    }

    /** The comparison that Sorter returns. */
    predicate Before(a: Invocation, b: Invocation)
      requires even
      reads this, a`lastCheckin, b`lastCheckin
    {
      Less(Kind().counters, a.Val(), b.Val())
    }
  }

  /** These invocations are no longer queued. */
  method Unqueue(xs: seq<Invocation>)
    modifies (set x | x in xs)`queueId
    ensures forall x | x in xs :: x.queueId == 0
  {
    for i := 0 to |xs|
      invariant forall k | 0 <= k < i :: xs[k].queueId == 0
    {
      xs[i].queueId := 0;
    }
  }

  ghost predicate Distinct(xs: seq<Invocation>) {
    forall i, j | 0 <= i < j < |xs| :: xs[i] != xs[j]
  }

  ghost function IdsOf(xs: seq<Invocation>): seq<u64>
    reads xs
  {
    seq(|xs|, i requires 0 <= i < |xs| reads xs => xs[i].queueId)
  }

  class InvocationQueue {
    var items: seq<Invocation>
    /** The queue as a value. */
    ghost var contents: seq<Entry>
    /** Since the queue was last empty: the number of its head in a count without
        bound, how many requests came, and whether it always held fewer than 2^32
        of them. */
    ghost var head: nat
    ghost var requests: nat
    ghost var short: bool

    constructor ()
      ensures items == [] && contents == [] && short && requests == 0 && Valid()
    {
      items, contents, head, requests, short := [], [], 1, 0, true;
    }

    /** No invocation is queued twice, and each queue id tells its place. */
    ghost predicate Valid()
      reads this, items
    {
      && |items| == |contents| <= MAX_LEN
      && (forall i | 0 <= i < |items| :: contents[i] == items[i].Val())
      && Distinct(items)
      && AllNumbered(QueueIds(), head, short)
      && (items != [] ==> 1 <= head && head + |items| <= 1 + requests)
      && (items != [] && short ==> |items| < U32_SIZE)
    }

    /** Not so many requests since the queue was last empty that a queue id could
        have wrapped around, or a length been truncated. */
    ghost predicate Exact()
      reads this
    {
      items == [] || (short && requests < U64_SIZE)
    }

    lemma SameLength()
      requires Valid()
      ensures |items| == |contents|
    {
    }

    ghost function Members(): set<Invocation>
      reads this
    {
      set x | x in items
    }

    /** The queue id at each place. */
    ghost function QueueIds(): seq<u64>
      reads this, items
    {
      IdsOf(items)
    }

    method Enqueue(x: Invocation) returns (position: nat)
      requires Valid() && x !in items && |items| < MAX_LEN
      modifies `items, `contents, `head, `requests, `short, x`queueId
      ensures Valid()
      ensures items == old(items) + [x] && contents == old(contents) + [x.Val()]
      ensures position == ToPosition(|old(items)|)
      ensures x.queueId == Add(if old(items) == [] then 1 else old(items[0].queueId), position)
      ensures head == if old(items) == [] then 1 else old(head)
      ensures requests == 1 + if old(items) == [] then 0 else old(requests)
      ensures short == ((old(items) == [] || old(short)) && |items| < U32_SIZE)
    {
      ghost var was := QueueIds();
      position := ToPosition(|items|);
      var offset: u64 := 1;
      if |items| > 0 {
        offset := items[0].queueId;
        assert was[0] == offset;
      } else {
        head, requests, short := 1, 0, true;
      }
      NumberedNew(offset, head, |items|, short);
      ghost var stillShort := short && |items| + 1 < U32_SIZE;
      AllNumberedMore(was, head, short, Add(offset, position), stillShort);
      hide ToPosition, ToQueueId, AllNumbered;
      x.queueId := Add(offset, position);
      items, contents := items + [x], contents + [x.Val()];
      requests, short := requests + 1, stillShort;
      assert QueueIds() == was + [x.queueId];
    }

    /** Removes the head; the others keep their ids. */
    method Dequeue() returns (first: Invocation?)
      requires Valid()
      modifies `items, `contents, `head, Members()`queueId
      ensures Valid()
      ensures old(items) == [] ==> first == null && items == [] && contents == [] && head == old(head)
      ensures old(items) != [] ==> first == old(items[0]) && first.queueId == 0 && head == old(head) + 1
      ensures old(items) != [] ==> items == old(items)[1..] && contents == old(contents)[1..]
      ensures old(items) != [] ==> first in old(Members()) && Members() == old(Members()) - {first}
      ensures forall x | x in items :: x.queueId == old(x.queueId)
    {
      hide AllNumbered;
      if |items| <= 0 {
        return null;
      }
      first := items[0];
      AllNumberedRest(QueueIds(), head, short);
      items, contents, head := items[1..], contents[1..], head + 1;
      first.queueId := 0;
      assert QueueIds() == old(QueueIds())[1..];
    }

    /** Exchanges two entries and their ids, so that every place keeps its id. */
    method Swap(i: nat, j: nat)
      requires Valid() && i < |items| && j < |items|
      modifies `items, `contents, Members()`queueId
      ensures Valid()
      ensures items == old(items)[i := old(items)[j]][j := old(items)[i]]
      ensures contents == old(contents)[i := old(contents)[j]][j := old(contents)[i]]
      ensures Members() == old(Members())
      ensures QueueIds() == old(QueueIds())
    {
      hide AllNumbered;
      var x, y := items[i], items[j];
      x.queueId, y.queueId := y.queueId, x.queueId;
      items, contents := items[i := y][j := x], contents[i := contents[j]][j := contents[i]];
      assert items[i] == y && items[j] == x;
      assert forall k | 0 <= k < |items| && k != i && k != j :: items[k] == old(items)[k];
      assert QueueIds() == old(QueueIds());
    }

    /** What was at `place[i]` is at `i` now, and its queue id is less by the
        number of entries removed before it. */
    twostate predicate Renumbered(place: seq<nat>)
      reads this, items
    {
      Picked(items, old(items), place, |old(items)|) && Shifted(old(QueueIds()), place, QueueIds())
    }

    /** Removes the entries that match and returns them in queue order. */
    method Filter(d: Drop) returns (removed: seq<Invocation>, ghost place: seq<nat>)
      requires Valid()
      modifies `items, `contents, Members()`queueId
      ensures Valid() && Renumbered(place)
      ensures contents == Kept(old(contents), d)
      ensures Members() <= old(Members())
      ensures forall x | x in removed :: x in old(Members()) && x !in Members() && x.queueId == old(x.queueId)
      ensures forall x | x in old(Members()) && x !in Members() :: x in removed
      ensures |removed| == |Dropped(old(contents), d)|
      ensures forall i | 0 <= i < |removed| :: removed[i].Val() == Dropped(old(contents), d)[i]
    {
      hide Kept, Dropped, Drops, AllNumbered, KeptAt, DroppedAt, Picked, Shifted, IdsOf, PlacesUpTo, Distinct;
      var kept;
      ghost var gone, keptIds;
      IdsTell(items);
      kept, removed, place, gone, keptIds := Select(d);
      PlacesAll(contents, d, place, gone);
      IdsAre(kept, keptIds);
      PickedAre(removed, items, gone, |items|);
      ShiftedNumbered(old(QueueIds()), place, IdsOf(kept), head, short);
      Retain(kept, removed, d, place, gone);
    }

    /** What the loop of Filter has picked out of the first `n` entries, whose
        queue ids were `was`. */
    ghost predicate Selected(d: Drop, n: nat, was: seq<u64>, kept: seq<Invocation>, removed: seq<Invocation>,
                             place: seq<nat>, gone: seq<nat>, keptIds: seq<u64>)
      reads this, items, kept, removed
    {
      && |kept| + |removed| == n <= |items| == |was| == |contents|
      && PlacesUpTo(contents, d, n, place, gone)
      && Picked(kept, items, place, n) && Picked(removed, items, gone, n)
      && Shifted(was, place, keptIds)
      && |kept| == |keptIds| && (forall i | 0 <= i < |kept| :: kept[i].queueId == keptIds[i])
      && |removed| == |gone| && (forall i | 0 <= i < |removed| :: gone[i] < |was| && removed[i].queueId == was[gone[i]])
      && (forall i | n <= i < |items| :: items[i].queueId == was[i])
    }

    /** The loop of Filter: picks out what is kept and what is not, and renumbers
        the former. */
    method Select(d: Drop)
      returns (kept: seq<Invocation>, removed: seq<Invocation>,
               ghost place: seq<nat>, ghost gone: seq<nat>, ghost keptIds: seq<u64>)
      requires Valid()
      modifies Members()`queueId
      ensures Selected(d, |items|, old(QueueIds()), kept, removed, place, gone, keptIds)
    {
      kept, removed, place, gone, keptIds := [], [], [], [], [];
      assert Selected(d, 0, QueueIds(), [], [], [], [], []);
      hide Selected, AllNumbered, Distinct, QueueIds;
      for pos := 0 to |items|
        invariant Selected(d, pos, old(QueueIds()), kept, removed, place, gone, keptIds)
      {
        kept, removed, place, gone, keptIds :=
          SelectNext(d, pos, items[pos], old(QueueIds()), kept, removed, place, gone, keptIds);
      }
    }

    /** One round of the loop. */
    method SelectNext(d: Drop, ghost pos: nat, inv: Invocation, ghost was: seq<u64>,
                      kept0: seq<Invocation>, removed0: seq<Invocation>,
                      ghost place0: seq<nat>, ghost gone0: seq<nat>, ghost keptIds0: seq<u64>)
      returns (kept: seq<Invocation>, removed: seq<Invocation>,
               ghost place: seq<nat>, ghost gone: seq<nat>, ghost keptIds: seq<u64>)
      requires pos < |items| == |contents| <= MAX_LEN && inv == items[pos] && contents[pos] == inv.Val()
      requires Distinct(items)
      requires Selected(d, pos, was, kept0, removed0, place0, gone0, keptIds0)
      modifies inv`queueId
      ensures Selected(d, pos + 1, was, kept, removed, place, gone, keptIds)
    {
      hide Drops, Picked, Shifted, Distinct, PlacesUpTo;
      kept, removed, place, gone, keptIds := kept0, removed0, place0, gone0, keptIds0;
      PlacesNext(contents, d, pos, place, gone);
      PickedMore(kept, items, place, pos);
      PickedMore(removed, items, gone, pos);
      if Drops(d, inv.Val()) {
        removed, gone := removed + [inv], gone + [pos];
      } else {
        ShiftedMore(was, place, keptIds, pos, kept, items);
        inv.queueId := Sub(inv.queueId, |removed|);
        kept, place, keptIds := kept + [inv], place + [pos], keptIds + [inv.queueId];
      }
    }

    /** Makes the kept entries, renumbered already, the queue. */
    method Retain(kept: seq<Invocation>, ghost removed: seq<Invocation>, ghost d: Drop,
                  ghost place: seq<nat>, ghost gone: seq<nat>)
      requires |items| == |contents| <= MAX_LEN && forall i | 0 <= i < |items| :: contents[i] == items[i].Val()
      requires Distinct(items)
      requires items != [] ==> 1 <= head && head + |items| <= 1 + requests
      requires items != [] && short ==> |items| < U32_SIZE
      requires place == KeptAt(contents, d) && gone == DroppedAt(contents, d)
      requires Picked(kept, items, place, |items|) && Picked(removed, items, gone, |items|)
      requires AllNumbered(IdsOf(kept), head, short)
      modifies `items, `contents
      ensures Valid() && items == kept && contents == Kept(old(contents), d)
      ensures QueueIds() == old(IdsOf(kept))
      ensures Members() <= old(Members())
      ensures forall x | x in removed :: x in old(Members()) && x !in Members()
      ensures forall x | x in old(Members()) && x !in Members() :: x in removed
      ensures |removed| == |Dropped(old(contents), d)|
      ensures forall i | 0 <= i < |removed| :: removed[i].Val() == Dropped(old(contents), d)[i]
    {
      hide Kept, Dropped, AllNumbered;
      KeptPlaces(contents, d);
      DroppedPlaces(contents, d);
      PlacesCover(contents, d);
      PlacesApart(contents, d);
      hide KeptAt, DroppedAt;
      KeptAndRemoved(items, kept, removed, place, gone);
      hide Distinct, Picked;
      items, contents := kept, Kept(contents, d);
    }

    /** Removes every entry with the id, and resets their queue ids; returns the
        last one, or null. */
    method Forget(id: string) returns (last: Invocation?, ghost place: seq<nat>)
      requires Valid()
      modifies `items, `contents, Members()`queueId
      ensures Valid() && Renumbered(place)
      ensures contents == Kept(old(contents), WithId(id))
      ensures Members() <= old(Members())
      ensures forall x | x in old(Members()) && x !in Members() :: x.queueId == 0
      ensures var gone := Dropped(old(contents), WithId(id));
        if gone == [] then last == null
        else last != null && last in old(items) && last.Val() == gone[|gone| - 1] && last.queueId == 0
    {
      hide Kept, Dropped, AllNumbered, Drops;
      var removed;
      removed, place := Filter(WithId(id));
      Unqueue(removed);
      last := null;
      if |removed| > 0 {
        last := removed[|removed| - 1];
        assert last in removed;
      }
    }

    /** Linear search, from the front. */
    method Get(id: string) returns (inv: Invocation?, position: nat)
      requires Valid()
      ensures var i := Find(contents, id);
        if i < |items| then inv == items[i] && position == ToPosition(i + 1) else inv == null && position == 0
    {
      for i := 0 to |items|
        invariant forall j | 0 <= j < i :: contents[j].id != id
      {
        if items[i].id == id {
          assert contents[i].id == id;
          return items[i], ToPosition(i + 1);
        }
      }
      return null, 0;
    }

    /** The cached position. */
    function Position(inv: Invocation): nat
      reads this, inv, items
    {
      if |items| <= 0 then 0 else CachedPosition(inv.queueId, items[0].queueId)
    }

    /** For every queued invocation the cached position is its place in the
        queue, exactly unless its queue id is zero; and that does not happen before
        2^64 requests without an empty queue. */
    lemma PositionIsPlace(i: nat)
      requires Valid() && i < |items|
      ensures Position(items[i]) == ToPosition(i + 1) <==> items[i].queueId != 0 || ToPosition(i + 1) == 0
      ensures short ==> items[i].queueId == Add(items[0].queueId, i) == ToQueueId(head + i)
      ensures Exact() ==> items[i].queueId == head + i && Position(items[i]) == i + 1
    {
      assert QueueIds()[0] == items[0].queueId && QueueIds()[i] == items[i].queueId;
      NumberedApart(items[i].queueId, items[0].queueId, head, i, short);
      CachedPositionIsRank(items[i].queueId, items[0].queueId, i);
      if short {
        ShortQueuePosition(items[i].queueId, items[0].queueId, head, i);
      }
    }

    /** Moves entry `i` forward past the greater ones before it. */
    method Sink(p: QueuePrioritizer, i: nat, ghost s: seq<Entry>)
      requires Valid() && p.even && i < |items| && s == contents[..i]
      modifies `items, `contents, Members()`queueId
      ensures Valid()
      ensures contents == Insert(p.Kind().counters, s, old(contents)[i]) + old(contents)[i + 1..]
      ensures Members() == old(Members()) && QueueIds() == old(QueueIds())
    {
      hide StableSort, Slot, Key, AllNumbered, Sinking, Above, Less, QueueIds;
      ghost var c, e, rest := p.Kind().counters, contents[i], contents[i + 1..];
      var j := i;
      SinkStart(contents, i);
      AboveStart(c, s, e);
      while j > 0 && p.Before(items[j], items[j - 1])
        invariant j <= i < |items| && Valid()
        invariant contents == Sinking(s, j, e, rest)
        invariant Above(c, s, j, e)
        invariant Members() == old(Members()) && QueueIds() == old(QueueIds())
      {
        SinkStep(s, j, e, rest);
        AboveStep(c, s, j, e);
        Swap(j, j - 1);
        j := j - 1;
      }
      if j > 0 {
        SinkStep(s, j, e, rest);
      }
      SinkEnd(c, s, j, e, rest);
    }

    /** A stable sort that only compares and swaps neighbours. */
    method SortBy(p: QueuePrioritizer)
      requires Valid() && p.even
      modifies `items, `contents, Members()`queueId
      ensures Valid()
      ensures contents == StableSort(p.Kind().counters, old(contents))
      ensures Members() == old(Members()) && QueueIds() == old(QueueIds())
    {
      hide Insert, Key, StableSort, AllNumbered, QueueIds;
      ghost var c, q := p.Kind().counters, contents;
      SortNone(c, q);
      for i := 0 to |items|
        invariant Valid() && |items| == |q|
        invariant contents == StableSort(c, q[..i]) + q[i..]
        invariant Members() == old(Members()) && QueueIds() == old(QueueIds())
      {
        ghost var s := StableSort(c, q[..i]);
        SortNext(c, q, i);
        SplitAt(s, q, i);
        Sink(p, i, s);
      }
      assert q[..|items|] == q;
    }

    /** Without a comparison, as with FIFO, sorting does nothing. */
    method Sort(p: QueuePrioritizer)
      requires Valid()
      modifies `items, `contents, Members()`queueId
      ensures Valid()
      ensures contents == SortedBy(p.Kind(), old(contents))
      ensures Members() == old(Members()) && QueueIds() == old(QueueIds())
    {
      if p.even {
        SortBy(p);
      }
    }
  }

  /** The places of the entries that are kept, and of those that are not. */
  ghost function KeptAt(q: seq<Entry>, d: Drop): (r: seq<nat>)
    ensures |r| <= |q| && forall i | 0 <= i < |r| :: i <= r[i] < |q|
    ensures forall i, j | 0 <= i < j < |r| :: r[i] < r[j]
  {
    if q == [] then []
    else KeptAt(q[..|q| - 1], d) + if Drops(d, q[|q| - 1]) then [] else [|q| - 1]
  }

  ghost function DroppedAt(q: seq<Entry>, d: Drop): (r: seq<nat>)
    ensures |r| <= |q| && forall i | 0 <= i < |r| :: i <= r[i] < |q|
    ensures forall i, j | 0 <= i < j < |r| :: r[i] < r[j]
  {
    if q == [] then []
    else DroppedAt(q[..|q| - 1], d) + if Drops(d, q[|q| - 1]) then [|q| - 1] else []
  }

  /** `ids` are those that stood at these places, less the number of other entries
      before each. */
  ghost predicate Shifted(was: seq<u64>, at: seq<nat>, ids: seq<u64>) {
    && |at| == |ids| && (forall i, j | 0 <= i < j < |at| :: at[i] < at[j])
    && (forall i | 0 <= i < |at| :: i <= at[i] < |was| && at[i] - i < U64_SIZE && ids[i] == Sub(was[at[i]], at[i] - i))
  }

  lemma ShiftedMore(was: seq<u64>, at: seq<nat>, ids: seq<u64>, n: nat, xs: seq<Invocation>, items: seq<Invocation>)
    requires Shifted(was, at, ids) && n < |was| && |at| <= n && n - |at| < U64_SIZE
    requires Picked(xs, items, at, n)
    ensures Shifted(was, at + [n], ids + [Sub(was[n], n - |at|)])
  {
  }

  lemma ShiftedNumbered(was: seq<u64>, at: seq<nat>, ids: seq<u64>, head: nat, short: bool)
    requires Shifted(was, at, ids) && AllNumbered(was, head, short)
    ensures AllNumbered(ids, head, short)
  {
    hide Numbered;
    forall i | 0 <= i < |ids| ensures Numbered(ids[i], head, i, short) {
      NumberedLess(was[at[i]], head, at[i], at[i] - i, short);
    }
  }

  /** These are the entries at these places, all of them below `n`. */
  ghost predicate Picked(xs: seq<Invocation>, items: seq<Invocation>, at: seq<nat>, n: nat) {
    n <= |items| && |xs| == |at| && forall i | 0 <= i < |xs| :: at[i] < n && xs[i] == items[at[i]]
  }

  lemma PickedMore(xs: seq<Invocation>, items: seq<Invocation>, at: seq<nat>, n: nat)
    requires n < |items| && Picked(xs, items, at, n)
    requires Distinct(items)
    ensures Picked(xs, items, at, n + 1) && Picked(xs + [items[n]], items, at + [n], n + 1)
    ensures items[n] !in xs && forall i | n < i < |items| :: items[i] != items[n]
  {
  }

  lemma IdsTell(xs: seq<Invocation>)
    ensures |IdsOf(xs)| == |xs| && forall i | 0 <= i < |xs| :: IdsOf(xs)[i] == xs[i].queueId
  {
  }

  lemma IdsAre(xs: seq<Invocation>, ids: seq<u64>)
    requires |xs| == |ids| && forall i | 0 <= i < |xs| :: xs[i].queueId == ids[i]
    ensures IdsOf(xs) == ids
  {
  }

  lemma PickedAre(xs: seq<Invocation>, items: seq<Invocation>, at: seq<nat>, n: nat)
    requires Picked(xs, items, at, n)
    ensures forall i | 0 <= i < |xs| :: at[i] < |items| && xs[i] == items[at[i]]
  {
  }

  /** The places of the first `n` entries, kept or not. */
  ghost predicate PlacesUpTo(q: seq<Entry>, d: Drop, n: nat, place: seq<nat>, gone: seq<nat>) {
    n <= |q| && place == KeptAt(q[..n], d) && gone == DroppedAt(q[..n], d)
  }

  lemma PlacesNext(q: seq<Entry>, d: Drop, n: nat, place: seq<nat>, gone: seq<nat>)
    requires n < |q| && PlacesUpTo(q, d, n, place, gone)
    ensures if Drops(d, q[n]) then PlacesUpTo(q, d, n + 1, place, gone + [n])
            else PlacesUpTo(q, d, n + 1, place + [n], gone)
  {
    assert q[..n + 1][..n] == q[..n];
  }

  lemma PlacesAll(q: seq<Entry>, d: Drop, place: seq<nat>, gone: seq<nat>)
    requires PlacesUpTo(q, d, |q|, place, gone)
    ensures place == KeptAt(q, d) && gone == DroppedAt(q, d)
  {
    assert q[..|q|] == q;
  }

  lemma {:induction false} KeptPlaces(q: seq<Entry>, d: Drop)
    ensures |KeptAt(q, d)| == |Kept(q, d)|
    ensures forall i | 0 <= i < |Kept(q, d)| :: Kept(q, d)[i] == q[KeptAt(q, d)[i]]
  {
    if q != [] {
      KeptPlaces(q[..|q| - 1], d);
    }
  }

  lemma {:induction false} DroppedPlaces(q: seq<Entry>, d: Drop)
    ensures |DroppedAt(q, d)| == |Dropped(q, d)|
    ensures forall i | 0 <= i < |Dropped(q, d)| :: Dropped(q, d)[i] == q[DroppedAt(q, d)[i]]
  {
    if q != [] {
      DroppedPlaces(q[..|q| - 1], d);
    }
  }

  lemma {:induction false} PlacesApart(q: seq<Entry>, d: Drop)
    ensures forall i, j | 0 <= i < |KeptAt(q, d)| && 0 <= j < |DroppedAt(q, d)| ::
              KeptAt(q, d)[i] != DroppedAt(q, d)[j]
    ensures |KeptAt(q, d)| <= |q|
  {
    if q != [] {
      PlacesApart(q[..|q| - 1], d);
    }
  }

  lemma {:induction false} PlaceOf(q: seq<Entry>, d: Drop, k: nat)
    requires k < |q|
    ensures k in KeptAt(q, d) || k in DroppedAt(q, d)
  {
    if k < |q| - 1 {
      PlaceOf(q[..|q| - 1], d, k);
    }
  }

  lemma PlacesCover(q: seq<Entry>, d: Drop)
    ensures forall k: nat | k < |q| :: k in KeptAt(q, d) || k in DroppedAt(q, d)
  {
    forall k: nat | k < |q| ensures k in KeptAt(q, d) || k in DroppedAt(q, d) {
      PlaceOf(q, d, k);
    }
  }

  /** Every entry is picked for one of two lists and none for both. */
  lemma KeptAndRemoved(items: seq<Invocation>, kept: seq<Invocation>, removed: seq<Invocation>,
                       place: seq<nat>, gone: seq<nat>)
    requires Distinct(items) && Picked(kept, items, place, |items|) && Picked(removed, items, gone, |items|)
    requires forall i, j | 0 <= i < j < |place| :: place[i] < place[j]
    requires forall i, j | 0 <= i < |place| && 0 <= j < |gone| :: place[i] != gone[j]
    requires forall k: nat | k < |items| :: k in place || k in gone
    ensures Distinct(kept) && (forall x | x in kept :: x in items)
    ensures forall x | x in removed :: x in items && x !in kept
    ensures forall x | x in items && x !in kept :: x in removed
  {
    forall x | x in items && x !in kept ensures x in removed {
      var k: nat :| k < |items| && items[k] == x;
      if k in gone {
        var j :| 0 <= j < |gone| && gone[j] == k;
        assert removed[j] == x;
      }
    }
  }

  lemma SortNone(c: Counters, q: seq<Entry>)
    ensures StableSort(c, q[..0]) + q[0..] == q
  {
  }

  lemma SortNext(c: Counters, q: seq<Entry>, i: nat)
    requires i < |q|
    ensures StableSort(c, q[..i + 1]) == Insert(c, StableSort(c, q[..i]), q[i])
  {
    assert q[..i + 1][..i] == q[..i];
  }

  lemma SplitAt(s: seq<Entry>, q: seq<Entry>, i: nat)
    requires i == |s| < |q|
    ensures var v := s + q[i..]; v[..i] == s && v[i] == q[i] && v[i + 1..] == q[i + 1..]
  {
  }

  /** A queue in which `e` stands at place `j` of the sorted front `s`. */
  ghost function Sinking(s: seq<Entry>, j: nat, e: Entry, rest: seq<Entry>): seq<Entry>
    requires j <= |s|
  {
    s[..j] + [e] + s[j..] + rest
  }

  lemma SinkStart(q: seq<Entry>, i: nat)
    requires i < |q|
    ensures q == Sinking(q[..i], i, q[i], q[i + 1..])
  {
  }

  lemma SinkStep(s: seq<Entry>, j: nat, e: Entry, rest: seq<Entry>)
    requires 0 < j <= |s|
    ensures var q := Sinking(s, j, e, rest);
      && |q| == |s| + 1 + |rest| && q[j] == e && q[j - 1] == s[j - 1]
      && q[j := q[j - 1]][j - 1 := q[j]] == Sinking(s, j - 1, e, rest)
  {
  }

  /** The entries from place `j` on come after `e`. */
  ghost predicate Above(c: Counters, s: seq<Entry>, j: nat, e: Entry) {
    forall k | j <= k < |s| :: Less(c, e, s[k])
  }

  lemma AboveStart(c: Counters, s: seq<Entry>, e: Entry)
    ensures Above(c, s, |s|, e)
  {
  }

  lemma AboveStep(c: Counters, s: seq<Entry>, j: nat, e: Entry)
    requires 0 < j <= |s| && Above(c, s, j, e) && Less(c, e, s[j - 1])
    ensures Above(c, s, j - 1, e)
  {
  }

  lemma SinkEnd(c: Counters, s: seq<Entry>, j: nat, e: Entry, rest: seq<Entry>)
    requires j <= |s|
    requires j > 0 ==> !Less(c, e, s[j - 1])
    requires Above(c, s, j, e)
    ensures Sinking(s, j, e, rest) == Insert(c, s, e) + rest
  {
    SlotUnique(c, s, Key(c, e), j);
  }

  lemma SlotUnique(c: Counters, s: seq<Entry>, k: u64, n: nat)
    requires n <= |s|
    requires n > 0 ==> Key(c, s[n - 1]) <= k
    requires forall i | n <= i < |s| :: k < Key(c, s[i])
    ensures Slot(c, s, k) == n
  {
  }
}
