/** Positions in a queue: the one computed from cached queue ids and the one
    found by walking. */
module QueuePositions {
  import opened Integers
  import opened Prioritizers

  /** Conversion to the 32-bit type Position. */
  function ToPosition(n: int): nat {
    n % U32_SIZE
  }

  /** The queue id that stands for number `n` of an unbounded count. */
  function ToQueueId(n: nat): u64 {
    n % U64_SIZE
  }

  /** How many entries stand before the first one with this id. */
  function Find(q: seq<Entry>, id: string): (i: nat)
    ensures i <= |q|
    ensures i < |q| ==> q[i].id == id
    ensures forall j | 0 <= j < i :: q[j].id != id
  {
    if q == [] || q[0].id == id then 0 else 1 + Find(q[1..], id)
  }

  /** The position of an invocation whose queue id is `queueId`, in a non-empty
      queue whose first queue id is `first`. */
  function CachedPosition(queueId: u64, first: u64): nat {
    if queueId == 0 then 0 else ToPosition(Sub(Add(1, queueId), first))
  }

  /** The queue id of the entry at place `i` when the head has number `head`: the
      numbers count up along the queue. That is so for all 64 bits as long as the
      queue is short, which means that it never held 2^32 entries; a longer one is
      numbered by a length cut to 32 bits, and only the low half can be relied on. */
  ghost predicate Numbered(queueId: u64, head: nat, i: nat, short: bool) {
    ToPosition(queueId) == ToPosition(head + i) && (short ==> queueId == ToQueueId(head + i))
  }

  lemma ToPositionAdd(a: u64, b: u64)
    ensures ToPosition(Add(a, b)) == ToPosition(a + b)
  {
    assert a + b - U64_SIZE == a + b + (-0x1_0000_0000) * 0x1_0000_0000;
  }

  lemma ToPositionSub(a: u64, b: u64)
    ensures ToPosition(Sub(a, b)) == ToPosition(a - b)
  {
    assert a - b + U64_SIZE == a - b + 0x1_0000_0000 * 0x1_0000_0000;
  }

  /** For ids that count up along the queue, the cached position is the place
      found by walking, exactly unless the id is the value that means "not
      queued". */
  lemma CachedPositionIsRank(queueId: u64, first: u64, i: nat)
    requires ToPosition(queueId) == ToPosition(first + i)
    ensures CachedPosition(queueId, first) == ToPosition(i + 1) <==> queueId != 0 || ToPosition(i + 1) == 0
  {
    ToPositionAdd(1, queueId);
    ToPositionSub(Add(1, queueId), first);
  }

  lemma ToQueueIdAdd(head: nat, i: u64)
    ensures ToQueueId(head + i) == Add(ToQueueId(head), i)
  {
    assert head == head / U64_SIZE * U64_SIZE + head % U64_SIZE;
  }

  /** In a short queue an id is zero exactly when its number is a multiple of
      2^64, so below that the cached position is the place without exception. */
  lemma ShortQueuePosition(queueId: u64, first: u64, head: nat, i: nat)
    requires Numbered(queueId, head, i, true) && Numbered(first, head, 0, true)
    requires 0 < head && i + 1 < U32_SIZE
    ensures queueId == Add(first, i)
    ensures CachedPosition(queueId, first) == i + 1 <==> (head + i) % U64_SIZE != 0
    ensures head + i < U64_SIZE ==> queueId == head + i && CachedPosition(queueId, first) == i + 1
  {
    ToQueueIdAdd(head, i);
    assert ToPosition(i + 1) == i + 1;
    hide ToQueueId, CachedPosition, ToPosition;
    assert queueId == Add(first, i);
    ToPositionAdd(first, i);
    CachedPositionIsRank(queueId, first, i);
    SmallId(head + i);
  }

  lemma SmallId(n: nat)
    ensures n < U64_SIZE ==> ToQueueId(n) == n
    ensures ToQueueId(n) == n % U64_SIZE
  {
  }

  /** A queue that has served 2^64 - 2 requests without ever being empty: the
      second entry counts as not queued. */
  lemma CachedPositionWraps()
    ensures Numbered(U64_SIZE - 1, U64_SIZE - 1, 0, true) && Numbered(0, U64_SIZE - 1, 1, true)
    ensures CachedPosition(0, U64_SIZE - 1) == 0 && ToPosition(1 + 1) == 2
  {
  }

  /** The queue ids of a queue whose head has number `head`. */
  ghost predicate AllNumbered(ids: seq<u64>, head: nat, short: bool) {
    forall i | 0 <= i < |ids| :: Numbered(ids[i], head, i, short)
  }

  lemma AllNumberedMore(ids: seq<u64>, head: nat, short: bool, id: u64, stillShort: bool)
    requires AllNumbered(ids, head, short) && Numbered(id, head, |ids|, short && |ids| < U32_SIZE)
    requires stillShort ==> short && |ids| < U32_SIZE
    ensures AllNumbered(ids + [id], head, stillShort)
  {
  }

  lemma AllNumberedRest(ids: seq<u64>, head: nat, short: bool)
    requires AllNumbered(ids, head, short) && ids != []
    ensures AllNumbered(ids[1..], head + 1, short)
  {
    forall i | 0 <= i < |ids| - 1 ensures Numbered(ids[1..][i], head + 1, i, short) {
      assert Numbered(ids[i + 1], head, i + 1, short);
    }
  }

  lemma NumberedApart(queueId: u64, first: u64, head: nat, i: nat, short: bool)
    requires Numbered(queueId, head, i, short) && Numbered(first, head, 0, short)
    ensures ToPosition(queueId) == ToPosition(first + i)
  {
    ToPositionSum(head, first, i);
    ToPositionSum(first, first, i);
  }

  /** Renumbering an entry once `count` entries before it are gone. */
  lemma NumberedLess(queueId: u64, head: nat, i: nat, count: nat, short: bool)
    requires Numbered(queueId, head, i, short) && count <= i && count < U64_SIZE
    ensures Numbered(Sub(queueId, count), head, i - count, short)
  {
    ToPositionSub(queueId, count);
  }

  /** Numbering an entry behind `length` others. */
  lemma NumberedNew(first: u64, head: nat, length: nat, short: bool)
    requires Numbered(first, head, 0, short)
    ensures Numbered(Add(first, ToPosition(length)), head, length, short && length < U32_SIZE)
  {
    ToPositionAdd(first, ToPosition(length));
    ToPositionSum(first, head, length);
    ToQueueIdAdd(head, ToPosition(length));
    assert length < U32_SIZE ==> ToPosition(length) == length;
    hide ToQueueId, ToPosition;
  }

  lemma ToPositionSum(a: nat, b: nat, n: nat)
    requires ToPosition(a) == ToPosition(b)
    ensures ToPosition(a + ToPosition(n)) == ToPosition(b + n)
  {
  }
}
