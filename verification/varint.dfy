/** Variable-length integers as Go's encoding/binary package writes and reads
    them: seven bits to a byte, least significant first, at most ten bytes. */
module Varints {
  import opened Integers
  import opened ByteStrings

  const MAX_VARINT_LEN := 10

  function PutUvarint(x: nat): bytes {
    if x < 128 then [x] else [x % 128 + 128] + PutUvarint(x / 128)
  }

  /** The value and the number of bytes read: zero if the buffer ends too early,
      negative if the value does not fit 64 bits. */
  function Uvarint(buf: bytes): (nat, int) {
    UvarintFrom(buf, 0, 0, 1)
  }

  /** `scale` is two to the power of the bits read so far. */
  function UvarintFrom(buf: bytes, i: nat, x: nat, scale: nat): (nat, int)
    requires i <= |buf|
    decreases |buf| - i
  {
    if i == |buf| then (0, 0)
    else if i == MAX_VARINT_LEN then (0, -(i + 1))
    else if buf[i] < 128 then
      if i == MAX_VARINT_LEN - 1 && buf[i] > 1 then (0, -(i + 1)) else (x + buf[i] * scale, i + 1)
    else UvarintFrom(buf, i + 1, x + (buf[i] - 128) * scale, scale * 128)
  }

  function Power128(i: nat): (p: nat)
    ensures p > 0
  {
    if i == 0 then 1 else 128 * Power128(i - 1)
  }

  lemma Powers()
    ensures Power128(9) == U64_SIZE / 2
  {
    assert Power128(3) == 0x20_0000;
    assert Power128(6) == 128 * (128 * (128 * Power128(3)));
    assert Power128(9) == 128 * (128 * (128 * Power128(6)));
  }

  lemma {:induction false} PowerGrows(i: nat, j: nat)
    requires i <= j
    ensures Power128(i) <= Power128(j)
  {
    if i < j {
      PowerGrows(i, j - 1);
    }
  }

  /** Dropping the low seven bits while the scale grows by as many. */
  lemma ShiftSmaller(x: nat, scale: nat)
    ensures x * scale == x / 128 * (scale * 128) + x % 128 * scale
    ensures x / 128 * (scale * 128) <= x * scale
  {
    assert x == x / 128 * 128 + x % 128;
    assert x / 128 * 128 * scale == x / 128 * (scale * 128);
    assert x * scale == x / 128 * 128 * scale + x % 128 * scale;
    assert x % 128 * scale >= 0;
  }

  lemma {:induction false} UvarintFromPut(buf: bytes, i: nat, acc: nat, x: nat, rest: bytes)
    requires i <= |buf| && buf[i..] == PutUvarint(x) + rest
    requires i < MAX_VARINT_LEN && x * Power128(i) < U64_SIZE
    ensures UvarintFrom(buf, i, acc, Power128(i)) == (acc + x * Power128(i), i + |PutUvarint(x)|)
    ensures i + |PutUvarint(x)| <= MAX_VARINT_LEN
    decreases x
  {
    var scale := Power128(i);
    Powers();
    PutFront(buf, i, x, rest);
    hide Power128;
    if x < 128 {
      if i == 9 {
        assert x <= 1;
      }
    } else {
      var y := x / 128;
      ShiftSmaller(x, scale);
      NextPower(i);
      assert 128 * scale <= x * scale;
      assert i < 9;
      UvarintFromPut(buf, i + 1, acc + x % 128 * scale, y, rest);
    }
  }

  lemma NextPower(i: nat)
    ensures Power128(i + 1) == Power128(i) * 128
  {
  }

  /** The first byte of a number that stands at place `i`, and what follows. */
  lemma PutFront(buf: bytes, i: nat, x: nat, rest: bytes)
    requires i <= |buf| && buf[i..] == PutUvarint(x) + rest
    ensures i < |buf| && buf[i] == if x < 128 then x else x % 128 + 128
    ensures |PutUvarint(x)| == if x < 128 then 1 else 1 + |PutUvarint(x / 128)|
    ensures x >= 128 ==> buf[i + 1..] == PutUvarint(x / 128) + rest
  {
    assert buf[i] == buf[i..][0] == (PutUvarint(x) + rest)[0];
    assert x >= 128 ==> buf[i + 1..] == buf[i..][1..] == PutUvarint(x / 128) + rest;
  }

  /** Every 64-bit value is read back, whatever follows it. */
  lemma UvarintOfPut(x: u64, rest: bytes)
    ensures Uvarint(PutUvarint(x) + rest) == (x, |PutUvarint(x)|)
    ensures 1 <= |PutUvarint(x)| <= MAX_VARINT_LEN
  {
    var buf := PutUvarint(x) + rest;
    assert buf[0..] == buf;
    UvarintFromPut(buf, 0, 0, x, rest);
  }

  lemma DigitFits(b: nat, x: nat, scale: nat)
    requires x < scale && b < 128
    ensures x + b * scale < 128 * scale
    ensures b <= 1 ==> x + b * scale < 2 * scale
  {
    assert b * scale <= 127 * scale;
    assert b <= 1 ==> b * scale <= scale;
  }

  /** A successful read consumes some of the buffer and yields 64 bits. */
  lemma UvarintFits(buf: bytes)
    ensures var (v, n) := Uvarint(buf); n > 0 ==> v < U64_SIZE && n <= |buf|
  {
    UvarintExactly(buf);
  }

  // ---------------------------------------------------- what any buffer reads as

  /** The low seven bits of each byte, least significant first. */
  function Groups(bs: bytes): nat {
    if bs == [] then 0 else bs[0] % 128 + 128 * Groups(bs[1..])
  }

  /** Where the first byte without a continuation bit is, or the length. */
  function Terminator(buf: bytes): (k: nat)
    ensures k <= |buf|
    ensures k < |buf| ==> buf[k] < 128
    ensures forall i | 0 <= i < k :: buf[i] >= 128
  {
    if buf == [] || buf[0] < 128 then 0 else 1 + Terminator(buf[1..])
  }

  lemma TerminatorIs(buf: bytes, k: nat)
    requires k <= |buf| && (k < |buf| ==> buf[k] < 128) && forall i | 0 <= i < k :: buf[i] >= 128
    ensures Terminator(buf) == k
  {
    var t := Terminator(buf);
  }

  lemma {:induction false} GroupsBound(bs: bytes)
    ensures Groups(bs) < Power128(|bs|)
  {
    if bs != [] {
      GroupsBound(bs[1..]);
    }
  }

  lemma {:induction false} GroupsMore(bs: bytes, b: byte)
    ensures Groups(bs + [b]) == Groups(bs) + b % 128 * Power128(|bs|)
  {
    if bs == [] {
      assert [] + [b] == [b] && [b][1..] == [];
    } else {
      GroupsMore(bs[1..], b);
      assert (bs + [b])[1..] == bs[1..] + [b];
      TimesPower(b % 128, |bs|);
    }
  }

  lemma TimesPower(b: nat, n: nat)
    requires n > 0
    ensures 128 * (b * Power128(n - 1)) == b * Power128(n)
  {
    assert 128 * (b * Power128(n - 1)) == b * (128 * Power128(n - 1));
  }

  lemma {:induction false} UvarintFromExactly(buf: bytes, i: nat)
    requires i <= |buf| && i <= MAX_VARINT_LEN && i <= Terminator(buf)
    ensures var (v, n) := UvarintFrom(buf, i, Groups(buf[..i]), Power128(i));
      var k := Terminator(buf);
      if k == |buf| && k <= MAX_VARINT_LEN then (v, n) == (0, 0)
      else if k < MAX_VARINT_LEN && Groups(buf[..k + 1]) < U64_SIZE then (v, n) == (Groups(buf[..k + 1]), k + 1)
      else v == 0 && n < 0
    decreases |buf| - i
  {
    if i < |buf| && i < MAX_VARINT_LEN {
      GroupsUpTo(buf, i);
      hide Groups;
      if buf[i] < 128 {
        TerminatorIs(buf, i);
        LastGroup(buf, i);
      } else {
        UvarintFromExactly(buf, i + 1);
      }
    }
  }

  lemma GroupsUpTo(buf: bytes, i: nat)
    requires i < |buf|
    ensures Groups(buf[..i + 1]) == Groups(buf[..i]) + buf[i] % 128 * Power128(i)
    ensures buf[i] % 128 == if buf[i] < 128 then buf[i] else buf[i] - 128
    ensures Power128(i + 1) == Power128(i) * 128
  {
    assert buf[..i + 1] == buf[..i] + [buf[i]];
    GroupsMore(buf[..i], buf[i]);
  }

  /** Only the tenth byte can make a value too large, and only if it is over one. */
  lemma LastGroup(buf: bytes, i: nat)
    requires i < |buf| && i < MAX_VARINT_LEN && buf[i] < 128
    ensures Groups(buf[..i + 1]) < U64_SIZE <==> !(i == MAX_VARINT_LEN - 1 && buf[i] > 1)
  {
    assert buf[..i + 1] == buf[..i] + [buf[i]];
    GroupsMore(buf[..i], buf[i]);
    GroupsBound(buf[..i]);
    GroupsBound(buf[..i + 1]);
    Powers();
    if i < 9 {
      PowerGrows(i + 1, 9);
    } else {
      DigitFits(buf[9], Groups(buf[..9]), Power128(9));
      assert buf[9] > 1 ==> buf[9] * Power128(9) >= 2 * Power128(9);
    }
  }

  /** What any buffer reads as: nothing if it ends before its first byte without a
      continuation bit; else the groups of seven bits up to that byte, unless they
      make more than 64 bits. */
  lemma UvarintExactly(buf: bytes)
    ensures var (v, n) := Uvarint(buf);
      var k := Terminator(buf);
      if k == |buf| && k <= MAX_VARINT_LEN then (v, n) == (0, 0)
      else if k < MAX_VARINT_LEN && Groups(buf[..k + 1]) < U64_SIZE then (v, n) == (Groups(buf[..k + 1]), k + 1)
      else v == 0 && n < 0
  {
    UvarintFromExactly(buf, 0);
  }

  // ------------------------------------------------------------ signed numbers

  function Zigzag(x: int64): u64 {
    if x >= 0 then 2 * x else -2 * x - 1
  }

  function PutVarint(x: int64): bytes {
    PutUvarint(Zigzag(x))
  }

  function Varint(buf: bytes): (int, int) {
    var (u, n) := Uvarint(buf);
    (if u % 2 == 0 then u / 2 else -(u / 2) - 1, n)
  }

  lemma VarintOfPut(x: int64, rest: bytes)
    ensures Varint(PutVarint(x) + rest) == (x, |PutVarint(x)|)
    ensures 1 <= |PutVarint(x)| <= MAX_VARINT_LEN
  {
    UvarintOfPut(Zigzag(x), rest);
  }
}
