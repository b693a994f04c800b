/** UTF-8 as section 4 of RFC 3629 defines it, and as Go's utf8.DecodeRune reads
    it. */
module Utf8 {
  import opened Wrappers
  import opened ByteStrings

  /** Characters: all code points but the surrogates. */
  predicate IsRune(r: int) {
    0 <= r < 0xD800 || 0xE000 <= r < 0x11_0000
  }

  predicate Tail(b: byte) {
    0x80 <= b <= 0xBF
  }

  /** How many bytes the sequence has that starts with `b`, zero if none does, and
      which second bytes are allowed. */
  function Lead(b: byte): (nat, byte, byte) {
    if b < 0x80 then (1, 0, 0)
    else if b < 0xC2 then (0, 0, 0)
    else if b < 0xE0 then (2, 0x80, 0xBF)
    else if b == 0xE0 then (3, 0xA0, 0xBF)
    else if b == 0xED then (3, 0x80, 0x9F)
    else if b < 0xF0 then (3, 0x80, 0xBF)
    else if b == 0xF0 then (4, 0x90, 0xBF)
    else if b < 0xF4 then (4, 0x80, 0xBF)
    else if b == 0xF4 then (4, 0x80, 0x8F)
    else (0, 0, 0)
  }

  function Rune2(a: int, b: int): int {
    a % 32 * 64 + b % 64
  }

  function Rune3(a: int, b: int, c: int): int {
    a % 16 * 4096 + b % 64 * 64 + c % 64
  }

  function Rune4(a: int, b: int, c: int, d: int): int {
    a % 8 * 0x4_0000 + b % 64 * 4096 + c % 64 * 64 + d % 64
  }

  /** The first character of `p` and its size; nothing if `p` does not start with
      a well-formed sequence. */
  function DecodeRune(p: bytes): (r: Option<(int, nat)>)
    ensures r.Some? ==> 1 <= r.value.1 <= 4 && r.value.1 <= |p|
  {
    if p == [] then None
    else
      var (size, lo, hi) := Lead(p[0]);
      if size == 0 || |p| < size then None
      else if size == 1 then Some((p[0], 1))
      else if !(lo <= p[1] <= hi) then None
      else if size == 2 then Some((Rune2(p[0], p[1]), 2))
      else if !Tail(p[2]) then None
      else if size == 3 then Some((Rune3(p[0], p[1], p[2]), 3))
      else if !Tail(p[3]) then None
      else Some((Rune4(p[0], p[1], p[2], p[3]), 4))
  }

  function EncodeRune(r: int): bytes
    requires IsRune(r)
  {
    if r < 0x80 then [r]
    else if r < 0x800 then [0xC0 + r / 64, 0x80 + r % 64]
    else if r < 0x1_0000 then [0xE0 + r / 4096, 0x80 + r / 64 % 64, 0x80 + r % 64]
    else [0xF0 + r / 0x4_0000, 0x80 + r / 4096 % 64, 0x80 + r / 64 % 64, 0x80 + r % 64]
  }

  // ---------------------------------------------------------------- the digits

  /** The base-64 digits of a number. */
  lemma Digits(r: nat)
    ensures r == r / 64 * 64 + r % 64
    ensures r / 64 == r / 4096 * 64 + r / 64 % 64
    ensures r / 4096 == r / 0x4_0000 * 64 + r / 4096 % 64
  {
    assert r / 64 / 64 == r / 4096;
    assert r / 4096 / 64 == r / 0x4_0000;
  }

  lemma LastDigit(hi: nat, lo: nat)
    requires lo < 64
    ensures (hi * 64 + lo) / 64 == hi && (hi * 64 + lo) % 64 == lo
  {
  }

  lemma Lead3(a: nat, b: nat, c: nat)
    requires a < 16 && b < 64 && c < 64 && 0x800 <= a * 4096 + b * 64 + c
    requires !(0xD800 <= a * 4096 + b * 64 + c < 0xE000)
    ensures var (size, lo, hi) := Lead(0xE0 + a); size == 3 && lo <= 0x80 + b <= hi
    ensures Rune3(0xE0 + a, 0x80 + b, 0x80 + c) == a * 4096 + b * 64 + c
  {
  }

  lemma Lead4(a: nat, b: nat, c: nat, d: nat)
    requires b < 64 && c < 64 && d < 64 && 0x1_0000 <= a * 0x4_0000 + b * 4096 + c * 64 + d < 0x11_0000
    ensures a < 5
    ensures var (size, lo, hi) := Lead(0xF0 + a); size == 4 && lo <= 0x80 + b <= hi
    ensures Rune4(0xF0 + a, 0x80 + b, 0x80 + c, 0x80 + d) == a * 0x4_0000 + b * 4096 + c * 64 + d
  {
  }

  lemma Decode2(a: byte, b: byte, rest: bytes)
    requires 0xC2 <= a < 0xE0 && Tail(b)
    ensures DecodeRune([a, b] + rest) == Some((Rune2(a, b), 2))
  {
    var p := [a, b] + rest;
    assert p[0] == a && p[1] == b;
  }

  lemma Decode3(a: byte, b: byte, c: byte, rest: bytes)
    requires Lead(a).0 == 3 && Lead(a).1 <= b <= Lead(a).2 && Tail(c)
    ensures DecodeRune([a, b, c] + rest) == Some((Rune3(a, b, c), 3))
  {
    hide Rune3;
    var p := [a, b, c] + rest;
    assert p[0] == a && p[1] == b && p[2] == c;
  }

  lemma Decode4(a: byte, b: byte, c: byte, d: byte, rest: bytes)
    requires Lead(a).0 == 4 && Lead(a).1 <= b <= Lead(a).2 && Tail(c) && Tail(d)
    ensures DecodeRune([a, b, c, d] + rest) == Some((Rune4(a, b, c, d), 4))
  {
    hide Rune3, Rune4;
    var p := [a, b, c, d] + rest;
    assert p[0] == a && p[1] == b && p[2] == c && p[3] == d;
  }

  /** Every character is read back, whatever follows it. */
  lemma DecodeEncoded(r: int, rest: bytes)
    requires IsRune(r)
    ensures DecodeRune(EncodeRune(r) + rest) == Some((r, |EncodeRune(r)|))
  {
    if r < 0x80 {
      assert ([r] + rest)[0] == r;
    } else if r < 0x800 {
      DecodeEncoded2(r, rest);
    } else if r < 0x1_0000 {
      hide DecodeRune, Lead, Rune3;
      Digits(r);
      Lead3(r / 4096, r / 64 % 64, r % 64);
      Decode3(0xE0 + r / 4096, 0x80 + r / 64 % 64, 0x80 + r % 64, rest);
    } else {
      hide DecodeRune, Lead, Rune4;
      Digits(r);
      Lead4(r / 0x4_0000, r / 4096 % 64, r / 64 % 64, r % 64);
      Decode4(0xF0 + r / 0x4_0000, 0x80 + r / 4096 % 64, 0x80 + r / 64 % 64, 0x80 + r % 64, rest);
    }
  }

  lemma DecodeEncoded2(r: int, rest: bytes)
    requires 0x80 <= r < 0x800
    ensures DecodeRune(EncodeRune(r) + rest) == Some((r, 2))
  {
    hide DecodeRune;
    Digits(r);
    Decode2(0xC0 + r / 64, 0x80 + r % 64, rest);
  }

  lemma Encode2(a: byte, b: byte)
    requires 0xC2 <= a < 0xE0 && Tail(b)
    ensures IsRune(Rune2(a, b)) && EncodeRune(Rune2(a, b)) == [a, b]
  {
    LastDigit(a % 32, b % 64);
  }

  lemma Encode3(a: byte, b: byte, c: byte)
    requires Lead(a).0 == 3 && Lead(a).1 <= b <= Lead(a).2 && Tail(c)
    ensures IsRune(Rune3(a, b, c)) && EncodeRune(Rune3(a, b, c)) == [a, b, c]
  {
    var hi := a % 16 * 64 + b % 64;
    LastDigit(hi, c % 64);
    LastDigit(a % 16, b % 64);
    Digits(Rune3(a, b, c));
    assert Rune3(a, b, c) == hi * 64 + c % 64;
  }

  lemma Range4(a: byte, b: byte, c: byte, d: byte)
    requires Lead(a).0 == 4 && Lead(a).1 <= b <= Lead(a).2 && Tail(c) && Tail(d)
    ensures 0x1_0000 <= Rune4(a, b, c, d) < 0x11_0000
    ensures 0xF0 + a % 8 == a && 0x80 + b % 64 == b && 0x80 + c % 64 == c && 0x80 + d % 64 == d
  {
  }

  lemma Encode4(a: byte, b: byte, c: byte, d: byte)
    requires Lead(a).0 == 4 && Lead(a).1 <= b <= Lead(a).2 && Tail(c) && Tail(d)
    ensures IsRune(Rune4(a, b, c, d)) && EncodeRune(Rune4(a, b, c, d)) == [a, b, c, d]
  {
    Range4(a, b, c, d);
    hide Lead;
    var top := a % 8 * 64 + b % 64;
    var hi := top * 64 + c % 64;
    LastDigit(hi, d % 64);
    LastDigit(top, c % 64);
    LastDigit(a % 8, b % 64);
    Digits(Rune4(a, b, c, d));
    assert Rune4(a, b, c, d) == hi * 64 + d % 64;
  }

  /** A character has no other encoding than its own. */
  lemma EncodeDecoded(p: bytes)
    requires DecodeRune(p).Some?
    ensures var (r, size) := DecodeRune(p).value; IsRune(r) && EncodeRune(r) == p[..size]
  {
    var (r, size) := DecodeRune(p).value;
    hide Rune2, Rune3, Rune4, EncodeRune;
    if size == 1 {
      EncodeAscii(p[0]);
    } else if size == 2 {
      Encode2(p[0], p[1]);
    } else if size == 3 {
      Encode3(p[0], p[1], p[2]);
    } else {
      Encode4(p[0], p[1], p[2], p[3]);
    }
  }

  lemma EncodeAscii(a: byte)
    requires a < 0x80
    ensures EncodeRune(a) == [a]
  {
  }

  /** Only the bytes of the character matter. */
  lemma DecodeAlike(p: bytes, rest: bytes)
    requires DecodeRune(p).Some?
    ensures DecodeRune(p[..DecodeRune(p).value.1] + rest) == DecodeRune(p)
  {
    hide Rune2, Rune3, Rune4;
  }
}
