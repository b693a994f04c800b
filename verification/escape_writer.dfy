/** Writes bytes as the inside of a Go string literal. */
module EscapeWriters {
  import opened Wrappers
  import opened ByteStrings
  import opened Utf8
  import opened StringLiterals

  /** The value that DecodeRune returns for ill-formed input. */
  const RUNE_ERROR := 0xFFFD

  function HexDigit(n: nat): byte
    requires n < 16
  {
    if n < 10 then 0x30 + n else 0x61 + n - 10
  }

  /** `\xhh` */
  function Hex(b: byte): bytes {
    [BACKSLASH, 0x78, HexDigit(b / 16), HexDigit(b % 16)]
  }

  /** Whether `data` starts with a character that is written as it is. */
  predicate Verbatim(data: bytes) {
    var r := DecodeRune(data);
    r.Some? && r.value.0 != RUNE_ERROR && r.value.0 != BYTE_ORDER_MARK
  }

  /** How many bytes the next write takes care of, and what is written. */
  function Unit(data: bytes): (u: (nat, bytes))
    requires data != []
    ensures 1 <= u.0 <= |data|
  {
    if data[0] == BACKSLASH then (1, [BACKSLASH, BACKSLASH])
    else if data[0] == QUOTE then (1, [BACKSLASH, QUOTE])
    else if data[0] == NEWLINE then (1, [BACKSLASH, 0x6E])
    else if data[0] == 0 then (1, [BACKSLASH, 0x78, 0x30, 0x30])
    else if Verbatim(data) then (DecodeRune(data).value.1, data[..DecodeRune(data).value.1])
    else (1, Hex(data[0]))
  }

  /** What one call writes if nothing fails. */
  function Escaped(data: bytes): bytes
    decreases |data|
  {
    if data == [] then [] else Unit(data).1 + Escaped(data[Unit(data).0..])
  }

  /** A writer that accepts so many more writes. */
  class Sink {
    var contents: bytes
    var patience: nat

    constructor (patience: nat)
      ensures contents == [] && this.patience == patience
    {
      contents, this.patience := [], patience;
    }

    method Write(data: bytes) returns (ok: bool)
      modifies this
      ensures ok <==> old(patience) > 0
      ensures contents == if ok then old(contents) + data else old(contents)
      ensures patience == if ok then old(patience) - 1 else 0
    {
      if patience == 0 {
        return false;
      }
      contents, patience := contents + data, patience - 1;
      return true;
    }
  }

  class EscapeWriter {
    const w: Sink

    constructor (w: Sink)
      ensures this.w == w
    {
      this.w := w;
    }

    /** Writes the escaped data. If the writer below fails, the number returned
        also counts the bytes whose write failed. */
    method Write(data: bytes) returns (n: nat, ok: bool)
      modifies w
      ensures n <= |data|
      ensures ok ==> n == |data| && w.contents == old(w.contents) + Escaped(data)
      ensures !ok ==> exists k: nat | k < n :: FailedAt(data, k, n, old(w.contents), w.contents)
    {
      hide Unit, Escaped;
      var rest := data;
      while |rest| > 0
        invariant |rest| <= |data| && rest == data[|data| - |rest|..]
        invariant w.contents + Escaped(rest) == old(w.contents) + Escaped(data)
      {
        ghost var k, before := |data| - |rest|, w.contents;
        EscapedStep(rest);
        var used: nat;
        used, ok := WriteUnit(rest);
        rest := rest[used..];
        assert rest == data[k + used..];
        if !ok {
          n := |data| - |rest|;
          assert FailedAt(data, k, n, old(w.contents), w.contents);
          return;
        }
        assert w.contents + Escaped(rest) == before + (Unit(data[k..]).1 + Escaped(rest));
      }
      EscapedNothing();
      assert w.contents + [] == w.contents;
      return |data|, true;
    }

    /** One round of the loop: a single write. */
    method WriteUnit(data: bytes) returns (used: nat, ok: bool)
      requires data != []
      modifies w
      ensures used == Unit(data).0
      ensures w.contents == if ok then old(w.contents) + Unit(data).1 else old(w.contents)
    {
      hide DecodeRune;
      var b := data[0];
      used := 1;
      if b == BACKSLASH {
        ok := w.Write([BACKSLASH, BACKSLASH]);
      } else if b == QUOTE {
        ok := w.Write([BACKSLASH, QUOTE]);
      } else if b == NEWLINE {
        ok := w.Write([BACKSLASH, 0x6E]);
      } else if b == 0 {
        ok := w.Write([BACKSLASH, 0x78, 0x30, 0x30]);
      } else {
        var r := DecodeRune(data);
        if r.Some? && r.value.0 != RUNE_ERROR && r.value.0 != BYTE_ORDER_MARK {
          used := r.value.1;
          ok := w.Write(data[..used]);
        } else {
          ok := w.Write(Hex(b));
        }
      }
    }
  }

  lemma EscapedStep(data: bytes)
    requires data != []
    ensures 1 <= Unit(data).0 <= |data|
    ensures Escaped(data) == Unit(data).1 + Escaped(data[Unit(data).0..])
  {
  }

  lemma EscapedNothing()
    ensures Escaped([]) == []
  {
  }

  /** All that was due before input `k` was written, and the write for the input
      from `k` up to `n` is the one that failed. */
  ghost predicate FailedAt(data: bytes, k: nat, n: nat, before: bytes, after: bytes)
    requires k < n <= |data|
  {
    && n == k + Unit(data[k..]).0
    && after + (Unit(data[k..]).1 + Escaped(data[n..])) == before + Escaped(data)
  }

  // ------------------------------------------------------------- the round trip

  lemma HexRead(b: byte)
    ensures Number(Hex(b)[2..], 16) == Some(b)
  {
    var digits := Hex(b)[2..];
    assert digits == [HexDigit(b / 16), HexDigit(b % 16)];
    assert digits[..1] == [HexDigit(b / 16)] && digits[..1][..0] == [];
    assert Number([], 16) == Some(0);
    assert Number(digits[..1], 16) == Some(b / 16);
  }

  /** A hexadecimal escape ends after two digits, even before another one. */
  lemma HexNext(b: byte, rest: bytes)
    ensures Next(Hex(b) + rest) == Some(Element([b], 4))
  {
    var s := Hex(b) + rest;
    HexRead(b);
    assert s[0] == BACKSLASH && s[1..][0] == 0x78;
    assert s[1..][1..3] == Hex(b)[2..];
  }

  /** Each written unit is read back as the bytes it was written for. */
  lemma UnitNext(data: bytes, rest: bytes)
    requires data != []
    ensures Next(Unit(data).1 + rest) == Some(Element(data[..Unit(data).0], |Unit(data).1|))
  {
    var (n, out) := Unit(data);
    var s := out + rest;
    assert data[..1] == [data[0]];
    if data[0] in {BACKSLASH, QUOTE, NEWLINE} {
      assert s[0] == BACKSLASH && s[1..][0] == out[1];
    } else if data[0] == 0 {
      assert Hex(0) == out;
      HexNext(0, rest);
    } else if Verbatim(data) {
      DecodeAlike(data, rest);
      assert s[0] == data[0] && s[..n] == data[..n];
    } else {
      HexNext(data[0], rest);
    }
  }

  lemma ReadStep(out: bytes, value: bytes, more: bytes)
    requires out != [] && Next(out + more) == Some(Element(value, |out|))
    ensures Read(out + more) == Prefixed(value, Read(more))
  {
    hide Next;
    assert (out + more)[|out|..] == more;
  }

  lemma {:induction false} EscapedRead(data: bytes, rest: bytes)
    ensures Read(Escaped(data) + rest) == Prefixed(data, Read(rest))
    decreases |data|
  {
    hide Read, Next;
    if data == [] {
      EscapedNothing();
      assert [] + rest == rest;
      assert Read(rest).Some? ==> [] + Read(rest).value == Read(rest).value;
    } else {
      EscapedStep(data);
      var n, out := Unit(data).0, Unit(data).1;
      assert out != [];
      hide Unit, Escaped, Prefixed;
      var more := Escaped(data[n..]) + rest;
      assert Escaped(data) + rest == out + more;
      UnitNext(data, more);
      ReadStep(out, data[..n], more);
      EscapedRead(data[n..], rest);
      PrefixedTwice(data, n, Read(rest));
    }
  }

  /** What was read, with more in front. */
  function Prefixed(front: bytes, r: Option<bytes>): Option<bytes> {
    if r.Some? then Some(front + r.value) else None
  }

  lemma PrefixedTwice(data: bytes, n: nat, r: Option<bytes>)
    requires n <= |data|
    ensures Prefixed(data[..n], Prefixed(data[n..], r)) == Prefixed(data, r)
  {
    if r.Some? {
      assert data[..n] + (data[n..] + r.value) == data + r.value;
    }
  }

  function Concat(parts: seq<bytes>): bytes {
    if parts == [] then [] else parts[0] + Concat(parts[1..])
  }

  function EscapedParts(parts: seq<bytes>): bytes {
    if parts == [] then [] else Escaped(parts[0]) + EscapedParts(parts[1..])
  }

  /** However the input is split into calls, a character cut in two included, the
      output is a literal that stands for exactly the input. */
  lemma {:induction false} RoundTrip(parts: seq<bytes>)
    ensures Read(EscapedParts(parts)) == Some(Concat(parts))
  {
    if parts != [] {
      RoundTrip(parts[1..]);
      EscapedRead(parts[0], EscapedParts(parts[1..]));
    }
  }

  /** So different inputs are never written alike. */
  lemma Injective(a: seq<bytes>, b: seq<bytes>)
    requires EscapedParts(a) == EscapedParts(b)
    ensures Concat(a) == Concat(b)
  {
    RoundTrip(a);
    RoundTrip(b);
  }
}
