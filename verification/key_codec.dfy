/** Keys of a configuration store, written so that they are single path
    segments. */
module KeyCodecs {
  import opened Wrappers
  import opened ByteStrings

  const SLASH: byte := 0x2F
  const PERCENT: byte := 0x25

  function ToHex(v: byte): byte
    requires v < 16
  {
    if v < 10 then 0x30 + v else 0x41 + (v - 10)
  }

  /** A slash, a percent sign and a NUL are escaped. */
  function EncodeByte(b: byte): bytes {
    if b == SLASH || b == PERCENT || b == 0 then [PERCENT, ToHex(b / 16), ToHex(b % 16)] else [b]
  }

  function EncodeKey(key: bytes): bytes {
    if key == [] then [] else EncodeByte(key[0]) + EncodeKey(key[1..])
  }

  /** The byte that an escape at the front stands for. */
  function Escape(s: bytes): Option<byte> {
    if |s| < 3 || s[0] != PERCENT then None
    else
      var hi, lo := HexValue(s[1]), HexValue(s[2]);
      if hi.Some? && lo.Some? then Some(hi.value * 16 + lo.value) else None
  }

  /** Any escape is decoded; what is not one is left as it is. */
  function DecodeKey(s: bytes): bytes {
    if s == [] then []
    else if Escape(s).Some? then [Escape(s).value] + DecodeKey(s[3..])
    else [s[0]] + DecodeKey(s[1..])
  }

  method Encode(key: bytes) returns (b: bytes)
    ensures b == EncodeKey(key)
  {
    b := [];
    for i := 0 to |key|
      invariant b + EncodeKey(key[i..]) == EncodeKey(key)
    {
      EncodeFront(b, key, i);
      if key[i] == SLASH || key[i] == PERCENT || key[i] == 0 {
        b := b + [PERCENT, ToHex(key[i] / 16), ToHex(key[i] % 16)];
      } else {
        b := b + [key[i]];
      }
    }
  }

  /** One round of encoding. */
  lemma EncodeFront(b: bytes, key: bytes, i: nat)
    requires i < |key|
    ensures b + EncodeKey(key[i..]) == b + EncodeByte(key[i]) + EncodeKey(key[i + 1..])
  {
    assert key[i..][1..] == key[i + 1..];
  }

  method Decode(encoded: bytes) returns (b: bytes)
    ensures b == DecodeKey(encoded)
  {
    hide DecodeKey;
    b := [];
    var i := 0;
    assert encoded[0..] == encoded;
    while i < |encoded|
      invariant 0 <= i <= |encoded|
      invariant b + DecodeKey(encoded[i..]) == DecodeKey(encoded)
    {
      DecodeFront(b, encoded, i);
      var value: byte, size := encoded[i], 1;
      if encoded[i] == PERCENT && i + 2 < |encoded| {
        var hi, lo := HexValue(encoded[i + 1]), HexValue(encoded[i + 2]);
        if hi.Some? && lo.Some? {
          value, size := hi.value * 16 + lo.value, 3;
        }
      }
      b := b + [value];
      i := i + size;
    }
    assert encoded[i..] == [];
    DecodeNothing(b);
  }

  lemma DecodeNothing(b: bytes)
    ensures b + DecodeKey([]) == b
  {
  }

  /** One round of decoding. */
  lemma DecodeFront(b: bytes, s: bytes, i: nat)
    requires i < |s|
    ensures b + DecodeKey(s[i..]) ==
            if s[i] == PERCENT && i + 2 < |s| && HexValue(s[i + 1]).Some? && HexValue(s[i + 2]).Some?
            then b + [HexValue(s[i + 1]).value * 16 + HexValue(s[i + 2]).value] + DecodeKey(s[i + 3..])
            else b + [s[i]] + DecodeKey(s[i + 1..])
  {
    if Escape(s[i..]).Some? {
      assert s[i..][3..] == s[i + 3..];
    } else {
      assert s[i..][1..] == s[i + 1..];
    }
  }

  // ------------------------------------------------------------- the round trip

  lemma HexRead(b: byte)
    ensures HexValue(ToHex(b / 16)) == Some(b / 16) && HexValue(ToHex(b % 16)) == Some(b % 16)
  {
  }

  lemma DecodeStep(b: byte, rest: bytes)
    ensures DecodeKey(EncodeByte(b) + rest) == [b] + DecodeKey(rest)
  {
    HexRead(b);
    var s := EncodeByte(b) + rest;
    assert s[|EncodeByte(b)|..] == rest;
  }

  /** Every key comes back, whatever bytes it holds. */
  lemma {:induction false} DecodeEncoded(key: bytes)
    ensures DecodeKey(EncodeKey(key)) == key
  {
    if key != [] {
      DecodeStep(key[0], EncodeKey(key[1..]));
      DecodeEncoded(key[1..]);
    }
  }

  /** Encoded keys hold no slash and no NUL, and a percent sign only starts an
      escape; everything else is as in the key. */
  lemma {:induction false} EncodedIsSafe(key: bytes)
    ensures SLASH !in EncodeKey(key) && 0 !in EncodeKey(key)
    ensures key != [] ==> EncodeKey(key) != []
    ensures forall b: byte | b != PERCENT && !(0x30 <= b <= 0x39) && !(0x41 <= b <= 0x46) && b != SLASH && b != 0 ::
              b in EncodeKey(key) <==> b in key
  {
    if key != [] {
      EncodedIsSafe(key[1..]);
      assert key == [key[0]] + key[1..];
    }
  }

  // ------------------------------------------------- what is changed, and what not

  predicate Special(b: byte) {
    b == 0x2F || b == 0x25 || b == 0
  }

  /** A key without a slash, a percent sign and a NUL is its own encoding, and no
      other key is. */
  lemma {:induction false} EncodesOnlySpecial(key: bytes)
    ensures |EncodeKey(key)| >= |key|
    ensures EncodeKey(key) == key <==> forall i | 0 <= i < |key| :: !Special(key[i])
  {
    if key != [] {
      EncodesOnlySpecial(key[1..]);
      var first, rest := EncodeByte(key[0]), EncodeKey(key[1..]);
      assert key == [key[0]] + key[1..];
      if !Special(key[0]) {
        assert EncodeKey(key) == [key[0]] + rest;
        assert EncodeKey(key)[1..] == rest;
      } else {
        assert |EncodeKey(key)| > |key|;
      }
    }
  }

  /** A percent sign with two hexadecimal digits behind it. */
  predicate EscapeAt(s: bytes, i: nat) {
    && i + 2 < |s| && s[i] == 0x25
    && Hexadecimal(s[i + 1]) && Hexadecimal(s[i + 2])
  }

  predicate Hexadecimal(b: byte) {
    0x30 <= b <= 0x39 || 0x41 <= b <= 0x46 || 0x61 <= b <= 0x66
  }

  lemma EscapeIsAt(s: bytes)
    ensures Escape(s).Some? <==> EscapeAt(s, 0)
  {
  }

  lemma LaterEscapes(s: bytes)
    requires s != [] && !EscapeAt(s, 0)
    ensures (exists i | 0 <= i < |s| :: EscapeAt(s, i)) <==> exists i | 0 <= i < |s[1..]| :: EscapeAt(s[1..], i)
  {
    if i :| 0 <= i < |s| && EscapeAt(s, i) {
      assert EscapeAt(s[1..], i - 1);
    }
    if i :| 0 <= i < |s[1..]| && EscapeAt(s[1..], i) {
      assert EscapeAt(s, i + 1);
    }
  }

  /** What holds no escape is its own decoding, and nothing else is. */
  lemma {:induction false} DecodesOnlyEscapes(s: bytes)
    ensures |DecodeKey(s)| <= |s|
    ensures DecodeKey(s) == s <==> forall i | 0 <= i < |s| :: !EscapeAt(s, i)
  {
    EscapeIsAt(s);
    if s != [] {
      if EscapeAt(s, 0) {
        DecodesOnlyEscapes(s[3..]);
      } else {
        DecodesOnlyEscapes(s[1..]);
        assert s == [s[0]] + s[1..];
        assert DecodeKey(s)[1..] == DecodeKey(s[1..]);
        LaterEscapes(s);
      }
    }
  }

  /** The first escape stands for the byte whose two hexadecimal digits follow the
      percent sign, in either case; decoding goes on behind it. */
  lemma {:induction false} DecodesEscape(front: bytes, b: byte, hi: byte, lo: byte, rest: bytes)
    requires forall i | 0 <= i < |front| :: front[i] != 0x25
    requires IsDigit(hi, b / 16) && IsDigit(lo, b % 16)
    ensures DecodeKey(front + [0x25, hi, lo] + rest) == front + [b] + DecodeKey(rest)
  {
    var s := front + [0x25, hi, lo] + rest;
    if front == [] {
      assert s[3..] == rest;
    } else {
      DecodesEscape(front[1..], b, hi, lo, rest);
      assert s[1..] == front[1..] + [0x25, hi, lo] + rest;
      assert [front[0]] + (front[1..] + [b] + DecodeKey(rest)) == front + [b] + DecodeKey(rest);
    }
  }

  predicate IsDigit(c: byte, value: nat) {
    || (value < 10 && c == 0x30 + value)
    || (10 <= value < 16 && (c == 0x41 + value - 10 || c == 0x61 + value - 10))
  }
}
