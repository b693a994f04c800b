/** Binary encoders and chains of them. Ciphers are arbitrary functions: the
    random choices of one call are part of the function it is modelled by. */
module Encoders {
  import opened Wrappers
  import opened ByteStrings

  datatype Error = Expired | Unsupported | Fault(what: string) | Joined(first: Error, second: Error)

  /** What a decoder records in the context it returns. */
  datatype Note = Issued(at: int) | MaxTime(at: int) | Expires(at: int) | Other(key: string)

  /** A decoder may return data and an error together; absent data stands for a
      nil slice. */
  datatype Decoded = Decoded(notes: seq<Note>, data: Option<bytes>, err: Option<Error>)

  datatype Encoder =
    | Plain(encode: bytes -> Result<bytes, Error>, decode: bytes -> Decoded)
    | Sealing(encode: bytes -> Result<bytes, Error>, decode: bytes -> Decoded,
              encodeWith: (bytes, bytes) -> Result<bytes, Error>, decodeWith: (bytes, bytes) -> Decoded)
    | Chained(encoders: seq<Encoder>)

  function Bytes(data: Option<bytes>): bytes {
    if data.Some? then data.value else []
  }

  // --------------------------------------------------------- without extra data

  function Encode(e: Encoder, data: bytes): Result<bytes, Error>
    decreases e, 0
  {
    if e.Chained? then EncodeAll(e.encoders, data) else e.encode(data)
  }

  /** Each encoder works on what the one before it produced. */
  function EncodeAll(es: seq<Encoder>, data: bytes): Result<bytes, Error>
    decreases es, |es|
  {
    if es == [] then Ok(data)
    else
      var r := EncodeAll(es[..|es| - 1], data);
      if r.Err? then r else Encode(es[|es| - 1], r.value)
  }

  function Decode(e: Encoder, data: bytes): Decoded
    decreases e, 0
  {
    if e.Chained? then DecodeRest(e.encoders, Decoded([], Some(data), None)) else e.decode(data)
  }

  /** Adds what one more decoder says. The first error is kept. */
  function Join(state: Decoded, r: Decoded): Decoded {
    Decoded(state.notes + r.notes, r.data, if state.err.None? then r.err else state.err)
  }

  /** An error without data ends the chain; one with data does not. */
  predicate Hard(r: Decoded) {
    r.err.Some? && r.data.None?
  }

  /** The decoders run in reverse order. */
  function DecodeRest(es: seq<Encoder>, state: Decoded): Decoded
    decreases es, |es|
  {
    if es == [] then state
    else
      var r := Decode(es[|es| - 1], Bytes(state.data));
      if Hard(r) then Join(state, r) else DecodeRest(es[..|es| - 1], Join(state, r))
  }

  // ------------------------------------------------------ with associated data

  function EncodeWith(e: Encoder, data: bytes, aad: bytes): Result<bytes, Error>
    decreases e, 0
  {
    match e
    case Plain(encode, _) => encode(data)
    case Sealing(_, _, encodeWith, _) => encodeWith(data, aad)
    case Chained(es) =>
      var r := EncodeAllWith(es, data, aad);
      if r.Ok? && aad != [] && forall i | 0 <= i < |es| :: es[i].Plain? then Err(Unsupported) else r
  }

  function EncodeAllWith(es: seq<Encoder>, data: bytes, aad: bytes): Result<bytes, Error>
    decreases es, |es|
  {
    if es == [] then Ok(data)
    else
      var r := EncodeAllWith(es[..|es| - 1], data, aad);
      if r.Err? then r else EncodeWith(es[|es| - 1], r.value, aad)
  }

  /** Whether the encoder claims to authenticate associated data. */
  predicate Supports(e: Encoder) {
    match e
    case Plain(_, _) => false
    case Sealing(_, _, _, _) => true
    case Chained(es) => exists i | 0 <= i < |es| :: Supports(es[i])
  }

  function DecodeWith(e: Encoder, data: bytes, aad: bytes): Decoded
    decreases e, 0
  {
    match e
    case Plain(_, decode) => decode(data)
    case Sealing(_, _, _, decodeWith) => decodeWith(data, aad)
    case Chained(es) =>
      var r := DecodeRestWith(es, Decoded([], Some(data), None), aad);
      if aad == [] || Supports(e) then r
      else Decoded(r.notes, None, Some(if r.err.Some? then Joined(r.err.value, Unsupported) else Unsupported))
  }

  function DecodeRestWith(es: seq<Encoder>, state: Decoded, aad: bytes): Decoded
    decreases es, |es|
  {
    if es == [] then state
    else
      var r := DecodeWith(es[|es| - 1], Bytes(state.data), aad);
      if Hard(r) then Join(state, r) else DecodeRestWith(es[..|es| - 1], Join(state, r), aad)
  }

  // -------------------------------------------------------------- early returns

  lemma {:induction false} EncodeFails(es: seq<Encoder>, data: bytes, n: nat)
    requires n <= |es| && EncodeAll(es[..n], data).Err?
    ensures EncodeAll(es, data) == EncodeAll(es[..n], data)
    decreases |es|
  {
    if n < |es| {
      assert es[..|es| - 1][..n] == es[..n];
      EncodeFails(es[..|es| - 1], data, n);
    } else {
      assert es[..n] == es;
    }
  }

  lemma {:induction false} EncodeWithFails(es: seq<Encoder>, data: bytes, aad: bytes, n: nat)
    requires n <= |es| && EncodeAllWith(es[..n], data, aad).Err?
    ensures EncodeAllWith(es, data, aad) == EncodeAllWith(es[..n], data, aad)
    decreases |es|
  {
    if n < |es| {
      assert es[..|es| - 1][..n] == es[..n];
      EncodeWithFails(es[..|es| - 1], data, aad, n);
    } else {
      assert es[..n] == es;
    }
  }
}
