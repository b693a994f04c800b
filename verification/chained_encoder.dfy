/** The loops that run a chain of encoders. */
module ChainedEncoders {
  import opened Wrappers
  import opened ByteStrings
  import opened Encoders

  class ChainedEncoder {
    const encoders: seq<Encoder>

    constructor (encoders: seq<Encoder>)
      ensures this.encoders == encoders
    {
      this.encoders := encoders;
    }

    method Encode(data: bytes) returns (r: Result<bytes, Error>)
      ensures r == Encoders.Encode(Chained(encoders), data)
    {
      var current := data;
      for i := 0 to |encoders|
        invariant EncodeAll(encoders[..i], data) == Ok(current)
      {
        r := Encoders.Encode(encoders[i], current);
        assert encoders[..i + 1][..i] == encoders[..i];
        if r.Err? {
          EncodeFails(encoders, data, i + 1);
          return;
        }
        current := r.value;
      }
      assert encoders[..|encoders|] == encoders;
      return Ok(current);
    }

    method EncodeWithAssociatedData(data: bytes, aad: bytes) returns (r: Result<bytes, Error>)
      ensures r == EncodeWith(Chained(encoders), data, aad)
    {
      var current, used := data, |aad| == 0;
      for i := 0 to |encoders|
        invariant EncodeAllWith(encoders[..i], data, aad) == Ok(current)
        invariant used <==> aad == [] || exists j | 0 <= j < i :: !encoders[j].Plain?
      {
        if !encoders[i].Plain? {
          r, used := EncodeWith(encoders[i], current, aad), true;
        } else {
          r := Encoders.Encode(encoders[i], current);
        }
        assert encoders[..i + 1][..i] == encoders[..i];
        if r.Err? {
          EncodeWithFails(encoders, data, aad, i + 1);
          return;
        }
        current := r.value;
      }
      assert encoders[..|encoders|] == encoders;
      return if used then Ok(current) else Err(Unsupported);
    }

    method Decode(data: bytes) returns (r: Decoded)
      ensures r == Encoders.Decode(Chained(encoders), data)
    {
      r := Decoded([], Some(data), None);
      assert encoders[..|encoders|] == encoders;
      for i := |encoders| downto 0
        invariant Encoders.Decode(Chained(encoders), data) == DecodeRest(encoders[..i], r)
      {
        var one := Encoders.Decode(encoders[i], Bytes(r.data));
        assert encoders[..i + 1][..i] == encoders[..i];
        r := Join(r, one);
        if Hard(one) {
          return;
        }
      }
    }

    method DecodeWithAssociatedData(data: bytes, aad: bytes) returns (r: Decoded)
      ensures r == DecodeWith(Chained(encoders), data, aad)
    {
      var supported := |aad| == 0 || Supports(Chained(encoders));
      r := Decoded([], Some(data), None);
      assert encoders[..|encoders|] == encoders;
      var i := |encoders|;
      var done := false;
      while i > 0 && !done
        invariant 0 <= i <= |encoders|
        invariant DecodeRestWith(encoders, Decoded([], Some(data), None), aad) ==
                  if done then r else DecodeRestWith(encoders[..i], r, aad)
      {
        i := i - 1;
        var one := if encoders[i].Plain? then Encoders.Decode(encoders[i], Bytes(r.data))
                   else DecodeWith(encoders[i], Bytes(r.data), aad);
        assert encoders[..i + 1][..i] == encoders[..i];
        r, done := Join(r, one), Hard(one);
      }
      if !supported {
        var error := if r.err.Some? then Joined(r.err.value, Unsupported) else Unsupported;
        r := Decoded(r.notes, None, Some(error));
      }
    }
  }
}
