/** Chains of encoders that undo each other, soft errors included, and what it
    takes for a chain to carry associated data. */
module EncoderChains {
  import opened Wrappers
  import opened ByteStrings
  import opened Encoders

  /** What a decoder says besides the data. */
  datatype Verdict = Verdict(notes: seq<Note>, err: Option<Error>)

  /** `d` recovers whatever `e` encoded, and says `v` about it. */
  ghost predicate Undoes(e: Encoder, d: Encoder, v: Verdict) {
    forall x: bytes :: UndoesOne(e, d, v, x)
  }

  ghost predicate UndoesOne(e: Encoder, d: Encoder, v: Verdict, x: bytes) {
    var r := Encode(e, x);
    r.Ok? ==> Decode(d, r.value) == Decoded(v.notes, Some(x), v.err)
  }

  /** The verdict of a chain: decoders speak in reverse order, the first error
      counts. */
  function Overall(vs: seq<Verdict>): Verdict {
    if vs == [] then Verdict([], None)
    else
      var last, rest := vs[|vs| - 1], Overall(vs[..|vs| - 1]);
      Verdict(last.notes + rest.notes, if last.err.Some? then last.err else rest.err)
  }

  /** Decoding from a state that already says something. */
  lemma {:induction false} DecodeRestUndoes(es: seq<Encoder>, ds: seq<Encoder>, vs: seq<Verdict>, x: bytes,
                                            said: Verdict)
    requires |es| == |ds| == |vs| && forall i | 0 <= i < |es| :: Undoes(es[i], ds[i], vs[i])
    requires EncodeAll(es, x).Ok?
    ensures DecodeRest(ds, Decoded(said.notes, Some(EncodeAll(es, x).value), said.err)) ==
            Decoded(said.notes + Overall(vs).notes, Some(x), if said.err.Some? then said.err else Overall(vs).err)
    decreases |es|
  {
    if es == [] {
      assert said.notes + [] == said.notes;
    } else {
      var n := |es| - 1;
      var before := EncodeAll(es[..n], x).value;
      assert UndoesOne(es[n], ds[n], vs[n], before);
      var said' := Verdict(said.notes + vs[n].notes, if said.err.Some? then said.err else vs[n].err);
      DecodeRestUndoes(es[..n], ds[..n], vs[..n], x, said');
      assert said.notes + vs[n].notes + Overall(vs[..n]).notes == said.notes + Overall(vs).notes;
    }
  }

  /** If each decoder undoes its encoder then the chain of decoders undoes the
      chain of encoders, whatever soft errors are raised on the way. */
  lemma ChainUndoes(es: seq<Encoder>, ds: seq<Encoder>, vs: seq<Verdict>)
    requires |es| == |ds| == |vs| && forall i | 0 <= i < |es| :: Undoes(es[i], ds[i], vs[i])
    ensures Undoes(Chained(es), Chained(ds), Overall(vs))
  {
    var v := Overall(vs);
    forall x: bytes ensures UndoesOne(Chained(es), Chained(ds), v, x) {
      if EncodeAll(es, x).Ok? {
        DecodeRestUndoes(es, ds, vs, x, Verdict([], None));
        assert [] + v.notes == v.notes;
      }
    }
  }

  /** The chain objects to nothing exactly when no member does. */
  lemma {:induction false} OverallError(vs: seq<Verdict>)
    ensures Overall(vs).err == None <==> forall i | 0 <= i < |vs| :: vs[i].err == None
    ensures Overall(vs).err.Some? ==> exists i | 0 <= i < |vs| :: vs[i].err == Overall(vs).err
  {
    if vs != [] {
      var n := |vs| - 1;
      OverallError(vs[..n]);
      assert forall i | 0 <= i < n :: vs[..n][i] == vs[i];
      if vs[n].err == None && Overall(vs).err.Some? {
        var i :| 0 <= i < n && vs[..n][i].err == Overall(vs).err;
        assert vs[i].err == Overall(vs).err;
      }
    }
  }

  // ----------------------------------------------- what a chain makes of any data

  /** What is said before makes no difference to the data. */
  lemma {:induction false} DecodeRestSaid(ds: seq<Encoder>, notes: seq<Note>, data: Option<bytes>, err: Option<Error>)
    ensures var r, s := DecodeRest(ds, Decoded(notes, data, err)), DecodeRest(ds, Decoded([], data, None));
      r.data == s.data && r.notes == notes + s.notes && r.err == if err.Some? then err else s.err
    decreases |ds|
  {
    if ds == [] {
      assert notes + [] == notes;
    } else {
      var n := |ds| - 1;
      var r := Decode(ds[n], Bytes(data));
      assert [] + r.notes == r.notes;
      if !Hard(r) {
        hide Decode;
        DecodeRestSaid(ds[..n], notes + r.notes, r.data, if err.None? then r.err else err);
        DecodeRestSaid(ds[..n], r.notes, r.data, r.err);
        var s := DecodeRest(ds[..n], Decoded([], r.data, None));
        assert (notes + r.notes) + s.notes == notes + (r.notes + s.notes);
      }
    }
  }

  /** On any data, honest or not, a chain does what its last decoder does and then
      what the rest does with the outcome. If the last one gives an error and no
      data, that is all; else everything is said and the first error counts. */
  lemma ChainDecodes(ds: seq<Encoder>, y: bytes)
    requires ds != []
    ensures var n := |ds| - 1;
      var all, last := Decode(Chained(ds), y), Decode(ds[n], y);
      var rest := Decode(Chained(ds[..n]), if last.data.Some? then last.data.value else []);
      if last.err.Some? && last.data.None? then all == last
      else all == Decoded(last.notes + rest.notes,
                          if n == 0 then last.data else rest.data,
                          if last.err.Some? then last.err else rest.err)
  {
    var n := |ds| - 1;
    var last := Decode(ds[n], y);
    assert [] + last.notes == last.notes;
    if !Hard(last) {
      if n == 0 {
        var none: seq<Encoder> := [];
        assert ds[..0] == none;
        assert DecodeRest(none, Join(Decoded([], Some(y), None), last)) == last;
        assert last.notes + [] == last.notes;
      } else {
        DecodeRestSaid(ds[..n], last.notes, last.data, last.err);
        AbsentIsEmpty(ds[..n], last.data);
      }
    }
  }

  /** A decoder takes absent data for empty data. */
  lemma AbsentIsEmpty(ds: seq<Encoder>, data: Option<bytes>)
    requires ds != []
    ensures DecodeRest(ds, Decoded([], data, None)) == DecodeRest(ds, Decoded([], Some(Bytes(data)), None))
  {
  }

  // ------------------------------------------------------------ associated data

  ghost predicate UndoesWith(e: Encoder, d: Encoder, v: Verdict, aad: bytes) {
    forall x: bytes :: UndoesOneWith(e, d, v, x, aad)
  }

  ghost predicate UndoesOneWith(e: Encoder, d: Encoder, v: Verdict, x: bytes, aad: bytes) {
    var r := EncodeWith(e, x, aad);
    r.Ok? ==> DecodeWith(d, r.value, aad) == Decoded(v.notes, Some(x), v.err)
  }

  lemma {:induction false} DecodeRestUndoesWith(es: seq<Encoder>, ds: seq<Encoder>, vs: seq<Verdict>, x: bytes,
                                                said: Verdict, aad: bytes)
    requires |es| == |ds| == |vs| && forall i | 0 <= i < |es| :: UndoesWith(es[i], ds[i], vs[i], aad)
    requires EncodeAllWith(es, x, aad).Ok?
    ensures DecodeRestWith(ds, Decoded(said.notes, Some(EncodeAllWith(es, x, aad).value), said.err), aad) ==
            Decoded(said.notes + Overall(vs).notes, Some(x), if said.err.Some? then said.err else Overall(vs).err)
    decreases |es|
  {
    if es == [] {
      assert said.notes + [] == said.notes;
    } else {
      var n := |es| - 1;
      var before := EncodeAllWith(es[..n], x, aad).value;
      assert UndoesOneWith(es[n], ds[n], vs[n], before, aad);
      var said' := Verdict(said.notes + vs[n].notes, if said.err.Some? then said.err else vs[n].err);
      DecodeRestUndoesWith(es[..n], ds[..n], vs[..n], x, said', aad);
      assert said.notes + vs[n].notes + Overall(vs[..n]).notes == said.notes + Overall(vs).notes;
    }
  }

  /** The same with associated data, provided the decoding chain can check it. */
  lemma ChainUndoesWith(es: seq<Encoder>, ds: seq<Encoder>, vs: seq<Verdict>, aad: bytes)
    requires |es| == |ds| == |vs| && forall i | 0 <= i < |es| :: UndoesWith(es[i], ds[i], vs[i], aad)
    requires aad == [] || Supports(Chained(ds))
    ensures UndoesWith(Chained(es), Chained(ds), Overall(vs), aad)
  {
    var v := Overall(vs);
    forall x: bytes ensures UndoesOneWith(Chained(es), Chained(ds), v, x, aad) {
      if EncodeAllWith(es, x, aad).Ok? {
        DecodeRestUndoesWith(es, ds, vs, x, Verdict([], None), aad);
        assert [] + v.notes == v.notes;
      }
    }
  }

  /** Encoders that never fail by themselves. */
  ghost predicate Total(e: Encoder) {
    match e
    case Plain(encode, _) => forall x: bytes :: encode(x).Ok?
    case Sealing(encode, _, encodeWith, _) =>
      (forall x: bytes :: encode(x).Ok?) && forall x: bytes, aad: bytes :: encodeWith(x, aad).Ok?
    case Chained(es) => forall i | 0 <= i < |es| :: Total(es[i])
  }

  /** Every chain, however deeply nested, has a member that seals or is itself a
      chain of this kind. */
  predicate Carries(e: Encoder) {
    match e
    case Plain(_, _) => true
    case Sealing(_, _, _, _) => true
    case Chained(es) => (exists i | 0 <= i < |es| :: !es[i].Plain?) && forall i | 0 <= i < |es| :: Carries(es[i])
  }

  /** A chain of encoders that do not fail can encode with associated data
      exactly when no chain inside it lacks an encoder to use that data. */
  lemma {:induction false} EncodesExactlyWhenCarries(e: Encoder, x: bytes, aad: bytes)
    requires Total(e) && aad != []
    ensures EncodeWith(e, x, aad).Ok? <==> Carries(e)
    decreases e, 0
  {
    if e.Chained? {
      EncodesAll(e.encoders, x, aad);
    }
  }

  lemma {:induction false} EncodesAll(es: seq<Encoder>, x: bytes, aad: bytes)
    requires (forall i | 0 <= i < |es| :: Total(es[i])) && aad != []
    ensures EncodeAllWith(es, x, aad).Ok? <==> forall i | 0 <= i < |es| :: Carries(es[i])
    decreases es, |es|
  {
    if es != [] {
      var n := |es| - 1;
      assert es == es[..n] + [es[n]];
      EncodesAll(es[..n], x, aad);
      var r := EncodeAllWith(es[..n], x, aad);
      if r.Ok? {
        EncodesExactlyWhenCarries(es[n], r.value, aad);
      }
    }
  }

  /** What can encode with associated data also claims to support it ... */
  lemma {:induction false} CarriesMeansSupports(e: Encoder)
    requires Carries(e) && !e.Plain?
    ensures Supports(e)
    decreases e
  {
    if e.Chained? {
      var i :| 0 <= i < |e.encoders| && !e.encoders[i].Plain?;
      CarriesMeansSupports(e.encoders[i]);
    }
  }

  /** ... but the claim is too generous: next to a sealing encoder, a nested
      chain with nothing to seal makes every call fail. */
  lemma SupportsIsNotEnough(seal: Encoder, plain: Encoder, x: bytes, aad: bytes)
    requires seal.Sealing? && plain.Plain? && Total(seal) && Total(plain) && aad != []
    ensures Supports(Chained([seal, Chained([plain])]))
    ensures EncodeWith(Chained([seal, Chained([plain])]), x, aad) == Err(Unsupported)
  {
    var inner := Chained([plain]);
    var es := [seal, inner];
    assert Supports(es[0]);
    assert [plain][..0] == [] && es[..1] == [seal] && [seal][..0] == [];
    var y := seal.encodeWith(x, aad).value;
    assert EncodeAllWith([seal], x, aad) == Ok(y);
    assert EncodeAllWith([plain][..0], y, aad) == Ok(y);
    assert EncodeAllWith([plain], y, aad) == plain.encode(y);
    assert EncodeWith(inner, y, aad) == Err(Unsupported);
  }
}
