/** Encoders that date a token: one stores when it was issued, the other when it
    expires. Both keep whole seconds. Times are nanoseconds since the epoch. */
module TimeLimits {
  import opened Wrappers
  import opened ByteStrings
  import opened Varints
  import opened Encoders
  import opened EncoderChains

  const SECOND := 1_000_000_000

  /** Seconds since the epoch, rounded down. */
  function Unix(t: int): int {
    t / SECOND
  }

  function Stamp(seconds: int, data: bytes): Result<bytes, Error> {
    if -0x8000_0000_0000_0000 <= seconds < 0x8000_0000_0000_0000 then Ok(PutVarint(seconds) + data)
    else Err(Fault("time out of range"))
  }

  /** What a decoder read: the seconds and the data behind them. */
  function Unstamp(data: bytes): Option<(int, bytes)> {
    var (seconds, parsed) := Varint(data);
    UvarintFits(data);
    if parsed <= 0 then None else Some((seconds, data[parsed..]))
  }

  function CheckIssued(data: bytes, validity: int, now: int): Decoded {
    match Unstamp(data)
    case None => Decoded([], None, Some(Fault("invalid timestamp in buffer")))
    case Some((issued, rest)) =>
      var max := issued * SECOND + validity;
      Decoded([Issued(issued * SECOND), MaxTime(max)], Some(rest),
              if issued <= 0 || max < now then Some(Expired) else None)
  }

  function CheckExpiry(data: bytes, now: int): Decoded {
    match Unstamp(data)
    case None => Decoded([], None, Some(Fault("invalid timestamp in buffer")))
    case Some((expires, rest)) =>
      Decoded([Expires(expires * SECOND)], Some(rest),
              if expires <= 0 || expires * SECOND < now then Some(Expired) else None)
  }

  /** Stores the time of encoding; the reader decides how long that is valid. */
  function TimeEncoder(now: int, validity: int): Encoder {
    Plain(data => Stamp(Unix(now), data), data => CheckIssued(data, validity, now))
  }

  /** Stores the time of expiry; the writer decides. */
  function ExpireEncoder(now: int, validity: int): Encoder {
    Plain(data => Stamp(Unix(now + validity), data), data => CheckExpiry(data, now))
  }

  lemma StampRead(seconds: int, data: bytes)
    requires Stamp(seconds, data).Ok?
    ensures Unstamp(Stamp(seconds, data).value) == Some((seconds, data))
  {
    VarintOfPut(seconds, data);
  }

  function TimeVerdict(issuedAt: int, validity: int, now: int): Verdict {
    var issued := Unix(issuedAt) * SECOND;
    Verdict([Issued(issued), MaxTime(issued + validity)],
            if issuedAt < SECOND || now > issued + validity then Some(Expired) else None)
  }

  function ExpireVerdict(expiresAt: int, now: int): Verdict {
    var expires := Unix(expiresAt) * SECOND;
    Verdict([Expires(expires)], if expiresAt < SECOND || now > expires then Some(Expired) else None)
  }

  /** The payload always comes back; the error says whether the reader's limit
      is over, counted from the whole second of issue. */
  lemma TimeUndoes(t0: int, v0: int, t1: int, v1: int)
    ensures Undoes(TimeEncoder(t0, v0), TimeEncoder(t1, v1), TimeVerdict(t0, v1, t1))
  {
    var e, d, v := TimeEncoder(t0, v0), TimeEncoder(t1, v1), TimeVerdict(t0, v1, t1);
    forall x: bytes ensures UndoesOne(e, d, v, x) {
      if Stamp(Unix(t0), x).Ok? {
        StampRead(Unix(t0), x);
      }
    }
  }

  lemma ExpireUndoes(t0: int, v0: int, t1: int, v1: int)
    ensures Undoes(ExpireEncoder(t0, v0), ExpireEncoder(t1, v1), ExpireVerdict(t0 + v0, t1))
  {
    var e, d, v := ExpireEncoder(t0, v0), ExpireEncoder(t1, v1), ExpireVerdict(t0 + v0, t1);
    forall x: bytes ensures UndoesOne(e, d, v, x) {
      if Stamp(Unix(t0 + v0), x).Ok? {
        StampRead(Unix(t0 + v0), x);
      }
    }
  }

  // ------------------------------------------------------ what any data reads as

  /** On any data, honest or not: without a number in front nothing comes back;
      else what follows it does, and without complaint exactly if the number is
      positive and so many seconds, with the validity, are not over. */
  lemma TimeReads(now: int, validity: int, data: bytes)
    ensures var r, (seconds, n) := Decode(TimeEncoder(now, validity), data), Varint(data);
      if n <= 0 then r.data == None && r.err != None && r.err != Some(Expired) && r.notes == []
      else
        && n <= |data| && r.data == Some(data[n..])
        && (r.err == None <==> seconds > 0 && now <= seconds * SECOND + validity)
        && (r.err == None || r.err == Some(Expired))
  {
    UvarintFits(data);
  }

  lemma ExpireReads(now: int, validity: int, data: bytes)
    ensures var r, (seconds, n) := Decode(ExpireEncoder(now, validity), data), Varint(data);
      if n <= 0 then r.data == None && r.err != None && r.err != Some(Expired) && r.notes == []
      else
        && n <= |data| && r.data == Some(data[n..])
        && (r.err == None <==> seconds > 0 && now <= seconds * SECOND)
        && (r.err == None || r.err == Some(Expired))
  {
    UvarintFits(data);
  }

  /** A decoder that says nothing. */
  const SILENT := Verdict([], None)

  /** A token that is dated, given an expiry and then put through any encoders
      that undo each other. Whenever it is read, the payload comes back in full;
      it is accepted exactly when the clock is within both limits, counted in
      whole seconds, and otherwise the error says that it expired. */
  lemma DatedToken(t0: int, life: int, t1: int, maxAge: int, unused: (int, int),
                   es: seq<Encoder>, ds: seq<Encoder>, payload: bytes)
    requires |es| == |ds| && forall i | 0 <= i < |es| :: Undoes(es[i], ds[i], SILENT)
    requires EncodeAll([TimeEncoder(t0, unused.0), ExpireEncoder(t0, life)] + es, payload).Ok?
    ensures var token := EncodeAll([TimeEncoder(t0, unused.0), ExpireEncoder(t0, life)] + es, payload).value;
      var r := Decode(Chained([TimeEncoder(t1, maxAge), ExpireEncoder(t1, unused.1)] + ds), token);
      && r.data == Some(payload)
      && (r.err == None <==> (&& SECOND <= t0 && t1 <= Unix(t0) * SECOND + maxAge
                              && SECOND <= t0 + life && t1 <= Unix(t0 + life) * SECOND))
      && (r.err == None || r.err == Some(Expired))
      && r.notes == [Expires(Unix(t0 + life) * SECOND), Issued(Unix(t0) * SECOND), MaxTime(Unix(t0) * SECOND + maxAge)]
  {
    hide TimeEncoder, ExpireEncoder, Undoes, EncodeAll, DecodeRest, Overall;
    var allEs := [TimeEncoder(t0, unused.0), ExpireEncoder(t0, life)] + es;
    var allDs := [TimeEncoder(t1, maxAge), ExpireEncoder(t1, unused.1)] + ds;
    var dated := [TimeVerdict(t0, maxAge, t1), ExpireVerdict(t0 + life, t1)];
    var vs := dated + seq(|es|, _ => SILENT);
    TimeUndoes(t0, unused.0, t1, maxAge);
    ExpireUndoes(t0, life, t1, unused.1);
    forall i | 0 <= i < |allEs| ensures Undoes(allEs[i], allDs[i], vs[i]) {
      if i >= 2 {
        assert Undoes(es[i - 2], ds[i - 2], SILENT);
      }
    }
    ChainUndoes(allEs, allDs, vs);
    UndoesThis(Chained(allEs), Chained(allDs), Overall(vs), payload);
    SilenceAdds(dated, |es|);
    OverallOfTwo(dated[0], dated[1]);
  }

  lemma UndoesThis(e: Encoder, d: Encoder, v: Verdict, x: bytes)
    requires Undoes(e, d, v) && Encode(e, x).Ok?
    ensures Decode(d, Encode(e, x).value) == Decoded(v.notes, Some(x), v.err)
  {
    assert UndoesOne(e, d, v, x);
  }

  lemma OverallOfTwo(a: Verdict, b: Verdict)
    ensures Overall([a, b]) == Verdict(b.notes + a.notes, if b.err.Some? then b.err else a.err)
  {
    assert [a, b][..1] == [a] && [a][..0] == [];
    assert Overall([]) == Verdict([], None);
    assert Overall([a]) == a by {
      assert a.notes + [] == a.notes;
    }
  }

  lemma {:induction false} SilenceAdds(vs: seq<Verdict>, n: nat)
    ensures Overall(vs + seq(n, _ => SILENT)) == Overall(vs)
  {
    var all := vs + seq(n, _ => SILENT);
    if n == 0 {
      assert all == vs;
    } else {
      assert all[..|all| - 1] == vs + seq(n - 1, _ => SILENT);
      SilenceAdds(vs, n - 1);
      assert [] + Overall(vs).notes == Overall(vs).notes;
    }
  }
}
