/** What a keyholder gets back from a message for several keyholders. */
module MultiKeyProofs {
  import opened Wrappers
  import opened Integers
  import opened ByteStrings
  import opened Varints
  import opened Encoders
  import opened MultiKeys

  /** The length of a Go slice is a signed 64-bit number. */
  ghost predicate Slice(data: bytes) {
    |data| < U64_SIZE / 2
  }

  /** Parts that the parser accepts. */
  predicate Sized(data: bytes) {
    0 < |data| <= MAX_INT32
  }

  /** Framing is undone by parsing exactly for parts that are neither empty nor
      too long. */
  lemma ParseFramed(data: bytes, rest: bytes)
    requires Slice(data)
    ensures ParseFrame(Frame(data) + rest) == if Sized(data) then Some((data, rest)) else None
    ensures Frame(data) != []
  {
    var head := PutUvarint(|data|);
    UvarintOfPut(|data|, data + rest);
    assert Frame(data) + rest == head + (data + rest);
    var buf := Frame(data) + rest;
    assert buf[|head|..] == data + rest;
    assert buf[|head|..|head| + |data|] == data;
    assert buf[|head| + |data|..] == rest;
  }

  lemma {:induction false} FramesFront(parts: seq<bytes>)
    requires parts != []
    ensures Frames(parts) == Frame(parts[0]) + Frames(parts[1..])
  {
    hide Frame;
    var n, rest := |parts| - 1, parts[1..];
    if n == 0 {
      assert parts[..0] == [] && rest == [];
      assert [] + Frame(parts[0]) == Frame(parts[0]) + [];
    } else {
      FramesFront(parts[..n]);
      assert rest[..n - 1] == parts[..n][1..];
      assert Frames(rest) == Frames(parts[..n][1..]) + Frame(parts[n]);
      assert (Frame(parts[0]) + Frames(parts[..n][1..])) + Frame(parts[n]) == Frame(parts[0]) + Frames(rest);
    }
  }

  // ----------------------------------------------------- which key is decisive

  /** What the keyholders make of one encrypted key: the data, if one of them
      can open it. */
  function Opened(creator: Creator, holders: seq<Encoder>, ciphertext: bytes, key: bytes): Option<Option<bytes>> {
    TryKey(creator, holders, ciphertext, key, 0, Progress([], [], None)).found
  }

  /** Earlier notes and failures make no difference. */
  lemma {:induction false} FoundAlike(creator: Creator, holders: seq<Encoder>, ciphertext: bytes, key: bytes,
                                      i: nat, p: Progress)
    requires p.found.None?
    ensures TryKey(creator, holders, ciphertext, key, i, p).found == Opened(creator, holders, ciphertext, key)
  {
    if holders != [] {
      FoundAlike(creator, holders[..|holders| - 1], ciphertext, key, i, p);
    }
  }

  /** The parser stops at this part: it is ill-sized or can be opened. */
  predicate Decisive(creator: Creator, holders: seq<Encoder>, ciphertext: bytes, key: bytes) {
    !Sized(key) || Opened(creator, holders, ciphertext, key).Some?
  }

  /** The first decisive part, or the number of parts. */
  function First(creator: Creator, holders: seq<Encoder>, ciphertext: bytes, keys: seq<bytes>): (i: nat)
    ensures i <= |keys|
    ensures i < |keys| ==> Decisive(creator, holders, ciphertext, keys[i])
    ensures forall j | 0 <= j < i :: !Decisive(creator, holders, ciphertext, keys[j])
  {
    if keys == [] || Decisive(creator, holders, ciphertext, keys[0]) then 0
    else 1 + First(creator, holders, ciphertext, keys[1..])
  }

  /** Any list of encrypted keys, honest or not: the first decisive one settles
      the outcome. */
  lemma {:induction false} DecodeKeysOutcome(creator: Creator, holders: seq<Encoder>, ciphertext: bytes,
                                             keys: seq<bytes>, n: nat, p: Progress)
    requires p.found.None? && forall i | 0 <= i < |keys| :: Slice(keys[i])
    ensures var i := First(creator, holders, ciphertext, keys);
      var r := DecodeKeys(creator, holders, ciphertext, Frames(keys), n, p).1;
      if i == |keys| then r.NoKey?
      else if !Sized(keys[i]) then r == BadKey(n + i)
      else r == Cleartext(Opened(creator, holders, ciphertext, keys[i]).value)
    decreases |keys|
  {
    if keys != [] {
      FramesFront(keys);
      ParseFramed(keys[0], Frames(keys[1..]));
      if Sized(keys[0]) {
        FoundAlike(creator, holders, ciphertext, keys[0], n, p);
        var q := TryKey(creator, holders, ciphertext, keys[0], n, p);
        if q.found.None? {
          DecodeKeysOutcome(creator, holders, ciphertext, keys[1..], n + 1, q);
        }
      }
    }
  }

  lemma DecodeOutcome(creator: Creator, holders: seq<Encoder>, ciphertext: bytes, keys: seq<bytes>)
    requires Slice(ciphertext) && forall i | 0 <= i < |keys| :: Slice(keys[i])
    ensures var i := First(creator, holders, ciphertext, keys);
      var r := DecodeMulti(creator, holders, Message(ciphertext, keys)).1;
      if !Sized(ciphertext) then r == BadCiphertext
      else if i == |keys| then r.NoKey?
      else if !Sized(keys[i]) then r == BadKey(i)
      else r == Cleartext(Opened(creator, holders, ciphertext, keys[i]).value)
  {
    ParseFramed(ciphertext, Frames(keys));
    hide Frame, ParseFrame, Frames, First, Opened, DecodeKeys;
    if Sized(ciphertext) {
      DecodeKeysOutcome(creator, holders, ciphertext, keys, 0, Progress([], [], None));
    }
  }

  // --------------------------------------------- what each keyholder achieves

  /** The keyholder decodes the key, a cipher can be made of it, and the cipher
      decodes the data. */
  predicate Accepts(creator: Creator, holder: Encoder, ciphertext: bytes, key: bytes) {
    && Decode(holder, key).err == None
    && creator(Decode(holder, key).data).Some?
    && Decode(creator(Decode(holder, key).data).value.0, ciphertext).err == None
  }

  /** Keyholder `j` fails at key `i`, and this is how. */
  predicate FailsBy(creator: Creator, holder: Encoder, ciphertext: bytes, key: bytes, i: nat, j: nat, f: Failure) {
    var k := Decode(holder, key);
    if k.err.Some? then f == KeyRejected(i, j, k.err.value)
    else if creator(k.data) == None then f == KeyUnusable(i, j)
    else
      var c := Decode(creator(k.data).value.0, ciphertext);
      c.err.Some? && f == DataRejected(i, j, c.err.value)
  }

  /** A key is opened if some keyholder accepts it, and the data is what the first
      of them gets. */
  lemma {:induction false} FirstAccepts(creator: Creator, holders: seq<Encoder>, ciphertext: bytes, key: bytes,
                                        i: nat, p: Progress, j: nat)
    requires p.found.None? && j < |holders| && Accepts(creator, holders[j], ciphertext, key)
    requires forall a | 0 <= a < j :: !Accepts(creator, holders[a], ciphertext, key)
    ensures TryKey(creator, holders, ciphertext, key, i, p).found
         == Some(Decode(creator(Decode(holders[j], key).data).value.0, ciphertext).data)
  {
    hide Decode;
    var n := |holders| - 1;
    if j < n {
      FirstAccepts(creator, holders[..n], ciphertext, key, i, p, j);
    } else {
      NobodyAccepts(creator, holders[..n], ciphertext, key, i, p);
    }
  }

  /** The failures listed so far stay, and `count` more are listed. */
  predicate Extends(few: seq<Failure>, many: seq<Failure>, count: int) {
    |few| <= |many| == |few| + count && many[..|few|] == few
  }

  /** From place `from` on, the failures of every keyholder at key `i` are listed. */
  predicate Listed(creator: Creator, holders: seq<Encoder>, ciphertext: bytes, key: bytes, i: nat,
                   failures: seq<Failure>, from: int)
  {
    && 0 <= from <= from + |holders| <= |failures|
    && forall j | 0 <= j < |holders| :: FailsBy(creator, holders[j], ciphertext, key, i, j, failures[from + j])
  }

  /** Else every keyholder has failed once more, in order. */
  lemma {:induction false} NobodyAccepts(creator: Creator, holders: seq<Encoder>, ciphertext: bytes, key: bytes,
                                         i: nat, p: Progress)
    requires p.found.None?
    requires forall j | 0 <= j < |holders| :: !Accepts(creator, holders[j], ciphertext, key)
    ensures var q := TryKey(creator, holders, ciphertext, key, i, p);
      && q.found == None && Extends(p.failures, q.failures, |holders|)
      && Listed(creator, holders, ciphertext, key, i, q.failures, |p.failures|)
  {
    hide Decode;
    if holders != [] {
      NobodyAccepts(creator, holders[..|holders| - 1], ciphertext, key, i, p);
    }
  }

  lemma ListedStays(creator: Creator, holders: seq<Encoder>, ciphertext: bytes, key: bytes, i: nat,
                    few: seq<Failure>, many: seq<Failure>, count: int, from: int)
    requires Listed(creator, holders, ciphertext, key, i, few, from) && Extends(few, many, count)
    ensures Listed(creator, holders, ciphertext, key, i, many, from)
  {
    hide FailsBy;
    assert forall k | 0 <= k < |few| :: many[k] == few[k];
  }

  lemma ExtendsMore(a: seq<Failure>, b: seq<Failure>, c: seq<Failure>, width: nat, n: int)
    requires n > 0 && Extends(a, b, width) && Extends(b, c, (n - 1) * width)
    ensures Extends(a, c, n * width)
  {
    NextPlace(|a|, width, n);
  }

  lemma NextPlace(base: int, width: int, i: int)
    ensures base + width + (i - 1) * width == base + i * width
  {
  }

  lemma DecodeNext(creator: Creator, holders: seq<Encoder>, ciphertext: bytes, keys: seq<bytes>, n: nat, p: Progress)
    requires keys != [] && Slice(keys[0]) && Sized(keys[0])
    ensures var q := TryKey(creator, holders, ciphertext, keys[0], n, p);
      q.found == None ==>
        DecodeKeys(creator, holders, ciphertext, Frames(keys), n, p)
        == DecodeKeys(creator, holders, ciphertext, Frames(keys[1..]), n + 1, q)
  {
    hide Frame, Frames, ParseFrame, TryKey;
    FramesFront(keys);
    ParseFramed(keys[0], Frames(keys[1..]));
  }

  /** The failures of every keyholder at every key are listed, and no others. */
  ghost predicate AllListed(creator: Creator, holders: seq<Encoder>, ciphertext: bytes, keys: seq<bytes>, n: nat,
                            few: seq<Failure>, many: seq<Failure>)
  {
    && Extends(few, many, |keys| * |holders|)
    && forall i | 0 <= i < |keys| ::
         Listed(creator, holders, ciphertext, keys[i], n + i, many, |few| + i * |holders|)
  }

  lemma OneMoreKey(creator: Creator, holders: seq<Encoder>, ciphertext: bytes, keys: seq<bytes>, n: nat,
                   few: seq<Failure>, more: seq<Failure>, many: seq<Failure>)
    requires keys != [] && Extends(few, more, |holders|)
    requires Listed(creator, holders, ciphertext, keys[0], n, more, |few|)
    requires AllListed(creator, holders, ciphertext, keys[1..], n + 1, more, many)
    ensures AllListed(creator, holders, ciphertext, keys, n, few, many)
  {
    var rest, h := keys[1..], |holders|;
    ExtendsMore(few, more, many, h, |keys|);
    hide Listed;
    forall i | 0 <= i < |keys| ensures Listed(creator, holders, ciphertext, keys[i], n + i, many, |few| + i * h) {
      if i == 0 {
        ListedStays(creator, holders, ciphertext, keys[0], n, more, many, |rest| * h, |few|);
      } else {
        NextPlace(|few|, h, i);
        assert rest[i - 1] == keys[i];
      }
    }
  }

  lemma NoKeys(creator: Creator, holders: seq<Encoder>, ciphertext: bytes, n: nat, p: Progress)
    ensures var r := DecodeKeys(creator, holders, ciphertext, Frames([]), n, p).1;
      r.NoKey? && AllListed(creator, holders, ciphertext, [], n, p.failures, r.failures)
  {
    assert Frames([]) == [];
  }

  /** Without a key that opens, the outcome lists what every keyholder failed at,
      key after key. */
  lemma {:induction false} FailuresAreComplete(creator: Creator, holders: seq<Encoder>, ciphertext: bytes,
                                               keys: seq<bytes>, n: nat, p: Progress)
    requires p.found.None? && forall i | 0 <= i < |keys| :: Slice(keys[i]) && Sized(keys[i])
    requires forall i, j | 0 <= i < |keys| && 0 <= j < |holders| :: !Accepts(creator, holders[j], ciphertext, keys[i])
    ensures var r := DecodeKeys(creator, holders, ciphertext, Frames(keys), n, p).1;
      r.NoKey? && AllListed(creator, holders, ciphertext, keys, n, p.failures, r.failures)
    decreases |keys|
  {
    hide Accepts, TryKey, Frames, DecodeKeys, Listed, AllListed, Extends, Slice, Sized;
    if keys == [] {
      NoKeys(creator, holders, ciphertext, n, p);
    } else {
      var q := TryKey(creator, holders, ciphertext, keys[0], n, p);
      NobodyAccepts(creator, holders, ciphertext, keys[0], n, p);
      DecodeNext(creator, holders, ciphertext, keys, n, p);
      FailuresAreComplete(creator, holders, ciphertext, keys[1..], n + 1, q);
      var r := DecodeKeys(creator, holders, ciphertext, Frames(keys), n, p).1;
      OneMoreKey(creator, holders, ciphertext, keys, n, p.failures, q.failures, r.failures);
    }
  }

  /** A well sized message that no keyholder can open ends with the full list of
      what each of them failed at for each key. */
  lemma NobodyDecodes(creator: Creator, holders: seq<Encoder>, ciphertext: bytes, keys: seq<bytes>)
    requires Slice(ciphertext) && Sized(ciphertext)
    requires forall i | 0 <= i < |keys| :: Slice(keys[i]) && Sized(keys[i])
    requires forall i, j | 0 <= i < |keys| && 0 <= j < |holders| :: !Accepts(creator, holders[j], ciphertext, keys[i])
    ensures var r := DecodeMulti(creator, holders, Message(ciphertext, keys)).1;
      r.NoKey? && AllListed(creator, holders, ciphertext, keys, 0, [], r.failures)
  {
    ParseFramed(ciphertext, Frames(keys));
    hide Accepts, Frame, ParseFrame, Frames, DecodeKeys, AllListed, Slice, Sized;
    FailuresAreComplete(creator, holders, ciphertext, keys, 0, Progress([], [], None));
  }

  // ------------------------------------------------------------- the round trip

  /** Keyholders that open an encrypted key at all get the data. */
  ghost predicate OpensOnly(creator: Creator, holders: seq<Encoder>, ciphertext: bytes, keys: seq<bytes>, data: bytes) {
    forall i | 0 <= i < |keys| ::
      var o := Opened(creator, holders, ciphertext, keys[i]); o.Some? ==> o.value == Some(data)
  }

  /** If wrong keys are rejected then no decoding yields anything but the data,
      and it yields the data exactly when the ciphertext is well sized, some
      encrypted key can be opened, and all keys up to it are well sized. */
  lemma RecoversExactlyWhen(creator: Creator, holders: seq<Encoder>, ciphertext: bytes, keys: seq<bytes>, data: bytes)
    requires Slice(ciphertext) && forall i | 0 <= i < |keys| :: Slice(keys[i])
    requires OpensOnly(creator, holders, ciphertext, keys, data)
    ensures var r := DecodeMulti(creator, holders, Message(ciphertext, keys)).1;
      && (r.Cleartext? ==> r.data == Some(data))
      && (r.Cleartext? <==>
          && Sized(ciphertext)
          && exists i | 0 <= i < |keys| :: Opened(creator, holders, ciphertext, keys[i]).Some? && AllSized(keys, i))
  {
    DecodeOutcome(creator, holders, ciphertext, keys);
    var f := First(creator, holders, ciphertext, keys);
    if i :| 0 <= i < |keys| && Opened(creator, holders, ciphertext, keys[i]).Some? && AllSized(keys, i) {
      assert Decisive(creator, holders, ciphertext, keys[i]);
      assert f <= i && Sized(keys[f]);
    }
    if f < |keys| && Sized(keys[f]) {
      assert AllSized(keys, f);
    }
  }

  predicate AllSized(keys: seq<bytes>, i: nat)
    requires i < |keys|
  {
    forall j | 0 <= j <= i :: Sized(keys[j])
  }

  /** What each keyholder was sent. */
  lemma {:induction false} EncodedKeys(holders: seq<Encoder>, key: bytes)
    requires EncodeKeys(holders, key).Ok?
    ensures var keys := EncodeKeys(holders, key).value;
      |keys| == |holders| && forall i | 0 <= i < |keys| :: Encode(holders[i], key) == Ok(keys[i])
  {
    if holders != [] {
      EncodedKeys(holders[..|holders| - 1], key);
    }
  }

  /** A keyholder that either recovers the key or fails. */
  predicate RejectsWrong(holder: Encoder, sent: bytes, key: bytes) {
    var k := Decode(holder, sent); k.err.None? ==> k.data == Some(key)
  }

  /** The cipher for this key opens the ciphertext. */
  predicate Unlocks(creator: Creator, key: bytes, ciphertext: bytes, data: bytes) {
    var made := creator(Some(key));
    && made.Some?
    && Decode(made.value.0, ciphertext).data == Some(data)
    && Decode(made.value.0, ciphertext).err.None?
  }

  lemma {:induction false} OpenedByHolder(creator: Creator, holders: seq<Encoder>, ciphertext: bytes, sent: bytes,
                                          key: bytes, data: bytes)
    requires Unlocks(creator, key, ciphertext, data)
    requires forall j | 0 <= j < |holders| :: RejectsWrong(holders[j], sent, key)
    ensures var o := Opened(creator, holders, ciphertext, sent);
      && (o.Some? ==> o.value == Some(data))
      && (o.Some? <==> exists j | 0 <= j < |holders| :: Decode(holders[j], sent).err.None?)
  {
    if holders != [] {
      var n := |holders| - 1;
      assert holders == holders[..n] + [holders[n]];
      OpenedByHolder(creator, holders[..n], ciphertext, sent, key, data);
      assert RejectsWrong(holders[n], sent, key);
    }
  }

  /** If one receiver accepts one of the keys that were sent, the data comes
      back. */
  lemma RecoversThrough(creator: Creator, senders: seq<Encoder>, creator': Creator, receivers: seq<Encoder>,
                        data: bytes, i: nat, j: nat)
    requires creator(None).Some? && Encode(creator(None).value.0, data).Ok?
    requires EncodeKeys(senders, creator(None).value.1).Ok?
    requires var (key, ciphertext) := (creator(None).value.1, Encode(creator(None).value.0, data).value);
      var keys := EncodeKeys(senders, key).value;
      && Unlocks(creator', key, ciphertext, data)
      && Sized(ciphertext) && (forall a | 0 <= a < |keys| :: Sized(keys[a]))
      && (forall a, b | 0 <= a < |keys| && 0 <= b < |receivers| :: RejectsWrong(receivers[b], keys[a], key))
      && i < |keys| && j < |receivers| && Decode(receivers[j], keys[i]).err.None?
    ensures EncodeMulti(creator, senders, data).Ok?
    ensures DecodeMulti(creator', receivers, EncodeMulti(creator, senders, data).value).1 == Cleartext(Some(data))
  {
    var (key, ciphertext) := (creator(None).value.1, Encode(creator(None).value.0, data).value);
    var keys := EncodeKeys(senders, key).value;
    forall a | 0 <= a < |keys|
      ensures var o := Opened(creator', receivers, ciphertext, keys[a]); o.Some? ==> o.value == Some(data)
    {
      OpenedByHolder(creator', receivers, ciphertext, keys[a], key, data);
    }
    OpenedByHolder(creator', receivers, ciphertext, keys[i], key, data);
    assert AllSized(keys, i);
    RecoversExactlyWhen(creator', receivers, ciphertext, keys, data);
  }

  /** Whatever `e` encodes, `d` decodes without complaint. */
  ghost predicate Undoes(e: Encoder, d: Encoder) {
    forall x | Encode(e, x).Ok? :: DecodesTo(d, Encode(e, x).value, x)
  }

  predicate DecodesTo(d: Encoder, sent: bytes, x: bytes) {
    Decode(d, sent).data == Some(x) && Decode(d, sent).err.None?
  }

  /** Whoever shares a keyholder with the sender recovers exactly the data, with
      any other keyholders in any order on both sides: the shared keyholder and
      the cipher undo themselves, nothing sent is empty or too long, and no
      other keyholder takes a wrong key for the right one. */
  lemma RoundTrip(creator: Creator, senders: seq<Encoder>, creator': Creator, receivers: seq<Encoder>, data: bytes,
                  i: nat, j: nat)
    requires i < |senders| && j < |receivers| && senders[i] == receivers[j] && Undoes(senders[i], receivers[j])
    requires creator(None).Some? && EncodeMulti(creator, senders, data).Ok?
    requires var (cipher, key) := creator(None).value;
      var ciphertext, keys := Encode(cipher, data).value, EncodeKeys(senders, key).value;
      && creator'(Some(key)).Some? && Undoes(cipher, creator'(Some(key)).value.0)
      && Sized(ciphertext) && (forall a | 0 <= a < |keys| :: Sized(keys[a]))
      && (forall a, b | 0 <= a < |keys| && 0 <= b < |receivers| :: RejectsWrong(receivers[b], keys[a], key))
    ensures DecodeMulti(creator', receivers, EncodeMulti(creator, senders, data).value).1 == Cleartext(Some(data))
  {
    var (cipher, key) := creator(None).value;
    var ciphertext, keys := Encode(cipher, data).value, EncodeKeys(senders, key).value;
    EncodedKeys(senders, key);
    assert DecodesTo(receivers[j], keys[i], key);
    assert DecodesTo(creator'(Some(key)).value.0, ciphertext, data);
    RecoversThrough(creator, senders, creator', receivers, data, i, j);
  }

  /** An empty encrypted key or ciphertext is sent without complaint and makes
      the message unreadable for everyone behind it. */
  lemma EmptyPartHidesTheRest(creator: Creator, holders: seq<Encoder>, ciphertext: bytes, keys: seq<bytes>)
    requires Slice(ciphertext) && forall i | 0 <= i < |keys| :: Slice(keys[i])
    requires ciphertext == [] || (keys != [] && keys[0] == [])
    ensures !DecodeMulti(creator, holders, Message(ciphertext, keys)).1.Cleartext?
  {
    DecodeOutcome(creator, holders, ciphertext, keys);
    if keys != [] && keys[0] == [] {
      assert Decisive(creator, holders, ciphertext, keys[0]);
    }
  }
}
