/** Messages that any one of several keyholders can read: the data encrypted
    under a fresh key, and that key encrypted once for each keyholder. */
module MultiKeys {
  import opened Wrappers
  import opened ByteStrings
  import opened Varints
  import opened Encoders

  /** Makes a cipher from a key, or from a random key if none is given; returns
      the cipher and its key. */
  type Creator = Option<bytes> -> Option<(Encoder, bytes)>

  const MAX_INT32 := 0x7fff_ffff

  // ------------------------------------------------------------------- framing

  function Frame(data: bytes): bytes {
    PutUvarint(|data|) + data
  }

  function Frames(parts: seq<bytes>): bytes {
    if parts == [] then [] else Frames(parts[..|parts| - 1]) + Frame(parts[|parts| - 1])
  }

  function Message(ciphertext: bytes, keys: seq<bytes>): bytes {
    Frame(ciphertext) + Frames(keys)
  }

  /** The first part of a buffer and what follows it. */
  function ParseFrame(buf: bytes): Option<(bytes, bytes)> {
    var (size, n) := Uvarint(buf);
    if n <= 0 || size > MAX_INT32 || size <= 0 || n + size > |buf| then None
    else Some((buf[n..n + size], buf[n + size..]))
  }

  // ------------------------------------------------------------------ encoding

  function EncodeKeys(holders: seq<Encoder>, key: bytes): Result<seq<bytes>, Error> {
    if holders == [] then Ok([])
    else
      var n := |holders| - 1;
      match EncodeKeys(holders[..n], key)
      case Err(e) => Err(e)
      case Ok(keys) =>
        match Encode(holders[n], key)
        case Err(e) => Err(e)
        case Ok(k) => Ok(keys + [k])
  }

  function EncodeMulti(creator: Creator, holders: seq<Encoder>, data: bytes): Result<bytes, Error> {
    match creator(None)
    case None => Err(Fault("no cipher"))
    case Some((cipher, key)) =>
      match Encode(cipher, data)
      case Err(e) => Err(e)
      case Ok(ciphertext) =>
        match EncodeKeys(holders, key)
        case Err(e) => Err(e)
        case Ok(keys) => Ok(Message(ciphertext, keys))
  }

  // ------------------------------------------------------------------ decoding

  datatype Failure =
    | KeyRejected(key: nat, holder: nat, err: Error)
    | KeyUnusable(key: nat, holder: nat)
    | DataRejected(key: nat, holder: nat, err: Error)

  datatype Outcome =
    | Cleartext(data: Option<bytes>)
    | BadCiphertext
    | BadKey(key: nat)
    | NoKey(failures: seq<Failure>)

  datatype Progress = Progress(notes: seq<Note>, failures: seq<Failure>, found: Option<Option<bytes>>)

  /** One keyholder tries one encrypted key. */
  function TryHolder(creator: Creator, holder: Encoder, j: nat, ciphertext: bytes, key: bytes, i: nat,
                     p: Progress): Progress {
    var k := Decode(holder, key);
    var notes := p.notes + k.notes;
    if k.err.Some? then Progress(notes, p.failures + [KeyRejected(i, j, k.err.value)], None)
    else
      match creator(k.data)
      case None => Progress(notes, p.failures + [KeyUnusable(i, j)], None)
      case Some((cipher, _)) =>
        var c := Decode(cipher, ciphertext);
        if c.err.Some? then Progress(notes + c.notes, p.failures + [DataRejected(i, j, c.err.value)], None)
        else Progress(notes + c.notes, p.failures, Some(c.data))
  }

  /** The keyholders try in order until one succeeds. */
  function TryKey(creator: Creator, holders: seq<Encoder>, ciphertext: bytes, key: bytes, i: nat,
                  p: Progress): Progress {
    if holders == [] then p
    else
      var n := |holders| - 1;
      var q := TryKey(creator, holders[..n], ciphertext, key, i, p);
      if q.found.Some? then q else TryHolder(creator, holders[n], n, ciphertext, key, i, q)
  }

  function DecodeKeys(creator: Creator, holders: seq<Encoder>, ciphertext: bytes, buf: bytes, i: nat,
                      p: Progress): (seq<Note>, Outcome)
    decreases |buf|
  {
    if buf == [] then (p.notes, NoKey(p.failures))
    else
      match ParseFrame(buf)
      case None => (p.notes, BadKey(i))
      case Some((key, rest)) =>
        var q := TryKey(creator, holders, ciphertext, key, i, p);
        if q.found.Some? then (q.notes, Cleartext(q.found.value))
        else DecodeKeys(creator, holders, ciphertext, rest, i + 1, q)
  }

  function DecodeMulti(creator: Creator, holders: seq<Encoder>, buf: bytes): (seq<Note>, Outcome) {
    match ParseFrame(buf)
    case None => ([], BadCiphertext)
    case Some((ciphertext, rest)) => DecodeKeys(creator, holders, ciphertext, rest, 0, Progress([], [], None))
  }

  // ------------------------------------------------------------ the loops

  class MultiKeyCryptoEncoder {
    const creator: Creator
    const keyholder: seq<Encoder>

    constructor (creator: Creator, keyholder: seq<Encoder>)
      ensures this.creator == creator && this.keyholder == keyholder
    {
      this.creator, this.keyholder := creator, keyholder;
    }

    method Encode(data: bytes) returns (r: Result<bytes, Error>)
      ensures r == EncodeMulti(creator, keyholder, data)
    {
      var made := creator(None);
      if made.None? {
        return Err(Fault("no cipher"));
      }
      var (cipher, key) := made.value;
      var sealed := Encoders.Encode(cipher, data);
      if sealed.Err? {
        return sealed;
      }
      var result := Frame(sealed.value);
      ghost var keys: seq<bytes> := [];
      for i := 0 to |keyholder|
        invariant EncodeKeys(keyholder[..i], key) == Ok(keys)
        invariant result == Message(sealed.value, keys)
      {
        var k := Encoders.Encode(keyholder[i], key);
        assert keyholder[..i + 1][..i] == keyholder[..i];
        if k.Err? {
          EncodeKeysFails(keyholder, key, i + 1);
          return Err(k.error);
        }
        assert (keys + [k.value])[..|keys|] == keys;
        result := result + Frame(k.value);
        keys := keys + [k.value];
      }
      assert keyholder[..|keyholder|] == keyholder;
      return Ok(result);
    }

    /** The loop ends for every buffer: each round consumes some of it. */
    method Decode(buffer: bytes) returns (notes: seq<Note>, r: Outcome)
      ensures (notes, r) == DecodeMulti(creator, keyholder, buffer)
    {
      var first := ParseFrame(buffer);
      if first.None? {
        return [], BadCiphertext;
      }
      var (ciphertext, keybuffer) := first.value;
      var p := Progress([], [], None);
      var keyid := 0;
      while |keybuffer| > 0
        invariant p.found.None?
        invariant DecodeMulti(creator, keyholder, buffer) ==
                  DecodeKeys(creator, keyholder, ciphertext, keybuffer, keyid, p)
        decreases |keybuffer|
      {
        var next := ParseFrame(keybuffer);
        if next.None? {
          return p.notes, BadKey(keyid);
        }
        var (key, rest) := next.value;
        keybuffer := rest;
        p := Try(ciphertext, key, keyid, p);
        if p.found.Some? {
          return p.notes, Cleartext(p.found.value);
        }
        keyid := keyid + 1;
      }
      return p.notes, NoKey(p.failures);
    }

    /** The inner loop: all keyholders on one encrypted key. */
    method Try(ciphertext: bytes, key: bytes, keyid: nat, before: Progress) returns (p: Progress)
      requires before.found.None?
      ensures p == TryKey(creator, keyholder, ciphertext, key, keyid, before)
    {
      p := before;
      for cx := 0 to |keyholder|
        invariant p.found.None? && p == TryKey(creator, keyholder[..cx], ciphertext, key, keyid, before)
      {
        assert keyholder[..cx + 1][..cx] == keyholder[..cx];
        p := TryHolder(creator, keyholder[cx], cx, ciphertext, key, keyid, p);
        if p.found.Some? {
          TryKeyDone(creator, keyholder, ciphertext, key, keyid, before, cx + 1);
          return;
        }
      }
      assert keyholder[..|keyholder|] == keyholder;
    }
  }

  lemma {:induction false} EncodeKeysFails(holders: seq<Encoder>, key: bytes, n: nat)
    requires n <= |holders| && EncodeKeys(holders[..n], key).Err?
    ensures EncodeKeys(holders, key) == EncodeKeys(holders[..n], key)
    decreases |holders|
  {
    if n < |holders| {
      assert holders[..|holders| - 1][..n] == holders[..n];
      EncodeKeysFails(holders[..|holders| - 1], key, n);
    } else {
      assert holders[..n] == holders;
    }
  }

  lemma {:induction false} TryKeyDone(creator: Creator, holders: seq<Encoder>, ciphertext: bytes, key: bytes,
                                      i: nat, p: Progress, n: nat)
    requires n <= |holders| && TryKey(creator, holders[..n], ciphertext, key, i, p).found.Some?
    ensures TryKey(creator, holders, ciphertext, key, i, p) == TryKey(creator, holders[..n], ciphertext, key, i, p)
    decreases |holders|
  {
    if n < |holders| {
      assert holders[..|holders| - 1][..n] == holders[..n];
      TryKeyDone(creator, holders[..|holders| - 1], ciphertext, key, i, p, n);
    } else {
      assert holders[..n] == holders;
    }
  }
}
