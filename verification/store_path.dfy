/** Slash-separated paths within a configuration store. */
module StorePaths {
  import opened Wrappers
  import opened ByteStrings
  import opened KeyCodecs

  const DOT: byte := 0x2E
  const TILDE: byte := 0x7E

  datatype Descriptor = Key(key: bytes) | FormatHint(key: bytes, format: bytes)

  datatype StoreRoot = StoreRoot(appName: bytes, namespaces: seq<bytes>)

  datatype ParsedPath = ParsedPath(root: StoreRoot, descriptor: Descriptor)

  datatype Error = EmptyPath | EmptyApp | Absolute | HomeRelative | NoFile | Escapes | Invalid

  // --------------------------------------------------------------- path pieces

  function Split(s: bytes): (parts: seq<bytes>)
    ensures parts != []
  {
    if s == [] then [[]]
    else
      var rest := Split(s[1..]);
      if s[0] == SLASH then [[]] + rest else [[s[0]] + rest[0]] + rest[1..]
  }

  function Join(parts: seq<bytes>): bytes {
    if parts == [] then []
    else if |parts| == 1 then parts[0]
    else parts[0] + [SLASH] + Join(parts[1..])
  }

  /** A segment that names something below where it stands. */
  predicate Proper(part: bytes) {
    part != [] && part != [DOT] && part != [DOT, DOT] && SLASH !in part
  }

  /** What Go's path.Clean makes of the segments of a relative path: empty and "."
      segments vanish, ".." removes the segment before it if there is one. */
  function CleanParts(parts: seq<bytes>, out: seq<bytes>): seq<bytes> {
    if parts == [] then out
    else
      var part, rest := parts[0], parts[1..];
      if part == [] || part == [DOT] then CleanParts(rest, out)
      else if part == [DOT, DOT] && out != [] && out[|out| - 1] != [DOT, DOT] then CleanParts(rest, out[..|out| - 1])
      else CleanParts(rest, out + [part])
  }

  function Clean(name: bytes): bytes {
    var out := CleanParts(Split(name), []);
    if out == [] then [DOT] else Join(out)
  }

  predicate HasPrefix(s: bytes, prefix: bytes) {
    |prefix| <= |s| && s[..|prefix|] == prefix
  }

  /** Where the last dot is, or the length. */
  function LastDot(base: bytes): (i: nat)
    ensures i <= |base|
    ensures i < |base| ==> base[i] == DOT && DOT !in base[i + 1..]
    ensures i == |base| ==> DOT !in base
  {
    if base == [] then 0
    else
      var n := |base| - 1;
      if base[n] == DOT then n
      else
        assert base == base[..n] + [base[n]];
        var i := LastDot(base[..n]);
        if i == n then n + 1
        else
          assert base[i + 1..] == base[..n][i + 1..] + [base[n]];
          i
  }

  function RequestedFormatKey(key: bytes, format: bytes): Descriptor {
    if format == [] then Key(key) else FormatHint(key, format)
  }

  /** A path that a user gave, below the root that the application chose. `trim`
      drops white space on both sides. */
  function ResolvePathWithinStore(trim: bytes -> bytes, root: StoreRoot, given: bytes): Result<ParsedPath, Error> {
    var name := trim(given);
    if name == [] then Err(EmptyPath)
    else if root.appName == [] then Err(EmptyApp)
    else if HasPrefix(name, [SLASH]) then Err(Absolute)
    else if name == [TILDE] || HasPrefix(name, [TILDE, SLASH]) then Err(HomeRelative)
    else
      var clean := Clean(name);
      if clean == [DOT] || clean == [] then Err(NoFile)
      else if clean == [DOT, DOT] || HasPrefix(clean, [DOT, DOT, SLASH]) then Err(Escapes)
      else
        var parts := Split(clean);
        if exists i | 0 <= i < |parts| :: parts[i] == [] || parts[i] == [DOT] || parts[i] == [DOT, DOT]
        then Err(Invalid)
        else
          var base := parts[|parts| - 1];
          var dot := LastDot(base);
          var key, format := base[..dot], if dot < |base| then base[dot + 1..] else [];
          if key == [] then Err(NoFile)
          else
            var below := StoreRoot(root.appName, root.namespaces + parts[..|parts| - 1]);
            Ok(ParsedPath(below, RequestedFormatKey(DecodeKey(key), format)))
  }

  // ------------------------------------------------------------ splitting, joining

  lemma {:induction false} SplitPart(part: bytes, rest: bytes)
    requires SLASH !in part
    ensures Split(part) == [part]
    ensures Split(part + [SLASH] + rest) == [part] + Split(rest)
  {
    var s := part + [SLASH] + rest;
    if part == [] {
      assert s[1..] == rest;
    } else {
      SplitPart(part[1..], rest);
      assert s[1..] == part[1..] + [SLASH] + rest;
      assert [part[0]] + part[1..] == part;
    }
  }

  lemma {:induction false} SplitJoin(parts: seq<bytes>)
    requires parts != [] && forall i | 0 <= i < |parts| :: SLASH !in parts[i]
    ensures Split(Join(parts)) == parts
  {
    if |parts| == 1 {
      SplitPart(parts[0], []);
    } else {
      SplitPart(parts[0], Join(parts[1..]));
      SplitJoin(parts[1..]);
      assert [parts[0]] + parts[1..] == parts;
    }
  }

  lemma {:induction false} SplitHasNoSlash(s: bytes)
    ensures forall i | 0 <= i < |Split(s)| :: SLASH !in Split(s)[i]
  {
    if s != [] {
      SplitHasNoSlash(s[1..]);
    }
  }

  // -------------------------------------------------------------------- cleaning

  /** Leading ".." segments, then proper ones. */
  predicate Cleaned(out: seq<bytes>) {
    && (forall i | 0 <= i < |out| :: Proper(out[i]) || out[i] == [DOT, DOT])
    && (forall i | 0 < i < |out| :: out[i] == [DOT, DOT] ==> out[i - 1] == [DOT, DOT])
  }

  lemma {:induction false} CleanPartsCleaned(parts: seq<bytes>, out: seq<bytes>)
    requires Cleaned(out) && forall i | 0 <= i < |parts| :: SLASH !in parts[i]
    ensures Cleaned(CleanParts(parts, out))
  {
    if parts != [] {
      var part, rest := parts[0], parts[1..];
      if part == [] || part == [DOT] {
        CleanPartsCleaned(rest, out);
      } else if part == [DOT, DOT] && out != [] && out[|out| - 1] != [DOT, DOT] {
        CleanPartsCleaned(rest, out[..|out| - 1]);
      } else {
        CleanPartsCleaned(rest, out + [part]);
      }
    }
  }

  /** Where a walk from directory `at` leads, segment by segment; above the top
      there is only the top. */
  function Walk(at: seq<bytes>, parts: seq<bytes>): seq<bytes>
    decreases |parts|
  {
    if parts == [] then at
    else
      var part := parts[0];
      var next := if part == [] || part == [DOT] then at
                  else if part == [DOT, DOT] then (if at == [] then [] else at[..|at| - 1])
                  else at + [part];
      Walk(next, parts[1..])
  }

  lemma {:induction false} WalkOn(at: seq<bytes>, a: seq<bytes>, b: seq<bytes>)
    ensures Walk(at, a + b) == Walk(Walk(at, a), b)
    decreases |a|
  {
    if a == [] {
      assert a + b == b;
    } else {
      assert (a + b)[1..] == a[1..] + b;
      WalkOne(at, a[0]);
      WalkOn(Walk(at, [a[0]]), a[1..], b);
    }
  }

  lemma WalkOne(at: seq<bytes>, part: bytes)
    ensures Walk(at, [part]) ==
            if part == [] || part == [DOT] then at
            else if part == [DOT, DOT] then (if at == [] then [] else at[..|at| - 1])
            else at + [part]
  {
    var one: seq<bytes> := [part];
    assert one[1..] == [];
  }

  /** Going up undoes the last step down. */
  lemma WalkBack(at: seq<bytes>, out: seq<bytes>)
    requires Cleaned(out) && out != [] && out[|out| - 1] != [DOT, DOT]
    ensures Walk(Walk(at, out), [[DOT, DOT]]) == Walk(at, out[..|out| - 1])
  {
    var front, last := out[..|out| - 1], out[|out| - 1];
    assert out == front + [last];
    WalkOn(at, front, [last]);
    WalkOne(Walk(at, front), last);
    WalkOne(Walk(at, out), [DOT, DOT]);
  }

  /** Cleaning keeps the meaning of a path: from every directory, the cleaned path
      leads where the given one does. */
  lemma {:induction false} CleanKeepsMeaning(at: seq<bytes>, parts: seq<bytes>, out: seq<bytes>)
    requires Cleaned(out) && forall i | 0 <= i < |parts| :: SLASH !in parts[i]
    ensures Walk(at, CleanParts(parts, out)) == Walk(Walk(at, out), parts)
    decreases |parts|
  {
    if parts != [] {
      var part, rest := parts[0], parts[1..];
      assert parts == [part] + rest;
      WalkOn(Walk(at, out), [part], rest);
      WalkOne(Walk(at, out), part);
      if part == [] || part == [DOT] {
        CleanKeepsMeaning(at, rest, out);
      } else if part == [DOT, DOT] && out != [] && out[|out| - 1] != [DOT, DOT] {
        WalkBack(at, out);
        CleanKeepsMeaning(at, rest, out[..|out| - 1]);
      } else {
        WalkOn(at, out, [part]);
        CleanKeepsMeaning(at, rest, out + [part]);
      }
    }
  }

  lemma {:induction false} AllProper(out: seq<bytes>, n: nat)
    requires Cleaned(out) && n < |out| && out[0] != [DOT, DOT]
    ensures Proper(out[n])
  {
    if n > 0 {
      AllProper(out, n - 1);
    }
  }

  /** A proper path is clean already. */
  lemma {:induction false} CleanKeeps(parts: seq<bytes>, out: seq<bytes>)
    requires forall i | 0 <= i < |parts| :: Proper(parts[i])
    ensures CleanParts(parts, out) == out + parts
  {
    if parts != [] {
      CleanKeeps(parts[1..], out + [parts[0]]);
      assert out + [parts[0]] + parts[1..] == out + parts;
    }
  }

  // ------------------------------------------------------------------ main results

  /** The segments of an accepted path. */
  function Parts(trim: bytes -> bytes, given: bytes): seq<bytes> {
    CleanParts(Split(trim(given)), [])
  }

  /** Whatever is asked for stays below the chosen root: the application is the
      root's, the root's namespaces come first, and all further ones are proper
      segments. The last check of the code never fires, because a clean path that
      does not start with ".." holds no special segment. */
  lemma StaysBelowRoot(trim: bytes -> bytes, root: StoreRoot, given: bytes)
    ensures var r := ResolvePathWithinStore(trim, root, given);
      && r != Err(Invalid)
      && (r.Ok? ==>
          && r.value.root.appName == root.appName
          && root.namespaces <= r.value.root.namespaces
          && forall i | |root.namespaces| <= i < |r.value.root.namespaces| :: Proper(r.value.root.namespaces[i]))
  {
    var out := Parts(trim, given);
    SplitHasNoSlash(trim(given));
    CleanPartsCleaned(Split(trim(given)), []);
    if out != [] {
      SplitJoin(out);
      if out[0] == [DOT, DOT] {
        if |out| > 1 {
          JoinMore(out);
          assert HasPrefix(Join(out), [DOT, DOT, SLASH]);
        }
      } else {
        forall n | 0 <= n < |out| ensures Proper(out[n]) {
          AllProper(out, n);
        }
      }
    }
  }

  /** The file that the last segment names, below the namespaces that the others
      name. */
  function Located(root: StoreRoot, parts: seq<bytes>): Result<ParsedPath, Error>
    requires parts != []
  {
    var base := parts[|parts| - 1];
    var dot := LastDot(base);
    var format := if dot < |base| then base[dot + 1..] else [];
    if dot == 0 then Err(NoFile)
    else Ok(ParsedPath(StoreRoot(root.appName, root.namespaces + parts[..|parts| - 1]),
                       RequestedFormatKey(DecodeKey(base[..dot]), format)))
  }

  /** What a path comes to, by its segments: those of a relative path are cleaned;
      they must not lead above the root, and the last one must be left with a name
      before its last dot. */
  lemma ResolvesExactly(trim: bytes -> bytes, root: StoreRoot, given: bytes)
    requires root.appName != []
    ensures var name, parts, r := trim(given), Parts(trim, given), ResolvePathWithinStore(trim, root, given);
      if name == [] then r == Err(EmptyPath)
      else if name[0] == SLASH then r == Err(Absolute)
      else if Split(name)[0] == [TILDE] then r == Err(HomeRelative)
      else if parts == [] then r == Err(NoFile)
      else if parts[0] == [DOT, DOT] then r == Err(Escapes)
      else r == Located(root, parts)
  {
    var name, out := trim(given), Parts(trim, given);
    hide Split, CleanParts, LastDot, DecodeKey, Join, Proper, HasPrefix;
    StaysBelowRoot(trim, root, given);
    if name != [] {
      TildeFirst(name);
    }
    PartsAreClean(trim, given);
    if out != [] {
      JoinedStart(out);
      SplitJoin(out);
    }
  }

  lemma PartsAreClean(trim: bytes -> bytes, given: bytes)
    ensures Cleaned(Parts(trim, given))
    ensures forall i | 0 <= i < |Parts(trim, given)| :: SLASH !in Parts(trim, given)[i]
  {
    SplitHasNoSlash(trim(given));
    CleanPartsCleaned(Split(trim(given)), []);
    var out := Parts(trim, given);
    forall i | 0 <= i < |out| ensures SLASH !in out[i] {
      assert Proper(out[i]) || out[i] == [DOT, DOT];
    }
  }

  /** A path begins with a home directory exactly if its first segment says so. */
  lemma TildeFirst(name: bytes)
    requires name != []
    ensures name == [TILDE] || HasPrefix(name, [TILDE, SLASH]) <==> Split(name)[0] == [TILDE]
    ensures HasPrefix(name, [SLASH]) <==> name[0] == SLASH
  {
    if |name| > 1 {
      assert name[1..][0] == name[1];
      assert HasPrefix(name, [TILDE, SLASH]) <==> name[0] == TILDE && name[1] == SLASH by {
        assert name[..2] == [name[0], name[1]];
      }
      assert Split(name[1..]) == if name[1] == SLASH then [[]] + Split(name[1..][1..])
        else [[name[1]] + Split(name[1..][1..])[0]] + Split(name[1..][1..])[1..];
    }
  }

  /** How the joined segments of a clean path begin. */
  lemma JoinedStart(out: seq<bytes>)
    requires out != [] && Cleaned(out) && forall i | 0 <= i < |out| :: SLASH !in out[i]
    ensures Join(out) != [] && Join(out) != [DOT]
    ensures Join(out) == [DOT, DOT] || HasPrefix(Join(out), [DOT, DOT, SLASH]) <==> out[0] == [DOT, DOT]
  {
    hide Join, Cleaned;
    assert Proper(out[0]) || out[0] == [DOT, DOT] by { FirstCleaned(out); }
    if |out| == 1 {
      JoinOne(out);
      NoSlashPrefix(out[0], [DOT, DOT, SLASH]);
    } else {
      JoinMore(out);
      if out[0] == [DOT, DOT] {
        UpStart(Join(out[1..]));
      } else {
        StartOf(out[0], Join(out[1..]));
      }
    }
  }

  lemma FirstCleaned(out: seq<bytes>)
    requires out != [] && Cleaned(out)
    ensures Proper(out[0]) || out[0] == [DOT, DOT]
  {
  }

  lemma JoinOne(parts: seq<bytes>)
    requires |parts| == 1
    ensures Join(parts) == parts[0]
  {
  }

  lemma UpStart(rest: bytes)
    ensures HasPrefix([DOT, DOT] + [SLASH] + rest, [DOT, DOT, SLASH])
  {
    assert ([DOT, DOT] + [SLASH] + rest)[..3] == [DOT, DOT, SLASH];
  }

  /** What resolving a clean path comes to. */
  lemma ResolveProper(trim: bytes -> bytes, root: StoreRoot, parts: seq<bytes>)
    requires parts != [] && forall i | 0 <= i < |parts| :: Proper(parts[i])
    requires root.appName != [] && trim(Join(parts)) == Join(parts)
    ensures ResolvePathWithinStore(trim, root, Join(parts))
         == if parts[0] == [TILDE] then Err(HomeRelative) else Located(root, parts)
  {
    hide Join, Split, CleanParts, HasPrefix, ResolvePathWithinStore, Located;
    ResolvesExactly(trim, root, Join(parts));
    SplitJoin(parts);
    CleanKeeps(parts, []);
    assert [] + parts == parts;
    FirstPart(parts);
    FirstByte(Join(parts));
  }

  lemma FirstByte(s: bytes)
    requires s != []
    ensures HasPrefix(s, [SLASH]) <==> s[0] == SLASH
  {
    assert s[..1] == [s[0]];
  }

  /** The beginning of a joined path is that of its first segment. */
  lemma FirstPart(parts: seq<bytes>)
    requires parts != [] && forall i | 0 <= i < |parts| :: Proper(parts[i])
    ensures var name := Join(parts);
      && name != [] && !HasPrefix(name, [SLASH])
      && (name == [TILDE] || HasPrefix(name, [TILDE, SLASH]) <==> parts[0] == [TILDE])
      && name != [DOT] && name != [DOT, DOT] && !HasPrefix(name, [DOT, DOT, SLASH])
  {
    if |parts| > 1 {
      JoinMore(parts);
      StartOf(parts[0], Join(parts[1..]));
    } else {
      NoSlashPrefix(parts[0], [SLASH]);
      NoSlashPrefix(parts[0], [TILDE, SLASH]);
      NoSlashPrefix(parts[0], [DOT, DOT, SLASH]);
    }
  }

  lemma NoSlashPrefix(s: bytes, prefix: bytes)
    requires SLASH !in s && SLASH in prefix
    ensures !HasPrefix(s, prefix)
  {
    var i :| 0 <= i < |prefix| && prefix[i] == SLASH;
    assert i < |s| ==> s[i] != SLASH;
    assert |prefix| <= |s| ==> s[..|prefix|][i] != prefix[i];
  }

  lemma JoinMore(parts: seq<bytes>)
    requires |parts| > 1
    ensures Join(parts) == parts[0] + [SLASH] + Join(parts[1..])
  {
  }

  lemma StartOf(first: bytes, rest: bytes)
    requires Proper(first)
    ensures var name := first + [SLASH] + rest;
      && !HasPrefix(name, [SLASH]) && |name| > 1
      && (HasPrefix(name, [TILDE, SLASH]) <==> first == [TILDE])
      && name != [DOT, DOT] && !HasPrefix(name, [DOT, DOT, SLASH])
  {
    var name := first + [SLASH] + rest;
    assert name[0] == first[0] && first[0] in first;
    assert name[|first|] == SLASH;
    assert |first| > 1 ==> name[1] == first[1] && first[1] in first;
    assert |first| > 2 ==> name[2] == first[2] && first[2] in first;
    assert |name| > 1 ==> name[..2] == [name[0], name[1]];
    assert |name| > 2 ==> name[..3] == [name[0], name[1], name[2]];
  }

  /** The path of a key in a namespace, with its format as extension. */
  function PathOf(namespaces: seq<bytes>, key: bytes, format: bytes): bytes {
    Join(namespaces + [EncodeKey(key) + [DOT] + format])
  }

  /** A key, its format and its namespaces are found again from the path made of
      them, exactly unless the path begins with a home directory. */
  lemma PathRoundTrip(trim: bytes -> bytes, root: StoreRoot, namespaces: seq<bytes>, key: bytes, format: bytes)
    requires forall i | 0 <= i < |namespaces| :: Proper(namespaces[i])
    requires root.appName != [] && key != [] && format != [] && DOT !in format && SLASH !in format
    requires trim(PathOf(namespaces, key, format)) == PathOf(namespaces, key, format)
    ensures ResolvePathWithinStore(trim, root, PathOf(namespaces, key, format)) ==
            Ok(ParsedPath(StoreRoot(root.appName, root.namespaces + namespaces), FormatHint(key, format)))
            <==> namespaces == [] || namespaces[0] != [TILDE]
  {
    var base := EncodeKey(key) + [DOT] + format;
    var parts := namespaces + [base];
    EncodedIsSafe(key);
    DecodeEncoded(key);
    BaseParses(EncodeKey(key), format);
    assert parts[..|parts| - 1] == namespaces;
    ResolveProper(trim, root, parts);
    assert namespaces == [] ==> parts[0] == base && |base| > 1;
  }

  lemma BaseParses(encoded: bytes, format: bytes)
    requires encoded != [] && format != [] && DOT !in format && SLASH !in format && SLASH !in encoded
    ensures var base := encoded + [DOT] + format;
      && Proper(base) && LastDot(base) == |encoded|
      && base[..|encoded|] == encoded && base[|encoded| + 1..] == format
  {
    var base := encoded + [DOT] + format;
    assert base[|encoded|] == DOT && base[|encoded| + 1..] == format;
    LastDotAt(base, |encoded|);
    assert |base| >= 3;
  }

  lemma {:induction false} LastDotAt(base: bytes, i: nat)
    requires i < |base| && base[i] == DOT && DOT !in base[i + 1..]
    ensures LastDot(base) == i
  {
    var n := |base| - 1;
    if i < n {
      assert base[i + 1..] == base[..n][i + 1..] + [base[n]];
      LastDotAt(base[..n], i);
    }
  }

  /** Without an extension, a key is found again exactly if it has no dot, since
      what follows the last dot is taken for a format, and if the path does not
      begin with a home directory. */
  lemma BareKeyRoundTrip(trim: bytes -> bytes, root: StoreRoot, namespaces: seq<bytes>, key: bytes)
    requires forall i | 0 <= i < |namespaces| :: Proper(namespaces[i])
    requires root.appName != [] && Proper(EncodeKey(key))
    requires var path := Join(namespaces + [EncodeKey(key)]); trim(path) == path
    ensures ResolvePathWithinStore(trim, root, Join(namespaces + [EncodeKey(key)])) ==
            Ok(ParsedPath(StoreRoot(root.appName, root.namespaces + namespaces), Key(key)))
            <==> DOT !in key && (namespaces + [EncodeKey(key)])[0] != [TILDE]
  {
    var base := EncodeKey(key);
    var parts := namespaces + [base];
    EncodedIsSafe(key);
    DecodeEncoded(key);
    assert parts[..|parts| - 1] == namespaces;
    ResolveProper(trim, root, parts);
    var dot := LastDot(base);
    if dot < |base| {
      ShorterDecodes(key, dot);
    } else {
      assert base[..dot] == base;
    }
  }

  /** Cutting an encoded key at a dot leaves the encoding of a shorter key. */
  lemma {:induction false} ShorterKey(key: bytes, dot: nat) returns (j: nat)
    requires dot < |EncodeKey(key)| && EncodeKey(key)[dot] == DOT
    ensures j < |key| && EncodeKey(key)[..dot] == EncodeKey(key[..j])
  {
    var first, rest := EncodeByte(key[0]), EncodeKey(key[1..]);
    if dot == 0 {
      return 0;
    }
    assert |first| <= dot;
    var i := ShorterKey(key[1..], dot - |first|);
    j := i + 1;
    assert key[..j][1..] == key[1..][..i];
    assert (first + rest)[..dot] == first + rest[..dot - |first|];
  }

  lemma ShorterDecodes(key: bytes, dot: nat)
    requires dot < |EncodeKey(key)| && EncodeKey(key)[dot] == DOT
    ensures DecodeKey(EncodeKey(key)[..dot]) != key
  {
    var j := ShorterKey(key, dot);
    DecodeEncoded(key[..j]);
  }
}
