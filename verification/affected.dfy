/** Which targets count as affected by a change: those whose hash differs
    between two snapshots, or that exist only in the later one. */
module Affected {
  import opened Wrappers
  import opened Integers
  import opened DecimalNotation
  import opened TargetGraphs
  import opened Targets

  // ------------------------------------------------------------- the diff

  /** Target `n` has no equal hash in the baseline. */
  predicate Differs(now: map<string, u32>, baseline: map<string, u32>, n: string) {
    n in now && (n !in baseline || baseline[n] != now[n])
  }

  /** Collects the changed targets, in the arbitrary order of a map. */
  method Diff(now: map<string, u32>, baseline: map<string, u32>) returns (diffs: seq<string>)
    ensures forall n :: n in diffs <==> Differs(now, baseline, n)
    ensures forall i, j | 0 <= i < j < |diffs| :: diffs[i] != diffs[j]
  {
    diffs := [];
    var todo := now.Keys;
    while todo != {}
      invariant todo <= now.Keys
      invariant forall n :: n in diffs <==> n in now && n !in todo && Differs(now, baseline, n)
      invariant forall i, j | 0 <= i < j < |diffs| :: diffs[i] != diffs[j]
    {
      var k :| k in todo;
      todo := todo - {k};
      if k !in baseline || baseline[k] != now[k] {
        diffs := diffs + [k];
      }
    }
  }

  /** Affected, as a property of the two snapshots. */
  ghost predicate IsAffected(fnv: string -> u32, s: Graph, e: Graph, n: string)
    requires Acyclic(s) && Acyclic(e)
  {
    n in e.deps && (n !in s.deps || HashTree(fnv, TreeOf(s, n)) != HashTree(fnv, TreeOf(e, n)))
  }

  /** Byte-wise order of strings. */
  predicate Before(a: string, b: string) {
    if b == "" then false
    else if a == "" then true
    else a[0] < b[0] || (a[0] == b[0] && Before(a[1..], b[1..]))
  }

  lemma {:induction false} BeforeTotal(a: string, b: string)
    ensures Before(a, b) || Before(b, a) || a == b
    ensures !(Before(a, b) && Before(b, a))
  {
    if a != "" && b != "" && a[0] == b[0] {
      BeforeTotal(a[1..], b[1..]);
    }
  }

  lemma {:induction false} BeforeTransitive(a: string, b: string, c: string)
    requires Before(a, b) && Before(b, c)
    ensures Before(a, c)
  {
    if a != "" && a[0] == b[0] && b[0] == c[0] {
      BeforeTransitive(a[1..], b[1..], c[1..]);
    }
  }

  ghost predicate Ascending(names: seq<string>) {
    forall i, j | 0 <= i < j < |names| :: Before(names[i], names[j])
  }

  /** Puts distinct names in order. */
  method Sort(names: seq<string>) returns (sorted: seq<string>)
    requires forall i, j | 0 <= i < j < |names| :: names[i] != names[j]
    ensures Ascending(sorted)
    ensures forall n :: n in sorted <==> n in names
  {
    sorted := [];
    for i := 0 to |names|
      invariant Ascending(sorted)
      invariant forall n :: n in sorted <==> n in names[..i]
    {
      assert names[i] !in names[..i];
      sorted := InsertName(sorted, names[i]);
      assert names[..i + 1] == names[..i] + [names[i]];
    }
    assert names[..|names|] == names;
  }

  method InsertName(sorted: seq<string>, name: string) returns (r: seq<string>)
    requires Ascending(sorted) && name !in sorted
    ensures Ascending(r)
    ensures forall n :: n in r <==> n == name || n in sorted
  {
    var k := 0;
    while k < |sorted| && Before(sorted[k], name)
      invariant 0 <= k <= |sorted|
      invariant forall i | 0 <= i < k :: Before(sorted[i], name)
    {
      k := k + 1;
    }
    r := sorted[..k] + [name] + sorted[k..];
    forall i | k <= i < |sorted| ensures Before(name, sorted[i]) {
      BeforeTotal(sorted[k], name);
      if i > k {
        BeforeTransitive(name, sorted[k], sorted[i]);
      }
    }
    forall n ensures n in r <==> n == name || n in sorted {
      assert sorted == sorted[..k] + sorted[k..];
    }
  }

  /** Names exactly the affected targets, in order; None if one of the snapshots
      has a cycle or a dependency that does not exist. */
  method CalculateAffected(fnv: string -> u32, start: map<string, Target>, end: map<string, Target>)
    returns (r: Option<seq<string>>)
    requires Fresh(start) && Fresh(end) && start.Values !! end.Values
    modifies start.Values, end.Values
    ensures r.Some? <==> Acyclic(GraphOf(start)) && Acyclic(GraphOf(end))
    ensures r.Some? ==> Ascending(r.value)
    ensures r.Some? ==> forall n :: n in r.value <==> IsAffected(fnv, GraphOf(start), GraphOf(end), n)
  {
    var startHashes := TargetHashes(fnv, start);
    if startHashes == None {
      return None;
    }
    var endHashes := TargetHashes(fnv, end);
    if endHashes == None {
      return None;
    }
    var diff := Diff(endHashes.value, startHashes.value);
    var sorted := Sort(diff);
    return Some(sorted);
  }

  // ----------------------------------------------------- nothing too much

  /** Everything that `n` depends on in snapshot `e`, itself included, has the
      same attributes and dependency list in snapshot `s`. */
  ghost predicate SameClosure(s: Graph, e: Graph, n: string) {
    forall p | Walk(e, p) && p[0] == n :: SameTarget(s, e, p[|p| - 1])
  }

  ghost predicate SameTarget(s: Graph, e: Graph, m: string) {
    && m in s.deps && m in e.deps && m in s.shallow && m in e.shallow
    && s.shallow[m] == e.shallow[m] && s.deps[m] == e.deps[m]
  }

  lemma SameClosureDep(s: Graph, e: Graph, n: string, i: nat)
    requires Closed(s) && Closed(e) && n in e.deps && SameClosure(s, e, n) && i < |e.deps[n]|
    ensures SameClosure(s, e, e.deps[n][i])
  {
    forall p | Walk(e, p) && p[0] == e.deps[n][i] ensures SameTarget(s, e, p[|p| - 1]) {
      var q := [n] + p;
      assert Walk(e, q) && q[|q| - 1] == p[|p| - 1];
    }
  }

  /** The same targets, each with the same tree or none, have the same trees. */
  lemma SameTrees(s: Graph, e: Graph, ns: seq<string>, visited: set<string>)
    requires Closed(s) && Closed(e) && forall i | 0 <= i < |ns| :: ns[i] in s.deps && ns[i] in e.deps
    requires forall i | 0 <= i < |ns| :: Unfold(s, ns[i], visited) == Unfold(e, ns[i], visited)
    ensures UnfoldAll(s, ns, visited) == UnfoldAll(e, ns, visited)
  {
    hide Unfold, Closed;
    var a, b := UnfoldAll(s, ns, visited), UnfoldAll(e, ns, visited);
    if a.Some? && b.Some? {
      assert forall i | 0 <= i < |ns| :: Some(a.value[i]) == Some(b.value[i]);
      assert a.value == b.value;
    }
  }

  lemma SameNode(s: Graph, e: Graph, n: string, visited: set<string>)
    requires Closed(s) && Closed(e) && SameTarget(s, e, n) && n !in visited
    requires UnfoldAll(s, e.deps[n], visited + {n}) == UnfoldAll(e, e.deps[n], visited + {n})
    ensures Unfold(s, n, visited) == Unfold(e, n, visited)
  {
    hide UnfoldAll;
  }

  lemma {:induction false} SameClosureSameTree(s: Graph, e: Graph, n: string, visited: set<string>)
    requires Closed(s) && Closed(e) && n in e.deps && SameClosure(s, e, n)
    ensures n in s.deps && Unfold(s, n, visited) == Unfold(e, n, visited)
    decreases |e.deps.Keys - visited|
  {
    assert Walk(e, [n]) && SameTarget(s, e, [n][0]);
    if n !in visited {
      Smaller(e.deps.Keys, visited, n);
      var ds := e.deps[n];
      hide Unfold, UnfoldAll, SameClosure, Walk;
      forall i | 0 <= i < |ds|
        ensures Unfold(s, ds[i], visited + {n}) == Unfold(e, ds[i], visited + {n})
      {
        SameClosureDep(s, e, n, i);
        SameClosureSameTree(s, e, ds[i], visited + {n});
      }
      SameTrees(s, e, ds, visited + {n});
      SameNode(s, e, n, visited);
    }
  }

  /** A target whose whole closure is as it was is never reported. */
  lemma UnchangedIsNotAffected(fnv: string -> u32, s: Graph, e: Graph, n: string)
    requires Acyclic(s) && Acyclic(e) && n in e.deps && SameClosure(s, e, n)
    ensures !IsAffected(fnv, s, e, n)
  {
    SameClosureSameTree(s, e, n, {});
  }

  // ---------------------------------------------------- nothing too little

  /** Is a tree of one of the two snapshots. */
  ghost predicate Occurs(s: Graph, e: Graph, t: Tree)
    requires Acyclic(s) && Acyclic(e)
  {
    (exists n :: n in s.deps && TreeOf(s, n) == t) || (exists n :: n in e.deps && TreeOf(e, n) == t)
  }

  /** Among the targets of the two snapshots, equal hashes come from equal
      dependency hashes and equal attributes. */
  ghost predicate CollisionFree(fnv: string -> u32, s: Graph, e: Graph)
    requires Acyclic(s) && Acyclic(e)
  {
    forall a, b | Occurs(s, e, a) && Occurs(s, e, b) && HashTree(fnv, a) == HashTree(fnv, b) ::
      HashTrees(fnv, a.children) == HashTrees(fnv, b.children) && a.shallow == b.shallow
  }

  lemma ChildOccurs(s: Graph, e: Graph, t: Tree, i: nat)
    requires Acyclic(s) && Acyclic(e) && Occurs(s, e, t) && i < |t.children|
    ensures Occurs(s, e, t.children[i])
  {
    if n :| n in s.deps && TreeOf(s, n) == t {
      ChildTree(s, n, i);
    } else {
      var n :| n in e.deps && TreeOf(e, n) == t;
      ChildTree(e, n, i);
    }
  }

  lemma ChildTree(g: Graph, n: string, i: nat)
    requires Acyclic(g) && n in g.deps && i < |TreeOf(g, n).children|
    ensures |TreeOf(g, n).children| == |g.deps[n]|
    ensures TreeOf(g, n).children[i] == TreeOf(g, g.deps[n][i])
  {
    UnfoldFailsOnCycles(g, n);
    UnfoldStep(g, n);
  }

  lemma {:induction false} EqualHashEqualTree(fnv: string -> u32, s: Graph, e: Graph, a: Tree, b: Tree)
    requires Acyclic(s) && Acyclic(e) && CollisionFree(fnv, s, e)
    requires Occurs(s, e, a) && Occurs(s, e, b) && HashTree(fnv, a) == HashTree(fnv, b)
    ensures a == b
    decreases a
  {
    var x, y := HashTrees(fnv, a.children), HashTrees(fnv, b.children);
    assert |x| == |a.children| && |y| == |b.children|;
    forall i | 0 <= i < |a.children| ensures a.children[i] == b.children[i] {
      assert x[i] == y[i];
      ChildOccurs(s, e, a, i);
      ChildOccurs(s, e, b, i);
      EqualHashEqualTree(fnv, s, e, a.children[i], b.children[i]);
    }
  }

  /** Without collisions, a target is reported exactly if it is new or unfolds
      to a different tree. */
  lemma AffectedExactly(fnv: string -> u32, s: Graph, e: Graph, n: string)
    requires Acyclic(s) && Acyclic(e) && CollisionFree(fnv, s, e)
    ensures IsAffected(fnv, s, e, n) <==> n in e.deps && (n !in s.deps || TreeOf(s, n) != TreeOf(e, n))
  {
    if n in e.deps && n in s.deps && HashTree(fnv, TreeOf(s, n)) == HashTree(fnv, TreeOf(e, n)) {
      EqualHashEqualTree(fnv, s, e, TreeOf(s, n), TreeOf(e, n));
    }
  }

  /** Changes travel up: whoever depends, by an unchanged list of names, on a
      reported target is reported too. */
  lemma DependentIsAffected(fnv: string -> u32, s: Graph, e: Graph, n: string, i: nat)
    requires Acyclic(s) && Acyclic(e) && CollisionFree(fnv, s, e)
    requires n in e.deps && (n in s.deps ==> s.deps[n] == e.deps[n])
    requires i < |e.deps[n]| && IsAffected(fnv, s, e, e.deps[n][i])
    ensures IsAffected(fnv, s, e, n)
  {
    if n in s.deps {
      AffectedExactly(fnv, s, e, e.deps[n][i]);
      AffectedExactly(fnv, s, e, n);
      UnfoldFailsOnCycles(s, n);
      UnfoldFailsOnCycles(e, n);
      UnfoldStep(s, n);
      UnfoldStep(e, n);
    }
  }

  // ------------------------------------------ what the written text tells apart

  /** The numbers that are written for a target: the hashes of its dependencies,
      then its own. */
  function Numbers(fnv: string -> u32, t: Tree): seq<u32> {
    HashTrees(fnv, t.children) + [t.shallow]
  }

  lemma HashOfNumbers(fnv: string -> u32, t: Tree)
    ensures HashTree(fnv, t) == fnv(Decimals(Numbers(fnv, t)))
  {
    HashTreeStep(fnv, t);
    assert Numbers(fnv, t)[..|t.children|] == HashTrees(fnv, t.children);
  }

  /** The hash function tells these two texts apart, unless they are the same. */
  predicate Separates(fnv: string -> u32, a: string, b: string) {
    a != b ==> fnv(a) != fnv(b)
  }

  lemma DecimalsMore(xs: seq<u32>, x: u32)
    ensures Decimals(xs + [x]) == Decimals(xs) + Decimal(x)
  {
    assert (xs + [x])[..|xs|] == xs;
  }

  lemma Associate(a: string, b: string, c: string)
    ensures (a + b) + c == a + (b + c)
  {
  }

  lemma {:induction false} DecimalsConcat(a: seq<u32>, b: seq<u32>)
    ensures Decimals(a + b) == Decimals(a) + Decimals(b)
  {
    if b == [] {
      assert a + b == a;
    } else {
      var front, x := b[..|b| - 1], b[|b| - 1];
      assert a + b == (a + front) + [x] && b == front + [x];
      hide Decimals, Decimal;
      DecimalsConcat(a, front);
      DecimalsMore(a + front, x);
      DecimalsMore(front, x);
      Associate(Decimals(a), Decimals(front), Decimal(x));
    }
  }

  lemma DecimalsAround(front: seq<u32>, x: u32, back: seq<u32>)
    ensures Decimals(front + [x] + back) == Decimals(front) + Decimal(x) + Decimals(back)
  {
    hide Decimals, Decimal;
    DecimalsConcat(front + [x], back);
    DecimalsMore(front, x);
  }

  lemma AroundPlace(xs: seq<u32>, i: nat)
    requires i < |xs|
    ensures xs == xs[..i] + [xs[i]] + xs[i + 1..]
  {
  }

  lemma SameMiddle(front: string, a: string, b: string, back: string)
    requires front + a + back == front + b + back
    ensures a == b
  {
    var s, t := front + a + back, front + b + back;
    assert |a| == |b|;
    assert a == s[|front|..|front| + |a|] && b == t[|front|..|front| + |b|];
  }

  /** Lists of numbers that differ in one place are written differently. */
  lemma OneNumberTells(xs: seq<u32>, ys: seq<u32>, i: nat)
    requires |xs| == |ys| && i < |xs| && xs[i] != ys[i] && xs == ys[i := xs[i]]
    ensures Decimals(xs) != Decimals(ys)
  {
    hide Decimals, Decimal;
    assert xs[..i] == ys[..i] && xs[i + 1..] == ys[i + 1..];
    AroundPlace(xs, i);
    AroundPlace(ys, i);
    DecimalsAround(xs[..i], xs[i], xs[i + 1..]);
    DecimalsAround(ys[..i], ys[i], ys[i + 1..]);
    if Decimals(xs) == Decimals(ys) {
      SameMiddle(Decimals(xs[..i]), Decimal(xs[i]), Decimal(ys[i]), Decimals(xs[i + 1..]));
      DecimalInjective(xs[i], ys[i]);
    }
  }

  /** A target of both snapshots is reported exactly if other numbers are written
      for it, read as one text, provided that the hash function separates the two
      texts. */
  lemma AffectedByText(fnv: string -> u32, s: Graph, e: Graph, n: string)
    requires Acyclic(s) && Acyclic(e) && n in s.deps && n in e.deps
    requires Separates(fnv, Decimals(Numbers(fnv, TreeOf(s, n))), Decimals(Numbers(fnv, TreeOf(e, n))))
    ensures IsAffected(fnv, s, e, n)
       <==> Decimals(Numbers(fnv, TreeOf(s, n))) != Decimals(Numbers(fnv, TreeOf(e, n)))
  {
    hide HashTree, Decimals, Numbers, TreeOf;
    HashOfNumbers(fnv, TreeOf(s, n));
    HashOfNumbers(fnv, TreeOf(e, n));
  }

  /** If the attributes of a target change, or the hash of one of its dependencies,
      and nothing else, then it is reported, by any hash function that separates
      the two texts written for it. */
  lemma ChangeIsAffected(fnv: string -> u32, s: Graph, e: Graph, n: string, i: nat)
    requires Acyclic(s) && Acyclic(e) && n in s.deps && n in e.deps
    requires var xs, ys := Numbers(fnv, TreeOf(s, n)), Numbers(fnv, TreeOf(e, n));
      && |xs| == |ys| && i < |xs| && xs[i] != ys[i] && xs == ys[i := xs[i]]
      && Separates(fnv, Decimals(xs), Decimals(ys))
    ensures IsAffected(fnv, s, e, n)
  {
    OneNumberTells(Numbers(fnv, TreeOf(s, n)), Numbers(fnv, TreeOf(e, n)), i);
    AffectedByText(fnv, s, e, n);
  }

  // -------------------------------------------------- what goes unnoticed

  /** The text that is hashed does not separate the numbers written to it, so no
      hash function whatever tells these two targets apart. */
  lemma HashesRunTogether(fnv: string -> u32)
    ensures Render([1], 23) == Render([12], 3) == "123"
    ensures fnv(Render([1], 23)) == fnv(Render([12], 3))
  {
    assert Decimal(23) == Decimal(2) + [Digit(3)];
    assert Decimal(12) == Decimal(1) + [Digit(2)];
    assert [1][..0] == [] && [12][..0] == [];
    assert Decimals([1]) == "" + Decimal(1);
    assert Decimals([12]) == "" + Decimal(12);
  }

  /** Names are not hashed: a target that now depends on another one, with the
      same content as the old, is not reported although the new one is. */
  lemma RenamedDependencyUnnoticed(fnv: string -> u32)
    ensures var s := Graph(map["a" := 7, "b" := 5], map["a" := ["b"], "b" := []]);
      var e := Graph(map["a" := 7, "c" := 5], map["a" := ["c"], "c" := []]);
      Acyclic(s) && Acyclic(e) && s.deps["a"] != e.deps["a"]
      && IsAffected(fnv, s, e, "c") && !IsAffected(fnv, s, e, "a")
  {
    var s := Graph(map["a" := 7, "b" := 5], map["a" := ["b"], "b" := []]);
    var e := Graph(map["a" := 7, "c" := 5], map["a" := ["c"], "c" := []]);
    TwoTargets(s, "a", "b");
    TwoTargets(e, "a", "c");
  }

  lemma TwoTargets(g: Graph, n: string, d: string)
    requires n != d && g.deps == map[n := [d], d := []] && g.shallow.Keys == {n, d}
    ensures Acyclic(g)
    ensures TreeOf(g, n) == Node([Node([], g.shallow[d])], g.shallow[n])
  {
    assert Closed(g);
    assert UnfoldAll(g, [], {} + {d}) == Some([]);
    assert Unfold(g, d, {}) == Some(Node([], g.shallow[d]));
    UnfoldStep(g, n);
    UnfoldFailsOnCycles(g, n);
    UnfoldFailsOnCycles(g, d);
  }
}
