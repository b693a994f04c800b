/** Dependency graphs of bazel targets: the tree a target unfolds to, the hash
    of that tree, and cycles. */
module TargetGraphs {
  import opened Wrappers
  import opened Integers
  import opened DecimalNotation

  /** What a snapshot says about its targets: the hash of each one's own
      attributes, and the names of its direct dependencies. */
  datatype Graph = Graph(shallow: map<string, u32>, deps: map<string, seq<string>>)

  /** Every dependency names a target of the snapshot. */
  ghost predicate Closed(g: Graph) {
    && g.shallow.Keys == g.deps.Keys
    && forall n, i | n in g.deps && 0 <= i < |g.deps[n]| :: g.deps[n][i] in g.deps
  }

  /** A target with all that it depends on, names forgotten. */
  datatype Tree = Node(children: seq<Tree>, shallow: u32)

  // ---------------------------------------------------------------- hashing

  function Decimals(hashes: seq<u32>): string {
    if hashes == [] then "" else Decimals(hashes[..|hashes| - 1]) + Decimal(hashes[|hashes| - 1])
  }

  /** The text whose 32-bit hash is the hash of a target. */
  function Render(hashes: seq<u32>, shallow: u32): string {
    Decimals(hashes) + Decimal(shallow)
  }

  /** The hash of a tree, for any 32-bit hash function of texts. */
  function HashTree(fnv: string -> u32, t: Tree): u32
    decreases t
  {
    fnv(Render(seq(|t.children|, i requires 0 <= i < |t.children| => HashTree(fnv, t.children[i])), t.shallow))
  }

  function HashTrees(fnv: string -> u32, ts: seq<Tree>): seq<u32> {
    seq(|ts|, i requires 0 <= i < |ts| => HashTree(fnv, ts[i]))
  }

  lemma HashTreeStep(fnv: string -> u32, t: Tree)
    ensures HashTree(fnv, t) == fnv(Render(HashTrees(fnv, t.children), t.shallow))
  {
    assert HashTrees(fnv, t.children)
        == seq(|t.children|, i requires 0 <= i < |t.children| => HashTree(fnv, t.children[i]));
  }

  // --------------------------------------------------------------- unfolding

  lemma Smaller(all: set<string>, visited: set<string>, n: string)
    requires n in all && n !in visited
    ensures |all - (visited + {n})| < |all - visited|
  {
    assert all - visited == (all - (visited + {n})) + {n};
  }

  /** The tree of target `n`, or None if a target comes up again below itself
      or below the targets in `visited`. */
  ghost function Unfold(g: Graph, n: string, visited: set<string>): Option<Tree>
    requires Closed(g) && n in g.deps
    decreases |g.deps.Keys - visited|, 0
  {
    if n in visited then None
    else
      Smaller(g.deps.Keys, visited, n);
      match UnfoldAll(g, g.deps[n], visited + {n})
      case None => None
      case Some(ts) => Some(Node(ts, g.shallow[n]))
  }

  ghost function UnfoldAll(g: Graph, ns: seq<string>, visited: set<string>): (r: Option<seq<Tree>>)
    requires Closed(g) && forall i | 0 <= i < |ns| :: ns[i] in g.deps
    ensures r == None <==> exists i | 0 <= i < |ns| :: Unfold(g, ns[i], visited) == None
    ensures r.Some? ==> |r.value| == |ns|
    ensures r.Some? ==> forall i | 0 <= i < |ns| :: Unfold(g, ns[i], visited) == Some(r.value[i])
    decreases |g.deps.Keys - visited|, 1 + |ns|
  {
    if ns == [] then Some([])
    else
      match (UnfoldAll(g, ns[..|ns| - 1], visited), Unfold(g, ns[|ns| - 1], visited))
      case (Some(ts), Some(t)) => Some(ts + [t])
      case _ => None
  }

  /** A tree found with more targets forbidden is found with fewer. */
  lemma {:induction false} UnfoldMonotone(g: Graph, n: string, visited: set<string>, fewer: set<string>)
    requires Closed(g) && n in g.deps && fewer <= visited
    requires Unfold(g, n, visited).Some?
    ensures Unfold(g, n, fewer) == Unfold(g, n, visited)
    decreases |g.deps.Keys - visited|
  {
    Smaller(g.deps.Keys, visited, n);
    var ds := g.deps[n];
    forall i | 0 <= i < |ds| ensures Unfold(g, ds[i], fewer + {n}) == Unfold(g, ds[i], visited + {n}) {
      UnfoldMonotone(g, ds[i], visited + {n}, fewer + {n});
    }
    var a, b := UnfoldAll(g, ds, visited + {n}), UnfoldAll(g, ds, fewer + {n});
    assert b.Some?;
    assert a.value == b.value;
  }

  // ------------------------------------------------------------------ cycles

  /** A path along dependencies. */
  ghost predicate Walk(g: Graph, p: seq<string>) {
    && p != []
    && (forall i | 0 <= i < |p| :: p[i] in g.deps)
    && (forall i | 0 <= i < |p| - 1 :: p[i + 1] in g.deps[p[i]])
  }

  ghost predicate Repeats(p: seq<string>) {
    exists i, j :: 0 <= i < j < |p| && p[i] == p[j]
  }

  ghost predicate Meets(p: seq<string>, visited: set<string>) {
    exists i :: 0 <= i < |p| && p[i] in visited
  }

  /** Some path from `n` visits a target twice. */
  ghost predicate CycleReachable(g: Graph, n: string) {
    exists p :: Walk(g, p) && p[0] == n && Repeats(p)
  }

  /** If unfolding fails, some path comes back to itself or to `visited`. */
  lemma {:induction false} FailureHasWalk(g: Graph, n: string, visited: set<string>) returns (p: seq<string>)
    requires Closed(g) && n in g.deps && Unfold(g, n, visited) == None
    ensures Walk(g, p) && p[0] == n
    ensures p[|p| - 1] in visited || exists i :: 0 <= i < |p| - 1 && p[i] == p[|p| - 1]
    decreases |g.deps.Keys - visited|
  {
    if n in visited {
      p := [n];
    } else {
      Smaller(g.deps.Keys, visited, n);
      var ds := g.deps[n];
      var i :| 0 <= i < |ds| && Unfold(g, ds[i], visited + {n}) == None;
      var q := FailureHasWalk(g, ds[i], visited + {n});
      p := [n] + q;
      WalkFromDep(g, n, q);
    }
  }

  lemma WalkFromDep(g: Graph, n: string, q: seq<string>)
    requires n in g.deps && Walk(g, q) && q[0] in g.deps[n]
    ensures var p := [n] + q;
      && Walk(g, p)
      && (q[|q| - 1] == n || (exists i :: 0 <= i < |q| - 1 && q[i] == q[|q| - 1])
          ==> exists i :: 0 <= i < |p| - 1 && p[i] == p[|p| - 1])
  {
    var p := [n] + q;
    assert forall k | 0 <= k < |q| :: p[k + 1] == q[k];
    if q[|q| - 1] == n {
      assert p[0] == p[|p| - 1];
    } else if k :| 0 <= k < |q| - 1 && q[k] == q[|q| - 1] {
      assert p[k + 1] == p[|p| - 1];
    }
  }

  /** A path that comes back makes unfolding fail. */
  lemma {:induction false} WalkMeansFailure(g: Graph, p: seq<string>, visited: set<string>)
    requires Closed(g) && Walk(g, p) && (Meets(p, visited) || Repeats(p))
    ensures Unfold(g, p[0], visited) == None
    decreases |p|
  {
    var n := p[0];
    if n !in visited {
      var q := p[1..];
      if Meets(p, visited) {
        var i :| 0 <= i < |p| && p[i] in visited;
        assert q[i - 1] in visited + {n};
      } else {
        var i, j :| 0 <= i < j < |p| && p[i] == p[j];
        if i == 0 {
          assert q[j - 1] in visited + {n};
        } else {
          assert q[i - 1] == q[j - 1];
        }
      }
      assert Walk(g, q);
      WalkMeansFailure(g, q, visited + {n});
      var k :| 0 <= k < |g.deps[n]| && g.deps[n][k] == p[1];
    }
  }

  /** Unfolding fails exactly when a cycle can be reached. */
  lemma UnfoldFailsOnCycles(g: Graph, n: string)
    requires Closed(g) && n in g.deps
    ensures Unfold(g, n, {}) == None <==> CycleReachable(g, n)
  {
    if Unfold(g, n, {}) == None {
      var p := FailureHasWalk(g, n, {});
      assert Repeats(p);
    }
    if CycleReachable(g, n) {
      var p :| Walk(g, p) && p[0] == n && Repeats(p);
      WalkMeansFailure(g, p, {});
    }
  }

  /** `n` depends on itself, through `m`. */
  lemma BackEdge(g: Graph, n: string, m: string, p: seq<string>)
    requires Closed(g) && n in g.deps && m in g.deps[n]
    requires Walk(g, p) && p[0] == m && p[|p| - 1] == n
    ensures Unfold(g, m, {}) == None && Unfold(g, n, {}) == None
  {
    var q := p + [m];
    assert Walk(g, q) && q[0] == q[|q| - 1];
    WalkMeansFailure(g, q, {});
    var r := [n] + p;
    assert Walk(g, r) && r[0] == r[|r| - 1];
    WalkMeansFailure(g, r, {});
  }

  /** A target unfolds to its own hash and the trees of its dependencies. */
  lemma UnfoldStep(g: Graph, n: string)
    requires Closed(g) && n in g.deps
    ensures Unfold(g, n, {}) == None <==> exists i | 0 <= i < |g.deps[n]| :: Unfold(g, g.deps[n][i], {}) == None
    ensures Unfold(g, n, {}).Some? ==>
      var t := Unfold(g, n, {}).value;
      && t.shallow == g.shallow[n] && |t.children| == |g.deps[n]|
      && forall i | 0 <= i < |g.deps[n]| :: Unfold(g, g.deps[n][i], {}) == Some(t.children[i])
  {
    var ds := g.deps[n];
    var a := UnfoldAll(g, ds, {} + {n});
    if a.Some? {
      forall i | 0 <= i < |ds| ensures Unfold(g, ds[i], {}) == Some(a.value[i]) {
        UnfoldMonotone(g, ds[i], {} + {n}, {});
      }
    } else {
      var i :| 0 <= i < |ds| && Unfold(g, ds[i], {} + {n}) == None;
      if Unfold(g, ds[i], {}).Some? {
        // Only the detour through `n` can have failed.
        var p := FailureHasWalk(g, ds[i], {} + {n});
        if p[|p| - 1] == n {
          BackEdge(g, n, ds[i], p);
        } else {
          assert Repeats(p);
          WalkMeansFailure(g, p, {});
        }
      }
    }
  }

  /** Closed and without cycles. */
  ghost predicate Acyclic(g: Graph) {
    Closed(g) && forall n | n in g.deps :: !CycleReachable(g, n)
  }

  ghost function TreeOf(g: Graph, n: string): Tree
    requires Acyclic(g) && n in g.deps
  {
    UnfoldFailsOnCycles(g, n);
    Unfold(g, n, {}).value
  }

  ghost function SnapshotHashes(fnv: string -> u32, g: Graph): map<string, u32>
    requires Acyclic(g)
  {
    map n | n in g.deps :: HashTree(fnv, TreeOf(g, n))
  }
}
