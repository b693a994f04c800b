/** Targets as objects: dependencies linked by name, hashes memoised in the
    objects, and a chain of names to notice cycles. */
module Targets {
  import opened Wrappers
  import opened Integers
  import opened DecimalNotation
  import opened TargetGraphs

  class Target {
    const name: string
    const shallowHash: u32
    const depNames: seq<string>
    var deps: seq<Target>
    /** None until the hash has been computed. */
    var hash: Option<u32>

    constructor (name: string, shallowHash: u32, depNames: seq<string>)
      ensures this.name == name && this.shallowHash == shallowHash && this.depNames == depNames
      ensures deps == [] && hash == None
    {
      this.name, this.shallowHash, this.depNames := name, shallowHash, depNames;
      deps, hash := [], None;
    }

    /** Finds each dependency by its name; false if one does not exist. */
    method ResolveDeps(others: map<string, Target>) returns (ok: bool)
      modifies `deps
      ensures ok <==> forall i | 0 <= i < |depNames| :: depNames[i] in others
      ensures ok ==> |deps| == |old(deps)| + |depNames| && deps[..|old(deps)|] == old(deps)
      ensures ok ==> forall i | 0 <= i < |depNames| :: deps[|old(deps)| + i] == others[depNames[i]]
    {
      for i := 0 to |depNames|
        invariant forall j | 0 <= j < i :: depNames[j] in others
        invariant |deps| == |old(deps)| + i && deps[..|old(deps)|] == old(deps)
        invariant forall j | 0 <= j < i :: deps[|old(deps)| + j] == others[depNames[j]]
      {
        if depNames[i] !in others {
          return false;
        }
        deps := deps + [others[depNames[i]]];
      }
      return true;
    }
  }

  /** The names being hashed at the moment, shared by all nested calls. */
  class Chain {
    var names: set<string>

    constructor ()
      ensures names == {}
    {
      names := {};
    }
  }

  /** Every target is filed under its own name. */
  ghost predicate Named(targets: map<string, Target>) {
    forall n | n in targets :: targets[n].name == n
  }

  ghost function GraphOf(targets: map<string, Target>): Graph {
    Graph(map n | n in targets :: targets[n].shallowHash, map n | n in targets :: targets[n].depNames)
  }

  ghost predicate Linked(targets: map<string, Target>, t: Target)
    reads t`deps
  {
    && |t.deps| == |t.depNames|
    && forall i | 0 <= i < |t.depNames| :: t.depNames[i] in targets && t.deps[i] == targets[t.depNames[i]]
  }

  ghost predicate AllLinked(targets: map<string, Target>)
    reads targets.Values`deps
  {
    forall n | n in targets :: Linked(targets, targets[n])
  }

  /** The target's links were added behind those it had. */
  ghost predicate Appended(targets: map<string, Target>, t: Target, had: seq<Target>)
    reads t`deps
  {
    && |t.deps| == |had| + |t.depNames| && t.deps[..|had|] == had
    && forall i | 0 <= i < |t.depNames| :: t.depNames[i] in targets && t.deps[|had| + i] == targets[t.depNames[i]]
  }

  /** A memoised hash, if there is one, is the hash of the unfolded target. */
  ghost predicate Memo(fnv: string -> u32, g: Graph, t: Target)
    requires Closed(g)
    reads t`hash
  {
    t.hash.Some? ==> t.name in g.deps && t.hash == TreeHash(fnv, g, t.name)
  }

  ghost predicate AllMemo(fnv: string -> u32, g: Graph, targets: map<string, Target>)
    requires Closed(g)
    reads targets.Values`hash
  {
    forall n | n in targets :: Memo(fnv, g, targets[n])
  }

  /** A path of at least one dependency from `a` to `b`. */
  ghost predicate Reaches(g: Graph, a: string, b: string) {
    exists p :: Walk(g, p) && |p| >= 2 && p[0] == a && p[|p| - 1] == b
  }

  lemma ReachesSelf(fnv: string -> u32, g: Graph, n: string)
    requires Closed(g) && n in g.deps && Reaches(g, n, n)
    ensures TreeHash(fnv, g, n) == None
  {
    var p :| Walk(g, p) && |p| >= 2 && p[0] == n && p[|p| - 1] == n;
    assert Repeats(p);
    WalkMeansFailure(g, p, {});
  }

  lemma ReachesNext(g: Graph, a: string, b: string, i: nat)
    requires Closed(g) && b in g.deps && i < |g.deps[b]| && (a == b || Reaches(g, a, b))
    ensures Reaches(g, a, g.deps[b][i])
  {
    var d := g.deps[b][i];
    if a == b {
      assert Walk(g, [b, d]) && [b, d][1] == d;
    } else {
      var p :| Walk(g, p) && |p| >= 2 && p[0] == a && p[|p| - 1] == b;
      var q := p + [d];
      assert Walk(g, q) && q[|q| - 1] == d;
    }
  }

  /** The plain recursive hash of target `n`, None if it depends on a cycle. */
  ghost function TreeHash(fnv: string -> u32, g: Graph, n: string): Option<u32>
    requires Closed(g) && n in g.deps
  {
    match Unfold(g, n, {})
    case None => None
    case Some(t) => Some(HashTree(fnv, t))
  }

  /** What has been written to the hash after these dependencies, None once one
      of them has no hash. */
  ghost function Written(fnv: string -> u32, g: Graph, ns: seq<string>): Option<string>
    requires Closed(g) && forall i | 0 <= i < |ns| :: ns[i] in g.deps
  {
    if ns == [] then Some("")
    else
      match (Written(fnv, g, ns[..|ns| - 1]), TreeHash(fnv, g, ns[|ns| - 1]))
      case (Some(text), Some(h)) => Some(text + Decimal(h))
      case _ => None
  }

  lemma WrittenNext(fnv: string -> u32, g: Graph, ns: seq<string>, i: nat)
    requires Closed(g) && (forall j | 0 <= j < |ns| :: ns[j] in g.deps) && i < |ns|
    ensures Written(fnv, g, ns[..i + 1]) ==
      match (Written(fnv, g, ns[..i]), TreeHash(fnv, g, ns[i]))
      case (Some(text), Some(h)) => Some(text + Decimal(h))
      case _ => None
  {
    assert ns[..i + 1][..i] == ns[..i];
  }

  lemma {:induction false} WrittenIsDecimals(fnv: string -> u32, g: Graph, ns: seq<string>, ts: seq<Tree>)
    requires Closed(g) && |ns| == |ts|
    requires forall i | 0 <= i < |ns| :: ns[i] in g.deps && Unfold(g, ns[i], {}) == Some(ts[i])
    ensures Written(fnv, g, ns) == Some(Decimals(HashTrees(fnv, ts)))
  {
    if ns != [] {
      var k := |ns| - 1;
      WrittenIsDecimals(fnv, g, ns[..k], ts[..k]);
      assert HashTrees(fnv, ts)[..k] == HashTrees(fnv, ts[..k]);
    }
  }

  lemma {:induction false} WrittenMeansHashed(fnv: string -> u32, g: Graph, ns: seq<string>, i: nat)
    requires Closed(g) && (forall j | 0 <= j < |ns| :: ns[j] in g.deps) && i < |ns|
    requires Written(fnv, g, ns).Some?
    ensures Unfold(g, ns[i], {}).Some?
  {
    if i < |ns| - 1 {
      WrittenMeansHashed(fnv, g, ns[..|ns| - 1], i);
    }
  }

  /** All dependencies hashed: the text is what the hash of the tree is of. */
  lemma WrittenAll(fnv: string -> u32, g: Graph, n: string)
    requires Closed(g) && n in g.deps && Written(fnv, g, g.deps[n]).Some?
    ensures TreeHash(fnv, g, n) == Some(fnv(Written(fnv, g, g.deps[n]).value + Decimal(g.shallow[n])))
  {
    forall i | 0 <= i < |g.deps[n]| ensures Unfold(g, g.deps[n][i], {}).Some? {
      WrittenMeansHashed(fnv, g, g.deps[n], i);
    }
    UnfoldStep(g, n);
    var t := Unfold(g, n, {}).value;
    WrittenIsDecimals(fnv, g, g.deps[n], t.children);
    HashTreeStep(fnv, t);
  }

  lemma DepWithoutHash(fnv: string -> u32, g: Graph, n: string, i: nat)
    requires Closed(g) && n in g.deps && i < |g.deps[n]| && TreeHash(fnv, g, g.deps[n][i]) == None
    ensures TreeHash(fnv, g, n) == None
  {
    UnfoldStep(g, n);
  }

  lemma MemoHit(fnv: string -> u32, g: Graph, t: Target)
    requires Closed(g) && Memo(fnv, g, t) && t.hash.Some?
    ensures t.name in g.deps && TreeHash(fnv, g, t.name) == t.hash
  {
  }

  /** Stores the hash of a target and takes it off the chain. */
  method Remember(fnv: string -> u32, ghost g: Graph, ghost targets: map<string, Target>, t: Target, h: u32,
                  chain: Chain)
    requires Closed(g) && t.name in g.deps && TreeHash(fnv, g, t.name) == Some(h)
    requires AllMemo(fnv, g, targets)
    modifies t`hash, chain
    ensures t.hash == Some(h) && AllMemo(fnv, g, targets)
    ensures chain.names == old(chain.names) - {t.name}
  {
    hide TreeHash, Closed;
    t.hash := Some(h);
    chain.names := chain.names - {t.name};
    forall n | n in targets ensures Memo(fnv, g, targets[n]) {
      assert old(Memo(fnv, g, targets[n]));
    }
  }

  /** The memoised, cycle-detecting search. It returns the hash of the tree, or
      None exactly if a cycle can be reached. */
  method GetHashInternal(fnv: string -> u32, ghost targets: map<string, Target>, t: Target, chain: Chain)
    returns (r: Option<u32>)
    requires Named(targets) && AllLinked(targets) && Closed(GraphOf(targets))
    requires t.name in targets && targets[t.name] == t
    requires AllMemo(fnv, GraphOf(targets), targets)
    requires chain.names <= targets.Keys && forall c | c in chain.names :: Reaches(GraphOf(targets), c, t.name)
    modifies targets.Values`hash, chain
    ensures AllMemo(fnv, GraphOf(targets), targets)
    ensures r == TreeHash(fnv, GraphOf(targets), t.name)
    ensures r.Some? ==> chain.names == old(chain.names)
    decreases |targets.Keys - chain.names|, 1
  {
    hide TreeHash, Written, Closed, Reaches;
    if t.hash.Some? {
      assert Memo(fnv, GraphOf(targets), targets[t.name]);
      MemoHit(fnv, GraphOf(targets), t);
      return t.hash;
    }
    if t.name in chain.names {
      ReachesSelf(fnv, GraphOf(targets), t.name);
      return None;
    }
    r := HashBelow(fnv, targets, t, chain);
  }

  /** Hashes a target that is neither hashed yet nor on the chain. */
  method HashBelow(fnv: string -> u32, ghost targets: map<string, Target>, t: Target, chain: Chain)
    returns (r: Option<u32>)
    requires Named(targets) && AllLinked(targets) && Closed(GraphOf(targets))
    requires t.name in targets && targets[t.name] == t
    requires AllMemo(fnv, GraphOf(targets), targets)
    requires t.name !in chain.names
    requires chain.names <= targets.Keys && forall c | c in chain.names :: Reaches(GraphOf(targets), c, t.name)
    modifies targets.Values`hash, chain
    ensures AllMemo(fnv, GraphOf(targets), targets)
    ensures r == TreeHash(fnv, GraphOf(targets), t.name)
    ensures r.Some? ==> chain.names == old(chain.names)
    decreases |targets.Keys - chain.names|, 0
  {
    hide TreeHash, Written, Closed, Reaches, Memo, Linked, Decimal;
    ghost var g := GraphOf(targets);
    Smaller(targets.Keys, chain.names, t.name);
    chain.names := chain.names + {t.name};
    var text := WriteDeps(fnv, targets, t, chain);
    if text == None {
      return None;
    }
    WrittenAll(fnv, g, t.name);
    var h := fnv(text.value + Decimal(t.shallowHash));
    Remember(fnv, g, targets, t, h, chain);
    r := Some(h);
  }

  /** The loop over the dependencies of `t`, which is on the chain itself. */
  method WriteDeps(fnv: string -> u32, ghost targets: map<string, Target>, t: Target, chain: Chain)
    returns (r: Option<string>)
    requires Named(targets) && AllLinked(targets) && Closed(GraphOf(targets))
    requires t.name in targets && targets[t.name] == t
    requires AllMemo(fnv, GraphOf(targets), targets)
    requires chain.names <= targets.Keys
    requires forall c | c in chain.names :: c == t.name || Reaches(GraphOf(targets), c, t.name)
    modifies targets.Values`hash, chain
    ensures AllMemo(fnv, GraphOf(targets), targets)
    ensures r == None ==> TreeHash(fnv, GraphOf(targets), t.name) == None
    ensures r.Some? ==> chain.names == old(chain.names) && r == Written(fnv, GraphOf(targets), t.depNames)
    decreases |targets.Keys - chain.names|, 2
  {
    hide TreeHash, Written, Closed, Reaches;
    ghost var g := GraphOf(targets);
    var text := "";
    assert Linked(targets, t);
    ghost var ns := t.depNames;
    WrittenNone(fnv, g, ns);
    for i := 0 to |t.deps|
      invariant AllMemo(fnv, g, targets)
      invariant chain.names == old(chain.names)
      invariant Written(fnv, g, ns[..i]) == Some(text)
    {
      forall c | c in chain.names ensures Reaches(g, c, ns[i]) {
        ReachesNext(g, c, t.name, i);
      }
      var h := GetHashInternal(fnv, targets, t.deps[i], chain);
      if h == None {
        DepWithoutHash(fnv, g, t.name, i);
        return None;
      }
      WrittenNext(fnv, g, ns, i);
      text := text + Decimal(h.value);
    }
    assert ns[..|ns|] == ns;
    r := Some(text);
  }

  lemma WrittenNone(fnv: string -> u32, g: Graph, ns: seq<string>)
    requires Closed(g) && forall j | 0 <= j < |ns| :: ns[j] in g.deps
    ensures Written(fnv, g, ns[..0]) == Some("")
  {
  }

  /** Hashes one target, starting a new chain. */
  method GetHash(fnv: string -> u32, ghost targets: map<string, Target>, t: Target) returns (r: Option<u32>)
    requires Named(targets) && AllLinked(targets) && Closed(GraphOf(targets))
    requires t.name in targets && targets[t.name] == t
    requires AllMemo(fnv, GraphOf(targets), targets)
    modifies targets.Values`hash
    ensures AllMemo(fnv, GraphOf(targets), targets)
    ensures r == TreeHash(fnv, GraphOf(targets), t.name)
  {
    var chain := new Chain();
    r := GetHashInternal(fnv, targets, t, chain);
  }

  // ------------------------------------------------------------ a snapshot

  /** As a query returns it: nothing linked, nothing hashed. */
  ghost predicate Fresh(targets: map<string, Target>)
    reads targets.Values
  {
    Named(targets) && forall n | n in targets :: targets[n].deps == [] && targets[n].hash == None
  }

  /** Links every target, in any order; false if a dependency does not exist.
      What was linked before stays and comes first. */
  method FillDependencies(targets: map<string, Target>) returns (ok: bool)
    requires Named(targets)
    modifies targets.Values`deps
    ensures ok <==> Closed(GraphOf(targets))
    ensures ok ==> forall n | n in targets :: Appended(targets, targets[n], old(targets[n].deps))
  {
    var todo := targets.Keys;
    while todo != {}
      invariant todo <= targets.Keys
      invariant forall n | n in targets ::
        if n in todo then targets[n].deps == old(targets[n].deps)
        else Appended(targets, targets[n], old(targets[n].deps))
    {
      var n :| n in todo;
      var resolved := targets[n].ResolveDeps(targets);
      if !resolved {
        var i :| 0 <= i < |targets[n].depNames| && targets[n].depNames[i] !in targets;
        assert GraphOf(targets).deps[n][i] !in GraphOf(targets).deps;
        return false;
      }
      assert Appended(targets, targets[n], old(targets[n].deps));
      forall m | m in targets && m != n ensures targets[m] != targets[n] {
      }
      todo := todo - {n};
    }
    forall n, i | n in targets && 0 <= i < |targets[n].depNames| ensures targets[n].depNames[i] in targets {
      assert Appended(targets, targets[n], old(targets[n].deps));
    }
    return true;
  }

  /** Hashes every target of a snapshot, in any order. None stands for an
      error: a dependency that does not exist, or a cycle anywhere. */
  method TargetHashes(fnv: string -> u32, targets: map<string, Target>) returns (r: Option<map<string, u32>>)
    requires Fresh(targets)
    modifies targets.Values
    ensures r.Some? <==> Acyclic(GraphOf(targets))
    ensures r.Some? ==> r.value == SnapshotHashes(fnv, GraphOf(targets))
  {
    var ok := FillDependencies(targets);
    if !ok {
      return None;
    }
    forall n | n in targets ensures Linked(targets, targets[n]) {
      assert Appended(targets, targets[n], []);
    }
    hide TreeHash, Closed;
    ghost var g := GraphOf(targets);
    var hashes: map<string, u32> := map[];
    var todo := targets.Keys;
    while todo != {}
      invariant todo <= targets.Keys && AllLinked(targets) && AllMemo(fnv, g, targets)
      invariant hashes.Keys == targets.Keys - todo
      invariant forall n | n in hashes :: TreeHash(fnv, g, n) == Some(hashes[n])
    {
      var n :| n in todo;
      var h := GetHash(fnv, targets, targets[n]);
      if h == None {
        CyclicTarget(fnv, g, n);
        return None;
      }
      hashes := hashes[n := h.value];
      todo := todo - {n};
    }
    AllHashed(fnv, g, hashes);
    return Some(hashes);
  }

  lemma CyclicTarget(fnv: string -> u32, g: Graph, n: string)
    requires Closed(g) && n in g.deps && TreeHash(fnv, g, n) == None
    ensures !Acyclic(g)
  {
    UnfoldFailsOnCycles(g, n);
  }

  lemma AllHashed(fnv: string -> u32, g: Graph, hashes: map<string, u32>)
    requires Closed(g) && hashes.Keys == g.deps.Keys
    requires forall n | n in hashes :: TreeHash(fnv, g, n) == Some(hashes[n])
    ensures Acyclic(g) && hashes == SnapshotHashes(fnv, g)
  {
    forall n | n in g.deps ensures !CycleReachable(g, n) {
      UnfoldFailsOnCycles(g, n);
    }
  }
}
