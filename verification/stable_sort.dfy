/** The order that sorting a queue must produce: the stable sort by key.
    `StableSort` is insertion sort; `StableSortUnique` shows that any other
    stable algorithm gives the same queue. */
module StableSorting {
  import opened Integers
  import opened Prioritizers

  /** How many leading entries of `q` stay before a new entry of key `k`. */
  function Slot(c: Counters, q: seq<Entry>, k: u64): (n: nat)
    ensures n <= |q|
    ensures n > 0 ==> Key(c, q[n - 1]) <= k
    ensures forall i | n <= i < |q| :: k < Key(c, q[i])
  {
    if q == [] || Key(c, q[|q| - 1]) <= k then |q| else Slot(c, q[..|q| - 1], k)
  }

  function Insert(c: Counters, q: seq<Entry>, e: Entry): seq<Entry> {
    var n := Slot(c, q, Key(c, e));
    q[..n] + [e] + q[n..]
  }

  function StableSort(c: Counters, q: seq<Entry>): (r: seq<Entry>)
    ensures |r| == |q|
  {
    if q == [] then [] else Insert(c, StableSort(c, q[..|q| - 1]), q[|q| - 1])
  }

  ghost predicate Sorted(c: Counters, q: seq<Entry>) {
    forall i, j | 0 <= i < j < |q| :: Key(c, q[i]) <= Key(c, q[j])
  }

  /** The entries of `q` with key `k`, in queue order. */
  function WithKey(c: Counters, q: seq<Entry>, k: u64): seq<Entry> {
    if q == [] then []
    else (if Key(c, q[0]) == k then [q[0]] else []) + WithKey(c, q[1..], k)
  }

  /** `r` is `q` sorted by key, with equal keys left in their order. */
  ghost predicate IsStableSortOf(c: Counters, r: seq<Entry>, q: seq<Entry>) {
    Sorted(c, r) && forall k: u64 :: WithKey(c, r, k) == WithKey(c, q, k)
  }

  // ------------------------------------------------------- what it computes

  lemma InsertSorted(c: Counters, q: seq<Entry>, e: Entry)
    requires Sorted(c, q)
    ensures Sorted(c, Insert(c, q, e))
  {
  }

  lemma {:induction false} WithKeyConcat(c: Counters, a: seq<Entry>, b: seq<Entry>, k: u64)
    ensures WithKey(c, a + b, k) == WithKey(c, a, k) + WithKey(c, b, k)
  {
    if a == [] {
      assert a + b == b;
    } else {
      assert (a + b)[1..] == a[1..] + b;
      WithKeyConcat(c, a[1..], b, k);
    }
  }

  lemma {:induction false} WithKeyNone(c: Counters, q: seq<Entry>, k: u64)
    requires forall i | 0 <= i < |q| :: Key(c, q[i]) != k
    ensures WithKey(c, q, k) == []
  {
    if q != [] {
      WithKeyNone(c, q[1..], k);
    }
  }

  lemma InsertWithKey(c: Counters, q: seq<Entry>, n: nat, e: Entry, k: u64)
    requires n <= |q|
    requires forall i | n <= i < |q| :: Key(c, e) < Key(c, q[i])
    ensures WithKey(c, q[..n] + [e] + q[n..], k) == WithKey(c, q, k) + WithKey(c, [e], k)
  {
    var front, back := q[..n], q[n..];
    InsertBetween(c, front, e, back, k);
    assert q == front + back;
  }

  lemma InsertBetween(c: Counters, front: seq<Entry>, e: Entry, back: seq<Entry>, k: u64)
    requires forall i | 0 <= i < |back| :: Key(c, e) < Key(c, back[i])
    ensures WithKey(c, front + [e] + back, k) == WithKey(c, front + back, k) + WithKey(c, [e], k)
  {
    WithKeyConcat(c, front + [e], back, k);
    WithKeyConcat(c, front, [e], k);
    WithKeyConcat(c, front, back, k);
    NotBoth(c, e, back, k);
    Commute(WithKey(c, front, k), WithKey(c, [e], k), WithKey(c, back, k));
  }

  lemma Commute<T>(a: seq<T>, b: seq<T>, d: seq<T>)
    requires b == [] || d == []
    ensures a + b + d == a + d + b
  {
  }

  lemma NotBoth(c: Counters, e: Entry, back: seq<Entry>, k: u64)
    requires forall i | 0 <= i < |back| :: Key(c, e) < Key(c, back[i])
    ensures WithKey(c, [e], k) == [] || WithKey(c, back, k) == []
  {
    if k == Key(c, e) {
      WithKeyNone(c, back, k);
    } else {
      WithKeyNone(c, [e], k);
    }
  }

  /** The result is a stable sort of the queue. */
  lemma {:induction false} StableSortIsStable(c: Counters, q: seq<Entry>)
    ensures IsStableSortOf(c, StableSort(c, q), q)
  {
    if q != [] {
      var front, e := q[..|q| - 1], q[|q| - 1];
      var s := StableSort(c, front);
      StableSortIsStable(c, front);
      InsertSorted(c, s, e);
      assert q == front + [e];
      forall k: u64 ensures WithKey(c, StableSort(c, q), k) == WithKey(c, q, k) {
        InsertWithKey(c, s, Slot(c, s, Key(c, e)), e, k);
        WithKeyConcat(c, front, [e], k);
      }
    }
  }

  lemma {:induction false} WithKeyMember(c: Counters, q: seq<Entry>, k: u64)
    requires WithKey(c, q, k) != []
    ensures exists i :: 0 <= i < |q| && Key(c, q[i]) == k
  {
    if q != [] && Key(c, q[0]) != k {
      WithKeyMember(c, q[1..], k);
      var i :| 0 <= i < |q[1..]| && Key(c, q[1..][i]) == k;
      assert Key(c, q[i + 1]) == k;
    }
  }

  lemma WithKeyAllNone(c: Counters, q: seq<Entry>)
    requires forall k: u64 :: WithKey(c, q, k) == []
    ensures q == []
  {
    assert q == [] || WithKey(c, q, Key(c, q[0])) != [];
  }

  /** A stable sort by key leaves no choice: whatever algorithm is used, two
      sorted queues that agree on every key's entries are the same queue. */
  lemma {:induction false} StableSortUnique(c: Counters, a: seq<Entry>, b: seq<Entry>)
    requires Sorted(c, a) && Sorted(c, b)
    requires forall k: u64 :: WithKey(c, a, k) == WithKey(c, b, k)
    ensures a == b
  {
    if a == [] {
      WithKeyAllNone(c, b);
    } else if b == [] {
      WithKeyAllNone(c, a);
    } else {
      WithKeyMember(c, a, Key(c, b[0]));
      WithKeyMember(c, b, Key(c, a[0]));
      var k := Key(c, a[0]);
      assert k == Key(c, b[0]);
      assert WithKey(c, a, k)[0] == a[0] && WithKey(c, b, k)[0] == b[0];
      forall j: u64 ensures WithKey(c, a[1..], j) == WithKey(c, b[1..], j) {
        if j == k {
          assert WithKey(c, a, j)[1..] == WithKey(c, a[1..], j);
          assert WithKey(c, b, j)[1..] == WithKey(c, b[1..], j);
        } else {
          assert WithKey(c, a, j) == WithKey(c, a[1..], j);
          assert WithKey(c, b, j) == WithKey(c, b[1..], j);
        }
      }
      StableSortUnique(c, a[1..], b[1..]);
    }
  }

  /** Any stable sort of the queue is `StableSort`. */
  lemma AnyStableSort(c: Counters, r: seq<Entry>, q: seq<Entry>)
    ensures IsStableSortOf(c, r, q) <==> r == StableSort(c, q)
  {
    StableSortIsStable(c, q);
    if IsStableSortOf(c, r, q) {
      StableSortUnique(c, r, StableSort(c, q));
    }
  }

  // ------------------------------------------------ what sorting leaves alone

  lemma InsertAtPermutes(q: seq<Entry>, n: nat, e: Entry)
    requires n <= |q|
    ensures multiset(q[..n] + [e] + q[n..]) == multiset(q) + multiset{e}
  {
    assert q == q[..n] + q[n..];
  }

  lemma {:induction false} StableSortPermutes(c: Counters, q: seq<Entry>)
    ensures multiset(StableSort(c, q)) == multiset(q)
  {
    if q != [] {
      var front, e := q[..|q| - 1], q[|q| - 1];
      var s := StableSort(c, front);
      StableSortPermutes(c, front);
      InsertAtPermutes(s, Slot(c, s, Key(c, e)), e);
      assert q == front + [e];
    }
  }

  lemma {:induction false} StableSortOwnerCount(c: Counters, q: seq<Entry>, o: string)
    ensures OwnerCount(StableSort(c, q), o) == OwnerCount(q, o)
  {
    if q != [] {
      var front, e := q[..|q| - 1], q[|q| - 1];
      StableSortOwnerCount(c, front, o);
      InsertOwnerCount(c, StableSort(c, front), e, o);
    }
  }

  lemma InsertOwnerCount(c: Counters, q: seq<Entry>, e: Entry, o: string)
    ensures OwnerCount(Insert(c, q, e), o) == OwnerCount(q, o) + (if e.owner == o then 1 else 0)
  {
    var n := Slot(c, q, Key(c, e));
    assert q == q[..n] + q[n..];
    OwnerCountConcat(q[..n], q[n..], o);
    OwnerCountConcat(q[..n] + [e], q[n..], o);
    OwnerCountConcat(q[..n], [e], o);
    OwnerCountOne(e, o);
  }

  /** Putting one entry into a queue at place `n`. */
  lemma InsertAtIds(q: seq<Entry>, n: nat, e: Entry)
    requires n <= |q|
    ensures Ids(q[..n] + [e] + q[n..]) == Ids(q) + {e.id}
    ensures DistinctIds(q) && e.id !in Ids(q) ==> DistinctIds(q[..n] + [e] + q[n..])
  {
    var r := q[..n] + [e] + q[n..];
    forall i | 0 <= i < |q| ensures q[i].id in Ids(r) {
      assert r[if i < n then i else i + 1] == q[i];
    }
    assert r[n] == e;
    forall i | 0 <= i < |r| && i != n ensures r[i].id in Ids(q) {
      assert r[i] == q[if i < n then i else i - 1];
    }
    assert Ids(r) == Ids(q) + {e.id};
  }

  lemma SamePermutationIds(a: seq<Entry>, b: seq<Entry>)
    requires multiset(a) == multiset(b)
    ensures Ids(a) == Ids(b)
  {
    assert forall i | 0 <= i < |a| :: a[i] in multiset(a);
    assert forall i | 0 <= i < |b| :: b[i] in multiset(b);
  }

  lemma {:induction false} StableSortDistinct(c: Counters, q: seq<Entry>)
    requires DistinctIds(q)
    ensures DistinctIds(StableSort(c, q))
  {
    if q != [] {
      var front, e := q[..|q| - 1], q[|q| - 1];
      var s := StableSort(c, front);
      StableSortDistinct(c, front);
      StableSortPermutes(c, front);
      SamePermutationIds(front, s);
      assert e.id !in Ids(s);
      InsertAtIds(s, Slot(c, s, Key(c, e)), e);
    }
  }
}
