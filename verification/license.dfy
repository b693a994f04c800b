/** A licence type as flextape keeps it: a map of invocations that hold a
    licence, a queue of those that wait, and a prioritizer fed by both. */
module Licenses {
  import opened Integers
  import opened Prioritizers
  import opened LicenseModel
  import opened InvocationQueues

  class ManagedLicense {
    const total: nat
    const queue: InvocationQueue
    const prioritizer: QueuePrioritizer
    var allocations: map<string, Invocation>
    /** The allocations as values. */
    ghost var holders: map<string, Entry>
    /** Every invocation this licence has ever been given. */
    ghost var known: set<Invocation>

    constructor (total: nat, prioritizer: QueuePrioritizer)
      ensures Valid() && fresh(queue) && this.prioritizer == prioritizer && known == {}
      ensures queue.short && queue.requests == 0
      ensures Abs() == License(total, map[], [], prioritizer.Kind())
    {
      this.total, this.prioritizer := total, prioritizer;
      queue := new InvocationQueue();
      allocations, holders, known := map[], map[], {};
    }

    /** Each invocation holds the licence under its own id, and none that is
        queued holds one as well. */
    ghost predicate Valid()
      reads this, queue, queue.items, known
    {
      && queue.Valid()
      && queue.Members() <= known
      && holders.Keys == allocations.Keys
      && (forall k | k in allocations :: allocations[k] in known && allocations[k] !in queue.Members())
      && (forall k | k in allocations :: allocations[k].id == k && holders[k] == allocations[k].Val())
    }

    /** The licence as a value. */
    ghost function Abs(): License
      reads this, queue, prioritizer
    {
      License(total, holders, queue.contents, prioritizer.Kind())
    }

    method Enqueue(inv: Invocation) returns (position: nat)
      requires Valid() && inv !in known && |queue.items| < MAX_LEN
      modifies `known, queue`items, queue`contents, queue`head, queue`requests, queue`short
      modifies known`queueId, inv`queueId, prioritizer
      ensures Valid() && known == old(known) + {inv}
      ensures Abs() == LicenseModel.Enqueue(old(Abs()), inv.Val())
      ensures queue.Members() == old(queue.Members()) + {inv} && position == queue.Position(inv)
      ensures queue.requests == 1 + if old(queue.items) == [] then 0 else old(queue.requests)
      ensures queue.short == ((old(queue.items) == [] || old(queue.short)) && |old(queue.items)| + 1 < U32_SIZE)
    {
      hide SortedBy, OnEnqueue, InvocationQueue.Valid, InvocationQueue.QueueIds;
      Append(inv);
      queue.Sort(prioritizer);
      position := queue.Position(inv);
    }

    /** Puts an invocation at the end of the queue. */
    method Append(inv: Invocation)
      requires Valid() && inv !in known && |queue.items| < MAX_LEN
      modifies `known, queue`items, queue`contents, queue`head, queue`requests, queue`short
      modifies inv`queueId, prioritizer
      ensures Valid() && known == old(known) + {inv}
      ensures Abs() == old(Abs()).(queue := old(queue.contents) + [inv.Val()],
                                   prioritizer := OnEnqueue(old(prioritizer.Kind()), inv.Val()))
      ensures queue.Members() == old(queue.Members()) + {inv} && |queue.items| == |old(queue.items)| + 1
      ensures queue.requests == 1 + if old(queue.items) == [] then 0 else old(queue.requests)
      ensures queue.short == ((old(queue.items) == [] || old(queue.short)) && |queue.items| < U32_SIZE)
    {
      hide OnEnqueue, InvocationQueue.Valid;
      known := known + {inv};
      var _ := queue.Enqueue(inv);
      prioritizer.OnEnqueue(inv);
      assert queue.Members() == old(queue.Members()) + {inv};
    }

    method Allocate(inv: Invocation) returns (ok: bool)
      requires Valid() && inv !in known
      modifies `known, `allocations, `holders, prioritizer
      ensures Valid() && known == old(known) + {inv}
      ensures ok == LicenseModel.Allocate(old(Abs()), inv.Val()).1
      ensures Abs() == LicenseModel.Allocate(old(Abs()), inv.Val()).0
    {
      hide OnAllocate, InvocationQueue.Valid;
      known := known + {inv};
      SameSize(allocations, holders);
      if |allocations| >= total {
        return false;
      }
      prioritizer.OnAllocate(inv);
      Grant(inv);
      return true;
    }

    method Grant(inv: Invocation)
      requires Valid() && inv in known && inv !in queue.Members()
      modifies `allocations, `holders
      ensures Valid()
      ensures holders == old(holders)[inv.id := inv.Val()]
    {
      hide InvocationQueue.Valid;
      allocations, holders := allocations[inv.id := inv], holders[inv.id := inv.Val()];
    }

    lemma SameKeys()
      requires Valid()
      ensures holders.Keys == allocations.Keys && |queue.items| == |queue.contents|
    {
    }

    /** Turns queued requests into allocations until no licence or no request is
        left. */
    method Promote()
      requires Valid()
      modifies `allocations, `holders, queue`items, queue`contents, queue`head, known`queueId, prioritizer
      ensures Valid()
      ensures Abs() == LicenseModel.Promote(old(Abs()))
    {
      hide PromoteOne;
      SameSize(allocations, holders);
      var numFree := total - |allocations|;
      var i := 0;
      while i < numFree && |queue.items| > 0
        invariant Valid()
        invariant 0 <= i <= if numFree < 0 then 0 else numFree
        invariant PromoteUpTo(Abs(), Free(old(Abs())) - i) == LicenseModel.Promote(old(Abs()))
      {
        PromoteNext();
        i := i + 1;
      }
    }

    /** One iteration of Promote. */
    method PromoteNext()
      requires Valid() && |queue.items| > 0
      modifies `allocations, `holders, queue`items, queue`contents, queue`head, known`queueId, prioritizer
      ensures Valid()
      ensures Abs() == PromoteOne(old(Abs()))
    {
      hide SortedBy, OnAllocate, OnDequeue, InvocationQueue.Valid;
      queue.SameLength();
      queue.Sort(prioritizer);
      queue.SameLength();
      var inv := queue.Dequeue();
      prioritizer.OnDequeue(inv);
      prioritizer.OnAllocate(inv);
      Grant(inv);
    }

    /** Takes the licence from everybody not heard of since `expiry`, visiting
        the allocations in any order. */
    method ExpireAllocations(expiry: int)
      requires Valid()
      modifies `allocations, `holders, prioritizer
      ensures Valid()
      ensures Abs() == LicenseModel.ExpireAllocations(old(Abs()), expiry)
    {
      hide OnReleaseAll, OnRelease, InvocationQueue.Valid, Sifted;
      var newAllocations: map<string, Invocation> := map[];
      ghost var newHolders: map<string, Entry> := map[];
      ghost var gone: map<string, Entry> := map[];
      var todo := allocations.Keys;
      ReleaseNone(prioritizer.Kind());
      SiftNone(holders, expiry);
      while todo != {}
        invariant todo <= allocations.Keys && unchanged(`allocations) && unchanged(`holders)
        invariant Sifted(holders, newHolders, gone, todo, expiry)
        invariant newAllocations.Keys == newHolders.Keys <= allocations.Keys
        invariant forall k | k in newAllocations :: newAllocations[k] == allocations[k]
        invariant prioritizer.Kind() == OnReleaseAll(old(prioritizer.Kind()), gone)
      {
        var k :| k in todo;
        var v := allocations[k];
        SiftOne(holders, newHolders, gone, todo, expiry, k);
        todo := todo - {k};
        if v.lastCheckin <= expiry {
          prioritizer.OnRelease(v);
          ReleaseOneMore(old(prioritizer.Kind()), gone, v.Val());
          gone := gone[k := v.Val()];
        } else {
          newAllocations, newHolders := newAllocations[k := v], newHolders[k := v.Val()];
        }
      }
      ExpiredSplit(holders, newHolders, gone, expiry);
      Retain(newAllocations, newHolders);
    }

    /** Keeps some of the allocations. */
    method Retain(newAllocations: map<string, Invocation>, ghost newHolders: map<string, Entry>)
      requires Valid() && newAllocations.Keys == newHolders.Keys <= allocations.Keys
      requires forall k | k in newAllocations :: newAllocations[k] == allocations[k] && newHolders[k] == holders[k]
      modifies `allocations, `holders
      ensures Valid() && allocations == newAllocations && holders == newHolders
    {
      hide InvocationQueue.Valid;
      allocations, holders := newAllocations, newHolders;
    }

    /** Drops everybody not heard of since `expiry` from the queue. */
    method ExpireQueued(expiry: int)
      requires Valid()
      modifies queue`items, queue`contents, known`queueId, prioritizer
      ensures Valid()
      ensures Abs() == LicenseModel.ExpireQueued(old(Abs()), expiry)
    {
      hide OnDequeueAll, OnDequeue, Kept, Dropped, InvocationQueue.Valid;
      var removed, _ := queue.Filter(SilentSince(expiry));
      DequeueEach(removed, Dropped(old(queue.contents), SilentSince(expiry)));
    }

    /** Reports removed requests to the prioritizer, in queue order. */
    method DequeueEach(removed: seq<Invocation>, ghost gone: seq<Entry>)
      requires |removed| == |gone| && forall i | 0 <= i < |gone| :: removed[i].Val() == gone[i]
      modifies prioritizer
      ensures prioritizer.Kind() == OnDequeueAll(old(prioritizer.Kind()), gone)
    {
      hide OnDequeue;
      for i := 0 to |removed|
        invariant prioritizer.Kind() == OnDequeueAll(old(prioritizer.Kind()), gone[..i])
        invariant forall j | 0 <= j < |gone| :: removed[j].Val() == gone[j]
      {
        prioritizer.OnDequeue(removed[i]);
        DequeueOneMore(old(prioritizer.Kind()), gone, i);
      }
      assert gone[..|removed|] == gone;
    }

    /** Notes that an invocation with a licence was heard of. */
    method CheckInAllocated(id: string, now: int)
      requires Valid() && id in allocations
      modifies `holders, known`lastCheckin
      ensures Valid()
      ensures Abs() == LicenseModel.CheckInAllocated(old(Abs()), id, now)
    {
      allocations[id].lastCheckin := now;
      holders := holders[id := allocations[id].Val()];
    }

    /** Notes that a queued invocation was heard of. */
    method CheckInQueued(inv: Invocation, ghost i: nat, now: int)
      requires Valid() && i < |queue.items| && queue.items[i] == inv
      modifies queue`contents, known`lastCheckin
      ensures Valid()
      ensures Abs() == LicenseModel.CheckInQueued(old(Abs()), i, now)
    {
      assert inv in queue.Members();
      inv.lastCheckin := now;
      queue.contents := queue.contents[i := inv.Val()];
      assert queue.QueueIds() == old(queue.QueueIds());
    }

    /** What the janitor does to one licence. */
    method Clean(allocationExpiry: int, queueExpiry: int)
      requires Valid()
      modifies `allocations, `holders, queue`items, queue`contents, queue`head, known`queueId, prioritizer
      ensures Valid()
      ensures Abs() == LicenseModel.Promote(LicenseModel.ExpireQueued(
                         LicenseModel.ExpireAllocations(old(Abs()), allocationExpiry), queueExpiry))
    {
      hide LicenseModel.Promote, LicenseModel.ExpireQueued, LicenseModel.ExpireAllocations;
      ExpireAllocations(allocationExpiry);
      ExpireQueued(queueExpiry);
      Promote();
    }

    /** The objects this licence may change. */
    ghost function Footprint(): set<object>
      reads this
    {
      {this, queue, prioritizer} + known
    }

    /** Removes an invocation from the allocations and the queue; returns how
        many places it was removed from. */
    method Forget(id: string) returns (count: nat)
      requires Valid()
      modifies `allocations, `holders, queue`items, queue`contents, known`queueId, prioritizer
      ensures Valid()
      ensures Abs() == LicenseModel.Forget(old(Abs()), id).0
      ensures count == LicenseModel.Forget(old(Abs()), id).1
    {
      hide LicenseModel.ForgetAllocated, LicenseModel.ForgetQueued, ManagedLicense.Valid;
      count := if id in allocations then 1 else 0;
      SameKeys();
      ForgetAllocated(id);
      var queued := ForgetQueued(id);
      if queued {
        count := count + 1;
      }
    }

    method ForgetQueued(id: string) returns (found: bool)
      requires Valid()
      modifies queue`items, queue`contents, known`queueId, prioritizer
      ensures Valid()
      ensures Abs() == LicenseModel.ForgetQueued(old(Abs()), id)
      ensures found <==> id in Ids(old(queue.contents))
    {
      hide OnDequeue, Kept, Dropped, InvocationQueue.Valid, InvocationQueue.Renumbered;
      DroppedMember(queue.contents, id);
      var inv, _ := queue.Forget(id);
      if inv != null {
        prioritizer.OnDequeue(inv);
      }
      return inv != null;
    }

    method ForgetAllocated(id: string)
      requires Valid()
      modifies `allocations, `holders, prioritizer
      ensures Valid()
      ensures Abs() == LicenseModel.ForgetAllocated(old(Abs()), id)
    {
      hide OnRelease, InvocationQueue.Valid;
      if id in allocations {
        prioritizer.OnRelease(allocations[id]);
        allocations, holders := allocations - {id}, holders - {id};
      }
    }
  }

  /** A licence none of whose objects changed is the licence it was. */
  twostate lemma Untouched(l: ManagedLicense)
    requires old(l.Valid())
    requires unchanged(l) && unchanged(l.queue) && unchanged(l.prioritizer) && unchanged(old(l.known))
    ensures l.Valid() && l.Abs() == old(l.Abs())
  {
  }

  lemma SameSize<T, U>(a: map<string, T>, b: map<string, U>)
    requires a.Keys == b.Keys
    ensures |a| == |b|
  {
    assert |a| == |a.Keys| && |b| == |b.Keys|;
  }

  /** Part-way through the expiry of allocations: those in `todo` are left. */
  ghost predicate Sifted(all: map<string, Entry>, kept: map<string, Entry>, gone: map<string, Entry>,
                         todo: set<string>, expiry: int) {
    && todo <= all.Keys && kept.Keys !! gone.Keys && kept.Keys + gone.Keys == all.Keys - todo
    && (forall k | k in kept :: kept[k] == all[k] && kept[k].lastCheckin > expiry)
    && (forall k | k in gone :: gone[k] == all[k] && gone[k].lastCheckin <= expiry)
  }

  lemma SiftNone(all: map<string, Entry>, expiry: int)
    ensures Sifted(all, map[], map[], all.Keys, expiry)
  {
  }

  lemma SiftOne(all: map<string, Entry>, kept: map<string, Entry>, gone: map<string, Entry>, todo: set<string>,
                expiry: int, k: string)
    requires Sifted(all, kept, gone, todo, expiry) && k in todo
    ensures k !in kept && k !in gone
    ensures if all[k].lastCheckin <= expiry then Sifted(all, kept, gone[k := all[k]], todo - {k}, expiry)
            else Sifted(all, kept[k := all[k]], gone, todo - {k}, expiry)
  {
    assert k !in kept.Keys + gone.Keys;
  }

  lemma ExpiredSplit(all: map<string, Entry>, kept: map<string, Entry>, gone: map<string, Entry>, expiry: int)
    requires Sifted(all, kept, gone, {}, expiry)
    ensures gone == Expired(all, expiry) && kept == all - gone.Keys
    ensures kept.Keys <= all.Keys && forall k | k in kept :: kept[k] == all[k]
  {
    forall k | k in all ensures k in gone <==> all[k].lastCheckin <= expiry {
      assert k in kept.Keys + gone.Keys;
    }
  }

  lemma {:induction false} DroppedMember(q: seq<Entry>, id: string)
    ensures Dropped(q, WithId(id)) == [] <==> id !in Ids(q)
  {
    if q != [] {
      DroppedMember(q[..|q| - 1], id);
      assert forall i | 0 <= i < |q| - 1 :: q[i] == q[..|q| - 1][i];
      assert q[|q| - 1].id in Ids(q);
    }
  }
}
