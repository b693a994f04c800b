/** What holds over every run of the flextape server. */
module ServiceInvariant {
  import opened Wrappers
  import opened Integers
  import opened Prioritizers
  import opened QueuePositions
  import opened LicenseModel
  import opened LicenseInvariant
  import opened Promotion
  import opened ServiceModel

  // ------------------------------------------- the limit, whatever clients do

  ghost predicate WithinLimit(s: Service) {
    forall n | n in s.licenses :: |s.licenses[n].allocations| <= s.licenses[n].total
  }

  lemma InsertSize(a: map<string, Entry>, e: Entry)
    ensures |a[e.id := e]| <= |a| + 1
    ensures e.id in a ==> |a[e.id := e]| == |a|
  {
    var b := a[e.id := e];
    assert |b| == |b.Keys| && b.Keys == a.Keys + {e.id};
    if e.id in a {
      assert b.Keys == a.Keys;
    }
  }

  lemma {:induction false} PromoteUpToLimit(l: License, n: nat)
    requires |l.allocations| + n <= l.total
    ensures |PromoteUpTo(l, n).allocations| <= l.total && PromoteUpTo(l, n).total == l.total
    decreases n
  {
    if n != 0 && l.queue != [] {
      InsertSize(l.allocations, Next(l));
      PromoteUpToLimit(PromoteOne(l), n - 1);
    }
  }

  lemma PromoteLimit(l: License)
    requires |l.allocations| <= l.total
    ensures |Promote(l).allocations| <= l.total && Promote(l).total == l.total
  {
    PromoteUpToLimit(l, Free(l));
  }

  lemma AnswerLimit(s: Service, l: License, inv: Message, id: string, now: int)
    requires |l.allocations| <= l.total
    ensures var l' := Answer(s, l, inv, id, now).0; |l'.allocations| <= l'.total && l'.total == l.total
  {
    if id in l.allocations {
      assert CheckInAllocated(l, id, now).allocations.Keys == l.allocations.Keys;
      assert |CheckInAllocated(l, id, now).allocations| == |l.allocations.Keys|;
    }
  }

  lemma ForgetLimit(l: License, id: string)
    ensures |Forget(l, id).0.allocations| <= |l.allocations| && Forget(l, id).0.total == l.total
  {
    SubsetSize((l.allocations - {id}).Keys, l.allocations.Keys);
  }

  lemma ExpireLimit(l: License, expiry: int)
    ensures |ExpireAllocations(l, expiry).allocations| <= |l.allocations|
    ensures ExpireAllocations(l, expiry).total == l.total
  {
    SubsetSize(ExpireAllocations(l, expiry).allocations.Keys, l.allocations.Keys);
  }

  lemma CleanLimit(s: Service, l: License, now: int)
    requires |l.allocations| <= l.total
    ensures |Clean(s, l, now).allocations| <= l.total && Clean(s, l, now).total == l.total
  {
    hide ExpireAllocations, Promote;
    var m := ExpireAllocations(l, now - s.allocationRefresh);
    ExpireLimit(l, now - s.allocationRefresh);
    PromoteLimit(ExpireQueued(m, now - s.queueRefresh));
  }

  lemma StepLimit(s: Service, t: Timed)
    requires WithinLimit(s)
    ensures WithinLimit(Step(s, t))
  {
    hide PromoteUpTo, Forget, Clean, Answer, Enqueue;
    match t.event
    case AllocateCall(inv, newId) =>
      var name := Named(s, inv);
      if name.Some? {
        var l := s.licenses[name.value];
        if inv.id == "" {
          if newId.Some? {
            AdmitLimit(s, l, inv, newId.value, t.now);
            AnswerLimit(s, Admit(s, l, inv, newId.value, t.now), inv, newId.value, t.now);
          }
        } else {
          AnswerLimit(s, l, inv, inv.id, t.now);
        }
      }
    case RefreshCall(inv) =>
      if Named(s, inv).Some? {
        var l := s.licenses[Named(s, inv).value];
        InsertSize(l.allocations, MakeEntry(inv, inv.id, t.now));
        if inv.id in l.allocations {
          assert CheckInAllocated(l, inv.id, t.now).allocations.Keys == l.allocations.Keys;
          assert |CheckInAllocated(l, inv.id, t.now).allocations| == |l.allocations.Keys|;
        }
      }
    case ReleaseCall(id) =>
      forall n | n in s.licenses
        ensures |Forget(s.licenses[n], id).0.allocations| <= Forget(s.licenses[n], id).0.total
      {
        ForgetLimit(s.licenses[n], id);
      }
    case JanitorTick =>
      forall n | n in s.licenses
        ensures |Clean(s, s.licenses[n], t.now).allocations| <= Clean(s, s.licenses[n], t.now).total
      {
        CleanLimit(s, s.licenses[n], t.now);
      }
    case AdoptionEnds =>
  }

  lemma AdmitLimit(s: Service, l: License, inv: Message, id: string, now: int)
    requires |l.allocations| <= l.total
    ensures var l' := Admit(s, l, inv, id, now); |l'.allocations| <= l'.total && l'.total == l.total
  {
    PromoteLimit(Enqueue(l, MakeEntry(inv, id, now)));
  }

  /** Whatever the clients send, reused ids and adoption included, no licence is
      ever handed out more often than it was bought. */
  lemma {:induction false} RunLimit(s: Service, ts: seq<Timed>)
    requires WithinLimit(s)
    ensures WithinLimit(Run(s, ts))
    decreases |ts|
  {
    if ts != [] {
      StepLimit(s, ts[0]);
      RunLimit(Step(s, ts[0]), ts[1..]);
    }
  }

  // ----------------------------------------- consistency, when ids are unique

  ghost predicate AllConsistent(s: Service) {
    forall n | n in s.licenses :: Consistent(s.licenses[n])
  }

  /** The licence that a call is about to adopt an invocation for. */
  ghost predicate Adopts(s: Service, inv: Message) {
    && Named(s, inv).Some?
    && s.state == Starting
    && inv.id != ""
    && var l := s.licenses[Named(s, inv).value];
       inv.id !in l.allocations && |l.allocations| < l.total
  }

  ghost predicate HasRoom(s: Service, inv: Message) {
    Named(s, inv).Some? ==> |s.licenses[Named(s, inv).value].queue| < MAX_LEN
  }

  /** Generated ids are new, a queue never outgrows memory, and nobody refreshes
      during start-up a request that is still queued. */
  ghost predicate Permitted(s: Service, t: Timed) {
    match t.event
    case AllocateCall(inv, newId) =>
      && HasRoom(s, inv)
      && (Named(s, inv).Some? && inv.id == "" && newId.Some? ==> !Knows(s.licenses[Named(s, inv).value], newId.value))
    case RefreshCall(inv) =>
      Adopts(s, inv) ==> inv.id !in Ids(s.licenses[Named(s, inv).value].queue)
    case ReleaseCall(_) => true
    case JanitorTick => true
    case AdoptionEnds => true
  }

  ghost predicate AllPermitted(s: Service, ts: seq<Timed>)
    decreases |ts|
  {
    ts == [] || (Permitted(s, ts[0]) && AllPermitted(Step(s, ts[0]), ts[1..]))
  }

  lemma CheckInAllocatedConsistent(l: License, id: string, now: int)
    requires Consistent(l) && id in l.allocations
    ensures Consistent(CheckInAllocated(l, id, now))
  {
    var l' := CheckInAllocated(l, id, now);
    assert l'.allocations.Keys == l.allocations.Keys;
    assert |l'.allocations| == |l'.allocations.Keys|;
    if l.prioritizer.EvenOwners? {
      var c := l.prioritizer.counters;
      forall o ensures OwnerIndexed(c, l.queue, l'.allocations, o) {
        assert OwnerIndexed(c, l.queue, l.allocations, o);
        assert Holders(l'.allocations, o) == Holders(l.allocations, o);
      }
    }
  }

  lemma CheckInOwnerCount(q: seq<Entry>, i: nat, e: Entry, o: string)
    requires i < |q| && e.owner == q[i].owner
    ensures OwnerCount(q[i := e], o) == OwnerCount(q, o)
  {
    var r := q[i := e];
    OwnerCountSplit(q, i, o);
    OwnerCountSplit(r, i, o);
    assert r[..i] == q[..i] && r[i + 1..] == q[i + 1..];
  }

  lemma CheckInIds(q: seq<Entry>, i: nat, e: Entry)
    requires i < |q| && e.id == q[i].id
    ensures Ids(q[i := e]) == Ids(q)
    ensures DistinctIds(q) ==> DistinctIds(q[i := e])
  {
    var r := q[i := e];
    assert forall j | 0 <= j < |q| :: r[j].id == q[j].id;
  }

  lemma CheckInQueuedConsistent(l: License, i: nat, now: int)
    requires Consistent(l) && i < |l.queue|
    ensures Consistent(CheckInQueued(l, i, now))
  {
    var l' := CheckInQueued(l, i, now);
    CheckInIds(l.queue, i, l'.queue[i]);
    if l.prioritizer.EvenOwners? {
      var c := l.prioritizer.counters;
      forall o ensures OwnerIndexed(c, l'.queue, l.allocations, o) {
        assert OwnerIndexed(c, l.queue, l.allocations, o);
        CheckInOwnerCount(l.queue, i, l'.queue[i], o);
      }
    }
  }

  lemma FindIds(q: seq<Entry>, id: string)
    ensures Find(q, id) < |q| <==> id in Ids(q)
  {
  }

  lemma AnswerConsistent(s: Service, l: License, inv: Message, id: string, now: int)
    requires Consistent(l) && (|l.queue| < MAX_LEN || Knows(l, id))
    ensures Consistent(Answer(s, l, inv, id, now).0)
  {
    FindIds(l.queue, id);
    if id in l.allocations {
      CheckInAllocatedConsistent(l, id, now);
    } else if Find(l.queue, id) < |l.queue| {
      CheckInQueuedConsistent(l, Find(l.queue, id), now);
    } else if s.state == Starting {
      EnqueueConsistent(l, MakeEntry(inv, id, now));
    }
  }

  lemma AdmitConsistent(s: Service, l: License, inv: Message, id: string, now: int)
    requires Consistent(l) && |l.queue| < MAX_LEN && !Knows(l, id)
    ensures Consistent(Admit(s, l, inv, id, now))
    ensures Knows(Admit(s, l, inv, id, now), id)
  {
    var e := MakeEntry(inv, id, now);
    var m := Enqueue(l, e);
    EnqueueConsistent(l, e);
    EnqueueIds(l, e);
    if s.state == Running {
      PromoteConsistent(m);
      PromoteUpToKnows(m, Free(m), id);
    }
  }

  lemma CleanConsistent(s: Service, l: License, now: int)
    requires Consistent(l)
    ensures Consistent(Clean(s, l, now))
  {
    hide Consistent, ExpireAllocations, ExpireQueued, Promote;
    var m := ExpireAllocations(l, now - s.allocationRefresh);
    ExpireAllocationsConsistent(l, now - s.allocationRefresh);
    ExpireQueuedConsistent(m, now - s.queueRefresh);
    PromoteConsistent(ExpireQueued(m, now - s.queueRefresh));
  }

  lemma AllocateStepConsistent(s: Service, inv: Message, newId: Option<string>, now: int)
    requires AllConsistent(s) && Permitted(s, Timed(AllocateCall(inv, newId), now))
    ensures AllConsistent(ServiceModel.Allocate(s, inv, newId, now).0)
  {
    hide Consistent, Answer, Admit, Knows;
    var name := Named(s, inv);
    if name.Some? {
      var l := s.licenses[name.value];
      if inv.id == "" {
        if newId.Some? {
          AdmitConsistent(s, l, inv, newId.value, now);
          AnswerConsistent(s, Admit(s, l, inv, newId.value, now), inv, newId.value, now);
        }
      } else {
        AnswerConsistent(s, l, inv, inv.id, now);
      }
    }
  }

  lemma StepConsistent(s: Service, t: Timed)
    requires AllConsistent(s) && Permitted(s, t)
    ensures AllConsistent(Step(s, t))
  {
    hide Consistent, Clean, Forget;
    match t.event
    case AllocateCall(inv, newId) =>
      AllocateStepConsistent(s, inv, newId, t.now);
    case RefreshCall(inv) =>
      RefreshConsistent(s, inv, t.now);
    case ReleaseCall(id) =>
      forall n | n in s.licenses { ForgetConsistent(s.licenses[n], id); }
    case JanitorTick =>
      forall n | n in s.licenses { CleanConsistent(s, s.licenses[n], t.now); }
    case AdoptionEnds =>
  }

  /** Over every run in which generated ids are new and no queued request is
      adopted, every licence stays consistent: the prioritizer's counters agree
      with the queue and the allocations, and no id occurs twice. */
  lemma {:induction false} RunConsistent(s: Service, ts: seq<Timed>)
    requires AllConsistent(s) && AllPermitted(s, ts)
    ensures AllConsistent(Run(s, ts))
    decreases |ts|
  {
    hide AllConsistent, Step, Permitted;
    if ts != [] {
      StepConsistent(s, ts[0]);
      RunConsistent(Step(s, ts[0]), ts[1..]);
    }
  }

  /** Exactly one kind of Refresh breaks a consistent server: one that adopts an
      invocation whose request is still in the queue. */
  lemma RefreshConsistent(s: Service, inv: Message, now: int)
    requires AllConsistent(s)
    ensures AllConsistent(Refresh(s, inv, now).0)
       <==> !(Adopts(s, inv) && inv.id in Ids(s.licenses[Named(s, inv).value].queue))
  {
    if Named(s, inv).Some? {
      var name := Named(s, inv).value;
      var l, e := s.licenses[name], MakeEntry(inv, inv.id, now);
      if inv.id in l.allocations {
        CheckInAllocatedConsistent(l, inv.id, now);
      } else if Adopts(s, inv) {
        var l' := LicenseModel.Allocate(l, e).0;
        if inv.id in Ids(l.queue) {
          assert inv.id in l'.allocations && l'.queue == l.queue;
          assert !Consistent(l');
          assert Refresh(s, inv, now).0.licenses[name] == l';
        } else {
          AllocateConsistent(l, e);
        }
      }
    }
  }

  // --------------------------------------------------------- no idle licence

  /** After the janitor, no licence is idle while somebody waits for it. */
  lemma JanitorLeavesNoneIdle(s: Service, now: int, n: string)
    requires AllConsistent(s) && s.state == Running && n in s.licenses
    ensures var l := Janitor(s, now).licenses[n]; l.queue == [] || |l.allocations| == l.total
  {
    hide Consistent, ExpireAllocations, ExpireQueued, Promote, Conserves;
    var l := s.licenses[n];
    var m := ExpireAllocations(l, now - s.allocationRefresh);
    ExpireAllocationsConsistent(l, now - s.allocationRefresh);
    ExpireQueuedConsistent(m, now - s.queueRefresh);
    PromoteConserves(ExpireQueued(m, now - s.queueRefresh));
  }
}
