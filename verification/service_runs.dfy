/** Fairness and keepalive over whole runs of the flextape server. */
module ServiceRuns {
  import opened Wrappers
  import opened Integers
  import opened Prioritizers
  import opened QueuePositions
  import opened LicenseModel
  import opened LicenseInvariant
  import opened EvenOwnersFairness
  import opened Withdrawal
  import opened ServiceModel
  import opened ServiceInvariant

  // --------------------------------------------------------------- fairness

  ghost predicate AllOrdered(s: Service) {
    forall n | n in s.licenses && s.licenses[n].prioritizer.EvenOwners? :: Ordered(s.licenses[n])
  }

  ghost predicate AllOldestFirst(s: Service, d: Drop) {
    forall n | n in s.licenses && s.licenses[n].prioritizer.EvenOwners? :: OldestFirst(s.licenses[n].queue, d)
  }

  /** No call takes a request out of a queue before an older one of its owner. */
  ghost predicate Patient(s: Service, t: Timed) {
    match t.event
    case ReleaseCall(id) => AllOldestFirst(s, WithId(id))
    case JanitorTick => AllOldestFirst(s, SilentSince(t.now - s.queueRefresh))
    case AllocateCall(_, _) => true
    case RefreshCall(_) => true
    case AdoptionEnds => true
  }

  ghost predicate AllPatient(s: Service, ts: seq<Timed>)
    decreases |ts|
  {
    ts == [] || (Patient(s, ts[0]) && AllPatient(Step(s, ts[0]), ts[1..]))
  }

  lemma CheckInOrdered(l: License, i: nat, now: int)
    requires Ordered(l) && i < |l.queue|
    ensures Ordered(CheckInQueued(l, i, now))
  {
    var c, q, r := l.prioritizer.counters, l.queue, CheckInQueued(l, i, now).queue;
    forall j | 0 <= j < |r| ensures InPlace(c, r, j) {
      assert InPlace(c, q, j);
      if i < j {
        assert r[..j] == q[..j][i := r[i]];
        CheckInOwnerCount(q[..j], i, r[i], r[j].owner);
      } else {
        assert r[..j] == q[..j];
      }
    }
  }

  lemma PromoteOrdered(l: License)
    requires Consistent(l) && Ordered(l)
    ensures Ordered(Promote(l))
  {
    PromoteUpToOrdered(l, Free(l));
  }

  lemma AdmitOrdered(s: Service, l: License, inv: Message, id: string, now: int)
    requires Consistent(l) && Ordered(l) && |l.queue| < MAX_LEN && !Knows(l, id)
    ensures Ordered(Admit(s, l, inv, id, now))
  {
    hide Ordered, Consistent, Enqueue, Promote;
    var e := MakeEntry(inv, id, now);
    EnqueueConsistent(l, e);
    EnqueueOrdered(l, e);
    PromoteOrdered(Enqueue(l, e));
  }

  lemma AnswerOrdered(s: Service, l: License, inv: Message, id: string, now: int)
    requires Consistent(l) && Ordered(l) && (|l.queue| < MAX_LEN || Knows(l, id))
    ensures Ordered(Answer(s, l, inv, id, now).0)
  {
    FindIds(l.queue, id);
    if id !in l.allocations && Find(l.queue, id) < |l.queue| {
      CheckInOrdered(l, Find(l.queue, id), now);
    } else if id !in l.allocations && s.state == Starting {
      EnqueueOrdered(l, MakeEntry(inv, id, now));
    }
  }

  lemma CleanOrdered(s: Service, l: License, now: int)
    requires Consistent(l) && Ordered(l) && OldestFirst(l.queue, SilentSince(now - s.queueRefresh))
    ensures Ordered(Clean(s, l, now))
  {
    hide Ordered, Consistent, ExpireAllocations, ExpireQueued, Promote, OldestFirst;
    ExpireQueue(l, now - s.allocationRefresh);
    var m := ExpireAllocations(l, now - s.allocationRefresh);
    ExpireAllocationsConsistent(l, now - s.allocationRefresh);
    ExpireAllocationsOrder(l, now - s.allocationRefresh);
    ExpireQueuedConsistent(m, now - s.queueRefresh);
    ExpireQueuedOrder(m, now - s.queueRefresh);
    PromoteOrdered(ExpireQueued(m, now - s.queueRefresh));
  }

  lemma {:induction false} PromoteUpToKind(l: License, n: nat)
    ensures PromoteUpTo(l, n).prioritizer.EvenOwners? == l.prioritizer.EvenOwners?
    decreases n
  {
    hide SortQueue;
    if n != 0 && l.queue != [] {
      PromoteUpToKind(PromoteOne(l), n - 1);
    }
  }

  // A licence never changes its kind of prioritizer.

  lemma AdmitKind(s: Service, l: License, inv: Message, id: string, now: int)
    ensures Admit(s, l, inv, id, now).prioritizer.EvenOwners? == l.prioritizer.EvenOwners?
  {
    hide PromoteUpTo;
    var m := Enqueue(l, MakeEntry(inv, id, now));
    PromoteUpToKind(m, Free(m));
  }

  lemma AnswerKind(s: Service, l: License, inv: Message, id: string, now: int)
    ensures Answer(s, l, inv, id, now).0.prioritizer.EvenOwners? == l.prioritizer.EvenOwners?
  {
  }

  lemma ExpireKind(l: License, expiry: int)
    ensures ExpireAllocations(l, expiry).prioritizer.EvenOwners? == l.prioritizer.EvenOwners?
    ensures ExpireQueued(l, expiry).prioritizer.EvenOwners? == l.prioritizer.EvenOwners?
  {
  }

  lemma CleanKind(s: Service, l: License, now: int)
    ensures Clean(s, l, now).prioritizer.EvenOwners? == l.prioritizer.EvenOwners?
  {
    hide PromoteUpTo, ExpireAllocations, ExpireQueued;
    var m := ExpireAllocations(l, now - s.allocationRefresh);
    ExpireKind(l, now - s.allocationRefresh);
    ExpireKind(m, now - s.queueRefresh);
    var q := ExpireQueued(m, now - s.queueRefresh);
    PromoteUpToKind(q, Free(q));
  }

  lemma ForgetKind(l: License, id: string)
    ensures Forget(l, id).0.prioritizer.EvenOwners? == l.prioritizer.EvenOwners?
  {
  }

  lemma AllocateStepOrdered(s: Service, inv: Message, newId: Option<string>, now: int)
    requires AllConsistent(s) && AllOrdered(s) && Permitted(s, Timed(AllocateCall(inv, newId), now))
    ensures AllOrdered(ServiceModel.Allocate(s, inv, newId, now).0)
  {
    hide Consistent, Answer, Admit, Knows, Ordered;
    var name := Named(s, inv);
    if name.Some? {
      var l := s.licenses[name.value];
      if inv.id == "" {
        if newId.Some? {
          var id := newId.value;
          var m := Admit(s, l, inv, id, now);
          AdmitConsistent(s, l, inv, id, now);
          AdmitKind(s, l, inv, id, now);
          AnswerKind(s, m, inv, id, now);
          if l.prioritizer.EvenOwners? {
            AdmitOrdered(s, l, inv, id, now);
            AnswerOrdered(s, m, inv, id, now);
          }
        }
      } else {
        AnswerKind(s, l, inv, inv.id, now);
        if l.prioritizer.EvenOwners? {
          AnswerOrdered(s, l, inv, inv.id, now);
        }
      }
    }
  }

  lemma RefreshStepOrdered(s: Service, inv: Message, now: int)
    requires AllOrdered(s)
    ensures AllOrdered(Refresh(s, inv, now).0)
  {
    if Named(s, inv).Some? {
      var l := s.licenses[Named(s, inv).value];
      if l.prioritizer.EvenOwners? {
        AllocateOrder(l, MakeEntry(inv, inv.id, now));
      }
    }
  }

  /** A withdrawal keeps every even-owners queue in order exactly when it takes
      no request from behind an older one of the same owner. */
  lemma ReleaseStepOrdered(s: Service, id: string)
    requires AllConsistent(s) && AllOrdered(s) && id != ""
    ensures AllOrdered(Release(s, id).0) <==> AllOldestFirst(s, WithId(id))
  {
    hide Consistent, Ordered, OldestFirst, Forget;
    var s' := Release(s, id).0;
    forall n | n in s.licenses
      ensures s'.licenses[n].prioritizer.EvenOwners? == s.licenses[n].prioritizer.EvenOwners?
      ensures s.licenses[n].prioritizer.EvenOwners?
          ==> (Ordered(s'.licenses[n]) <==> OldestFirst(s.licenses[n].queue, WithId(id)))
    {
      ForgetKind(s.licenses[n], id);
      if s.licenses[n].prioritizer.EvenOwners? {
        ForgetOrder(s.licenses[n], id);
      }
    }
  }

  lemma JanitorStepOrdered(s: Service, now: int)
    requires AllConsistent(s) && AllOrdered(s) && AllOldestFirst(s, SilentSince(now - s.queueRefresh))
    ensures AllOrdered(Janitor(s, now))
  {
    hide Consistent, Ordered, OldestFirst, Clean;
    var s' := Janitor(s, now);
    if s.state == Running {
      forall n | n in s.licenses && s'.licenses[n].prioritizer.EvenOwners? ensures Ordered(s'.licenses[n]) {
        CleanKind(s, s.licenses[n], now);
        CleanOrdered(s, s.licenses[n], now);
      }
    }
  }

  lemma StepOrdered(s: Service, t: Timed)
    requires AllConsistent(s) && AllOrdered(s) && Permitted(s, t) && Patient(s, t)
    ensures AllOrdered(Step(s, t))
  {
    hide AllConsistent, AllOrdered, AllOldestFirst, ServiceModel.Allocate, Refresh, Janitor;
    match t.event
    case AllocateCall(inv, newId) => AllocateStepOrdered(s, inv, newId, t.now);
    case RefreshCall(inv) => RefreshStepOrdered(s, inv, t.now);
    case ReleaseCall(id) => if id != "" { ReleaseStepOrdered(s, id); }
    case JanitorTick => JanitorStepOrdered(s, t.now);
    case AdoptionEnds => StateKeepsOrder(s);
  }

  lemma StateKeepsOrder(s: Service)
    requires AllOrdered(s)
    ensures AllOrdered(s.(state := Running))
  {
  }

  lemma {:induction false} RunOrdered(s: Service, ts: seq<Timed>)
    requires AllConsistent(s) && AllOrdered(s) && AllPermitted(s, ts) && AllPatient(s, ts)
    ensures AllConsistent(Run(s, ts)) && AllOrdered(Run(s, ts))
    decreases |ts|
  {
    hide AllConsistent, AllOrdered, Step, Permitted, Patient;
    if ts != [] {
      StepConsistent(s, ts[0]);
      StepOrdered(s, ts[0]);
      RunOrdered(Step(s, ts[0]), ts[1..]);
    }
  }

  /** Fairness over runs: whatever came before, when the janitor hands out
      licences, an owner that gains one is at most one licence ahead of every
      owner it leaves waiting. */
  lemma RunFair(s: Service, ts: seq<Timed>, now: int, n: string, winner: string, loser: string)
    requires AllConsistent(s) && AllOrdered(s) && AllPermitted(s, ts) && AllPatient(s, ts)
    requires var r := Run(s, ts);
      && r.state == Running && n in r.licenses && r.licenses[n].prioritizer.EvenOwners?
      && OldestFirst(r.licenses[n].queue, SilentSince(now - r.queueRefresh))
    ensures var r := Run(s, ts);
      var l := ExpireQueued(ExpireAllocations(r.licenses[n], now - r.allocationRefresh), now - r.queueRefresh);
      var l' := Janitor(r, now).licenses[n];
      (Holding(l', winner) > Holding(l, winner) && Waiting(l', loser) > 0
       ==> Holding(l', winner) <= Holding(l', loser) + 1)
  {
    hide ExpireAllocations, ExpireQueued, Promote, Consistent, Ordered, Run, AllPermitted, AllPatient, OldestFirst;
    RunOrdered(s, ts);
    var r := Run(s, ts);
    var l0 := r.licenses[n];
    var l1 := ExpireAllocations(l0, now - r.allocationRefresh);
    ExpireAllocationsConsistent(l0, now - r.allocationRefresh);
    ExpireAllocationsOrder(l0, now - r.allocationRefresh);
    ExpireQueue(l0, now - r.allocationRefresh);
    ExpireQueuedConsistent(l1, now - r.queueRefresh);
    ExpireQueuedOrder(l1, now - r.queueRefresh);
    PromoteFair(ExpireQueued(l1, now - r.queueRefresh), winner, loser);
  }

  lemma CheckInsKeepCounts(l: License, id: string, i: nat, now: int, o: string)
    ensures id in l.allocations ==> Holding(CheckInAllocated(l, id, now), o) == Holding(l, o)
    ensures i < |l.queue| ==> Waiting(CheckInQueued(l, i, now), o) == Waiting(l, o)
  {
    if id in l.allocations {
      assert Holders(CheckInAllocated(l, id, now).allocations, o) == Holders(l.allocations, o);
    }
    if i < |l.queue| {
      CheckInOwnerCount(l.queue, i, l.queue[i].(lastCheckin := now), o);
    }
  }

  /** On a running server, answering moves nothing between queue and licences. */
  lemma AnswerKeepsCounts(s: Service, l: License, inv: Message, id: string, now: int, o: string)
    requires s.state == Running
    ensures var l' := Answer(s, l, inv, id, now).0;
      Holding(l', o) == Holding(l, o) && Waiting(l', o) == Waiting(l, o)
  {
    hide Holding, Waiting, CheckInAllocated, CheckInQueued;
    CheckInsKeepCounts(l, id, Find(l.queue, id), now, o);
    CheckInsKeepTheRest(l, id, Find(l.queue, id), now, o);
  }

  lemma CheckInsKeepTheRest(l: License, id: string, i: nat, now: int, o: string)
    ensures id in l.allocations ==> Waiting(CheckInAllocated(l, id, now), o) == Waiting(l, o)
    ensures i < |l.queue| ==> Holding(CheckInQueued(l, i, now), o) == Holding(l, o)
  {
  }

  lemma AdmitFair(s: Service, l: License, inv: Message, id: string, now: int, winner: string, loser: string)
    requires Consistent(l) && Ordered(l) && |l.queue| < MAX_LEN && !Knows(l, id)
    ensures var l' := Admit(s, l, inv, id, now);
      Holding(l', winner) > Holding(l, winner) && Waiting(l', loser) > 0
      ==> Holding(l', winner) <= Holding(l', loser) + 1
  {
    hide Ordered, Consistent, Enqueue, Promote, Holding, Waiting;
    var e := MakeEntry(inv, id, now);
    EnqueueConsistent(l, e);
    EnqueueOrdered(l, e);
    EnqueueGrantsNothing(l, e, winner);
    PromoteFair(Enqueue(l, e), winner, loser);
  }

  lemma EnqueueGrantsNothing(l: License, e: Entry, o: string)
    ensures Holding(Enqueue(l, e), o) == Holding(l, o)
  {
  }

  /** The same when a request arrives: a running server promotes at once, and no
      owner that thereby gains a licence gets two ahead of one left waiting. */
  lemma RunFairOnRequest(s: Service, ts: seq<Timed>, inv: Message, newId: Option<string>, now: int, n: string,
                         winner: string, loser: string)
    requires AllConsistent(s) && AllOrdered(s) && AllPermitted(s, ts) && AllPatient(s, ts)
    requires var r := Run(s, ts);
      && r.state == Running && n in r.licenses && r.licenses[n].prioritizer.EvenOwners?
      && Permitted(r, Timed(AllocateCall(inv, newId), now))
    ensures var l := Run(s, ts).licenses[n];
      var l' := ServiceModel.Allocate(Run(s, ts), inv, newId, now).0.licenses[n];
      (Holding(l', winner) > Holding(l, winner) && Waiting(l', loser) > 0
       ==> Holding(l', winner) <= Holding(l', loser) + 1)
  {
    hide Consistent, Ordered, Run, AllPermitted, AllPatient, Answer, Admit, Knows, Holding, Waiting;
    RunOrdered(s, ts);
    var r := Run(s, ts);
    var l := r.licenses[n];
    if Named(r, inv) == Some(n) {
      var id := if inv.id == "" then (match newId case None => "" case Some(x) => x) else inv.id;
      var m := if inv.id == "" then Admit(r, l, inv, id, now) else l;
      AnswerKeepsCounts(r, m, inv, id, now, winner);
      AnswerKeepsCounts(r, m, inv, id, now, loser);
      if inv.id == "" && newId.Some? {
        AdmitFair(r, l, inv, id, now, winner, loser);
      }
    }
  }

  lemma ExpireQueue(l: License, expiry: int)
    ensures ExpireAllocations(l, expiry).queue == l.queue
  {
  }
}
