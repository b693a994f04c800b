/** First come, first served, over whole runs of a FIFO licence; and what holds of
    a licence whenever the server has just promoted. */
module FirstCome {
  import opened Wrappers
  import opened Integers
  import opened Prioritizers
  import opened QueuePositions
  import opened LicenseModel
  import opened LicenseInvariant
  import opened Promotion
  import opened ServiceModel
  import opened ServiceInvariant
  import opened ServiceRuns
  import opened LifeCycles

  /** `a` waits, and `b` neither has a licence nor waits in front of `a`. */
  predicate Behind(l: License, a: string, b: string) {
    b !in l.allocations && Find(l.queue, a) < |l.queue| && Find(l.queue, a) < Find(l.queue, b)
  }

  // ----------------------------------------------------------- places in a queue

  lemma {:induction false} FindIs(q: seq<Entry>, id: string, i: nat)
    requires i <= |q| && (i < |q| ==> q[i].id == id) && forall j | 0 <= j < i :: q[j].id != id
    ensures Find(q, id) == i
  {
    var f := Find(q, id);
    assert f < |q| ==> q[f].id == id;
  }

  lemma FindInTail(q: seq<Entry>, k: nat, id: string)
    requires k <= Find(q, id)
    ensures Find(q[k..], id) == Find(q, id) - k
  {
    FindIs(q[k..], id, Find(q, id) - k);
  }

  lemma FindInFront(q: seq<Entry>, e: Entry, id: string)
    ensures Find(q + [e], id) == if Find(q, id) < |q| then Find(q, id) else if e.id == id then |q| else |q| + 1
  {
    FindIs(q + [e], id, if Find(q, id) < |q| then Find(q, id) else if e.id == id then |q| else |q| + 1);
  }

  lemma FindAfterCheckIn(q: seq<Entry>, i: nat, now: int, id: string)
    requires i < |q|
    ensures Find(q[i := q[i].(lastCheckin := now)], id) == Find(q, id)
  {
    FindIs(q[i := q[i].(lastCheckin := now)], id, Find(q, id));
  }

  /** A filter keeps the order of what it keeps. */
  lemma {:induction false} KeptOrder(q: seq<Entry>, d: Drop, a: string, b: string)
    requires DistinctIds(q) && Find(q, a) < Find(q, b) && Find(Kept(q, d), a) < |Kept(q, d)|
    ensures Find(Kept(q, d), a) < Find(Kept(q, d), b)
  {
    var front, e := q[..|q| - 1], q[|q| - 1];
    assert q == front + [e];
    FindInFront(front, e, a);
    FindInFront(front, e, b);
    if !Drops(d, e) {
      FindInFront(Kept(front, d), e, a);
      FindInFront(Kept(front, d), e, b);
    }
    KeptDistinct(front, d);
    FindIds(front, a);
    FindIds(Kept(front, d), a);
    FindIds(front, b);
    FindIds(Kept(front, d), b);
    if Find(front, a) < |front| && Find(Kept(front, d), a) < |Kept(front, d)| {
      KeptOrder(front, d, a, b);
    }
  }

  // ------------------------------------------------------------ single actions

  lemma NotServed(q: seq<Entry>, k: nat, id: string)
    requires DistinctIds(q) && k <= |q| && Find(q[k..], id) < |q| - k
    ensures k <= Find(q, id) < |q|
  {
    assert q[k + Find(q[k..], id)].id == id;
  }

  lemma PromoteBehind(l: License, a: string, b: string)
    requires Consistent(l) && l.prioritizer.FIFO? && Behind(l, a, b)
    requires Find(Promote(l).queue, a) < |Promote(l).queue|
    ensures Behind(Promote(l), a, b)
  {
    var m, k := Promote(l), |Served(l, Free(l))|;
    PromoteFIFO(l);
    PromoteStatus(l, b);
    hide Promote, Served;
    NotServed(l.queue, k, a);
    FindInTail(l.queue, k, a);
    FindInTail(l.queue, k, b);
    if Find(l.queue, b) < |l.queue| {
      FindIds(m.queue, b);
    }
  }

  lemma EnqueueBehind(l: License, e: Entry, a: string, b: string)
    requires Consistent(l) && l.prioritizer.FIFO? && Behind(l, a, b)
    ensures Behind(Enqueue(l, e), a, b)
  {
    FindInFront(l.queue, e, a);
    FindInFront(l.queue, e, b);
  }

  lemma ExpireBehind(l: License, allocationExpiry: int, queueExpiry: int, a: string, b: string)
    requires Consistent(l) && Behind(l, a, b)
    ensures var m := ExpireQueued(ExpireAllocations(l, allocationExpiry), queueExpiry);
      Find(m.queue, a) < |m.queue| ==> Behind(m, a, b)
  {
    if Find(Kept(l.queue, SilentSince(queueExpiry)), a) < |Kept(l.queue, SilentSince(queueExpiry))| {
      KeptOrder(l.queue, SilentSince(queueExpiry), a, b);
    }
  }

  lemma CleanBehind(s: Service, l: License, now: int, a: string, b: string)
    requires Consistent(l) && l.prioritizer.FIFO? && Behind(l, a, b)
    requires Find(Clean(s, l, now).queue, a) < |Clean(s, l, now).queue|
    ensures Behind(Clean(s, l, now), a, b)
  {
    hide Consistent, Behind, ExpireAllocations, ExpireQueued, Promote;
    var m := ExpireAllocations(l, now - s.allocationRefresh);
    ExpireAllocationsConsistent(l, now - s.allocationRefresh);
    ExpireQueuedConsistent(m, now - s.queueRefresh);
    ExpireBehind(l, now - s.allocationRefresh, now - s.queueRefresh, a, b);
    ExpireKeepsFIFO(l, now - s.allocationRefresh, now - s.queueRefresh);
    PromoteQueueFrom(ExpireQueued(m, now - s.queueRefresh), a);
    PromoteBehind(ExpireQueued(m, now - s.queueRefresh), a, b);
  }

  lemma ExpireKeepsFIFO(l: License, allocationExpiry: int, queueExpiry: int)
    requires l.prioritizer.FIFO?
    ensures ExpireQueued(ExpireAllocations(l, allocationExpiry), queueExpiry).prioritizer.FIFO?
  {
  }

  lemma PromoteQueueFrom(l: License, id: string)
    requires Consistent(l) && l.prioritizer.FIFO? && Find(Promote(l).queue, id) < |Promote(l).queue|
    ensures Find(l.queue, id) < |l.queue|
  {
    PromoteFIFO(l);
    hide Promote, Served;
    var k, j := |Served(l, Free(l))|, Find(Promote(l).queue, id);
    assert l.queue[k + j].id == id;
  }

  lemma ForgetBehind(l: License, gone: string, a: string, b: string)
    requires Consistent(l) && Behind(l, a, b)
    requires Find(Forget(l, gone).0.queue, a) < |Forget(l, gone).0.queue|
    ensures Behind(Forget(l, gone).0, a, b)
  {
    KeptOrder(l.queue, WithId(gone), a, b);
  }

  lemma AnswerBehind(s: Service, l: License, inv: Message, asked: string, now: int, a: string, b: string)
    requires Consistent(l) && Behind(l, a, b) && s.state == Running
    ensures Behind(Answer(s, l, inv, asked, now).0, a, b)
  {
    var i := Find(l.queue, asked);
    if asked !in l.allocations && i < |l.queue| {
      FindAfterCheckIn(l.queue, i, now, a);
      FindAfterCheckIn(l.queue, i, now, b);
    }
  }

  // ----------------------------------------------------------------- runs

  predicate BehindAt(s: Service, n: string, a: string, b: string) {
    n in s.licenses && s.licenses[n].prioritizer.FIFO? && Behind(s.licenses[n], a, b)
  }

  /** `a` waits for licence `n` before every step and after the last. */
  predicate WaitsThroughout(s: Service, ts: seq<Timed>, n: string, a: string)
    decreases |ts|
  {
    && n in s.licenses && StatusAt(s, n, a).Waiting?
    && (ts != [] ==> WaitsThroughout(Step(s, ts[0]), ts[1..], n, a))
  }

  lemma AdmitBehind(s: Service, l: License, inv: Message, newId: string, now: int, a: string, b: string)
    requires Consistent(l) && l.prioritizer.FIFO? && |l.queue| < MAX_LEN && !Knows(l, newId) && s.state == Running
    requires Behind(l, a, b) && StatusOf(Admit(s, l, inv, newId, now), a).Waiting?
    ensures Behind(Admit(s, l, inv, newId, now), a, b)
  {
    var e := MakeEntry(inv, newId, now);
    EnqueueConsistent(l, e);
    EnqueueBehind(l, e, a, b);
    hide Consistent, Behind, Promote;
    PromoteBehind(Enqueue(l, e), a, b);
  }

  lemma AllocateBehind(s: Service, inv: Message, newId: Option<string>, now: int, n: string, a: string, b: string)
    requires AllConsistent(s) && Permitted(s, Timed(AllocateCall(inv, newId), now)) && s.state == Running
    requires BehindAt(s, n, a, b)
    requires var s' := ServiceModel.Allocate(s, inv, newId, now).0; n in s'.licenses && StatusAt(s', n, a).Waiting?
    ensures BehindAt(ServiceModel.Allocate(s, inv, newId, now).0, n, a, b)
  {
    hide Consistent, Behind, Knows, Answer, Admit, StatusOf;
    if Named(s, inv) == Some(n) {
      var l := s.licenses[n];
      if inv.id != "" {
        AnswerBehind(s, l, inv, inv.id, now, a, b);
        AnswerKind(s, l, inv, inv.id, now);
      } else if newId.Some? {
        var m := Admit(s, l, inv, newId.value, now);
        AdmitConsistent(s, l, inv, newId.value, now);
        BehindKnown(l, a, b);
        AnswerStatus(s, m, inv, newId.value, now, a);
        AdmitBehind(s, l, inv, newId.value, now, a, b);
        AnswerBehind(s, m, inv, newId.value, now, a, b);
        AdmitKind(s, l, inv, newId.value, now);
        AnswerKind(s, m, inv, newId.value, now);
      }
    }
  }

  lemma BehindKnown(l: License, a: string, b: string)
    requires Behind(l, a, b)
    ensures Knows(l, a)
  {
    FindIds(l.queue, a);
  }

  lemma StepBehind(s: Service, t: Timed, n: string, a: string, b: string)
    requires AllConsistent(s) && Permitted(s, t) && s.state == Running && BehindAt(s, n, a, b)
    requires n in Step(s, t).licenses && StatusAt(Step(s, t), n, a).Waiting?
    ensures BehindAt(Step(s, t), n, a, b) && Step(s, t).state == Running
  {
    hide Consistent, Behind, Forget, Clean, ServiceModel.Allocate;
    match t.event
    case AllocateCall(inv, newId) =>
      AllocateBehind(s, inv, newId, t.now, n, a, b);
      AllocateKeepsState(s, inv, newId, t.now);
    case RefreshCall(inv) => RefreshBehind(s, inv, t.now, n, a, b);
    case ReleaseCall(id) =>
      if id != "" {
        ForgetBehind(s.licenses[n], id, a, b);
        ForgetKind(s.licenses[n], id);
      }
    case JanitorTick =>
      CleanBehind(s, s.licenses[n], t.now, a, b);
      CleanKind(s, s.licenses[n], t.now);
    case AdoptionEnds =>
  }

  lemma RefreshBehind(s: Service, inv: Message, now: int, n: string, a: string, b: string)
    requires s.state == Running && BehindAt(s, n, a, b)
    ensures BehindAt(Refresh(s, inv, now).0, n, a, b) && Refresh(s, inv, now).0.state == Running
  {
  }

  lemma AllocateKeepsState(s: Service, inv: Message, newId: Option<string>, now: int)
    ensures ServiceModel.Allocate(s, inv, newId, now).0.state == s.state
  {
    hide Answer, Admit;
  }

  /** While `a` waits for a FIFO licence, nobody is served who was neither served
      nor in front of `a` before, whatever everybody does. */
  lemma {:induction false} FirstComeFirstServed(s: Service, ts: seq<Timed>, n: string, a: string, b: string)
    requires AllConsistent(s) && AllPermitted(s, ts) && s.state == Running && BehindAt(s, n, a, b)
    requires WaitsThroughout(s, ts, n, a)
    ensures BehindAt(Run(s, ts), n, a, b)
    decreases |ts|
  {
    hide AllConsistent, Step, Permitted, BehindAt, StatusAt;
    if ts != [] {
      StepConsistent(s, ts[0]);
      assert WaitsThroughout(Step(s, ts[0]), ts[1..], n, a);
      StepBehind(s, ts[0], n, a, b);
      FirstComeFirstServed(Step(s, ts[0]), ts[1..], n, a, b);
    }
  }

  // ----------------------------------------------------- no idle licence, again

  /** A running server leaves no licence idle when a first request arrives, any
      more than its janitor does. */
  lemma RequestLeavesNoneIdle(s: Service, inv: Message, newId: string, now: int, n: string)
    requires AllConsistent(s) && Permitted(s, Timed(AllocateCall(inv, Some(newId)), now)) && s.state == Running
    requires Named(s, inv) == Some(n) && inv.id == ""
    ensures n in ServiceModel.Allocate(s, inv, Some(newId), now).0.licenses
    ensures var l := ServiceModel.Allocate(s, inv, Some(newId), now).0.licenses[n];
      l.queue == [] || |l.allocations| == l.total
  {
    var e := MakeEntry(inv, newId, now);
    var l := s.licenses[n];
    EnqueueConsistent(l, e);
    hide Consistent, Enqueue, Promote, Conserves;
    PromoteConserves(Enqueue(l, e));
    assert Admit(s, l, inv, newId, now) == Promote(Enqueue(l, e));
    AnswerSizes(s, Promote(Enqueue(l, e)), inv, newId, now);
  }

  lemma AnswerSizes(s: Service, l: License, inv: Message, id: string, now: int)
    requires s.state == Running
    ensures var m := Answer(s, l, inv, id, now).0;
      |m.queue| == |l.queue| && |m.allocations| == |l.allocations| && m.total == l.total
  {
    if id in l.allocations {
      assert CheckInAllocated(l, id, now).allocations.Keys == l.allocations.Keys;
      assert |CheckInAllocated(l, id, now).allocations| == |l.allocations.Keys|;
    }
  }
}
