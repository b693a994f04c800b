/** What every call does to every single invocation, without a word about how
    queues and allocations are kept: the life of an invocation is a walk from
    absent through waiting to holding and back. */
module LifeCycles {
  import opened Wrappers
  import opened Integers
  import opened Prioritizers
  import opened QueuePositions
  import opened LicenseModel
  import opened LicenseInvariant
  import opened Promotion
  import opened ServiceModel
  import opened ServiceInvariant

  datatype Status = Absent | Waiting(e: Entry) | Holding(e: Entry)

  function StatusOf(l: License, id: string): Status {
    var i := Find(l.queue, id);
    if id in l.allocations then Holding(l.allocations[id])
    else if i < |l.queue| then Waiting(l.queue[i])
    else Absent
  }

  function StatusAt(s: Service, n: string, id: string): Status
    requires n in s.licenses
  {
    StatusOf(s.licenses[n], id)
  }

  /** Heard of at time `now`. */
  function Heard(before: Status, now: int): Status {
    match before
    case Absent => Absent
    case Waiting(e) => Waiting(e.(lastCheckin := now))
    case Holding(e) => Holding(e.(lastCheckin := now))
  }

  /** As it was, or served. */
  predicate MayBeServed(before: Status, after: Status) {
    after == before || (before.Waiting? && after == Holding(before.e))
  }

  // ------------------------------------------------------- the life cycle

  /** A call without an id, for which `newId` was generated. */
  predicate AfterFirstRequest(state: State, inv: Message, newId: Option<string>, now: int, id: string,
                              before: Status, after: Status)
  {
    var e := Entry(id, inv.owner, inv.buildTag, now);
    if newId == Some(id) then before == Absent && (after == Waiting(e) || (state == Running && after == Holding(e)))
    else if newId.Some? && state == Running then MayBeServed(before, after)
    else after == before
  }

  predicate AfterPoll(state: State, inv: Message, now: int, id: string, before: Status, after: Status) {
    if inv.id != id then after == before
    else if before.Absent? && state == Starting then after == Waiting(Entry(id, inv.owner, inv.buildTag, now))
    else after == Heard(before, now)
  }

  predicate AfterRefresh(state: State, room: bool, inv: Message, now: int, id: string, before: Status, after: Status) {
    if inv.id != id || id == "" then after == before
    else if before.Holding? then after == Heard(before, now)
    else if state == Starting && room then
      before == Absent && after == Holding(Entry(id, inv.owner, inv.buildTag, now))
    else after == before
  }

  predicate AfterSweep(s: Service, now: int, before: Status, after: Status) {
    match before
    case Absent => after == Absent
    case Waiting(e) => if now - e.lastCheckin < s.queueRefresh then MayBeServed(before, after) else after == Absent
    case Holding(e) => after == if now - e.lastCheckin < s.allocationRefresh then before else Absent
  }

  /** What a step does to the status of invocation `id` at licence `n`. */
  predicate Follows(s: Service, t: Timed, n: string, id: string, before: Status, after: Status)
    requires n in s.licenses
  {
    match t.event
    case AllocateCall(inv, newId) =>
      if Named(s, inv) != Some(n) then after == before
      else if inv.id == "" then AfterFirstRequest(s.state, inv, newId, t.now, id, before, after)
      else AfterPoll(s.state, inv, t.now, id, before, after)
    case RefreshCall(inv) =>
      if Named(s, inv) != Some(n) then after == before
      else AfterRefresh(s.state, |s.licenses[n].allocations| < s.licenses[n].total, inv, t.now, id, before, after)
    case ReleaseCall(gone) => after == if gone == id && id != "" then Absent else before
    case JanitorTick => if s.state == Running then AfterSweep(s, t.now, before, after) else after == before
    case AdoptionEnds => after == before
  }

  // ------------------------------------------------------ what a status means

  lemma WaitingMeans(l: License, id: string, e: Entry)
    requires Consistent(l)
    ensures StatusOf(l, id) == Waiting(e) <==> e in l.queue && e.id == id
  {
    var i := Find(l.queue, id);
    if e in l.queue && e.id == id {
      var k :| 0 <= k < |l.queue| && l.queue[k] == e;
      assert i == k;
      assert id in Ids(l.queue);
    }
  }

  lemma StatusNamed(l: License, id: string)
    requires Consistent(l)
    ensures !StatusOf(l, id).Absent? ==> StatusOf(l, id).e.id == id
    ensures StatusOf(l, id).Absent? <==> !Knows(l, id)
  {
    FindIds(l.queue, id);
  }

  /** Equal allocations and equal members of the queue mean equal status. */
  lemma SameStatus(l: License, m: License, id: string)
    requires Consistent(l) && Consistent(m)
    requires id in l.allocations <==> id in m.allocations
    requires id in l.allocations ==> m.allocations[id] == l.allocations[id]
    requires forall e: Entry | e.id == id :: e in l.queue <==> e in m.queue
    ensures StatusOf(m, id) == StatusOf(l, id)
  {
    var i, j := Find(l.queue, id), Find(m.queue, id);
    if i < |l.queue| {
      assert l.queue[i] in m.queue;
      WaitingMeans(l, id, l.queue[i]);
      WaitingMeans(m, id, l.queue[i]);
    }
    if j < |m.queue| {
      assert m.queue[j] in l.queue;
      WaitingMeans(l, id, m.queue[j]);
      WaitingMeans(m, id, m.queue[j]);
    }
  }

  // ------------------------------------------------------------ single actions

  lemma EnqueueStatus(l: License, e: Entry, id: string)
    requires Consistent(l) && |l.queue| < MAX_LEN && !Knows(l, e.id)
    ensures Consistent(Enqueue(l, e))
    ensures StatusOf(Enqueue(l, e), id) == if id == e.id then Waiting(e) else StatusOf(l, id)
  {
    var m := Enqueue(l, e);
    EnqueueConsistent(l, e);
    assert forall x :: x in m.queue <==> x in l.queue || x == e by {
      assert forall x :: x in m.queue <==> x in multiset(m.queue);
    }
    assert m.allocations == l.allocations;
    hide Consistent, Enqueue;
    if id == e.id {
      WaitingMeans(m, id, e);
    } else {
      SameStatus(l, m, id);
    }
  }

  lemma PromoteStatus(l: License, id: string)
    requires Consistent(l)
    ensures Consistent(Promote(l)) && MayBeServed(StatusOf(l, id), StatusOf(Promote(l), id))
  {
    hide Consistent, Promote, Conserves, StatusOf;
    PromoteConserves(l);
    PromoteConsistent(l);
    MovedStatus(l, Served(l, Free(l)), Promote(l), id);
  }

  lemma MovedStatus(l: License, served: seq<Entry>, m: License, id: string)
    requires Consistent(l) && Consistent(m) && Conserves(l, served, m)
    ensures MayBeServed(StatusOf(l, id), StatusOf(m, id))
  {
    hide Consistent;
    QueuedIsServedOrLeft(l.queue, served, m.queue);
    if e: Entry :| e in served && e.id == id {
      assert e in l.queue;
      StatusNamed(l, id);
      WaitingMeans(l, id, e);
      assert m.allocations[id] == e;
    } else {
      assert id !in Ids(served);
      SameStatus(l, m, id);
    }
  }

  lemma QueuedIsServedOrLeft(q: seq<Entry>, served: seq<Entry>, left: seq<Entry>)
    requires multiset(q) == multiset(served) + multiset(left)
    ensures forall e :: e in q <==> e in served || e in left
    ensures forall i | 0 <= i < |served| :: served[i] in q
  {
    assert forall e :: e in q <==> e in multiset(q);
  }

  lemma ExpireAllocationsStatus(l: License, expiry: int, id: string)
    requires Consistent(l)
    ensures var m := ExpireAllocations(l, expiry);
      && Consistent(m)
      && StatusOf(m, id) == match StatusOf(l, id)
                            case Holding(e) => if e.lastCheckin > expiry then Holding(e) else Absent
                            case other => other
  {
    ExpireAllocationsConsistent(l, expiry);
    FindIds(l.queue, id);
  }

  lemma ExpireQueuedStatus(l: License, expiry: int, id: string)
    requires Consistent(l)
    ensures var m := ExpireQueued(l, expiry);
      && Consistent(m)
      && StatusOf(m, id) == match StatusOf(l, id)
                            case Waiting(e) => if e.lastCheckin > expiry then Waiting(e) else Absent
                            case other => other
  {
    var m := ExpireQueued(l, expiry);
    ExpireQueuedConsistent(l, expiry);
    FilterSplits(l.queue, SilentSince(expiry));
    var i, j := Find(l.queue, id), Find(m.queue, id);
    if i < |l.queue| && l.queue[i].lastCheckin > expiry {
      assert l.queue[i] in m.queue;
      WaitingMeans(l, id, l.queue[i]);
      WaitingMeans(m, id, l.queue[i]);
    } else if j < |m.queue| {
      assert m.queue[j] in l.queue;
      WaitingMeans(l, id, m.queue[j]);
      WaitingMeans(m, id, m.queue[j]);
    }
  }

  lemma CleanStatus(s: Service, l: License, now: int, id: string)
    requires Consistent(l)
    ensures Consistent(Clean(s, l, now)) && AfterSweep(s, now, StatusOf(l, id), StatusOf(Clean(s, l, now), id))
  {
    hide Consistent, ExpireAllocations, ExpireQueued, Promote, StatusOf;
    var m := ExpireAllocations(l, now - s.allocationRefresh);
    var q := ExpireQueued(m, now - s.queueRefresh);
    ExpireAllocationsStatus(l, now - s.allocationRefresh, id);
    ExpireQueuedStatus(m, now - s.queueRefresh, id);
    PromoteStatus(q, id);
  }

  lemma ForgetStatus(l: License, gone: string, id: string)
    requires Consistent(l)
    ensures StatusOf(Forget(l, gone).0, id) == if gone == id then Absent else StatusOf(l, id)
  {
    var m := Forget(l, gone).0;
    ForgetConsistent(l, gone);
    FilterSplits(l.queue, WithId(gone));
    if gone == id {
      StatusNamed(m, id);
    } else {
      SameStatus(l, m, id);
    }
  }

  lemma CheckInStatus(l: License, asked: string, now: int, id: string)
    requires Consistent(l)
    ensures asked in l.allocations ==>
      StatusOf(CheckInAllocated(l, asked, now), id)
      == if asked == id then Heard(StatusOf(l, id), now) else StatusOf(l, id)
    ensures asked !in l.allocations && Find(l.queue, asked) < |l.queue| ==>
      StatusOf(CheckInQueued(l, Find(l.queue, asked), now), id)
      == if asked == id then Heard(StatusOf(l, id), now) else StatusOf(l, id)
  {
    var i := Find(l.queue, asked);
    if asked !in l.allocations && i < |l.queue| {
      var m := CheckInQueued(l, i, now);
      CheckInQueuedConsistent(l, i, now);
      if asked == id {
        assert m.queue[i] in m.queue;
        WaitingMeans(m, id, m.queue[i]);
      } else {
        forall e: Entry | e.id == id ensures e in l.queue <==> e in m.queue {
          if e in l.queue {
            var k :| 0 <= k < |l.queue| && l.queue[k] == e;
            assert m.queue[k] == e;
          }
        }
        SameStatus(l, m, id);
      }
    }
  }

  lemma AnswerStatus(s: Service, l: License, inv: Message, asked: string, now: int, id: string)
    requires Consistent(l) && (|l.queue| < MAX_LEN || Knows(l, asked))
    ensures var after := StatusOf(Answer(s, l, inv, asked, now).0, id);
      if asked != id then after == StatusOf(l, id)
      else if StatusOf(l, id).Absent? && s.state == Starting then
        after == Waiting(Entry(id, inv.owner, inv.buildTag, now))
      else after == Heard(StatusOf(l, id), now)
  {
    StatusNamed(l, asked);
    CheckInStatus(l, asked, now, id);
    if !Knows(l, asked) {
      EnqueueStatus(l, MakeEntry(inv, asked, now), id);
    }
  }

  lemma AdmitStatus(s: Service, l: License, inv: Message, newId: string, now: int, id: string)
    requires Consistent(l) && |l.queue| < MAX_LEN && !Knows(l, newId)
    ensures var m := Admit(s, l, inv, newId, now);
      && Consistent(m)
      && AfterFirstRequest(s.state, inv, Some(newId), now, id, StatusOf(l, id), StatusOf(m, id))
  {
    hide Consistent, Enqueue, Promote, StatusOf;
    StatusNamed(l, newId);
    EnqueueStatus(l, MakeEntry(inv, newId, now), id);
    PromoteStatus(Enqueue(l, MakeEntry(inv, newId, now)), id);
  }

  // ----------------------------------------------------------------- the steps

  lemma AllocateStatus(s: Service, inv: Message, newId: Option<string>, now: int, n: string, id: string)
    requires AllConsistent(s) && Permitted(s, Timed(AllocateCall(inv, newId), now)) && n in s.licenses
    ensures n in ServiceModel.Allocate(s, inv, newId, now).0.licenses
    ensures Follows(s, Timed(AllocateCall(inv, newId), now), n, id, StatusAt(s, n, id),
                    StatusAt(ServiceModel.Allocate(s, inv, newId, now).0, n, id))
  {
    hide Consistent, Answer, Admit, StatusOf, Knows;
    if Named(s, inv) == Some(n) {
      var l := s.licenses[n];
      if inv.id != "" {
        AnswerStatus(s, l, inv, inv.id, now, id);
      } else if newId.Some? {
        AdmitStatus(s, l, inv, newId.value, now, id);
        AdmitConsistent(s, l, inv, newId.value, now);
        AnswerStatus(s, Admit(s, l, inv, newId.value, now), inv, newId.value, now, id);
      }
    }
  }

  lemma RefreshStatus(s: Service, inv: Message, now: int, n: string, id: string)
    requires AllConsistent(s) && Permitted(s, Timed(RefreshCall(inv), now)) && n in s.licenses
    ensures n in Refresh(s, inv, now).0.licenses
    ensures Follows(s, Timed(RefreshCall(inv), now), n, id, StatusAt(s, n, id), StatusAt(Refresh(s, inv, now).0, n, id))
  {
    if Named(s, inv) == Some(n) {
      var l := s.licenses[n];
      CheckInStatus(l, inv.id, now, id);
      FindIds(l.queue, id);
    }
  }

  /** The life cycle: every step of a consistent server takes every invocation at
      every licence along it, and nowhere else. */
  lemma LifeCycle(s: Service, t: Timed, n: string, id: string)
    requires AllConsistent(s) && Permitted(s, t) && n in s.licenses
    ensures n in Step(s, t).licenses && Follows(s, t, n, id, StatusAt(s, n, id), StatusAt(Step(s, t), n, id))
  {
    hide Consistent, Clean, Forget, StatusOf, ServiceModel.Allocate, Refresh;
    match t.event
    case AllocateCall(inv, newId) => AllocateStatus(s, inv, newId, t.now, n, id);
    case RefreshCall(inv) => RefreshStatus(s, inv, t.now, n, id);
    case ReleaseCall(gone) => ForgetStatus(s.licenses[n], gone, id);
    case JanitorTick => CleanStatus(s, s.licenses[n], t.now, id);
    case AdoptionEnds =>
  }
}
