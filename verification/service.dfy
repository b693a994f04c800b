/** The flextape server: licences by name, and the calls that its mutex
    serializes. Each call does to the licences what ServiceModel says. */
module FlextapeService {
  import opened Wrappers
  import opened Integers
  import opened Prioritizers
  import opened QueuePositions
  import opened InvocationQueues
  import opened Licenses
  import opened ServiceModel
  import opened LicenseInvariant
  import opened LicenseModel

  /** Two licences that share no object. */
  ghost predicate Apart(l: ManagedLicense, m: ManagedLicense)
    reads l, m
  {
    l != m && l.queue != m.queue && l.prioritizer != m.prioritizer && l.known !! m.known
  }

  /** At most one more request was counted, and the queue is still short if it
      did not reach 2^32 entries. */
  twostate predicate CountedOne(q: InvocationQueue)
    reads q
  {
    && q.requests <= old(q.requests) + 1
    && (old(q.short) && |old(q.items)| + 1 < U32_SIZE ==> q.short)
  }

  /** No request was counted. */
  twostate predicate CountedNone(q: InvocationQueue)
    reads q
  {
    q.requests == old(q.requests) && q.short == old(q.short)
  }

  class Server {
    var state: State
    const licenses: map<string, ManagedLicense>
    const queueRefresh: int
    const allocationRefresh: int
    /** The licences as values. */
    ghost var view: map<string, LicenseModel.License>
    /** All objects the server is made of. */
    ghost var repr: set<object>

    /** Licence `n` is made of these objects and is what the view says. */
    ghost predicate Sound(n: string, view: map<string, LicenseModel.License>, all: set<object>)
      reads all
    {
      && n in licenses && n in view
      && licenses[n] in all && licenses[n].queue in all
      && licenses[n].Footprint() <= all && licenses[n].queue.Members() <= licenses[n].known
      && licenses[n].Valid()
      && view[n] == licenses[n].Abs()
    }

    ghost predicate Separate(n: string, m: string)
      requires n in licenses && m in licenses
      reads licenses[n], licenses[m]
    {
      n != m ==> Apart(licenses[n], licenses[m])
    }

    ghost predicate ValidWith(view: map<string, LicenseModel.License>, all: set<object>)
      reads all, licenses.Values
    {
      && this !in all
      && view.Keys == licenses.Keys
      && (forall n | n in licenses :: Sound(n, view, all))
      && (forall n, m | n in licenses && m in licenses :: Separate(n, m))
    }

    /** Licences share nothing, and each is what the view says. */
    ghost predicate Valid()
      reads this, repr, licenses.Values
    {
      ValidWith(view, repr)
    }

    /** Licence `n` is what the view says and shares nothing with another one. */
    ghost predicate Sole(n: string)
      reads this, repr, licenses.Values
    {
      && this !in repr && n in licenses && Sound(n, view, repr)
      && forall j | j in licenses :: Separate(n, j)
    }

    lemma OneOfMany(n: string)
      requires Valid() && n in licenses
      ensures Sole(n)
    {
    }

    /** No object of licence `m` changed. */
    twostate predicate Same(m: string)
      requires m in licenses
      reads licenses[m], licenses[m].queue, licenses[m].prioritizer, licenses[m].known
    {
      unchanged(licenses[m]) && unchanged(licenses[m].queue) && unchanged(licenses[m].prioritizer)
      && unchanged(licenses[m].known)
    }

    /** Licence `n` is intact, and no object of another one changed. */
    twostate predicate Alone(new n: string)
      requires n in licenses
      reads *
    {
      && unchanged(this) && this !in repr
      && licenses[n].Valid() && old(licenses[n].known) <= licenses[n].known
      && forall j | j in licenses && j != n :: Same(j)
    }

    /** A licence other than the one that changed. */
    twostate lemma Kept(new m: string, new n: string, new more: set<Invocation>)
      requires n in licenses && m in licenses && m != n && old(Valid()) && unchanged(this)
      requires more !! repr
      requires forall j | j in licenses && j != n :: Same(j)
      requires licenses[n].known == old(licenses[n].known) + more
      ensures Sound(m, view[n := licenses[n].Abs()], repr + more)
      ensures licenses[m].known == old(licenses[m].known)
      ensures Separate(m, n) && Separate(n, m)
    {
      assert old(Separate(m, n));
      assert old(Sound(m, view, repr));
      Untouched(licenses[m]);
    }

    twostate lemma SoundAfter(new m: string, new n: string, new more: set<Invocation>)
      requires n in licenses && m in licenses && old(Valid()) && unchanged(this)
      requires more !! repr
      requires licenses[n].Valid() && licenses[n].known == old(licenses[n].known) + more
      requires forall j | j in licenses && j != n :: Same(j)
      ensures Sound(m, view[n := licenses[n].Abs()], repr + more)
    {
      if m == n {
        assert old(Sound(n, view, repr));
      } else {
        Kept(m, n, more);
      }
    }

    twostate lemma AllSound(new n: string, new more: set<Invocation>)
      requires n in licenses && old(Valid()) && unchanged(this)
      requires more !! repr
      requires licenses[n].Valid() && licenses[n].known == old(licenses[n].known) + more
      requires forall j | j in licenses && j != n :: Same(j)
      ensures forall m | m in licenses :: Sound(m, view[n := licenses[n].Abs()], repr + more)
    {
      forall m | m in licenses { SoundAfter(m, n, more); }
    }

    twostate lemma AllSeparate(new n: string, new more: set<Invocation>)
      requires n in licenses && old(Valid()) && unchanged(this)
      requires more !! repr
      requires licenses[n].known == old(licenses[n].known) + more
      requires forall j | j in licenses && j != n :: Same(j)
      ensures forall m, k | m in licenses && k in licenses :: Separate(m, k)
    {
      forall m, k | m in licenses && k in licenses ensures Separate(m, k) {
        StillSeparate(m, k, n, more);
      }
    }

    twostate lemma StillSeparate(new m: string, new k: string, new n: string, new more: set<Invocation>)
      requires n in licenses && m in licenses && k in licenses && old(Valid()) && unchanged(this)
      requires more !! repr
      requires licenses[n].known == old(licenses[n].known) + more
      requires forall j | j in licenses && j != n :: Same(j)
      ensures Separate(m, k)
    {
      assert old(Separate(m, k));
      if m != n {
        Kept(m, n, more);
      }
      if k != n {
        Kept(k, n, more);
      }
    }

    /** After one licence has changed, the others are as they were. */
    twostate lemma Republish(new n: string, new more: set<Invocation>)
      requires n in licenses && old(Valid()) && unchanged(this)
      requires more !! repr && this !in repr + more
      requires licenses[n].Valid() && licenses[n].known == old(licenses[n].known) + more
      requires forall j | j in licenses && j != n :: Same(j)
      ensures ValidWith(view[n := licenses[n].Abs()], repr + more)
    {
      AllSound(n, more);
      AllSeparate(n, more);
    }

    ghost method SetView(newView: map<string, License>, newRepr: set<object>)
      requires ValidWith(newView, newRepr)
      modifies `view, `repr
      ensures Valid() && view == newView && repr == newRepr
    {
      view, repr := newView, newRepr;
    }

    ghost function Abs(): Service
      reads this
    {
      Service(state, view, queueRefresh, allocationRefresh)
    }

    constructor (licenses: map<string, ManagedLicense>, queueRefresh: int, allocationRefresh: int)
      requires forall n | n in licenses :: Unused(licenses[n])
      requires forall n, m | n in licenses && m in licenses && n != m :: Apart(licenses[n], licenses[m])
      ensures Valid() && this.licenses == licenses
      ensures forall n | n in licenses :: view[n] == licenses[n].Abs()
      ensures Abs() == Service(Starting, view, queueRefresh, allocationRefresh)
    {
      this.state, this.licenses := Starting, licenses;
      this.queueRefresh, this.allocationRefresh := queueRefresh, allocationRefresh;
      view := map n | n in licenses :: licenses[n].Abs();
      repr := Objects(licenses);
      new;
      hide Apart, Objects, Unused, ManagedLicense.Valid, ValidWith;
      ObjectsHave(licenses);
      FirstState();
    }

    static ghost function Objects(licenses: map<string, ManagedLicense>): set<object> {
      (set n | n in licenses :: licenses[n] as object)
      + (set n | n in licenses :: licenses[n].queue as object)
      + (set n | n in licenses :: licenses[n].prioritizer as object)
    }

    static lemma ObjectsHave(licenses: map<string, ManagedLicense>)
      ensures forall n | n in licenses :: {licenses[n], licenses[n].queue, licenses[n].prioritizer} <= Objects(licenses)
      ensures forall o | o in Objects(licenses) :: o is ManagedLicense || o is InvocationQueue || o is QueuePrioritizer
    {
    }

    static ghost predicate Unused(l: ManagedLicense)
      reads l, l.queue, l.queue.items, l.known
    {
      l.Valid() && l.known == {}
    }

    lemma FirstState()
      requires this !in repr && view.Keys == licenses.Keys
      requires forall n | n in licenses :: Unused(licenses[n]) && view[n] == licenses[n].Abs()
      requires forall n | n in licenses :: {licenses[n], licenses[n].queue, licenses[n].prioritizer} <= repr
      requires forall n, m | n in licenses && m in licenses && n != m :: Apart(licenses[n], licenses[m])
      ensures Valid()
    {
      hide ManagedLicense.Valid, Apart;
      forall n | n in licenses ensures Sound(n, view, repr) {
        SoundFirst(n);
      }
    }

    lemma SoundFirst(n: string)
      requires n in licenses && n in view && view[n] == licenses[n].Abs()
      requires licenses[n].Valid() && licenses[n].known == {}
      requires {licenses[n], licenses[n].queue, licenses[n].prioritizer} <= repr
      ensures Sound(n, view, repr)
    {
    }

    /** Queues a new invocation, and promotes it at once if the server runs and
        a licence is free. */
    method Admit(lic: ManagedLicense, inv: Message, id: string, now: int)
      requires lic.Valid() && |lic.queue.items| < MAX_LEN
      modifies lic, lic.queue, lic.prioritizer, lic.known`queueId
      ensures lic.Valid() && old(lic.known) <= lic.known && fresh(lic.known - old(lic.known))
      ensures CountedOne(lic.queue)
      ensures lic.Abs() == ServiceModel.Admit(Abs(), old(lic.Abs()), inv, id, now)
      ensures Knows(lic.Abs(), id)
    {
      hide LicenseModel.Enqueue, LicenseModel.PromoteUpTo, ManagedLicense.Valid, Ids;
      var x := new InvocationQueues.Invocation(id, inv.owner, inv.buildTag, now);
      EnqueueIds(lic.Abs(), x.Val());
      var _ := lic.Enqueue(x);
      if state == Running {
        PromoteUpToKnows(lic.Abs(), Free(lic.Abs()), id);
        lic.Promote();
      }
    }

    /** The answer is what the model says, except that after 2^64 requests without
        an empty queue, or 2^32 at a time, the position of a request queued just
        now reads 0 when its queue id has wrapped to 0. */
    ghost predicate Answers(r: Response, expected: Response, lic: ManagedLicense)
      reads lic, lic.queue, lic.queue.items
    {
      r == expected
      || (&& !lic.queue.Exact()
          && expected.Queued? && r == expected.(position := 0)
          && exists x | x in lic.queue.items :: x.id == expected.id && x.queueId == 0)
    }

    /** At most one more request was counted for this licence, and its queue is
        still short if it did not reach 2^32 entries. */
    twostate predicate CountsOne(new n: string)
      requires n in licenses
      reads licenses[n], licenses[n].queue
    {
      CountedOne(licenses[n].queue)
    }

    /** No request was counted for this licence. */
    twostate predicate CountsNone(new n: string)
      requires n in licenses
      reads licenses[n], licenses[n].queue
    {
      CountedNone(licenses[n].queue)
    }

    /** Only licence `n` changed. */
    twostate lemma OnlyOneCounts(new n: string)
      requires n in licenses && Alone(n) && CountsOne(n)
      ensures forall m | m in licenses :: CountsOne(m)
    {
      forall m | m in licenses ensures CountsOne(m) {
        assert m != n ==> Same(m);
      }
    }

    /** Only licence `n` changed. */
    twostate lemma NoneCounts(new n: string)
      requires n in licenses && Alone(n) && CountsNone(n)
      ensures forall m | m in licenses :: CountsNone(m)
    {
      forall m | m in licenses ensures CountsNone(m) {
        assert m != n ==> Same(m);
      }
    }

    lemma AnswersAsExpected(r: Response, lic: ManagedLicense)
      ensures Answers(r, r, lic)
    {
    }

    method Answer(lic: ManagedLicense, inv: Message, id: string, now: int) returns (r: Response)
      requires lic.Valid() && (|lic.queue.items| < MAX_LEN || Knows(lic.Abs(), id))
      modifies lic, lic.queue, lic.prioritizer, lic.known`queueId, lic.known`lastCheckin
      ensures lic.Valid() && old(lic.known) <= lic.known && fresh(lic.known - old(lic.known))
      ensures CountedOne(lic.queue)
      ensures old(Knows(lic.Abs(), id)) ==> CountedNone(lic.queue)
      ensures lic.Abs() == ServiceModel.Answer(Abs(), old(lic.Abs()), inv, id, now).0
      ensures Answers(r, ServiceModel.Answer(Abs(), old(lic.Abs()), inv, id, now).1, lic)
    {
      hide LicenseModel.Enqueue, InvocationQueue.Valid, ManagedLicense.Valid, ToPosition;
      lic.SameKeys();
      if id in lic.allocations {
        lic.CheckInAllocated(id, now);
        r := Allocated(id, now + allocationRefresh);
      } else {
        r := AnswerWaiting(lic, inv, id, now);
      }
    }

    /** The answer to a request that has no licence. */
    method AnswerWaiting(lic: ManagedLicense, inv: Message, id: string, now: int) returns (r: Response)
      requires lic.Valid() && (|lic.queue.items| < MAX_LEN || Knows(lic.Abs(), id)) && id !in lic.Abs().allocations
      modifies lic, lic.queue, lic.prioritizer, lic.known`queueId, lic.known`lastCheckin
      ensures lic.Valid() && old(lic.known) <= lic.known && fresh(lic.known - old(lic.known))
      ensures CountedOne(lic.queue)
      ensures old(Knows(lic.Abs(), id)) ==> CountedNone(lic.queue)
      ensures lic.Abs() == ServiceModel.Answer(Abs(), old(lic.Abs()), inv, id, now).0
      ensures Answers(r, ServiceModel.Answer(Abs(), old(lic.Abs()), inv, id, now).1, lic)
    {
      hide LicenseModel.Enqueue, InvocationQueue.Valid, ManagedLicense.Valid, ToPosition;
      LicenseQueue(lic);
      var x, pos := lic.queue.Get(id);
      if x != null {
        lic.CheckInQueued(x, Find(lic.queue.contents, id), now);
        return Queued(id, now + queueRefresh, pos);
      }
      if state == Running {
        return FailedPrecondition;
      }
      r := Requeue(lic, inv, id, now);
    }

    /** During start-up an unknown request is one from before the restart. */
    method Requeue(lic: ManagedLicense, inv: Message, id: string, now: int) returns (r: Response)
      requires lic.Valid() && |lic.queue.items| < MAX_LEN
      requires forall i | 0 <= i < |lic.queue.contents| :: lic.queue.contents[i].id != id
      modifies lic, lic.queue, lic.prioritizer, lic.known`queueId
      ensures lic.Valid() && old(lic.known) <= lic.known && fresh(lic.known - old(lic.known))
      ensures CountedOne(lic.queue)
      ensures lic.Abs() == LicenseModel.Enqueue(old(lic.Abs()), MakeEntry(inv, id, now))
      ensures Answers(r, Queued(id, now + queueRefresh, ToPosition(Find(lic.queue.contents, id) + 1)), lic)
    {
      hide LicenseModel.Enqueue, Find, ToPosition;
      LicenseQueue(lic);
      hide InvocationQueue.Valid, ManagedLicense.Valid;
      var x := new InvocationQueues.Invocation(id, inv.owner, inv.buildTag, now);
      NotAmong(lic.queue, id);
      var pos := lic.Enqueue(x);
      LicenseQueue(lic);
      assert x in lic.queue.Members();
      NewPosition(lic.queue, x);
      return Queued(id, now + queueRefresh, pos);
    }

    lemma LicenseQueue(lic: ManagedLicense)
      requires lic.Valid()
      ensures lic.queue.Valid()
    {
    }

    lemma NotAmong(q: InvocationQueue, id: string)
      requires q.Valid() && forall i | 0 <= i < |q.contents| :: q.contents[i].id != id
      ensures forall y | y in q.Members() :: y.id != id
    {
      forall y | y in q.Members() ensures y.id != id {
        var k :| 0 <= k < |q.items| && q.items[k] == y;
        assert q.contents[k].id == y.id;
      }
    }

    /** Where a newly queued invocation stands. */
    lemma NewPosition(q: InvocationQueue, x: InvocationQueues.Invocation)
      requires q.Valid() && x in q.items && forall y | y in q.Members() && y != x :: y.id != x.id
      ensures || q.Position(x) == ToPosition(Find(q.contents, x.id) + 1)
              || (q.Position(x) == 0 && x.queueId == 0 && !q.Exact())
    {
      var i := Find(q.contents, x.id);
      var k :| 0 <= k < |q.items| && q.items[k] == x;
      assert q.contents[k].id == x.id;
      assert i < |q.items| && q.contents[i] == q.items[i].Val();
      assert q.items[i] in q.Members();
      q.PositionIsPlace(i);
    }

    /** Allocates a licence to the invocation, or queues it. */
    method Allocate(inv: Message, newId: Option<string>, now: int) returns (r: Response)
      requires Valid()
      requires Named(Abs(), inv).Some? ==> |view[Named(Abs(), inv).value].queue| < MAX_LEN
      modifies repr, `repr, `view
      ensures Valid()
      ensures Abs() == ServiceModel.Allocate(old(Abs()), inv, newId, now).0
      ensures var expected := ServiceModel.Allocate(old(Abs()), inv, newId, now).1;
        match Named(old(Abs()), inv)
        case None => r == expected
        case Some(n) => n in licenses && Answers(r, expected, licenses[n])
      ensures forall n | n in licenses :: CountsOne(n)
    {
      hide ServiceModel.Admit, ServiceModel.Answer, ValidWith, Answers;
      if |inv.licenses| != 1 {
        return InvalidArgument;
      }
      var name := FormatLicenseType(inv.licenses[0]);
      SameNames();
      if name !in licenses {
        return NotFound;
      }
      if inv.id == "" && newId == None {
        AnswersAsExpected(Internal, licenses[name]);
        return Internal;
      }
      r := AllocateIn(name, inv, if inv.id == "" then newId.value else inv.id, now);
    }

    lemma SameNames()
      requires Valid()
      ensures view.Keys == licenses.Keys
    {
    }

    /** What happens to licence `l` when a request arrives, and the answer. */
    ghost function Requested(s: Service, l: License, inv: Message, id: string, now: int): (License, Response) {
      ServiceModel.Answer(s, if inv.id == "" then ServiceModel.Admit(s, l, inv, id, now) else l, inv, id, now)
    }

    method AllocateIn(name: string, inv: Message, id: string, now: int) returns (r: Response)
      requires Valid() && name in licenses && |view[name].queue| < MAX_LEN
      modifies repr, `repr, `view
      ensures Valid() && unchanged(`state)
      ensures var expected := Requested(old(Abs()), old(view)[name], inv, id, now);
        && view == old(view)[name := expected.0]
        && Answers(r, expected.1, licenses[name])
      ensures forall n | n in licenses :: CountsOne(n)
    {
      hide Sound, Separate, Requested, ManagedLicense.Valid, ServiceModel.Answer, ServiceModel.Admit;
      OneOfMany(name);
      r := AllocateAlone(name, licenses[name], inv, id, now);
      OnlyOneCounts(name);
      ghost var more := licenses[name].known - old(licenses[name].known);
      Republish(name, more);
      SetView(view[name := licenses[name].Abs()], repr + more);
    }

    /** The same, before the view is brought up to date. */
    method AllocateAlone(name: string, lic: ManagedLicense, inv: Message, id: string, now: int) returns (r: Response)
      requires Sole(name) && lic == licenses[name] && |view[name].queue| < MAX_LEN
      modifies repr
      ensures Alone(name) && fresh(lic.known - old(lic.known))
      ensures var expected := Requested(old(Abs()), old(view)[name], inv, id, now);
        && lic.Abs() == expected.0
        && Answers(r, expected.1, lic)
      ensures CountedOne(lic.queue)
    {
      hide ManagedLicense.Valid, Requested, Answers;
      r := AllocateFrom(lic, inv, id, now);
      forall j | j in licenses && j != name ensures Same(j) {
        assert old(Separate(name, j));
      }
    }

    method AllocateFrom(lic: ManagedLicense, inv: Message, id: string, now: int) returns (r: Response)
      requires lic.Valid() && |lic.Abs().queue| < MAX_LEN
      modifies lic, lic.queue, lic.prioritizer, lic.known`queueId, lic.known`lastCheckin
      ensures lic.Valid() && old(lic.known) <= lic.known && fresh(lic.known - old(lic.known))
      ensures CountedOne(lic.queue)
      ensures var expected := Requested(Abs(), old(lic.Abs()), inv, id, now);
        && lic.Abs() == expected.0
        && Answers(r, expected.1, lic)
    {
      hide ManagedLicense.Valid, ServiceModel.Admit, ServiceModel.Answer;
      lic.SameKeys();
      if inv.id == "" {
        Admit(lic, inv, id, now);
      }
      r := Answer(lic, inv, id, now);
    }

    /** Keeps a licence alive, or adopts it during start-up. */
    method Refresh(inv: Message, now: int) returns (r: Response)
      requires Valid()
      modifies repr, `repr, `view
      ensures Valid()
      ensures (Abs(), r) == ServiceModel.Refresh(old(Abs()), inv, now)
      ensures forall n | n in licenses :: CountsNone(n)
    {
      hide ValidWith, ManagedLicense.Valid;
      if |inv.licenses| != 1 {
        return InvalidArgument;
      }
      var name := FormatLicenseType(inv.licenses[0]);
      SameNames();
      if name !in licenses {
        return NotFound;
      }
      if inv.id == "" {
        return InvalidArgument;
      }
      r := RefreshIn(name, inv, now);
      assert old(view)[name := old(view)[name]] == old(view);
    }

    /** What Refresh does to licence `l`, and the answer. */
    ghost function Refreshing(s: Service, l: License, inv: Message, now: int): (License, Response) {
      if inv.id in l.allocations then
        (LicenseModel.CheckInAllocated(l, inv.id, now), Refreshed(inv.id, now + s.allocationRefresh))
      else if s.state == Running then (l, FailedPrecondition)
      else if LicenseModel.Allocate(l, MakeEntry(inv, inv.id, now)).1 then
        (LicenseModel.Allocate(l, MakeEntry(inv, inv.id, now)).0, Refreshed(inv.id, now + s.allocationRefresh))
      else (l, ResourceExhausted)
    }

    method RefreshIn(name: string, inv: Message, now: int) returns (r: Response)
      requires Valid() && name in licenses
      modifies repr, `repr, `view
      ensures Valid() && unchanged(`state)
      ensures view == old(view)[name := Refreshing(old(Abs()), old(view)[name], inv, now).0]
      ensures r == Refreshing(old(Abs()), old(view)[name], inv, now).1
      ensures forall n | n in licenses :: CountsNone(n)
    {
      hide Sound, Separate, Refreshing, ManagedLicense.Valid;
      OneOfMany(name);
      r := RefreshAlone(name, licenses[name], inv, now);
      NoneCounts(name);
      ghost var more := licenses[name].known - old(licenses[name].known);
      Republish(name, more);
      SetView(view[name := licenses[name].Abs()], repr + more);
    }

    method RefreshAlone(name: string, lic: ManagedLicense, inv: Message, now: int) returns (r: Response)
      requires Sole(name) && lic == licenses[name]
      modifies repr
      ensures Alone(name) && fresh(lic.known - old(lic.known))
      ensures (lic.Abs(), r) == Refreshing(old(Abs()), old(view)[name], inv, now)
      ensures CountedNone(lic.queue)
    {
      hide ManagedLicense.Valid, Refreshing;
      r := RefreshFrom(lic, inv, now);
      forall j | j in licenses && j != name ensures Same(j) {
        assert old(Separate(name, j));
      }
    }

    method RefreshFrom(lic: ManagedLicense, inv: Message, now: int) returns (r: Response)
      requires lic.Valid()
      modifies lic, lic.prioritizer, lic.known`lastCheckin
      ensures lic.Valid() && old(lic.known) <= lic.known && fresh(lic.known - old(lic.known))
      ensures (lic.Abs(), r) == Refreshing(Abs(), old(lic.Abs()), inv, now)
    {
      hide ManagedLicense.Valid, LicenseModel.CheckInAllocated;
      lic.SameKeys();
      if inv.id in lic.allocations {
        lic.CheckInAllocated(inv.id, now);
        return Refreshed(inv.id, now + allocationRefresh);
      }
      if state == Running {
        return FailedPrecondition;
      }
      var x := new InvocationQueues.Invocation(inv.id, inv.owner, inv.buildTag, now);
      var ok := lic.Allocate(x);
      if ok {
        return Refreshed(inv.id, now + allocationRefresh);
      }
      return ResourceExhausted;
    }

    /** Gives back what the invocation has of any licence, in any order. */
    method Release(id: string) returns (r: Response)
      requires Valid()
      modifies repr, `repr, `view
      ensures Valid()
      ensures (Abs(), r) == ServiceModel.Release(old(Abs()), id)
      ensures forall n | n in licenses :: CountsNone(n)
    {
      hide LicenseModel.Forget, Sound, Separate, Forgotten, FoundAmong;
      if id == "" {
        return InvalidArgument;
      }
      var count := 0;
      var todo := licenses.Keys;
      ghost var s := Abs();
      ForgottenNone(view, id);
      while todo != {}
        invariant todo <= licenses.Keys && Valid() && unchanged(`state) && unchanged(`repr)
        invariant forall n | n in licenses :: CountsNone(n)
        invariant Forgotten(s.licenses, view, todo, id)
        invariant count >= 0 && (count > 0 <==> FoundAmong(s.licenses, todo, id))
      {
        var n :| n in todo;
        ForgottenOneMore(s.licenses, view, todo, id, n);
        todo := todo - {n};
        var k := ForgetOne(n, id);
        count := count + k;
      }
      r := if count == 0 then FailedPrecondition else Released;
      ForgottenAll(s, view, id);
    }

    method ForgetOne(n: string, id: string) returns (count: nat)
      requires Valid() && n in licenses
      modifies repr, `repr, `view
      ensures Valid() && unchanged(`state) && unchanged(`repr)
      ensures view == old(view)[n := LicenseModel.Forget(old(view)[n], id).0]
      ensures count == LicenseModel.Forget(old(view)[n], id).1
      ensures forall m | m in licenses :: CountsNone(m)
    {
      hide Sound, Separate, LicenseModel.Forget, ManagedLicense.Valid;
      OneOfMany(n);
      count := ForgetAlone(n, licenses[n], id);
      NoneCounts(n);
      Republish(n, {});
      assert repr + {} == repr;
      SetView(view[n := licenses[n].Abs()], repr);
    }

    method ForgetAlone(n: string, lic: ManagedLicense, id: string) returns (count: nat)
      requires Sole(n) && lic == licenses[n]
      modifies repr
      ensures Alone(n) && lic.known == old(lic.known)
      ensures (lic.Abs(), count) == LicenseModel.Forget(old(view)[n], id)
      ensures CountedNone(lic.queue)
    {
      hide ManagedLicense.Valid, LicenseModel.Forget;
      count := lic.Forget(id);
      forall j | j in licenses && j != n ensures Same(j) {
        assert old(Separate(n, j));
      }
    }

    method AdoptionEnds()
      requires Valid()
      modifies `state
      ensures Valid()
      ensures Abs() == Step(old(Abs()), Timed(ServiceModel.AdoptionEnds, 0))
    {
      state := Running;
    }

    /** The janitor goes over the licences in any order. */
    method Janitor(now: int)
      requires Valid()
      modifies repr, `repr, `view
      ensures Valid()
      ensures Abs() == ServiceModel.Janitor(old(Abs()), now)
      ensures forall n | n in licenses :: CountsNone(n)
    {
      hide ServiceModel.Clean, Sound, Separate, Cleaned;
      if state == Starting {
        return;
      }
      var todo := licenses.Keys;
      ghost var s := Abs();
      CleanedNone(s, now);
      while todo != {}
        invariant todo <= licenses.Keys && Valid() && unchanged(`state) && unchanged(`repr)
        invariant forall n | n in licenses :: CountsNone(n)
        invariant Cleaned(s, view, todo, now)
      {
        var n :| n in todo;
        CleanedOneMore(s, view, todo, now, n);
        todo := todo - {n};
        CleanOne(n, s, now);
      }
      CleanedAll(s, view, now);
    }

    method CleanOne(n: string, ghost s: Service, now: int)
      requires Valid() && n in licenses
      requires s.queueRefresh == queueRefresh && s.allocationRefresh == allocationRefresh
      modifies repr, `repr, `view
      ensures Valid() && unchanged(`state) && unchanged(`repr)
      ensures view == old(view)[n := Clean(s, old(view)[n], now)]
      ensures forall m | m in licenses :: CountsNone(m)
    {
      hide Sound, Separate, Clean, ManagedLicense.Valid;
      OneOfMany(n);
      CleanAlone(n, licenses[n], s, now);
      NoneCounts(n);
      Republish(n, {});
      assert repr + {} == repr;
      SetView(view[n := licenses[n].Abs()], repr);
    }

    method CleanAlone(n: string, lic: ManagedLicense, ghost s: Service, now: int)
      requires Sole(n) && lic == licenses[n]
      requires s.queueRefresh == queueRefresh && s.allocationRefresh == allocationRefresh
      modifies repr
      ensures Alone(n) && lic.known == old(lic.known)
      ensures lic.Abs() == Clean(s, old(view)[n], now)
      ensures CountedNone(lic.queue)
    {
      hide ManagedLicense.Valid, ServiceModel.Clean;
      CleanFrom(lic, s, now);
      forall j | j in licenses && j != n ensures Same(j) {
        assert old(Separate(n, j));
      }
    }

    method CleanFrom(lic: ManagedLicense, ghost s: Service, now: int)
      requires lic.Valid() && s.queueRefresh == queueRefresh && s.allocationRefresh == allocationRefresh
      modifies lic`allocations, lic`holders, lic.queue`items, lic.queue`contents, lic.queue`head
      modifies lic.known`queueId, lic.prioritizer
      ensures lic.Valid() && lic.Abs() == Clean(s, old(lic.Abs()), now)
    {
      hide LicenseModel.Promote, LicenseModel.ExpireQueued, LicenseModel.ExpireAllocations, ManagedLicense.Valid;
      lic.Clean(now - allocationRefresh, now - queueRefresh);
    }
  }

  // ------------------------------------------------ part-way through the loops

  /** The id was forgotten by every licence that is not in `todo`. */
  ghost predicate Forgotten(before: map<string, License>, after: map<string, License>, todo: set<string>, id: string) {
    && after.Keys == before.Keys
    && forall n | n in before :: after[n] == if n in todo then before[n] else LicenseModel.Forget(before[n], id).0
  }

  ghost predicate FoundAmong(before: map<string, License>, todo: set<string>, id: string) {
    exists n | n in before && n !in todo :: Knows(before[n], id)
  }

  lemma ForgottenNone(before: map<string, License>, id: string)
    ensures Forgotten(before, before, before.Keys, id) && !FoundAmong(before, before.Keys, id)
  {
  }

  lemma ForgottenOneMore(before: map<string, License>, after: map<string, License>, todo: set<string>, id: string,
                         n: string)
    requires Forgotten(before, after, todo, id) && n in todo && n in before
    ensures Forgotten(before, after[n := LicenseModel.Forget(after[n], id).0], todo - {n}, id)
    ensures FoundAmong(before, todo - {n}, id)
       <==> FoundAmong(before, todo, id) || LicenseModel.Forget(after[n], id).1 > 0
  {
    ForgetCount(before[n], id);
    hide LicenseModel.Forget, Knows;
  }

  lemma ForgetCount(l: License, id: string)
    ensures LicenseModel.Forget(l, id).1 > 0 <==> Knows(l, id)
  {
  }

  lemma ForgottenAll(s: Service, after: map<string, License>, id: string)
    requires Forgotten(s.licenses, after, {}, id) && id != ""
    ensures s.(licenses := after) == ServiceModel.Release(s, id).0
    ensures ServiceModel.Release(s, id).1 == if FoundAmong(s.licenses, {}, id) then Released else FailedPrecondition
  {
    hide LicenseModel.Forget, Knows;
  }

  /** Every licence that is not in `todo` was cleaned. */
  ghost predicate Cleaned(s: Service, after: map<string, License>, todo: set<string>, now: int) {
    && after.Keys == s.licenses.Keys
    && forall n | n in s.licenses :: after[n] == if n in todo then s.licenses[n] else Clean(s, s.licenses[n], now)
  }

  lemma CleanedNone(s: Service, now: int)
    ensures Cleaned(s, s.licenses, s.licenses.Keys, now)
  {
  }

  lemma CleanedOneMore(s: Service, after: map<string, License>, todo: set<string>, now: int, n: string)
    requires Cleaned(s, after, todo, now) && n in todo && n in s.licenses
    ensures Cleaned(s, after[n := Clean(s, after[n], now)], todo - {n}, now)
  {
    hide ServiceModel.Clean;
  }

  lemma CleanedAll(s: Service, after: map<string, License>, now: int)
    requires s.state == Running && Cleaned(s, after, {}, now)
    ensures s.(licenses := after) == ServiceModel.Janitor(s, now)
  {
    hide ServiceModel.Clean;
  }
}
