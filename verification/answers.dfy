/** What the answers of the flextape server promise: when each is given, and what
    its deadline means for an invocation that then says no more. */
module ServiceAnswers {
  import opened Wrappers
  import opened Integers
  import opened Prioritizers
  import opened QueuePositions
  import opened LicenseModel
  import opened ServiceModel
  import opened ServiceInvariant
  import opened LifeCycles
  import opened Keepalive

  // ------------------------------------------------------ when each is given

  /** The request names one licence, and the server has it. */
  predicate Asks(s: Service, inv: Message, n: string) {
    |inv.licenses| == 1 && n == inv.licenses[0].vendor + "::" + inv.licenses[0].feature && n in s.licenses
  }

  lemma NamedIsAsked(s: Service, inv: Message, n: string)
    ensures Named(s, inv) == Some(n) <==> Asks(s, inv, n)
  {
  }

  /** A refresh succeeds if and only if the id holds the licence afterwards, heard
      of just now; each refusal changes nothing and has its own condition. */
  lemma RefreshAnswer(s: Service, inv: Message, now: int)
    ensures var (s', r) := Refresh(s, inv, now);
      && (r.Refreshed? <==> inv.id != "" && exists n :: Asks(s, inv, n) && Holds(s', n, inv.id, now))
      && (r.Refreshed? ==> r == Refreshed(inv.id, now + s.allocationRefresh))
      && (!r.Refreshed? ==> s' == s)
      && (r == NotFound <==> |inv.licenses| == 1 && !exists n :: Asks(s, inv, n))
      && (r == InvalidArgument <==> |inv.licenses| != 1 || (inv.id == "" && exists n :: Asks(s, inv, n)))
      && (r == FailedPrecondition
          <==> inv.id != "" && s.state == Running
               && exists n :: Asks(s, inv, n) && inv.id !in s.licenses[n].allocations)
      && (r == ResourceExhausted
          <==> inv.id != "" && s.state == Starting
               && exists n :: Asks(s, inv, n) && inv.id !in s.licenses[n].allocations
                              && |s.licenses[n].allocations| >= s.licenses[n].total)
      && (r.Refreshed? || r in {NotFound, InvalidArgument, FailedPrecondition, ResourceExhausted})
  {
    if Named(s, inv).Some? {
      var n := Named(s, inv).value;
      NamedIsAsked(s, inv, n);
      var l := s.licenses[n];
      assert forall m :: Asks(s, inv, m) <==> m == n;
    }
  }

  predicate Ranks(q: seq<Entry>, id: string, position: nat) {
    exists i | 0 <= i < |q| :: q[i].id == id && position == (i + 1) % U32_SIZE
  }

  /** The answer about an invocation, in view of what became of it. */
  predicate Tells(s: Service, n: string, id: string, now: int, r: Response)
    requires n in s.licenses
  {
    match StatusAt(s, n, id)
    case Absent => r == FailedPrecondition
    case Holding(e) => r == Allocated(id, now + s.allocationRefresh) && e.lastCheckin == now
    case Waiting(e) =>
      && r.Queued? && r.id == id && r.nextPoll == now + s.queueRefresh && e.lastCheckin == now
      && Ranks(s.licenses[n].queue, id, r.position)
  }

  lemma AnswerTells(s: Service, l: License, inv: Message, id: string, now: int)
    requires Consistent(l) && (|l.queue| < MAX_LEN || Knows(l, id))
    ensures var (l', r) := Answer(s, l, inv, id, now);
      match StatusOf(l', id)
      case Absent => r == FailedPrecondition && s.state == Running && StatusOf(l, id) == Absent
      case Holding(e) => r == Allocated(id, now + s.allocationRefresh) && e.lastCheckin == now
      case Waiting(e) =>
        && r.Queued? && r.id == id && r.nextPoll == now + s.queueRefresh && e.lastCheckin == now
        && Ranks(l'.queue, id, r.position)
  {
    AnswerStatus(s, l, inv, id, now, id);
    var l' := Answer(s, l, inv, id, now).0;
    var i := Find(l.queue, id);
    if id !in l.allocations && i < |l.queue| {
      assert l'.queue[i].id == id;
    } else if id !in l.allocations && s.state == Starting {
      assert l'.queue[Find(l'.queue, id)].id == id;
    }
  }

  /** A request for a licence that the server has is told what became of it; what
      may be refused is an unknown id, once the server runs. */
  lemma AllocateAnswer(s: Service, inv: Message, newId: Option<string>, now: int, n: string)
    requires AllConsistent(s) && Permitted(s, Timed(AllocateCall(inv, newId), now)) && Asks(s, inv, n)
    ensures var (s', r) := ServiceModel.Allocate(s, inv, newId, now);
      && n in s'.licenses
      && (r == Internal <==> inv.id == "" && newId == None)
      && (r == Internal ==> s' == s)
      && (r != Internal ==> Tells(s', n, if inv.id == "" then newId.value else inv.id, now, r))
      && (r == FailedPrecondition
          <==> inv.id != "" && s.state == Running && StatusAt(s, n, inv.id) == Absent)
  {
    hide Consistent, Answer, Admit, Knows, StatusOf, Ranks;
    NamedIsAsked(s, inv, n);
    var l := s.licenses[n];
    if inv.id != "" {
      AnswerTells(s, l, inv, inv.id, now);
      AnswerStatus(s, l, inv, inv.id, now, inv.id);
    } else if newId.Some? {
      var id := newId.value;
      AdmitConsistent(s, l, inv, id, now);
      AdmitStatus(s, l, inv, id, now, id);
      AnswerTells(s, Admit(s, l, inv, id, now), inv, id, now);
    }
  }

  /** Requests that name no licence, several, or one the server does not have. */
  lemma AllocateRefusal(s: Service, inv: Message, newId: Option<string>, now: int)
    requires forall n :: !Asks(s, inv, n)
    ensures ServiceModel.Allocate(s, inv, newId, now) == (s, if |inv.licenses| == 1 then NotFound else InvalidArgument)
  {
    if Named(s, inv).Some? {
      NamedIsAsked(s, inv, Named(s, inv).value);
    }
  }

  /** Release succeeds if and only if the id waited for some licence or held one,
      and afterwards it does neither anywhere. */
  lemma ReleaseAnswer(s: Service, id: string)
    requires AllConsistent(s)
    ensures var (s', r) := Release(s, id);
      && (r == InvalidArgument <==> id == "")
      && (r == Released <==> id != "" && exists n | n in s.licenses :: StatusAt(s, n, id) != Absent)
      && (r in {InvalidArgument, Released, FailedPrecondition})
      && (id != "" ==> s'.licenses.Keys == s.licenses.Keys
                       && forall n | n in s'.licenses :: StatusAt(s', n, id) == Absent)
  {
    hide Consistent, StatusOf, Forget, Knows;
    forall n | n in s.licenses
      ensures StatusOf(s.licenses[n], id) == Absent <==> !Knows(s.licenses[n], id)
      ensures id != "" ==> StatusOf(Forget(s.licenses[n], id).0, id) == Absent
    {
      StatusNamed(s.licenses[n], id);
      ForgetStatus(s.licenses[n], id, id);
    }
  }

  // --------------------------------------------------- what deadlines promise

  lemma {:induction false} NothingHeard(s: Service, ts: seq<Timed>, n: string, id: string, last: int)
    requires Silent(s, ts, n, id)
    ensures LastHeard(s, ts, n, id, last) == last
    decreases |ts|
  {
    hide Step;
    if ts != [] && n in s.licenses {
      NothingHeard(Step(s, ts[0]), ts[1..], n, id, last);
    }
  }

  lemma {:induction false} RunKeepsDurations(s: Service, ts: seq<Timed>)
    ensures Run(s, ts).allocationRefresh == s.allocationRefresh && Run(s, ts).queueRefresh == s.queueRefresh
    decreases |ts|
  {
    if ts != [] {
      StepKeepsDurations(s, ts[0]);
      RunKeepsDurations(Step(s, ts[0]), ts[1..]);
    }
  }

  lemma StepKeepsDurations(s: Service, t: Timed)
    ensures Step(s, t).allocationRefresh == s.allocationRefresh && Step(s, t).queueRefresh == s.queueRefresh
  {
    hide Answer, Admit, Clean, Forget;
  }

  /** An invocation that falls silent, and that no sweep has dropped so far, is
      dropped by the next one exactly from the end of its patience on. */
  lemma DroppedExactlyFrom(s: Service, ts: seq<Timed>, n: string, id: string, last: int, now: int)
    requires AllConsistent(s) && AllPermitted(s, ts) && Present(s, n, id, last) && id != ""
    requires Silent(s, ts, n, id) && KeepsInTouch(s, ts, n, id, last) && Run(s, ts).state == Running
    ensures var r := Run(s, ts);
      && n in r.licenses && SameClient(StatusAt(s, n, id), StatusAt(r, n, id)) && n in Janitor(r, now).licenses
      && (StatusAt(Janitor(r, now), n, id) == Absent
          <==> now >= last + if StatusAt(r, n, id).Waiting? then s.queueRefresh else s.allocationRefresh)
      && (StatusAt(r, n, id).Holding? && StatusAt(Janitor(r, now), n, id) != Absent
          ==> StatusAt(Janitor(r, now), n, id).Holding?)
  {
    hide AllConsistent, AllPermitted, Run, Silent, Janitor, StatusAt, KeepsInTouch, SameClient;
    KeepsPlace(s, ts, n, id, last);
    NothingHeard(s, ts, n, id, last);
    RunKeepsDurations(s, ts);
    SweepFollows(Run(s, ts), now, n, id);
  }

  /** The deadline of a refresh is the first time at which a running janitor takes
      the licence, if nothing more is heard of the id. */
  lemma RefreshDeadline(s: Service, inv: Message, at: int, ts: seq<Timed>, now: int, n: string)
    requires AllConsistent(s) && Permitted(s, Timed(RefreshCall(inv), at)) && Asks(s, inv, n)
    requires var (s', r) := Refresh(s, inv, at);
      && r.Refreshed? && AllPermitted(s', ts) && Silent(s', ts, n, inv.id)
      && KeepsInTouch(s', ts, n, inv.id, at) && Run(s', ts).state == Running
    ensures var (s', r) := Refresh(s, inv, at);
      && n in Janitor(Run(s', ts), now).licenses
      && (inv.id in Janitor(Run(s', ts), now).licenses[n].allocations <==> now < r.deadline)
  {
    hide AllConsistent, AllPermitted, Run, Silent, Janitor, StatusOf, KeepsInTouch, Permitted;
    var s' := Refresh(s, inv, at).0;
    RefreshAnswer(s, inv, at);
    StepConsistent(s, Timed(RefreshCall(inv), at));
    HoldingMeans(s', n, inv.id);
    DroppedExactlyFrom(s', ts, n, inv.id, at, now);
    HoldingMeans(Janitor(Run(s', ts), now), n, inv.id);
  }

  /** So is the deadline that Allocate gives; and the next poll time is the first
      time at which a janitor drops the request, if it still waits by then. */
  lemma AllocateDeadline(s: Service, inv: Message, newId: Option<string>, at: int, ts: seq<Timed>, now: int, n: string)
    requires AllConsistent(s) && Permitted(s, Timed(AllocateCall(inv, newId), at)) && Asks(s, inv, n)
    requires var (s', r) := ServiceModel.Allocate(s, inv, newId, at);
      && (r.Allocated? || r.Queued?) && r.id != "" && AllPermitted(s', ts) && Silent(s', ts, n, r.id)
      && KeepsInTouch(s', ts, n, r.id, at) && Run(s', ts).state == Running
    ensures var (s', r) := ServiceModel.Allocate(s, inv, newId, at);
      var m := Run(s', ts);
      && n in m.licenses && n in Janitor(m, now).licenses
      && (r.Allocated? ==> (r.id in Janitor(m, now).licenses[n].allocations <==> now < r.deadline))
      && (r.Queued? && StatusAt(m, n, r.id).Waiting?
          ==> (StatusAt(Janitor(m, now), n, r.id) == Absent <==> now >= r.nextPoll))
  {
    hide AllConsistent, AllPermitted, Run, Silent, Janitor, StatusOf, KeepsInTouch, Permitted, Ranks;
    var (s', r) := ServiceModel.Allocate(s, inv, newId, at);
    AllocateAnswer(s, inv, newId, at, n);
    StepConsistent(s, Timed(AllocateCall(inv, newId), at));
    AllocateKeepsDurations(s, inv, newId, at);
    DroppedExactlyFrom(s', ts, n, r.id, at, now);
    HoldingMeans(Janitor(Run(s', ts), now), n, r.id);
  }

  lemma AllocateKeepsDurations(s: Service, inv: Message, newId: Option<string>, now: int)
    ensures var s' := ServiceModel.Allocate(s, inv, newId, now).0;
      s'.allocationRefresh == s.allocationRefresh && s'.queueRefresh == s.queueRefresh
  {
    StepKeepsDurations(s, Timed(AllocateCall(inv, newId), now));
  }
}
