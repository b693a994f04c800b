/** What every call to a running allocation manager does to every single
    invocation, what its replies promise, and who keeps a gang for how long. */
module GangLives {
  import opened Wrappers
  import opened Integers
  import opened GangModel
  import opened GangProofs
  import opened GangPromotion
  import opened GangRuns

  /** Those who hold units hold all of the topology they asked for (see GangRuns),
      so the invocation says it all. */
  datatype Status = Absent | Waiting(x: Inv) | Holding(x: Inv)

  ghost function StatusOf<U>(m: Manager<U>, id: string): Status {
    if Holds(m, id) then
      var u :| u in m.holders && m.holders[u].id == id;
      Holding(m.holders[u])
    else if Find(m.queue, id) < |m.queue| then Waiting(m.queue[Find(m.queue, id)])
    else Absent
  }

  /** Heard of at time `now`. */
  function Heard(before: Status, now: int): Status {
    match before
    case Absent => Absent
    case Waiting(x) => Waiting(x.(lastCheckin := now))
    case Holding(x) => Holding(x.(lastCheckin := now))
  }

  // ------------------------------------------------------- the life cycle

  /** As it was, or served; a topology without units serves at once and leaves
      nothing. */
  predicate MayBeServed<U>(topologies: map<string, seq<U>>, before: Status, after: Status) {
    after == before
    || (&& before.Waiting? && before.x.wants.name in topologies
        && after == if topologies[before.x.wants.name] == [] then Absent else Holding(before.x))
  }

  /** A call without an id, for which `newId` was generated. */
  predicate AfterFirstRequest<U>(topologies: map<string, seq<U>>, msg: Message, newId: string, now: int, id: string,
                                 before: Status, after: Status)
  {
    if newId == id then
      before == Absent && MayBeServed(topologies, Waiting(Inv(id, msg.owner, msg.purpose, now, msg.wants)), after)
    else MayBeServed(topologies, before, after)
  }

  predicate AfterSweep<U>(m: Manager<U>, now: int, before: Status, after: Status) {
    if before.Holding? then after == if now - before.x.lastCheckin < m.allocationRefresh then before else Absent
    else MayBeServed(m.topologies, before, after)
  }

  /** A request that the server turns down: it names nothing, or, if it is new, no
      known topology, or no id could be generated. */
  predicate TurnedDown<U>(m: Manager<U>, msg: Message, newId: Option<string>) {
    || (msg.wants.name == "" && msg.wants.hosts == [])
    || (msg.id == "" && (msg.wants.name == "" || msg.wants.name !in m.topologies || newId == None))
  }

  /** What a step does to the status of invocation `id`. */
  ghost predicate Follows<U>(m: Manager<U>, t: Timed, id: string, before: Status, after: Status) {
    match t.event
    case AllocateCall(msg, newId) =>
      if TurnedDown(m, msg, newId) then after == before
      else if msg.id == "" then AfterFirstRequest(m.topologies, msg, newId.value, t.now, id, before, after)
      else after == if msg.id == id then Heard(before, t.now) else before
    case RefreshCall(topology, asked) =>
      after == if asked == id && FirstHeld(m, topology, id) then Heard(before, t.now) else before
    case ReleaseCall(gone) => after == if gone == id && id != "" && before.Holding? then Absent else before
    case JanitorTick => AfterSweep(m, t.now, before, after)
  }

  /** The id holds the first unit of the topology. */
  ghost predicate FirstHeld<U>(m: Manager<U>, topology: string, id: string) {
    id != "" && topology in m.topologies && m.topologies[topology] != [] && HeldBy(m, m.topologies[topology][0], id)
  }

  // ------------------------------------------------------ what a status means

  lemma HoldingMeans<U>(m: Manager<U>, id: string)
    requires Sound(m)
    ensures StatusOf(m, id).Holding? <==> exists u :: HeldBy(m, u, id)
    ensures forall u | HeldBy(m, u, id) :: StatusOf(m, id) == Holding(m.holders[u])
    ensures StatusOf(m, id).Holding? ==> StatusOf(m, id).x.id == id
  {
    if u :| HeldBy(m, u, id) {
      assert u in m.holders && m.holders[u].id == id;
    }
    if Holds(m, id) {
      var u :| u in m.holders && m.holders[u].id == id;
      assert HeldBy(m, u, id);
    }
  }

  lemma WaitingMeans<U>(m: Manager<U>, id: string, x: Inv)
    requires Sound(m)
    ensures StatusOf(m, id) == Waiting(x) <==> x in m.queue && x.id == id
  {
    var i := Find(m.queue, id);
    if x in m.queue && x.id == id {
      var k :| 0 <= k < |m.queue| && m.queue[k] == x;
      assert i == k;
      assert !Holds(m, m.queue[k].id);
    }
  }

  lemma AbsentMeans<U>(m: Manager<U>, id: string)
    requires Sound(m)
    ensures StatusOf(m, id) == Absent <==> Fresh(m, id)
  {
    var i := Find(m.queue, id);
  }

  /** The same holders and the same members of the queue, as far as one id goes,
      mean the same status. */
  lemma SameStatus<U>(m: Manager<U>, m': Manager<U>, id: string)
    requires Sound(m) && Sound(m')
    requires forall u :: HeldBy(m, u, id) <==> HeldBy(m', u, id)
    requires forall u | HeldBy(m, u, id) && HeldBy(m', u, id) :: m'.holders[u] == m.holders[u]
    requires forall x: Inv | x.id == id :: x in m.queue <==> x in m'.queue
    ensures StatusOf(m', id) == StatusOf(m, id)
  {
    hide Sound;
    HoldingMeans(m, id);
    HoldingMeans(m', id);
    var i, j := Find(m.queue, id), Find(m'.queue, id);
    if i < |m.queue| {
      assert m.queue[i] in m'.queue;
      WaitingMeans(m, id, m.queue[i]);
      WaitingMeans(m', id, m.queue[i]);
    }
    if j < |m'.queue| {
      assert m'.queue[j] in m.queue;
      WaitingMeans(m, id, m'.queue[j]);
      WaitingMeans(m', id, m'.queue[j]);
    }
  }

  // ------------------------------------------------------------ single actions

  lemma PromoteStatus<U>(m: Manager<U>, id: string)
    requires Sound(m)
    ensures Sound(Promote(m)) && MayBeServed(m.topologies, StatusOf(m, id), StatusOf(Promote(m), id))
  {
    var m', q := Promote(m), m.queue;
    PromoteSound(m);
    PromoteServes(m);
    var i := Find(q, id);
    if Holds(m, id) {
      var u :| u in m.holders && m.holders[u].id == id;
      HoldingMeans(m, id);
      HoldingMeans(m', id);
      assert HeldBy(m', u, id);
    } else if i < |q| {
      WaitingMeans(m, id, q[i]);
      if q[i] in m'.queue {
        WaitingMeans(m', id, q[i]);
      } else {
        WinnerStatus(m, i);
      }
    } else {
      NotQueuedNotServed(m, id);
      AbsentMeans(m, id);
      AbsentMeans(m', id);
    }
  }

  lemma NotQueuedNotServed<U>(m: Manager<U>, id: string)
    requires Sound(m) && Fresh(m, id)
    ensures Fresh(Promote(m), id)
  {
    PromoteSound(m);
    forall k | 0 <= k < |Promote(m).queue| ensures Promote(m).queue[k].id != id {
      assert Promote(m).queue[k] in m.queue;
    }
    forall u | u in Promote(m).holders ensures Promote(m).holders[u].id != id {
      if u !in m.holders {
        PromoteGivesQueued(m, id, u);
      }
    }
  }

  /** Whoever leaves the queue is served, with all units it asked for. */
  lemma WinnerStatus<U>(m: Manager<U>, i: nat)
    requires Sound(m) && i < |m.queue| && m.queue[i] !in Promote(m).queue
    ensures var x := m.queue[i];
      && x.wants.name in m.topologies
      && StatusOf(Promote(m), x.id) == if m.topologies[x.wants.name] == [] then Absent else Holding(x)
  {
    var m', x := Promote(m), m.queue[i];
    PromoteSound(m);
    PromoteServes(m);
    assert Wins(m, m.queue, i);
    hide Promote;
    var units := m.topologies[x.wants.name];
    if units != [] {
      assert units[0] in units && WonBy(m, m.queue, units[0], i);
      assert HeldBy(m', units[0], x.id);
      HoldingMeans(m', x.id);
    } else {
      forall u | u in m'.holders ensures m'.holders[u].id != x.id {
        if u in m.holders {
          assert !Holds(m, x.id);
        } else {
          var j: nat :| j < |m.queue| && WonBy(m, m.queue, u, j);
          assert j != i;
        }
      }
      forall k | 0 <= k < |m'.queue| ensures m'.queue[k].id != x.id {
        assert m'.queue[k] in m.queue;
        var j :| 0 <= j < |m.queue| && m.queue[j] == m'.queue[k];
        assert j != i;
      }
      AbsentMeans(m', x.id);
    }
  }

  lemma EnqueueStatus<U>(m: Manager<U>, x: Inv, id: string)
    requires Sound(m) && Fresh(m, x.id)
    ensures var m' := m.(queue := m.queue + [x]);
      Sound(m') && StatusOf(m', id) == if id == x.id then Waiting(x) else StatusOf(m, id)
  {
    var m' := m.(queue := m.queue + [x]);
    EnqueueSound(m, x);
    hide Sound;
    if id == x.id {
      WaitingMeans(m', id, x);
    } else {
      SameStatus(m, m', id);
    }
  }

  lemma AdmitStatus<U>(m: Manager<U>, msg: Message, newId: string, now: int, id: string)
    requires Sound(m) && Fresh(m, newId)
    ensures var m' := Admit(m, msg, newId, now);
      && Sound(m') && m'.topologies == m.topologies
      && AfterFirstRequest(m.topologies, msg, newId, now, id, StatusOf(m, id), StatusOf(m', id))
  {
    var x := MakeInv(msg, newId, now);
    AbsentMeans(m, newId);
    EnqueueStatus(m, x, id);
    hide Sound, Promote, StatusOf;
    PromoteSound(m.(queue := m.queue + [x]));
    PromoteStatus(m.(queue := m.queue + [x]), id);
  }

  lemma TouchStatus<U>(m: Manager<U>, asked: string, now: int, id: string)
    requires Sound(m)
    ensures var m' := m.(holders := Touch(m.holders, asked, now));
      && Sound(m')
      && (asked == id && Holds(m, id) ==> StatusOf(m', id) == Heard(StatusOf(m, id), now))
      && (asked != id ==> StatusOf(m', id) == StatusOf(m, id))
  {
    var m' := m.(holders := Touch(m.holders, asked, now));
    TouchSound(m, asked, now);
    if asked != id {
      SameStatus(m, m', id);
    } else if Holds(m, id) {
      var u :| u in m.holders && m.holders[u].id == id;
      HoldingMeans(m, id);
      assert HeldBy(m', u, id);
      HoldingMeans(m', id);
    }
  }

  lemma CheckInStatus<U>(m: Manager<U>, asked: string, now: int, id: string)
    requires Sound(m)
    ensures Sound(CheckIn(m, asked, now))
    ensures StatusOf(CheckIn(m, asked, now), id) == if asked == id then Heard(StatusOf(m, id), now) else StatusOf(m, id)
  {
    var i, m' := Find(m.queue, asked), CheckIn(m, asked, now);
    CheckInSound(m, asked, now);
    if Holds(m, asked) {
      TouchStatus(m, asked, now, id);
    } else if i < |m.queue| {
      QueueCheckInStatus(m, i, now, id);
    }
  }

  lemma QueueCheckInStatus<U>(m: Manager<U>, i: nat, now: int, id: string)
    requires Sound(m) && i < |m.queue|
    requires Sound(m.(queue := m.queue[i := m.queue[i].(lastCheckin := now)]))
    ensures var m' := m.(queue := m.queue[i := m.queue[i].(lastCheckin := now)]);
      StatusOf(m', id) == if m.queue[i].id == id then Heard(StatusOf(m, id), now) else StatusOf(m, id)
  {
    var m' := m.(queue := m.queue[i := m.queue[i].(lastCheckin := now)]);
    hide Sound;
    assert m.queue[i] in m.queue && m'.queue[i] in m'.queue;
    if m.queue[i].id == id {
      WaitingMeans(m, id, m.queue[i]);
      WaitingMeans(m', id, m'.queue[i]);
    } else {
      forall x: Inv | x.id == id ensures x in m.queue <==> x in m'.queue {
        if x in m.queue {
          var k :| 0 <= k < |m.queue| && m.queue[k] == x;
          assert m'.queue[k] == x;
        }
      }
      SameStatus(m, m', id);
    }
  }

  lemma ReleaseStatus<U>(m: Manager<U>, gone: string, id: string)
    requires Sound(m)
    ensures StatusOf(Release(m, gone), id)
         == if gone == id && id != "" && StatusOf(m, id).Holding? then Absent else StatusOf(m, id)
  {
    if gone == "" {
      return;
    }
    var m' := Release(m, gone);
    ReleaseFreesGang(m, gone);
    HoldingMeans(m, id);
    HolderNotQueued(m, id);
    hide Sound;
    if gone == id && Holds(m, id) {
      AbsentMeans(m', id);
    } else {
      SameStatus(m, m', id);
    }
  }

  lemma ExpireStatus<U>(m: Manager<U>, expiry: int, id: string)
    requires Sound(m)
    ensures var m' := ExpireAllocations(m, expiry);
      && Sound(m')
      && StatusOf(m', id) == match StatusOf(m, id)
                             case Holding(x) => if x.lastCheckin > expiry then Holding(x) else Absent
                             case other => other
  {
    var m' := ExpireAllocations(m, expiry);
    ExpireSound(m, expiry);
    HoldingMeans(m, id);
    HolderNotQueued(m, id);
    hide Sound;
    if Holds(m, id) && StatusOf(m, id).x.lastCheckin <= expiry {
      AbsentMeans(m', id);
    } else {
      SameStatus(m, m', id);
    }
  }

  lemma HolderNotQueued<U>(m: Manager<U>, id: string)
    requires Sound(m)
    ensures Holds(m, id) ==> forall i | 0 <= i < |m.queue| :: m.queue[i].id != id
  {
    forall i | 0 <= i < |m.queue| && m.queue[i].id == id ensures !Holds(m, id) {
      assert !Holds(m, m.queue[i].id);
    }
  }

  // ----------------------------------------------------------------- the steps

  lemma RefreshStatus<U>(m: Manager<U>, topology: string, asked: string, now: int, id: string)
    requires Sound(m)
    ensures StatusOf(Refresh(m, topology, asked, now), id)
         == if asked == id && FirstHeld(m, topology, id) then Heard(StatusOf(m, id), now) else StatusOf(m, id)
  {
    hide Sound, Touch, StatusOf;
    TouchStatus(m, asked, now, id);
  }

  lemma AllocateStatus<U>(m: Manager<U>, msg: Message, newId: Option<string>, now: int, id: string)
    requires Sound(m) && Permitted(m, AllocateCall(msg, newId))
    ensures Follows(m, Timed(AllocateCall(msg, newId), now), id, StatusOf(m, id),
                    StatusOf(Allocate(m, msg, newId, now), id))
  {
    hide Sound, Fresh, Admit, CheckIn, StatusOf;
    if Accepted(m, msg, newId) {
      if msg.id == "" {
        AdmitStatus(m, msg, newId.value, now, id);
        CheckInStatus(Admit(m, msg, newId.value, now), newId.value, now, id);
      } else {
        CheckInStatus(m, msg.id, now, id);
      }
    }
  }

  lemma JanitorStatus<U>(m: Manager<U>, now: int, id: string)
    requires Sound(m)
    ensures AfterSweep(m, now, StatusOf(m, id), StatusOf(Janitor(m, now), id))
  {
    hide Sound, StatusOf, Promote, ExpireAllocations;
    ExpireStatus(m, now - m.allocationRefresh, id);
    PromoteStatus(ExpireAllocations(m, now - m.allocationRefresh), id);
    ExpireKeepsTopologies(m, now - m.allocationRefresh);
  }

  lemma ExpireKeepsTopologies<U>(m: Manager<U>, expiry: int)
    ensures ExpireAllocations(m, expiry).topologies == m.topologies
  {
  }

  /** The life cycle: every step of a running manager takes every invocation along
      it, and nowhere else. */
  lemma LifeCycle<U>(m: Manager<U>, t: Timed, id: string)
    requires Sound(m) && Permitted(m, t.event)
    ensures Sound(Step(m, t)) && Follows(m, t, id, StatusOf(m, id), StatusOf(Step(m, t), id))
  {
    StepSound(m, t);
    hide Sound, StatusOf, Allocate, Refresh, Release, Janitor, FirstHeld;
    match t.event
    case AllocateCall(msg, newId) => AllocateStatus(m, msg, newId, t.now, id);
    case RefreshCall(topology, asked) => RefreshStatus(m, topology, asked, t.now, id);
    case ReleaseCall(gone) => ReleaseStatus(m, gone, id);
    case JanitorTick => JanitorStatus(m, t.now, id);
  }

  // --------------------------------------------------------------- the replies

  /** A refresh succeeds if and only if the id holds all units of the topology
      afterwards, heard of just now; nobody else is touched. Each refusal has its
      own condition. */
  lemma RefreshReplies<U>(m: Manager<U>, topology: string, id: string, now: int)
    requires Sound(m)
    ensures var m', r := Refresh(m, topology, id, now), RefreshReply(m, topology, id, now);
      && (r.Refreshed?
          <==> id != "" && topology in m.topologies
               && forall u | u in m.topologies[topology] :: HeldBy(m', u, id) && m'.holders[u].lastCheckin == now)
      && (r.Refreshed? ==> r == Refreshed(id, now + m.allocationRefresh))
      && (r == NotFound <==> topology !in m.topologies)
      && (r == InvalidArgument <==> topology in m.topologies && id == "")
      && (r == FailedPrecondition
          <==> topology in m.topologies && id != "" && exists u | u in m.topologies[topology] :: !HeldBy(m, u, id))
      && (r.Refreshed? || r in {NotFound, InvalidArgument, FailedPrecondition})
    ensures var m' := Refresh(m, topology, id, now);
      && m'.queue == m.queue && m'.holders.Keys == m.holders.Keys
      && forall u | u in m.holders && m.holders[u].id != id :: m'.holders[u] == m.holders[u]
  {
    if topology in m.topologies {
      HoldsAllMeans(m, m.topologies[topology], id);
      RefreshHolders(m, topology, id, now);
      hide Refresh, HoldsAll;
      if HoldsAll(m, m.topologies[topology], id) && m.topologies[topology] != [] {
        assert m.topologies[topology][0] in m.topologies[topology];
      }
    }
  }

  lemma HoldsAllMeans<U>(m: Manager<U>, units: seq<U>, id: string)
    ensures HoldsAll(m, units, id) <==> forall u | u in units :: HeldBy(m, u, id)
  {
    if forall u | u in units :: HeldBy(m, u, id) {
      assert forall i | 0 <= i < |units| :: HeldBy(m, units[i], id);
    }
  }

  lemma RefreshHolders<U>(m: Manager<U>, topology: string, id: string, now: int)
    ensures var m' := Refresh(m, topology, id, now);
      && m'.queue == m.queue && m'.holders.Keys == m.holders.Keys
      && (forall u, other :: HeldBy(m', u, other) <==> HeldBy(m, u, other))
      && (forall u | u in m.holders && m.holders[u].id != id :: m'.holders[u] == m.holders[u])
      && (FirstHeld(m, topology, id) ==>
            forall u | HeldBy(m, u, id) :: m'.holders[u] == m.holders[u].(lastCheckin := now))
      && (!FirstHeld(m, topology, id) ==> m' == m)
  {
  }

  predicate Ranks(q: seq<Inv>, id: string, position: nat) {
    exists i | 0 <= i < |q| :: q[i].id == id && position == (i + 1) % U32_SIZE
  }

  /** The reply about an invocation, in view of what became of it. */
  ghost predicate Tells<U>(m: Manager<U>, id: string, now: int, r: Response<U>) {
    match StatusOf(m, id)
    case Absent => r == FailedPrecondition
    case Holding(x) =>
      && r.Allocated? && r.id == id && r.deadline == now + m.allocationRefresh && HeldBy(m, r.host, id)
      && x.lastCheckin == now
    case Waiting(x) =>
      && r.Queued? && r.id == id && r.nextPoll == now + m.queueRefresh && Ranks(m.queue, id, r.position)
      && x.lastCheckin == now
  }

  /** A call that is not turned down is told what became of its invocation. */
  lemma AllocateReplies<U>(m: Manager<U>, msg: Message, newId: Option<string>, now: int, r: Response<U>)
    requires Sound(m) && Permitted(m, AllocateCall(msg, newId))
    requires AllocateReply(m, Allocate(m, msg, newId, now), msg, newId, now, r)
    ensures TurnedDown(m, msg, newId) ==>
      && Allocate(m, msg, newId, now) == m
      && r == if msg.wants.name == "" || msg.wants.name !in m.topologies then InvalidArgument else Internal
    ensures !TurnedDown(m, msg, newId) ==>
      Tells(Allocate(m, msg, newId, now), if msg.id == "" then newId.value else msg.id, now, r)
  {
    if !TurnedDown(m, msg, newId) {
      var id := if msg.id == "" then newId.value else msg.id;
      var m' := Allocate(m, msg, newId, now);
      LastHeardNow(m, msg, newId, now, id);
      AllocateKeepsDurations(m, msg, newId, now);
      hide Sound, Allocate, StatusOf, Tells;
      StatusTells(m', id, now, r);
    }
  }

  lemma LastHeardNow<U>(m: Manager<U>, msg: Message, newId: Option<string>, now: int, id: string)
    requires Sound(m) && Permitted(m, AllocateCall(msg, newId)) && !TurnedDown(m, msg, newId)
    requires id == if msg.id == "" then newId.value else msg.id
    ensures var after := StatusOf(Allocate(m, msg, newId, now), id); !after.Absent? ==> after.x.lastCheckin == now
  {
    hide Sound, Allocate, StatusOf, Permitted;
    LifeCycle(m, Timed(AllocateCall(msg, newId), now), id);
  }

  lemma AllocateKeepsDurations<U>(m: Manager<U>, msg: Message, newId: Option<string>, now: int)
    ensures var m' := Allocate(m, msg, newId, now);
      m'.allocationRefresh == m.allocationRefresh && m'.queueRefresh == m.queueRefresh
  {
    hide PromoteOne;
    if Accepted(m, msg, newId) && msg.id == "" {
      var q := m.queue + [MakeInv(msg, newId.value, now)];
      PromoteKeepsDurations(m.(queue := q), q);
    }
  }

  lemma {:induction false} PromoteKeepsDurations<U>(m: Manager<U>, q: seq<Inv>)
    ensures var m' := PromoteEach(m, q);
      m'.allocationRefresh == m.allocationRefresh && m'.queueRefresh == m.queueRefresh
  {
    if q != [] {
      PromoteKeepsDurations(m, q[..|q| - 1]);
    }
  }

  lemma StatusTells<U>(m: Manager<U>, id: string, now: int, r: Response<U>)
    requires Answers(m, id, now, r)
    requires !StatusOf(m, id).Absent? ==> StatusOf(m, id).x.lastCheckin == now
    ensures Tells(m, id, now, r)
  {
  }

  // ---------------------------------------------------------------- keepalive

  /** A call that the server remembers: a poll, or a refresh that finds the first
      unit of the topology held. */
  ghost predicate Counts<U>(m: Manager<U>, e: Event, id: string) {
    match e
    case AllocateCall(msg, newId) => !TurnedDown(m, msg, newId) && msg.id == id && id != ""
    case RefreshCall(topology, asked) => asked == id && FirstHeld(m, topology, id)
    case ReleaseCall(_) => false
    case JanitorTick => false
  }

  ghost function HeardAt<U>(m: Manager<U>, t: Timed, id: string, last: int): int {
    if Counts(m, t.event, id) then t.now else last
  }

  /** When the invocation was last heard of, if it was `last` before the run. */
  ghost function LastHeard<U>(m: Manager<U>, ts: seq<Timed>, id: string, last: int): int {
    if ts == [] then last
    else
      var n := |ts| - 1;
      HeardAt(Run(m, ts[..n]), ts[n], id, LastHeard(m, ts[..n], id, last))
  }

  /** At every sweep the last call is recent enough, and nobody releases the
      gang. */
  ghost predicate KeepsInTouch<U>(m: Manager<U>, ts: seq<Timed>, id: string, last: int) {
    forall i | 0 <= i < |ts| :: InTouchAt(m, ts, id, last, i)
  }

  ghost predicate InTouchAt<U>(m: Manager<U>, ts: seq<Timed>, id: string, last: int, i: nat)
    requires i < |ts|
  {
    && ts[i].event != ReleaseCall(id)
    && (ts[i].event == JanitorTick ==> ts[i].now - LastHeard(m, ts[..i], id, last) < m.allocationRefresh)
  }

  /** No call mentions `id`, and no new invocation gets that id. */
  ghost predicate Quiet<U>(m: Manager<U>, e: Event, id: string) {
    !Counts(m, e, id) && (e.AllocateCall? ==> e.newId != Some(id))
  }

  ghost predicate Silent<U>(m: Manager<U>, ts: seq<Timed>, id: string) {
    forall i | 0 <= i < |ts| :: Quiet(Run(m, ts[..i]), ts[i].event, id)
  }

  /** Everything about a run but its last step. */
  lemma RunFront<U>(m: Manager<U>, ts: seq<Timed>, id: string, last: int)
    requires ts != []
    ensures var n := |ts| - 1;
      && Run(m, ts) == Step(Run(m, ts[..n]), ts[n])
      && (AllPermitted(m, ts) ==> AllPermitted(m, ts[..n]) && Permitted(Run(m, ts[..n]), ts[n].event))
      && (KeepsInTouch(m, ts, id, last) ==> KeepsInTouch(m, ts[..n], id, last) && InTouchAt(m, ts, id, last, n))
      && (Silent(m, ts, id) ==> Silent(m, ts[..n], id) && Quiet(Run(m, ts[..n]), ts[n].event, id))
  {
    var n := |ts| - 1;
    var front := ts[..n];
    assert forall i | 0 <= i < n :: ts[..i] == front[..i] && front[i] == ts[i];
    assert forall i | 0 <= i < n :: InTouchAt(m, ts, id, last, i) ==> InTouchAt(m, front, id, last, i);
  }

  lemma StepKeepsDurations<U>(m: Manager<U>, t: Timed)
    ensures Step(m, t).allocationRefresh == m.allocationRefresh && Step(m, t).queueRefresh == m.queueRefresh
  {
    hide Allocate, PromoteEach;
    match t.event
    case AllocateCall(msg, newId) => AllocateKeepsDurations(m, msg, newId, t.now);
    case RefreshCall(topology, id) =>
    case ReleaseCall(id) =>
    case JanitorTick =>
      var expired := ExpireAllocations(m, t.now - m.allocationRefresh);
      PromoteKeepsDurations(expired, expired.queue);
  }

  /** Whoever keeps in touch keeps every unit of its gang, until it is released,
      and the server remembers the last call. */
  lemma {:induction false} KeepsGang<U>(m: Manager<U>, ts: seq<Timed>, id: string, last: int)
    requires Sound(m) && AllPermitted(m, ts) && id != "" && KeepsInTouch(m, ts, id, last)
    requires StatusOf(m, id).Holding? && StatusOf(m, id).x.lastCheckin == last
    ensures Sound(Run(m, ts)) && Run(m, ts).allocationRefresh == m.allocationRefresh
    ensures StatusOf(Run(m, ts), id) == Holding(StatusOf(m, id).x.(lastCheckin := LastHeard(m, ts, id, last)))
  {
    hide Sound, AllPermitted, StatusOf, Step, Silent;
    if ts != [] {
      var n := |ts| - 1;
      RunFront(m, ts, id, last);
      KeepsGang(m, ts[..n], id, last);
      hide KeepsInTouch, LastHeard;
      LastOfRun(m, ts, id, last);
      LifeCycle(Run(m, ts[..n]), ts[n], id);
      StepKeepsDurations(Run(m, ts[..n]), ts[n]);
    }
  }

  lemma LastOfRun<U>(m: Manager<U>, ts: seq<Timed>, id: string, last: int)
    requires ts != []
    ensures var n := |ts| - 1;
      LastHeard(m, ts, id, last) == HeardAt(Run(m, ts[..n]), ts[n], id, LastHeard(m, ts[..n], id, last))
  {
  }

  /** A gang that is held under the same id is the same units. */
  lemma SameUnits<U>(m: Manager<U>, m': Manager<U>, id: string, u: U)
    requires Sound(m) && Sound(m') && m'.topologies == m.topologies
    requires StatusOf(m, id).Holding? && StatusOf(m', id).Holding?
    requires StatusOf(m, id).x.wants == StatusOf(m', id).x.wants
    ensures HeldBy(m, u, id) <==> HeldBy(m', u, id)
  {
    HoldsItsTopology(m, id, u);
    HoldsItsTopology(m', id, u);
  }

  lemma HoldsItsTopology<U>(m: Manager<U>, id: string, u: U)
    requires Sound(m) && StatusOf(m, id).Holding?
    ensures StatusOf(m, id).x.wants.name in m.topologies
    ensures HeldBy(m, u, id) <==> u in m.topologies[StatusOf(m, id).x.wants.name]
  {
    var v :| v in m.holders && m.holders[v].id == id;
    HoldingMeans(m, id);
    assert HeldBy(m, v, id);
    assert Gang(m.topologies, m.holders, v);
  }

  /** So an invocation whose successful refreshes come often enough holds the same
      units at the end of every run. */
  lemma KeepsUnits<U>(m: Manager<U>, ts: seq<Timed>, id: string, last: int, u: U)
    requires Sound(m) && AllPermitted(m, ts) && id != "" && KeepsInTouch(m, ts, id, last)
    requires HeldBy(m, u, id) && m.holders[u].lastCheckin == last
    ensures forall v :: HeldBy(Run(m, ts), v, id) <==> HeldBy(m, v, id)
    ensures HeldBy(Run(m, ts), u, id) && Run(m, ts).holders[u].lastCheckin == LastHeard(m, ts, id, last)
  {
    HoldingMeans(m, id);
    hide Sound, StatusOf, AllPermitted, KeepsInTouch, LastHeard;
    KeepsGang(m, ts, id, last);
    RunSound(m, ts);
    HoldingMeans(Run(m, ts), id);
    forall v ensures HeldBy(Run(m, ts), v, id) <==> HeldBy(m, v, id) {
      SameUnits(m, Run(m, ts), id, v);
    }
  }

  // ------------------------------------------------------------------- silence

  lemma {:induction false} NothingHeard<U>(m: Manager<U>, ts: seq<Timed>, id: string, last: int)
    requires Silent(m, ts, id)
    ensures LastHeard(m, ts, id, last) == last
  {
    hide Step;
    if ts != [] {
      RunFront(m, ts, id, last);
      NothingHeard(m, ts[..|ts| - 1], id, last);
    }
  }

  /** The deadline of a refresh is the first time at which a janitor frees the
      gang, all of it, if nothing more is heard of the id. */
  lemma RefreshDeadline<U>(m: Manager<U>, topology: string, id: string, at: int, ts: seq<Timed>, now: int, u: U)
    requires Sound(m) && RefreshReply(m, topology, id, at).Refreshed? && u in m.topologies[topology]
    requires var m' := Refresh(m, topology, id, at);
      AllPermitted(m', ts) && Silent(m', ts, id) && KeepsInTouch(m', ts, id, at)
    ensures HeldBy(Janitor(Run(Refresh(m, topology, id, at), ts), now), u, id)
       <==> now < RefreshReply(m, topology, id, at).deadline
  {
    var m' := Refresh(m, topology, id, at);
    RefreshReplies(m, topology, id, at);
    StepSound(m, Timed(RefreshCall(topology, id), at));
    StepKeepsDurations(m, Timed(RefreshCall(topology, id), at));
    hide Sound, StatusOf, AllPermitted, KeepsInTouch, Silent, LastHeard, Refresh, Janitor;
    KeepsUnits(m', ts, id, at, u);
    NothingHeard(m', ts, id, at);
    RunSound(m', ts);
    RunKeepsDurations(m', ts);
    JanitorKeeps(Run(m', ts), now, u);
  }

  lemma {:induction false} RunKeepsDurations<U>(m: Manager<U>, ts: seq<Timed>)
    ensures Run(m, ts).allocationRefresh == m.allocationRefresh && Run(m, ts).queueRefresh == m.queueRefresh
  {
    hide Step;
    if ts != [] {
      RunKeepsDurations(m, ts[..|ts| - 1]);
      StepKeepsDurations(Run(m, ts[..|ts| - 1]), ts[|ts| - 1]);
    }
  }
}
