/** Gangs stay whole over every run of a running allocation manager. */
module GangRuns {
  import opened Wrappers
  import opened GangModel
  import opened GangProofs
  import opened GangPromotion

  /** The units that an invocation with this id holds. */
  ghost predicate HeldBy<U>(m: Manager<U>, u: U, id: string) {
    u in m.holders && m.holders[u].id == id
  }

  // --------------------------------------------------------------- single steps

  /** Expiry frees the whole gang or none of it. */
  lemma ExpireWhole<U>(m: Manager<U>, expiry: int, u: U)
    requires Sound(m) && u in m.holders
    ensures u in ExpireAllocations(m, expiry).holders <==> m.holders[u].lastCheckin > expiry
    ensures u !in ExpireAllocations(m, expiry).holders ==>
              forall v | HeldBy(m, v, m.holders[u].id) :: v !in ExpireAllocations(m, expiry).holders
    ensures u in ExpireAllocations(m, expiry).holders ==>
              forall v | HeldBy(m, v, m.holders[u].id) :: HeldBy(ExpireAllocations(m, expiry), v, m.holders[u].id)
  {
  }

  /** Keeping or dropping each gang as a whole. */
  lemma SubsetWhole<U>(topologies: map<string, seq<U>>, holders: map<U, Inv>, kept: map<U, Inv>)
    requires Whole(topologies, holders)
    requires forall u | u in kept :: u in holders && kept[u] == holders[u]
    requires forall u, v | u in kept && v in holders && holders[u].id == holders[v].id :: v in kept
    ensures Whole(topologies, kept)
  {
    forall u | u in kept ensures Gang(topologies, kept, u) {
      assert Gang(topologies, holders, u);
    }
  }

  lemma ExpireSound<U>(m: Manager<U>, expiry: int)
    requires Sound(m)
    ensures Sound(ExpireAllocations(m, expiry))
  {
    SubsetWhole(m.topologies, m.holders, ExpireAllocations(m, expiry).holders);
  }

  /** Release frees all units of the id and nobody else's. */
  lemma ReleaseFreesGang<U>(m: Manager<U>, id: string)
    requires Sound(m) && id != ""
    ensures Sound(Release(m, id))
    ensures forall u :: u in Release(m, id).holders <==> u in m.holders && m.holders[u].id != id
    ensures forall u | HeldBy(m, u, id) ::
              forall v | v in m.topologies[m.holders[u].wants.name] :: v !in Release(m, id).holders
    ensures Release(m, id).queue == m.queue
  {
    SubsetWhole(m.topologies, m.holders, Release(m, id).holders);
    forall u | HeldBy(m, u, id)
      ensures forall v | v in m.topologies[m.holders[u].wants.name] :: v !in Release(m, id).holders
    {
      assert Gang(m.topologies, m.holders, u);
    }
  }

  /** One check-in is a check-in for all units of the gang. */
  lemma TouchSound<U>(m: Manager<U>, id: string, now: int)
    requires Sound(m)
    ensures Sound(m.(holders := Touch(m.holders, id, now)))
    ensures forall u | HeldBy(m, u, id) :: Touch(m.holders, id, now)[u] == m.holders[u].(lastCheckin := now)
  {
    var touched := Touch(m.holders, id, now);
    forall u | u in touched ensures Gang(m.topologies, touched, u) {
      assert Gang(m.topologies, m.holders, u);
    }
  }

  lemma CheckInSound<U>(m: Manager<U>, id: string, now: int)
    requires Sound(m)
    ensures Sound(CheckIn(m, id, now))
  {
    TouchSound(m, id, now);
    var i := Find(m.queue, id);
    if !Holds(m, id) && i < |m.queue| {
      var m' := m.(queue := m.queue[i := m.queue[i].(lastCheckin := now)]);
    }
  }

  /** An id that nobody holds and that is not queued. */
  ghost predicate Fresh<U>(m: Manager<U>, id: string) {
    && !Holds(m, id)
    && forall i | 0 <= i < |m.queue| :: m.queue[i].id != id
  }

  lemma EnqueueSound<U>(m: Manager<U>, inv: Inv)
    requires Sound(m) && Fresh(m, inv.id)
    ensures Sound(m.(queue := m.queue + [inv]))
  {
    var m' := m.(queue := m.queue + [inv]);
    assert forall i | 0 <= i < |m.queue| :: m'.queue[i] == m.queue[i];
  }

  lemma AdmitSound<U>(m: Manager<U>, msg: Message, id: string, now: int)
    requires Sound(m) && Fresh(m, id)
    ensures Sound(Admit(m, msg, id, now))
  {
    EnqueueSound(m, MakeInv(msg, id, now));
    PromoteSound(m.(queue := m.queue + [MakeInv(msg, id, now)]));
  }

  // ----------------------------------------------------------------------- runs

  /** Generated ids are new. */
  ghost predicate Permitted<U>(m: Manager<U>, e: Event) {
    match e
    case AllocateCall(msg, newId) => newId.Some? ==> Fresh(m, newId.value)
    case _ => true
  }

  ghost predicate AllPermitted<U>(m: Manager<U>, ts: seq<Timed>) {
    forall i | 0 <= i < |ts| :: Permitted(Run(m, ts[..i]), ts[i].event)
  }

  lemma StepSound<U>(m: Manager<U>, t: Timed)
    requires Sound(m) && Permitted(m, t.event)
    ensures Sound(Step(m, t)) && Step(m, t).topologies == m.topologies
  {
    hide Sound;
    match t.event
    case AllocateCall(msg, newId) =>
      if Accepted(m, msg, newId) {
        if msg.id == "" {
          AdmitSound(m, msg, newId.value, t.now);
          PromoteEachMaximal(m.(queue := m.queue + [MakeInv(msg, newId.value, t.now)]),
                             m.queue + [MakeInv(msg, newId.value, t.now)]);
          CheckInSound(Admit(m, msg, newId.value, t.now), newId.value, t.now);
        } else {
          CheckInSound(m, msg.id, t.now);
        }
      }
    case RefreshCall(topology, id) => TouchSound(m, id, t.now);
    case ReleaseCall(id) =>
      if id != "" {
        ReleaseFreesGang(m, id);
      }
    case JanitorTick =>
      ExpireSound(m, t.now - m.allocationRefresh);
      PromoteSound(ExpireAllocations(m, t.now - m.allocationRefresh));
  }

  /** A server that has just started to run: topologies list distinct units,
      nothing is held, nothing is queued. */
  ghost predicate Initial<U>(m: Manager<U>) {
    Configured(m) && m.holders == map[] && m.queue == []
  }

  lemma {:induction false} RunSound<U>(m: Manager<U>, ts: seq<Timed>)
    requires Sound(m) && AllPermitted(m, ts)
    ensures Sound(Run(m, ts)) && Run(m, ts).topologies == m.topologies
  {
    if ts != [] {
      var front := ts[..|ts| - 1];
      assert forall i | 0 <= i < |front| :: ts[..i] == front[..i] && front[i] == ts[i];
      RunSound(m, front);
      assert Permitted(Run(m, ts[..|ts| - 1]), ts[|ts| - 1].event);
      StepSound(Run(m, front), ts[|ts| - 1]);
    }
  }

  /** In every reachable state, an id that holds anything holds all units of one
      configured topology, the one it asked for, and no other unit; nobody who
      holds units is queued. */
  lemma GangsAreWhole<U>(m: Manager<U>, ts: seq<Timed>, u: U)
    requires Initial(m) && AllPermitted(m, ts) && u in Run(m, ts).holders
    ensures var now, inv := Run(m, ts), Run(m, ts).holders[u];
      && inv.wants.name in m.topologies
      && (forall v :: v in m.topologies[inv.wants.name] <==> HeldBy(now, v, inv.id))
      && (forall v | HeldBy(now, v, inv.id) :: now.holders[v] == inv)
      && (forall i | 0 <= i < |now.queue| :: now.queue[i].id != inv.id)
  {
    RunSound(m, ts);
    assert Gang(m.topologies, Run(m, ts).holders, u);
  }

  /** A holder keeps its units through every step except its own release and a
      janitor that finds it silent. */
  lemma StepKeepsUnit<U>(m: Manager<U>, t: Timed, u: U)
    requires Sound(m) && Permitted(m, t.event) && u in m.holders
    ensures !HeldBy(Step(m, t), u, m.holders[u].id) <==>
            || (t.event == ReleaseCall(m.holders[u].id) && m.holders[u].id != "")
            || (t.event == JanitorTick && m.holders[u].lastCheckin <= t.now - m.allocationRefresh)
  {
    hide Sound, Janitor, Admit, CheckIn;
    match t.event
    case AllocateCall(msg, newId) =>
      if Accepted(m, msg, newId) {
        if msg.id == "" {
          AdmitKeeps(m, msg, newId.value, t.now, u);
        } else {
          CheckInKeeps(m, msg.id, t.now, u);
        }
      }
    case RefreshCall(topology, id) =>
    case ReleaseCall(id) =>
    case JanitorTick => JanitorKeeps(m, t.now, u);
  }

  lemma CheckInKeeps<U>(m: Manager<U>, id: string, now: int, u: U)
    requires u in m.holders
    ensures HeldBy(CheckIn(m, id, now), u, m.holders[u].id)
  {
  }

  /** Whoever is not queued gains nothing by a promotion. */
  lemma PromoteGivesQueued<U>(m: Manager<U>, id: string, u: U)
    requires Configured(m) && DistinctIds(m.queue) && u !in m.holders
    requires forall i | 0 <= i < |m.queue| :: m.queue[i].id != id
    ensures !HeldBy(Promote(m), u, id)
  {
    hide Promote, Wins, Wanted, Configured, DistinctIds;
    PromoteServes(m);
  }

  lemma JanitorKeeps<U>(m: Manager<U>, now: int, u: U)
    requires Sound(m) && u in m.holders
    ensures HeldBy(Janitor(m, now), u, m.holders[u].id) <==> m.holders[u].lastCheckin > now - m.allocationRefresh
  {
    hide Promote, Whole;
    var expired := ExpireAllocations(m, now - m.allocationRefresh);
    if u in expired.holders {
      PromoteServes(expired);
    } else {
      forall i | 0 <= i < |m.queue| ensures m.queue[i].id != m.holders[u].id {
        assert !Holds(m, m.queue[i].id);
      }
      PromoteGivesQueued(expired, m.holders[u].id, u);
    }
  }

  lemma AdmitKeeps<U>(m: Manager<U>, msg: Message, id: string, now: int, u: U)
    requires Sound(m) && Fresh(m, id) && u in m.holders
    ensures HeldBy(CheckIn(Admit(m, msg, id, now), id, now), u, m.holders[u].id)
  {
    EnqueueSound(m, MakeInv(msg, id, now));
    PromoteSound(m.(queue := m.queue + [MakeInv(msg, id, now)]));
  }

  /** After every janitor no queued request could be served. */
  lemma JanitorMaximal<U>(m: Manager<U>, now: int)
    ensures forall x | x in Janitor(m, now).queue :: Match(Janitor(m, now), x.wants, false) == None
  {
    PromoteMaximal(ExpireAllocations(m, now - m.allocationRefresh));
  }

  /** A refresh that is refused may still keep a gang alive: its state changes
      although the reply is an error exactly when the first unit of the named
      topology is held under the id and another one is not. */
  lemma RefusedRefreshCounts<U>(m: Manager<U>, topology: string, id: string, now: int)
    requires Sound(m)
    requires forall u | u in m.holders :: m.holders[u].lastCheckin != now
    ensures RefreshReply(m, topology, id, now) == FailedPrecondition && Refresh(m, topology, id, now) != m <==>
            && id != "" && topology in m.topologies && m.topologies[topology] != []
            && HeldBy(m, m.topologies[topology][0], id)
            && exists u | u in m.topologies[topology] :: !HeldBy(m, u, id)
  {
    if id != "" && topology in m.topologies && m.topologies[topology] != [] {
      var units := m.topologies[topology];
      var u := units[0];
      if HeldBy(m, u, id) {
        assert Touch(m.holders, id, now)[u].lastCheckin == now;
        assert Refresh(m, topology, id, now).holders[u] != m.holders[u];
      }
      if v :| v in units && !HeldBy(m, v, id) {
        var i :| 0 <= i < |units| && units[i] == v;
        assert !HoldsAll(m, units, id);
      }
      if !HoldsAll(m, units, id) {
        var i :| 0 <= i < |units| && !HeldBy(m, units[i], id);
        assert units[i] in units;
      }
    }
  }

  /** A new request is either served at once, with every unit of its topology,
      or queued; only one whose topology lists no units is dropped. */
  lemma NewRequestKept<U>(m: Manager<U>, msg: Message, id: string, now: int)
    requires Sound(m) && Fresh(m, id) && Match(m, msg.wants, true).Some?
    ensures var m', x, units := Admit(m, msg, id, now), MakeInv(msg, id, now), m.topologies[msg.wants.name];
      && (x in m'.queue || forall u | u in units :: u in m'.holders && m'.holders[u] == x)
      && (x in m'.queue ==> !Holds(m', id))
      && (x !in m'.queue && !Holds(m', id) ==> units == [])
      && (units == [] ==> x !in m'.queue && !Holds(m', id))
  {
    var x, units := MakeInv(msg, id, now), m.topologies[msg.wants.name];
    var before, n := m.(queue := m.queue + [x]), |m.queue|;
    EnqueueSound(m, x);
    PromoteSound(before);
    PromoteServes(before);
    hide Promote, Whole;
    var m' := Promote(before);
    assert before.queue[n] == x;
    if x !in m'.queue {
      assert forall u | u in units :: WonBy(before, before.queue, u, n);
      if units != [] {
        assert units[0] in units && WonBy(before, before.queue, units[0], n);
      }
    }
    if units == [] {
      assert Wins(before, before.queue, n);
      forall u | u in m'.holders ensures m'.holders[u].id != id {
        if u !in m.holders {
          var i: nat :| i < |before.queue| && WonBy(before, before.queue, u, i);
          assert i != n;
        }
      }
    }
  }
}
