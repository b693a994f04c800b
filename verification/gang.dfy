/** The allocation manager in its running state: units point to the invocation
    that holds them, all units of a gang point to the same one, and the queue is
    scanned while entries are removed from it. */
module AllocationManager {
  import opened Wrappers
  import opened Integers
  import opened GangModel
  import opened GangProofs
  import opened GangPromotion
  import opened GangRuns

  class Invocation {
    const id: string
    const owner: string
    const purpose: string
    const wants: TopologyRequest
    var lastCheckin: int

    constructor (msg: Message, id: string, now: int)
      ensures Val() == MakeInv(msg, id, now)
    {
      this.id, owner, purpose, wants, lastCheckin := id, msg.owner, msg.purpose, msg.wants, now;
    }

    ghost function Val(): Inv
      reads this
    {
      Inv(id, owner, purpose, lastCheckin, wants)
    }
  }

  class Unit {
    const name: string
    var invocation: Invocation?

    constructor (name: string)
      ensures this.name == name && invocation == null
    {
      this.name, invocation := name, null;
    }

    /** Refuses an invocation that holds the unit already, and nobody else. */
    method Allocate(inv: Invocation) returns (ok: bool)
      modifies `invocation
      ensures ok <==> !(old(invocation) != null && old(invocation).id == inv.id)
      ensures invocation == if ok then inv else old(invocation)
    {
      if invocation != null && invocation.id == inv.id {
        return false;
      }
      invocation := inv;
      return true;
    }

    predicate IsAllocated()
      reads this
    {
      invocation != null
    }

    function GetInvocation(id: string): (inv: Invocation?)
      reads this, invocation
      ensures inv != null <==> invocation != null && invocation.id == id
      ensures inv != null ==> inv == invocation
    {
      if invocation != null && invocation.id == id then invocation else null
    }

    method ExpireAllocations(expiry: int)
      modifies `invocation
      ensures invocation ==
              if old(invocation) != null && old(invocation).lastCheckin <= expiry then null else old(invocation)
    {
      if invocation != null && invocation.lastCheckin <= expiry {
        invocation := null;
      }
    }

    method Forget(id: string) returns (count: nat)
      modifies `invocation
      ensures count == if old(invocation) != null && old(invocation).id == id then 1 else 0
      ensures invocation == if count == 1 then null else old(invocation)
    {
      if invocation != null && id == invocation.id {
        invocation := null;
        return 1;
      }
      return 0;
    }
  }

  class Topology {
    const name: string
    const units: seq<Unit>

    constructor (name: string, units: seq<Unit>)
      ensures this.name == name && this.units == units
    {
      this.name, this.units := name, units;
    }

    /** Allocates units in order until one refuses. Every unit is allocated
        exactly when the units are distinct and none of them is held under this
        id. */
    method Allocate(inv: Invocation) returns (ok: bool, ghost taken: nat)
      modifies units
      ensures taken <= |units| && (ok <==> taken == |units|)
      ensures forall i | 0 <= i < taken :: units[i].invocation == inv
      ensures forall u | u in units && u !in units[..taken] :: u.invocation == old(u.invocation)
      ensures ok <==> DistinctUnits(units) &&
                      forall u | u in units :: old(u.invocation) == null || old(u.invocation).id != inv.id
    {
      for i := 0 to |units|
        invariant forall j | 0 <= j < i :: units[j].invocation == inv
        invariant forall u | u in units && u !in units[..i] :: u.invocation == old(u.invocation)
        invariant DistinctUnits(units[..i])
        invariant forall j | 0 <= j < i :: old(units[j].invocation) == null || old(units[j].invocation).id != inv.id
      {
        if units[i] in units[..i] {
          assert units[i].invocation == inv;
        }
        var accepted := units[i].Allocate(inv);
        if !accepted {
          return false, i;
        }
      }
      assert units[..|units|] == units;
      return true, |units|;
    }

    method CanBeAllocated() returns (free: bool)
      ensures free <==> forall u | u in units :: u.invocation == null
    {
      for i := 0 to |units|
        invariant forall j | 0 <= j < i :: units[j].invocation == null
      {
        if units[i].IsAllocated() {
          return false;
        }
      }
      return true;
    }
  }

  class Server {
    const units: set<Unit>
    const topologies: map<string, Topology>
    const allocationRefresh: int
    const queueRefresh: int
    var queue: seq<Invocation>
    /** The queue and the holders of units as values. */
    ghost var waiting: seq<Inv>
    ghost var holders: map<Unit, Inv>
    /** The invocation that each held unit points to. */
    ghost var gangs: map<Unit, Invocation>
    /** Every invocation that was ever queued. */
    ghost var known: set<Invocation>

    constructor (units: set<Unit>, topologies: map<string, Topology>, allocationRefresh: int, queueRefresh: int)
      requires forall u | u in units :: u.invocation == null
      requires forall n | n in topologies :: forall u | u in topologies[n].units :: u in units
      ensures Valid() && known == {}
      ensures State() == Manager(Configuration(topologies), map[], [], allocationRefresh, queueRefresh)
    {
      this.units, this.topologies := units, topologies;
      this.allocationRefresh, this.queueRefresh := allocationRefresh, queueRefresh;
      queue, waiting, holders, gangs, known := [], [], map[], map[], {};
    }

    static ghost function Configuration(topologies: map<string, Topology>): map<string, seq<Unit>> {
      map n | n in topologies :: topologies[n].units
    }

    ghost function State(): Manager<Unit>
      reads this
    {
      Manager(Configuration(topologies), holders, waiting, allocationRefresh, queueRefresh)
    }

    ghost predicate QueueTied()
      reads this, queue
    {
      && |queue| == |waiting|
      && forall i | 0 <= i < |queue| :: queue[i] in known && queue[i].Val() == waiting[i]
    }

    ghost predicate UnitTied(u: Unit)
      reads this, u
    {
      u.invocation == if u in gangs then gangs[u] else null
    }

    ghost predicate HolderTied(u: Unit)
      requires u in gangs && u in holders
      reads this, gangs[u]
    {
      gangs[u] in known && gangs[u].Val() == holders[u]
    }

    ghost predicate Valid()
      reads this, units, known, queue, gangs.Values
    {
      && QueueTied()
      && HoldersTied()
      && holders.Keys <= units
      && (forall u | u in units :: UnitTied(u))
      && (forall n | n in topologies :: forall u | u in topologies[n].units :: u in units)
    }

    /** Units held under one id point to one invocation. */
    static ghost predicate OneObject(gangs: map<Unit, Invocation>) {
      forall u, v | u in gangs && v in gangs && gangs[u].id == gangs[v].id :: gangs[u] == gangs[v]
    }

    /** The known topologies that the request names, available or not. */
    method Matchmaker(wants: TopologyRequest, all: bool) returns (matches: seq<Topology>)
      requires Valid()
      ensures matches == match Match(State(), wants, all)
                         case None => []
                         case Some(name) => [topologies[name]]
    {
      matches := [];
      if wants.name != "" {
        var rest := topologies.Keys;
        while rest != {}
          invariant rest <= topologies.Keys
          invariant wants.name in rest ==> matches == []
          invariant wants.name !in rest ==>
              matches == (match Match(State(), wants, all) case None => [] case Some(name) => [topologies[name]])
        {
          var name :| name in rest;
          rest := rest - {name};
          var available := topologies[name].CanBeAllocated();
          if all || available {
            if name == wants.name {
              matches := matches + [topologies[name]];
            }
          }
        }
      }
    }

    /** Removes every entry with this id from the queue. */
    method Unqueue(id: string)
      requires Valid()
      modifies `queue, `waiting
      ensures Valid()
      ensures waiting == Without(old(waiting), id)
    {
      var kept: seq<Invocation> := [];
      ghost var left: seq<Inv> := [];
      for i := 0 to |queue|
        invariant |kept| == |left| && left == Without(waiting[..i], id)
        invariant forall j | 0 <= j < |kept| :: kept[j] in known && kept[j].Val() == left[j]
      {
        assert waiting[..i + 1][..i] == waiting[..i];
        if queue[i].id != id {
          kept, left := kept + [queue[i]], left + [waiting[i]];
        }
      }
      assert waiting[..|queue|] == waiting;
      queue, waiting := kept, left;
    }

    /** The body of the promotion loop. */
    method PromoteEntry(inv: Invocation)
      requires Valid() && Sound(State()) && inv in known && inv.Val() in waiting
      modifies `queue, `waiting, `holders, `gangs, units
      ensures Valid()
      ensures State() == PromoteOne(old(State()), inv.Val())
    {
      var matches := Matchmaker(inv.wants, false);
      if |matches| > 0 {
        Unqueue(inv.id);
        Give(matches[0], inv);
      }
    }

    /** Gives all units of a free topology to one invocation. */
    method Give(topology: Topology, inv: Invocation)
      requires Valid() && inv in known && DistinctUnits(topology.units)
      requires forall u | u in topology.units :: u in units
      requires Free(holders, topology.units)
      requires forall u | u in holders :: holders[u].id != inv.id
      modifies `holders, `gangs, units
      ensures Valid()
      ensures holders == Take(old(holders), topology.units, inv.Val()).0
    {
      hide Take, Granted, OneObject;
      TakeAll(holders, topology.units, inv.Val());
      var _, _ := topology.Allocate(inv);
      assert HoldersTied() && QueueTied();
      Note(topology.units, inv);
      forall u | u in units ensures UnitTied(u) {
        assert old(UnitTied(u));
      }
    }

    ghost predicate HoldersTied()
      reads this, gangs.Values
    {
      holders.Keys == gangs.Keys && OneObject(gangs) && forall u | u in gangs :: HolderTied(u)
    }

    /** Keeps the ghost maps in step with units that were given away. */
    ghost method Note(given: seq<Unit>, inv: Invocation)
      requires HoldersTied() && QueueTied() && inv in known
      requires forall u | u in holders :: holders[u].id != inv.id
      modifies `holders, `gangs
      ensures HoldersTied() && QueueTied()
      ensures gangs == Granted(old(gangs), given, inv)
      ensures holders == Granted(old(holders), given, inv.Val())
    {
      hide Granted, OneObject;
      forall u | u in gangs ensures gangs[u].id != inv.id {
        assert HolderTied(u);
      }
      OneObjectMore(gangs, given, inv);
      gangs := Granted(gangs, given, inv);
      holders := Granted(holders, given, inv.Val());
      forall u | u in gangs ensures HolderTied(u) {
        assert u !in given ==> old(HolderTied(u));
      }
    }

    /** A gang for an id that holds nothing. */
    static lemma OneObjectMore(gangs: map<Unit, Invocation>, units: seq<Unit>, inv: Invocation)
      requires OneObject(gangs)
      requires forall u | u in gangs :: gangs[u].id != inv.id
      ensures OneObject(Granted(gangs, units, inv))
    {
    }

    /** Tries to serve each request that was queued when the scan began. */
    method Promote()
      requires Valid() && Sound(State())
      modifies `queue, `waiting, `holders, `gangs, units
      ensures Valid()
      ensures State() == GangModel.Promote(old(State()))
    {
      ghost var before := State();
      var snapshot := queue;
      for i := 0 to |snapshot|
        invariant Valid()
        invariant forall j | 0 <= j < |snapshot| :: snapshot[j] in known && snapshot[j].Val() == before.queue[j]
        invariant State() == PromoteEach(before, before.queue[..i])
      {
        StillQueued(before, i);
        PromoteEntry(snapshot[i]);
        assert before.queue[..i + 1][..i] == before.queue[..i];
      }
      assert before.queue[..|snapshot|] == before.queue;
    }

    /** Frees the units of everyone not heard of since `expiry`. */
    method ExpireAllocations(expiry: int)
      requires Valid()
      modifies `holders, `gangs, units
      ensures Valid()
      ensures State() == GangModel.ExpireAllocations(old(State()), expiry)
    {
      HoldersAreUnits();
      hide Valid, Swept, GangModel.ExpireAllocations;
      var rest := units;
      ghost var before, silent := holders, Silent(holders, expiry);
      SweepStart(before, silent, units);
      while rest != {}
        invariant rest <= units && Valid()
        invariant Swept(before, holders, silent, rest)
      {
        var u :| u in rest;
        SweepStep(before, holders, silent, rest, u);
        ExpireUnit(u, expiry);
        rest := rest - {u};
      }
      ExpirySwept(old(State()), holders, expiry);
    }

    lemma HoldersAreUnits()
      requires Valid()
      ensures holders.Keys <= units
    {
    }

    method ExpireUnit(u: Unit, expiry: int)
      requires Valid() && u in units
      modifies `holders, `gangs, u
      ensures Valid()
      ensures holders ==
              if u in old(holders) && old(holders)[u].lastCheckin <= expiry then old(holders) - {u} else old(holders)
    {
      hide OneObject;
      assert UnitTied(u) && (u in gangs ==> HolderTied(u));
      u.ExpireAllocations(expiry);
      assert HoldersTied() && QueueTied();
      Forgotten(u);
      forall v | v in units ensures UnitTied(v) {
        assert old(UnitTied(v));
      }
      assert HoldersTied() && QueueTied();
    }

    method ForgetUnit(u: Unit, id: string) returns (freed: nat)
      requires Valid() && u in units
      modifies `holders, `gangs, u
      ensures Valid()
      ensures freed == if u in old(holders) && old(holders)[u].id == id then 1 else 0
      ensures holders == if freed == 1 then old(holders) - {u} else old(holders)
    {
      hide OneObject;
      assert UnitTied(u) && (u in gangs ==> HolderTied(u));
      freed := u.Forget(id);
      assert HoldersTied() && QueueTied();
      Forgotten(u);
      forall v | v in units ensures UnitTied(v) {
        assert old(UnitTied(v));
      }
      assert HoldersTied() && QueueTied();
    }

    /** Keeps the ghost maps in step with a unit that may have been freed. */
    ghost method Forgotten(u: Unit)
      requires HoldersTied()
      modifies `holders, `gangs
      ensures HoldersTied()
      ensures gangs == if u.invocation == null then old(gangs) - {u} else old(gangs)
      ensures holders == if u.invocation == null then old(holders) - {u} else old(holders)
    {
      if u.invocation == null {
        gangs, holders := gangs - {u}, holders - {u};
        forall v | v in gangs ensures HolderTied(v) {
          assert old(HolderTied(v));
        }
      }
    }

    /** Frees all units held under this id. */
    method ForgetUnits(id: string) returns (count: nat)
      requires Valid()
      modifies `holders, `gangs, units
      ensures Valid()
      ensures holders == GangModel.Forget(old(holders), id)
      ensures count == 0 <==> !Holds(old(State()), id)
    {
      HoldersAreUnits();
      hide Valid, Swept, GangModel.Forget, Holds;
      count := 0;
      var rest := units;
      ghost var before, gang := holders, HeldUnits(holders, id);
      SweepStart(before, gang, units);
      while rest != {}
        invariant rest <= units && Valid()
        invariant Swept(before, holders, gang, rest)
        invariant count == 0 <==> gang <= rest
      {
        var u :| u in rest;
        SweepStep(before, holders, gang, rest, u);
        var freed := ForgetUnit(u, id);
        count := count + freed;
        rest := rest - {u};
      }
      ReleaseSwept(old(State()), holders, id);
    }

    /** A unit held under this id, if there is one. */
    method FindUnit(id: string) returns (unit: Unit?)
      requires Valid()
      ensures unit == null <==> !Holds(State(), id)
      ensures unit != null ==> unit in holders && holders[unit].id == id
    {
      var rest := units;
      while rest != {}
        invariant rest <= units
        invariant forall u | u in holders && u !in rest :: holders[u].id != id
      {
        var u :| u in rest;
        rest := rest - {u};
        assert UnitTied(u) && (u in gangs ==> HolderTied(u));
        if u.GetInvocation(id) != null {
          return u;
        }
      }
      return null;
    }

    /** The first queued invocation with this id, and its 1-based position. */
    method Get(id: string) returns (inv: Invocation?, position: nat)
      requires Valid()
      ensures var i := Find(waiting, id);
        if i < |waiting| then inv == queue[i] && position == (i + 1) % U32_SIZE else inv == null && position == 0
    {
      for i := 0 to |queue|
        invariant forall j | 0 <= j < i :: waiting[j].id != id
      {
        if queue[i].id == id {
          FirstFound(waiting, id, i);
          return queue[i], (i + 1) % U32_SIZE;
        }
      }
      return null, 0;
    }

    /** All units of a gang see one write to the invocation they share. */
    method Touch(unit: Unit, now: int)
      requires Valid() && Sound(State()) && unit in holders
      requires unit.invocation != null
      modifies `holders, unit.invocation`lastCheckin
      ensures Valid()
      ensures holders == GangModel.Touch(old(holders), old(holders)[unit].id, now)
    {
      hide Sound, GangModel.Touch;
      var inv := unit.invocation;
      assert UnitTied(unit) && HolderTied(unit);
      NotQueued(inv.id);
      CheckIn(inv, now);
    }

    /** One write to a shared invocation, seen through every unit of its gang. */
    method CheckIn(inv: Invocation, now: int)
      requires QueueTied() && HoldersTied() && inv in gangs.Values
      requires forall i | 0 <= i < |queue| :: queue[i].id != inv.id
      modifies `holders, inv`lastCheckin
      ensures QueueTied() && HoldersTied()
      ensures holders == GangModel.Touch(old(holders), inv.id, now)
    {
      hide GangModel.Touch;
      assert forall u | u in gangs && gangs[u].id == inv.id :: gangs[u] == inv;
      hide OneObject;
      inv.lastCheckin := now;
      TouchAt(holders, inv.id, now);
      holders := GangModel.Touch(holders, inv.id, now);
      forall u | u in gangs ensures HolderTied(u) {
        assert old(HolderTied(u));
      }
    }

    lemma NotQueued(id: string)
      requires Valid() && Sound(State()) && Holds(State(), id)
      ensures forall i | 0 <= i < |queue| :: queue[i].id != id
    {
      forall i | 0 <= i < |queue| ensures queue[i].id != id {
        assert !Holds(State(), waiting[i].id);
      }
    }

    /** A check-in of a queued invocation. */
    method CheckInQueued(inv: Invocation, ghost i: nat, now: int)
      requires QueueTied() && HoldersTied() && i < |queue| && inv == queue[i]
      requires forall j | 0 <= j < |queue| && j != i :: queue[j].id != queue[i].id
      requires forall u | u in gangs :: gangs[u].id != queue[i].id
      modifies `waiting, inv`lastCheckin
      ensures QueueTied() && HoldersTied()
      ensures waiting == old(waiting)[i := old(waiting)[i].(lastCheckin := now)]
    {
      inv.lastCheckin := now;
      waiting := waiting[i := waiting[i].(lastCheckin := now)];
      forall u | u in gangs ensures HolderTied(u) {
        assert old(HolderTied(u));
      }
    }

    // ------------------------------------------------------ calls and the janitor

    /** Queues a new invocation and tries to serve it at once. */
    method Admit(msg: Message, id: string, now: int)
      requires Valid() && Sound(State()) && Fresh(State(), id)
      modifies `queue, `waiting, `holders, `gangs, `known, units
      ensures Valid() && Sound(State())
      ensures State() == GangModel.Admit(old(State()), msg, id, now)
      ensures old(known) <= known && fresh(known - old(known))
    {
      hide Sound;
      AdmitSound(State(), msg, id, now);
      var inv := new Invocation(msg, id, now);
      Enqueue(inv);
      Promote();
    }

    method Enqueue(inv: Invocation)
      requires Valid() && Sound(State()) && Fresh(State(), inv.id)
      modifies `queue, `waiting, `known
      ensures Valid() && Sound(State())
      ensures waiting == old(waiting) + [inv.Val()] && known == old(known) + {inv}
    {
      hide Sound, OneObject;
      EnqueueSound(State(), inv.Val());
      known := known + {inv};
      queue, waiting := queue + [inv], waiting + [inv.Val()];
    }

    /** Notes that an invocation was heard of and tells where it stands. */
    method Answer(id: string, now: int) returns (r: Response<Unit>)
      requires Valid() && Sound(State())
      modifies `holders, `waiting, known`lastCheckin
      ensures Valid() && Sound(State())
      ensures State() == GangModel.CheckIn(old(State()), id, now)
      ensures Answers(State(), id, now, r)
    {
      hide Sound, Valid, GangModel.Touch, Find;
      CheckInSound(State(), id, now);
      var unit := FindUnit(id);
      if unit != null {
        HolderKnown(unit);
        Touch(unit, now);
        TouchAt(old(holders), id, now);
        assert Holds(State(), id);
        return Allocated(id, unit, now + allocationRefresh);
      }
      SameLength();
      var inv, position := Get(id);
      if inv == null {
        return FailedPrecondition;
      }
      TouchQueued(inv, Find(waiting, id), now);
      FindTouched(old(waiting), id, now);
      return Queued(id, now + queueRefresh, position);
    }

    lemma SameLength()
      requires Valid()
      ensures |queue| == |waiting|
    {
    }

    method TouchQueued(inv: Invocation, ghost i: nat, now: int)
      requires Valid() && Sound(State()) && i < |queue| && inv == queue[i]
      modifies `waiting, known`lastCheckin
      ensures Valid()
      ensures waiting == old(waiting)[i := old(waiting)[i].(lastCheckin := now)]
    {
      hide Sound;
      QueuedAlone(i);
      CheckInQueued(inv, i, now);
    }

    lemma HolderKnown(u: Unit)
      requires Valid() && u in holders
      ensures u.invocation != null && u.invocation in known && u.invocation.id == holders[u].id
    {
      assert UnitTied(u) && HolderTied(u);
    }

    /** A queued invocation shares its id with no other, queued or holding. */
    lemma QueuedAlone(i: nat)
      requires Valid() && Sound(State()) && i < |queue|
      ensures queue[i] in known
      ensures forall j | 0 <= j < |queue| && j != i :: queue[j].id != queue[i].id
      ensures forall u | u in gangs :: gangs[u].id != queue[i].id
    {
      assert !Holds(State(), waiting[i].id);
      forall u | u in gangs ensures gangs[u].id != queue[i].id {
        assert HolderTied(u);
      }
      forall j | 0 <= j < |queue| && j != i ensures queue[j].id != queue[i].id {
        assert waiting[j].id != waiting[i].id;
      }
    }

    method Allocate(msg: Message, newId: Option<string>, now: int) returns (r: Response<Unit>)
      requires Valid() && Sound(State())
      requires newId.Some? ==> Fresh(State(), newId.value)
      modifies `queue, `waiting, `holders, `gangs, `known, units, known`lastCheckin
      ensures Valid() && Sound(State())
      ensures State() == GangModel.Allocate(old(State()), msg, newId, now)
      ensures AllocateReply(old(State()), State(), msg, newId, now, r)
    {
      hide Sound, Valid, GangModel.CheckIn, GangModel.Admit, Answers;
      if msg.wants.name == "" && msg.wants.hosts == [] {
        return InvalidArgument;
      }
      var id := msg.id;
      if id == "" {
        var matches := Matchmaker(msg.wants, true);
        if |matches| == 0 {
          return InvalidArgument;
        }
        if newId == None {
          return Internal;
        }
        id := newId.value;
        Admit(msg, id, now);
      }
      r := Answer(id, now);
    }

    /** Checks the units of a topology in, one by one, until one is not held
        under this id. */
    method Refresh(topology: string, id: string, now: int) returns (r: Response<Unit>)
      requires Valid() && Sound(State())
      modifies `holders, known`lastCheckin
      ensures Valid() && Sound(State())
      ensures State() == GangModel.Refresh(old(State()), topology, id, now)
      ensures r == RefreshReply(old(State()), topology, id, now)
    {
      ConfiguredUnits(topology);
      hide Sound, Valid, GangModel.CheckInUnits, HoldsAll, Configuration;
      if topology !in topologies {
        return NotFound;
      }
      if id == "" {
        return InvalidArgument;
      }
      var ok := CheckInUnits(topologies[topology].units, id, now);
      if !ok {
        return FailedPrecondition;
      }
      return Refreshed(id, now + allocationRefresh);
    }

    lemma ConfiguredUnits(n: string)
      requires Valid()
      ensures n in topologies <==> n in Configuration(topologies)
      ensures n in topologies ==> Configuration(topologies)[n] == topologies[n].units
      ensures n in topologies ==> forall u | u in topologies[n].units :: u in units
    {
    }

    method CheckInUnits(list: seq<Unit>, id: string, now: int) returns (ok: bool)
      requires Valid() && Sound(State()) && forall u | u in list :: u in units
      modifies `holders, known`lastCheckin
      ensures Valid() && Sound(State())
      ensures State() == GangModel.CheckInUnits(old(State()), list, id, now)
      ensures ok <==> HoldsAll(old(State()), list, id)
    {
      hide Sound, Valid, GangModel.Touch;
      for i := 0 to |list|
        invariant Valid() && Sound(State())
        invariant holders == if i == 0 then old(holders) else GangModel.Touch(old(holders), id, now)
        invariant forall j | 0 <= j < i :: list[j] in old(holders) && old(holders)[list[j]].id == id
      {
        TouchAt(old(holders), id, now);
        TouchTwice(old(holders), id, now);
        var held := CheckInUnit(list[i], id, now);
        if !held {
          return false;
        }
      }
      return true;
    }

    method CheckInUnit(unit: Unit, id: string, now: int) returns (held: bool)
      requires Valid() && Sound(State()) && unit in units
      modifies `holders, known`lastCheckin
      ensures Valid() && Sound(State())
      ensures held <==> unit in old(holders) && old(holders)[unit].id == id
      ensures holders == if held then GangModel.Touch(old(holders), id, now) else old(holders)
    {
      hide Sound, Valid, GangModel.Touch;
      held := HeldUnder(unit, id);
      if held {
        TouchSound(State(), id, now);
        HolderKnown(unit);
        Touch(unit, now);
      }
    }

    method HeldUnder(unit: Unit, id: string) returns (held: bool)
      requires Valid() && unit in units
      ensures held <==> unit in holders && holders[unit].id == id
    {
      assert UnitTied(unit) && (unit in gangs ==> HolderTied(unit));
      held := unit.GetInvocation(id) != null;
    }

    /** Frees the units of an id. A queued request is not withdrawn. */
    method Release(id: string) returns (r: Response<Unit>)
      requires Valid() && Sound(State())
      modifies `holders, `gangs, units
      ensures Valid() && Sound(State())
      ensures State() == GangModel.Release(old(State()), id)
      ensures r == if id == "" then InvalidArgument
                   else if Holds(old(State()), id) then Released else FailedPrecondition
    {
      hide Sound, Valid, Holds;
      if id == "" {
        return InvalidArgument;
      }
      ReleaseFreesGang(State(), id);
      var count := ForgetUnits(id);
      return if count == 0 then FailedPrecondition else Released;
    }

    method Janitor(now: int)
      requires Valid() && Sound(State())
      modifies `queue, `waiting, `holders, `gangs, units
      ensures Valid() && Sound(State())
      ensures State() == GangModel.Janitor(old(State()), now)
    {
      hide Sound, Valid, GangModel.Promote, GangModel.ExpireAllocations;
      ExpireSound(State(), now - allocationRefresh);
      ExpireAllocations(now - allocationRefresh);
      PromoteSound(State());
      Promote();
    }
  }

  lemma TouchTwice<U>(holders: map<U, Inv>, id: string, now: int)
    ensures GangModel.Touch(GangModel.Touch(holders, id, now), id, now) == GangModel.Touch(holders, id, now)
  {
  }

  lemma FindTouched(q: seq<Inv>, id: string, now: int)
    requires Find(q, id) < |q|
    ensures Find(q[Find(q, id) := q[Find(q, id)].(lastCheckin := now)], id) == Find(q, id)
  {
    var i := Find(q, id);
    FirstFound(q[i := q[i].(lastCheckin := now)], id, i);
  }

  lemma TouchAt<U>(holders: map<U, Inv>, id: string, now: int)
    ensures GangModel.Touch(holders, id, now).Keys == holders.Keys
    ensures forall u | u in holders :: GangModel.Touch(holders, id, now)[u] ==
                                       if holders[u].id == id then holders[u].(lastCheckin := now) else holders[u]
  {
  }

  /** A sweep that frees the units in `gone` and has yet to visit `rest`. */
  ghost predicate Swept<U, V>(before: map<U, V>, now: map<U, V>, gone: set<U>, rest: set<U>) {
    now == before - (gone - rest)
  }

  lemma SweepStart<U, V>(before: map<U, V>, gone: set<U>, rest: set<U>)
    requires gone <= before.Keys <= rest
    ensures Swept(before, before, gone, rest)
  {
    assert gone - rest == {};
  }

  lemma SweepStep<U, V>(before: map<U, V>, now: map<U, V>, gone: set<U>, rest: set<U>, u: U)
    requires u in rest && gone <= before.Keys && Swept(before, now, gone, rest)
    ensures u in now <==> u in before
    ensures u in now ==> now[u] == before[u]
    ensures Swept(before, if u in gone then now - {u} else now, gone, rest - {u})
  {
    if u in gone {
      assert gone - (rest - {u}) == (gone - rest) + {u};
    } else {
      assert gone - (rest - {u}) == gone - rest;
    }
  }

  /** What expiry leaves is what a sweep over the silent units leaves. */
  lemma ExpirySwept<U>(m: Manager<U>, now: map<U, Inv>, expiry: int)
    requires Swept(m.holders, now, Silent(m.holders, expiry), {})
    ensures m.(holders := now) == GangModel.ExpireAllocations(m, expiry)
  {
    assert Silent(m.holders, expiry) - {} == Silent(m.holders, expiry);
  }

  lemma ReleaseSwept<U>(m: Manager<U>, now: map<U, Inv>, id: string)
    requires Swept(m.holders, now, HeldUnits(m.holders, id), {})
    ensures now == GangModel.Forget(m.holders, id)
    ensures HeldUnits(m.holders, id) == {} <==> !Holds(m, id)
  {
    assert HeldUnits(m.holders, id) - {} == HeldUnits(m.holders, id);
    if Holds(m, id) {
      var u :| u in m.holders && m.holders[u].id == id;
      assert u in HeldUnits(m.holders, id);
    }
  }

  function Silent<U>(holders: map<U, Inv>, expiry: int): (units: set<U>)
    ensures units <= holders.Keys
  {
    set u | u in holders && holders[u].lastCheckin <= expiry
  }

  function HeldUnits<U>(holders: map<U, Inv>, id: string): (units: set<U>)
    ensures units <= holders.Keys
  {
    set u | u in holders && holders[u].id == id
  }

  lemma {:induction false} FirstFound(q: seq<Inv>, id: string, i: nat)
    requires i < |q| && q[i].id == id && forall j | 0 <= j < i :: q[j].id != id
    ensures Find(q, id) == i
  {
    var f := Find(q, id);
    assert q[f].id == id;
  }

  /** A request that was not considered yet is still queued. */
  lemma StillQueued<U>(m: Manager<U>, i: nat)
    requires Sound(m) && i < |m.queue|
    ensures Sound(PromoteEach(m, m.queue[..i])) && m.queue[i] in PromoteEach(m, m.queue[..i]).queue
  {
    hide Wins, Whole;
    PromoteEachSound(m, m.queue[..i]);
    PromoteEachIsGreedy(m, i);
    assert m.queue[i] in m.queue[i..];
  }
}
