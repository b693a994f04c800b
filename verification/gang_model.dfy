/** The allocation manager as a value. An invocation asks for a topology by name
    and gets all of its units at once; topologies may share units. `U` is what
    identifies a unit. */
module GangModel {
  import opened Wrappers
  import opened Integers

  datatype TopologyRequest = TopologyRequest(name: string, hosts: seq<string>)

  datatype Inv = Inv(id: string, owner: string, purpose: string, lastCheckin: int, wants: TopologyRequest)

  datatype Manager<U(==)> = Manager(
    topologies: map<string, seq<U>>,
    holders: map<U, Inv>,
    queue: seq<Inv>,
    allocationRefresh: int,
    queueRefresh: int)

  datatype Response<U> =
    | Allocated(id: string, host: U, deadline: int)
    | Queued(id: string, nextPoll: int, position: nat)
    | Refreshed(id: string, deadline: int)
    | Released
    | InvalidArgument
    | NotFound
    | FailedPrecondition
    | Internal

  // ------------------------------------------------------ single operations

  /** None of these units is held. */
  predicate Free<U>(holders: map<U, Inv>, units: seq<U>) {
    forall i | 0 <= i < |units| :: units[i] !in holders
  }

  /** The known topology that the invocation names, if any and, unless `all`, if
      it can be allocated now. */
  function Match<U>(m: Manager<U>, wants: TopologyRequest, all: bool): Option<string> {
    if wants.name != "" && wants.name in m.topologies && (all || Free(m.holders, m.topologies[wants.name]))
    then Some(wants.name) else None
  }

  /** Gives the units to the invocation one by one; stops at a unit that it
      already holds. */
  function Take<U>(holders: map<U, Inv>, units: seq<U>, inv: Inv): (map<U, Inv>, bool)
    decreases |units|
  {
    if units == [] then (holders, true)
    else if units[0] in holders && holders[units[0]].id == inv.id then (holders, false)
    else Take(holders[units[0] := inv], units[1..], inv)
  }

  function Without(q: seq<Inv>, id: string): seq<Inv> {
    if q == [] then []
    else Without(q[..|q| - 1], id) + (if q[|q| - 1].id == id then [] else [q[|q| - 1]])
  }

  function PromoteOne<U>(m: Manager<U>, inv: Inv): Manager<U> {
    match Match(m, inv.wants, false)
    case None => m
    case Some(name) =>
      m.(queue := Without(m.queue, inv.id), holders := Take(m.holders, m.topologies[name], inv).0)
  }

  /** Considers these requests in order. */
  function PromoteEach<U>(m: Manager<U>, q: seq<Inv>): Manager<U> {
    if q == [] then m else PromoteOne(PromoteEach(m, q[..|q| - 1]), q[|q| - 1])
  }

  /** The loop ranges over the queue as it was when the loop started. */
  function Promote<U>(m: Manager<U>): Manager<U> {
    PromoteEach(m, m.queue)
  }

  function ExpireAllocations<U>(m: Manager<U>, expiry: int): Manager<U> {
    m.(holders := map u | u in m.holders && m.holders[u].lastCheckin > expiry :: m.holders[u])
  }

  /** All units of a gang point to one invocation, so one check-in counts for
      all of them. */
  function Touch<U>(holders: map<U, Inv>, id: string, now: int): map<U, Inv> {
    map u | u in holders :: if holders[u].id == id then holders[u].(lastCheckin := now) else holders[u]
  }

  predicate Holds<U>(m: Manager<U>, id: string) {
    exists u | u in m.holders :: m.holders[u].id == id
  }

  /** How many requests stand before the first one with this id. */
  function Find(q: seq<Inv>, id: string): (i: nat)
    ensures i <= |q|
    ensures i < |q| ==> q[i].id == id
    ensures forall j | 0 <= j < i :: q[j].id != id
  {
    if q == [] || q[0].id == id then 0 else 1 + Find(q[1..], id)
  }

  // ------------------------------------------------ calls of a running server

  datatype Message = Message(id: string, owner: string, purpose: string, wants: TopologyRequest)

  function MakeInv(msg: Message, id: string, now: int): Inv {
    Inv(id, msg.owner, msg.purpose, now, msg.wants)
  }

  function Admit<U>(m: Manager<U>, msg: Message, id: string, now: int): Manager<U> {
    Promote(m.(queue := m.queue + [MakeInv(msg, id, now)]))
  }

  /** Notes that an invocation was heard of, wherever it is. */
  function CheckIn<U>(m: Manager<U>, id: string, now: int): Manager<U> {
    var i := Find(m.queue, id);
    if Holds(m, id) then m.(holders := Touch(m.holders, id, now))
    else if i < |m.queue| then m.(queue := m.queue[i := m.queue[i].(lastCheckin := now)])
    else m
  }

  /** The reply about an invocation, in the state after its check-in. Which of
      its units is reported is not determined. */
  predicate Answers<U>(m: Manager<U>, id: string, now: int, r: Response<U>) {
    var i := Find(m.queue, id);
    if Holds(m, id) then
      && r.Allocated? && r.id == id && r.deadline == now + m.allocationRefresh
      && r.host in m.holders && m.holders[r.host].id == id
    else if i < |m.queue| then r == Queued(id, now + m.queueRefresh, (i + 1) % U32_SIZE)
    else r == FailedPrecondition
  }

  predicate Accepted<U>(m: Manager<U>, msg: Message, newId: Option<string>) {
    && (msg.wants.name != "" || msg.wants.hosts != [])
    && (msg.id == "" ==> Match(m, msg.wants, true).Some? && newId.Some?)
  }

  function Allocate<U>(m: Manager<U>, msg: Message, newId: Option<string>, now: int): Manager<U> {
    if !Accepted(m, msg, newId) then m
    else if msg.id == "" then CheckIn(Admit(m, msg, newId.value, now), newId.value, now)
    else CheckIn(m, msg.id, now)
  }

  /** The reply to Allocate, given the states before and after. */
  predicate AllocateReply<U>(m: Manager<U>, m': Manager<U>, msg: Message, newId: Option<string>, now: int,
                             r: Response<U>)
  {
    if msg.wants.name == "" && msg.wants.hosts == [] then r == InvalidArgument
    else if msg.id != "" then Answers(m', msg.id, now, r)
    else if Match(m, msg.wants, true) == None then r == InvalidArgument
    else if newId == None then r == Internal
    else Answers(m', newId.value, now, r)
  }

  /** Whether every unit of the topology is held by the invocation. */
  predicate HoldsAll<U>(m: Manager<U>, units: seq<U>, id: string) {
    forall i | 0 <= i < |units| :: units[i] in m.holders && m.holders[units[i]].id == id
  }

  /** Units are checked in one at a time until one is not held; as they share
      one invocation, the first check-in counts for all. */
  function CheckInUnits<U>(m: Manager<U>, units: seq<U>, id: string, now: int): Manager<U> {
    if units != [] && units[0] in m.holders && m.holders[units[0]].id == id
    then m.(holders := Touch(m.holders, id, now)) else m
  }

  function Refresh<U>(m: Manager<U>, topology: string, id: string, now: int): Manager<U> {
    if topology !in m.topologies || id == "" then m else CheckInUnits(m, m.topologies[topology], id, now)
  }

  function Forget<U>(holders: map<U, Inv>, id: string): map<U, Inv> {
    map u | u in holders && holders[u].id != id :: holders[u]
  }

  /** The reply to Refresh. */
  function RefreshReply<U>(m: Manager<U>, topology: string, id: string, now: int): Response<U> {
    if topology !in m.topologies then NotFound
    else if id == "" then InvalidArgument
    else if HoldsAll(m, m.topologies[topology], id) then Refreshed(id, now + m.allocationRefresh)
    else FailedPrecondition
  }

  /** Releases units; the queue is left alone. */
  function Release<U>(m: Manager<U>, id: string): Manager<U> {
    if id == "" then m else m.(holders := Forget(m.holders, id))
  }

  function Janitor<U>(m: Manager<U>, now: int): Manager<U> {
    Promote(ExpireAllocations(m, now - m.allocationRefresh))
  }

  datatype Event =
    | AllocateCall(msg: Message, newId: Option<string>)
    | RefreshCall(topology: string, id: string)
    | ReleaseCall(id: string)
    | JanitorTick

  datatype Timed = Timed(event: Event, now: int)

  function Step<U>(m: Manager<U>, t: Timed): Manager<U> {
    match t.event
    case AllocateCall(msg, newId) => Allocate(m, msg, newId, t.now)
    case RefreshCall(topology, id) => Refresh(m, topology, id, t.now)
    case ReleaseCall(id) => Release(m, id)
    case JanitorTick => Janitor(m, t.now)
  }

  function Run<U>(m: Manager<U>, ts: seq<Timed>): Manager<U> {
    if ts == [] then m else Step(Run(m, ts[..|ts| - 1]), ts[|ts| - 1])
  }

  // -------------------------------------------------------------- invariant

  ghost predicate DistinctUnits<U>(units: seq<U>) {
    forall i, j | 0 <= i < j < |units| :: units[i] != units[j]
  }

  ghost predicate Configured<U>(m: Manager<U>) {
    forall n | n in m.topologies :: DistinctUnits(m.topologies[n])
  }

  /** The holder of unit `u` holds exactly the units of the topology it named. */
  ghost predicate Gang<U>(topologies: map<string, seq<U>>, holders: map<U, Inv>, u: U)
    requires u in holders
  {
    var inv := holders[u];
    && inv.wants.name in topologies
    && (forall v | v in topologies[inv.wants.name] :: v in holders && holders[v].id == inv.id)
    && (forall v | v in holders && holders[v].id == inv.id :: v in topologies[inv.wants.name])
  }

  /** Every gang is whole, and units with the same holder agree about it. */
  ghost predicate Whole<U>(topologies: map<string, seq<U>>, holders: map<U, Inv>) {
    && (forall u | u in holders :: Gang(topologies, holders, u))
    && (forall u, v | u in holders && v in holders && holders[u].id == holders[v].id :: holders[u] == holders[v])
  }

  ghost predicate DistinctIds(q: seq<Inv>) {
    forall i, j | 0 <= i < j < |q| :: q[i].id != q[j].id
  }

  ghost predicate Sound<U>(m: Manager<U>) {
    && Configured(m)
    && Whole(m.topologies, m.holders)
    && DistinctIds(m.queue)
    && (forall i | 0 <= i < |m.queue| :: !Holds(m, m.queue[i].id))
  }
}
