/** The flextape server as a value: every call that its mutex serializes is one
    step from one state to the next. */
module ServiceModel {
  import opened Wrappers
  import opened Prioritizers
  import opened QueuePositions
  import opened LicenseModel

  datatype State = Starting | Running

  datatype Service = Service(
    state: State,
    licenses: map<string, License>,
    queueRefresh: int,
    allocationRefresh: int)

  datatype LicenseSpec = LicenseSpec(vendor: string, feature: string)

  /** The invocation message that Allocate and Refresh receive. */
  datatype Message = Message(licenses: seq<LicenseSpec>, id: string, owner: string, buildTag: string)

  datatype Response =
    | Allocated(id: string, deadline: int)
    | Queued(id: string, nextPoll: int, position: nat)
    | Refreshed(id: string, deadline: int)
    | Released
    | InvalidArgument
    | NotFound
    | FailedPrecondition
    | ResourceExhausted
    | Internal

  function FormatLicenseType(l: LicenseSpec): string {
    l.vendor + "::" + l.feature
  }

  /** The licence that a request names, unless the request is refused. */
  function Named(s: Service, inv: Message): (r: Option<string>) {
    if |inv.licenses| != 1 then None
    else
      var name := FormatLicenseType(inv.licenses[0]);
      if name in s.licenses then Some(name) else None
  }

  function Refusal(inv: Message): Response {
    if |inv.licenses| != 1 then InvalidArgument else NotFound
  }

  function MakeEntry(inv: Message, id: string, now: int): Entry {
    Entry(id, inv.owner, inv.buildTag, now)
  }

  // ------------------------------------------------------------------ calls

  /** A first request is queued under a new id, and promoted if the server is
      past its start-up. */
  function Admit(s: Service, l: License, inv: Message, id: string, now: int): License {
    var queued := Enqueue(l, MakeEntry(inv, id, now));
    if s.state == Running then Promote(queued) else queued
  }

  /** The answer to a request whose id is known by now. */
  function Answer(s: Service, l: License, inv: Message, id: string, now: int): (License, Response) {
    var i := Find(l.queue, id);
    if id in l.allocations then
      (CheckInAllocated(l, id, now), Allocated(id, now + s.allocationRefresh))
    else if i < |l.queue| then
      (CheckInQueued(l, i, now), Queued(id, now + s.queueRefresh, ToPosition(i + 1)))
    else if s.state == Running then
      (l, FailedPrecondition)
    else
      var l' := Enqueue(l, MakeEntry(inv, id, now));
      (l', Queued(id, now + s.queueRefresh, ToPosition(Find(l'.queue, id) + 1)))
  }

  function WithLicense(s: Service, name: string, l: License): Service {
    s.(licenses := s.licenses[name := l])
  }

  /** `newId` is what the id generator returns, None when it fails. */
  function Allocate(s: Service, inv: Message, newId: Option<string>, now: int): (Service, Response) {
    match Named(s, inv)
    case None => (s, Refusal(inv))
    case Some(name) =>
      if inv.id == "" then
        match newId
        case None => (s, Internal)
        case Some(id) =>
          var (l, r) := Answer(s, Admit(s, s.licenses[name], inv, id, now), inv, id, now);
          (WithLicense(s, name, l), r)
      else
        var (l, r) := Answer(s, s.licenses[name], inv, inv.id, now);
        (WithLicense(s, name, l), r)
  }

  function Refresh(s: Service, inv: Message, now: int): (Service, Response) {
    match Named(s, inv)
    case None => (s, Refusal(inv))
    case Some(name) =>
      var l := s.licenses[name];
      if inv.id == "" then (s, InvalidArgument)
      else if inv.id in l.allocations then
        (WithLicense(s, name, CheckInAllocated(l, inv.id, now)), Refreshed(inv.id, now + s.allocationRefresh))
      else if s.state == Running then
        (s, FailedPrecondition)
      else
        // The server restarted: adopt the invocation if a licence is free.
        var (l', ok) := LicenseModel.Allocate(l, MakeEntry(inv, inv.id, now));
        if ok then (WithLicense(s, name, l'), Refreshed(inv.id, now + s.allocationRefresh))
        else (s, ResourceExhausted)
  }

  function Release(s: Service, id: string): (Service, Response) {
    if id == "" then (s, InvalidArgument)
    else
      (s.(licenses := map name | name in s.licenses :: Forget(s.licenses[name], id).0),
       if exists name | name in s.licenses :: Knows(s.licenses[name], id) then Released else FailedPrecondition)
  }

  function Clean(s: Service, l: License, now: int): License {
    Promote(ExpireQueued(ExpireAllocations(l, now - s.allocationRefresh), now - s.queueRefresh))
  }

  function Janitor(s: Service, now: int): Service {
    if s.state == Starting then s
    else s.(licenses := map name | name in s.licenses :: Clean(s, s.licenses[name], now))
  }

  // ------------------------------------------------------------------- runs

  datatype Event =
    | AllocateCall(inv: Message, newId: Option<string>)
    | RefreshCall(inv: Message)
    | ReleaseCall(id: string)
    | JanitorTick
    | AdoptionEnds

  datatype Timed = Timed(event: Event, now: int)

  function Step(s: Service, t: Timed): Service {
    match t.event
    case AllocateCall(inv, newId) => Allocate(s, inv, newId, t.now).0
    case RefreshCall(inv) => Refresh(s, inv, t.now).0
    case ReleaseCall(id) => Release(s, id).0
    case JanitorTick => Janitor(s, t.now)
    case AdoptionEnds => s.(state := Running)
  }

  function Run(s: Service, ts: seq<Timed>): Service
    decreases |ts|
  {
    if ts == [] then s else Run(Step(s, ts[0]), ts[1..])
  }
}
