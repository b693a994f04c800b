/** Keepalive over timed runs: who calls often enough keeps the licence or the
    place in the queue, who is silent for long enough loses it. */
module Keepalive {
  import opened Wrappers
  import opened LicenseModel
  import opened ServiceModel
  import opened ServiceInvariant
  import opened LifeCycles

  /** Allocate or Refresh of invocation `id` of licence `n`. */
  predicate Calls(s: Service, e: Event, n: string, id: string) {
    match e
    case AllocateCall(inv, _) => Named(s, inv) == Some(n) && inv.id == id
    case RefreshCall(inv) => Named(s, inv) == Some(n) && inv.id == id
    case ReleaseCall(_) => false
    case JanitorTick => false
    case AdoptionEnds => false
  }

  predicate Sweeps(s: Service, e: Event) {
    e == JanitorTick && s.state == Running
  }

  /** Has licence `n` or waits for it, and was last heard of at time `last`. */
  predicate Present(s: Service, n: string, id: string, last: int) {
    n in s.licenses && !StatusAt(s, n, id).Absent? && StatusAt(s, n, id).e.lastCheckin == last
  }

  /** Holds licence `n`, and was last heard of at time `last`. */
  predicate Holds(s: Service, n: string, id: string, last: int) {
    n in s.licenses && id in s.licenses[n].allocations && s.licenses[n].allocations[id].lastCheckin == last
  }

  /** When the invocation was last heard of, if it was `last` before this step. A
      Refresh counts only for a licence that is held. */
  function HeardAt(s: Service, t: Timed, n: string, id: string, last: int): int
    requires n in s.licenses
  {
    if Calls(s, t.event, n, id) && (t.event.RefreshCall? ==> StatusAt(s, n, id).Holding?) then t.now else last
  }

  /** How long a silent invocation lasts in its present status. */
  function Patience(s: Service, n: string, id: string): int
    requires n in s.licenses
  {
    if StatusAt(s, n, id).Waiting? then s.queueRefresh else s.allocationRefresh
  }

  /** At every sweep the last call is recent enough, and nobody releases the
      invocation. */
  predicate KeepsInTouch(s: Service, ts: seq<Timed>, n: string, id: string, last: int)
    decreases |ts|
  {
    ts == [] ||
    (&& n in s.licenses
     && ts[0].event != ReleaseCall(id)
     && (Sweeps(s, ts[0].event) ==> ts[0].now - last < Patience(s, n, id))
     && KeepsInTouch(Step(s, ts[0]), ts[1..], n, id, HeardAt(s, ts[0], n, id, last)))
  }

  function LastHeard(s: Service, ts: seq<Timed>, n: string, id: string, last: int): int
    decreases |ts|
  {
    if ts == [] || n !in s.licenses then last
    else LastHeard(Step(s, ts[0]), ts[1..], n, id, HeardAt(s, ts[0], n, id, last))
  }

  /** No call mentions `id`, and no new invocation gets that id. */
  predicate Quiet(s: Service, t: Timed, n: string, id: string) {
    !Calls(s, t.event, n, id) && (t.event.AllocateCall? ==> t.event.newId != Some(id))
  }

  predicate Silent(s: Service, ts: seq<Timed>, n: string, id: string)
    decreases |ts|
  {
    ts == [] || (Quiet(s, ts[0], n, id) && Silent(Step(s, ts[0]), ts[1..], n, id))
  }

  // ------------------------------------------------------------- single sweeps

  lemma HoldingMeans(s: Service, n: string, id: string)
    requires n in s.licenses
    ensures StatusAt(s, n, id).Holding? <==> id in s.licenses[n].allocations
    ensures StatusAt(s, n, id).Holding? ==> StatusAt(s, n, id).e == s.licenses[n].allocations[id]
  {
  }

  lemma KnownMeans(s: Service, n: string, id: string)
    requires AllConsistent(s) && n in s.licenses
    ensures StatusAt(s, n, id).Absent? <==> !Knows(s.licenses[n], id)
  {
    StatusNamed(s.licenses[n], id);
  }

  lemma SweepFollows(s: Service, now: int, n: string, id: string)
    requires AllConsistent(s) && s.state == Running && n in s.licenses
    ensures n in Janitor(s, now).licenses && AllConsistent(Janitor(s, now))
    ensures AfterSweep(s, now, StatusAt(s, n, id), StatusAt(Janitor(s, now), n, id))
  {
    hide AllConsistent, Janitor, StatusAt;
    LifeCycle(s, Timed(JanitorTick, now), n, id);
    StepConsistent(s, Timed(JanitorTick, now));
  }

  /** The janitor takes a licence away exactly from those who have been silent
      for the refresh duration. */
  lemma SweepOfHolder(s: Service, now: int, n: string, id: string)
    requires AllConsistent(s) && s.state == Running && n in s.licenses && id in s.licenses[n].allocations
    ensures n in Janitor(s, now).licenses
    ensures var before, after := s.licenses[n].allocations, Janitor(s, now).licenses[n].allocations;
      && (id in after <==> now - before[id].lastCheckin < s.allocationRefresh)
      && (id in after ==> after[id] == before[id])
  {
    hide AllConsistent, Janitor, StatusAt;
    SweepFollows(s, now, n, id);
    HoldingMeans(s, n, id);
    HoldingMeans(Janitor(s, now), n, id);
  }

  /** It drops exactly those waiting requests that have been silent for the queue's
      refresh duration; the others wait on or are served. */
  lemma SweepOfWaiting(s: Service, now: int, n: string, i: nat)
    requires AllConsistent(s) && s.state == Running && n in s.licenses && i < |s.licenses[n].queue|
    ensures n in Janitor(s, now).licenses
    ensures var e := s.licenses[n].queue[i];
      Knows(Janitor(s, now).licenses[n], e.id) <==> now - e.lastCheckin < s.queueRefresh
  {
    var e := s.licenses[n].queue[i];
    WaitingMeans(s.licenses[n], e.id, e);
    hide AllConsistent, Janitor, StatusOf, Knows;
    SweepFollows(s, now, n, e.id);
    KnownMeans(Janitor(s, now), n, e.id);
  }

  // ------------------------------------------------------- who keeps in touch

  lemma StepPresent(s: Service, t: Timed, n: string, id: string, last: int)
    requires AllConsistent(s) && Permitted(s, t) && Present(s, n, id, last) && id != ""
    requires t.event != ReleaseCall(id)
    requires Sweeps(s, t.event) ==> t.now - last < Patience(s, n, id)
    ensures Present(Step(s, t), n, id, HeardAt(s, t, n, id, last))
    ensures SameClient(StatusAt(s, n, id), StatusAt(Step(s, t), n, id))
  {
    hide AllConsistent, Permitted, Step, StatusAt;
    LifeCycle(s, t, n, id);
  }

  /** The same request, served or not; whoever holds a licence keeps it. */
  predicate SameClient(before: Status, after: Status) {
    && !before.Absent? && !after.Absent?
    && (before.Holding? ==> after.Holding?)
    && after.e == before.e.(lastCheckin := after.e.lastCheckin)
  }

  /** Whoever keeps in touch, waiting or holding, is never forgotten, and the
      server remembers the last call. */
  lemma {:induction false} KeepsPlace(s: Service, ts: seq<Timed>, n: string, id: string, last: int)
    requires AllConsistent(s) && AllPermitted(s, ts) && Present(s, n, id, last) && id != ""
    requires KeepsInTouch(s, ts, n, id, last)
    ensures AllConsistent(Run(s, ts)) && Present(Run(s, ts), n, id, LastHeard(s, ts, n, id, last))
    ensures SameClient(StatusAt(s, n, id), StatusAt(Run(s, ts), n, id))
    decreases |ts|
  {
    hide AllConsistent, Step, Permitted, HeardAt, Sweeps, StatusAt;
    if ts != [] {
      StepConsistent(s, ts[0]);
      StepPresent(s, ts[0], n, id, last);
      KeepsPlace(Step(s, ts[0]), ts[1..], n, id, HeardAt(s, ts[0], n, id, last));
    }
  }

  /** In particular, whoever holds a licence keeps it, until it is released. */
  lemma KeepsLicense(s: Service, ts: seq<Timed>, n: string, id: string, last: int)
    requires AllConsistent(s) && AllPermitted(s, ts) && Holds(s, n, id, last) && id != ""
    requires KeepsInTouch(s, ts, n, id, last)
    ensures Holds(Run(s, ts), n, id, LastHeard(s, ts, n, id, last))
  {
    hide AllConsistent, Step, Permitted, StatusOf;
    HoldingMeans(s, n, id);
    KeepsPlace(s, ts, n, id, last);
    HoldingMeans(Run(s, ts), n, id);
  }

  // ------------------------------------------------------------ who is silent

  /** Not there, or last heard of at `last`. */
  predicate Fading(s: Service, n: string, id: string, last: int) {
    n in s.licenses && (!StatusAt(s, n, id).Absent? ==> Present(s, n, id, last))
  }

  lemma StepFading(s: Service, t: Timed, n: string, id: string, last: int)
    requires AllConsistent(s) && Permitted(s, t) && Fading(s, n, id, last) && id != ""
    requires Quiet(s, t, n, id)
    ensures Fading(Step(s, t), n, id, last)
    ensures StatusAt(s, n, id).Absent? ==> StatusAt(Step(s, t), n, id).Absent?
    ensures Sweeps(s, t.event) ==>
      (StatusAt(Step(s, t), n, id).Absent? <==> StatusAt(s, n, id).Absent? || t.now - last >= Patience(s, n, id))
  {
    hide AllConsistent, Permitted, Step, StatusAt;
    LifeCycle(s, t, n, id);
  }

  lemma {:induction false} SilentFades(s: Service, ts: seq<Timed>, n: string, id: string, last: int)
    requires AllConsistent(s) && AllPermitted(s, ts) && Fading(s, n, id, last) && id != ""
    requires Silent(s, ts, n, id)
    ensures AllConsistent(Run(s, ts)) && Fading(Run(s, ts), n, id, last)
    ensures StatusAt(s, n, id).Absent? ==> StatusAt(Run(s, ts), n, id).Absent?
    decreases |ts|
  {
    hide AllConsistent, Fading, Step, Permitted, Quiet, StatusAt;
    if ts != [] {
      StepConsistent(s, ts[0]);
      StepFading(s, ts[0], n, id, last);
      SilentFades(Step(s, ts[0]), ts[1..], n, id, last);
      assert n in s.licenses by { FadingKnows(s, n, id, last); }
    }
  }

  lemma FadingKnows(s: Service, n: string, id: string, last: int)
    requires Fading(s, n, id, last)
    ensures n in s.licenses
  {
  }

  /** Whoever is silent is dropped by the first sweep that comes at least the
      refresh duration after the last call, that of the queue while waiting and
      that of the licence once served, and by no earlier one, whatever happens in
      between; and does not come back during the silence. */
  lemma SilentIsDropped(s: Service, ts: seq<Timed>, n: string, id: string, last: int, now: int, later: seq<Timed>)
    requires AllConsistent(s) && AllPermitted(s, ts) && Present(s, n, id, last) && id != ""
    requires Silent(s, ts, n, id) && Run(s, ts).state == Running
    requires var r := Janitor(Run(s, ts), now); AllPermitted(r, later) && Silent(r, later, n, id)
    ensures var r := Run(s, ts);
      && n in r.licenses && n in Janitor(r, now).licenses
      && (StatusAt(Janitor(r, now), n, id).Absent?
          <==> StatusAt(r, n, id).Absent? || now - last >= Patience(r, n, id))
      && n in Run(Janitor(r, now), later).licenses
      && (StatusAt(Janitor(r, now), n, id).Absent? ==> StatusAt(Run(Janitor(r, now), later), n, id).Absent?)
  {
    hide AllConsistent, AllPermitted, Run, Silent, Janitor, StatusAt;
    SilentFades(s, ts, n, id, last);
    var r, t := Run(s, ts), Timed(JanitorTick, now);
    StepFading(r, t, n, id, last);
    StepConsistent(r, t);
    SilentFades(Janitor(r, now), later, n, id, last);
  }
}
