/** One worker owns a mail session that many clients share. The system is the
    worker, the clients that call it, and whoever shuts it down; every
    interleaving of their steps is a run. */
module SharedSenders {
  import opened Wrappers

  type Error = string

  /** Where the worker's loop stands. A request is handled in several steps, with
      other parties moving in between. */
  datatype Phase =
    | Selecting
    | Pausing(client: nat, until: int)
    | Dialing(client: nat)
    | Sending(client: nat)
    | Exited

  datatype Client = Offering | Waiting | Answered(err: Option<Error>) | Refused

  /** A timer and the channel behind it: Fired means that a value is waiting to
      be received. */
  datatype Timer = NoTimer | Stopped | Running(deadline: int) | Fired

  /** The zero time, which stands for "never dialled". */
  const ZERO := 0

  datatype System = System(
    wait: int,
    idleTimeout: int,
    now: int,
    clients: seq<Client>,
    replies: multiset<nat>,
    phase: Phase,
    done: bool,
    session: Option<nat>,
    sessions: nat,
    closed: multiset<nat>,
    timer: Timer,
    idle: bool,
    lastDialAttempt: int,
    dials: seq<int>,
    lastUse: int)

  datatype Event =
    | Pass(now: int)
    | Offer
    | Accept(client: nat)
    | StartDial
    | DialSucceeds
    | DialFails(err: Error)
    | SendSucceeds
    | SendFails(err: Error)
    | TimerExpires
    | IdleTimeout
    | Shutdown
    | Exit
    | Refuse(client: nat)

  predicate Initial(s: System) {
    && s.now > ZERO && s.clients == [] && s.replies == multiset{} && s.phase == Selecting && !s.done
    && s.session == None && s.sessions == 0 && s.closed == multiset{} && s.timer == NoTimer && !s.idle
    && s.lastDialAttempt == ZERO && s.dials == []
  }

  // ------------------------------------------------ what the worker's helpers do

  /** Stops the timer; a value that is already in its channel is received. */
  function StopIdle(s: System): System {
    s.(idle := false, timer := if s.timer == NoTimer then NoTimer else Stopped)
  }

  function ResetIdle(s: System): System {
    if s.idleTimeout <= 0 || s.session == None then s.(idle := false)
    else s.(timer := Running(s.now + s.idleTimeout), idle := true, lastUse := s.now)
  }

  function CloseSender(s: System): System {
    if s.session == None then s else s.(session := None, closed := s.closed + multiset{s.session.value})
  }

  function Reply(s: System, client: nat, err: Option<Error>): System
    requires client < |s.clients|
  {
    s.(clients := s.clients[client := Answered(err)], replies := s.replies + multiset{client}, phase := Selecting)
  }

  /** When a new dial may start. */
  function DialFrom(s: System): int {
    var elapsed := s.now - s.lastDialAttempt;
    if s.wait > 0 && s.lastDialAttempt != ZERO && elapsed < s.wait then s.now + (s.wait - elapsed) else s.now
  }

  // ---------------------------------------------------------------------- steps

  predicate Enabled(s: System, e: Event) {
    match e
    case Pass(now) => now >= s.now
    case Offer => true
    case Accept(c) => s.phase == Selecting && c < |s.clients| && s.clients[c] == Offering
    case StartDial => s.phase.Pausing? && s.now >= s.phase.until
    case DialSucceeds => s.phase.Dialing? && s.phase.client < |s.clients|
    case DialFails(_) => s.phase.Dialing? && s.phase.client < |s.clients|
    case SendSucceeds => s.phase.Sending? && s.phase.client < |s.clients|
    case SendFails(_) => s.phase.Sending? && s.phase.client < |s.clients|
    case TimerExpires => s.timer.Running? && s.timer.deadline <= s.now
    case IdleTimeout => s.phase == Selecting && s.idle && s.timer == Fired
    case Shutdown => true
    case Exit => s.phase == Selecting && s.done
    case Refuse(c) => s.done && c < |s.clients| && s.clients[c] == Offering
  }

  function Step(s: System, e: Event): System
    requires Enabled(s, e)
  {
    match e
    case Pass(now) => s.(now := now)
    case Offer => s.(clients := s.clients + [Offering])
    case Accept(c) =>
      var t := StopIdle(s).(clients := s.clients[c := Waiting]);
      t.(phase := if s.session == None then Pausing(c, DialFrom(s)) else Sending(c))
    case StartDial => s.(lastDialAttempt := s.now, dials := s.dials + [s.now], phase := Dialing(s.phase.client))
    case DialSucceeds => s.(session := Some(s.sessions), sessions := s.sessions + 1, phase := Sending(s.phase.client))
    case DialFails(err) => Reply(s, s.phase.client, Some(err))
    case SendSucceeds => Reply(ResetIdle(s), s.phase.client, None)
    case SendFails(err) => Reply(CloseSender(s), s.phase.client, Some(err))
    case TimerExpires => s.(timer := Fired)
    case IdleTimeout => CloseSender(s.(idle := false, timer := Stopped))
    case Shutdown => s.(done := true)
    case Exit => CloseSender(StopIdle(s)).(phase := Exited)
    case Refuse(c) => s.(clients := s.clients[c := Refused])
  }

  /** The events can happen one after the other. */
  predicate Possible(s: System, es: seq<Event>)
    decreases |es|
  {
    es == [] || (Enabled(s, es[0]) && Possible(Step(s, es[0]), es[1..]))
  }

  function Run(s: System, es: seq<Event>): System
    requires Possible(s, es)
    decreases |es|
  {
    if es == [] then s else Run(Step(s, es[0]), es[1..])
  }
}
