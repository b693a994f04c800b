/** What holds in every run of a shared mail session. */
module SharedSenderProofs {
  import opened Wrappers
  import opened SharedSenders

  // ------------------------------------------------------------------ invariant

  /** Every session but the current one was closed, exactly once. */
  ghost predicate SessionsClosed(s: System) {
    && (s.session.Some? ==> s.session.value < s.sessions)
    && (forall id: nat :: s.closed[id] == if id < s.sessions && s.session != Some(id) then 1 else 0)
  }

  /** The client the worker is busy with. */
  function Serving(s: System): Option<nat> {
    match s.phase
    case Selecting => None
    case Exited => None
    case Pausing(c, _) => Some(c)
    case Dialing(c) => Some(c)
    case Sending(c) => Some(c)
  }

  ghost predicate ClientKept(s: System, c: nat)
    requires c < |s.clients|
  {
    && (s.clients[c] == Waiting <==> Serving(s) == Some(c))
    && s.replies[c] == (if s.clients[c].Answered? then 1 else 0)
    && (s.clients[c] == Refused ==> s.done)
  }

  /** Clients wait exactly while they are served; answers are given once. */
  ghost predicate ClientsKept(s: System) {
    && (Serving(s).Some? ==> Serving(s).value < |s.clients|)
    && (forall c: nat | c < |s.clients| :: ClientKept(s, c))
    && (forall c: nat | c >= |s.clients| :: s.replies[c] == 0)
  }

  ghost predicate PhaseKept(s: System) {
    match s.phase
    case Selecting => true
    case Pausing(_, until) => s.session == None && (s.dials != [] ==> until >= s.lastDialAttempt + s.wait)
    case Dialing(_) => s.session == None
    case Sending(_) => s.session.Some?
    case Exited => s.session == None && s.done
  }

  /** Dial attempts are at least `wait` apart. */
  ghost predicate Apart(dials: seq<int>, wait: int) {
    forall i, j | 0 <= i < j < |dials| :: dials[j] - dials[i] >= wait
  }

  ghost predicate DialsKept(s: System) {
    && s.now > ZERO
    && s.lastDialAttempt == (if s.dials == [] then ZERO else s.dials[|s.dials| - 1])
    && (forall i | 0 <= i < |s.dials| :: ZERO < s.dials[i] <= s.lastDialAttempt <= s.now)
    && Apart(s.dials, s.wait)
  }

  /** The timer runs only for an open session in no use, and a value in its
      channel means that the session was idle for long enough. */
  ghost predicate TimerKept(s: System) {
    && (s.idle ==> s.session.Some? && Serving(s) == None)
    && (s.timer.Running? ==> s.idle && s.timer.deadline == s.lastUse + s.idleTimeout)
    && (s.timer == Fired ==> s.idle && s.now >= s.lastUse + s.idleTimeout)
    && (s.session.Some? && s.phase == Selecting && s.idleTimeout > 0 ==>
          s.idle && s.timer in {Running(s.lastUse + s.idleTimeout), Fired})
  }

  ghost predicate Inv(s: System) {
    SessionsClosed(s) && ClientsKept(s) && PhaseKept(s) && DialsKept(s) && TimerKept(s)
  }

  lemma StepClient(s: System, e: Event, c: nat)
    requires ClientsKept(s) && Enabled(s, e) && c < |Step(s, e).clients|
    ensures ClientKept(Step(s, e), c)
  {
    hide Reply;
    if c < |s.clients| {
      assert ClientKept(s, c);
    }
    match e
    case DialFails(err) => ReplyKeeps(s, s, s.phase.client, Some(err), c);
    case SendSucceeds => ReplyKeeps(s, ResetIdle(s), s.phase.client, None, c);
    case SendFails(err) => ReplyKeeps(s, CloseSender(s), s.phase.client, Some(err), c);
    case _ => {}
  }

  lemma ReplyKeeps(s: System, t: System, client: nat, err: Option<Error>, c: nat)
    requires Serving(s) == Some(client) && client < |s.clients| && ClientsKept(s)
    requires t.clients == s.clients && t.replies == s.replies && t.done == s.done
    ensures |Reply(t, client, err).clients| == |s.clients|
    ensures c < |s.clients| ==> ClientKept(Reply(t, client, err), c)
  {
    assert c < |s.clients| ==> ClientKept(s, c);
  }

  lemma StepServes(s: System, e: Event)
    requires ClientsKept(s) && Enabled(s, e)
    ensures var t := Step(s, e); Serving(t).Some? ==> Serving(t).value < |t.clients|
    ensures var t := Step(s, e); forall c: nat | c >= |t.clients| :: t.replies[c] == 0
  {
    hide ClientKept;
  }

  lemma StepClients(s: System, e: Event)
    requires ClientsKept(s) && Enabled(s, e)
    ensures ClientsKept(Step(s, e))
  {
    StepServes(s, e);
    forall c: nat | c < |Step(s, e).clients| ensures ClientKept(Step(s, e), c) {
      StepClient(s, e, c);
    }
    hide Step, ClientKept;
  }

  lemma StepSessions(s: System, e: Event)
    requires Inv(s) && Enabled(s, e)
    ensures SessionsClosed(Step(s, e))
  {
    hide ClientsKept, DialsKept, TimerKept;
  }

  lemma StepPhase(s: System, e: Event)
    requires Inv(s) && Enabled(s, e)
    ensures PhaseKept(Step(s, e))
  {
    hide ClientsKept, SessionsClosed, Apart;
  }

  lemma StepTimer(s: System, e: Event)
    requires Inv(s) && Enabled(s, e)
    ensures TimerKept(Step(s, e))
  {
    hide ClientsKept, SessionsClosed, DialsKept;
  }

  lemma StepDials(s: System, e: Event)
    requires DialsKept(s) && PhaseKept(s) && Enabled(s, e)
    ensures DialsKept(Step(s, e))
  {
    if e == StartDial {
      DialKeepsApart(s);
    } else {
      DialsUntouched(s, e);
    }
  }

  lemma DialKeepsApart(s: System)
    requires DialsKept(s) && PhaseKept(s) && Enabled(s, StartDial)
    ensures DialsKept(Step(s, StartDial))
  {
    if s.dials != [] {
      var n := |s.dials|;
      forall i | 0 <= i < n ensures s.now - s.dials[i] >= s.wait {
        assert i < n - 1 ==> s.dials[n - 1] - s.dials[i] >= s.wait;
      }
    }
  }

  lemma DialsUntouched(s: System, e: Event)
    requires DialsKept(s) && Enabled(s, e) && e != StartDial
    ensures DialsKept(Step(s, e))
  {
    hide Apart;
  }

  lemma StepKeeps(s: System, e: Event)
    requires Inv(s) && Enabled(s, e)
    ensures Inv(Step(s, e)) && Step(s, e).wait == s.wait && Step(s, e).idleTimeout == s.idleTimeout
  {
    StepClients(s, e);
    StepSessions(s, e);
    StepPhase(s, e);
    StepTimer(s, e);
    StepDials(s, e);
  }

  lemma {:induction false} RunKeeps(s: System, es: seq<Event>)
    requires Inv(s) && Possible(s, es)
    ensures Inv(Run(s, es)) && Run(s, es).wait == s.wait && Run(s, es).idleTimeout == s.idleTimeout
    decreases |es|
  {
    if es != [] {
      StepKeeps(s, es[0]);
      RunKeeps(Step(s, es[0]), es[1..]);
    }
  }

  lemma InitialKept(s: System)
    requires Initial(s)
    ensures Inv(s)
  {
  }

  // --------------------------------------------------------------- main results

  /** Of the sessions ever opened at most one is open, none is closed twice, and
      once the worker has exited every one was closed. */
  lemma SessionsAreClosedOnce(s: System, es: seq<Event>)
    requires Initial(s) && Possible(s, es)
    ensures var t := Run(s, es);
      && (forall id: nat | id < t.sessions :: t.closed[id] == if t.session == Some(id) then 0 else 1)
      && (forall id: nat | id >= t.sessions :: t.closed[id] == 0)
      && (t.phase == Exited ==> forall id: nat | id < t.sessions :: t.closed[id] == 1)
  {
    InitialKept(s);
    RunKeeps(s, es);
  }

  /** A request that the worker accepted gets one reply; one that it did not
      accept gets none, and may only be refused after a shutdown was requested.
      Nobody is left waiting by a worker that has exited. */
  lemma OneReplyEach(s: System, es: seq<Event>, c: nat)
    requires Initial(s) && Possible(s, es) && c < |Run(s, es).clients|
    ensures var t := Run(s, es);
      && t.replies[c] == (if t.clients[c].Answered? then 1 else 0)
      && (t.clients[c] == Waiting ==> Serving(t) == Some(c))
      && (t.phase in {Selecting, Exited} ==> t.clients[c] != Waiting)
      && (t.clients[c] == Refused ==> t.done && t.replies[c] == 0)
  {
    InitialKept(s);
    RunKeeps(s, es);
    assert ClientKept(Run(s, es), c);
  }

  /** An answer, once given, is final. */
  lemma AnswersAreFinal(s: System, es: seq<Event>, c: nat)
    requires Inv(s) && Possible(s, es) && c < |s.clients| && (s.clients[c].Answered? || s.clients[c] == Refused)
    ensures c < |Run(s, es).clients| && Run(s, es).clients[c] == s.clients[c]
    decreases |es|
  {
    if es != [] {
      assert ClientKept(s, c);
      StepKeeps(s, es[0]);
      StepKeepsAnswer(s, es[0], c);
      AnswersAreFinal(Step(s, es[0]), es[1..], c);
    }
  }

  lemma StepKeepsAnswer(s: System, e: Event, c: nat)
    requires Inv(s) && Enabled(s, e) && c < |s.clients| && (s.clients[c].Answered? || s.clients[c] == Refused)
    ensures c < |Step(s, e).clients| && Step(s, e).clients[c] == s.clients[c]
  {
    hide SessionsClosed, DialsKept, TimerKept, PhaseKept;
    assert ClientKept(s, c);
  }

  // ------------------------------------------------------ what an answer says

  /** What a step does to client `c`. */
  predicate ClientFollows(s: System, e: Event, c: nat, before: Client, after: Client) {
    match e
    case Accept(d) => after == if d == c then Waiting else before
    case DialFails(err) => after == if Serving(s) == Some(c) then Answered(Some(err)) else before
    case SendFails(err) => after == if Serving(s) == Some(c) then Answered(Some(err)) else before
    case SendSucceeds => after == if Serving(s) == Some(c) then Answered(None) else before
    case Refuse(d) => after == if d == c then Refused else before
    case _ => after == before
  }

  lemma StepOfClient(s: System, e: Event, c: nat)
    requires Enabled(s, e) && c < |s.clients|
    ensures c < |Step(s, e).clients| && ClientFollows(s, e, c, s.clients[c], Step(s, e).clients[c])
    ensures e == Offer ==> Step(s, e).clients == s.clients + [Offering]
    ensures e != Offer ==> |Step(s, e).clients| == |s.clients|
  {
  }

  /** At step `i` of the run, the message of client `c` is sent, with this result. */
  predicate SentAt(s: System, es: seq<Event>, i: nat, c: nat, err: Option<Error>)
    requires i < |es| && Possible(s, es)
  {
    PrefixPossible(s, es, i);
    && Serving(Run(s, es[..i])) == Some(c)
    && es[i] == match err case None => SendSucceeds case Some(x) => SendFails(x)
  }

  /** At step `i` of the run, dialling for client `c` fails. */
  predicate DialFailedAt(s: System, es: seq<Event>, i: nat, c: nat, err: Error)
    requires i < |es| && Possible(s, es)
  {
    PrefixPossible(s, es, i);
    Serving(Run(s, es[..i])) == Some(c) && es[i] == DialFails(err)
  }

  lemma {:induction false} PrefixPossible(s: System, es: seq<Event>, i: nat)
    requires Possible(s, es) && i <= |es|
    ensures Possible(s, es[..i])
    ensures i < |es| ==> Enabled(Run(s, es[..i]), es[i]) && Possible(s, es[..i + 1])
                         && Run(s, es[..i + 1]) == Step(Run(s, es[..i]), es[i])
    decreases |es|
  {
    if i > 0 {
      PrefixPossible(Step(s, es[0]), es[1..], i - 1);
      assert es[..i][1..] == es[1..][..i - 1];
      if i < |es| {
        assert es[..i + 1][1..] == es[1..][..i];
      }
    } else if es != [] {
      assert es[..1] == [es[0]] && [es[0]][1..] == [];
    }
  }

  /** A client is told the truth: that its message was sent if it was, and else the
      error of the send or of the dial on its behalf. */
  lemma {:induction false} AnswersAreTrue(s: System, es: seq<Event>, c: nat, n: nat)
    requires Initial(s) && Possible(s, es) && n <= |es| && Possible(s, es[..n])
    requires c < |Run(s, es[..n]).clients| && Run(s, es[..n]).clients[c].Answered?
    ensures var err := Run(s, es[..n]).clients[c].err;
      exists i | 0 <= i < n :: SentAt(s, es, i, c, err) || (err.Some? && DialFailedAt(s, es, i, c, err.value))
    decreases n
  {
    if n > 0 {
      PrefixPossible(s, es, n - 1);
      var r := Run(s, es[..n - 1]);
      if c < |r.clients| {
        StepOfClient(r, es[n - 1], c);
        if r.clients[c] == Run(s, es[..n]).clients[c] {
          AnswersAreTrue(s, es, c, n - 1);
        } else {
          var err := Run(s, es[..n]).clients[c].err;
          assert SentAt(s, es, n - 1, c, err) || (err.Some? && DialFailedAt(s, es, n - 1, c, err.value));
        }
      } else {
        OnlyOffersAdd(r, es[n - 1], c);
      }
    }
  }

  lemma OnlyOffersAdd(s: System, e: Event, c: nat)
    requires Enabled(s, e) && |s.clients| <= c < |Step(s, e).clients|
    ensures Step(s, e).clients[c] == Offering
  {
  }

  // --------------------------------------------------------- when sessions end

  /** A session ends when sending over it fails, when it was idle for too long, and
      when the worker exits; every other request finds it open. */
  lemma SessionEnds(s: System, e: Event)
    requires Inv(s) && Enabled(s, e) && s.session.Some?
    ensures Step(s, e).session == (if e.SendFails? || e == IdleTimeout || e == Exit then None else s.session)
    ensures e.Accept? ==> Step(s, e).phase == Sending(e.client)
  {
    hide ClientsKept, SessionsClosed, DialsKept;
  }

  /** Dial attempts, successful or not, start at least `wait` apart. */
  lemma DialsAreApart(s: System, es: seq<Event>, i: nat, j: nat)
    requires Initial(s) && Possible(s, es) && i < j < |Run(s, es).dials|
    ensures Run(s, es).dials[j] - Run(s, es).dials[i] >= s.wait
  {
    InitialKept(s);
    RunKeeps(s, es);
  }

  /** The worker waits no longer than it has to: it may dial as soon as the wait is
      over since every attempt so far. */
  lemma DialsAsSoonAsAllowed(s: System, t: int)
    requires Inv(s) && t >= s.now
    ensures t >= DialFrom(s) <==> forall i | 0 <= i < |s.dials| :: t - s.dials[i] >= s.wait
  {
    if s.dials != [] {
      assert s.dials[|s.dials| - 1] == s.lastDialAttempt;
    }
  }

  /** `lastUse` is not before any send that succeeded. */
  lemma {:induction false} LastUseIsLast(s: System, es: seq<Event>, n: nat, i: nat)
    requires Initial(s) && Possible(s, es) && i < n <= |es| && Possible(s, es[..n]) && Possible(s, es[..i])
    requires es[i] == SendSucceeds && s.idleTimeout > 0
    ensures Run(s, es[..i]).now <= Run(s, es[..n]).lastUse
    ensures Run(s, es[..i]).now <= Run(s, es[..n]).now
    decreases n
  {
    hide Run, Possible, Step, Inv, Enabled;
    PrefixPossible(s, es, n - 1);
    InitialKept(s);
    RunKeeps(s, es[..n - 1]);
    if i < n - 1 {
      LastUseIsLast(s, es, n - 1, i);
    }
    StepOfLastUse(Run(s, es[..n - 1]), es[n - 1]);
  }

  lemma StepOfLastUse(s: System, e: Event)
    requires Inv(s) && Enabled(s, e) && s.idleTimeout > 0
    ensures Step(s, e).lastUse == if e == SendSucceeds then s.now else s.lastUse
    ensures Step(s, e).now == if e.Pass? then e.now else s.now
    ensures Step(s, e).now >= s.now
  {
    hide ClientsKept, SessionsClosed, DialsKept;
  }

  /** A session is closed for idleness only if it was not used for the whole idle
      timeout, however the timer's channel was left by earlier rounds. */
  lemma IdleCloseIsDue(s: System, es: seq<Event>)
    requires Initial(s) && Possible(s, es) && Enabled(Run(s, es), IdleTimeout)
    ensures Run(s, es).now >= Run(s, es).lastUse + s.idleTimeout
    ensures forall i | 0 <= i < |es| && es[i] == SendSucceeds && s.idleTimeout > 0 ::
              Possible(s, es[..i]) && Run(s, es).now >= Run(s, es[..i]).now + s.idleTimeout
    ensures Run(s, es).session.Some? && Step(Run(s, es), IdleTimeout).session == None
  {
    InitialKept(s);
    RunKeeps(s, es);
    hide Run, Possible, Step, Enabled;
    forall i | 0 <= i < |es| && es[i] == SendSucceeds && s.idleTimeout > 0
      ensures Possible(s, es[..i]) && Run(s, es).now >= Run(s, es[..i]).now + s.idleTimeout
    {
      PrefixPossible(s, es, i);
      assert es[..|es|] == es;
      LastUseIsLast(s, es, |es|, i);
    }
  }

  /** An open session that is not in use has a timer that will close it. */
  lemma IdleSessionIsTimed(s: System, es: seq<Event>)
    requires Initial(s) && Possible(s, es) && s.idleTimeout > 0
    requires Run(s, es).session.Some? && Run(s, es).phase == Selecting
    ensures Run(s, es).idle
    ensures Run(s, es).timer == Fired || Run(s, es).timer == Running(Run(s, es).lastUse + s.idleTimeout)
  {
    InitialKept(s);
    RunKeeps(s, es);
  }

  // ------------------------------------------------------------------- shutdown

  /** The worker is gone and every client has its answer. */
  predicate Settled(s: System) {
    s.phase == Exited && forall c | 0 <= c < |s.clients| :: s.clients[c].Answered? || s.clients[c] == Refused
  }

  lemma {:induction false} RunAppend(s: System, a: seq<Event>, b: seq<Event>)
    requires Possible(s, a) && Possible(Run(s, a), b)
    ensures Possible(s, a + b) && Run(s, a + b) == Run(Run(s, a), b)
    decreases |a|
  {
    if a == [] {
      assert a + b == b;
    } else {
      assert (a + b)[1..] == a[1..] + b;
      RunAppend(Step(s, a[0]), a[1..], b);
    }
  }

  lemma RunTwo(s: System, e: Event, es: seq<Event>)
    requires Enabled(s, e) && Possible(Step(s, e), es)
    ensures Possible(s, [e] + es) && Run(s, [e] + es) == Run(Step(s, e), es)
  {
    assert ([e] + es)[1..] == es;
  }

  /** Whatever the worker is doing, it can come back to its loop or be gone. */
  lemma {:induction false} CanReturn(s: System) returns (es: seq<Event>)
    requires Inv(s)
    ensures Possible(s, es) && Run(s, es).phase in {Selecting, Exited}
    ensures Run(s, es).done == s.done
    decreases match s.phase case Pausing(_, _) => 2 case Dialing(_) => 1 case Sending(_) => 1 case _ => 0
  {
    var first: seq<Event>;
    match s.phase {
      case Selecting => return [];
      case Exited => return [];
      case Sending(_) => first := [SendFails("")];
      case Dialing(_) => first := [DialFails("")];
      case Pausing(_, until) =>
        var later := Pass(if until > s.now then until else s.now);
        StepKeeps(s, later);
        StepKeeps(Step(s, later), StartDial);
        RunTwo(s, later, [StartDial]);
        first := [later, StartDial];
    }
    RunKeeps(s, first);
    var rest := CanReturn(Run(s, first));
    RunAppend(s, first, rest);
    return first + rest;
  }

  /** The clients below `n` that still offer a request can all be refused. */
  lemma {:induction false} CanRefuse(s: System, n: nat) returns (es: seq<Event>)
    requires Inv(s) && s.phase == Exited && n <= |s.clients|
    ensures Possible(s, es) && Run(s, es).phase == Exited && |Run(s, es).clients| == |s.clients|
    ensures forall c | 0 <= c < n :: Run(s, es).clients[c] != Offering
    ensures Inv(Run(s, es))
    decreases n
  {
    if n == 0 {
      return [];
    }
    es := CanRefuse(s, n - 1);
    var t := Run(s, es);
    if t.clients[n - 1] == Offering {
      StepKeeps(t, Refuse(n - 1));
      RunTwo(t, Refuse(n - 1), []);
      RunAppend(s, es, [Refuse(n - 1)]);
      es := es + [Refuse(n - 1)];
    }
  }

  lemma CanExit(s: System) returns (es: seq<Event>)
    requires Inv(s) && s.done
    ensures Possible(s, es) && Run(s, es).phase == Exited && Inv(Run(s, es))
  {
    es := CanReturn(s);
    RunKeeps(s, es);
    hide Inv, Step, Run, Possible;
    var t := Run(s, es);
    if t.phase == Selecting {
      StepKeeps(t, Exit);
      ExitStep(t);
      RunAppend(s, es, [Exit]);
      es := es + [Exit];
    }
  }

  lemma ExitStep(s: System)
    requires Enabled(s, Exit)
    ensures Possible(s, [Exit]) && Run(s, [Exit]) == Step(s, Exit) && Step(s, Exit).phase == Exited
  {
    RunTwo(s, Exit, []);
    assert [Exit] + [] == [Exit];
  }

  lemma SettledWhenAnswered(s: System)
    requires Inv(s) && s.phase == Exited && forall c | 0 <= c < |s.clients| :: s.clients[c] != Offering
    ensures Settled(s) && s.session == None
  {
    forall c: nat | c < |s.clients| ensures s.clients[c] != Waiting {
      assert ClientKept(s, c);
    }
  }

  /** No deadlock: once a shutdown is requested, from any reachable state, the
      worker can exit with its session closed and every client answered. */
  lemma CanSettle(s: System) returns (es: seq<Event>)
    requires Inv(s) && s.done
    ensures Possible(s, es) && Settled(Run(s, es)) && Run(s, es).session == None
  {
    hide Inv, Step, Run, Possible;
    es := CanExit(s);
    var t := Run(s, es);
    var refusals := CanRefuse(t, |t.clients|);
    RunAppend(s, es, refusals);
    es := es + refusals;
    SettledWhenAnswered(Run(s, es));
  }
}
