/** The worker's loop and its helpers, as they assign their variables. */
module SharedSenderWorkers {
  import opened Wrappers
  import opened SharedSenders
  import opened SharedSenderProofs

  class Clock {
    var time: int

    constructor (time: int)
      ensures this.time == time
    {
      this.time := time;
    }
  }

  /** What happens outside while one request is handled: what the others do while
      the worker waits to dial, dials and sends, and what dialling and sending
      report. */
  datatype Outcome = Outcome(
    waiting: seq<Event>,
    dialling: seq<Event>,
    dial: Option<Error>,
    sending: seq<Event>,
    send: Option<Error>)

  /** What the worker's select receives, or what somebody else does meanwhile. */
  datatype Input =
    | Request(client: nat, outcome: Outcome)
    | Idle
    | Done
    | Other(event: Event)

  /** Steps that are not the worker's own. */
  predicate Outside(e: Event) {
    e.Pass? || e.Offer? || e.Refuse? || e.Shutdown? || e.TimerExpires?
  }

  predicate AllOutside(es: seq<Event>) {
    forall i | 0 <= i < |es| :: Outside(es[i])
  }

  function Dialled(o: Outcome): Event {
    if o.dial == None then DialSucceeds else DialFails(o.dial.value)
  }

  function Sent(o: Outcome): Event {
    if o.send == None then SendSucceeds else SendFails(o.send.value)
  }

  function DialEvents(o: Outcome): seq<Event> {
    o.waiting + ([StartDial] + (o.dialling + [Dialled(o)]))
  }

  function SendEvents(o: Outcome): seq<Event> {
    o.sending + [Sent(o)]
  }

  /** The steps of one request, with the steps of others in between. */
  function RequestEvents(s: System, c: nat, o: Outcome): seq<Event> {
    [Accept(c)]
    + (if s.session.Some? then SendEvents(o)
       else DialEvents(o) + if o.dial != None then [] else SendEvents(o))
  }

  function InputEvents(s: System, input: Input): seq<Event> {
    match input
    case Request(c, o) => RequestEvents(s, c, o)
    case Idle => [IdleTimeout]
    case Done => [Exit]
    case Other(e) => [e]
  }

  /** Inputs that can arrive when the worker is at its select. */
  predicate Ready(s: System, input: Input) {
    && Possible(s, InputEvents(s, input))
    && match input
       case Request(_, o) => AllOutside(o.waiting) && AllOutside(o.dialling) && AllOutside(o.sending)
       case Other(e) => Outside(e)
       case _ => true
  }

  /** The whole script can arrive; the loop reads nothing after Done. */
  predicate AllReady(s: System, script: seq<Input>)
    decreases |script|
  {
    script == [] || (
      && Ready(s, script[0])
      && (script[0] == Done ==> |script| == 1)
      && AllReady(Run(s, InputEvents(s, script[0])), script[1..]))
  }

  function ScriptEvents(s: System, script: seq<Input>): seq<Event>
    requires AllReady(s, script)
    decreases |script|
  {
    if script == [] then []
    else
      var es := InputEvents(s, script[0]);
      es + ScriptEvents(Run(s, es), script[1..])
  }

  lemma RunOne(s: System, e: Event)
    requires Enabled(s, e) || Possible(s, [e])
    ensures Enabled(s, e) && Possible(s, [e]) && Run(s, [e]) == Step(s, e)
  {
    if Enabled(s, e) {
      RunTwo(s, e, []);
      assert [e] + [] == [e];
    }
  }

  lemma {:induction false} RunSplit(s: System, a: seq<Event>, b: seq<Event>)
    requires Possible(s, a + b)
    ensures Possible(s, a) && Possible(Run(s, a), b) && Run(s, a + b) == Run(Run(s, a), b)
    decreases |a|
  {
    if a == [] {
      assert a + b == b;
    } else {
      assert (a + b)[1..] == a[1..] + b;
      RunSplit(Step(s, a[0]), a[1..], b);
    }
  }

  /** What others do leaves the worker where it is. */
  lemma {:induction false} OutsideKeeps(s: System, es: seq<Event>)
    requires AllOutside(es) && Possible(s, es)
    ensures var t := Run(s, es);
      && t.phase == s.phase && t.session == s.session && |t.clients| >= |s.clients|
      && (!s.timer.Running? ==> t.timer == s.timer)
    decreases |es|
  {
    if es != [] {
      OutsideKeeps(Step(s, es[0]), es[1..]);
    }
  }

  lemma DialSteps(s: System, o: Outcome)
    requires Possible(s, DialEvents(o)) && AllOutside(o.waiting) && AllOutside(o.dialling)
    ensures Possible(s, o.waiting) && Enabled(Run(s, o.waiting), StartDial)
    ensures var t := Step(Run(s, o.waiting), StartDial);
      && Possible(t, o.dialling) && Enabled(Run(t, o.dialling), Dialled(o))
      && Run(s, DialEvents(o)) == Step(Run(t, o.dialling), Dialled(o))
    ensures Run(s, o.waiting).phase == s.phase
    ensures s.phase.Pausing? ==> var u, c := Run(s, DialEvents(o)), s.phase.client;
      if o.dial == None then u.phase == Sending(c) else c < |u.clients| && u.clients[c] == Answered(o.dial)
  {
    RunSplit(s, o.waiting, [StartDial] + (o.dialling + [Dialled(o)]));
    OutsideKeeps(s, o.waiting);
    var r := Run(s, o.waiting);
    RunSplit(r, [StartDial], o.dialling + [Dialled(o)]);
    RunOne(r, StartDial);
    var t := Step(r, StartDial);
    RunSplit(t, o.dialling, [Dialled(o)]);
    OutsideKeeps(t, o.dialling);
    RunOne(Run(t, o.dialling), Dialled(o));
  }

  class SharedSenderWorker {
    const clock: Clock
    const idleTimeout: int
    const wait: int
    var done: bool
    var sender: Option<nat>
    var dialled: nat
    var timer: Timer
    var idle: bool
    var lastDialAttempt: int
    /** The whole system that this worker is part of. */
    ghost var sys: System

    constructor (clock: Clock, idleTimeout: int, wait: int)
      requires clock.time > ZERO
      ensures Valid() && Initial(sys) && sys.wait == wait && sys.idleTimeout == idleTimeout && this.clock == clock
    {
      this.clock, this.idleTimeout, this.wait := clock, idleTimeout, wait;
      done, sender, dialled, timer, idle, lastDialAttempt := false, None, 0, NoTimer, false, ZERO;
      sys := System(wait, idleTimeout, clock.time, [], multiset{}, Selecting, false, None, 0, multiset{}, NoTimer,
        false, ZERO, [], 0);
    }

    ghost predicate Valid()
      reads this, clock
    {
      && sys.wait == wait && sys.idleTimeout == idleTimeout && sys.now == clock.time && sys.done == done
      && sys.session == sender && sys.sessions == dialled && sys.timer == timer && sys.idle == idle
      && sys.lastDialAttempt == lastDialAttempt
    }

    method StopIdle()
      requires Valid()
      modifies `timer, `idle, `sys
      ensures Valid() && sys == SharedSenders.StopIdle(old(sys))
    {
      if timer == NoTimer {
        idle := false;
      } else {
        var running := timer.Running?;
        if running {
          timer := Stopped;
        } else if timer == Fired {
          timer := Stopped;
        }
        idle := false;
      }
      sys := SharedSenders.StopIdle(sys);
    }

    method ResetIdle()
      requires Valid()
      modifies `timer, `idle, `sys
      ensures Valid() && sys == SharedSenders.ResetIdle(old(sys))
    {
      if idleTimeout <= 0 || sender == None {
        idle := false;
      } else {
        if timer == Fired {
          timer := Stopped;
        }
        timer := Running(clock.time + idleTimeout);
        idle := true;
      }
      sys := SharedSenders.ResetIdle(sys);
    }

    method CloseSender()
      requires Valid()
      modifies `sender, `sys
      ensures Valid() && sys == SharedSenders.CloseSender(old(sys)) && sender == None
    {
      sender := None;
      sys := SharedSenders.CloseSender(sys);
    }

    /** A step of somebody else. */
    method Move(e: Event)
      requires Valid() && Outside(e) && Enabled(sys, e)
      modifies `done, `timer, `sys, clock
      ensures Valid() && sys == Step(old(sys), e)
    {
      match e {
        case Pass(now) => clock.time := now;
        case Shutdown => done := true;
        case TimerExpires => timer := Fired;
        case _ =>
      }
      sys := Step(sys, e);
    }

    /** The worker is held up while others move. */
    method Block(others: seq<Event>)
      requires Valid() && AllOutside(others) && Possible(sys, others)
      modifies `done, `timer, `sys, clock
      ensures Valid() && sys == Run(old(sys), others)
    {
      ghost var end := Run(sys, others);
      for i := 0 to |others|
        invariant Valid() && Possible(sys, others[i..]) && Run(sys, others[i..]) == end
      {
        assert others[i..][1..] == others[i + 1..];
        Move(others[i]);
      }
    }

    /** Sleeps for `d` at least. */
    method Sleep(d: int, others: seq<Event>)
      requires Valid() && AllOutside(others) && Possible(sys, others) && Run(sys, others).now >= sys.now + d
      modifies `done, `timer, `sys, clock
      ensures Valid() && sys == Run(old(sys), others) && clock.time >= old(clock.time) + d
    {
      Block(others);
    }

    /** Waits until `wait` is over since the last dial attempt. */
    method Pause(others: seq<Event>)
      requires Valid() && sys.phase.Pausing? && sys.phase.until == DialFrom(sys) && AllOutside(others)
      requires Possible(sys, others) && Enabled(Run(sys, others), StartDial) && Run(sys, others).phase == sys.phase
      modifies `done, `timer, `sys, clock
      ensures Valid() && sys == Run(old(sys), others)
    {
      var pause := 0;
      if wait > 0 && lastDialAttempt != ZERO {
        var elapsed := clock.time - lastDialAttempt;
        if elapsed < wait {
          pause := wait - elapsed;
        }
      }
      Sleep(pause, others);
    }

    /** One call of the dialer, during which others move. */
    method Attempt(o: Outcome) returns (err: Option<Error>)
      requires Valid() && Enabled(sys, StartDial) && AllOutside(o.dialling)
      requires var t := Step(sys, StartDial); Possible(t, o.dialling) && Enabled(Run(t, o.dialling), Dialled(o))
      modifies this, clock
      ensures Valid() && err == o.dial
      ensures sys == Step(Run(Step(old(sys), StartDial), o.dialling), Dialled(o))
    {
      lastDialAttempt := clock.time;
      sys := Step(sys, StartDial);
      Block(o.dialling);
      DialEnds(o);
      return o.dial;
    }

    method DialEnds(o: Outcome)
      requires Valid() && Enabled(sys, Dialled(o))
      modifies `sender, `dialled, `sys
      ensures Valid() && sys == Step(old(sys), Dialled(o))
    {
      if o.dial == None {
        sender, dialled := Some(dialled), dialled + 1;
      }
      sys := Step(sys, Dialled(o));
    }

    /** Dials, but not before `wait` is over since the last attempt. */
    method Dial(client: nat, o: Outcome) returns (err: Option<Error>)
      requires Valid() && sys.phase == Pausing(client, DialFrom(sys))
      requires AllOutside(o.waiting) && AllOutside(o.dialling) && Possible(sys, DialEvents(o))
      modifies this, clock
      ensures Valid() && err == o.dial && sys == Run(old(sys), DialEvents(o))
      ensures err == None ==> sys.phase == Sending(client)
      ensures err != None ==> client < |sys.clients| && sys.clients[client] == Answered(err)
    {
      DialSteps(sys, o);
      hide Run, Possible, Step, Enabled;
      Pause(o.waiting);
      err := Attempt(o);
    }

    /** Sends over the open session; a failure closes it. */
    method Send(client: nat, o: Outcome) returns (err: Option<Error>)
      requires Valid() && sys.phase == Sending(client)
      requires AllOutside(o.sending) && Possible(sys, SendEvents(o))
      modifies this, clock
      ensures Valid() && err == o.send && sys == Run(old(sys), SendEvents(o))
      ensures client < |sys.clients| && sys.clients[client] == Answered(err)
    {
      ghost var last := Sent(o);
      RunSplit(sys, o.sending, [last]);
      OutsideKeeps(sys, o.sending);
      Block(o.sending);
      ghost var before := sys;
      RunOne(before, last);
      if o.send == None {
        ResetIdle();
      } else {
        CloseSender();
      }
      sys := Step(before, last);
      return o.send;
    }

    /** The request case of the loop. */
    method Handle(client: nat, o: Outcome) returns (err: Option<Error>)
      requires Valid() && Ready(sys, Request(client, o))
      modifies this, clock
      ensures Valid() && err == if old(sender) == None && o.dial != None then o.dial else o.send
      ensures client < |sys.clients| && sys.clients[client] == Answered(err)
      ensures sys == Run(old(sys), RequestEvents(old(sys), client, o))
    {
      ghost var before := sys;
      ghost var rest := RequestEvents(sys, client, o)[1..];
      assert RequestEvents(sys, client, o) == [Accept(client)] + rest;
      RunSplit(sys, [Accept(client)], rest);
      RunOne(sys, Accept(client));
      StopIdle();
      sys := Step(before, Accept(client));
      if sender == None {
        RunSplit(sys, DialEvents(o), if o.dial != None then [] else SendEvents(o));
        err := Dial(client, o);
        if err != None {
          return;
        }
      }
      err := Send(client, o);
    }

    method TimeOut()
      requires Valid() && Enabled(sys, IdleTimeout)
      modifies this
      ensures Valid() && sys == Step(old(sys), IdleTimeout)
    {
      timer, idle := Stopped, false;
      sys := sys.(idle := false, timer := Stopped);
      CloseSender();
    }

    method Quit()
      requires Valid() && Enabled(sys, Exit)
      modifies this
      ensures Valid() && sys == Step(old(sys), Exit) && sender == None
    {
      StopIdle();
      CloseSender();
      sys := sys.(phase := Exited);
    }

    /** Asks the worker to stop, once. */
    method Shutdown()
      modifies `done, `sys
      ensures done && sys == Step(old(sys), SharedSenders.Shutdown)
      ensures old(Valid()) ==> Valid()
    {
      done := true;
      sys := sys.(done := true);
    }

    /** The loop: one case of the select after the other. */
    method Serve(script: seq<Input>)
      requires Valid() && AllReady(sys, script)
      modifies this, clock
      ensures Valid() && Possible(old(sys), ScriptEvents(old(sys), script))
      ensures sys == Run(old(sys), ScriptEvents(old(sys), script))
    {
      ScriptPossible(sys, script);
      ghost var end := Run(sys, ScriptEvents(sys, script));
      for i := 0 to |script|
        invariant Valid() && AllReady(sys, script[i..])
        invariant Possible(sys, ScriptEvents(sys, script[i..])) && Run(sys, ScriptEvents(sys, script[i..])) == end
      {
        ScriptStep(sys, script[i..]);
        assert script[i..][1..] == script[i + 1..];
        Receive(script[i]);
        if script[i] == Done {
          return;
        }
      }
    }

    /** One round of the loop, or a move of somebody else. */
    method Receive(input: Input)
      requires Valid() && Ready(sys, input)
      modifies this, clock
      ensures Valid() && sys == Run(old(sys), InputEvents(old(sys), input))
    {
      match input
      case Request(client, o) =>
        var _ := Handle(client, o);
      case Idle =>
        RunOne(sys, IdleTimeout);
        TimeOut();
      case Done =>
        RunOne(sys, Exit);
        Quit();
      case Other(e) =>
        RunOne(sys, e);
        Move(e);
    }
  }

  /** A script is a run. */
  lemma {:induction false} ScriptPossible(s: System, script: seq<Input>)
    requires AllReady(s, script)
    ensures Possible(s, ScriptEvents(s, script))
    decreases |script|
  {
    if script != [] {
      var es := InputEvents(s, script[0]);
      ScriptPossible(Run(s, es), script[1..]);
      RunAppend(s, es, ScriptEvents(Run(s, es), script[1..]));
    }
  }

  lemma ScriptStep(s: System, script: seq<Input>)
    requires AllReady(s, script) && script != []
    ensures var t := Run(s, InputEvents(s, script[0]));
      && Possible(s, ScriptEvents(s, script)) && Possible(t, ScriptEvents(t, script[1..]))
      && Run(s, ScriptEvents(s, script)) == Run(t, ScriptEvents(t, script[1..]))
  {
    var es := InputEvents(s, script[0]);
    ScriptPossible(Run(s, es), script[1..]);
    RunAppend(s, es, ScriptEvents(Run(s, es), script[1..]));
  }
}
