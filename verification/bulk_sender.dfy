/** Sending one message to each of many recipients, with retries. */
module BulkSenders {
  import opened Wrappers

  /** What the progress callback asks for. */
  datatype Action = Continue | Skip | Pause | Cancel

  datatype Outcome = Finished | Paused | Canceled | GaveUp(index: nat) | BuildFailed(index: nat)

  datatype Flags = Flags(wait: int, maxAttempts: int, shuffle: bool, preSendSleep: int)

  /** When the callback is asked. */
  datatype Status = Sending | Sent | SendFailed | OpenFailed | GiveUp

  datatype Report = Report(index: nat, status: Status, action: Action)

  /** A request to pause or cancel counts, except when no sender could be opened
      or the recipient is given up. */
  predicate StopsRun(r: Report) {
    r.status in {Sending, Sent, SendFailed} && r.action in {Pause, Cancel}
  }

  predicate Quiet(reports: seq<Report>) {
    forall i | 0 <= i < |reports| :: !StopsRun(reports[i])
  }

  /** The last answer, and no earlier one, stopped the run. */
  predicate StoppedBy(reports: seq<Report>, action: Action) {
    && reports != [] && Quiet(reports[..|reports| - 1])
    && StopsRun(reports[|reports| - 1]) && reports[|reports| - 1].action == action
  }

  predicate Ended(reports: seq<Report>, outcome: Outcome) {
    match outcome
    case Paused => StoppedBy(reports, Pause)
    case Canceled => StoppedBy(reports, Cancel)
    case _ => Quiet(reports)
  }

  /** What the callback was told and answered: of messages sent, of attempts that
      failed, of recipients given up, and whom it asked to skip. */
  datatype Told = Told(sent: multiset<nat>, failed: multiset<nat>, givenUp: multiset<nat>, skipped: set<nat>)

  function AlsoTold(t: Told, r: Report): Told {
    match r.status
    case Sent => t.(sent := t.sent + multiset{r.index})
    case SendFailed => t.(failed := t.failed + multiset{r.index})
    case OpenFailed => t.(failed := t.failed + multiset{r.index})
    case GiveUp => t.(givenUp := t.givenUp + multiset{r.index})
    case Sending => if r.action == Skip then t.(skipped := t.skipped + {r.index}) else t
  }

  function ToldIn(reports: seq<Report>): Told {
    if reports == [] then Told(multiset{}, multiset{}, multiset{}, {})
    else AlsoTold(ToldIn(reports[..|reports| - 1]), reports[|reports| - 1])
  }

  lemma OneMoreReport(reports: seq<Report>, r: Report)
    requires Quiet(reports)
    ensures ToldIn(reports + [r]) == AlsoTold(ToldIn(reports), r)
    ensures if StopsRun(r) then StoppedBy(reports + [r], r.action) else Quiet(reports + [r])
  {
    assert (reports + [r])[..|reports|] == reports;
  }

  /** By index of the recipient: messages delivered, attempts failed, skips. */
  datatype Ledger = Ledger(delivered: multiset<nat>, failed: multiset<nat>, skipped: set<nat>) {
    function Deliver(i: nat): Ledger {
      this.(delivered := delivered + multiset{i})
    }

    function Fail(i: nat): Ledger {
      this.(failed := failed + multiset{i})
    }

    function Skip(i: nat): Ledger {
      this.(skipped := skipped + {i})
    }
  }

  const BLANK := Ledger(multiset{}, multiset{}, {})

  /** Everything outside: the clock, the mail server, the callbacks. Their answers
      are arbitrary, but only so many attempts fail: with unlimited attempts, a
      server that fails for ever keeps the sender trying for ever. */
  class World {
    var time: int
    var failures: nat
    /** Senders opened, when each opening began, and how often each was closed. */
    var senders: nat
    ghost var openings: seq<int>
    ghost var closed: multiset<nat>
    /** Senders over which a message could not be sent, and recipients whose
        message could not be built. */
    ghost var broken: set<nat>
    ghost var unbuilt: set<nat>
    ghost var ledger: Ledger
    ghost var reports: seq<Report>

    constructor (time: int, failures: nat)
      ensures this.time == time && this.failures == failures && Unused()
    {
      this.time, this.failures, senders := time, failures, 0;
      openings, closed, broken, unbuilt, ledger, reports := [], multiset{}, {}, {}, BLANK, [];
    }

    ghost predicate Unused()
      reads this
    {
      && senders == 0 && openings == [] && closed == multiset{} && broken == {} && unbuilt == {}
      && ledger == BLANK && reports == []
    }

    method Sleep(d: int)
      modifies `time
      ensures time >= old(time) && time >= old(time) + d
    {
      var late: nat :| late >= 0;
      time := time + (if d > 0 then d else 0) + late;
    }

    /** Calls the progress callback. */
    method Ask(index: nat, status: Status) returns (action: Action)
      requires Quiet(reports)
      modifies `reports
      ensures ToldIn(reports) == AlsoTold(ToldIn(old(reports)), Report(index, status, action))
      ensures if StopsRun(Report(index, status, action)) then StoppedBy(reports, action) else Quiet(reports)
    {
      action := *;
      OneMoreReport(reports, Report(index, status, action));
      reports := reports + [Report(index, status, action)];
    }

    method Build(index: nat) returns (ok: bool)
      modifies `unbuilt
      ensures unbuilt == old(unbuilt) + if ok then {} else {index}
    {
      ok := *;
      unbuilt := unbuilt + if ok then {} else {index};
    }

    /** Opens a sender for recipient `index`. */
    method Open(index: nat) returns (sender: Option<nat>)
      modifies `time, `failures, `senders, `openings, `ledger
      ensures time >= old(time) && openings == old(openings) + [old(time)]
      ensures sender == None ==> && failures < old(failures) && ledger == old(ledger).Fail(index)
                                 && senders == old(senders)
      ensures sender != None ==> && failures == old(failures) && ledger == old(ledger)
                                 && sender == Some(old(senders)) && senders == old(senders) + 1
    {
      openings := openings + [time];
      var fails: bool := *;
      Sleep(0);
      if fails && failures > 0 {
        failures, ledger := failures - 1, ledger.Fail(index);
        return None;
      }
      senders := senders + 1;
      return Some(senders - 1);
    }

    /** Sends over a sender that is open and has not failed before. */
    method Deliver(index: nat, sender: nat) returns (ok: bool)
      requires sender < senders && closed[sender] == 0 && sender !in broken
      modifies `time, `failures, `ledger, `broken
      ensures time >= old(time)
      ensures ok ==> failures == old(failures) && ledger == old(ledger).Deliver(index) && broken == old(broken)
      ensures !ok ==> && failures < old(failures) && ledger == old(ledger).Fail(index)
                      && broken == old(broken) + {sender}
    {
      var fails: bool := *;
      Sleep(0);
      if fails && failures > 0 {
        failures, ledger, broken := failures - 1, ledger.Fail(index), broken + {sender};
        return false;
      }
      ledger := ledger.Deliver(index);
      return true;
    }

    method Close(sender: nat)
      requires sender < senders && closed[sender] == 0
      modifies `closed
      ensures closed == old(closed) + multiset{sender}
    {
      closed := closed + multiset{sender};
    }
  }

  // ------------------------------------------------------------- what is kept

  /** Every sender that was opened was closed once, but for the current one. */
  ghost predicate SendersClosed(senders: nat, closed: multiset<nat>, sender: Option<nat>) {
    && (sender.Some? ==> sender.value < senders)
    && (forall id: nat :: closed[id] == if id < senders && sender != Some(id) then 1 else 0)
  }

  /** The current sender has not failed; no sender fails before it is opened. */
  ghost predicate SenderFit(senders: nat, broken: set<nat>, sender: Option<nat>) {
    && (forall id | id in broken :: id < senders)
    && (sender.Some? ==> sender.value !in broken)
  }

  /** Nothing is opened without need: first of all, and after each failure. */
  ghost predicate OpenedAsNeeded(openings: seq<int>, l: Ledger, sender: Option<nat>) {
    |openings| == |l.failed| + if sender.Some? then 1 else 0
  }

  /** Openings start at least `wait` apart; `last` is when the latest one did. */
  ghost predicate Spaced(openings: seq<int>, last: int, now: int, wait: int) {
    && (openings != [] ==> last == openings[|openings| - 1])
    && (forall i | 0 <= i < |openings| :: openings[i] <= last <= now)
    && (forall i, j | 0 <= i < j < |openings| :: openings[j] - openings[i] >= wait)
  }

  /** A recipient that is dealt with was either skipped or sent one message. */
  ghost predicate Dealt(l: Ledger, i: nat) {
    l.delivered[i] == if i in l.skipped then 0 else 1
  }

  ghost predicate Untouched(l: Ledger, i: nat) {
    l.delivered[i] == 0 && l.failed[i] == 0 && i !in l.skipped
  }

  /** Recipients below `n` are dealt with, the others untouched. */
  ghost predicate DealtBelow(l: Ledger, n: nat) {
    && (forall i: nat | i < n :: Dealt(l, i))
    && (forall i: nat | i >= n :: Untouched(l, i))
  }

  ghost predicate UntouchedFrom(l: Ledger, n: nat) {
    forall i: nat | i >= n :: Untouched(l, i)
  }

  /** No recipient saw more failures than allowed. */
  ghost predicate Bounded(l: Ledger, maxAttempts: int) {
    maxAttempts > 0 ==> forall i: nat :: l.failed[i] <= maxAttempts
  }

  /** Nobody got two messages, and nobody who was skipped got one. */
  ghost predicate AtMostOne(l: Ledger) {
    forall i: nat :: l.delivered[i] <= 1 && (i in l.skipped ==> l.delivered[i] == 0)
  }

  /** The callback was told of every success and failure, once, and obeyed so far;
      the run ended as it asked. */
  ghost predicate Asked(l: Ledger, reports: seq<Report>, stop: Option<Outcome>) {
    && ToldIn(reports) == Told(l.delivered, l.failed, GivenUp(stop), l.skipped)
    && Ended(reports, if stop.Some? then stop.value else Finished)
  }

  ghost function GivenUp(stop: Option<Outcome>): multiset<nat> {
    if stop.Some? && stop.value.GaveUp? then multiset{stop.value.index} else multiset{}
  }

  /** The run ended for want of a message exactly if one could not be built. */
  ghost predicate Built(unbuilt: set<nat>, stop: Option<Outcome>) {
    unbuilt == if stop.Some? && stop.value.BuildFailed? then {stop.value.index} else {}
  }

  // ------------------------------------------------------------------ the loops

  method WaitForRetry(w: World, last: int, wait: int) returns (start: int)
    modifies w`time
    ensures start == w.time >= old(w.time)
    ensures wait > 0 ==> start - last >= wait
  {
    if wait <= 0 {
      return w.time;
    }
    var current := w.time;
    var elapsed := current - last;
    if elapsed >= wait {
      return current;
    }
    w.Sleep(wait - elapsed);
    return w.time;
  }

  /** Puts the recipients in a random order. */
  method Shuffle<T>(a: array<T>)
    modifies a
    ensures multiset(a[..]) == multiset(old(a[..]))
  {
    var i := a.Length - 1;
    while i > 0
      invariant multiset(a[..]) == multiset(old(a[..]))
    {
      var j :| 0 <= j <= i;
      a[i], a[j] := a[j], a[i];
      i := i - 1;
    }
  }

  datatype Verdict = Again | Next | Stop(outcome: Outcome)

  /** Senders and openings are as they should be between two attempts. */
  ghost predicate Ready(w: World, sender: Option<nat>, last: int, wait: int)
    reads w
  {
    && SendersClosed(w.senders, w.closed, sender) && SenderFit(w.senders, w.broken, sender)
    && Spaced(w.openings, last, w.time, wait) && OpenedAsNeeded(w.openings, w.ledger, sender)
  }

  lemma ReadyMeans(w: World, sender: Option<nat>, last: int, wait: int)
    requires Ready(w, sender, last, wait)
    ensures SendersClosed(w.senders, w.closed, sender) && Spaced(w.openings, last, w.time, wait)
    ensures |w.openings| <= |w.ledger.failed| + 1
  {
  }

  /** One attempt for one recipient, with the sender at hand or a new one. */
  method Attempt(w: World, index: nat, flags: Flags, current: Option<nat>, last: int)
    returns (sender: Option<nat>, lastAttempt: int, verdict: Verdict)
    requires Ready(w, current, last, flags.wait)
    requires Asked(w.ledger, w.reports, None) && Built(w.unbuilt, None)
    modifies w
    ensures !verdict.Stop? ==> Ready(w, sender, lastAttempt, flags.wait)
    ensures SendersClosed(w.senders, w.closed, sender) && Spaced(w.openings, lastAttempt, w.time, flags.wait)
    ensures |w.openings| <= |w.ledger.failed| + 1
    ensures Built(w.unbuilt, if verdict.Stop? then Some(verdict.outcome) else None)
    ensures verdict == Again ==> w.failures < old(w.failures) && w.ledger == old(w.ledger).Fail(index)
    ensures verdict == Next ==> w.ledger in {old(w.ledger).Skip(index), old(w.ledger).Deliver(index)}
    ensures verdict.Stop? ==>
              && verdict.outcome in {Paused, Canceled, BuildFailed(index)}
              && w.ledger in {old(w.ledger), old(w.ledger).Deliver(index), old(w.ledger).Fail(index)}
    ensures Asked(w.ledger, w.reports, if verdict.Stop? then Some(verdict.outcome) else None)
  {
    hide Spaced, Asked;
    sender, lastAttempt := current, last;
    if sender == None {
      sender, lastAttempt := Acquire(w, index, flags, last);
      if sender == None {
        return sender, lastAttempt, Again;
      }
    }
    ghost var before := w.time;
    verdict := Try(w, index, flags, sender.value);
    SpacedLater(w.openings, lastAttempt, before, w.time, flags.wait);
    if verdict == Again {
      ClosedOne(w.senders, w.closed, sender.value);
      w.Close(sender.value);
      sender := None;
    }
  }

  /** Opens a sender, not too soon after the last one; tells the callback if that
      fails. */
  method Acquire(w: World, index: nat, flags: Flags, last: int) returns (sender: Option<nat>, lastAttempt: int)
    requires Ready(w, None, last, flags.wait) && Asked(w.ledger, w.reports, None)
    modifies w`time, w`failures, w`senders, w`openings, w`ledger, w`reports
    ensures Ready(w, sender, lastAttempt, flags.wait) && Asked(w.ledger, w.reports, None)
    ensures sender == None ==> w.failures < old(w.failures) && w.ledger == old(w.ledger).Fail(index)
    ensures sender != None ==> w.failures == old(w.failures) && w.ledger == old(w.ledger)
  {
    hide Spaced, Quiet, StoppedBy, ToldIn;
    lastAttempt := WaitForRetry(w, last, flags.wait);
    SpacedLater(w.openings, last, old(w.time), w.time, flags.wait);
    sender := OpenSpaced(w, index, last, lastAttempt, flags.wait);
    if sender == None {
      var _ := w.Ask(index, OpenFailed);
    }
  }

  lemma SpacedLater(openings: seq<int>, last: int, now: int, later: int, wait: int)
    requires Spaced(openings, last, now, wait) && now <= later
    ensures Spaced(openings, last, later, wait)
  {
  }

  lemma ClosedOne(senders: nat, closed: multiset<nat>, sender: nat)
    requires SendersClosed(senders, closed, Some(sender))
    ensures SendersClosed(senders, closed + multiset{sender}, None)
  {
  }

  /** Opening after the pause keeps openings spaced. */
  method OpenSpaced(w: World, index: nat, ghost last: int, ghost start: int, ghost wait: int)
    returns (sender: Option<nat>)
    requires Ready(w, None, last, wait) && start == w.time && (wait > 0 ==> start - last >= wait)
    modifies w`time, w`failures, w`senders, w`openings, w`ledger
    ensures Ready(w, sender, start, wait)
    ensures sender == None ==> w.failures < old(w.failures) && w.ledger == old(w.ledger).Fail(index)
    ensures sender != None ==> w.failures == old(w.failures) && w.ledger == old(w.ledger)
  {
    sender := w.Open(index);
    var n := |w.openings| - 1;
    assert forall i | 0 <= i < n :: w.openings[i] == old(w.openings)[i];
  }

  /** An attempt over an open sender. */
  method Try(w: World, index: nat, flags: Flags, sender: nat) returns (verdict: Verdict)
    requires Asked(w.ledger, w.reports, None) && Built(w.unbuilt, None)
    requires sender < w.senders && w.closed[sender] == 0 && sender !in w.broken
    modifies w`time, w`failures, w`ledger, w`reports, w`broken, w`unbuilt
    ensures w.time >= old(w.time)
    ensures w.ledger.delivered != old(w.ledger.delivered) || w.ledger.failed != old(w.ledger.failed)
        ==> w.time >= old(w.time) + flags.preSendSleep
    ensures verdict == Next ==> w.broken == old(w.broken)
    ensures w.broken <= old(w.broken) + {sender}
    ensures Built(w.unbuilt, if verdict.Stop? then Some(verdict.outcome) else None)
    ensures verdict == Again ==> w.failures < old(w.failures) && w.ledger == old(w.ledger).Fail(index)
    ensures verdict == Next ==> w.ledger in {old(w.ledger).Skip(index), old(w.ledger).Deliver(index)}
    ensures verdict.Stop? ==>
              && verdict.outcome in {Paused, Canceled, BuildFailed(index)}
              && w.ledger in {old(w.ledger), old(w.ledger).Deliver(index), old(w.ledger).Fail(index)}
    ensures Asked(w.ledger, w.reports, if verdict.Stop? then Some(verdict.outcome) else None)
  {
    var action := w.Ask(index, Sending);
    if action == Skip {
      w.ledger := w.ledger.Skip(index);
      return Next;
    }
    if action == Pause {
      return Stop(Paused);
    }
    if action == Cancel {
      return Stop(Canceled);
    }
    var built := w.Build(index);
    if !built {
      return Stop(BuildFailed(index));
    }
    if flags.preSendSleep > 0 {
      w.Sleep(flags.preSendSleep);
    }
    verdict := Transmit(w, index, sender);
  }

  /** Sends a message that was built, and tells the callback. */
  method Transmit(w: World, index: nat, sender: nat) returns (verdict: Verdict)
    requires Asked(w.ledger, w.reports, None)
    requires sender < w.senders && w.closed[sender] == 0 && sender !in w.broken
    modifies w`time, w`failures, w`ledger, w`reports, w`broken
    ensures w.time >= old(w.time)
    ensures verdict == Next ==> w.broken == old(w.broken) && w.ledger == old(w.ledger).Deliver(index)
    ensures verdict == Again ==> w.failures < old(w.failures) && w.ledger == old(w.ledger).Fail(index)
    ensures verdict.Stop? ==>
              && verdict.outcome in {Paused, Canceled}
              && w.ledger in {old(w.ledger).Deliver(index), old(w.ledger).Fail(index)}
    ensures w.broken <= old(w.broken) + {sender}
    ensures Asked(w.ledger, w.reports, if verdict.Stop? then Some(verdict.outcome) else None)
  {
    var ok := w.Deliver(index, sender);
    var action := w.Ask(index, if ok then Sent else SendFailed);
    if action == Pause {
      return Stop(Paused);
    }
    if action == Cancel {
      return Stop(Canceled);
    }
    return if ok then Next else Again;
  }

  /** So many failures for one recipient. */
  function Failed(l: Ledger, index: nat, n: nat): Ledger {
    if n == 0 then l else Failed(l, index, n - 1).Fail(index)
  }

  lemma {:induction false} FailedCount(l: Ledger, index: nat, n: nat)
    ensures var f := Failed(l, index, n);
      && f.delivered == l.delivered && f.skipped == l.skipped
      && f.failed[index] == l.failed[index] + n && forall i: nat | i != index :: f.failed[i] == l.failed[i]
  {
    if n > 0 {
      FailedCount(l, index, n - 1);
    }
  }

  /** All attempts for one recipient. A reason to stop ends the whole run. */
  method SendTo(w: World, index: nat, flags: Flags, current: Option<nat>, last: int)
    returns (sender: Option<nat>, lastAttempt: int, stop: Option<Outcome>)
    requires Ready(w, current, last, flags.wait)
    requires Asked(w.ledger, w.reports, None) && Built(w.unbuilt, None)
    requires DealtBelow(w.ledger, index) && Bounded(w.ledger, flags.maxAttempts)
    modifies w
    ensures SendersClosed(w.senders, w.closed, sender) && Spaced(w.openings, lastAttempt, w.time, flags.wait)
    ensures stop == None ==> Ready(w, sender, lastAttempt, flags.wait)
    ensures |w.openings| <= |w.ledger.failed| + 1 && Built(w.unbuilt, stop)
    ensures Bounded(w.ledger, flags.maxAttempts) && AtMostOne(w.ledger)
    ensures stop == None ==> DealtBelow(w.ledger, index + 1)
    ensures UntouchedFrom(w.ledger, index + 1)
    ensures stop != Some(Finished) && Asked(w.ledger, w.reports, stop)
    ensures stop.Some? && stop.value.GaveUp? ==>
              && stop.value.index == index && flags.maxAttempts > 0
              && w.ledger.failed[index] == flags.maxAttempts && w.ledger.delivered[index] == 0
  {
    hide SendersClosed, Spaced, StoppedBy, Quiet, SenderFit, ToldIn, Ready;
    sender, lastAttempt, stop := current, last, None;
    ghost var before := w.ledger;
    var attempts := 0;
    assert Untouched(before, index);
    while true
      invariant Ready(w, sender, lastAttempt, flags.wait)
      invariant attempts >= 0 && w.ledger == Failed(before, index, attempts)
      invariant flags.maxAttempts > 0 ==> attempts <= flags.maxAttempts
      invariant Asked(w.ledger, w.reports, None) && Built(w.unbuilt, None)
      decreases w.failures
    {
      FailedCount(before, index, attempts);
      ReadyMeans(w, sender, lastAttempt, flags.wait);
      if flags.maxAttempts > 0 && attempts >= flags.maxAttempts {
        var _ := w.Ask(index, GiveUp);
        stop := Some(GaveUp(index));
        break;
      }
      var verdict;
      sender, lastAttempt, verdict := Attempt(w, index, flags, sender, lastAttempt);
      if verdict == Again {
        attempts := attempts + 1;
        continue;
      }
      if verdict.Stop? {
        stop := Some(verdict.outcome);
      }
      break;
    }
    OneMoreDealt(before, w.ledger, index, flags.maxAttempts);
  }

  /** Only recipient `index` was dealt with meanwhile. */
  lemma OneMoreDealt(before: Ledger, l: Ledger, index: nat, maxAttempts: int)
    requires DealtBelow(before, index) && Bounded(before, maxAttempts)
    requires forall i: nat | i != index :: l.failed[i] == before.failed[i] && l.delivered[i] == before.delivered[i]
    requires l.skipped == before.skipped || l.skipped == before.skipped + {index}
    requires l.delivered[index] == 0 || (l.delivered[index] == 1 && index !in l.skipped)
    requires maxAttempts > 0 ==> l.failed[index] <= maxAttempts
    ensures Bounded(l, maxAttempts) && AtMostOne(l)
    ensures Dealt(l, index) ==> DealtBelow(l, index + 1)
    ensures UntouchedFrom(l, index + 1)
  {
    forall i: nat ensures i < index ==> Dealt(l, i)
      ensures i > index ==> Untouched(l, i)
    {
      assert i < index ==> Dealt(before, i);
      assert i > index ==> Untouched(before, i);
    }
    forall i: nat ensures l.delivered[i] <= 1 && (i in l.skipped ==> l.delivered[i] == 0) {
      assert i < index ==> Dealt(l, i);
      assert i > index ==> Untouched(l, i);
    }
  }

  /** The recipients' turns, first to last; the last sender is closed whatever
      happens. */
  method SendInTurn(w: World, count: nat, flags: Flags) returns (r: Outcome)
    requires w.Unused() && w.time >= 0
    modifies w
    ensures r == Finished ==> DealtBelow(w.ledger, count)
    ensures AtMostOne(w.ledger) && Bounded(w.ledger, flags.maxAttempts) && UntouchedFrom(w.ledger, count)
    ensures r.GaveUp? ==>
              && r.index < count && flags.maxAttempts > 0
              && w.ledger.failed[r.index] == flags.maxAttempts && w.ledger.delivered[r.index] == 0
    ensures SendersClosed(w.senders, w.closed, None) && Asked(w.ledger, w.reports, Some(r))
    ensures Built(w.unbuilt, Some(r)) && |w.openings| <= |w.ledger.failed| + 1
    ensures forall i, j | 0 <= i < j < |w.openings| :: w.openings[j] - w.openings[i] >= flags.wait
  {
    var sender, lastAttempt, stop: Option<Outcome> := None, 0, None;
    hide Spaced, ToldIn;
    SpacedFirst(w.time, flags.wait);
    NothingTold();
    var index := 0;
    while index < count && stop == None
      invariant index <= count
      invariant stop == None ==> Ready(w, sender, lastAttempt, flags.wait)
      invariant SendersClosed(w.senders, w.closed, sender) && Spaced(w.openings, lastAttempt, w.time, flags.wait)
      invariant |w.openings| <= |w.ledger.failed| + 1 && Built(w.unbuilt, stop)
      invariant Bounded(w.ledger, flags.maxAttempts) && AtMostOne(w.ledger)
      invariant stop == None ==> DealtBelow(w.ledger, index)
      invariant Asked(w.ledger, w.reports, stop)
      invariant UntouchedFrom(w.ledger, index) && stop != Some(Finished)
      invariant stop.Some? && stop.value.GaveUp? ==>
                  && stop.value.index < count && flags.maxAttempts > 0
                  && w.ledger.failed[stop.value.index] == flags.maxAttempts
                  && w.ledger.delivered[stop.value.index] == 0
    {
      sender, lastAttempt, stop := SendTo(w, index, flags, sender, lastAttempt);
      index := index + 1;
    }
    if sender != None {
      ClosedOne(w.senders, w.closed, sender.value);
      w.Close(sender.value);
    }
    SpacedMeans(w.openings, lastAttempt, w.time, flags.wait);
    r := if stop == None then Finished else stop.value;
  }

  lemma SpacedMeans(openings: seq<int>, last: int, now: int, wait: int)
    requires Spaced(openings, last, now, wait)
    ensures forall i, j | 0 <= i < j < |openings| :: openings[j] - openings[i] >= wait
  {
  }

  lemma SpacedFirst(now: int, wait: int)
    requires now >= 0
    ensures Spaced([], 0, now, wait)
  {
  }

  lemma NothingTold()
    ensures ToldIn([]) == Told(multiset{}, multiset{}, multiset{}, {})
  {
  }

  /** Sends to every recipient, in some order. When all is finished each was
      skipped or got exactly one message; in any case none got two, none failed
      more often than allowed, every sender was closed exactly once, none was
      opened without need or used after a failure, and the callback was told
      everything and obeyed. */
  method Send<T>(w: World, recipients: seq<T>, flags: Flags) returns (r: Outcome, sent: seq<T>)
    requires w.Unused() && w.time >= 0
    modifies w
    ensures multiset(sent) == multiset(recipients)
    ensures r == Finished ==> DealtBelow(w.ledger, |sent|)
    ensures AtMostOne(w.ledger) && Bounded(w.ledger, flags.maxAttempts) && UntouchedFrom(w.ledger, |sent|)
    ensures r.GaveUp? ==>
              && r.index < |sent| && flags.maxAttempts > 0
              && w.ledger.failed[r.index] == flags.maxAttempts && w.ledger.delivered[r.index] == 0
    ensures SendersClosed(w.senders, w.closed, None) && Asked(w.ledger, w.reports, Some(r))
    ensures Built(w.unbuilt, Some(r)) && |w.openings| <= |w.ledger.failed| + 1
    ensures forall i, j | 0 <= i < j < |w.openings| :: w.openings[j] - w.openings[i] >= flags.wait
  {
    if |recipients| == 0 {
      return Finished, recipients;
    }
    hide Ended, Bounded, AtMostOne, UntouchedFrom, SendersClosed, DealtBelow;
    var order := new T[|recipients|](i requires 0 <= i < |recipients| => recipients[i]);
    assert order[..] == recipients;
    if flags.shuffle {
      Shuffle(order);
    }
    sent := order[..];
    r := SendInTurn(w, |sent|, flags);
  }
}
