/**
 * primary_client.cpp, sendScriptBlocking: once a script is sent, a loop drains two queues and a flag that the receiving
 * thread fills, and decides whether the script has run to its end. Messages may arrive between any two of its steps.
 */
module ScriptMonitor {
  import opened Wrappers

  datatype ReportLevel = Debug | Info | Warning | Violation | Fault | OtherLevel

  datatype ErrorCode = ErrorCode(messageCode: int, level: ReportLevel)

  datatype KeyMessage = KeyMessage(title: string, text: string)

  const STOPPED := "PROGRAM_XXX_STOPPED"
  const STARTED := "PROGRAM_XXX_STARTED"
  const READ_ONLY := 210

  /** Clock readings are in nanoseconds. */
  const MILLISECOND := 1_000_000
  const GRACE := 100 * MILLISECOND

  /** The script that is watched: a timeout of zero milliseconds means none for its start. */
  datatype Script = Script(name: string, timeout: nat, failOnWarnings: bool, sentAt: int)

  predicate IsError(e: ErrorCode) {
    e.level == Violation || e.level == Fault || e.messageCode == READ_ONLY
  }

  /** An error code that ends the watch. */
  predicate Fatal(s: Script, e: ErrorCode) {
    IsError(e) || (s.failOnWarnings && e.level == Warning)
  }

  predicate IsStopped(s: Script, m: KeyMessage) {
    m.title == STOPPED && m.text == s.name
  }

  predicate IsStarted(s: Script, m: KeyMessage) {
    m.title == STARTED && m.text == s.name
  }

  /** duration_cast to milliseconds, towards zero. */
  function Milliseconds(d: int): int {
    if d >= 0 then d / MILLISECOND else -(-d / MILLISECOND)
  }

  // One turn of the loop

  /**
   * What a turn sees: an exception, the error codes and the messages that it drains, and the clock: `messagesAt` at the
   * first message that reports the stop, the only one at which the clock is read, and `now` at the end.
   */
  datatype Turn = Turn(exception: bool, errors: seq<ErrorCode>, messages: seq<KeyMessage>, messagesAt: int, now: int)

  /** The loop's variables, or its result. */
  datatype Watch = Watching(started: bool, stoppedAt: Option<int>) | Returned(success: bool)

  function Begun(s: Script): Watch {
    Watching(s.timeout == 0, None)
  }

  function Scanned(s: Script, w: Watch, messages: seq<KeyMessage>, now: int): (r: Watch)
    requires w.Watching?
    ensures r.Watching?
    decreases messages
  {
    if messages == [] then w
    else
      var next :=
        if IsStopped(s, messages[0]) then (if w.stoppedAt.Some? then w else Watching(true, Some(now)))
        else if IsStarted(s, messages[0]) then w.(started := true)
        else w;
      Scanned(s, next, messages[1..], now)
  }

  function Decided(s: Script, w: Watch, now: int): Watch
    requires w.Watching?
  {
    if w.stoppedAt.Some? then if now - w.stoppedAt.value >= GRACE then Returned(true) else w
    else if !w.started && Milliseconds(now - s.sentAt) > s.timeout then Returned(false)
    else w
  }

  predicate AnyFatal(s: Script, errors: seq<ErrorCode>) {
    exists i :: 0 <= i < |errors| && Fatal(s, errors[i])
  }

  function After(s: Script, w: Watch, t: Turn): Watch {
    if w.Returned? then w
    else if t.exception || AnyFatal(s, t.errors) then Returned(false)
    else Decided(s, Scanned(s, w, t.messages, t.messagesAt), t.now)
  }

  function Watched(s: Script, turns: seq<Turn>): Watch {
    if turns == [] then Begun(s) else After(s, Watched(s, turns[..|turns| - 1]), turns[|turns| - 1])
  }

  // The loop and the receiving thread, step by step

  datatype Stage =
    | CheckingException
    | DrainingErrors
    | DrainingMessages(errors: seq<ErrorCode>)
    | Deciding(errors: seq<ErrorCode>, messages: seq<KeyMessage>, messagesAt: int)
    | Finished

  class PrimaryClient {
    var errorCodeQueue: seq<ErrorCode>
    var keyMessageQueue: seq<KeyMessage>
    var runtimeException: bool

    var stage: Stage
    var watch: Watch
    var stopsSent: nat
    ghost var turns: seq<Turn>
    ghost var arrived: seq<ErrorCode>

    /** The error codes that were drained, in their order. */
    ghost function Drained(): seq<ErrorCode>
      reads this
    {
      match stage
      case DrainingMessages(errors) => AllErrors(turns) + errors
      case Deciding(errors, _, _) => AllErrors(turns) + errors
      case _ => AllErrors(turns)
    }

    /**
     * The loop's variables are those of the turns so far, within a turn with what it has drained, and no error code that
     * arrived is lost: each was drained or is still in the queue.
     */
    ghost predicate Valid(s: Script)
      reads this
    {
      && arrived == Drained() + errorCodeQueue
      && match stage
         case CheckingException => watch.Watching? && watch == Watched(s, turns)
         case DrainingErrors => watch.Watching? && watch == Watched(s, turns)
         case DrainingMessages(errors) => watch.Watching? && watch == Watched(s, turns) && !AnyFatal(s, errors)
         case Deciding(errors, messages, at) =>
           var before := Watched(s, turns);
           watch.Watching? && before.Watching? && !AnyFatal(s, errors) && watch == Scanned(s, before, messages, at)
         case Finished =>
           watch.Returned? && watch == Watched(s, turns) && turns != [] && Watched(s, turns[..|turns| - 1]).Watching?
    }

    /** The queues are cleared, and the script is sent. */
    constructor (s: Script)
      ensures Valid(s) && stage == CheckingException && turns == [] && arrived == [] && stopsSent == 0
    {
      errorCodeQueue, keyMessageQueue, runtimeException := [], [], false;
      stage, watch, stopsSent, turns, arrived := CheckingException, Begun(s), 0, [], [];
    }

    method ErrorMessageCallback(s: Script, code: ErrorCode)
      requires Valid(s)
      modifies this`errorCodeQueue, this`arrived
      ensures Valid(s) && errorCodeQueue == old(errorCodeQueue) + [code] && arrived == old(arrived) + [code]
    {
      errorCodeQueue := errorCodeQueue + [code];
      arrived := arrived + [code];
    }

    method KeyMessageCallback(s: Script, message: KeyMessage)
      requires Valid(s)
      modifies this`keyMessageQueue
      ensures Valid(s) && keyMessageQueue == old(keyMessageQueue) + [message]
    {
      keyMessageQueue := keyMessageQueue + [message];
    }

    method RuntimeExceptionCallback(s: Script)
      requires Valid(s)
      modifies this`runtimeException
      ensures Valid(s) && runtimeException
    {
      runtimeException := true;
    }

    /** Returns false in the middle of a turn. */
    method Fail(s: Script, exception: bool, errors: seq<ErrorCode>)
      requires watch.Watching? && watch == Watched(s, turns) && (exception || AnyFatal(s, errors))
      requires arrived == AllErrors(turns) + errors + errorCodeQueue
      modifies this`stage, this`watch, this`turns
      ensures Valid(s) && watch == Returned(false)
      ensures turns == old(turns) + [Turn(exception, errors, [], 0, 0)]
    {
      hide AnyFatal, AllErrors, Watched;
      EndTurn(s, turns, Turn(exception, errors, [], 0, 0));
      turns := turns + [Turn(exception, errors, [], 0, 0)];
      watch := Returned(false);
      stage := Finished;
    }

    method CheckException(s: Script)
      requires Valid(s) && stage == CheckingException
      modifies this`stage, this`watch, this`turns
      ensures Valid(s)
      ensures if runtimeException then turns == old(turns) + [Turn(true, [], [], 0, 0)] && watch == Returned(false)
              else stage == DrainingErrors && watch == old(watch) && turns == old(turns)
    {
      if runtimeException {
        assert AllErrors(turns) + [] == AllErrors(turns);
        Fail(s, true, []);
      } else {
        stage := DrainingErrors;
      }
    }

    static method Classify(errors: seq<ErrorCode>) returns (isError: bool, isWarning: bool, isReadOnly: bool)
      ensures isError == AnyError(errors) && isWarning == AnyWarning(errors) && isReadOnly == AnyReadOnly(errors)
    {
      isError, isWarning, isReadOnly := false, false, false;
      for i := 0 to |errors|
        invariant isError <==> exists k :: 0 <= k < i && IsError(errors[k])
        invariant isWarning <==> exists k :: 0 <= k < i && errors[k].level == Warning
        invariant isReadOnly <==> exists k :: 0 <= k < i && errors[k].messageCode == READ_ONLY
      {
        if errors[i].level == Violation || errors[i].level == Fault {
          isError := true;
        }
        if errors[i].level == Warning {
          isWarning := true;
        }
        if errors[i].messageCode == READ_ONLY {
          isError := true;
          isReadOnly := true;
        }
      }
    }

    method CheckErrors(s: Script)
      requires Valid(s) && stage == DrainingErrors
      modifies this
      ensures Valid(s) && errorCodeQueue == []
      ensures unchanged(`arrived) && unchanged(`keyMessageQueue) && unchanged(`runtimeException)
      ensures if AnyFatal(s, old(errorCodeQueue))
              then turns == old(turns) + [Turn(false, old(errorCodeQueue), [], 0, 0)] && watch == Returned(false)
              else stage == DrainingMessages(old(errorCodeQueue)) && watch == old(watch) && turns == old(turns)
      ensures stopsSent == old(stopsSent) + StopsFor(old(errorCodeQueue))
    {
      hide AnyFatal, IsError, Watched, AllErrors, Scanned, AnyError, AnyWarning, AnyReadOnly;
      var errors := errorCodeQueue;
      errorCodeQueue := [];
      var isError, isWarning, isReadOnly := Classify(errors);
      AnyFatalExactly(s, errors);
      assert arrived == AllErrors(turns) + errors;
      assert arrived + [] == arrived;
      if isError || (isWarning && s.failOnWarnings) {
        if isError && !isReadOnly {
          stopsSent := stopsSent + 1;
        }
        Fail(s, false, errors);
      } else {
        stage := DrainingMessages(errors);
      }
    }

    method DrainMessages(s: Script, now: int)
      requires Valid(s) && stage.DrainingMessages?
      modifies this`keyMessageQueue, this`stage, this`watch
      ensures Valid(s) && keyMessageQueue == []
      ensures stage == Deciding(old(stage.errors), old(keyMessageQueue), now)
    {
      var messages := keyMessageQueue;
      keyMessageQueue := [];
      var w := watch;
      assert messages[0..] == messages;
      for i := 0 to |messages|
        invariant w.Watching?
        invariant Scanned(s, watch, messages, now) == Scanned(s, w, messages[i..], now)
      {
        assert messages[i..][1..] == messages[i + 1..];
        if messages[i].title == STOPPED && messages[i].text == s.name {
          if w.stoppedAt.None? {
            w := Watching(true, Some(now));
          }
        } else if !w.started && messages[i].title == STARTED && messages[i].text == s.name {
          w := w.(started := true);
        }
      }
      watch := w;
      stage := Deciding(stage.errors, messages, now);
    }

    method Decide(s: Script, now: int)
      requires Valid(s) && stage.Deciding?
      modifies this`stage, this`watch, this`turns
      ensures Valid(s)
      ensures turns == old(turns) + [Turn(false, old(stage.errors), old(stage.messages), old(stage.messagesAt), now)]
      ensures stage == if watch.Returned? then Finished else CheckingException
    {
      hide AnyFatal, Scanned, Watched, AllErrors, Decided;
      ghost var turn := Turn(false, stage.errors, stage.messages, stage.messagesAt, now);
      EndTurn(s, turns, turn);
      turns := turns + [turn];
      watch := Judge(s, watch, now);
      stage := if watch.Returned? then Finished else CheckingException;
    }

    static method Judge(s: Script, watch: Watch, now: int) returns (next: Watch)
      requires watch.Watching?
      ensures next == Decided(s, watch, now)
    {
      next := watch;
      if watch.stoppedAt.Some? {
        if now - watch.stoppedAt.value >= GRACE {
          next := Returned(true);
        }
      } else if !watch.started && Milliseconds(now - s.sentAt) > s.timeout {
        next := Returned(false);
      }
    }
  }

  /** The error codes drained in some turns. */
  function AllErrors(turns: seq<Turn>): seq<ErrorCode> {
    if turns == [] then [] else AllErrors(turns[..|turns| - 1]) + turns[|turns| - 1].errors
  }

  predicate AnyError(errors: seq<ErrorCode>) {
    exists i :: 0 <= i < |errors| && IsError(errors[i])
  }

  predicate AnyWarning(errors: seq<ErrorCode>) {
    exists i :: 0 <= i < |errors| && errors[i].level == Warning
  }

  predicate AnyReadOnly(errors: seq<ErrorCode>) {
    exists i :: 0 <= i < |errors| && errors[i].messageCode == READ_ONLY
  }

  /** How often the program is told to stop: not over a read-only connection. */
  function StopsFor(errors: seq<ErrorCode>): nat {
    if AnyError(errors) && !AnyReadOnly(errors) then 1 else 0
  }

  /** The program is told to stop exactly for a violation or fault that comes with no report of a read-only connection. */
  lemma StopsExactly(errors: seq<ErrorCode>)
    ensures StopsFor(errors) <= 1
    ensures StopsFor(errors) == 1 <==>
            && (exists i :: 0 <= i < |errors| && (errors[i].level == Violation || errors[i].level == Fault))
            && forall i :: 0 <= i < |errors| ==> errors[i].messageCode != 210
  {
    if StopsFor(errors) == 0 && !AnyReadOnly(errors) {
      forall i | 0 <= i < |errors| ensures errors[i].level != Violation && errors[i].level != Fault {
        assert !IsError(errors[i]);
      }
    }
  }

  lemma AnyFatalExactly(s: Script, errors: seq<ErrorCode>)
    ensures AnyFatal(s, errors) <==> AnyError(errors) || (s.failOnWarnings && AnyWarning(errors))
  {
    if AnyError(errors) {
      var i :| 0 <= i < |errors| && IsError(errors[i]);
      assert Fatal(s, errors[i]);
    } else if s.failOnWarnings && AnyWarning(errors) {
      var i :| 0 <= i < |errors| && errors[i].level == Warning;
      assert Fatal(s, errors[i]);
    }
  }

  lemma EndTurn(s: Script, turns: seq<Turn>, t: Turn)
    ensures Watched(s, turns + [t]) == After(s, Watched(s, turns), t)
    ensures AllErrors(turns + [t]) == AllErrors(turns) + t.errors
    ensures (turns + [t])[..|turns|] == turns
  {
    assert (turns + [t])[..|turns|] == turns;
  }

  // When the loop goes on, and when it returns true

  /** One of the messages reports the end of this script. */
  predicate ReportsStop(s: Script, t: Turn) {
    KeyMessage("PROGRAM_XXX_STOPPED", s.name) in t.messages
  }

  predicate ReportsStart(s: Script, t: Turn) {
    KeyMessage("PROGRAM_XXX_STARTED", s.name) in t.messages
  }

  /** The first turn in which the script's own end is reported, or the number of turns. */
  function FirstStop(s: Script, turns: seq<Turn>): (f: nat)
    ensures f <= |turns| && (f < |turns| ==> ReportsStop(s, turns[f]))
    ensures forall k :: 0 <= k < f ==> !ReportsStop(s, turns[k])
  {
    if turns == [] then 0
    else
      var last := |turns| - 1;
      var f := FirstStop(s, turns[..last]);
      if f < last || ReportsStop(s, turns[last]) then f else |turns|
  }

  ghost predicate StartSeen(s: Script, turns: seq<Turn>) {
    s.timeout == 0 || exists k :: 0 <= k < |turns| && ReportsStart(s, turns[k])
  }

  /** Of a level below violation and not about a read-only connection; no warning either, if those count. */
  predicate Passes(s: Script, e: ErrorCode) {
    && e.level != Violation && e.level != Fault && e.messageCode != 210
    && (s.failOnWarnings ==> e.level != Warning)
  }

  ghost predicate Harmless(s: Script, t: Turn) {
    !t.exception && forall i :: 0 <= i < |t.errors| ==> Passes(s, t.errors[i])
  }

  lemma HarmlessExactly(s: Script, t: Turn)
    ensures Harmless(s, t) <==> !t.exception && !AnyFatal(s, t.errors)
  {
    if forall i :: 0 <= i < |t.errors| ==> Passes(s, t.errors[i]) {
      assert forall i :: 0 <= i < |t.errors| ==> !Fatal(s, t.errors[i]);
    } else {
      var i :| 0 <= i < |t.errors| && !Passes(s, t.errors[i]);
      assert Fatal(s, t.errors[i]);
    }
  }

  /** The last of these turns does not end the watch. */
  ghost predicate GoesOn(s: Script, turns: seq<Turn>)
    requires turns != []
  {
    var (f, last) := (FirstStop(s, turns), turns[|turns| - 1]);
    && Harmless(s, last)
    && if f < |turns| then last.now - turns[f].messagesAt < 100_000_000
       else StartSeen(s, turns) || last.now - s.sentAt < 1_000_000 * (s.timeout + 1)
  }

  lemma {:induction false} ScannedExactly(s: Script, w: Watch, messages: seq<KeyMessage>, now: int)
    requires w.Watching?
    ensures var (r, t) := (Scanned(s, w, messages, now), Turn(false, [], messages, 0, 0));
            && r.stoppedAt == (if w.stoppedAt.Some? then w.stoppedAt else if ReportsStop(s, t) then Some(now) else None)
            && (r.stoppedAt.None? ==> (r.started <==> w.started || ReportsStart(s, t)))
    decreases messages
  {
    if messages != [] {
      var (m, rest) := (messages[0], messages[1..]);
      var (t, u) := (Turn(false, [], messages, 0, 0), Turn(false, [], rest, 0, 0));
      assert ReportsStop(s, t) <==> IsStopped(s, m) || ReportsStop(s, u) by {
        StopInCons(s, t, u);
      }
      assert ReportsStart(s, t) <==> IsStarted(s, m) || ReportsStart(s, u) by {
        StartInCons(s, t, u);
      }
      assert STOPPED[12] != STARTED[12] || STOPPED[14] != STARTED[14];
      var next :=
        if IsStopped(s, m) then (if w.stoppedAt.Some? then w else Watching(true, Some(now)))
        else if IsStarted(s, m) then w.(started := true)
        else w;
      ScannedExactly(s, next, rest, now);
      hide ReportsStop, ReportsStart, IsStarted, IsStopped;
    }
  }

  /** Cutting off to milliseconds: more than the timeout have passed once the next one is full. */
  lemma TimeoutExactly(elapsed: int, timeout: nat)
    ensures Milliseconds(elapsed) > timeout <==> elapsed >= 1_000_000 * (timeout + 1)
  {
  }

  lemma StopInCons(s: Script, t: Turn, u: Turn)
    requires t.messages != [] && u.messages == t.messages[1..]
    ensures ReportsStop(s, t) <==> IsStopped(s, t.messages[0]) || ReportsStop(s, u)
  {
    assert t.messages == [t.messages[0]] + u.messages;
  }

  lemma StartInCons(s: Script, t: Turn, u: Turn)
    requires t.messages != [] && u.messages == t.messages[1..]
    ensures ReportsStart(s, t) <==> IsStarted(s, t.messages[0]) || ReportsStart(s, u)
  {
    assert t.messages == [t.messages[0]] + u.messages;
  }

  ghost predicate AllGoOn(s: Script, turns: seq<Turn>) {
    forall n :: 0 < n <= |turns| ==> GoesOn(s, turns[..n])
  }

  /** What the loop's variables mean while it goes on, and that it does exactly while no turn ends it. */
  ghost predicate Explained(s: Script, turns: seq<Turn>) {
    var (w, f) := (Watched(s, turns), FirstStop(s, turns));
    && (w.Watching? <==> AllGoOn(s, turns))
    && (w.Watching? ==>
          && w.stoppedAt == (if f < |turns| then Some(turns[f].messagesAt) else None)
          && (f == |turns| ==> (w.started <==> StartSeen(s, turns))))
  }

  lemma {:induction false} WatchingExactly(s: Script, turns: seq<Turn>)
    ensures Explained(s, turns)
  {
    if turns != [] {
      WatchingExactly(s, turns[..|turns| - 1]);
      LastTurn(s, turns);
      PrefixesGoOn(s, turns);
      hide GoesOn, Watched, FirstStop, StartSeen;
    }
  }

  lemma PrefixesGoOn(s: Script, turns: seq<Turn>)
    requires turns != []
    ensures AllGoOn(s, turns) <==> AllGoOn(s, turns[..|turns| - 1]) && GoesOn(s, turns)
  {
    hide GoesOn;
    var front := turns[..|turns| - 1];
    assert turns[..|turns|] == turns;
    if AllGoOn(s, front) && GoesOn(s, turns) {
      forall n | 0 < n <= |turns| ensures GoesOn(s, turns[..n]) {
        if n < |turns| {
          assert front[..n] == turns[..n];
        }
      }
    }
    if AllGoOn(s, turns) {
      forall n | 0 < n <= |front| ensures GoesOn(s, front[..n]) {
        assert front[..n] == turns[..n];
      }
    }
  }

  /** One more turn after turns that all let the watch go on. */
  lemma LastTurn(s: Script, turns: seq<Turn>)
    requires turns != [] && Explained(s, turns[..|turns| - 1])
    ensures var (before, w, f) := (Watched(s, turns[..|turns| - 1]), Watched(s, turns), FirstStop(s, turns));
            && (w.Watching? <==> before.Watching? && GoesOn(s, turns))
            && (w.Watching? ==>
                  && w.stoppedAt == (if f < |turns| then Some(turns[f].messagesAt) else None)
                  && (f == |turns| ==> (w.started <==> StartSeen(s, turns))))
            && (before.Watching? ==>
                  (w == Returned(true) <==>
                     && Harmless(s, turns[|turns| - 1]) && f < |turns|
                     && turns[|turns| - 1].now - turns[f].messagesAt >= 100_000_000))
  {
    var (front, last) := (turns[..|turns| - 1], turns[|turns| - 1]);
    var before := Watched(s, front);
    if before.Watching? {
      ScannedExactly(s, before, last.messages, last.messagesAt);
      SameReports(s, last);
      HarmlessExactly(s, last);
      TimeoutExactly(last.now - s.sentAt, s.timeout);
      StartSeenMore(s, turns);
      hide Scanned, AnyFatal, Harmless, Milliseconds, ReportsStop, ReportsStart, StartSeen;
    }
  }

  lemma SameReports(s: Script, t: Turn)
    ensures ReportsStop(s, Turn(false, [], t.messages, 0, 0)) <==> ReportsStop(s, t)
    ensures ReportsStart(s, Turn(false, [], t.messages, 0, 0)) <==> ReportsStart(s, t)
  {
  }

  lemma StartSeenMore(s: Script, turns: seq<Turn>)
    requires turns != []
    ensures StartSeen(s, turns) <==> StartSeen(s, turns[..|turns| - 1]) || ReportsStart(s, turns[|turns| - 1])
  {
    hide ReportsStart;
  }

  /**
   * The loop returns true at the end of a turn exactly if every turn before let it go on, this one saw no exception and
   * drained no fatal error code, the script's own end had been reported, and the grace period since then has passed.
   */
  lemma ReturnsTrueExactly(s: Script, turns: seq<Turn>)
    requires turns != [] && Watched(s, turns[..|turns| - 1]).Watching?
    ensures var f := FirstStop(s, turns);
            var last := turns[|turns| - 1];
            && AllGoOn(s, turns[..|turns| - 1])
            && (Watched(s, turns) == Returned(true) <==>
                  Harmless(s, last) && f < |turns| && last.now - turns[f].messagesAt >= 100_000_000)
  {
    WatchingExactly(s, turns[..|turns| - 1]);
    LastTurn(s, turns);
    hide GoesOn, Watched, FirstStop, Harmless;
  }

  /** Whatever it returned, it returned at one of the turns. */
  lemma {:induction false} ReturnedOnce(s: Script, turns: seq<Turn>) returns (n: nat)
    requires Watched(s, turns).Returned?
    ensures 0 < n <= |turns| && Watched(s, turns[..n - 1]).Watching? && Watched(s, turns[..n]) == Watched(s, turns)
  {
    if Watched(s, turns[..|turns| - 1]).Returned? {
      n := ReturnedOnce(s, turns[..|turns| - 1]);
      assert turns[..|turns| - 1][..n - 1] == turns[..n - 1] && turns[..|turns| - 1][..n] == turns[..n];
    } else {
      n := |turns|;
      assert turns[..n] == turns;
    }
  }

  /** Success: no turn up to it saw an exception or drained a fatal error code. */
  lemma {:induction false} TrueIsHarmless(s: Script, turns: seq<Turn>)
    requires Watched(s, turns).Watching? || (turns != [] && Watched(s, turns[..|turns| - 1]).Watching?
                                             && Watched(s, turns) == Returned(true))
    ensures forall k :: 0 <= k < |turns| ==> Harmless(s, turns[k])
  {
    if turns != [] {
      TrueIsHarmless(s, turns[..|turns| - 1]);
      HarmlessExactly(s, turns[|turns| - 1]);
    }
  }

  /**
   * And so no error code that had arrived when the queue was drained for the last time was a violation, a fault or that
   * of a read-only connection, nor a warning if those count.
   */
  lemma NoFatalArrival(c: PrimaryClient, s: Script)
    requires c.Valid(s) && c.watch == Returned(true)
    ensures |c.errorCodeQueue| <= |c.arrived|
    ensures forall i :: 0 <= i < |c.arrived| - |c.errorCodeQueue| ==>
              && c.arrived[i].level != Violation && c.arrived[i].level != Fault && c.arrived[i].messageCode != 210
              && (s.failOnWarnings ==> c.arrived[i].level != Warning)
  {
    TrueIsHarmless(s, c.turns);
    HarmlessErrors(s, c.turns);
    forall i | 0 <= i < |AllErrors(c.turns)| ensures c.arrived[i] in AllErrors(c.turns) {
    }
  }

  lemma {:induction false} HarmlessErrors(s: Script, turns: seq<Turn>)
    requires forall k :: 0 <= k < |turns| ==> Harmless(s, turns[k])
    ensures forall e :: e in AllErrors(turns) ==> Passes(s, e)
  {
    if turns != [] {
      HarmlessErrors(s, turns[..|turns| - 1]);
      assert Harmless(s, turns[|turns| - 1]);
    }
  }
}
