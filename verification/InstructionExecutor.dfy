/**
 * instruction_executor.cpp: one thread executes motions, one delivers the robot's results and disconnects, and any
 * thread may cancel. Between two accesses to the shared flags any of the others may run.
 */
module InstructionExecutor {

  datatype TrajectoryResult = Unknown | Success | Canceled | Failure

  /** executeMotion, by what it does next. */
  datatype Execution =
    | Idle | Starting | FailingToStart | Sending | SettingRunning | ClearingCancel
    | TestingRunning | TestingCancel | TestingEnd | Reading

  /** Where an event comes from: the robot's end of this motion, or a lost connection. No code looks at it. */
  datatype Source = Of(motion: nat) | Connection

  /** A callback: past its test of the running flag, holding the mutex, having stored the result. */
  datatype Callback =
    | Resting
    | Noticed(source: Source, result: TrajectoryResult)
    | Locked(source: Source, result: TrajectoryResult)
    | Stored(source: Source)

  /** What took effect: a motion's running flag was set, or an event with this result cleared it. */
  datatype Entry = Began(motion: nat) | Ended(source: Source, result: TrajectoryResult)

  datatype State = State(
    motion: nat,
    execution: Execution,
    callback: Callback,
    running: bool,
    cancelRequested: bool,
    result: TrajectoryResult,
    log: seq<Entry>,
    replies: seq<bool>
  ) {
    /** The callbacks hold the mutex over two steps, executeMotion within one. */
    predicate MutexFree() {
      !callback.Locked? && !callback.Stored?
    }

    function Returned(success: bool): State {
      this.(execution := Idle, replies := replies + [success])
    }
  }

  datatype Event =
    | Execute
    | Start(ok: bool)
    | FailToStart
    | Send
    | SetRunning
    | ClearCancel
    | TestRunning
    | TestCancel
    | TestEnd
    | Read
    | Done(motion: nat, result: TrajectoryResult)
    | Disconnect
    | Lock
    | Store
    | ClearRunning
    | Cancel

  const NEW := State(0, Idle, Resting, false, false, Unknown, [], [])

  /** A step that is not possible in a state leaves it as it is. */
  function Step(s: State, e: Event): State {
    match e
    case Execute => if s.execution == Idle then s.(motion := s.motion + 1, execution := Starting) else s
    case Start(ok) =>
      if s.execution == Starting then s.(execution := if ok then Sending else FailingToStart) else s
    case FailToStart =>
      if s.execution == FailingToStart && s.MutexFree() then s.(result := Failure).Returned(false) else s
    case Send => if s.execution == Sending then s.(execution := SettingRunning) else s
    case SetRunning =>
      if s.execution != SettingRunning then s
      else s.(running := true, execution := ClearingCancel, log := s.log + [Began(s.motion)])
    case ClearCancel =>
      if s.execution == ClearingCancel then s.(cancelRequested := false, execution := TestingRunning) else s
    case TestRunning =>
      if s.execution == TestingRunning then s.(execution := if s.running then TestingCancel else TestingEnd) else s
    case TestCancel =>
      if s.execution != TestingCancel then s
      else s.(execution := if s.cancelRequested then TestingEnd else TestingRunning)
    case TestEnd =>
      if s.execution != TestingEnd then s
      else if s.cancelRequested then s.Returned(false)
      else s.(execution := Reading)
    case Read => if s.execution == Reading && s.MutexFree() then s.Returned(s.result == Success) else s
    case Done(motion, result) =>
      if s.callback == Resting && s.running then s.(callback := Noticed(Of(motion), result)) else s
    case Disconnect => if s.callback == Resting && s.running then s.(callback := Locked(Connection, Failure)) else s
    case Lock => if s.callback.Noticed? then s.(callback := Locked(s.callback.source, s.callback.result)) else s
    case Store =>
      if s.callback.Locked? then s.(result := s.callback.result, callback := Stored(s.callback.source)) else s
    case ClearRunning =>
      if !s.callback.Stored? then s
      else s.(running := false, callback := Resting, log := s.log + [Ended(s.callback.source, s.result)])
    case Cancel => s.(cancelRequested := true)
  }

  function Run(s: State, es: seq<Event>): State {
    if es == [] then s else Step(Run(s, es[..|es| - 1]), es[|es| - 1])
  }

  // What takes effect on a motion

  /** The last motion that set the running flag, and what took effect since. */
  function Since(log: seq<Entry>): (nat, seq<Entry>) {
    if log == [] then (0, [])
    else
      var last := log[|log| - 1];
      if last.Began? then (last.motion, [])
      else
        var before := Since(log[..|log| - 1]);
        (before.0, before.1 + [last])
  }

  lemma SinceMore(log: seq<Entry>, e: Entry)
    ensures Since(log + [e]) == if e.Began? then (e.motion, []) else (Since(log).0, Since(log).1 + [e])
  {
    assert (log + [e])[..|log|] == log;
  }

  /** executeMotion has set the running flag of this motion. */
  predicate Begun(s: State) {
    s.execution in {ClearingCancel, TestingRunning, TestingCancel, TestingEnd, Reading}
  }

  /** The one event that ended the motion, with its result. */
  predicate EndedOnce(since: seq<Entry>, result: TrajectoryResult) {
    |since| == 1 && since[0].Ended? && since[0].result == result
  }

  /** One event at most takes effect on a motion, and its result stays. */
  ghost predicate OneEnd(s: State) {
    var (motion, since) := Since(s.log);
    && (s.callback != Resting ==> s.running)
    && (Begun(s) ==> motion == s.motion && if s.running then since == [] else EndedOnce(since, s.result))
    && (s.execution == TestingEnd ==> !s.running || s.cancelRequested)
    && (s.execution == Reading ==> !s.running)
  }

  lemma StepKeepsOneEnd(s: State, e: Event)
    requires OneEnd(s)
    ensures OneEnd(Step(s, e))
  {
    SinceMore(s.log, Began(s.motion));
    if s.callback.Stored? {
      SinceMore(s.log, Ended(s.callback.source, s.result));
    }
    hide Since;
  }

  lemma EndIsLogged(s: State)
    requires OneEnd(s) && Begun(s) && s.callback.Stored?
    ensures Since(s.log + [Ended(s.callback.source, s.result)]) == (s.motion, [Ended(s.callback.source, s.result)])
  {
    SinceMore(s.log, Ended(s.callback.source, s.result));
    hide Since;
    assert [] + [Ended(s.callback.source, s.result)] == [Ended(s.callback.source, s.result)];
  }

  class InstructionExecutor {
    var motion: nat
    var execution: Execution
    var callback: Callback
    var trajectoryRunning: bool
    var cancelRequested: bool
    var trajectoryResult: TrajectoryResult
    ghost var log: seq<Entry>
    var replies: seq<bool>

    ghost function Abs(): State
      reads this
    {
      State(motion, execution, callback, trajectoryRunning, cancelRequested, trajectoryResult, log, replies)
    }

    ghost predicate Valid()
      reads this
    {
      OneEnd(Abs())
    }

    constructor ()
      ensures Valid() && Abs() == NEW
    {
      motion, execution, callback, trajectoryRunning, cancelRequested := 0, Idle, Resting, false, false;
      trajectoryResult, log, replies := Unknown, [], [];
    }

    method ExecuteMotion()
      requires Valid() && execution == Idle
      modifies this
      ensures Valid() && Abs() == Step(old(Abs()), Execute)
    {
      StepKeepsOneEnd(Abs(), Execute);
      motion := motion + 1;
      execution := Starting;
    }

    method WriteStart(ok: bool)
      requires Valid() && execution == Starting
      modifies this
      ensures Valid() && Abs() == Step(old(Abs()), Start(ok))
    {
      StepKeepsOneEnd(Abs(), Start(ok));
      execution := if ok then Sending else FailingToStart;
    }

    method ReportNotStarted()
      requires Valid() && execution == FailingToStart && Abs().MutexFree()
      modifies this
      ensures Valid() && Abs() == Step(old(Abs()), FailToStart)
    {
      StepKeepsOneEnd(Abs(), FailToStart);
      trajectoryResult := Failure;
      Return(false);
    }

    method Return(success: bool)
      modifies this
      ensures Abs() == old(Abs()).Returned(success)
    {
      replies := replies + [success];
      execution := Idle;
    }

    method WritePrimitives()
      requires Valid() && execution == Sending
      modifies this
      ensures Valid() && Abs() == Step(old(Abs()), Send)
    {
      StepKeepsOneEnd(Abs(), Send);
      execution := SettingRunning;
    }

    method MarkRunning()
      requires Valid() && execution == SettingRunning
      modifies this
      ensures Valid() && Abs() == Step(old(Abs()), SetRunning)
      ensures Since(log) == (motion, [])
    {
      StepKeepsOneEnd(Abs(), SetRunning);
      trajectoryRunning := true;
      log := log + [Began(motion)];
      execution := ClearingCancel;
    }

    method ForgetCancel()
      requires Valid() && execution == ClearingCancel
      modifies this
      ensures Valid() && Abs() == Step(old(Abs()), ClearCancel)
    {
      StepKeepsOneEnd(Abs(), ClearCancel);
      cancelRequested := false;
      execution := TestingRunning;
    }

    /** The loop's condition, left to right, and its body, which touches nothing that is shared. */
    method LoopWhileRunning()
      requires Valid() && execution == TestingRunning
      modifies this
      ensures Valid() && Abs() == Step(old(Abs()), TestRunning)
    {
      StepKeepsOneEnd(Abs(), TestRunning);
      execution := if trajectoryRunning then TestingCancel else TestingEnd;
    }

    method LoopUnlessCanceled()
      requires Valid() && execution == TestingCancel
      modifies this
      ensures Valid() && Abs() == Step(old(Abs()), TestCancel)
    {
      StepKeepsOneEnd(Abs(), TestCancel);
      execution := if !cancelRequested then TestingRunning else TestingEnd;
    }

    method EndLoop()
      requires Valid() && execution == TestingEnd
      modifies this
      ensures Valid() && Abs() == Step(old(Abs()), TestEnd)
      ensures execution == Reading ==> EndedOnce(Since(log).1, trajectoryResult) && replies == old(replies)
      ensures execution == Idle ==> cancelRequested && replies == old(replies) + [false]
    {
      StepKeepsOneEnd(Abs(), TestEnd);
      if !cancelRequested {
        execution := Reading;
      } else {
        Return(false);
      }
    }

    method ReadResult()
      requires Valid() && execution == Reading && Abs().MutexFree()
      modifies this
      ensures Valid() && Abs() == Step(old(Abs()), Read)
      ensures var (m, since) := Since(log);
              && m == motion && EndedOnce(since, trajectoryResult)
              && replies == old(replies) + [since[0].result == Success]
    {
      StepKeepsOneEnd(Abs(), Read);
      Return(trajectoryResult == Success);
    }

    /** A result arrives, of the motion `reported`; a callback that finds no trajectory running does nothing. */
    method TrajDoneCallback(reported: nat, result: TrajectoryResult)
      requires Valid() && callback == Resting
      modifies this
      ensures Valid() && Abs() == Step(old(Abs()), Done(reported, result))
    {
      StepKeepsOneEnd(Abs(), Done(reported, result));
      if trajectoryRunning {
        callback := Noticed(Of(reported), result);
      }
    }

    method LockResult()
      requires Valid() && callback.Noticed?
      modifies this
      ensures Valid() && Abs() == Step(old(Abs()), Lock)
    {
      StepKeepsOneEnd(Abs(), Lock);
      callback := Locked(callback.source, callback.result);
    }

    method StoreResult()
      requires Valid() && callback.Locked?
      modifies this
      ensures Valid() && Abs() == Step(old(Abs()), Store)
    {
      StepKeepsOneEnd(Abs(), Store);
      trajectoryResult := callback.result;
      callback := Stored(callback.source);
    }

    method MarkDone()
      requires Valid() && callback.Stored?
      modifies this
      ensures Valid() && Abs() == Step(old(Abs()), ClearRunning)
      ensures old(Begun(Abs())) ==> Since(log) == (motion, [Ended(old(callback.source), trajectoryResult)])
    {
      hide Since, OneEnd, Begun;
      StepKeepsOneEnd(Abs(), ClearRunning);
      if Begun(Abs()) {
        EndIsLogged(Abs());
      }
      trajectoryRunning := false;
      log := log + [Ended(callback.source, trajectoryResult)];
      callback := Resting;
    }

    method TrajDisconnectCallback()
      requires Valid() && callback == Resting
      modifies this
      ensures Valid() && Abs() == Step(old(Abs()), Disconnect)
    {
      StepKeepsOneEnd(Abs(), Disconnect);
      if trajectoryRunning {
        callback := Locked(Connection, Failure);
      }
    }

    /** cancelMotion up to where it asks the robot. */
    method CancelMotion()
      requires Valid()
      modifies this
      ensures Valid() && Abs() == Step(old(Abs()), Cancel)
    {
      StepKeepsOneEnd(Abs(), Cancel);
      cancelRequested := true;
    }
  }

  // What a reply means

  lemma {:induction false} AlwaysOneEnd(es: seq<Event>)
    ensures OneEnd(Run(NEW, es))
  {
    if es != [] {
      AlwaysOneEnd(es[..|es| - 1]);
      StepKeepsOneEnd(Run(NEW, es[..|es| - 1]), es[|es| - 1]);
    }
  }

  /**
   * In every interleaving, when executeMotion gets to read the result, exactly one event has taken effect since it set
   * the running flag, no cancel was seen at the loop's end, and it returns true exactly if that event was a success.
   * No other step returns true.
   */
  lemma TrueIsSuccess(es: seq<Event>, e: Event)
    requires Step(Run(NEW, es), e).replies != Run(NEW, es).replies
    ensures var (s, t) := (Run(NEW, es), Step(Run(NEW, es), e));
            && |t.replies| == |s.replies| + 1 && t.replies[..|s.replies|] == s.replies
            && (t.replies[|s.replies|] ==>
                  s.execution == Reading && Since(s.log).0 == s.motion && EndedOnce(Since(s.log).1, Success))
            && (s.execution == Reading ==>
                  EndedOnce(Since(s.log).1, s.result) && t.replies[|s.replies|] == (s.result == Success))
  {
    AlwaysOneEnd(es);
    hide Since;
  }

  /** Until executeMotion reads the result, nothing that the other threads do changes it any more. */
  lemma {:induction false} ResultStays(es: seq<Event>, more: seq<Event>)
    requires Begun(Run(NEW, es)) && !Run(NEW, es).running
    requires forall k :: 0 <= k < |more| ==> more[k] in {Lock, Store, ClearRunning, Cancel} || Arrives(more[k])
    ensures var (s, t) := (Run(NEW, es), Run(Run(NEW, es), more));
            t.result == s.result && !t.running && t.log == s.log && t.callback == s.callback == Resting
  {
    AlwaysOneEnd(es);
    hide Since;
    if more != [] {
      ResultStays(es, more[..|more| - 1]);
    }
  }

  // Which events take effect

  predicate Arrives(e: Event) {
    e.Done? || e == Disconnect
  }

  /** What the log says of an event that takes effect. */
  function EndOf(e: Event): Entry
    requires Arrives(e)
  {
    match e
    case Done(motion, result) => Ended(Of(motion), result)
    case Disconnect => Ended(Connection, Failure)
  }

  /** The event that a callback is at work on, if it is. */
  function InHand(s: State): seq<Entry> {
    match s.callback
    case Resting => []
    case Noticed(source, result) => [Ended(source, result)]
    case Locked(source, result) => [Ended(source, result)]
    case Stored(source) => [Ended(source, s.result)]
  }

  /** What ended motions, in order. */
  function Ends(log: seq<Entry>): seq<Entry> {
    if log == [] then []
    else Ends(log[..|log| - 1]) + (if log[|log| - 1].Ended? then [log[|log| - 1]] else [])
  }

  lemma EndsMore(log: seq<Entry>, e: Entry)
    ensures Ends(log + [e]) == Ends(log) + if e.Ended? then [e] else []
  {
    assert (log + [e])[..|log|] == log;
  }

  /** As long as no other event arrives, the one in hand stays there until it is logged, with the result it brought. */
  lemma StepHandles(s: State, e: Event)
    requires !Arrives(e)
    ensures var t := Step(s, e);
            Ends(t.log) + InHand(t) == Ends(s.log) + InHand(s)
  {
    hide Ends;
    if e == ClearRunning && s.callback.Stored? {
      EndsMore(s.log, Ended(s.callback.source, s.result));
      assert Ends(s.log) + InHand(s) + [] == Ends(s.log) + InHand(s);
    } else if e == SetRunning && s.execution == SettingRunning {
      EndsMore(s.log, Began(s.motion));
      assert Ends(s.log) + [] == Ends(s.log);
    } else {
      assert Step(s, e).log == s.log && InHand(Step(s, e)) == InHand(s);
    }
  }

  /**
   * An event takes effect, once and with its own result, if and only if the running flag is set when it arrives: so
   * the log says when its callback has come to rest, whatever the other threads do meanwhile.
   */
  lemma {:induction false} TakesEffectExactly(s: State, e: Event, more: seq<Event>)
    requires s.callback == Resting && Arrives(e)
    requires forall k :: 0 <= k < |more| ==> !Arrives(more[k])
    ensures var t := Run(Step(s, e), more);
            && Ends(t.log) + InHand(t) == Ends(s.log) + (if s.running then [EndOf(e)] else [])
            && (t.callback == Resting ==> Ends(t.log) == Ends(s.log) + if s.running then [EndOf(e)] else [])
  {
    hide Ends;
    if more != [] {
      var front := more[..|more| - 1];
      assert forall k :: 0 <= k < |front| ==> front[k] == more[k];
      TakesEffectExactly(s, e, front);
      StepHandles(Run(Step(s, e), front), more[|more| - 1]);
      hide Step;
    }
  }

  // Whose result a motion is answered with

  /** The first event that arrives, if any does. */
  function FirstArrival(es: seq<Event>): seq<Entry> {
    if es == [] then []
    else
      var before := FirstArrival(es[..|es| - 1]);
      if before == [] && Arrives(es[|es| - 1]) then [EndOf(es[|es| - 1])] else before
  }

  /** What answers a motion that sets the flag in s: the event that is in hand by then, or else the first to arrive. */
  function Answer(s: State, es: seq<Event>): seq<Entry> {
    if s.callback != Resting then InHand(s) else FirstArrival(es)
  }

  /** The motion m and its answer, seen later: over, or in progress, with the answer in hand or logged. */
  ghost predicate Answered(t: State, m: nat, answer: seq<Entry>) {
    || t.motion > m
    || (t.motion == m && t.execution == Idle)
    || (&& t.motion == m && Begun(t)
        && (if t.running then InHand(t) == answer && Since(t.log) == (m, [])
            else t.callback == Resting && |answer| == 1 && Since(t.log) == (m, answer)))
  }

  function WithArrival(answer: seq<Entry>, e: Event): seq<Entry> {
    if answer == [] && Arrives(e) then [EndOf(e)] else answer
  }

  lemma StepKeepsAnswered(t: State, m: nat, answer: seq<Entry>, e: Event)
    requires OneEnd(t) && Answered(t, m, answer) && |answer| <= 1
    ensures Answered(Step(t, e), m, WithArrival(answer, e))
  {
    if e == ClearRunning && t.callback.Stored? && Begun(t) {
      EndIsLogged(t);
    }
    hide Since;
  }

  /** Every motion is answered with what was in hand when it set the flag, or the first event after that. */
  lemma {:induction false} AlwaysAnswered(es: seq<Event>, more: seq<Event>)
    requires Run(NEW, es).execution == SettingRunning
    ensures var s := Run(NEW, es);
            Answered(Run(Step(s, SetRunning), more), s.motion, Answer(s, more)) && |Answer(s, more)| <= 1
  {
    var s := Run(NEW, es);
    AlwaysOneEnd(es);
    SinceMore(s.log, Began(s.motion));
    hide Since;
    if more != [] {
      var (front, e) := (more[..|more| - 1], more[|more| - 1]);
      AlwaysAnswered(es, front);
      OneEndOnwards(es, SetRunning, front);
      StepKeepsAnswered(Run(Step(s, SetRunning), front), s.motion, Answer(s, front), e);
      hide OneEnd, Answered, Step;
    }
  }

  lemma {:induction false} RunsOn(s: State, es: seq<Event>, more: seq<Event>)
    ensures Run(s, es + more) == Run(Run(s, es), more)
  {
    if more == [] {
      assert es + more == es;
    } else {
      RunsOn(s, es, more[..|more| - 1]);
      assert (es + more)[..|es + more| - 1] == es + more[..|more| - 1];
    }
  }

  lemma OneEndOnwards(es: seq<Event>, e: Event, more: seq<Event>)
    ensures Run(NEW, es + [e] + more) == Run(Step(Run(NEW, es), e), more)
    ensures OneEnd(Run(Step(Run(NEW, es), e), more))
  {
    hide Step;
    RunsOn(NEW, es + [e], more);
    assert (es + [e])[..|es|] == es;
    AlwaysOneEnd(es + [e] + more);
  }

  /** The motions that the robot was told to start. */
  function Started(es: seq<Event>): seq<nat> {
    if es == [] then []
    else
      var (s, e) := (Run(NEW, es[..|es| - 1]), es[|es| - 1]);
      Started(es[..|es| - 1]) + if e == Start(true) && s.execution == Starting then [s.motion] else []
  }

  /** The motions whose results were delivered, whether or not they took effect. */
  function Delivered(es: seq<Event>): seq<nat> {
    if es == [] then []
    else
      var (s, e) := (Run(NEW, es[..|es| - 1]), es[|es| - 1]);
      Delivered(es[..|es| - 1]) + if e.Done? && s.callback == Resting then [e.motion] else []
  }

  /** The robot reports one result for each motion that it was told to start, in that order. */
  ghost predicate Orderly(es: seq<Event>) {
    Delivered(es) <= Started(es)
  }

  ghost predicate Ascending(s: seq<nat>) {
    forall i, j :: 0 <= i < j < |s| ==> s[i] < s[j]
  }

  /** Motions are numbered as they are started; the one under way is the last. */
  ghost predicate LastStarted(s: State, started: seq<nat>) {
    && Ascending(started)
    && (forall i :: 0 <= i < |started| ==> started[i] <= s.motion)
    && (s.execution in {Starting, FailingToStart} ==> forall i :: 0 <= i < |started| ==> started[i] < s.motion)
    && (Begun(s) || s.execution in {Sending, SettingRunning} ==> started != [] && started[|started| - 1] == s.motion)
  }

  lemma {:induction false} AlwaysLastStarted(es: seq<Event>)
    ensures LastStarted(Run(NEW, es), Started(es))
  {
    if es != [] {
      var (s, e) := (Run(NEW, es[..|es| - 1]), es[|es| - 1]);
      AlwaysLastStarted(es[..|es| - 1]);
      StepKeepsLastStarted(s, Started(es[..|es| - 1]), e);
    }
  }

  lemma StepKeepsLastStarted(s: State, started: seq<nat>, e: Event)
    requires LastStarted(s, started)
    ensures LastStarted(Step(s, e), started + if e == Start(true) && s.execution == Starting then [s.motion] else [])
  {
    var t := Step(s, e);
    if e == Start(true) && s.execution == Starting {
      assert t.motion == s.motion && t.execution == Sending;
    } else {
      assert started + [] == started;
      assert s.motion <= t.motion && (t.execution in {Starting, FailingToStart} && t.motion == s.motion ==>
                                        s.execution in {Starting, FailingToStart});
    }
  }

  lemma {:induction false} StartedGrows(es: seq<Event>, more: seq<Event>)
    ensures Started(es) <= Started(es + more)
  {
    hide Run;
    if more == [] {
      assert es + more == es;
    } else {
      StartedGrows(es, more[..|more| - 1]);
      assert (es + more)[..|es + more| - 1] == es + more[..|more| - 1];
    }
  }

  /** While the motion m is in progress nothing else is started. */
  lemma SameStarted(es: seq<Event>, more: seq<Event>)
    requires Run(NEW, es).execution == SettingRunning
    requires var t := Run(NEW, es + more); Begun(t) && t.motion == Run(NEW, es).motion
    ensures Started(es + more) == Started(es)
  {
    AlwaysLastStarted(es);
    AlwaysLastStarted(es + more);
    StartedGrows(es, more);
    hide Started, Run;
    var (k, all) := (|Started(es)|, Started(es + more));
    assert all[k - 1] == Started(es)[k - 1] == all[|all| - 1];
  }

  lemma DeliveredMore(es: seq<Event>, e: Event)
    ensures Delivered(es + [e]) == Delivered(es) + if e.Done? && Run(NEW, es).callback == Resting then [e.motion] else []
  {
    assert (es + [e])[..|es|] == es;
  }

  /** The first event to arrive in a motion is the next one delivered, if it is a result. */
  ghost predicate FirstIsNext(before: seq<nat>, after: seq<nat>, t: State, m: nat, first: seq<Entry>) {
    (t.motion == m && Begun(t)) ==>
      && before <= after
      && (first == [] ==> after == before && t.callback == Resting && t.running)
      && (first != [] && first[0].Ended? && first[0].source.Of? ==>
            |after| > |before| && after[|before|] == first[0].source.motion)
  }

  lemma StepKeepsFirstIsNext(before: seq<nat>, after: seq<nat>, t: State, m: nat, first: seq<Entry>, e: Event)
    requires FirstIsNext(before, after, t, m, first) && |first| <= 1
    requires t.motion > m || (t.motion == m && (Begun(t) || t.execution == Idle))
    ensures FirstIsNext(before, after + if e.Done? && t.callback == Resting then [e.motion] else [], Step(t, e), m,
                        WithArrival(first, e))
  {
    assert after + [] == after;
  }

  lemma {:induction false} FirstArrivalIsNext(es: seq<Event>, more: seq<Event>)
    requires Run(NEW, es).execution == SettingRunning && Run(NEW, es).callback == Resting
    ensures var t := Run(NEW, es + [SetRunning] + more);
            FirstIsNext(Delivered(es), Delivered(es + [SetRunning] + more), t, Run(NEW, es).motion, FirstArrival(more))
  {
    hide Delivered, FirstIsNext, Answered;
    if more == [] {
      assert es + [SetRunning] + more == es + [SetRunning];
      NoneArrivedYet(es);
    } else {
      var (front, e) := (more[..|more| - 1], more[|more| - 1]);
      var so := es + [SetRunning] + front;
      assert es + [SetRunning] + more == so + [e];
      assert (so + [e])[..|so|] == so;
      FirstArrivalIsNext(es, front);
      AlwaysAnswered(es, front);
      OneEndOnwards(es, SetRunning, front);
      DeliveredMore(so, e);
      AnsweredIsThere(Run(NEW, so), Run(NEW, es).motion, Answer(Run(NEW, es), front));
      StepKeepsFirstIsNext(Delivered(es), Delivered(so), Run(NEW, so), Run(NEW, es).motion, FirstArrival(front), e);
      hide Step;
    }
  }

  lemma AnsweredIsThere(t: State, m: nat, answer: seq<Entry>)
    requires Answered(t, m, answer)
    ensures t.motion > m || (t.motion == m && (Begun(t) || t.execution == Idle))
  {
  }

  lemma NoneArrivedYet(es: seq<Event>)
    requires Run(NEW, es).execution == SettingRunning && Run(NEW, es).callback == Resting
    ensures FirstIsNext(Delivered(es), Delivered(es + [SetRunning]), Run(NEW, es + [SetRunning]), Run(NEW, es).motion, [])
  {
    DeliveredMore(es, SetRunning);
    assert (es + [SetRunning])[..|es|] == es;
    assert Delivered(es) + [] == Delivered(es);
  }

  /**
   * When a motion that is about to set the running flag can only be answered with its own result: the result in hand
   * is its own, or none is in hand and those of all motions started before it, and only those, were delivered.
   */
  ghost predicate Settled(es: seq<Event>) {
    var s := Run(NEW, es);
    if s.callback != Resting then InHand(s)[0].source == Of(s.motion)
    else |Delivered(es)| == |Started(es)| - 1
  }

  /** The first result to arrive is the motion's own exactly if all earlier ones were delivered before. */
  lemma FirstIsOwnExactly(es: seq<Event>, more: seq<Event>)
    requires Run(NEW, es).execution == SettingRunning && Run(NEW, es).callback == Resting
    requires Orderly(es + [SetRunning] + more) && FirstArrival(more) != []
    requires var t := Run(NEW, es + [SetRunning] + more); t.motion == Run(NEW, es).motion && Begun(t)
    ensures var e := FirstArrival(more)[0];
            e.Ended? && e.source.Of? ==>
              (e.source.motion == Run(NEW, es).motion <==> |Delivered(es)| == |Started(es)| - 1)
  {
    FirstArrivalIsNext(es, more);
    assert es + [SetRunning] + more == es + ([SetRunning] + more);
    SameStarted(es, [SetRunning] + more);
    AlwaysLastStarted(es);
    hide Run, Started, Delivered, FirstArrival;
  }

  /**
   * The result that a motion is answered with is its own if and only if things were settled when it set the running
   * flag, where the robot reports in order, and unless what ended it was a lost connection.
   */
  lemma OwnResultExactly(es: seq<Event>, more: seq<Event>)
    requires Run(NEW, es).execution == SettingRunning && Orderly(es + [SetRunning] + more)
    requires var t := Run(NEW, es + [SetRunning] + more); t.motion == Run(NEW, es).motion && Begun(t) && !t.running
    ensures var t := Run(NEW, es + [SetRunning] + more);
            var (m, since) := Since(t.log);
            && m == t.motion && EndedOnce(since, t.result)
            && (since[0].source != Connection ==> (since[0].source == Of(m) <==> Settled(es)))
  {
    hide Run, Step, Since, Delivered, Started, FirstArrival, Orderly;
    AlwaysAnswered(es, more);
    OneEndOnwards(es, SetRunning, more);
    if Run(NEW, es).callback == Resting && FirstArrival(more) != [] {
      FirstIsOwnExactly(es, more);
    }
  }

  // When the loop ends

  predicate Looping(s: State) {
    s.execution in {TestingRunning, TestingCancel, TestingEnd, Reading}
  }

  /** Nothing holds the loop any more, or soon will: ended, about to be ended by an event in hand, or cancelled. */
  predicate Released(s: State) {
    !s.running || s.callback != Resting || s.cancelRequested
  }

  /** A turn of the callback that may be in progress, and one of the loop and what follows it. */
  function Handled(s: State): State {
    Step(Step(Step(s, Lock), Store), ClearRunning)
  }

  function Turned(s: State): State {
    Step(Step(Step(Step(Step(s, TestCancel), TestRunning), TestCancel), TestEnd), Read)
  }

  /** executeMotion returns within a turn if its loop is released; and never otherwise, without an event or cancel. */
  lemma EndsExactly(es: seq<Event>, more: seq<Event>)
    requires Looping(Run(NEW, es))
    requires forall k :: 0 <= k < |more| ==> !Arrives(more[k]) && more[k] != Cancel
    ensures Released(Run(NEW, es)) ==> Turned(Handled(Run(NEW, es))).execution == Idle
    ensures !Released(Run(NEW, es)) ==>
            var t := Run(Run(NEW, es), more);
            Looping(t) && !Released(t) && t.replies == Run(NEW, es).replies
  {
    AlwaysOneEnd(es);
    var s := Run(NEW, es);
    hide Since, Run, Handled, Turned;
    if Released(s) {
      HandledRests(s);
      TurnedEnds(Handled(s));
    } else {
      WaitsOn(s, more);
    }
  }

  lemma HandledRests(s: State)
    requires s.callback != Resting ==> s.running
    ensures var t := Handled(s);
            && t.callback == Resting && t.execution == s.execution && t.cancelRequested == s.cancelRequested
            && (t.running <==> s.running && s.callback == Resting)
  {
  }

  lemma TurnedEnds(s: State)
    requires Looping(s) && s.callback == Resting && (!s.running || s.cancelRequested)
    requires s.execution == Reading ==> !s.running
    ensures Turned(s).execution == Idle
  {
    var t := Step(Step(Step(s, TestCancel), TestRunning), TestCancel);
    assert t.execution in {TestingEnd, Reading} && t.callback == Resting;
  }

  lemma {:induction false} WaitsOn(s: State, es: seq<Event>)
    requires s.execution in {TestingRunning, TestingCancel} && !Released(s)
    requires forall k :: 0 <= k < |es| ==> !Arrives(es[k]) && es[k] != Cancel
    ensures var t := Run(s, es);
            t.execution in {TestingRunning, TestingCancel} && !Released(t) && t.replies == s.replies
  {
    if es != [] {
      WaitsOn(s, es[..|es| - 1]);
    }
  }

  /** Some event arrives, or someone cancels. */
  predicate Disturbed(es: seq<Event>) {
    exists k :: 0 <= k < |es| && (Arrives(es[k]) || es[k] == Cancel)
  }

  ghost predicate ReleasedBy(t: State, m: nat, early: bool, disturbed: bool) {
    t.motion > m || (t.motion == m && (t.execution == Idle || (Looping(t) && (Released(t) <==> early || disturbed))))
  }

  lemma StepKeepsReleasedBy(t: State, m: nat, early: bool, disturbed: bool, e: Event)
    requires OneEnd(t) && ReleasedBy(t, m, early, disturbed)
    ensures ReleasedBy(Step(t, e), m, early, disturbed || Arrives(e) || e == Cancel)
  {
    hide Since;
  }

  lemma {:induction false} AlwaysReleasedBy(es: seq<Event>, more: seq<Event>)
    requires Run(NEW, es).execution == ClearingCancel
    ensures var s := Run(NEW, es);
            ReleasedBy(Run(Step(s, ClearCancel), more), s.motion, !s.running || s.callback != Resting, Disturbed(more))
  {
    var s := Run(NEW, es);
    var cleared := Step(s, ClearCancel);
    assert ReleasedBy(cleared, s.motion, !s.running || s.callback != Resting, false);
    hide Step, ReleasedBy, OneEnd, Disturbed;
    if more == [] {
      assert Run(cleared, more) == cleared;
      NotDisturbed();
    } else {
      var (front, e) := (more[..|more| - 1], more[|more| - 1]);
      AlwaysReleasedBy(es, front);
      OneEndOnwards(es, ClearCancel, front);
      StepKeepsReleasedBy(Run(cleared, front), s.motion, !s.running || s.callback != Resting, Disturbed(front), e);
      DisturbedMore(more);
    }
  }

  lemma NotDisturbed()
    ensures !Disturbed([])
  {
  }

  lemma DisturbedMore(es: seq<Event>)
    requires es != []
    ensures var (front, e) := (es[..|es| - 1], es[|es| - 1]);
            Disturbed(es) <==> Disturbed(front) || Arrives(e) || e == Cancel
  {
    hide Arrives;
    var front := es[..|es| - 1];
    assert forall k :: 0 <= k < |front| ==> front[k] == es[k];
  }

  /**
   * What releases the loop of a motion: an event that was noticed before the cancel flag was cleared, an event since
   * then, or a cancel since then. What came before the running flag was set does not.
   */
  lemma ReleasedExactly(es: seq<Event>, more: seq<Event>)
    requires Run(NEW, es).execution == ClearingCancel
    requires var t := Run(NEW, es + [ClearCancel] + more); t.motion == Run(NEW, es).motion && Looping(t)
    ensures var s := Run(NEW, es);
            Released(Run(NEW, es + [ClearCancel] + more)) <==>
            !s.running || s.callback != Resting || Disturbed(more)
  {
    AlwaysReleasedBy(es, more);
    OneEndOnwards(es, ClearCancel, more);
    hide Run, Step, Disturbed;
  }

  // Runs that show it

  lemma Further(es: seq<Event>, e: Event) returns (more: seq<Event>)
    ensures more == es + [e] && Run(NEW, more) == Step(Run(NEW, es), e)
  {
    more := es + [e];
    assert more[..|es|] == es;
  }

  /** A motion gets under way. */
  lemma GetsUnderWay(before: seq<Event>) returns (es: seq<Event>)
    requires Run(NEW, before).execution == Idle
    ensures var s := Run(NEW, before);
            Run(NEW, es) == s.(motion := s.motion + 1, running := true, cancelRequested := false,
                               log := s.log + [Began(s.motion + 1)], execution := TestingRunning)
  {
    es := Further(before, Execute);
    es := Further(es, Start(true));
    es := Further(es, Send);
    es := Further(es, SetRunning);
    es := Further(es, ClearCancel);
  }

  lemma IsCanceled(before: seq<Event>) returns (es: seq<Event>)
    requires Run(NEW, before).execution == TestingRunning && Run(NEW, before).running
    ensures var s := Run(NEW, before);
            Run(NEW, es) == s.(cancelRequested := true, execution := Idle, replies := s.replies + [false])
  {
    es := Further(before, Cancel);
    es := Further(es, TestRunning);
    es := Further(es, TestCancel);
    es := Further(es, TestEnd);
  }

  /** The success of some motion is delivered and taken. */
  lemma Succeeds(before: seq<Event>, of: nat) returns (es: seq<Event>)
    requires var s := Run(NEW, before);
             s.execution == TestingRunning && s.running && !s.cancelRequested && s.callback == Resting
    ensures var s := Run(NEW, before);
            Run(NEW, es) == s.(result := Success, running := false, log := s.log + [Ended(Of(of), Success)],
                               execution := Idle, replies := s.replies + [true])
  {
    es := Further(before, Done(of, Success));
    es := Further(es, Lock);
    es := Further(es, Store);
    es := Further(es, ClearRunning);
    es := Further(es, TestRunning);
    es := Further(es, TestEnd);
    es := Further(es, Read);
  }

  /**
   * The flag stays set when a motion is cancelled. If that motion's success is delivered only after the next motion
   * is under way, it is taken for the next one's: the first motion returns false, the second true. And the next
   * motion after that, although it finds the flag cleared, is answered with the second one's success.
   */
  lemma EarlierSuccessIsTaken() returns (es: seq<Event>)
    ensures var s := Run(NEW, es);
            && s.replies == [false, true, true]
            && s.log == [Began(1), Began(2), Ended(Of(1), Success), Began(3), Ended(Of(2), Success)]
  {
    assert Run(NEW, []) == NEW;
    hide Run, Step;
    es := GetsUnderWay([]);
    assert Run(NEW, es) == State(1, TestingRunning, Resting, true, false, Unknown, [Began(1)], []);
    es := IsCanceled(es);
    assert Run(NEW, es) == State(1, Idle, Resting, true, true, Unknown, [Began(1)], [false]);
    es := GetsUnderWay(es);
    assert Run(NEW, es) == State(2, TestingRunning, Resting, true, false, Unknown, [Began(1), Began(2)], [false]);
    es := Succeeds(es, 1);
    es := GetsUnderWay(es);
    es := Succeeds(es, 2);
  }

  /** A result that arrives before the flag is set is dropped; the loop is then entered, and is not released. */
  lemma EarlyResultIsDropped(result: TrajectoryResult) returns (es: seq<Event>)
    ensures es == [Execute, Start(true), Send, Done(1, result), SetRunning, ClearCancel]
    ensures Looping(Run(NEW, es)) && !Released(Run(NEW, es)) && Run(NEW, es).replies == []
  {
    es := Further([], Execute);
    es := Further(es, Start(true));
    es := Further(es, Send);
    es := Further(es, Done(1, result));
    es := Further(es, SetRunning);
    es := Further(es, ClearCancel);
  }
}
