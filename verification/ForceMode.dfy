/**
 * force_mode_controller.cpp: a service thread and the control loop share two flags, a value and a box of parameters.
 * The control loop runs update and the hardware's write one after the other; between any two accesses to what is
 * shared the other thread may run. Requests come one at a time.
 */
module ForceMode {
  import opened Wrappers

  /** The values of the asynchronous result: 0.0, 1.0, ASYNC_WAITING, and the NaN it starts with. */
  datatype Async = NotANumber | Waiting | Zero | One

  datatype Request = SetForceMode(parameters: nat) | DisableForceMode

  /** What the hardware finds in the parameter commands: nothing new, one request's parameters, or parts of several. */
  datatype Pending = Nothing | Whole(parameters: nat) | Mixed

  /** The service thread: what it does next. */
  datatype Service = Idle | Boxing | Activating | Raising | LoadingAsync | LoadingChange | Deciding

  /** The control loop: where update stands; AtRest is also where the hardware may act. */
  datatype Update =
    | AtRest | CheckingChange | CheckingActive | GettingParameters | Writing(sets: bool) | MarkingAsync(ok: bool)
    | Finishing(ok: bool)

  datatype Entry =
    | Marked(number: nat)
    | Started(parameters: Pending, ok: bool)
    | Stopped(ok: bool)

  datatype Reply = Reply(number: nat, request: Request, success: bool)

  datatype State = State(
    number: nat,
    request: Request,
    service: Service,
    box: nat,
    active: bool,
    changeRequested: bool,
    asyncState: Async,
    update: Update,
    taken: nat,
    pending: Pending,
    disable: bool,
    command: Async,
    log: seq<Entry>,
    replies: seq<Reply>
  ) {
    function Answered(success: bool): State {
      this.(service := Idle, replies := replies + [Reply(number, request, success)])
    }
  }

  /** How writing the command interfaces goes: all succeed, or some fail and leave behind whatever they leave. */
  datatype Writes = AllWritten | SomeFailed(pending: Pending, disable: bool, waiting: bool)

  datatype Event =
    | Ask(request: Request)
    | TrySet(ok: bool)
    | Activate
    | Raise
    | LoadAsync
    | LoadChange
    | Decide
    | BeginUpdate(available: bool)
    | CheckChange
    | CheckActive
    | TryGet(ok: bool)
    | WriteCommands(writes: Writes)
    | MarkAsync
    | Finish
    | HardwareWrite(ok: bool)

  function ResultOf(ok: bool): Async {
    if ok then One else Zero
  }

  /** The hardware: a start that is complete or in part goes first; a stop only while the result is awaited. */
  function Act(s: State, ok: bool): State {
    if s.pending != Nothing then s.(pending := Nothing, command := ResultOf(ok), log := s.log + [Started(s.pending, ok)])
    else if s.disable && s.command == Waiting then s.(disable := false, command := ResultOf(ok), log := s.log + [Stopped(ok)])
    else s
  }

  /** Update's writes, for a request to set force mode or to disable it. */
  function Write(s: State, sets: bool, writes: Writes): State {
    match writes
    case AllWritten =>
      var written := s.(update := MarkingAsync(true), command := Waiting, log := s.log + [Marked(s.number)]);
      if sets then written.(pending := Whole(s.taken)) else written.(disable := true)
    case SomeFailed(pending, disable, waiting) =>
      s.(update := MarkingAsync(false), pending := pending, disable := disable,
         command := if waiting then Waiting else s.command)
  }

  /** A step that is not possible in a state leaves it as it is. */
  function Step(s: State, e: Event): State {
    match e
    case Ask(request) =>
      if s.service != Idle then s
      else s.(number := s.number + 1, request := request, service := if request.SetForceMode? then Boxing else Activating)
    case TrySet(ok) =>
      if s.service != Boxing || !s.request.SetForceMode? then s
      else if ok then s.(box := s.request.parameters, service := Activating)
      else s.Answered(false)
    case Activate =>
      if s.service == Activating then s.(active := s.request.SetForceMode?, service := Raising) else s
    case Raise => if s.service == Raising then s.(changeRequested := true, service := LoadingAsync) else s
    case LoadAsync =>
      if s.service == LoadingAsync && s.asyncState != Waiting then s.(service := LoadingChange) else s
    case LoadChange =>
      if s.service != LoadingChange then s
      else s.(service := if s.changeRequested then LoadingAsync else Deciding)
    case Decide => if s.service == Deciding then s.Answered(s.asyncState == One) else s
    case BeginUpdate(available) =>
      if s.update != AtRest then s
      else s.(update := CheckingChange, asyncState := if available then s.command else Waiting)
    case CheckChange =>
      if s.update == CheckingChange then s.(update := if s.changeRequested then CheckingActive else AtRest) else s
    case CheckActive =>
      if s.update == CheckingActive then s.(update := if s.active then GettingParameters else Writing(false)) else s
    case TryGet(ok) =>
      if s.update != GettingParameters then s
      else if ok then s.(taken := s.box, update := Writing(true))
      else s.(update := AtRest)
    case WriteCommands(writes) => if s.update.Writing? then Write(s, s.update.sets, writes) else s
    case MarkAsync =>
      if s.update.MarkingAsync? then s.(asyncState := Waiting, update := Finishing(s.update.ok)) else s
    case Finish =>
      if !s.update.Finishing? then s
      else s.(update := AtRest, changeRequested := s.changeRequested && !s.update.ok)
    case HardwareWrite(ok) => if s.update == AtRest then Act(s, ok) else s
  }

  /** Just activated; the hardware may hold anything that earlier requests left there. */
  ghost predicate Activated(s: State) {
    s.service == Idle && s.update == AtRest && !s.changeRequested && !s.active && s.asyncState == NotANumber
    && s.log == [] && s.replies == []
  }

  // What every step keeps

  predicate Waits(s: State) {
    s.service == LoadingAsync || s.service == LoadingChange
  }

  /** Update has seen the request that the service waits for, and no other. */
  ghost predicate InStep(s: State) {
    && (s.changeRequested ==> Waits(s))
    && (Waits(s) || s.service == Deciding ==> s.active == s.request.SetForceMode?)
    && (s.service == Raising ==> s.active == s.request.SetForceMode?)
    && (s.request.SetForceMode? && s.service != Idle && s.service != Boxing ==> s.box == s.request.parameters)
    && (s.service == Boxing ==> s.request.SetForceMode?)
    && (s.update != AtRest && s.update != CheckingChange ==> s.changeRequested)
    && (s.update == GettingParameters ==> s.request.SetForceMode?)
    && (s.update.Writing? ==> s.update.sets == s.request.SetForceMode? && (s.update.sets ==> s.taken == s.request.parameters))
  }

  /** The entries since the last time that update wrote a whole request, if it ever did. */
  function SinceMark(log: seq<Entry>): (Option<nat>, seq<Entry>) {
    if log == [] then (None, [])
    else
      var last := log[|log| - 1];
      if last.Marked? then (Some(last.number), [])
      else
        var before := SinceMark(log[..|log| - 1]);
        (before.0, before.1 + [last])
  }

  lemma SinceMarkMore(log: seq<Entry>, e: Entry)
    ensures SinceMark(log + [e]) == if e.Marked? then (Some(e.number), []) else (SinceMark(log).0, SinceMark(log).1 + [e])
  {
    assert (log + [e])[..|log|] == log;
  }

  /** The request was written and nothing has happened to it yet. */
  ghost predicate Untouched(s: State) {
    && SinceMark(s.log) == (Some(s.number), []) && s.command == Waiting
    && (if s.request.SetForceMode? then s.pending == Whole(s.request.parameters) else s.disable)
  }

  /** The request was written; the hardware has acted on it, or (for a stop) on what was left from before. */
  ghost predicate ActedOn(s: State) {
    var (number, since) := SinceMark(s.log);
    && number == Some(s.number) && |since| == 1 && s.pending == Nothing
    && match since[0]
       case Started(parameters, ok) =>
         s.command == ResultOf(ok) && (s.request.SetForceMode? ==> parameters == Whole(s.request.parameters))
       case Stopped(ok) => s.command == ResultOf(ok) && s.request == DisableForceMode
       case Marked(_) => false
  }

  ghost predicate Served(s: State) {
    && (Untouched(s) || ActedOn(s))
    && (s.asyncState == One ==> ActedOn(s) && s.command == One)
  }

  /** A request that is no longer raised was written, and an earlier result can no longer be seen. */
  ghost predicate Fresh(s: State) {
    && (!s.changeRequested && (Waits(s) || s.service == Deciding) ==> Served(s))
    && (s.update == MarkingAsync(true) ==> Untouched(s))
    && (s.update == Finishing(true) ==> Untouched(s) && s.asyncState == Waiting)
  }

  lemma StepKeepsInStep(s: State, e: Event)
    requires InStep(s)
    ensures InStep(Step(s, e))
  {
  }

  lemma ActKeepsServed(s: State, ok: bool)
    requires Served(s)
    ensures Served(Act(s, ok))
  {
    SinceMarkMore(s.log, Started(s.pending, ok));
    SinceMarkMore(s.log, Stopped(ok));
    hide SinceMark;
  }

  lemma StepKeepsFresh(s: State, e: Event)
    requires InStep(s) && Fresh(s)
    ensures Fresh(Step(s, e))
  {
    SinceMarkMore(s.log, Marked(s.number));
    hide SinceMark;
    match e
    case HardwareWrite(ok) =>
      if !s.changeRequested && (Waits(s) || s.service == Deciding) {
        ActKeepsServed(s, ok);
      }
    case _ =>
  }

  lemma ActivatedIsFresh(s: State)
    requires Activated(s)
    ensures InStep(s) && Fresh(s)
  {
  }

  lemma StepKeepsBoth(s: State, e: Event)
    requires InStep(s) && Fresh(s)
    ensures InStep(Step(s, e)) && Fresh(Step(s, e))
  {
    StepKeepsInStep(s, e);
    StepKeepsFresh(s, e);
  }

  // What single steps mean for the request

  lemma MarkIsUntouched(s: State, writes: Writes)
    requires InStep(s) && Fresh(s) && s.update.Writing?
    ensures writes.AllWritten? ==> Untouched(Step(s, WriteCommands(writes)))
  {
    StepKeepsFresh(s, WriteCommands(writes));
  }

  lemma FinishIsUntouched(s: State)
    requires InStep(s) && Fresh(s) && s.update.Finishing?
    ensures var t := Step(s, Finish); !t.changeRequested ==> Untouched(t) && t.asyncState == Waiting
  {
    hide SinceMark;
  }

  lemma DecideIsFresh(s: State)
    requires InStep(s) && Fresh(s) && s.service == Deciding
    ensures SinceMark(s.log).0 == Some(s.number)
    ensures s.asyncState == One && s.request.SetForceMode? ==>
              SinceMark(s.log).1 == [Started(Whole(s.request.parameters), true)]
  {
    hide SinceMark;
  }

  lemma HardwareActs(s: State, ok: bool)
    requires s.update == AtRest
    ensures var t := Step(s, HardwareWrite(ok)); Untouched(s) ==> ActedOn(t) && t.command == ResultOf(ok)
  {
    SinceMarkMore(s.log, Started(s.pending, ok));
    SinceMarkMore(s.log, Stopped(ok));
    hide SinceMark;
  }

  /** The controller, with the command interfaces that it shares with the hardware. */
  class ForceModeController {
    var number: nat
    var request: Request
    var service: Service
    var forceModeParamsBuffer: nat
    var forceModeActive: bool
    var changeRequested: bool
    var asyncState: Async
    var updating: Update
    var forceModeParameters: nat
    var pendingCommands: Pending
    var disableCommand: bool
    var asyncCommand: Async
    ghost var log: seq<Entry>
    var replies: seq<Reply>

    ghost function Abs(): State
      reads this
    {
      State(number, request, service, forceModeParamsBuffer, forceModeActive, changeRequested, asyncState, updating,
            forceModeParameters, pendingCommands, disableCommand, asyncCommand, log, replies)
    }

    ghost predicate Valid()
      reads this
    {
      InStep(Abs()) && Fresh(Abs())
    }

    /** on_activate, with what earlier requests left in the command interfaces. */
    constructor (pending: Pending, disable: bool, command: Async)
      ensures Valid() && Activated(Abs()) && pendingCommands == pending && disableCommand == disable && asyncCommand == command
    {
      number, request, service, forceModeParamsBuffer := 0, DisableForceMode, Idle, 0;
      forceModeActive, changeRequested, asyncState, updating := false, false, NotANumber, AtRest;
      forceModeParameters, pendingCommands, disableCommand, asyncCommand := 0, pending, disable, command;
      log, replies := [], [];
    }

    /** A service call, after its arguments were checked. */
    method Receive(request: Request)
      requires Valid() && service == Idle
      modifies this
      ensures Valid() && Abs() == Step(old(Abs()), Ask(request))
    {
      hide InStep, Fresh;
      StepKeepsBoth(Abs(), Ask(request));
      this.number, this.request := number + 1, request;
      service := if request.SetForceMode? then Boxing else Activating;
    }

    method SetBox(ok: bool)
      requires Valid() && service == Boxing && request.SetForceMode?
      modifies this
      ensures Valid() && Abs() == Step(old(Abs()), TrySet(ok))
    {
      hide InStep, Fresh;
      StepKeepsBoth(Abs(), TrySet(ok));
      if ok {
        forceModeParamsBuffer := request.parameters;
        service := Activating;
      } else {
        Respond(false);
      }
    }

    method SetActive()
      requires Valid() && service == Activating
      modifies this
      ensures Valid() && Abs() == Step(old(Abs()), Activate)
    {
      hide InStep, Fresh;
      StepKeepsBoth(Abs(), Activate);
      forceModeActive := request.SetForceMode?;
      service := Raising;
    }

    method RequestChange()
      requires Valid() && service == Raising
      modifies this
      ensures Valid() && Abs() == Step(old(Abs()), Raise)
    {
      hide InStep, Fresh;
      StepKeepsBoth(Abs(), Raise);
      changeRequested := true;
      service := LoadingAsync;
    }

    /** The loop's condition, left to right; either part true goes round the loop again. */
    method TestAsyncState()
      requires Valid() && service == LoadingAsync
      modifies this
      ensures Valid() && Abs() == Step(old(Abs()), LoadAsync)
    {
      hide InStep, Fresh;
      StepKeepsBoth(Abs(), LoadAsync);
      if asyncState != Waiting {
        service := LoadingChange;
      }
    }

    method TestChangeRequested()
      requires Valid() && service == LoadingChange
      modifies this
      ensures Valid() && Abs() == Step(old(Abs()), LoadChange)
    {
      hide InStep, Fresh;
      StepKeepsBoth(Abs(), LoadChange);
      service := if changeRequested then LoadingAsync else Deciding;
    }

    method Conclude()
      requires Valid() && service == Deciding
      modifies this
      ensures Valid() && Abs() == Step(old(Abs()), Decide)
      ensures |replies| == |old(replies)| + 1 && SinceMark(log).0 == Some(number)
      ensures replies[|old(replies)|].success && request.SetForceMode? ==>
                SinceMark(log).1 == [Started(Whole(request.parameters), true)]
    {
      hide InStep, Fresh, Untouched, ActedOn, SinceMark;
      StepKeepsBoth(Abs(), Decide);
      DecideIsFresh(Abs());
      Respond(asyncState == One);
    }

    method Respond(success: bool)
      modifies this
      ensures Abs() == old(Abs()).Answered(success)
    {
      replies := replies + [Reply(number, request, success)];
      service := Idle;
    }

    method StartUpdate(available: bool)
      requires Valid() && updating == AtRest
      modifies this
      ensures Valid() && Abs() == Step(old(Abs()), BeginUpdate(available))
    {
      hide InStep, Fresh;
      StepKeepsBoth(Abs(), BeginUpdate(available));
      asyncState := if available then asyncCommand else Waiting;
      updating := CheckingChange;
    }

    method TestChange()
      requires Valid() && updating == CheckingChange
      modifies this
      ensures Valid() && Abs() == Step(old(Abs()), CheckChange)
    {
      hide InStep, Fresh;
      StepKeepsBoth(Abs(), CheckChange);
      updating := if changeRequested then CheckingActive else AtRest;
    }

    method TestActive()
      requires Valid() && updating == CheckingActive
      modifies this
      ensures Valid() && Abs() == Step(old(Abs()), CheckActive)
    {
      hide InStep, Fresh;
      StepKeepsBoth(Abs(), CheckActive);
      updating := if forceModeActive then GettingParameters else Writing(false);
    }

    method GetBox(ok: bool)
      requires Valid() && updating == GettingParameters
      modifies this
      ensures Valid() && Abs() == Step(old(Abs()), TryGet(ok))
    {
      hide InStep, Fresh;
      StepKeepsBoth(Abs(), TryGet(ok));
      if ok {
        forceModeParameters := forceModeParamsBuffer;
        updating := Writing(true);
      } else {
        updating := AtRest;
      }
    }

    method WriteInterfaces(writes: Writes)
      requires Valid() && updating.Writing?
      modifies this
      ensures Valid() && Abs() == Step(old(Abs()), WriteCommands(writes))
      ensures writes.AllWritten? ==> Untouched(Abs())
    {
      hide InStep, Fresh, Untouched, ActedOn, SinceMark;
      StepKeepsBoth(Abs(), WriteCommands(writes));
      MarkIsUntouched(Abs(), writes);
      match writes
      case AllWritten =>
        if updating.sets {
          pendingCommands := Whole(forceModeParameters);
        } else {
          disableCommand := true;
        }
        asyncCommand := Waiting;
        log := log + [Marked(number)];
        updating := MarkingAsync(true);
      case SomeFailed(pending, disable, waiting) =>
        pendingCommands, disableCommand := pending, disable;
        if waiting {
          asyncCommand := Waiting;
        }
        updating := MarkingAsync(false);
    }

    method MarkWaiting()
      requires Valid() && updating.MarkingAsync?
      modifies this
      ensures Valid() && Abs() == Step(old(Abs()), MarkAsync)
    {
      hide InStep, Fresh;
      StepKeepsBoth(Abs(), MarkAsync);
      asyncState := Waiting;
      updating := Finishing(updating.ok);
    }

    method EndUpdate()
      requires Valid() && updating.Finishing?
      modifies this
      ensures Valid() && Abs() == Step(old(Abs()), Finish)
      ensures !changeRequested ==> Untouched(Abs()) && asyncState == Waiting
    {
      hide InStep, Fresh, Untouched, ActedOn, SinceMark;
      StepKeepsBoth(Abs(), Finish);
      FinishIsUntouched(Abs());
      if updating.ok {
        changeRequested := false;
      }
      updating := AtRest;
    }

    /** The hardware interface's write. */
    method Hardware(ok: bool)
      requires Valid() && updating == AtRest
      modifies this
      ensures Valid() && Abs() == Step(old(Abs()), HardwareWrite(ok))
      ensures old(Untouched(Abs())) ==> ActedOn(Abs()) && asyncCommand == ResultOf(ok)
    {
      hide InStep, Fresh, Untouched, ActedOn, SinceMark;
      StepKeepsBoth(Abs(), HardwareWrite(ok));
      HardwareActs(Abs(), ok);
      if pendingCommands != Nothing {
        log := log + [Started(pendingCommands, ok)];
        pendingCommands := Nothing;
        asyncCommand := ResultOf(ok);
      } else if disableCommand && asyncCommand == Waiting {
        log := log + [Stopped(ok)];
        disableCommand := false;
        asyncCommand := ResultOf(ok);
      }
    }
  }

  function Run(s: State, es: seq<Event>): State {
    if es == [] then s else Step(Run(s, es[..|es| - 1]), es[|es| - 1])
  }

  // What success means

  lemma {:induction false} AlwaysFresh(s: State, es: seq<Event>)
    requires Activated(s)
    ensures InStep(Run(s, es)) && Fresh(Run(s, es))
  {
    hide InStep, Fresh, Step;
    if es == [] {
      ActivatedIsFresh(s);
    } else {
      AlwaysFresh(s, es[..|es| - 1]);
      StepKeepsInStep(Run(s, es[..|es| - 1]), es[|es| - 1]);
      StepKeepsFresh(Run(s, es[..|es| - 1]), es[|es| - 1]);
    }
  }

  /**
   * In every interleaving, setForceMode reports success only if update wrote all of this request's parameters, marked
   * the result as awaited, and what the hardware did first after that was to start force mode with exactly these
   * parameters, with success. disableForceMode reports success only if the first thing after its mark succeeded.
   */
  lemma SuccessIsFresh(s: State, es: seq<Event>)
    requires Activated(s) && Run(s, es).service == Deciding
    ensures var t := Run(s, es);
            var (number, since) := SinceMark(t.log);
            && Step(t, Decide).replies == t.replies + [Reply(t.number, t.request, t.asyncState == One)]
            && number == Some(t.number)
            && (t.asyncState == One ==>
                  if t.request.SetForceMode? then since == [Started(Whole(t.request.parameters), true)]
                  else since == [Stopped(true)] || exists left :: since == [Started(left, true)])
  {
    AlwaysFresh(s, es);
  }

  // When the reply is the hardware's result

  /** The controller's copy of the result was taken from the hardware after it acted on what was marked last. */
  ghost predicate Fetched(s: State, es: seq<Event>) {
    if es == [] then false
    else FetchedAfter(Run(s, es[..|es| - 1]), es[|es| - 1], Fetched(s, es[..|es| - 1]))
  }

  ghost predicate FetchedAfter(t: State, e: Event, before: bool) {
    if e.BeginUpdate? && t.update == AtRest then e.available && SinceMark(t.log).1 != []
    else if e == MarkAsync && t.update.MarkingAsync? then false
    else before
  }

  /** What the hardware still had to start when update marked the last request. */
  function LeftAtMark(s: State, es: seq<Event>): Pending {
    if es == [] then Nothing
    else LeftAtMarkAfter(Run(s, es[..|es| - 1]), es[|es| - 1], LeftAtMark(s, es[..|es| - 1]))
  }

  function LeftAtMarkAfter(t: State, e: Event, before: Pending): Pending {
    if e == WriteCommands(AllWritten) && t.update.Writing? then t.pending else before
  }

  /** The request was taken down and its result is awaited. */
  predicate Awaiting(s: State) {
    !s.changeRequested && (Waits(s) || s.service == Deciding)
  }

  ghost predicate FetchedMeans(t: State, fetched: bool) {
    && (Awaiting(t) ==> if fetched then ActedOn(t) && t.asyncState == t.command else t.asyncState == Waiting)
    && (t.update == Finishing(true) ==> !fetched)
  }

  lemma StepKeepsFetchedMeans(t: State, e: Event, fetched: bool)
    requires InStep(t) && Fresh(t) && FetchedMeans(t, fetched)
    ensures FetchedMeans(Step(t, e), FetchedAfter(t, e, fetched))
  {
    if e.HardwareWrite? && ActedOn(t) {
      assert Act(t, e.ok) == t;
    }
    hide SinceMark;
  }

  /** What a request to stop finds the hardware doing first. */
  ghost predicate StopMeans(t: State, left: Pending) {
    t.request == DisableForceMode && (Awaiting(t) || t.update in {MarkingAsync(true), Finishing(true)}) ==>
      var since := SinceMark(t.log).1;
      if since == [] then t.pending == left
      else since[0] == if left != Nothing then Started(left, since[0].Started? && since[0].ok)
                       else Stopped(since[0].Stopped? && since[0].ok)
  }

  lemma StepKeepsStopMeans(t: State, e: Event, left: Pending)
    requires InStep(t) && Fresh(t) && StopMeans(t, left)
    ensures StopMeans(Step(t, e), LeftAtMarkAfter(t, e, left))
  {
    hide SinceMark;
    match e
    case HardwareWrite(ok) => ActKeepsStopMeans(t, ok, left);
    case WriteCommands(writes) => MarkBringsStopMeans(t, writes, left);
    case _ => hide Fresh;
  }

  lemma ActKeepsStopMeans(t: State, ok: bool, left: Pending)
    requires StopMeans(t, left) && (Awaiting(t) ==> Served(t))
    ensures StopMeans(Step(t, HardwareWrite(ok)), left)
  {
    SinceMarkMore(t.log, Started(t.pending, ok));
    SinceMarkMore(t.log, Stopped(ok));
    hide SinceMark;
  }

  lemma MarkBringsStopMeans(t: State, writes: Writes, left: Pending)
    requires InStep(t) && StopMeans(t, left)
    ensures var e := WriteCommands(writes); StopMeans(Step(t, e), LeftAtMarkAfter(t, e, left))
  {
    SinceMarkMore(t.log, Marked(t.number));
    hide SinceMark;
  }

  lemma {:induction false} AlwaysMeans(s: State, es: seq<Event>)
    requires Activated(s)
    ensures FetchedMeans(Run(s, es), Fetched(s, es)) && StopMeans(Run(s, es), LeftAtMark(s, es))
  {
    if es != [] {
      hide FetchedMeans, StopMeans, FetchedAfter, LeftAtMarkAfter, Step, InStep, Fresh, Activated;
      var (front, e) := (es[..|es| - 1], es[|es| - 1]);
      AlwaysMeans(s, front);
      AlwaysFresh(s, front);
      StepKeepsFetchedMeans(Run(s, front), e, Fetched(s, front));
      StepKeepsStopMeans(Run(s, front), e, LeftAtMark(s, front));
    }
  }

  /** What a reply of success reports, given what the hardware still had to start. */
  function Reported(request: Request, left: Pending): Entry {
    match request
    case SetForceMode(parameters) => Started(Whole(parameters), true)
    case DisableForceMode => if left == Nothing then Stopped(true) else Started(left, true)
  }

  /**
   * The reply is success if and only if the hardware has acted with success and update has fetched that result since.
   * For disableForceMode what succeeded is a stop if and only if nothing was left to start when it was marked.
   */
  lemma SuccessExactly(s: State, es: seq<Event>)
    requires Activated(s) && Run(s, es).service == Deciding
    ensures var t := Run(s, es);
            && Step(t, Decide).replies == t.replies + [Reply(t.number, t.request, t.asyncState == One)]
            && (t.asyncState == One <==>
                  Fetched(s, es) && SinceMark(t.log).1 == [Reported(t.request, LeftAtMark(s, es))])
  {
    AlwaysFresh(s, es);
    AlwaysMeans(s, es);
    hide SinceMark, Fetched, LeftAtMark, Run;
  }

  /** A look at the result that lets the thread go on, after the request was taken down, has seen a fetched one. */
  lemma LookAfterServing(s: State, es: seq<Event>)
    requires Activated(s)
    requires var t := Run(s, es); t.service == LoadingAsync && t.asyncState != Waiting && !t.changeRequested
    ensures Fetched(s, es) && ActedOn(Run(s, es))
  {
    AlwaysFresh(s, es);
    AlwaysMeans(s, es);
    hide SinceMark, Fetched, Run;
  }

  /** The request n has its result fetched, or is over. */
  ghost predicate Holding(t: State, n: nat, fetched: bool) {
    t.number > n || (t.number == n && (t.service == Idle || (Awaiting(t) && fetched)))
  }

  lemma StepKeepsHolding(t: State, e: Event, n: nat, fetched: bool)
    requires InStep(t) && Fresh(t) && FetchedMeans(t, fetched) && Holding(t, n, fetched) && e != BeginUpdate(false)
    ensures Holding(Step(t, e), n, FetchedAfter(t, e, fetched))
  {
    hide SinceMark;
  }

  lemma {:induction false} StaysFetched(s: State, es: seq<Event>, more: seq<Event>)
    requires Activated(s) && Awaiting(Run(s, es)) && Fetched(s, es) && BeginUpdate(false) !in more
    ensures Holding(Run(s, es + more), Run(s, es).number, Fetched(s, es + more))
  {
    if more == [] {
      assert es + more == es;
      hide Run, Fetched;
    } else {
      var (front, e) := (more[..|more| - 1], more[|more| - 1]);
      assert (es + more)[..|es + more| - 1] == es + front && (es + more)[|es + more| - 1] == e;
      hide Holding, FetchedAfter, Step, Activated, Awaiting, InStep, Fresh, FetchedMeans, StopMeans;
      StaysFetched(s, es, front);
      AlwaysFresh(s, es + front);
      AlwaysMeans(s, es + front);
      StepKeepsHolding(Run(s, es + front), e, Run(s, es).number, Fetched(s, es + front));
    }
  }

  /** A request that was taken down before the thread's look is answered with its outcome, unless reading fails later. */
  lemma ServedIsAnswered(s: State, es: seq<Event>, more: seq<Event>)
    requires Activated(s) && BeginUpdate(false) !in more
    requires var t := Run(s, es); t.service == LoadingAsync && t.asyncState != Waiting && !t.changeRequested
    requires var t := Run(s, es + more); t.service == Deciding && t.number == Run(s, es).number
    ensures var t := Run(s, es + more);
            t.asyncState == One <==> SinceMark(t.log).1 == [Reported(t.request, LeftAtMark(s, es + more))]
  {
    LookAfterServing(s, es);
    StaysFetched(s, es, more);
    SuccessExactly(s, es + more);
    hide SinceMark, Fetched, LeftAtMark, Run, Activated, ActedOn;
  }

  /** And one that was taken down only after the look fails, unless another update comes before the reply. */
  lemma {:induction false} OvertakenFails(s: State, es: seq<Event>, more: seq<Event>)
    requires Activated(s) && Run(s, es).update == Finishing(true) && BeginUpdate(true) !in more
    ensures !Fetched(s, es + [Finish] + more)
    ensures Run(s, es + [Finish] + more).service == Deciding ==> Run(s, es + [Finish] + more).asyncState != One
  {
    hide Run, Activated;
    var all := es + [Finish] + more;
    if more == [] {
      assert all[..|all| - 1] == es;
      AlwaysMeans(s, es);
    } else {
      OvertakenFails(s, es, more[..|more| - 1]);
      assert all[..|all| - 1] == es + [Finish] + more[..|more| - 1];
    }
    if Run(s, all).service == Deciding {
      SuccessExactly(s, all);
    }
  }

  // Every request is answered once, and by what its own thread saw

  /** Requests are answered in their order, each once, the last one as soon as its thread is idle again. */
  lemma {:induction false} AnsweredOnce(s: State, es: seq<Event>)
    requires Activated(s)
    ensures var t := Run(s, es);
            && |t.replies| + (if t.service == Idle then 0 else 1) == t.number - s.number
            && forall i :: 0 <= i < |t.replies| ==> t.replies[i].number == s.number + i + 1
  {
    hide Activated;
    if es == [] {
      assert s.replies == [] && s.service == Idle by {
        StartsIdle(s);
      }
    } else {
      hide Step;
      AnsweredOnce(s, es[..|es| - 1]);
      StepKeepsReplies(Run(s, es[..|es| - 1]), es[|es| - 1]);
      StepKeepsCount(Run(s, es[..|es| - 1]), es[|es| - 1]);
    }
  }

  lemma StepKeepsCount(t: State, e: Event)
    ensures var u := Step(t, e);
            |u.replies| + (if u.service == Idle then 0 else 1) - u.number
            == |t.replies| + (if t.service == Idle then 0 else 1) - t.number
    ensures |Step(t, e).replies| > |t.replies| ==> t.service != Idle
  {
    Unanswered(t);
    hide Act, Write;
  }

  /** The hardware and update's writes answer nothing. */
  lemma Unanswered(t: State)
    ensures forall ok :: var u := Act(t, ok); u.replies == t.replies && u.service == t.service && u.number == t.number
    ensures forall sets, writes ::
              var u := Write(t, sets, writes); u.replies == t.replies && u.service == t.service && u.number == t.number
  {
  }

  lemma StartsIdle(s: State)
    requires Activated(s)
    ensures s.replies == [] && s.service == Idle
  {
  }

  /** A reply is a failure because the box was taken, or it is what the thread last read of the result. */
  lemma {:induction false} RepliesComeFrom(s: State, es: seq<Event>, n: nat) returns (j: nat)
    requires es != [] && Activated(s) && n < |Run(s, es).replies|
    ensures j < |es| && |Run(s, es[..j]).replies| == n
    ensures var (t, reply) := (Run(s, es[..j]), Run(s, es).replies[n]);
            && reply.number == t.number && reply.request == t.request
            && if t.service == Deciding then es[j] == Decide && (reply.success <==> t.asyncState == One)
               else t.service == Boxing && es[j] == TrySet(false) && !reply.success
  {
    hide Activated, Step;
    StartsIdle(s);
    var (front, k) := (es[..|es| - 1], |es| - 1);
    StepKeepsReplies(Run(s, front), es[k]);
    if n < |Run(s, front).replies| {
      j := RepliesComeFrom(s, front, n);
      assert front[..j] == es[..j] && front[j] == es[j];
    } else {
      j := k;
    }
  }

  lemma StepKeepsReplies(t: State, e: Event)
    ensures var u := Step(t, e);
            && t.replies <= u.replies && |u.replies| <= |t.replies| + 1
            && (|u.replies| > |t.replies| ==>
                  var reply := u.replies[|t.replies|];
                  && reply.number == t.number && reply.request == t.request
                  && if t.service == Deciding then e == Decide && (reply.success <==> t.asyncState == One)
                           else t.service == Boxing && e == TrySet(false) && !reply.success)
  {
    Unanswered(t);
    hide Act, Write;
  }

  // What failure, and a successful stop, do not mean

  lemma Further(s: State, es: seq<Event>, e: Event) returns (more: seq<Event>)
    ensures more == es + [e] && Run(s, more) == Step(Run(s, es), e)
  {
    more := es + [e];
    assert more[..|es|] == es;
  }

  /** A request to set force mode up to where the thread waits. */
  lemma Asked(s: State, p: nat) returns (es: seq<Event>)
    requires Activated(s)
    ensures Run(s, es) == s.(number := s.number + 1, request := SetForceMode(p), box := p, active := true,
                             changeRequested := true, service := LoadingAsync)
  {
    es := Further(s, [], Ask(SetForceMode(p)));
    es := Further(s, es, TrySet(true));
    es := Further(s, es, Activate);
    es := Further(s, es, Raise);
  }

  /** An update that finds a request to set force mode and serves it, from its second step on. */
  lemma ServedSet(s: State, before: seq<Event>) returns (es: seq<Event>)
    requires var t := Run(s, before); t.update == CheckingChange && t.changeRequested && t.active
    ensures var t := Run(s, before);
            Run(s, es) == t.(update := AtRest, taken := t.box, pending := Whole(t.box), command := Waiting,
                             log := t.log + [Marked(t.number)], asyncState := Waiting, changeRequested := false)
  {
    es := Further(s, before, CheckChange);
    es := Further(s, es, CheckActive);
    es := Further(s, es, TryGet(true));
    es := Further(s, es, WriteCommands(AllWritten));
    es := Further(s, es, MarkAsync);
    es := Further(s, es, Finish);
  }

  /** The thread looks at the result before update marks it, and at the request after update has served it. */
  lemma Overtaken(s: State, p: nat) returns (es: seq<Event>)
    requires Activated(s)
    ensures var t := Run(s, es);
            && t.replies == [Reply(s.number + 1, SetForceMode(p), false)] && t.service == Idle && t.update == AtRest
            && t.pending == Whole(p) && t.command == Waiting && !t.changeRequested && t.number == s.number + 1
            && t.log == [Marked(s.number + 1)]
  {
    es := Asked(s, p);
    es := Further(s, es, LoadAsync);
    es := Further(s, es, BeginUpdate(true));
    es := ServedSet(s, es);
    es := Further(s, es, LoadChange);
    es := Further(s, es, Decide);
  }

  /** setForceMode can report a failure although the hardware then starts force mode as requested. */
  lemma FailureThoughStarted(s: State, p: nat) returns (es: seq<Event>)
    requires Activated(s)
    ensures var t := Run(s, es);
            && t.replies == [Reply(s.number + 1, SetForceMode(p), false)]
            && t.log == [Marked(s.number + 1), Started(Whole(p), true)]
  {
    es := Overtaken(s, p);
    es := Further(s, es, HardwareWrite(true));
  }

  /** An update that finds a request to disable and serves it. */
  lemma ServedDisable(s: State, before: seq<Event>) returns (es: seq<Event>)
    requires var t := Run(s, before); t.update == AtRest && t.changeRequested && !t.active
    ensures var t := Run(s, before);
            Run(s, es) == t.(disable := true, command := Waiting, log := t.log + [Marked(t.number)], asyncState := Waiting,
                             changeRequested := false)
  {
    es := Further(s, before, BeginUpdate(true));
    es := Further(s, es, CheckChange);
    es := Further(s, es, CheckActive);
    es := Further(s, es, WriteCommands(AllWritten));
    es := Further(s, es, MarkAsync);
    es := Further(s, es, Finish);
  }

  /**
   * disableForceMode can report success although the hardware has just started force mode and stopped nothing: the
   * parameters of an overtaken request are still there, and the hardware takes them first.
   */
  lemma DisabledThoughStarted(s: State, p: nat) returns (es: seq<Event>)
    requires Activated(s)
    ensures var t := Run(s, es);
            && t.replies == [Reply(s.number + 1, SetForceMode(p), false), Reply(s.number + 2, DisableForceMode, true)]
            && t.log == [Marked(s.number + 1), Marked(s.number + 2), Started(Whole(p), true)]
  {
    es := Overtaken(s, p);
    es := AskedToDisable(s, es);
    es := ServedDisable(s, es);
    es := Further(s, es, HardwareWrite(true));
    es := Concluded(s, es);
  }

  lemma AskedToDisable(s: State, before: seq<Event>) returns (es: seq<Event>)
    requires Run(s, before).service == Idle
    ensures var t := Run(s, before);
            Run(s, es) == t.(number := t.number + 1, request := DisableForceMode, active := false, changeRequested := true,
                             service := LoadingAsync)
  {
    es := Further(s, before, Ask(DisableForceMode));
    es := Further(s, es, Activate);
    es := Further(s, es, Raise);
  }

  /** The next update passes the hardware's result on, and the waiting thread replies. */
  lemma Concluded(s: State, before: seq<Event>) returns (es: seq<Event>)
    requires var t := Run(s, before);
             t.service == LoadingAsync && t.update == AtRest && !t.changeRequested && t.command != Waiting
    ensures var t := Run(s, before);
            Run(s, es) == t.(asyncState := t.command, update := CheckingChange, service := Idle,
                             replies := t.replies + [Reply(t.number, t.request, t.command == One)])
  {
    es := Further(s, before, BeginUpdate(true));
    es := Further(s, es, LoadAsync);
    es := Further(s, es, LoadChange);
    es := Further(s, es, Decide);
  }
}
