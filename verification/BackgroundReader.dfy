/**
 * rtde_client.cpp: one thread reads data packages into a spare buffer and swaps it in; any number of consumers copy
 * the other buffer. All of them take steps in any order; a step ends where another thread can see its effect.
 */
module BackgroundReader {
  import opened Wrappers

  /**
   * What a buffer holds: the data package that arrived as the n-th (0: the blank one made at the start), a package of
   * another type, or a data package that parsing has overwritten in part.
   */
  datatype Content = Data(n: nat) | Other | Partial

  /** The reading thread: at the loop's top, reading, holding a package, having swapped, having set the flag. */
  datatype Producer = Top | Reading | HasData | Swapped | Notifying | Ended

  /** A caller of getDataPackage, by where it stands; what it copied is in `delivered`. */
  datatype Consumer = Idle | Called | SawData | SawNone | Waiting(notified: bool) | Copying | Clearing

  datatype Outcome = DataPackage | OtherPackage | NoPackage

  datatype State = State(
    buffer0: Content,
    buffer1: Content,
    newData: bool,
    running: bool,
    producer: Producer,
    readLock: Option<nat>,
    consumers: map<nat, Consumer>,
    arrived: nat,
    delivered: seq<nat>
  ) {
    function At(c: nat): Consumer {
      if c in consumers then consumers[c] else Idle
    }

    function Move(c: nat, to: Consumer): State {
      this.(consumers := consumers[c := to])
    }
  }

  datatype Event =
    | StopReading
    | CheckRunning
    | Receive(outcome: Outcome)
    | SwapBuffers
    | SetFlag
    | Notify(whom: nat)
    | Call(c: nat)
    | CheckFlag(c: nat)
    | LockRead(c: nat)
    | WakeUp(c: nat)
    | TimeOut(c: nat)
    | Copy(c: nat)
    | ClearFlag(c: nat)

  const STARTED := State(Data(0), Data(0), false, true, Top, None, map[], 0, [])

  function NotifyOne(s: State, whom: nat): State {
    if s.At(whom).Waiting? then s.Move(whom, Waiting(true)) else s
  }

  /** A step that is not possible in a state leaves it as it is. */
  function Step(s: State, e: Event): State {
    match e
    case StopReading => s.(running := false)
    case CheckRunning =>
      if s.producer != Top then s
      else if s.running then s.(producer := Reading, buffer1 := Partial)
      else s.(producer := Ended, newData := false)
    case Receive(outcome) =>
      if s.producer != Reading then s
      else
        (match outcome
         case DataPackage => s.(producer := HasData, buffer1 := Data(s.arrived + 1), arrived := s.arrived + 1)
         case OtherPackage => s.(producer := Top, buffer1 := Other)
         case NoPackage => s.(producer := Top))
    case SwapBuffers =>
      if s.producer == HasData && s.readLock == None
      then s.(producer := Swapped, buffer0 := s.buffer1, buffer1 := s.buffer0)
      else s
    case SetFlag => if s.producer == Swapped then s.(producer := Notifying, newData := true) else s
    case Notify(whom) => if s.producer == Notifying then NotifyOne(s.(producer := Top), whom) else s
    case Call(c) => if s.At(c) == Idle && s.running then s.Move(c, Called) else s
    case CheckFlag(c) => if s.At(c) == Called then s.Move(c, if s.newData then SawData else SawNone) else s
    case LockRead(c) =>
      if s.readLock != None then s
      else if s.At(c) == SawData then s.Move(c, Copying).(readLock := Some(c))
      else if s.At(c) == SawNone then s.Move(c, Waiting(false))
      else s
    case WakeUp(c) =>
      if s.readLock != None || !s.At(c).Waiting? then s
      else if s.newData then s.Move(c, Copying).(readLock := Some(c))
      else s.Move(c, Idle)
    case TimeOut(c) => if s.readLock == None && s.At(c).Waiting? then s.Move(c, Idle) else s
    case Copy(c) =>
      if s.At(c) != Copying then s
      else s.Move(c, Clearing).(delivered := s.delivered + (if s.buffer0.Data? then [s.buffer0.n] else []))
    case ClearFlag(c) => if s.At(c) == Clearing then s.Move(c, Idle).(newData := false, readLock := None) else s
  }

  function Run(es: seq<Event>): State {
    if es == [] then STARTED else Step(Run(es[..|es| - 1]), es[|es| - 1])
  }

  // What every step keeps

  ghost predicate Sorted(s: seq<nat>) {
    forall i, j :: 0 <= i <= j < |s| ==> s[i] <= s[j]
  }

  /** Buffer 0 holds the newest package that was swapped in; only the one just read may be newer. */
  ghost predicate Complete(s: State) {
    && s.buffer0.Data?
    && s.arrived == s.buffer0.n + (if s.producer == HasData then 1 else 0)
    && (s.producer == HasData ==> s.buffer1 == Data(s.arrived))
  }

  /** Only the holder of the lock is copying or has copied. */
  ghost predicate Locked(s: State) {
    forall c: nat :: (s.At(c) == Copying || s.At(c) == Clearing) <==> s.readLock == Some(c)
  }

  ghost predicate InOrder(s: State) {
    && Sorted(s.delivered)
    && (s.buffer0.Data? ==> forall i :: 0 <= i < |s.delivered| ==> s.delivered[i] <= s.buffer0.n)
  }

  predicate NewestDelivered(s: State) {
    s.buffer0 == Data(0) || (s.buffer0.Data? && s.delivered != [] && s.delivered[|s.delivered| - 1] == s.buffer0.n)
  }

  /** Without the flag, and unless the thread is about to set it or gone, the newest package was delivered. */
  ghost predicate Fresh(s: State) {
    && (s.newData || s.producer == Swapped || s.producer == Ended || NewestDelivered(s))
    && (s.readLock.Some? && s.At(s.readLock.value) == Clearing ==> NewestDelivered(s))
  }

  ghost predicate Invariant(s: State) {
    Complete(s) && Locked(s) && InOrder(s) && Fresh(s)
  }

  lemma StepKeepsComplete(s: State, e: Event)
    requires Complete(s)
    ensures Complete(Step(s, e))
  {
  }

  lemma StepKeepsLocked(s: State, e: Event)
    requires Locked(s)
    ensures Locked(Step(s, e))
  {
  }

  lemma StepKeepsInOrder(s: State, e: Event)
    requires Complete(s) && InOrder(s)
    ensures InOrder(Step(s, e))
  {
  }

  lemma StepKeepsFresh(s: State, e: Event)
    requires Complete(s) && Locked(s) && Fresh(s)
    ensures Fresh(Step(s, e))
  {
    hide NewestDelivered;
    if e.Copy? && s.At(e.c) == Copying {
      CopyDelivers(s, e.c);
    } else {
      NewestStays(s, Step(s, e));
    }
  }

  lemma CopyDelivers(s: State, c: nat)
    requires Complete(s) && s.At(c) == Copying
    ensures NewestDelivered(Step(s, Copy(c)))
  {
  }

  lemma NewestStays(s: State, t: State)
    ensures t.buffer0 == s.buffer0 && t.delivered == s.delivered ==> (NewestDelivered(t) <==> NewestDelivered(s))
  {
  }

  lemma NewestIsWhole(s: State)
    requires Invariant(s)
    ensures s.buffer0.Data? && forall i :: 0 <= i < |s.delivered| ==> s.delivered[i] <= s.buffer0.n
  {
    hide Locked, Fresh, Sorted;
  }

  lemma StepKeepsInvariant(s: State, e: Event)
    requires Invariant(s)
    ensures Invariant(Step(s, e))
  {
    StepKeepsComplete(s, e);
    StepKeepsLocked(s, e);
    StepKeepsInOrder(s, e);
    StepKeepsFresh(s, e);
    hide Step, Complete, Locked, InOrder, Fresh;
  }

  // The source's object: it owns two package objects, and swaps which is which

  class Package {
    var content: Content

    constructor (content: Content)
      ensures this.content == content
    {
      this.content := content;
    }
  }

  class Reader {
    var dataBuffer0: Package
    var dataBuffer1: Package
    var newData: bool
    var running: bool
    var producer: Producer
    var readLock: Option<nat>
    var consumers: map<nat, Consumer>
    var arrived: nat
    var delivered: seq<nat>

    ghost function Abs(): State
      reads this, dataBuffer0, dataBuffer1
    {
      State(dataBuffer0.content, dataBuffer1.content, newData, running, producer, readLock, consumers, arrived, delivered)
    }

    /** Two packages, never the same one, and what every step keeps. */
    ghost predicate Valid()
      reads this, dataBuffer0, dataBuffer1
    {
      dataBuffer0 != dataBuffer1 && Invariant(Abs())
    }

    /** startBackgroundRead */
    constructor ()
      ensures Valid() && Abs() == STARTED
    {
      dataBuffer0 := new Package(Data(0));
      dataBuffer1 := new Package(Data(0));
      newData, running, producer, readLock, consumers, arrived, delivered := false, true, Top, None, map[], 0, [];
    }

    /** The reading thread up to the parser, which writes into the spare buffer from here on. */
    method BeginRead()
      requires Valid() && producer == Top
      modifies this`producer, this`newData, dataBuffer1
      ensures Valid() && Abs() == Step(old(Abs()), CheckRunning)
    {
      hide Invariant;
      StepKeepsInvariant(Abs(), CheckRunning);
      if running {
        producer := Reading;
        dataBuffer1.content := Partial;
      } else {
        newData := false;
        producer := Ended;
      }
    }

    method TryGet(outcome: Outcome)
      requires Valid() && producer == Reading
      modifies this`producer, this`arrived, dataBuffer1
      ensures Valid() && Abs() == Step(old(Abs()), Receive(outcome))
    {
      hide Invariant;
      StepKeepsInvariant(Abs(), Receive(outcome));
      match outcome
      case DataPackage =>
        arrived := arrived + 1;
        dataBuffer1.content := Data(arrived);
        producer := HasData;
      case OtherPackage =>
        dataBuffer1.content := Other;
        producer := Top;
      case NoPackage =>
        producer := Top;
    }

    /** With both locks held. */
    method Swap()
      requires Valid() && producer == HasData && readLock == None
      modifies this`dataBuffer0, this`dataBuffer1, this`producer
      ensures Valid() && Abs() == Step(old(Abs()), SwapBuffers)
    {
      hide Invariant;
      StepKeepsInvariant(Abs(), SwapBuffers);
      dataBuffer0, dataBuffer1 := dataBuffer1, dataBuffer0;
      producer := Swapped;
    }

    method Announce()
      requires Valid() && producer == Swapped
      modifies this`newData, this`producer
      ensures Valid() && Abs() == Step(old(Abs()), SetFlag)
    {
      hide Invariant;
      StepKeepsInvariant(Abs(), SetFlag);
      newData := true;
      producer := Notifying;
    }

    method NotifyConsumer(whom: nat)
      requires Valid() && producer == Notifying
      modifies this`consumers, this`producer
      ensures Valid() && Abs() == Step(old(Abs()), Notify(whom))
    {
      hide Invariant;
      StepKeepsInvariant(Abs(), Notify(whom));
      if whom in consumers && consumers[whom].Waiting? {
        consumers := consumers[whom := Waiting(true)];
      }
      producer := Top;
    }

    method Stop()
      requires Valid()
      modifies this`running
      ensures Valid() && Abs() == Step(old(Abs()), StopReading)
    {
      hide Invariant;
      StepKeepsInvariant(Abs(), StopReading);
      running := false;
    }

    /** getDataPackage up to the first look at the flag; false where it returns at once. */
    method Enter(c: nat) returns (ok: bool)
      requires Valid() && Abs().At(c) == Idle
      modifies this`consumers
      ensures Valid() && Abs() == Step(old(Abs()), Call(c)) && ok == running
    {
      hide Invariant;
      StepKeepsInvariant(Abs(), Call(c));
      if !running {
        return false;
      }
      consumers := consumers[c := Called];
      ok := true;
    }

    method LookAtFlag(c: nat)
      requires Valid() && Abs().At(c) == Called
      modifies this`consumers
      ensures Valid() && Abs() == Step(old(Abs()), CheckFlag(c))
    {
      hide Invariant;
      StepKeepsInvariant(Abs(), CheckFlag(c));
      consumers := consumers[c := if newData then SawData else SawNone];
    }

    /** Takes the lock; a consumer that saw no data gives it up again to wait. */
    method Lock(c: nat)
      requires Valid() && readLock == None && (Abs().At(c) == SawData || Abs().At(c) == SawNone)
      modifies this`consumers, this`readLock
      ensures Valid() && Abs() == Step(old(Abs()), LockRead(c))
    {
      hide Invariant;
      StepKeepsInvariant(Abs(), LockRead(c));
      if consumers[c] == SawData {
        readLock := Some(c);
        consumers := consumers[c := Copying];
      } else {
        consumers := consumers[c := Waiting(false)];
      }
    }

    /** The end of the wait: notified, for no reason, or (`timeout`) too late. True where the call goes on to copy. */
    method EndWait(c: nat, timeout: bool) returns (copies: bool)
      requires Valid() && readLock == None && Abs().At(c).Waiting?
      modifies this`consumers, this`readLock
      ensures Valid() && Abs() == Step(old(Abs()), if timeout then TimeOut(c) else WakeUp(c))
      ensures copies <==> !timeout && newData
    {
      hide Invariant;
      StepKeepsInvariant(Abs(), if timeout then TimeOut(c) else WakeUp(c));
      copies := !timeout && newData;
      if copies {
        readLock := Some(c);
        consumers := consumers[c := Copying];
      } else {
        consumers := consumers[c := Idle];
      }
    }

    method CopyPackage(c: nat) returns (package: Content)
      requires Valid() && Abs().At(c) == Copying
      modifies this`consumers, this`delivered
      ensures Valid() && Abs() == Step(old(Abs()), Copy(c))
      ensures package == dataBuffer0.content && package.Data? && delivered == old(delivered) + [package.n]
      ensures forall i :: 0 <= i < |old(delivered)| ==> old(delivered)[i] <= package.n
    {
      hide Invariant;
      StepKeepsInvariant(Abs(), Copy(c));
      NewestIsWhole(Abs());
      package := dataBuffer0.content;
      if package.Data? {
        delivered := delivered + [package.n];
      }
      consumers := consumers[c := Clearing];
    }

    method Clear(c: nat)
      requires Valid() && Abs().At(c) == Clearing
      modifies this`consumers, this`newData, this`readLock
      ensures Valid() && Abs() == Step(old(Abs()), ClearFlag(c))
    {
      hide Invariant;
      StepKeepsInvariant(Abs(), ClearFlag(c));
      newData := false;
      readLock := None;
      consumers := consumers[c := Idle];
    }
  }

  // What holds in every interleaving

  /**
   * In every interleaving buffer 0 is a whole data package, consumers together see packages in the order in which
   * they arrived, and a lowered flag means that there is nothing newer than what was delivered.
   */
  lemma {:induction false} AlwaysInvariant(es: seq<Event>)
    ensures Invariant(Run(es))
  {
    if es != [] {
      var (s, e) := (Run(es[..|es| - 1]), es[|es| - 1]);
      AlwaysInvariant(es[..|es| - 1]);
      StepKeepsInvariant(s, e);
      hide Step, Complete, Locked, InOrder, Fresh;
    }
  }

  function After(s: State, es: seq<Event>): State
    decreases es
  {
    if es == [] then s else After(Step(s, es[0]), es[1..])
  }

  lemma {:induction false} RunsFurther(es: seq<Event>, more: seq<Event>)
    ensures Run(es + more) == After(Run(es), more)
    decreases more
  {
    if more == [] {
      assert es + more == es;
    } else {
      RunsFurther(es + [more[0]], more[1..]);
      assert es + more == es + [more[0]] + more[1..];
      assert (es + [more[0]])[..|es|] == es;
    }
  }

  /** A call that finds the flag raised and is not disturbed delivers the newest package and lowers the flag. */
  lemma PromptDelivery(es: seq<Event>, c: nat)
    requires var s := Run(es); s.At(c) == Called && s.newData && s.readLock == None
    ensures var (s, t) := (Run(es), Run(es + [CheckFlag(c), LockRead(c), Copy(c), ClearFlag(c)]));
            && s.buffer0.Data? && t.delivered == s.delivered + [s.buffer0.n]
            && !t.newData && t.At(c) == Idle && t.readLock == None && t.buffer0 == s.buffer0
  {
    AlwaysInvariant(es);
    RunsFurther(es, [CheckFlag(c), LockRead(c), Copy(c), ClearFlag(c)]);
    var s := Run(es);
    FourSteps(s, CheckFlag(c), LockRead(c), Copy(c), ClearFlag(c));
  }

  lemma FourSteps(s: State, a: Event, b: Event, c: Event, d: Event)
    ensures After(s, [a, b, c, d]) == Step(Step(Step(Step(s, a), b), c), d)
  {
    hide Step;
    assert [a, b, c, d][1..] == [b, c, d] && [b, c, d][1..] == [c, d] && [c, d][1..] == [d];
    var t := Step(s, a);
    assert After(s, [a, b, c, d]) == After(t, [b, c, d]);
    assert After(t, [b, c, d]) == After(Step(t, b), [c, d]);
    assert After(Step(t, b), [c, d]) == After(Step(Step(t, b), c), [d]);
    assert After(Step(Step(t, b), c), [d]) == After(Step(Step(Step(t, b), c), d), []);
  }

  // Calls that see the flag, and calls that do not

  lemma RunsOneMore(es: seq<Event>, more: seq<Event>)
    requires more != []
    ensures Run(es + more) == Step(Run(es + more[..|more| - 1]), more[|more| - 1])
  {
    assert (es + more)[..|es + more| - 1] == es + more[..|more| - 1];
  }

  /** The call saw data when buffer 0 held the package n: it does not wait, and what it has copied is the newest. */
  ghost predicate Delivering(s: State, c: nat, n: nat) {
    && s.At(c) in {SawData, Copying, Clearing} && s.buffer0.Data? && n <= s.buffer0.n
    && (s.At(c) == Clearing ==> s.delivered != [] && s.delivered[|s.delivered| - 1] == s.buffer0.n)
  }

  lemma StepKeepsDelivering(s: State, e: Event, c: nat, n: nat)
    requires Complete(s) && Locked(s) && Delivering(s, c, n) && e != ClearFlag(c)
    ensures Delivering(Step(s, e), c, n)
  {
  }

  /**
   * In every interleaving, a call that sees the flag raised never waits; until it ends it is on its way to copying or
   * has copied, and what it has copied is then still the newest package swapped in, no older than the one it saw.
   */
  lemma {:induction false} SeenIsDelivered(es: seq<Event>, more: seq<Event>, c: nat)
    requires Run(es).At(c) == Called && Run(es).newData && ClearFlag(c) !in more
    ensures Run(es).buffer0.Data? && Delivering(Run(es + [CheckFlag(c)] + more), c, Run(es).buffer0.n)
  {
    AlwaysInvariant(es);
    var so := es + [CheckFlag(c)];
    assert so[..|es|] == es;
    if more == [] {
      assert so + more == so;
    } else {
      var front := more[..|more| - 1];
      SeenIsDelivered(es, front, c);
      AlwaysInvariant(so + front);
      RunsOneMore(so, more);
      hide Run, Step, Complete, Locked, InOrder, Fresh, Delivering;
      StepKeepsDelivering(Run(so + front), more[|more| - 1], c, Run(es).buffer0.n);
    }
  }

  /** Where a call can be that has looked at the flag, with this outcome, and does not look again. */
  predicate AfterLook(at: Consumer, seen: bool) {
    at in {Idle, Called, Copying, Clearing} || (if seen then at == SawData else at == SawNone || at.Waiting?)
  }

  lemma {:induction false} LookDecides(es: seq<Event>, more: seq<Event>, c: nat)
    requires Run(es).At(c) == Called && CheckFlag(c) !in more
    ensures AfterLook(Run(es + [CheckFlag(c)] + more).At(c), Run(es).newData)
  {
    var so := es + [CheckFlag(c)];
    assert so[..|es|] == es;
    if more == [] {
      assert so + more == so;
    } else {
      LookDecides(es, more[..|more| - 1], c);
      RunsOneMore(so, more);
      hide Run, Step, AfterLook;
      StepKeepsLook(Run(so + more[..|more| - 1]), more[|more| - 1], c, Run(es).newData);
    }
  }

  lemma StepKeepsLook(s: State, e: Event, c: nat, seen: bool)
    requires AfterLook(s.At(c), seen) && e != CheckFlag(c)
    ensures AfterLook(Step(s, e).At(c), seen)
  {
  }

  predicate Raises(s: State, e: Event) {
    e == SetFlag && s.producer == Swapped
  }

  predicate Lowers(s: State, e: Event) {
    (e.ClearFlag? && s.At(e.c) == Clearing) || (e == CheckRunning && s.producer == Top && !s.running)
  }

  /** The flag was set in the run `more` that follows `es`, at its k-th step, and not cleared since. */
  ghost predicate RaisedAt(es: seq<Event>, more: seq<Event>, k: nat) {
    && k < |more| && Raises(Run(es + more[..k]), more[k])
    && forall j :: k < j < |more| ==> !Lowers(Run(es + more[..j]), more[j])
  }

  ghost predicate Raised(es: seq<Event>, more: seq<Event>) {
    exists k: nat :: RaisedAt(es, more, k)
  }

  lemma StepMovesFlag(s: State, e: Event)
    ensures Step(s, e).newData <==> Raises(s, e) || (s.newData && !Lowers(s, e))
  {
  }

  lemma RaisedMore(es: seq<Event>, more: seq<Event>)
    requires more != []
    ensures var (front, e) := (more[..|more| - 1], more[|more| - 1]);
            Raised(es, more) <==> Raises(Run(es + front), e) || (Raised(es, front) && !Lowers(Run(es + front), e))
  {
    hide Run, Raises, Lowers;
    var (front, n) := (more[..|more| - 1], |more| - 1);
    assert forall k: nat | k < n :: front[..k] == more[..k];
    if Raised(es, more) {
      var k: nat :| RaisedAt(es, more, k);
      assert k == n || RaisedAt(es, front, k);
    }
    if Raises(Run(es + front), more[n]) {
      assert RaisedAt(es, more, n);
    }
    if Raised(es, front) && !Lowers(Run(es + front), more[n]) {
      var k: nat :| RaisedAt(es, front, k);
      assert RaisedAt(es, more, k);
    }
  }

  lemma {:induction false} FlagExactly(es: seq<Event>, more: seq<Event>)
    requires !Run(es).newData
    ensures Run(es + more).newData <==> Raised(es, more)
  {
    if more == [] {
      assert es + more == es;
    } else {
      FlagExactly(es, more[..|more| - 1]);
      RunsOneMore(es, more);
      RaisedMore(es, more);
      StepMovesFlag(Run(es + more[..|more| - 1]), more[|more| - 1]);
      hide Run, Raised, Step, Raises, Lowers;
    }
  }

  /** After its look at the flag the call waits, and can time out. */
  ghost predicate CanTimeOut(es: seq<Event>, more: seq<Event>, c: nat) {
    var s := Run(es + [CheckFlag(c)] + more);
    CheckFlag(c) !in more && s.At(c).Waiting? && s.readLock == None
  }

  /**
   * A call that times out saw the flag lowered; and it leaves the flag raised, with something new there, exactly if
   * the reading thread raised it after that look and nobody lowered it since.
   */
  lemma TimedOutWithNewExactly(es: seq<Event>, more: seq<Event>, c: nat)
    requires Run(es).At(c) == Called && CanTimeOut(es, more, c)
    ensures var t := Step(Run(es + [CheckFlag(c)] + more), TimeOut(c));
            && !Run(es).newData && t.At(c) == Idle
            && (t.newData <==> Raised(es + [CheckFlag(c)], more))
  {
    LookDecides(es, more, c);
    var so := es + [CheckFlag(c)];
    assert so[..|es|] == es && !Run(so).newData;
    FlagExactly(so, more);
    hide Run, Raised;
  }

  /** The reading thread has a package under way or goes on reading. */
  predicate MayAnnounce(s: State) {
    s.producer in {Reading, HasData, Swapped} || (s.producer in {Top, Notifying} && s.running)
  }

  lemma {:induction false} SilentForever(es: seq<Event>, more: seq<Event>)
    requires !Run(es).newData && !MayAnnounce(Run(es))
    ensures !Run(es + more).newData && !MayAnnounce(Run(es + more))
  {
    if more == [] {
      assert es + more == es;
    } else {
      SilentForever(es, more[..|more| - 1]);
      RunsOneMore(es, more);
      hide Run, Step, MayAnnounce;
      StepStaysSilent(Run(es + more[..|more| - 1]), more[|more| - 1]);
    }
  }

  lemma StepStaysSilent(s: State, e: Event)
    requires !s.newData && !MayAnnounce(s)
    ensures !Step(s, e).newData && !MayAnnounce(Step(s, e))
  {
  }

  /** The lock is given back. */
  lemma LockIsFreed(s: State, c: nat)
    requires s.At(c) == SawNone && !s.newData && MayAnnounce(s) && Locked(s)
    ensures var h := if s.readLock.Some? then s.readLock.value else c;
            var t := Step(Step(s, Copy(h)), ClearFlag(h));
            t.readLock == None && t.At(c) == SawNone && MayAnnounce(t)
  {
  }

  /** A package is announced, and only then the consumer c begins to wait. */
  lemma AnnouncedTooEarly(s: State, c: nat)
    requires s.At(c) == SawNone && s.readLock == None && MayAnnounce(s)
    ensures var read := Step(Step(Step(s, Notify(c)), CheckRunning), Receive(DataPackage));
            var t := Step(Step(Step(read, SwapBuffers), SetFlag), LockRead(c));
            t.At(c).Waiting? && t.readLock == None && t.newData
  {
    var read := Step(Step(Step(s, Notify(c)), CheckRunning), Receive(DataPackage));
    assert read.readLock == None && read.At(c) == SawNone && read.producer in {HasData, Swapped};
  }

  /**
   * The wait has no condition of its own: a call can time out although there is something new, with the right
   * interleaving, exactly if its look finds the flag lowered and the reading thread has not come to its end.
   */
  lemma TimesOutDespiteNewData(es: seq<Event>, c: nat)
    requires Run(es).At(c) == Called
    ensures (exists more :: CanTimeOut(es, more, c) && Run(es + [CheckFlag(c)] + more).newData) <==>
            !Run(es).newData && MayAnnounce(Run(es))
  {
    LookNone(es, c);
    hide Run, Step, CanTimeOut, Locked;
    var so := es + [CheckFlag(c)];
    if more :| CanTimeOut(es, more, c) && Run(so + more).newData {
      TimedOutWithNewExactly(es, more, c);
      if !MayAnnounce(Run(es)) {
        SilentForever(so, more);
      }
    }
    if !Run(es).newData && MayAnnounce(Run(es)) {
      var more := RunsIntoTimeOut(es, c);
    }
  }

  /** A look at a lowered flag. */
  lemma LookNone(es: seq<Event>, c: nat)
    requires Run(es).At(c) == Called
    ensures !Run(es).newData ==> Run(es + [CheckFlag(c)]) == Run(es).Move(c, SawNone)
  {
    RunsOneMore(es, [CheckFlag(c)]);
    assert [CheckFlag(c)][..0] == [] && es + [] == es;
    hide Run;
  }

  lemma RunsIntoTimeOut(es: seq<Event>, c: nat) returns (more: seq<Event>)
    requires Run(es).At(c) == Called && !Run(es).newData && MayAnnounce(Run(es))
    ensures CanTimeOut(es, more, c) && Run(es + [CheckFlag(c)] + more).newData
  {
    LookNone(es, c);
    var so := es + [CheckFlag(c)];
    AlwaysInvariant(so);
    LockIsFreed(Run(so), c);
    hide Run, Step;
    var h := if Run(so).readLock.Some? then Run(so).readLock.value else c;
    AnnouncedTooEarly(Step(Step(Run(so), Copy(h)), ClearFlag(h)), c);
    var first, second := [Copy(h), ClearFlag(h), Notify(c), CheckRunning],
                         [Receive(DataPackage), SwapBuffers, SetFlag, LockRead(c)];
    EightSteps(so, first, second);
    more := first + second;
  }

  lemma EightSteps(es: seq<Event>, a: seq<Event>, b: seq<Event>)
    requires |a| == |b| == 4
    ensures Run(es + (a + b)) ==
            Step(Step(Step(Step(Step(Step(Step(Step(Run(es), a[0]), a[1]), a[2]), a[3]), b[0]), b[1]), b[2]), b[3])
  {
    hide Run, Step;
    RunsFurther(es, a);
    RunsFurther(es + a, b);
    assert es + (a + b) == es + a + b;
    FourSteps(Run(es), a[0], a[1], a[2], a[3]);
    FourSteps(Run(es + a), b[0], b[1], b[2], b[3]);
    assert a == [a[0], a[1], a[2], a[3]] && b == [b[0], b[1], b[2], b[3]];
  }
}
