/**
 * rtde_client.cpp: setting up the communication, which may take several attempts and may shorten the output recipe on
 * the way. What the robot and the network do is given as the sends' successes and the answers of every attempt.
 */
module RtdeClient {
  import opened Sequences
  import opened Strings
  import opened Wrappers

  const MAX_RTDE_PROTOCOL_VERSION := 2
  const MAX_REQUEST_RETRIES := 5

  /** The packages that matter here; any other is OtherAnswer. */
  datatype Package = VersionAnswer(accepted: bool) | OutputsAnswer(types: string) | OtherAnswer

  /** What the next read brings: a package, or nothing, with the connection kept (a timeout) or lost. */
  datatype Answer = Received(package: Package) | Nothing(lost: bool)

  /** The socket, with everything that is going to happen on it. */
  datatype Wire = Wire(connected: bool, sends: seq<bool>, answers: seq<Answer>)

  function Written(w: Wire): (bool, Wire) {
    if !w.connected || w.sends == [] then (false, w) else (w.sends[0], w.(sends := w.sends[1..]))
  }

  function Got(w: Wire): (Option<Package>, Wire) {
    if !w.connected || w.answers == [] then (None, w)
    else
      var rest := w.(answers := w.answers[1..]);
      match w.answers[0]
      case Received(package) => (Some(package), rest)
      case Nothing(lost) => (None, rest.(connected := !lost))
  }

  // Negotiating the protocol version

  datatype Verdict = Accepted | Refused | Unanswered | Failed

  /** Waiting for the answer to one version request, up to five other packages. */
  function Awaited(w: Wire, retries: nat): (Verdict, Wire)
    requires retries <= MAX_REQUEST_RETRIES
    decreases MAX_REQUEST_RETRIES - retries
  {
    if retries == MAX_REQUEST_RETRIES then (Unanswered, w)
    else
      var (package, rest) := Got(w);
      match package
      case None => (Failed, rest)
      case Some(VersionAnswer(accepted)) => (if accepted then Accepted else Refused, rest)
      case Some(_) => Awaited(rest, retries + 1)
  }

  /** The version agreed on, from `version` downwards, or 0. */
  function Negotiated(version: nat, w: Wire): (nat, Wire) {
    if version == 0 then (0, w)
    else
      var (ok, sent) := Written(w);
      if !ok then (0, sent)
      else
        var (verdict, rest) := Awaited(sent, 0);
        match verdict
        case Accepted => (version, rest)
        case Failed => (0, rest)
        case _ => Negotiated(version - 1, rest)
  }

  /** How many packages that answer no version request come first. */
  function Unrelated(answers: seq<Answer>): (n: nat)
    ensures n <= |answers|
  {
    if answers == [] || answers[0].Nothing? || answers[0].package.VersionAnswer? then 0 else 1 + Unrelated(answers[1..])
  }

  /** The robot accepts `version`, after at most four packages about something else. */
  predicate Accepts(answers: seq<Answer>) {
    var n := Unrelated(answers);
    n < 5 && n < |answers| && answers[n] == Received(VersionAnswer(true))
  }

  predicate Refuses(answers: seq<Answer>) {
    var n := Unrelated(answers);
    n < 5 && n < |answers| && answers[n] == Received(VersionAnswer(false))
  }

  predicate Ignores(answers: seq<Answer>) {
    Unrelated(answers) >= 5
  }

  /** Requests go out for every version from `from` down to v; the robot accepts v and refuses or ignores all above. */
  predicate Agreed(from: nat, v: nat, w: Wire) {
    && 0 < v <= from && w.connected && w.sends != [] && w.sends[0]
    && (if from == v then Accepts(w.answers)
        else
          || (Refuses(w.answers) && Agreed(from - 1, v, Wire(true, w.sends[1..], w.answers[Unrelated(w.answers) + 1..])))
          || (Ignores(w.answers) && Agreed(from - 1, v, Wire(true, w.sends[1..], w.answers[5..]))))
  }

  lemma {:induction false} AwaitedExactly(w: Wire, retries: nat)
    requires retries <= MAX_REQUEST_RETRIES && w.connected
    ensures var n := Unrelated(w.answers);
            var (verdict, rest) := Awaited(w, retries);
            && (n >= MAX_REQUEST_RETRIES - retries ==>
                  verdict == Unanswered && rest == w.(answers := w.answers[MAX_REQUEST_RETRIES - retries..]))
            && (n < MAX_REQUEST_RETRIES - retries && n < |w.answers| && w.answers[n].Received? ==>
                  && w.answers[n].package.VersionAnswer?
                  && verdict == (if w.answers[n].package.accepted then Accepted else Refused)
                  && rest == w.(answers := w.answers[n + 1..]))
            && (n < MAX_REQUEST_RETRIES - retries && (n == |w.answers| || w.answers[n].Nothing?) ==> verdict == Failed)
    decreases MAX_REQUEST_RETRIES - retries
  {
    if retries < MAX_REQUEST_RETRIES && w.answers != [] && w.answers[0].Received? && !w.answers[0].package.VersionAnswer? {
      AwaitedExactly(w.(answers := w.answers[1..]), retries + 1);
    }
  }

  lemma VerdictExactly(w: Wire)
    requires w.connected
    ensures var (verdict, rest) := Awaited(w, 0);
            && (verdict == Accepted <==> Accepts(w.answers))
            && (verdict == Refused <==> Refuses(w.answers))
            && (verdict == Unanswered <==> Ignores(w.answers))
            && (verdict == Refused ==> rest == w.(answers := w.answers[Unrelated(w.answers) + 1..]))
            && (verdict == Unanswered ==> rest == w.(answers := w.answers[5..]))
  {
    AwaitedExactly(w, 0);
    hide Awaited, Unrelated;
  }

  lemma {:induction false} NegotiatedAtMost(from: nat, w: Wire)
    ensures Negotiated(from, w).0 <= from
  {
    hide Awaited;
    if from > 0 && Written(w).0 {
      NegotiatedAtMost(from - 1, Awaited(Written(w).1, 0).1);
    }
  }

  /** The version last asked for is agreed on exactly if the robot accepts it. */
  lemma AcceptedExactly(v: nat, w: Wire)
    requires v > 0
    ensures Negotiated(v, w).0 == v <==> Agreed(v, v, w)
  {
    var (ok, sent) := Written(w);
    if ok {
      VerdictExactly(sent);
      NegotiatedAtMost(v - 1, Awaited(sent, 0).1);
      hide Awaited, Unrelated, Accepts, Refuses, Ignores;
    }
  }

  /** What negotiating further down from a version above v comes to. */
  lemma NegotiatedBelow(from: nat, v: nat, w: Wire)
    requires 0 < v < from && Written(w).0
    ensures var (verdict, rest) := Awaited(Written(w).1, 0);
            Negotiated(from, w).0 == v <==>
            (verdict == Refused || verdict == Unanswered) && Negotiated(from - 1, rest).0 == v
  {
    hide Awaited, Written;
  }

  lemma AgreedBelow(from: nat, v: nat, w: Wire)
    requires 0 < v < from && Written(w).0
    ensures var (verdict, rest) := Awaited(Written(w).1, 0);
            Agreed(from, v, w) <==> (verdict == Refused || verdict == Unanswered) && Agreed(from - 1, v, rest)
  {
    VerdictExactly(Written(w).1);
    hide Awaited, Unrelated, Accepts, Refuses, Ignores;
  }

  /** The version agreed on is v exactly when the robot accepted v and refused or ignored every higher one. */
  lemma {:induction false} NegotiatedExactly(from: nat, v: nat, w: Wire)
    requires v > 0
    ensures Negotiated(from, w).0 == v <==> Agreed(from, v, w)
  {
    hide Negotiated, Agreed, Awaited, Written;
    if from == v {
      AcceptedExactly(v, w);
    } else if from > v && Written(w).0 {
      NegotiatedBelow(from, v, w);
      AgreedBelow(from, v, w);
      NegotiatedExactly(from - 1, v, Awaited(Written(w).1, 0).1);
    } else {
      NeitherThen(from, v, w);
    }
  }

  lemma NeitherThen(from: nat, v: nat, w: Wire)
    requires v > 0 && (from < v || (from > v && !Written(w).0))
    ensures Negotiated(from, w).0 != v && !Agreed(from, v, w)
  {
    hide Awaited, Unrelated, Accepts, Refuses, Ignores;
    NegotiatedAtMost(from, w);
  }

  // Setting up the outputs

  const NOT_FOUND := "NOT_FOUND"

  /** The variables whose type the robot knows. */
  function Available(recipe: seq<string>, types: seq<string>): seq<string>
    requires |recipe| == |types|
  {
    if recipe == [] then []
    else (if types[0] == NOT_FOUND then [] else [recipe[0]]) + Available(recipe[1..], types[1..])
  }

  ghost predicate Subsequence(a: seq<string>, b: seq<string>) {
    if a == [] then true
    else if b == [] then false
    else (a[0] == b[0] && Subsequence(a[1..], b[1..])) || Subsequence(a, b[1..])
  }

  /** How setting up the outputs ends. Aborted: the assertion that every variable has a type fails. */
  datatype Outputs = Confirmed | NotConfirmed | Reduced(recipe: seq<string>) | Unavailable | Aborted

  function OutputsSetUp(recipe: seq<string>, ignoreUnavailable: bool, w: Wire, retries: nat): (Outputs, Wire)
    requires retries <= MAX_REQUEST_RETRIES
    decreases MAX_REQUEST_RETRIES - retries
  {
    if retries == MAX_REQUEST_RETRIES then (NotConfirmed, w)
    else
      var (ok, sent) := Written(w);
      if !ok then (NotConfirmed, sent)
      else
        var (package, rest) := Got(sent);
        match package
        case None => (NotConfirmed, rest)
        case Some(OutputsAnswer(types)) => (Judged(recipe, Split(types, ","), ignoreUnavailable), rest)
        case Some(_) => OutputsSetUp(recipe, ignoreUnavailable, rest, retries + 1)
  }

  function Judged(recipe: seq<string>, types: seq<string>, ignoreUnavailable: bool): Outputs {
    if |recipe| != |types| then Aborted
    else if |Available(recipe, types)| == |recipe| then Confirmed
    else if ignoreUnavailable then Reduced(Available(recipe, types))
    else Unavailable
  }

  lemma {:induction false} AvailableIsSubsequence(recipe: seq<string>, types: seq<string>)
    requires |recipe| == |types|
    ensures Subsequence(Available(recipe, types), recipe) && |Available(recipe, types)| <= |recipe|
    ensures |Available(recipe, types)| == |recipe| <==> NOT_FOUND !in types
  {
    if recipe != [] {
      AvailableIsSubsequence(recipe[1..], types[1..]);
      var rest := Available(recipe[1..], types[1..]);
      assert ([recipe[0]] + rest)[1..] == rest;
      assert types == [types[0]] + types[1..];
      assert [] + rest == rest;
    }
  }

  /** Exactly the variables stay whose type is not NOT_FOUND, in their order. */
  lemma {:induction false} AvailableExactly(recipe: seq<string>, types: seq<string>) returns (at: seq<nat>)
    requires |recipe| == |types|
    ensures PickedAt(Available(recipe, types), recipe, at)
    ensures forall i: nat :: i in at <==> i < |types| && types[i] != "NOT_FOUND"
  {
    if recipe == [] {
      at := [];
    } else {
      var rest := AvailableExactly(recipe[1..], types[1..]);
      PickedBehind(types[0] != "NOT_FOUND", Available(recipe[1..], types[1..]), recipe, rest);
      at := Behind(types[0] != "NOT_FOUND", rest);
    }
  }

  /** The request number k, from 0, is the first that is answered with types; requests and answers before are lost on it. */
  ghost predicate AnsweredAt(w: Wire, k: nat, types: string) {
    && w.connected && k < 5 && k < |w.sends| && k < |w.answers|
    && (forall i :: 0 <= i <= k ==> w.sends[i])
    && (forall i :: 0 <= i < k ==> w.answers[i].Received? && !w.answers[i].package.OutputsAnswer?)
    && w.answers[k] == Received(OutputsAnswer(types))
  }

  /** One request and its answer. */
  lemma OneRequest(recipe: seq<string>, ignore: bool, w: Wire, retries: nat)
    requires retries < 5
    ensures var o := OutputsSetUp(recipe, ignore, w, retries).0;
            if !(w.connected && w.sends != [] && w.sends[0] && w.answers != [] && w.answers[0].Received?) then
              o == NotConfirmed
            else
              match w.answers[0].package
              case OutputsAnswer(types) => o == Judged(recipe, Split(types, ","), ignore)
              case _ => o == OutputsSetUp(recipe, ignore, Wire(true, w.sends[1..], w.answers[1..]), retries + 1).0
  {
    hide Judged, Split;
  }

  lemma AnsweredLater(w: Wire, k: nat, types: string)
    requires w.connected && w.sends != [] && w.sends[0] && w.answers != [] && w.answers[0].Received?
    requires !w.answers[0].package.OutputsAnswer?
    ensures AnsweredAt(w, k, types) <==> 0 < k < 5 && AnsweredAt(Wire(true, w.sends[1..], w.answers[1..]), k - 1, types)
  {
    var rest := Wire(true, w.sends[1..], w.answers[1..]);
    assert forall i :: 0 < i < |w.sends| ==> w.sends[i] == rest.sends[i - 1];
    assert forall i :: 0 < i < |w.answers| ==> w.answers[i] == rest.answers[i - 1];
  }

  /** Setting up the outputs is decided by the first answer with types among five, and is not confirmed without one. */
  lemma {:induction false} OutputsAnswered(recipe: seq<string>, ignore: bool, w: Wire, retries: nat)
    requires retries <= 5
    ensures var o := OutputsSetUp(recipe, ignore, w, retries).0;
            && (forall k: nat, types: string :: AnsweredAt(w, k, types) && k + retries < 5 ==>
                  o == Judged(recipe, Split(types, ","), ignore))
            && (o == NotConfirmed || exists k: nat, types: string :: AnsweredAt(w, k, types) && k + retries < 5)
    decreases 5 - retries
  {
    if retries < 5 {
      OneRequest(recipe, ignore, w, retries);
      hide Judged, Split, OutputsSetUp;
      if w.connected && w.sends != [] && w.sends[0] && w.answers != [] && w.answers[0].Received? {
        if w.answers[0].package.OutputsAnswer? {
          assert AnsweredAt(w, 0, w.answers[0].package.types);
        } else {
          var rest := Wire(true, w.sends[1..], w.answers[1..]);
          OutputsAnswered(recipe, ignore, rest, retries + 1);
          hide AnsweredAt;
          forall k: nat, types: string ensures AnsweredAt(w, k, types) <==> 0 < k < 5 && AnsweredAt(rest, k - 1, types) {
            AnsweredLater(w, k, types);
          }
          if OutputsSetUp(recipe, ignore, rest, retries + 1).0 != NotConfirmed {
            var k: nat, types :| AnsweredAt(rest, k, types) && k + (retries + 1) < 5;
            assert AnsweredAt(w, k + 1, types);
          }
        }
      }
    }
  }

  /** What the types in the answer decide. */
  lemma JudgedExactly(recipe: seq<string>, types: seq<string>, ignore: bool)
    ensures var o := Judged(recipe, types, ignore);
            && o != NotConfirmed
            && (o == Aborted <==> |recipe| != |types|)
            && (o == Confirmed <==> |recipe| == |types| && "NOT_FOUND" !in types)
            && (o.Reduced? <==> |recipe| == |types| && "NOT_FOUND" in types && ignore)
  {
    if |recipe| == |types| {
      AvailableIsSubsequence(recipe, types);
    }
  }

  /** The recipe is reduced exactly to the variables that the answer has a type for. */
  lemma ReducedExactly(recipe: seq<string>, ignore: bool, w: Wire) returns (k: nat, types: string, at: seq<nat>)
    requires OutputsSetUp(recipe, ignore, w, 0).0.Reduced?
    ensures AnsweredAt(w, k, types) && ignore && |Split(types, ",")| == |recipe|
    ensures PickedAt(OutputsSetUp(recipe, ignore, w, 0).0.recipe, recipe, at) && |at| < |recipe|
    ensures forall i: nat :: i in at <==> i < |recipe| && Split(types, ",")[i] != "NOT_FOUND"
  {
    OutputsAnswered(recipe, ignore, w, 0);
    k, types :| AnsweredAt(w, k, types) && k + 0 < 5;
    var all := Split(types, ",");
    JudgedExactly(recipe, all, ignore);
    AvailableIsSubsequence(recipe, all);
    at := AvailableExactly(recipe, all);
    hide OutputsSetUp, Split, Available, AnsweredAt;
  }

  lemma {:induction false} SubsequenceTransitive(a: seq<string>, b: seq<string>, c: seq<string>)
    requires Subsequence(a, b) && Subsequence(b, c)
    ensures Subsequence(a, c)
    decreases |a| + |b| + |c|
  {
    if a != [] && b != [] && c != [] {
      if b[0] == c[0] && Subsequence(b[1..], c[1..]) {
        if a[0] == b[0] && Subsequence(a[1..], b[1..]) {
          SubsequenceTransitive(a[1..], b[1..], c[1..]);
        } else {
          SubsequenceTransitive(a, b[1..], c[1..]);
        }
      } else {
        SubsequenceTransitive(a, b, c[1..]);
      }
    }
  }

  // One attempt at setting up, and the attempts of init

  datatype ClientState = Uninitialized | Initializing | Initialized | Running | Paused | ConnectionLost

  datatype Client = Client(
    state: ClientState,
    outputRecipe: seq<string>,
    parserRecipe: seq<string>,
    preallocatedRecipe: seq<string>,
    protocolVersion: nat,
    parserVersion: nat,
    connected: bool
  )

  datatype Try = Yes | No | Throws

  datatype Inputs = Reserved | NoInputs | Conflict | BadKey

  /**
   * What happens during one attempt: on the socket while negotiating and (`outputs`) while setting up the outputs, and
   * in the calls not modelled, after which the socket is or is not still connected.
   */
  datatype Attempt = Attempt(
    connects: bool,
    sends: seq<bool>,
    answers: seq<Answer>,
    versionKnown: bool,
    frequencyInRange: bool,
    outputs: Wire,
    booted: Try,
    inputs: Inputs,
    stillConnected: bool
  )

  /** The options the client was made with. */
  datatype Options = Options(ignoreUnavailable: bool, hasInputs: bool)

  datatype SetupResult = Ready | NotReady | Threw | Crashed

  function Disconnected(c: Client): Client {
    c.(state := Uninitialized, connected := c.connected && c.state == Uninitialized)
  }

  function WithRecipe(c: Client, recipe: seq<string>): Client {
    Disconnected(c).(outputRecipe := recipe, parserRecipe := recipe, preallocatedRecipe := recipe, parserVersion := 1)
  }

  function Setup(c: Client, a: Attempt, o: Options): (Client, SetupResult) {
    if c.connected || !a.connects then (c.(state := Uninitialized), Threw)
    else
      var (version, wire) := Negotiated(MAX_RTDE_PROTOCOL_VERSION, Wire(true, a.sends, a.answers));
      var agreed := c.(state := Initializing, protocolVersion := version,
                       parserVersion := if version > 0 then version else 1, connected := wire.connected);
      if version == 0 then (agreed.(state := Uninitialized), NotReady) else Configured(agreed, a, o)
  }

  /** The rest of an attempt, once a version is agreed on. */
  function Configured(c: Client, a: Attempt, o: Options): (Client, SetupResult) {
    var asked := c.(connected := a.outputs.connected);
    if !a.versionKnown then (asked, NotReady)
    else if !a.frequencyInRange then (asked, Threw)
    else
      var (outcome, rest) := OutputsSetUp(c.outputRecipe, o.ignoreUnavailable, a.outputs, 0);
      var answered := c.(connected := rest.connected);
      match outcome
      case NotConfirmed => (answered, NotReady)
      case Reduced(recipe) => (WithRecipe(answered, recipe), NotReady)
      case Unavailable => (answered, Threw)
      case Aborted => (answered, Crashed)
      case Confirmed => (c.(connected := a.stillConnected), Finished(a, o))
  }

  function Finished(a: Attempt, o: Options): SetupResult {
    if a.booted == Throws then Threw
    else if a.booted == No then NotReady
    else if !o.hasInputs || a.inputs == Reserved then Ready
    else if a.inputs == BadKey then Threw
    else NotReady
  }

  /** The result of init, the client after it, and the number of setup attempts it made. */
  function Attempted(c: Client, env: nat -> Attempt, o: Options, made: nat, max: nat): (Client, SetupResult, nat)
    requires made < max
    decreases max - made
  {
    var (after, result) := Setup(c, env(made), o);
    match result
    case Ready => (after.(state := Initialized), Ready, made + 1)
    case NotReady =>
      if made + 1 >= max then (Disconnected(after), Threw, made + 1)
      else Attempted(Disconnected(after), env, o, made + 1, max)
    case _ => (after, result, made + 1)
  }

  /** A call of init: the client after it, whether it returned true (and threw otherwise), and the attempts it made. */
  function InitOf(c: Client, env: nat -> Attempt, o: Options, max: nat): (Client, bool, nat) {
    if max == 0 then (c, false, 0)
    else if c.state != Uninitialized then (c, true, 0)
    else
      var (after, result, made) := Attempted(c, env, o, 0, max);
      (after, result == Ready, made)
  }

  class RTDEClient {
    const options: Options
    var state: ClientState
    var outputRecipe: seq<string>
    var parserRecipe: seq<string>
    var preallocatedRecipe: seq<string>
    var protocolVersion: nat
    var parserVersion: nat
    var wire: Wire

    ghost function Abs(): Client
      reads this
    {
      Client(state, outputRecipe, parserRecipe, preallocatedRecipe, protocolVersion, parserVersion, wire.connected)
    }

    /** A recipe without a timestamp gets one. */
    constructor (recipe: seq<string>, options: Options)
      ensures this.options == options
      ensures Abs() == Client(Uninitialized, outputRecipe, outputRecipe, outputRecipe, 0, 1, false)
      ensures outputRecipe == if "timestamp" in recipe then recipe else recipe + ["timestamp"]
    {
      var full := if "timestamp" in recipe then recipe else recipe + ["timestamp"];
      this.options := options;
      state, protocolVersion, parserVersion := Uninitialized, 0, 1;
      outputRecipe, parserRecipe, preallocatedRecipe := full, full, full;
      wire := Wire(false, [], []);
    }

    method Write() returns (ok: bool)
      modifies this`wire
      ensures (ok, wire) == Written(old(wire))
    {
      if !wire.connected || wire.sends == [] {
        return false;
      }
      ok := wire.sends[0];
      wire := wire.(sends := wire.sends[1..]);
    }

    method TryGet() returns (package: Option<Package>)
      modifies this`wire
      ensures (package, wire) == Got(old(wire))
    {
      if !wire.connected || wire.answers == [] {
        return None;
      }
      var answer := wire.answers[0];
      wire := wire.(answers := wire.answers[1..]);
      match answer
      case Received(p) => package := Some(p);
      case Nothing(lost) =>
        wire := wire.(connected := !lost);
        package := None;
    }

    method NegotiateProtocolVersion() returns (version: nat)
      modifies this`wire, this`parserVersion
      ensures (version, wire) == Negotiated(MAX_RTDE_PROTOCOL_VERSION, old(wire))
      ensures parserVersion == if version > 0 then version else 1
    {
      hide Got, Written;
      version := MAX_RTDE_PROTOCOL_VERSION;
      while version > 0
        invariant Negotiated(MAX_RTDE_PROTOCOL_VERSION, old(wire)) == Negotiated(version, wire)
        invariant version < MAX_RTDE_PROTOCOL_VERSION ==> parserVersion == 1
        decreases version
      {
        parserVersion := 1;
        var sent := Write();
        if !sent {
          return 0;
        }
        var retries := 0;
        label asked:
        while retries < MAX_REQUEST_RETRIES
          invariant retries <= MAX_REQUEST_RETRIES && parserVersion == 1
          invariant Awaited(old@asked(wire), 0) == Awaited(wire, retries)
        {
          var package := TryGet();
          if package.None? {
            return 0;
          }
          if package.value.VersionAnswer? {
            if package.value.accepted {
              parserVersion := version;
              return;
            }
            break;
          }
          retries := retries + 1;
        }
        version := version - 1;
      }
    }

    method Disconnect()
      modifies this`wire, this`state
      ensures Abs() == Disconnected(old(Abs()))
    {
      if state != Uninitialized {
        wire := wire.(connected := false);
      }
      state := Uninitialized;
    }

    method ResetOutputRecipe(recipe: seq<string>)
      modifies this
      ensures Abs() == WithRecipe(old(Abs()), recipe)
    {
      Disconnect();
      outputRecipe := recipe;
      preallocatedRecipe := recipe;
      parserRecipe := recipe;
      parserVersion := 1;
    }

    static method SortVariables(recipe: seq<string>, types: seq<string>) returns (available: seq<string>)
      requires |recipe| == |types|
      ensures available == Available(recipe, types)
    {
      available := [];
      assert recipe[0..] == recipe && types[0..] == types && [] + Available(recipe, types) == Available(recipe, types);
      for i := 0 to |types|
        invariant Available(recipe, types) == available + Available(recipe[i..], types[i..])
      {
        var rest := Available(recipe[i + 1..], types[i + 1..]);
        assert recipe[i..][1..] == recipe[i + 1..] && types[i..][1..] == types[i + 1..];
        if types[i] != NOT_FOUND {
          assert available + ([recipe[i]] + rest) == available + [recipe[i]] + rest;
          available := available + [recipe[i]];
        } else {
          assert [] + rest == rest;
        }
      }
      assert available + [] == available;
    }

    method SetupOutputs() returns (outcome: Outputs)
      modifies this
      ensures var (o, rest) := OutputsSetUp(old(outputRecipe), options.ignoreUnavailable, old(wire), 0);
              var answered := old(Abs()).(connected := rest.connected);
              outcome == o && Abs() == if o.Reduced? then WithRecipe(answered, o.recipe) else answered
    {
      var retries := 0;
      while retries < MAX_REQUEST_RETRIES
        invariant retries <= MAX_REQUEST_RETRIES
        invariant Abs() == old(Abs()).(connected := wire.connected)
        invariant OutputsSetUp(outputRecipe, options.ignoreUnavailable, old(wire), 0) ==
                  OutputsSetUp(outputRecipe, options.ignoreUnavailable, wire, retries)
      {
        var sent := Write();
        if !sent {
          return NotConfirmed;
        }
        var package := TryGet();
        if package.None? {
          return NotConfirmed;
        }
        match package.value
        case OutputsAnswer(variableTypes) =>
          var types := SplitString(variableTypes, ",");
          if |outputRecipe| != |types| {
            return Aborted;
          }
          var available := SortVariables(outputRecipe, types);
          if |available| == |outputRecipe| {
            return Confirmed;
          }
          if !options.ignoreUnavailable {
            return Unavailable;
          }
          ResetOutputRecipe(available);
          return Reduced(available);
        case _ =>
          retries := retries + 1;
      }
      outcome := NotConfirmed;
    }

    method Configure(a: Attempt) returns (result: SetupResult)
      modifies this
      ensures (Abs(), result) == Configured(old(Abs()), a, options)
    {
      hide OutputsSetUp, WithRecipe, Disconnected;
      wire := a.outputs;
      if !a.versionKnown {
        return NotReady;
      }
      if !a.frequencyInRange {
        return Threw;
      }
      var outcome := SetupOutputs();
      match outcome
      case NotConfirmed =>
        result := NotReady;
      case Reduced(_) =>
        result := NotReady;
      case Unavailable =>
        result := Threw;
      case Aborted =>
        result := Crashed;
      case Confirmed =>
        wire := wire.(connected := a.stillConnected);
        result := Finished(a, options);
    }

    method SetupCommunication(a: Attempt) returns (result: SetupResult)
      modifies this
      ensures (Abs(), result) == Setup(old(Abs()), a, options)
    {
      hide Negotiated, Configured;
      state := Uninitialized;
      if wire.connected || !a.connects {
        return Threw;
      }
      wire := Wire(true, a.sends, a.answers);
      state := Initializing;
      protocolVersion := NegotiateProtocolVersion();
      if protocolVersion == 0 {
        state := Uninitialized;
        return NotReady;
      }
      result := Configure(a);
    }

    /** True, or an exception; `attempts` counts the calls of setupCommunication. */
    method Init(env: nat -> Attempt, maxAttempts: nat) returns (result: Result<bool, string>, ghost attempts: nat)
      modifies this
      ensures (Abs(), result == Success(true), attempts) == InitOf(old(Abs()), env, options, maxAttempts)
      ensures result.Success? ==> result.value
    {
      attempts := 0;
      if maxAttempts <= 0 {
        return Failure("The number of initialization attempts has to be greater than 0."), 0;
      }
      if state != Uninitialized {
        return Success(true), 0;
      }
      hide Setup;
      var made := 0;
      while true
        invariant made < maxAttempts
        invariant Attempted(old(Abs()), env, options, 0, maxAttempts) == Attempted(Abs(), env, options, made, maxAttempts)
        decreases maxAttempts - made
      {
        var setup := SetupCommunication(env(made));
        made := made + 1;
        attempts := made;
        match setup
        case Ready =>
          state := Initialized;
          return Success(true), made;
        case NotReady =>
          Disconnect();
          if made >= maxAttempts {
            return Failure("Failed to initialize RTDE client"), made;
          }
        case _ =>
          return Failure("Exception while setting up the communication"), made;
      }
    }
  }

  // What holds of every client, through any attempts

  /** The three recipes agree, and are what is left of the first one. */
  ghost predicate RecipesAgree(c: Client, first: seq<string>) {
    && c.parserRecipe == c.outputRecipe == c.preallocatedRecipe
    && Subsequence(c.outputRecipe, first)
  }

  lemma {:induction false} SubsequenceOfItself(a: seq<string>)
    ensures Subsequence(a, a)
  {
    if a != [] {
      SubsequenceOfItself(a[1..]);
    }
  }

  lemma {:induction false} OutputsShrink(recipe: seq<string>, ignore: bool, w: Wire, retries: nat)
    requires retries <= MAX_REQUEST_RETRIES
    ensures var (o, _) := OutputsSetUp(recipe, ignore, w, retries);
            o.Reduced? ==> ignore && Subsequence(o.recipe, recipe) && |o.recipe| < |recipe|
    decreases MAX_REQUEST_RETRIES - retries
  {
    if retries < MAX_REQUEST_RETRIES && Written(w).0 {
      var (package, rest) := Got(Written(w).1);
      match package
      case Some(OutputsAnswer(types)) =>
        if |Split(types, ",")| == |recipe| {
          AvailableIsSubsequence(recipe, Split(types, ","));
        }
      case Some(_) => OutputsShrink(recipe, ignore, rest, retries + 1);
      case None =>
    }
  }

  /** Once a version is agreed on, the outputs decide about the recipes. */
  lemma ConfiguredKeepsRecipes(c: Client, a: Attempt, o: Options, first: seq<string>)
    requires RecipesAgree(c, first)
    ensures var (d, r) := Configured(c, a, o);
            && RecipesAgree(d, first)
            && (d.outputRecipe == c.outputRecipe || (o.ignoreUnavailable && r == NotReady && |d.outputRecipe| < |c.outputRecipe|))
            && (r == Ready ==> d == c.(connected := d.connected))
  {
    OutputsShrink(c.outputRecipe, o.ignoreUnavailable, a.outputs, 0);
    hide OutputsSetUp, Subsequence;
    var (outcome, _) := OutputsSetUp(c.outputRecipe, o.ignoreUnavailable, a.outputs, 0);
    if outcome.Reduced? {
      SubsequenceTransitive(outcome.recipe, c.outputRecipe, first);
    }
  }

  /**
   * An attempt keeps the recipes in agreement; it changes them only by leaving variables out, only where that was
   * asked for, and not at all when it succeeds. The version agreed on is the parser's too.
   */
  lemma SetupKeepsRecipes(c: Client, a: Attempt, o: Options, first: seq<string>)
    requires RecipesAgree(c, first)
    ensures var (d, r) := Setup(c, a, o);
            && RecipesAgree(d, first)
            && (d.outputRecipe == c.outputRecipe || (o.ignoreUnavailable && r == NotReady && |d.outputRecipe| < |c.outputRecipe|))
            && (r == Ready ==> 0 < d.protocolVersion == d.parserVersion && d.outputRecipe == c.outputRecipe)
            && (r == Ready ==> Agreed(2, d.protocolVersion, Wire(true, a.sends, a.answers)))
  {
    hide Negotiated, Configured, Subsequence, Agreed;
    var (version, wire) := Negotiated(MAX_RTDE_PROTOCOL_VERSION, Wire(true, a.sends, a.answers));
    if !c.connected && a.connects && version > 0 {
      NegotiatedExactly(MAX_RTDE_PROTOCOL_VERSION, version, Wire(true, a.sends, a.answers));
      var agreed := c.(state := Initializing, protocolVersion := version, parserVersion := version,
                       connected := wire.connected);
      ConfiguredKeepsRecipes(agreed, a, o, first);
    }
  }

  /** The outputs are confirmed: the first answer with types, among five, knows every variable. */
  ghost predicate AllKnown(recipe: seq<string>, w: Wire) {
    exists k: nat, types: string :: AnsweredAt(w, k, types) && |Split(types, ",")| == |recipe| && "NOT_FOUND" !in Split(types, ",")
  }

  ghost predicate SomeVersion(a: Attempt) {
    exists v :: 1 <= v <= 2 && Agreed(2, v, Wire(true, a.sends, a.answers))
  }

  /** That answer knows some variables only. */
  ghost predicate SomeUnknown(recipe: seq<string>, w: Wire) {
    exists k: nat, types: string ::
      AnsweredAt(w, k, types) && |Split(types, ",")| == |recipe| && "NOT_FOUND" in Split(types, ",")
  }

  /** That answer is for another number of variables. */
  ghost predicate Miscounted(recipe: seq<string>, w: Wire) {
    exists k: nat, types: string :: AnsweredAt(w, k, types) && |Split(types, ",")| != |recipe|
  }

  lemma OutputsExactly(recipe: seq<string>, ignore: bool, w: Wire)
    ensures var o := OutputsSetUp(recipe, ignore, w, 0).0;
            && (o == Confirmed <==> AllKnown(recipe, w))
            && (o.Reduced? <==> ignore && SomeUnknown(recipe, w))
            && (o == Unavailable <==> !ignore && SomeUnknown(recipe, w))
            && (o == Aborted <==> Miscounted(recipe, w))
  {
    hide OutputsSetUp, Judged, Split, AnsweredAt;
    OutputsAnswered(recipe, ignore, w, 0);
    if k: nat, types: string :| AnsweredAt(w, k, types) {
      AtMostFive(w, k, types);
      assert OutputsSetUp(recipe, ignore, w, 0).0 == Judged(recipe, Split(types, ","), ignore);
      JudgedExactly(recipe, Split(types, ","), ignore);
      forall k': nat, types': string | AnsweredAt(w, k', types') ensures types' == types {
        AnsweredOnce(w, k, types, k', types');
      }
    }
  }

  lemma AnsweredOnce(w: Wire, k: nat, types: string, k': nat, types': string)
    requires AnsweredAt(w, k, types) && AnsweredAt(w, k', types')
    ensures k == k' && types == types'
  {
  }

  lemma AtMostFive(w: Wire, k: nat, types: string)
    requires AnsweredAt(w, k, types)
    ensures k < 5
  {
  }

  /** The attempt gets as far as asking for the outputs. */
  ghost predicate AsksForOutputs(c: Client, a: Attempt) {
    !c.connected && a.connects && SomeVersion(a) && a.versionKnown && a.frequencyInRange
  }

  /** An attempt succeeds exactly if every one of its parts does, and throws exactly in these parts. */
  lemma SetupEndsExactly(c: Client, a: Attempt, o: Options)
    ensures Setup(c, a, o).1 == Ready <==>
            && AsksForOutputs(c, a) && AllKnown(c.outputRecipe, a.outputs)
            && a.booted == Yes && (o.hasInputs ==> a.inputs == Reserved)
    ensures Setup(c, a, o).1 == Threw <==>
            || c.connected || !a.connects || (SomeVersion(a) && a.versionKnown && !a.frequencyInRange)
            || (AsksForOutputs(c, a) && SomeUnknown(c.outputRecipe, a.outputs) && !o.ignoreUnavailable)
            || (AsksForOutputs(c, a) && AllKnown(c.outputRecipe, a.outputs)
                && (a.booted == Throws || (a.booted == Yes && o.hasInputs && a.inputs == BadKey)))
    ensures Setup(c, a, o).1 == Crashed <==> AsksForOutputs(c, a) && Miscounted(c.outputRecipe, a.outputs)
  {
    hide Negotiated, OutputsSetUp, Agreed, AllKnown, SomeUnknown, Miscounted;
    var w := Wire(true, a.sends, a.answers);
    NegotiatedAtMost(2, w);
    NegotiatedExactly(2, 1, w);
    NegotiatedExactly(2, 2, w);
    OutputsExactly(c.outputRecipe, o.ignoreUnavailable, a.outputs);
  }

  /** When an attempt changes the recipe, it is to exactly the variables that the robot has a type for. */
  lemma RecipeChangesExactly(c: Client, a: Attempt, o: Options) returns (k: nat, types: string, at: seq<nat>)
    requires Setup(c, a, o).0.outputRecipe != c.outputRecipe
    ensures AnsweredAt(a.outputs, k, types) && o.ignoreUnavailable && |Split(types, ",")| == |c.outputRecipe|
    ensures PickedAt(Setup(c, a, o).0.outputRecipe, c.outputRecipe, at)
    ensures forall i: nat :: i in at <==> i < |c.outputRecipe| && Split(types, ",")[i] != "NOT_FOUND"
  {
    hide Negotiated, OutputsSetUp, Split, AnsweredAt, PickedAt;
    k, types, at := ReducedExactly(c.outputRecipe, o.ignoreUnavailable, a.outputs);
  }

  /** The client after n attempts that all failed without an exception. */
  function After(c: Client, env: nat -> Attempt, o: Options, n: nat): Client {
    if n == 0 then c else Disconnected(Setup(After(c, env, o, n - 1), env(n - 1), o).0)
  }

  /** No version is agreed on, although the socket stays connected: the robot refuses all, is silent, or sending fails. */
  predicate RefusedButConnected(a: Attempt) {
    var (version, wire) := Negotiated(MAX_RTDE_PROTOCOL_VERSION, Wire(true, a.sends, a.answers));
    version == 0 && wire.connected
  }

  /** After a failed attempt the socket is closed, unless the attempt failed in the negotiation with it connected. */
  lemma LeftConnectedExactly(c: Client, a: Attempt, o: Options)
    requires Setup(c, a, o).1 == NotReady
    ensures Disconnected(Setup(c, a, o).0).connected <==> RefusedButConnected(a)
  {
    hide Negotiated, OutputsSetUp;
  }

  /** And then there is no second try: connecting a connected socket fails, and the next attempt throws. */
  lemma NoRetryOnceRefused(c: Client, env: nat -> Attempt, o: Options, made: nat, max: nat)
    requires made + 1 < max && Setup(c, env(made), o).1 == NotReady && RefusedButConnected(env(made))
    ensures Attempted(c, env, o, made, max).1 == Threw && Attempted(c, env, o, made, max).2 == made + 2
  {
    LeftConnectedExactly(c, env(made), o);
    hide Negotiated, Configured, RefusedButConnected;
    var d := Disconnected(Setup(c, env(made), o).0);
    assert Setup(d, env(made + 1), o).1 == Threw;
    assert Attempted(c, env, o, made, max) == Attempted(d, env, o, made + 1, max);
  }

  /** How the i-th attempt ends if it is made. */
  function Outcome(c: Client, env: nat -> Attempt, o: Options, i: nat): SetupResult {
    Setup(After(c, env, o, i), env(i), o).1
  }

  predicate FailsCleanly(c: Client, env: nat -> Attempt, o: Options, i: nat) {
    Outcome(c, env, o, i) == NotReady && !RefusedButConnected(env(i))
  }

  ghost predicate AllFailCleanly(c: Client, env: nat -> Attempt, o: Options, from: nat, to: int) {
    forall i: nat :: from <= i < to ==> FailsCleanly(c, env, o, i)
  }

  /** What init makes of the client after its last attempt. */
  function Left(after: Client, outcome: SetupResult): Client {
    match outcome
    case Ready => after.(state := Initialized)
    case NotReady => Disconnected(after)
    case _ => after
  }

  ghost predicate StepExplained(c: Client, env: nat -> Attempt, o: Options, made: nat, max: nat)
    requires made < max
  {
    var here := After(c, env, o, made);
    var rest := Attempted(here, env, o, made, max);
    match Outcome(c, env, o, made)
    case NotReady =>
      if made + 1 < max then rest == Attempted(After(c, env, o, made + 1), env, o, made + 1, max)
      else rest == (Left(Setup(here, env(made), o).0, NotReady), Threw, made + 1)
    case r => rest == (Left(Setup(here, env(made), o).0, r), r, made + 1)
  }

  lemma AttemptedStep(c: Client, env: nat -> Attempt, o: Options, made: nat, max: nat)
    requires made < max
    ensures StepExplained(c, env, o, made, max)
  {
    hide Setup;
  }

  ghost predicate Explained(c: Client, env: nat -> Attempt, o: Options, made: nat, max: nat)
    requires made < max
  {
    var (d, r, k) := Attempted(After(c, env, o, made), env, o, made, max);
    && made < k <= max
    && (r == Ready <==> AllFailCleanly(c, env, o, made, k - 1) && Outcome(c, env, o, k - 1) == Ready)
    && d == Left(Setup(After(c, env, o, k - 1), env(k - 1), o).0, Outcome(c, env, o, k - 1))
    && r == (if Outcome(c, env, o, k - 1) == NotReady then Threw else Outcome(c, env, o, k - 1))
  }

  lemma {:induction false} AttemptedFrom(c: Client, env: nat -> Attempt, o: Options, made: nat, max: nat)
    requires made < max
    ensures Explained(c, env, o, made, max)
    decreases max - made
  {
    hide Setup, RefusedButConnected, Attempted, After, Outcome;
    AttemptedStep(c, env, o, made, max);
    if Outcome(c, env, o, made) == NotReady && made + 1 < max {
      AttemptedFrom(c, env, o, made + 1, max);
      if RefusedButConnected(env(made)) {
        RefusedThenThrown(c, env, o, made, max);
      }
    }
  }

  lemma RefusedThenThrown(c: Client, env: nat -> Attempt, o: Options, made: nat, max: nat)
    requires made + 1 < max && Outcome(c, env, o, made) == NotReady && RefusedButConnected(env(made))
    ensures Attempted(After(c, env, o, made), env, o, made, max).1 == Threw
    ensures Attempted(After(c, env, o, made), env, o, made, max).2 == made + 2
  {
    hide Setup, RefusedButConnected, Attempted, After;
    NoRetryOnceRefused(After(c, env, o, made), env, o, made, max);
  }

  /**
   * init makes at least one and at most `max` attempts, and returns true exactly when the last one succeeds and every
   * one before failed without an exception and without being refused on a connection that stays up.
   */
  lemma InitExactly(c: Client, env: nat -> Attempt, o: Options, max: nat)
    requires max > 0
    ensures var (d, r, k) := Attempted(c, env, o, 0, max);
            && 1 <= k <= max
            && (r == Ready <==> AllFailCleanly(c, env, o, 0, k - 1) && Outcome(c, env, o, k - 1) == Ready)
            && r == (if Outcome(c, env, o, k - 1) == NotReady then Threw else Outcome(c, env, o, k - 1))
            && d == Left(Setup(After(c, env, o, k - 1), env(k - 1), o).0, Outcome(c, env, o, k - 1))
  {
    assert After(c, env, o, 0) == c;
    hide Setup, RefusedButConnected, Attempted, Outcome, AllFailCleanly;
    AttemptedFrom(c, env, o, 0, max);
  }

  /** How many of the first n attempts changed the recipe. */
  function Resets(c: Client, env: nat -> Attempt, o: Options, n: nat): nat {
    if n == 0 then 0
    else
      var before := After(c, env, o, n - 1);
      Resets(c, env, o, n - 1) + (if Setup(before, env(n - 1), o).0.outputRecipe != before.outputRecipe then 1 else 0)
  }

  lemma SetupShrinks(c: Client, a: Attempt, o: Options, first: seq<string>)
    requires RecipesAgree(c, first)
    ensures var d := Disconnected(Setup(c, a, o).0);
            RecipesAgree(d, first) && |d.outputRecipe| + (if d.outputRecipe != c.outputRecipe then 1 else 0) <= |c.outputRecipe|
  {
    SetupKeepsRecipes(c, a, o, first);
    hide Setup, Subsequence;
  }

  ghost predicate Shrunk(c: Client, env: nat -> Attempt, o: Options, n: nat, first: seq<string>) {
    && RecipesAgree(After(c, env, o, n), first)
    && |After(c, env, o, n).outputRecipe| + Resets(c, env, o, n) <= |c.outputRecipe|
  }

  /** Through any attempts the recipes agree and only get shorter: by at least one variable each time they change. */
  lemma {:induction false} RecipesThroughAttempts(c: Client, env: nat -> Attempt, o: Options, n: nat, first: seq<string>)
    requires RecipesAgree(c, first)
    ensures Shrunk(c, env, o, n, first)
  {
    hide Setup, RecipesAgree;
    if n > 0 {
      RecipesThroughAttempts(c, env, o, n - 1, first);
      SetupShrinks(After(c, env, o, n - 1), env(n - 1), o, first);
    }
  }

  /** The attempt connects, a version is agreed on, and after that something throws, or an assertion fails. */
  predicate BreaksOffAgreed(c: Client, a: Attempt, o: Options) {
    && !c.connected && a.connects
    && Negotiated(MAX_RTDE_PROTOCOL_VERSION, Wire(true, a.sends, a.answers)).0 > 0
    && (Setup(c, a, o).1 == Threw || Setup(c, a, o).1 == Crashed)
  }

  lemma LeftUninitialized(c: Client, a: Attempt, o: Options)
    requires Setup(c, a, o).1 != Ready
    ensures Left(Setup(c, a, o).0, Setup(c, a, o).1).state != Uninitialized <==> BreaksOffAgreed(c, a, o)
  {
    hide Negotiated, OutputsSetUp;
  }

  /**
   * A second init returns true without setting anything up after a first one that failed, if and only if the last
   * attempt of the first broke off once a version was agreed on: the exception leaves the state as it is.
   */
  lemma SecondInitExactly(c: Client, first: nat -> Attempt, second: nat -> Attempt, o: Options, max: nat, again: nat)
    requires c.state == Uninitialized && max > 0 && again > 0 && !InitOf(c, first, o, max).1
    ensures var (d, _, k) := InitOf(c, first, o, max);
            var (e, success, made) := InitOf(d, second, o, again);
            && 1 <= k <= max
            && (d.state != Uninitialized <==> BreaksOffAgreed(After(c, first, o, k - 1), first(k - 1), o))
            && (success && made == 0 && e == d <==> d.state != Uninitialized)
  {
    hide Setup, Negotiated, Attempted, After, AllFailCleanly, BreaksOffAgreed, Left, RefusedButConnected;
    InitExactly(c, first, o, max);
    var (d, _, k) := InitOf(c, first, o, max);
    NoAttemptExactly(d, second, o, again);
    LeftUninitialized(After(c, first, o, k - 1), first(k - 1), o);
  }

  lemma NoAttemptExactly(c: Client, env: nat -> Attempt, o: Options, max: nat)
    requires max > 0
    ensures InitOf(c, env, o, max) == (c, true, 0) <==> c.state != Uninitialized
  {
    InitExactly(c, env, o, max);
    hide Setup, Attempted, AllFailCleanly, Left;
  }

  /** An example: the robot reports a largest frequency that is below the one asked for. */
  lemma ThrowLeavesInitializing(c: Client, env: nat -> Attempt, second: nat -> Attempt, o: Options)
    requires c.state == Uninitialized && !c.connected
    requires env(0).connects && env(0).versionKnown && !env(0).frequencyInRange
    requires Negotiated(MAX_RTDE_PROTOCOL_VERSION, Wire(true, env(0).sends, env(0).answers)).0 > 0
    ensures var (d, success, _) := InitOf(c, env, o, 1);
            !success && d.state == Initializing && InitOf(d, second, o, 1) == (d, true, 0)
  {
    hide Negotiated, OutputsSetUp;
  }
}
