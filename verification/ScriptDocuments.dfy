/** What a well-nested template means, and that the line machine of ScriptConditionals computes it. */
module ScriptDocuments {
  import opened Wrappers
  import opened ScriptConditionals
  import Strings

  datatype Document = Empty | Then(item: Item, rest: Document)

  datatype Item = Plain(text: string) | Block(condition: string, body: Document, more: Branches)

  /** What follows the first branch of a block, up to its endif. */
  datatype Branches = Close | ElifBranch(condition: string, body: Document, more: Branches) | ElseBranch(body: Document, strays: Strays)

  /** Further elif and else lines behind an else: the machine takes them as part of the else branch. */
  datatype Strays = NoStray | Stray(marker: Line, body: Document, more: Strays)

  // The meaning of a document.

  predicate Holds(condition: string, eval: Evaluator) {
    eval(condition) == Some(true)
  }

  /** At most one branch of a block is rendered: the first whose condition holds, else the else branch. */
  function Rendered(d: Document, eval: Evaluator): seq<string> {
    match d
    case Empty => []
    case Then(Plain(text), rest) => [text] + Rendered(rest, eval)
    case Then(Block(c, body, more), rest) =>
      (if Holds(c, eval) then Rendered(body, eval) else RenderedBranches(more, eval)) + Rendered(rest, eval)
  }

  function RenderedBranches(b: Branches, eval: Evaluator): seq<string> {
    match b
    case Close => []
    case ElifBranch(c, body, more) => if Holds(c, eval) then Rendered(body, eval) else RenderedBranches(more, eval)
    case ElseBranch(body, strays) => Rendered(body, eval) + RenderedStrays(strays, eval)
  }

  function RenderedStrays(s: Strays, eval: Evaluator): seq<string> {
    match s
    case NoStray => []
    case Stray(_, body, more) => Rendered(body, eval) + RenderedStrays(more, eval)
  }

  /** Every condition of the document, in dead branches too; not those of elif lines behind an else. */
  function Conditions(d: Document): set<string> {
    match d
    case Empty => {}
    case Then(Plain(_), rest) => Conditions(rest)
    case Then(Block(c, body, more), rest) => {c} + Conditions(body) + BranchConditions(more) + Conditions(rest)
  }

  function BranchConditions(b: Branches): set<string> {
    match b
    case Close => {}
    case ElifBranch(c, body, more) => {c} + Conditions(body) + BranchConditions(more)
    case ElseBranch(body, strays) => Conditions(body) + StrayConditions(strays)
  }

  function StrayConditions(s: Strays): set<string> {
    match s
    case NoStray => {}
    case Stray(_, body, more) => Conditions(body) + StrayConditions(more)
  }

  predicate Evaluable(conditions: set<string>, eval: Evaluator) {
    forall c :: c in conditions ==> eval(c).Some?
  }

  // The lines of a document.

  predicate StraysMarked(s: Strays) {
    s.Stray? ==> (s.marker.Elif? || s.marker.Else?) && StraysMarked(s.more) && Marked(s.body)
  }

  predicate BranchesMarked(b: Branches) {
    match b
    case Close => true
    case ElifBranch(_, body, more) => Marked(body) && BranchesMarked(more)
    case ElseBranch(body, strays) => Marked(body) && StraysMarked(strays)
  }

  predicate Marked(d: Document) {
    match d
    case Empty => true
    case Then(Plain(_), rest) => Marked(rest)
    case Then(Block(_, body, more), rest) => Marked(body) && BranchesMarked(more) && Marked(rest)
  }

  function Flat(d: Document): seq<Line> {
    match d
    case Empty => []
    case Then(Plain(text), rest) => [Text(text)] + Flat(rest)
    case Then(Block(c, body, more), rest) => [If(c)] + (Flat(body) + (FlatBranches(more) + Flat(rest)))
  }

  function FlatBranches(b: Branches): seq<Line> {
    match b
    case Close => [Endif]
    case ElifBranch(c, body, more) => [Elif(c)] + (Flat(body) + FlatBranches(more))
    case ElseBranch(body, strays) => [Else] + (Flat(body) + FlatStrays(strays))
  }

  function FlatStrays(s: Strays): seq<Line> {
    match s
    case NoStray => [Endif]
    case Stray(marker, body, more) => [marker] + (Flat(body) + FlatStrays(more))
  }

  // The machine on the lines of a document.

  /** The machine writes `texts` and then goes on with `rest`, or throws if a condition cannot be evaluated. */
  function Outcome(conditions: set<string>, texts: seq<string>, rest: Option<seq<string>>, eval: Evaluator):
    Option<seq<string>>
  {
    if Evaluable(conditions, eval) then Prepend(texts, rest) else None
  }

  lemma OutcomeTwice(c1: set<string>, t1: seq<string>, c2: set<string>, t2: seq<string>,
                     rest: Option<seq<string>>, eval: Evaluator)
    ensures Outcome(c1, t1, Outcome(c2, t2, rest, eval), eval) == Outcome(c1 + c2, t1 + t2, rest, eval)
  {
    if rest.Some? {
      assert t1 + (t2 + rest.value) == t1 + t2 + rest.value;
    }
    if Evaluable(c1 + c2, eval) {
      assert forall c :: c in c1 ==> c in c1 + c2;
      assert forall c :: c in c2 ==> c in c1 + c2;
    }
  }

  lemma RunLine(line: Line, rest: seq<Line>, stack: Stack, eval: Evaluator)
    ensures Run([line] + rest, stack, eval) ==
            match Step(line, stack, eval)
            case None => None
            case Some(after) => Prepend(if line.Text? && IsLive(stack) then [line.text] else [], Run(rest, after, eval))
  {
    assert ([line] + rest)[1..] == rest;
  }

  /** What a part of the template contributes where the machine is rendering, and where it is not. */
  function Shown(live: bool, texts: seq<string>): seq<string> {
    if live then texts else []
  }

  lemma {:induction false} RunDocument(d: Document, rest: seq<Line>, stack: Stack, eval: Evaluator)
    requires Marked(d)
    ensures Run(Flat(d) + rest, stack, eval)
         == Outcome(Conditions(d), Shown(IsLive(stack), Rendered(d, eval)), Run(rest, stack, eval), eval)
    decreases d
  {
    hide Run, Outcome;
    var live := IsLive(stack);
    match d
    case Empty =>
      assert Flat(d) + rest == rest;
      NoOutcome(Run(rest, stack, eval), eval);
    case Then(Plain(text), more) =>
      assert Flat(d) + rest == [Text(text)] + (Flat(more) + rest);
      RunLine(Text(text), Flat(more) + rest, stack, eval);
      RunDocument(more, rest, stack, eval);
      UnconditionalOutcome(Shown(live, [text]), Run(Flat(more) + rest, stack, eval), eval);
      StrayOutcome({}, Conditions(more), live, [text], Rendered(more, eval), Run(rest, stack, eval), eval);
      assert {} + Conditions(more) == Conditions(d);
    case Then(Block(c, body, branches), more) =>
      var tail := Flat(more) + rest;
      assert Flat(d) + rest == [If(c)] + (Flat(body) + (FlatBranches(branches) + tail));
      RunLine(If(c), Flat(body) + (FlatBranches(branches) + tail), stack, eval);
      if eval(c).Some? {
        var b := eval(c).value;
        var top := BlockState(IF, b, live && b, live);
        RunDocument(body, FlatBranches(branches) + tail, [top] + stack, eval);
        RunBranches(branches, tail, top, stack, eval);
        RunDocument(more, rest, stack, eval);
        PrependNothing(Run(Flat(body) + (FlatBranches(branches) + tail), [top] + stack, eval));
      }
      ConditionOutcome(c,
        Outcome(Conditions(body), Shown(live && Holds(c, eval), Rendered(body, eval)),
                Outcome(BranchConditions(branches), Shown(live && !Holds(c, eval), RenderedBranches(branches, eval)),
                        Outcome(Conditions(more), Shown(live, Rendered(more, eval)), Run(rest, stack, eval), eval),
                        eval), eval), eval);
      BlockOutcome({c}, Conditions(body), BranchConditions(branches), Conditions(more), live, Holds(c, eval),
                   Rendered(body, eval), RenderedBranches(branches, eval), Rendered(more, eval),
                   Run(rest, stack, eval), eval);
  }

  /** A branch that is taken, or not, in front of the other branches and the rest. */
  lemma BlockOutcome(c0: set<string>, c1: set<string>, c2: set<string>, c3: set<string>, live: bool, b: bool,
                     t1: seq<string>, t2: seq<string>, t3: seq<string>, rest: Option<seq<string>>, eval: Evaluator)
    ensures Outcome(c0, [],
              Outcome(c1, Shown(live && b, t1), Outcome(c2, Shown(live && !b, t2), Outcome(c3, Shown(live, t3), rest, eval), eval), eval),
              eval)
            == Outcome(c0 + c1 + c2 + c3, Shown(live, (if b then t1 else t2) + t3), rest, eval)
  {
    hide Outcome;
    var (u1, u2, u3) := (Shown(live && b, t1), Shown(live && !b, t2), Shown(live, t3));
    OutcomeTwice(c2, u2, c3, u3, rest, eval);
    OutcomeTwice(c1, u1, c2 + c3, u2 + u3, rest, eval);
    OutcomeTwice(c0, [], c1 + (c2 + c3), u1 + (u2 + u3), rest, eval);
    assert c0 + (c1 + (c2 + c3)) == c0 + c1 + c2 + c3;
    assert [] + (u1 + (u2 + u3)) == Shown(live, (if b then t1 else t2) + t3);
  }

  lemma UnconditionalOutcome(texts: seq<string>, r: Option<seq<string>>, eval: Evaluator)
    ensures Outcome({}, texts, r, eval) == Prepend(texts, r)
  {
  }

  lemma ConditionOutcome(c: string, r: Option<seq<string>>, eval: Evaluator)
    ensures Outcome({c}, [], r, eval) == if eval(c).Some? then r else None
  {
    assert c in {c};
    PrependNothing(r);
  }

  lemma NoOutcome(r: Option<seq<string>>, eval: Evaluator)
    ensures Outcome({}, [], r, eval) == r
  {
    PrependNothing(r);
  }

  lemma {:induction false} RunBranches(b: Branches, rest: seq<Line>, top: BlockState, below: Stack, eval: Evaluator)
    requires BranchesMarked(b) && top.kind != ELSE && top.parentRender == IsLive(below)
    ensures Run(FlatBranches(b) + rest, [top] + below, eval)
         == Outcome(BranchConditions(b), Shown(IsLive(below) && !top.conditionMatched, RenderedBranches(b, eval)),
                    Run(rest, below, eval), eval)
    decreases b
  {
    hide Run, Outcome;
    var live := IsLive(below) && !top.conditionMatched;
    match b
    case Close =>
      RunLine(Endif, rest, [top] + below, eval);
      PrependNothing(Run(rest, below, eval));
      NoOutcome(Run(rest, below, eval), eval);
    case ElifBranch(c, body, more) =>
      assert FlatBranches(b) + rest == [Elif(c)] + (Flat(body) + (FlatBranches(more) + rest));
      RunLine(Elif(c), Flat(body) + (FlatBranches(more) + rest), [top] + below, eval);
      if eval(c).Some? {
        var first := !top.conditionMatched && eval(c).value;
        var next := BlockState(ELIF, top.conditionMatched || first, first && top.parentRender, top.parentRender);
        RunDocument(body, FlatBranches(more) + rest, [next] + below, eval);
        RunBranches(more, rest, next, below, eval);
        PrependNothing(Run(Flat(body) + (FlatBranches(more) + rest), [next] + below, eval));
        assert ([next] + below)[1..] == below && ([top] + below)[1..] == below;
        assert Run(FlatBranches(b) + rest, [top] + below, eval)
            == Run(Flat(body) + (FlatBranches(more) + rest), [next] + below, eval);
      }
      ConditionOutcome(c,
        Outcome(Conditions(body), Shown(live && Holds(c, eval), Rendered(body, eval)),
                Outcome(BranchConditions(more), Shown(live && !Holds(c, eval), RenderedBranches(more, eval)),
                        Run(rest, below, eval), eval), eval), eval);
      BranchOutcome({c}, Conditions(body), BranchConditions(more), live, Holds(c, eval), Rendered(body, eval),
                    RenderedBranches(more, eval), Run(rest, below, eval), eval);
    case ElseBranch(body, strays) =>
      assert FlatBranches(b) + rest == [Else] + (Flat(body) + (FlatStrays(strays) + rest));
      RunLine(Else, Flat(body) + (FlatStrays(strays) + rest), [top] + below, eval);
      var next := top.(kind := ELSE, shouldRender := live);
      PrependNothing(Run(Flat(body) + (FlatStrays(strays) + rest), [next] + below, eval));
      RunDocument(body, FlatStrays(strays) + rest, [next] + below, eval);
      RunStrays(strays, rest, next, below, eval);
      StrayOutcome(Conditions(body), StrayConditions(strays), live, Rendered(body, eval),
                   RenderedStrays(strays, eval), Run(rest, below, eval), eval);
  }

  lemma BranchOutcome(c0: set<string>, c1: set<string>, c2: set<string>, live: bool, b: bool,
                      t1: seq<string>, t2: seq<string>, rest: Option<seq<string>>, eval: Evaluator)
    ensures Outcome(c0, [], Outcome(c1, Shown(live && b, t1), Outcome(c2, Shown(live && !b, t2), rest, eval), eval), eval)
            == Outcome(c0 + c1 + c2, Shown(live, if b then t1 else t2), rest, eval)
  {
    BlockOutcome(c0, c1, c2, {}, live, b, t1, t2, [], rest, eval);
    hide Outcome;
    NoOutcome(rest, eval);
    assert c0 + c1 + c2 + {} == c0 + c1 + c2;
    assert (if b then t1 else t2) + [] == if b then t1 else t2;
  }

  lemma StrayOutcome(c1: set<string>, c2: set<string>, live: bool, t1: seq<string>, t2: seq<string>,
                     rest: Option<seq<string>>, eval: Evaluator)
    ensures Outcome(c1, Shown(live, t1), Outcome(c2, Shown(live, t2), rest, eval), eval)
            == Outcome(c1 + c2, Shown(live, t1 + t2), rest, eval)
  {
    hide Outcome;
    OutcomeTwice(c1, Shown(live, t1), c2, Shown(live, t2), rest, eval);
    assert Shown(live, t1) + Shown(live, t2) == Shown(live, t1 + t2);
  }

  lemma {:induction false} RunStrays(s: Strays, rest: seq<Line>, top: BlockState, below: Stack, eval: Evaluator)
    requires StraysMarked(s) && top.kind == ELSE && top.shouldRender == (top.parentRender && !top.conditionMatched)
    ensures Run(FlatStrays(s) + rest, [top] + below, eval)
         == Outcome(StrayConditions(s), Shown(top.shouldRender, RenderedStrays(s, eval)), Run(rest, below, eval), eval)
    decreases s
  {
    hide Run, Outcome;
    match s
    case NoStray =>
      RunLine(Endif, rest, [top] + below, eval);
      PrependNothing(Run(rest, below, eval));
      NoOutcome(Run(rest, below, eval), eval);
    case Stray(marker, body, more) =>
      var tail := Flat(body) + (FlatStrays(more) + rest);
      assert FlatStrays(s) + rest == [marker] + tail;
      RunLine(marker, tail, [top] + below, eval);
      PrependNothing(Run(tail, [top] + below, eval));
      RunDocument(body, FlatStrays(more) + rest, [top] + below, eval);
      RunStrays(more, rest, top, below, eval);
      StrayOutcome(Conditions(body), StrayConditions(more), top.shouldRender, Rendered(body, eval),
                   RenderedStrays(more, eval), Run(rest, below, eval), eval);
  }

  /**
   * On the lines of any well-nested template the machine writes exactly what the template means, and it throws
   * exactly when some condition anywhere in it, dead branches included, cannot be evaluated.
   */
  lemma MachineRendersDocument(d: Document, scriptCode: string, classify: string -> Line, eval: Evaluator)
    requires Marked(d) && Classified(GetLines(scriptCode), classify) == Flat(d)
    ensures Run(Classified(GetLines(scriptCode), classify), [], eval)
         == if Evaluable(Conditions(d), eval) then Some(Rendered(d, eval)) else None
  {
    RunDocument(d, [], [], eval);
    assert Flat(d) + [] == Flat(d) && Rendered(d, eval) + [] == Rendered(d, eval);
  }

  // Which templates are well nested: those whose blocks balance.

  /** Behind `depth` open blocks: every branch line and endif has a block to belong to, and every block is closed. */
  predicate Balanced(lines: seq<Line>, depth: nat) {
    if lines == [] then depth == 0
    else
      match lines[0]
      case Text(_) => Balanced(lines[1..], depth)
      case If(_) => Balanced(lines[1..], depth + 1)
      case Elif(_) => depth > 0 && Balanced(lines[1..], depth)
      case Else => depth > 0 && Balanced(lines[1..], depth)
      case Endif => depth > 0 && Balanced(lines[1..], depth - 1)
  }

  predicate StartsBranch(lines: seq<Line>) {
    lines != [] && (lines[0].Elif? || lines[0].Else? || lines[0].Endif?)
  }

  lemma BalancedStep(lines: seq<Line>, depth: nat)
    requires Balanced(lines, depth) && lines != []
    ensures match lines[0]
            case Text(_) => Balanced(lines[1..], depth)
            case If(_) => Balanced(lines[1..], depth + 1)
            case Endif => depth > 0 && Balanced(lines[1..], depth - 1)
            case _ => depth > 0 && Balanced(lines[1..], depth)
  {
  }

  lemma FlatBlock(c: string, body: Document, branches: Branches, more: Document, rest: seq<Line>)
    ensures Flat(Then(Block(c, body, branches), more)) + rest ==
            [If(c)] + (Flat(body) + (FlatBranches(branches) + (Flat(more) + rest)))
  {
    hide FlatBranches;
  }

  lemma FlatElif(c: string, body: Document, more: Branches, rest: seq<Line>)
    ensures FlatBranches(ElifBranch(c, body, more)) + rest == [Elif(c)] + (Flat(body) + (FlatBranches(more) + rest))
  {
    hide Flat;
  }

  lemma FlatElse(body: Document, strays: Strays, rest: seq<Line>)
    ensures FlatBranches(ElseBranch(body, strays)) + rest == [Else] + (Flat(body) + (FlatStrays(strays) + rest))
  {
    hide Flat, FlatStrays;
  }

  lemma FlatStray(marker: Line, body: Document, more: Strays, rest: seq<Line>)
    ensures FlatStrays(Stray(marker, body, more)) + rest == [marker] + (Flat(body) + (FlatStrays(more) + rest))
  {
    hide Flat;
  }

  lemma {:induction false} ParseDocument(lines: seq<Line>, depth: nat) returns (d: Document, rest: seq<Line>)
    requires Balanced(lines, depth)
    ensures Marked(d) && lines == Flat(d) + rest && Balanced(rest, depth)
    ensures if depth == 0 then rest == [] else StartsBranch(rest)
    ensures |rest| <= |lines|
    decreases |lines|, 1
  {
    if lines == [] || StartsBranch(lines) {
      return Empty, lines;
    }
    BalancedStep(lines, depth);
    hide Balanced;
    match lines[0]
    case Text(text) =>
      var more;
      more, rest := ParseDocument(lines[1..], depth);
      d := Then(Plain(text), more);
      assert lines == [lines[0]] + (Flat(more) + rest);
    case If(c) =>
      var body, behindBody := ParseDocument(lines[1..], depth + 1);
      var branches, behindBlock := ParseBranches(behindBody, depth + 1);
      var more;
      more, rest := ParseDocument(behindBlock, depth);
      d := Then(Block(c, body, branches), more);
      FlatBlock(c, body, branches, more, rest);
      hide Flat, FlatBranches;
      assert lines == [If(c)] + lines[1..];
  }

  lemma {:induction false} ParseBranches(lines: seq<Line>, depth: nat) returns (b: Branches, rest: seq<Line>)
    requires depth > 0 && Balanced(lines, depth) && StartsBranch(lines)
    ensures BranchesMarked(b) && lines == FlatBranches(b) + rest && Balanced(rest, depth - 1)
    ensures |rest| < |lines|
    decreases |lines|, 0
  {
    BalancedStep(lines, depth);
    hide Balanced;
    match lines[0]
    case Endif =>
      b, rest := Close, lines[1..];
    case Elif(c) =>
      var body, behind := ParseDocument(lines[1..], depth);
      var more;
      more, rest := ParseBranches(behind, depth);
      b := ElifBranch(c, body, more);
      FlatElif(c, body, more, rest);
      hide Flat, FlatBranches;
      assert lines == [Elif(c)] + lines[1..];
    case Else =>
      var body, behind := ParseDocument(lines[1..], depth);
      var strays;
      strays, rest := ParseStrays(behind, depth);
      b := ElseBranch(body, strays);
      FlatElse(body, strays, rest);
      hide Flat, FlatBranches, FlatStrays;
      assert lines == [Else] + lines[1..];
  }

  lemma {:induction false} ParseStrays(lines: seq<Line>, depth: nat) returns (s: Strays, rest: seq<Line>)
    requires depth > 0 && Balanced(lines, depth) && StartsBranch(lines)
    ensures StraysMarked(s) && lines == FlatStrays(s) + rest && Balanced(rest, depth - 1)
    ensures |rest| < |lines|
    decreases |lines|, 0
  {
    BalancedStep(lines, depth);
    hide Balanced;
    if lines[0].Endif? {
      s, rest := NoStray, lines[1..];
    } else {
      var body, behind := ParseDocument(lines[1..], depth);
      var more;
      more, rest := ParseStrays(behind, depth);
      s := Stray(lines[0], body, more);
      FlatStray(lines[0], body, more, rest);
      hide Flat, FlatStrays;
      assert lines == [lines[0]] + lines[1..];
    }
  }

  /**
   * Every balanced template, however deeply nested, has a meaning, and the machine writes it; it throws exactly when
   * some condition anywhere in the template, dead branches included, cannot be evaluated.
   */
  lemma MachineRendersBalanced(scriptCode: string, classify: string -> Line, eval: Evaluator) returns (d: Document)
    requires Balanced(Classified(GetLines(scriptCode), classify), 0)
    ensures Marked(d) && Flat(d) == Classified(GetLines(scriptCode), classify)
    ensures Run(Classified(GetLines(scriptCode), classify), [], eval)
         == if Evaluable(Conditions(d), eval) then Some(Rendered(d, eval)) else None
  {
    var lines := Classified(GetLines(scriptCode), classify);
    var rest;
    d, rest := ParseDocument(lines, 0);
    assert Flat(d) + [] == Flat(d);
    MachineRendersDocument(d, scriptCode, classify, eval);
  }

  // Lines of any kind, nested well or not.

  /** Every open block knows whether the block around it is rendered, and is rendered only if that is. */
  predicate ParentsKnown(stack: Stack) {
    stack == [] || (stack[0].parentRender == IsLive(stack[1..])
                    && (stack[0].shouldRender ==> stack[0].parentRender) && ParentsKnown(stack[1..]))
  }

  function StackAfter(lines: seq<Line>, eval: Evaluator): Option<Stack> {
    if lines == [] then Some([])
    else
      match StackAfter(lines[..|lines| - 1], eval)
      case None => None
      case Some(stack) => Step(lines[|lines| - 1], stack, eval)
  }

  lemma StepKeepsParents(line: Line, stack: Stack, eval: Evaluator)
    requires ParentsKnown(stack) && Step(line, stack, eval).Some?
    ensures ParentsKnown(Step(line, stack, eval).value)
  {
    var after := Step(line, stack, eval).value;
    if line.If? {
      assert after[1..] == stack;
    } else if stack != [] && |after| == |stack| {
      assert after[1..] == stack[1..];
    }
  }

  /** In front of every line, what is inside a block that is not rendered is not rendered either. */
  lemma {:induction false} ParentsAlwaysKnown(lines: seq<Line>, eval: Evaluator)
    ensures StackAfter(lines, eval).Some? ==> ParentsKnown(StackAfter(lines, eval).value)
  {
    if lines != [] && StackAfter(lines, eval).Some? {
      ParentsAlwaysKnown(lines[..|lines| - 1], eval);
      StepKeepsParents(lines[|lines| - 1], StackAfter(lines[..|lines| - 1], eval).value, eval);
    }
  }

  // Templates that do not balance mean what they mean once repaired.

  function Endifs(n: nat): seq<Line> {
    if n == 0 then [] else [Endif] + Endifs(n - 1)
  }

  /** Branch lines and endifs that belong to no block are left out; blocks still open at the end are closed. */
  function Repaired(lines: seq<Line>, depth: nat): seq<Line> {
    if lines == [] then Endifs(depth)
    else
      match lines[0]
      case Text(_) => [lines[0]] + Repaired(lines[1..], depth)
      case If(_) => [lines[0]] + Repaired(lines[1..], depth + 1)
      case Endif => if depth == 0 then Repaired(lines[1..], 0) else [Endif] + Repaired(lines[1..], depth - 1)
      case _ => if depth == 0 then Repaired(lines[1..], 0) else [lines[0]] + Repaired(lines[1..], depth)
  }

  lemma {:induction false} RepairedBalances(lines: seq<Line>, depth: nat)
    ensures Balanced(Repaired(lines, depth), depth)
  {
    if lines == [] {
      if depth > 0 {
        RepairedBalances([], depth - 1);
        assert Endifs(depth)[1..] == Endifs(depth - 1);
      }
    } else {
      var (line, rest) := (lines[0], lines[1..]);
      var next := if line.If? then depth + 1 else if line.Endif? && depth > 0 then depth - 1 else depth;
      RepairedBalances(rest, next);
      assert ([line] + Repaired(rest, next))[1..] == Repaired(rest, next);
    }
  }

  /** A balanced template needs no repair. */
  lemma {:induction false} BalancedIsRepaired(lines: seq<Line>, depth: nat)
    requires Balanced(lines, depth)
    ensures Repaired(lines, depth) == lines
  {
    if lines != [] {
      var (line, rest) := (lines[0], lines[1..]);
      BalancedIsRepaired(rest, if line.If? then depth + 1 else if line.Endif? then depth - 1 else depth);
    }
  }

  lemma {:induction false} RunEndifs(stack: Stack, eval: Evaluator)
    ensures Run(Endifs(|stack|), stack, eval) == Some([])
  {
    hide Run;
    if stack == [] {
      RunNothing(stack, eval);
    } else {
      RunLine(Endif, Endifs(|stack| - 1), stack, eval);
      RunEndifs(stack[1..], eval);
      PrependNothing(Some([]));
    }
  }

  lemma RunNothing(stack: Stack, eval: Evaluator)
    ensures Run([], stack, eval) == Some([])
  {
  }

  /** The machine writes the same with and without the repair. */
  lemma {:induction false} RunRepaired(lines: seq<Line>, stack: Stack, eval: Evaluator)
    ensures Run(Repaired(lines, |stack|), stack, eval) == Run(lines, stack, eval)
  {
    hide Run;
    if lines == [] {
      RunEndifs(stack, eval);
      RunNothing(stack, eval);
    } else {
      var (line, rest) := (lines[0], lines[1..]);
      assert lines == [line] + rest;
      RunLine(line, rest, stack, eval);
      var after := Step(line, stack, eval);
      if after.Some? {
        RunRepaired(rest, after.value, eval);
        PrependNothing(Run(rest, after.value, eval));
      }
      if stack != [] || line.Text? || line.If? {
        var depth := if line.If? then |stack| + 1 else if line.Endif? then |stack| - 1 else |stack|;
        assert after.Some? ==> |after.value| == depth;
        RunLine(line, Repaired(rest, depth), stack, eval);
      }
    }
  }

  // The text that is returned

  /** The lines read are the pieces between newlines, without an empty one at the end. */
  lemma {:induction false} GetLinesAreSplit(s: string)
    ensures Strings.Split(s, "\n") == GetLines(s) + (if s == "" || s[|s| - 1] == '\n' then [""] else [])
    decreases |s|
  {
    hide GetLines, Strings.Find, Strings.Split;
    var i := Strings.Find(s, "\n", 0);
    Strings.SplitStep(s, "\n");
    GetLinesStep(s);
    NewlineFound(s);
    if i != -1 {
      GetLinesAreSplit(s[i + 1..]);
    }
  }

  lemma NewlineFound(s: string)
    ensures var i := Strings.Find(s, "\n", 0);
            if i == -1 then '\n' !in s
            else i < |s| && s[i] == '\n' && (s[i + 1..] != "" ==> s[i + 1..][|s| - i - 2] == s[|s| - 1])
  {
    Strings.FindIsFirst(s, "\n", 0);
    var i := Strings.Find(s, "\n", 0);
    hide Strings.Find;
    if i == -1 {
      forall k | 0 <= k < |s| ensures s[k] != '\n' {
        assert s[k..k + 1] == [s[k]] && !Strings.OccursAt(s, "\n", k);
      }
    } else {
      assert s[i..i + 1] == [s[i]];
    }
  }

  /** Only text lines of the template are rendered. */
  lemma {:induction false} RenderedIsText(d: Document, eval: Evaluator, text: string)
    ensures text in Rendered(d, eval) ==> Text(text) in Flat(d)
    decreases d
  {
    match d
    case Empty =>
    case Then(Plain(_), rest) => RenderedIsText(rest, eval, text);
    case Then(Block(c, body, more), rest) =>
      RenderedIsText(body, eval, text);
      BranchesAreText(more, eval, text);
      RenderedIsText(rest, eval, text);
  }

  lemma {:induction false} BranchesAreText(b: Branches, eval: Evaluator, text: string)
    ensures text in RenderedBranches(b, eval) ==> Text(text) in FlatBranches(b)
    decreases b
  {
    match b
    case Close =>
    case ElifBranch(c, body, more) =>
      RenderedIsText(body, eval, text);
      BranchesAreText(more, eval, text);
    case ElseBranch(body, strays) =>
      RenderedIsText(body, eval, text);
      StraysAreText(strays, eval, text);
  }

  lemma {:induction false} StraysAreText(s: Strays, eval: Evaluator, text: string)
    ensures text in RenderedStrays(s, eval) ==> Text(text) in FlatStrays(s)
    decreases s
  {
    if s.Stray? {
      RenderedIsText(s.body, eval, text);
      StraysAreText(s.more, eval, text);
    }
  }

  lemma {:induction false} RepairedIsText(lines: seq<Line>, depth: nat, text: string)
    ensures Text(text) in Repaired(lines, depth) ==> Text(text) in lines
  {
    if lines != [] {
      var (line, rest) := (lines[0], lines[1..]);
      RepairedIsText(rest, if line.If? then depth + 1 else if line.Endif? && depth > 0 then depth - 1 else depth, text);
    } else if depth > 0 {
      RepairedIsText([], depth - 1, text);
    }
  }

  /** The text returned has these lines, in this order. */
  ghost predicate HasLines(text: string, lines: seq<string>) {
    if lines == [] then text == "" else Strings.Split(text, "\n") == lines
  }

  /** The text of a rendered document holds its lines: none of them contains a newline. */
  lemma TextHasLines(d: Document, scriptCode: string, classify: string -> Line, eval: Evaluator)
    requires IsClassifier(classify) && Flat(d) == Repaired(Classified(GetLines(scriptCode), classify), 0)
    ensures HasLines(JoinLines(Rendered(d, eval)), Rendered(d, eval))
  {
    var (lines, texts) := (Classified(GetLines(scriptCode), classify), Rendered(d, eval));
    forall k | 0 <= k < |texts| ensures '\n' !in texts[k] {
      RenderedIsText(d, eval, texts[k]);
      RepairedIsText(lines, 0, texts[k]);
      TextIsLine(scriptCode, classify, texts[k]);
    }
    if texts != [] {
      Strings.FreePiecesComeBack(texts, '\n');
    }
  }

  lemma TextIsLine(scriptCode: string, classify: string -> Line, text: string)
    requires IsClassifier(classify) && Text(text) in Classified(GetLines(scriptCode), classify)
    ensures '\n' !in text
  {
    var lines := GetLines(scriptCode);
    var k :| 0 <= k < |lines| && Classified(lines, classify)[k] == Text(text);
    assert classify(lines[k]).text == lines[k];
    GetLinesAreSplit(scriptCode);
    var pieces := Strings.Split(scriptCode, "\n");
    assert pieces[k] == lines[k];
    Strings.SplitThenJoin(scriptCode, "\n");
    hide GetLines, Strings.Split, Classified;
    forall i | 0 <= i < |text| ensures text[i] != '\n' {
      assert text[i..i + 1] == [text[i]];
      assert !Strings.OccursAt(text, "\n", i);
    }
  }

  /**
   * Every template has a meaning, balanced or not: that of the tree whose lines are its own, without the branch lines
   * and endifs that belong to no block and with the open blocks closed. The machine throws exactly when some condition
   * in that tree cannot be evaluated, and else returns the lines of the meaning.
   */
  lemma MachineRendersAny(scriptCode: string, classify: string -> Line, eval: Evaluator) returns (d: Document)
    requires IsClassifier(classify)
    ensures Marked(d) && Flat(d) == Repaired(Classified(GetLines(scriptCode), classify), 0)
    ensures var r := Run(Classified(GetLines(scriptCode), classify), [], eval);
            && (r.Some? <==> Evaluable(Conditions(d), eval))
            && (r.Some? ==> r.value == Rendered(d, eval) && HasLines(JoinLines(r.value), Rendered(d, eval)))
  {
    var lines := Classified(GetLines(scriptCode), classify);
    RepairedBalances(lines, 0);
    var rest;
    d, rest := ParseDocument(Repaired(lines, 0), 0);
    RunRepaired(lines, [], eval);
    RunDocument(d, [], [], eval);
    assert Flat(d) + [] == Flat(d) && Rendered(d, eval) + [] == Rendered(d, eval);
    TextHasLines(d, scriptCode, classify, eval);
    hide GetLines, JoinLines, Flat, Rendered, HasLines;
  }
}
