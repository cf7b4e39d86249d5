/** script_reader.cpp: the stack machine that renders if/elif/else/endif blocks line by line. */
module ScriptConditionals {
  import opened Wrappers
  import Strings

  /** What a line of the script is, for the machine. */
  datatype Line = If(condition: string) | Elif(condition: string) | Else | Endif | Text(text: string)

  datatype BlockType = IF | ELIF | ELSE

  datatype BlockState = BlockState(kind: BlockType, conditionMatched: bool, shouldRender: bool, parentRender: bool)

  /** The open blocks, innermost first. */
  type Stack = seq<BlockState>

  /** Evaluates a condition; None where the original throws. */
  type Evaluator = string -> Option<bool>

  predicate IsLive(stack: Stack) {
    stack == [] || stack[0].shouldRender
  }

  /** The stack after one line; None where evaluating its condition throws. */
  function Step(line: Line, stack: Stack, eval: Evaluator): Option<Stack> {
    match line
    case If(c) =>
      (match eval(c)
       case None => None
       case Some(b) => Some([BlockState(IF, b, IsLive(stack) && b, IsLive(stack))] + stack))
    case Elif(c) =>
      if stack == [] || stack[0].kind == ELSE then Some(stack)
      else (match eval(c)
            case None => None
            case Some(b) =>
              var top := stack[0];
              var first := !top.conditionMatched && b;
              Some([BlockState(ELIF, top.conditionMatched || first, first && top.parentRender, top.parentRender)] + stack[1..]))
    case Else =>
      if stack == [] then Some([])
      else
        var top := stack[0];
        Some([top.(kind := ELSE, shouldRender := top.parentRender && !top.conditionMatched)] + stack[1..])
    case Endif => Some(if stack == [] then [] else stack[1..])
    case Text(_) => Some(stack)
  }

  function Prepend(first: seq<string>, rest: Option<seq<string>>): Option<seq<string>> {
    match rest
    case None => None
    case Some(texts) => Some(first + texts)
  }

  /** The text lines that the machine writes, or None where it throws. */
  function Run(lines: seq<Line>, stack: Stack, eval: Evaluator): Option<seq<string>> {
    if lines == [] then Some([])
    else
      match Step(lines[0], stack, eval)
      case None => None
      case Some(after) =>
        Prepend(if lines[0].Text? && IsLive(stack) then [lines[0].text] else [], Run(lines[1..], after, eval))
  }

  /** What std::getline reads from a stream over s, call after call. */
  function GetLines(s: string): seq<string> {
    if s == "" then []
    else
      var i := Strings.Find(s, "\n", 0);
      if i == -1 then [s] else [s[..i]] + GetLines(s[i + 1..])
  }

  function JoinLines(texts: seq<string>): string {
    if texts == [] then "" else Strings.Join(texts, "\n")
  }

  /** The classifier calls a line text only if it is that very text. */
  ghost predicate IsClassifier(classify: string -> Line) {
    forall s :: classify(s).Text? ==> classify(s).text == s
  }

  function Classified(texts: seq<string>, classify: string -> Line): seq<Line> {
    seq(|texts|, i requires 0 <= i < |texts| => classify(texts[i]))
  }

  method ReplaceConditionals(scriptCode: string, classify: string -> Line, eval: Evaluator)
    returns (r: Option<string>)
    requires IsClassifier(classify)
    ensures r == match Run(Classified(GetLines(scriptCode), classify), [], eval)
                 case None => None
                 case Some(texts) => Some(JoinLines(texts))
  {
    hide Run, GetLines, JoinLines, Strings.Find;
    var output, firstLine := "", true;
    var stack: Stack := [];
    var pos := 0;
    ghost var written: seq<string> := [];
    ghost var lines := Classified(GetLines(scriptCode), classify);
    assert scriptCode[0..] == scriptCode;
    PrependNothing(Run(lines, stack, eval));
    NothingLeft(stack, eval, classify);
    while pos < |scriptCode|
      invariant pos <= |scriptCode|
      invariant output == JoinLines(written) && firstLine == (written == [])
      invariant Run(lines, [], eval)
             == Prepend(written, Run(Classified(GetLines(scriptCode[pos..]), classify), stack, eval))
      decreases |scriptCode| - pos
    {
      var end := Strings.Find(scriptCode, "\n", pos);
      var line := if end == -1 then scriptCode[pos..] else scriptCode[pos..end];
      NextLine(scriptCode, pos, classify);
      ghost var expected := Step(classify(line), stack, eval);
      ghost var todo := Classified(GetLines(scriptCode[if end == -1 then |scriptCode| else end + 1..]), classify);
      RunStep(written, classify(line), todo, stack, eval);
      pos := if end == -1 then |scriptCode| else end + 1;

      match classify(line)
      case If(condition) =>
        var result := eval(condition);
        if result.None? {
          return None;
        }
        var parentRender := if stack == [] then true else stack[0].shouldRender;
        stack := [BlockState(IF, result.value, parentRender && result.value, parentRender)] + stack;
      case Elif(condition) =>
        if stack != [] {
          var top := stack[0];
          if top.kind == ELSE {
            continue;
          }
          var result := eval(condition);
          if result.None? {
            return None;
          }
          top := top.(kind := ELIF);
          if !top.conditionMatched && result.value {
            top := top.(conditionMatched := true, shouldRender := top.parentRender);
          } else {
            top := top.(shouldRender := false);
          }
          stack := [top] + stack[1..];
        }
      case Else =>
        if stack != [] {
          var top := stack[0];
          stack := [top.(kind := ELSE, shouldRender := top.parentRender && !top.conditionMatched)] + stack[1..];
        }
      case Endif =>
        if stack != [] {
          stack := stack[1..];
        }
      case Text(_) =>
        if stack == [] || stack[0].shouldRender {
          if !firstLine {
            output := output + "\n";
          }
          output := output + line;
          firstLine := false;
          AppendLine(written, line);
          written := written + [line];
        }
    }
    assert scriptCode[pos..] == "" && written + [] == written;
    NothingLeft(stack, eval, classify);
    r := Some(output);
  }

  lemma NothingLeft(stack: Stack, eval: Evaluator, classify: string -> Line)
    ensures JoinLines([]) == "" && Run(Classified(GetLines(""), classify), stack, eval) == Some([])
  {
  }

  lemma NextLine(s: string, pos: nat, classify: string -> Line)
    requires pos < |s|
    ensures var end := Strings.Find(s, "\n", pos);
            var line := if end == -1 then s[pos..] else s[pos..end];
            var next := if end == -1 then |s| else end + 1;
            Classified(GetLines(s[pos..]), classify) == [classify(line)] + Classified(GetLines(s[next..]), classify)
  {
    hide GetLines, Classified, Strings.Find;
    Strings.FindInSuffix(s, "\n", pos);
    var end := Strings.Find(s, "\n", pos);
    if end != -1 {
      Strings.SuffixOfSuffix(s, pos, end, end + 1);
      FirstLine(s[pos..], end - pos, classify);
    } else {
      LastLine(s[pos..], classify);
      assert s[|s|..] == "";
    }
  }

  lemma FirstLine(text: string, i: int, classify: string -> Line)
    requires text != "" && i == Strings.Find(text, "\n", 0) != -1
    ensures 0 <= i < |text|
    ensures Classified(GetLines(text), classify) == [classify(text[..i])] + Classified(GetLines(text[i + 1..]), classify)
  {
    hide GetLines, Classified, Strings.Find;
    GetLinesStep(text);
    ClassifiedCons(text[..i], GetLines(text[i + 1..]), classify);
  }

  lemma LastLine(text: string, classify: string -> Line)
    requires text != "" && Strings.Find(text, "\n", 0) == -1
    ensures Classified(GetLines(text), classify) == [classify(text)] + Classified(GetLines(""), classify)
  {
    hide GetLines, Classified, Strings.Find;
    GetLinesStep(text);
    GetLinesStep("");
    assert [text] + [] == [text];
    ClassifiedCons(text, [], classify);
  }

  lemma GetLinesStep(s: string)
    ensures var i := Strings.Find(s, "\n", 0);
            GetLines(s) == if s == "" then [] else if i == -1 then [s] else [s[..i]] + GetLines(s[i + 1..])
  {
    hide Strings.Find;
  }

  lemma ClassifiedCons(text: string, texts: seq<string>, classify: string -> Line)
    ensures Classified([text] + texts, classify) == [classify(text)] + Classified(texts, classify)
    ensures texts == [] ==> [text] + texts == [text]
  {
  }

  lemma PrependNothing(r: Option<seq<string>>)
    ensures Prepend([], r) == r
  {
    if r.Some? {
      assert [] + r.value == r.value;
    }
  }

  /** One line of input, as seen from what has been written before it. */
  lemma RunStep(written: seq<string>, line: Line, rest: seq<Line>, stack: Stack, eval: Evaluator)
    ensures Prepend(written, Run([line] + rest, stack, eval)) ==
            match Step(line, stack, eval)
            case None => None
            case Some(after) =>
              Prepend(if line.Text? && IsLive(stack) then written + [line.text] else written, Run(rest, after, eval))
  {
    assert ([line] + rest)[1..] == rest;
    match Step(line, stack, eval)
    case None =>
    case Some(after) =>
      match Run(rest, after, eval)
      case None =>
      case Some(texts) =>
        assert written + ([] + texts) == written + texts;
        if line.Text? {
          assert written + ([line.text] + texts) == written + [line.text] + texts;
        }
  }

  lemma AppendLine(written: seq<string>, line: string)
    ensures JoinLines(written + [line]) == if written == [] then line else JoinLines(written) + "\n" + line
  {
    if written != [] {
      Strings.JoinSnoc(written, "\n", line);
    }
  }
}
