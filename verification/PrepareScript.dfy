/** primary_client.cpp: turning a piece of URScript into a named program that the controller accepts. */
module PrepareScript {
  import opened Sequences
  import opened Strings
  import opened Wrappers

  datatype ScriptType = Def | Sec

  datatype ScriptInfo = ScriptInfo(name: string, code: string, scriptType: ScriptType)

  datatype SyntaxError = EmptyScript | MissingParenthesis | InvalidName | MissingEnd

  const NEWLINE := "\n"
  const MAX_NAME := 31

  predicate IsSpace(c: char) {
    c == ' ' || '\t' <= c <= '\r'
  }

  /** The first character that is no space is there, and does not begin a comment. */
  predicate Significant(line: string) {
    line != "" && if IsSpace(line[0]) then Significant(line[1..]) else line[0] != '#'
  }

  function Kept(lines: seq<string>): (kept: seq<string>)
  {
    if lines == [] then [] else (if Significant(lines[0]) then [lines[0]] else []) + Kept(lines[1..])
  }

  method StripCommentsAndWhitespace(lines: seq<string>) returns (stripped: seq<string>)
    ensures stripped == Kept(lines)
  {
    stripped := [];
    assert lines[0..] == lines && [] + Kept(lines) == Kept(lines);
    for i := 0 to |lines|
      invariant Kept(lines) == stripped + Kept(lines[i..])
    {
      ghost var rest := Kept(lines[i + 1..]);
      assert lines[i..][1..] == lines[i + 1..];
      assert stripped + ([lines[i]] + rest) == stripped + [lines[i]] + rest && [] + rest == rest;
      var line := lines[i];
      var k := 0;
      assert line[0..] == line;
      while k < |line| && IsSpace(line[k])
        invariant k <= |line| && Significant(line) == Significant(line[k..])
      {
        assert line[k..][1..] == line[k + 1..];
        k := k + 1;
      }
      if k < |line| && line[k] != '#' {
        stripped := stripped + [line];
      }
    }
    assert stripped + [] == stripped;
  }

  function Truncated(name: string): string {
    if |name| > MAX_NAME then name[..MAX_NAME] else name
  }

  predicate IsLetter(c: char) {
    'A' <= c <= 'Z' || 'a' <= c <= 'z' || c == '_'
  }

  predicate ValidName(name: string) {
    name != "" && IsLetter(name[0]) && forall k :: 0 <= k < |name| ==> IsLetter(name[k]) || '0' <= name[k] <= '9'
  }

  predicate StartsWith(line: string, prefix: string) {
    |prefix| <= |line| && line[..|prefix|] == prefix
  }

  predicate IsDefinition(line: string) {
    StartsWith(line, "def ") || StartsWith(line, "sec ")
  }

  function Indented(lines: seq<string>): (r: seq<string>)
    ensures |r| == |lines| && forall k :: 0 <= k < |lines| ==> r[k] == "  " + lines[k]
  {
    seq(|lines|, k requires 0 <= k < |lines| => "  " + lines[k])
  }

  function Unlines(lines: seq<string>): string {
    if lines == [] then "" else lines[0] + NEWLINE + Unlines(lines[1..])
  }

  /** The line with the first occurrence of the name, wherever that is, replaced. */
  function Renamed(line: string, name: string, newName: string): string {
    var i := Find(line, name, 0);
    if i == -1 then line else line[..i] + newName + line[i + |name|..]
  }

  /** The text from the fifth character up to index `end`: to the end of the line if `end` lies before it. */
  function NameUpTo(line: string, end: nat): string
    requires 4 <= |line| && end <= |line|
  {
    if end < 4 then line[4..] else line[4..end]
  }

  function Checked(lines: seq<string>, name: string, scriptType: ScriptType): Result<ScriptInfo, SyntaxError>
    requires lines != []
  {
    if !ValidName(name) then Failure(InvalidName)
    else if !StartsWith(lines[|lines| - 1], "end") then Failure(MissingEnd)
    else Success(ScriptInfo(name, Unlines(lines), scriptType))
  }

  /** `generated` is the name made from the current time. */
  function Prepared(script: string, scriptName: string, generated: string): Result<ScriptInfo, SyntaxError> {
    PreparedLines(Kept(Split(script, NEWLINE)), scriptName, generated)
  }

  function PreparedLines(lines: seq<string>, scriptName: string, generated: string): Result<ScriptInfo, SyntaxError> {
    if lines == [] then Failure(EmptyScript)
    else if !IsDefinition(lines[0]) then
      var name := Truncated(if scriptName == "" then generated else scriptName);
      Checked(["def " + name + "():"] + Indented(lines) + ["end"], name, Def)
    else
      var end := Find(lines[0], "(", 0);
      if end == -1 then Failure(MissingParenthesis)
      else
        var inScript := NameUpTo(lines[0], end);
        var name := Truncated(inScript);
        var first := if |name| != |inScript| then Renamed(lines[0], inScript, name) else lines[0];
        Checked([first] + lines[1..], name, if StartsWith(lines[0], "def ") then Def else Sec)
  }

  method PrepareScript(script: string, scriptName: string, generated: string)
    returns (r: Result<ScriptInfo, SyntaxError>)
    ensures r == Prepared(script, scriptName, generated)
  {
    hide Split, Find, Kept, Unlines, Significant;
    var splitScript := SplitString(script, NEWLINE);
    var stripped := StripCommentsAndWhitespace(splitScript);
    if stripped == [] {
      return Failure(EmptyScript);
    }
    var name := if scriptName == "" then generated else scriptName;
    var scriptType := Def;
    if !IsDefinition(stripped[0]) {
      name := Truncated(name);
      stripped := Indent(stripped);
      stripped := ["def " + name + "():"] + stripped + ["end"];
    } else {
      var end := Find(stripped[0], "(", 0);
      if end == -1 {
        return Failure(MissingParenthesis);
      }
      var inScript := NameUpTo(stripped[0], end);
      if !StartsWith(stripped[0], "def ") {
        scriptType := Sec;
      }
      name := Truncated(inScript);
      assert stripped == [stripped[0]] + stripped[1..];
      if |name| != |inScript| {
        stripped := [Renamed(stripped[0], inScript, name)] + stripped[1..];
      }
    }
    if !ValidName(name) {
      return Failure(InvalidName);
    }
    if !StartsWith(stripped[|stripped| - 1], "end") {
      return Failure(MissingEnd);
    }
    var code := Concatenate(stripped);
    return Success(ScriptInfo(name, code, scriptType));
  }

  method Indent(lines: seq<string>) returns (r: seq<string>)
    ensures r == Indented(lines)
  {
    r := lines;
    for i := 0 to |lines|
      invariant |r| == |lines|
      invariant forall k :: 0 <= k < |lines| ==> r[k] == if k < i then "  " + lines[k] else lines[k]
    {
      r := r[i := "  " + r[i]];
    }
  }

  method Concatenate(lines: seq<string>) returns (code: string)
    ensures code == Unlines(lines)
  {
    code := "";
    assert lines[0..] == lines && "" + Unlines(lines) == Unlines(lines);
    for i := 0 to |lines|
      invariant Unlines(lines) == code + Unlines(lines[i..])
    {
      assert lines[i..][1..] == lines[i + 1..];
      assert code + (lines[i] + NEWLINE + Unlines(lines[i + 1..])) == code + (lines[i] + NEWLINE) + Unlines(lines[i + 1..]);
      code := code + (lines[i] + NEWLINE);
    }
    assert code + "" == code;
  }

  // Lines survive being joined and split again.

  predicate OneLine(line: string) {
    '\n' !in line
  }

  lemma {:induction false} UnlinesIsJoin(lines: seq<string>)
    ensures Unlines(lines) == Join(lines + [""], NEWLINE)
  {
    if lines == [] {
      assert [] + [""] == [""];
    } else {
      UnlinesIsJoin(lines[1..]);
      assert (lines + [""])[1..] == lines[1..] + [""];
    }
  }

  lemma UnlinesThenSplit(lines: seq<string>)
    requires forall k :: 0 <= k < |lines| ==> OneLine(lines[k])
    ensures Split(Unlines(lines), NEWLINE) == lines + [""]
  {
    UnlinesIsJoin(lines);
    assert NEWLINE == ['\n'];
    FreePiecesComeBack(lines + [""], '\n');
  }

  lemma {:induction false} AllKept(lines: seq<string>)
    requires forall k :: 0 <= k < |lines| ==> Significant(lines[k])
    ensures Kept(lines + [""]) == lines
  {
    if lines == [] {
      assert [] + [""] == [""];
      assert [""][1..] == [];
    } else {
      assert (lines + [""])[0] == lines[0] && (lines + [""])[1..] == lines[1..] + [""];
      AllKept(lines[1..]);
    }
  }

  /** A script whose lines all stay as they are. */
  ghost predicate Clean(lines: seq<string>) {
    forall k :: 0 <= k < |lines| ==> OneLine(lines[k]) && Significant(lines[k])
  }

  lemma CleanComesBack(lines: seq<string>)
    requires Clean(lines)
    ensures Kept(Split(Unlines(lines), NEWLINE)) == lines
  {
    UnlinesThenSplit(lines);
    AllKept(lines);
  }

  lemma {:induction false} KeptIsClean(lines: seq<string>)
    requires forall k :: 0 <= k < |lines| ==> OneLine(lines[k])
    ensures Clean(Kept(lines))
  {
    if lines != [] {
      KeptIsClean(lines[1..]);
    }
  }

  lemma SplitIsClean(script: string)
    ensures Clean(Kept(Split(script, NEWLINE)))
  {
    SplitThenJoin(script, NEWLINE);
    var pieces := Split(script, NEWLINE);
    hide Split;
    forall k | 0 <= k < |pieces| ensures OneLine(pieces[k]) {
      NoNewline(pieces[k]);
    }
    KeptIsClean(pieces);
  }

  lemma NoNewline(line: string)
    requires !Contains(line, NEWLINE)
    ensures OneLine(line)
  {
    forall i | 0 <= i < |line| ensures line[i] != '\n' {
      assert line[i..i + 1] == [line[i]];
      assert !OccursAt(line, NEWLINE, i);
    }
  }

  // What a prepared script looks like

  function Keyword(scriptType: ScriptType): string {
    if scriptType == Def then "def " else "sec "
  }

  /** A first line that defines the name: nothing else stands between the keyword and the first parenthesis. */
  ghost predicate Defines(line: string, name: string, scriptType: ScriptType) {
    && |line| > 4 + |name| && line[..4] == Keyword(scriptType)
    && line[4..4 + |name|] == name && line[4 + |name|] == '('
    && Find(line, "(", 0) == 4 + |name|
  }

  ghost predicate WellFormed(lines: seq<string>, name: string, scriptType: ScriptType) {
    && lines != [] && Clean(lines)
    && ValidName(name) && |name| <= MAX_NAME && Defines(lines[0], name, scriptType)
    && StartsWith(lines[|lines| - 1], "end")
  }

  lemma ParenthesisAt(line: string, k: nat)
    ensures OccursAt(line, "(", k) <==> k < |line| && line[k] == '('
  {
    if k < |line| {
      assert line[k..k + 1] == [line[k]];
    }
  }

  lemma FirstParenthesis(line: string, i: nat)
    requires i < |line| && line[i] == '(' && '(' !in line[..i]
    ensures Find(line, "(", 0) == i
  {
    FindIsFirst(line, "(", 0);
    hide Find, OccursAt;
    ParenthesisAt(line, i);
    forall k: nat | k < i ensures !OccursAt(line, "(", k) {
      ParenthesisAt(line, k);
      assert line[..i][k] == line[k];
    }
  }

  lemma ParenthesisFound(line: string)
    requires Find(line, "(", 0) != -1
    ensures var i := Find(line, "(", 0); i < |line| && line[i] == '(' && '(' !in line[..i]
  {
    var i := Find(line, "(", 0);
    FindIsFirst(line, "(", 0);
    hide Find, OccursAt;
    ParenthesisAt(line, i);
    forall k | 0 <= k < i ensures line[..i][k] != '(' {
      ParenthesisAt(line, k);
    }
  }

  lemma ValidNameIsPlain(name: string)
    requires ValidName(name)
    ensures '(' !in name && '\n' !in name && ' ' !in name
  {
  }

  /** A line made of keyword, name and something with a parenthesis in front defines the name. */
  lemma MadeLineDefines(line: string, name: string, rest: string, scriptType: ScriptType)
    requires ValidName(name) && rest != "" && rest[0] == '(' && line == Keyword(scriptType) + name + rest
    ensures Defines(line, name, scriptType)
  {
    ValidNameIsPlain(name);
    assert line[..4 + |name|] == Keyword(scriptType) + name;
    FirstParenthesis(line, 4 + |name|);
  }

  lemma DefinitionIsSignificant(line: string)
    requires IsDefinition(line)
    ensures Significant(line)
  {
    assert line[..4][0] == line[0];
  }

  lemma IndentedIsClean(line: string)
    requires OneLine(line) && Significant(line)
    ensures OneLine("  " + line) && Significant("  " + line)
  {
    assert ("  " + line)[1..] == " " + line;
    assert (" " + line)[1..] == line;
    assert Significant(" " + line);
  }

  lemma WrappedIsWellFormed(lines: seq<string>, name: string)
    requires Clean(lines) && ValidName(name) && |name| <= MAX_NAME
    ensures WellFormed(["def " + name + "():"] + Indented(lines) + ["end"], name, Def)
  {
    var head := "def " + name + "():";
    var all := [head] + Indented(lines) + ["end"];
    ValidNameIsPlain(name);
    assert head == Keyword(Def) + name + "():";
    MadeLineDefines(head, name, "():", Def);
    assert head[..4] == "def ";
    DefinitionIsSignificant(head);
    assert OneLine(head);
    assert Significant("end") && OneLine("end");
    forall k | 0 <= k < |lines| ensures OneLine(Indented(lines)[k]) && Significant(Indented(lines)[k]) {
      IndentedIsClean(lines[k]);
    }
    hide Significant, OneLine, Find;
    assert all[0] == head;
  }

  lemma OccurrenceShows(line: string, s: string, i: nat, k: nat)
    requires OccursAt(line, s, i) && k < |s|
    ensures s[k] == line[i + k]
  {
    assert line[i..i + |s|][k] == line[i + k];
  }

  /** The name of a definition is found at its own place, also when a long one is cut. */
  lemma RenamedLine(line: string, end: nat, name: string)
    requires IsDefinition(line) && 4 + MAX_NAME < end < |line|
    requires name == line[4..end][..MAX_NAME] && ValidName(name)
    ensures Renamed(line, line[4..end], name) == line[..4] + name + line[end..]
  {
    var inScript := line[4..end];
    FindIsFirst(line, inScript, 0);
    var i := Find(line, inScript, 0);
    assert OccursAt(line, inScript, 4);
    DefinitionLine(line);
    ValidNameIsPlain(name);
    hide Find, OccursAt, IsDefinition, ValidName;
    assert 0 <= i <= 4;
    var k := if i < 4 then 3 - i else 0;
    OccurrenceShows(line, inScript, i, k);
    assert name[k] == inScript[k] && name[k] in name;
  }

  lemma DefinitionLine(line: string)
    requires IsDefinition(line)
    ensures |line| >= 4 && line[3] == ' ' && line[..4] == Keyword(if StartsWith(line, "def ") then Def else Sec)
    ensures forall k :: 0 <= k < 4 ==> line[k] != '('
  {
    assert line[..4][0] == line[0] && line[..4][1] == line[1] && line[..4][2] == line[2] && line[..4][3] == line[3];
  }

  lemma DefinitionEnds(line: string, end: nat)
    requires IsDefinition(line) && Find(line, "(", 0) == end
    ensures 4 <= end < |line| && line[end] == '(' && NameUpTo(line, end) == line[4..end]
  {
    ParenthesisFound(line);
    DefinitionLine(line);
    hide Find;
  }

  /** The first line as it is prepared: only the name may have changed. */
  lemma FirstLine(line: string, end: nat, name: string)
    requires IsDefinition(line) && Find(line, "(", 0) == end && 4 <= end < |line|
    requires name == Truncated(line[4..end]) && ValidName(name)
    ensures (if |name| != |line[4..end]| then Renamed(line, line[4..end], name) else line) == line[..4] + name + line[end..]
  {
    hide Renamed, Find, IsDefinition, ValidName;
    if |name| != end - 4 {
      RenamedLine(line, end, name);
    } else {
      assert line == line[..4] + line[4..end] + line[end..];
    }
  }

  lemma DefinitionIsWellFormed(lines: seq<string>, end: nat, name: string)
    requires lines != [] && Clean(lines) && IsDefinition(lines[0]) && Find(lines[0], "(", 0) == end
    requires name == Truncated(NameUpTo(lines[0], end)) && ValidName(name)
    ensures end >= 4
    ensures var inScript := NameUpTo(lines[0], end);
            var first := if |name| != |inScript| then Renamed(lines[0], inScript, name) else lines[0];
            && first == lines[0][..4] + name + lines[0][end..]
            && (StartsWith(([first] + lines[1..])[|lines| - 1], "end") ==>
                  WellFormed([first] + lines[1..], name, if StartsWith(lines[0], "def ") then Def else Sec))
  {
    var line := lines[0];
    DefinitionEnds(line, end);
    FirstLine(line, end, name);
    DefinitionLine(line);
    var first := line[..4] + name + line[end..];
    var scriptType := if StartsWith(line, "def ") then Def else Sec;
    MadeLineDefines(first, name, line[end..], scriptType);
    FirstIsClean(line, end, name);
    hide Find, Significant, OneLine, Renamed, IsDefinition, ValidName, Defines, Keyword;
  }

  lemma FirstIsClean(line: string, end: nat, name: string)
    requires OneLine(line) && IsDefinition(line) && ValidName(name) && 4 <= end <= |line|
    ensures OneLine(line[..4] + name + line[end..]) && Significant(line[..4] + name + line[end..])
  {
    var first := line[..4] + name + line[end..];
    ValidNameIsPlain(name);
    assert first[..4] == line[..4];
    DefinitionIsSignificant(first);
  }

  lemma PreparedLinesWellFormed(kept: seq<string>, scriptName: string, generated: string) returns (lines: seq<string>)
    requires Clean(kept) && PreparedLines(kept, scriptName, generated).Success?
    ensures var info := PreparedLines(kept, scriptName, generated).value;
            info.code == Unlines(lines) && WellFormed(lines, info.name, info.scriptType)
  {
    hide Unlines, Find, Renamed, ValidName, Clean, Defines;
    if !IsDefinition(kept[0]) {
      var name := Truncated(if scriptName == "" then generated else scriptName);
      WrappedIsWellFormed(kept, name);
      lines := ["def " + name + "():"] + Indented(kept) + ["end"];
    } else {
      var end := Find(kept[0], "(", 0);
      var inScript := NameUpTo(kept[0], end);
      var name := Truncated(inScript);
      DefinitionIsWellFormed(kept, end, name);
      lines := [if |name| != |inScript| then Renamed(kept[0], inScript, name) else kept[0]] + kept[1..];
    }
  }

  /** Whatever is prepared is well formed: a valid name of at most 31 characters, exactly where it belongs. */
  lemma PreparedIsWellFormed(script: string, scriptName: string, generated: string) returns (lines: seq<string>)
    requires Prepared(script, scriptName, generated).Success?
    ensures var info := Prepared(script, scriptName, generated).value;
            info.code == Unlines(lines) && WellFormed(lines, info.name, info.scriptType)
  {
    SplitIsClean(script);
    hide Kept, Split, PreparedLines, Clean, Unlines, WellFormed;
    lines := PreparedLinesWellFormed(Kept(Split(script, NEWLINE)), scriptName, generated);
  }

  lemma WellFormedIsFixed(lines: seq<string>, name: string, scriptType: ScriptType, otherName: string, generated: string)
    requires WellFormed(lines, name, scriptType)
    ensures Prepared(Unlines(lines), otherName, generated) == Success(ScriptInfo(name, Unlines(lines), scriptType))
  {
    CleanComesBack(lines);
    assert IsDefinition(lines[0]);
    assert NameUpTo(lines[0], 4 + |name|) == name;
    assert [lines[0]] + lines[1..] == lines;
    assert StartsWith(lines[0], "def ") <==> scriptType == Def by {
      assert lines[0][..4][0] == Keyword(scriptType)[0];
    }
    hide Kept, Split, Clean, Unlines, Find;
  }

  /** A line with code: its first character that is no white space (blank, or codes 9 to 13) is there and no hash. */
  ghost predicate HoldsCode(line: string) {
    exists k :: 0 <= k < |line| && line[k] != '#' && !(line[k] as int == 32 || 9 <= line[k] as int <= 13)
                && forall j :: 0 <= j < k ==> line[j] as int == 32 || 9 <= line[j] as int <= 13
  }

  lemma {:induction false} SignificantExactly(line: string)
    ensures Significant(line) <==> HoldsCode(line)
  {
    if line != "" && IsSpace(line[0]) {
      var rest := line[1..];
      SignificantExactly(rest);
      if HoldsCode(rest) {
        var k :| 0 <= k < |rest| && rest[k] != '#' && !(rest[k] as int == 32 || 9 <= rest[k] as int <= 13)
                 && forall j :: 0 <= j < k ==> rest[j] as int == 32 || 9 <= rest[j] as int <= 13;
        assert forall j :: 0 < j < k + 1 ==> line[j] == rest[j - 1];
        assert line[k + 1] == rest[k];
      }
      if HoldsCode(line) {
        var k :| 0 <= k < |line| && line[k] != '#' && !(line[k] as int == 32 || 9 <= line[k] as int <= 13)
                 && forall j :: 0 <= j < k ==> line[j] as int == 32 || 9 <= line[j] as int <= 13;
        assert forall j :: 0 <= j < k - 1 ==> rest[j] == line[j + 1];
        assert rest[k - 1] == line[k];
      }
    }
  }

  /** No line with code is lost, no other one stays, and none changes its place among them. */
  lemma {:induction false} KeptExactly(lines: seq<string>) returns (at: seq<nat>)
    ensures PickedAt(Kept(lines), lines, at)
    ensures forall i: nat :: i in at <==> i < |lines| && HoldsCode(lines[i])
  {
    hide HoldsCode, Significant;
    if lines == [] {
      at := [];
    } else {
      var rest := KeptExactly(lines[1..]);
      SignificantExactly(lines[0]);
      PickedBehind(HoldsCode(lines[0]), Kept(lines[1..]), lines, rest);
      at := Behind(HoldsCode(lines[0]), rest);
    }
  }

  /** The lines of the script that hold code, picked at these indices. */
  ghost predicate CodeLines(script: string, kept: seq<string>, at: seq<nat>) {
    var lines := Split(script, "\n");
    && PickedAt(kept, lines, at)
    && forall i: nat :: i in at <==> i < |lines| && HoldsCode(lines[i])
  }

  /**
   * The lines of the prepared code are those of the script that hold code, in their order: all of them indented
   * between a definition and an end, or as they were but for the name that was cut. The name is cut to 31 characters:
   * that of the definition, else the one given, else the generated one.
   */
  lemma LinesAreKept(script: string, scriptName: string, generated: string) returns (kept: seq<string>, at: seq<nat>)
    requires Prepared(script, scriptName, generated).Success?
    ensures CodeLines(script, kept, at) && kept != []
    ensures var info := Prepared(script, scriptName, generated).value;
            if |kept[0]| >= 4 && (kept[0][..4] == "def " || kept[0][..4] == "sec ") then
              var end := Find(kept[0], "(", 0);
              && 4 <= end < |kept[0]|
              && info.name == kept[0][4..if end < 35 then end else 35]
              && (info.scriptType == Def <==> kept[0][..4] == "def ")
              && Split(info.code, "\n") == [kept[0][..4] + info.name + kept[0][end..]] + kept[1..] + [""]
            else
              var name := if scriptName == "" then generated else scriptName;
              && info.name == name[..if |name| < 31 then |name| else 31]
              && info.scriptType == Def
              && Split(info.code, "\n") == ["def " + info.name + "():"] + Indented(kept) + ["end", ""]
  {
    kept := Kept(Split(script, NEWLINE));
    at := KeptExactly(Split(script, NEWLINE));
    SplitIsClean(script);
    hide Kept, Split, Clean, Find, HoldsCode, PickedAt, PreparedLines;
    assert PreparedLines(kept, scriptName, generated).Success? && kept != [] by {
      NothingPrepared(scriptName, generated);
    }
    if IsDefinition(kept[0]) {
      NamedLines(kept, scriptName, generated);
    } else {
      WrappedLines(kept, scriptName, generated);
    }
  }

  lemma NothingPrepared(scriptName: string, generated: string)
    ensures PreparedLines([], scriptName, generated) == Failure(EmptyScript)
  {
  }

  lemma NamedLines(kept: seq<string>, scriptName: string, generated: string)
    requires Clean(kept) && kept != [] && IsDefinition(kept[0])
    requires PreparedLines(kept, scriptName, generated).Success?
    ensures var (info, end) := (PreparedLines(kept, scriptName, generated).value, Find(kept[0], "(", 0));
            && 4 <= end < |kept[0]|
            && info.name == kept[0][4..if end < 35 then end else 35]
            && (info.scriptType == Def <==> kept[0][..4] == "def ")
            && Split(info.code, "\n") == [kept[0][..4] + info.name + kept[0][end..]] + kept[1..] + [""]
  {
    var (info, end) := (PreparedLines(kept, scriptName, generated).value, Find(kept[0], "(", 0));
    hide PreparedLines, Split, Unlines, Clean, Find, ValidName, IsDefinition;
    DefinitionLine(kept[0]);
    NamedInfo(kept, scriptName, generated);
    assert info.name == kept[0][4..if end < 35 then end else 35];
    hide StartsWith, Truncated;
    CutLineIsClean(kept, end, info.name);
    CleanLines([kept[0][..4] + info.name + kept[0][end..]] + kept[1..]);
  }

  lemma NamedInfo(kept: seq<string>, scriptName: string, generated: string)
    requires Clean(kept) && kept != [] && IsDefinition(kept[0])
    requires PreparedLines(kept, scriptName, generated).Success?
    ensures var (info, end) := (PreparedLines(kept, scriptName, generated).value, Find(kept[0], "(", 0));
            && 4 <= end < |kept[0]| && ValidName(info.name)
            && info.name == Truncated(kept[0][4..end])
            && info.scriptType == (if StartsWith(kept[0], "def ") then Def else Sec)
            && info.code == Unlines([kept[0][..4] + info.name + kept[0][end..]] + kept[1..])
  {
    hide Unlines, Clean, Find, Renamed, ValidName, IsDefinition, StartsWith, Truncated, NameUpTo;
    var (info, end) := (PreparedLines(kept, scriptName, generated).value, Find(kept[0], "(", 0));
    DefinitionEnds(kept[0], end);
    DefinitionIsWellFormed(kept, end, info.name);
  }

  lemma WrappedLines(kept: seq<string>, scriptName: string, generated: string)
    requires Clean(kept) && kept != [] && !IsDefinition(kept[0])
    requires PreparedLines(kept, scriptName, generated).Success?
    ensures var info := PreparedLines(kept, scriptName, generated).value;
            var name := if scriptName == "" then generated else scriptName;
            && info.name == name[..if |name| < 31 then |name| else 31]
            && info.scriptType == Def
            && Split(info.code, "\n") == ["def " + info.name + "():"] + Indented(kept) + ["end", ""]
  {
    hide Split, Unlines, Clean, ValidName, IsDefinition;
    var info := PreparedLines(kept, scriptName, generated).value;
    WrappedIsWellFormed(kept, info.name);
    var lines := ["def " + info.name + "():"] + Indented(kept) + ["end"];
    CleanLines(lines);
    assert lines + [""] == ["def " + info.name + "():"] + Indented(kept) + ["end", ""];
  }

  /** A letter (codes 65 to 90 and 97 to 122) or underscore, then such and digits (codes 48 to 57). */
  ghost predicate Identifier(name: string) {
    && name != "" && !(48 <= name[0] as int <= 57)
    && forall c :: c in name ==>
         var n := c as int;
         48 <= n <= 57 || 65 <= n <= 90 || n == 95 || 97 <= n <= 122
  }

  lemma ValidNameExactly(name: string)
    ensures ValidName(name) <==> Identifier(name)
  {
    assert forall k :: 0 <= k < |name| ==> name[k] in name;
  }

  /** The script is refused exactly without code, parenthesis, valid name or end, in this order. */
  lemma RefusedExactly(script: string, scriptName: string, generated: string) returns (kept: seq<string>, at: seq<nat>)
    ensures CodeLines(script, kept, at)
    ensures Prepared(script, scriptName, generated) == Failure(EmptyScript) <==> kept == []
    ensures kept != [] ==>
            var r := Prepared(script, scriptName, generated);
            if |kept[0]| >= 4 && (kept[0][..4] == "def " || kept[0][..4] == "sec ") then
              if '(' !in kept[0] then r == Failure(MissingParenthesis)
              else
                var end := Find(kept[0], "(", 0);
                && 4 <= end < |kept[0]|
                && if !Identifier(kept[0][4..if end < 35 then end else 35]) then r == Failure(InvalidName)
                   else if !StartsWith(kept[|kept| - 1], "end") then r == Failure(MissingEnd)
                   else r.Success?
            else
              var name := if scriptName == "" then generated else scriptName;
              if !Identifier(name[..if |name| < 31 then |name| else 31]) then r == Failure(InvalidName) else r.Success?
  {
    kept := Kept(Split(script, NEWLINE));
    at := KeptExactly(Split(script, NEWLINE));
    SplitIsClean(script);
    hide Kept, Split, HoldsCode, PickedAt;
    if kept != [] {
      hide Clean;
      if IsDefinition(kept[0]) {
        NamedRefused(kept, scriptName, generated);
      } else {
        WrappedRefused(kept, scriptName, generated);
      }
    }
  }

  lemma WrappedRefused(kept: seq<string>, scriptName: string, generated: string)
    requires kept != [] && !IsDefinition(kept[0])
    ensures var name := if scriptName == "" then generated else scriptName;
            var (r, valid) := (PreparedLines(kept, scriptName, generated), Identifier(name[..if |name| < 31 then |name| else 31]));
            if valid then r.Success? else r == Failure(InvalidName)
  {
    hide IsDefinition, Identifier, ValidName, Unlines;
    var given := if scriptName == "" then generated else scriptName;
    var name := Truncated(given);
    assert name == given[..if |given| < 31 then |given| else 31];
    ValidNameExactly(name);
    assert "end"[..3] == "end";
    var lines := ["def " + name + "():"] + Indented(kept) + ["end"];
    assert lines[|lines| - 1] == "end";
  }

  lemma NamedRefused(kept: seq<string>, scriptName: string, generated: string)
    requires kept != [] && IsDefinition(kept[0]) && Clean(kept)
    ensures |kept[0]| >= 4
    ensures var r := PreparedLines(kept, scriptName, generated);
            if '(' !in kept[0] then r == Failure(MissingParenthesis)
            else
              var end := Find(kept[0], "(", 0);
              && 4 <= end < |kept[0]|
              && if !Identifier(kept[0][4..if end < 35 then end else 35]) then r == Failure(InvalidName)
                 else if !StartsWith(kept[|kept| - 1], "end") then r == Failure(MissingEnd)
                 else r.Success?
  {
    DefinitionLine(kept[0]);
    ParenthesisExactly(kept[0]);
    if '(' in kept[0] {
      var end := Find(kept[0], "(", 0);
      DefinitionEnds(kept[0], end);
      var name := Truncated(kept[0][4..end]);
      assert name == kept[0][4..if end < 35 then end else 35];
      ValidNameExactly(name);
      hide Find, Clean, Identifier, ValidName, Unlines, Renamed, StartsWith, IsDefinition, Truncated;
      if ValidName(name) {
        NamedEnd(kept, end, name);
      }
    }
  }

  /** Renaming the first line does not make it an end. */
  lemma NamedEnd(kept: seq<string>, end: nat, name: string)
    requires kept != [] && IsDefinition(kept[0]) && Clean(kept) && Find(kept[0], "(", 0) == end
    requires 4 <= end < |kept[0]| && name == Truncated(kept[0][4..end]) && ValidName(name)
    ensures var first := if |name| != |kept[0][4..end]| then Renamed(kept[0], kept[0][4..end], name) else kept[0];
            var lines := [first] + kept[1..];
            StartsWith(lines[|lines| - 1], "end") <==> StartsWith(kept[|kept| - 1], "end")
  {
    FirstLine(kept[0], end, name);
    NoEnd(kept[0], kept[0][..4] + name + kept[0][end..], end, name);
    hide Find, Clean, ValidName, Renamed, StartsWith, IsDefinition, Truncated;
  }

  lemma NoEnd(line: string, first: string, end: nat, name: string)
    requires IsDefinition(line) && 4 <= end <= |line| && first == line[..4] + name + line[end..]
    ensures !StartsWith(line, "end") && !StartsWith(first, "end")
  {
    assert line[..4][0] == line[0] == first[0] && "end"[0] == 'e';
    assert line[..3][0] == line[0] && first[..3][0] == first[0];
  }

  lemma ParenthesisExactly(line: string)
    ensures Find(line, "(", 0) == -1 <==> '(' !in line
  {
    FindIsFirst(line, "(", 0);
    hide Find;
    if Find(line, "(", 0) != -1 {
      ParenthesisAt(line, Find(line, "(", 0));
    } else if '(' in line {
      var k: nat :| k < |line| && line[k] == '(';
      ParenthesisAt(line, k);
    }
  }

  lemma CleanLines(lines: seq<string>)
    requires Clean(lines)
    ensures Split(Unlines(lines), "\n") == lines + [""]
  {
    UnlinesThenSplit(lines);
  }

  lemma CutLineIsClean(lines: seq<string>, end: nat, name: string)
    requires lines != [] && Clean(lines) && IsDefinition(lines[0]) && ValidName(name) && 4 <= end <= |lines[0]|
    ensures Clean([lines[0][..4] + name + lines[0][end..]] + lines[1..])
  {
    FirstIsClean(lines[0], end, name);
  }

  /** Preparing a prepared script again, under whatever name, changes nothing. */
  lemma PreparingIsIdempotent(script: string, scriptName: string, generated: string, otherName: string, otherTime: string)
    requires Prepared(script, scriptName, generated).Success?
    ensures var info := Prepared(script, scriptName, generated).value;
            Prepared(info.code, otherName, otherTime) == Success(info)
  {
    var info := Prepared(script, scriptName, generated).value;
    var lines := PreparedIsWellFormed(script, scriptName, generated);
    WellFormedIsFixed(lines, info.name, info.scriptType, otherName, otherTime);
  }
}
