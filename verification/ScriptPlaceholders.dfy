/** What a script with {{ variables }} means, read as plain text and holes, and that the replacing loop computes it. */
module ScriptPlaceholders {
  import opened Wrappers
  import opened ScriptVariables

  /** A stretch of a script: text, or a placeholder with white space around its key. */
  datatype Part = Literal(text: string) | Hole(before: string, key: string, after: string)

  /** Character codes: tab to carriage return, and the blank. */
  ghost predicate Blank(s: string) {
    forall c :: c in s ==> 9 <= c as int <= 13 || c as int == 32
  }

  /** Character codes: digits, capital and small letters, underscore and hyphen; at least one. */
  ghost predicate Name(s: string) {
    && s != ""
    && forall c :: c in s ==>
         var n := c as int;
         48 <= n <= 57 || 65 <= n <= 90 || 97 <= n <= 122 || n == 95 || n == 45
  }

  ghost predicate ProperHole(p: Part) {
    p.Hole? && Blank(p.before) && Name(p.key) && Blank(p.after)
  }

  ghost predicate Proper(p: Part) {
    if p.Literal? then '{' !in p.text else ProperHole(p)
  }

  function Source(p: Part): string {
    match p
    case Literal(text) => text
    case Hole(before, key, after) => "{{" + before + key + after + "}}"
  }

  function SourceOf(parts: seq<Part>): string {
    if parts == [] then "" else Source(parts[0]) + SourceOf(parts[1..])
  }

  /** Text stands for itself and a hole for the value of its key; the first key without one is what it fails with. */
  function Meaning(parts: seq<Part>, values: map<string, string>): Result<string, string> {
    if parts == [] then Success("")
    else
      match parts[0]
      case Literal(text) => InFront(text, Meaning(parts[1..], values))
      case Hole(_, key, _) =>
        if key !in values then Failure(key) else InFront(values[key], Meaning(parts[1..], values))
  }

  // The pattern matches holes, and nothing else.

  function HoleMatch(p: Part): Match
    requires p.Hole?
  {
    var a := 2 + |p.before|;
    Match(0, a, a + |p.key|, a + |p.key| + |p.after|)
  }

  lemma BlankExactly(s: string, i: nat, j: nat)
    requires i <= j <= |s|
    ensures AllSpace(s, i, j) <==> Blank(s[i..j])
  {
    var t := s[i..j];
    assert forall k :: i <= k < j ==> s[k] == t[k - i] && s[k] in t;
    assert forall k :: 0 <= k < |t| ==> t[k] == s[i + k];
  }

  lemma NameExactly(s: string, i: nat, j: nat)
    requires i <= j <= |s|
    ensures i < j && AllWord(s, i, j) <==> Name(s[i..j])
  {
    var t := s[i..j];
    assert forall k :: i <= k < j ==> s[k] == t[k - i] && s[k] in t;
    assert forall k :: 0 <= k < |t| ==> t[k] == s[i + k];
  }

  lemma HoleParts(p: Part)
    requires p.Hole?
    ensures var (s, m) := (Source(p), HoleMatch(p));
            && m.End() == |s| && s[0] == s[1] == '{' && s[m.close] == s[m.close + 1] == '}'
            && s[2..m.keyStart] == p.before && s[m.keyStart..m.keyEnd] == p.key && s[m.keyEnd..m.close] == p.after
  {
  }

  lemma HoleIsPlaceholder(p: Part)
    requires p.Hole? && ProperHole(p)
    ensures var (s, m) := (Source(p), HoleMatch(p));
            Placeholder(s, m) && m.End() == |s| && Key(s, m) == p.key
  {
    var (s, m) := (Source(p), HoleMatch(p));
    HoleParts(p);
    hide Source, AllSpace, AllWord;
    BlankExactly(s, 2, m.keyStart);
    NameExactly(s, m.keyStart, m.keyEnd);
    BlankExactly(s, m.keyEnd, m.close);
    hide Blank, Name;
  }

  lemma PlaceholderIsHole(s: string, m: Match) returns (p: Part)
    requires Placeholder(s, m)
    ensures p.Hole? && ProperHole(p) && s[m.start..m.End()] == Source(p) && Key(s, m) == p.key
  {
    p := Hole(s[m.start + 2..m.keyStart], s[m.keyStart..m.keyEnd], s[m.keyEnd..m.close]);
    hide AllSpace, AllWord;
    BlankExactly(s, m.start + 2, m.keyStart);
    NameExactly(s, m.keyStart, m.keyEnd);
    BlankExactly(s, m.keyEnd, m.close);
    hide Blank, Name;
    assert s[m.start..m.End()] == "{{" + p.before + p.key + p.after + "}}";
  }

  /** At an index the pattern matches exactly the text of a hole that stands there. */
  lemma MatchesHolesExactly(s: string, i: nat)
    requires i <= |s|
    ensures MatchAt(s, i).Some? <==> exists p: Part :: p.Hole? && ProperHole(p) && Source(p) <= s[i..]
    ensures forall p: Part :: p.Hole? && ProperHole(p) && Source(p) <= s[i..] ==>
              var m := MatchAt(s, i);
              m.Some? && m.value.start == i && m.value.End() == i + |Source(p)| && Key(s, m.value) == p.key
  {
    hide MatchAt, ProperHole, Source;
    forall p: Part | p.Hole? && ProperHole(p) && Source(p) <= s[i..]
      ensures var m := MatchAt(s, i);
              m.Some? && m.value.start == i && m.value.End() == i + |Source(p)| && Key(s, m.value) == p.key
    {
      HoleStandsAt(s, i, p);
    }
    if MatchAt(s, i).Some? {
      var m := MatchAt(s, i).value;
      var p := PlaceholderIsHole(s, m);
      assert s[i..][..|Source(p)|] == s[m.start..m.End()];
    }
  }

  lemma HoleStandsAt(s: string, i: nat, p: Part)
    requires i <= |s| && p.Hole? && ProperHole(p) && Source(p) <= s[i..]
    ensures var m := Shifted(HoleMatch(p), i);
            MatchAt(s, i) == Some(m) && Placeholder(s, m) && m.End() == i + |Source(p)| && Key(s, m) == p.key
  {
    HoleIsPlaceholder(p);
    var (t, m) := (Source(p), HoleMatch(p));
    assert m.start == 0;
    hide MatchAt, ProperHole, Placeholder, Source, HoleMatch, Key;
    TextStandsAt(s, i, t);
    KeyMoves(s, i, t, m);
  }

  lemma TextStandsAt(s: string, i: nat, t: string)
    requires i <= |s| && t <= s[i..]
    ensures Agree(t, s, 0, |t|, i)
  {
    forall k | 0 <= k < |t| ensures s[k + i] == t[k] {
      assert s[i..][k] == t[k];
    }
  }

  lemma KeyMoves(s: string, i: nat, t: string, m: Match)
    requires Placeholder(t, m) && m.start == 0 && m.End() == |t| && Agree(t, s, 0, |t|, i)
    ensures Placeholder(s, Shifted(m, i)) && MatchAt(s, i) == Some(Shifted(m, i)) && Key(s, Shifted(m, i)) == Key(t, m)
  {
    hide MatchAt;
    PlaceholderExtent(t, m);
    PlaceholderMoves(t, s, m, i);
    hide Placeholder;
    assert s[m.keyStart + i..m.keyEnd + i] == t[m.keyStart..m.keyEnd];
  }

  // The loop computes the meaning.

  /**
   * With values and text that hold no opening brace, the loop turns a script into its meaning, or fails with the
   * first unknown key.
   */
  lemma {:induction false} LoopComputesMeaning(parts: seq<Part>, values: map<string, string>)
    requires BraceFree(values) && forall k :: 0 <= k < |parts| ==> Proper(parts[k])
    ensures Tame(values) && Replaced(SourceOf(parts), values) == Meaning(parts, values)
  {
    LoopFrom("", parts, values);
    assert "" + SourceOf(parts) == SourceOf(parts);
    hide Replaced;
    assert Meaning(parts, values).Success? ==> "" + Meaning(parts, values).value == Meaning(parts, values).value;
  }

  lemma {:induction false} LoopFrom(left: string, parts: seq<Part>, values: map<string, string>)
    requires BraceFree(values) && '{' !in left && forall k :: 0 <= k < |parts| ==> Proper(parts[k])
    ensures Tame(values) && Replaced(left + SourceOf(parts), values) == InFront(left, Meaning(parts, values))
    decreases |parts|
  {
    BraceFreeIsTame(values);
    hide Replaced, Tame, Proper, Source;
    if parts == [] {
      assert left + "" == left;
      NothingToReplace(left, values);
    } else {
      var rest := SourceOf(parts[1..]);
      assert Proper(parts[0]);
      match parts[0]
      case Literal(text) =>
        LiteralSource(text);
        assert left + (text + rest) == left + text + rest;
        LoopFrom(left + text, parts[1..], values);
        InFrontTwice(left, text, Meaning(parts[1..], values));
      case Hole(_, key, _) =>
        assert left + SourceOf(parts) == left + Source(parts[0]) + rest;
        FirstHole(left, parts[0], rest, values);
        if key in values {
          LoopFrom(left + values[key], parts[1..], values);
          InFrontTwice(left, values[key], Meaning(parts[1..], values));
        }
    }
  }

  lemma LiteralSource(text: string)
    ensures Source(Literal(text)) == text && (Proper(Literal(text)) <==> '{' !in text)
  {
  }

  lemma NothingToReplace(text: string, values: map<string, string>)
    requires Tame(values) && '{' !in text
    ensures Replaced(text, values) == Success(text)
  {
    hide MatchAt, Search;
    forall i: nat | i < |text| ensures MatchAt(text, i) == None {
      MatchOpens(text, i);
    }
    SearchFindsNothing(text);
    NothingReplaced(text, values);
  }

  lemma FirstHole(left: string, p: Part, right: string, values: map<string, string>)
    requires Tame(values) && '{' !in left && p.Hole? && Proper(p)
    ensures Replaced(left + Source(p) + right, values) ==
            if p.key !in values then Failure(p.key) else Replaced(left + values[p.key] + right, values)
  {
    HoleIsPlaceholder(p);
    hide Tame, Search, Placeholder, Replaced, Source, ProperHole;
    var (t, m, n) := (left + Source(p) + right, HoleMatch(p), Shifted(HoleMatch(p), |left|));
    FoundBehind(left, Source(p), right, m);
    ReplacedStep(t, n, values);
  }

  // The loop pass by pass

  lemma {:induction false} FirstPass(s: string, values: map<string, string>, m: Match, n: nat)
    requires Placeholder(s, m) && Search(s, 0) == Some(m) && Key(s, m) in values
    ensures AfterPasses(s, values, n + 1) == AfterPasses(Replace(s, m, values[Key(s, m)]), values, n)
  {
    hide Search, Placeholder, Key, Replace;
    if n > 0 {
      FirstPass(s, values, m, n - 1);
    } else {
      assert AfterPasses(s, values, 0) == Some(s);
    }
  }

  /** The loop ends after some number of passes: at a text without placeholders, or at an unknown key. */
  lemma {:induction false} LoopEndsAfterPasses(s: string, values: map<string, string>) returns (n: nat, t: string)
    requires Tame(values)
    ensures AfterPasses(s, values, n) == Some(t)
    ensures match Search(t, 0)
            case None => Replaced(s, values) == Success(t)
            case Some(m) => Key(t, m) !in values && Replaced(s, values) == Failure(Key(t, m))
    decreases Cost(s, Chosen(values))
  {
    hide Search, Placeholder, Key, Replace, Tame, Replaced, Cost;
    var found := Search(s, 0);
    if found.None? {
      NothingReplaced(s, values);
      n, t := 0, s;
    } else {
      var m := found.value;
      ReplacedStep(s, m, values);
      if Key(s, m) !in values {
        n, t := 0, s;
      } else {
        CostFalls(s, m, values, Chosen(values));
        n, t := LoopEndsAfterPasses(Replace(s, m, values[Key(s, m)]), values);
        FirstPass(s, values, m, n);
        n := n + 1;
      }
    }
  }
}
