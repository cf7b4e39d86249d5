/** script_reader.cpp: replacing {{ variable }} placeholders in a script, one leftmost placeholder at a time. */
module ScriptVariables {
  import opened Wrappers

  /** The character class \s. */
  predicate IsSpace(c: char) {
    c == ' ' || '\t' <= c <= '\r'
  }

  /** The character class [\w-]. */
  predicate IsWord(c: char) {
    'a' <= c <= 'z' || 'A' <= c <= 'Z' || '0' <= c <= '9' || c == '_' || c == '-'
  }

  /** The first index from i on at which s holds no space. */
  function SkipSpaces(s: string, i: nat): (j: nat)
    requires i <= |s|
    ensures i <= j <= |s|
    decreases |s| - i
  {
    if i < |s| && IsSpace(s[i]) then SkipSpaces(s, i + 1) else i
  }

  function SkipWord(s: string, i: nat): (j: nat)
    requires i <= |s|
    ensures i <= j <= |s|
    decreases |s| - i
  {
    if i < |s| && IsWord(s[i]) then SkipWord(s, i + 1) else i
  }

  /** A placeholder in some text: its key and where it starts and ends. */
  datatype Match = Match(start: nat, keyStart: nat, keyEnd: nat, close: nat) {
    function End(): nat {
      close + 2
    }
  }

  /** What the pattern matches at index i, if anything: no two of its character classes overlap. */
  function MatchAt(s: string, i: nat): (m: Option<Match>)
    ensures m.Some? ==> m.value.start == i && Placeholder(s, m.value)
  {
    if i + 2 > |s| || s[i] != '{' || s[i + 1] != '{' then None
    else
      var a := SkipSpaces(s, i + 2);
      var b := SkipWord(s, a);
      var c := SkipSpaces(s, b);
      if a == b || c + 2 > |s| || s[c] != '}' || s[c + 1] != '}' then None
      else
        SkippedSpaces(s, i + 2);
        SkippedWord(s, a);
        SkippedSpaces(s, b);
        Some(Match(i, a, b, c))
  }

  predicate AllSpace(s: string, i: nat, j: nat)
    requires i <= j <= |s|
  {
    forall k :: i <= k < j ==> IsSpace(s[k])
  }

  predicate AllWord(s: string, i: nat, j: nat)
    requires i <= j <= |s|
  {
    forall k :: i <= k < j ==> IsWord(s[k])
  }

  predicate Placeholder(s: string, m: Match) {
    && m.start + 2 <= m.keyStart < m.keyEnd <= m.close && m.End() <= |s|
    && s[m.start] == '{' && s[m.start + 1] == '{' && s[m.close] == '}' && s[m.close + 1] == '}'
    && AllSpace(s, m.start + 2, m.keyStart) && AllWord(s, m.keyStart, m.keyEnd) && AllSpace(s, m.keyEnd, m.close)
  }

  lemma {:induction false} SkippedSpaces(s: string, i: nat)
    requires i <= |s|
    ensures AllSpace(s, i, SkipSpaces(s, i))
    decreases |s| - i
  {
    if i < |s| && IsSpace(s[i]) {
      SkippedSpaces(s, i + 1);
    }
  }

  lemma {:induction false} SkippedWord(s: string, i: nat)
    requires i <= |s|
    ensures AllWord(s, i, SkipWord(s, i))
    decreases |s| - i
  {
    if i < |s| && IsWord(s[i]) {
      SkippedWord(s, i + 1);
    }
  }

  lemma {:induction false} SkipsSpaces(s: string, i: nat, j: nat)
    requires i <= j < |s| && AllSpace(s, i, j) && !IsSpace(s[j])
    ensures SkipSpaces(s, i) == j
    decreases j - i
  {
    if i < j {
      SkipsSpaces(s, i + 1, j);
    }
  }

  lemma {:induction false} SkipsWord(s: string, i: nat, j: nat)
    requires i <= j < |s| && AllWord(s, i, j) && !IsWord(s[j])
    ensures SkipWord(s, i) == j
    decreases j - i
  {
    if i < j {
      SkipsWord(s, i + 1, j);
    }
  }

  /** The pattern matches every placeholder, and in one way only. */
  lemma PlaceholderMatches(s: string, m: Match)
    requires Placeholder(s, m)
    ensures MatchAt(s, m.start) == Some(m)
  {
    SkipsSpaces(s, m.start + 2, m.keyStart);
    SkipsWord(s, m.keyStart, m.keyEnd);
    SkipsSpaces(s, m.keyEnd, m.close);
  }

  /** The leftmost match that starts at or after `from`. */
  function Search(s: string, from: nat): (m: Option<Match>)
    ensures m.Some? ==> from <= m.value.start && Placeholder(s, m.value)
    decreases |s| - from
  {
    if from >= |s| then None
    else
      match MatchAt(s, from)
      case Some(m) => Some(m)
      case None => Search(s, from + 1)
  }

  /** No placeholder starts in s at an index from `from` up to `to`. */
  ghost predicate NoneBetween(s: string, from: nat, to: nat) {
    forall i: nat :: from <= i < to ==> MatchAt(s, i) == None
  }

  lemma {:induction false} SearchIsLeftmost(s: string, from: nat)
    ensures NoneBetween(s, from, if Search(s, from).Some? then Search(s, from).value.start else |s|)
    decreases |s| - from
  {
    if from < |s| && MatchAt(s, from).None? {
      SearchIsLeftmost(s, from + 1);
    }
  }

  ghost predicate PlaceholderFree(s: string) {
    NoneBetween(s, 0, |s|)
  }

  function Key(s: string, m: Match): string
    requires Placeholder(s, m)
  {
    s[m.keyStart..m.keyEnd]
  }

  // Counting braces makes the loop terminate.

  function Braces(s: string): nat {
    if s == "" then 0 else (if s[0] == '{' then 1 else 0) + Braces(s[1..])
  }

  lemma {:induction false} BracesConcat(s: string, t: string)
    ensures Braces(s + t) == Braces(s) + Braces(t)
  {
    if s == "" {
      assert s + t == t;
    } else {
      assert (s + t)[1..] == s[1..] + t;
      BracesConcat(s[1..], t);
    }
  }

  lemma {:induction false} NoBraces(s: string)
    requires '{' !in s
    ensures Braces(s) == 0
  {
    if s != "" {
      NoBraces(s[1..]);
    }
  }

  lemma BracesOfPlaceholder(s: string, m: Match)
    requires Placeholder(s, m)
    ensures Braces(s) == Braces(s[..m.start]) + 2 + Braces(s[m.End()..])
  {
    var inner := s[m.start + 2..m.End()];
    forall k | 0 <= k < |inner| ensures inner[k] != '{' {
      assert inner[k] == s[m.start + 2 + k];
    }
    NoBraces(inner);
    assert s == s[..m.start] + ("{{" + (inner + s[m.End()..]));
    BracesConcat(s[..m.start], "{{" + (inner + s[m.End()..]));
    BracesConcat("{{", inner + s[m.End()..]);
    BracesConcat(inner, s[m.End()..]);
    assert "{{"[1..] == "{";
  }

  /** The script with one placeholder replaced. */
  function Replace(s: string, m: Match, value: string): string
    requires Placeholder(s, m)
  {
    s[..m.start] + value + s[m.End()..]
  }

  // A placeholder is one wherever its text stands.

  function Shifted(m: Match, n: int): Match
    requires m.start + n >= 0 && m.start <= m.keyStart <= m.keyEnd <= m.close
  {
    Match(m.start + n, m.keyStart + n, m.keyEnd + n, m.close + n)
  }

  /** s and t agree on the characters from i up to j, which lie n further on in t. */
  ghost predicate Agree(s: string, t: string, i: nat, j: nat, n: int) {
    && i <= j <= |s| && 0 <= i + n && j + n <= |t|
    && forall k :: i <= k < j ==> t[k + n] == s[k]
  }

  lemma SpacesMove(s: string, t: string, i: nat, j: nat, n: int)
    requires Agree(s, t, i, j, n) && AllSpace(s, i, j)
    ensures AllSpace(t, i + n, j + n)
  {
    forall k | i + n <= k < j + n ensures IsSpace(t[k]) {
      assert t[k] == t[(k - n) + n] == s[k - n];
    }
  }

  lemma WordMoves(s: string, t: string, i: nat, j: nat, n: int)
    requires Agree(s, t, i, j, n) && AllWord(s, i, j)
    ensures AllWord(t, i + n, j + n)
  {
    forall k | i + n <= k < j + n ensures IsWord(t[k]) {
      assert t[k] == t[(k - n) + n] == s[k - n];
    }
  }

  /** A placeholder is one in any text that agrees on the characters it covers, wherever they lie. */
  lemma PlaceholderMoves(s: string, t: string, m: Match, n: int)
    requires Placeholder(s, m) && Agree(s, t, m.start, m.End(), n)
    ensures Placeholder(t, Shifted(m, n)) && MatchAt(t, m.start + n) == Some(Shifted(m, n))
  {
    hide IsSpace, IsWord, MatchAt, AllSpace, AllWord;
    SpacesMove(s, t, m.start + 2, m.keyStart, n);
    WordMoves(s, t, m.keyStart, m.keyEnd, n);
    SpacesMove(s, t, m.keyEnd, m.close, n);
    assert t[m.start + n] == s[m.start];
    assert t[m.start + 1 + n] == s[m.start + 1];
    assert t[m.close + n] == s[m.close];
    assert t[m.close + 1 + n] == s[m.close + 1];
    PlaceholderMatches(t, Shifted(m, n));
  }

  function Further(m: Option<Match>, n: nat): Option<Match>
    requires m.Some? ==> m.value.start <= m.value.keyStart <= m.value.keyEnd <= m.value.close
  {
    if m.None? then None else Some(Shifted(m.value, n))
  }

  lemma MatchInSuffix(u: string, w: string, i: nat)
    ensures MatchAt(u + w, |u| + i) == Further(MatchAt(w, i), |u|)
  {
    hide MatchAt;
    if MatchAt(w, i).Some? {
      PlaceholderMoves(w, u + w, MatchAt(w, i).value, |u|);
    } else if MatchAt(u + w, |u| + i).Some? {
      PlaceholderMoves(u + w, w, MatchAt(u + w, |u| + i).value, -|u|);
    }
  }

  lemma PlaceholderExtent(s: string, m: Match)
    requires Placeholder(s, m)
    ensures m.start + 2 <= m.keyStart < m.keyEnd <= m.close && m.End() <= |s|
  {
  }

  /** No placeholder starts inside another. */
  lemma NoMatchInside(s: string, m: Match, i: nat)
    requires Placeholder(s, m) && m.start < i < m.End()
    ensures MatchAt(s, i) == None
  {
    if i < m.close {
      assert i + 1 < |s| && s[i + 1] != '{' by {
        assert IsSpace(s[i + 1]) || IsWord(s[i + 1]) || s[i + 1] == '}';
      }
    }
  }

  /** No placeholder of w starts at a character that one reaching into w covers. */
  lemma NoMatchBehind(u: string, w: string, m: Match, n: nat)
    requires Placeholder(u + w, m) && m.start < |u|
    requires n > 0 ==> |u| + n <= m.End()
    ensures NoneBetween(w, 0, n)
  {
    hide MatchAt, Placeholder;
    forall i: nat | i < n ensures MatchAt(w, i) == None {
      NoMatchInside(u + w, m, |u| + i);
      MatchInSuffix(u, w, i);
    }
  }

  lemma {:induction false} MatchFound(s: string, from: nat)
    ensures Search(s, from).Some? ==> MatchAt(s, Search(s, from).value.start) == Search(s, from)
    decreases |s| - from
  {
    if from < |s| && MatchAt(s, from).None? {
      MatchFound(s, from + 1);
    }
  }

  // Weighing braces makes the loop terminate.

  /** What each brace of a placeholder weighs, by its key, and what one outside of placeholders weighs. */
  datatype Weights = Weights(keys: map<string, nat>, stray: nat) {
    function Of(key: string): nat {
      if key in keys then keys[key] else 0
    }
  }

  function Cost(s: string, w: Weights): nat {
    if s == "" then 0
    else
      match MatchAt(s, 0)
      case Some(m) => 2 * w.Of(Key(s, m)) + Cost(s[m.End()..], w)
      case None => (if s[0] == '{' then w.stray else 0) + Cost(s[1..], w)
  }

  function Strays(s: string, w: Weights): nat {
    Braces(s) * w.stray
  }

  /** A stray brace can become part of any placeholder; and each value weighs less than the placeholder it replaces. */
  ghost predicate Outweighs(w: Weights, values: map<string, string>) {
    && (forall key :: key in w.keys ==> w.keys[key] <= w.stray)
    && (forall key :: key in values ==> Cost(values[key], w) < 2 * w.Of(key))
  }

  /** Values for which there are such weights: none of them can lead back to its own key. */
  ghost predicate Tame(values: map<string, string>) {
    exists w :: Outweighs(w, values)
  }

  ghost function Chosen(values: map<string, string>): (w: Weights)
    requires Tame(values)
    ensures Outweighs(w, values)
  {
    var w :| Outweighs(w, values);
    w
  }

  lemma StraysConcat(s: string, t: string, w: Weights)
    ensures Strays(s + t, w) == Strays(s, w) + Strays(t, w)
  {
    BracesConcat(s, t);
    assert (Braces(s) + Braces(t)) * w.stray == Braces(s) * w.stray + Braces(t) * w.stray;
  }

  lemma StraysOfPlaceholder(s: string, m: Match, w: Weights)
    requires Placeholder(s, m) && m.start == 0
    ensures Strays(s[..m.End()], w) == 2 * w.stray
  {
    var t := s[..m.End()];
    hide AllSpace, AllWord, IsSpace, IsWord;
    PlaceholderMoves(s, t, m, 0);
    BracesOfPlaceholder(t, m);
    assert t[..0] == "" && t[m.End()..] == "";
  }

  /** Text in which no placeholder starts weighs what its braces weigh. */
  lemma {:induction false} CostInFront(u: string, t: string, w: Weights)
    requires NoneBetween(u + t, 0, |u|)
    ensures Cost(u + t, w) == Strays(u, w) + Cost(t, w)
  {
    hide MatchAt;
    if u == "" {
      assert u + t == t;
      assert Braces(u) == 0;
    } else {
      var (c, rest) := (u[..1], u[1..]);
      assert (u + t)[1..] == rest + t && u == c + rest && u + t == c + (rest + t);
      forall i: nat | i < |rest| ensures MatchAt(rest + t, i) == None {
        MatchInSuffix(c, rest + t, i);
      }
      CostInFront(rest, t, w);
      StraysConcat(c, rest, w);
      assert c[1..] == "" && Braces(c) == if u[0] == '{' then 1 else 0;
    }
  }

  lemma CostOfFree(s: string, w: Weights)
    requires PlaceholderFree(s)
    ensures Cost(s, w) == Strays(s, w)
  {
    assert s + "" == s;
    CostInFront(s, "", w);
  }

  /** A match in the first of two texts is one in both together, and the other way round if it ends in the first. */
  lemma MatchInPrefix(u: string, t: string, i: nat)
    ensures MatchAt(u, i).Some? ==> MatchAt(u + t, i) == MatchAt(u, i)
    ensures MatchAt(u + t, i).Some? && MatchAt(u + t, i).value.End() <= |u| ==> MatchAt(u, i) == MatchAt(u + t, i)
  {
    hide MatchAt, Placeholder;
    if MatchAt(u, i).Some? {
      PlaceholderExtent(u, MatchAt(u, i).value);
      PlaceholderMoves(u, u + t, MatchAt(u, i).value, 0);
    } else if MatchAt(u + t, i).Some? && MatchAt(u + t, i).value.End() <= |u| {
      PlaceholderExtent(u + t, MatchAt(u + t, i).value);
      PlaceholderMoves(u + t, u, MatchAt(u + t, i).value, 0);
    }
  }

  /** Two texts weigh no more together, even if a placeholder forms where they meet. */
  lemma {:induction false} CostConcat(u: string, t: string, w: Weights)
    requires forall key :: key in w.keys ==> w.keys[key] <= w.stray
    ensures Cost(u + t, w) <= Cost(u, w) + Cost(t, w)
    decreases |u|
  {
    hide MatchAt, Placeholder;
    if u == "" {
      assert u + t == t;
    } else {
      MatchInPrefix(u, t, 0);
      if MatchAt(u, 0).Some? {
        var m := MatchAt(u, 0).value;
        PlaceholderExtent(u, m);
        assert (u + t)[m.End()..] == u[m.End()..] + t;
        assert Key(u + t, m) == Key(u, m);
        CostConcat(u[m.End()..], t, w);
      } else if MatchAt(u + t, 0).None? {
        assert (u + t)[1..] == u[1..] + t;
        CostConcat(u[1..], t, w);
      } else {
        CostAcross(u, t, MatchAt(u + t, 0).value, w);
      }
    }
  }

  lemma CostAcross(u: string, t: string, m: Match, w: Weights)
    requires forall key :: key in w.keys ==> w.keys[key] <= w.stray
    requires u != "" && Placeholder(u + t, m) && MatchAt(u + t, 0) == Some(m) && m.start == 0 && m.End() > |u|
    ensures Cost(u + t, w) <= Cost(u, w) + Cost(t, w)
  {
    hide MatchAt, Placeholder;
    PlaceholderExtent(u + t, m);
    var n := m.End() - |u|;
    forall i: nat | i < |u| ensures MatchAt(u, i) == None {
      MatchInPrefix(u, t, i);
      if i > 0 {
        NoMatchInside(u + t, m, i);
      } else if MatchAt(u, 0).Some? {
        PlaceholderExtent(u, MatchAt(u, 0).value);
      }
    }
    CostOfFree(u, w);
    NoMatchBehind(u, t, m, n);
    assert t == t[..n] + t[n..] && (u + t)[..m.End()] == u + t[..n] && (u + t)[m.End()..] == t[n..];
    CostInFront(t[..n], t[n..], w);
    StraysConcat(u, t[..n], w);
    StraysOfPlaceholder(u + t, m, w);
  }

  /** Every pass makes the script lighter. */
  lemma CostFalls(s: string, m: Match, values: map<string, string>, w: Weights)
    requires Search(s, 0) == Some(m) && Placeholder(s, m) && Key(s, m) in values && Outweighs(w, values)
    ensures Cost(Replace(s, m, values[Key(s, m)]), w) < Cost(s, w)
  {
    SearchIsLeftmost(s, 0);
    MatchFound(s, 0);
    hide MatchAt, Search, Placeholder, Strays;
    PlaceholderExtent(s, m);
    var (left, v, right) := (s[..m.start], values[Key(s, m)], s[m.End()..]);
    CostOfFirst(s, m, w);
    forall i: nat | i < |left| ensures MatchAt(left, i) == None {
      assert left + s[m.start..] == s;
      MatchInPrefix(left, s[m.start..], i);
    }
    CostOfFree(left, w);
    assert Replace(s, m, v) == left + v + right;
    CostConcat(left, v, w);
    CostConcat(left + v, right, w);
  }

  lemma CostOfFirst(s: string, m: Match, w: Weights)
    requires Placeholder(s, m) && NoneBetween(s, 0, m.start) && MatchAt(s, m.start) == Some(m)
    ensures m.End() <= |s| && Cost(s, w) == Strays(s[..m.start], w) + 2 * w.Of(Key(s, m)) + Cost(s[m.End()..], w)
  {
    hide MatchAt, Placeholder, Strays;
    PlaceholderExtent(s, m);
    var (left, rest) := (s[..m.start], s[m.start..]);
    assert left + rest == s;
    CostInFront(left, rest, w);
    MatchInSuffix(left, rest, 0);
    var n := MatchAt(rest, 0).value;
    PlaceholderExtent(rest, n);
    assert rest[n.End()..] == s[m.End()..] && Key(rest, n) == Key(s, m);
  }

  /** What the loop makes of s; a failure carries the first unknown key it meets. */
  ghost function Replaced(s: string, values: map<string, string>): Result<string, string>
    requires Tame(values)
    decreases Cost(s, Chosen(values))
  {
    match Search(s, 0)
    case None => Success(s)
    case Some(m) =>
      if Key(s, m) !in values then Failure(Key(s, m))
      else
        CostFalls(s, m, values, Chosen(values));
        Replaced(Replace(s, m, values[Key(s, m)]), values)
  }

  method ReplaceVariables(script: string, values: map<string, string>) returns (r: Result<string, string>)
    requires Tame(values)
    ensures r == Replaced(script, values)
    ensures r.Success? ==> PlaceholderFree(r.value)
    ensures r.Failure? ==> r.error !in values
  {
    var scriptCode := script;
    var found := Search(scriptCode, 0);
    while found.Some?
      invariant found == Search(scriptCode, 0)
      invariant Replaced(script, values) == Replaced(scriptCode, values)
      decreases Cost(scriptCode, Chosen(values))
    {
      var m := found.value;
      var key := Key(scriptCode, m);
      if key !in values {
        return Failure(key);
      }
      CostFalls(scriptCode, m, values, Chosen(values));
      scriptCode := scriptCode[..m.start] + values[key] + scriptCode[m.End()..];
      found := Search(scriptCode, 0);
    }
    SearchIsLeftmost(scriptCode, 0);
    return Success(scriptCode);
  }

  /** Values with at most one opening brace each. */
  lemma FewBracesAreTame(values: map<string, string>)
    requires forall key :: key in values ==> Braces(values[key]) <= 1
    ensures Tame(values)
  {
    var w := Weights(map key | key in values :: 1, 1);
    hide MatchAt, Placeholder;
    forall key | key in values ensures Cost(values[key], w) <= 1 {
      var v := values[key];
      forall i: nat | i < |v| ensures MatchAt(v, i) == None {
        if MatchAt(v, i).Some? {
          BracesOfPlaceholder(v, MatchAt(v, i).value);
        }
      }
      CostOfFree(v, w);
    }
    assert Outweighs(w, values);
  }

  /** Every opening brace belongs to a placeholder, of a key that is unknown or has a lower rank than this one. */
  predicate LeadsBelow(v: string, ranks: map<string, nat>, rank: nat) {
    v == "" ||
    match MatchAt(v, 0)
    case Some(m) => (Key(v, m) in ranks ==> ranks[Key(v, m)] < rank) && LeadsBelow(v[m.End()..], ranks, rank)
    case None => v[0] != '{' && LeadsBelow(v[1..], ranks, rank)
  }

  /** Values that refer to one another, but never in a circle. */
  ghost predicate Ranked(values: map<string, string>, ranks: map<string, nat>, top: nat, bound: nat) {
    && (forall key :: key in ranks ==> ranks[key] <= top)
    && (forall key :: key in values ==>
          key in ranks && Braces(values[key]) <= bound && LeadsBelow(values[key], ranks, ranks[key]))
  }

  function Pow(b: nat, n: nat): (p: nat)
    ensures b > 0 ==> p > 0
  {
    if n == 0 then 1 else b * Pow(b, n - 1)
  }

  lemma {:induction false} PowGrows(b: nat, m: nat, n: nat)
    requires b > 0 && m <= n
    ensures Pow(b, m) <= Pow(b, n)
  {
    if m < n {
      PowGrows(b, m, n - 1);
      assert b * Pow(b, n - 1) >= Pow(b, n - 1);
    }
  }

  function RankWeights(ranks: map<string, nat>, top: nat, bound: nat): Weights {
    Weights(map key | key in ranks :: Pow(bound + 1, ranks[key]), Pow(bound + 1, top))
  }

  /** What a brace of a placeholder of lower rank weighs at most. */
  function Below(bound: nat, rank: nat): nat {
    if rank == 0 then 0 else Pow(bound + 1, rank - 1)
  }

  lemma {:induction false} CostBelow(v: string, ranks: map<string, nat>, top: nat, bound: nat, rank: nat)
    requires LeadsBelow(v, ranks, rank)
    ensures Cost(v, RankWeights(ranks, top, bound)) <= Braces(v) * Below(bound, rank)
    decreases |v|
  {
    hide MatchAt, Placeholder, Pow, Below, RankWeights;
    if v != "" {
      if MatchAt(v, 0).Some? {
        var m := MatchAt(v, 0).value;
        PlaceholderExtent(v, m);
        CostBelow(v[m.End()..], ranks, top, bound, rank);
        BracesOfPlaceholder(v, m);
        assert v[..0] == "";
        WeightBelow(Key(v, m), ranks, top, bound, rank);
        TwoMore(Braces(v[m.End()..]), Below(bound, rank));
      } else {
        CostBelow(v[1..], ranks, top, bound, rank);
      }
    }
  }

  lemma WeightBelow(key: string, ranks: map<string, nat>, top: nat, bound: nat, rank: nat)
    requires key in ranks ==> ranks[key] < rank
    ensures RankWeights(ranks, top, bound).Of(key) <= Below(bound, rank)
  {
    hide Pow;
    if key in ranks {
      PowGrows(bound + 1, ranks[key], rank - 1);
    }
  }

  lemma TwoMore(n: nat, b: nat)
    ensures (2 + n) * b == 2 * b + n * b
  {
  }

  /** The loop ends for values that refer to one another, as long as none leads back to itself. */
  lemma RankedIsTame(values: map<string, string>, ranks: map<string, nat>, top: nat, bound: nat)
    requires Ranked(values, ranks, top, bound)
    ensures Tame(values)
  {
    var w := RankWeights(ranks, top, bound);
    forall key | key in w.keys ensures w.keys[key] <= w.stray {
      PowGrows(bound + 1, ranks[key], top);
    }
    forall key | key in values ensures Cost(values[key], w) < 2 * w.Of(key) {
      CostBelow(values[key], ranks, top, bound, ranks[key]);
      BelowIsLess(Braces(values[key]), bound, ranks[key]);
      hide Pow, Cost;
    }
    hide Cost, Pow;
    assert Outweighs(w, values);
  }

  lemma BelowIsLess(n: nat, bound: nat, rank: nat)
    requires n <= bound
    ensures n * Below(bound, rank) < 2 * Pow(bound + 1, rank)
  {
    if rank > 0 {
      var p := Pow(bound + 1, rank - 1);
      assert n * p <= bound * p < (bound + 1) * p;
    }
  }

  /** A value that holds a placeholder of its own key is not tame, whatever the others are. */
  lemma OwnKeyIsNotTame(values: map<string, string>, key: string, m: Match)
    requires key in values && Search(values[key], 0) == Some(m) && Placeholder(values[key], m) && Key(values[key], m) == key
    ensures !Tame(values)
  {
    var v := values[key];
    SearchIsLeftmost(v, 0);
    MatchFound(v, 0);
    hide MatchAt, Search, Placeholder;
    forall w ensures !Outweighs(w, values) {
      CostOfFirst(v, m, w);
    }
  }

  /** The script after n passes, as long as the loop goes on. */
  function AfterPasses(s: string, values: map<string, string>, n: nat): Option<string> {
    if n == 0 then Some(s)
    else
      match AfterPasses(s, values, n - 1)
      case None => None
      case Some(t) =>
        match Search(t, 0)
        case None => None
        case Some(m) => if Key(t, m) in values then Some(Replace(t, m, values[Key(t, m)])) else None
  }

  function Repeated(s: string, n: nat): string {
    if n == 0 then "" else Repeated(s, n - 1) + s
  }

  lemma {:induction false} RepeatedInFront(s: string, n: nat)
    ensures s + Repeated(s, n) == Repeated(s, n + 1)
  {
    if n == 0 {
      assert s + "" == s == "" + s;
    } else {
      RepeatedInFront(s, n - 1);
      assert s + (Repeated(s, n - 1) + s) == s + Repeated(s, n - 1) + s;
    }
  }

  lemma {:induction false} RepeatedHasNoBrace(s: string, n: nat)
    requires '{' !in s
    ensures '{' !in Repeated(s, n)
  {
    if n > 0 {
      RepeatedHasNoBrace(s, n - 1);
    }
  }

  /** Behind a text without opening braces, a placeholder is the one that is found. */
  lemma FoundBehind(left: string, hole: string, right: string, m: Match)
    requires '{' !in left && Placeholder(hole, m) && m.start == 0 && m.End() == |hole|
    ensures var t := left + hole + right;
            var n := Shifted(m, |left|);
            && Placeholder(t, n) && Search(t, 0) == Some(n) && Key(t, n) == Key(hole, m)
            && t[..n.start] == left && t[n.End()..] == right
  {
    hide MatchAt, Search, IsSpace, IsWord, AllSpace, AllWord;
    var (t, n) := (left + hole + right, Shifted(m, |left|));
    PlaceholderExtent(hole, m);
    PlaceholderMoves(hole, t, m, |left|);
    forall i: nat | i < |left| ensures MatchAt(t, i) == None {
      MatchOpens(t, i);
      assert t[i] == left[i];
    }
    SearchFinds(t, n);
    assert t[n.keyStart..n.keyEnd] == hole[m.keyStart..m.keyEnd];
  }

  /**
   * And then the loop never ends: where a value holds a placeholder of its own key, with no opening brace in front of
   * it, every pass finds that placeholder again, with one more copy of the value's text on either side.
   */
  lemma {:induction false} SelfReferenceLoops(values: map<string, string>, hole: string, m: Match, u: string, w: string,
                                              left: string, right: string, n: nat)
    requires Placeholder(hole, m) && m.start == 0 && m.End() == |hole|
    requires Key(hole, m) in values && values[Key(hole, m)] == u + hole + w && '{' !in u && '{' !in left
    ensures AfterPasses(left + hole + right, values, n) ==
            Some(left + Repeated(u, n) + hole + (Repeated(w, n) + right))
  {
    hide Search, Placeholder, Key, Replace;
    if n == 0 {
      assert left + "" == left && "" + right == right;
    } else {
      SelfReferenceLoops(values, hole, m, u, w, left, right, n - 1);
      var (front, back) := (left + Repeated(u, n - 1), Repeated(w, n - 1) + right);
      RepeatedHasNoBrace(u, n - 1);
      PlaceholderExtent(hole, m);
      FoundBehind(front, hole, back, m);
      ReplacedAround(front, hole, back, m, u + hole + w);
      RepeatedInFront(w, n - 1);
      MoreAround(left, u, hole, w, right, n - 1);
    }
  }

  lemma ReplacedAround(front: string, hole: string, back: string, m: Match, v: string)
    requires m.start <= m.keyStart <= m.keyEnd <= m.close
    requires var (t, n) := (front + hole + back, Shifted(m, |front|));
             Placeholder(t, n) && t[..n.start] == front && t[n.End()..] == back
    ensures Replace(front + hole + back, Shifted(m, |front|), v) == front + v + back
  {
  }

  lemma MoreAround(left: string, u: string, hole: string, w: string, right: string, n: nat)
    requires w + Repeated(w, n) == Repeated(w, n + 1)
    ensures left + Repeated(u, n) + (u + hole + w) + (Repeated(w, n) + right) ==
            left + Repeated(u, n + 1) + hole + (Repeated(w, n + 1) + right)
  {
    calc {
      left + Repeated(u, n) + (u + hole + w) + (Repeated(w, n) + right);
      left + (Repeated(u, n) + u) + hole + (w + Repeated(w, n) + right);
      left + Repeated(u, n + 1) + hole + (Repeated(w, n + 1) + right);
    }
  }

  // One leftmost placeholder at a time, against all at once.

  /** s with a text in front of it, unless it is a failure. */
  function InFront(text: string, r: Result<string, string>): Result<string, string> {
    if r.Success? then Success(text + r.value) else r
  }

  /** All placeholders of s replaced in one sweep from left to right; what is put in is not looked at again. */
  function Substituted(s: string, values: map<string, string>): Result<string, string>
    decreases |s|
  {
    match Search(s, 0)
    case None => Success(s)
    case Some(m) =>
      if Key(s, m) !in values then Failure(Key(s, m))
      else InFront(s[..m.start] + values[Key(s, m)], Substituted(s[m.End()..], values))
  }

  lemma SearchFinds(s: string, m: Match)
    requires Placeholder(s, m) && NoneBetween(s, 0, m.start)
    ensures Search(s, 0) == Some(m)
  {
    PlaceholderMatches(s, m);
    SearchIsLeftmost(s, 0);
    MatchFound(s, 0);
    hide MatchAt, Search;
  }

  lemma SearchFindsNothing(s: string)
    requires PlaceholderFree(s)
    ensures Search(s, 0) == None
  {
    MatchFound(s, 0);
    hide MatchAt, Search;
  }

  lemma NoneBehind(u: string, w: string, to: nat)
    requires NoneBetween(u + w, 0, |u|) && NoneBetween(w, 0, to)
    ensures NoneBetween(u + w, 0, |u| + to)
  {
    hide MatchAt;
    forall i: nat | i < |u| + to ensures MatchAt(u + w, i) == None {
      if i >= |u| {
        MatchInSuffix(u, w, i - |u|);
      }
    }
  }

  /** A placeholder that lies behind a text: the text around it, and its key. */
  lemma AroundMoved(u: string, w: string, m: Match)
    requires Placeholder(w, m) && Placeholder(u + w, Shifted(m, |u|))
    ensures var n := Shifted(m, |u|);
            && Key(u + w, n) == Key(w, m)
            && (u + w)[..n.start] == u + w[..m.start] && (u + w)[n.End()..] == w[m.End()..]
  {
    hide AllSpace, AllWord;
  }

  lemma InFrontTwice(u: string, v: string, r: Result<string, string>)
    ensures InFront(u + v, r) == InFront(u, InFront(v, r))
  {
    if r.Success? {
      assert u + v + r.value == u + (v + r.value);
    }
  }

  lemma SubstitutedStep(s: string, m: Match, values: map<string, string>)
    requires Placeholder(s, m) && Search(s, 0) == Some(m)
    ensures Substituted(s, values) ==
            (if Key(s, m) !in values then Failure(Key(s, m))
             else InFront(s[..m.start] + values[Key(s, m)], Substituted(s[m.End()..], values)))
  {
    hide Search, Placeholder;
  }

  /** Text in which no placeholder starts is kept by the sweep. */
  lemma SubstitutedBehind(u: string, w: string, values: map<string, string>)
    requires NoneBetween(u + w, 0, |u|)
    ensures Substituted(u + w, values) == InFront(u, Substituted(w, values))
  {
    hide MatchAt, Search, Placeholder, Substituted;
    var s := u + w;
    SearchIsLeftmost(w, 0);
    if Search(w, 0).None? {
      NoneBehind(u, w, |w|);
      SearchFindsNothing(s);
      NothingSubstituted(s, values);
      NothingSubstituted(w, values);
    } else {
      var m := Search(w, 0).value;
      PlaceholderExtent(w, m);
      var n := Shifted(m, |u|);
      SearchFindsBehind(u, w, m);
      AroundMoved(u, w, m);
      SubstitutedStep(s, n, values);
      SubstitutedStep(w, m, values);
      if Key(w, m) in values {
        var v := values[Key(w, m)];
        assert u + w[..m.start] + v == u + (w[..m.start] + v);
        InFrontTwice(u, w[..m.start] + v, Substituted(w[m.End()..], values));
      }
    }
  }

  lemma NothingSubstituted(s: string, values: map<string, string>)
    requires Search(s, 0).None?
    ensures Substituted(s, values) == Success(s)
  {
    hide Search;
  }

  lemma SearchFindsBehind(u: string, w: string, m: Match)
    requires NoneBetween(u + w, 0, |u|) && Search(w, 0) == Some(m) && Placeholder(w, m)
    ensures Placeholder(u + w, Shifted(m, |u|)) && Search(u + w, 0) == Some(Shifted(m, |u|))
  {
    hide MatchAt, Search, Placeholder;
    SearchIsLeftmost(w, 0);
    PlaceholderExtent(w, m);
    PlaceholderMoves(w, u + w, m, |u|);
    NoneBehind(u, w, m.start);
    SearchFinds(u + w, Shifted(m, |u|));
  }

  // Where a replaced value forms a new placeholder with its surroundings, the two differ.

  /** The sweep keeps the text in front of the first placeholder it replaces. */
  lemma SweepKeepsPrefix(w: string, n: nat, values: map<string, string>)
    requires n <= |w| && NoneBetween(w, 0, n) && Substituted(w, values).Success?
    ensures var t := Substituted(w, values).value; n <= |t| && t[..n] == w[..n]
  {
    hide MatchAt, Search, Placeholder, Substituted;
    if Search(w, 0).None? {
      NothingSubstituted(w, values);
    } else {
      var m := Search(w, 0).value;
      MatchFound(w, 0);
      PlaceholderExtent(w, m);
      SubstitutedStep(w, m, values);
    }
  }

  lemma PrefixAgrees(u: string, w: string, t: string, i: nat, j: nat, n: nat)
    requires i <= j <= |u| + n && n <= |w| && n <= |t| && t[..n] == w[..n]
    ensures Agree(u + w, u + t, i, j, 0)
  {
    forall k | i <= k < j ensures (u + t)[k + 0] == (u + w)[k] {
      if k >= |u| {
        assert t[..n][k - |u|] == w[..n][k - |u|];
      }
    }
  }

  /** A placeholder that starts in front of w is still there after the sweep over w. */
  lemma PlaceholderSurvivesSweep(u: string, w: string, m: Match, values: map<string, string>)
    requires Placeholder(u + w, m) && m.start < |u| && Substituted(w, values).Success?
    ensures !PlaceholderFree(u + Substituted(w, values).value)
  {
    hide MatchAt, Search, Placeholder, Substituted;
    var (s, t) := (u + w, Substituted(w, values).value);
    var n := if m.End() <= |u| then 0 else m.End() - |u|;
    PlaceholderExtent(s, m);
    NoMatchBehind(u, w, m, n);
    SweepKeepsPrefix(w, n, values);
    PrefixAgrees(u, w, t, m.start, m.End(), n);
    PlaceholderMoves(s, u + t, m, 0);
  }

  /** The loop only stops at a text that holds no placeholder. */
  lemma {:induction false} ReplacedIsFree(s: string, values: map<string, string>)
    requires Tame(values)
    ensures Replaced(s, values).Success? ==> PlaceholderFree(Replaced(s, values).value)
    decreases Cost(s, Chosen(values))
  {
    hide MatchAt, Search, Placeholder;
    SearchIsLeftmost(s, 0);
    if Search(s, 0).Some? && Key(s, Search(s, 0).value) in values {
      var m := Search(s, 0).value;
      CostFalls(s, m, values, Chosen(values));
      ReplacedIsFree(Replace(s, m, values[Key(s, m)]), values);
    }
  }

  lemma ReplacedStep(s: string, m: Match, values: map<string, string>)
    requires Tame(values) && Placeholder(s, m) && Search(s, 0) == Some(m)
    ensures Replaced(s, values) ==
            (if Key(s, m) !in values then Failure(Key(s, m))
             else Replaced(Replace(s, m, values[Key(s, m)]), values))
  {
    hide Search, Placeholder, Replace, Braces;
  }

  lemma NothingReplaced(s: string, values: map<string, string>)
    requires Tame(values) && Search(s, 0).None?
    ensures Replaced(s, values) == Success(s)
  {
    hide Search;
  }

  /**
   * Where the sweep succeeds, the loop gives the same text exactly when the swept text holds no placeholder,
   * that is when no value forms a new one with the text around it.
   */
  lemma {:induction false} LoopIsSweep(s: string, values: map<string, string>)
    requires Tame(values) && Substituted(s, values).Success?
    ensures Replaced(s, values) == Substituted(s, values) <==> PlaceholderFree(Substituted(s, values).value)
    decreases Cost(s, Chosen(values))
  {
    ReplacedIsFree(s, values);
    hide MatchAt, Search, Placeholder, Substituted, Replaced, Tame;
    if Search(s, 0).None? {
      NothingSubstituted(s, values);
      NothingReplaced(s, values);
    } else {
      var m := Search(s, 0).value;
      SubstitutedStep(s, m, values);
      ReplacedStep(s, m, values);
      PlaceholderExtent(s, m);
      var v, w := values[Key(s, m)], s[m.End()..];
      var u := s[..m.start] + v;
      CostFalls(s, m, values, Chosen(values));
      if NoneBetween(u + w, 0, |u|) {
        SubstitutedBehind(u, w, values);
        LoopIsSweep(u + w, values);
      } else {
        var i: nat :| i < |u| && MatchAt(u + w, i) != None;
        PlaceholderSurvivesSweep(u, w, MatchAt(u + w, i).value, values);
      }
    }
  }

  // Where there are no stray braces, the two always agree, failures included.

  predicate Opens(s: string, i: nat) {
    i + 1 < |s| && s[i] == '{' && s[i + 1] == '{'
  }

  /** Every "{{" in s opens a placeholder. */
  ghost predicate Strayless(s: string) {
    forall i: nat :: Opens(s, i) ==> MatchAt(s, i).Some?
  }

  ghost predicate BraceFree(values: map<string, string>) {
    forall key :: key in values ==> '{' !in values[key]
  }

  lemma BraceFreeIsTame(values: map<string, string>)
    requires BraceFree(values)
    ensures Tame(values)
  {
    forall key | key in values ensures Braces(values[key]) <= 1 {
      NoBraces(values[key]);
    }
    FewBracesAreTame(values);
  }

  lemma ReplaceRemovesBraces(s: string, m: Match, value: string)
    requires Placeholder(s, m)
    ensures Braces(Replace(s, m, value)) == Braces(s) - 2 + Braces(value)
  {
    BracesOfPlaceholder(s, m);
    BracesConcat(s[..m.start] + value, s[m.End()..]);
    BracesConcat(s[..m.start], value);
  }

  /** After the first placeholder is replaced, no "{{" is left in front of what follows it. */
  lemma NothingOpensBehind(s: string, m: Match, v: string, i: nat)
    requires Strayless(s) && Placeholder(s, m) && NoneBetween(s, 0, m.start) && '{' !in v && i < m.start + |v|
    ensures !Opens(Replace(s, m, v), i)
  {
    hide MatchAt;
    var t := Replace(s, m, v);
    if i < m.start {
      assert MatchAt(s, i) == None && !Opens(s, i);
      assert s[i] == t[i] && s[m.start] == '{';
    } else {
      assert t[i] == v[i - m.start];
    }
  }

  /** Every "{{" in the second of two texts opens a placeholder if it does in both together. */
  lemma StraylessSuffix(u: string, w: string)
    requires Strayless(u + w)
    ensures Strayless(w)
  {
    hide MatchAt;
    forall i: nat | Opens(w, i) ensures MatchAt(w, i).Some? {
      assert Opens(u + w, |u| + i);
      MatchInSuffix(u, w, i);
    }
  }

  lemma StraylessInFront(u: string, w: string)
    requires Strayless(w) && forall i: nat | i < |u| :: !Opens(u + w, i)
    ensures Strayless(u + w)
  {
    hide MatchAt;
    forall i: nat | Opens(u + w, i) ensures MatchAt(u + w, i).Some? {
      var j := i - |u|;
      assert Opens(w, j);
      MatchInSuffix(u, w, j);
    }
  }

  lemma StraylessAfterReplace(s: string, m: Match, v: string)
    requires Strayless(s) && Placeholder(s, m) && NoneBetween(s, 0, m.start) && '{' !in v
    ensures Strayless(Replace(s, m, v))
    ensures NoneBetween(Replace(s, m, v), 0, m.start + |v|)
  {
    hide Strayless, Placeholder, Opens, MatchAt;
    PlaceholderExtent(s, m);
    var (u, w) := (s[..m.start] + v, s[m.End()..]);
    forall i: nat | i < |u| ensures MatchAt(u + w, i) == None && !Opens(u + w, i) {
      NothingOpensBehind(s, m, v, i);
      MatchOpens(u + w, i);
    }
    assert s[..m.End()] + w == s;
    StraylessSuffix(s[..m.End()], w);
    StraylessInFront(u, w);
  }

  lemma MatchOpens(s: string, i: nat)
    ensures MatchAt(s, i).Some? ==> Opens(s, i)
  {
    hide SkipSpaces, SkipWord;
  }

  /**
   * Where every "{{" of the script opens a placeholder and no value holds a brace, the loop is the sweep:
   * the same text, or the same unknown key.
   */
  lemma {:induction false} StraylessLoopIsSweep(s: string, values: map<string, string>)
    requires BraceFree(values) && Strayless(s)
    ensures Tame(values) && Replaced(s, values) == Substituted(s, values)
    decreases Braces(s)
  {
    BraceFreeIsTame(values);
    hide MatchAt, Search, Placeholder, Substituted, Replaced, Tame, Strayless;
    if Search(s, 0).None? {
      NothingSubstituted(s, values);
      NothingReplaced(s, values);
    } else {
      var m := Search(s, 0).value;
      SubstitutedStep(s, m, values);
      ReplacedStep(s, m, values);
      PlaceholderExtent(s, m);
      if Key(s, m) in values {
        var v, w := values[Key(s, m)], s[m.End()..];
        var u := s[..m.start] + v;
        ReplaceRemovesBraces(s, m, v);
        NoBraces(v);
        SearchIsLeftmost(s, 0);
        StraylessAfterReplace(s, m, v);
        SubstitutedBehind(u, w, values);
        StraylessLoopIsSweep(u + w, values);
      }
    }
  }
}
