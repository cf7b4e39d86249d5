/** helpers.cpp: splitting strings, and the comma-joined recipes of the setup requests that it takes apart again. */
module Strings {
  import opened Wrappers

  predicate OccursAt(s: string, d: string, i: nat) {
    i + |d| <= |s| && s[i..i + |d|] == d
  }

  /** std::string::find: the first occurrence of d in s at or after `from`, or -1. */
  function Find(s: string, d: string, from: nat): (i: int)
    requires from <= |s|
    ensures i == -1 || from <= i <= i + |d| <= |s|
    decreases |s| - from
  {
    if OccursAt(s, d, from) then from
    else if from == |s| then -1
    else Find(s, d, from + 1)
  }

  lemma {:induction false} FindIsFirst(s: string, d: string, from: nat)
    requires from <= |s|
    ensures var i := Find(s, d, from);
            && (i >= 0 ==> OccursAt(s, d, i))
            && forall k: nat :: from <= k && (k < i || i == -1) ==> !OccursAt(s, d, k)
    decreases |s| - from
  {
    if !OccursAt(s, d, from) && from < |s| {
      FindIsFirst(s, d, from + 1);
    }
  }

  ghost predicate Contains(s: string, d: string) {
    exists i: nat :: OccursAt(s, d, i)
  }

  /** The pieces between successive leftmost occurrences of d. */
  function Split(s: string, d: string): (pieces: seq<string>)
    requires d != ""
    ensures |pieces| >= 1
    decreases |s|
  {
    var i := Find(s, d, 0);
    if i == -1 then [s] else [s[..i]] + Split(s[i + |d|..], d)
  }

  function Join(pieces: seq<string>, d: string): string
    requires |pieces| >= 1
  {
    if |pieces| == 1 then pieces[0] else pieces[0] + d + Join(pieces[1..], d)
  }

  method SplitString(input: string, delimiter: string) returns (result: seq<string>)
    requires delimiter != ""
    ensures result == Split(input, delimiter)
  {
    hide OccursAt, Find, Split;
    result := [];
    var pos := 0;
    var posEnd := Find(input, delimiter, pos);
    while posEnd != -1
      invariant 0 <= pos <= |input| && posEnd == Find(input, delimiter, pos)
      invariant Split(input, delimiter) == result + Split(input[pos..], delimiter)
      decreases |input| - pos
    {
      FindInSuffix(input, delimiter, pos);
      SplitStep(input[pos..], delimiter);
      SuffixOfSuffix(input, pos, posEnd, posEnd + |delimiter|);
      result := result + [input[pos..posEnd]];
      pos := posEnd + |delimiter|;
      posEnd := Find(input, delimiter, pos);
    }
    FindInSuffix(input, delimiter, pos);
    SplitStep(input[pos..], delimiter);
    result := result + [input[pos..]];
  }

  lemma OccursInSuffix(s: string, d: string, from: nat, k: nat)
    requires from <= |s|
    ensures OccursAt(s[from..], d, k) <==> OccursAt(s, d, from + k)
  {
    if from + k + |d| <= |s| {
      assert s[from..][k..k + |d|] == s[from + k..from + k + |d|];
    }
  }

  lemma OccursInPrefix(s: string, d: string, to: nat, k: nat)
    requires to <= |s| && OccursAt(s[..to], d, k)
    ensures OccursAt(s, d, k) && k + |d| <= to
  {
    assert s[k..k + |d|] == s[..to][k..k + |d|];
  }

  lemma FindInSuffix(s: string, d: string, from: nat)
    requires from <= |s|
    ensures Find(s[from..], d, 0) == if Find(s, d, from) == -1 then -1 else Find(s, d, from) - from
  {
    var (i, j) := (Find(s, d, from), Find(s[from..], d, 0));
    FindIsFirst(s, d, from);
    FindIsFirst(s[from..], d, 0);
    hide OccursAt, Find;
    if i != -1 {
      OccursInSuffix(s, d, from, i - from);
    }
    if j != -1 {
      OccursInSuffix(s, d, from, j);
    }
  }

  lemma SplitStep(s: string, d: string)
    requires d != ""
    ensures var i := Find(s, d, 0);
            Split(s, d) == if i == -1 then [s] else [s[..i]] + Split(s[i + |d|..], d)
  {
    hide Find;
  }

  lemma SuffixOfSuffix(s: string, from: nat, i: nat, j: nat)
    requires from <= i <= j <= |s|
    ensures s[from..][..i - from] == s[from..i] && s[from..][j - from..] == s[j..]
  {
  }

  /** Joining the pieces again gives the string, and no piece contains the delimiter. */
  lemma {:induction false} SplitThenJoin(s: string, d: string)
    requires d != ""
    ensures Join(Split(s, d), d) == s
    ensures forall k :: 0 <= k < |Split(s, d)| ==> !Contains(Split(s, d)[k], d)
    decreases |s|
  {
    var i := Find(s, d, 0);
    FindIsFirst(s, d, 0);
    if i != -1 {
      var rest := s[i + |d|..];
      SplitThenJoin(rest, d);
      assert s == s[..i] + d + rest;
      hide OccursAt, Find;
      assert Split(s, d)[1..] == Split(rest, d);
      forall k: nat ensures !OccursAt(s[..i], d, k) {
        if OccursAt(s[..i], d, k) {
          OccursInPrefix(s, d, i, k);
        }
      }
    }
  }

  /** Splitting at a one-character delimiter gives back the joined pieces exactly when none contains it. */
  lemma {:induction false} JoinThenSplit(pieces: seq<string>, c: char)
    requires |pieces| >= 1
    ensures Split(Join(pieces, [c]), [c]) == pieces <==> forall k :: 0 <= k < |pieces| ==> c !in pieces[k]
  {
    if forall k :: 0 <= k < |pieces| ==> c !in pieces[k] {
      FreePiecesComeBack(pieces, c);
    } else {
      SplitThenJoin(Join(pieces, [c]), [c]);
      var k :| 0 <= k < |pieces| && c in pieces[k];
      var i :| 0 <= i < |pieces[k]| && pieces[k][i] == c;
      assert OccursAt(pieces[k], [c], i);
    }
  }

  lemma {:induction false} FreePiecesComeBack(pieces: seq<string>, c: char)
    requires |pieces| >= 1 && forall k :: 0 <= k < |pieces| ==> c !in pieces[k]
    ensures Split(Join(pieces, [c]), [c]) == pieces
  {
    var (s, p) := (Join(pieces, [c]), pieces[0]);
    FindIsFirst(s, [c], 0);
    forall k: nat | k < |p| && k < |s|
      ensures !OccursAt(s, [c], k)
    {
      assert s[k] == p[k];
    }
    if |pieces| > 1 {
      FreePiecesComeBack(pieces[1..], c);
      assert OccursAt(s, [c], |p|) by {
        assert s[|p|..|p| + 1] == [c];
      }
      assert Find(s, [c], 0) == |p|;
      assert s[..|p|] == p && s[|p| + 1..] == Join(pieces[1..], [c]);
      assert pieces == [p] + pieces[1..];
    } else {
      assert Find(s, [c], 0) == -1 by {
        assert forall k: nat :: OccursAt(s, [c], k) ==> k < |p|;
      }
    }
  }

  /** The variable list of a setup request, if there is one: every name and a comma, then the last comma dropped. */
  method JoinRecipe(variableNames: seq<string>) returns (r: Option<string>)
    ensures r.None? <==> variableNames == []
    ensures r.Some? ==> r.value == Join(variableNames, ",")
  {
    if |variableNames| == 0 {
      return None;
    }
    var variables := "";
    for i := 0 to |variableNames|
      invariant variables == if i == 0 then "" else Join(variableNames[..i], ",") + ","
    {
      if i > 0 {
        JoinSnoc(variableNames[..i], ",", variableNames[i]);
        assert variableNames[..i + 1] == variableNames[..i] + [variableNames[i]];
      }
      variables := variables + (variableNames[i] + ",");
    }
    assert variableNames[..|variableNames|] == variableNames;
    return Some(variables[..|variables| - 1]);
  }

  lemma {:induction false} JoinSnoc(pieces: seq<string>, d: string, last: string)
    requires |pieces| >= 1
    ensures Join(pieces + [last], d) == Join(pieces, d) + d + last
  {
    if |pieces| > 1 {
      JoinSnoc(pieces[1..], d, last);
      assert (pieces + [last])[1..] == pieces[1..] + [last];
    } else {
      assert (pieces + [last])[1..] == [last];
    }
  }
}
