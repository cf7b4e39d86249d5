/** pipeline_vision.py: matching the detections of several frames to those of the first, and averaging them. */
module VisionVote {
  import opened Circles
  import opened Geometry
  import opened Wrappers

  /** A detection; `rest` stands for the entries that are only copied. */
  datatype Candidate = Candidate(u: real, v: real, radius: real, area: real, conf: real, rest: int, selected: bool)

  /** The square of the distance of two centres. Distances are compared by their squares. */
  function Distance2(a: Candidate, b: Candidate): real {
    Square(a.u - b.u) + Square(a.v - b.v)
  }

  predicate Within(a: Candidate, b: Candidate, maxDist: real) {
    maxDist >= 0.0 && Distance2(a, b) <= Square(maxDist)
  }

  /** The distance of two centres, as math.hypot gives it. */
  function Hypot(sqrt: real -> real, a: Candidate, b: Candidate): real {
    sqrt((a.u - b.u) * (a.u - b.u) + (a.v - b.v) * (a.v - b.v))
  }

  /** Comparing squares is comparing distances. */
  lemma SquaresCompare(sqrt: real -> real, a: Candidate, b: Candidate, ref: Candidate, maxDist: real)
    requires IsSqrt(sqrt)
    ensures Distance2(a, ref) < Distance2(b, ref) <==> Hypot(sqrt, a, ref) < Hypot(sqrt, b, ref)
    ensures Within(a, ref, maxDist) <==> Hypot(sqrt, a, ref) <= maxDist
  {
    HypotSquare(sqrt, a, ref);
    HypotSquare(sqrt, b, ref);
    hide Distance2, Hypot, Square, IsSqrt;
    SmallerSquare(Hypot(sqrt, a, ref), Hypot(sqrt, b, ref));
    if maxDist >= 0.0 {
      SmallerSquare(maxDist, Hypot(sqrt, a, ref));
    }
  }

  lemma HypotSquare(sqrt: real -> real, a: Candidate, b: Candidate)
    requires IsSqrt(sqrt)
    ensures Hypot(sqrt, a, b) >= 0.0 && Square(Hypot(sqrt, a, b)) == Distance2(a, b)
  {
    SquareNotNegative(a.u - b.u);
    SquareNotNegative(a.v - b.v);
  }

  lemma SmallerSquare(x: real, y: real)
    requires x >= 0.0 && y >= 0.0
    ensures x < y <==> Square(x) < Square(y)
  {
    DifferenceOfSquares(x, y);
    hide Square, Times;
    FactorSign(y - x, y + x);
  }

  lemma DifferenceOfSquares(x: real, y: real)
    ensures Square(y) - Square(x) == Times(y - x, y + x)
  {
  }

  lemma FactorSign(a: real, b: real)
    requires b > 0.0 || (b == 0.0 && a == 0.0)
    ensures a > 0.0 <==> Times(a, b) > 0.0
  {
  }

  /** The first of the candidates that are nearest to ref. */
  ghost predicate IsNearest(ref: Candidate, unused: seq<Candidate>, k: int) {
    && 0 <= k < |unused|
    && (forall i :: 0 <= i < |unused| ==> Distance2(unused[k], ref) <= Distance2(unused[i], ref))
    && (forall i :: 0 <= i < k ==> Distance2(unused[k], ref) < Distance2(unused[i], ref))
  }

  function NearestIn(ref: Candidate, unused: seq<Candidate>): (k: nat)
    requires unused != []
    ensures k < |unused|
  {
    if |unused| == 1 then 0
    else
      var last := |unused| - 1;
      var before := NearestIn(ref, unused[..last]);
      if Distance2(unused[last], ref) < Distance2(unused[before], ref) then last else before
  }

  lemma {:induction false} NearestIsNearest(ref: Candidate, unused: seq<Candidate>)
    requires unused != []
    ensures IsNearest(ref, unused, NearestIn(ref, unused))
  {
    hide Distance2;
    if |unused| > 1 {
      NearestIsNearest(ref, unused[..|unused| - 1]);
    }
  }

  function Removed(s: seq<Candidate>, k: nat): (r: seq<Candidate>)
    requires k < |s|
    ensures |r| == |s| - 1
  {
    s[..k] + s[k + 1..]
  }

  /** Each reference in turn takes the nearest candidate that is left, if it is near enough. */
  function Matched(refs: seq<Candidate>, unused: seq<Candidate>, maxDist: real): (m: Option<seq<Candidate>>)
    requires |refs| == |unused|
    ensures m.Some? ==> |m.value| == |refs|
  {
    if refs == [] then Some([])
    else
      var k := NearestIn(refs[0], unused);
      if !Within(unused[k], refs[0], maxDist) then None
      else
        match Matched(refs[1..], Removed(unused, k), maxDist)
        case None => None
        case Some(rest) => Some([unused[k]] + rest)
  }

  function Match(refs: seq<Candidate>, current: seq<Candidate>, maxDist: real): (m: Option<seq<Candidate>>)
    ensures m.Some? ==> |m.value| == |refs|
  {
    if |refs| != |current| then None else Matched(refs, current, maxDist)
  }

  method MatchCandidatesToReference(refs: seq<Candidate>, current: seq<Candidate>, maxDist: real)
    returns (matched: Option<seq<Candidate>>)
    ensures matched == Match(refs, current, maxDist)
  {
    if |refs| != |current| {
      return None;
    }
    hide Distance2, Within, NearestIn;
    var unused := current;
    var result := [];
    assert refs[0..] == refs && InFront([], Matched(refs, current, maxDist)) == Matched(refs, current, maxDist) by {
      NothingInFront(Matched(refs, current, maxDist));
    }
    for i := 0 to |refs|
      invariant |unused| == |refs| - i
      invariant Matched(refs, current, maxDist) == InFront(result, Matched(refs[i..], unused, maxDist))
    {
      var best := FindNearest(refs[i], unused);
      if !Within(unused[best], refs[i], maxDist) {
        return None;
      }
      MatchedStep(refs, i, unused, maxDist);
      InFrontTwice(result, [unused[best]], Matched(refs[i + 1..], Removed(unused, best), maxDist));
      result := result + [unused[best]];
      unused := unused[..best] + unused[best + 1..];
    }
    assert result + [] == result;
    return Some(result);
  }

  function InFront(s: seq<Candidate>, m: Option<seq<Candidate>>): Option<seq<Candidate>> {
    if m.Some? then Some(s + m.value) else None
  }

  lemma NothingInFront(m: Option<seq<Candidate>>)
    ensures InFront([], m) == m
  {
    assert m.Some? ==> [] + m.value == m.value;
  }

  lemma InFrontTwice(s: seq<Candidate>, t: seq<Candidate>, m: Option<seq<Candidate>>)
    ensures InFront(s, InFront(t, m)) == InFront(s + t, m)
  {
    if m.Some? {
      assert s + (t + m.value) == s + t + m.value;
    }
  }

  lemma MatchedStep(refs: seq<Candidate>, i: nat, unused: seq<Candidate>, maxDist: real)
    requires i < |refs| && |unused| == |refs| - i
    ensures var k := NearestIn(refs[i], unused);
            Matched(refs[i..], unused, maxDist) ==
            (if !Within(unused[k], refs[i], maxDist) then None
             else InFront([unused[k]], Matched(refs[i + 1..], Removed(unused, k), maxDist)))
  {
    assert refs[i..][1..] == refs[i + 1..];
  }

  /** The inner loop: running minimum of the distance, the first one winning. */
  method FindNearest(ref: Candidate, unused: seq<Candidate>) returns (best: nat)
    requires unused != []
    ensures best == NearestIn(ref, unused) && best < |unused|
  {
    hide Distance2;
    best := 0;
    assert unused[..1] == [unused[0]];
    for index := 1 to |unused|
      invariant best < index && best == NearestIn(ref, unused[..index])
    {
      assert unused[..index + 1][..index] == unused[..index];
      if Distance2(unused[index], ref) < Distance2(unused[best], ref) {
        best := index;
      }
    }
    assert unused[..|unused|] == unused;
  }

  /** A match is a permutation of the detections, each of them near enough to its reference. */
  lemma {:induction false} MatchIsPermutation(refs: seq<Candidate>, current: seq<Candidate>, maxDist: real)
    requires |refs| == |current| && Matched(refs, current, maxDist).Some?
    ensures var m := Matched(refs, current, maxDist).value;
            multiset(m) == multiset(current) && forall i :: 0 <= i < |refs| ==> Within(m[i], refs[i], maxDist)
  {
    hide Within, NearestIn;
    if refs != [] {
      var k := NearestIn(refs[0], current);
      var rest := Matched(refs[1..], Removed(current, k), maxDist).value;
      MatchIsPermutation(refs[1..], Removed(current, k), maxDist);
      assert current == current[..k] + [current[k]] + current[k + 1..];
    }
  }

  /** Of what is left, the reference takes one that is nearest, and that is near enough. */
  ghost predicate Takes(ref: Candidate, left: multiset<Candidate>, c: Candidate, maxDist: real) {
    && c in left && Within(c, ref, maxDist)
    && forall d :: d in left ==> Distance2(c, ref) <= Distance2(d, ref)
  }

  /** The first references, one after the other, took these. */
  ghost predicate TakenInTurn(refs: seq<Candidate>, current: seq<Candidate>, taken: seq<Candidate>, maxDist: real) {
    && |taken| <= |refs|
    && forall i :: 0 <= i < |taken| ==> Takes(refs[i], multiset(current) - multiset(taken[..i]), taken[i], maxDist)
  }

  ghost predicate NoneNear(ref: Candidate, left: multiset<Candidate>, maxDist: real) {
    forall c :: c in left ==> !Within(c, ref, maxDist)
  }

  /** A match takes the nearest detection for one reference after the other; without one, some reference finds none. */
  lemma {:induction false} MatchTakesNearest(refs: seq<Candidate>, current: seq<Candidate>, maxDist: real)
    returns (taken: seq<Candidate>)
    requires |refs| == |current|
    ensures TakenInTurn(refs, current, taken, maxDist)
    ensures if Matched(refs, current, maxDist).Some?
            then Matched(refs, current, maxDist).value == taken && |taken| == |refs|
            else |taken| < |refs| && NoneNear(refs[|taken|], multiset(current) - multiset(taken), maxDist)
  {
    hide Within, TakenInTurn, NoneNear;
    if refs == [] {
      taken := [];
      NothingTaken(refs, current, maxDist);
    } else {
      var k := NearestIn(refs[0], current);
      NearestIsNearest(refs[0], current);
      hide IsNearest, NearestIn;
      if Within(current[k], refs[0], maxDist) {
        var rest := MatchTakesNearest(refs[1..], Removed(current, k), maxDist);
        taken := [current[k]] + rest;
        TakenFirst(refs, current, k, rest, maxDist);
        LeftOver(current, k, rest);
        assert |rest| < |refs[1..]| ==> refs[1..][|rest|] == refs[|taken|];
      } else {
        taken := [];
        NothingTaken(refs, current, maxDist);
        NearestTooFar(refs[0], current, k, maxDist);
        assert multiset(current) - multiset(taken) == multiset(current);
      }
    }
  }

  lemma NothingTaken(refs: seq<Candidate>, current: seq<Candidate>, maxDist: real)
    ensures TakenInTurn(refs, current, [], maxDist)
  {
  }

  lemma NearestTooFar(ref: Candidate, current: seq<Candidate>, k: nat, maxDist: real)
    requires IsNearest(ref, current, k) && !Within(current[k], ref, maxDist)
    ensures NoneNear(ref, multiset(current), maxDist)
  {
    hide Distance2;
  }

  /** What is left for the others does not depend on whom it is taken from. */
  lemma LeftOver(current: seq<Candidate>, k: nat, rest: seq<Candidate>)
    requires k < |current|
    ensures multiset(current) - multiset([current[k]] + rest) == multiset(Removed(current, k)) - multiset(rest)
  {
    assert current == current[..k] + [current[k]] + current[k + 1..];
  }

  lemma TakenFirst(refs: seq<Candidate>, current: seq<Candidate>, k: nat, rest: seq<Candidate>, maxDist: real)
    requires |refs| == |current| > 0 && k < |current| && IsNearest(refs[0], current, k)
    requires Within(current[k], refs[0], maxDist) && TakenInTurn(refs[1..], Removed(current, k), rest, maxDist)
    ensures TakenInTurn(refs, current, [current[k]] + rest, maxDist)
  {
    var taken := [current[k]] + rest;
    assert Takes(refs[0], multiset(current), current[k], maxDist) by {
      hide Distance2, Within;
    }
    hide Takes, IsNearest, Within, Removed;
    forall i | 0 <= i < |taken| ensures Takes(refs[i], multiset(current) - multiset(taken[..i]), taken[i], maxDist) {
      if i > 0 {
        var before := rest[..i - 1];
        assert taken[..i] == [current[k]] + before && refs[i] == refs[1..][i - 1];
        LeftOver(current, k, before);
      } else {
        assert multiset(current) - multiset(taken[..0]) == multiset(current);
      }
    }
  }

  /** Taking the nearest first can miss a match that exists. */
  lemma GreedyMissesMatch()
    ensures var (at0, at2, at1, below) := (At(0.0), At(2.0), At(1.0), At(-3.0));
            && Match([at0, at2], [at1, below], 3.0) == None
            && Within(below, at0, 3.0) && Within(at1, at2, 3.0)
  {
    var (at0, at2, at1, below) := (At(0.0), At(2.0), At(1.0), At(-3.0));
    DistancesAt();
    hide Distance2, Square;
    assert NearestIn(at0, [at1, below]) == 0 by {
      assert [at1, below][..1] == [at1];
    }
    assert Removed([at1, below], 0) == [below];
    hide Removed;
    assert Matched([at2], [below], 3.0) == None;
    MatchedStep([at0, at2], 0, [at1, below], 3.0);
    assert [at0, at2][0..] == [at0, at2] && [at0, at2][1..] == [at2];
    hide Matched;
  }

  lemma DistancesAt()
    ensures Distance2(At(1.0), At(0.0)) == 1.0 && Distance2(At(-3.0), At(0.0)) == 9.0
    ensures Distance2(At(1.0), At(2.0)) == 1.0 && Distance2(At(-3.0), At(2.0)) == 25.0
    ensures Square(3.0) == 9.0
  {
    hide Square;
    SquaresAt();
    DistanceAt(1.0, 0.0, 1.0);
    DistanceAt(-3.0, 0.0, -3.0);
    DistanceAt(1.0, 2.0, -1.0);
    DistanceAt(-3.0, 2.0, -5.0);
  }

  lemma DistanceAt(x: real, y: real, d: real)
    requires d == x - y
    ensures Distance2(At(x), At(y)) == Square(d) + Square(0.0)
  {
    hide Square;
  }

  lemma SquaresAt()
    ensures Square(0.0) == 0.0 && Square(1.0) == Square(-1.0) == 1.0
    ensures Square(3.0) == Square(-3.0) == 9.0 && Square(-5.0) == 25.0
  {
  }

  function At(u: real): Candidate {
    Candidate(u, 0.0, 0.0, 0.0, 0.0, 0, false)
  }

  // Averaging

  function Sum(xs: seq<real>): real {
    if xs == [] then 0.0 else Sum(xs[..|xs| - 1]) + xs[|xs| - 1]
  }

  function Average(xs: seq<real>): real
    requires xs != []
  {
    Sum(xs) / |xs| as real
  }

  /** The samples of one candidate, one per frame. */
  function Column(votes: seq<seq<Candidate>>, index: nat): (samples: seq<Candidate>)
    requires forall k :: 0 <= k < |votes| ==> index < |votes[k]|
    ensures |samples| == |votes|
    ensures forall k :: 0 <= k < |votes| ==> samples[k] == votes[k][index]
  {
    seq(|votes|, k requires 0 <= k < |votes| => votes[k][index])
  }

  function Us(s: seq<Candidate>): (r: seq<real>)
    ensures |r| == |s| && forall k :: 0 <= k < |s| ==> r[k] == s[k].u
  {
    seq(|s|, k requires 0 <= k < |s| => s[k].u)
  }

  function Vs(s: seq<Candidate>): (r: seq<real>)
    ensures |r| == |s| && forall k :: 0 <= k < |s| ==> r[k] == s[k].v
  {
    seq(|s|, k requires 0 <= k < |s| => s[k].v)
  }

  function Radii(s: seq<Candidate>): (r: seq<real>)
    ensures |r| == |s| && forall k :: 0 <= k < |s| ==> r[k] == s[k].radius
  {
    seq(|s|, k requires 0 <= k < |s| => s[k].radius)
  }

  function Areas(s: seq<Candidate>): (r: seq<real>)
    ensures |r| == |s| && forall k :: 0 <= k < |s| ==> r[k] == s[k].area
  {
    seq(|s|, k requires 0 <= k < |s| => s[k].area)
  }

  function Confs(s: seq<Candidate>): (r: seq<real>)
    ensures |r| == |s| && forall k :: 0 <= k < |s| ==> r[k] == s[k].conf
  {
    seq(|s|, k requires 0 <= k < |s| => s[k].conf)
  }

  /** The first sample with its numbers replaced by the averages. */
  function Merged(samples: seq<Candidate>): Candidate
    requires samples != []
  {
    samples[0].(u := Average(Us(samples)), v := Average(Vs(samples)), radius := Average(Radii(samples)),
                area := Average(Areas(samples)), conf := Average(Confs(samples)), selected := false)
  }

  /** Every frame has as many candidates as the first. */
  ghost predicate Aligned(votes: seq<seq<Candidate>>) {
    votes != [] && forall k :: 0 <= k < |votes| ==> |votes[k]| == |votes[0]|
  }

  method AverageOf(xs: seq<real>) returns (average: real)
    requires xs != []
    ensures average == Average(xs)
  {
    var sum := 0.0;
    for i := 0 to |xs|
      invariant sum == Sum(xs[..i])
    {
      assert xs[..i + 1][..i] == xs[..i];
      sum := sum + xs[i];
    }
    assert xs[..|xs|] == xs;
    average := sum / |xs| as real;
  }

  /** The numbers of a candidate that a vote averages. */
  datatype Number = CenterU | CenterV | Radius | Area | Confidence

  function Get(c: Candidate, n: Number): real {
    match n
    case CenterU => c.u
    case CenterV => c.v
    case Radius => c.radius
    case Area => c.area
    case Confidence => c.conf
  }

  /** The sum, over all frames, of one number of candidate i. */
  function Total(votes: seq<seq<Candidate>>, i: nat, n: Number): real
    requires forall k :: 0 <= k < |votes| ==> i < |votes[k]|
  {
    if votes == [] then 0.0 else Total(votes[..|votes| - 1], i, n) + Get(votes[|votes| - 1][i], n)
  }

  /** Each number, times the number of frames, is the sum over the frames; the rest is that of the first frame. */
  ghost predicate IsAverage(average: Candidate, votes: seq<seq<Candidate>>, i: nat)
    requires votes != [] && forall k :: 0 <= k < |votes| ==> i < |votes[k]|
  {
    && (forall n: Number :: |votes| as real * Get(average, n) == Total(votes, i, n))
    && average.rest == votes[0][i].rest && !average.selected
  }

  method AverageCandidateVotes(votes: seq<seq<Candidate>>) returns (averaged: seq<Candidate>)
    requires Aligned(votes)
    ensures |averaged| == |votes[0]|
    ensures forall i :: 0 <= i < |averaged| ==> averaged[i] == Merged(Column(votes, i))
    ensures forall i :: 0 <= i < |averaged| ==> IsAverage(averaged[i], votes, i)
  {
    hide Average, IsAverage;
    averaged := [];
    for index := 0 to |votes[0]|
      invariant |averaged| == index
      invariant forall i :: 0 <= i < index ==> averaged[i] == Merged(Column(votes, i))
    {
      var samples := Column(votes, index);
      var u := AverageOf(Us(samples));
      var v := AverageOf(Vs(samples));
      var radius := AverageOf(Radii(samples));
      var area := AverageOf(Areas(samples));
      var conf := AverageOf(Confs(samples));
      averaged := averaged + [samples[0].(u := u, v := v, radius := radius, area := area, conf := conf, selected := false)];
    }
    forall i | 0 <= i < |averaged| ensures IsAverage(averaged[i], votes, i) {
      MergedIsAverage(votes, i);
    }
  }

  /** That number of the samples. */
  function Numbers(samples: seq<Candidate>, n: Number): (r: seq<real>)
    ensures |r| == |samples| && forall k :: 0 <= k < |samples| ==> r[k] == Get(samples[k], n)
  {
    match n
    case CenterU => Us(samples)
    case CenterV => Vs(samples)
    case Radius => Radii(samples)
    case Area => Areas(samples)
    case Confidence => Confs(samples)
  }

  lemma {:induction false} TotalIsSum(votes: seq<seq<Candidate>>, i: nat, n: Number)
    requires forall k :: 0 <= k < |votes| ==> i < |votes[k]|
    ensures Total(votes, i, n) == Sum(Numbers(Column(votes, i), n))
  {
    hide Get, Numbers;
    if votes != [] {
      var last := |votes| - 1;
      TotalIsSum(votes[..last], i, n);
      var (all, front) := (Numbers(Column(votes, i), n), Numbers(Column(votes[..last], i), n));
      assert all[..last] == front;
    }
  }

  lemma MergedNumbers(samples: seq<Candidate>, n: Number)
    requires samples != []
    ensures Get(Merged(samples), n) == Average(Numbers(samples, n))
  {
    hide Average;
  }

  /** What the vote makes of candidate i is its average over the frames. */
  lemma MergedIsAverage(votes: seq<seq<Candidate>>, i: nat)
    requires votes != [] && forall k :: 0 <= k < |votes| ==> i < |votes[k]|
    ensures IsAverage(Merged(Column(votes, i)), votes, i)
  {
    var samples := Column(votes, i);
    assert Merged(samples).rest == votes[0][i].rest && !Merged(samples).selected;
    hide Get, Average, Merged, Total;
    forall n: Number ensures |votes| as real * Get(Merged(samples), n) == Total(votes, i, n) {
      MergedTotal(votes, i, n);
    }
  }

  lemma MergedTotal(votes: seq<seq<Candidate>>, i: nat, n: Number)
    requires votes != [] && forall k :: 0 <= k < |votes| ==> i < |votes[k]|
    ensures |votes| as real * Get(Merged(Column(votes, i)), n) == Total(votes, i, n)
  {
    hide Get, Sum, Average, Merged, Total;
    var xs := Numbers(Column(votes, i), n);
    hide Numbers;
    TotalIsSum(votes, i, n);
    MergedNumbers(Column(votes, i), n);
    AverageTimes(xs);
  }

  lemma AverageTimes(xs: seq<real>)
    requires xs != []
    ensures |xs| as real * Average(xs) == Sum(xs)
  {
    hide Sum;
  }

  // The average centre is as near to the reference as every single one.

  /** The sum of the squared deviations from x. */
  function Spread(xs: seq<real>, x: real): real {
    if xs == [] then 0.0 else Spread(xs[..|xs| - 1], x) + Square(xs[|xs| - 1] - x)
  }

  lemma OneMoreTimes(n: real, x: real)
    ensures Times(n + 1.0, x) == Times(n, x) + x
  {
  }

  lemma TimesSum(n: real, x: real, y: real)
    ensures Times(n, x + y) == Times(n, x) + Times(n, y)
  {
  }

  lemma TimesTimes(n: real, d: real)
    ensures Square(Times(n, d)) == Times(n, Times(n, Square(d)))
  {
  }

  lemma CancelFactor(n: real, a: real, b: real)
    requires n > 0.0 && Times(n, a) <= Times(n, b)
    ensures a <= b
  {
    assert n * (b - a) >= 0.0;
  }

  /** One more deviation: from the square of a sum to the sum of squares. */
  lemma OneMoreProduct(n: real, s: real, d: real, q: real)
    requires n > 0.0 && Square(s) <= n * q
    ensures Square(s + d) <= (n + 1.0) * (q + Square(d))
  {
    SquareNotNegative(s - n * d);
    assert Square(s - n * d) == Square(s) - 2.0 * n * s * d + n * n * Square(d);
    assert n * (2.0 * s * d) <= Square(s) + n * n * Square(d) <= n * (q + n * Square(d));
    CancelProduct(n, 2.0 * s * d, q + n * Square(d));
    assert Square(s + d) == Square(s) + 2.0 * s * d + Square(d);
  }

  lemma CancelProduct(n: real, a: real, b: real)
    requires n > 0.0 && n * a <= n * b
    ensures a <= b
  {
    assert n * (b - a) >= 0.0;
  }

  lemma OneMore(n: real, s: real, d: real, q: real)
    requires n > 0.0 && Square(s) <= Times(n, q)
    ensures Square(s + d) <= Times(n + 1.0, q + Square(d))
  {
    hide Square;
    OneMoreProduct(n, s, d, q);
  }

  /** The square of the summed deviations is at most the number of them times the sum of their squares. */
  lemma {:induction false} SumOfDeviations(xs: seq<real>, x: real)
    ensures Square(Sum(xs) - Times(|xs| as real, x)) <= Times(|xs| as real, Spread(xs, x))
  {
    if |xs| == 0 {
      assert Square(0.0) == 0.0;
    } else if |xs| == 1 {
      assert xs[..0] == [];
      assert Sum(xs) == xs[0];
    } else {
      hide Square, Times;
      var (front, last) := (xs[..|xs| - 1], xs[|xs| - 1]);
      var n := |front| as real;
      SumOfDeviations(front, x);
      OneMore(n, Sum(front) - Times(n, x), last - x, Spread(front, x));
      OneMoreTimes(n, x);
      assert |xs| as real == n + 1.0;
    }
  }

  lemma AverageDeviation(xs: seq<real>, x: real)
    requires xs != []
    ensures Times(|xs| as real, Square(Average(xs) - x)) <= Spread(xs, x)
  {
    var n := |xs| as real;
    SumOfDeviations(xs, x);
    DivideMultiply(Sum(xs), n, x);
    hide Sum, Spread, Times, Square;
    TimesTimes(n, Average(xs) - x);
    CancelFactor(n, Times(n, Square(Average(xs) - x)), Spread(xs, x));
  }

  lemma DivideMultiply(s: real, n: real, x: real)
    requires n > 0.0
    ensures Times(n, s / n - x) == s - Times(n, x)
  {
  }

  lemma WithinSquares(a: Candidate, ref: Candidate, maxDist: real)
    requires Within(a, ref, maxDist)
    ensures Square(a.u - ref.u) + Square(a.v - ref.v) <= Square(maxDist)
  {
    hide Square;
  }

  lemma {:induction false} SpreadBound(samples: seq<Candidate>, ref: Candidate, maxDist: real)
    requires forall k :: 0 <= k < |samples| ==> Within(samples[k], ref, maxDist)
    ensures Spread(Us(samples), ref.u) + Spread(Vs(samples), ref.v) <= Times(|samples| as real, Square(maxDist))
  {
    if samples == [] {
      assert Times(0.0, Square(maxDist)) == 0.0;
    } else {
      hide Square, Within, Times;
      var (front, last) := (samples[..|samples| - 1], samples[|samples| - 1]);
      SpreadBound(front, ref, maxDist);
      assert Us(samples)[..|front|] == Us(front) && Vs(samples)[..|front|] == Vs(front);
      WithinSquares(last, ref, maxDist);
      OneMoreTimes(|front| as real, Square(maxDist));
      assert |samples| as real == |front| as real + 1.0;
    }
  }

  /** If every sample is near enough to the reference, so is the merged candidate, for any number of samples. */
  lemma {:induction false} MergedIsWithin(samples: seq<Candidate>, ref: Candidate, maxDist: real)
    requires samples != [] && forall k :: 0 <= k < |samples| ==> Within(samples[k], ref, maxDist)
    ensures Within(Merged(samples), ref, maxDist)
  {
    var n := |samples| as real;
    assert Within(samples[0], ref, maxDist);
    SpreadBound(samples, ref, maxDist);
    AverageDeviation(Us(samples), ref.u);
    AverageDeviation(Vs(samples), ref.v);
    hide Spread, Average, Square, Times;
    var d2 := Distance2(Merged(samples), ref);
    TimesSum(n, Square(Average(Us(samples)) - ref.u), Square(Average(Vs(samples)) - ref.v));
    CancelFactor(n, d2, Square(maxDist));
  }

  lemma {:induction false} SumBetween(xs: seq<real>, lo: real, hi: real)
    requires forall k :: 0 <= k < |xs| ==> lo <= xs[k] <= hi
    ensures Times(|xs| as real, lo) <= Sum(xs) <= Times(|xs| as real, hi)
  {
    if xs != [] {
      var n := |xs| - 1;
      SumBetween(xs[..n], lo, hi);
      OneMoreTimes(n as real, lo);
      OneMoreTimes(n as real, hi);
      hide Times;
      assert |xs| as real == n as real + 1.0;
    }
  }

  /** An average lies between any bounds of the numbers averaged. */
  lemma {:induction false} AverageBetween(xs: seq<real>, lo: real, hi: real)
    requires xs != [] && forall k :: 0 <= k < |xs| ==> lo <= xs[k] <= hi
    ensures lo <= Average(xs) <= hi
  {
    var n := |xs| as real;
    SumBetween(xs, lo, hi);
    TimesAverage(Sum(xs), n);
    hide Times, Sum;
    CancelFactor(n, lo, Average(xs));
    CancelFactor(n, Average(xs), hi);
  }

  lemma TimesAverage(s: real, n: real)
    requires n > 0.0
    ensures Times(n, s / n) == s
  {
  }

  predicate NoMore(a: Candidate, b: Candidate) {
    a.u <= b.u && a.v <= b.v && a.radius <= b.radius && a.area <= b.area && a.conf <= b.conf
  }

  /** Each of the five numbers of a merged candidate lies between any bounds of that number in the samples. */
  lemma MergedBetween(samples: seq<Candidate>, lo: Candidate, hi: Candidate)
    requires samples != [] && forall k :: 0 <= k < |samples| ==> NoMore(lo, samples[k]) && NoMore(samples[k], hi)
    ensures NoMore(lo, Merged(samples)) && NoMore(Merged(samples), hi)
    ensures Merged(samples).rest == samples[0].rest && !Merged(samples).selected
  {
    hide Average;
    AverageBetween(Us(samples), lo.u, hi.u);
    AverageBetween(Vs(samples), lo.v, hi.v);
    AverageBetween(Radii(samples), lo.radius, hi.radius);
    AverageBetween(Areas(samples), lo.area, hi.area);
    AverageBetween(Confs(samples), lo.conf, hi.conf);
  }

  // The vote

  /** What one frame brings: no image in time, no model for the class, or the detections above the threshold. */
  datatype Frame = NoImage | NoModel | Detections(candidates: seq<Candidate>)

  predicate Detected(f: Frame) {
    f.Detections? && f.candidates != []
  }

  /** Every frame detects something, and every later one matches the first. */
  ghost predicate AllMatch(frames: seq<Frame>, maxDist: real) {
    && (forall k :: 0 <= k < |frames| ==> Detected(frames[k]))
    && (forall k :: 1 <= k < |frames| ==> Match(frames[0].candidates, frames[k].candidates, maxDist).Some?)
  }

  /** The lists that the vote averages. */
  ghost predicate Votes(votes: seq<seq<Candidate>>, frames: seq<Frame>, maxDist: real)
    requires AllMatch(frames, maxDist)
  {
    && |votes| == |frames|
    && (frames != [] ==> votes[0] == frames[0].candidates)
    && (forall k :: 1 <= k < |frames| ==> votes[k] == Match(frames[0].candidates, frames[k].candidates, maxDist).value)
  }

  function FrameCount(voteFrames: int): (n: nat)
    ensures n >= 1
  {
    if voteFrames < 1 then 1 else voteFrames
  }

  /** `frames` is what the frames would bring, one after the other. */
  method GetStableCandidates(voteFrames: int, maxDist: real, frames: seq<Frame>)
    returns (averaged: Option<seq<Candidate>>, ghost votes: seq<seq<Candidate>>)
    requires |frames| >= FrameCount(voteFrames)
    ensures averaged.Some? <==> AllMatch(frames[..FrameCount(voteFrames)], maxDist)
    ensures averaged.Some? ==>
            && Votes(votes, frames[..FrameCount(voteFrames)], maxDist) && Aligned(votes)
            && |averaged.value| == |votes[0]|
            && (forall i :: 0 <= i < |averaged.value| ==> averaged.value[i] == Merged(Column(votes, i)))
            && (forall i :: 0 <= i < |averaged.value| ==> IsAverage(averaged.value[i], votes, i))
  {
    hide Match, Merged, IsAverage;
    var n := FrameCount(voteFrames);
    var candidateVotes := [];
    var failed := false;
    for k := 0 to n
      invariant failed <==> !AllMatch(frames[..k], maxDist)
      invariant !failed ==> Votes(candidateVotes, frames[..k], maxDist)
      invariant candidateVotes != [] ==> Aligned(candidateVotes)
    {
      AllMatchSoFar(frames, k, maxDist);
      match frames[k]
      case NoImage =>
        failed := true;
      case NoModel =>
        failed := true;
      case Detections(candidates) =>
        if candidates == [] {
          failed := true;
        } else if candidateVotes == [] {
          candidateVotes := [candidates];
        } else {
          var matched := MatchCandidatesToReference(candidateVotes[0], candidates, maxDist);
          if matched.None? {
            failed := true;
          } else {
            candidateVotes := candidateVotes + [matched.value];
          }
        }
    }
    votes := candidateVotes;
    if failed || |candidateVotes| != n {
      return None, votes;
    }
    var merged := AverageCandidateVotes(candidateVotes);
    averaged := Some(merged);
  }

  lemma AllMatchSoFar(frames: seq<Frame>, k: nat, maxDist: real)
    requires k < |frames|
    ensures AllMatch(frames[..k + 1], maxDist) <==>
            && AllMatch(frames[..k], maxDist) && Detected(frames[k])
            && (k > 0 ==> Match(frames[0].candidates, frames[k].candidates, maxDist).Some?)
  {
  }

  /** Of a later frame's list, each detection is within the limit of its reference. */
  lemma VoteIsWithin(votes: seq<seq<Candidate>>, frames: seq<Frame>, maxDist: real, k: nat, i: nat)
    requires frames != [] && AllMatch(frames, maxDist) && Votes(votes, frames, maxDist) && Aligned(votes)
    requires 1 <= k < |votes| && i < |votes[0]|
    ensures multiset(votes[k]) == multiset(frames[k].candidates)
    ensures maxDist >= 0.0 && Within(votes[k][i], frames[0].candidates[i], maxDist)
  {
    hide Matched;
    MatchIsPermutation(frames[0].candidates, frames[k].candidates, maxDist);
  }

  lemma WithinItself(a: Candidate, maxDist: real)
    requires maxDist >= 0.0
    ensures Within(a, a, maxDist)
  {
    SquareNotNegative(maxDist);
  }

  /**
   * If a vote is accepted, each frame's list is a permutation of that frame's detections, and every averaged centre
   * lies within the limit of its reference, the detection of the first frame.
   */
  lemma AcceptedVote(votes: seq<seq<Candidate>>, frames: seq<Frame>, maxDist: real, i: nat)
    requires frames != [] && AllMatch(frames, maxDist) && Votes(votes, frames, maxDist) && Aligned(votes)
    requires i < |votes[0]|
    ensures forall k :: 0 <= k < |votes| ==> multiset(votes[k]) == multiset(frames[k].candidates)
    ensures maxDist >= 0.0 || |frames| > 1 ==>
              Within(Merged(Column(votes, i)), frames[0].candidates[i], maxDist)
  {
    hide Merged, Within, Match;
    forall k | 1 <= k < |votes|
      ensures multiset(votes[k]) == multiset(frames[k].candidates)
      ensures maxDist >= 0.0 && Within(votes[k][i], frames[0].candidates[i], maxDist)
    {
      VoteIsWithin(votes, frames, maxDist, k, i);
    }
    if |frames| > 1 {
      VoteIsWithin(votes, frames, maxDist, 1, i);
    }
    if maxDist >= 0.0 || |frames| > 1 {
      WithinItself(frames[0].candidates[i], maxDist);
      MergedIsWithin(Column(votes, i), frames[0].candidates[i], maxDist);
    }
  }
}
