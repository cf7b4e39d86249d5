/** Taking the nearest detection first, as the matching of pipeline_vision.py does: when it finds every match there is. */
module NearestMatching {
  import opened Circles
  import opened VisionVote
  import opened Wrappers

  /** The detections can be handed out to the references, each within the limit of its own. */
  ghost predicate Matchable(refs: seq<Candidate>, current: seq<Candidate>, maxDist: real) {
    exists p: seq<Candidate> :: HandsOut(p, refs, current, maxDist)
  }

  ghost predicate HandsOut(p: seq<Candidate>, refs: seq<Candidate>, current: seq<Candidate>, maxDist: real) {
    && |p| == |refs| && multiset(p) == multiset(current)
    && forall i :: 0 <= i < |refs| ==> Within(p[i], refs[i], maxDist)
  }

  predicate SameCentre(a: Candidate, b: Candidate) {
    a.u == b.u && a.v == b.v
  }

  /** Two references that can compete for a detection, where it makes a difference which of them gets it. */
  predicate Competing(a: Candidate, b: Candidate, maxDist: real) {
    maxDist >= 0.0 && !SameCentre(a, b) && Distance2(a, b) <= Square(2.0 * maxDist)
  }

  ghost predicate Apart(refs: seq<Candidate>, maxDist: real) {
    forall a, b :: a in refs && b in refs ==> !Competing(a, b, maxDist)
  }

  /** What is within the limit of two points shows that they are at most twice the limit apart. */
  lemma TwiceTheLimit(x: Candidate, a: Candidate, b: Candidate, maxDist: real)
    requires Within(x, a, maxDist) && Within(x, b, maxDist)
    ensures Distance2(a, b) <= Square(2.0 * maxDist)
  {
    hide Square, Distance2;
    SquareOfDouble(maxDist);
    DistanceFromBoth(x, a, b);
  }

  lemma DistanceFromBoth(x: Candidate, a: Candidate, b: Candidate)
    ensures Distance2(a, b) <= 2.0 * Distance2(x, a) + 2.0 * Distance2(x, b)
  {
    Parallelogram(x.u - a.u, x.u - b.u);
    Parallelogram(x.v - a.v, x.v - b.v);
    assert (x.u - a.u) - (x.u - b.u) == -(a.u - b.u) && (x.v - a.v) - (x.v - b.v) == -(a.v - b.v);
    SquareOfOpposite(a.u - b.u);
    SquareOfOpposite(a.v - b.v);
    hide Square;
  }

  lemma SameCentreSameLimit(x: Candidate, y: Candidate, a: Candidate, b: Candidate, maxDist: real)
    requires Within(x, a, maxDist) && Within(x, b, maxDist) && Within(y, a, maxDist)
    requires !Competing(a, b, maxDist)
    ensures Within(y, b, maxDist)
  {
    TwiceTheLimit(x, a, b, maxDist);
    hide Square;
  }

  lemma ExchangeKeepsAll(p: seq<Candidate>, j: nat)
    requires j < |p|
    ensures multiset(p[j := p[0]][0 := p[j]]) == multiset(p)
  {
  }

  /** The detection of another reference that is near enough to the first can change places with the first one's. */
  lemma ExchangeKeepsWithin(p: seq<Candidate>, refs: seq<Candidate>, j: nat, maxDist: real)
    requires |p| == |refs| && j < |refs| && Apart(refs, maxDist) && Within(p[j], refs[0], maxDist)
    requires forall i :: 0 <= i < |refs| ==> Within(p[i], refs[i], maxDist)
    ensures forall i :: 0 <= i < |refs| ==> Within(p[j := p[0]][0 := p[j]][i], refs[i], maxDist)
  {
    if j > 0 {
      hide Square, Within, Competing, Distance2;
      SameCentreSameLimit(p[j], p[0], refs[0], refs[j], maxDist);
    }
  }

  lemma WithoutNearest(q: seq<Candidate>, current: seq<Candidate>, k: nat)
    requires q != [] && k < |current| && multiset(q) == multiset(current) && q[0] == current[k]
    ensures multiset(q[1..]) == multiset(Removed(current, k))
  {
    assert q == [current[k]] + q[1..];
    assert current == current[..k] + [current[k]] + current[k + 1..];
    var x := multiset{current[k]};
    assert multiset(q) == x + multiset(q[1..]);
    assert multiset(current) == multiset(current[..k]) + x + multiset(current[k + 1..]);
    assert multiset(q[1..]) == multiset(q) - x;
    assert multiset(Removed(current, k)) == multiset(current) - x;
  }

  /** Giving the nearest detection to the first reference leaves the others a match, if they are apart. */
  lemma NearestCanBeTaken(p: seq<Candidate>, refs: seq<Candidate>, current: seq<Candidate>, maxDist: real)
    returns (rest: seq<Candidate>)
    requires refs != [] && |refs| == |current| && Apart(refs, maxDist) && HandsOut(p, refs, current, maxDist)
    ensures var k := NearestIn(refs[0], current);
            Within(current[k], refs[0], maxDist) && HandsOut(rest, refs[1..], Removed(current, k), maxDist)
  {
    var k := NearestIn(refs[0], current);
    NearestIsNearest(refs[0], current);
    assert p[0] in multiset(p) && current[k] in multiset(current);
    var i :| 0 <= i < |current| && current[i] == p[0];
    assert Within(current[k], refs[0], maxDist);
    var j :| 0 <= j < |p| && p[j] == current[k];
    hide Apart, NearestIn, Within, Removed;
    ExchangeKeepsWithin(p, refs, j, maxDist);
    ExchangeKeepsAll(p, j);
    var q := p[j := p[0]][0 := p[j]];
    WithoutNearest(q, current, k);
    rest := q[1..];
  }

  lemma {:induction false} ApartFinds(p: seq<Candidate>, refs: seq<Candidate>, current: seq<Candidate>, maxDist: real)
    requires |refs| == |current| && Apart(refs, maxDist) && HandsOut(p, refs, current, maxDist)
    ensures Matched(refs, current, maxDist).Some?
    decreases refs
  {
    hide Within, NearestIn, Distance2, Square;
    if refs != [] {
      var k := NearestIn(refs[0], current);
      var q := NearestCanBeTaken(p, refs, current, maxDist);
      assert forall i :: 0 <= i < |refs[1..]| ==> refs[1..][i] == refs[i + 1];
      ApartFinds(q, refs[1..], Removed(current, k), maxDist);
    }
  }

  /** With references that are apart a match is found if and only if there is one. */
  lemma ApartFindsExactly(refs: seq<Candidate>, current: seq<Candidate>, maxDist: real)
    requires Apart(refs, maxDist)
    ensures Match(refs, current, maxDist).Some? <==> Matchable(refs, current, maxDist)
  {
    hide Within, Matched, Apart;
    HandedOutHaveOwners(refs, current, maxDist);
    if |refs| == |current| {
      if Matched(refs, current, maxDist).Some? {
        MatchIsPermutation(refs, current, maxDist);
        assert HandsOut(Matched(refs, current, maxDist).value, refs, current, maxDist);
      }
      if Matchable(refs, current, maxDist) {
        var p :| HandsOut(p, refs, current, maxDist);
        ApartFinds(p, refs, current, maxDist);
      }
    }
  }

  lemma HandedOutHaveOwners(refs: seq<Candidate>, current: seq<Candidate>, maxDist: real)
    ensures Matchable(refs, current, maxDist) ==> |refs| == |current|
  {
    if p :| HandsOut(p, refs, current, maxDist) {
      assert |multiset(p)| == |multiset(current)|;
    }
  }

  // And when it does not

  lemma NearestOwn(o: Candidate, rest: seq<Candidate>)
    ensures NearestIn(o, [o] + rest) == 0
  {
    var all := [o] + rest;
    assert all[0] == o;
    NearestIsNearest(o, all);
    DistancesNotNegative(all[NearestIn(o, all)], o);
    DistancesNotNegative(o, o);
    hide Distance2, NearestIn;
  }

  lemma DistancesNotNegative(a: Candidate, b: Candidate)
    ensures Distance2(a, b) >= 0.0 && Distance2(a, a) == 0.0
    ensures !SameCentre(a, b) ==> Distance2(a, b) > 0.0
  {
    SquareNotNegative(a.u - b.u);
    SquareNotNegative(a.v - b.v);
    if !SameCentre(a, b) {
      SquareNotZero(if a.u != b.u then a.u - b.u else a.v - b.v);
    }
  }

  /** A reference whose own position is the first detection takes it. */
  lemma FirstOwnIsTaken(o: Candidate, refs: seq<Candidate>, current: seq<Candidate>, maxDist: real)
    requires |refs| == |current| && maxDist >= 0.0
    ensures Matched([o] + refs, [o] + current, maxDist) == InFront([o], Matched(refs, current, maxDist))
  {
    NearestOwn(o, current);
    DistancesNotNegative(o, o);
    SquareNotNegative(maxDist);
    assert Within(o, o, maxDist);
    hide NearestIn, Within, Distance2, Square;
    assert ([o] + refs)[1..] == refs && Removed([o] + current, 0) == current;
  }

  /** The point at t times the distance of b from a, in the direction of b turned by an angle (cosine c, sine s). */
  function Around(a: Candidate, b: Candidate, t: real, c: real, s: real): Candidate {
    a.(u := a.u + t * (c * (b.u - a.u) - s * (b.v - a.v)), v := a.v + t * (s * (b.u - a.u) + c * (b.v - a.v)))
  }

  lemma AroundDistances(a: Candidate, b: Candidate, t: real, c: real, s: real)
    requires Square(c) + Square(s) == 1.0
    ensures Distance2(Around(a, b, t, c, s), a) == Times(Square(t), Distance2(b, a))
    ensures Distance2(Around(a, b, t, c, s), b) == Times(1.0 + Square(t) - 2.0 * t * c, Distance2(b, a))
  {
    var (x, y) := (b.u - a.u, b.v - a.v);
    var (p, q) := (c * x - s * y, s * x + c * y);
    hide Square, Around, Times;
    TurnedDistances(t, c, s, x, y, p, q, Distance2(b, a));
    AroundOffsets(a, b, t, c, s, p, q);
  }

  lemma AroundOffsets(a: Candidate, b: Candidate, t: real, c: real, s: real, p: real, q: real)
    requires p == c * (b.u - a.u) - s * (b.v - a.v) && q == s * (b.u - a.u) + c * (b.v - a.v)
    ensures var z := Around(a, b, t, c, s);
            && z.u - a.u == t * p && z.v - a.v == t * q
            && z.u - b.u == t * p - (b.u - a.u) && z.v - b.v == t * q - (b.v - a.v)
  {
  }

  lemma DistanceIsMutual(a: Candidate, b: Candidate)
    ensures Distance2(a, b) == Distance2(b, a)
  {
    assert b.u - a.u == -(a.u - b.u) && b.v - a.v == -(a.v - b.v);
    SquareOfOpposite(a.u - b.u);
    SquareOfOpposite(a.v - b.v);
    hide Square;
  }

  /** At how many times the distance of b a point can be within the limit of a, and turned away from b out of its limit. */
  lemma FarEnough(q: real, d: real) returns (t: real)
    requires 0.0 < q <= 4.0 * d
    ensures t >= 0.5 && Square(t) * q <= d < Square(1.0 + t) * q
  {
    var beta := d / q;
    assert beta * q == d && beta >= 0.25;
    if beta < 2.25 {
      t := 0.5;
      assert (2.25 - beta) * q > 0.0;
    } else {
      t := SquareBetween(beta - 1.0, beta);
      LargeRoot(beta, t);
      hide Square;
      assert (beta - Square(t)) * q >= 0.0;
      assert (Square(1.0 + t) - beta) * q > 0.0;
    }
  }

  lemma LargeRoot(beta: real, t: real)
    requires beta >= 2.25 && t >= 0.0 && beta - 1.0 < Square(t) <= beta
    ensures t >= 0.5 && Square(1.0 + t) > beta
  {
    assert Square(1.0 + t) == Square(t) + 2.0 * t + 1.0;
    var (p, k) := (t - 0.5, t + 0.5);
    assert p * k == Square(t) - 0.25;
    PositiveFactor(p, k);
  }

  /** Where the turning has to end for a point to lie just out of the limit of b. */
  lemma Window(q: real, d: real, t: real, eta: real) returns (c1: real, c2: real)
    requires q > 0.0 && eta > 0.0 && t >= 0.5 && Square(t) * q <= d < Square(1.0 + t) * q
    ensures -1.0 <= c1 < c2 <= 1.0
    ensures c2 * (2.0 * t * q) == (1.0 + Square(t)) * q - d && (c2 - c1) * (2.0 * t * q) <= eta
  {
    var k := 2.0 * t * q;
    assert k > 0.0;
    c2 := ((1.0 + Square(t)) * q - d) / k;
    var width := eta / k;
    assert c2 * k == (1.0 + Square(t)) * q - d && width * k == eta && width > 0.0;
    WindowInRange(q, d, t, k, c2);
    c1 := if c2 - width < -1.0 then -1.0 else c2 - width;
    assert (c2 - c1) * k <= width * k;
  }

  lemma WindowInRange(q: real, d: real, t: real, k: real, c: real)
    requires q > 0.0 && t >= 0.5 && Square(t) * q <= d < Square(1.0 + t) * q
    requires k == 2.0 * t * q && k > 0.0 && c * k == (1.0 + Square(t)) * q - d
    ensures -1.0 < c <= 1.0
  {
    assert (c + 1.0) * k == Square(1.0 + t) * q - d;
    PositiveFactor(c + 1.0, k);
    assert (1.0 - c) * k == d - Square(t) * q + (2.0 * t - 1.0) * q;
    assert (2.0 * t - 1.0) * q >= 0.0;
    SameSign(1.0 - c, k, (1.0 - c) * k, 1.0);
  }

  lemma InWindow(q: real, d: real, t: real, eta: real, c1: real, c2: real, c: real)
    requires q > 0.0 && t >= 0.5 && c1 <= c < c2
    requires c2 * (2.0 * t * q) == (1.0 + Square(t)) * q - d && (c2 - c1) * (2.0 * t * q) <= eta
    ensures d < (1.0 + Square(t) - 2.0 * t * c) * q <= d + eta
  {
    var (k, v) := (2.0 * t * q, (1.0 + Square(t) - 2.0 * t * c) * q);
    assert k > 0.0;
    assert v == (1.0 + Square(t)) * q - c * k;
    hide Square;
    assert v - d == (c2 - c) * k;
    assert (c2 - c) * k > 0.0;
    assert (c2 - c) * k <= (c2 - c1) * k;
  }

  /** Two detections: one within the limit of both references, and one no nearer to a that is just out of b's limit. */
  lemma JustOutOfReach(a: Candidate, b: Candidate, maxDist: real, eta: real) returns (near: Candidate, far: Candidate)
    requires Competing(a, b, maxDist) && eta > 0.0
    ensures Within(far, a, maxDist) && Within(near, b, maxDist) && Distance2(near, a) <= Distance2(far, a)
    ensures Square(maxDist) < Distance2(far, b) <= Square(maxDist) + eta
  {
    var (q, d) := (Distance2(b, a), Square(maxDist));
    hide Square, Times, Distance2, Around;
    DistanceIsMutual(a, b);
    DistancesNotNegative(a, b);
    SquareOfDouble(maxDist);
    Halfway(q);
    var t, c, s := JustOutside(q, d, eta);
    near, far := Around(a, b, 0.5, 1.0, 0.0), Around(a, b, t, c, s);
    AroundDistances(a, b, 0.5, 1.0, 0.0);
    AroundDistances(a, b, t, c, s);
  }

  lemma Halfway(q: real)
    ensures Square(1.0) + Square(0.0) == 1.0
    ensures Times(Square(0.5), q) == 0.25 * q == Times(1.0 + Square(0.5) - 2.0 * 0.5 * 1.0, q)
  {
  }

  /** How far, and how much turned, a point is that lies just out of the limit of b, whose square is d. */
  lemma JustOutside(q: real, d: real, eta: real) returns (t: real, c: real, s: real)
    requires 0.0 < q <= 4.0 * d && eta > 0.0
    ensures Square(c) + Square(s) == 1.0 && 0.25 * q <= Times(Square(t), q) <= d
    ensures d < Times(1.0 + Square(t) - 2.0 * t * c, q) <= d + eta
  {
    t := FarEnough(q, d);
    var c1, c2 := Window(q, d, t, eta);
    c, s := UnitBetween(c1, c2);
    InWindow(q, d, t, eta, c1, c2, c);
    HalfIsNearer(t, q);
    hide Square;
  }

  lemma HalfIsNearer(t: real, q: real)
    requires t >= 0.5 && q > 0.0
    ensures 0.25 * q <= Square(t) * q
  {
    assert Square(t) == 0.25 + (t - 0.5) * (t + 0.5);
    assert (Square(t) - 0.25) * q >= 0.0;
  }

  /** How far out of the limit of b a point can be and still be out of the limit of all that do not compete with b. */
  lemma {:induction false} Gap(b: Candidate, others: seq<Candidate>, maxDist: real) returns (eta: real)
    requires maxDist >= 0.0 && forall c :: c in others ==> !Competing(b, c, maxDist)
    ensures eta > 0.0
    ensures forall c :: c in others ==> SameCentre(b, c) || Square(2.0 * maxDist) + 2.0 * eta < Distance2(b, c)
  {
    hide Square, Distance2;
    if others == [] {
      eta := 1.0;
    } else {
      var c := others[0];
      eta := Gap(b, others[1..], maxDist);
      assert forall x :: x in others <==> x == c || x in others[1..];
      if !SameCentre(b, c) && Square(2.0 * maxDist) + 2.0 * eta >= Distance2(b, c) {
        eta := (Distance2(b, c) - Square(2.0 * maxDist)) / 4.0;
      }
    }
  }

  lemma OutOfReach(far: Candidate, b: Candidate, c: Candidate, maxDist: real, eta: real)
    requires Square(maxDist) < Distance2(far, b) <= Square(maxDist) + eta
    requires SameCentre(b, c) || Square(2.0 * maxDist) + 2.0 * eta < Distance2(b, c)
    ensures !Within(far, c, maxDist)
  {
    hide Square;
    SquareOfDouble(maxDist);
    DistanceFromBoth(far, b, c);
  }

  /** Where a match is found, every detection is within the limit of some reference. */
  lemma TakenBySome(refs: seq<Candidate>, current: seq<Candidate>, x: Candidate, maxDist: real) returns (ref: Candidate)
    requires |refs| == |current| && x in current && Matched(refs, current, maxDist).Some?
    ensures ref in refs && Within(x, ref, maxDist)
  {
    hide Within, Matched;
    MatchIsPermutation(refs, current, maxDist);
    var m := Matched(refs, current, maxDist).value;
    assert x in multiset(current);
    assert x in multiset(m);
    var i :| 0 <= i < |m| && m[i] == x;
    ref := refs[i];
  }

  /** What no reference can take keeps the others from being matched. */
  lemma LeftOver(refs: seq<Candidate>, current: seq<Candidate>, far: Candidate, maxDist: real)
    requires |refs| == |current| && far in current && forall c :: c in refs ==> !Within(far, c, maxDist)
    ensures Matched(refs, current, maxDist) == None
  {
    hide Within, Matched;
    if Matched(refs, current, maxDist).Some? {
      var ref := TakenBySome(refs, current, far, maxDist);
    }
  }

  /** The first reference competes with a later one, and those after it do not with one another: its choice is wrong. */
  lemma FirstMisses(a: Candidate, rest: seq<Candidate>, j: nat, maxDist: real) returns (current: seq<Candidate>)
    requires j < |rest| && Competing(a, rest[j], maxDist) && Apart(rest, maxDist)
    ensures Matchable([a] + rest, current, maxDist) && Match([a] + rest, current, maxDist) == None
  {
    var eta := Gap(rest[j], rest, maxDist);
    var near, far := JustOutOfReach(a, rest[j], maxDist, eta);
    forall c | c in rest ensures !Within(far, c, maxDist) {
      OutOfReach(far, rest[j], c, maxDist, eta);
    }
    current := rest[j := near] + [far];
    HandedOutOtherwise(a, rest, j, near, far, maxDist);
    hide Competing, Distance2, Within, Square;
    var k := NearestIn(a, current);
    NearestIsNearest(a, current);
    assert current[j] == near && current[|rest|] == far;
    assert k < |rest|;
    assert far in Removed(current, k) by {
      assert Removed(current, k)[|rest| - 1] == far;
    }
    LeftOver(rest, Removed(current, k), far, maxDist);
    assert ([a] + rest)[1..] == rest;
  }

  lemma HandedOutOtherwise(a: Candidate, rest: seq<Candidate>, j: nat, near: Candidate, far: Candidate, maxDist: real)
    requires j < |rest| && maxDist >= 0.0 && Within(far, a, maxDist) && Within(near, rest[j], maxDist)
    ensures Matchable([a] + rest, rest[j := near] + [far], maxDist)
  {
    var p := [far] + rest[j := near];
    SquareNotNegative(maxDist);
    forall i | 0 <= i < |p| ensures Within(p[i], ([a] + rest)[i], maxDist) {
      if i > 0 && i != j + 1 {
        DistancesNotNegative(rest[i - 1], rest[i - 1]);
      }
    }
    hide Within;
    assert multiset(p) == multiset(rest[j := near] + [far]);
    assert HandsOut(p, [a] + rest, rest[j := near] + [far], maxDist);
  }

  /** If two references compete, there are detections for which a match is missed. */
  lemma {:induction false} CompetingMiss(refs: seq<Candidate>, maxDist: real) returns (current: seq<Candidate>)
    requires !Apart(refs, maxDist)
    ensures Matchable(refs, current, maxDist) && Match(refs, current, maxDist) == None
  {
    var (a, rest) := (refs[0], refs[1..]);
    assert refs == [a] + rest;
    hide Matchable, Competing, Matched;
    if !Apart(rest, maxDist) {
      var less := CompetingMiss(rest, maxDist);
      current := [a] + less;
      OwnHandedOut(a, rest, less, maxDist);
    } else {
      var j := FirstCompetes(a, rest, maxDist);
      current := FirstMisses(a, rest, j, maxDist);
    }
  }

  lemma FirstCompetes(a: Candidate, rest: seq<Candidate>, maxDist: real) returns (j: nat)
    requires !Apart([a] + rest, maxDist) && Apart(rest, maxDist)
    ensures j < |rest| && Competing(a, rest[j], maxDist)
  {
    var x, y :| x in [a] + rest && y in [a] + rest && Competing(x, y, maxDist);
    DistanceIsMutual(x, y);
    var other := if x == a then y else x;
    assert Competing(a, other, maxDist);
    hide Competing;
    assert other in rest;
    j :| 0 <= j < |rest| && rest[j] == other;
  }

  /** With its own position added to the detections, a reference changes nothing for those after it. */
  lemma OwnHandedOut(a: Candidate, rest: seq<Candidate>, less: seq<Candidate>, maxDist: real)
    requires maxDist >= 0.0 && Matchable(rest, less, maxDist) && Match(rest, less, maxDist) == None
    ensures Matchable([a] + rest, [a] + less, maxDist) && Match([a] + rest, [a] + less, maxDist) == None
  {
    HandedOutHaveOwners(rest, less, maxDist);
    FirstOwnIsTaken(a, rest, less, maxDist);
    var p :| HandsOut(p, rest, less, maxDist);
    DistancesNotNegative(a, a);
    SquareNotNegative(maxDist);
    assert Within(a, a, maxDist);
    hide Within, Matched;
    assert HandsOut([a] + p, [a] + rest, [a] + less, maxDist);
  }

  /**
   * Taking the nearest first finds a match whenever there is one, whatever is detected, if and only if no two
   * references compete: they have the same centre, or lie more than twice the limit apart.
   */
  lemma NearestFirstIsCompleteExactly(refs: seq<Candidate>, maxDist: real)
    ensures Apart(refs, maxDist) <==>
            forall current :: Matchable(refs, current, maxDist) ==> Match(refs, current, maxDist).Some?
  {
    hide Competing, Match, Matchable;
    if Apart(refs, maxDist) {
      forall current | Matchable(refs, current, maxDist) ensures Match(refs, current, maxDist).Some? {
        ApartFindsExactly(refs, current, maxDist);
      }
    } else {
      var current := CompetingMiss(refs, maxDist);
    }
  }
}
