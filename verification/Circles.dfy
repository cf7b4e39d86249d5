/** Squares, and points of a circle: enough of the plane to place a point just where it is needed. */
module Circles {
  function Square(x: real): real {
    x * x
  }

  /** A product whose factors are not looked into. */
  function Times(n: real, x: real): real {
    n * x
  }

  lemma SquareNotNegative(x: real)
    ensures Square(x) >= 0.0
  {
  }

  lemma SquareNotZero(x: real)
    requires x != 0.0
    ensures Square(x) > 0.0
  {
    SquareNotNegative(x);
    var y := 1.0 / x;
    assert x * y == 1.0;
    assert Square(x) * y == x * (x * y) == x;
  }

  lemma Parallelogram(p: real, q: real)
    ensures Square(p - q) <= 2.0 * Square(p) + 2.0 * Square(q)
  {
    assert Square(p - q) + Square(p + q) == 2.0 * Square(p) + 2.0 * Square(q);
    assert Square(p + q) >= 0.0;
  }

  lemma SquareOfDouble(x: real)
    ensures Square(2.0 * x) == 4.0 * Square(x)
  {
  }

  lemma SquareOfOpposite(x: real)
    ensures Square(-x) == Square(x)
  {
  }

  /** Between two numbers that are not negative lies the square of one. */
  lemma SquareBetween(alpha: real, beta: real) returns (r: real)
    requires 0.0 <= alpha < beta
    ensures r >= 0.0 && alpha < Square(r) <= beta
  {
    var e := SmallStep(alpha, beta);
    var top := HighTop(beta, e);
    hide Square, Multiple;
    var n := LargestMultiple(e, beta, 0, top);
    r := Multiple(n, e);
    MultipleGrows(n, e);
    StepIsFine(alpha, beta, e, r);
  }

  lemma SmallStep(alpha: real, beta: real) returns (e: real)
    requires 0.0 <= alpha < beta
    ensures e > 0.0 && e * (2.0 * beta + 3.0) == beta - alpha && Square(Multiple(0, e)) <= beta
  {
    e := (beta - alpha) / (2.0 * beta + 3.0);
  }

  lemma HighTop(beta: real, e: real) returns (top: nat)
    requires beta >= 0.0 && e > 0.0
    ensures top > 0 && beta < Square(Multiple(top, e))
  {
    var q := (beta + 1.0) / e;
    assert q >= 0.0;
    top := q.Floor + 1;
    var t := Multiple(top, e);
    assert q * e == beta + 1.0;
    assert (top as real - q) * e == t - (beta + 1.0);
    assert (top as real - q) * e > 0.0;
    assert t * t >= t * 1.0;
  }

  lemma MultipleGrows(n: nat, e: real)
    requires e > 0.0
    ensures Multiple(n, e) >= 0.0 && Multiple(n + 1, e) == Multiple(n, e) + e
  {
  }

  lemma StepIsFine(alpha: real, beta: real, e: real, r: real)
    requires 0.0 <= alpha < beta && e > 0.0 && e * (2.0 * beta + 3.0) == beta - alpha
    requires r >= 0.0 && Square(r) <= beta < Square(r + e)
    ensures Square(r) > alpha
  {
    var (p, g, h) := (r * e, e * e, e * beta);
    assert Square(r - 1.0) == Square(r) - 2.0 * r + 1.0;
    assert r <= beta + 1.0;
    assert h >= 0.0;
    assert e * (2.0 * beta + 3.0) == 2.0 * h + 3.0 * e;
    assert e < 1.0;
    assert g <= e;
    assert (beta + 1.0 - r) * e >= 0.0;
    assert (beta + 1.0 - r) * e == h + e - p;
    assert Square(r + e) == Square(r) + 2.0 * p + g;
  }

  function Multiple(n: nat, e: real): real {
    n as real * e
  }

  lemma {:induction false} LargestMultiple(e: real, d: real, k: nat, top: nat) returns (n: nat)
    requires k < top && Square(Multiple(k, e)) <= d < Square(Multiple(top, e))
    ensures Square(Multiple(n, e)) <= d < Square(Multiple(n + 1, e))
    decreases top - k
  {
    hide Square, Multiple;
    if d < Square(Multiple(k + 1, e)) {
      n := k;
    } else {
      n := LargestMultiple(e, d, k + 1, top);
    }
  }

  /** A point of the unit circle whose first coordinate lies between two numbers. */
  lemma UnitBetween(c1: real, c2: real) returns (c: real, s: real)
    requires -1.0 <= c1 < c2 <= 1.0
    ensures Square(c) + Square(s) == 1.0 && c1 <= c < c2
  {
    if c1 == -1.0 {
      c, s := -1.0, 0.0;
    } else {
      var (alpha, beta) := ((1.0 - c2) / (1.0 + c2), (1.0 - c1) / (1.0 + c1));
      HalfAngleFalls(c1, c2, alpha, beta);
      var r := SquareBetween(alpha, beta);
      var w := 1.0 + Square(r);
      c, s := (1.0 - Square(r)) / w, 2.0 * r / w;
      OnCircle(r, w, c, s);
      HalfAngle(c1, Square(r), c, beta);
      HalfAngle(c2, Square(r), c, alpha);
    }
  }

  lemma HalfAngleFalls(c1: real, c2: real, alpha: real, beta: real)
    requires -1.0 < c1 < c2 <= 1.0 && alpha * (1.0 + c2) == 1.0 - c2 && beta * (1.0 + c1) == 1.0 - c1
    ensures 0.0 <= alpha < beta
  {
    assert (alpha + 1.0) * (1.0 + c2) == 2.0 == (beta + 1.0) * (1.0 + c1);
    SameSign(alpha, 1.0 + c2, 1.0 - c2, 1.0);
    assert (alpha + 1.0) * (c2 - c1) > 0.0;
    assert (beta - alpha) * (1.0 + c1) == (alpha + 1.0) * (c2 - c1);
    PositiveFactor(beta - alpha, 1.0 + c1);
  }

  lemma OnCircle(r: real, w: real, c: real, s: real)
    requires w == 1.0 + Square(r) && w > 0.0 && c * w == 1.0 - Square(r) && s * w == 2.0 * r
    ensures Square(c) + Square(s) == 1.0
  {
    var p := Square(r);
    assert Square(c * w) + Square(s * w) == Square(w) by {
      assert Square(1.0 - p) + 4.0 * p == Square(1.0 + p);
      assert Square(2.0 * r) == 4.0 * p;
    }
    assert Square(c * w) == Square(c) * Square(w) && Square(s * w) == Square(s) * Square(w);
    assert (Square(c) + Square(s) - 1.0) * Square(w) == 0.0;
  }

  lemma HalfAngle(x: real, t: real, c: real, b: real)
    requires x > -1.0 && t >= 0.0 && c * (1.0 + t) == 1.0 - t && b * (1.0 + x) == 1.0 - x
    ensures t <= b <==> x <= c
  {
    assert (b - t) * (1.0 + x) == 1.0 - x - t - t * x;
    assert (c - x) * (1.0 + t) == 1.0 - t - x - x * t;
    SameSign(b - t, 1.0 + x, c - x, 1.0 + t);
  }

  lemma SameSign(p: real, k: real, q: real, l: real)
    requires k > 0.0 && l > 0.0 && p * k == q * l
    ensures p >= 0.0 <==> q >= 0.0
  {
  }

  lemma PositiveFactor(p: real, k: real)
    requires k > 0.0 && p * k > 0.0
    ensures p > 0.0
  {
  }

  // Turning a vector, and its distance from another

  lemma TurnedLength(c: real, s: real, x: real, y: real)
    requires Square(c) + Square(s) == 1.0
    ensures Square(c * x - s * y) + Square(s * x + c * y) == Square(x) + Square(y)
  {
    assert Square(c * x - s * y) + Square(s * x + c * y) == (Square(c) + Square(s)) * (Square(x) + Square(y));
  }

  lemma TurnedDot(c: real, s: real, x: real, y: real, p: real, q: real)
    requires p == c * x - s * y && q == s * x + c * y
    ensures p * x + q * y == Times(c, Square(x) + Square(y))
  {
  }

  lemma ScaledLength(t: real, p: real, q: real)
    ensures Square(t * p) + Square(t * q) == Times(Square(t), Square(p) + Square(q))
  {
  }

  lemma FromOther(t: real, x: real, y: real, p: real, q: real)
    ensures Square(t * p - x) + Square(t * q - y) ==
            Times(Square(t), Square(p) + Square(q)) - 2.0 * Times(t, p * x + q * y) + (Square(x) + Square(y))
  {
  }

  lemma Collected(t: real, c: real, d: real)
    ensures Times(Square(t), d) - 2.0 * Times(t, Times(c, d)) + d == Times(1.0 + Square(t) - 2.0 * t * c, d)
  {
  }

  /** A vector (p, q), which is (x, y) turned, t times as long: its length, and its distance from (x, y), squared. */
  lemma TurnedDistances(t: real, c: real, s: real, x: real, y: real, p: real, q: real, d: real)
    requires Square(c) + Square(s) == 1.0 && p == c * x - s * y && q == s * x + c * y && d == Square(x) + Square(y)
    ensures Square(t * p) + Square(t * q) == Times(Square(t), d)
    ensures Square(t * p - x) + Square(t * q - y) == Times(1.0 + Square(t) - 2.0 * t * c, d)
  {
    hide Square, Times;
    TurnedLength(c, s, x, y);
    TurnedDot(c, s, x, y, p, q);
    ScaledLength(t, p, q);
    FromOther(t, x, y, p, q);
    Collected(t, c, d);
  }
}
