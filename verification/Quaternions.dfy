/** pipeline_motion.py: conversion between quaternions and rotation matrices. */
module Quaternions {
  import opened Geometry

  datatype Quaternion = Quaternion(x: real, y: real, z: real, w: real) {
    function Norm2(): real {
      x * x + y * y + z * z + w * w
    }

    function At(i: Component): real {
      match i
      case X => x
      case Y => y
      case Z => z
      case W => w
    }
  }

  datatype Component = X | Y | Z | W

  /** q over its length. */
  function Normalized(q: Quaternion, sqrt: real -> real): Quaternion
    requires sqrt(q.Norm2()) != 0.0
  {
    var norm := sqrt(q.Norm2());
    Quaternion(q.x / norm, q.y / norm, q.z / norm, q.w / norm)
  }

  function QuaternionToRotationMatrix(q: Quaternion, sqrt: real -> real): Mat3
    requires sqrt(q.Norm2()) != 0.0
  {
    MatrixOf(Normalized(q, sqrt))
  }

  function Diagonal(a: real, b: real): real {
    1.0 - 2.0 * (a * a + b * b)
  }

  function Difference(a: real, b: real, c: real, d: real): real {
    2.0 * (a * b - c * d)
  }

  function Total(a: real, b: real, c: real, d: real): real {
    2.0 * (a * b + c * d)
  }

  function MatrixOf(q: Quaternion): Mat3 {
    var Quaternion(x, y, z, w) := q;
    Mat3(Vec3(Diagonal(y, z), Difference(x, y, z, w), Total(x, z, y, w)),
         Vec3(Total(x, y, z, w), Diagonal(x, z), Difference(y, z, x, w)),
         Vec3(Difference(x, z, y, w), Total(y, z, x, w), Diagonal(x, y)))
  }

  function Trace(m: Mat3): real {
    m.a.x + m.b.y + m.c.z
  }

  /** The branch that is taken: the component whose square is computed from the diagonal. */
  function Pivot(m: Mat3): Component {
    if Trace(m) > 0.0 then W
    else if m.a.x > m.b.y && m.a.x > m.c.z then X
    else if m.b.y > m.c.z then Y
    else Z
  }

  /** The argument of the square root in the branch of pivot p. */
  function Radicand(m: Mat3, p: Component): real {
    match p
    case W => Trace(m) + 1.0
    case X => 1.0 + m.a.x - m.b.y - m.c.z
    case Y => 1.0 + m.b.y - m.a.x - m.c.z
    case Z => 1.0 + m.c.z - m.a.x - m.b.y
  }

  /** The divisor of the branch that is taken. */
  function Divisor(m: Mat3, sqrt: real -> real): real {
    sqrt(Radicand(m, Pivot(m))) * 2.0
  }

  function RotationMatrixToQuaternion(m: Mat3, sqrt: real -> real): Quaternion
    requires IsSqrt(sqrt)
  {
    DivisorAtLeastTwo(m, sqrt);
    var s := Divisor(m, sqrt);
    match Pivot(m)
    case W => Quaternion((m.c.y - m.b.z) / s, (m.a.z - m.c.x) / s, (m.b.x - m.a.y) / s, 0.25 * s)
    case X => Quaternion(0.25 * s, (m.a.y + m.b.x) / s, (m.a.z + m.c.x) / s, (m.c.y - m.b.z) / s)
    case Y => Quaternion((m.a.y + m.b.x) / s, 0.25 * s, (m.b.z + m.c.y) / s, (m.a.z - m.c.x) / s)
    case Z => Quaternion((m.a.z + m.c.x) / s, (m.b.z + m.c.y) / s, 0.25 * s, (m.b.x - m.a.y) / s)
  }

  /** Whatever the matrix, the branch that is taken takes the root of at least one. */
  lemma PivotRadicand(m: Mat3)
    ensures Radicand(m, Pivot(m)) >= 1.0
  {
  }

  lemma DivisorAtLeastTwo(m: Mat3, sqrt: real -> real)
    requires IsSqrt(sqrt)
    ensures Divisor(m, sqrt) >= 2.0
  {
    PivotRadicand(m);
    RootAtLeastOne(sqrt(Radicand(m, Pivot(m))));
  }

  lemma RootAtLeastOne(y: real)
    requires y >= 0.0 && y * y >= 1.0
    ensures y >= 1.0
  {
    if y < 1.0 {
      ProductNonNegative(y, 1.0 - y);
    }
  }

  lemma ProductNonNegative(a: real, b: real)
    requires a >= 0.0 && b >= 0.0
    ensures a * b >= 0.0
  {
  }

  // Both directions go through one symmetric form: four times the products of a unit quaternion's components.

  function Form(m: Mat3, i: Component, j: Component): real {
    match (i, j)
    case (W, W) => Radicand(m, W)
    case (X, X) => Radicand(m, X)
    case (Y, Y) => Radicand(m, Y)
    case (Z, Z) => Radicand(m, Z)
    case (W, X) => m.c.y - m.b.z
    case (X, W) => m.c.y - m.b.z
    case (W, Y) => m.a.z - m.c.x
    case (Y, W) => m.a.z - m.c.x
    case (W, Z) => m.b.x - m.a.y
    case (Z, W) => m.b.x - m.a.y
    case (X, Y) => m.a.y + m.b.x
    case (Y, X) => m.a.y + m.b.x
    case (X, Z) => m.a.z + m.c.x
    case (Z, X) => m.a.z + m.c.x
    case (Y, Z) => m.b.z + m.c.y
    case (Z, Y) => m.b.z + m.c.y
  }

  /** Entry i of the result is entry (pivot, i) of the form over the divisor, the pivot's own entry included. */
  lemma RowOverDivisor(m: Mat3, sqrt: real -> real, i: Component)
    requires IsSqrt(sqrt)
    ensures Divisor(m, sqrt) > 0.0 && Divisor(m, sqrt) * Divisor(m, sqrt) == 4.0 * Radicand(m, Pivot(m))
    ensures RotationMatrixToQuaternion(m, sqrt).At(i) == Form(m, Pivot(m), i) / Divisor(m, sqrt)
  {
    PivotRadicand(m);
    hide Pivot, Radicand, IsSqrt;
    var r := Radicand(m, Pivot(m));
    var s := Divisor(m, sqrt);
    PositiveRoot(sqrt, r);
    if i == Pivot(m) {
      QuarterOf(r, s);
    }
  }

  lemma PositiveRoot(sqrt: real -> real, r: real)
    requires IsSqrt(sqrt) && r > 0.0
    ensures sqrt(r) > 0.0 && sqrt(r) * 2.0 * (sqrt(r) * 2.0) == 4.0 * r
  {
  }

  lemma QuarterOf(r: real, s: real)
    requires s > 0.0 && s * s == 4.0 * r
    ensures 0.25 * s == r / s
  {
    assert r / s * s == 0.25 * s * s;
    ZeroProduct(r / s - 0.25 * s, s);
  }

  // From quaternion to matrix and back.

  function Times(a: real, b: real): real {
    a * b
  }

  function Negated(q: Quaternion): Quaternion {
    Quaternion(-q.x, -q.y, -q.z, -q.w)
  }

  lemma NormNonZero(q: Quaternion, sqrt: real -> real)
    requires IsSqrt(sqrt) && q != Quaternion(0.0, 0.0, 0.0, 0.0)
    ensures sqrt(q.Norm2()) > 0.0 && Normalized(q, sqrt).Norm2() == 1.0
  {
    SumOfSquaresPositive(q);
    var n := sqrt(q.Norm2());
    UnitAfterDivision(q, q.x / n, q.y / n, q.z / n, q.w / n, n);
  }

  lemma SumOfSquaresPositive(q: Quaternion)
    requires q != Quaternion(0.0, 0.0, 0.0, 0.0)
    ensures q.Norm2() > 0.0
  {
    NormAsTimes(q);
    hide Times, Quaternion.Norm2;
    SquareNonNegative(q.x);
    SquareNonNegative(q.y);
    SquareNonNegative(q.z);
    SquareNonNegative(q.w);
    assert q == Quaternion(q.x, q.y, q.z, q.w);
  }

  lemma NormAsTimes(q: Quaternion)
    ensures q.Norm2() == Times(q.x, q.x) + Times(q.y, q.y) + Times(q.z, q.z) + Times(q.w, q.w)
  {
  }

  lemma ProductPositive(a: real, b: real)
    requires a > 0.0 && b > 0.0
    ensures Times(a, b) > 0.0
  {
    assert a * b > 0.0;
  }

  lemma SquareNonNegative(x: real)
    ensures Times(x, x) >= 0.0 && (x != 0.0 ==> Times(x, x) > 0.0)
  {
    if x != 0.0 {
      var a := if x > 0.0 then x else -x;
      ProductPositive(a, a);
      assert Times(a, a) == Times(x, x);
    }
  }

  lemma UnitAfterDivision(q: Quaternion, x: real, y: real, z: real, w: real, n: real)
    requires n != 0.0 && n * n == q.Norm2()
    requires x == q.x / n && y == q.y / n && z == q.z / n && w == q.w / n
    ensures Quaternion(x, y, z, w).Norm2() == 1.0
  {
    UnitFactor4(q, x, y, z, w, n);
  }

  lemma UnitFactor4(q: Quaternion, x: real, y: real, z: real, w: real, n: real)
    requires n != 0.0 && n * n == q.Norm2()
    requires x * n == q.x && y * n == q.y && z * n == q.z && w * n == q.w
    ensures Quaternion(x, y, z, w).Norm2() == 1.0
  {
    var k := Quaternion(x, y, z, w).Norm2() - 1.0;
    assert k * n * n == x * n * (x * n) + y * n * (y * n) + z * n * (z * n) + w * n * (w * n) - n * n;
    assert x * n * (x * n) == q.x * q.x && y * n * (y * n) == q.y * q.y;
    assert z * n * (z * n) == q.z * q.z && w * n * (w * n) == q.w * q.w;
    ZeroProduct(k * n, n);
    ZeroProduct(k, n);
  }

  lemma FormOfUnit(u: Quaternion, i: Component, j: Component)
    requires u.Norm2() == 1.0
    ensures Form(MatrixOf(u), i, j) == 4.0 * Times(u.At(i), u.At(j))
  {
    FormOffDiagonal(u);
    FormDiagonal(u);
    var m := MatrixOf(u);
    hide Times, MatrixOf, Radicand, Quaternion.Norm2;
    TimesCommutes(u.At(i), u.At(j));
    match (i, j)
    case (W, _) =>
    case (X, _) =>
    case (Y, _) =>
    case (Z, _) =>
  }

  lemma TimesCommutes(a: real, b: real)
    ensures Times(a, b) == Times(b, a)
  {
  }

  lemma FormDiagonal(u: Quaternion)
    requires u.Norm2() == 1.0
    ensures var m := MatrixOf(u);
            && Radicand(m, W) == 4.0 * Times(u.w, u.w) && Radicand(m, X) == 4.0 * Times(u.x, u.x)
            && Radicand(m, Y) == 4.0 * Times(u.y, u.y) && Radicand(m, Z) == 4.0 * Times(u.z, u.z)
  {
    DiagonalOf(u);
    hide MatrixOf;
  }

  lemma DiagonalOf(u: Quaternion)
    ensures var m := MatrixOf(u);
            && m.a.x == 1.0 - 2.0 * (u.y * u.y + u.z * u.z)
            && m.b.y == 1.0 - 2.0 * (u.x * u.x + u.z * u.z)
            && m.c.z == 1.0 - 2.0 * (u.x * u.x + u.y * u.y)
  {
    hide Difference, Total;
    var m := MatrixOf(u);
    assert m.a.x == Diagonal(u.y, u.z) && m.b.y == Diagonal(u.x, u.z) && m.c.z == Diagonal(u.x, u.y);
    hide MatrixOf;
  }

  lemma FormOffDiagonal(u: Quaternion)
    ensures var m := MatrixOf(u);
            && m.c.y - m.b.z == 4.0 * Times(u.w, u.x) && m.a.z - m.c.x == 4.0 * Times(u.w, u.y)
            && m.b.x - m.a.y == 4.0 * Times(u.w, u.z) && m.a.y + m.b.x == 4.0 * Times(u.x, u.y)
            && m.a.z + m.c.x == 4.0 * Times(u.x, u.z) && m.b.z + m.c.y == 4.0 * Times(u.y, u.z)
  {
  }

  /**
   * The conversions are inverse to each other up to sign: from any non-zero quaternion and back gives the normalised
   * quaternion, with the sign that makes the pivot positive, and no branch divides by less than 2.
   */
  lemma QuaternionRoundTrip(q: Quaternion, sqrt: real -> real)
    requires IsSqrt(sqrt) && q != Quaternion(0.0, 0.0, 0.0, 0.0)
    ensures sqrt(q.Norm2()) > 0.0
    ensures var m := QuaternionToRotationMatrix(q, sqrt);
            var u := Normalized(q, sqrt);
            && Divisor(m, sqrt) >= 2.0
            && RotationMatrixToQuaternion(m, sqrt) == if u.At(Pivot(m)) > 0.0 then u else Negated(u)
  {
    NormNonZero(q, sqrt);
    var u := Normalized(q, sqrt);
    var m := MatrixOf(u);
    PivotRadicand(m);
    PivotRow(u, sqrt);
    var r := RotationMatrixToQuaternion(m, sqrt);
    assert r == Quaternion(r.At(X), r.At(Y), r.At(Z), r.At(W));
    assert u == Quaternion(u.At(X), u.At(Y), u.At(Z), u.At(W));
  }

  lemma PivotRow(u: Quaternion, sqrt: real -> real)
    requires IsSqrt(sqrt) && u.Norm2() == 1.0
    ensures var m := MatrixOf(u);
            var x := u.At(Pivot(m));
            && x != 0.0
            && Divisor(m, sqrt) == (if x > 0.0 then 4.0 * x else -4.0 * x) && Divisor(m, sqrt) >= 2.0
            && forall i :: RotationMatrixToQuaternion(m, sqrt).At(i) == if x > 0.0 then u.At(i) else -u.At(i)
  {
    var m := MatrixOf(u);
    var p := Pivot(m);
    PivotRadicand(m);
    FormOfUnit(u, p, p);
    FormOnDiagonal(m, p);
    hide Times, MatrixOf, Pivot, Radicand, Form, Quaternion.Norm2, Quaternion.At, RotationMatrixToQuaternion, IsSqrt;
    RootOfSquare(sqrt, u.At(p));
    forall i ensures RotationMatrixToQuaternion(m, sqrt).At(i) == if u.At(p) > 0.0 then u.At(i) else -u.At(i) {
      RowOverDivisor(m, sqrt, i);
      FormOfUnit(u, p, i);
      CancelPivot(u.At(p), u.At(i));
    }
  }

  lemma FormOnDiagonal(m: Mat3, i: Component)
    ensures Form(m, i, i) == Radicand(m, i)
  {
  }

  lemma RootOfSquare(sqrt: real -> real, x: real)
    requires IsSqrt(sqrt) && 4.0 * Times(x, x) >= 1.0
    ensures x != 0.0
    ensures sqrt(4.0 * Times(x, x)) == (if x > 0.0 then 2.0 * x else -2.0 * x)
    ensures sqrt(4.0 * Times(x, x)) >= 1.0
  {
    var y := if x > 0.0 then 2.0 * x else -2.0 * x;
    assert y * y == 4.0 * Times(x, x);
    SqrtUnique(sqrt, 4.0 * Times(x, x), y);
    RootAtLeastOne(y);
  }

  lemma CancelPivot(x: real, y: real)
    requires x != 0.0
    ensures 4.0 * Times(x, y) / (4.0 * x) == y && 4.0 * Times(x, y) / (-4.0 * x) == -y
  {
    assert 4.0 * Times(x, y) == y * (4.0 * x) == -y * (-4.0 * x);
  }

  // From rotation matrix to quaternion and back.

  function Determinant(m: Mat3): real {
    m.a.Dot(Cofactors(m).a)
  }

  function Cross(u: Vec3, v: Vec3): Vec3 {
    Vec3(u.y * v.z - u.z * v.y, u.z * v.x - u.x * v.z, u.x * v.y - u.y * v.x)
  }

  function Cofactors(m: Mat3): Mat3 {
    Mat3(Cross(m.b, m.c), Cross(m.c, m.a), Cross(m.a, m.b))
  }

  predicate ProperRotation(m: Mat3) {
    Orthogonal(m) && Determinant(m) == 1.0
  }

  lemma CrossAndDot(u: Vec3, v: Vec3)
    ensures u.Dot(Cross(u, v)) == 0.0 && u.Dot(Cross(v, u)) == 0.0
  {
  }

  lemma TripleProduct(u: Vec3, v: Vec3, w: Vec3)
    ensures v.Dot(Cross(w, u)) == u.Dot(Cross(v, w))
  {
  }

  lemma TimesCofactors(m: Mat3)
    requires Determinant(m) == 1.0
    ensures Mul(m, Cofactors(m).Transposed()) == IDENTITY3
  {
    var (a, b, c) := (m.a, m.b, m.c);
    CrossAndDot(a, b);
    CrossAndDot(a, c);
    CrossAndDot(b, a);
    CrossAndDot(b, c);
    CrossAndDot(c, a);
    CrossAndDot(c, b);
    TripleProduct(a, b, c);
    TripleProduct(b, c, a);
    hide Cross, Vec3.Dot;
  }

  /** A proper rotation equals its own matrix of cofactors. */
  lemma RotationIsItsCofactors(m: Mat3)
    requires ProperRotation(m)
    ensures Cofactors(m) == m
  {
    TimesCofactors(m);
    var t := Cofactors(m).Transposed();
    MulAssoc(m.Transposed(), m, t);
    MulIdentity(m.Transposed());
    hide Mul, Cofactors;
    MulIdentity(t);
    assert Cofactors(m) == t.Transposed();
  }

  lemma UnitVectorsOfRotation(m: Mat3)
    requires ProperRotation(m)
    ensures m.a.Dot(m.a) == 1.0 && m.b.Dot(m.b) == 1.0 && m.c.Dot(m.c) == 1.0
    ensures m.ColX().Dot(m.ColX()) == 1.0 && m.ColY().Dot(m.ColY()) == 1.0 && m.ColZ().Dot(m.ColZ()) == 1.0
  {
  }

  lemma RightAnglesOfRotation(m: Mat3)
    requires ProperRotation(m)
    ensures m.a.Dot(m.b) == 0.0 && m.a.Dot(m.c) == 0.0 && m.b.Dot(m.c) == 0.0
    ensures m.ColX().Dot(m.ColY()) == 0.0 && m.ColX().Dot(m.ColZ()) == 0.0 && m.ColY().Dot(m.ColZ()) == 0.0
  {
  }

  lemma CrossesOfRotation(m: Mat3)
    requires ProperRotation(m)
    ensures m.a == Cross(m.b, m.c) && m.b == Cross(m.c, m.a) && m.c == Cross(m.a, m.b)
  {
    RotationIsItsCofactors(m);
  }

  // The form of a proper rotation has rank one: its entries multiply like products of a vector's components.

  predicate Multiplies(m: Mat3, p: Component, i: Component, j: Component) {
    Times(Form(m, p, i), Form(m, p, j)) == Times(Form(m, i, j), Form(m, p, p))
  }

  /** Three diagonal entries x, y, z, and the two off the diagonal whose product is part of the cofactor z. */
  lemma SquaresOfEntries(x: real, y: real, z: real, u: real, v: real)
    requires z == x * y - u * v && u * u + v * v == 1.0 + z * z - x * x - y * y
    ensures Times(u - v, u - v) == Times(1.0 + z - x - y, 1.0 + z + x + y)
    ensures Times(u + v, u + v) == Times(1.0 - z - x + y, 1.0 - z + x - y)
  {
  }

  /** The two opposite entries s, t, and the products of the other four off the diagonal. */
  lemma ProductsOfEntries(x: real, y: real, z: real, s: real, t: real, k: real, l: real, m: real, n: real)
    requires k * l == t + z * s && m * n == s + t * z
    requires n * k == -(x * s + t * y) && l * m == -(x * t + s * y)
    ensures Times(k - m, l - n) == Times(s + t, 1.0 + x + y + z)
    ensures Times(l + n, m + k) == Times(s + t, 1.0 - x - y + z)
    ensures Times(k - m, l + n) == Times(t - s, 1.0 + x - y - z)
    ensures Times(l - n, m + k) == Times(t - s, 1.0 - x + y - z)
  {
  }

  lemma SquaresX(m: Mat3)
    requires ProperRotation(m)
    ensures Multiplies(m, W, X, X) && Multiplies(m, X, W, W)
    ensures Multiplies(m, Y, Z, Z) && Multiplies(m, Z, Y, Y)
  {
    UnitVectorsOfRotation(m);
    CrossesOfRotation(m);
    hide ProperRotation;
    var (x, y, z, u, v) := (m.b.y, m.c.z, m.a.x, m.c.y, m.b.z);
    assert u * u + v * v == 1.0 + z * z - x * x - y * y;
    SquaresOfEntries(x, y, z, u, v);
    TimesCommutes(1.0 + z - x - y, 1.0 + z + x + y);
    TimesCommutes(1.0 - z - x + y, 1.0 - z + x - y);
    hide Times, Cross, Vec3.Dot;
  }

  lemma SquaresY(m: Mat3)
    requires ProperRotation(m)
    ensures Multiplies(m, W, Y, Y) && Multiplies(m, Y, W, W)
    ensures Multiplies(m, X, Z, Z) && Multiplies(m, Z, X, X)
  {
    UnitVectorsOfRotation(m);
    CrossesOfRotation(m);
    hide ProperRotation;
    var (x, y, z, u, v) := (m.a.x, m.c.z, m.b.y, m.a.z, m.c.x);
    assert u * u + v * v == 1.0 + z * z - x * x - y * y;
    SquaresOfEntries(x, y, z, u, v);
    TimesCommutes(1.0 + z - x - y, 1.0 + z + x + y);
    TimesCommutes(1.0 - z - x + y, 1.0 - z + x - y);
    hide Times, Cross, Vec3.Dot;
  }

  lemma SquaresZ(m: Mat3)
    requires ProperRotation(m)
    ensures Multiplies(m, W, Z, Z) && Multiplies(m, Z, W, W)
    ensures Multiplies(m, X, Y, Y) && Multiplies(m, Y, X, X)
  {
    UnitVectorsOfRotation(m);
    CrossesOfRotation(m);
    hide ProperRotation;
    var (x, y, z, u, v) := (m.a.x, m.b.y, m.c.z, m.b.x, m.a.y);
    assert u * u + v * v == 1.0 + z * z - x * x - y * y;
    SquaresOfEntries(x, y, z, u, v);
    TimesCommutes(1.0 + z - x - y, 1.0 + z + x + y);
    TimesCommutes(1.0 - z - x + y, 1.0 - z + x - y);
    hide Times, Cross, Vec3.Dot;
  }

  lemma ProductsXY(m: Mat3)
    requires ProperRotation(m)
    ensures Multiplies(m, W, X, Y) && Multiplies(m, Z, X, Y)
    ensures Multiplies(m, X, W, Z) && Multiplies(m, Y, W, Z)
  {
    RightAnglesOfRotation(m);
    CrossesOfRotation(m);
    hide ProperRotation;
    ProductsOfEntries(m.a.x, m.b.y, m.c.z, m.a.y, m.b.x, m.c.y, m.a.z, m.b.z, m.c.x);
    hide Times, Cross, Vec3.Dot;
  }

  lemma ProductsYZ(m: Mat3)
    requires ProperRotation(m)
    ensures Multiplies(m, W, Y, Z) && Multiplies(m, X, Y, Z)
    ensures Multiplies(m, Y, W, X) && Multiplies(m, Z, W, X)
  {
    RightAnglesOfRotation(m);
    CrossesOfRotation(m);
    hide ProperRotation;
    ProductsOfEntries(m.b.y, m.c.z, m.a.x, m.b.z, m.c.y, m.a.z, m.b.x, m.c.x, m.a.y);
    hide Times, Cross, Vec3.Dot;
  }

  lemma ProductsZX(m: Mat3)
    requires ProperRotation(m)
    ensures Multiplies(m, W, Z, X) && Multiplies(m, Y, Z, X)
    ensures Multiplies(m, Z, W, Y) && Multiplies(m, X, W, Y)
  {
    RightAnglesOfRotation(m);
    CrossesOfRotation(m);
    hide ProperRotation;
    ProductsOfEntries(m.c.z, m.a.x, m.b.y, m.c.x, m.a.z, m.b.x, m.c.y, m.a.y, m.b.z);
    hide Times, Cross, Vec3.Dot;
  }

  lemma FormHasRankOne(m: Mat3, p: Component, i: Component, j: Component)
    requires ProperRotation(m)
    ensures Multiplies(m, p, i, j)
  {
    SquaresX(m);
    SquaresY(m);
    SquaresZ(m);
    ProductsXY(m);
    ProductsYZ(m);
    ProductsZX(m);
    hide Times, ProperRotation, Radicand;
    TimesCommutes(Form(m, p, i), Form(m, p, j));
  }

  lemma QuotientProduct(a: real, b: real, c: real, s: real, r: real)
    requires s > 0.0 && r > 0.0 && s * s == 4.0 * r && Times(a, b) == Times(c, r)
    ensures 4.0 * Times(a / s, b / s) == c
  {
    var (p, q) := (a / s, b / s);
    assert p * s == a && q * s == b;
    var k := 4.0 * (p * q) - c;
    assert p * s * (q * s) == c * r;
    assert p * s * (q * s) == p * q * (s * s);
    assert k * r == 0.0;
    ZeroProduct(k, r);
  }

  lemma ProductsOfResult(m: Mat3, sqrt: real -> real, i: Component, j: Component)
    requires ProperRotation(m) && IsSqrt(sqrt)
    ensures var q := RotationMatrixToQuaternion(m, sqrt);
            4.0 * Times(q.At(i), q.At(j)) == Form(m, i, j)
  {
    hide Times, Form, Radicand, Pivot, ProperRotation, IsSqrt, Divisor, RotationMatrixToQuaternion, Quaternion.At;
    var p, s := Pivot(m), Divisor(m, sqrt);
    RowOverDivisor(m, sqrt, i);
    RowOverDivisor(m, sqrt, j);
    FormOnDiagonal(m, p);
    PivotRadicand(m);
    FormHasRankOne(m, p, i, j);
    QuotientProduct(Form(m, p, i), Form(m, p, j), Form(m, i, j), s, Form(m, p, p));
  }

  /** Every proper rotation matrix comes back unchanged, by way of a unit quaternion. */
  lemma MatrixRoundTrip(m: Mat3, sqrt: real -> real)
    requires ProperRotation(m) && IsSqrt(sqrt)
    ensures var q := RotationMatrixToQuaternion(m, sqrt);
            && q.Norm2() == 1.0 && sqrt(q.Norm2()) == 1.0
            && QuaternionToRotationMatrix(q, sqrt) == m
  {
    var q := RotationMatrixToQuaternion(m, sqrt);
    forall i, j ensures 4.0 * Times(q.At(i), q.At(j)) == Form(m, i, j) {
      ProductsOfResult(m, sqrt, i, j);
    }
    hide RotationMatrixToQuaternion, ProperRotation;
    FormGivesMatrix(m, q);
    SqrtUnique(sqrt, 1.0, 1.0);
    assert q == Quaternion(q.x, q.y, q.z, q.w);
  }

  lemma FormGivesMatrix(m: Mat3, q: Quaternion)
    requires forall i, j :: 4.0 * Times(q.At(i), q.At(j)) == Form(m, i, j)
    ensures q.Norm2() == 1.0 && MatrixOf(q) == m
  {
    MatrixAsTimes(q);
    NormAsTimes(q);
    hide Times, MatrixOf, Quaternion.Norm2;
    assert forall i, j :: 4.0 * Times(q.At(i), q.At(j)) == Form(m, i, j);
    var (x, y, z, w) := (q.At(X), q.At(Y), q.At(Z), q.At(W));
    assert 4.0 * Times(x, x) == Form(m, X, X) && 4.0 * Times(y, y) == Form(m, Y, Y);
    assert 4.0 * Times(z, z) == Form(m, Z, Z) && 4.0 * Times(w, w) == Form(m, W, W);
    assert 4.0 * Times(x, y) == Form(m, X, Y) && 4.0 * Times(x, z) == Form(m, X, Z);
    assert 4.0 * Times(y, z) == Form(m, Y, Z) && 4.0 * Times(x, w) == Form(m, X, W);
    assert 4.0 * Times(y, w) == Form(m, Y, W) && 4.0 * Times(z, w) == Form(m, Z, W);
  }

  function TimesMatrix(q: Quaternion): Mat3 {
    var (x, y, z, w) := (q.x, q.y, q.z, q.w);
    Mat3(Vec3(1.0 - 2.0 * (Times(y, y) + Times(z, z)), 2.0 * (Times(x, y) - Times(z, w)), 2.0 * (Times(x, z) + Times(y, w))),
         Vec3(2.0 * (Times(x, y) + Times(z, w)), 1.0 - 2.0 * (Times(x, x) + Times(z, z)), 2.0 * (Times(y, z) - Times(x, w))),
         Vec3(2.0 * (Times(x, z) - Times(y, w)), 2.0 * (Times(y, z) + Times(x, w)), 1.0 - 2.0 * (Times(x, x) + Times(y, y))))
  }

  lemma MatrixAsTimes(q: Quaternion)
    ensures MatrixOf(q) == TimesMatrix(q)
  {
    var (x, y, z, w) := (q.x, q.y, q.z, q.w);
    OnDiagonal(y, z);
    OnDiagonal(x, z);
    OnDiagonal(x, y);
    OffDiagonal(x, y, z, w);
    OffDiagonal(x, z, y, w);
    OffDiagonal(y, z, x, w);
    hide Times, Diagonal, Difference, Total;
  }

  lemma OnDiagonal(a: real, b: real)
    ensures Diagonal(a, b) == 1.0 - 2.0 * (Times(a, a) + Times(b, b))
  {
  }

  lemma OffDiagonal(a: real, b: real, c: real, d: real)
    ensures Difference(a, b, c, d) == 2.0 * (Times(a, b) - Times(c, d))
    ensures Total(a, b, c, d) == 2.0 * (Times(a, b) + Times(c, d))
  {
  }

  // What the matrix of a quaternion is: the rotation that the quaternion stands for.

  /** Hamilton's product. */
  function Hamilton(p: Quaternion, q: Quaternion): Quaternion {
    Quaternion(p.w * q.x + p.x * q.w + p.y * q.z - p.z * q.y,
               p.w * q.y - p.x * q.z + p.y * q.w + p.z * q.x,
               p.w * q.z + p.x * q.y - p.y * q.x + p.z * q.w,
               p.w * q.w - p.x * q.x - p.y * q.y - p.z * q.z)
  }

  function Conjugate(q: Quaternion): Quaternion {
    Quaternion(-q.x, -q.y, -q.z, q.w)
  }

  function Pure(v: Vec3): Quaternion {
    Quaternion(v.x, v.y, v.z, 0.0)
  }

  function Sandwich(q: Quaternion, v: Vec3): Quaternion {
    Hamilton(Hamilton(q, Pure(v)), Conjugate(q))
  }

  lemma SandwichProducts(q: Quaternion, v: Vec3, n: real)
    requires n == q.Norm2()
    ensures Sandwich(q, v).x == (n - 2.0 * (q.y * q.y + q.z * q.z)) * v.x
                                + 2.0 * (q.x * q.y - q.z * q.w) * v.y + 2.0 * (q.x * q.z + q.y * q.w) * v.z
  {
    assert n * v.x == q.Norm2() * v.x;
  }

  lemma TimesIs(a: real, b: real)
    ensures Times(a, b) == a * b
  {
  }

  // Its components, for a unit quaternion: the second and third are the first with the axes renamed.

  lemma SandwichX(q: Quaternion, v: Vec3)
    requires q.Norm2() == 1.0
    ensures Sandwich(q, v).x == Times(Diagonal(q.y, q.z), v.x) + Times(Difference(q.x, q.y, q.z, q.w), v.y)
                                + Times(Total(q.x, q.z, q.y, q.w), v.z)
  {
    SandwichProducts(q, v, 1.0);
    TimesIs(1.0 - 2.0 * (q.y * q.y + q.z * q.z), v.x);
    TimesIs(2.0 * (q.x * q.y - q.z * q.w), v.y);
    TimesIs(2.0 * (q.x * q.z + q.y * q.w), v.z);
    hide Times, Sandwich;
  }

  lemma AxesRenamed(q: Quaternion, v: Vec3)
    ensures Sandwich(q, v).y == Sandwich(Quaternion(q.y, q.z, q.x, q.w), Vec3(v.y, v.z, v.x)).x
    ensures Sandwich(q, v).z == Sandwich(Quaternion(q.z, q.x, q.y, q.w), Vec3(v.z, v.x, v.y)).x
  {
  }

  lemma SandwichW(q: Quaternion, v: Vec3)
    ensures Sandwich(q, v).w == 0.0
  {
  }

  lemma Entries(a: real, b: real, c: real, d: real)
    ensures Diagonal(a, b) == Diagonal(b, a)
    ensures Total(a, b, c, d) == Total(b, a, c, d) && Difference(a, b, c, d) == Difference(b, a, c, d)
  {
  }

  lemma RowTimesVector(a: real, b: real, c: real, v: Vec3)
    ensures Vec3(a, b, c).Dot(v) == Times(a, v.x) + Times(b, v.y) + Times(c, v.z)
  {
  }

  /** The matrix of a unit quaternion turns a vector v into q v q*. */
  lemma MatrixRotates(q: Quaternion, v: Vec3)
    requires q.Norm2() == 1.0
    ensures Sandwich(q, v) == Pure(MatrixOf(q).Apply(v))
  {
    AxesRenamed(q, v);
    SandwichX(q, v);
    SandwichX(Quaternion(q.y, q.z, q.x, q.w), Vec3(v.y, v.z, v.x));
    SandwichX(Quaternion(q.z, q.x, q.y, q.w), Vec3(v.z, v.x, v.y));
    SandwichW(q, v);
    Entries(q.z, q.x, q.y, q.w);
    Entries(q.y, q.x, q.z, q.w);
    Entries(q.z, q.y, q.x, q.w);
    hide Sandwich, Diagonal, Difference, Total, Vec3.Dot, Times;
    var m := MatrixOf(q);
    RowTimesVector(m.a.x, m.a.y, m.a.z, v);
    RowTimesVector(m.b.x, m.b.y, m.b.z, v);
    RowTimesVector(m.c.x, m.c.y, m.c.z, v);
  }

  /** For any non-zero quaternion the matrix is that rotation of its normalised quaternion. */
  lemma QuaternionRotates(q: Quaternion, v: Vec3, sqrt: real -> real)
    requires IsSqrt(sqrt) && q != Quaternion(0.0, 0.0, 0.0, 0.0)
    ensures sqrt(q.Norm2()) > 0.0
    ensures Sandwich(Normalized(q, sqrt), v) == Pure(QuaternionToRotationMatrix(q, sqrt).Apply(v))
  {
    NormNonZero(q, sqrt);
    MatrixRotates(Normalized(q, sqrt), v);
  }
}
