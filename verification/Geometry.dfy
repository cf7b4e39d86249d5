/** Rigid-body geometry over the reals: the part of Eigen that the calibration uses. */
module Geometry {

  /** `sqrt` behaves as the standard library's square root on non-negative arguments. */
  ghost predicate IsSqrt(sqrt: real -> real) {
    forall x :: x >= 0.0 ==> sqrt(x) >= 0.0 && sqrt(x) * sqrt(x) == x
  }

  lemma SqrtUnique(sqrt: real -> real, x: real, r: real)
    requires IsSqrt(sqrt) && r >= 0.0 && r * r == x
    ensures sqrt(x) == r
  {
    var q := sqrt(x);
    assert (q - r) * (q + r) == q * q - r * r;
    ZeroProduct(q - r, q + r);
  }

  lemma ZeroProduct(a: real, b: real)
    requires a * b == 0.0
    ensures a == 0.0 || b == 0.0
  {
    if b != 0.0 {
      assert a == a * b / b;
    }
  }

  /** An angle, known through its cosine and sine; two angles that differ by a full turn are the same. */
  datatype Angle = Angle(c: real, s: real) {
    predicate Unit() {
      c * c + s * s == 1.0
    }

    function Opposite(): Angle {
      Angle(c, -s)
    }

    function Plus(b: Angle): Angle {
      Angle(c * b.c - s * b.s, s * b.c + c * b.s)
    }

    function Minus(b: Angle): Angle {
      Angle(c * b.c + s * b.s, s * b.c - c * b.s)
    }
  }

  const ZERO_ANGLE := Angle(1.0, 0.0)
  const PI := Angle(-1.0, 0.0)

  /** std::atan2(y, x), given the length r of (x, y); the angle of the zero vector is zero. */
  function Atan2(y: real, x: real, r: real): Angle {
    if r == 0.0 then ZERO_ANGLE else Angle(x / r, y / r)
  }

  datatype Vec3 = Vec3(x: real, y: real, z: real) {
    function Plus(v: Vec3): Vec3 {
      Vec3(x + v.x, y + v.y, z + v.z)
    }

    function Minus(v: Vec3): Vec3 {
      Vec3(x - v.x, y - v.y, z - v.z)
    }

    function Scale(k: real): Vec3 {
      Vec3(k * x, k * y, k * z)
    }

    function Dot(v: Vec3): real {
      x * v.x + y * v.y + z * v.z
    }
  }

  const ORIGIN := Vec3(0.0, 0.0, 0.0)

  /** A 3x3 matrix, by rows. */
  datatype Mat3 = Mat3(a: Vec3, b: Vec3, c: Vec3) {
    function ColX(): Vec3 { Vec3(a.x, b.x, c.x) }

    function ColY(): Vec3 { Vec3(a.y, b.y, c.y) }

    function ColZ(): Vec3 { Vec3(a.z, b.z, c.z) }

    function Transposed(): Mat3 {
      Mat3(ColX(), ColY(), ColZ())
    }

    function Apply(v: Vec3): Vec3 {
      Vec3(a.Dot(v), b.Dot(v), c.Dot(v))
    }
  }

  const IDENTITY3 := Mat3(Vec3(1.0, 0.0, 0.0), Vec3(0.0, 1.0, 0.0), Vec3(0.0, 0.0, 1.0))

  function RowTimes(v: Vec3, m: Mat3): Vec3 {
    Vec3(v.Dot(m.ColX()), v.Dot(m.ColY()), v.Dot(m.ColZ()))
  }

  function Mul(m: Mat3, n: Mat3): Mat3 {
    Mat3(RowTimes(m.a, n), RowTimes(m.b, n), RowTimes(m.c, n))
  }

  predicate Orthogonal(m: Mat3) {
    Mul(m.Transposed(), m) == IDENTITY3 && Mul(m, m.Transposed()) == IDENTITY3
  }

  function RotZ(t: Angle): Mat3 {
    Mat3(Vec3(t.c, -t.s, 0.0), Vec3(t.s, t.c, 0.0), Vec3(0.0, 0.0, 1.0))
  }

  function RotX(t: Angle): Mat3 {
    Mat3(Vec3(1.0, 0.0, 0.0), Vec3(0.0, t.c, -t.s), Vec3(0.0, t.s, t.c))
  }

  /** A homogeneous 4x4 matrix whose last row is (0, 0, 0, 1). */
  datatype Pose = Pose(rot: Mat3, pos: Vec3)

  const IDENTITY := Pose(IDENTITY3, ORIGIN)

  function Compose(p: Pose, q: Pose): Pose {
    Pose(Mul(p.rot, q.rot), p.rot.Apply(q.pos).Plus(p.pos))
  }

  function Inverse(p: Pose): Pose {
    Pose(p.rot.Transposed(), p.rot.Transposed().Apply(p.pos).Scale(-1.0))
  }

  /** The entry of the 4x4 matrix in row i and column j. */
  function Entry(p: Pose, i: nat, j: nat): real
    requires i < 4 && j < 4
  {
    if i == 3 then if j == 3 then 1.0 else 0.0
    else
      var row := if i == 0 then p.rot.a else if i == 1 then p.rot.b else p.rot.c;
      var shift := if i == 0 then p.pos.x else if i == 1 then p.pos.y else p.pos.z;
      if j == 0 then row.x else if j == 1 then row.y else if j == 2 then row.z else shift
  }

  predicate Rigid(p: Pose) {
    Orthogonal(p.rot)
  }

  /** A rotation about z followed by a shift along it: a `d`/`theta` segment, or a joint when d is zero. */
  function ZScrew(theta: Angle, d: real): Pose {
    Pose(RotZ(theta), Vec3(0.0, 0.0, d))
  }

  // Algebra of matrices

  lemma DotAssoc(v: Vec3, m: Mat3, w: Vec3)
    ensures RowTimes(v, m).Dot(w) == v.Dot(m.Apply(w))
  {
  }

  lemma RowAssoc(v: Vec3, m: Mat3, n: Mat3)
    ensures RowTimes(RowTimes(v, m), n) == RowTimes(v, Mul(m, n))
  {
    DotAssoc(v, m, n.ColX());
    DotAssoc(v, m, n.ColY());
    DotAssoc(v, m, n.ColZ());
    hide Vec3.Dot;
  }

  lemma MulAssoc(k: Mat3, m: Mat3, n: Mat3)
    ensures Mul(Mul(k, m), n) == Mul(k, Mul(m, n))
  {
    RowAssoc(k.a, m, n);
    RowAssoc(k.b, m, n);
    RowAssoc(k.c, m, n);
  }

  lemma ApplyAssoc(k: Mat3, m: Mat3, v: Vec3)
    ensures Mul(k, m).Apply(v) == k.Apply(m.Apply(v))
  {
    hide Vec3.Dot, RowTimes;
    DotAssoc(k.a, m, v);
    DotAssoc(k.b, m, v);
    DotAssoc(k.c, m, v);
  }

  lemma ApplyPlus(m: Mat3, u: Vec3, v: Vec3)
    ensures m.Apply(u.Plus(v)) == m.Apply(u).Plus(m.Apply(v))
  {
  }

  lemma MulTransposed(m: Mat3, n: Mat3)
    ensures Mul(m, n).Transposed() == Mul(n.Transposed(), m.Transposed())
  {
  }

  lemma MulIdentity(m: Mat3)
    ensures Mul(m, IDENTITY3) == m && Mul(IDENTITY3, m) == m
  {
  }

  lemma OrthogonalMul(m: Mat3, n: Mat3)
    requires Orthogonal(m) && Orthogonal(n)
    ensures Orthogonal(Mul(m, n))
  {
    var mt, nt := m.Transposed(), n.Transposed();
    MulTransposed(m, n);
    calc {
      Mul(Mul(nt, mt), Mul(m, n));
      { MulAssoc(nt, mt, Mul(m, n)); MulAssoc(mt, m, n); }
      Mul(nt, Mul(Mul(mt, m), n));
      { MulIdentity(n); }
      IDENTITY3;
    }
    calc {
      Mul(Mul(m, n), Mul(nt, mt));
      { MulAssoc(m, n, Mul(nt, mt)); MulAssoc(n, nt, mt); }
      Mul(m, Mul(Mul(n, nt), mt));
      { MulIdentity(mt); }
      IDENTITY3;
    }
  }

  // Algebra of poses

  lemma DotProducts(v: Vec3, w: Vec3)
    ensures v.Dot(w) == Product(v.x, w.x) + Product(v.y, w.y) + Product(v.z, w.z)
  {
  }

  lemma LastFactor(x: real)
    ensures Product(x, 0.0) == 0.0 && Product(x, 1.0) == x && Product(0.0, x) == 0.0 && Product(1.0, x) == x
  {
  }

  /** Composing poses is multiplying their 4x4 matrices: each entry is a row times a column. */
  lemma ComposeIsProduct(p: Pose, q: Pose, i: nat, j: nat)
    requires i < 4 && j < 4
    ensures Entry(Compose(p, q), i, j)
            == Product(Entry(p, i, 0), Entry(q, 0, j)) + Product(Entry(p, i, 1), Entry(q, 1, j))
               + Product(Entry(p, i, 2), Entry(q, 2, j)) + Product(Entry(p, i, 3), Entry(q, 3, j))
  {
    hide Vec3.Dot, Product;
    LastFactor(Entry(p, i, 3));
    LastFactor(Entry(q, 0, j));
    LastFactor(Entry(q, 1, j));
    LastFactor(Entry(q, 2, j));
    LastFactor(Entry(q, 3, j));
    var row := if i == 0 then p.rot.a else if i == 1 then p.rot.b else p.rot.c;
    var column := if j == 0 then q.rot.ColX() else if j == 1 then q.rot.ColY()
                  else if j == 2 then q.rot.ColZ() else q.pos;
    DotProducts(row, column);
  }

  lemma ComposeAssoc(p: Pose, q: Pose, r: Pose)
    ensures Compose(Compose(p, q), r) == Compose(p, Compose(q, r))
  {
    MulAssoc(p.rot, q.rot, r.rot);
    ApplyAssoc(p.rot, q.rot, r.pos);
    ApplyPlus(p.rot, q.rot.Apply(r.pos), q.pos);
  }

  lemma ComposeIdentity(p: Pose)
    ensures Compose(p, IDENTITY) == p && Compose(IDENTITY, p) == p
  {
    MulIdentity(p.rot);
  }

  lemma RigidCompose(p: Pose, q: Pose)
    requires Rigid(p) && Rigid(q)
    ensures Rigid(Compose(p, q))
  {
    OrthogonalMul(p.rot, q.rot);
  }

  lemma RigidScrew(theta: Angle, d: real)
    requires theta.Unit()
    ensures Rigid(ZScrew(theta, d))
  {
    hide RotZ, Mul, Angle.Unit, Angle.Opposite;
    OppositeTurn(theta);
    TurnAndBack(theta, theta.Opposite());
    TurnAndBack(theta.Opposite(), theta);
  }

  lemma OppositeTurn(a: Angle)
    ensures RotZ(a).Transposed() == RotZ(a.Opposite()) && a.Opposite().Opposite() == a
    ensures a.Unit() ==> a.Opposite().Unit()
  {
    var r := -a.s;
    assert r * r == a.s * a.s;
  }

  /** A product whose factors are not looked into. */
  function Product(x: real, y: real): real {
    x * y
  }

  lemma PlaneDot(a: real, b: real, c: real, d: real)
    ensures Vec3(a, b, 0.0).Dot(Vec3(c, d, 0.0)) == Product(a, c) + Product(b, d)
    ensures Vec3(a, b, 0.0).Dot(Vec3(0.0, 0.0, 1.0)) == Vec3(0.0, 0.0, 1.0).Dot(Vec3(a, b, 0.0)) == 0.0
    ensures Vec3(0.0, 0.0, 1.0).Dot(Vec3(0.0, 0.0, 1.0)) == 1.0
  {
  }

  lemma OppositeProducts(c: real, s: real, r: real)
    requires Angle(c, s).Unit() && r == -s
    ensures Product(c, c) + Product(r, r) == 1.0 && Product(s, s) + Product(c, c) == 1.0
    ensures Product(c, s) + Product(r, c) == 0.0 && Product(s, c) + Product(c, r) == 0.0
  {
    assert r * r == s * s && r * c == -(s * c);
  }

  /** Turning about z by an angle and by its opposite. */
  lemma TurnAndBack(a: Angle, b: Angle)
    requires a.Unit() && b == a.Opposite()
    ensures Mul(RotZ(a), RotZ(b)) == IDENTITY3
  {
    var (c, s, r, m, n) := (a.c, a.s, b.s, RotZ(a), RotZ(b));
    hide Vec3.Dot, Angle.Unit, Product;
    OppositeProducts(c, s, r);
    assert m.a == Vec3(c, r, 0.0) && m.b == Vec3(s, c, 0.0) && m.c == Vec3(0.0, 0.0, 1.0);
    assert n.ColX() == Vec3(c, r, 0.0) && n.ColY() == Vec3(s, c, 0.0) && n.ColZ() == Vec3(0.0, 0.0, 1.0);
    hide RotZ, Mat3.ColX, Mat3.ColY, Mat3.ColZ;
    PlaneDot(c, r, c, r);
    PlaneDot(c, r, s, c);
    PlaneDot(s, c, c, r);
    PlaneDot(s, c, s, c);
  }

  lemma InverseIsInverse(p: Pose)
    requires Rigid(p)
    ensures Compose(Inverse(p), p) == IDENTITY && Compose(p, Inverse(p)) == IDENTITY
  {
    var t := p.rot.Transposed();
    var v := t.Apply(p.pos);
    assert p.rot.Apply(v) == p.pos by {
      ApplyAssoc(p.rot, t, p.pos);
    }
    assert p.rot.Apply(v.Scale(-1.0)) == p.rot.Apply(v).Scale(-1.0);
  }

  lemma LeftCancel(p: Pose, x: Pose, y: Pose)
    requires Rigid(p) && Compose(p, x) == Compose(p, y)
    ensures x == y
  {
    var i := Inverse(p);
    InverseIsInverse(p);
    ComposeAssoc(i, p, x);
    ComposeAssoc(i, p, y);
    ComposeIdentity(x);
    ComposeIdentity(y);
  }

  lemma RightCancel(p: Pose, x: Pose, y: Pose)
    requires Rigid(p) && Compose(x, p) == Compose(y, p)
    ensures x == y
  {
    var i := Inverse(p);
    InverseIsInverse(p);
    ComposeAssoc(x, p, i);
    ComposeAssoc(y, p, i);
    ComposeIdentity(x);
    ComposeIdentity(y);
  }

  /** Screws about the same axis commute. */
  lemma ScrewsCommute(s: Angle, d: real, t: Angle, e: real)
    ensures Compose(ZScrew(s, d), ZScrew(t, e)) == Compose(ZScrew(t, e), ZScrew(s, d))
  {
    RotZProduct(s, t);
    RotZProduct(t, s);
  }

  lemma RotZProduct(s: Angle, t: Angle)
    ensures Mul(RotZ(s), RotZ(t)) == RotZ(s.Plus(t))
  {
    var m, n := RotZ(s), RotZ(t);
    assert n.ColX() == Vec3(t.c, t.s, 0.0) && n.ColY() == Vec3(-t.s, t.c, 0.0) && n.ColZ() == Vec3(0.0, 0.0, 1.0);
    assert -s.c * t.s - s.s * t.c == -(s.s * t.c + s.c * t.s);
    assert RowTimes(m.a, n) == Vec3(s.c * t.c - s.s * t.s, -s.c * t.s - s.s * t.c, 0.0);
    assert RowTimes(m.b, n) == Vec3(s.s * t.c + s.c * t.s, -s.s * t.s + s.c * t.c, 0.0);
  }

  lemma RotZSum(s: Angle, t: Angle)
    requires s.Unit()
    ensures Mul(RotZ(s), RotZ(t.Minus(s))) == RotZ(t)
  {
    var c, d := t.c, t.s;
    assert s.c * (c * s.c + d * s.s) - s.s * (d * s.c - c * s.s) == c * (s.c * s.c + s.s * s.s);
    assert s.s * (c * s.c + d * s.s) + s.c * (d * s.c - c * s.s) == d * (s.c * s.c + s.s * s.s);
  }
}
