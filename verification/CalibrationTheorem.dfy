/** When correcting a calibrated chain leaves every end-effector pose where it was. */
module CalibrationTheorem {
  import opened Geometry
  import opened UrCalibration

  /** The offset the elbow has once the shoulder has been corrected. */
  function ElbowOffset(segments: seq<DHSegment>): real
    requires |segments| >= 4 && (segments[1].d != 0.0 ==> segments[1].alpha.c != 0.0)
  {
    if segments[1].d == 0.0 then segments[2].d else segments[2].d + segments[1].d / Abs(segments[1].alpha.c)
  }

  /** Every axis that has to be corrected is followed by an axis that crosses its plane in one point. */
  predicate Calibratable(segments: seq<DHSegment>) {
    && |segments| >= 4
    && (segments[1].d != 0.0 ==> segments[1].alpha.c != 0.0 && segments[2].d != 0.0)
    && (ElbowOffset(segments) != 0.0 ==> segments[2].alpha.c != 0.0 && segments[3].d != 0.0)
  }

  /** Removing offset d from this link moves nothing behind it: no twist beyond a right angle, and a real link. */
  predicate Harmless(segment: DHSegment, d: real) {
    d == 0.0 || (segment.alpha.c > 0.0 && (segment.a != 0.0 || segment.alpha.s == 0.0))
  }

  function Corrected(segments: seq<DHSegment>, sqrt: real -> real): (after: seq<Pose>)
    requires Calibratable(segments)
    ensures |after| == 2 * |segments|
  {
    CorrectableBuilt(segments, sqrt);
    CorrectedAxis(CorrectedAxis(Built(segments), segments, 1, sqrt), segments, 2, sqrt)
  }

  lemma CorrectableBuilt(segments: seq<DHSegment>, sqrt: real -> real)
    requires Calibratable(segments)
    ensures Correctable(Built(segments), segments, 1)
    ensures Correctable(CorrectedAxis(Built(segments), segments, 1, sqrt), segments, 2)
  {
    hide Mul, RotZ, RotX, Foot, Flat;
    var after := CorrectedAxis(Built(segments), segments, 1, sqrt);
    assert after[4].pos.z == ElbowOffset(segments);
  }

  // How far the two corrections move what lies behind them, seen from the frame of the shoulder's passive segment.

  function ShoulderDrift(segment: DHSegment, d: real): Vec3
    requires d != 0.0 ==> segment.alpha.c != 0.0
  {
    if d == 0.0 then ORIGIN
    else if segment.a != 0.0 then Vec3(0.0, 0.0, d / segment.alpha.c)
    else Vec3(0.0, 2.0 * d * segment.alpha.s, 2.0 * d * segment.alpha.c - d / segment.alpha.c)
  }

  function ElbowDrift(segment: DHSegment, original: real, d: real): Vec3
    requires d != 0.0 ==> segment.alpha.c != 0.0
  {
    var axis := Turn(segment).ColZ();
    if d == 0.0 then Vec3(0.0, 0.0, -original)
    else
      var (back, along) := (d / Abs(segment.alpha.c), d / segment.alpha.c);
      if segment.a != 0.0 then Vec3(0.0, 0.0, d - original).Plus(axis.Scale(back - along))
      else Vec3(0.0, 0.0, -d - original).Plus(axis.Scale(back + along))
  }

  /** The flat vector v has length r and points along theta. */
  predicate Heads(v: Vec3, theta: Angle, r: real) {
    theta.Unit() && v == Vec3(r * theta.c, r * theta.s, 0.0)
  }

  lemma Atan2Heads(v: Vec3, r: real)
    requires r * r == Flat(v) && v.z == 0.0
    ensures Heads(v, Atan2(v.y, v.x, r), r)
  {
    hide Heads, Flat, Angle.Unit;
    if r == 0.0 {
      FlatVanishes(v);
      HeadsOfZero(v);
    } else {
      QuotientTimes(v.x, r);
      QuotientTimes(v.y, r);
      UnitFactor(v, v.x / r, v.y / r, r);
      HeadsIntro(v, v.x / r, v.y / r, r);
    }
  }

  lemma HeadsOfZero(v: Vec3)
    requires v == ORIGIN
    ensures Heads(v, ZERO_ANGLE, 0.0)
  {
  }

  lemma HeadsIntro(v: Vec3, c: real, s: real, r: real)
    requires v.z == 0.0 && r * c == v.x && r * s == v.y && Angle(c, s).Unit()
    ensures Heads(v, Angle(c, s), r)
  {
    hide Angle.Unit;
  }

  lemma UnitFactor(v: Vec3, c: real, s: real, r: real)
    requires r != 0.0 && r * r == Flat(v)
    requires r * c == v.x && r * s == v.y
    ensures Angle(c, s).Unit()
  {
    var k := c * c + s * s - 1.0;
    assert r * c * (r * c) == v.x * v.x && r * s * (r * s) == v.y * v.y;
    assert k * r * r == r * c * (r * c) + r * s * (r * s) - r * r;
    ZeroProduct(k * r, r);
    ZeroProduct(k, r);
  }

  lemma FlatVanishes(v: Vec3)
    requires Flat(v) == 0.0
    ensures v.x == 0.0 && v.y == 0.0
  {
    SquaresVanish(v.x, v.y);
  }

  lemma SquaresVanish(x: real, y: real)
    requires x * x + y * y == 0.0
    ensures x == 0.0 && y == 0.0
  {
    assert x * x >= 0.0 && y * y >= 0.0;
    ZeroProduct(x, x);
    ZeroProduct(y, y);
  }

  lemma QuotientTimes(x: real, r: real)
    requires r != 0.0
    ensures x / r * r == x && r * (x / r) == x
  {
  }

  lemma HeadsBackwards(v: Vec3, theta: Angle, r: real)
    requires Heads(v, theta, r)
    ensures Heads(v.Scale(-1.0), Angle(-theta.c, -theta.s), r)
    ensures v.Scale(-1.0).Scale(-1.0) == v
  {
    assert -theta.c * -theta.c == theta.c * theta.c && -theta.s * -theta.s == theta.s * theta.s;
    assert r * -theta.c == -(r * theta.c) && r * -theta.s == -(r * theta.s);
  }

  lemma SqrtOfFlat(sqrt: real -> real, v: Vec3)
    requires IsSqrt(sqrt)
    ensures sqrt(Flat(v)) * sqrt(Flat(v)) == Flat(v)
  {
    assert v.x * v.x >= 0.0 && v.y * v.y >= 0.0;
  }

  lemma FootInPlane(segment: DHSegment, d: real)
    requires segment.alpha.c != 0.0
    ensures Foot(segment, d).z == 0.0
  {
    hide Turn;
    PiercesPlane(segment, d, Turn(segment).ColZ().Scale(1.0));
  }

  /** The corrected link turns like the original and ends where the next axis pierces the plane, or opposite to it. */
  lemma CorrectedRoot(segment: DHSegment, d: real, next: Pose, sqrt: real -> real)
    requires segment.theta.Unit() && segment.alpha.c != 0.0 && IsSqrt(sqrt)
    ensures var (screw, passive, _) := CorrectedLink(segment, d, next, sqrt);
            Compose(screw, passive) ==
            Pose(Turn(segment), if segment.a != 0.0 then Foot(segment, d) else Foot(segment, d).Scale(-1.0))
  {
    hide Mul, Foot, Turn, RotZ, RotX, Flat, IsSqrt, Compose, Angle.Minus, Heads, Atan2, Vec3.Scale;
    var foot := Foot(segment, d);
    var r := sqrt(Flat(foot));
    FootInPlane(segment, d);
    SqrtOfFlat(sqrt, foot);
    Atan2Heads(foot, r);
    var h := Atan2(foot.y, foot.x, r);
    HeadsBackwards(foot, h, r);
    if segment.a != 0.0 {
      TurnAndShrink(segment, foot.Scale(-1.0), Angle(-h.c, -h.s), r);
    } else {
      TurnAndShrink(segment, foot, h, r);
    }
  }

  lemma TurnAndShrink(segment: DHSegment, v: Vec3, theta: Angle, r: real)
    requires Heads(v, theta, r)
    ensures Compose(ZScrew(theta, 0.0),
                    Pose(Mul(RotZ(segment.theta.Minus(theta)), RotX(segment.alpha)), Vec3(-r, 0.0, 0.0)))
            == Pose(Turn(segment), v.Scale(-1.0))
  {
    TurnIsProduct(segment);
    hide Mul, Turn, RotZ, RotX, Compose, Angle.Minus;
    RotZSum(theta, segment.theta);
    MulAssoc(RotZ(theta), RotZ(segment.theta.Minus(theta)), RotX(segment.alpha));
    ScrewThenX(theta, Mul(RotZ(segment.theta.Minus(theta)), RotX(segment.alpha)), -r);
  }

  lemma ScrewThenX(theta: Angle, rot: Mat3, k: real)
    ensures Compose(ZScrew(theta, 0.0), Pose(rot, Vec3(k, 0.0, 0.0)))
            == Pose(Mul(RotZ(theta), rot), Vec3(k * theta.c, k * theta.s, 0.0))
  {
    hide Mul;
    assert theta.c * k == k * theta.c && theta.s * k == k * theta.s;
  }

  lemma TurnIsProduct(segment: DHSegment)
    ensures Turn(segment) == Mul(RotZ(segment.theta), RotX(segment.alpha))
  {
  }
  lemma AlongOwnAxis(m: Mat3, k: real)
    requires Orthogonal(m)
    ensures m.Transposed().Apply(m.ColZ().Scale(k)) == Vec3(0.0, 0.0, k)
  {
    var t, z := m.Transposed(), m.ColZ();
    assert t.Apply(z) == Vec3(0.0, 0.0, 1.0) by {
      assert Mul(t, m).a.z == t.a.Dot(z) && Mul(t, m).b.z == t.b.Dot(z) && Mul(t, m).c.z == t.c.Dot(z);
    }
    ApplyScale(t, z, k);
  }

  lemma ApplyScale(m: Mat3, v: Vec3, k: real)
    ensures m.Apply(v.Scale(k)) == m.Apply(v).Scale(k)
  {
  }

  lemma TurnOrthogonal(segment: DHSegment)
    requires segment.theta.Unit() && segment.alpha.Unit()
    ensures Orthogonal(Turn(segment))
  {
    TurnIsProduct(segment);
    RigidScrew(segment.theta, 0.0);
    RigidPassive(segment);
    hide Mul, RotZ, RotX, Turn;
    OrthogonalMul(RotZ(segment.theta), RotX(segment.alpha));
  }

  lemma RigidPassive(segment: DHSegment)
    requires segment.alpha.Unit()
    ensures Rigid(Passive(segment))
  {
    var m := RotX(segment.alpha);
    var t := m.Transposed();
    assert RowTimes(t.a, m) == IDENTITY3.a && RowTimes(t.b, m) == IDENTITY3.b && RowTimes(t.c, m) == IDENTITY3.c;
    assert RowTimes(m.a, t) == IDENTITY3.a && RowTimes(m.b, t) == IDENTITY3.b && RowTimes(m.c, t) == IDENTITY3.c;
  }

  /** Where the root of a link with offset d lies after the correction. */
  function NewRoot(segment: DHSegment, d: real): Vec3
    requires d != 0.0 ==> segment.alpha.c != 0.0
  {
    if d == 0.0 then Root(segment, d)
    else if segment.a != 0.0 then Foot(segment, d)
    else Foot(segment, d).Scale(-1.0)
  }

  lemma ShoulderMoves(segment: DHSegment, d: real)
    requires segment.theta.Unit() && segment.alpha.Unit() && (d != 0.0 ==> segment.alpha.c != 0.0)
    ensures Turn(segment).Transposed().Apply(Root(segment, d).Minus(NewRoot(segment, d))) == ShoulderDrift(segment, d)
  {
    var m := Turn(segment);
    hide Turn, Mul, Orthogonal, Root;
    TurnOrthogonal(segment);
    if d != 0.0 {
      var k := d / segment.alpha.c;
      NegQuotient(d, segment.alpha.c);
      TwiceUp(segment, d);
      hide Vec3.Scale, Vec3.Plus, Vec3.Minus, Mat3.Apply, Mat3.Transposed, Mat3.ColZ;
      AlongOwnAxis(m, k);
      AlongOwnAxis(m, -k);
      Back(Root(segment, d), m.ColZ(), k);
      ApplyPlus(m.Transposed(), Vec3(0.0, 0.0, 2.0 * d), m.ColZ().Scale(-k));
      PlusUp(2.0 * d * segment.alpha.s, 2.0 * d * segment.alpha.c, -k);
    }
  }

  lemma NegQuotient(d: real, c: real)
    requires c != 0.0
    ensures -d / c == -(d / c)
  {
  }

  lemma PlusUp(y: real, z: real, k: real)
    ensures Vec3(0.0, y, z).Plus(Vec3(0.0, 0.0, k)) == Vec3(0.0, y, z + k)
  {
  }

  lemma TwiceUp(segment: DHSegment, d: real)
    ensures Turn(segment).Transposed().Apply(Vec3(0.0, 0.0, 2.0 * d)) ==
            Vec3(0.0, 2.0 * d * segment.alpha.s, 2.0 * d * segment.alpha.c)
    ensures segment.a == 0.0 ==> Root(segment, d).Plus(Root(segment, d)) == Vec3(0.0, 0.0, 2.0 * d)
  {
    TurnColumns(segment);
    hide Turn;
    assert segment.alpha.s * (2.0 * d) == 2.0 * d * segment.alpha.s;
    assert segment.alpha.c * (2.0 * d) == 2.0 * d * segment.alpha.c;
  }

  lemma Back(u: Vec3, axis: Vec3, k: real)
    ensures u.Minus(u.Plus(axis.Scale(-k))) == axis.Scale(k)
    ensures u.Minus(u.Plus(axis.Scale(-k)).Scale(-1.0)) == u.Plus(u).Plus(axis.Scale(-k))
  {
  }

  lemma ElbowMoves(segment: DHSegment, original: real, d: real, nextD: real)
    requires d != 0.0 ==> segment.alpha.c != 0.0
    ensures var m := Turn(segment);
            var newNextD := if d == 0.0 then nextD else nextD + d / Abs(segment.alpha.c);
            m.Apply(Vec3(0.0, 0.0, newNextD)).Plus(NewRoot(segment, d))
              .Minus(m.Apply(Vec3(0.0, 0.0, nextD)).Plus(Root(segment, original)))
            == ElbowDrift(segment, original, d)
  {
    var m := Turn(segment);
    var axis := m.ColZ();
    hide Turn;
    forall k ensures m.Apply(Vec3(0.0, 0.0, k)) == axis.Scale(k) {
    }
    if d != 0.0 {
      var (back, along) := (d / Abs(segment.alpha.c), d / segment.alpha.c);
      NegQuotient(d, segment.alpha.c);
      Distribute(axis, nextD, back, along);
    }
  }

  lemma Distribute(axis: Vec3, a: real, b: real, c: real)
    ensures axis.Scale(a + b) == axis.Scale(a).Plus(axis.Scale(b))
    ensures axis.Scale(b - c) == axis.Scale(b).Minus(axis.Scale(c))
    ensures axis.Scale(b + c) == axis.Scale(b).Plus(axis.Scale(c))
    ensures axis.Scale(-c) == axis.Scale(c).Scale(-1.0)
  {
  }
  // When the two drifts cancel, whatever the elbow joint does.

  /** The two drifts cancel at elbow angle t. */
  predicate Cancel(u: Vec3, v: Vec3, t: Angle) {
    RotZ(t).Apply(v) == u
  }

  lemma CancelAtAllAngles(u: Vec3, v: Vec3)
    requires Cancel(u, v, ZERO_ANGLE) && Cancel(u, v, PI)
    ensures u.x == u.y == v.x == v.y == 0.0 && u.z == v.z
  {
  }

  lemma CancelOnAxis(u: Vec3, v: Vec3, t: Angle)
    requires u.x == u.y == v.x == v.y == 0.0 && u.z == v.z
    ensures Cancel(u, v, t)
  {
  }

  /** Only harmless corrections cancel at two opposite elbow angles; harmless ones cancel at every angle. */
  lemma CancelIff(segments: seq<DHSegment>)
    requires Calibratable(segments) && UnitAngles(segments)
    ensures var u := ShoulderDrift(segments[1], segments[1].d);
            var v := ElbowDrift(segments[2], segments[2].d, ElbowOffset(segments));
            (u.x == u.y == v.x == v.y == 0.0 && u.z == v.z)
            <==> Harmless(segments[1], segments[1].d) && Harmless(segments[2], ElbowOffset(segments))
  {
    var s1, s2, o, d := segments[1], segments[2], segments[2].d, ElbowOffset(segments);
    ShoulderCase(s1);
    ElbowCase(s2, o, d);
    hide ElbowDrift, ShoulderDrift, Harmless;
    BalanceOfOffsets(s1, o, d, ElbowDrift(s2, o, d).z);
  }

  lemma ShoulderCase(segment: DHSegment)
    requires segment.alpha.Unit() && (segment.d != 0.0 ==> segment.alpha.c != 0.0)
    ensures var u := ShoulderDrift(segment, segment.d);
            u.x == 0.0 &&
            if segment.d == 0.0 then u == ORIGIN
            else if segment.a != 0.0 || segment.alpha.s == 0.0 then u == Vec3(0.0, 0.0, segment.d / segment.alpha.c)
            else u.y != 0.0
  {
    if segment.d != 0.0 && segment.a == 0.0 {
      if segment.alpha.s == 0.0 {
        ZeroProduct(segment.alpha.c - 1.0, segment.alpha.c + 1.0);
      } else if 2.0 * segment.d * segment.alpha.s == 0.0 {
        ZeroProduct(2.0 * segment.d, segment.alpha.s);
      }
    }
  }

  lemma ElbowCase(segment: DHSegment, o: real, d: real)
    requires segment.theta.Unit() && segment.alpha.Unit() && (d != 0.0 ==> segment.alpha.c != 0.0)
    ensures var v := ElbowDrift(segment, o, d);
            if Harmless(segment, d) then v == Vec3(0.0, 0.0, d - o)
            else v.x != 0.0 || v.y != 0.0 || v.z == -d - o
  {
    hide Turn;
    if d != 0.0 {
      var c := segment.alpha.c;
      AbsQuotient(d, c);
      var (back, along) := (d / Abs(c), d / c);
      var m := if segment.a != 0.0 then back - along else back + along;
      AxisMultiple(segment, m);
      if segment.alpha.s == 0.0 {
        ZeroProduct(c - 1.0, c + 1.0);
      }
    }
  }

  /** A multiple of the next axis has no part in the XY plane only if the axis is upright or the multiple is zero. */
  lemma AxisMultiple(segment: DHSegment, m: real)
    requires segment.theta.Unit()
    ensures var v := Turn(segment).ColZ().Scale(m);
            && v.z == m * segment.alpha.c
            && (segment.alpha.s == 0.0 || m == 0.0 ==> v.x == 0.0 && v.y == 0.0)
            && (v.x == 0.0 && v.y == 0.0 ==> segment.alpha.s == 0.0 || m == 0.0)
  {
    TurnColumns(segment);
    hide Turn;
    var t, s := segment.theta, segment.alpha.s;
    if m * (t.s * s) == 0.0 && m * (-t.c * s) == 0.0 {
      Sideways(t, s * m);
      ZeroProduct(s, m);
    }
  }

  lemma Sideways(t: Angle, k: real)
    requires t.Unit() && t.s * k == 0.0 && t.c * k == 0.0
    ensures k == 0.0
  {
    assert k == (t.c * t.c + t.s * t.s) * k;
    assert t.c * (t.c * k) + t.s * (t.s * k) == (t.c * t.c + t.s * t.s) * k;
  }

  lemma AbsQuotient(d: real, c: real)
    requires c != 0.0
    ensures d / Abs(c) == if c > 0.0 then d / c else -(d / c)
    ensures c * (d / c) == d
  {
  }

  lemma BalanceOfOffsets(s1: DHSegment, o: real, d: real, z: real)
    requires s1.d != 0.0 ==> s1.alpha.c != 0.0 && o != 0.0
    requires d == if s1.d == 0.0 then o else o + s1.d / Abs(s1.alpha.c)
    ensures s1.d == 0.0 ==> (z == d - o ==> z == 0.0) && (z == -d - o && z == 0.0 ==> d == 0.0)
    ensures s1.d != 0.0 && z == d - o ==> (z == s1.d / s1.alpha.c <==> s1.alpha.c > 0.0)
    ensures s1.d != 0.0 && z == -d - o && z == s1.d / s1.alpha.c ==> d == 0.0
  {
    if s1.d != 0.0 {
      AbsQuotient(s1.d, s1.alpha.c);
    }
  }

  // Forward kinematics, split into what the corrections do not touch and what they do.

  function Joint(t: Angle): Pose {
    ZScrew(t, 0.0)
  }

  /** Everything before the shoulder's screw. */
  function Head(chain: seq<Pose>, q: seq<Angle>): Pose
    requires |chain| >= 8 && |q| >= 4
  {
    Compose(Compose(Compose(IDENTITY, Compose(chain[0], Joint(q[0]))), chain[1]), Joint(q[1]))
  }

  /** From the shoulder's screw to the screw of the first wrist, with the shoulder joint moved to the front. */
  function Arm(chain: seq<Pose>, t: Angle): Pose
    requires |chain| >= 8
  {
    Compose(Compose(chain[2], chain[3]), Compose(Joint(t), Compose(Compose(chain[4], chain[5]), chain[6])))
  }

  /** What follows the first wrist's screw, up to the link with number linkNr. */
  function Tail(links: seq<Pose>, q: seq<Angle>, linkNr: nat): Pose
    requires 4 <= linkNr <= |links| && linkNr <= |q|
  {
    if linkNr == 4 then Joint(q[3])
    else Compose(Tail(links, q, linkNr - 1), Compose(links[linkNr - 1], Joint(q[linkNr - 1])))
  }

  lemma RegroupShoulder(f: Pose, c1: Pose, c2: Pose, r1: Pose)
    requires Compose(c2, r1) == Compose(r1, c2)
    ensures Compose(f, Compose(Compose(c1, c2), r1)) == Compose(Compose(Compose(f, c1), r1), c2)
  {
    hide Compose;
    ComposeAssoc(c1, c2, r1);
    ComposeAssoc(f, c1, Compose(r1, c2));
    ComposeAssoc(Compose(f, c1), r1, c2);
  }

  lemma RegroupElbow(h: Pose, c2: Pose, c3: Pose, c4: Pose, r2: Pose)
    requires Compose(c4, r2) == Compose(r2, c4)
    ensures Compose(Compose(h, c2), Compose(Compose(c3, c4), r2))
            == Compose(h, Compose(Compose(c2, c3), Compose(r2, c4)))
  {
    hide Compose;
    ComposeAssoc(c3, c4, r2);
    ComposeAssoc(h, c2, Compose(c3, Compose(r2, c4)));
    ComposeAssoc(c2, c3, Compose(r2, c4));
  }

  lemma RegroupWrist(h: Pose, m: Pose, r2: Pose, c4: Pose, c5: Pose, c6: Pose, r3: Pose)
    ensures Compose(Compose(h, Compose(m, Compose(r2, c4))), Compose(Compose(c5, c6), r3))
            == Compose(Compose(h, Compose(m, Compose(r2, Compose(Compose(c4, c5), c6)))), r3)
  {
    hide Compose;
    var c56 := Compose(c5, c6);
    ComposeAssoc(Compose(h, Compose(m, Compose(r2, c4))), c56, r3);
    ComposeAssoc(h, Compose(m, Compose(r2, c4)), c56);
    ComposeAssoc(m, Compose(r2, c4), c56);
    ComposeAssoc(r2, c4, c56);
    ComposeAssoc(c4, c5, c6);
  }

  ghost predicate ScrewsInPlace(chain: seq<Pose>, segments: seq<DHSegment>) {
    && |chain| == 2 * |segments| && |segments| >= 4
    && (exists t :: chain[2] == ZScrew(t, chain[2].pos.z))
    && (exists t :: chain[4] == ZScrew(t, chain[4].pos.z))
  }

  lemma KinematicsOfFour(chain: seq<Pose>, segments: seq<DHSegment>, q: seq<Angle>)
    requires ScrewsInPlace(chain, segments) && |q| >= 4
    ensures Kinematics(Simplified(chain), q, 4) == Compose(Compose(Head(chain, q), Arm(chain, q[2])), Joint(q[3]))
  {
    hide Compose, RotZ;
    var links := Simplified(chain);
    var f := Compose(IDENTITY, Compose(chain[0], Joint(q[0])));
    var h := Head(chain, q);
    assert links[0] == chain[0] && links[1] == Compose(chain[1], chain[2]) && links[2] == Compose(chain[3], chain[4]);
    assert links[3] == Compose(chain[5], chain[6]);
    var t2 :| chain[2] == ZScrew(t2, chain[2].pos.z);
    var t4 :| chain[4] == ZScrew(t4, chain[4].pos.z);
    ScrewsCommute(t2, chain[2].pos.z, q[1], 0.0);
    ScrewsCommute(t4, chain[4].pos.z, q[2], 0.0);
    assert Kinematics(links, q, 1) == f;
    RegroupShoulder(f, chain[1], chain[2], Joint(q[1]));
    assert Kinematics(links, q, 2) == Compose(h, chain[2]);
    RegroupElbow(h, chain[2], chain[3], chain[4], Joint(q[2]));
    RegroupWrist(h, Compose(chain[2], chain[3]), Joint(q[2]), chain[4], chain[5], chain[6], Joint(q[3]));
  }

  lemma {:induction false} KinematicsSplit(chain: seq<Pose>, segments: seq<DHSegment>, q: seq<Angle>, linkNr: nat)
    requires ScrewsInPlace(chain, segments) && 4 <= linkNr <= |segments| + 1 && linkNr <= |q|
    ensures Kinematics(Simplified(chain), q, linkNr)
            == Compose(Compose(Head(chain, q), Arm(chain, q[2])), Tail(Simplified(chain), q, linkNr))
  {
    hide Compose, RotZ, Arm, Head, Simplified;
    KinematicsOfFour(chain, segments, q);
    if linkNr > 4 {
      KinematicsSplit(chain, segments, q, linkNr - 1);
      ComposeAssoc(Compose(Head(chain, q), Arm(chain, q[2])), Tail(Simplified(chain), q, linkNr - 1),
                   Compose(Simplified(chain)[linkNr - 1], Joint(q[linkNr - 1])));
    }
  }

  ghost predicate Joints(q: seq<Angle>, count: nat) {
    |q| == count && forall i :: 0 <= i < count ==> q[i].Unit()
  }

  lemma RigidHead(segments: seq<DHSegment>, q: seq<Angle>)
    requires UnitAngles(segments) && |segments| >= 4 && |q| >= 4 && Joints(q, |q|)
    ensures Rigid(Head(Built(segments), q))
  {
    hide Compose, Rigid, RotZ, RotX, Angle.Unit;
    var chain := Built(segments);
    assert Rigid(IDENTITY) by {
      ZeroScrew();
      RigidScrew(ZERO_ANGLE, 0.0);
    }
    RigidScrew(segments[0].theta, segments[0].d);
    RigidScrew(q[0], 0.0);
    RigidCompose(chain[0], Joint(q[0]));
    RigidCompose(IDENTITY, Compose(chain[0], Joint(q[0])));
    RigidPassive(segments[0]);
    RigidCompose(Compose(IDENTITY, Compose(chain[0], Joint(q[0]))), chain[1]);
    RigidScrew(q[1], 0.0);
    RigidCompose(Compose(Compose(IDENTITY, Compose(chain[0], Joint(q[0]))), chain[1]), Joint(q[1]));
  }

  lemma ZeroScrew()
    ensures ZScrew(ZERO_ANGLE, 0.0) == IDENTITY && ZERO_ANGLE.Unit() && PI.Unit()
  {
  }

  lemma RigidLink(segments: seq<DHSegment>, i: nat)
    requires UnitAngles(segments) && 4 <= i <= |segments|
    ensures Rigid(Simplified(Built(segments))[i])
  {
    hide Compose, Rigid, RotZ, RotX, Angle.Unit;
    RigidPassive(segments[i - 1]);
    if i < |segments| {
      RigidScrew(segments[i].theta, segments[i].d);
      RigidCompose(Built(segments)[2 * i - 1], Built(segments)[2 * i]);
    }
  }

  lemma {:induction false} RigidTail(links: seq<Pose>, q: seq<Angle>, linkNr: nat)
    requires 4 <= linkNr <= |links| && linkNr <= |q| && Joints(q, |q|)
    requires forall i :: 4 <= i < linkNr ==> Rigid(links[i])
    ensures Rigid(Tail(links, q, linkNr))
  {
    hide Compose, Rigid, RotZ, Angle.Unit;
    RigidScrew(q[linkNr - 1], 0.0);
    if linkNr > 4 {
      RigidTail(links, q, linkNr - 1);
      RigidCompose(links[linkNr - 1], Joint(q[linkNr - 1]));
      RigidCompose(Tail(links, q, linkNr - 1), Compose(links[linkNr - 1], Joint(q[linkNr - 1])));
    }
  }

  // The entries the correction leaves and the ones it makes.

  lemma ScrewOnRoot(m: Mat3, root: Vec3, t: Angle, d: real)
    ensures Compose(Pose(m, root), ZScrew(t, d))
            == Pose(Mul(m, RotZ(t)), m.Apply(Vec3(0.0, 0.0, d)).Plus(root))
  {
  }

  /** What removing the offset of link l has made of the chain. */
  ghost predicate LinkCorrected(chain: seq<Pose>, after: seq<Pose>, segments: seq<DHSegment>, l: nat)
    requires |chain| == |after| == 2 * |segments| && l + 1 < |segments|
    requires chain[2 * l].pos.z != 0.0 ==> segments[l].alpha.c != 0.0
  {
    var d := chain[2 * l].pos.z;
    && Compose(after[2 * l], after[2 * l + 1]) == Pose(Turn(segments[l]), NewRoot(segments[l], d))
    && (exists t :: after[2 * l] == ZScrew(t, after[2 * l].pos.z))
    && after[2 * l + 2] == ZScrew(segments[l + 1].theta,
         chain[2 * l + 2].pos.z + if d == 0.0 then 0.0 else d / Abs(segments[l].alpha.c))
    && (forall i :: 0 <= i < |chain| && (i < 2 * l || i > 2 * l + 2) ==> after[i] == chain[i])
  }

  lemma LinkBeforeAndAfter(chain: seq<Pose>, segments: seq<DHSegment>, l: nat, sqrt: real -> real)
    requires Correctable(chain, segments, l) && LinkShape(chain, segments, l) && IsSqrt(sqrt) && UnitAngles(segments)
    ensures LinkCorrected(chain, CorrectedAxis(chain, segments, l, sqrt), segments, l)
  {
    hide Compose, Turn, Root, Foot, RotZ, RotX, Mul, Flat, Angle.Unit, Angle.Minus, Atan2, IsSqrt;
    var d := chain[2 * l].pos.z;
    RootOfLink(segments[l], d);
    if d != 0.0 {
      CorrectedRoot(segments[l], d, chain[2 * l + 2], sqrt);
      var (screw, _, _) := CorrectedLink(segments[l], d, chain[2 * l + 2], sqrt);
    }
  }

  /** What the two corrections have made of the chain: entries 2 to 6 are new, and the two links in them moved. */
  ghost predicate BothCorrected(segments: seq<DHSegment>, before: seq<Pose>, after: seq<Pose>)
    requires Calibratable(segments)
  {
    var o, d := segments[2].d, ElbowOffset(segments);
    var (m1, m2) := (Turn(segments[1]), Turn(segments[2]));
    var wrist := if d == 0.0 then segments[3].d else segments[3].d + d / Abs(segments[2].alpha.c);
    && before == Built(segments) && |after| == |before|
    && (forall i :: 0 <= i < |before| && (i < 2 || i > 6) ==> after[i] == before[i])
    && ScrewsInPlace(before, segments) && ScrewsInPlace(after, segments)
    && Compose(before[2], before[3]) == Pose(m1, Root(segments[1], segments[1].d))
    && Compose(after[2], after[3]) == Pose(m1, NewRoot(segments[1], segments[1].d))
    && Compose(Compose(before[4], before[5]), before[6])
       == Pose(Mul(m2, RotZ(segments[3].theta)), m2.Apply(Vec3(0.0, 0.0, segments[3].d)).Plus(Root(segments[2], o)))
    && Compose(Compose(after[4], after[5]), after[6])
       == Pose(Mul(m2, RotZ(segments[3].theta)), m2.Apply(Vec3(0.0, 0.0, wrist)).Plus(NewRoot(segments[2], d)))
  }

  lemma CorrectedEntries(segments: seq<DHSegment>, sqrt: real -> real)
    requires Calibratable(segments) && UnitAngles(segments) && IsSqrt(sqrt)
    ensures BothCorrected(segments, Built(segments), Corrected(segments, sqrt))
  {
    hide Compose, Turn, Root, NewRoot, RotZ, RotX, Mul, Angle.Unit, IsSqrt, CorrectedLink, Mat3.Apply, Vec3.Plus;
    var before := Built(segments);
    CorrectableBuilt(segments, sqrt);
    LinkBeforeAndAfter(before, segments, 1, sqrt);
    var middle := CorrectedAxis(before, segments, 1, sqrt);
    var o, d := segments[2].d, ElbowOffset(segments);
    assert middle[4] == ZScrew(segments[2].theta, d);
    LinkBeforeAndAfter(middle, segments, 2, sqrt);
    var after := CorrectedAxis(middle, segments, 2, sqrt);
    hide CorrectedAxis;
    assert before[2] == ZScrew(segments[1].theta, before[2].pos.z);
    assert before[4] == ZScrew(segments[2].theta, before[4].pos.z);
    RootOfLink(segments[1], segments[1].d);
    RootOfLink(segments[2], o);
    ScrewOnRoot(Turn(segments[2]), Root(segments[2], o), segments[3].theta, segments[3].d);
    ScrewOnRoot(Turn(segments[2]), NewRoot(segments[2], d), segments[3].theta, after[6].pos.z);
  }

  // The theorem.

  lemma ArmMoves(m: Mat3, p: Vec3, p': Vec3, s: Mat3, x: Vec3, x': Vec3, t: Angle)
    requires Orthogonal(m)
    ensures Compose(Pose(m, p'), Compose(Joint(t), Pose(s, x'))) == Compose(Pose(m, p), Compose(Joint(t), Pose(s, x)))
            <==> Cancel(m.Transposed().Apply(p.Minus(p')), x'.Minus(x), t)
  {
    var r := RotZ(t);
    var (y, y') := (r.Apply(x), r.Apply(x'));
    assert Compose(Joint(t), Pose(s, x)) == Pose(Mul(r, s), y) by { hide Mul; }
    assert Compose(Joint(t), Pose(s, x')) == Pose(Mul(r, s), y') by { hide Mul; }
    assert r.Apply(x'.Minus(x)) == y'.Minus(y);
    hide RotZ, Mul;
    SlideIff(m, p, p', y, y');
  }

  lemma ApplyMinus(m: Mat3, y: Vec3, y': Vec3)
    ensures m.Apply(y'.Minus(y)) == m.Apply(y').Minus(m.Apply(y))
  {
  }

  lemma SlideIff(m: Mat3, p: Vec3, p': Vec3, y: Vec3, y': Vec3)
    requires Orthogonal(m)
    ensures m.Apply(y').Plus(p') == m.Apply(y).Plus(p) <==> y'.Minus(y) == m.Transposed().Apply(p.Minus(p'))
  {
    var w := p.Minus(p');
    ApplyMinus(m, y, y');
    assert m.Apply(y').Plus(p') == m.Apply(y).Plus(p) <==> m.Apply(y'.Minus(y)) == w by {
      hide Mat3.Apply;
    }
    ApplyAssoc(m, m.Transposed(), w);
    ApplyAssoc(m.Transposed(), m, y'.Minus(y));
  }

  /** The forward kinematics of both chains agree when the arms in between do, and only then. */
  lemma KinematicsIffArms(before: seq<Pose>, after: seq<Pose>, segments: seq<DHSegment>, q: seq<Angle>, linkNr: nat)
    requires UnitAngles(segments) && before == Built(segments) && |after| == |before|
    requires ScrewsInPlace(before, segments) && ScrewsInPlace(after, segments)
    requires forall i :: 0 <= i < |before| && (i < 2 || i > 6) ==> after[i] == before[i]
    requires 4 <= linkNr <= |segments| + 1 && Joints(q, linkNr)
    ensures Kinematics(Simplified(after), q, linkNr) == Kinematics(Simplified(before), q, linkNr)
            <==> Arm(after, q[2]) == Arm(before, q[2])
  {
    hide Compose, Rigid, RotZ, RotX, Angle.Unit;
    KinematicsSplit(before, segments, q, linkNr);
    KinematicsSplit(after, segments, q, linkNr);
    SameTail(Simplified(before), Simplified(after), q, linkNr);
    assert Head(before, q) == Head(after, q);
    var (h, tail) := (Head(before, q), Tail(Simplified(before), q, linkNr));
    RigidHead(segments, q);
    forall i | 4 <= i < linkNr ensures Rigid(Simplified(before)[i]) {
      RigidLink(segments, i);
    }
    RigidTail(Simplified(before), q, linkNr);
    hide Head, Tail, Kinematics, Simplified, Built, Arm;
    var (x, y) := (Arm(before, q[2]), Arm(after, q[2]));
    if Compose(Compose(h, y), tail) == Compose(Compose(h, x), tail) {
      RightCancel(tail, Compose(h, x), Compose(h, y));
      LeftCancel(h, x, y);
    }
  }

  /** The pose of a link by way of the simplified chain. */
  function LinkPose(chain: seq<Pose>, q: seq<Angle>, linkNr: nat): Pose
    requires |chain| >= 2 && |chain| % 2 == 0 && linkNr <= |q| && linkNr <= |chain| / 2 + 1
  {
    Kinematics(Simplified(chain), q, linkNr)
  }

  /** The drifts of shoulder and elbow cancel at this angle of the joint between them. */
  predicate DriftsCancel(segments: seq<DHSegment>, t: Angle)
    requires Calibratable(segments)
  {
    Cancel(ShoulderDrift(segments[1], segments[1].d), ElbowDrift(segments[2], segments[2].d, ElbowOffset(segments)), t)
  }

  lemma KinematicsIff(segments: seq<DHSegment>, before: seq<Pose>, after: seq<Pose>, q: seq<Angle>, linkNr: nat)
    requires |before| == |after| == 2 * |segments| && 4 <= linkNr <= |segments| + 1
    requires |q| == linkNr && Joints(q, linkNr)
    requires Calibratable(segments) && UnitAngles(segments) && BothCorrected(segments, before, after)
    ensures LinkPose(after, q, linkNr) == LinkPose(before, q, linkNr) <==> DriftsCancel(segments, q[2])
  {
    hide BothCorrected, Built, Cancel, Kinematics, Simplified, Arm, ScrewsInPlace, UnitAngles, ShoulderDrift, ElbowDrift;
    BothInPlace(segments, before, after);
    KinematicsIffArms(before, after, segments, q, linkNr);
    ArmsIff(segments, before, after, q[2]);
  }

  lemma BothInPlace(segments: seq<DHSegment>, before: seq<Pose>, after: seq<Pose>)
    requires Calibratable(segments) && BothCorrected(segments, before, after)
    ensures before == Built(segments) && |after| == |before| == 2 * |segments|
    ensures ScrewsInPlace(before, segments) && ScrewsInPlace(after, segments)
    ensures forall i :: 0 <= i < |before| && (i < 2 || i > 6) ==> after[i] == before[i]
  {
    hide Compose, Turn, Root, NewRoot, ScrewsInPlace;
  }

  lemma ArmsIff(segments: seq<DHSegment>, before: seq<Pose>, after: seq<Pose>, t: Angle)
    requires |before| == |after| == 2 * |segments|
    requires Calibratable(segments) && UnitAngles(segments) && BothCorrected(segments, before, after)
    ensures Arm(after, t) == Arm(before, t) <==> DriftsCancel(segments, t)
  {
    hide Compose, Turn, Root, NewRoot, RotZ, Mul, Angle.Unit, Built, Cancel;
    hide Mat3.Apply, Mat3.Transposed, Vec3.Plus, Vec3.Minus, ShoulderDrift, ElbowDrift, Orthogonal, ScrewsInPlace;
    TurnOrthogonal(segments[1]);
    ArmMoves(Turn(segments[1]), Root(segments[1], segments[1].d), NewRoot(segments[1], segments[1].d),
             Compose(Compose(before[4], before[5]), before[6]).rot,
             Compose(Compose(before[4], before[5]), before[6]).pos,
             Compose(Compose(after[4], after[5]), after[6]).pos, t);
    ShoulderMoves(segments[1], segments[1].d);
    ElbowMoves(segments[2], segments[2].d, ElbowOffset(segments), segments[3].d);
  }

  lemma {:induction false} SameTail(links: seq<Pose>, links': seq<Pose>, q: seq<Angle>, linkNr: nat)
    requires |links| == |links'| && 4 <= linkNr <= |links| && linkNr <= |q|
    requires forall i :: 4 <= i < |links| ==> links[i] == links'[i]
    ensures Tail(links, q, linkNr) == Tail(links', q, linkNr)
  {
    hide Compose, RotZ;
    if linkNr > 4 {
      SameTail(links, links', q, linkNr - 1);
    }
  }

  /** Two chains of the same length lead to the same pose of this link, for every joint vector. */
  ghost predicate SameKinematics(before: seq<Pose>, after: seq<Pose>, linkNr: nat)
    requires |before| == |after| >= 2 && |before| % 2 == 0 && linkNr <= |before| / 2 + 1
  {
    forall q :: Joints(q, linkNr) ==> LinkPose(after, q, linkNr) == LinkPose(before, q, linkNr)
  }

  /** The chain as corrected leads to the same pose of this link as the chain as built. */
  ghost predicate KeepsKinematics(segments: seq<DHSegment>, sqrt: real -> real, linkNr: nat)
    requires Calibratable(segments) && linkNr <= |segments| + 1
  {
    SameKinematics(Built(segments), Corrected(segments, sqrt), linkNr)
  }

  /** The drifts cancel at all angles exactly if neither correction does harm. */
  lemma DriftsCancelExactly(segments: seq<DHSegment>, linkNr: nat)
    requires Calibratable(segments) && UnitAngles(segments) && linkNr >= 4
    ensures (forall q :: Joints(q, linkNr) ==> DriftsCancel(segments, q[2])) <==>
            Harmless(segments[1], segments[1].d) && Harmless(segments[2], ElbowOffset(segments))
  {
    hide Angle.Unit, ElbowDrift, ShoulderDrift, Harmless, Cancel;
    var u := ShoulderDrift(segments[1], segments[1].d);
    var v := ElbowDrift(segments[2], segments[2].d, ElbowOffset(segments));
    CancelIff(segments);
    if u.x == u.y == v.x == v.y == 0.0 && u.z == v.z {
      forall t ensures Cancel(u, v, t) {
        CancelOnAxis(u, v, t);
      }
    } else {
      ZeroScrew();
      var straight := seq(linkNr, i => ZERO_ANGLE);
      var folded := straight[2 := PI];
      assert Joints(straight, linkNr) && Joints(folded, linkNr);
      if DriftsCancel(segments, straight[2]) && DriftsCancel(segments, folded[2]) {
        CancelAtAllAngles(u, v);
      }
    }
  }

  /**
   * Correcting the chain changes no forward kinematics, for no joint vector, at any one link from the fourth on,
   * exactly when both corrections are harmless.
   */
  lemma CorrectChainPreservesKinematics(segments: seq<DHSegment>, sqrt: real -> real, linkNr: nat)
    requires Calibratable(segments) && UnitAngles(segments) && IsSqrt(sqrt)
    requires 4 <= linkNr <= |segments| + 1
    ensures Harmless(segments[1], segments[1].d) && Harmless(segments[2], ElbowOffset(segments)) <==>
            KeepsKinematics(segments, sqrt, linkNr)
  {
    hide BothCorrected, LinkPose, Corrected, Built, IsSqrt, UnitAngles, Harmless, DriftsCancel;
    CorrectedEntries(segments, sqrt);
    DriftsCancelExactly(segments, linkNr);
    var (before, after) := (Built(segments), Corrected(segments, sqrt));
    forall q | Joints(q, linkNr)
      ensures LinkPose(after, q, linkNr) == LinkPose(before, q, linkNr) <==> DriftsCancel(segments, q[2])
    {
      KinematicsIff(segments, before, after, q, linkNr);
    }
  }

  /** Four links, the second of which has offset and length 1 and turns the next axis upside down. */
  const FLIPPED := [DHSegment(0.0, 0.0, ZERO_ANGLE, ZERO_ANGLE), DHSegment(1.0, 1.0, ZERO_ANGLE, PI),
                    DHSegment(1.0, 1.0, ZERO_ANGLE, ZERO_ANGLE), DHSegment(1.0, 0.0, ZERO_ANGLE, ZERO_ANGLE)]

  lemma FlippedIsNotHarmless()
    ensures Calibratable(FLIPPED) && UnitAngles(FLIPPED) && !Harmless(FLIPPED[1], FLIPPED[1].d)
  {
  }

  /** With such a twist the correction does move the end effector. */
  lemma FlippedLinkMoves(sqrt: real -> real)
    requires IsSqrt(sqrt)
    ensures Calibratable(FLIPPED) && UnitAngles(FLIPPED)
    ensures !KeepsKinematics(FLIPPED, sqrt, 4)
  {
    hide Calibratable, UnitAngles, Harmless, KeepsKinematics, IsSqrt;
    FlippedIsNotHarmless();
    CorrectChainPreservesKinematics(FLIPPED, sqrt, 4);
  }
}
