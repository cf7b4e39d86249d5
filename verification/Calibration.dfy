/** ur_calibration: pulling the shoulder and elbow of a calibrated chain back to zero offset. */
module UrCalibration {
  import opened Geometry

  /** A Denavit-Hartenberg segment. */
  datatype DHSegment = DHSegment(d: real, a: real, theta: Angle, alpha: Angle)

  ghost predicate UnitAngles(segments: seq<DHSegment>) {
    forall i :: 0 <= i < |segments| ==> segments[i].theta.Unit() && segments[i].alpha.Unit()
  }

  function Abs(x: real): real {
    if x < 0.0 then -x else x
  }

  // What the chain, its simplified form and its forward kinematics are.

  /** The passive segment of a link: a shift along x and a turn about x. */
  function Passive(segment: DHSegment): Pose {
    Pose(RotX(segment.alpha), Vec3(segment.a, 0.0, 0.0))
  }

  /** Two entries a segment: its `d`/`theta` screw, then its passive segment. */
  function Built(segments: seq<DHSegment>): (chain: seq<Pose>)
    ensures |chain| == 2 * |segments|
  {
    seq(2 * |segments|, i requires 0 <= i < 2 * |segments| =>
        if i % 2 == 0 then ZScrew(segments[i / 2].theta, segments[i / 2].d) else Passive(segments[i / 2]))
  }

  /** One entry a joint: the passive segment of a link meets the screw of the next one. */
  function Simplified(chain: seq<Pose>): (links: seq<Pose>)
    requires |chain| >= 2 && |chain| % 2 == 0
    ensures |links| == |chain| / 2 + 1
  {
    seq(|chain| / 2 + 1, i requires 0 <= i < |chain| / 2 + 1 =>
        if i == 0 then chain[0]
        else if i == |chain| / 2 then chain[|chain| - 1]
        else Compose(chain[2 * i - 1], chain[2 * i]))
  }

  function Kinematics(links: seq<Pose>, joints: seq<Angle>, count: nat): Pose
    requires count <= |links| && count <= |joints|
  {
    if count == 0 then IDENTITY
    else Compose(Kinematics(links, joints, count - 1), Compose(links[count - 1], ZScrew(joints[count - 1], 0.0)))
  }

  /** Where the next joint's axis starts, seen from the joint before the link. */
  function Root(segment: DHSegment, d: real): Vec3 {
    Vec3(segment.a * segment.theta.c, segment.a * segment.theta.s, d)
  }

  /** The orientation of the next joint, and so (third column) the direction of its axis. */
  function Turn(segment: DHSegment): Mat3 {
    Mul(RotZ(segment.theta), RotX(segment.alpha))
  }

  /** Where the next joint's axis pierces the XY plane of the link. */
  function Foot(segment: DHSegment, d: real): Vec3
    requires segment.alpha.c != 0.0
  {
    Root(segment, d).Plus(Turn(segment).ColZ().Scale(-d / segment.alpha.c))
  }

  /** The squared length of a vector's projection to the XY plane. */
  function Flat(v: Vec3): real {
    v.x * v.x + v.y * v.y
  }

  /** The three entries that replace screw, passive segment and next screw when the offset d is removed. */
  function CorrectedLink(segment: DHSegment, d: real, next: Pose, sqrt: real -> real): (Pose, Pose, Pose)
    requires segment.alpha.c != 0.0
  {
    var foot := Foot(segment, d);
    var r := sqrt(Flat(foot));
    var heading := Atan2(foot.y, foot.x, r);
    var theta := if segment.a != 0.0 then Angle(-heading.c, -heading.s) else heading;
    (ZScrew(theta, 0.0),
     Pose(Mul(RotZ(segment.theta.Minus(theta)), RotX(segment.alpha)), Vec3(-r, 0.0, 0.0)),
     next.(pos := next.pos.(z := next.pos.z + d / Abs(segment.alpha.c))))
  }

  /** The entries of link l are those of its segment, up to the two d offsets. */
  predicate LinkShape(chain: seq<Pose>, segments: seq<DHSegment>, l: nat) {
    && |chain| == 2 * |segments| && l + 1 < |segments|
    && chain[2 * l] == ZScrew(segments[l].theta, chain[2 * l].pos.z)
    && chain[2 * l + 1] == Passive(segments[l])
    && chain[2 * l + 2] == ZScrew(segments[l + 1].theta, chain[2 * l + 2].pos.z)
  }

  /** Link l has no offset, or its next axis is a line that crosses the XY plane in one point. */
  predicate Correctable(chain: seq<Pose>, segments: seq<DHSegment>, l: nat) {
    && |chain| == 2 * |segments| && l + 1 < |segments|
    && (chain[2 * l].pos.z != 0.0 ==>
          LinkShape(chain, segments, l) && segments[l].alpha.c != 0.0 && chain[2 * l + 2].pos.z != 0.0)
  }

  function CorrectedAxis(chain: seq<Pose>, segments: seq<DHSegment>, l: nat, sqrt: real -> real): (after: seq<Pose>)
    requires Correctable(chain, segments, l)
    ensures |after| == |chain|
  {
    if chain[2 * l].pos.z == 0.0 then chain
    else
      var (screw, passive, next) := CorrectedLink(segments[l], chain[2 * l].pos.z, chain[2 * l + 2], sqrt);
      chain[2 * l := screw][2 * l + 1 := passive][2 * l + 2 := next]
  }

  class Calibration {
    const segments: seq<DHSegment>
    var chain: seq<Pose>

    constructor (segments: seq<DHSegment>)
      ensures this.segments == segments && chain == Built(segments)
    {
      this.segments := segments;
      new;
      BuildChain();
    }

    method BuildChain()
      modifies this
      ensures chain == Built(segments)
    {
      chain := [];
      for i := 0 to |segments|
        invariant chain == Built(segments)[..2 * i]
      {
        var seg1 := IDENTITY.(rot := RotZ(segments[i].theta), pos := ORIGIN.(z := segments[i].d));
        chain := chain + [seg1];
        var seg2 := IDENTITY.(rot := RotX(segments[i].alpha), pos := ORIGIN.(x := segments[i].a));
        chain := chain + [seg2];
      }
    }

    method CorrectAxis(linkIndex: nat, sqrt: real -> real)
      requires UnitAngles(segments) && IsSqrt(sqrt)
      requires Correctable(chain, segments, linkIndex)
      modifies this
      ensures chain == CorrectedAxis(old(chain), segments, linkIndex, sqrt)
    {
      hide Compose, Mul, Turn, Root, Foot, RotZ, RotX, Flat;
      var i := 2 * linkIndex;
      var d := chain[i].pos.z;
      var a := chain[i + 1].pos.x;
      if d == 0.0 {
        return;
      }
      ghost var segment := segments[linkIndex];
      NextAxis(segment, d, segments[linkIndex + 1].theta, chain[i + 2].pos.z, sqrt);

      // The next joint's rotation axis, as a point and a direction.
      var nextJointRoot := Compose(chain[i], chain[i + 1]);
      var origin := nextJointRoot.pos;
      var along := Compose(nextJointRoot, chain[i + 2]).pos.Minus(origin);
      var direction := along.Scale(1.0 / sqrt(along.Dot(along)));

      // Its intersection with the plane z = 0.
      PiercesPlane(segment, d, direction);
      var intersectionParam := -origin.z / direction.z;
      var intersectionPoint := origin.Plus(direction.Scale(intersectionParam));

      var subtractionAngle := ZERO_ANGLE;
      if Abs(a) > 0.0 {
        subtractionAngle := PI;
      }
      var norm := sqrt(intersectionPoint.Dot(intersectionPoint));
      var newTheta := Atan2(intersectionPoint.y, intersectionPoint.x, norm).Minus(subtractionAngle);
      var newLinkLength := -1.0 * norm;
      var signDir := if direction.z > 0.0 then 1.0 else -1.0;
      var distanceCorrection := intersectionParam * signDir;
      ShiftBack(d, direction.z, segment.alpha.c);
      HeadingOf(intersectionPoint, norm);

      chain := chain[i := Pose(RotZ(newTheta), chain[i].pos.(z := 0.0))];
      chain := chain[i + 1 := Pose(Mul(RotZ(segments[linkIndex].theta.Minus(newTheta)), RotX(segments[linkIndex].alpha)),
                                   chain[i + 1].pos.(x := newLinkLength))];
      chain := chain[i + 2 := chain[i + 2].(pos := chain[i + 2].pos.(z := chain[i + 2].pos.z - distanceCorrection))];
    }

    method CorrectChain(sqrt: real -> real)
      requires UnitAngles(segments) && IsSqrt(sqrt)
      requires Correctable(chain, segments, 1)
      requires Correctable(CorrectedAxis(chain, segments, 1, sqrt), segments, 2)
      modifies this
      ensures chain == CorrectedAxis(CorrectedAxis(old(chain), segments, 1, sqrt), segments, 2, sqrt)
      ensures chain[2].pos.z == 0.0 && chain[4].pos.z == 0.0
      ensures old(chain[2].pos.z) == 0.0 && old(chain[4].pos.z) == 0.0 ==> chain == old(chain)
    {
      hide CorrectedAxis;
      CorrectedAxisFrame(chain, segments, 1, sqrt);
      CorrectAxis(1, sqrt);
      CorrectedAxisFrame(chain, segments, 2, sqrt);
      CorrectAxis(2, sqrt);
    }

    method GetSimplified() returns (simplified: seq<Pose>)
      requires |chain| >= 2 && |chain| % 2 == 0
      ensures simplified == Simplified(chain)
    {
      hide Compose;
      simplified := [chain[0]];
      var i := 1;
      while i < |chain| - 1
        invariant i % 2 == 1 && i <= |chain| - 1
        invariant simplified == Simplified(chain)[..(i + 1) / 2]
      {
        simplified := simplified + [Compose(chain[i], chain[i + 1])];
        i := i + 2;
      }
      simplified := simplified + [chain[|chain| - 1]];
    }

    method CalcForwardKinematics(joints: seq<Angle>, linkNr: nat) returns (output: Pose)
      requires |chain| >= 2 && |chain| % 2 == 0
      requires linkNr <= |joints| && linkNr <= |chain| / 2 + 1
      ensures output == Kinematics(Simplified(chain), joints, linkNr)
    {
      hide Compose;
      output := IDENTITY;
      var simplified := GetSimplified();
      for i := 0 to linkNr
        invariant output == Kinematics(simplified, joints, i)
      {
        var rotation := IDENTITY.(rot := RotZ(joints[i]));
        output := Compose(output, Compose(simplified[i], rotation));
      }
    }
  }

  lemma CorrectedAxisFrame(chain: seq<Pose>, segments: seq<DHSegment>, l: nat, sqrt: real -> real)
    requires Correctable(chain, segments, l)
    ensures var after := CorrectedAxis(chain, segments, l, sqrt);
            && |after| == |chain| && after[2 * l].pos.z == 0.0
            && (forall i :: 0 <= i < |chain| && (i < 2 * l || i > 2 * l + 2) ==> after[i] == chain[i])
            && (chain[2 * l].pos.z == 0.0 ==> after == chain)
  {
  }

  // The geometry of one link.

  lemma TurnColumns(segment: DHSegment)
    ensures var t, al := segment.theta, segment.alpha;
            Turn(segment) == Mat3(Vec3(t.c, -t.s * al.c, t.s * al.s), Vec3(t.s, t.c * al.c, -t.c * al.s),
                                  Vec3(0.0, al.s, al.c))
  {
    var m := RotX(segment.alpha);
    assert m.ColX() == Vec3(1.0, 0.0, 0.0);
    assert m.ColY() == Vec3(0.0, segment.alpha.c, segment.alpha.s);
    assert m.ColZ() == Vec3(0.0, -segment.alpha.s, segment.alpha.c);
  }

  lemma RootOfLink(segment: DHSegment, d: real)
    ensures Compose(ZScrew(segment.theta, d), Passive(segment)) == Pose(Turn(segment), Root(segment, d))
  {
    hide Mul;
    assert RotZ(segment.theta).Apply(Vec3(segment.a, 0.0, 0.0)) ==
           Vec3(segment.theta.c * segment.a, segment.theta.s * segment.a, 0.0);
  }

  lemma AxisIsUnit(segment: DHSegment)
    requires segment.theta.Unit() && segment.alpha.Unit()
    ensures Turn(segment).ColZ().Dot(Turn(segment).ColZ()) == 1.0
  {
    hide Turn;
    TurnColumns(segment);
    var t, al := segment.theta, segment.alpha;
    calc {
      t.s * al.s * (t.s * al.s) + -t.c * al.s * (-t.c * al.s) + al.c * al.c;
      (t.s * t.s + t.c * t.c) * (al.s * al.s) + al.c * al.c;
      1.0;
    }
  }

  lemma NormOfScaled(sqrt: real -> real, axis: Vec3, k: real)
    requires IsSqrt(sqrt) && axis.Dot(axis) == 1.0
    ensures sqrt(axis.Scale(k).Dot(axis.Scale(k))) == Abs(k)
  {
    var v := axis.Scale(k);
    assert v.Dot(v) == k * k * axis.Dot(axis);
    SqrtUnique(sqrt, v.Dot(v), Abs(k));
  }

  lemma Normalized(axis: Vec3, k: real)
    requires k != 0.0
    ensures axis.Scale(k).Scale(1.0 / Abs(k)) == axis.Scale(if k > 0.0 then 1.0 else -1.0)
  {
    var f := 1.0 / Abs(k);
    assert f * k == if k > 0.0 then 1.0 else -1.0;
    assert f * (k * axis.x) == f * k * axis.x;
    assert f * (k * axis.y) == f * k * axis.y;
    assert f * (k * axis.z) == f * k * axis.z;
  }

  /** The normalised line through the next joint's root and the end of its screw runs along the joint axis. */
  lemma NextAxis(segment: DHSegment, d: real, nextTheta: Angle, nextD: real, sqrt: real -> real)
    requires segment.theta.Unit() && segment.alpha.Unit() && IsSqrt(sqrt) && nextD != 0.0
    ensures var root := Compose(ZScrew(segment.theta, d), Passive(segment));
            var along := Compose(root, ZScrew(nextTheta, nextD)).pos.Minus(root.pos);
            && root.pos == Root(segment, d)
            && sqrt(along.Dot(along)) == Abs(nextD)
            && along.Scale(1.0 / Abs(nextD)) == Turn(segment).ColZ().Scale(if nextD > 0.0 then 1.0 else -1.0)
  {
    RootOfLink(segment, d);
    hide Mul, Turn, Root;
    var root := Pose(Turn(segment), Root(segment, d));
    var along := Compose(root, ZScrew(nextTheta, nextD)).pos.Minus(root.pos);
    var axis := Turn(segment).ColZ();
    assert root.rot.Apply(Vec3(0.0, 0.0, nextD)) == axis.Scale(nextD);
    assert along == axis.Scale(nextD);
    AxisIsUnit(segment);
    NormOfScaled(sqrt, axis, nextD);
    Normalized(axis, nextD);
  }

  /** Moving back along the line undoes the move along the joint axis only up to the sign of the axis. */
  lemma ShiftBack(d: real, z: real, c: real)
    requires c != 0.0 && (z == c || z == -c)
    ensures -d / z * (if z > 0.0 then 1.0 else -1.0) == -(d / Abs(c))
  {
  }

  lemma HeadingOf(p: Vec3, r: real)
    requires p.z == 0.0
    ensures p.Dot(p) == Flat(p)
    ensures Atan2(p.y, p.x, r).Minus(ZERO_ANGLE) == Atan2(p.y, p.x, r)
    ensures Atan2(p.y, p.x, r).Minus(PI) == Angle(-Atan2(p.y, p.x, r).c, -Atan2(p.y, p.x, r).s)
  {
  }

  lemma SignCancels(d: real, c: real, x: real)
    requires c != 0.0
    ensures -d / -c * -x == -d / c * x
  {
    assert -d / -c == d / c && -d / c == -(d / c);
  }

  /** The same point is reached backwards along the axis. */
  lemma EitherWay(axis: Vec3, direction: Vec3, d: real)
    requires axis.z != 0.0 && (direction == axis.Scale(1.0) || direction == axis.Scale(-1.0))
    ensures direction.z == axis.z || direction.z == -axis.z
    ensures direction.Scale(-d / direction.z) == axis.Scale(-d / axis.z)
  {
    if direction == axis.Scale(1.0) {
      assert direction == axis;
    } else {
      assert direction == Vec3(-axis.x, -axis.y, -axis.z);
      SignCancels(d, axis.z, axis.x);
      SignCancels(d, axis.z, axis.y);
      SignCancels(d, axis.z, axis.z);
    }
  }

  lemma PiercesPlane(segment: DHSegment, d: real, direction: Vec3)
    requires segment.alpha.c != 0.0
    requires direction == Turn(segment).ColZ().Scale(1.0) || direction == Turn(segment).ColZ().Scale(-1.0)
    ensures direction.z == segment.alpha.c || direction.z == -segment.alpha.c
    ensures Root(segment, d).z == d
    ensures Root(segment, d).Plus(direction.Scale(-d / direction.z)) == Foot(segment, d)
    ensures Foot(segment, d).z == 0.0
  {
    TurnColumns(segment);
    hide Turn;
    var axis := Turn(segment).ColZ();
    EitherWay(axis, direction, d);
    hide Vec3.Scale;
    ScaledZ(axis, -d / segment.alpha.c);
    QuotientCancels(d, segment.alpha.c);
  }

  lemma ScaledZ(v: Vec3, k: real)
    ensures v.Scale(k).z == k * v.z
  {
  }

  lemma QuotientCancels(d: real, c: real)
    requires c != 0.0
    ensures -d / c * c == -d
  {
  }
}
