/** The forward kinematics of a chain as built: the textbook product of Denavit-Hartenberg matrices. */
module DenavitHartenberg {
  import opened Geometry
  import opened UrCalibration

  /** The matrix of a segment whose joint stands at this angle, entry by entry. */
  function LinkMatrix(segment: DHSegment, joint: Angle): Pose {
    var (t, al) := (segment.theta.Plus(joint), segment.alpha);
    Pose(Mat3(Vec3(t.c, -t.s * al.c, t.s * al.s),
              Vec3(t.s, t.c * al.c, -t.c * al.s),
              Vec3(0.0, al.s, al.c)),
         Vec3(segment.a * t.c, segment.a * t.s, segment.d))
  }

  /** The part of that matrix before its shift along x and its turn about x, entry by entry. */
  function JointMatrix(d: real, t: Angle): Pose {
    Pose(Mat3(Vec3(t.c, -t.s, 0.0), Vec3(t.s, t.c, 0.0), Vec3(0.0, 0.0, 1.0)), Vec3(0.0, 0.0, d))
  }

  /** The product of the first `count` link matrices. */
  function LinkProduct(segments: seq<DHSegment>, q: seq<Angle>, count: nat): Pose
    requires count <= |segments| && count <= |q|
  {
    if count == 0 then IDENTITY
    else Compose(LinkProduct(segments, q, count - 1), LinkMatrix(segments[count - 1], q[count - 1]))
  }

  /** The whole matrices of the links before this one, then its joint; behind the last link, one more turn about z. */
  function TextbookPose(segments: seq<DHSegment>, q: seq<Angle>, linkNr: nat): Pose
    requires linkNr <= |segments| + 1 && linkNr <= |q|
  {
    if linkNr == 0 then IDENTITY
    else if linkNr <= |segments| then
      var segment := segments[linkNr - 1];
      Compose(LinkProduct(segments, q, linkNr - 1), JointMatrix(segment.d, segment.theta.Plus(q[linkNr - 1])))
    else Compose(LinkProduct(segments, q, |segments|), JointMatrix(0.0, q[|segments|]))
  }

  /** What the library returns for a chain it has just built. */
  method ForwardKinematicsAsBuilt(segments: seq<DHSegment>, joints: seq<Angle>, linkNr: nat) returns (output: Pose)
    requires |segments| >= 1 && linkNr <= |joints| && linkNr <= |segments| + 1
    ensures output == TextbookPose(segments, joints, linkNr)
  {
    hide Built, Simplified, Kinematics, TextbookPose;
    var calibration := new Calibration(segments);
    output := calibration.CalcForwardKinematics(joints, linkNr);
    KinematicsIsTextbook(segments, joints, linkNr);
  }

  lemma {:induction false} KinematicsIsTextbook(segments: seq<DHSegment>, q: seq<Angle>, linkNr: nat)
    requires |segments| >= 1 && linkNr <= |segments| + 1 && linkNr <= |q|
    ensures Kinematics(Simplified(Built(segments)), q, linkNr) == TextbookPose(segments, q, linkNr)
  {
    hide Compose, ZScrew, Passive, LinkMatrix, JointMatrix, Angle.Plus, Simplified, Built;
    if linkNr > 0 {
      KinematicsIsTextbook(segments, q, linkNr - 1);
      LinkBuilt(segments, linkNr - 1);
      if linkNr == 1 {
        FirstJoint(segments[0], q[0]);
      } else {
        NextJoint(segments, q, linkNr, TextbookPose(segments, q, linkNr - 1), LinkPose(segments, linkNr - 1));
      }
    }
  }

  /** The entries of the simplified chain: the first screw, passive segment and next screw, the last passive segment. */
  function LinkPose(segments: seq<DHSegment>, i: nat): Pose
    requires |segments| >= 1 && i <= |segments|
  {
    if i == 0 then ZScrew(segments[0].theta, segments[0].d)
    else if i == |segments| then Passive(segments[i - 1])
    else Compose(Passive(segments[i - 1]), ZScrew(segments[i].theta, segments[i].d))
  }

  lemma LinkBuilt(segments: seq<DHSegment>, i: nat)
    requires |segments| >= 1 && i <= |segments|
    ensures Simplified(Built(segments))[i] == LinkPose(segments, i)
  {
    hide Compose, ZScrew, Passive;
  }

  lemma FirstJoint(segment: DHSegment, joint: Angle)
    ensures Compose(IDENTITY, Compose(ZScrew(segment.theta, segment.d), ZScrew(joint, 0.0)))
            == Compose(IDENTITY, JointMatrix(segment.d, segment.theta.Plus(joint)))
  {
    hide Compose, ZScrew, JointMatrix, Angle.Plus;
    ScrewAndJoint(segment, joint);
  }

  /** One more link completes the matrix of the one before it. */
  lemma NextJoint(segments: seq<DHSegment>, q: seq<Angle>, linkNr: nat, before: Pose, link: Pose)
    requires 2 <= linkNr <= |segments| + 1 && linkNr <= |q|
    requires before == TextbookPose(segments, q, linkNr - 1) && link == LinkPose(segments, linkNr - 1)
    ensures Compose(before, Compose(link, ZScrew(q[linkNr - 1], 0.0))) == TextbookPose(segments, q, linkNr)
  {
    hide Compose, ZScrew, Passive, LinkMatrix, JointMatrix, Angle.Plus;
    var (last, joint) := (segments[linkNr - 2], ZScrew(q[linkNr - 1], 0.0));
    var links := LinkProduct(segments, q, linkNr - 2);
    var screw := JointMatrix(last.d, last.theta.Plus(q[linkNr - 2]));
    ScrewAndPassive(last, q[linkNr - 2]);
    if linkNr <= |segments| {
      var next := segments[linkNr - 1];
      ScrewAndJoint(next, q[linkNr - 1]);
      FourFactors(links, screw, Passive(last), ZScrew(next.theta, next.d), joint);
    } else {
      JointAlone(q[linkNr - 1]);
      ThreeFactors(links, screw, Passive(last), joint);
    }
  }

  lemma ThreeFactors(before: Pose, screw: Pose, passive: Pose, joint: Pose)
    ensures Compose(Compose(before, screw), Compose(passive, joint))
            == Compose(Compose(before, Compose(screw, passive)), joint)
  {
    hide Compose;
    ComposeAssoc(Compose(before, screw), passive, joint);
    ComposeAssoc(before, screw, passive);
  }

  lemma FourFactors(before: Pose, screw: Pose, passive: Pose, next: Pose, joint: Pose)
    ensures Compose(Compose(before, screw), Compose(Compose(passive, next), joint))
            == Compose(Compose(before, Compose(screw, passive)), Compose(next, joint))
  {
    hide Compose;
    ComposeAssoc(passive, next, joint);
    ThreeFactors(before, screw, passive, Compose(next, joint));
  }

  /** A joint turns about the axis of its screw. */
  lemma ScrewAndJoint(segment: DHSegment, joint: Angle)
    ensures Compose(ZScrew(segment.theta, segment.d), ZScrew(joint, 0.0))
            == JointMatrix(segment.d, segment.theta.Plus(joint))
  {
    RotZProduct(segment.theta, joint);
    hide Mul;
  }

  lemma JointAlone(t: Angle)
    ensures ZScrew(t, 0.0) == JointMatrix(0.0, t)
  {
  }

  /** Screw and passive segment make up the matrix of the link. */
  lemma ScrewAndPassive(segment: DHSegment, joint: Angle)
    ensures Compose(JointMatrix(segment.d, segment.theta.Plus(joint)), Passive(segment)) == LinkMatrix(segment, joint)
  {
    hide Compose, Mul, Angle.Plus;
    var turned := segment.(theta := segment.theta.Plus(joint));
    RootOfLink(turned, segment.d);
    TurnColumns(turned);
    assert Passive(turned) == Passive(segment);
  }
}
