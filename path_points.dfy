/** The aeroplane's closed flight path: four cubic pieces laid out as a figure
    eight in the y = 0 plane, and the table built over it at start-up. */
module PathPoints {
  import opened Geometry
  import opened Bezier
  import opened Smoothing
  import opened KeyFrames
  import opened Flight

  /** Extent of the loop along x and its half-width along z. */
  const PathLength: real := 80.0
  const PathWidth: real := 20.0

  /** Keyframe steps of the table built at start-up. */
  const KeyFrameSteps: int := 800

  /** The sixteen control points, four per piece, for a loop of the given
      length and width; mid is half the length. Consecutive pieces share their
      joining point and the last piece ends where the first begins. */
  function ControlPoints(len: real, width: real): (pts: seq<Vec3>)
    ensures |pts| == SegmentCount * PointsPerSegment
    ensures pts[3] == pts[4] && pts[7] == pts[8] && pts[11] == pts[12]
    ensures pts[15] == pts[0]
  {
    var mid := len / 2.0;
    [ // first piece
      Vec3(0.0, 0.0, 0.0), Vec3(0.0, 0.0, width), Vec3(mid - 3.0, 0.0, width), Vec3(mid, 0.0, 0.0),
      // second piece
      Vec3(mid, 0.0, 0.0), Vec3(mid + 3.0, 0.0, -width), Vec3(len, 0.0, -width), Vec3(len, 0.0, 0.0),
      // third piece
      Vec3(len, 0.0, 0.0), Vec3(len, 0.0, width), Vec3(mid + 3.0, 0.0, width), Vec3(mid, 0.0, 0.0),
      // fourth piece
      Vec3(mid, 0.0, 0.0), Vec3(mid - 3.0, 0.0, -width), Vec3(0.0, 0.0, -width), Vec3(0.0, 0.0, 0.0)
    ]
  }

  /** The tangent of piece k of pts at parameter t. */
  function PieceTangent(pts: seq<Vec3>, k: int, t: real): Vec3
    requires 0 <= k < SegmentCount && |pts| == SegmentCount * PointsPerSegment
  {
    BezierTangent(t, pts[4 * k], pts[4 * k + 1], pts[4 * k + 2], pts[4 * k + 3])
  }

  /** Beyond sharing points, the pieces also join with equal tangents, including
      across the seam where the loop closes: the path is C1, for any size. */
  lemma TangentContinuousAtJoints(len: real, width: real)
    ensures var pts := ControlPoints(len, width);
      && PieceTangent(pts, 0, 1.0) == PieceTangent(pts, 1, 0.0)
      && PieceTangent(pts, 1, 1.0) == PieceTangent(pts, 2, 0.0)
      && PieceTangent(pts, 2, 1.0) == PieceTangent(pts, 3, 0.0)
      && PieceTangent(pts, 3, 1.0) == PieceTangent(pts, 0, 0.0)
  {
  }

  /** 3 e^2 a + 6 e t b + 3 t^2 c > 0 for positive weights e and t when
      a, c >= 0 and b > 0. */
  lemma BernsteinDerivativePositive(e: real, t: real, a: real, b: real, c: real)
    requires 0.0 < e && 0.0 < t && 0.0 <= a && 0.0 < b && 0.0 <= c
    ensures 3.0 * e * e * a + 6.0 * e * t * b + 3.0 * t * t * c > 0.0
  {
    MulNonNegative(3.0 * e, e);
    MulNonNegative(3.0 * e * e, a);
    MulPositive(6.0 * e, t);
    MulPositive(6.0 * e * t, b);
    MulNonNegative(3.0 * t, t);
    MulNonNegative(3.0 * t * t, c);
  }

  /** A piece whose control points all lie in the y = 0 plane has a
      horizontal tangent. */
  lemma FlatPieceTangent(t: real, p0: Vec3, p1: Vec3, p2: Vec3, p3: Vec3)
    requires p0.y == 0.0 && p1.y == 0.0 && p2.y == 0.0 && p3.y == 0.0
    ensures BezierTangent(t, p0, p1, p2, p3).y == 0.0
  {
  }

  /** The x component of a piece's tangent. */
  lemma TangentX(t: real, p0: Vec3, p1: Vec3, p2: Vec3, p3: Vec3)
    ensures var e := 1.0 - t;
      BezierTangent(t, p0, p1, p2, p3).x
      == 3.0 * e * e * (p1.x - p0.x) + 6.0 * e * t * (p2.x - p1.x) + 3.0 * t * t * (p3.x - p2.x)
  {
  }

  /** Strictly inside (0,1), a control polygon advancing steadily in one x
      direction gives a tangent with a non-zero x component. */
  lemma InteriorTangentX(t: real, increasing: bool, p0: Vec3, p1: Vec3, p2: Vec3, p3: Vec3)
    requires 0.0 < t < 1.0
    requires increasing ==> p0.x <= p1.x < p2.x <= p3.x
    requires !increasing ==> p0.x >= p1.x > p2.x >= p3.x
    ensures BezierTangent(t, p0, p1, p2, p3).x != 0.0
  {
    var e, a, b, c := 1.0 - t, p1.x - p0.x, p2.x - p1.x, p3.x - p2.x;
    var dx := BezierTangent(t, p0, p1, p2, p3).x;
    TangentX(t, p0, p1, p2, p3);
    if increasing {
      BernsteinDerivativePositive(e, t, a, b, c);
    } else {
      BernsteinDerivativePositive(e, t, -a, -b, -c);
      assert 3.0 * e * e * -a + 6.0 * e * t * -b + 3.0 * t * t * -c == -dx;
    }
  }

  /** A piece in the y = 0 plane whose control polygon advances steadily in
      one x direction, and whose first and last legs are not degenerate, has a
      horizontal, non-zero tangent everywhere on [0,1]. */
  lemma MonotonePieceTangent(t: real, increasing: bool, p0: Vec3, p1: Vec3, p2: Vec3, p3: Vec3)
    requires 0.0 <= t <= 1.0
    requires p0.y == 0.0 && p1.y == 0.0 && p2.y == 0.0 && p3.y == 0.0
    requires increasing ==> p0.x <= p1.x < p2.x <= p3.x
    requires !increasing ==> p0.x >= p1.x > p2.x >= p3.x
    requires p1 != p0 && p3 != p2
    ensures var d := BezierTangent(t, p0, p1, p2, p3);
      d.y == 0.0 && d != Zero
  {
    FlatPieceTangent(t, p0, p1, p2, p3);
    if t == 0.0 {
      assert BezierTangent(t, p0, p1, p2, p3) == Scale(3.0, Sub(p1, p0));
    } else if t == 1.0 {
      assert BezierTangent(t, p0, p1, p2, p3) == Scale(3.0, Sub(p3, p2));
    } else {
      InteriorTangentX(t, increasing, p0, p1, p2, p3);
    }
  }

  /** On the loop the program builds, every tangent a keyframe can be built from
      is horizontal and non-zero, so glm::quatLookAt is never handed the zero
      vector or a direction parallel to the up vector. */
  lemma {:induction false} PathTangentUsable(k: int, t: real)
    requires 0 <= k < SegmentCount && 0.0 <= t <= 1.0
    ensures var d := PieceTangent(ControlPoints(PathLength, PathWidth), k, t);
      d.y == 0.0 && d != Zero
  {
    var pts := ControlPoints(PathLength, PathWidth);
    // the first two pieces run towards +x, the last two back towards -x
    MonotonePieceTangent(t, k < 2, pts[4 * k], pts[4 * k + 1], pts[4 * k + 2], pts[4 * k + 3]);
  }

  /** Hence every keyframe of a table built over this loop looks along a
      horizontal, non-zero tangent. */
  lemma {:induction false} PathKeyFramesNonDegenerate(frameCount: int, i: int)
    requires 1 <= frameCount && 0 <= i <= frameCount
    ensures var f := KeyFrameTable(ControlPoints(PathLength, PathWidth), frameCount)[i];
      f.lookAt.LookAlong? && f.lookAt.up == WorldUp &&
      f.lookAt.tangent.y == 0.0 && f.lookAt.tangent != Zero
  {
    var pts := ControlPoints(PathLength, PathWidth);
    var frames := KeyFrameTable(pts, frameCount);
    assert frames[i] == KeyFrameAt(pts, frameCount, i);
    StepProgress(frameCount, i);
    var (k, localT) := Locate(i as real / frameCount as real);
    assert frames[i].lookAt == LookAlong(PieceTangent(pts, k, localT), WorldUp);
    PathTangentUsable(k, localT);
  }

  /** The start-up scenario: with the 800-step table over this loop, a flight
      whose clock reads 0 puts the aeroplane at the origin, turning from an
      orientation that looks along +z (tangent (0, 0, 60)). */
  lemma FlightStartsAtOrigin()
    ensures var frames := KeyFrameTable(ControlPoints(PathLength, PathWidth), KeyFrameSteps);
      var p := Interpolate(frames, EasedProgress(0.0));
      && p.pos == Zero
      && p.lookAt == Slerp(LookAlong(Vec3(0.0, 0.0, 60.0), WorldUp), frames[1].lookAt, 0.0)
  {
    var pts := ControlPoints(PathLength, PathWidth);
    assert pts[0] == Zero && pts[1] == Vec3(0.0, 0.0, 20.0);
    assert Scale(3.0, Sub(pts[1], pts[0])) == Vec3(0.0, 0.0, 60.0);
    FlightStartsOnFirstControlPoint(pts, KeyFrameSteps);
  }
}
