/** The keyframe table: global progress i / frameCount mapped onto four chained
    cubic pieces of a 16-point control set, sampled into (t, pos, lookAt) frames. */
module KeyFrames {
  import opened Geometry
  import opened Bezier

  /** Number of chained cubic pieces, and control points per piece. */
  const SegmentCount: int := 4
  const PointsPerSegment: int := 4

  /** One precomputed sample of the path: global progress, position, orientation. */
  datatype Frame = Frame(t: real, pos: Vec3, lookAt: Quat)

  /** Maps global progress to (segment index, local parameter): the segment is
      the whole part of 4 * globalT, read with (int), which is floor here since
      globalT >= 0; at globalT == 1 that whole part is 4 and the pair is pinned
      to the end of the last segment, (3, 1). */
  function Locate(globalT: real): (r: (int, real))
    requires 0.0 <= globalT <= 1.0
    ensures 0 <= r.0 < SegmentCount && 0.0 <= r.1 <= 1.0
    ensures r.0 * PointsPerSegment + 3 < SegmentCount * PointsPerSegment
    ensures r.0 as real + r.1 == globalT * 4.0
    ensures r.1 == 1.0 ==> globalT == 1.0
    ensures (globalT * 4.0).Floor >= 4 <==> globalT == 1.0
  {
    var scaledT := globalT * 4.0;
    var segIdx := scaledT.Floor;
    var localT := scaledT - segIdx as real;
    if segIdx >= 4 then (3, 1.0) else (segIdx, localT)
  }

  /** The frame appended at loop step i of a table of frameCount + 1 samples: the
      position and the tangent-derived orientation of the located segment. */
  function KeyFrameAt(keyPoints: seq<Vec3>, frameCount: int, i: int): (f: Frame)
    requires 1 <= frameCount && 0 <= i <= frameCount
    requires |keyPoints| >= SegmentCount * PointsPerSegment
    ensures f.t == i as real / frameCount as real && 0.0 <= f.t <= 1.0
  {
    var globalT := i as real / frameCount as real;
    var (segIdx, localT) := Locate(globalT);
    var p0 := keyPoints[segIdx * 4 + 0];
    var p1 := keyPoints[segIdx * 4 + 1];
    var p2 := keyPoints[segIdx * 4 + 2];
    var p3 := keyPoints[segIdx * 4 + 3];
    Frame(globalT, BezierPoint(localT, p0, p1, p2, p3),
          LookAlong(BezierTangent(localT, p0, p1, p2, p3), WorldUp))
  }

  /** The frame at step i is built from the four control points of the located piece. */
  lemma KeyFrameAtUnrolled(keyPoints: seq<Vec3>, frameCount: int, i: int, segIdx: int, localT: real)
    requires 1 <= frameCount && 0 <= i <= frameCount
    requires |keyPoints| >= SegmentCount * PointsPerSegment
    requires (segIdx, localT) == Locate(i as real / frameCount as real)
    ensures 0 <= segIdx * 4 && segIdx * 4 + 3 < |keyPoints|
    ensures var p0, p1, p2, p3 := keyPoints[segIdx * 4], keyPoints[segIdx * 4 + 1],
                                  keyPoints[segIdx * 4 + 2], keyPoints[segIdx * 4 + 3];
      KeyFrameAt(keyPoints, frameCount, i)
      == Frame(i as real / frameCount as real, BezierPoint(localT, p0, p1, p2, p3),
               LookAlong(BezierTangent(localT, p0, p1, p2, p3), WorldUp))
  {
  }

  /** The frames one call of appendKeyFrame adds: frameCount + 1 of them, none
      for a negative count. */
  function KeyFrameTable(keyPoints: seq<Vec3>, frameCount: int): (frames: seq<Frame>)
    requires frameCount != 0
    requires frameCount > 0 ==> |keyPoints| >= SegmentCount * PointsPerSegment
    ensures |frames| == if frameCount < 0 then 0 else frameCount + 1
  {
    if frameCount < 0 then []
    else seq(frameCount + 1, i requires 0 <= i <= frameCount => KeyFrameAt(keyPoints, frameCount, i))
  }

  /** Entry i of the table is the frame of step i. */
  lemma KeyFrameTableAt(keyPoints: seq<Vec3>, frameCount: int, i: int)
    requires 1 <= frameCount && 0 <= i <= frameCount
    requires |keyPoints| >= SegmentCount * PointsPerSegment
    ensures KeyFrameTable(keyPoints, frameCount)[i] == KeyFrameAt(keyPoints, frameCount, i)
  {
  }

  /** Step i sits at progress i / frameCount, and its unclamped segment index
      reaches 4 only at the last step. */
  lemma {:induction false} StepProgress(frameCount: int, i: int)
    requires 1 <= frameCount && 0 <= i <= frameCount
    ensures var g := i as real / frameCount as real;
      0.0 <= g <= 1.0 && (g == 1.0 <==> i == frameCount) && (g == 0.0 <==> i == 0)
  {
    var n := frameCount as real;
    var g := i as real / n;
    assert g * n == i as real;
    if g == 1.0 {
      assert i as real == n;
    }
    if i < frameCount {
      assert i as real < n;
      assert g < 1.0;
    }
  }

  /** The clamp is reached exactly once per table, at the last step. */
  lemma SegmentClampOnlyAtEnd(frameCount: int, i: int)
    requires 1 <= frameCount && 0 <= i <= frameCount
    ensures ((i as real / frameCount as real) * 4.0).Floor >= 4 <==> i == frameCount
  {
    StepProgress(frameCount, i);
  }

  /** i / n < j / n for 0 <= i < j and n >= 1. */
  lemma QuotientIncreasing(n: int, i: int, j: int)
    requires 1 <= n && 0 <= i < j
    ensures i as real / n as real < j as real / n as real
  {
    var a, b := i as real / n as real, j as real / n as real;
    assert a * n as real == i as real && b * n as real == j as real;
    assert (b - a) * n as real == (j - i) as real > 0.0;
    if b <= a {
      MulNonNegative(a - b, n as real);
    }
  }

  /** The progress values of a table strictly increase with the step. */
  lemma {:induction false} TableProgressIncreasing(keyPoints: seq<Vec3>, frameCount: int, i: int, j: int)
    requires 1 <= frameCount && |keyPoints| >= SegmentCount * PointsPerSegment
    requires 0 <= i < j <= frameCount
    ensures KeyFrameTable(keyPoints, frameCount)[i].t < KeyFrameTable(keyPoints, frameCount)[j].t
  {
    var frames := KeyFrameTable(keyPoints, frameCount);
    assert frames[i] == KeyFrameAt(keyPoints, frameCount, i);
    assert frames[j] == KeyFrameAt(keyPoints, frameCount, j);
    QuotientIncreasing(frameCount, i, j);
  }

  /** The first step: progress 0, on control point 0, looking along 3 (P1 - P0). */
  lemma {:induction false} FirstKeyFrame(keyPoints: seq<Vec3>, frameCount: int)
    requires 1 <= frameCount && |keyPoints| >= SegmentCount * PointsPerSegment
    ensures KeyFrameAt(keyPoints, frameCount, 0)
         == Frame(0.0, keyPoints[0], LookAlong(Scale(3.0, Sub(keyPoints[1], keyPoints[0])), WorldUp))
  {
    assert 0 as real / frameCount as real == 0.0;
    assert Locate(0.0) == (0, 0.0);
  }

  /** The last step: progress 1, on control point 15, looking along 3 (P15 - P14). */
  lemma {:induction false} LastKeyFrame(keyPoints: seq<Vec3>, frameCount: int)
    requires 1 <= frameCount && |keyPoints| >= SegmentCount * PointsPerSegment
    ensures KeyFrameAt(keyPoints, frameCount, frameCount)
         == Frame(1.0, keyPoints[15], LookAlong(Scale(3.0, Sub(keyPoints[15], keyPoints[14])), WorldUp))
  {
    assert frameCount as real / frameCount as real == 1.0;
    assert Locate(1.0) == (3, 1.0);
  }

  /** The table starts at progress 0 on the first control point and ends at
      progress 1 on the sixteenth. */
  lemma {:induction false} TableEndpoints(keyPoints: seq<Vec3>, frameCount: int)
    requires 1 <= frameCount && |keyPoints| >= SegmentCount * PointsPerSegment
    ensures var frames := KeyFrameTable(keyPoints, frameCount);
      && frames[0] == Frame(0.0, keyPoints[0], LookAlong(Scale(3.0, Sub(keyPoints[1], keyPoints[0])), WorldUp))
      && frames[frameCount] == Frame(1.0, keyPoints[15], LookAlong(Scale(3.0, Sub(keyPoints[15], keyPoints[14])), WorldUp))
  {
    var frames := KeyFrameTable(keyPoints, frameCount);
    assert frames[0] == KeyFrameAt(keyPoints, frameCount, 0);
    assert frames[frameCount] == KeyFrameAt(keyPoints, frameCount, frameCount);
    FirstKeyFrame(keyPoints, frameCount);
    LastKeyFrame(keyPoints, frameCount);
  }
}
