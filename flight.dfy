/** Time-based lookup in the keyframe table, and the flight state the frame
    loop advances. */
module Flight {
  import opened Geometry
  import opened Bezier
  import opened Smoothing
  import opened KeyFrames

  /** Position and orientation handed back to the renderer. */
  datatype Pose = Pose(pos: Vec3, lookAt: Quat)

  /** C++'s (int) conversion of a real: rounds toward zero. */
  function Trunc(x: real): (n: int)
    ensures 0.0 <= x ==> n == x.Floor
    ensures x < 0.0 ==> x <= n as real <= 0.0 && n as real < x + 1.0
  {
    if 0.0 <= x then x.Floor else -((-x).Floor)
  }

  /** Locate, written with the (int) conversion the program applies to 4 * globalT. */
  lemma LocateTruncated(globalT: real)
    requires 0.0 <= globalT <= 1.0
    ensures var scaledT := globalT * 4.0;
      var segIdx := Trunc(scaledT);
      Locate(globalT) == if segIdx >= 4 then (3, 1.0) else (segIdx, scaledT - segIdx as real)
  {
  }

  /** The pose of the last keyframe, returned unchanged. */
  function LastPose(frames: seq<Frame>): Pose
    requires |frames| >= 1
  {
    Pose(frames[|frames| - 1].pos, frames[|frames| - 1].lookAt)
  }

  /** glm::mix of the positions and glm::slerp of the orientations of two
      keyframes, with the same weight: weight 0 sits on the first keyframe's
      position, weight 1 on the second's. */
  function Blend(k1: Frame, k2: Frame, alpha: real): (p: Pose)
    ensures alpha == 0.0 ==> p.pos == k1.pos
    ensures alpha == 1.0 ==> p.pos == k2.pos
    ensures p.lookAt == Slerp(k1.lookAt, k2.lookAt, alpha)
  {
    Pose(Mix(k1.pos, k2.pos, alpha), Slerp(k1.lookAt, k2.lookAt, alpha))
  }

  /** 0 <= time <= 1 reads the table at an index in 0..size-1. */
  lemma ScaledIndexBounds(n: int, time: real)
    requires 1 <= n
    ensures 0.0 <= time <= 1.0 ==>
      && 0.0 <= time * (n - 1) as real <= (n - 1) as real
      && 0 <= (time * (n - 1) as real).Floor <= n - 1
  {
    if 0.0 <= time <= 1.0 {
      MulNonNegative(time, (n - 1) as real);
      MulNonNegative(1.0 - time, (n - 1) as real);
    }
  }

  /** The pose at a time: the table is read at time * (size - 1); the whole part
      picks the bracketing pair, the remainder is the blend weight. The program
      compares the int index with the unsigned size - 1, so a negative index
      converts to a huge unsigned value and also takes the last keyframe.
      For a time in [0,1] exactly one of two things happens: the index reaches
      the last keyframe and that keyframe is returned verbatim, or the index and
      its successor are both in the table and the position and orientation are
      blended between them with a weight in [0,1). */
  function Interpolate(frames: seq<Frame>, time: real): (p: Pose)
    requires |frames| >= 1
    ensures 0.0 <= time <= 1.0 ==>
      var idxFloat := time * (|frames| - 1) as real;
      var idx := idxFloat.Floor;
      var alpha := idxFloat - idx as real;
      && 0 <= idx <= |frames| - 1
      && (idx == |frames| - 1 ==> p == LastPose(frames))
      && (idx < |frames| - 1 ==>
            && 0.0 <= alpha < 1.0
            && p == Blend(frames[idx], frames[idx + 1], alpha))
  {
    var idxFloat := time * (|frames| - 1) as real;
    var idx := Trunc(idxFloat);
    var alpha := idxFloat - idx as real;
    ScaledIndexBounds(|frames|, time);
    if idx < 0 || idx >= |frames| - 1 then LastPose(frames)
    else Blend(frames[idx], frames[idx + 1], alpha)
  }

  /** At or past time 1 the last keyframe is returned, without extrapolating. */
  lemma {:induction false} InterpolateAtEnd(frames: seq<Frame>, time: real)
    requires |frames| >= 1 && 1.0 <= time
    ensures Interpolate(frames, time) == LastPose(frames)
  {
    var n := (|frames| - 1) as real;
    MulNonNegative(time - 1.0, n);
    assert time * n >= n;
  }

  /** At time 0 the position is that of the first keyframe, and the orientation
      is the first keyframe's, slerped towards the second by weight 0 (the
      first keyframe's own when the table has one entry). */
  lemma {:induction false} InterpolateAtStart(frames: seq<Frame>)
    requires |frames| >= 1
    ensures Interpolate(frames, 0.0).pos == frames[0].pos
    ensures |frames| == 1 ==> Interpolate(frames, 0.0).lookAt == frames[0].lookAt
    ensures |frames| >= 2 ==>
      Interpolate(frames, 0.0).lookAt == Slerp(frames[0].lookAt, frames[1].lookAt, 0.0)
  {
    assert 0.0 * (|frames| - 1) as real == 0.0;
    assert Trunc(0.0) == 0;
  }

  /** For a time in [0,1] the position lies, component by component, between
      the positions of the bracketing keyframes idx and idx + 1 (both the last
      keyframe when idx is the last index). */
  lemma {:induction false} InterpolateBetween(frames: seq<Frame>, time: real)
    requires |frames| >= 1 && 0.0 <= time <= 1.0
    ensures var idx := (time * (|frames| - 1) as real).Floor;
      var next := if idx + 1 < |frames| then idx + 1 else |frames| - 1;
      && 0 <= idx < |frames|
      && BetweenVec(frames[idx].pos, frames[next].pos, Interpolate(frames, time).pos)
  {
    var p := Interpolate(frames, time);
    var idxFloat := time * (|frames| - 1) as real;
    var idx := idxFloat.Floor;
    if idx < |frames| - 1 {
      MixBetween(frames[idx].pos, frames[idx + 1].pos, idxFloat - idx as real);
    }
  }

  /** Keyframe k of a table with last index n sits at time k / n, a time in
      [0,1] that scales back to exactly k. */
  lemma KeyFrameTime(n: int, k: int)
    requires 1 <= n && 0 <= k <= n
    ensures var time := k as real / n as real;
      && 0.0 <= time <= 1.0
      && time * n as real == k as real
      && (time * n as real).Floor == k
  {
    var time := k as real / n as real;
    assert time * n as real == k as real;
    if time > 1.0 {
      MulPositive(time - 1.0, n as real);
    }
  }

  /** A time that scales to exactly index k reads keyframe k: its position,
      and its orientation (slerped towards keyframe k + 1 by weight 0 before
      the last). */
  lemma {:induction false} InterpolateOnIndex(frames: seq<Frame>, time: real, k: int)
    requires |frames| >= 2 && 0 <= k < |frames| && 0.0 <= time <= 1.0
    requires time * (|frames| - 1) as real == k as real
    ensures var p := Interpolate(frames, time);
      && p.pos == frames[k].pos
      && (k == |frames| - 1 ==> p.lookAt == frames[k].lookAt)
      && (k < |frames| - 1 ==> p.lookAt == Slerp(frames[k].lookAt, frames[k + 1].lookAt, 0.0))
  {
    var p := Interpolate(frames, time);
    assert (k as real).Floor == k;
    if k < |frames| - 1 {
      assert p == Blend(frames[k], frames[k + 1], 0.0);
    } else {
      assert p == LastPose(frames);
    }
  }

  /** The interpolant passes through every keyframe: at time k / (size - 1)
      the position is keyframe k's, and the orientation keyframe k's (slerped
      towards keyframe k + 1 by weight 0 before the last). Coming from the
      left, the blend of keyframes k - 1 and k reaches the same position at
      weight 1, so the position does not jump at a keyframe boundary. */
  lemma {:induction false} InterpolateAtKeyFrame(frames: seq<Frame>, k: int)
    requires |frames| >= 2 && 0 <= k < |frames|
    ensures var p := Interpolate(frames, k as real / (|frames| - 1) as real);
      && p.pos == frames[k].pos
      && (k == |frames| - 1 ==> p.lookAt == frames[k].lookAt)
      && (k < |frames| - 1 ==> p.lookAt == Slerp(frames[k].lookAt, frames[k + 1].lookAt, 0.0))
    ensures 1 <= k ==> Blend(frames[k - 1], frames[k], 1.0).pos == frames[k].pos
  {
    KeyFrameTime(|frames| - 1, k);
    InterpolateOnIndex(frames, k as real / (|frames| - 1) as real, k);
  }

  /** In flight the eased parameter stays below 1, so with two or more
      keyframes the lookup always blends a bracketing pair: the last-keyframe
      branch is never taken. */
  lemma {:induction false} FlightAlwaysBlends(frames: seq<Frame>, flightTime: real)
    requires |frames| >= 2
    ensures var idxFloat := EasedProgress(flightTime) * (|frames| - 1) as real;
      var idx := idxFloat.Floor;
      && 0 <= idx < |frames| - 1
      && Interpolate(frames, EasedProgress(flightTime))
         == Blend(frames[idx], frames[idx + 1], idxFloat - idx as real)
  {
    var time := EasedProgress(flightTime);
    var n := (|frames| - 1) as real;
    MulPositive(1.0 - time, n);
    assert time * n < n;
  }

  /** Times below 0 are not rejected. Just below 0 the index truncates to 0 and
      the position extrapolates before the first keyframe with a negative
      weight; once time * (size - 1) reaches -1 the index is negative and the
      unsigned comparison returns the last keyframe. */
  lemma {:induction false} InterpolateNegativeTime(frames: seq<Frame>, time: real)
    requires |frames| >= 2 && time < 0.0
    ensures var idxFloat := time * (|frames| - 1) as real;
      && (idxFloat <= -1.0 ==> Interpolate(frames, time) == LastPose(frames))
      && (-1.0 < idxFloat ==>
            idxFloat < 0.0 &&
            Interpolate(frames, time).pos == Mix(frames[0].pos, frames[1].pos, idxFloat))
  {
    var n := (|frames| - 1) as real;
    MulNonNegative(-time, n);
    assert -time * n > 0.0 by {
      assert n >= 1.0;
      MulNonNegative(-time, n - 1.0);
    }
  }

  /** Whatever the table, the pose depends only on the time: evaluating twice
      gives equal poses, and times one lap apart give the same eased pose. */
  lemma {:induction false} EasedPoseRepeatsEachLap(frames: seq<Frame>, flightTime: real, laps: int)
    requires |frames| >= 1
    ensures Interpolate(frames, EasedProgress(flightTime + laps as real))
         == Interpolate(frames, EasedProgress(flightTime))
  {
    EasedProgressPeriodic(flightTime, laps);
  }

  /** A flight over a freshly built table starts on the first control point,
      turning from the first keyframe's orientation, which looks along the
      first piece's starting tangent 3 (P1 - P0). */
  lemma {:induction false} FlightStartsOnFirstControlPoint(keyPoints: seq<Vec3>, frameCount: int)
    requires 1 <= frameCount && |keyPoints| >= SegmentCount * PointsPerSegment
    ensures var frames := KeyFrameTable(keyPoints, frameCount);
      var p := Interpolate(frames, EasedProgress(0.0));
      && p.pos == keyPoints[0]
      && p.lookAt == Slerp(LookAlong(Scale(3.0, Sub(keyPoints[1], keyPoints[0])), WorldUp),
                           frames[1].lookAt, 0.0)
  {
    var frames := KeyFrameTable(keyPoints, frameCount);
    assert EasedProgress(0.0) == 0.0;
    TableEndpoints(keyPoints, frameCount);
    InterpolateAtStart(frames);
  }

  /** One step of the keyframe loop, which yields entry i of the table (the
      frame KeyFrameAt specifies): progress i / frameCount, the piece and local
      parameter it falls on (the last step pinned to the end of the last
      piece), and the position and look-along orientation there. */
  method ComputeKeyFrame(keyPoints: seq<Vec3>, frameCount: int, i: int) returns (frame: Frame)
    requires 1 <= frameCount && 0 <= i <= frameCount
    requires |keyPoints| >= SegmentCount * PointsPerSegment
    ensures frame == KeyFrameTable(keyPoints, frameCount)[i]
  {
    var globalT := i as real / frameCount as real;
    StepProgress(frameCount, i);
    var scaledT := globalT * 4.0;
    var segIdx := Trunc(scaledT);
    var localT := scaledT - segIdx as real;
    LocateTruncated(globalT);

    // pin the final sample to the end of the last piece
    if segIdx >= 4 {
      segIdx := 3;
      localT := 1.0;
    }
    KeyFrameAtUnrolled(keyPoints, frameCount, i, segIdx, localT);

    var p0 := keyPoints[segIdx * 4 + 0];
    var p1 := keyPoints[segIdx * 4 + 1];
    var p2 := keyPoints[segIdx * 4 + 2];
    var p3 := keyPoints[segIdx * 4 + 3];

    var pos := BezierPoint(localT, p0, p1, p2, p3);
    var lookAt := LookAlong(BezierTangent(localT, p0, p1, p2, p3), WorldUp);
    frame := Frame(globalT, pos, lookAt);
    KeyFrameTableAt(keyPoints, frameCount, i);
  }

  /** Growing a prefix by one element appends that element. */
  lemma PrefixExtend(s: seq<Frame>, i: int)
    requires 0 <= i < |s|
    ensures s[..i + 1] == s[..i] + [s[i]]
  {
  }

  /** The animation state the program keeps in globals: the keyframe table, the
      flying flag, the flight clock and its speed, and the aeroplane's pose. */
  class FlightState {
    var keyFrames: seq<Frame>
    var isFlying: bool
    var flightTime: real
    var flightSpeed: real
    var planePos: Vec3
    var currentQuat: Quat

    /** The state at program start. */
    constructor ()
      ensures keyFrames == [] && !isFlying
      ensures flightTime == 0.0 && flightSpeed == 0.1
      ensures planePos == Zero && currentQuat == Identity
    {
      keyFrames := [];
      isFlying := false;
      flightTime := 0.0;
      flightSpeed := 0.1;
      planePos := Zero;
      currentQuat := Identity;
    }

    /** Appends frameCount + 1 keyframes for progress 0, 1/frameCount, ..., 1
      along the four pieces of keyPoints; the frames already present stay. */
    method AppendKeyFrame(keyPoints: seq<Vec3>, frameCount: int)
      requires frameCount != 0
      requires frameCount > 0 ==> |keyPoints| >= SegmentCount * PointsPerSegment
      modifies this`keyFrames
      ensures keyFrames == old(keyFrames) + KeyFrameTable(keyPoints, frameCount)
    {
      ghost var added := KeyFrameTable(keyPoints, frameCount);
      var i := 0;
      while i <= frameCount
        invariant 0 <= i <= |added|
        invariant keyFrames == old(keyFrames) + added[..i]
      {
        var frame := ComputeKeyFrame(keyPoints, frameCount, i);
        PrefixExtend(added, i);
        keyFrames := keyFrames + [frame];
        i := i + 1;
      }
      assert added[..i] == added;
    }

    /** The pose at a time in the current table. The function Interpolate is
        this method's specification: the body takes the same steps in place,
        and what the lookup promises is proved about Interpolate. */
    method GetInterpolatedState(time: real) returns (outPos: Vec3, outLookAt: Quat)
      requires |keyFrames| >= 1
      ensures Pose(outPos, outLookAt) == Interpolate(keyFrames, time)
    {
      var idxFloat := time * (|keyFrames| - 1) as real;
      var idx := Trunc(idxFloat);
      var alpha := idxFloat - idx as real;

      if idx < 0 || idx >= |keyFrames| - 1 {
        outPos := keyFrames[|keyFrames| - 1].pos;
        outLookAt := keyFrames[|keyFrames| - 1].lookAt;
        return;
      }

      var k1 := keyFrames[idx];
      var k2 := keyFrames[idx + 1];
      outPos := Mix(k1.pos, k2.pos, alpha);
      outLookAt := Slerp(k1.lookAt, k2.lookAt, alpha);
    }

    /** One frame of flight: while flying, the clock advances by
      deltaTime * flightSpeed and the aeroplane takes the pose at the eased,
      wrapped clock; otherwise nothing changes. */
    method FlyStep(deltaTime: real)
      requires isFlying ==> |keyFrames| >= 1
      modifies this`flightTime, this`planePos, this`currentQuat
      ensures !isFlying ==>
        flightTime == old(flightTime) && planePos == old(planePos) && currentQuat == old(currentQuat)
      ensures isFlying ==>
        && flightTime == old(flightTime) + deltaTime * flightSpeed
        && Pose(planePos, currentQuat) == Interpolate(keyFrames, EasedProgress(flightTime))
    {
      if isFlying {
        flightTime := flightTime + deltaTime * flightSpeed;
        var rawT := flightTime;
        rawT := rawT - rawT.Floor as real;

        var easedT := SmootherStep(rawT);

        var flyRot;
        planePos, flyRot := GetInterpolatedState(easedT);
        currentQuat := flyRot;
      }
    }
  }
}
