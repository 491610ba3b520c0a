# Flight path of the aeroplane demo, modelled in Dafny

The first assignment of this rendering coursework flies an aeroplane around a
closed loop. At start-up, the loop's four cubic Bézier pieces (16 control
points) are sampled into a table of 801 keyframes. Each keyframe holds a
progress value, a position and a look-along orientation. Every frame while
flying, the flight clock advances and is wrapped to its fractional part. It is
then eased with Perlin's smootherstep and used to read the table: the
position is blended linearly between the two bracketing keyframes, and the
orientation is slerped between them.

This project models that core over exact reals:

- `geometry.dfy` (`Geometry`): vectors, `glm::mix`, and a symbolic quaternion.
- `bezier.dfy` (`Bezier`): `bezierPoint`, `bezierPointLookAt`, and `GenerateCubic` as a vertex/index list.
- `smoothing.dfy` (`Smoothing`): `SmootherStep` and the wrap of the flight clock.
- `keyframes.dfy` (`KeyFrames`): the keyframe table as a specification.
- `flight.dfy` (`Flight`): the table lookup `GetInterpolatedState`, plus a `FlightState` class for the globals the frame loop reads or writes. Those globals are `keyFrames`, `isFlying`, `flightTime`, `flightSpeed`, `planePos` and `currentQuat`. `appendKeyFrame`, `GetInterpolatedState` and the per-frame update are its methods.
- `path_points.dfy` (`PathPoints`): the 16 control points the program builds, and what holds of them.

Quaternions are not computed. A `Quat` records how an orientation was built:

- `LookAlong(v, up)` stands for `quatLookAt(normalize(v), up)`.
- `Slerp(p, q, a)` stands for `slerp(p, q, a)`.

So the model tracks which keyframe and which tangent each orientation comes
from, not its components.

Three behaviours of the code are worth stating up front:

- The flight clock is accumulated: each frame adds `deltaTime * flightSpeed`
  to `flightTime`, and the total is wrapped to its fractional part before
  easing (`FlyStep`).
- A one-entry table returns that entry for every time. Only an empty table
  is excluded.
- Times outside [0,1] are not rejected. The code truncates the scaled index
  toward zero and compares it, as an unsigned value, with `size - 1`. A
  slightly negative time therefore extrapolates before frame 0, and a time
  with `time * (size - 1) <= -1` returns the last frame.
  `InterpolateNegativeTime` states both.

During flight, the eased parameter is always below 1: the wrapped clock is
below 1, and the ease maps [0,1) into [0,1). So with two or more keyframes,
the last-keyframe branch of `GetInterpolatedState` is never taken while
flying (`FlightAlwaysBlends`); it is reached only through a direct call with
a time of 1 or more, or a time far enough below 0.

## Model

| member | source | states |
|---|---|---|
| `Geometry.Mix` | src/assignment1/main.cpp:155-156 | the position blend returns the first position at weight 0 and the second at weight 1 |
| `Geometry.MixBetween` | src/assignment1/main.cpp:155-156 | with a weight in [0,1] every component of the blend lies between the two ends' components |
| `Bezier.BezierPoint` | src/assignment1/main.cpp:69-74 | the curve passes through its first control point at t = 0 and its last at t = 1 |
| `Bezier.BezierPointOfCoincident` | src/assignment1/main.cpp:69-74 | the four Bernstein weights sum to one, so a curve whose control points coincide is that point for every t |
| `Bezier.BezierTangent` | src/assignment1/main.cpp:76-81 | the derivative is 3 (P1 - P0) at t = 0 and 3 (P3 - P2) at t = 1 |
| `Bezier.BezierTangentOfCoincident` | src/assignment1/main.cpp:76-81 | the derivative is the zero vector when all four control points coincide |
| `Bezier.GenerateCubic` | src/assignment1/main.cpp:83-101 | segments + 1 vertices and as many indices (none for a negative count); index i is i, vertex i is the curve at i / segments, the first vertex is P0 and the last is P3 |
| `Smoothing.Clamp01` | src/assignment1/main.cpp:134 | the clamp lands in [0,1], is the identity on [0,1], and maps inputs below to 0 and above to 1 |
| `Smoothing.QuinticComplement` | src/assignment1/main.cpp:136 | 1 minus the quintic factors as (1 - t)^3 (6t^2 + 3t + 1), for every real t |
| `Smoothing.QuinticRange` | src/assignment1/main.cpp:136 | on [0,1] the quintic t^3 (6t^2 - 15t + 10) stays within [0,1]; it is 0 only at t = 0 and 1 only at t = 1 |
| `Smoothing.QuinticIncrement` | src/assignment1/main.cpp:136 | the increase of the quintic over [x, x + 4h] is 4h/3 times a weighted sum of squares (Boole's rule, exact on its slope 30 t^2 (1 - t)^2) |
| `Smoothing.QuinticMonotone` | src/assignment1/main.cpp:136 | the quintic never decreases, over all reals |
| `Smoothing.SmootherStep` | src/assignment1/main.cpp:133-137 | total over the reals with results in [0,1]; the result is 0 exactly when the input is <= 0 and 1 exactly when it is >= 1, and 0.5 gives 0.5 |
| `Smoothing.SmootherStepMonotone` | src/assignment1/main.cpp:133-137 | the ease is a monotonic remapping: a larger input is never eased to a smaller value |
| `Smoothing.SmootherStepSymmetric` | src/assignment1/main.cpp:133-137 | easing the mirrored input 1 - x gives the mirrored output 1 - SmootherStep(x), for every real x |
| `Smoothing.Frac` | src/assignment1/main.cpp:361-362 | the wrapped clock is in [0,1), differs from the clock by a whole number, and equals it when the clock is already in [0,1) |
| `Smoothing.FracPeriodic` | src/assignment1/main.cpp:361-362 | adding a whole number to the clock leaves the wrapped value unchanged |
| `Smoothing.EasedProgress` | src/assignment1/main.cpp:361-364 | the eased parameter passed to the lookup is in [0,1), and is 0 whenever the clock is a whole number |
| `Smoothing.EasedProgressPeriodic` | src/assignment1/main.cpp:360-364 | clocks a whole number of laps apart give the same eased parameter |
| `KeyFrames.Locate` | src/assignment1/main.cpp:107-117 | after the clamp the segment is in 0..3 (so index 4 * segment + 3 is below 16) and the local parameter in [0,1]; segment + local parameter is 4 * globalT; the unclamped segment reaches 4 exactly when globalT is 1 |
| `KeyFrames.KeyFrameAt` | src/assignment1/main.cpp:105-129 | the frame of step i carries progress i / frameCount, which lies in [0,1] |
| `KeyFrames.KeyFrameTable` | src/assignment1/main.cpp:103-131 | one call adds frameCount + 1 frames, or none for a negative count |
| `KeyFrames.StepProgress` | src/assignment1/main.cpp:105-107 | progress i / frameCount lies in [0,1]; it is 1 only at the last step and 0 only at the first |
| `KeyFrames.SegmentClampOnlyAtEnd` | src/assignment1/main.cpp:108-117 | the truncated segment index reaches 4, so that the clamp fires, exactly at i == frameCount |
| `KeyFrames.TableProgressIncreasing` | src/assignment1/main.cpp:105-107 | the progress values of the added frames strictly increase with the step |
| `KeyFrames.FirstKeyFrame` | src/assignment1/main.cpp:105-129 | step 0 has progress 0, sits on control point 0 and looks along 3 (P1 - P0) |
| `KeyFrames.LastKeyFrame` | src/assignment1/main.cpp:112-129 | the last step has progress 1, sits on control point 15 and looks along 3 (P15 - P14) |
| `KeyFrames.TableEndpoints` | src/assignment1/main.cpp:103-131 | the added table runs from progress 0 on the first control point to progress 1 on the last control point of the fourth piece |
| `Flight.Trunc` | src/assignment1/main.cpp:109 | the (int) conversion is floor on non-negative values and rounds toward zero on negative ones |
| `Flight.LocateTruncated` | src/assignment1/main.cpp:108-117 | the loop's truncate-then-clamp steps compute the segment and local parameter of `Locate` |
| `KeyFrames.KeyFrameTableAt` | src/assignment1/main.cpp:105-129 | entry i of the added table is the frame of loop step i |
| `Flight.ComputeKeyFrame` | src/assignment1/main.cpp:107-129 | one loop step yields exactly entry i of `KeyFrameTable`, the frame `KeyFrameAt` specifies for step i |
| `Flight.Blend` | src/assignment1/main.cpp:152-158 | the position blend sits on the first keyframe's position at weight 0 and on the second's at weight 1; the orientation is slerped between the two with the same weight |
| `Flight.ScaledIndexBounds` | src/assignment1/main.cpp:141-142 | for a time in [0,1] the scaled index lies in 0..size-1 |
| `Flight.Interpolate` | src/assignment1/main.cpp:139-159 | for a time in [0,1] either the index is the last one and the last frame comes back verbatim, or idx and idx + 1 are both in the table and the pair is blended with a weight in [0,1) |
| `Flight.InterpolateAtEnd` | src/assignment1/main.cpp:145-150 | at time 1 and beyond, the last frame is returned without extrapolation |
| `Flight.InterpolateAtStart` | src/assignment1/main.cpp:139-159 | at time 0 the position is frame 0's, and the orientation is frame 0's slerped towards frame 1 by weight 0 (frame 0's own for a one-entry table) |
| `Flight.InterpolateBetween` | src/assignment1/main.cpp:152-156 | for a time in [0,1] every component of the position lies between those of keyframes idx and idx + 1 |
| `Flight.InterpolateOnIndex` | src/assignment1/main.cpp:139-159 | a time that scales to exactly index k returns keyframe k's position, and its orientation (slerped towards k + 1 by weight 0 before the last) |
| `Flight.InterpolateAtKeyFrame` | src/assignment1/main.cpp:139-159 | the lookup passes through every keyframe at time k / (size - 1), and the blend arriving from keyframe k - 1 reaches the same position at weight 1, so the position does not jump at a keyframe boundary |
| `Flight.FlightAlwaysBlends` | src/assignment1/main.cpp:360-367 | with two or more keyframes, the pose at any clock is a blend of keyframes idx and idx + 1 with idx below the last index: the last-keyframe branch is never taken in flight |
| `Flight.InterpolateNegativeTime` | src/assignment1/main.cpp:141-150 | a time just below 0 extrapolates before frame 0 with a negative weight; once time * (size - 1) <= -1 the unsigned comparison returns the last frame |
| `Flight.EasedPoseRepeatsEachLap` | src/assignment1/main.cpp:360-367 | clocks a whole number of laps apart yield the same pose |
| `Flight.FlightStartsOnFirstControlPoint` | src/assignment1/main.cpp:360-367 | over a freshly built table, a clock at 0 puts the aeroplane on control point 0, turning from an orientation along 3 (P1 - P0) |
| `Flight.FlightState.constructor` | src/assignment1/main.cpp:33-67 | start-up state: empty table, not flying, clock 0, speed 0.1, at the origin, identity orientation |
| `Flight.FlightState.AppendKeyFrame` | src/assignment1/main.cpp:103-131 | the table becomes the old table followed by `KeyFrameTable(keyPoints, frameCount)`, so the frames already present are unchanged |
| `Flight.FlightState.GetInterpolatedState` | src/assignment1/main.cpp:139-159 | the returned position and orientation are the pose `Interpolate` gives the current table at that time |
| `Flight.FlightState.FlyStep` | src/assignment1/main.cpp:356-369 | while flying, the clock grows by exactly deltaTime * flightSpeed and the aeroplane takes the pose at the eased, wrapped clock; otherwise nothing changes |
| `PathPoints.ControlPoints` | src/assignment1/main.cpp:220-246 | sixteen points; each piece starts where the previous one ends (3 = 4, 7 = 8, 11 = 12) and the loop closes (15 = 0) |
| `PathPoints.TangentContinuousAtJoints` | src/assignment1/main.cpp:225-246 | at every joint, the closing seam included, the outgoing and incoming tangents are equal, for any length and width |
| `PathPoints.BernsteinDerivativePositive` | src/assignment1/main.cpp:76-81 | the derivative's Bernstein combination 3 e^2 a + 6 e t b + 3 t^2 c is positive for positive weights when a, c >= 0 and b > 0 |
| `PathPoints.FlatPieceTangent` | src/assignment1/main.cpp:76-81 | a piece in the y = 0 plane has a horizontal tangent at every t |
| `PathPoints.InteriorTangentX` | src/assignment1/main.cpp:76-81 | strictly inside (0,1), a control polygon advancing steadily in one x direction gives a tangent with a non-zero x component |
| `PathPoints.MonotonePieceTangent` | src/assignment1/main.cpp:76-81 | a flat piece whose control polygon moves steadily in x, with non-degenerate end legs, has a horizontal non-zero tangent on [0,1] |
| `PathPoints.PathTangentUsable` | src/assignment1/main.cpp:225-246 | on the program's loop every tangent on [0,1] is horizontal and non-zero |
| `PathPoints.PathKeyFramesNonDegenerate` | src/assignment1/main.cpp:119-127 | every keyframe over the program's loop looks along a horizontal, non-zero tangent with up (0,1,0), so the orientation is never built from a zero or vertical direction |
| `PathPoints.FlightStartsAtOrigin` | src/assignment1/main.cpp:225-257 | with the 800-step table over the program's loop, a clock at 0 puts the aeroplane at the origin, turning from an orientation along (0, 0, 60) |

## Left out

- Window and context creation, the render loop's clear and swap, and shutdown in `main` are GLFW/GLAD I/O (src/assignment1/main.cpp:164-219, 258-268, 393-405).
- The ImGui panel is not modelled: the Euler sliders, the quaternion buttons and their slerp towards `targetQuat`, and the Start/Stop handlers that reset the camera and set `isFlying`. It is UI code over an external library (src/assignment1/main.cpp:270-351). `FlyStep` takes `isFlying` as it finds it.
- Building the model matrix and the `Renderer::Submit` calls are foreign math and rendering (src/assignment1/main.cpp:354-358, 370-392).
- The loop in `main` that calls `GenerateCubic` once per piece and wraps the four meshes in a `Model` is left out. It is part of start-up plumbing; the sampling itself is `GenerateCubic`.
- `glm::normalize`, `glm::quatLookAt` and `glm::slerp` are library internals. They are kept symbolic (`LookAlong`, `Slerp`), so no property of the quaternions themselves is claimed.
- The unguarded zero or vertical tangent is not modelled. What the model states is that the program's own control points never produce one (`PathKeyFramesNonDegenerate`).
- IEEE float rounding is not modelled. All quantities are exact reals, so claims such as "the last frame sits exactly on control point 15" hold in the model, not necessarily in single precision.
- Integer widths are not modelled. The (int) conversion of a scaled time outside the range of `int` is undefined in C++, and the model's unbounded integers do not capture it. The unsigned `indices` of a mesh are unbounded naturals.
- `GenerateCubic` with `segments == 0` divides 0 by 0 and produces one NaN vertex. The model requires `segments != 0`.
- `appendKeyFrame` with `frameCount == 0` converts a NaN to `int`, which is undefined behaviour. The model requires `frameCount != 0`.
- The resource-path helpers `Path` and `RE` are filesystem plumbing (src/assignment1/main.cpp:42-51).
- The `Mesh` class (src/utils/Mesh.h) is a GPU wrapper; only its vertex and index lists are modelled, as `LineStrip`.
