/** Cubic Bezier evaluation and the sampling of one curve piece into a line strip. */
module Bezier {
  import opened Geometry

  /** The position B(t) of the cubic with control points start, p1, p2, end:
      (1-t)^3 start + 3(1-t)^2 t p1 + 3(1-t) t^2 p2 + t^3 end.
      No clamping: a t outside [0,1] extrapolates. */
  function BezierPoint(t: real, start: Vec3, p1: Vec3, p2: Vec3, end: Vec3): (r: Vec3)
    ensures t == 0.0 ==> r == start
    ensures t == 1.0 ==> r == end
  {
    var el := 1.0 - t;
    Add(Add(Add(Scale(el * el * el, start), Scale(3.0 * el * el * t, p1)),
            Scale(3.0 * el * t * t, p2)),
        Scale(t * t * t, end))
  }

  /** The first derivative B'(t):
      3(1-t)^2 (p1 - start) + 6(1-t) t (p2 - p1) + 3 t^2 (end - p2).
      Not normalised. */
  function BezierTangent(t: real, start: Vec3, p1: Vec3, p2: Vec3, end: Vec3): (r: Vec3)
    ensures t == 0.0 ==> r == Scale(3.0, Sub(p1, start))
    ensures t == 1.0 ==> r == Scale(3.0, Sub(end, p2))
  {
    var el := 1.0 - t;
    Add(Add(Scale(3.0 * el * el, Sub(p1, start)), Scale(6.0 * el * t, Sub(p2, p1))),
        Scale(3.0 * t * t, Sub(end, p2)))
  }

  /** A curve whose four control points coincide has the zero vector as tangent. */
  lemma BezierTangentOfCoincident(t: real, p: Vec3)
    ensures BezierTangent(t, p, p, p, p) == Zero
  {
  }

  /** The Bernstein weights sum to one: (1-t)^3 + 3(1-t)^2 t + 3(1-t) t^2 + t^3 == 1. */
  lemma BernsteinPartitionOfUnity(t: real)
    ensures var el := 1.0 - t;
      el * el * el + 3.0 * el * el * t + 3.0 * el * t * t + t * t * t == 1.0
  {
  }

  /** A curve whose four control points coincide is that single point, at every t. */
  lemma BezierPointOfCoincident(t: real, p: Vec3)
    ensures BezierPoint(t, p, p, p, p) == p
  {
    BernsteinPartitionOfUnity(t);
  }

  /** The vertex and index lists of a line-strip mesh; the GPU buffers, textures
      and draw mode of the program's Mesh are not modelled. */
  datatype LineStrip = LineStrip(vertices: seq<Vec3>, indices: seq<nat>)

  /** Samples one cubic piece at segments + 1 evenly spaced parameters
      t = i / segments, i = 0..segments, and numbers the vertices 0..segments.
      A negative segment count runs the loop zero times. */
  method GenerateCubic(p0: Vec3, p1: Vec3, p2: Vec3, p3: Vec3, segments: int) returns (strip: LineStrip)
    requires segments != 0
    ensures |strip.vertices| == |strip.indices| == (if segments < 0 then 0 else segments + 1)
    ensures forall i :: 0 <= i < |strip.indices| ==> strip.indices[i] == i
    ensures forall i :: 0 <= i < |strip.vertices| ==>
      strip.vertices[i] == BezierPoint(i as real / segments as real, p0, p1, p2, p3)
    ensures segments > 0 ==> strip.vertices[0] == p0 && strip.vertices[segments] == p3
  {
    var vertices: seq<Vec3> := [];
    var indices: seq<nat> := [];
    var i := 0;
    while i <= segments
      invariant 0 <= i && (segments >= 0 ==> i <= segments + 1) && (segments < 0 ==> i == 0)
      invariant |vertices| == |indices| == i
      invariant forall k :: 0 <= k < i ==> indices[k] == k
      invariant forall k :: 0 <= k < i ==>
        vertices[k] == BezierPoint(k as real / segments as real, p0, p1, p2, p3)
    {
      var t := i as real / segments as real;
      var pos := BezierPoint(t, p0, p1, p2, p3);
      vertices := vertices + [pos];
      indices := indices + [i];
      i := i + 1;
    }
    strip := LineStrip(vertices, indices);
    if segments > 0 {
      assert 0 as real / segments as real == 0.0;
      assert segments as real / segments as real == 1.0;
    }
  }
}
