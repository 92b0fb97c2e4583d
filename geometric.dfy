/** The shared helpers of the geometric package: linear and barycentric
    interpolation, and the line rasterisers the primitives delegate to. */
module Geometric {
  import opened Raster
  import opened Points

  /** `interpolate(a, b, t)`: `a` weighted by `1 - t` plus `b` weighted by `t`. */
  function Interpolate(a: real, b: real, t: real): real
  {
    a * (1.0 - t) + b * t
  }

  /** `interpolate_barycentric(a, b, c, alpha, beta, gamma)`. */
  function InterpolateBarycentric(a: real, b: real, c: real, alpha: real, beta: real, gamma: real): real
  {
    a * alpha + b * beta + c * gamma
  }

  /** `draw_line` and `draw_line_aa` are re-exported by the package but their
      bodies are not part of this model: each is the list of `set_pixel` calls
      it makes for a pair of end points. */
  datatype LineRaster = LineRaster(solid: (Pt, Pt) -> seq<Write>, antiAliased: (Pt, Pt) -> seq<Write>)

  /** Appends the writes of `draw_line(from, to, canvas)`. */
  method DrawLine(from: Pt, to: Pt, canvas: Image, lr: LineRaster)
    modifies canvas
    ensures canvas.writes == old(canvas.writes) + lr.solid(from, to)
  {
    canvas.writes := canvas.writes + lr.solid(from, to);
  }

  /** Appends the writes of `draw_line_aa(from, to, canvas)`. */
  method DrawLineAA(from: Pt, to: Pt, canvas: Image, lr: LineRaster)
    modifies canvas
    ensures canvas.writes == old(canvas.writes) + lr.antiAliased(from, to)
  {
    canvas.writes := canvas.writes + lr.antiAliased(from, to);
  }

  /** The interpolation reaches `a` at `t = 0` and `b` at `t = 1`, and the
      documented example gives 7.5. */
  lemma InterpolateEnds(a: real, b: real)
    ensures Interpolate(a, b, 0.0) == a && Interpolate(a, b, 1.0) == b
    ensures Interpolate(0.0, 10.0, 0.75) == 7.5
  {
  }

  /** For `t` in `[0, 1]` the interpolated value lies between `a` and `b`. */
  lemma InterpolateBetween(a: real, b: real, t: real)
    requires 0.0 <= t <= 1.0
    ensures Min(a, b) <= Interpolate(a, b, t) <= Max(a, b)
  {
    var d := b - a;
    assert Interpolate(a, b, t) == a + t * d;
    if a <= b {
      MulBounds(t, d);
    } else {
      MulBounds(t, -d);
      assert t * -d == -(t * d);
    }
  }

  lemma MulBounds(t: real, d: real)
    requires 0.0 <= t <= 1.0 && 0.0 <= d
    ensures 0.0 <= t * d <= d
  {
    assert (1.0 - t) * d >= 0.0;
  }

  /** The documented example: weights 0.25, 0.25, 0.5 on 0, 10, 20 give 12.5. */
  lemma BarycentricExample()
    ensures InterpolateBarycentric(0.0, 10.0, 20.0, 0.25, 0.25, 0.5) == 12.5
  {
  }

  /** With weights summing to one, three equal values interpolate to that value. */
  lemma BarycentricUniform(v: real, alpha: real, beta: real, gamma: real)
    requires alpha + beta + gamma == 1.0
    ensures InterpolateBarycentric(v, v, v, alpha, beta, gamma) == v
  {
    assert v * alpha + v * beta + v * gamma == v * (alpha + beta + gamma);
  }

  /** With non-negative weights summing to one, the result lies between the
      smallest and the largest of the three values. */
  lemma BarycentricBetween(a: real, b: real, c: real, alpha: real, beta: real, gamma: real)
    requires 0.0 <= alpha && 0.0 <= beta && 0.0 <= gamma && alpha + beta + gamma == 1.0
    ensures Min(a, Min(b, c)) <= InterpolateBarycentric(a, b, c, alpha, beta, gamma) <= Max(a, Max(b, c))
  {
    var lo, hi := Min(a, Min(b, c)), Max(a, Max(b, c));
    WeightedMono(lo, lo, lo, a, b, c, alpha, beta, gamma);
    WeightedMono(a, b, c, hi, hi, hi, alpha, beta, gamma);
    assert lo * alpha + lo * beta + lo * gamma == lo * (alpha + beta + gamma) == lo;
    assert hi * alpha + hi * beta + hi * gamma == hi * (alpha + beta + gamma) == hi;
  }

  /** Non-negative weights preserve a pointwise order of three values. */
  lemma WeightedMono(u1: real, u2: real, u3: real, v1: real, v2: real, v3: real, alpha: real, beta: real, gamma: real)
    requires u1 <= v1 && u2 <= v2 && u3 <= v3 && 0.0 <= alpha && 0.0 <= beta && 0.0 <= gamma
    ensures u1 * alpha + u2 * beta + u3 * gamma <= v1 * alpha + v2 * beta + v3 * gamma
  {
    MulMono(u1, v1, alpha);
    MulMono(u2, v2, beta);
    MulMono(u3, v3, gamma);
  }

  lemma MulMono(u: real, v: real, w: real)
    requires u <= v && 0.0 <= w
    ensures u * w <= v * w
  {
    assert (v - u) * w >= 0.0;
  }

  function Min(a: real, b: real): real { if a <= b then a else b }

  function Max(a: real, b: real): real { if a <= b then b else a }
}
