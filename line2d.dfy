/** `Line2D`: a segment between two points it owns.  Every transform is
    forwarded to both endpoints, and both ways of drawing it hand the two
    endpoints to the anti-aliased line rasteriser. */
module Lines {
  import opened Raster
  import opened Points
  import opened Geometric

  class Line2D {
    var from: Pt
    var to: Pt

    /** `Line2D::new(from, to)`. */
    constructor New(from: Pt, to: Pt)
      ensures this.from == from && this.to == to
    {
      this.from := from;
      this.to := to;
    }

    method Homogenize()
      requires from.z != 0.0 && to.z != 0.0
      modifies this
      ensures from == Homogenized(old(from)) && to == Homogenized(old(to))
    {
      from := Homogenized(from);
      to := Homogenized(to);
    }

    method Transform(tx: real, ty: real)
      modifies this
      ensures from == Translated(old(from), tx, ty) && to == Translated(old(to), tx, ty)
    {
      from := Translated(from, tx, ty);
      to := Translated(to, tx, ty);
    }

    method Scale(sx: real, sy: real)
      modifies this
      ensures from == Scaled(old(from), sx, sy) && to == Scaled(old(to), sx, sy)
    {
      from := Scaled(from, sx, sy);
      to := Scaled(to, sx, sy);
    }

    method Rotate(angle: real, trig: Trig)
      modifies this
      ensures from == Rotated(old(from), angle, trig) && to == Rotated(old(to), angle, trig)
    {
      from := Rotated(from, angle, trig);
      to := Rotated(to, angle, trig);
    }

    /** Both endpoints turn about the same pivot, which is left as it was. */
    method RotateFromPoint(angle: real, p: Point2D, trig: Trig)
      modifies this
      ensures from == RotatedFromPoint(old(from), angle, p.Value(), trig)
      ensures to == RotatedFromPoint(old(to), angle, p.Value(), trig)
      ensures unchanged(p)
    {
      from := RotatedFromPoint(from, angle, p.Value(), trig);
      to := RotatedFromPoint(to, angle, p.Value(), trig);
    }

    /** Both endpoints scale about the same pivot, which is left as it was. */
    method ScaleFromPoint(sx: real, sy: real, p: Point2D)
      modifies this
      ensures from == ScaledFromPoint(old(from), sx, sy, p.Value())
      ensures to == ScaledFromPoint(old(to), sx, sy, p.Value())
      ensures unchanged(p)
    {
      from := ScaledFromPoint(from, sx, sy, p.Value());
      to := ScaledFromPoint(to, sx, sy, p.Value());
    }

    /** The anti-aliased line from `from` to `to`. */
    method Draw(canvas: Image, lr: LineRaster)
      modifies canvas
      ensures canvas.writes == old(canvas.writes) + lr.antiAliased(from, to)
    {
      DrawLineAA(from, to, canvas, lr);
    }

    /** The same anti-aliased line as `Draw`. */
    method DrawOutline(canvas: Image, lr: LineRaster)
      modifies canvas
      ensures canvas.writes == old(canvas.writes) + lr.antiAliased(from, to)
    {
      DrawLineAA(from, to, canvas, lr);
    }
  }
}
