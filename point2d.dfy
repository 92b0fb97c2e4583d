/** `Point2D`: a homogeneous 2D coordinate that carries its own colour, and the
    transform pipeline that every primitive forwards to its points.  Floats are
    modelled as reals; sine and cosine are left uninterpreted (a `Trig` value
    supplies them). */
module Points {
  import opened Raster

  /** The value of a point: what a shape owns and copies. */
  datatype Pt = Pt(x: real, y: real, z: real, color: Color)

  /** `std::f64::consts::PI` as a decimal constant. */
  const PI: real := 3.141592653589793

  /** The sine and cosine the rotation uses, uninterpreted. */
  datatype Trig = Trig(sin: real -> real, cos: real -> real)

  // ---------------------------------------------------------------------------
  // Constructors.

  /** `Point2D::new_color(x, y, z, color)`. */
  function NewColor(x: real, y: real, z: real, color: Color): (p: Pt)
    ensures p.x == x && p.y == y && p.z == z && p.color == color
  {
    Pt(x, y, z, color)
  }

  /** `Point2D::new(x, y, z)`: a white point. */
  function New(x: real, y: real, z: real): (p: Pt)
    ensures p.x == x && p.y == y && p.z == z && p.color == White()
  {
    NewColor(x, y, z, White())
  }

  /** `Point2D::new_homogenized(x, y)`: a white point with `z == 1`. */
  function NewHomogenized(x: real, y: real): (p: Pt)
    ensures p.x == x && p.y == y && p.z == 1.0 && p.color == White()
    ensures Homogenized(p) == p
  {
    NewColor(x, y, 1.0, White())
  }

  /** `Point2D::new_color_homogenized(x, y, color)`. */
  function NewColorHomogenized(x: real, y: real, color: Color): (p: Pt)
    ensures p.x == x && p.y == y && p.z == 1.0 && p.color == color
    ensures Homogenized(p) == p
  {
    NewColor(x, y, 1.0, color)
  }

  // ---------------------------------------------------------------------------
  // The transforms, as functions of the point's value.

  /** `homogenize`: divide `x` and `y` by `z` and set `z` to one. */
  function Homogenized(p: Pt): Pt
    requires p.z != 0.0
  {
    p.(x := p.x / p.z, y := p.y / p.z, z := 1.0)
  }

  /** `transform(tx, ty)`: translation. */
  function Translated(p: Pt, tx: real, ty: real): Pt
  {
    p.(x := p.x + tx, y := p.y + ty)
  }

  /** `scale(sx, sy)`: scaling about the origin. */
  function Scaled(p: Pt, sx: real, sy: real): Pt
  {
    p.(x := p.x * sx, y := p.y * sy)
  }

  /** The angle in radians, `angle * PI / 180`. */
  function Radians(angle: real): real
  {
    angle * PI / 180.0
  }

  /** `rotate(angle)` as the source computes it: the new `y` is computed from
      the already rotated `x`, not from the original one. */
  function Rotated(p: Pt, angle: real, trig: Trig): Pt
  {
    var a := Radians(angle);
    var x := p.x * trig.cos(a) - p.y * trig.sin(a);
    p.(x := x, y := x * trig.sin(a) + p.y * trig.cos(a))
  }

  /** `rotate_from_point(angle, pivot)`: translate by minus the pivot, rotate,
      translate back. */
  function RotatedFromPoint(p: Pt, angle: real, pivot: Pt, trig: Trig): Pt
  {
    Translated(Rotated(Translated(p, -pivot.x, -pivot.y), angle, trig), pivot.x, pivot.y)
  }

  /** `scale_from_point(sx, sy, pivot)`: translate by minus the pivot, scale,
      translate back. */
  function ScaledFromPoint(p: Pt, sx: real, sy: real, pivot: Pt): Pt
  {
    Translated(Scaled(Translated(p, -pivot.x, -pivot.y), sx, sy), pivot.x, pivot.y)
  }

  /** The one `set_pixel` call of `draw` and `draw_outline`. */
  function PixelOf(p: Pt): Write
  {
    Write(Trunc(p.x), Trunc(p.y), p.color)
  }

  // ---------------------------------------------------------------------------
  // Properties of the transforms.

  /** Homogenising gives `z == 1`, keeps the colour, and describes the same
      Euclidean point: the new coordinates times the old `z` are the old ones. */
  lemma HomogenizedMeaning(p: Pt)
    requires p.z != 0.0
    ensures Homogenized(p).z == 1.0 && Homogenized(p).color == p.color
    ensures Homogenized(p).x * p.z == p.x && Homogenized(p).y * p.z == p.y
  {
  }

  /** Homogenising is idempotent. */
  lemma HomogenizeIdempotent(p: Pt)
    requires p.z != 0.0
    ensures Homogenized(Homogenized(p)) == Homogenized(p)
  {
  }

  /** The point `(10, 6, 2)` homogenises to `(5, 3, 1)`. */
  lemma HomogenizeExample(c: Color)
    ensures Homogenized(Pt(10.0, 6.0, 2.0, c)) == Pt(5.0, 3.0, 1.0, c)
  {
  }

  /** Translating by `(tx, ty)` and then by `(-tx, -ty)` restores the point;
      translation never touches `z` or the colour. */
  lemma TranslateInverse(p: Pt, tx: real, ty: real)
    ensures Translated(Translated(p, tx, ty), -tx, -ty) == p
    ensures Translated(p, tx, ty).z == p.z && Translated(p, tx, ty).color == p.color
  {
  }

  /** Scaling about a pivot moves each coordinate to the pivot's plus the
      scaled distance from it; the pivot itself stays put. */
  lemma ScaledFromPointClosedForm(p: Pt, sx: real, sy: real, pivot: Pt)
    ensures ScaledFromPoint(p, sx, sy, pivot).x == pivot.x + sx * (p.x - pivot.x)
    ensures ScaledFromPoint(p, sx, sy, pivot).y == pivot.y + sy * (p.y - pivot.y)
    ensures ScaledFromPoint(p, sx, sy, pivot).z == p.z
    ensures ScaledFromPoint(p, sx, sy, pivot).color == p.color
    ensures p.x == pivot.x && p.y == pivot.y ==> ScaledFromPoint(p, sx, sy, pivot) == p
  {
  }

  /** Rotating about a pivot leaves a point lying on the pivot where it is. */
  lemma RotateFromPointFixesPivot(p: Pt, angle: real, pivot: Pt, trig: Trig)
    requires p.x == pivot.x && p.y == pivot.y
    ensures RotatedFromPoint(p, angle, pivot, trig) == p
  {
    assert Translated(p, -pivot.x, -pivot.y).x == 0.0;
    assert Translated(p, -pivot.x, -pivot.y).y == 0.0;
  }

  /** Rotation changes only `x` and `y`; where the angle's cosine is one and
      its sine zero, it is the identity. */
  lemma RotateIdentity(p: Pt, angle: real, trig: Trig)
    ensures Rotated(p, angle, trig).z == p.z && Rotated(p, angle, trig).color == p.color
    ensures trig.cos(Radians(angle)) == 1.0 && trig.sin(Radians(angle)) == 0.0 ==> Rotated(p, angle, trig) == p
  {
  }

  /** Because `y` is computed from the rotated `x`, a quarter turn (cosine
      zero, sine one) sends `(1, 0)` to the origin instead of to `(0, 1)`:
      the point's distance from the origin drops from one to zero. */
  lemma RotateQuarterTurn(angle: real, trig: Trig, c: Color)
    requires trig.cos(Radians(angle)) == 0.0 && trig.sin(Radians(angle)) == 1.0
    ensures Rotated(Pt(1.0, 0.0, 1.0, c), angle, trig) == Pt(0.0, 0.0, 1.0, c)
  {
  }

  /** The rotation `rotate` evidently intends: both new coordinates are
      computed from the original ones. */
  function RotatedIntended(p: Pt, angle: real, trig: Trig): Pt
  {
    var a := Radians(angle);
    p.(x := p.x * trig.cos(a) - p.y * trig.sin(a), y := p.x * trig.sin(a) + p.y * trig.cos(a))
  }

  /** Where the sine and cosine of the angle satisfy `sin² + cos² == 1`, the
      intended rotation keeps the distance from the origin, and a quarter turn
      sends `(1, 0)` to `(0, 1)`. */
  lemma RotatedIntendedKeepsLength(p: Pt, angle: real, trig: Trig)
    requires trig.sin(Radians(angle)) * trig.sin(Radians(angle)) + trig.cos(Radians(angle)) * trig.cos(Radians(angle)) == 1.0
    ensures RotatedIntended(p, angle, trig).x * RotatedIntended(p, angle, trig).x
          + RotatedIntended(p, angle, trig).y * RotatedIntended(p, angle, trig).y
         == p.x * p.x + p.y * p.y
    ensures RotatedIntended(p, angle, trig).z == p.z && RotatedIntended(p, angle, trig).color == p.color
    ensures trig.cos(Radians(angle)) == 0.0 && trig.sin(Radians(angle)) == 1.0 && p.x == 1.0 && p.y == 0.0
            ==> RotatedIntended(p, angle, trig).x == 0.0 && RotatedIntended(p, angle, trig).y == 1.0
  {
    var s, c := trig.sin(Radians(angle)), trig.cos(Radians(angle));
    var q := RotatedIntended(p, angle, trig);
    var x, y := p.x, p.y;
    calc {
      q.x * q.x + q.y * q.y;
      (x * c - y * s) * (x * c - y * s) + (x * s + y * c) * (x * s + y * c);
      x * x * (c * c + s * s) + y * y * (s * s + c * c);
      x * x + y * y;
    }
  }

  // ---------------------------------------------------------------------------
  // A free-standing point, updated in place.

  class Point2D {
    var x: real
    var y: real
    var z: real
    var color: Color

    function Value(): Pt
      reads this
    {
      Pt(x, y, z, color)
    }

    /** Holds the given point value. */
    constructor (p: Pt)
      ensures Value() == p
    {
      x, y, z, color := p.x, p.y, p.z, p.color;
    }

    /** `get_color`. */
    function GetColor(): (c: Color)
      reads this
      ensures c == Value().color
    {
      color
    }

    method Homogenize()
      requires z != 0.0
      modifies this
      ensures Value() == Homogenized(old(Value()))
    {
      x := x / z;
      y := y / z;
      z := 1.0;
    }

    method Transform(tx: real, ty: real)
      modifies this
      ensures Value() == Translated(old(Value()), tx, ty)
    {
      x := x + tx;
      y := y + ty;
    }

    method Scale(sx: real, sy: real)
      modifies this
      ensures Value() == Scaled(old(Value()), sx, sy)
    {
      x := x * sx;
      y := y * sy;
    }

    method Rotate(angle: real, trig: Trig)
      modifies this
      ensures Value() == Rotated(old(Value()), angle, trig)
    {
      var a := angle * PI / 180.0;
      x := x * trig.cos(a) - y * trig.sin(a);
      y := x * trig.sin(a) + y * trig.cos(a);
    }

    /** The pivot is a different point (it is borrowed while this one is
        borrowed mutably) and is left unchanged. */
    method RotateFromPoint(angle: real, p: Point2D, trig: Trig)
      requires p != this
      modifies this
      ensures Value() == RotatedFromPoint(old(Value()), angle, p.Value(), trig)
      ensures unchanged(p)
    {
      Transform(-p.x, -p.y);
      Rotate(angle, trig);
      Transform(p.x, p.y);
    }

    method ScaleFromPoint(sx: real, sy: real, p: Point2D)
      requires p != this
      modifies this
      ensures Value() == ScaledFromPoint(old(Value()), sx, sy, p.Value())
      ensures unchanged(p)
    {
      Transform(-p.x, -p.y);
      Scale(sx, sy);
      Transform(p.x, p.y);
    }

    /** One pixel at the truncated coordinates, in the point's colour. */
    method Draw(canvas: Image)
      modifies canvas
      ensures canvas.writes == old(canvas.writes) + [Write(Trunc(x), Trunc(y), color)]
    {
      canvas.SetPixel(Trunc(x), Trunc(y), color);
    }

    method DrawOutline(canvas: Image)
      modifies canvas
      ensures canvas.writes == old(canvas.writes) + [Write(Trunc(x), Trunc(y), color)]
    {
      canvas.SetPixel(Trunc(x), Trunc(y), color);
    }
  }
}
