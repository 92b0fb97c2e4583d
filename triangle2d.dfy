/** `Triangle2D`: three vertex points.  `draw` is a half-plane fill of the
    vertices' bounding box with barycentric colour interpolation, over ideal
    (real) arithmetic:
    - the signed doubled area `(c.x-a.x)(b.y-a.y) - (b.x-a.x)(c.y-a.y)` decides
      degeneracy (`|area| < 1e-10` draws nothing) and winding (a negative area
      swaps the positions of `b` and `c`, but not their colours);
    - edge `i` is the line through the two corners other than corner `i`, and a
      pixel is inside when all three edge values are at most zero;
    - each weight is the edge value at the pixel divided by its value at the
      opposite corner.
    The fill is specified by `TriangleWrites`, a column-major scan of the box. */
module Triangles {
  import opened Raster
  import opened Points
  import opened Geometric

  // ===========================================================================
  // Geometry of the fill.

  function RAbs(v: real): real { if v < 0.0 then -v else v }

  /** The signed doubled area of corners `(x1,y1)`, `(x2,y2)`, `(x3,y3)`, in the
      form `draw` computes it. */
  function Area2(x1: real, y1: real, x2: real, y2: real, x3: real, y3: real): real
  {
    (x3 - x1) * (y2 - y1) - (x2 - x1) * (y3 - y1)
  }

  function SignedArea(a: Pt, b: Pt, c: Pt): real
  {
    Area2(a.x, a.y, b.x, b.y, c.x, c.y)
  }

  /** `draw`'s early exit: `|area| < 1e-10`. */
  predicate Degenerate(a: Pt, b: Pt, c: Pt)
  {
    RAbs(SignedArea(a, b, c)) < 0.0000000001
  }

  /** A half-plane equation `a x + b y + c`. */
  datatype Edge = Edge(a: real, b: real, c: real)

  /** The edge through `(x, y)` and `(x', y')`: `a = y - y'`, `b = x' - x`,
      `c = -(a x + b y)`. */
  function EdgeThrough(x: real, y: real, x': real, y': real): Edge
  {
    var a := y - y';
    var b := x' - x;
    Edge(a, b, -(a * x + b * y))
  }

  /** The edge through two points vanishes at both. */
  lemma EdgeEnds(x: real, y: real, x': real, y': real)
    ensures Eval(EdgeThrough(x, y, x', y'), x, y) == 0.0 && Eval(EdgeThrough(x, y, x', y'), x', y') == 0.0
  {
  }

  function Eval(e: Edge, x: real, y: real): real
  {
    e.a * x + e.b * y + e.c
  }

  /** The corner positions after the winding fix. */
  datatype Corners = Corners(x1: real, y1: real, x2: real, y2: real, x3: real, y3: real)

  /** `a`, then `b` and `c`, the latter two swapped when the signed area is
      negative.  Afterwards the corners' own signed area is `|area|`. */
  function CornersOf(a: Pt, b: Pt, c: Pt): Corners
  {
    if SignedArea(a, b, c) < 0.0 then Corners(a.x, a.y, c.x, c.y, b.x, b.y)
    else Corners(a.x, a.y, b.x, b.y, c.x, c.y)
  }

  /** After the winding fix the corners' own signed area is `|area|`. */
  lemma CornersArea(a: Pt, b: Pt, c: Pt)
    ensures var k := CornersOf(a, b, c); Area2(k.x1, k.y1, k.x2, k.y2, k.x3, k.y3) == RAbs(SignedArea(a, b, c))
  {
    SwapNegates(a.x, a.y, b.x, b.y, c.x, c.y);
  }

  /** Exchanging the last two corners negates the signed area. */
  lemma SwapNegates(x1: real, y1: real, x2: real, y2: real, x3: real, y3: real)
    ensures Area2(x1, y1, x3, y3, x2, y2) == -Area2(x1, y1, x2, y2, x3, y3)
  {
  }

  /** Each edge, evaluated at the corner it does not pass through, gives minus
      the corners' signed area. */
  lemma OppositeValues(k: Corners)
    ensures Eval(EdgeThrough(k.x2, k.y2, k.x3, k.y3), k.x1, k.y1) == -Area2(k.x1, k.y1, k.x2, k.y2, k.x3, k.y3)
    ensures Eval(EdgeThrough(k.x3, k.y3, k.x1, k.y1), k.x2, k.y2) == -Area2(k.x1, k.y1, k.x2, k.y2, k.x3, k.y3)
    ensures Eval(EdgeThrough(k.x1, k.y1, k.x2, k.y2), k.x3, k.y3) == -Area2(k.x1, k.y1, k.x2, k.y2, k.x3, k.y3)
  {
    var Corners(x1, y1, x2, y2, x3, y3) := k;
    assert Area2(x1, y1, x2, y2, x3, y3) == x3 * y2 - x3 * y1 - x1 * y2 - x2 * y3 + x2 * y1 + x1 * y3;
    assert Eval(EdgeThrough(x2, y2, x3, y3), x1, y1) == (y2 - y3) * x1 + (x3 - x2) * y1 - ((y2 - y3) * x2 + (x3 - x2) * y2);
  }

  /** A non-zero value times its reciprocal is one. */
  lemma MulRecip(v: real)
    requires v != 0.0
    ensures v * (1.0 / v) == 1.0
  {
  }

  /** Everything the scan needs: the three edges, the reciprocals `prp_*` of
      their values at the opposite corners, the vertex colours, and the box. */
  datatype Fill = Fill(e1: Edge, e2: Edge, e3: Edge, p1: real, p2: real, p3: real,
                       ca: Color, cb: Color, cc: Color)

  /** The fill for corners `k` with colours `ca`, `cb`, `cc` (which corner gets
      which colour is the caller's choice). */
  function FillFor(k: Corners, ca: Color, cb: Color, cc: Color): Fill
    requires Area2(k.x1, k.y1, k.x2, k.y2, k.x3, k.y3) != 0.0
  {
    OppositeValues(k);
    var e1 := EdgeThrough(k.x2, k.y2, k.x3, k.y3);
    var e2 := EdgeThrough(k.x3, k.y3, k.x1, k.y1);
    var e3 := EdgeThrough(k.x1, k.y1, k.x2, k.y2);
    Fill(e1, e2, e3, 1.0 / Eval(e1, k.x1, k.y1), 1.0 / Eval(e2, k.x2, k.y2), 1.0 / Eval(e3, k.x3, k.y3), ca, cb, cc)
  }

  /** The fill `draw` sets up: corners after the winding fix, colours read from
      `a`, `b`, `c` in their original order. */
  function FillOf(a: Pt, b: Pt, c: Pt): Fill
    requires !Degenerate(a, b, c)
  {
    CornersArea(a, b, c);
    FillFor(CornersOf(a, b, c), a.color, b.color, c.color)
  }

  /** The half-open box `[x_min, x_max) x [y_min, y_max)` of the truncated
      coordinate minima and maxima. */
  datatype Box = Box(xMin: int, xMax: int, yMin: int, yMax: int)

  function BoxOf(k: Corners): Box
  {
    Box(Trunc(Min(k.x1, Min(k.x2, k.x3))), Trunc(Max(k.x1, Max(k.x2, k.x3))),
        Trunc(Min(k.y1, Min(k.y2, k.y3))), Trunc(Max(k.y1, Max(k.y2, k.y3))))
  }

  // ===========================================================================
  // The scan.

  predicate Inside(f: Fill, x: real, y: real)
  {
    Eval(f.e1, x, y) <= 0.0 && Eval(f.e2, x, y) <= 0.0 && Eval(f.e3, x, y) <= 0.0
  }

  /** `(alpha, beta, gamma)` at `(x, y)`. */
  function Weights(f: Fill, x: real, y: real): (real, real, real)
  {
    (Eval(f.e1, x, y) * f.p1, Eval(f.e2, x, y) * f.p2, Eval(f.e3, x, y) * f.p3)
  }

  /** The written colour: each channel interpolated and cast `as u8`. */
  function ColourAt(f: Fill, x: real, y: real): Color
  {
    var (alpha, beta, gamma) := Weights(f, x, y);
    Rgb(SatU8(InterpolateBarycentric(f.ca.r as real, f.cb.r as real, f.cc.r as real, alpha, beta, gamma)),
        SatU8(InterpolateBarycentric(f.ca.g as real, f.cb.g as real, f.cc.g as real, alpha, beta, gamma)),
        SatU8(InterpolateBarycentric(f.ca.b as real, f.cb.b as real, f.cc.b as real, alpha, beta, gamma)))
  }

  /** The write (if any) at pixel `(xs, ys)`. */
  function PixelWrites(f: Fill, xs: int, ys: int): seq<Write>
  {
    if Inside(f, xs as real, ys as real) then [Write(xs, ys, ColourAt(f, xs as real, ys as real))] else []
  }

  /** The inner loop: column `xs`, rows `ylo` up to (not including) `yhi`. */
  function ColumnWrites(f: Fill, xs: int, ylo: int, yhi: int): seq<Write>
    decreases yhi - ylo
  {
    if yhi <= ylo then [] else ColumnWrites(f, xs, ylo, yhi - 1) + PixelWrites(f, xs, yhi - 1)
  }

  /** The outer loop: columns `xlo` up to (not including) `xhi`. */
  function BoxWrites(f: Fill, xlo: int, xhi: int, ylo: int, yhi: int): seq<Write>
    decreases xhi - xlo
  {
    if xhi <= xlo then [] else BoxWrites(f, xlo, xhi - 1, ylo, yhi) + ColumnWrites(f, xhi - 1, ylo, yhi)
  }

  /** Everything `draw` writes for vertices `a`, `b`, `c`. */
  function TriangleWrites(a: Pt, b: Pt, c: Pt): seq<Write>
  {
    if Degenerate(a, b, c) then []
    else
      var bx := BoxOf(CornersOf(a, b, c));
      BoxWrites(FillOf(a, b, c), bx.xMin, bx.xMax, bx.yMin, bx.yMax)
  }

  // ===========================================================================
  // What the fill writes.

  /** A write is in column `xs`'s scan iff it is at an inside pixel of that
      column between the row bounds, in that pixel's colour. */
  lemma {:induction false} ColumnMember(f: Fill, xs: int, ylo: int, yhi: int, w: Write)
    ensures w in ColumnWrites(f, xs, ylo, yhi) <==>
      w.x == xs && ylo <= w.y < yhi && Inside(f, w.x as real, w.y as real)
      && w.color == ColourAt(f, w.x as real, w.y as real)
    decreases yhi - ylo
  {
    if yhi > ylo {
      ColumnMember(f, xs, ylo, yhi - 1, w);
    }
  }

  /** A write is in the box scan iff it is at an inside pixel of the box, in
      that pixel's colour. */
  lemma {:induction false} BoxMember(f: Fill, xlo: int, xhi: int, ylo: int, yhi: int, w: Write)
    ensures w in BoxWrites(f, xlo, xhi, ylo, yhi) <==>
      xlo <= w.x < xhi && ylo <= w.y < yhi && Inside(f, w.x as real, w.y as real)
      && w.color == ColourAt(f, w.x as real, w.y as real)
    decreases xhi - xlo
  {
    if xhi > xlo {
      BoxMember(f, xlo, xhi - 1, ylo, yhi, w);
      ColumnMember(f, xhi - 1, ylo, yhi, w);
    }
  }

  /** What `draw` writes, exactly: nothing for a degenerate triangle; otherwise
      one write per pixel of the half-open box where all three edge values are
      at most zero, in the interpolated colour there. */
  lemma TriangleMember(a: Pt, b: Pt, c: Pt, w: Write)
    ensures w in TriangleWrites(a, b, c) <==>
      !Degenerate(a, b, c)
      && var bx := BoxOf(CornersOf(a, b, c));
      var f := FillOf(a, b, c);
      bx.xMin <= w.x < bx.xMax && bx.yMin <= w.y < bx.yMax
      && Inside(f, w.x as real, w.y as real) && w.color == ColourAt(f, w.x as real, w.y as real)
  {
    if !Degenerate(a, b, c) {
      var bx := BoxOf(CornersOf(a, b, c));
      BoxMember(FillOf(a, b, c), bx.xMin, bx.xMax, bx.yMin, bx.yMax, w);
    }
  }

  /** The collinear points `(0,0)`, `(1,1)`, `(2,2)` write nothing. */
  lemma CollinearWritesNothing(ca: Color, cb: Color, cc: Color)
    ensures TriangleWrites(Pt(0.0, 0.0, 1.0, ca), Pt(1.0, 1.0, 1.0, cb), Pt(2.0, 2.0, 1.0, cc)) == []
  {
  }

  /** The scan visits the box column by column, each column bottom to top, so
      the writes are strictly increasing in `(x, y)`: no pixel is written
      twice. */
  lemma {:induction false} ColumnOrdered(f: Fill, xs: int, ylo: int, yhi: int)
    ensures forall i, j :: 0 <= i < j < |ColumnWrites(f, xs, ylo, yhi)| ==>
      ColumnWrites(f, xs, ylo, yhi)[i].y < ColumnWrites(f, xs, ylo, yhi)[j].y
    decreases yhi - ylo
  {
    if yhi > ylo {
      var s := ColumnWrites(f, xs, ylo, yhi - 1);
      ColumnOrdered(f, xs, ylo, yhi - 1);
      forall i | 0 <= i < |s| ensures s[i].y < yhi - 1 {
        ColumnMember(f, xs, ylo, yhi - 1, s[i]);
      }
    }
  }

  // ===========================================================================
  // The weights.

  /** For a non-degenerate triangle the three weights sum to one at every
      point of the plane. */
  lemma WeightsSumToOne(a: Pt, b: Pt, c: Pt, x: real, y: real)
    requires !Degenerate(a, b, c)
    ensures Weights(FillOf(a, b, c), x, y).0 + Weights(FillOf(a, b, c), x, y).1 + Weights(FillOf(a, b, c), x, y).2 == 1.0
  {
    var k := CornersOf(a, b, c);
    var d := -Area2(k.x1, k.y1, k.x2, k.y2, k.x3, k.y3);
    CornersArea(a, b, c);
    OppositeValues(k);
    var f := FillOf(a, b, c);
    assert f.p1 == f.p2 == f.p3 == 1.0 / d;
    EdgeSum(k, x, y);
    assert Eval(f.e1, x, y) * (1.0 / d) + Eval(f.e2, x, y) * (1.0 / d) + Eval(f.e3, x, y) * (1.0 / d)
      == (Eval(f.e1, x, y) + Eval(f.e2, x, y) + Eval(f.e3, x, y)) * (1.0 / d);
  }

  /** The three edge values add up to minus the signed area everywhere. */
  lemma EdgeSum(k: Corners, x: real, y: real)
    ensures Eval(EdgeThrough(k.x2, k.y2, k.x3, k.y3), x, y) + Eval(EdgeThrough(k.x3, k.y3, k.x1, k.y1), x, y)
      + Eval(EdgeThrough(k.x1, k.y1, k.x2, k.y2), x, y) == -Area2(k.x1, k.y1, k.x2, k.y2, k.x3, k.y3)
  {
  }

  /** Casting a whole channel value back is exact. */
  lemma SatU8Whole(v: Byte)
    ensures SatU8(v as real) == v
  {
  }

  /** Three vertices of one colour fill with that colour (as an opaque RGB). */
  lemma UniformColour(a: Pt, b: Pt, c: Pt, x: real, y: real)
    requires !Degenerate(a, b, c)
    requires a.color.r == b.color.r == c.color.r && a.color.g == b.color.g == c.color.g
    requires a.color.b == b.color.b == c.color.b
    ensures ColourAt(FillOf(a, b, c), x, y) == Rgb(a.color.r, a.color.g, a.color.b)
  {
    var (alpha, beta, gamma) := Weights(FillOf(a, b, c), x, y);
    WeightsSumToOne(a, b, c, x, y);
    BarycentricUniform(a.color.r as real, alpha, beta, gamma);
    BarycentricUniform(a.color.g as real, alpha, beta, gamma);
    BarycentricUniform(a.color.b as real, alpha, beta, gamma);
    SatU8Whole(a.color.r);
    SatU8Whole(a.color.g);
    SatU8Whole(a.color.b);
  }

  /** At its second corner the weights are `(0, 1, 0)`, at its third
      `(0, 0, 1)`. */
  lemma CornerWeights(k: Corners, ca: Color, cb: Color, cc: Color)
    requires Area2(k.x1, k.y1, k.x2, k.y2, k.x3, k.y3) != 0.0
    ensures Weights(FillFor(k, ca, cb, cc), k.x2, k.y2) == (0.0, 1.0, 0.0)
    ensures Weights(FillFor(k, ca, cb, cc), k.x3, k.y3) == (0.0, 0.0, 1.0)
  {
    OppositeValues(k);
    EdgeEnds(k.x2, k.y2, k.x3, k.y3);
    EdgeEnds(k.x3, k.y3, k.x1, k.y1);
    EdgeEnds(k.x1, k.y1, k.x2, k.y2);
    var f := FillFor(k, ca, cb, cc);
    assert f.e1 == EdgeThrough(k.x2, k.y2, k.x3, k.y3);
    assert f.e2 == EdgeThrough(k.x3, k.y3, k.x1, k.y1);
    assert f.e3 == EdgeThrough(k.x1, k.y1, k.x2, k.y2);
    assert f.p2 == 1.0 / Eval(f.e2, k.x2, k.y2);
    assert f.p3 == 1.0 / Eval(f.e3, k.x3, k.y3);
    MulRecip(Eval(f.e2, k.x2, k.y2));
    MulRecip(Eval(f.e3, k.x3, k.y3));
    assert Eval(f.e1, k.x2, k.y2) == 0.0 && Eval(f.e3, k.x2, k.y2) == 0.0;
    assert Eval(f.e1, k.x3, k.y3) == 0.0 && Eval(f.e2, k.x3, k.y3) == 0.0;
    assert Weights(f, k.x2, k.y2).0 == 0.0 * f.p1 == 0.0;
    assert Weights(f, k.x2, k.y2).2 == 0.0 * f.p3 == 0.0;
    assert Weights(f, k.x2, k.y2).1 == 1.0;
    assert Weights(f, k.x3, k.y3).0 == 0.0 * f.p1 == 0.0;
    assert Weights(f, k.x3, k.y3).1 == 0.0 * f.p2 == 0.0;
    assert Weights(f, k.x3, k.y3).2 == 1.0;
  }

  /** The colour of weights `(0, 1, 0)` is the second colour. */
  lemma PickSecond(f: Fill, x: real, y: real)
    requires Weights(f, x, y) == (0.0, 1.0, 0.0)
    ensures ColourAt(f, x, y) == Rgb(f.cb.r, f.cb.g, f.cb.b)
  {
    SatU8Whole(f.cb.r);
    SatU8Whole(f.cb.g);
    SatU8Whole(f.cb.b);
  }

  /** The colour of weights `(0, 0, 1)` is the third colour. */
  lemma PickThird(f: Fill, x: real, y: real)
    requires Weights(f, x, y) == (0.0, 0.0, 1.0)
    ensures ColourAt(f, x, y) == Rgb(f.cc.r, f.cc.g, f.cc.b)
  {
    SatU8Whole(f.cc.r);
    SatU8Whole(f.cc.g);
    SatU8Whole(f.cc.b);
  }

  /** The colours are not swapped with the positions: for a triangle with a
      negative signed area, the fill's colour at `b`'s position is `c`'s colour
      (and the other way round). */
  lemma ClockwiseSwapsColours(a: Pt, b: Pt, c: Pt)
    requires !Degenerate(a, b, c) && SignedArea(a, b, c) < 0.0
    ensures ColourAt(FillOf(a, b, c), b.x, b.y) == Rgb(c.color.r, c.color.g, c.color.b)
    ensures ColourAt(FillOf(a, b, c), c.x, c.y) == Rgb(b.color.r, b.color.g, b.color.b)
  {
    var k := CornersOf(a, b, c);
    CornersArea(a, b, c);
    CornerWeights(k, a.color, b.color, c.color);
    PickThird(FillOf(a, b, c), b.x, b.y);
    PickSecond(FillOf(a, b, c), c.x, c.y);
  }

  // ===========================================================================
  // The fill with the colours swapped along with the positions.

  /** The fill with `b`'s and `c`'s colours following their positions. */
  function FixedFillOf(a: Pt, b: Pt, c: Pt): Fill
    requires !Degenerate(a, b, c)
  {
    CornersArea(a, b, c);
    if SignedArea(a, b, c) < 0.0 then FillFor(CornersOf(a, b, c), a.color, c.color, b.color)
    else FillFor(CornersOf(a, b, c), a.color, b.color, c.color)
  }

  function FixedTriangleWrites(a: Pt, b: Pt, c: Pt): seq<Write>
  {
    if Degenerate(a, b, c) then []
    else
      var bx := BoxOf(CornersOf(a, b, c));
      BoxWrites(FixedFillOf(a, b, c), bx.xMin, bx.xMax, bx.yMin, bx.yMax)
  }

  /** With the colours following the positions, each vertex's position is
      coloured with that vertex's colour, whatever the winding. */
  lemma FixedVertexColours(a: Pt, b: Pt, c: Pt)
    requires !Degenerate(a, b, c)
    ensures ColourAt(FixedFillOf(a, b, c), b.x, b.y) == Rgb(b.color.r, b.color.g, b.color.b)
    ensures ColourAt(FixedFillOf(a, b, c), c.x, c.y) == Rgb(c.color.r, c.color.g, c.color.b)
  {
    var k := CornersOf(a, b, c);
    CornersArea(a, b, c);
    var f := FixedFillOf(a, b, c);
    if SignedArea(a, b, c) < 0.0 {
      CornerWeights(k, a.color, c.color, b.color);
      PickThird(f, b.x, b.y);
      PickSecond(f, c.x, c.y);
    } else {
      CornerWeights(k, a.color, b.color, c.color);
      PickSecond(f, b.x, b.y);
      PickThird(f, c.x, c.y);
    }
  }

  /** With the colours following the positions, the fill does not depend on
      the order in which `b` and `c` are given. */
  lemma FixedOrderIndependent(a: Pt, b: Pt, c: Pt)
    ensures FixedTriangleWrites(a, b, c) == FixedTriangleWrites(a, c, b)
  {
    SwapNegates(a.x, a.y, b.x, b.y, c.x, c.y);
    if !Degenerate(a, b, c) {
      assert CornersOf(a, b, c) == CornersOf(a, c, b);
      assert FixedFillOf(a, b, c) == FixedFillOf(a, c, b);
    }
  }

  /** `draw`'s corner locals after its winding fix are `CornersOf`. */
  lemma SetupCorners(a: Pt, b: Pt, c: Pt, area: real, x1: real, y1: real, x2: real, y2: real, x3: real, y3: real)
    requires area == Area2(a.x, a.y, b.x, b.y, c.x, c.y)
    requires !(RAbs(area) < 0.0000000001)
    requires x1 == a.x && y1 == a.y
    requires area < 0.0 ==> x2 == c.x && y2 == c.y && x3 == b.x && y3 == b.y
    requires !(area < 0.0) ==> x2 == b.x && y2 == b.y && x3 == c.x && y3 == c.y
    ensures !Degenerate(a, b, c) && CornersOf(a, b, c) == Corners(x1, y1, x2, y2, x3, y3)
    ensures Area2(x1, y1, x2, y2, x3, y3) != 0.0
  {
    CornersArea(a, b, c);
  }

  /** The part of `draw` between the winding fix and the loops: the three edge
      lines, the reciprocals of their values at the opposite corners (each
      divisor non-zero, being minus the doubled area) and the truncated
      bounding box.  Together they are the fill and the box of the corners. */
  method SetupScan(x1: real, y1: real, x2: real, y2: real, x3: real, y3: real, ca: Color, cb: Color, cc: Color)
    returns (f: Fill, xMin: int, xMax: int, yMin: int, yMax: int)
    requires Area2(x1, y1, x2, y2, x3, y3) != 0.0
    ensures f == FillFor(Corners(x1, y1, x2, y2, x3, y3), ca, cb, cc)
    ensures Box(xMin, xMax, yMin, yMax) == BoxOf(Corners(x1, y1, x2, y2, x3, y3))
  {
    var a1, b1 := y2 - y3, x3 - x2;
    var a2, b2 := y3 - y1, x1 - x3;
    var a3, b3 := y1 - y2, x2 - x1;
    var c1 := -(a1 * x2 + b1 * y2);
    var c2 := -(a2 * x3 + b2 * y3);
    var c3 := -(a3 * x1 + b3 * y1);
    OppositeValues(Corners(x1, y1, x2, y2, x3, y3));
    assert EdgeThrough(x2, y2, x3, y3) == Edge(a1, b1, c1);
    assert EdgeThrough(x3, y3, x1, y1) == Edge(a2, b2, c2);
    assert EdgeThrough(x1, y1, x2, y2) == Edge(a3, b3, c3);
    var prpAlpha := 1.0 / (a1 * x1 + b1 * y1 + c1);
    var prpBeta := 1.0 / (a2 * x2 + b2 * y2 + c2);
    var prpGamma := 1.0 / (a3 * x3 + b3 * y3 + c3);
    assert a1 * x1 + b1 * y1 + c1 == Eval(EdgeThrough(x2, y2, x3, y3), x1, y1);
    assert a2 * x2 + b2 * y2 + c2 == Eval(EdgeThrough(x3, y3, x1, y1), x2, y2);
    assert a3 * x3 + b3 * y3 + c3 == Eval(EdgeThrough(x1, y1, x2, y2), x3, y3);
    xMin := Trunc(Min(x1, Min(x2, x3)));
    xMax := Trunc(Max(x1, Max(x2, x3)));
    yMin := Trunc(Min(y1, Min(y2, y3)));
    yMax := Trunc(Max(y1, Max(y2, y3)));
    f := Fill(Edge(a1, b1, c1), Edge(a2, b2, c2), Edge(a3, b3, c3), prpAlpha, prpBeta, prpGamma, ca, cb, cc);
  }

  // ===========================================================================
  // The scan loops of `draw`, with the fill's coefficients in one value.

  /** The body of the inner loop: test pixel `(xs, ys)` against the three
      edges and, when inside, write the interpolated colour. */
  method PlotPixel(canvas: Image, f: Fill, xs: int, ys: int)
    modifies canvas
    ensures canvas.writes == old(canvas.writes) + PixelWrites(f, xs, ys)
  {
    var x := xs as real;
    var y := ys as real;
    var v1, v2, v3 := Eval(f.e1, x, y), Eval(f.e2, x, y), Eval(f.e3, x, y);
    if v1 <= 0.0 && v2 <= 0.0 && v3 <= 0.0 {
      var alpha, beta, gamma := v1 * f.p1, v2 * f.p2, v3 * f.p3;
      var r := InterpolateBarycentric(f.ca.r as real, f.cb.r as real, f.cc.r as real, alpha, beta, gamma);
      var g := InterpolateBarycentric(f.ca.g as real, f.cb.g as real, f.cc.g as real, alpha, beta, gamma);
      var bl := InterpolateBarycentric(f.ca.b as real, f.cb.b as real, f.cc.b as real, alpha, beta, gamma);
      assert Weights(f, x, y).0 == alpha;
      assert Weights(f, x, y).1 == beta;
      assert Weights(f, x, y).2 == gamma;
      canvas.SetPixel(xs, ys, Rgb(SatU8(r), SatU8(g), SatU8(bl)));
    }
  }

  /** The inner loop: rows `yMin` up to (not including) `yMax` of column
      `xs`. */
  method ScanColumn(canvas: Image, f: Fill, xs: int, yMin: int, yMax: int)
    modifies canvas
    ensures canvas.writes == old(canvas.writes) + ColumnWrites(f, xs, yMin, yMax)
  {
    var ys := yMin;
    while ys < yMax
      invariant yMin <= ys && (ys <= yMax || ys == yMin)
      invariant canvas.writes == old(canvas.writes) + ColumnWrites(f, xs, yMin, ys)
    {
      AppendAssoc(old(canvas.writes), ColumnWrites(f, xs, yMin, ys), PixelWrites(f, xs, ys));
      PlotPixel(canvas, f, xs, ys);
      ys := ys + 1;
    }
  }

  /** The outer loop: columns `xMin` up to (not including) `xMax`. */
  method ScanBox(canvas: Image, f: Fill, xMin: int, xMax: int, yMin: int, yMax: int)
    modifies canvas
    ensures canvas.writes == old(canvas.writes) + BoxWrites(f, xMin, xMax, yMin, yMax)
  {
    var xs := xMin;
    while xs < xMax
      invariant xMin <= xs && (xs <= xMax || xs == xMin)
      invariant canvas.writes == old(canvas.writes) + BoxWrites(f, xMin, xs, yMin, yMax)
    {
      AppendAssoc(old(canvas.writes), BoxWrites(f, xMin, xs, yMin, yMax), ColumnWrites(f, xs, yMin, yMax));
      ScanColumn(canvas, f, xs, yMin, yMax);
      xs := xs + 1;
    }
  }

  // ===========================================================================
  // The triangle object.

  class Triangle2D {
    var a: Pt
    var b: Pt
    var c: Pt

    /** `Triangle2D::new(a, b, c)`. */
    constructor New(a: Pt, b: Pt, c: Pt)
      ensures this.a == a && this.b == b && this.c == c
    {
      this.a := a;
      this.b := b;
      this.c := c;
    }

    method Homogenize()
      requires a.z != 0.0 && b.z != 0.0 && c.z != 0.0
      modifies this
      ensures a == Homogenized(old(a)) && b == Homogenized(old(b)) && c == Homogenized(old(c))
    {
      a := Homogenized(a);
      b := Homogenized(b);
      c := Homogenized(c);
    }

    method Transform(tx: real, ty: real)
      modifies this
      ensures a == Translated(old(a), tx, ty) && b == Translated(old(b), tx, ty) && c == Translated(old(c), tx, ty)
    {
      a := Translated(a, tx, ty);
      b := Translated(b, tx, ty);
      c := Translated(c, tx, ty);
    }

    method Scale(sx: real, sy: real)
      modifies this
      ensures a == Scaled(old(a), sx, sy) && b == Scaled(old(b), sx, sy) && c == Scaled(old(c), sx, sy)
    {
      a := Scaled(a, sx, sy);
      b := Scaled(b, sx, sy);
      c := Scaled(c, sx, sy);
    }

    method Rotate(angle: real, trig: Trig)
      modifies this
      ensures a == Rotated(old(a), angle, trig) && b == Rotated(old(b), angle, trig)
      ensures c == Rotated(old(c), angle, trig)
    {
      a := Rotated(a, angle, trig);
      b := Rotated(b, angle, trig);
      c := Rotated(c, angle, trig);
    }

    method RotateFromPoint(angle: real, p: Point2D, trig: Trig)
      modifies this
      ensures a == RotatedFromPoint(old(a), angle, p.Value(), trig)
      ensures b == RotatedFromPoint(old(b), angle, p.Value(), trig)
      ensures c == RotatedFromPoint(old(c), angle, p.Value(), trig)
      ensures unchanged(p)
    {
      a := RotatedFromPoint(a, angle, p.Value(), trig);
      b := RotatedFromPoint(b, angle, p.Value(), trig);
      c := RotatedFromPoint(c, angle, p.Value(), trig);
    }

    method ScaleFromPoint(sx: real, sy: real, p: Point2D)
      modifies this
      ensures a == ScaledFromPoint(old(a), sx, sy, p.Value())
      ensures b == ScaledFromPoint(old(b), sx, sy, p.Value())
      ensures c == ScaledFromPoint(old(c), sx, sy, p.Value())
      ensures unchanged(p)
    {
      a := ScaledFromPoint(a, sx, sy, p.Value());
      b := ScaledFromPoint(b, sx, sy, p.Value());
      c := ScaledFromPoint(c, sx, sy, p.Value());
    }

    /** The three edges with the solid line rasteriser: `a`-`b`, `b`-`c`,
        `c`-`a`. */
    method DrawOutline(canvas: Image, lr: LineRaster)
      modifies canvas
      ensures canvas.writes == old(canvas.writes) + lr.solid(a, b) + lr.solid(b, c) + lr.solid(c, a)
    {
      DrawLine(a, b, canvas, lr);
      DrawLine(b, c, canvas, lr);
      DrawLine(c, a, canvas, lr);
    }

    /** The half-plane fill. */
    method Draw(canvas: Image)
      modifies canvas
      ensures canvas.writes == old(canvas.writes) + TriangleWrites(a, b, c)
    {
      var area := Area2(a.x, a.y, b.x, b.y, c.x, c.y);
      var x1, y1 := a.x, a.y;
      var x2, y2 := b.x, b.y;
      var x3, y3 := c.x, c.y;
      if RAbs(area) < 0.0000000001 {
        assert SignedArea(a, b, c) == area;
        return;
      }
      if area < 0.0 {
        var t := x2;
        x2 := x3;
        x3 := t;
        t := y2;
        y2 := y3;
        y3 := t;
      }
      SetupCorners(a, b, c, area, x1, y1, x2, y2, x3, y3);
      var f, xMin, xMax, yMin, yMax := SetupScan(x1, y1, x2, y2, x3, y3, a.color, b.color, c.color);
      ScanBox(canvas, f, xMin, xMax, yMin, yMax);
    }
  }
}
