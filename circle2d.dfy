/** `Circle2D`: a radius and a centre point.  Its three rasterisers work on the
    integer (`as i32`) radius and centre:
    - `draw`, the midpoint ring: one quarter arc walked from `(-R, 0)` to
      `x == 1`, each step mirrored into the four quadrants;
    - `draw_outline`, the filled disk: a scan of the bounding square with an
      inside test;
    - `draw_outline_aa`, the anti-aliased ring: a second quarter-arc walk that
      blends each pixel by its distance from the ideal circle.
    Each rasteriser is specified by the sequence of offsets it visits and the
    writes made at each of them; the loops keep the error terms incrementally,
    the specification computes them in closed form. */
module Circles {
  import opened Raster
  import opened Points

  // ===========================================================================
  // The midpoint ring (`draw`).

  /** The error of the diagonal step from offset `(x, y)`:
      `(x+1)^2 + (y+1)^2 - R^2`. */
  function RingErr(R: int, x: int, y: int): int
  {
    (x + 1) * (x + 1) + (y + 1) * (y + 1) - R * R
  }

  /** One decision step of `draw`: a `y` step when the error is at most `y`,
      then an `x` step when the old error exceeds `x` or the new error exceeds
      the new `y`. */
  function RingNext(R: int, x: int, y: int): (int, int)
  {
    var e := RingErr(R, x, y);
    var y1 := if e <= y then y + 1 else y;
    var x1 := if e > x || RingErr(R, x, y1) > y1 then x + 1 else x;
    (x1, y1)
  }

  /** The error after a `y` step and after an `x` step, as `draw` updates it. */
  lemma RingErrSteps(R: int, x: int, y: int)
    ensures RingErr(R, x, y + 1) == RingErr(R, x, y) + (y + 1) * 2 + 1
    ensures RingErr(R, x + 1, y) == RingErr(R, x, y) + (x + 1) * 2 + 1
  {
  }

  /** Every step moves `x` or `y` (or both) up by one, and a `y` step is only
      taken below `|R|`. */
  lemma RingStep(R: int, x: int, y: int)
    requires 0 <= y <= Abs(R)
    ensures var (x1, y1) := RingNext(R, x, y);
      (x1 == x || x1 == x + 1) && (y1 == y || y1 == y + 1) && (x1, y1) != (x, y) && y1 <= Abs(R)
  {
    var e := RingErr(R, x, y);
    if e <= y {
      assert (x + 1) * (x + 1) >= 0;
      assert y * y + y + 1 <= Abs(R) * Abs(R);
      SquareBelow(y, Abs(R));
    }
  }

  /** `y^2 + y + 1 <= a^2` forces `y < a`. */
  lemma SquareBelow(y: nat, a: nat)
    requires y * y + y + 1 <= a * a
    ensures y < a
  {
    if a <= y {
      MulLe(a, a, y);
      MulLe(y, a, y);
    }
  }

  lemma MulLe(c: int, a: int, b: int)
    requires 0 <= c && a <= b
    ensures c * a <= c * b
  {
    assert c * (b - a) >= 0;
  }

  /** The offsets `draw` plots, from `(x, y)` on: the step after the last one
      takes `x` above zero. */
  function RingFrom(R: int, x: int, y: int): (s: seq<(int, int)>)
    requires 0 <= y <= Abs(R)
    decreases Abs(R) - y + (if x <= 0 then 1 - x else 0)
  {
    RingStep(R, x, y);
    var (x1, y1) := RingNext(R, x, y);
    [(x, y)] + (if x1 > 0 then [] else RingFrom(R, x1, y1))
  }

  /** The offsets `draw` plots for the truncated radius `R`. */
  function RingOffsets(R: int): seq<(int, int)>
  {
    RingFrom(R, -R, 0)
  }

  /** The four mirrored writes of one offset, in the order of the source. */
  function RingQuad(xm: int, ym: int, x: int, y: int, col: Color): seq<Write>
  {
    [Write(xm - x, ym - y, col), Write(xm + x, ym - y, col), Write(xm + x, ym + y, col), Write(xm - x, ym + y, col)]
  }

  /** The writes of `draw` for a list of plotted offsets. */
  function RingWrites(xm: int, ym: int, offs: seq<(int, int)>, col: Color): seq<Write>
  {
    if offs == [] then [] else RingQuad(xm, ym, offs[0].0, offs[0].1, col) + RingWrites(xm, ym, offs[1..], col)
  }

  lemma RingWritesCons(xm: int, ym: int, p: (int, int), t: seq<(int, int)>, col: Color)
    ensures RingWrites(xm, ym, [p] + t, col) == RingQuad(xm, ym, p.0, p.1, col) + RingWrites(xm, ym, t, col)
  {
    assert ([p] + t)[1..] == t;
  }

  /** Each plotted offset `(x, y)` gives exactly the four writes
      `(xm-x, ym-y)`, `(xm+x, ym-y)`, `(xm+x, ym+y)`, `(xm-x, ym+y)`, in that
      order and all in the circle's colour. */
  lemma {:induction false} RingWritesAt(xm: int, ym: int, offs: seq<(int, int)>, col: Color)
    ensures |RingWrites(xm, ym, offs, col)| == 4 * |offs|
    ensures forall k :: 0 <= k < |offs| ==>
      var w, (x, y) := RingWrites(xm, ym, offs, col), offs[k];
      w[4 * k] == Write(xm - x, ym - y, col) && w[4 * k + 1] == Write(xm + x, ym - y, col) &&
      w[4 * k + 2] == Write(xm + x, ym + y, col) && w[4 * k + 3] == Write(xm - x, ym + y, col)
  {
    if offs != [] {
      RingWritesAt(xm, ym, offs[1..], col);
      var w := RingWrites(xm, ym, offs, col);
      var t := RingWrites(xm, ym, offs[1..], col);
      assert w == RingQuad(xm, ym, offs[0].0, offs[0].1, col) + t;
      forall k | 1 <= k < |offs|
        ensures w[4 * k] == t[4 * (k - 1)] && w[4 * k + 1] == t[4 * (k - 1) + 1]
        ensures w[4 * k + 2] == t[4 * (k - 1) + 2] && w[4 * k + 3] == t[4 * (k - 1) + 3]
      {
        assert offs[1..][k - 1] == offs[k];
      }
    }
  }

  /** `q` follows `p` on the midpoint ring: one pixel right, up or diagonally. */
  predicate RingAdjacent(p: (int, int), q: (int, int))
  {
    (q.0 == p.0 || q.0 == p.0 + 1) && (q.1 == p.1 || q.1 == p.1 + 1) && q != p
  }

  /** The walk from `(x, y)` with `-R <= x <= 0`: it starts at `(x, y)`, every
      plotted offset lies in `[x, 0] x [y, R]`, each offset is adjacent to the
      previous one, and the last plotted offset has `x == 0`. */
  lemma {:induction false} RingFromShape(R: int, x: int, y: int)
    requires R >= 0 && -R <= x <= 0 && 0 <= y <= R
    ensures var s := RingFrom(R, x, y);
      s != [] && s[0] == (x, y) && s[|s| - 1].0 == 0 &&
      (forall k :: 0 <= k < |s| ==> x <= s[k].0 <= 0 && y <= s[k].1 <= R) &&
      (forall k :: 0 <= k < |s| - 1 ==> RingAdjacent(s[k], s[k + 1]))
    decreases R - y + 1 - x
  {
    RingStep(R, x, y);
    var (x1, y1) := RingNext(R, x, y);
    var s := RingFrom(R, x, y);
    if x1 > 0 {
      assert s == [(x, y)];
    } else {
      RingFromShape(R, x1, y1);
      var t := RingFrom(R, x1, y1);
      assert s == [(x, y)] + t;
      ShapeCons(x, y, R, (x, y), t);
    }
  }

  /** Prepending an offset adjacent to the head of a walk that stays in
      `[x1, 0] x [y1, R]`. */
  lemma ShapeCons(x: int, y: int, R: int, p: (int, int), t: seq<(int, int)>)
    requires t != [] && p == (x, y) && RingAdjacent(p, t[0]) && t[|t| - 1].0 == 0
    requires forall k :: 0 <= k < |t| ==> t[0].0 <= t[k].0 <= 0 && t[0].1 <= t[k].1 <= R
    requires forall k :: 0 <= k < |t| - 1 ==> RingAdjacent(t[k], t[k + 1])
    ensures var s := [p] + t;
      s[|s| - 1].0 == 0 &&
      (forall k :: 0 <= k < |s| ==> x <= s[k].0 <= 0 && y <= s[k].1 <= R) &&
      (forall k :: 0 <= k < |s| - 1 ==> RingAdjacent(s[k], s[k + 1]))
  {
    var s := [p] + t;
    forall k | 0 <= k < |s| ensures x <= s[k].0 <= 0 && y <= s[k].1 <= R {
      if k > 0 { assert s[k] == t[k - 1]; }
    }
    forall k | 0 <= k < |s| - 1 ensures RingAdjacent(s[k], s[k + 1]) {
      if k > 0 { assert s[k] == t[k - 1] && s[k + 1] == t[k]; }
    }
  }

  /** For a non-negative radius the ring starts at `(-R, 0)`, ends with
      `x == 0`, keeps every plotted offset in `[-R, 0] x [0, R]` and moves by
      one pixel (right, up or diagonally) from each offset to the next. */
  lemma RingOffsetsShape(R: int)
    requires R >= 0
    ensures var s := RingOffsets(R);
      s != [] && s[0] == (-R, 0) && s[|s| - 1].0 == 0 &&
      (forall k :: 0 <= k < |s| ==> -R <= s[k].0 <= 0 && 0 <= s[k].1 <= R) &&
      (forall k :: 0 <= k < |s| - 1 ==> RingAdjacent(s[k], s[k + 1]))
  {
    RingFromShape(R, -R, 0);
  }

  /** Radius zero plots the centre once, i.e. four writes at the centre; a
      negative radius plots the single offset `(-R, 0)`. */
  lemma RingDegenerate(R: int)
    requires R <= 0
    ensures RingOffsets(R) == [(-R, 0)]
  {
    RingStep(R, -R, 0);
  }

  // ===========================================================================
  // The filled disk (`draw_outline`).

  /** The offset the scan tests at index `i`: column `i % 2R`, row `i / 2R`,
      both shifted by `-R` (Rust's truncating `%` and `/`). */
  function DiskOffset(R: int, i: int): (int, int)
    requires R != 0
  {
    (RemT(i, 2 * R) - R, DivT(i, 2 * R) - R)
  }

  /** The writes of the first `n` scan indices. */
  function DiskPrefix(xm: int, ym: int, R: int, r2: int, col: Color, n: nat): seq<Write>
    requires n > 0 ==> R != 0
  {
    if n == 0 then []
    else
      var (tx, ty) := DiskOffset(R, n - 1);
      DiskPrefix(xm, ym, R, r2, col, n - 1) + (if tx * tx + ty * ty <= r2 then [Write(xm + tx, ym + ty, col)] else [])
  }

  /** A positive truncated square of the radius means a non-zero truncated
      radius, so the scan never divides by zero. */
  lemma DiskDivisorNonZero(r: real)
    ensures Trunc(r * r) >= 0
    ensures Trunc(r * r) > 0 ==> Trunc(r) != 0
  {
    if -1.0 < r < 1.0 {
      SmallSquare(r);
    }
  }

  /** A radius strictly between -1 and 1 has a square in `[0, 1)`. */
  lemma SmallSquare(r: real)
    requires -1.0 < r < 1.0
    ensures 0.0 <= r * r < 1.0
  {
    if r >= 0.0 {
      assert r * r <= r * 1.0;
    } else {
      assert (-r) * (-r) <= (-r) * 1.0;
    }
  }

  /** The writes of `draw_outline` for radius `r`: `area = r2 << 2` scan
      indices with `r2 = (r * r) as i32`. */
  function DiskWrites(xm: int, ym: int, r: real, col: Color): seq<Write>
  {
    DiskDivisorNonZero(r);
    var r2 := Trunc(r * r);
    DiskPrefix(xm, ym, Trunc(r), r2, col, 4 * r2)
  }

  lemma DiskWritesUnfold(xm: int, ym: int, r: real, col: Color)
    ensures Trunc(r * r) >= 0 && (Trunc(r * r) > 0 ==> Trunc(r) != 0)
    ensures DiskWrites(xm, ym, r, col) == DiskPrefix(xm, ym, Trunc(r), Trunc(r * r), col, 4 * Trunc(r * r))
  {
    DiskDivisorNonZero(r);
  }

  /** One pass of `draw_outline`'s loop: index `i` gives the offset
      `(i % rr - R, i / rr - R)`, written when it lies inside. */
  method DiskPixel(canvas: Image, xm: int, ym: int, R: int, rr: int, r2: int, col: Color, i: nat,
                   ghost base: seq<Write>)
    requires R != 0 && rr == R * 2
    requires canvas.writes == base + DiskPrefix(xm, ym, R, r2, col, i)
    modifies canvas
    ensures canvas.writes == base + DiskPrefix(xm, ym, R, r2, col, i + 1)
  {
    var tx := RemT(i, rr) - R;
    var ty := DivT(i, rr) - R;
    assert (tx, ty) == DiskOffset(R, i);
    if tx * tx + ty * ty <= r2 {
      canvas.SetPixel(xm + tx, ym + ty, col);
      AppendAssoc(base, DiskPrefix(xm, ym, R, r2, col, i), [Write(xm + tx, ym + ty, col)]);
    }
  }

  /** What the first `n` scan indices write: exactly the inside offsets among
      them, in the circle's colour. */
  lemma {:induction false} DiskPrefixMember(xm: int, ym: int, R: int, r2: int, col: Color, n: nat, w: Write)
    requires R != 0
    ensures w in DiskPrefix(xm, ym, R, r2, col, n) <==>
      w.color == col && (w.x - xm) * (w.x - xm) + (w.y - ym) * (w.y - ym) <= r2 &&
      exists i :: 0 <= i < n && DiskOffset(R, i) == (w.x - xm, w.y - ym)
  {
    if n > 0 {
      DiskPrefixMember(xm, ym, R, r2, col, n - 1, w);
      if DiskOffset(R, n - 1) == (w.x - xm, w.y - ym) && w.color == col {
        var (tx, ty) := DiskOffset(R, n - 1);
        assert w == Write(xm + tx, ym + ty, col);
      }
    }
  }

  /** Every pixel `draw_outline` writes is in the circle's colour and at an
      offset `(tx, ty)` with `tx^2 + ty^2 <= (r * r) as i32`. */
  lemma DiskInside(xm: int, ym: int, r: real, col: Color)
    ensures forall w :: w in DiskWrites(xm, ym, r, col) ==>
      w.color == col && (w.x - xm) * (w.x - xm) + (w.y - ym) * (w.y - ym) <= Trunc(r * r)
  {
    DiskDivisorNonZero(r);
    if Trunc(r * r) > 0 {
      forall w | w in DiskWrites(xm, ym, r, col)
        ensures w.color == col && (w.x - xm) * (w.x - xm) + (w.y - ym) * (w.y - ym) <= Trunc(r * r)
      {
        DiskPrefixMember(xm, ym, Trunc(r), Trunc(r * r), col, 4 * Trunc(r * r), w);
      }
    }
  }

  /** A radius strictly between -1 and 1 writes nothing: the scan has no
      index, so `% rr` and `/ rr` with `rr == 0` are never evaluated. */
  lemma DiskSmall(xm: int, ym: int, r: real, col: Color)
    requires -1.0 < r < 1.0
    ensures DiskWrites(xm, ym, r, col) == []
  {
    SmallSquare(r);
    DiskWritesUnfold(xm, ym, r, col);
  }

  /** For a whole radius `R >= 1` the scan covers exactly the half-open square
      `[-R, R) x [-R, R)`: a pixel is written iff its offset lies there and
      inside the circle. */
  lemma DiskWholeRadius(xm: int, ym: int, R: int, col: Color, px: int, py: int)
    requires R >= 1
    ensures Write(px, py, col) in DiskWrites(xm, ym, R as real, col) <==>
      -R <= px - xm < R && -R <= py - ym < R && (px - xm) * (px - xm) + (py - ym) * (py - ym) <= R * R
  {
    var w, n := Write(px, py, col), 4 * (R * R);
    DiskWritesWhole(xm, ym, R, col);
    DiskPrefixMember(xm, ym, R, R * R, col, n, w);
    if w in DiskWrites(xm, ym, R as real, col) {
      var i :| 0 <= i < n && DiskOffset(R, i) == (px - xm, py - ym);
      DiskIndexRange(R, i);
    }
    if -R <= px - xm < R && -R <= py - ym < R {
      DiskIndexOf(R, px - xm, py - ym);
    }
  }

  /** For a whole radius, `r2 = R^2` and `rr = 2R`. */
  lemma DiskWritesWhole(xm: int, ym: int, R: int, col: Color)
    requires R >= 1
    ensures DiskWrites(xm, ym, R as real, col) == DiskPrefix(xm, ym, R, R * R, col, 4 * (R * R))
  {
    var r := R as real;
    DiskWritesUnfold(xm, ym, r, col);
    TruncWhole(R);
    RealSquare(R);
    TruncWhole(R * R);
  }

  /** Squaring commutes with the conversion to a real. */
  lemma {:induction false} RealSquare(n: nat)
    ensures (n as real) * (n as real) == (n * n) as real
  {
    if n > 0 {
      RealSquare(n - 1);
      assert (n * n) == (n - 1) * (n - 1) + 2 * n - 1;
    }
  }

  /** Truncating a whole number gives it back. */
  lemma TruncWhole(n: int)
    ensures Trunc(n as real) == n
  {
  }

  /** Every offset of `[-R, R) x [-R, R)` is scanned, at index `2R (ty + R) + (tx + R)`. */
  lemma DiskIndexOf(R: int, tx: int, ty: int)
    requires R >= 1 && -R <= tx < R && -R <= ty < R
    ensures var i := 2 * R * (ty + R) + (tx + R);
      0 <= i < 4 * (R * R) && DiskOffset(R, i) == (tx, ty)
  {
    var d := 2 * R;
    var i := d * (ty + R) + (tx + R);
    DivModOf(ty + R, tx + R, d);
    MulLe(d, ty + R, d - 1);
    MulLe(d, 0, ty + R);
    assert d * (d - 1) == 4 * (R * R) - d;
    assert 0 <= i < 4 * (R * R);
  }

  /** A scan index below `4 R^2` gives an offset in `[-R, R) x [-R, R)`. */
  lemma DiskIndexRange(R: int, i: int)
    requires R >= 1 && 0 <= i < 4 * (R * R)
    ensures -R <= DiskOffset(R, i).0 < R && -R <= DiskOffset(R, i).1 < R
  {
    var d := 2 * R;
    var q, m := i / d, i % d;
    assert i == d * q + m && 0 <= m < d;
    assert d * d == 4 * (R * R);
    if d <= q {
      MulLe(d, d, q);
    }
    assert q < d;
    if q < 0 {
      MulLe(d, q, -1);
    }
    assert 0 <= q;
    assert DiskOffset(R, i) == (m - R, q - R);
  }

  lemma DivModOf(q: int, a: int, d: int)
    requires d > 0 && q >= 0 && 0 <= a < d
    ensures (d * q + a) / d == q && (d * q + a) % d == a
  {
    var n := d * q + a;
    var k := n / d - q;
    assert d * k == a - n % d;
    if k > 0 { MulLe(d, 1, k); }
    if k < 0 { MulLe(d, k, -1); }
  }

  /** Consequently the edge offsets `(R, 0)` and `(0, R)` are never written
      although they lie on the circle, while `(-R, 0)` and `(0, -R)` are. */
  lemma DiskMissesEdges(xm: int, ym: int, R: int, col: Color)
    requires R >= 1
    ensures Write(xm + R, ym, col) !in DiskWrites(xm, ym, R as real, col)
    ensures Write(xm, ym + R, col) !in DiskWrites(xm, ym, R as real, col)
    ensures Write(xm - R, ym, col) in DiskWrites(xm, ym, R as real, col)
    ensures Write(xm, ym - R, col) in DiskWrites(xm, ym, R as real, col)
  {
    DiskWholeRadius(xm, ym, R, col, xm + R, ym);
    DiskWholeRadius(xm, ym, R, col, xm, ym + R);
    DiskWholeRadius(xm, ym, R, col, xm - R, ym);
    assert (xm - R - xm) * (xm - R - xm) + (ym - ym) * (ym - ym) == R * R;
    DiskWholeRadius(xm, ym, R, col, xm, ym - R);
    assert (xm - xm) * (xm - xm) + (ym - R - ym) * (ym - R - ym) == R * R;
  }

  // ===========================================================================
  // The anti-aliased ring (`draw_outline_aa`).

  /** The error term of offset `(x, y)`: `(x-1)^2 + (y-1)^2 - R^2`. */
  function AaErr(R: int, x: int, y: int): int
  {
    (x - 1) * (x - 1) + (y - 1) * (y - 1) - R * R
  }

  /** The blend divisor `r = 1 - err` of the first step: `2R - 1`, which is
      odd and so never zero. */
  function AaDivisor(R: int): (d: int)
    ensures d == 2 * R - 1 && d % 2 == 1 && d != 0
  {
    1 - AaErr(R, R, 0)
  }

  /** One step of `draw_outline_aa`: an `x` step (down) when the error exceeds
      `y`, a `y` step (down) when the error before the `x` step is at most the
      old `x`. */
  function AaNext(R: int, x: int, y: int): (int, int)
  {
    var e := AaErr(R, x, y);
    (if e > y then x - 1 else x, if e <= x then y - 1 else y)
  }

  /** From an offset in `[1, R] x [-R, 0]` each step moves `x` or `y` (or both)
      down by one and stays in `[0, R] x [-R, 0]`. */
  lemma AaStep(R: int, x: int, y: int)
    requires 1 <= x <= R && -R <= y <= 0
    ensures var (x1, y1) := AaNext(R, x, y);
      (x1 == x || x1 == x - 1) && (y1 == y || y1 == y - 1) && (x1, y1) != (x, y) && -R <= y1
  {
    if y == -R {
      assert (y - 1) * (y - 1) == R * R + 2 * R + 1;
      assert (x - 1) * (x - 1) >= 0;
      assert AaErr(R, x, y) > x;
    }
  }

  /** The offsets `draw_outline_aa` visits from `(x, y)` on, until `x == 0`. */
  function AaOffsets(R: int, x: int, y: int): seq<(int, int)>
    requires 0 <= x <= R && -R <= y <= 0
    decreases x + y + R
  {
    if x == 0 then [(x, y)]
    else
      AaStep(R, x, y);
      var (x1, y1) := AaNext(R, x, y);
      [(x, y)] + AaOffsets(R, x1, y1)
  }

  /** The colour of a blended write: the circle's RGB with alpha `i as u8`. */
  function Blend(col: Color, i: int): Color
  {
    Color(col.r, col.g, col.b, WrapU8(i))
  }

  /** Four writes at `(xm+p, ym-q)`, `(xm+q, ym+p)`, `(xm-p, ym+q)`,
      `(xm-q, ym-p)`: the source mirrors an offset into the four quadrants. */
  function AaQuad(xm: int, ym: int, p: int, q: int, c: Color): seq<Write>
  {
    [Write(xm + p, ym - q, c), Write(xm + q, ym + p, c), Write(xm - p, ym + q, c), Write(xm - q, ym - p, c)]
  }

  /** The four mirrored `set_pixel` calls the loop body makes three times:
      at `(xm+p, ym-q)`, `(xm+q, ym+p)`, `(xm-p, ym+q)` and `(xm-q, ym-p)`. */
  method PlotQuad(canvas: Image, xm: int, ym: int, p: int, q: int, c: Color)
    modifies canvas
    ensures canvas.writes == old(canvas.writes) + AaQuad(xm, ym, p, q, c)
  {
    canvas.SetPixel(xm + p, ym - q, c);
    canvas.SetPixel(xm + q, ym + p, c);
    canvas.SetPixel(xm - p, ym + q, c);
    canvas.SetPixel(xm - q, ym - p, c);
  }

  /** The guarded plot of the outward and the inward pixel: the four mirrored
      writes of `(p, q)` in colour `col` with alpha `i`, made only when the
      blend value `i` is below 255. */
  method PlotBlended(canvas: Image, xm: int, ym: int, p: int, q: int, col: Color, i: int)
    modifies canvas
    ensures canvas.writes == old(canvas.writes) + if i < 255 then AaQuad(xm, ym, p, q, Blend(col, i)) else []
  {
    if i < 255 {
      var cc := Color(col.r, col.g, col.b, WrapU8(i));
      PlotQuad(canvas, xm, ym, p, q, cc);
    }
  }

  /** The ring pixel of one pass of `draw_outline_aa`'s loop: alpha
      `255 |err + 2(x+y) - 2| / d` in Rust's truncating division. */
  method PlotRing(canvas: Image, d: int, xm: int, ym: int, col: Color, x: int, y: int, err: int)
    requires d != 0
    modifies canvas
    ensures canvas.writes == old(canvas.writes) + AaRing(d, xm, ym, col, x, y, err)
  {
    var i := DivT(255 * Abs(err + 2 * (x + y) - 2), d);
    var color := Color(col.r, col.g, col.b, WrapU8(i));
    PlotQuad(canvas, xm, ym, x, y, color);
  }

  /** The rest of one pass of `draw_outline_aa`'s loop once `x != 0`: the
      `x` step with its outward pixel and the `y` step with its inward pixel,
      each decided on the error `err` the pass started with. */
  method AaAdvance(canvas: Image, d: int, xm: int, ym: int, col: Color, x: int, y: int, err: int)
      returns (x1: int, y1: int, e1: int)
    requires d != 0
    modifies canvas
    ensures canvas.writes == old(canvas.writes) + AaOutward(d, xm, ym, col, x, y, err) + AaInward(d, xm, ym, col, x, y, err)
    ensures (x1, y1, e1) == AaNextState(x, y, err)
  {
    var i: int;
    var e2 := err;
    var x2 := x;
    x1, y1, e1 := x, y, err;
    if e1 > y1 {
      i := DivT(255 * (e1 + 2 * x1 - 1), d);
      PlotBlended(canvas, xm, ym, x1, y1 - 1, col, i);
      x1 := x1 - 1;
      e1 := e1 - (x1 * 2 - 1);
    }
    x2 := x2 - 1;
    if e2 <= x2 + 1 {
      i := DivT(255 * (1 - 2 * y1 - e2), d);
      PlotBlended(canvas, xm, ym, x2, y1, col, i);
      y1 := y1 - 1;
      e1 := e1 - (y1 * 2 - 1);
    }
  }

  /** The ring pixel of offset `(x, y)` with error `e` and divisor `d`,
      blended by `255 |e + 2(x+y) - 2| / d`. */
  function AaRing(d: int, xm: int, ym: int, col: Color, x: int, y: int, e: int): seq<Write>
    requires d != 0
  {
    AaQuad(xm, ym, x, y, Blend(col, DivT(255 * Abs(e + 2 * (x + y) - 2), d)))
  }

  /** On an `x` step, the outward neighbour `(x, y-1)` blended by
      `255 (e + 2x - 1) / d` when that is below 255. */
  function AaOutward(d: int, xm: int, ym: int, col: Color, x: int, y: int, e: int): seq<Write>
    requires d != 0
  {
    var io := DivT(255 * (e + 2 * x - 1), d);
    if e > y && io < 255 then AaQuad(xm, ym, x, y - 1, Blend(col, io)) else []
  }

  /** On a `y` step, the inward neighbour `(x-1, y)` blended by
      `255 (1 - 2y - e) / d` when that is below 255. */
  function AaInward(d: int, xm: int, ym: int, col: Color, x: int, y: int, e: int): seq<Write>
    requires d != 0
  {
    var ii := DivT(255 * (1 - 2 * y - e), d);
    if e <= x && ii < 255 then AaQuad(xm, ym, x - 1, y, Blend(col, ii)) else []
  }

  /** The writes of one pass of the loop body at state `(x, y, e)`: the ring
      pixel and, unless `x == 0` ends the loop, the outward and the inward
      neighbour. */
  function AaStepWrites(d: int, xm: int, ym: int, col: Color, x: int, y: int, e: int): seq<Write>
    requires d != 0
  {
    if x == 0 then AaRing(d, xm, ym, col, x, y, e)
    else AaRing(d, xm, ym, col, x, y, e) + AaOutward(d, xm, ym, col, x, y, e) + AaInward(d, xm, ym, col, x, y, e)
  }

  /** The writes made at offset `(x, y)` of the ring of radius `R`. */
  function AaIteration(R: int, xm: int, ym: int, col: Color, x: int, y: int): seq<Write>
  {
    AaStepWrites(AaDivisor(R), xm, ym, col, x, y, AaErr(R, x, y))
  }

  /** The writes of `draw_outline_aa` for a list of visited offsets. */
  function AaWrites(R: int, xm: int, ym: int, col: Color, offs: seq<(int, int)>): seq<Write>
  {
    if offs == [] then [] else AaIteration(R, xm, ym, col, offs[0].0, offs[0].1) + AaWrites(R, xm, ym, col, offs[1..])
  }

  // ---------------------------------------------------------------------------
  // The loop's own view: states `(x, y, err)` updated incrementally.

  /** The loop's state update: `x -= 1; err -= 2x - 1` on an `x` step, then
      `y -= 1; err -= 2y - 1` on a `y` step, both decided by the error on entry. */
  function AaNextState(x: int, y: int, e: int): (int, int, int)
  {
    var x1 := if e > y then x - 1 else x;
    var e1 := if e > y then e - (x1 * 2 - 1) else e;
    var y1 := if e <= x then y - 1 else y;
    (x1, y1, if e <= x then e1 - (y1 * 2 - 1) else e1)
  }

  /** The incremental update keeps `err` equal to the closed-form error term. */
  lemma AaNextStateAgrees(R: int, x: int, y: int)
    ensures var (x1, y1) := AaNext(R, x, y);
      AaNextState(x, y, AaErr(R, x, y)) == (x1, y1, AaErr(R, x1, y1))
  {
    assert AaErr(R, x - 1, y) == AaErr(R, x, y) - ((x - 1) * 2 - 1);
    assert AaErr(R, x, y - 1) == AaErr(R, x, y) - ((y - 1) * 2 - 1);
    assert AaErr(R, x - 1, y - 1) == AaErr(R, x - 1, y) - ((y - 1) * 2 - 1);
  }

  /** The writes of a sequence of loop states. */
  function AaTraceWrites(d: int, xm: int, ym: int, col: Color, w: seq<(int, int, int)>): seq<Write>
    requires d != 0
  {
    if w == [] then [] else AaStepWrites(d, xm, ym, col, w[0].0, w[0].1, w[0].2) + AaTraceWrites(d, xm, ym, col, w[1..])
  }

  /** The states of a list of offsets: each with its error term. */
  function AaStates(R: int, offs: seq<(int, int)>): (w: seq<(int, int, int)>)
    ensures |w| == |offs|
    ensures forall k :: 0 <= k < |w| ==> w[k] == (offs[k].0, offs[k].1, AaErr(R, offs[k].0, offs[k].1))
  {
    if offs == [] then [] else [(offs[0].0, offs[0].1, AaErr(R, offs[0].0, offs[0].1))] + AaStates(R, offs[1..])
  }

  /** Consecutive offsets of the walk are one `AaNext` step apart, and only the
      last one has `x == 0`. */
  lemma {:induction false} AaOffsetsNext(R: int, x: int, y: int)
    requires 0 <= x <= R && -R <= y <= 0
    ensures var s := AaOffsets(R, x, y);
      s != [] && s[0] == (x, y) && s[|s| - 1].0 == 0 &&
      forall k :: 0 <= k < |s| - 1 ==> s[k].0 != 0 && s[k + 1] == AaNext(R, s[k].0, s[k].1)
    decreases x + y + R
  {
    if x != 0 {
      AaStep(R, x, y);
      var (x1, y1) := AaNext(R, x, y);
      AaOffsetsNext(R, x1, y1);
      var t := AaOffsets(R, x1, y1);
      var s := [(x, y)] + t;
      assert AaOffsets(R, x, y) == s;
      forall k | 0 <= k < |s| - 1 ensures s[k].0 != 0 && s[k + 1] == AaNext(R, s[k].0, s[k].1) {
        if k > 0 { assert s[k] == t[k - 1] && s[k + 1] == t[k]; }
      }
    }
  }

  /** The writes of the states equal the closed-form writes of the offsets. */
  lemma {:induction false} AaTraceAgrees(R: int, xm: int, ym: int, col: Color, offs: seq<(int, int)>)
    ensures AaTraceWrites(AaDivisor(R), xm, ym, col, AaStates(R, offs)) == AaWrites(R, xm, ym, col, offs)
  {
    if offs != [] {
      AaTraceAgrees(R, xm, ym, col, offs[1..]);
      var w := AaStates(R, offs);
      assert w[1..] == AaStates(R, offs[1..]);
    }
  }

  /** State `k` of the trace is not the last one (`x != 0`) and state `k + 1`
      is its successor. */
  predicate AaFollows(w: seq<(int, int, int)>, k: int)
    requires 0 <= k < |w| - 1
  {
    w[k].0 != 0 && w[k + 1] == AaNextState(w[k].0, w[k].1, w[k].2)
  }

  /** The trace `draw_outline_aa` runs through for radius `R`, in the loop's
      own terms: it starts at `(R, 0, 2 - 2R)`, each state with `x != 0` is
      followed by its `AaNextState`, it ends at the first state with `x == 0`,
      and its writes are the closed-form writes of the ring. */
  lemma AaTrace(R: int, xm: int, ym: int, col: Color) returns (w: seq<(int, int, int)>)
    requires R >= 0
    ensures w != [] && w[0] == (R, 0, 2 - 2 * R) && w[|w| - 1].0 == 0
    ensures forall k :: 0 <= k < |w| - 1 ==> AaFollows(w, k)
    ensures forall k :: 0 <= k < |w| - 1 ==> w[k].0 != 0
    ensures AaTraceWrites(2 * R - 1, xm, ym, col, w) == AaWrites(R, xm, ym, col, AaOffsets(R, R, 0))
  {
    var s := AaOffsets(R, R, 0);
    AaOffsetsNext(R, R, 0);
    w := AaStates(R, s);
    forall k | 0 <= k < |w| - 1 ensures AaFollows(w, k) && w[k].0 != 0 {
      AaNextStateAgrees(R, s[k].0, s[k].1);
    }
    AaTraceAgrees(R, xm, ym, col, s);
  }

  /** One pass of the loop body keeps "what is written so far, followed by the
      writes of the remaining trace, is the whole trace's writes": the body
      appends the ring, outward and inward writes of state `k`. */
  lemma AaTraceStep(d: int, xm: int, ym: int, col: Color, w: seq<(int, int, int)>, k: int)
    requires d != 0 && 0 <= k < |w|
    ensures AaTraceWrites(d, xm, ym, col, w[k..])
      == AaStepWrites(d, xm, ym, col, w[k].0, w[k].1, w[k].2) + AaTraceWrites(d, xm, ym, col, w[k + 1..])
  {
    assert w[k..][0] == w[k] && w[k..][1..] == w[k + 1..];
  }




  /** `q` follows `p` on the anti-aliased ring: one pixel left, down or
      diagonally. */
  predicate AaAdjacent(p: (int, int), q: (int, int))
  {
    (q.0 == p.0 || q.0 == p.0 - 1) && (q.1 == p.1 || q.1 == p.1 - 1) && q != p
  }

  /** The walk from `(x, y)`: it starts there, every visited offset lies in
      `[0, x] x [-R, y]`, each offset is adjacent to the previous one, the last
      offset has `x == 0`, and there are at most `x + y + R + 1` of them. */
  lemma {:induction false} AaOffsetsShape(R: int, x: int, y: int)
    requires 0 <= x <= R && -R <= y <= 0
    ensures var s := AaOffsets(R, x, y);
      s != [] && s[0] == (x, y) && s[|s| - 1].0 == 0 && |s| <= x + y + R + 1 &&
      (forall k :: 0 <= k < |s| ==> 0 <= s[k].0 <= x && -R <= s[k].1 <= y) &&
      (forall k :: 0 <= k < |s| - 1 ==> AaAdjacent(s[k], s[k + 1]))
    decreases x + y + R
  {
    if x != 0 {
      AaStep(R, x, y);
      var (x1, y1) := AaNext(R, x, y);
      AaOffsetsShape(R, x1, y1);
      var t := AaOffsets(R, x1, y1);
      assert AaOffsets(R, x, y) == [(x, y)] + t;
      AaShapeCons(R, (x, y), t);
    }
  }

  lemma AaShapeCons(R: int, p: (int, int), t: seq<(int, int)>)
    requires t != [] && AaAdjacent(p, t[0]) && t[|t| - 1].0 == 0
    requires forall k :: 0 <= k < |t| ==> 0 <= t[k].0 <= t[0].0 && -R <= t[k].1 <= t[0].1
    requires forall k :: 0 <= k < |t| - 1 ==> AaAdjacent(t[k], t[k + 1])
    ensures var s := [p] + t;
      s[|s| - 1].0 == 0 &&
      (forall k :: 0 <= k < |s| ==> 0 <= s[k].0 <= p.0 && -R <= s[k].1 <= p.1) &&
      (forall k :: 0 <= k < |s| - 1 ==> AaAdjacent(s[k], s[k + 1]))
  {
    var s := [p] + t;
    forall k | 0 <= k < |s| ensures 0 <= s[k].0 <= p.0 && -R <= s[k].1 <= p.1 {
      if k > 0 { assert s[k] == t[k - 1]; }
    }
    forall k | 0 <= k < |s| - 1 ensures AaAdjacent(s[k], s[k + 1]) {
      if k > 0 { assert s[k] == t[k - 1] && s[k + 1] == t[k]; }
    }
  }

  /** Every write carries the RGB of `col`. */
  predicate Tinted(ws: seq<Write>, col: Color)
  {
    forall w :: w in ws ==> w.color.r == col.r && w.color.g == col.g && w.color.b == col.b
  }

  /** The writes made at one offset carry the circle's RGB. */
  lemma AaIterationColour(R: int, xm: int, ym: int, col: Color, x: int, y: int)
    ensures Tinted(AaIteration(R, xm, ym, col, x, y), col)
  {
    var d, e := AaDivisor(R), AaErr(R, x, y);
    assert Tinted(AaRing(d, xm, ym, col, x, y, e), col);
    assert Tinted(AaOutward(d, xm, ym, col, x, y, e), col);
    assert Tinted(AaInward(d, xm, ym, col, x, y, e), col);
  }

  /** Every write of `draw_outline_aa` carries the circle's RGB; only the
      alpha channel varies. */
  lemma {:induction false} AaWritesColour(R: int, xm: int, ym: int, col: Color, offs: seq<(int, int)>)
    ensures Tinted(AaWrites(R, xm, ym, col, offs), col)
  {
    if offs != [] {
      AaWritesColour(R, xm, ym, col, offs[1..]);
      AaIterationColour(R, xm, ym, col, offs[0].0, offs[0].1);
      assert AaWrites(R, xm, ym, col, offs)
        == AaIteration(R, xm, ym, col, offs[0].0, offs[0].1) + AaWrites(R, xm, ym, col, offs[1..]);
    }
  }

  /** Radius zero: the divisor is -1, the loop stops at once, and the centre is
      written four times with alpha 0. */
  lemma AaZero(xm: int, ym: int, col: Color)
    ensures AaWrites(0, xm, ym, col, AaOffsets(0, 0, 0)) == AaQuad(xm, ym, 0, 0, Color(col.r, col.g, col.b, 0))
  {
    assert AaOffsets(0, 0, 0) == [(0, 0)];
    assert DivT(255 * Abs(AaErr(0, 0, 0) - 2), AaDivisor(0)) == 0;
  }

  // ===========================================================================
  // The circle.

  class Circle2D {
    /** Radius. */
    var r: real
    /** Centre; its colour is the circle's. */
    var m: Pt

    /** `Circle2D::new(r, m)`. */
    constructor New(r: real, m: Pt)
      ensures this.r == r && this.m == m
    {
      this.r := r;
      this.m := m;
    }

    /** `get_color`: the centre's colour. */
    function GetColor(): (c: Color)
      reads this
      ensures c == m.color
    {
      m.color
    }

    method Homogenize()
      requires m.z != 0.0
      modifies this
      ensures m == Homogenized(old(m)) && r == old(r)
    {
      m := Homogenized(m);
    }

    method Transform(tx: real, ty: real)
      modifies this
      ensures m == Translated(old(m), tx, ty) && r == old(r)
    {
      m := Translated(m, tx, ty);
    }

    /** Scales the radius by `sx` only; `sy` is ignored and the centre stays. */
    method Scale(sx: real, sy: real)
      modifies this
      ensures r == old(r) * sx && m == old(m)
    {
      r := r * sx;
    }

    method Rotate(angle: real, trig: Trig)
      modifies this
      ensures m == Rotated(old(m), angle, trig) && r == old(r)
    {
      m := Rotated(m, angle, trig);
    }

    method RotateFromPoint(angle: real, p: Point2D, trig: Trig)
      modifies this
      ensures m == RotatedFromPoint(old(m), angle, p.Value(), trig) && r == old(r)
      ensures unchanged(p)
    {
      m := RotatedFromPoint(m, angle, p.Value(), trig);
    }

    /** Like `Scale`: the radius is scaled by `sx`; `sy` and the pivot are
        ignored. */
    method ScaleFromPoint(sx: real, sy: real, p: Point2D)
      modifies this
      ensures r == old(r) * sx && m == old(m)
      ensures unchanged(p)
    {
      r := r * sx;
    }

    /** The midpoint ring, starting at `x = -R`, `y = 0`, `err = 2 - 2R`. */
    method Draw(canvas: Image)
      modifies canvas
      ensures canvas.writes == old(canvas.writes) + RingWrites(Trunc(m.x), Trunc(m.y), RingOffsets(Trunc(r)), m.color)
    {
      var xm := Trunc(m.x);
      var ym := Trunc(m.y);
      var radius := Trunc(r);
      ghost var R := radius;
      var x := -radius;
      var y := 0;
      var err := 2 - 2 * radius;
      while true
        invariant 0 <= y <= Abs(R)
        invariant err == RingErr(R, x, y)
        invariant old(canvas.writes) + RingWrites(xm, ym, RingOffsets(R), m.color)
          == canvas.writes + RingWrites(xm, ym, RingFrom(R, x, y), m.color)
        decreases Abs(R) - y + (if x <= 0 then 1 - x else 0)
      {
        ghost var (x0, y0) := (x, y);
        ghost var before := canvas.writes;
        RingStep(R, x, y);
        canvas.SetPixel(xm - x, ym - y, GetColor());
        canvas.SetPixel(xm + x, ym - y, GetColor());
        canvas.SetPixel(xm + x, ym + y, GetColor());
        canvas.SetPixel(xm - x, ym + y, GetColor());
        assert canvas.writes == before + RingQuad(xm, ym, x0, y0, m.color);
        radius := err;
        if radius <= y {
          RingErrSteps(R, x, y);
          y := y + 1;
          err := err + y * 2 + 1;
        }
        if radius > x || err > y {
          RingErrSteps(R, x, y);
          x := x + 1;
          err := err + x * 2 + 1;
        }
        assert (x, y) == RingNext(R, x0, y0);
        ghost var quad := RingQuad(xm, ym, x0, y0, m.color);
        if x > 0 {
          assert RingFrom(R, x0, y0) == [(x0, y0)] + [];
          RingWritesCons(xm, ym, (x0, y0), [], m.color);
          assert quad + [] == quad;
          break;
        }
        assert RingFrom(R, x0, y0) == [(x0, y0)] + RingFrom(R, x, y);
        RingWritesCons(xm, ym, (x0, y0), RingFrom(R, x, y), m.color);
        AppendAssoc(before, quad, RingWrites(xm, ym, RingFrom(R, x, y), m.color));
      }
    }

    /** The filled disk: scan indices `0 .. (r2 << 2)` mapped to offsets in
        the bounding square, each written when inside. */
    method DrawOutline(canvas: Image)
      modifies canvas
      ensures canvas.writes == old(canvas.writes) + DiskWrites(Trunc(m.x), Trunc(m.y), r, m.color)
    {
      var r2 := Trunc(r * r);
      var area := r2 * 4;
      var rr := Trunc(r) * 2;
      var rad := Trunc(r);
      ghost var (xm, ym, col) := (Trunc(m.x), Trunc(m.y), m.color);
      DiskWritesUnfold(xm, ym, r, col);
      for i := 0 to area
        invariant canvas.writes == old(canvas.writes) + DiskPrefix(xm, ym, rad, r2, col, i)
      {
        DiskPixel(canvas, Trunc(m.x), Trunc(m.y), rad, rr, r2, GetColor(), i, old(canvas.writes));
      }
    }

    /** The anti-aliased ring followed by the midpoint ring (not the disk). */
    method DrawAA(canvas: Image)
      requires Trunc(r) >= 0
      modifies canvas
      ensures canvas.writes == old(canvas.writes)
        + AaWrites(Trunc(r), Trunc(m.x), Trunc(m.y), m.color, AaOffsets(Trunc(r), Trunc(r), 0))
        + RingWrites(Trunc(m.x), Trunc(m.y), RingOffsets(Trunc(r)), m.color)
    {
      DrawOutlineAA(canvas);
      Draw(canvas);
    }

    /** The anti-aliased ring, from `x = R`, `y = 0`, `err = 2 - 2R` down to
        `x == 0`, with the blend divisor `r = 1 - err`. */
    method DrawOutlineAA(canvas: Image)
      requires Trunc(r) >= 0
      modifies canvas
      ensures canvas.writes == old(canvas.writes)
        + AaWrites(Trunc(r), Trunc(m.x), Trunc(m.y), m.color, AaOffsets(Trunc(r), Trunc(r), 0))
    {
      var xm := Trunc(m.x);
      var ym := Trunc(m.y);
      var x := Trunc(r);
      ghost var R := x;
      var y := 0;
      var err := 2 - 2 * x;
      var rd := 1 - err;
      ghost var col := m.color;
      ghost var w := AaTrace(R, xm, ym, col);
      ghost var total := old(canvas.writes) + AaTraceWrites(rd, xm, ym, col, w);
      ghost var k := 0;
      while true
        invariant 0 <= k < |w| && w[k] == (x, y, err) && rd == 2 * R - 1
        invariant total == canvas.writes + AaTraceWrites(rd, xm, ym, col, w[k..])
        decreases |w| - k
      {
        ghost var before := canvas.writes;
        ghost var rest := AaTraceWrites(rd, xm, ym, col, w[k + 1..]);
        ghost var ring := AaRing(rd, xm, ym, col, x, y, err);
        ghost var out := AaOutward(rd, xm, ym, col, x, y, err);
        ghost var inw := AaInward(rd, xm, ym, col, x, y, err);
        AaTraceStep(rd, xm, ym, col, w, k);
        PlotRing(canvas, rd, xm, ym, GetColor(), x, y, err);
        if x == 0 {
          AppendAssoc(before, ring, rest);
          assert k + 1 == |w|;
          assert rest == [];
          break;
        }
        assert k + 1 < |w| && AaFollows(w, k);
        AppendAssoc(before, ring + out + inw, rest);
        AppendAssoc(before, ring + out, inw);
        AppendAssoc(before, ring, out);
        AppendAssoc(before + ring, out, inw);
        x, y, err := AaAdvance(canvas, rd, xm, ym, GetColor(), x, y, err);
        k := k + 1;
      }
    }
  }
}
