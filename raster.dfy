/** The pixel-buffer collaborator (the `raster` crate) and the numeric casts the
    rasteriser relies on.  Only what the core consumes is modelled: RGBA colours
    with 8-bit channels, `set_pixel` as an appended write, and overwrite
    semantics for reading the buffer back. */
module Raster {

  /** An 8-bit channel value. */
  type Byte = x: int | 0 <= x < 256

  datatype Color = Color(r: Byte, g: Byte, b: Byte, a: Byte)

  /** `Color::white()`. */
  function White(): (c: Color)
    ensures c.r == c.g == c.b == c.a == 255
  {
    Color(255, 255, 255, 255)
  }

  /** `Color::rgb`: an opaque colour. */
  function Rgb(r: Byte, g: Byte, b: Byte): (c: Color)
    ensures c.a == 255 && c.r == r && c.g == g && c.b == b
  {
    Color(r, g, b, 255)
  }

  /** One `set_pixel(x, y, color)` call. */
  datatype Write = Write(x: int, y: int, color: Color)

  /** Concatenation is associative; stated once so that the drawing loops can
      regroup their writes without extensional reasoning. */
  lemma AppendAssoc<T>(a: seq<T>, b: seq<T>, c: seq<T>)
    ensures a + (b + c) == (a + b) + c
  {
  }

  /** `v as i32` for a float: truncation toward zero (saturation at the i32
      bounds is not modelled). */
  function Trunc(v: real): (n: int)
    ensures v >= 0.0 ==> 0 <= n && n as real <= v < n as real + 1.0
    ensures v < 0.0 ==> n <= 0 && n as real - 1.0 < v <= n as real
  {
    if v >= 0.0 then v.Floor else -((-v).Floor)
  }

  /** `v as u8` for a float: truncation toward zero, clamped to 0..255. */
  function SatU8(v: real): (b: Byte)
    ensures 0.0 <= v < 256.0 ==> b as real <= v < b as real + 1.0
    ensures v <= 0.0 ==> b == 0
    ensures v >= 255.0 ==> b == 255
  {
    if v <= 0.0 then 0 else if v >= 255.0 then 255 else v.Floor
  }

  /** `i as u8` for an i32: keeps the low eight bits (two's complement). */
  function WrapU8(i: int): (b: Byte)
    ensures 0 <= i < 256 ==> b == i
    ensures (b - i) % 256 == 0
  {
    i % 256
  }

  /** Rust's `/` on i32: the quotient truncated toward zero.  Its magnitude is
      the largest whole number of divisors that fits in the dividend's, and a
      non-zero quotient is positive exactly when the operands have the same
      sign. */
  function DivT(a: int, b: int): (q: int)
    requires b != 0
    ensures a >= 0 && b > 0 ==> q == a / b
    ensures Abs(a) - Abs(b) < Abs(q) * Abs(b) <= Abs(a)
    ensures q != 0 ==> ((q > 0) == ((a > 0) == (b > 0)))
  {
    var q := Abs(a) / Abs(b);
    DivMagnitude(Abs(a), Abs(b));
    if (a < 0) != (b < 0) then -q else q
  }

  /** Euclidean division of magnitudes leaves less than one divisor over. */
  lemma DivMagnitude(n: nat, d: int)
    requires d > 0
    ensures n - d < (n / d) * d <= n
    ensures n / d >= 0
    ensures n / d != 0 ==> n > 0
  {
    var q, r := n / d, n % d;
    assert d * q + r == n;
    assert 0 <= r < d;
  }

  /** Rust's `%` on i32: what the truncated quotient leaves over, smaller than
      the divisor in magnitude and of the dividend's sign. */
  function RemT(a: int, b: int): (m: int)
    requires b != 0
    ensures a >= 0 && b > 0 ==> m == a % b
    ensures a == DivT(a, b) * b + m
    ensures Abs(m) < Abs(b)
    ensures m != 0 ==> ((m > 0) == (a > 0))
  {
    RemSign(a, b);
    a - DivT(a, b) * b
  }

  /** The remainder left by the truncated quotient is smaller than the divisor
      and has the dividend's sign. */
  lemma RemSign(a: int, b: int)
    requires b != 0
    ensures var m := a - DivT(a, b) * b;
      Abs(m) < Abs(b) && (m != 0 ==> ((m > 0) == (a > 0)))
  {
    DivMagnitude(Abs(a), Abs(b));
    DivTTimes(a, b);
  }

  /** The truncated quotient times the divisor is the whole-divisor part of
      the dividend's magnitude, with the dividend's sign. */
  lemma DivTTimes(a: int, b: int)
    requires b != 0
    ensures var p: int := (Abs(a) / Abs(b)) * Abs(b);
      DivT(a, b) * b == if a < 0 then -p else p
  {
    var q0: int := Abs(a) / Abs(b);
    var d: int := Abs(b);
    MulSigns(q0, d);
  }

  /** Sign rules of multiplication. */
  lemma MulSigns(x: int, y: int)
    ensures (-x) * (-y) == x * y && (-x) * y == -(x * y) && x * (-y) == -(x * y)
  {
  }

  /** Where truncation and Euclidean division part ways: a negative dividend
      or divisor. */
  lemma TruncatingExamples()
    ensures DivT(-7, 2) == -3 && RemT(-7, 2) == -1 && -7 / 2 == -4 && -7 % 2 == 1
    ensures DivT(7, -2) == -3 && RemT(7, -2) == 1
    ensures DivT(-7, -2) == 3 && RemT(-7, -2) == -1
  {
  }

  function Abs(n: int): nat { if n < 0 then -n else n }

  // ---------------------------------------------------------------------------
  // The buffer.

  /** The raster image a primitive draws on.  Its observable history is the
      sequence of `set_pixel` calls made on it; bounds checking (and the panic
      of `.unwrap()` on an out-of-range pixel) belongs to the crate and is not
      modelled. */
  class Image {
    const height: int
    const width: int
    var writes: seq<Write>

    /** `Image::blank(height, width)`. */
    constructor Blank(height: int, width: int)
      ensures this.height == height && this.width == width
      ensures writes == []
    {
      this.height := height;
      this.width := width;
      writes := [];
    }

    /** `canvas.set_pixel(x, y, color)`. */
    method SetPixel(x: int, y: int, color: Color)
      modifies this
      ensures writes == old(writes) + [Write(x, y, color)]
    {
      writes := writes + [Write(x, y, color)];
    }
  }

  function Pos(w: Write): (int, int) { (w.x, w.y) }

  /** The pixels a sequence of writes touches. */
  function Touched(ws: seq<Write>): (t: set<(int, int)>)
    ensures forall i :: 0 <= i < |ws| ==> Pos(ws[i]) in t
    ensures forall k :: k in t ==> exists i :: 0 <= i < |ws| && Pos(ws[i]) == k
  {
    set i | 0 <= i < |ws| :: Pos(ws[i])
  }

  /** Applies the writes in order on top of `m`: a later write to a pixel
      overwrites an earlier one.  An image's contents are
      `Paint(map[], writes)`. */
  function Paint(m: map<(int, int), Color>, ws: seq<Write>): map<(int, int), Color>
    decreases |ws|
  {
    if ws == [] then m else Paint(m[Pos(ws[0]) := ws[0].color], ws[1..])
  }

  /** Painting a concatenation is painting one part after the other. */
  lemma {:induction false} PaintAppend(m: map<(int, int), Color>, a: seq<Write>, b: seq<Write>)
    ensures Paint(m, a + b) == Paint(Paint(m, a), b)
    decreases |a|
  {
    if a != [] {
      var m' := m[Pos(a[0]) := a[0].color];
      assert (a + b)[0] == a[0] && (a + b)[1..] == a[1..] + b;
      assert Paint(m, a + b) == Paint(m', a[1..] + b);
      assert Paint(m, a) == Paint(m', a[1..]);
      PaintAppend(m', a[1..], b);
    } else {
      assert a + b == b;
    }
  }

  /** What `m` held at the pixels that `ws` touches does not matter. */
  lemma {:induction false} PaintForgets(m1: map<(int, int), Color>, m2: map<(int, int), Color>, ws: seq<Write>)
    requires forall k :: k !in Touched(ws) ==> (k in m1 <==> k in m2)
    requires forall k :: k !in Touched(ws) && k in m1 && k in m2 ==> m1[k] == m2[k]
    ensures Paint(m1, ws) == Paint(m2, ws)
    decreases |ws|
  {
    if ws != [] {
      var p := Pos(ws[0]);
      var n1, n2 := m1[p := ws[0].color], m2[p := ws[0].color];
      TouchedCons(ws);
      PaintForgets(n1, n2, ws[1..]);
    }
  }

  /** Painting the same writes twice leaves what painting them once leaves. */
  lemma PaintTwice(m: map<(int, int), Color>, ws: seq<Write>)
    ensures Paint(Paint(m, ws), ws) == Paint(m, ws)
  {
    PaintUntouched(m, ws);
    PaintForgets(Paint(m, ws), m, ws);
  }

  /** Painting leaves untouched pixels as they were. */
  lemma {:induction false} PaintUntouched(m: map<(int, int), Color>, ws: seq<Write>)
    ensures forall k :: k !in Touched(ws) ==> (k in Paint(m, ws) <==> k in m)
    ensures forall k :: k !in Touched(ws) && k in m ==> Paint(m, ws)[k] == m[k]
    decreases |ws|
  {
    if ws != [] {
      TouchedCons(ws);
      PaintUntouched(m[Pos(ws[0]) := ws[0].color], ws[1..]);
    }
  }

  lemma TouchedCons(ws: seq<Write>)
    requires ws != []
    ensures Touched(ws) == {Pos(ws[0])} + Touched(ws[1..])
  {
    forall k | k in Touched(ws) ensures k == Pos(ws[0]) || k in Touched(ws[1..]) {
      var i :| 0 <= i < |ws| && Pos(ws[i]) == k;
      if i > 0 { assert Pos(ws[1..][i - 1]) == k; }
    }
  }
}
