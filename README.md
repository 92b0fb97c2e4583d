# rust-graphic-lib core in Dafny

This project models the geometric core of `rust-graphic-lib`, a small Rust
2D graphics library.

- **Primitives.** `Point2D`, `Line2D`, `Circle2D` and `Triangle2D` share the
  `Geometric2D` operations: homogenise, translate, scale, rotate, rotate and
  scale about a pivot, draw and draw the outline.
- **Helpers.** Linear and barycentric interpolation.
- **Renderer.** Keeps a list of borrowed primitives and draws them all on one
  raster image.

## How the model is set up

Modules:

- `Raster`: the image, colours, and the numeric casts the drawing code uses.
- `Points`: the point.
- `Geometric`: interpolation, and the two line rasterisers as parameters.
- `Lines`, `Circles`, `Triangles`: the three other primitives.
- `Renderers`: the renderer.

Drawing appends to a history:

- An image is a class whose history is the sequence of `set_pixel` calls made
  on it (`Raster.Image.writes`).
- A later write to the same pixel overwrites an earlier one (`Raster.Paint`).
- Each draw method is proved to append exactly the writes of a specification
  function: `RingWrites`, `DiskWrites`, `AaWrites`, `TriangleWrites`,
  `AllWrites`.
- Lemmas then state what those writes are.

Values and mutable objects:

- A primitive's points are values (`Points.Pt`).
- A free-standing point, line, circle or triangle, and the renderer, are
  classes whose methods update their fields in place.
- Each transform method is specified by a pure function of the old value.

Numbers:

| Rust | model |
|---|---|
| `f64` | `real` |
| `v as i32` on a float | truncation toward zero (`Raster.Trunc`) |
| `v as u8` on a float | saturation to 0..255 (`Raster.SatU8`) |
| `i as u8` on an `i32` | the low eight bits (`Raster.WrapU8`) |
| integer `/` and `%` | truncating division (`Raster.DivT`, `Raster.RemT`) |

Sine and cosine are not interpreted. A `Trig` value supplies them.

Where the intended behaviour and the code differ, the model follows the code:

- `rotate` computes the new `y` from the already rotated `x`
  (src/geometric/point2d.rs:64-65).
- `Line2D::draw` and `Line2D::draw_outline` both use the anti-aliased line.
- For a circle:
  - `draw` is the midpoint ring;
  - `draw_outline` is the filled disk;
  - `draw_aa` draws the anti-aliased ring, then the plain ring.
- The disk scan covers the half-open square `[-R, R) x [-R, R)`.
- The triangle fill scans the half-open bounding box.
- The triangle's winding fix swaps the positions of `b` and `c` but not their
  colours.

## Model

| member | source | states |
|---|---|---|
| Raster.White | src/geometric/point2d.rs:20 | `Color::white()` is opaque white: every channel 255 |
| Raster.Rgb | src/geometric/triangle2d.rs:80 | `Color::rgb` keeps the three channels and sets alpha to 255 |
| Raster.Trunc | src/geometric/point2d.rs:81 | `as i32` truncates toward zero: the result is the integer part, below or above the value according to its sign |
| Raster.SatU8 | src/geometric/triangle2d.rs:80 | `as u8` on a float truncates inside 0..256, gives 0 at or below zero and 255 at or above 255 |
| Raster.WrapU8 | src/geometric/circle2d.rs:140 | `as u8` on an `i32` keeps values in 0..255 and is congruent to the input modulo 256 |
| Raster.DivT | src/geometric/circle2d.rs:115 | integer `/` truncates toward zero for every sign: the quotient's magnitude is the number of whole divisors in the dividend's magnitude, a non-zero quotient is positive exactly when the operands share a sign, and it agrees with Euclidean division on a non-negative dividend and a positive divisor |
| Raster.RemT | src/geometric/circle2d.rs:114 | integer `%` is what the truncated quotient leaves (`a == (a / b) * b + a % b`), smaller than the divisor in magnitude and of the dividend's sign; it agrees with the Euclidean remainder on a non-negative dividend and a positive divisor |
| Raster.TruncatingExamples | src/geometric/circle2d.rs:114-115 | with a negative dividend or divisor Rust's `/` and `%` differ from Euclidean ones: `-7 / 2 == -3`, `-7 % 2 == -1`, `7 / -2 == -3`, `7 % -2 == 1` |
| Raster.Image.Blank | src/graphic/renderer.rs:16 | a blank image has the given size and no writes |
| Raster.Image.SetPixel | src/geometric/point2d.rs:81 | `set_pixel` appends exactly one write and nothing else |
| Raster.PaintAppend | src/graphic/renderer.rs:33-37 | painting two runs of writes one after the other equals painting their concatenation |
| Raster.PaintTwice | src/graphic/renderer.rs:33-37 | repeating the same run of writes leaves every pixel as the first run left it |
| Raster.PaintUntouched | src/geometric/point2d.rs:81 | a pixel no write touches keeps its previous colour |
| Points.NewColor | src/geometric/point2d.rs:28-35 | `new_color` stores `x`, `y`, `z` and the colour unchanged |
| Points.New | src/geometric/point2d.rs:19-21 | `new` gives a white point with the given coordinates |
| Points.NewHomogenized | src/geometric/point2d.rs:22-24 | `new_homogenized` gives a white point with `z == 1`, which homogenising leaves unchanged |
| Points.NewColorHomogenized | src/geometric/point2d.rs:25-27 | `new_color_homogenized` gives a point of that colour with `z == 1`, which homogenising leaves unchanged |
| Points.HomogenizedMeaning | src/geometric/point2d.rs:46-50 | homogenising sets `z` to 1, keeps the colour, and the new `x`, `y` times the old `z` are the old `x`, `y` (the same Euclidean point) |
| Points.HomogenizeIdempotent | src/geometric/point2d.rs:46-50 | homogenising twice is the same as homogenising once |
| Points.HomogenizeExample | src/geometric/point2d.rs:46-50 | `(10, 6, 2)` homogenises to `(5, 3, 1)` |
| Points.TranslateInverse | src/geometric/point2d.rs:52-55 | translating by `(tx, ty)` and then by `(-tx, -ty)` gives back the original point; `z` and the colour do not change |
| Points.ScaledFromPointClosedForm | src/geometric/point2d.rs:74-78 | scaling about a pivot maps each coordinate to the pivot's coordinate plus the scaled distance from it; a point on the pivot stays where it is |
| Points.RotateFromPointFixesPivot | src/geometric/point2d.rs:68-72 | rotating about a pivot leaves a point on the pivot where it is |
| Points.RotateIdentity | src/geometric/point2d.rs:62-66 | rotation keeps `z` and the colour; with cosine 1 and sine 0 it is the identity |
| Points.RotateQuarterTurn | src/geometric/point2d.rs:62-66 | as written, a quarter turn sends `(1, 0)` to the origin instead of to `(0, 1)` |
| Points.RotatedIntendedKeepsLength | src/geometric/point2d.rs:62-66 | the intended rotation keeps the distance from the origin when `sin² + cos² = 1`, and sends `(1, 0)` to `(0, 1)` on a quarter turn |
| Points.Point2D.constructor | src/geometric/point2d.rs:28-35 | the object holds the given point value |
| Points.Point2D.GetColor | src/geometric/point2d.rs:36 | `get_color` returns the point's colour |
| Points.Point2D.Homogenize | src/geometric/point2d.rs:46-50 | the new value is the homogenised old value |
| Points.Point2D.Transform | src/geometric/point2d.rs:52-55 | the new value is the old value translated by `(tx, ty)` |
| Points.Point2D.Scale | src/geometric/point2d.rs:57-60 | the new value is the old value scaled by `(sx, sy)` |
| Points.Point2D.Rotate | src/geometric/point2d.rs:62-66 | the new value is the old value rotated as the code computes it: the new `y` uses the new `x` |
| Points.Point2D.RotateFromPoint | src/geometric/point2d.rs:68-72 | the new value is the old value translated by minus the pivot, rotated, and translated back; the pivot is unchanged |
| Points.Point2D.ScaleFromPoint | src/geometric/point2d.rs:74-78 | the new value is the old value scaled about the pivot; the pivot is unchanged |
| Points.Point2D.Draw | src/geometric/point2d.rs:80-82 | drawing appends one write at the truncated coordinates, in the point's colour |
| Points.Point2D.DrawOutline | src/geometric/point2d.rs:84-86 | the outline is the same single write as `draw` |
| Geometric.DrawLine | src/geometric/mod.rs:6 | `draw_line` appends the solid line's writes for the two end points |
| Geometric.DrawLineAA | src/geometric/mod.rs:7 | `draw_line_aa` appends the anti-aliased line's writes for the two end points |
| Geometric.InterpolateEnds | src/geometric/geometric.rs:88-104 | `interpolate` gives `a` at `t = 0` and `b` at `t = 1`; the documented example gives 7.5 |
| Geometric.InterpolateBetween | src/geometric/geometric.rs:88-104 | for `t` in `[0, 1]` the result lies between `a` and `b` |
| Geometric.BarycentricExample | src/geometric/geometric.rs:106-124 | the documented example gives 12.5 |
| Geometric.BarycentricUniform | src/geometric/geometric.rs:106-124 | when the weights sum to one, three equal values interpolate to that value |
| Geometric.BarycentricBetween | src/geometric/geometric.rs:106-124 | when the weights are non-negative and sum to one, the result lies between the smallest and the largest value |
| Geometric.WeightedMono | src/geometric/geometric.rs:122-124 | non-negative weights preserve a pointwise order of the three values |
| Lines.Line2D.New | src/geometric/line2d.rs:15-20 | the line holds the two given end points |
| Lines.Line2D.Homogenize | src/geometric/line2d.rs:36-39 | both end points are homogenised |
| Lines.Line2D.Transform | src/geometric/line2d.rs:41-44 | both end points are translated by `(tx, ty)` |
| Lines.Line2D.Scale | src/geometric/line2d.rs:46-49 | both end points are scaled by `(sx, sy)` |
| Lines.Line2D.Rotate | src/geometric/line2d.rs:51-54 | both end points are rotated as a point rotates |
| Lines.Line2D.RotateFromPoint | src/geometric/line2d.rs:56-59 | both end points rotate about the same pivot, which is unchanged |
| Lines.Line2D.ScaleFromPoint | src/geometric/line2d.rs:61-64 | both end points scale about the same pivot, which is unchanged |
| Lines.Line2D.Draw | src/geometric/line2d.rs:30-32 | drawing appends the anti-aliased line from `from` to `to` |
| Lines.Line2D.DrawOutline | src/geometric/line2d.rs:33-35 | the outline is the same anti-aliased line |
| Circles.RingErrSteps | src/geometric/circle2d.rs:92-102 | the incremental updates `err += 2y + 1` and `err += 2x + 1` keep `err` equal to the closed-form error of the diagonal step |
| Circles.RingStep | src/geometric/circle2d.rs:92-102 | every step of the ring moves `x`, `y` or both up by one, never stays put, and never takes `y` above the radius |
| Circles.RingWritesCons | src/geometric/circle2d.rs:87-90 | the first plotted offset contributes its four mirrored writes before the rest |
| Circles.RingWritesAt | src/geometric/circle2d.rs:87-90 | each plotted offset `(x, y)` gives exactly four writes, at `(xm-x, ym-y)`, `(xm+x, ym-y)`, `(xm+x, ym+y)`, `(xm-x, ym+y)` in that order, in the circle's colour |
| Circles.RingFromShape | src/geometric/circle2d.rs:83-105 | the walk from `(x, y)` starts there, stays in `[x, 0] x [y, R]`, moves by one pixel at each step and ends with `x == 0` |
| Circles.RingOffsetsShape | src/geometric/circle2d.rs:83-105 | for `R >= 0` the ring starts at `(-R, 0)`, stays in the quadrant `[-R, 0] x [0, R]`, moves by one pixel at each step and ends with `x == 0` before the loop breaks |
| Circles.RingDegenerate | src/geometric/circle2d.rs:83-105 | a radius at or below zero plots exactly one offset, `(-R, 0)` |
| Circles.DiskDivisorNonZero | src/geometric/circle2d.rs:109-115 | a positive `(r*r) as i32` implies a non-zero `r as i32`, so the scan never divides by zero |
| Circles.DiskPrefixMember | src/geometric/circle2d.rs:113-119 | the first `n` scan indices write exactly the pixels whose offset is scanned and inside `tx² + ty² <= r2`, in the circle's colour |
| Circles.DiskInside | src/geometric/circle2d.rs:108-120 | every pixel the disk writes is in the circle's colour and within `(r*r) as i32` of the centre |
| Circles.DiskSmall | src/geometric/circle2d.rs:108-120 | a radius strictly between -1 and 1 writes nothing |
| Circles.DiskWholeRadius | src/geometric/circle2d.rs:108-120 | for a whole radius `R >= 1` a pixel is written iff its offset lies in `[-R, R) x [-R, R)` and inside the circle |
| Circles.DiskWritesWhole | src/geometric/circle2d.rs:109-112 | for a whole radius, `r2 = R²` and the scan has `4R²` indices |
| Circles.DiskIndexOf | src/geometric/circle2d.rs:113-115 | every offset of `[-R, R) x [-R, R)` is scanned, at index `2R(ty + R) + (tx + R)` |
| Circles.DiskIndexRange | src/geometric/circle2d.rs:113-115 | every scan index maps to an offset in `[-R, R) x [-R, R)` |
| Circles.DiskMissesEdges | src/geometric/circle2d.rs:108-120 | the disk never writes the edge pixels `(xm+R, ym)` and `(xm, ym+R)`, although both lie on the circle, while it does write `(xm-R, ym)` and `(xm, ym-R)` |
| Circles.AaDivisor | src/geometric/circle2d.rs:135-136 | the blend divisor `r = 1 - err` is `2R - 1`, which is odd and so never zero |
| Circles.AaStep | src/geometric/circle2d.rs:146-174 | from `x >= 1`, every step moves `x`, `y` or both down by one, never stays put, and keeps `y >= -R` |
| Circles.PlotQuad | src/geometric/circle2d.rs:141-144 | four `set_pixel` calls at the four mirrored positions, in the given colour |
| Circles.PlotBlended | src/geometric/circle2d.rs:150-157 | the outward or inward pixel is plotted in four quadrants only when its blend value is below 255 |
| Circles.PlotRing | src/geometric/circle2d.rs:139-144 | the ring pixel is plotted with alpha `255·|err + 2(x+y) - 2| / r` under truncating division |
| Circles.AaAdvance | src/geometric/circle2d.rs:146-174 | the rest of one pass writes the outward, then the inward neighbour, and updates `(x, y, err)` as the source does |
| Circles.AaNextStateAgrees | src/geometric/circle2d.rs:146-174 | the incremental error updates keep `err` equal to the closed-form error term |
| Circles.AaStates | src/geometric/circle2d.rs:138-175 | the loop's states are the visited offsets, each paired with its error term |
| Circles.AaOffsetsNext | src/geometric/circle2d.rs:138-175 | consecutive visited offsets are one step apart, and only the last one has `x == 0` |
| Circles.AaTraceAgrees | src/geometric/circle2d.rs:138-175 | the writes computed from the loop's states equal the closed-form writes of the offsets |
| Circles.AaTrace | src/geometric/circle2d.rs:127-176 | for `R >= 0` the loop runs through a trace that starts at `(R, 0, 2 - 2R)`, steps as the code does and stops at the first `x == 0`; its writes are the ring's |
| Circles.AaTraceStep | src/geometric/circle2d.rs:138-175 | one pass of the loop body appends the ring, outward and inward writes of the current state before those of the later states |
| Circles.AaOffsetsShape | src/geometric/circle2d.rs:138-175 | the walk from `(x, y)` starts there, stays in `[0, x] x [-R, y]`, moves by one pixel at each step, ends at `x == 0`, and has at most `x + y + R + 1` offsets |
| Circles.AaIterationColour | src/geometric/circle2d.rs:140-170 | every write made at one offset carries the circle's RGB |
| Circles.AaWritesColour | src/geometric/circle2d.rs:127-176 | every write of the anti-aliased ring carries the circle's RGB; only alpha varies |
| Circles.AaZero | src/geometric/circle2d.rs:127-176 | radius zero writes the centre four times with alpha 0 and stops |
| Circles.Circle2D.New | src/geometric/circle2d.rs:36-38 | the circle holds the given radius and centre |
| Circles.Circle2D.GetColor | src/geometric/circle2d.rs:41 | the circle's colour is its centre's colour |
| Circles.Circle2D.Homogenize | src/geometric/circle2d.rs:51-53 | the centre is homogenised; the radius is unchanged |
| Circles.Circle2D.Transform | src/geometric/circle2d.rs:55-57 | the centre is translated; the radius is unchanged |
| Circles.Circle2D.Scale | src/geometric/circle2d.rs:61-63 | the radius is multiplied by `sx`; `sy` and the centre are ignored |
| Circles.Circle2D.Rotate | src/geometric/circle2d.rs:65-67 | the centre is rotated as a point rotates; the radius is unchanged |
| Circles.Circle2D.RotateFromPoint | src/geometric/circle2d.rs:69-71 | the centre rotates about the pivot; the radius and the pivot are unchanged |
| Circles.Circle2D.ScaleFromPoint | src/geometric/circle2d.rs:75-77 | the radius is multiplied by `sx`; `sy`, the pivot and the centre are ignored |
| Circles.Circle2D.Draw | src/geometric/circle2d.rs:79-106 | drawing appends exactly the four mirrored writes of each offset of the midpoint ring of radius `r as i32`, in order |
| Circles.Circle2D.DrawOutline | src/geometric/circle2d.rs:108-120 | the outline appends exactly the disk scan's writes |
| Circles.Circle2D.DrawAA | src/geometric/circle2d.rs:122-125 | appends the anti-aliased ring's writes, then the midpoint ring's |
| Circles.Circle2D.DrawOutlineAA | src/geometric/circle2d.rs:127-176 | appends exactly the anti-aliased ring's writes: at each visited offset the ring pixel, then the blended outward and inward neighbours |
| Triangles.EdgeEnds | src/geometric/triangle2d.rs:53-61 | the edge through two corners is zero at both of them |
| Triangles.CornersArea | src/geometric/triangle2d.rs:35-52 | after the winding fix, the corners' signed doubled area is the absolute value of the original one |
| Triangles.SwapNegates | src/geometric/triangle2d.rs:45-52 | swapping the last two corners negates the signed area |
| Triangles.OppositeValues | src/geometric/triangle2d.rs:53-64 | each edge, evaluated at the corner it does not pass through, gives minus the doubled area |
| Triangles.ColumnMember | src/geometric/triangle2d.rs:70-82 | a write is in column `xs`'s scan iff it is at an inside pixel of that column within the row range, in that pixel's interpolated colour |
| Triangles.BoxMember | src/geometric/triangle2d.rs:69-83 | a write is in the box scan iff it is at an inside pixel of the half-open box, in that pixel's interpolated colour |
| Triangles.TriangleMember | src/geometric/triangle2d.rs:34-84 | `draw` writes nothing for a degenerate triangle; otherwise it writes exactly the pixels of the half-open bounding box where all three edge values are at most zero, each in its interpolated colour |
| Triangles.CollinearWritesNothing | src/geometric/triangle2d.rs:42-44 | three collinear vertices write nothing |
| Triangles.ColumnOrdered | src/geometric/triangle2d.rs:70-82 | within a column the writes strictly increase in `y`, so no pixel is written twice |
| Triangles.WeightsSumToOne | src/geometric/triangle2d.rs:62-76 | for a non-degenerate triangle, `alpha + beta + gamma == 1` at every point |
| Triangles.EdgeSum | src/geometric/triangle2d.rs:53-61 | the three edge values sum to minus the doubled area at every point |
| Triangles.UniformColour | src/geometric/triangle2d.rs:74-80 | three vertices of one colour fill with that colour |
| Triangles.CornerWeights | src/geometric/triangle2d.rs:62-76 | the weights are `(0, 1, 0)` at the second corner and `(0, 0, 1)` at the third |
| Triangles.ClockwiseSwapsColours | src/geometric/triangle2d.rs:45-52 | for clockwise vertices, as written, the colour at `b`'s position is `c`'s and the colour at `c`'s position is `b`'s |
| Triangles.FixedVertexColours | src/geometric/triangle2d.rs:45-80 | with the colours swapped together with the positions, the colour at `b` is `b`'s and the colour at `c` is `c`'s |
| Triangles.FixedOrderIndependent | src/geometric/triangle2d.rs:45-80 | with the colours swapped together with the positions, the fill of `(a, b, c)` equals the fill of `(a, c, b)` |
| Triangles.SetupCorners | src/geometric/triangle2d.rs:35-52 | `draw`'s corner variables after the early exit and the winding fix are the winding-fixed corners, with a non-zero area |
| Triangles.SetupScan | src/geometric/triangle2d.rs:53-68 | `draw`'s edge coefficients, reciprocals and truncated bounding box are exactly the fill and the box of the corners, and none of the three reciprocals divides by zero |
| Triangles.PlotPixel | src/geometric/triangle2d.rs:71-81 | the inner loop body writes the pixel in its interpolated colour iff all three edge values are at most zero |
| Triangles.ScanColumn | src/geometric/triangle2d.rs:70-82 | the inner loop appends exactly the column's writes |
| Triangles.ScanBox | src/geometric/triangle2d.rs:69-83 | the outer loop appends exactly the box's writes, column by column |
| Triangles.Triangle2D.New | src/geometric/triangle2d.rs:18-24 | the triangle holds the three given vertices |
| Triangles.Triangle2D.Homogenize | src/geometric/triangle2d.rs:90-94 | all three vertices are homogenised |
| Triangles.Triangle2D.Transform | src/geometric/triangle2d.rs:95-99 | all three vertices are translated |
| Triangles.Triangle2D.Scale | src/geometric/triangle2d.rs:100-104 | all three vertices are scaled |
| Triangles.Triangle2D.Rotate | src/geometric/triangle2d.rs:105-109 | all three vertices are rotated as a point rotates |
| Triangles.Triangle2D.RotateFromPoint | src/geometric/triangle2d.rs:110-114 | all three vertices rotate about the same pivot, which is unchanged |
| Triangles.Triangle2D.ScaleFromPoint | src/geometric/triangle2d.rs:116-120 | all three vertices scale about the same pivot, which is unchanged |
| Triangles.Triangle2D.DrawOutline | src/geometric/triangle2d.rs:85-89 | appends the solid lines `a`-`b`, `b`-`c`, `c`-`a`, in that order |
| Triangles.Triangle2D.Draw | src/geometric/triangle2d.rs:34-84 | appends exactly the half-plane fill's writes, which the lemmas above characterise |
| Renderers.AllWritesStep | src/graphic/renderer.rs:33-37 | drawing the next primitive of the list extends the writes of the ones before it |
| Renderers.ImageApart | src/graphic/renderer.rs:6-9 | the image is not one of the registered primitives, so drawing on it changes none of them |
| Renderers.DrawShape | src/graphic/renderer.rs:28-37 | a call through the trait object appends the primitive's own `draw` or `draw_outline` writes |
| Renderers.DrawNext | src/graphic/renderer.rs:33-37 | one turn of the renderer's loop appends the next primitive's writes |
| Renderers.Renderer.New | src/graphic/renderer.rs:13-18 | a new renderer has no primitives and a fresh blank image of the given size |
| Renderers.Renderer.Add | src/graphic/renderer.rs:22-24 | `add` puts the primitive at the front of the list |
| Renderers.Renderer.Draw | src/graphic/renderer.rs:33-37 | `draw` appends every primitive's `draw` writes in list order and leaves the list unchanged |
| Renderers.Renderer.DrawOutline | src/graphic/renderer.rs:28-32 | `draw_outline` appends every primitive's `draw_outline` writes in list order and leaves the list unchanged |
| Renderers.AllWritesCons | src/graphic/renderer.rs:22-24 | the primitive added last is drawn first, then the others in order |
| Renderers.RedrawKeepsPixels | src/graphic/renderer.rs:33-37 | drawing the same primitives a second time leaves every pixel as the first drawing left it |

## Left out

- Image I/O: `save` and `save_as` (src/graphic/renderer.rs:19-21, 25-27) write files, and the image encoding belongs to the `raster` crate. Neither is modelled.
- Bounds checks: `set_pixel` checks bounds, and `.unwrap()` panics on an out-of-range pixel. The model records every call without a bounds check, so it never panics.
- `i32` overflow: `as i32` saturates at the `i32` bounds and arithmetic on `i32` can overflow. The model uses unbounded integers.
- Floating point: `f64` rounding, infinities and NaN are not modelled, because the model uses exact reals.
- Division by zero: `homogenize` with `z == 0` divides by zero. The homogenise members therefore require `z != 0`.
- `sin` and `cos`: uninterpreted functions, supplied as parameters.
- `PI`: the 16-digit decimal value of `std::f64::consts::PI`.
- Line rasterisers: `draw_line` and `draw_line_aa` are re-exported by src/geometric/mod.rs:6-7. Their bodies are not part of this model, so each one is a parameter: a function from the two end points to its `set_pixel` calls.
- Missing trait methods: the `Geometric2D` trait also declares `draw_aa` and `draw_outline_aa` (src/geometric/geometric.rs:77, 85). Only `Circle2D` implements them. The point, line and triangle implementations have no bodies for them to model.
- `Display` implementations: these only format text and are not modelled.
- Circles.Circle2D.DrawOutlineAA: requires `r as i32 >= 0`. For a negative truncated radius the source loop starts with `x < 0`, only ever decreases `x`, and never reaches `x == 0`, so it does not terminate.
- Circles.Circle2D.DrawAA: has the same requirement, because it calls `draw_outline_aa`.
- Trait objects: the renderer's `&Geometric2D` references are a tagged datatype over the four primitive classes, and a call through the trait is a match.
- Borrowing: lifetimes are not modelled. The renderer's primitives are shared references that the loops only read.
- Triangles.Triangle2D.Draw: models the code as written, so the corrected fill of the Findings table (`FixedTriangleWrites`) is proved but not used by `draw`.
- Points.Point2D.Rotate: models the code as written, so the intended rotation of the Findings table (`RotatedIntended`) is proved but not used by the transforms.

## Findings

| source | as written | input that shows it | evidently intended | confidence | as-written member | corrected member |
|---|---|---|---|---|---|---|
| src/geometric/triangle2d.rs:45-52 | for clockwise vertices the winding fix swaps the positions of `b` and `c`, but the colour interpolation still reads `b`'s and `c`'s colours in their original roles | `a = (0,0)` red, `b = (10,0)` green, `c = (0,10)` blue: the area is `-100`, so the corners are swapped, and the colour at `b`'s position comes out blue while the colour at `c`'s comes out green | each vertex's position carries its own colour, whatever the winding | not executed | Triangles.ClockwiseSwapsColours | Triangles.FixedVertexColours |
| src/geometric/point2d.rs:62-66 | `rotate` assigns the new `x` first and then computes the new `y` from it | a quarter turn (cosine 0, sine 1) of `(1, 0)` gives `(0, 0)` | a rotation computes both coordinates from the old ones: `(1, 0)` goes to `(0, 1)`, and the distance from the origin is preserved | not executed | Points.RotateQuarterTurn | Points.RotatedIntendedKeepsLength |
