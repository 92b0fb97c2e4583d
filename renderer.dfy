/** `Renderer`: a list of registered primitives and the image they are drawn
    on.  `add` puts a primitive at the front of the list; `draw` and
    `draw_outline` walk the list front to back and let each primitive draw
    itself on the image. */
module Renderers {
  import opened Raster
  import opened Points
  import opened Geometric
  import opened Lines
  import opened Circles
  import opened Triangles

  // ---------------------------------------------------------------------------
  // Primitives behind a `&Geometric2D`.

  /** A registered primitive: a reference to one of the four shapes. */
  datatype Shape =
    | PointShape(point: Point2D)
    | LineShape(line: Line2D)
    | CircleShape(circle: Circle2D)
    | TriangleShape(triangle: Triangle2D)

  /** The object a shape refers to. */
  function Obj(s: Shape): object
  {
    match s
    case PointShape(p) => p
    case LineShape(l) => l
    case CircleShape(c) => c
    case TriangleShape(t) => t
  }

  /** The objects a list of shapes refers to. */
  function Objs(vs: seq<Shape>): set<object>
  {
    set i | 0 <= i < |vs| :: Obj(vs[i])
  }

  /** What one primitive appends to the image: its `draw` when `outline` is
      false, its `draw_outline` when it is true. */
  function ShapeWrites(s: Shape, lr: LineRaster, outline: bool): seq<Write>
    reads Obj(s)
  {
    match s
    case PointShape(p) => [Write(Trunc(p.x), Trunc(p.y), p.color)]
    case LineShape(l) => lr.antiAliased(l.from, l.to)
    case CircleShape(c) =>
      if outline then DiskWrites(Trunc(c.m.x), Trunc(c.m.y), c.r, c.m.color)
      else RingWrites(Trunc(c.m.x), Trunc(c.m.y), RingOffsets(Trunc(c.r)), c.m.color)
    case TriangleShape(t) =>
      if outline then lr.solid(t.a, t.b) + lr.solid(t.b, t.c) + lr.solid(t.c, t.a)
      else TriangleWrites(t.a, t.b, t.c)
  }

  /** What the primitives of `vs` append, drawn in list order. */
  function AllWrites(vs: seq<Shape>, lr: LineRaster, outline: bool): seq<Write>
    reads Objs(vs)
    decreases |vs|
  {
    if vs == [] then []
    else
      assert Objs(vs[..|vs| - 1]) <= Objs(vs) by {
        forall o | o in Objs(vs[..|vs| - 1]) ensures o in Objs(vs) {
          var i :| 0 <= i < |vs| - 1 && Obj(vs[..|vs| - 1][i]) == o;
          assert Obj(vs[i]) == o;
        }
      }
      AllWrites(vs[..|vs| - 1], lr, outline) + ShapeWrites(vs[|vs| - 1], lr, outline)
  }

  /** Drawing one more primitive of the list appends its writes: the step of
      the renderer's loops. */
  lemma AllWritesStep(base: seq<Write>, before: seq<Write>, after: seq<Write>, vs: seq<Shape>, i: nat,
                      lr: LineRaster, outline: bool)
    requires i < |vs|
    requires before == base + AllWrites(vs[..i], lr, outline)
    requires after == before + ShapeWrites(vs[i], lr, outline)
    ensures after == base + AllWrites(vs[..i + 1], lr, outline)
  {
    assert vs[..i + 1][..i] == vs[..i];
    AppendAssoc(base, AllWrites(vs[..i], lr, outline), ShapeWrites(vs[i], lr, outline));
  }

  /** The image is not one of the primitives, so drawing on it leaves them
      as they were. */
  lemma ImageApart(vs: seq<Shape>, canvas: Image)
    ensures canvas !in Objs(vs)
  {
    forall i | 0 <= i < |vs| ensures Obj(vs[i]) != canvas {
      match vs[i]
      case PointShape(p) =>
      case LineShape(l) =>
      case CircleShape(c) =>
      case TriangleShape(t) =>
    }
  }

  /** The writes of primitives whose fields did not change are the same. */
  twostate lemma AllWritesFrame(vs: seq<Shape>)
    requires unchanged(Objs(vs))
    ensures forall lr, outline :: AllWrites(vs, lr, outline) == old(AllWrites(vs, lr, outline))
  {
  }

  /** `v.draw(canvas)` or `v.draw_outline(canvas)` through the trait object. */
  method DrawShape(s: Shape, canvas: Image, lr: LineRaster, outline: bool)
    modifies canvas
    ensures canvas.writes == old(canvas.writes) + ShapeWrites(s, lr, outline)
  {
    match s
    case PointShape(p) =>
      if outline { p.DrawOutline(canvas); } else { p.Draw(canvas); }
    case LineShape(l) =>
      if outline { l.DrawOutline(canvas, lr); } else { l.Draw(canvas, lr); }
    case CircleShape(c) =>
      if outline { c.DrawOutline(canvas); } else { c.Draw(canvas); }
    case TriangleShape(t) =>
      if outline { t.DrawOutline(canvas, lr); } else { t.Draw(canvas); }
  }

  /** One turn of the renderer's loops: the `i`-th primitive of `vs` draws
      itself after the ones before it. */
  method DrawNext(vs: seq<Shape>, i: nat, canvas: Image, lr: LineRaster, outline: bool, ghost base: seq<Write>)
    requires i < |vs|
    requires canvas.writes == base + AllWrites(vs[..i], lr, outline)
    modifies canvas
    ensures canvas.writes == base + AllWrites(vs[..i + 1], lr, outline)
  {
    ImageApart(vs[..i], canvas);
    ghost var before := canvas.writes;
    DrawShape(vs[i], canvas, lr, outline);
    AllWritesFrame(vs[..i]);
    AllWritesStep(base, before, canvas.writes, vs, i, lr, outline);
  }

  // ---------------------------------------------------------------------------
  // The renderer.

  class Renderer {
    /** The registered primitives, most recently added first. */
    var vertices: seq<Shape>
    /** The image the primitives are drawn on. */
    const image: Image

    /** `Renderer::new(height, width)`: no primitives and a blank image. */
    constructor New(height: int, width: int)
      ensures vertices == [] && fresh(image)
      ensures image.height == height && image.width == width && image.writes == []
    {
      vertices := [];
      image := new Image.Blank(height, width);
    }

    /** `add(geo)`: `push_front`. */
    method Add(s: Shape)
      modifies this
      ensures vertices == [s] + old(vertices)
    {
      vertices := [s] + vertices;
    }

    /** Draws every primitive on the image, front of the list first. */
    method Draw(lr: LineRaster)
      modifies image
      ensures image.writes == old(image.writes) + AllWrites(vertices, lr, false)
      ensures vertices == old(vertices)
    {
      var vs := vertices;
      var i := 0;
      while i < |vs|
        invariant 0 <= i <= |vs|
        invariant image.writes == old(image.writes) + AllWrites(vs[..i], lr, false)
      {
        DrawNext(vs, i, image, lr, false, old(image.writes));
        i := i + 1;
      }
      assert vs[..i] == vs;
    }

    /** Draws every primitive's outline on the image, front of the list
        first. */
    method DrawOutline(lr: LineRaster)
      modifies image
      ensures image.writes == old(image.writes) + AllWrites(vertices, lr, true)
      ensures vertices == old(vertices)
    {
      var vs := vertices;
      var i := 0;
      while i < |vs|
        invariant 0 <= i <= |vs|
        invariant image.writes == old(image.writes) + AllWrites(vs[..i], lr, true)
      {
        DrawNext(vs, i, image, lr, true, old(image.writes));
        i := i + 1;
      }
      assert vs[..i] == vs;
    }
  }

  // ---------------------------------------------------------------------------
  // Properties.

  /** The primitive at the front of the list draws first, then the rest in
      order: after `add(s)` the newest primitive is drawn before all the
      others. */
  lemma {:induction false} AllWritesCons(s: Shape, vs: seq<Shape>, lr: LineRaster, outline: bool)
    ensures AllWrites([s] + vs, lr, outline) == ShapeWrites(s, lr, outline) + AllWrites(vs, lr, outline)
    decreases |vs|
  {
    if vs != [] {
      var n := |vs| - 1;
      assert ([s] + vs)[..|[s] + vs| - 1] == [s] + vs[..n];
      AllWritesCons(s, vs[..n], lr, outline);
      AppendAssoc(ShapeWrites(s, lr, outline), AllWrites(vs[..n], lr, outline), ShapeWrites(vs[n], lr, outline));
    } else {
      assert [s] + vs == [s];
      assert [s][..0] == [];
    }
  }

  /** With the primitives unchanged, drawing a second time leaves every pixel
      as the first drawing left it. */
  lemma RedrawKeepsPixels(before: seq<Write>, vs: seq<Shape>, lr: LineRaster, outline: bool)
    ensures Paint(map[], before + AllWrites(vs, lr, outline) + AllWrites(vs, lr, outline))
         == Paint(map[], before + AllWrites(vs, lr, outline))
  {
    var ws := AllWrites(vs, lr, outline);
    PaintAppend(map[], before + ws, ws);
    PaintAppend(map[], before, ws);
    PaintTwice(Paint(map[], before), ws);
  }
}
