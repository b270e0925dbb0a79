/** What replay at another size does to the points and lengths of the drawing operations
    (`crates/r-graphics-engine/src/scene.rs`). */
module SceneScaling {
  import opened Wrappers
  import opened Arithmetic
  import opened Scene

  /** A point or a vector. */
  datatype Vector = Vector(x: real, y: real)

  function Stretched(v: Vector, sx: real, sy: real): Vector {
    Vector(v.x * sx, v.y * sy)
  }

  /** The points of a path command; those of an arc are its end. */
  function CommandPoints(c: Command): seq<Vector> {
    match c
    case MoveTo(x, y) => [Vector(x, y)]
    case LineTo(x, y) => [Vector(x, y)]
    case QuadTo(x1, y1, x2, y2) => [Vector(x1, y1), Vector(x2, y2)]
    case CubicTo(x1, y1, x2, y2, x3, y3) => [Vector(x1, y1), Vector(x2, y2), Vector(x3, y3)]
    case ArcTo(_, _, x, y) => [Vector(x, y)]
    case Close => []
  }

  /** The kind of a command, with the radii of an arc. */
  predicate SameKind(c: Command, k: Command) {
    || (c.MoveTo? && k.MoveTo?) || (c.LineTo? && k.LineTo?) || (c.QuadTo? && k.QuadTo?)
    || (c.CubicTo? && k.CubicTo?) || (c.ArcTo? && k.ArcTo?) || (c.Close? && k.Close?)
  }

  ghost predicate AllStretched(p: seq<Vector>, q: seq<Vector>, sx: real, sy: real) {
    |q| == |p| && forall i :: 0 <= i < |p| ==> q[i] == Stretched(p[i], sx, sy)
  }

  /** A command on its way: each point stretched, and the radii of an arc by the magnitudes of the factors. */
  ghost predicate CommandStretched(c: Command, k: Command, sx: real, sy: real) {
    && SameKind(c, k) && AllStretched(CommandPoints(c), CommandPoints(k), sx, sy)
    && (c.ArcTo? ==> k.rx == c.rx * Abs(sx) && k.ry == c.ry * Abs(sy))
  }

  lemma CommandStretches(c: Command, sx: real, sy: real)
    ensures CommandStretched(c, ScaleCommand(c, sx, sy), sx, sy)
  {
    TimesIsProduct();
    hide Times, Abs;
  }

  lemma TimesIsProduct()
    ensures forall a, b :: Times(a, b) == a * b
  {
  }

  /** Where a transform puts a point of the image. */
  function Placed(t: Transform, v: Vector): Vector {
    Vector(t.a * v.x + t.c * v.y + t.e, t.b * v.x + t.d * v.y + t.f)
  }

  lemma ImageStretches(t: Transform, sx: real, sy: real, v: Vector)
    ensures Placed(ScaleTransform(t, sx, sy), v) == Stretched(Placed(t, v), sx, sy)
  {
    Distributes(t.a, v.x, t.c, v.y, t.e, sx);
    Distributes(t.b, v.x, t.d, v.y, t.f, sy);
  }

  lemma Distributes(a: real, x: real, c: real, y: real, e: real, s: real)
    ensures (a * s) * x + (c * s) * y + e * s == (a * x + c * y + e) * s
  {
    assert (a * s) * x == (a * x) * s && (c * s) * y == (c * y) * s;
  }

  ghost predicate StrokeScaled(s: Stroke, t: Stroke, k: real) {
    && t.width == s.width * k && t.style == s.style && t.miterLimit == s.miterLimit
    && (t.dash.Some? <==> s.dash.Some?)
    && (s.dash.Some? ==>
          && t.dash.value.offset == s.dash.value.offset * k && |t.dash.value.intervals| == |s.dash.value.intervals|
          && forall i :: 0 <= i < |s.dash.value.intervals| ==> t.dash.value.intervals[i] == s.dash.value.intervals[i] * k)
  }

  ghost predicate PathStretched(p: Path, q: Path, sx: real, sy: real, k: real) {
    && |q.commands| == |p.commands| && q.fill == p.fill && q.antiAlias == p.antiAlias
    && StrokeScaled(p.stroke, q.stroke, k)
    && forall i :: 0 <= i < |p.commands| ==> CommandStretched(p.commands[i], q.commands[i], sx, sy)
  }

  /** An operation on its way: every point stretched by the factor of its axis, every length by `k`, and nothing
      else changed. */
  ghost predicate OperationStretched(op: Operation, out: Operation, sx: real, sy: real, k: real) {
    match op
    case Clear(_) => out == op
    case Clip(rect) =>
      && out.Clip? && (out.rect.Some? <==> rect.Some?)
      && (rect.Some? ==>
            && Vector(out.rect.value.left, out.rect.value.top) == Stretched(Vector(rect.value.left, rect.value.top), sx, sy)
            && Vector(out.rect.value.right, out.rect.value.bottom) == Stretched(Vector(rect.value.right, rect.value.bottom), sx, sy))
    case DrawPath(path) => out.DrawPath? && PathStretched(path, out.path, sx, sy, k)
    case DrawText(text, x, y, fontSize, style) =>
      && out.DrawText? && out.text == text && out.style == style && out.fontSize == fontSize * k
      && Vector(out.x, out.y) == Stretched(Vector(x, y), sx, sy)
    case DrawImage(pixels, transform, interpolate) =>
      && out.DrawImage? && out.pixels == pixels && out.interpolate == interpolate
      && forall v :: Placed(out.transform, v) == Stretched(Placed(transform, v), sx, sy)
  }

  lemma PathStretches(p: Path, sx: real, sy: real, k: real)
    ensures PathStretched(p, ScalePath(p, sx, sy, k), sx, sy, k)
  {
    hide CommandStretched, ScaleCommand;
    forall i | 0 <= i < |p.commands| ensures CommandStretched(p.commands[i], ScalePath(p, sx, sy, k).commands[i], sx, sy) {
      CommandStretches(p.commands[i], sx, sy);
    }
  }

  /** The factor of lengths is the geometric mean of those of the axes. */
  lemma LengthFactor(sx: real, sy: real, sqrt: real -> real)
    requires IsSqrt(sqrt)
    ensures var k := ScalarScale(sx, sy, sqrt); k >= 0.0 && k * k == Abs(sx * sy)
  {
    ProductOfAbs(sx, sy);
  }

  lemma OperationStretches(op: Operation, sx: real, sy: real, sqrt: real -> real)
    requires IsSqrt(sqrt)
    ensures OperationStretched(op, ScaleOp(op, sx, sy, ScalarScale(sx, sy, sqrt)), sx, sy, ScalarScale(sx, sy, sqrt))
  {
    var k := ScalarScale(sx, sy, sqrt);
    ShortcutIsInvisible(op, sx, sy, sqrt);
    hide ScalarScale, ScaleTransform, Placed, PathStretched, ScalePath;
    match op
    case DrawPath(path) => PathStretches(path, sx, sy, k);
    case DrawImage(_, transform, _) =>
      forall v ensures Placed(ScaleTransform(transform, sx, sy), v) == Stretched(Placed(transform, v), sx, sy) {
        ImageStretches(transform, sx, sy, v);
      }
    case _ =>
  }

  /** Replaying a list of size `width` by `height` into one of size `w` by `h`: every operation in order, with each
      point stretched so that the corners of the old size land on those of the new one. */
  lemma ReplayStretches(ops: seq<Operation>, width: nat, height: nat, w: nat, h: nat, sqrt: real -> real, i: nat)
    requires IsSqrt(sqrt) && width > 0 && height > 0 && i < |ops|
    ensures var sx, sy := ScaleAxis(w, width), ScaleAxis(h, height);
      && Stretched(Vector(0.0, 0.0), sx, sy) == Vector(0.0, 0.0)
      && Stretched(Vector(width as real, height as real), sx, sy) == Vector(w as real, h as real)
      && OperationStretched(ops[i], ScaleAll(ops, sx, sy, sqrt)[i], sx, sy, ScalarScale(sx, sy, sqrt))
  {
    var sx, sy := ScaleAxis(w, width), ScaleAxis(h, height);
    hide ScaleOp, ScalarScale, OperationStretched;
    OperationStretches(ops[i], sx, sy, sqrt);
  }
}
