/** The recorded display list of `crates/r-graphics-engine/src/scene.rs`, and its replay at another size.
  Coordinates are real numbers, and the square root is a function that squares back. */
module Scene {
  import opened Wrappers
  import opened Arithmetic

  type Color = int

  datatype Rect = Rect(left: real, top: real, right: real, bottom: real)

  datatype Command =
    | MoveTo(x: real, y: real)
    | LineTo(x: real, y: real)
    | QuadTo(x1: real, y1: real, x2: real, y2: real)
    | CubicTo(x1: real, y1: real, x2: real, y2: real, x3: real, y3: real)
    | ArcTo(rx: real, ry: real, x: real, y: real)
    | Close

  datatype Dash = Dash(intervals: seq<real>, offset: real)

  /** `style` is what scaling leaves alone: colour, cap and join, or face, colour, dpi, anchor and angle. */
  datatype Stroke = Stroke(width: real, style: int, miterLimit: real, dash: Option<Dash>)

  datatype Path = Path(commands: seq<Command>, fill: Color, stroke: Stroke, antiAlias: bool)

  datatype Transform = Transform(a: real, b: real, c: real, d: real, e: real, f: real)

  datatype Operation =
    | Clear(background: Color)
    | Clip(rect: Option<Rect>)
    | DrawPath(path: Path)
    | DrawText(text: string, x: real, y: real, fontSize: real, style: int)
    | DrawImage(pixels: seq<int>, transform: Transform, interpolate: bool)

  // -------------------------------------------------------------------------
  // Recording
  // -------------------------------------------------------------------------

  /** A new page drops what was there. */
  function Recorded(kept: seq<Operation>, op: Operation): seq<Operation> {
    if op.Clear? then [op] else kept + [op]
  }

  function RecordedAll(kept: seq<Operation>, ops: seq<Operation>): seq<Operation> {
    if ops == [] then kept else Recorded(RecordedAll(kept, ops[..|ops| - 1]), ops[|ops| - 1])
  }

  class DisplayList {
    const width: nat
    const height: nat
    var operations: seq<Operation>

    constructor (width: nat, height: nat)
      ensures this.width == width && this.height == height && operations == []
    {
      this.width, this.height, operations := width, height, [];
    }

    method Push(op: Operation)
      modifies this
      ensures operations == old(operations) + [op]
    {
      operations := operations + [op];
    }

    method Reset()
      modifies this
      ensures operations == []
    {
      operations := [];
    }

    /** The drawing calls of a target, by the operation they ask for. */
    method Draw(op: Operation)
      modifies this
      ensures operations == Recorded(old(operations), op)
    {
      if op.Clear? {
        Reset();
      }
      Push(op);
    }

    /** `replay_operations`. */
    method ReplayScaledTo(target: DisplayList, width: nat, height: nat, sqrt: real -> real)
      requires target != this
      modifies target
      ensures target.operations == RecordedAll(old(target.operations),
        ScaleAll(operations, ScaleAxis(width, this.width), ScaleAxis(height, this.height), sqrt))
    {
      var sx, sy := ScaleAxis(width, this.width), ScaleAxis(height, this.height);
      var scalar := ScalarScale(sx, sy, sqrt);
      ghost var all := ScaleAll(operations, sx, sy, sqrt);
      hide ScaleOp, ScaleAxis;
      assert all[..0] == [];
      for i := 0 to |operations|
        invariant operations == old(operations)
        invariant target.operations == RecordedAll(old(target.operations), all[..i])
      {
        target.Draw(ScaleOp(operations[i], sx, sy, scalar));
        assert all[..i + 1][..i] == all[..i];
      }
      assert all[..|all|] == all;
    }
  }

  /** From the last clear on. */
  function SinceClear(ops: seq<Operation>): seq<Operation> {
    if ops == [] then []
    else if ops[|ops| - 1].Clear? then [ops[|ops| - 1]]
    else SinceClear(ops[..|ops| - 1]) + [ops[|ops| - 1]]
  }

  ghost predicate Clears(ops: seq<Operation>) {
    exists i :: 0 <= i < |ops| && ops[i].Clear?
  }

  /** What recording keeps: everything, or the part from the last clear on. */
  lemma {:induction false} KeptIsSinceClear(kept: seq<Operation>, ops: seq<Operation>)
    ensures RecordedAll(kept, ops) == if Clears(ops) then SinceClear(ops) else kept + ops
    ensures RecordedAll([], ops) == SinceClear(ops)
    decreases |ops|
  {
    var n := |ops| - 1;
    if ops == [] {
      assert kept + ops == kept;
    } else {
      KeptIsSinceClear(kept, ops[..n]);
      assert ops == ops[..n] + [ops[n]];
      if ops[n].Clear? {
        assert Clears(ops);
      } else {
        assert Clears(ops) <==> Clears(ops[..n]) by {
          if i :| 0 <= i < |ops| && ops[i].Clear? {
            assert ops[..n][i].Clear?;
          }
          if i :| 0 <= i < n && ops[..n][i].Clear? {
            assert ops[i].Clear?;
          }
        }
        assert kept + ops == kept + ops[..n] + [ops[n]];
      }
    }
  }

  /** A suffix with no clear after its first operation: all of the list, or starting with a clear. */
  ghost predicate IsPage(ops: seq<Operation>, s: seq<Operation>) {
    && |s| <= |ops| && s == ops[|ops| - |s|..]
    && (s == ops || (s != [] && s[0].Clear?))
    && forall i :: 0 < i < |s| ==> !s[i].Clear?
  }

  lemma {:induction false} SinceClearIsPage(ops: seq<Operation>)
    ensures IsPage(ops, SinceClear(ops))
    decreases |ops|
  {
    hide IsPage;
    if ops == [] {
      NoPage();
    } else {
      var n := |ops| - 1;
      assert ops == ops[..n] + [ops[n]];
      SinceClearIsPage(ops[..n]);
      PageGrows(ops[..n], SinceClear(ops[..n]), ops[n]);
    }
  }

  lemma NoPage()
    ensures IsPage([], [])
  {
  }

  lemma PageGrows(ops: seq<Operation>, s: seq<Operation>, op: Operation)
    requires IsPage(ops, s)
    ensures op.Clear? ==> IsPage(ops + [op], [op])
    ensures !op.Clear? ==> IsPage(ops + [op], s + [op])
  {
  }

  lemma {:induction false} RecordTwice(kept: seq<Operation>, a: seq<Operation>, b: seq<Operation>)
    ensures RecordedAll(kept, a + b) == RecordedAll(RecordedAll(kept, a), b)
    decreases |b|
  {
    if b == [] {
      assert a + b == a;
    } else {
      var n := |b| - 1;
      assert (a + b)[..|a + b| - 1] == a + b[..n];
      RecordTwice(kept, a, b[..n]);
    }
  }

  // -------------------------------------------------------------------------
  // Scaling
  // -------------------------------------------------------------------------

  function Times(a: real, b: real): real {
    a * b
  }

  function ScaleAxis(destination: nat, source: nat): real {
    if source == 0 then 1.0 else destination as real / source as real
  }

  function ScalarScale(sx: real, sy: real, sqrt: real -> real): real {
    sqrt(Times(Abs(sx), Abs(sy)))
  }

  function ScaleCommand(c: Command, sx: real, sy: real): Command {
    match c
    case MoveTo(x, y) => MoveTo(Times(x, sx), Times(y, sy))
    case LineTo(x, y) => LineTo(Times(x, sx), Times(y, sy))
    case QuadTo(x1, y1, x2, y2) => QuadTo(Times(x1, sx), Times(y1, sy), Times(x2, sx), Times(y2, sy))
    case CubicTo(x1, y1, x2, y2, x3, y3) =>
      CubicTo(Times(x1, sx), Times(y1, sy), Times(x2, sx), Times(y2, sy), Times(x3, sx), Times(y3, sy))
    case ArcTo(rx, ry, x, y) => ArcTo(Times(rx, Abs(sx)), Times(ry, Abs(sy)), Times(x, sx), Times(y, sy))
    case Close => Close
  }

  function ScaleDash(d: Dash, scalar: real): Dash {
    Dash(seq(|d.intervals|, i requires 0 <= i < |d.intervals| => Times(d.intervals[i], scalar)), Times(d.offset, scalar))
  }

  function ScaleStroke(s: Stroke, scalar: real): Stroke {
    s.(width := Times(s.width, scalar), dash := if s.dash.None? then None else Some(ScaleDash(s.dash.value, scalar)))
  }

  function ScalePath(p: Path, sx: real, sy: real, scalar: real): Path {
    p.(commands := seq(|p.commands|, i requires 0 <= i < |p.commands| => ScaleCommand(p.commands[i], sx, sy)),
       stroke := ScaleStroke(p.stroke, scalar))
  }

  function ScaleRect(r: Rect, sx: real, sy: real): Rect {
    Rect(Times(r.left, sx), Times(r.top, sy), Times(r.right, sx), Times(r.bottom, sy))
  }

  function ScaleTransform(t: Transform, sx: real, sy: real): Transform {
    Transform(Times(t.a, sx), Times(t.b, sy), Times(t.c, sx), Times(t.d, sy), Times(t.e, sx), Times(t.f, sy))
  }

  /** One operation on its way to the target.  Paths and texts are passed on as they are when the
      scale is one. */
  function ScaleOp(op: Operation, sx: real, sy: real, scalar: real): Operation {
    match op
    case Clear(_) => op
    case Clip(rect) => Clip(if rect.None? then None else Some(ScaleRect(rect.value, sx, sy)))
    case DrawPath(path) => if sx == 1.0 && sy == 1.0 then op else DrawPath(ScalePath(path, sx, sy, scalar))
    case DrawText(text, x, y, fontSize, style) =>
      if sx == 1.0 && sy == 1.0 then op else DrawText(text, Times(x, sx), Times(y, sy), Times(fontSize, scalar), style)
    case DrawImage(pixels, transform, interpolate) => DrawImage(pixels, ScaleTransform(transform, sx, sy), interpolate)
  }

  function ScaleAll(ops: seq<Operation>, sx: real, sy: real, sqrt: real -> real): (r: seq<Operation>)
    ensures |r| == |ops|
  {
    seq(|ops|, i requires 0 <= i < |ops| => ScaleOp(ops[i], sx, sy, ScalarScale(sx, sy, sqrt)))
  }

  // -------------------------------------------------------------------------
  // Scaling twice
  // -------------------------------------------------------------------------

  ghost predicate IsSqrt(sqrt: real -> real) {
    forall r: real :: r >= 0.0 ==> sqrt(r) >= 0.0 && sqrt(r) * sqrt(r) == r
  }

  lemma SameRoot(a: real, b: real)
    requires a >= 0.0 && b >= 0.0 && a * a == b * b
    ensures a == b
  {
    if a < b {
      SquareGrows(a, b);
    } else if b < a {
      SquareGrows(b, a);
    }
  }

  lemma SquareGrows(a: real, b: real)
    requires 0.0 <= a < b
    ensures a * a < b * b
  {
    PositiveProduct(b - a, b + a);
    assert (b - a) * (b + a) == b * b - a * a;
  }

  lemma PositiveProduct(a: real, b: real)
    requires a > 0.0 && b > 0.0
    ensures a * b > 0.0
  {
  }

  lemma ProductOfAbs(a: real, b: real)
    ensures Times(Abs(a), Abs(b)) == Abs(Times(a, b)) && Times(Abs(a), Abs(b)) >= 0.0
  {
  }

  lemma SqrtOfProduct(sqrt: real -> real, p: real, q: real)
    requires IsSqrt(sqrt) && p >= 0.0 && q >= 0.0
    ensures Times(sqrt(p), sqrt(q)) == sqrt(Times(p, q))
  {
    var a, b := sqrt(p), sqrt(q);
    assert a >= 0.0 && b >= 0.0 && a * a == p && b * b == q;
    assert a * b >= 0.0 && p * q >= 0.0;
    assert (a * b) * (a * b) == (a * a) * (b * b);
    SameRoot(a * b, sqrt(p * q));
  }

  /** The scalars of two scalings multiply to the scalar of both. */
  lemma ScalarsMultiply(a: real, b: real, c: real, d: real, sqrt: real -> real)
    requires IsSqrt(sqrt)
    ensures Times(ScalarScale(a, b, sqrt), ScalarScale(c, d, sqrt)) == ScalarScale(Times(a, c), Times(b, d), sqrt)
  {
    ProductOfAbs(a, b);
    ProductOfAbs(c, d);
    ProductOfAbs(a, c);
    ProductOfAbs(b, d);
    SqrtOfProduct(sqrt, Times(Abs(a), Abs(b)), Times(Abs(c), Abs(d)));
    Regroup(Abs(a), Abs(b), Abs(c), Abs(d));
  }

  lemma Regroup(a: real, b: real, c: real, d: real)
    ensures Times(Times(a, b), Times(c, d)) == Times(Times(a, c), Times(b, d))
  {
    assert (a * b) * (c * d) == a * (b * (c * d)) == a * (c * (b * d)) == (a * c) * (b * d);
  }

  lemma UnitScalar(sqrt: real -> real)
    requires IsSqrt(sqrt)
    ensures ScalarScale(1.0, 1.0, sqrt) == 1.0
  {
    SameRoot(sqrt(1.0), 1.0);
  }

  /** Scaling without the shortcut. */
  function ScaleFully(op: Operation, sx: real, sy: real, scalar: real): Operation {
    match op
    case DrawPath(path) => DrawPath(ScalePath(path, sx, sy, scalar))
    case DrawText(text, x, y, fontSize, style) => DrawText(text, Times(x, sx), Times(y, sy), Times(fontSize, scalar), style)
    case _ => ScaleOp(op, sx, sy, scalar)
  }

  lemma TimesOne()
    ensures forall x: real :: Times(x, 1.0) == x
  {
  }

  /** The shortcut makes no difference. */
  lemma ShortcutIsInvisible(op: Operation, sx: real, sy: real, sqrt: real -> real)
    requires IsSqrt(sqrt)
    ensures ScaleOp(op, sx, sy, ScalarScale(sx, sy, sqrt)) == ScaleFully(op, sx, sy, ScalarScale(sx, sy, sqrt))
  {
    if sx == 1.0 && sy == 1.0 {
      UnitScalar(sqrt);
      TimesOne();
      hide Times, ScalarScale;
      if op.DrawPath? {
        var p := op.path;
        var q := ScalePath(p, 1.0, 1.0, 1.0);
        assert q.commands == p.commands;
        if p.stroke.dash.Some? {
          assert q.stroke.dash.value.intervals == p.stroke.dash.value.intervals;
        }
      }
    }
  }

  lemma TimesTwice(a: real, b: real)
    ensures forall x: real :: Times(Times(x, a), b) == Times(x, Times(a, b))
  {
    forall x: real ensures Times(Times(x, a), b) == Times(x, Times(a, b)) {
      assert (x * a) * b == x * (a * b);
    }
  }

  lemma CommandTwice(k: Command, a: real, b: real, c: real, d: real)
    ensures ScaleCommand(ScaleCommand(k, a, b), c, d) == ScaleCommand(k, Times(a, c), Times(b, d))
  {
    TimesTwice(a, c);
    TimesTwice(b, d);
    TimesTwice(Abs(a), Abs(c));
    TimesTwice(Abs(b), Abs(d));
    ProductOfAbs(a, c);
    ProductOfAbs(b, d);
    hide Times, Abs;
  }

  lemma StrokeTwice(s: Stroke, p: real, q: real)
    ensures ScaleStroke(ScaleStroke(s, p), q) == ScaleStroke(s, Times(p, q))
  {
    TimesTwice(p, q);
    hide Times;
    if s.dash.Some? {
      var d := s.dash.value;
      assert ScaleDash(ScaleDash(d, p), q).intervals == ScaleDash(d, Times(p, q)).intervals;
    }
  }

  lemma PathTwice(path: Path, a: real, b: real, p: real, c: real, d: real, q: real)
    ensures ScalePath(ScalePath(path, a, b, p), c, d, q) == ScalePath(path, Times(a, c), Times(b, d), Times(p, q))
  {
    hide Times, ScaleCommand;
    StrokeTwice(path.stroke, p, q);
    forall i | 0 <= i < |path.commands|
      ensures ScaleCommand(ScaleCommand(path.commands[i], a, b), c, d) == ScaleCommand(path.commands[i], Times(a, c), Times(b, d))
    {
      CommandTwice(path.commands[i], a, b, c, d);
    }
    assert ScalePath(ScalePath(path, a, b, p), c, d, q).commands == ScalePath(path, Times(a, c), Times(b, d), Times(p, q)).commands;
  }

  lemma FullyTwice(op: Operation, a: real, b: real, p: real, c: real, d: real, q: real)
    ensures ScaleFully(ScaleFully(op, a, b, p), c, d, q) == ScaleFully(op, Times(a, c), Times(b, d), Times(p, q))
  {
    TimesTwice(a, c);
    TimesTwice(b, d);
    TimesTwice(p, q);
    hide Times, ScalePath;
    if op.DrawPath? {
      PathTwice(op.path, a, b, p, c, d, q);
    }
  }

  /** Scaling twice is scaling by the product, for every operation and all real scales. */
  lemma ScaleTwice(op: Operation, a: real, b: real, c: real, d: real, sqrt: real -> real)
    requires IsSqrt(sqrt)
    ensures ScaleOp(ScaleOp(op, a, b, ScalarScale(a, b, sqrt)), c, d, ScalarScale(c, d, sqrt))
      == ScaleOp(op, Times(a, c), Times(b, d), ScalarScale(Times(a, c), Times(b, d), sqrt))
  {
    var p, q := ScalarScale(a, b, sqrt), ScalarScale(c, d, sqrt);
    ScalarsMultiply(a, b, c, d, sqrt);
    ShortcutIsInvisible(op, a, b, sqrt);
    ShortcutIsInvisible(ScaleOp(op, a, b, p), c, d, sqrt);
    ShortcutIsInvisible(op, Times(a, c), Times(b, d), sqrt);
    hide Times, ScaleOp, ScaleFully, ScalarScale;
    FullyTwice(op, a, b, p, c, d, q);
  }

  lemma ScaleAllTwice(ops: seq<Operation>, a: real, b: real, c: real, d: real, sqrt: real -> real)
    requires IsSqrt(sqrt)
    ensures ScaleAll(ScaleAll(ops, a, b, sqrt), c, d, sqrt) == ScaleAll(ops, Times(a, c), Times(b, d), sqrt)
  {
    hide ScaleOp, Times, ScalarScale;
    forall i | 0 <= i < |ops| ensures ScaleAll(ScaleAll(ops, a, b, sqrt), c, d, sqrt)[i] == ScaleAll(ops, Times(a, c), Times(b, d), sqrt)[i] {
      ScaleTwice(ops[i], a, b, c, d, sqrt);
    }
  }

  /** Going through an intermediate size gives the same factor, except where a size of zero, which is
      taken for scale one, gets in between. */
  lemma AxisThrough(size: nat, middle: nat, last: nat)
    ensures Times(ScaleAxis(middle, size), ScaleAxis(last, middle)) == ScaleAxis(last, size)
      <==> if size == 0 then middle == 0 || middle == last else middle > 0 || last == 0
  {
    var s, m, l := size as real, middle as real, last as real;
    if size > 0 && middle > 0 {
      assert (m / s) * (l / m) == l / s;
    } else if size > 0 {
      assert l / s == 0.0 <==> l == 0.0;
    } else if middle > 0 {
      assert l / m == 1.0 <==> l == m;
    }
  }

  // -------------------------------------------------------------------------
  // Replay
  // -------------------------------------------------------------------------

  lemma {:induction false} ScalingKeepsPages(ops: seq<Operation>, sx: real, sy: real, sqrt: real -> real)
    ensures SinceClear(ScaleAll(ops, sx, sy, sqrt)) == ScaleAll(SinceClear(ops), sx, sy, sqrt)
    decreases |ops|
  {
    if ops != [] {
      var n := |ops| - 1;
      var all := ScaleAll(ops, sx, sy, sqrt);
      assert all[..n] == ScaleAll(ops[..n], sx, sy, sqrt);
      ScalingKeepsPages(ops[..n], sx, sy, sqrt);
      assert all[n].Clear? <==> ops[n].Clear?;
      hide ScaleOp;
    }
  }

  lemma {:induction false} SinceClearTwice(ops: seq<Operation>)
    ensures SinceClear(SinceClear(ops)) == SinceClear(ops)
    decreases |ops|
  {
    if ops != [] && !ops[|ops| - 1].Clear? {
      SinceClearTwice(ops[..|ops| - 1]);
      var s := SinceClear(ops);
      assert s[..|s| - 1] == SinceClear(ops[..|ops| - 1]);
    }
  }

  /** What a fresh recording of size `w` by `h` holds after a replay into it. */
  function Replayed(ops: seq<Operation>, width: nat, height: nat, w: nat, h: nat, sqrt: real -> real): seq<Operation> {
    SinceClear(ScaleAll(ops, ScaleAxis(w, width), ScaleAxis(h, height), sqrt))
  }

  method ReplayIntoNew(list: DisplayList, w: nat, h: nat, sqrt: real -> real) returns (copy: DisplayList)
    ensures fresh(copy) && copy.width == w && copy.height == h
    ensures copy.operations == Replayed(list.operations, list.width, list.height, w, h, sqrt)
  {
    copy := new DisplayList(w, h);
    list.ReplayScaledTo(copy, w, h, sqrt);
    KeptIsSinceClear([], ScaleAll(list.operations, ScaleAxis(w, list.width), ScaleAxis(h, list.height), sqrt));
  }

  /** Replaying into a recording of another size and from there to a third is replaying directly. */
  lemma ReplayThrough(ops: seq<Operation>, width: nat, height: nat, w: nat, h: nat, w': nat, h': nat, sqrt: real -> real)
    requires IsSqrt(sqrt) && width > 0 && height > 0 && w > 0 && h > 0
    ensures Replayed(Replayed(ops, width, height, w, h, sqrt), w, h, w', h', sqrt) == Replayed(ops, width, height, w', h', sqrt)
  {
    var a, b, c, d := ScaleAxis(w, width), ScaleAxis(h, height), ScaleAxis(w', w), ScaleAxis(h', h);
    AxisThrough(width, w, w');
    AxisThrough(height, h, h');
    hide ScaleAxis, Times, ScaleAll;
    ScalingKeepsPages(ScaleAll(ops, a, b, sqrt), c, d, sqrt);
    SinceClearTwice(ScaleAll(ScaleAll(ops, a, b, sqrt), c, d, sqrt));
    ScaleAllTwice(ops, a, b, c, d, sqrt);
  }

  lemma AxisOfSame(size: nat)
    ensures ScaleAxis(size, size) == 1.0
  {
  }

  /** At its own size a list is copied from the last clear on, unchanged. */
  lemma ReplayUnscaled(ops: seq<Operation>, width: nat, height: nat, sqrt: real -> real)
    requires IsSqrt(sqrt)
    ensures Replayed(ops, width, height, width, height, sqrt) == SinceClear(ops)
  {
    AxisOfSame(width);
    AxisOfSame(height);
    TimesOne();
    hide Times, ScaleAxis;
    forall i | 0 <= i < |ops| ensures ScaleAll(ops, 1.0, 1.0, sqrt)[i] == ops[i] {
    }
    assert ScaleAll(ops, 1.0, 1.0, sqrt) == ops;
  }
}
