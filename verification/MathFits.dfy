/** No part of a layout leaves its box, and sizes stay within bounds, for every expression. */
module MathFits {
  import opened Wrappers
  import opened Arithmetic
  import opened MathLayout

  // -------------------------------------------------------------------------
  // Inside a box
  // -------------------------------------------------------------------------

  predicate In(p: Point, width: real, ascent: real, descent: real) {
    0.0 <= p.x <= width && -ascent <= p.y <= descent
  }

  function Mix(a: real, b: real, c: real, d: real, t: real): real {
    var s := 1.0 - t;
    s * s * s * a + 3.0 * (s * s * t) * b + 3.0 * (s * t * t) * c + t * t * t * d
  }

  /** The point of a cubic curve at `t`. */
  function Bezier(p: seq<Point>, t: real): Point
    requires |p| == 4
  {
    Point(Mix(p[0].x, p[1].x, p[2].x, p[3].x, t), Mix(p[0].y, p[1].y, p[2].y, p[3].y, t))
  }

  /** A text with its ink, a straight line, or every point of a curve. */
  ghost predicate Inside(m: Fonts, mark: Mark, width: real, ascent: real, descent: real) {
    match mark
    case Glyphs(t, p, s, f) =>
      var k := m.math(t, s, f);
      0.0 <= p.x && p.x + k.width <= width && -ascent <= p.y - k.ascent && p.y + k.descent <= descent
    case Line(a, b, _) => In(a, width, ascent, descent) && In(b, width, ascent, descent)
    case Curve(p, _) => |p| == 4 && forall t: real :: 0.0 <= t <= 1.0 ==> In(Bezier(p, t), width, ascent, descent)
  }

  predicate Sized(mark: Mark, low: real, high: real) {
    mark.Glyphs? ==> low <= mark.size <= high
  }

  ghost predicate Fits(m: Fonts, b: Box, low: real, high: real) {
    && b.width >= 0.0 && b.italic >= 0.0 && b.ascent + b.descent >= 0.0
    && AllInside(m, b.marks, b.width, b.ascent, b.descent, low, high)
  }

  ghost predicate AllInside(m: Fonts, marks: seq<Mark>, width: real, ascent: real, descent: real, low: real, high: real) {
    forall i :: 0 <= i < |marks| ==> Inside(m, marks[i], width, ascent, descent) && Sized(marks[i], low, high)
  }

  lemma MixShifts(a: real, b: real, c: real, d: real, t: real, k: real)
    ensures Mix(a + k, b + k, c + k, d + k, t) == Mix(a, b, c, d, t) + k
  {
    var s := 1.0 - t;
    var s3, s2t, st2, t3 := s * s * s, s * s * t, s * t * t, t * t * t;
    assert s3 + 3.0 * s2t + 3.0 * st2 + t3 == 1.0;
    assert (s3 + 3.0 * s2t + 3.0 * st2 + t3) * k == k;
  }

  lemma CurveShifts(p: seq<Point>, q: seq<Point>, x: real, y: real, t: real)
    requires |p| == |q| == 4 && forall i :: 0 <= i < 4 ==> q[i] == Moved(p[i], x, y)
    ensures Bezier(q, t) == Moved(Bezier(p, t), x, y)
  {
    hide Mix;
    MixShifts(p[0].x, p[1].x, p[2].x, p[3].x, t, x);
    MixShifts(p[0].y, p[1].y, p[2].y, p[3].y, t, y);
  }

  /** A mark moves with its box. */
  lemma InsideShifts(m: Fonts, mark: Mark, w: real, a: real, d: real, x: real, y: real, w': real, a': real, d': real)
    requires Inside(m, mark, w, a, d)
    requires 0.0 <= x && x + w <= w' && a - y <= a' && d + y <= d'
    ensures Inside(m, Shift(mark, x, y), w', a', d')
  {
    hide Bezier;
    if mark.Curve? {
      var q := Shift(mark, x, y).points;
      forall t: real | 0.0 <= t <= 1.0 ensures In(Bezier(q, t), w', a', d') {
        CurveShifts(mark.points, q, x, y, t);
        assert In(Bezier(mark.points, t), w, a, d);
      }
    }
  }

  lemma InsideGrows(m: Fonts, mark: Mark, w: real, a: real, d: real, w': real, a': real, d': real)
    requires Inside(m, mark, w, a, d) && w <= w' && a <= a' && d <= d'
    ensures Inside(m, mark, w', a', d')
  {
    hide Bezier;
  }

  lemma AllInsideGrow(m: Fonts, marks: seq<Mark>, w: real, a: real, d: real, w': real, a': real, d': real, low: real, high: real)
    requires AllInside(m, marks, w, a, d, low, high) && w <= w' && a <= a' && d <= d'
    ensures AllInside(m, marks, w', a', d', low, high)
  {
    hide Inside, Sized;
    forall i | 0 <= i < |marks| ensures Inside(m, marks[i], w', a', d') {
      InsideGrows(m, marks[i], w, a, d, w', a', d');
    }
  }

  lemma AllInsideShift(m: Fonts, marks: seq<Mark>, w: real, a: real, d: real, x: real, y: real,
                       w': real, a': real, d': real, low: real, high: real)
    requires AllInside(m, marks, w, a, d, low, high)
    requires 0.0 <= x && x + w <= w' && a - y <= a' && d + y <= d'
    ensures AllInside(m, ShiftAll(marks, x, y), w', a', d', low, high)
  {
    hide Inside;
    forall i | 0 <= i < |marks| ensures Inside(m, Shift(marks[i], x, y), w', a', d') && Sized(Shift(marks[i], x, y), low, high) {
      InsideShifts(m, marks[i], w, a, d, x, y, w', a', d');
    }
  }

  lemma AllInsideJoin(m: Fonts, a: seq<Mark>, b: seq<Mark>, width: real, ascent: real, descent: real, low: real, high: real)
    requires AllInside(m, a, width, ascent, descent, low, high) && AllInside(m, b, width, ascent, descent, low, high)
    ensures AllInside(m, a + b, width, ascent, descent, low, high)
  {
    hide Inside, Sized;
  }

  /** Appending keeps everything inside, wherever the other box goes vertically, if it does not
      stick out horizontally. */
  lemma AppendFits(m: Fonts, out: Box, other: Box, x: real, y: real, width: real, low: real, high: real)
    requires Fits(m, out, low, high) && Fits(m, other, low, high)
    requires 0.0 <= x && x + other.width <= width && out.width <= width
    ensures Fits(m, Appended(out, other, x, y).(width := width), low, high)
  {
    hide AllInside;
    var r := Appended(out, other, x, y);
    AllInsideGrow(m, out.marks, out.width, out.ascent, out.descent, width, r.ascent, r.descent, low, high);
    AllInsideShift(m, other.marks, other.width, other.ascent, other.descent, x, y, width, r.ascent, r.descent, low, high);
    AllInsideJoin(m, out.marks, ShiftAll(other.marks, x, y), width, r.ascent, r.descent, low, high);
  }

  lemma EmptyFits(m: Fonts, width: real, low: real, high: real)
    requires width >= 0.0
    ensures Fits(m, Empty(width), low, high)
  {
  }

  /** Marks may be added that lie in a box, and the box may grow. */
  lemma MarksFit(m: Fonts, b: Box, more: seq<Mark>, ascent: real, descent: real, low: real, high: real)
    requires Fits(m, b, low, high) && b.ascent <= ascent && b.descent <= descent
    requires AllInside(m, more, b.width, ascent, descent, low, high)
    ensures Fits(m, b.(marks := b.marks + more, ascent := ascent, descent := descent), low, high)
  {
    hide AllInside;
    AllInsideGrow(m, b.marks, b.width, b.ascent, b.descent, b.width, ascent, descent, low, high);
    AllInsideJoin(m, b.marks, more, b.width, ascent, descent, low, high);
  }

  lemma FitsLoosely(m: Fonts, b: Box, low: real, high: real, low': real, high': real)
    requires Fits(m, b, low, high) && low' <= low && high <= high'
    ensures Fits(m, b, low', high')
  {
    hide Inside;
  }

  // -------------------------------------------------------------------------
  // Fonts
  // -------------------------------------------------------------------------

  /** Widths and ascents are not negative, and no ink is upside down. */
  ghost predicate InkUpright(m: Fonts) {
    && (forall t, s, f :: s >= 0.0 ==> var k := m.math(t, s, f); k.width >= 0.0 && k.ascent >= 0.0 && k.ascent + k.descent >= 0.0)
    && (forall t, s, f :: s >= 0.0 ==> m.textWidth(t, s, f) >= 0.0)
  }

  /** The inner pieces of a delimiter are no wider than its ends. */
  ghost predicate PiecesMatch(m: Fonts) {
    forall symbol, s :: s >= 0.0 && Pieces(symbol).Some? ==> NoWider(m, symbol, s)
  }

  predicate NoWider(m: Fonts, symbol: string, s: real)
    requires Pieces(symbol).Some?
  {
    var p := Pieces(symbol).value;
    var end := Max(m.math(p.0, s, Plain).width, m.math(p.2, s, Plain).width);
    && m.math(p.1, s, Plain).width <= end
    && (symbol == "{" ==> m.math("⎨", s, Plain).width <= end)
    && (symbol == "}" ==> m.math("⎬", s, Plain).width <= end)
  }

  lemma TextFits(m: Fonts, text: string, face: Face, size: real, low: real, high: real)
    requires InkUpright(m) && size >= 0.0 && low <= size <= high
    ensures Fits(m, TextBox(m, text, face, size), low, high)
    ensures TextBox(m, text, face, size).ascent >= 0.0
  {
  }

  // -------------------------------------------------------------------------
  // Shapes
  // -------------------------------------------------------------------------

  lemma {:induction false} RowFits(m: Fonts, out: Box, items: seq<Box>, low: real, high: real)
    requires Fits(m, out, low, high) && forall i :: 0 <= i < |items| ==> Fits(m, items[i], low, high)
    ensures Fits(m, RowFrom(out, items), low, high)
    decreases |items|
  {
    hide Fits;
    if items != [] {
      assert Fits(m, items[0], low, high);
      ItemFits(m, out, items[0], low, high);
      RowFits(m, AddItem(out, items[0]), items[1..], low, high);
    }
  }

  lemma ItemFits(m: Fonts, out: Box, item: Box, low: real, high: real)
    requires Fits(m, out, low, high) && Fits(m, item, low, high)
    ensures Fits(m, AddItem(out, item), low, high)
  {
    hide AllInside;
    var x := out.width + out.italic;
    AllInsideGrow(m, out.marks, out.width, out.ascent, out.descent, x, out.ascent, out.descent, low, high);
    AppendFits(m, out.(width := x, italic := item.italic), item, x, 0.0, x + item.width, low, high);
  }

  lemma VariableFits(m: Fonts, text: string, face: Face, size: real, low: real, high: real)
    requires InkUpright(m) && size >= 0.0 && low <= size <= high
    ensures Fits(m, VariableBox(m, text, face, size), low, high)
  {
    hide Fits, TextBox;
    var items := CharBoxes(m, text, face, size);
    forall i | 0 <= i < |items| ensures Fits(m, items[i], low, high) {
      TextFits(m, [text[i]], CharFace(text[i], face), size, low, high);
    }
    EmptyFits(m, 0.0, low, high);
    SimpleFits(m, Empty(0.0), low, high);
    RowFits(m, Empty(0.0).(simple := true), items, low, high);
  }

  lemma SimpleFits(m: Fonts, b: Box, low: real, high: real)
    requires Fits(m, b, low, high)
    ensures Fits(m, b.(simple := true), low, high) && Fits(m, b.(simple := false), low, high)
  {
  }

  lemma WidthStays(out: Box, other: Box, x: real, y: real)
    ensures var r := Appended(out, other, x, y); r == r.(width := out.width) && r.italic == out.italic
    ensures Appended(out, other, x, y).width == out.width
  {
  }

  /** Appending inside the width that is already there. */
  lemma WithinFits(m: Fonts, out: Box, other: Box, x: real, y: real, low: real, high: real)
    requires Fits(m, out, low, high) && Fits(m, other, low, high)
    requires 0.0 <= x && x + other.width <= out.width
    ensures Fits(m, Appended(out, other, x, y), low, high)
    ensures Appended(out, other, x, y).width == out.width && Appended(out, other, x, y).italic == out.italic
  {
    hide Fits, Appended;
    WidthStays(out, other, x, y);
    AppendFits(m, out, other, x, y, out.width, low, high);
  }

  lemma NotNegative(m: Fonts, b: Box, low: real, high: real)
    requires Fits(m, b, low, high)
    ensures b.width >= 0.0 && b.italic >= 0.0 && b.ascent + b.descent >= 0.0
  {
  }

  lemma AccentFits(m: Fonts, body: Box, mark: Box, cap: real, low: real, high: real)
    requires Fits(m, body, low, high) && Fits(m, mark, low, high)
    ensures Fits(m, AccentBox(body, mark, cap), low, high)
  {
    hide Fits, Appended;
    NotNegative(m, body, low, high);
    NotNegative(m, mark, low, high);
    var width := Max(body.width + body.italic, mark.width);
    var x := (width - mark.width) / 2.0 + 0.9 * body.italic;
    var out := Empty(Max(width, x + mark.width));
    EmptyFits(m, out.width, low, high);
    WithinFits(m, out, body, (width - body.width) / 2.0, 0.0, low, high);
    WithinFits(m, Appended(out, body, (width - body.width) / 2.0, 0.0), mark, x, -body.ascent - mark.descent - 0.1 * cap, low, high);
  }

  lemma MacronFits(m: Fonts, body: Box, size: real, low: real, high: real)
    requires Fits(m, body, low, high) && size >= 0.0
    ensures Fits(m, MacronBox(body, size), low, high)
  {
    var rule := Box(body.width, size * 0.05, 0.0, [Line(Point(0.0, 0.0), Point(body.width, 0.0), RuleWidth(size))], 0.0, false);
    assert Fits(m, rule, low, high);
    hide Fits, Appended;
    WithinFits(m, body, rule, 0.0, -body.ascent - size * 0.1, low, high);
  }

  lemma UnderlineFits(m: Fonts, body: Box, size: real, low: real, high: real)
    requires Fits(m, body, low, high) && size >= 0.0
    ensures Fits(m, UnderlineBox(body, size), low, high)
  {
    NotNegative(m, body, low, high);
    hide Fits;
    var y := body.descent + size * 0.1;
    MarksFit(m, body, [Line(Point(0.0, y), Point(body.width, y), RuleWidth(size))], body.ascent, y + size * 0.03, low, high);
  }

  /** The tilde swings by at most three quarters of `height` from its ends, although its control
      points are twice `height` away. */
  lemma TildeSwing(y: real, h: real, t: real)
    requires 0.0 <= t <= 1.0 && h >= 0.0
    ensures y - 0.75 * h <= Mix(y, y - h * 2.0, y + h * 2.0, y, t) <= y + 0.75 * h
  {
    hide Mix;
    Weights(y, h, t);
    SwingBound(t);
    Scaled(SwingAt(t), h);
  }

  function SwingAt(t: real): real {
    (1.0 - t) * t * t - (1.0 - t) * (1.0 - t) * t
  }

  lemma Scaled(f: real, h: real)
    requires -0.125 <= f <= 0.125 && h >= 0.0
    ensures -0.125 * h <= f * h <= 0.125 * h
  {
  }

  lemma Weights(y: real, h: real, t: real)
    ensures Mix(y, y - h * 2.0, y + h * 2.0, y, t) == y + 6.0 * (SwingAt(t) * h)
  {
    var s := 1.0 - t;
    var s3, s2t, st2, t3 := s * s * s, s * s * t, s * t * t, t * t * t;
    assert s3 + 3.0 * s2t + 3.0 * st2 + t3 == 1.0;
    assert (s3 + 3.0 * s2t + 3.0 * st2 + t3) * y == y;
  }

  lemma SwingBound(t: real)
    requires 0.0 <= t <= 1.0
    ensures -0.125 <= SwingAt(t) <= 0.125
  {
    var s := 1.0 - t;
    var st, d := s * t, t - s;
    assert SwingAt(t) == st * d;
    var r := d * d;
    assert 4.0 * st == 1.0 - r;
    assert 8.0 * (st * d) == 2.0 * ((1.0 - r) * d);
    if d >= 0.0 {
      HalfBound(d);
    } else {
      HalfBound(-d);
    }
  }

  lemma HalfBound(d: real)
    requires 0.0 <= d <= 1.0
    ensures 0.0 <= (1.0 - d * d) * d <= 0.5
  {
    var e := d * (1.0 - d);
    assert e <= 0.25 by {
      var h := d - 0.5;
      assert h * h >= 0.0;
      assert e == 0.25 - h * h;
    }
    assert (1.0 - d * d) * d == e * (1.0 + d);
    NonNegativeProduct(d, 1.0 - d);
    NonNegativeProduct(e, 1.0 + d);
    NonNegativeProduct(0.25 - e, 1.0 + d);
  }

  lemma TimesNotNegative(a: real, b: real)
    requires a >= 0.0 && b >= 0.0
    ensures Times(a, b) >= 0.0
  {
  }

  lemma ThirdsStayInside(w: real, t: real)
    requires w >= 0.0 && 0.0 <= t <= 1.0
    ensures 0.0 <= Mix(0.0, w / 3.0, w * 2.0 / 3.0, w, t) <= w
  {
    var s := 1.0 - t;
    var s2t, st2, t3 := s * s * t, s * t * t, t * t * t;
    assert s2t + 2.0 * st2 + t3 == t;
    assert Mix(0.0, w / 3.0, w * 2.0 / 3.0, w, t) == (s2t + 2.0 * st2 + t3) * w == t * w;
    assert 0.0 <= t * w <= w;
  }

  lemma TildeInside(m: Fonts, w: real, y: real, h: real, stroke: real, ascent: real, descent: real)
    requires w >= 0.0 && h >= 0.0 && -ascent <= y - 0.75 * h && y + 0.75 * h <= descent
    ensures Inside(m, Curve([Point(0.0, y), Point(w / 3.0, y - h * 2.0), Point(w * 2.0 / 3.0, y + h * 2.0), Point(w, y)], stroke),
                   w, ascent, descent)
  {
    hide Mix;
    var p := [Point(0.0, y), Point(w / 3.0, y - h * 2.0), Point(w * 2.0 / 3.0, y + h * 2.0), Point(w, y)];
    forall t: real | 0.0 <= t <= 1.0 ensures In(Bezier(p, t), w, ascent, descent) {
      ThirdsStayInside(w, t);
      TildeSwing(y, h, t);
    }
  }

  lemma WideAccentFits(m: Fonts, body: Box, tilde: bool, size: real, low: real, high: real)
    requires Fits(m, body, low, high) && size >= 0.0
    ensures Fits(m, WideAccentBox(body, tilde, size), low, high)
  {
    NotNegative(m, body, low, high);
    hide Fits, Bezier;
    var y := -body.ascent - size * 0.14;
    var stroke, height, w := RuleWidth(size), size * 0.16, body.width;
    var ascent := -y + height + stroke / 2.0;
    if tilde {
      TildeInside(m, w, y, height, stroke, ascent, body.descent);
      var p := [Point(0.0, y), Point(w / 3.0, y - height * 2.0), Point(w * 2.0 / 3.0, y + height * 2.0), Point(w, y)];
      MarksFit(m, body, [Curve(p, stroke)], ascent, body.descent, low, high);
    } else {
      MarksFit(m, body, [Line(Point(0.0, y), Point(w / 2.0, y - height), stroke), Line(Point(w / 2.0, y - height), Point(w, y), stroke)],
               ascent, body.descent, low, high);
    }
  }

  lemma {:induction false} ExtensionsFit(m: Fonts, out: Box, ext: Box, bottom: real, top: real, i: nat, n: nat, low: real, high: real)
    requires Fits(m, out, low, high) && Fits(m, ext, low, high) && ext.width <= out.width && i <= n
    ensures Fits(m, ExtendFrom(out, ext, bottom, top, i, n), low, high)
    decreases n - i
  {
    hide Fits, Appended;
    if i < n {
      var y := Center(bottom, top, i, n) - (ext.ascent - ext.descent) / 2.0;
      WithinFits(m, out, ext, 0.0, -y, low, high);
      ExtensionsFit(m, Appended(out, ext, 0.0, -y), ext, bottom, top, i + 1, n, low, high);
    }
  }

  lemma EndsFit(m: Fonts, top: Box, bot: Box, mid: Option<Box>, axis: real, dist: real, low: real, high: real)
    requires Fits(m, top, low, high) && Fits(m, bot, low, high)
    requires mid.Some? ==> Fits(m, mid.value, low, high) && mid.value.width <= Max(top.width, bot.width)
    ensures Fits(m, DelimiterEnds(top, bot, mid, axis, dist), low, high)
    ensures DelimiterEnds(top, bot, mid, axis, dist).width == Max(top.width, bot.width)
  {
    NotNegative(m, top, low, high);
    hide Fits, Appended;
    var out := Empty(Max(top.width, bot.width));
    EmptyFits(m, out.width, low, high);
    WithinFits(m, out, top, 0.0, -(dist - top.ascent + axis), low, high);
    var withTop := Appended(out, top, 0.0, -(dist - top.ascent + axis));
    WithinFits(m, withTop, bot, 0.0, dist - bot.descent - axis, low, high);
    if mid.Some? {
      WithinFits(m, Appended(withTop, bot, 0.0, dist - bot.descent - axis), mid.value, 0.0,
                 -(axis - (mid.value.ascent - mid.value.descent) / 2.0), low, high);
    }
  }

  lemma DelimiterFits(m: Fonts, symbol: string, size: real, axis: real, dist: real, low: real, high: real)
    requires InkUpright(m) && PiecesMatch(m) && size >= 0.0 && low <= size <= high
    ensures Fits(m, DelimiterBox(m, symbol, size, axis, dist), low, high)
  {
    var p := Pieces(symbol);
    if p.Some? {
      assert NoWider(m, symbol, size);
      Widths(m, symbol, size);
      var top, ext, bot := TextBox(m, p.value.0, Plain, size), TextBox(m, p.value.1, Plain, size), TextBox(m, p.value.2, Plain, size);
      var mid := MiddlePiece(m, symbol, size);
      TextFits(m, p.value.0, Plain, size, low, high);
      TextFits(m, p.value.1, Plain, size, low, high);
      TextFits(m, p.value.2, Plain, size, low, high);
      TextFits(m, "⎨", Plain, size, low, high);
      TextFits(m, "⎬", Plain, size, low, high);
      hide Fits, InkUpright, PiecesMatch, NoWider, Pieces, TextBox, Appended, DelimiterEnds, ExtendFrom, Extensions;
      var reach := DelimiterReach(symbol, top, dist);
      EndsFit(m, top, bot, mid, axis, reach, low, high);
      var up := axis + reach - top.ascent - top.descent;
      var down := axis - reach + bot.ascent + bot.descent;
      ExtensionsFit(m, DelimiterEnds(top, bot, mid, axis, reach), ext, down, up, 0,
                    Extensions(up - down, ext.ascent + ext.descent), low, high);
    } else {
      EmptyFits(m, 0.0, low, high);
    }
  }

  lemma Widths(m: Fonts, symbol: string, size: real)
    requires Pieces(symbol).Some? && NoWider(m, symbol, size)
    ensures var p := Pieces(symbol).value;
      var end := Max(TextBox(m, p.0, Plain, size).width, TextBox(m, p.2, Plain, size).width);
      && TextBox(m, p.1, Plain, size).width <= end
      && (MiddlePiece(m, symbol, size).Some? ==> MiddlePiece(m, symbol, size).value.width <= end)
  {
    hide Pieces;
  }

  lemma GroupFits(m: Fonts, left: Box, body: Box, right: Box, low: real, high: real)
    requires Fits(m, left, low, high) && Fits(m, body, low, high) && Fits(m, right, low, high)
    ensures Fits(m, GroupBox(left, body, right), low, high)
  {
    NotNegative(m, left, low, high);
    NotNegative(m, body, low, high);
    NotNegative(m, right, low, high);
    hide Fits, Appended;
    var width := body.width + body.italic;
    var out := Empty(left.width + width + right.width);
    EmptyFits(m, out.width, low, high);
    WithinFits(m, out, left, 0.0, 0.0, low, high);
    var withLeft := Appended(out, left, 0.0, 0.0);
    WithinFits(m, withLeft, body, left.width, 0.0, low, high);
    WithinFits(m, Appended(withLeft, body, left.width, 0.0), right, left.width + width, 0.0, low, high);
  }

  lemma StackedFits(m: Fonts, a: Box, b: Box, u: real, v: real, axis: real, theta: real, rule: bool, low: real, high: real)
    requires Fits(m, a, low, high) && Fits(m, b, low, high)
    requires rule ==> 0.0 <= axis <= a.ascent + u
    ensures Fits(m, Stacked(a, b, u, v, axis, theta, rule), low, high)
  {
    NotNegative(m, a, low, high);
    NotNegative(m, b, low, high);
    var aw, bw := a.width + a.italic, b.width + b.italic;
    var width := Max(aw, bw);
    var out := Empty(width);
    EmptyFits(m, width, low, high);
    StackedHeight(out, a, b, (width - aw) / 2.0, (width - bw) / 2.0, u, v);
    hide Fits, Appended;
    WithinFits(m, out, a, (width - aw) / 2.0, -u, low, high);
    var withA := Appended(out, a, (width - aw) / 2.0, -u);
    WithinFits(m, withA, b, (width - bw) / 2.0, v, low, high);
    var r := Appended(withA, b, (width - bw) / 2.0, v);
    if rule {
      MarksFit(m, r, [Line(Point(0.0, -axis), Point(width, -axis), theta)], r.ascent, r.descent, low, high);
    }
  }

  lemma StackedHeight(out: Box, a: Box, b: Box, ax: real, bx: real, u: real, v: real)
    ensures var r := Appended(Appended(out, a, ax, -u), b, bx, v);
      r.ascent >= a.ascent + u && r.ascent >= out.ascent && r.descent >= out.descent
  {
  }

  lemma FractionFits(m: Fonts, face: Face, size: real, level: nat, a: Box, b: Box, theta: real, rule: bool, low: real, high: real)
    requires InkUpright(m) && size >= 0.0 && theta >= 0.0
    requires Fits(m, a, low, high) && Fits(m, b, low, high)
    ensures Fits(m, FractionBox(m, face, size, level, a, b, theta, rule), low, high)
  {
    var axis := m.math("+", size, face).ascent / 2.0;
    assert axis >= 0.0;
    NotNegative(m, a, low, high);
    hide Fits, InkUpright, Stacked;
    forall u: real, v: real, theta': real | axis <= a.ascent + u ensures Fits(m, Stacked(a, b, u, v, axis, theta', rule), low, high) {
      StackedFits(m, a, b, u, v, axis, theta', rule, low, high);
    }
  }

  lemma ScriptsFit(m: Fonts, base: Box, upper: Option<Box>, lower: Option<Box>, u: real, v: real, low: real, high: real)
    requires Fits(m, base, low, high)
    requires upper.Some? ==> Fits(m, upper.value, low, high)
    requires lower.Some? ==> Fits(m, lower.value, low, high)
    ensures Fits(m, ScriptsBox(base, upper, lower, u, v), low, high)
  {
    NotNegative(m, base, low, high);
    hide Fits, WithScript;
    var x := base.width + base.italic;
    var sx := x + if lower.Some? then base.italic else 0.0;
    var width := WidenedBy(WidenedBy(x, upper, sx), lower, x);
    var narrow := base.(italic := 0.0, simple := false);
    var wide := narrow.(width := width);
    BaseFits(m, base, width, low, high);
    OneScriptFits(m, wide, upper, sx, -u, low, high);
    OneScriptFits(m, WithScript(wide, upper, sx, -u), lower, x, v, low, high);
    WidthLast(narrow, upper, sx, -u, width);
    WidthLast(WithScript(narrow, upper, sx, -u), lower, x, v, width);
  }

  lemma OneScriptFits(m: Fonts, out: Box, script: Option<Box>, x: real, y: real, low: real, high: real)
    requires Fits(m, out, low, high) && 0.0 <= x
    requires script.Some? ==> Fits(m, script.value, low, high) && x + script.value.width <= out.width
    ensures Fits(m, WithScript(out, script, x, y), low, high) && WithScript(out, script, x, y).width == out.width
  {
    hide Fits, Appended;
    if script.Some? {
      WithinFits(m, out, script.value, x, y, low, high);
    }
  }

  lemma BaseFits(m: Fonts, base: Box, width: real, low: real, high: real)
    requires Fits(m, base, low, high) && base.width <= width
    ensures Fits(m, base.(italic := 0.0, simple := false, width := width), low, high)
  {
    hide AllInside;
    AllInsideGrow(m, base.marks, base.width, base.ascent, base.descent, width, base.ascent, base.descent, low, high);
  }

  /** Setting the width before or after appending is the same. */
  lemma WidthLast(out: Box, script: Option<Box>, x: real, y: real, width: real)
    ensures WithScript(out.(width := width), script, x, y) == WithScript(out, script, x, y).(width := width)
  {
  }

  lemma RadicalFits(m: Fonts, l: Box, cap: real, xHeight: real, trail: real, low: real, high: real)
    requires Fits(m, l, low, high) && cap >= 0.0 && xHeight >= 0.0 && trail >= 0.0
    ensures Fits(m, RadicalBox(l, cap, xHeight, trail), low, high)
  {
    NotNegative(m, l, low, high);
    var rw, rs := 0.6 * cap, 0.2 * xHeight;
    var top := -l.ascent - 0.4 * xHeight;
    var p := RadicalPoints(l, top, cap, xHeight, trail);
    var sign := [Line(p[0], p[1], 0.75), Line(p[1], p[2], 0.75), Line(p[2], p[3], 0.75), Line(p[3], p[4], 0.75)];
    var r := RadicalBox(l, cap, xHeight, trail);
    RadicalExtent(l, cap, xHeight, trail);
    SignInside(m, p, r.width, r.ascent, r.descent, low, high);
    hide AllInside, RadicalPoints;
    AllInsideShift(m, l.marks, l.width, l.ascent, l.descent, rw + rs, 0.0, r.width, r.ascent, r.descent, low, high);
    AllInsideJoin(m, sign, ShiftAll(l.marks, rw + rs, 0.0), r.width, r.ascent, r.descent, low, high);
  }

  lemma RadicalExtent(l: Box, cap: real, xHeight: real, trail: real)
    requires l.width >= 0.0 && l.italic >= 0.0 && l.ascent + l.descent >= 0.0
    requires cap >= 0.0 && xHeight >= 0.0 && trail >= 0.0
    ensures var r := RadicalBox(l, cap, xHeight, trail);
      var p := RadicalPoints(l, -l.ascent - 0.4 * xHeight, cap, xHeight, trail);
      && r.width >= 0.0 && r.ascent >= 0.0 && r.descent >= 0.0 && r.ascent >= l.ascent && r.descent >= l.descent
      && r.width == l.width + l.italic + 0.6 * cap + 0.2 * xHeight + 2.0 * trail
      && forall i :: 0 <= i < 5 ==> In(p[i], r.width, r.ascent, r.descent)
  {
  }

  lemma SignInside(m: Fonts, p: seq<Point>, width: real, ascent: real, descent: real, low: real, high: real)
    requires |p| == 5 && forall i :: 0 <= i < 5 ==> In(p[i], width, ascent, descent)
    ensures AllInside(m, [Line(p[0], p[1], 0.75), Line(p[1], p[2], 0.75), Line(p[2], p[3], 0.75), Line(p[3], p[4], 0.75)],
                      width, ascent, descent, low, high)
  {
  }

  /** The largest factor at a style level: display operators are magnified at level 0. */
  function Cap(level: nat): real {
    if level == 0 then 1.25 else if level == 1 then 1.0 else if level == 2 then 0.7 else 0.5
  }

  lemma SizeWithinCap(c: Context)
    requires c.base >= 0.0
    ensures 0.5 * c.base <= c.Size() <= Cap(c.level) * c.base && c.Size() >= 0.0
    ensures c.level == 0 ==> c.Size() <= c.Magnified(1.25).Size() == Cap(c.level) * c.base
  {
  }

  lemma TallFits(m: Fonts, top: Box, bottom: Box, topY: real, bottomY: real, low: real, high: real)
    requires Fits(m, top, low, high) && Fits(m, bottom, low, high)
    ensures Fits(m, Appended(Appended(Empty(Max(top.width, bottom.width)), top, 0.0, topY), bottom, 0.0, bottomY), low, high)
  {
    NotNegative(m, top, low, high);
    hide Fits, Appended;
    var out := Empty(Max(top.width, bottom.width));
    EmptyFits(m, out.width, low, high);
    WithinFits(m, out, top, 0.0, topY, low, high);
    WithinFits(m, Appended(out, top, 0.0, topY), bottom, 0.0, bottomY, low, high);
  }

  lemma ShiftedFits(m: Fonts, op: Box, shift: real, low: real, high: real)
    requires Fits(m, op, low, high)
    ensures Fits(m, Appended(Empty(op.width), op, 0.0, shift), low, high)
  {
    NotNegative(m, op, low, high);
    hide Fits, Appended;
    EmptyFits(m, op.width, low, high);
    WithinFits(m, Empty(op.width), op, 0.0, shift, low, high);
  }

  lemma OperatorFits(m: Fonts, symbol: string, face: Face, c: Context, low: real, high: real)
    requires InkUpright(m) && c.base >= 0.0 && low <= c.Size() && Cap(c.level) * c.base <= high
    ensures Fits(m, OperatorBox(m, symbol, face, c), low, high)
  {
    SizeWithinCap(c);
    hide InkUpright, Fits, TextBox, TallIntegral, Magnified, Context.Size, Cap;
    TextFits(m, symbol, Plain, c.Size(), low, high);
    TallIntegralFits(m, face, c.Size(), low, high);
    if c.level == 0 {
      MagnifiedFits(m, symbol, c.Magnified(1.25).Size(), low, high);
    }
  }

  lemma TallIntegralFits(m: Fonts, face: Face, size: real, low: real, high: real)
    requires InkUpright(m) && size >= 0.0 && low <= size <= high
    ensures Fits(m, TallIntegral(m, face, size), low, high)
  {
    hide InkUpright, Fits, TextBox, Appended;
    var top, bottom := TextBox(m, "⌠", Plain, size), TextBox(m, "⌡", Plain, size);
    TextFits(m, "⌠", Plain, size, low, high);
    TextFits(m, "⌡", Plain, size, low, high);
    var axis := m.math("+", size, face).ascent / 2.0;
    TallFits(m, top, bottom, -(axis + 0.99 * top.descent), -(axis - 0.99 * bottom.ascent), low, high);
  }

  lemma MagnifiedFits(m: Fonts, symbol: string, size: real, low: real, high: real)
    requires InkUpright(m) && size >= 0.0 && low <= size <= high
    ensures Fits(m, Magnified(m, symbol, size), low, high)
  {
    hide InkUpright, Fits, TextBox, Appended;
    var op := TextBox(m, symbol, Plain, size);
    TextFits(m, symbol, Plain, size, low, high);
    ShiftedFits(m, op, (op.ascent - op.descent) / 2.0 - m.math("+", size, Plain).ascent / 2.0, low, high);
  }

  lemma SymbolFits(m: Fonts, op: Box, column: real, integral: bool, space: real, low: real, high: real)
    requires Fits(m, op, low, high) && space >= 0.0 && op.width <= column
    ensures Fits(m, SymbolBox(op, column, integral, space), low, high)
  {
    NotNegative(m, op, low, high);
    hide Fits, Appended;
    if integral {
      ShiftedFits(m, op, 0.0, low, high);
    } else {
      Roomier(m, op, op.width, op.ascent + space, op.descent + space, low, high);
      EmptyFits(m, column, low, high);
      WithinFits(m, Empty(column), op.(ascent := op.ascent + space, descent := op.descent + space), (column - op.width) / 2.0, 0.0, low, high);
    }
  }

  lemma LimitsFit(m: Fonts, op: Box, lower: Option<Box>, upper: Option<Box>, integral: bool, thin: real, space: real, low: real, high: real)
    requires Fits(m, op, low, high) && thin >= 0.0 && space >= 0.0
    requires lower.Some? ==> Fits(m, lower.value, low, high)
    requires upper.Some? ==> Fits(m, upper.value, low, high)
    ensures Fits(m, LimitsBox(op, lower, upper, integral, thin, space), low, high)
  {
    NotNegative(m, op, low, high);
    hide Fits, Appended, SymbolBox, LowerLimit, UpperLimit;
    var column := Max(Max(op.width, WidthOf(lower)), WidthOf(upper));
    SymbolFits(m, op, column, integral, space, low, high);
    var symbol := SymbolBox(op, column, integral, space);
    if lower.Some? {
      LowerFits(m, symbol, op, lower.value, column, integral, thin, space, low, high);
    }
    var withLower := if lower.None? then symbol else LowerLimit(symbol, op, lower.value, column, integral, thin, space);
    if upper.Some? {
      UpperFits(m, withLower, op, upper.value, column, integral, thin, space, low, high);
    }
    var withUpper := if upper.None? then withLower else UpperLimit(withLower, op, upper.value, column, integral, thin, space);
    Roomier(m, withUpper, withUpper.width + thin, withUpper.ascent + (if upper.None? then 0.0 else space),
            withUpper.descent + (if lower.None? then 0.0 else space), low, high);
  }

  /** Appending with the width made large enough first. */
  lemma PlacedFits(m: Fonts, out: Box, other: Box, x: real, y: real, low: real, high: real)
    requires Fits(m, out, low, high) && Fits(m, other, low, high) && x >= 0.0
    ensures Fits(m, Appended(out.(width := Max(out.width, x + other.width)), other, x, y), low, high)
  {
    var w := Max(out.width, x + other.width);
    Roomier(m, out, w, out.ascent, out.descent, low, high);
    hide Fits, Appended;
    WithinFits(m, out.(width := w), other, x, y, low, high);
  }

  lemma LowerFits(m: Fonts, out: Box, op: Box, l: Box, column: real, integral: bool, thin: real, space: real, low: real, high: real)
    requires Fits(m, out, low, high) && Fits(m, l, low, high)
    requires thin >= 0.0 && op.width >= 0.0 && l.width <= column
    ensures Fits(m, LowerLimit(out, op, l, column, integral, thin, space), low, high)
  {
    hide Fits, Appended;
    var x := if integral then op.width / 2.0 + thin else (column - l.width) / 2.0;
    PlacedFits(m, out, l, x, if integral then op.descent + (l.ascent - l.descent) / 2.0
             else op.descent + l.ascent + Max(space, space - l.ascent), low, high);
  }

  lemma UpperFits(m: Fonts, out: Box, op: Box, u: Box, column: real, integral: bool, thin: real, space: real, low: real, high: real)
    requires Fits(m, out, low, high) && Fits(m, u, low, high)
    requires thin >= 0.0 && op.width >= 0.0 && u.width <= column
    ensures Fits(m, UpperLimit(out, op, u, column, integral, thin, space), low, high)
  {
    hide Fits, Appended;
    var x := if integral then op.width + thin else (column - u.width) / 2.0;
    PlacedFits(m, out, u, x, if integral then -op.ascent + (u.ascent - u.descent) / 2.0
             else -op.ascent - u.descent - Max(space, space - u.descent), low, high);
  }

  lemma Roomier(m: Fonts, b: Box, width: real, ascent: real, descent: real, low: real, high: real)
    requires Fits(m, b, low, high) && b.width <= width && b.ascent <= ascent && b.descent <= descent
    ensures Fits(m, b.(width := width, ascent := ascent, descent := descent), low, high)
    ensures b.ascent == ascent && b.descent == descent ==> b.(width := width) == b.(width := width, ascent := ascent, descent := descent)
  {
    hide AllInside;
    AllInsideGrow(m, b.marks, b.width, b.ascent, b.descent, width, ascent, descent, low, high);
  }

  lemma BodyFits(m: Fonts, limits: Box, body: Box, low: real, high: real)
    requires Fits(m, limits, low, high) && Fits(m, body, low, high)
    ensures Fits(m, OperatorWithBody(limits, body), low, high)
  {
    NotNegative(m, body, low, high);
    NotNegative(m, limits, low, high);
    ItalicFits(m, limits, body.italic, low, high);
    hide Fits;
    AppendFits(m, limits.(italic := body.italic), body, limits.width, 0.0, limits.width + body.width, low, high);
  }

  lemma ItalicFits(m: Fonts, b: Box, italic: real, low: real, high: real)
    requires Fits(m, b, low, high) && italic >= 0.0
    ensures Fits(m, b.(italic := italic), low, high)
  {
  }

  // -------------------------------------------------------------------------
  // Expressions
  // -------------------------------------------------------------------------

  ghost function Opt(v: Option<MathExpr>): seq<MathExpr> {
    if v.None? then [] else [v.value]
  }

  /** The expressions an expression is made of. */
  ghost function Parts(e: MathExpr): (r: seq<MathExpr>)
    ensures forall i :: 0 <= i < |r| ==> r[i] < e
  {
    match e
    case Row(values) => values
    case Fraction(a, b) => [a, b]
    case Atop(a, b) => [a, b]
    case Scripts(value, sub, sup) => [value] + Opt(sub) + Opt(sup)
    case DisplayOperator(_, value, sub, sup) => [value] + Opt(sub) + Opt(sup)
    case Text(_) => []
    case Variable(_) => []
    case Upright(_) => []
    case Space(_) => []
    case _ => [e.value]
  }

  /** No negative space or scale, and the font sizes that the scales lead to stay within bounds. */
  ghost predicate Within(e: MathExpr, base: real, low: real, high: real)
    decreases e
  {
    if e.Scale? then e.scale >= 0.0 && Within(e.value, Times(base, e.scale), low, high)
    else
      && low <= base <= high && (e.Space? ==> e.em >= 0.0)
      && forall i :: 0 <= i < |Parts(e)| ==> Within(Parts(e)[i], base, low, high)
  }

  lemma PartsWithin(e: MathExpr, base: real, low: real, high: real)
    requires Within(e, base, low, high) && !e.Scale?
    ensures e.Fraction? || e.Atop? ==> Within(e.over, base, low, high) && Within(e.under, base, low, high)
    ensures e.Row? ==> forall i :: 0 <= i < |e.values| ==> Within(e.values[i], base, low, high)
    ensures e.DisplayOperator? ==> Within(e.value, base, low, high)
    ensures e.Scripts? ==> Within(e.base, base, low, high)
    ensures e.Scripts? || e.DisplayOperator? ==>
      && (e.sub.Some? ==> Within(e.sub.value, base, low, high))
      && (e.sup.Some? ==> Within(e.sup.value, base, low, high))
    ensures e.Style? || e.Radical? || e.Accent? || e.Underline? || e.Phantom? || e.BGroup? || e.WideAccent? ==>
      Within(e.value, base, low, high)
  {
    var r := Parts(e);
    if e.Scripts? || e.DisplayOperator? {
      assert Within(r[0], base, low, high);
      if e.sub.Some? {
        assert Within(r[1], base, low, high);
      }
      if e.sup.Some? {
        assert Within(r[|r| - 1], base, low, high);
      }
    } else if e.Fraction? || e.Atop? {
      assert Within(r[0], base, low, high) && Within(r[1], base, low, high);
    } else if |r| == 1 {
      assert Within(r[0], base, low, high);
    }
  }

  lemma CapFalls(c: Context, compact: bool)
    ensures Cap(c.Script(compact).level) <= Cap(c.level)
    ensures Cap(c.Numerator().level) <= Cap(c.level) && Cap(c.Denominator().level) <= Cap(c.level)
    ensures Cap(c.Prime().level) == Cap(c.level)
    ensures c.Script(compact).base == c.Numerator().base == c.Denominator().base == c.Prime().base == c.base
  {
  }

  lemma {:induction false} PartFits(m: Fonts, p: Params, c: Context, c': Context, e: MathExpr, low: real, high: real)
    requires InkUpright(m) && PiecesMatch(m) && c.base >= 0.0 && high >= 0.0
    requires c'.base == c.base && Cap(c'.level) <= Cap(c.level) && Within(e, c.base, low, high)
    ensures Fits(m, Layout(m, p, c', e), 0.5 * low, Cap(c.level) * high)
    decreases e, 1
  {
    LayoutFits(m, p, c', e, low, high);
    assert Cap(c'.level) * high <= Cap(c.level) * high;
    hide Fits, Layout, Cap, InkUpright, PiecesMatch;
    FitsLoosely(m, Layout(m, p, c', e), 0.5 * low, Cap(c'.level) * high, 0.5 * low, Cap(c.level) * high);
  }

  lemma SizesFit(c: Context, low: real, high: real)
    requires c.base >= 0.0 && low <= c.base <= high
    ensures 0.5 * low <= c.Size() <= Cap(c.level) * high && c.Size() >= 0.0 && Cap(c.level) * c.base <= Cap(c.level) * high
  {
  }

  lemma InksPositive(m: Fonts, size: real, face: Face)
    requires InkUpright(m) && size >= 0.0
    ensures m.math("X", size, face).ascent >= 0.0 && m.math("x", size, face).ascent >= 0.0
    ensures m.math("M", size, face).width >= 0.0 && m.textWidth("M", size, face) >= 0.0
  {
  }

  /** Every mark of every layout lies in the box of the layout, and no text is smaller than half the
      smallest font size nor larger than the style level allows. */
  lemma {:induction false} LayoutFits(m: Fonts, p: Params, c: Context, e: MathExpr, low: real, high: real)
    requires InkUpright(m) && PiecesMatch(m) && c.base >= 0.0 && high >= 0.0
    requires Within(e, c.base, low, high)
    ensures Fits(m, Layout(m, p, c, e), 0.5 * low, Cap(c.level) * high)
    decreases e, 0
  {
    hide Fits, InkUpright, PiecesMatch, Cap, Times, Context.Size, Context.Script, Context.Numerator, Context.Denominator,
      TextBox, VariableBox, RowFrom, FractionBox, ScriptsBox, ScriptShifts, ScriptsApart, RadicalBox, AccentBox, MacronBox,
      UnderlineBox, SpaceBox, GroupReach, GroupBox, DelimiterBox, WideAccentBox, LimitsBox, OperatorBox, OperatorWithBody;
    var size, lo, hi := c.Size(), 0.5 * low, Cap(c.level) * high;
    CapFalls(c, true);
    CapFalls(c, c.compact);
    if !e.Scale? {
      PartsWithin(e, c.base, low, high);
      SizesFit(c, low, high);
      InksPositive(m, size, p.face);
    }
    match e {
      case Text(text) => TextFits(m, text, p.face, size, lo, hi);
      case Variable(text) => VariableFits(m, text, p.face, size, lo, hi);
      case Upright(text) => TextFits(m, text, Plain, size, lo, hi);
      case Row(values) =>
        forall i | 0 <= i < |values| ensures Fits(m, Layout(m, p, c, values[i]), lo, hi) {
          LayoutFits(m, p, c, values[i], low, high);
        }
        EmptyFits(m, 0.0, lo, hi);
        RowFits(m, Empty(0.0), seq(|values|, i requires 0 <= i < |values| => Layout(m, p, c, values[i])), lo, hi);
      case Fraction(a, b) =>
        PartFits(m, p, c, c.Numerator(), a, low, high);
        PartFits(m, p, c, c.Denominator(), b, low, high);
        FractionFits(m, p.face, size, c.level, Layout(m, p, c.Numerator(), a), Layout(m, p, c.Denominator(), b),
                     0.015 * LayoutInch(p), true, lo, hi);
      case Atop(a, b) =>
        PartFits(m, p, c, c.Numerator(), a, low, high);
        PartFits(m, p, c, c.Denominator(), b, low, high);
        FractionFits(m, p.face, size, c.level, Layout(m, p, c.Numerator(), a), Layout(m, p, c.Denominator(), b),
                     0.015 * LayoutInch(p), false, lo, hi);
      case Style(value, face) => LayoutFits(m, p.(face := face), c, value, low, high);
      case Scale(value, scale) =>
        ScaledPartFits(m, p, c, e, low, high);
      case Scripts(_, _, _) => ScriptedFits(m, p, c, e, low, high);
      case Radical(value) =>
        PartFits(m, p, c, c.Prime(), value, low, high);
        RadicalFits(m, Layout(m, p, c.Prime(), value), m.math("X", size, p.face).ascent, m.math("x", size, p.face).ascent,
                    0.05555556 * m.textWidth("M", size, p.face), lo, hi);
      case Accent(value, accent) =>
        LayoutFits(m, p, c, value, low, high);
        TextFits(m, accent, p.face, size, lo, hi);
        var body := Layout(m, p, c, value);
        AccentFits(m, body, TextBox(m, accent, p.face, size), m.math("X", size, p.face).ascent, lo, hi);
        MacronFits(m, body, size, lo, hi);
      case Underline(value) =>
        LayoutFits(m, p, c, value, low, high);
        UnderlineFits(m, Layout(m, p, c, value), size, lo, hi);
      case Space(em) => SpaceFits(m, em, c.level, m.math("M", size, p.face).width, lo, hi);
      case Phantom(value) =>
        LayoutFits(m, p, c, value, low, high);
        NoMarksFit(m, Layout(m, p, c, value), lo, hi);
      case BGroup(left, value, right) =>
        LayoutFits(m, p, c, value, low, high);
        var body, axis := Layout(m, p, c, value), m.math("+", size, p.face).ascent / 2.0;
        var reach := GroupReach(body, axis, m.math("x", size, p.face).ascent);
        DelimiterFits(m, left, size, axis, reach, lo, hi);
        DelimiterFits(m, right, size, axis, reach, lo, hi);
        GroupFits(m, DelimiterBox(m, left, size, axis, reach), body, DelimiterBox(m, right, size, axis, reach), lo, hi);
      case WideAccent(value, accent) =>
        LayoutFits(m, p, c, value, low, high);
        WideAccentFits(m, Layout(m, p, c, value), accent == "tilde", size, lo, hi);
      case DisplayOperator(_, _, _, _) => DisplayFits(m, p, c, e, low, high);
    }
  }

  lemma {:induction false} ScaledPartFits(m: Fonts, p: Params, c: Context, e: MathExpr, low: real, high: real)
    requires InkUpright(m) && PiecesMatch(m) && c.base >= 0.0 && high >= 0.0
    requires e.Scale? && Within(e, c.base, low, high)
    ensures Fits(m, Layout(m, p, c, e), 0.5 * low, Cap(c.level) * high)
    decreases e, 0, 0
  {
    TimesNotNegative(c.base, e.scale);
    var c' := c.Magnified(e.scale);
    assert c'.level == c.level && c'.base == Times(c.base, e.scale);
    ScaleLayout(m, p, c, e);
    hide Fits, Layout, InkUpright, PiecesMatch, Times, Cap;
    LayoutFits(m, p, c', e.value, low, high);
  }

  lemma ScaleLayout(m: Fonts, p: Params, c: Context, e: MathExpr)
    requires e.Scale?
    ensures Layout(m, p, c, e) == Layout(m, p, c.Magnified(e.scale), e.value)
  {
    hide Times;
  }

  lemma {:induction false} ScriptedFits(m: Fonts, p: Params, c: Context, e: MathExpr, low: real, high: real)
    requires InkUpright(m) && PiecesMatch(m) && c.base >= 0.0 && high >= 0.0
    requires e.Scripts? && Within(e, c.base, low, high)
    ensures Fits(m, Layout(m, p, c, e), 0.5 * low, Cap(c.level) * high)
    decreases e, 0, 0
  {
    hide Fits, InkUpright, PiecesMatch, Cap, Context.Size, Context.Script, ScriptsBox, ScriptShifts, ScriptsApart;
    CapFalls(c, true);
    CapFalls(c, c.compact);
    PartsWithin(e, c.base, low, high);
    LayoutFits(m, p, c, e.base, low, high);
    if e.sup.Some? {
      PartFits(m, p, c, c.Script(c.compact), e.sup.value, low, high);
    }
    if e.sub.Some? {
      PartFits(m, p, c, c.Script(true), e.sub.value, low, high);
    }
    var out := Layout(m, p, c, e.base);
    var upper := if e.sup.None? then None else Some(Layout(m, p, c.Script(c.compact), e.sup.value));
    var lower := if e.sub.None? then None else Some(Layout(m, p, c.Script(true), e.sub.value));
    var (u, v) := ScriptShifts(m, p.face, c, out, upper, lower);
    var (u', v') := ScriptsApart(u, v, upper, lower, m.math("x", c.Size(), p.face).ascent, 4.0 * 0.015 * LayoutInch(p));
    ScriptsFit(m, out, upper, lower, u', v', 0.5 * low, Cap(c.level) * high);
  }

  lemma {:induction false} DisplayFits(m: Fonts, p: Params, c: Context, e: MathExpr, low: real, high: real)
    requires InkUpright(m) && PiecesMatch(m) && c.base >= 0.0 && high >= 0.0
    requires e.DisplayOperator? && Within(e, c.base, low, high)
    ensures Fits(m, Layout(m, p, c, e), 0.5 * low, Cap(c.level) * high)
    decreases e, 0, 0
  {
    hide Fits, InkUpright, PiecesMatch, Cap, Context.Size, Context.Script, LimitsBox, OperatorBox, OperatorWithBody;
    var size, lo, hi := c.Size(), 0.5 * low, Cap(c.level) * high;
    SizesFit(c, low, high);
    InksPositive(m, size, p.face);
    CapFalls(c, true);
    CapFalls(c, c.compact);
    PartsWithin(e, c.base, low, high);
    LayoutFits(m, p, c, e.value, low, high);
    if e.sup.Some? {
      PartFits(m, p, c, c.Script(c.compact), e.sup.value, low, high);
    }
    if e.sub.Some? {
      PartFits(m, p, c, c.Script(true), e.sub.value, low, high);
    }
    var lower := if e.sub.None? then None else Some(Layout(m, p, c.Script(true), e.sub.value));
    var upper := if e.sup.None? then None else Some(Layout(m, p, c.Script(c.compact), e.sup.value));
    var op := OperatorBox(m, e.symbol, p.face, c);
    var thin, space := m.math("M", size, p.face).width / 6.0, 0.15 * m.math("X", size, p.face).ascent;
    OperatorFits(m, e.symbol, p.face, c, lo, hi);
    LimitsFit(m, op, lower, upper, e.symbol == "∫", thin, space, lo, hi);
    BodyFits(m, LimitsBox(op, lower, upper, e.symbol == "∫", thin, space), Layout(m, p, c, e.value), lo, hi);
  }

  lemma SpaceFits(m: Fonts, em: real, level: nat, emWidth: real, low: real, high: real)
    requires em >= 0.0 && emWidth >= 0.0
    ensures Fits(m, SpaceBox(em, level, emWidth), low, high)
  {
  }

  lemma NoMarksFit(m: Fonts, b: Box, low: real, high: real)
    requires Fits(m, b, low, high)
    ensures Fits(m, b.(marks := []), low, high)
  {
  }
}
