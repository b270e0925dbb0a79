/** Where the shapes of `crates/r-graphics-engine/src/math.rs` draw what they add to their parts, and how far the
    finished box then reaches. */
module MathShapes {
  import opened Wrappers
  import opened MathLayout
  import opened MathFits
  import opened MathProperties
  import opened MathBuilder

  // -------------------------------------------------------------------------
  // Contexts
  // -------------------------------------------------------------------------

  /** Sizes and levels in numbers: seven tenths of the base from the first script on, half of it from the
      second; below and under a root everything is compact. */
  lemma ContextSteps(e: MathExpr, c: Context, i: nat)
    requires i < |Parts(e)| && c.level <= 3
    ensures var d := ContextOf(e, c, i);
      && c.Size() == c.base * (if c.level <= 1 then 1.0 else if c.level == 2 then 0.7 else 0.5)
      && d.base == (if e.Scale? then c.base * e.scale else c.base)
      && d.level == (if (e.Scripts? || e.DisplayOperator?) && i > 0 then (if c.level <= 1 then 2 else 3)
                     else if e.Fraction? || e.Atop? then (if c.level == 3 then 3 else c.level + 1)
                     else c.level)
      && d.compact == (c.compact || e.Radical? || ((e.Fraction? || e.Atop?) && i == 1)
                       || ((e.Scripts? || e.DisplayOperator?) && i == 1 && e.sub.Some?))
  {
  }

  // -------------------------------------------------------------------------
  // Rows and spaces
  // -------------------------------------------------------------------------

  /** Where an item of a row begins: behind the widths and italic corrections of those before it. */
  ghost function Start(items: seq<Box>, n: nat): real
    requires n <= |items|
  {
    if n == 0 then 0.0 else Start(items, n - 1) + items[n - 1].width + items[n - 1].italic
  }

  ghost function RowMarks(items: seq<Box>, n: nat): seq<Mark>
    requires n <= |items|
  {
    if n == 0 then [] else RowMarks(items, n - 1) + ShiftAll(items[n - 1].marks, Start(items, n - 1), 0.0)
  }

  /** It reaches as high as its highest item, but not below the baseline, and likewise down. */
  ghost predicate Reaches(items: seq<Box>, n: nat, ascent: real, descent: real)
    requires n <= |items|
  {
    && ascent >= 0.0 && descent >= 0.0
    && (forall i :: 0 <= i < n ==> items[i].ascent <= ascent && items[i].descent <= descent)
    && (ascent == 0.0 || exists i :: 0 <= i < n && items[i].ascent == ascent)
    && (descent == 0.0 || exists i :: 0 <= i < n && items[i].descent == descent)
  }

  lemma {:induction false} RowStands(items: seq<Box>, n: nat)
    requires n <= |items|
    ensures var r := RowFrom(Empty(0.0), items[..n]);
      && r.marks == RowMarks(items, n) && r.width + r.italic == Start(items, n)
      && r.italic == (if n == 0 then 0.0 else items[n - 1].italic)
      && Reaches(items, n, r.ascent, r.descent) && !r.simple
  {
    if n > 0 {
      RowStands(items, n - 1);
      RowTakesNext(Empty(0.0), items, n - 1);
      var before := RowFrom(Empty(0.0), items[..n - 1]);
      hide RowFrom, ShiftAll;
      OneMoreReaches(items, n, before.ascent, before.descent);
    }
  }

  lemma OneMoreReaches(items: seq<Box>, n: nat, ascent: real, descent: real)
    requires 0 < n <= |items| && Reaches(items, n - 1, ascent, descent)
    ensures Reaches(items, n, Max(ascent, items[n - 1].ascent), Max(descent, items[n - 1].descent))
  {
  }

  /** A row: each item on the baseline, behind all before it, and nothing else. */
  lemma RowPlacement(m: Fonts, p: Params, c: Context, values: seq<MathExpr>)
    ensures var items, out := Layouts(m, p, c, values), Layout(m, p, c, Row(values));
      && out.marks == RowMarks(items, |items|) && out.width + out.italic == Start(items, |items|)
      && out.italic == (if values == [] then 0.0 else items[|items| - 1].italic)
      && Reaches(items, |items|, out.ascent, out.descent)
  {
    RowLayout(m, p, c, values);
    hide Layout;
    var items := Layouts(m, p, c, values);
    RowStands(items, |items|);
    assert items[..|items|] == items;
  }

  /** A space draws nothing and has a width only: so many times that of an M, but in scripts none from two
      ninths of it on. */
  lemma SpaceIsWidth(m: Fonts, p: Params, c: Context, em: real)
    ensures var out := Layout(m, p, c, Space(em));
      && |out.marks| == 0 && out.ascent == 0.0 && out.descent == 0.0 && out.italic == 0.0
      && (c.level <= 1 || 9.0 * em < 2.0 ==> out.width == em * m.math("M", c.Size(), p.face).width)
      && (c.level >= 2 && 9.0 * em >= 2.0 ==> out.width == 0.0)
  {
    hide Context.Size;
  }

  // -------------------------------------------------------------------------
  // Fractions
  // -------------------------------------------------------------------------

  /** How far up the numerator goes, and the denominator down: by a distance of its own, or further if it would
      come too close to the rule. */
  lemma FractionOffsetsAre(m: Fonts, p: Params, c: Context, e: MathExpr)
    requires e.Fraction? || e.Atop?
    ensures var a, b := Layout(m, p, c.Numerator(), e.over), Layout(m, p, c.Denominator(), e.under);
      var k, theta := (t: string) => m.math(t, c.Size(), p.face), 0.015 * LayoutInch(p);
      var axis, cap, display := k("+").ascent / 2.0, k("X").ascent, c.level == 0;
      && OffsetsOf(m, p, c, e).0 ==
           Max(axis + (if display then 3.51 * theta + 0.15 * cap + 0.7 * k("g").descent else 1.51 * theta + 0.08333333 * cap),
               a.descent + axis + theta / 2.0 + (if display then 3.0 * theta else theta))
      && OffsetsOf(m, p, c, e).1 ==
           Max(0.7 * k("0").ascent - axis + (if display then 3.51 * theta + 0.344444 * cap else 1.51 * theta + 0.08333333 * cap),
               b.ascent - axis - theta / 2.0 + (if display then 3.0 * theta else theta))
  {
    hide Layout, Context.Size, Context.Numerator, Context.Denominator, LayoutInch;
  }

  /** A fraction reaches exactly as far as its parts. */
  lemma FractionExtents(m: Fonts, p: Params, c: Context, e: MathExpr)
    requires e.Fraction? || e.Atop?
    ensures var a, b := Layout(m, p, c.Numerator(), e.over), Layout(m, p, c.Denominator(), e.under);
      var out, at := Layout(m, p, c, e), OffsetsOf(m, p, c, e);
      && out.ascent == Max(0.0, Max(a.ascent + at.0, b.ascent - at.1))
      && out.descent == Max(0.0, Max(a.descent - at.0, b.descent + at.1))
      && out.width == Max(a.width + a.italic, b.width + b.italic)
      && out.italic == 0.0 && !out.simple
  {
    hide Layout, FractionOffsets, Context.Size, Context.Numerator, Context.Denominator, LayoutInch, ShiftAll;
    FractionUnfolds(m, p, c, e);
  }

  // -------------------------------------------------------------------------
  // Scripts
  // -------------------------------------------------------------------------

  /** The least of the numbers that are not below any of these. */
  ghost predicate LeastAbove(u: real, a: real, b: real, c: real) {
    u >= a && u >= b && u >= c && (u == a || u == b || u == c)
  }

  /** Before they are compared, scripts go no further than they have to: so far from the edges of a base that is
      no single symbol, so far from the baseline, and so far that their ink is clear of it. */
  lemma ScriptsGoNoFurther(m: Fonts, p: Params, c: Context, e: MathExpr)
    requires e.Scripts?
    ensures var base, upper, lower, first := Layout(m, p, c, e.base), SupOf(m, p, c, e), SubOf(m, p, c, e), FirstShifts(m, p, c, e);
      var xh, cap, small := m.math("x", c.Size(), p.face).ascent, m.math("X", c.Size(), p.face).ascent, m.math("x", c.Script(true).Size(), p.face).ascent;
      var high, low := if base.simple then 0.0 else base.ascent - 0.3861111 * cap, if base.simple then 0.0 else base.descent + 0.05 * cap;
      && (upper.Some? ==> LeastAbove(first.0, high, upper.value.descent + 0.25 * xh,
                                     xh * (if c.compact then 0.7 else if c.level == 0 then 0.95 else 0.825)))
      && (lower.Some? && upper.Some? ==> LeastAbove(first.1, low, 0.45 * cap, 0.45 * cap))
      && (lower.Some? && upper.None? ==> LeastAbove(first.1, low, 0.35 * xh, lower.value.ascent - 0.8 * small))
  {
    hide Layout, Context.Size, Context.Script;
  }

  /** What scripts add to the extents of their base. */
  lemma ScriptExtents(m: Fonts, p: Params, c: Context, e: MathExpr)
    requires e.Scripts?
    ensures var base, upper, lower, at, out := Layout(m, p, c, e.base), SupOf(m, p, c, e), SubOf(m, p, c, e), ShiftsOf(m, p, c, e), Layout(m, p, c, e);
      var up, down := if upper.None? then base.ascent else upper.value.ascent + at.0, if upper.None? then base.descent else upper.value.descent - at.0;
      && out.ascent == Max(Max(base.ascent, up), if lower.None? then base.ascent else lower.value.ascent - at.1)
      && out.descent == Max(Max(base.descent, down), if lower.None? then base.descent else lower.value.descent + at.1)
      && out.italic == 0.0 && !out.simple
  {
    ScriptsUnfold(m, p, c, e);
    hide Layout, SupOf, SubOf, ShiftsOf, ShiftAll;
  }

  // -------------------------------------------------------------------------
  // Roots
  // -------------------------------------------------------------------------

  /** A root sign of four joined lines, from the left edge down to the depth of the body, up to the bar, and along
      it; the body right of the first three and under the fourth, which spans it with its italic correction. */
  ghost predicate RadicalStands(m: Fonts, p: Params, c: Context, e: MathExpr)
    requires e.Radical?
  {
    var body, out := Layout(m, p, c.Prime(), e.value), Layout(m, p, c, e);
    var cap, xh, trail := m.math("X", c.Size(), p.face).ascent, m.math("x", c.Size(), p.face).ascent, 0.05555556 * m.textWidth("M", c.Size(), p.face);
    var x, bar, s := 0.6 * cap + 0.2 * xh, -(body.ascent + 0.4 * xh), out.marks;
    && |s| == 4 + |body.marks| && s[4..] == ShiftAll(body.marks, x, 0.0)
    && s[0].Line? && s[1].Line? && s[2].Line? && s[3].Line?
    && s[0].w == s[1].w == s[2].w == s[3].w == 0.75
    && s[0].b == s[1].a && s[1].b == s[2].a && s[2].b == s[3].a
    && s[0].a == Point(0.0, 0.8 * ((body.descent - body.ascent) / 2.0)) && s[0].b == Point(0.3 * (0.6 * cap), (body.descent - body.ascent) / 2.0)
    && s[1].b == Point(0.6 * (0.6 * cap), body.descent)
    && s[3].a == Point(0.6 * cap, bar) && s[3].b.y == bar && s[3].b.x == x + (body.width + body.italic) + trail
    && out.width == s[3].b.x + trail
    && out.ascent == Max(0.0, Max(body.ascent, -bar)) && out.descent == Max(0.0, body.descent) && out.italic == 0.0 && !out.simple
  }

  lemma RadicalPlacement(m: Fonts, p: Params, c: Context, e: MathExpr)
    requires e.Radical?
    ensures RadicalStands(m, p, c, e)
  {
    hide Context.Size, Context.Prime;
    var body, out := Layout(m, p, c.Prime(), e.value), Layout(m, p, c, e);
    RadicalMarks(body, m.math("X", c.Size(), p.face).ascent, m.math("x", c.Size(), p.face).ascent, 0.05555556 * m.textWidth("M", c.Size(), p.face));
    assert out == RadicalBox(body, m.math("X", c.Size(), p.face).ascent, m.math("x", c.Size(), p.face).ascent, 0.05555556 * m.textWidth("M", c.Size(), p.face));
    hide Layout, RadicalBox, ShiftAll;
  }

  lemma RadicalMarks(l: Box, cap: real, xh: real, trail: real)
    ensures var out, p := RadicalBox(l, cap, xh, trail), RadicalPoints(l, -l.ascent - 0.4 * xh, cap, xh, trail);
      && out.marks == [Line(p[0], p[1], 0.75), Line(p[1], p[2], 0.75), Line(p[2], p[3], 0.75), Line(p[3], p[4], 0.75)] + ShiftAll(l.marks, 0.6 * cap + 0.2 * xh, 0.0)
      && out.width == l.width + l.italic + 0.6 * cap + 0.2 * xh + 2.0 * trail
      && out.ascent == Max(0.0, Max(l.ascent, l.ascent + 0.4 * xh)) && out.descent == Max(0.0, l.descent) && out.italic == 0.0 && !out.simple
  {
    hide ShiftAll;
  }

  /** So, with a font whose ink is upright, all marks of the body are right of the sign and below the bar. */
  lemma BodyIsUnderRoot(m: Fonts, p: Params, c: Context, e: MathExpr, i: nat)
    requires e.Radical? && InkUpright(m) && PiecesMatch(m) && c.base >= 0.0 && Proper(e) && i < |Layout(m, p, c, e).marks| - 4
    ensures var body, s := Layout(m, p, c.Prime(), e.value), Layout(m, p, c, e).marks;
      && s[3].Line? && s[3].a.y == s[3].b.y
      && s[3].a.x <= s[3].b.x - (body.width + body.italic)
      && i < |body.marks| && s[4 + i] == Shift(body.marks[i], 0.6 * m.math("X", c.Size(), p.face).ascent + 0.2 * m.math("x", c.Size(), p.face).ascent, 0.0)
      && Inside(m, body.marks[i], body.width, body.ascent, body.descent)
      && -body.ascent >= s[3].a.y
  {
    RadicalPlacement(m, p, c, e);
    assert Proper(Parts(e)[0]);
    EveryLayoutIsFramed(m, p, c.Prime(), e.value);
    InksPositive(m, c.Size(), p.face);
    hide Layout, Inside, PiecesMatch, Proper;
    var s := Layout(m, p, c, e).marks;
    assert s[4 + i] == s[4..][i];
  }

  // -------------------------------------------------------------------------
  // Lines and accents
  // -------------------------------------------------------------------------

  /** The marks of the body are all inside its box. */
  ghost predicate BodyInside(m: Fonts, marks: seq<Mark>, b: Box) {
    |marks| == |b.marks| && forall i :: 0 <= i < |marks| ==> Inside(m, marks[i], b.width, b.ascent, b.descent)
  }

  /** An underline: the body as it was, and one level line across its width, a tenth of the size below all of its
      marks. */
  lemma UnderlinePlacement(m: Fonts, p: Params, c: Context, e: MathExpr)
    requires e.Underline? && InkUpright(m) && PiecesMatch(m) && c.base >= 0.0 && Proper(e)
    ensures var body, out := Layout(m, p, c, e.value), Layout(m, p, c, e);
      var n := |body.marks|;
      && |out.marks| == n + 1 && out.marks[..n] == body.marks && BodyInside(m, out.marks[..n], body)
      && out.marks[n].Line? && out.marks[n].a == Point(0.0, body.descent + 0.1 * c.Size()) && out.marks[n].b == Point(body.width, body.descent + 0.1 * c.Size())
      && out.marks[n].w >= 0.5 && out.marks[n].w >= 0.055 * c.Size() && (out.marks[n].w == 0.5 || out.marks[n].w == 0.055 * c.Size())
      && out.width == body.width && out.ascent == body.ascent && out.descent == body.descent + 0.13 * c.Size()
      && out.italic == body.italic && out.simple == body.simple
  {
    BodyIsFramed(m, p, c, e);
    UnfoldLine(m, p, c, e);
    hide Layout, Inside, InkUpright, PiecesMatch, Proper, Context.Size;
  }

  lemma UnfoldLine(m: Fonts, p: Params, c: Context, e: MathExpr)
    ensures e.Underline? ==> Layout(m, p, c, e) == UnderlineBox(Layout(m, p, c, e.value), c.Size())
    ensures e.Accent? && e.accent == "¯" ==> Layout(m, p, c, e) == MacronBox(Layout(m, p, c, e.value), c.Size())
    ensures e.Accent? && e.accent != "¯" ==>
      Layout(m, p, c, e) == AccentBox(Layout(m, p, c, e.value), TextBox(m, e.accent, p.face, c.Size()), m.math("X", c.Size(), p.face).ascent)
    ensures e.WideAccent? ==> Layout(m, p, c, e) == WideAccentBox(Layout(m, p, c, e.value), e.accent == "tilde", c.Size())
  {
    hide UnderlineBox, MacronBox, AccentBox, WideAccentBox, TextBox, Context.Size;
  }

  lemma BodyIsFramed(m: Fonts, p: Params, c: Context, e: MathExpr)
    requires (e.Underline? || e.Accent? || e.WideAccent?) && InkUpright(m) && PiecesMatch(m) && c.base >= 0.0 && Proper(e)
    ensures var body := Layout(m, p, c, e.value); Framed(m, body) && BodyInside(m, body.marks, body)
  {
    assert Proper(Parts(e)[0]);
    EveryLayoutIsFramed(m, p, c, e.value);
    hide Layout, Inside;
  }

  /** A macron: the body as it was, and one level line across its width, a tenth of the size above all of its marks. */
  lemma MacronPlacement(m: Fonts, p: Params, c: Context, e: MathExpr)
    requires e.Accent? && e.accent == "¯" && InkUpright(m) && PiecesMatch(m) && c.base >= 0.0 && Proper(e)
    ensures var body, out := Layout(m, p, c, e.value), Layout(m, p, c, e);
      var n, y := |body.marks|, -body.ascent - 0.1 * c.Size();
      && |out.marks| == n + 1 && out.marks[..n] == body.marks && BodyInside(m, out.marks[..n], body)
      && out.marks[n] == Line(Point(0.0, y), Point(body.width, y), RuleWidth(c.Size()))
      && out.width == body.width && out.ascent == body.ascent + 0.15 * c.Size() && out.descent == Max(body.descent, y)
      && out.italic == body.italic && out.simple == body.simple
  {
    BodyIsFramed(m, p, c, e);
    UnfoldLine(m, p, c, e);
    assert c.Size() >= 0.0;
    hide Layout, Inside, InkUpright, PiecesMatch, Proper, RuleWidth, Context.Size;
    MacronMarks(Layout(m, p, c, e.value), c.Size());
  }

  lemma MacronMarks(body: Box, size: real)
    requires size >= 0.0
    ensures var y, out := -body.ascent - 0.1 * size, MacronBox(body, size);
      && out.marks == body.marks + [Line(Point(0.0, y), Point(body.width, y), RuleWidth(size))]
      && out.width == body.width && out.ascent == body.ascent + 0.15 * size && out.descent == Max(body.descent, y)
      && out.italic == body.italic && out.simple == body.simple
  {
    hide RuleWidth;
  }

  /** An accent: body and accent with their middles in line within the width, the accent pushed right by nine tenths
      of the italic correction, and its ink a tenth of a capital above all marks of the body. */
  ghost predicate AccentStands(m: Fonts, p: Params, c: Context, e: MathExpr, bx: real, at: Point)
    requires e.Accent?
  {
    var body, out, k := Layout(m, p, c, e.value), Layout(m, p, c, e), m.math(e.accent, c.Size(), p.face);
    var width := Max(body.width + body.italic, k.width);
    && out.marks == ShiftAll(body.marks, bx, 0.0) + [Glyphs(e.accent, at, c.Size(), p.face)]
    && 2.0 * bx + body.width == width && 2.0 * (at.x - 0.9 * body.italic) + k.width == width
    && at.y + k.descent == -body.ascent - 0.1 * m.math("X", c.Size(), p.face).ascent
    && out.width == Max(width, at.x + k.width) && out.italic == 0.0 && !out.simple
    && out.ascent == Max(Max(0.0, body.ascent), k.ascent - at.y) && out.descent == Max(Max(0.0, body.descent), k.descent + at.y)
  }

  lemma AccentPlacement(m: Fonts, p: Params, c: Context, e: MathExpr) returns (bx: real, at: Point)
    requires e.Accent? && e.accent != "¯"
    ensures AccentStands(m, p, c, e, bx, at)
    ensures InkUpright(m) && PiecesMatch(m) && c.base >= 0.0 && Proper(e) ==> BodyInside(m, Layout(m, p, c, e.value).marks, Layout(m, p, c, e.value))
  {
    var body, k, cap := Layout(m, p, c, e.value), m.math(e.accent, c.Size(), p.face), m.math("X", c.Size(), p.face).ascent;
    if InkUpright(m) && PiecesMatch(m) && c.base >= 0.0 && Proper(e) {
      BodyIsFramed(m, p, c, e);
    }
    UnfoldLine(m, p, c, e);
    hide Layout, Inside, InkUpright, PiecesMatch, Proper, ShiftAll, AccentBox, Context.Size;
    bx, at := AccentMarks(m, body, e.accent, p.face, c.Size(), cap);
  }

  lemma AccentMarks(m: Fonts, body: Box, accent: string, face: Face, size: real, cap: real) returns (bx: real, at: Point)
    ensures var out, k := AccentBox(body, TextBox(m, accent, face, size), cap), m.math(accent, size, face);
      var width := Max(body.width + body.italic, k.width);
      && out.marks == ShiftAll(body.marks, bx, 0.0) + [Glyphs(accent, at, size, face)]
      && 2.0 * bx + body.width == width && 2.0 * (at.x - 0.9 * body.italic) + k.width == width
      && at.y + k.descent == -body.ascent - 0.1 * cap
      && out.width == Max(width, at.x + k.width) && out.italic == 0.0 && !out.simple
      && out.ascent == Max(Max(0.0, body.ascent), k.ascent - at.y) && out.descent == Max(Max(0.0, body.descent), k.descent + at.y)
  {
    var k := m.math(accent, size, face);
    var width := Max(body.width + body.italic, k.width);
    bx := (width - body.width) / 2.0;
    at := Point((width - k.width) / 2.0 + 0.9 * body.italic, -body.ascent - k.descent - 0.1 * cap);
    assert ShiftAll(TextBox(m, accent, face, size).marks, at.x, at.y) == [Glyphs(accent, at, size, face)];
    hide ShiftAll;
    assert [] + ShiftAll(body.marks, bx, 0.0) == ShiftAll(body.marks, bx, 0.0);
  }

  /** A mark of which nothing is below this height. */
  ghost predicate Above(mark: Mark, y: real) {
    match mark
    case Glyphs(_, _, _, _) => false
    case Line(a, b, _) => a.y <= y && b.y <= y
    case Curve(p, _) => |p| == 4 && forall t: real :: 0.0 <= t <= 1.0 ==> Bezier(p, t).y <= y
  }

  /** A wide accent: the body as it was, and above all of its marks a hat of two joined lines, or one curve, from its
      left to its right edge. */
  lemma WideAccentPlacement(m: Fonts, p: Params, c: Context, e: MathExpr)
    requires e.WideAccent? && InkUpright(m) && PiecesMatch(m) && c.base >= 0.0 && Proper(e)
    ensures var body, out := Layout(m, p, c, e.value), Layout(m, p, c, e);
      var n, top, w := |body.marks|, -body.ascent - 0.14 * c.Size(), body.width;
      && n <= |out.marks| && out.marks[..n] == body.marks && BodyInside(m, out.marks[..n], body)
      && (forall i :: n <= i < |out.marks| ==> Above(out.marks[i], -body.ascent - 0.02 * c.Size()))
      && (if e.accent == "tilde" then
            |out.marks| == n + 1 && out.marks[n].Curve? && out.marks[n].points[0] == Point(0.0, top) && out.marks[n].points[3] == Point(w, top)
          else
            && |out.marks| == n + 2 && out.marks[n].Line? && out.marks[n + 1].Line? && out.marks[n].b == out.marks[n + 1].a
            && out.marks[n].a == Point(0.0, top) && out.marks[n].b == Point(w / 2.0, top - 0.16 * c.Size()) && out.marks[n + 1].b == Point(w, top))
      && out.width == w && out.descent == body.descent && out.italic == body.italic && out.simple == body.simple
      && out.ascent == body.ascent + 0.3 * c.Size() + RuleWidth(c.Size()) / 2.0
  {
    BodyIsFramed(m, p, c, e);
    UnfoldLine(m, p, c, e);
    assert c.Size() >= 0.0;
    hide Layout, Inside, InkUpright, PiecesMatch, Proper, RuleWidth, Context.Size, Bezier, WideAccentBox, Above;
    WideAccentMarks(Layout(m, p, c, e.value), e.accent == "tilde", c.Size());
  }

  lemma WideAccentMarks(body: Box, tilde: bool, size: real)
    requires size >= 0.0
    ensures var out, n, top, w := WideAccentBox(body, tilde, size), |body.marks|, -body.ascent - 0.14 * size, body.width;
      && n <= |out.marks| && out.marks[..n] == body.marks
      && (forall i :: n <= i < |out.marks| ==> Above(out.marks[i], -body.ascent - 0.02 * size))
      && (if tilde then
            |out.marks| == n + 1 && out.marks[n].Curve? && |out.marks[n].points| == 4 && out.marks[n].points[0] == Point(0.0, top) && out.marks[n].points[3] == Point(w, top)
          else
            && |out.marks| == n + 2 && out.marks[n].Line? && out.marks[n + 1].Line? && out.marks[n].b == out.marks[n + 1].a
            && out.marks[n].a == Point(0.0, top) && out.marks[n].b == Point(w / 2.0, top - 0.16 * size) && out.marks[n + 1].b == Point(w, top))
      && out.width == w && out.descent == body.descent && out.italic == body.italic && out.simple == body.simple
      && out.ascent == body.ascent + 0.3 * size + RuleWidth(size) / 2.0
  {
    hide RuleWidth, Bezier;
    if tilde {
      TildeIsAbove(body.width, -body.ascent - size * 0.14, size * 0.16, RuleWidth(size));
    }
  }

  lemma TildeIsAbove(w: real, y: real, h: real, stroke: real)
    requires h >= 0.0
    ensures Above(Curve([Point(0.0, y), Point(w / 3.0, y - h * 2.0), Point(w * 2.0 / 3.0, y + h * 2.0), Point(w, y)], stroke), y + 0.75 * h)
  {
    hide Mix;
    var p := [Point(0.0, y), Point(w / 3.0, y - h * 2.0), Point(w * 2.0 / 3.0, y + h * 2.0), Point(w, y)];
    forall t: real | 0.0 <= t <= 1.0 ensures Bezier(p, t).y <= y + 0.75 * h {
      TildeSwing(y, h, t);
    }
  }

  // -------------------------------------------------------------------------
  // Operator symbols
  // -------------------------------------------------------------------------

  /** In display style a sum, product, union or intersection is a quarter larger, its ink centered on the axis of that
      size; an integral is made of two halves that overlap at the axis; in all other cases the symbol is an
      ordinary text. */
  lemma OperatorSymbol(m: Fonts, symbol: string, face: Face, c: Context)
    ensures var op := OperatorBox(m, symbol, face, c);
      if c.level == 0 && symbol == "∫" then
        var top, bottom, axis := m.math("⌠", c.Size(), Plain), m.math("⌡", c.Size(), Plain), m.math("+", c.Size(), face).ascent / 2.0;
        && |op.marks| == 2 && op.marks[0].Glyphs? && op.marks[0].text == "⌠" && op.marks[1].Glyphs? && op.marks[1].text == "⌡"
        && op.marks[0].p == Point(0.0, -axis - 0.99 * top.descent) && op.marks[1].p == Point(0.0, -axis + 0.99 * bottom.ascent)
        && op.marks[0].size == c.Size() == op.marks[1].size && op.width == Max(top.width, bottom.width)
      else if c.level == 0 && symbol in ["∑", "∏", "∪", "∩"] then
        var size := 1.25 * c.base;
        var k, axis := m.math(symbol, size, Plain), m.math("+", size, Plain).ascent / 2.0;
        && |op.marks| == 1 && op.marks[0].Glyphs? && op.marks[0].text == symbol && op.marks[0].size == size && op.marks[0].p.x == 0.0
        && (op.marks[0].p.y - k.ascent) + (op.marks[0].p.y + k.descent) == -2.0 * axis && op.width == k.width
      else op.marks == [Glyphs(symbol, Point(0.0, 0.0), c.Size(), Plain)] && op.width == m.math(symbol, c.Size(), Plain).width
  {
    if c.level == 0 && symbol in ["∑", "∏", "∪", "∩"] {
      assert c.Magnified(1.25).Size() == 1.25 * c.base;
    }
  }

  /** How far up, or down, the symbol and its limits reach. */
  function Highest(symbol: real, lower: Option<real>, upper: Option<real>): real {
    Max(Max(Max(0.0, symbol), if lower.None? then symbol else lower.value), if upper.None? then symbol else upper.value)
  }

  /** A display operator reaches as far as the symbol, with a space around it, its limits, with a space beyond them, and
      the body; it is as wide as the widest of symbol and limits, a thin space, and the body.  An integral has no such
      spaces, and its limits stand right of it. */
  lemma OperatorExtents(m: Fonts, p: Params, c: Context, e: MathExpr)
    requires e.DisplayOperator?
    ensures var op, lower, upper := OperatorBox(m, e.symbol, p.face, c), SubOf(m, p, c, e), SupOf(m, p, c, e);
      var body, out := Layout(m, p, c, e.value), Layout(m, p, c, e);
      var thin, space := m.math("M", c.Size(), p.face).width / 6.0, 0.15 * m.math("X", c.Size(), p.face).ascent;
      && out.italic == body.italic
      && out.width == LimitsWide(op, lower, upper, e.symbol == "∫", thin) + body.width
      && out.ascent == Max(LimitsUp(op, lower, upper, e.symbol == "∫", space), body.ascent)
      && out.descent == Max(LimitsDown(op, lower, upper, e.symbol == "∫", space), body.descent)
  {
    hide Layout, SupOf, SubOf, Context.Size, Context.Script, OperatorBox, LimitsBox, LimitsWide, LimitsUp, LimitsDown, ShiftAll;
    OperatorUnfolds(m, p, c, e);
    LimitsExtents(OperatorBox(m, e.symbol, p.face, c), SubOf(m, p, c, e), SupOf(m, p, c, e), e.symbol == "∫",
                  m.math("M", c.Size(), p.face).width / 6.0, 0.15 * m.math("X", c.Size(), p.face).ascent);
  }

  function LimitsWide(op: Box, lower: Option<Box>, upper: Option<Box>, integral: bool, thin: real): real {
    var l, u := if lower.None? then op.width else lower.value.width, if upper.None? then op.width else upper.value.width;
    if integral then
      Max(Max(op.width, if lower.None? then op.width else op.width / 2.0 + thin + l), if upper.None? then op.width else op.width + thin + u)
    else Max(Max(Max(op.width, if lower.None? then 0.0 else l), if upper.None? then 0.0 else u), op.width) + thin
  }

  function LimitsUp(op: Box, lower: Option<Box>, upper: Option<Box>, integral: bool, space: real): real {
    if integral then
      Highest(op.ascent, if lower.None? then None else Some(lower.value.ascent - op.descent - (lower.value.ascent - lower.value.descent) / 2.0),
              if upper.None? then None else Some(upper.value.ascent + op.ascent - (upper.value.ascent - upper.value.descent) / 2.0))
    else
      Highest(op.ascent + space, if lower.None? then None else Some(-op.descent - Max(space, space - lower.value.ascent)),
              if upper.None? then None else Some(upper.value.ascent + op.ascent + upper.value.descent + Max(space, space - upper.value.descent)))
      + if upper.None? then 0.0 else space
  }

  function LimitsDown(op: Box, lower: Option<Box>, upper: Option<Box>, integral: bool, space: real): real {
    if integral then
      Highest(op.descent, if lower.None? then None else Some(lower.value.descent + op.descent + (lower.value.ascent - lower.value.descent) / 2.0),
              if upper.None? then None else Some(upper.value.descent - op.ascent + (upper.value.ascent - upper.value.descent) / 2.0))
    else
      Highest(op.descent + space, if lower.None? then None else Some(lower.value.descent + op.descent + lower.value.ascent + Max(space, space - lower.value.ascent)),
              if upper.None? then None else Some(-op.ascent - Max(space, space - upper.value.descent)))
      + if lower.None? then 0.0 else space
  }

  lemma LimitsExtents(op: Box, lower: Option<Box>, upper: Option<Box>, integral: bool, thin: real, space: real)
    ensures var out := LimitsBox(op, lower, upper, integral, thin, space);
      && out.width == LimitsWide(op, lower, upper, integral, thin)
      && out.ascent == LimitsUp(op, lower, upper, integral, space)
      && out.descent == LimitsDown(op, lower, upper, integral, space)
  {
    hide LimitsBox, LimitsWide, LimitsUp, LimitsDown;
    LimitsWidths(op, lower, upper, integral, thin, space);
    if integral {
      BesideExtents(op, lower, upper, thin, space);
    } else {
      AroundExtents(op, lower, upper, thin, space);
    }
  }

  lemma LimitsWidths(op: Box, lower: Option<Box>, upper: Option<Box>, integral: bool, thin: real, space: real)
    ensures LimitsBox(op, lower, upper, integral, thin, space).width == LimitsWide(op, lower, upper, integral, thin)
  {
    hide ShiftAll;
  }

  lemma BesideExtents(op: Box, lower: Option<Box>, upper: Option<Box>, thin: real, space: real)
    ensures var out := LimitsBox(op, lower, upper, true, thin, space);
      out.ascent == LimitsUp(op, lower, upper, true, space) && out.descent == LimitsDown(op, lower, upper, true, space)
  {
    hide ShiftAll;
  }

  lemma AroundExtents(op: Box, lower: Option<Box>, upper: Option<Box>, thin: real, space: real)
    ensures var out := LimitsBox(op, lower, upper, false, thin, space);
      out.ascent == LimitsUp(op, lower, upper, false, space) && out.descent == LimitsDown(op, lower, upper, false, space)
  {
    hide LimitsBox, LimitsUp, LimitsDown;
    AroundUp(op, lower, upper, thin, space);
    AroundDown(op, lower, upper, thin, space);
  }

  lemma AroundUp(op: Box, lower: Option<Box>, upper: Option<Box>, thin: real, space: real)
    ensures LimitsBox(op, lower, upper, false, thin, space).ascent == LimitsUp(op, lower, upper, false, space)
  {
    hide ShiftAll;
  }

  lemma AroundDown(op: Box, lower: Option<Box>, upper: Option<Box>, thin: real, space: real)
    ensures LimitsBox(op, lower, upper, false, thin, space).descent == LimitsDown(op, lower, upper, false, space)
  {
    hide ShiftAll;
  }

  /** When the scripts are moved: exactly when they are closer than they should be and the ink of the superscript is
      below eight tenths of an x-height, to which it is then raised, the subscript by as much. */
  lemma ScriptsMoveIff(m: Fonts, p: Params, c: Context, e: MathExpr)
    requires e.Scripts?
    ensures e.sub.Some? && e.sup.Some? ==>
      var up, down, first, last := SupOf(m, p, c, e).value, SubOf(m, p, c, e).value, FirstShifts(m, p, c, e), ShiftsOf(m, p, c, e);
      var target := 0.8 * m.math("x", c.Size(), p.face).ascent + up.descent;
      if (first.0 - up.descent) - (down.ascent - first.1) < LeastGap(p) && first.0 < target then last == (target, first.1 - (target - first.0))
      else last == first
    ensures e.sub.None? || e.sup.None? ==> ShiftsOf(m, p, c, e) == FirstShifts(m, p, c, e)
  {
    hide Layout, Context.Size, Context.Script, ScriptShifts, LayoutInch;
  }

  // -------------------------------------------------------------------------
  // Texts
  // -------------------------------------------------------------------------

  /** A text measures as its font says; in a slanted face fifteen hundredths of its ascent are its italic
      correction.  Upright texts are plain. */
  lemma TextMeasures(m: Fonts, p: Params, c: Context, text: string)
    ensures var out, k := Layout(m, p, c, Text(text)), m.math(text, c.Size(), p.face);
      && out.width == k.width && out.ascent == k.ascent && out.descent == k.descent && out.simple
      && out.italic == (if p.face == Italic || p.face == BoldItalic then 0.15 * k.ascent else 0.0)
      && out.marks == [Glyphs(text, Point(0.0, 0.0), c.Size(), p.face)]
    ensures Layout(m, p, c, Upright(text)) == Layout(m, Params(Plain, p.dpi), c, Text(text))
  {
    hide Context.Size;
  }

  /** The rule of a fraction is fifteen thousandths of an inch thick, of 72 points if the resolution is unknown. */
  lemma RuleThickness(m: Fonts, p: Params, c: Context, e: MathExpr)
    requires e.Fraction?
    ensures var marks := Layout(m, p, c, e).marks;
      |marks| > 0 && marks[|marks| - 1].Line? && marks[|marks| - 1].w == (if p.dpi > 0.0 then 0.015 * p.dpi else 1.08)
  {
    var ax, bx := FractionPlacement(m, p, c, e);
    hide Layout, ShiftAll, OffsetsOf, ClearOfRule, Context.Size, Context.Numerator, Context.Denominator;
    var out := Layout(m, p, c, e);
    assert out.marks[|out.marks| - 1].Line?;
  }

  // -------------------------------------------------------------------------
  // Delimiters
  // -------------------------------------------------------------------------

  /** The pieces that a growing delimiter is made of: top, bottom, the middle of a brace, and extensions. */
  function PieceTable(symbol: string): seq<string> {
    if symbol == "(" then ["⎛", "⎝", "⎜"] else if symbol == ")" then ["⎞", "⎠", "⎟"]
    else if symbol == "[" then ["⎡", "⎣", "⎢"] else if symbol == "]" then ["⎤", "⎦", "⎥"]
    else if symbol == "{" then ["⎧", "⎩", "⎪", "⎨"] else if symbol == "}" then ["⎫", "⎭", "⎪", "⎬"]
    else if symbol == "|" || symbol == "||" then ["⎪", "⎪", "⎪"] else []
  }

  ghost predicate Says(mark: Mark, text: string, size: real) {
    mark.Glyphs? && mark.text == text && mark.size == size && mark.face == Plain
  }

  /** First its ends, then the middle, then extensions; any other symbol is none and draws nothing. */
  lemma DelimiterPieces(m: Fonts, symbol: string, size: real, axis: real, dist: real)
    ensures var marks, table := DelimiterBox(m, symbol, size, axis, dist).marks, PieceTable(symbol);
      if table == [] then marks == []
      else
        var first := |table| - 1;
        && first <= |marks| && Says(marks[0], table[0], size) && Says(marks[1], table[1], size)
        && (|table| == 4 ==> Says(marks[2], table[3], size))
        && (forall i :: first <= i < |marks| ==> Says(marks[i], table[2], size))
  {
    var table, p := PieceTable(symbol), Pieces(symbol);
    PiecesOf(symbol);
    if p.Some? {
      var top, ext, bot := TextBox(m, p.value.0, Plain, size), TextBox(m, p.value.1, Plain, size), TextBox(m, p.value.2, Plain, size);
      var reach := DelimiterReach(symbol, top, dist);
      var high, low := axis + reach - top.ascent - top.descent, axis - reach + bot.ascent + bot.descent;
      var mid := MiddlePiece(m, symbol, size);
      MiddleOf(m, symbol, size);
      var ends := DelimiterEnds(top, bot, mid, axis, reach);
      EndPieces(top, bot, mid, axis, reach, p.value.0, p.value.2, if |table| == 4 then table[3] else "", size);
      hide PieceTable, Pieces, DelimiterReach, MiddlePiece, DelimiterEnds, ExtendFrom;
      ExtensionPieces(ends, ext, low, high, 0, Extensions(high - low, ext.ascent + ext.descent), p.value.1, size);
    }
  }

  lemma PiecesOf(symbol: string)
    ensures var table, p := PieceTable(symbol), Pieces(symbol);
      (p.None? <==> table == []) && (p.Some? ==> 3 <= |table| <= 4 && p.value == (table[0], table[2], table[1]))
  {
  }

  lemma MiddleOf(m: Fonts, symbol: string, size: real)
    ensures var table := PieceTable(symbol);
      MiddlePiece(m, symbol, size) == if |table| == 4 then Some(TextBox(m, table[3], Plain, size)) else None
  {
    hide TextBox;
  }

  lemma EndPieces(top: Box, bot: Box, mid: Option<Box>, axis: real, reach: real, t: string, b: string, k: string, size: real)
    requires |top.marks| == 1 && Says(top.marks[0], t, size) && |bot.marks| == 1 && Says(bot.marks[0], b, size)
    requires mid.Some? ==> |mid.value.marks| == 1 && Says(mid.value.marks[0], k, size)
    ensures var marks := DelimiterEnds(top, bot, mid, axis, reach).marks;
      && |marks| == (if mid.Some? then 3 else 2) && Says(marks[0], t, size) && Says(marks[1], b, size)
      && (mid.Some? ==> Says(marks[2], k, size))
  {
  }

  lemma {:induction false} ExtensionPieces(out: Box, ext: Box, low: real, high: real, i: nat, n: nat, text: string, size: real)
    requires i <= n && |ext.marks| == 1 && Says(ext.marks[0], text, size)
    ensures var marks := ExtendFrom(out, ext, low, high, i, n).marks;
      && |marks| == |out.marks| + (n - i) && marks[..|out.marks|] == out.marks
      && forall k :: |out.marks| <= k < |marks| ==> Says(marks[k], text, size)
    decreases n - i
  {
    if i < n {
      var y := Center(low, high, i, n) - (ext.ascent - ext.descent) / 2.0;
      var more := Appended(out, ext, 0.0, -y);
      assert more.marks == out.marks + [Shift(ext.marks[0], 0.0, -y)];
      ExtensionPieces(more, ext, low, high, i + 1, n, text, size);
      var marks := ExtendFrom(more, ext, low, high, i + 1, n).marks;
      assert marks[|out.marks|] == marks[..|out.marks| + 1][|out.marks|];
      assert marks[..|out.marks|] == marks[..|out.marks| + 1][..|out.marks|];
    }
  }

  /** The ink of the ends stands at the reach above and below the axis, that of the middle around it. */
  lemma EndsStand(top: Box, bot: Box, mid: Option<Box>, axis: real, reach: real, t: string, b: string, k: string, size: real)
    requires |top.marks| == 1 && Says(top.marks[0], t, size) && |bot.marks| == 1 && Says(bot.marks[0], b, size)
    requires top.marks[0].p == Point(0.0, 0.0) == bot.marks[0].p
    requires mid.Some? ==> |mid.value.marks| == 1 && Says(mid.value.marks[0], k, size) && mid.value.marks[0].p == Point(0.0, 0.0)
    ensures var out := DelimiterEnds(top, bot, mid, axis, reach);
      && |out.marks| >= 2 && out.marks[0].Glyphs? && out.marks[1].Glyphs? && out.width == Max(top.width, bot.width)
      && out.marks[0].p.x == 0.0 && top.ascent - out.marks[0].p.y == axis + reach
      && out.marks[1].p.x == 0.0 && out.marks[1].p.y + bot.descent == reach - axis
      && (mid.Some? ==>
            && |out.marks| == 3 && out.marks[2].Glyphs? && out.marks[2].p.x == 0.0
            && (mid.value.ascent - out.marks[2].p.y) - (out.marks[2].p.y + mid.value.descent) == 2.0 * axis)
  {
  }

  /** As few extensions as bridge the gap, each a hundredth of its height less. */
  lemma ExtensionsAreFewest(gap: real, height: real)
    ensures height <= 0.0 ==> Extensions(gap, height) == 0
    ensures height > 0.0 ==> var n, unit := Extensions(gap, height) as real, 0.99 * height;
      n * unit >= gap && (n > 0.0 ==> (n - 1.0) * unit < gap)
  {
    if height > 0.0 {
      var unit := 0.99 * height;
      var q := gap / unit;
      assert q * unit == gap;
      var n := Ceil(q);
      Fewest(gap, unit, q, n as real);
      if n < 0 {
        TimesGrows(q, 0.0, unit);
      }
    }
  }

  lemma Fewest(gap: real, unit: real, q: real, n: real)
    requires unit > 0.0 && q * unit == gap && n - 1.0 < q <= n
    ensures n * unit >= gap && (n - 1.0) * unit < gap
  {
    TimesGrows(q, n, unit);
    var less := n - 1.0;
    TimesLess(less, q, unit);
    assert less * unit < gap;
  }

  lemma TimesLess(a: real, b: real, k: real)
    requires a < b && k > 0.0
    ensures a * k < b * k
  {
    assert b * k - a * k == (b - a) * k;
    PositiveTimes(b - a, k);
  }

  lemma TimesGrows(a: real, b: real, k: real)
    requires a <= b && k > 0.0
    ensures a * k <= b * k
  {
  }

  lemma PositiveTimes(a: real, b: real)
    requires a > 0.0 && b > 0.0
    ensures a * b > 0.0
  {
  }

  /** A delimiter reaches as far as it is asked to, and at least four fifths of the height of its top piece, or
      six fifths of it if it is a brace. */
  lemma ReachIsLeast(symbol: string, top: Box, dist: real)
    ensures LeastAbove(DelimiterReach(symbol, top, dist), dist, dist, (if symbol in ["{", "}"] then 1.2 else 0.8) * (top.ascent + top.descent))
  {
  }
}
