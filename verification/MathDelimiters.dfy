/** Growing delimiters of `crates/r-graphics-engine/src/math.rs`: their ink contains the body and has no
  gaps. */
module MathDelimiters {
  import opened Wrappers
  import opened MathLayout

  /** The ink of a text crosses the height `y` (downward). */
  predicate InkAt(m: Fonts, mark: Mark, y: real) {
    mark.Glyphs? &&
    var k := m.math(mark.text, mark.size, mark.face);
    mark.p.y - k.ascent <= y <= mark.p.y + k.descent
  }

  ghost predicate SomeInkAt(m: Fonts, marks: seq<Mark>, y: real) {
    exists i :: 0 <= i < |marks| && InkAt(m, marks[i], y)
  }

  lemma InkStays(m: Fonts, a: seq<Mark>, b: seq<Mark>, y: real)
    requires SomeInkAt(m, a, y) || SomeInkAt(m, b, y)
    ensures SomeInkAt(m, a + b, y)
  {
    hide InkAt;
    if SomeInkAt(m, a, y) {
      var i :| 0 <= i < |a| && InkAt(m, a[i], y);
      assert InkAt(m, (a + b)[i], y);
    } else {
      var i :| 0 <= i < |b| && InkAt(m, b[i], y);
      assert InkAt(m, (a + b)[|a| + i], y);
    }
  }

  /** A text brings its ink along. */
  lemma InkAppended(m: Fonts, out: Box, text: string, size: real, dy: real, y: real)
    requires var k := TextBox(m, text, Plain, size); dy - k.ascent <= y <= dy + k.descent
    ensures SomeInkAt(m, Appended(out, TextBox(m, text, Plain, size), 0.0, dy).marks, y)
  {
    var t := TextBox(m, text, Plain, size);
    var shifted := ShiftAll(t.marks, 0.0, dy);
    assert shifted[0] == Glyphs(text, Point(0.0, dy), size, Plain);
    assert InkAt(m, shifted[0], y);
    InkStays(m, out.marks, shifted, y);
  }

  lemma InkKept(m: Fonts, out: Box, other: Box, x: real, dy: real, y: real)
    requires SomeInkAt(m, out.marks, y)
    ensures SomeInkAt(m, Appended(out, other, x, dy).marks, y)
  {
    InkStays(m, out.marks, ShiftAll(other.marks, x, dy), y);
  }

  lemma {:induction false} ExtensionsKeepInk(m: Fonts, out: Box, ext: Box, low: real, high: real, i: nat, n: nat, y: real)
    requires i <= n && SomeInkAt(m, out.marks, y)
    ensures SomeInkAt(m, ExtendFrom(out, ext, low, high, i, n).marks, y)
    decreases n - i
  {
    hide SomeInkAt, Appended;
    if i < n {
      var h := Center(low, high, i, n) - (ext.ascent - ext.descent) / 2.0;
      InkKept(m, out, ext, 0.0, -h, y);
      ExtensionsKeepInk(m, Appended(out, ext, 0.0, -h), ext, low, high, i + 1, n, y);
    }
  }

  /** Extension `k` covers half its height on either side of its middle. */
  lemma {:induction false} ExtensionInk(m: Fonts, out: Box, text: string, size: real, low: real, high: real, i: nat, k: nat, n: nat, t: real)
    requires i <= k < n
    requires var ext := TextBox(m, text, Plain, size);
      Center(low, high, k, n) - (ext.ascent + ext.descent) / 2.0 <= t <= Center(low, high, k, n) + (ext.ascent + ext.descent) / 2.0
    ensures SomeInkAt(m, ExtendFrom(out, TextBox(m, text, Plain, size), low, high, i, n).marks, -t)
    decreases n - i
  {
    var ext := TextBox(m, text, Plain, size);
    var h := Center(low, high, i, n) - (ext.ascent - ext.descent) / 2.0;
    var next := Appended(out, ext, 0.0, -h);
    if i == k {
      hide Center, Appended, TextBox;
      InkAppended(m, out, text, size, -h, -t);
      ExtensionsKeepInk(m, next, ext, low, high, i + 1, n, -t);
    } else {
      hide Center, Appended, TextBox;
      ExtensionInk(m, next, text, size, low, high, i + 1, k, n, t);
    }
  }

  // -------------------------------------------------------------------------
  // The extensions bridge the gap
  // -------------------------------------------------------------------------

  lemma CeilIsEnough(r: real)
    ensures r <= Ceil(r) as real
  {
    var f := (-r).Floor;
    assert f as real <= -r;
    assert Ceil(r) as real == -(f as real);
  }

  /** There are so many extensions that they are less than their height apart. */
  lemma CloseEnough(gap: real, height: real)
    requires gap > 0.0 && height > 0.0
    ensures var n := Extensions(gap, height); n > 0 && gap / (n as real) <= 0.99 * height
  {
    var unit := 0.99 * height;
    var q := gap / unit;
    assert q > 0.0;
    CeilIsEnough(q);
    var n := Extensions(gap, height);
    assert n as real >= q;
    assert q * unit == gap;
    Crossed(gap, unit, q, n as real);
  }

  lemma Crossed(gap: real, unit: real, q: real, n: real)
    requires unit > 0.0 && q * unit == gap && n >= q && n > 0.0
    ensures gap / n <= unit
  {
    assert n * unit >= q * unit;
    assert gap / n <= n * unit / n;
  }

  /** Steps from `low` reach every height up to their end. */
  lemma {:induction false} FindStep(low: real, step: real, n: nat, t: real) returns (k: nat)
    requires step > 0.0 && n > 0 && low <= t <= low + n as real * step
    ensures k < n && low + k as real * step <= t <= low + (k as real + 1.0) * step
    decreases n
  {
    if n == 1 || t >= low + (n - 1) as real * step {
      k := n - 1;
      assert k as real + 1.0 == n as real;
    } else {
      k := FindStep(low, step, n - 1, t);
    }
  }

  lemma CenterOfStep(low: real, high: real, k: nat, n: nat)
    requires n > 0
    ensures var step := (high - low) / (n as real);
      && Center(low, high, k, n) == low + k as real * step + step / 2.0
      && n as real * step == high - low
  {
    var step := (high - low) / (n as real);
    assert (k as real + 0.5) * (high - low) / (n as real) == (k as real + 0.5) * step;
  }

  /** Every height between the end pieces lies in some extension. */
  lemma Bridged(m: Fonts, out: Box, text: string, size: real, low: real, high: real, t: real)
    requires low < high && low <= t <= high
    requires var ext := TextBox(m, text, Plain, size); ext.ascent + ext.descent > 0.0
    ensures var ext := TextBox(m, text, Plain, size);
      SomeInkAt(m, ExtendFrom(out, ext, low, high, 0, Extensions(high - low, ext.ascent + ext.descent)).marks, -t)
  {
    var ext := TextBox(m, text, Plain, size);
    var height := ext.ascent + ext.descent;
    var n := Extensions(high - low, height);
    CloseEnough(high - low, height);
    var step := (high - low) / (n as real);
    CenterOfStep(low, high, 0, n);
    PositiveQuotient(high - low, n as real);
    hide TextBox, Extensions, Center;
    var k := FindStep(low, step, n, t);
    CenterOfStep(low, high, k, n);
    NearCenter(low, k as real, step, height, t, Center(low, high, k, n));
    ExtensionInk(m, out, text, size, low, high, 0, k, n, t);
  }

  lemma NearCenter(low: real, k: real, step: real, height: real, t: real, center: real)
    requires low + k * step <= t <= low + (k + 1.0) * step && center == low + k * step + step / 2.0
    requires step <= 0.99 * height && height > 0.0
    ensures center - height / 2.0 <= t <= center + height / 2.0
  {
    assert (k + 1.0) * step == k * step + step;
  }

  lemma PositiveQuotient(a: real, b: real)
    requires a > 0.0 && b > 0.0
    ensures a / b > 0.0
  {
  }

  // -------------------------------------------------------------------------
  // The delimiter
  // -------------------------------------------------------------------------

  /** The end pieces cover the outer parts of the reach, down to where the extensions begin. */
  lemma EndsInk(m: Fonts, topText: string, botText: string, size: real, mid: Option<Box>, axis: real, reach: real, t: real)
    requires var top := TextBox(m, topText, Plain, size); var bot := TextBox(m, botText, Plain, size);
      (axis + reach - top.ascent - top.descent <= t <= axis + reach)
      || (axis - reach <= t <= axis - reach + bot.ascent + bot.descent)
    ensures SomeInkAt(m, DelimiterEnds(TextBox(m, topText, Plain, size), TextBox(m, botText, Plain, size), mid, axis, reach).marks, -t)
  {
    hide TextBox, SomeInkAt, Appended;
    var top, bot := TextBox(m, topText, Plain, size), TextBox(m, botText, Plain, size);
    var out := Empty(Max(top.width, bot.width));
    var topY, botY := -(reach - top.ascent + axis), reach - bot.descent - axis;
    var withTop := Appended(out, top, 0.0, topY);
    var ends := Appended(withTop, bot, 0.0, botY);
    if axis + reach - top.ascent - top.descent <= t <= axis + reach {
      InkAppended(m, out, topText, size, topY, -t);
      InkKept(m, withTop, bot, 0.0, botY, -t);
    } else {
      InkAppended(m, withTop, botText, size, botY, -t);
    }
    if mid.Some? {
      InkKept(m, ends, mid.value, 0.0, -(axis - (mid.value.ascent - mid.value.descent) / 2.0), -t);
    }
  }

  /** A growing delimiter is solid: from end to end, symmetrically around the axis, there is ink at every
      height. */
  lemma DelimiterIsSolid(m: Fonts, symbol: string, size: real, axis: real, dist: real, t: real)
    requires Pieces(symbol).Some? && HasExtension(m, symbol, size)
    requires axis - ReachOf(m, symbol, size, dist) <= t <= axis + ReachOf(m, symbol, size, dist)
    ensures SomeInkAt(m, DelimiterBox(m, symbol, size, axis, dist).marks, -t)
  {
    var (tt, et, bt) := Pieces(symbol).value;
    var top, ext, bot := TextBox(m, tt, Plain, size), TextBox(m, et, Plain, size), TextBox(m, bt, Plain, size);
    var mid := MiddlePiece(m, symbol, size);
    var reach := ReachOf(m, symbol, size, dist);
    var high := axis + reach - top.ascent - top.descent;
    var low := axis - reach + bot.ascent + bot.descent;
    var ends := DelimiterEnds(top, bot, mid, axis, reach);
    assert DelimiterBox(m, symbol, size, axis, dist) == ExtendFrom(ends, ext, low, high, 0, Extensions(high - low, ext.ascent + ext.descent));
    hide TextBox, Pieces, SomeInkAt, DelimiterBox, DelimiterEnds, ExtendFrom, Extensions, MiddlePiece, ReachOf;
    if low < t < high {
      Bridged(m, ends, et, size, low, high, t);
    } else {
      EndsInk(m, tt, bt, size, mid, axis, reach, t);
      ExtensionsKeepInk(m, ends, ext, low, high, 0, Extensions(high - low, ext.ascent + ext.descent), -t);
    }
  }

  /** The extension piece has some height. */
  predicate HasExtension(m: Fonts, symbol: string, size: real)
    requires Pieces(symbol).Some?
  {
    var k := m.math(Pieces(symbol).value.1, size, Plain);
    k.ascent + k.descent > 0.0
  }

  /** How far the delimiter goes from the axis on either side. */
  function ReachOf(m: Fonts, symbol: string, size: real, dist: real): real
    requires Pieces(symbol).Some?
  {
    DelimiterReach(symbol, TextBox(m, Pieces(symbol).value.0, Plain, size), dist)
  }

  /** And that is at least as high and as deep as the body, with a fifth of an x-height to spare. */
  lemma DelimiterContainsBody(m: Fonts, symbol: string, size: real, body: Box, axis: real, xHeight: real)
    requires Pieces(symbol).Some?
    ensures var reach := ReachOf(m, symbol, size, GroupReach(body, axis, xHeight));
      axis + reach >= body.ascent + 0.2 * xHeight && reach - axis >= body.descent + 0.2 * xHeight
  {
    hide Pieces, TextBox;
  }

  // -------------------------------------------------------------------------
  // Groups
  // -------------------------------------------------------------------------

  /** One delimiter of a group. */
  function SideOf(m: Fonts, p: Params, c: Context, e: MathExpr, symbol: string): Box
    requires e.BGroup?
  {
    var axis := m.math("+", c.Size(), p.face).ascent / 2.0;
    DelimiterBox(m, symbol, c.Size(), axis, GroupReach(Layout(m, p, c, e.value), axis, m.math("x", c.Size(), p.face).ascent))
  }

  /** The marks of a group: those of the left delimiter, of the body, and of the right delimiter. */
  lemma GroupMarks(m: Fonts, p: Params, c: Context, e: MathExpr)
    requires e.BGroup?
    ensures var left, body, right := SideOf(m, p, c, e, e.left), Layout(m, p, c, e.value), SideOf(m, p, c, e, e.right);
      Layout(m, p, c, e).marks
      == ShiftAll(left.marks, 0.0, 0.0) + ShiftAll(body.marks, left.width, 0.0)
         + ShiftAll(right.marks, left.width + (body.width + body.italic), 0.0)
  {
    hide DelimiterBox, ShiftAll, Context.Size, GroupReach;
    var left, body, right := SideOf(m, p, c, e, e.left), Layout(m, p, c, e.value), SideOf(m, p, c, e, e.right);
    assert Layout(m, p, c, e) == GroupBox(left, body, right);
    assert [] + ShiftAll(left.marks, 0.0, 0.0) == ShiftAll(left.marks, 0.0, 0.0);
  }

  /** A group is as wide as both delimiters and the body with its italic correction, and reaches as far as they do. */
  lemma GroupExtents(m: Fonts, p: Params, c: Context, e: MathExpr)
    requires e.BGroup?
    ensures var left, body, right, out := SideOf(m, p, c, e, e.left), Layout(m, p, c, e.value), SideOf(m, p, c, e, e.right), Layout(m, p, c, e);
      && out.width == left.width + (body.width + body.italic) + right.width && out.italic == 0.0 && !out.simple
      && out.ascent == Max(Max(Max(0.0, left.ascent), body.ascent), right.ascent)
      && out.descent == Max(Max(Max(0.0, left.descent), body.descent), right.descent)
  {
    hide DelimiterBox, ShiftAll, Context.Size, GroupReach;
    assert Layout(m, p, c, e) == GroupBox(SideOf(m, p, c, e, e.left), Layout(m, p, c, e.value), SideOf(m, p, c, e, e.right));
    hide Layout, SideOf;
  }

  /** A delimiter of a group has ink at every height of the body. */
  lemma SideIsSolid(m: Fonts, p: Params, c: Context, e: MathExpr, symbol: string, y: real)
    requires e.BGroup? && m.math("x", c.Size(), p.face).ascent >= 0.0
    requires Pieces(symbol).Some? && HasExtension(m, symbol, c.Size())
    requires -Layout(m, p, c, e.value).ascent <= y <= Layout(m, p, c, e.value).descent
    ensures SomeInkAt(m, SideOf(m, p, c, e, symbol).marks, y)
  {
    hide Layout, Pieces, DelimiterBox, SomeInkAt, GroupReach, ReachOf, HasExtension, Context.Size;
    var size, body := c.Size(), Layout(m, p, c, e.value);
    var axis, xHeight := m.math("+", size, p.face).ascent / 2.0, m.math("x", size, p.face).ascent;
    DelimiterContainsBody(m, symbol, size, body, axis, xHeight);
    DelimiterIsSolid(m, symbol, size, axis, GroupReach(body, axis, xHeight), -y);
  }

  /** Texts at `x`, with ink at the height `y`. */
  ghost predicate Encloses(m: Fonts, marks: seq<Mark>, x: real, y: real) {
    SomeInkAt(m, marks, y) && forall i :: 0 <= i < |marks| ==> marks[i].Glyphs? && marks[i].p.x == x
  }

  /** In a group both delimiters enclose the body: the marks in front of the body's, and those behind them,
      each have ink at every height of the body; the former stand at the left edge, the latter where the
      body with its italic correction ends. */
  lemma GroupIsEnclosed(m: Fonts, p: Params, c: Context, e: MathExpr, y: real) returns (l: nat, r: nat)
    requires e.BGroup? && m.math("x", c.Size(), p.face).ascent >= 0.0
    requires Pieces(e.left).Some? ==> HasExtension(m, e.left, c.Size())
    requires Pieces(e.right).Some? ==> HasExtension(m, e.right, c.Size())
    requires -Layout(m, p, c, e.value).ascent <= y <= Layout(m, p, c, e.value).descent
    ensures var marks, body, left := Layout(m, p, c, e).marks, Layout(m, p, c, e.value), SideOf(m, p, c, e, e.left);
      && l <= r <= |marks|
      && marks[l..r] == ShiftAll(body.marks, left.width, 0.0)
      && (Pieces(e.left).Some? ==> Encloses(m, marks[..l], 0.0, y))
      && (Pieces(e.right).Some? ==> Encloses(m, marks[r..], left.width + (body.width + body.italic), y))
  {
    hide Layout, Pieces, SideOf, Encloses, HasExtension, Context.Size;
    GroupMarks(m, p, c, e);
    var left, body, right := SideOf(m, p, c, e, e.left), Layout(m, p, c, e.value), SideOf(m, p, c, e, e.right);
    var first, second := ShiftAll(left.marks, 0.0, 0.0), ShiftAll(body.marks, left.width, 0.0);
    var third := ShiftAll(right.marks, left.width + (body.width + body.italic), 0.0);
    l, r := |first|, |first| + |second|;
    var marks := Layout(m, p, c, e).marks;
    assert marks == first + second + third;
    assert marks[..l] == first && marks[l..r] == second && marks[r..] == third;
    if Pieces(e.left).Some? {
      SideEncloses(m, p, c, e, e.left, 0.0, y);
    }
    if Pieces(e.right).Some? {
      SideEncloses(m, p, c, e, e.right, left.width + (body.width + body.italic), y);
    }
  }

  lemma SideEncloses(m: Fonts, p: Params, c: Context, e: MathExpr, symbol: string, x: real, y: real)
    requires e.BGroup? && m.math("x", c.Size(), p.face).ascent >= 0.0
    requires Pieces(symbol).Some? && HasExtension(m, symbol, c.Size())
    requires -Layout(m, p, c, e.value).ascent <= y <= Layout(m, p, c, e.value).descent
    ensures Encloses(m, ShiftAll(SideOf(m, p, c, e, symbol).marks, x, 0.0), x, y)
  {
    hide Pieces, Layout, SomeInkAt, DelimiterBox, HasExtension, Context.Size;
    var marks := SideOf(m, p, c, e, symbol).marks;
    SideIsSolid(m, p, c, e, symbol, y);
    InkMoved(m, marks, x, y);
    DelimiterAtEdge(m, symbol, c.Size(), m.math("+", c.Size(), p.face).ascent / 2.0,
                    GroupReach(Layout(m, p, c, e.value), m.math("+", c.Size(), p.face).ascent / 2.0, m.math("x", c.Size(), p.face).ascent));
  }

  lemma InkMoved(m: Fonts, marks: seq<Mark>, x: real, y: real)
    requires SomeInkAt(m, marks, y)
    ensures SomeInkAt(m, ShiftAll(marks, x, 0.0), y)
  {
    var i :| 0 <= i < |marks| && InkAt(m, marks[i], y);
    assert InkAt(m, ShiftAll(marks, x, 0.0)[i], y);
  }

  /** All pieces of a delimiter are texts at its left edge. */
  ghost predicate AtEdge(marks: seq<Mark>) {
    forall i :: 0 <= i < |marks| ==> marks[i].Glyphs? && marks[i].p.x == 0.0
  }

  lemma EdgeAppended(m: Fonts, out: Box, other: Box, y: real)
    requires AtEdge(out.marks) && AtEdge(other.marks)
    ensures AtEdge(Appended(out, other, 0.0, y).marks)
  {
  }

  lemma {:induction false} EdgeExtended(m: Fonts, out: Box, ext: Box, low: real, high: real, i: nat, n: nat)
    requires AtEdge(out.marks) && AtEdge(ext.marks) && i <= n
    ensures AtEdge(ExtendFrom(out, ext, low, high, i, n).marks)
    decreases n - i
  {
    hide AtEdge, Appended;
    if i < n {
      var h := Center(low, high, i, n) - (ext.ascent - ext.descent) / 2.0;
      EdgeAppended(m, out, ext, -h);
      EdgeExtended(m, Appended(out, ext, 0.0, -h), ext, low, high, i + 1, n);
    }
  }

  lemma TextAtEdge(m: Fonts, text: string, size: real)
    ensures AtEdge(TextBox(m, text, Plain, size).marks)
  {
  }

  lemma EndsAtEdge(m: Fonts, top: Box, bot: Box, mid: Option<Box>, axis: real, dist: real)
    requires AtEdge(top.marks) && AtEdge(bot.marks) && (mid.Some? ==> AtEdge(mid.value.marks))
    ensures AtEdge(DelimiterEnds(top, bot, mid, axis, dist).marks)
  {
    var out := Empty(Max(top.width, bot.width));
    assert AtEdge(out.marks);
    hide AtEdge, Appended;
    var withTop := Appended(out, top, 0.0, -(dist - top.ascent + axis));
    EdgeAppended(m, out, top, -(dist - top.ascent + axis));
    EdgeAppended(m, withTop, bot, dist - bot.descent - axis);
    if mid.Some? {
      EdgeAppended(m, Appended(withTop, bot, 0.0, dist - bot.descent - axis), mid.value,
                   -(axis - (mid.value.ascent - mid.value.descent) / 2.0));
    }
  }

  lemma DelimiterAtEdge(m: Fonts, symbol: string, size: real, axis: real, dist: real)
    requires Pieces(symbol).Some?
    ensures AtEdge(DelimiterBox(m, symbol, size, axis, dist).marks)
  {
    var (tt, et, bt) := Pieces(symbol).value;
    var top, ext, bot := TextBox(m, tt, Plain, size), TextBox(m, et, Plain, size), TextBox(m, bt, Plain, size);
    var mid := MiddlePiece(m, symbol, size);
    var reach := DelimiterReach(symbol, top, dist);
    TextAtEdge(m, tt, size);
    TextAtEdge(m, et, size);
    TextAtEdge(m, bt, size);
    TextAtEdge(m, "⎨", size);
    TextAtEdge(m, "⎬", size);
    hide TextBox, Pieces, AtEdge, DelimiterEnds, ExtendFrom, Extensions, DelimiterReach;
    EndsAtEdge(m, top, bot, mid, axis, reach);
    var high := axis + reach - top.ascent - top.descent;
    var low := axis - reach + bot.ascent + bot.descent;
    EdgeExtended(m, DelimiterEnds(top, bot, mid, axis, reach), ext, low, high, 0, Extensions(high - low, ext.ascent + ext.descent));
  }
}
