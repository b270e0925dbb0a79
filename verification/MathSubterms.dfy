/** Where the parts of an expression stand in its layout (`crates/r-graphics-engine/src/math.rs`): each part is
    drawn once, as a whole, unless it is in a phantom, and nothing else depends on what it draws. */
module MathSubterms {
  import opened Wrappers
  import opened MathLayout
  import opened MathFits
  import opened MathProperties
  import opened MathBuilder

  /** A relation between the marks of two layouts. */
  type Relation = (seq<Mark>, seq<Mark>) -> bool

  /** It is kept when the same marks are added around both, and when both are moved. */
  ghost predicate Stable(R: Relation) {
    && (forall a, b, before, after :: R(a, b) ==> R(before + a + after, before + b + after))
    && (forall a, b, x, y :: R(a, b) ==> R(ShiftAll(a, x, y), ShiftAll(b, x, y)))
  }

  lemma Surrounded(R: Relation, a: seq<Mark>, b: seq<Mark>, before: seq<Mark>, after: seq<Mark>)
    requires Stable(R) && R(a, b)
    ensures R(before + a + after, before + b + after) && R(before + a, before + b) && R(a + after, b + after)
  {
    assert R(before + a + [], before + b + []) && R([] + a + after, [] + b + after);
    assert before + a + [] == before + a && before + b + [] == before + b;
    assert [] + a + after == a + after && [] + b + after == b + after;
  }

  lemma BothMoved(R: Relation, a: seq<Mark>, b: seq<Mark>, x: real, y: real)
    requires Stable(R) && R(a, b)
    ensures R(ShiftAll(a, x, y), ShiftAll(b, x, y))
  {
  }

  /** Two boxes of one extent, with related marks. */
  ghost predicate Alike(R: Relation, b: Box, b': Box) {
    && b.width == b'.width && b.ascent == b'.ascent && b.descent == b'.descent
    && b.italic == b'.italic && b.simple == b'.simple && R(b.marks, b'.marks)
  }

  // -------------------------------------------------------------------------
  // Every shape keeps it
  // -------------------------------------------------------------------------

  lemma AppendedTo(R: Relation, out: Box, out': Box, other: Box, x: real, y: real)
    requires Stable(R) && Alike(R, out, out')
    ensures Alike(R, Appended(out, other, x, y), Appended(out', other, x, y))
  {
    hide Stable, ShiftAll;
    Surrounded(R, out.marks, out'.marks, [], ShiftAll(other.marks, x, y));
  }

  lemma AppendedBoth(R: Relation, out: Box, other: Box, other': Box, x: real, y: real)
    requires Stable(R) && Alike(R, other, other')
    ensures Alike(R, Appended(out, other, x, y), Appended(out, other', x, y))
  {
    BothMoved(R, other.marks, other'.marks, x, y);
    hide Stable, ShiftAll;
    Surrounded(R, ShiftAll(other.marks, x, y), ShiftAll(other'.marks, x, y), out.marks, []);
  }

  lemma WithMarks(R: Relation, b: Box, b': Box, more: seq<Mark>)
    requires Stable(R) && Alike(R, b, b')
    ensures Alike(R, b.(marks := b.marks + more), b'.(marks := b'.marks + more))
  {
    hide Stable;
    Surrounded(R, b.marks, b'.marks, [], more);
  }

  lemma ItemAdded(R: Relation, out: Box, out': Box, item: Box, item': Box)
    requires Stable(R) && ((Alike(R, out, out') && item == item') || (out == out' && Alike(R, item, item')))
    ensures Alike(R, AddItem(out, item), AddItem(out', item'))
  {
    hide Stable, Appended;
    var x := out.width + out.italic;
    if Alike(R, out, out') && item == item' {
      AppendedTo(R, out.(width := x, italic := item.italic), out'.(width := x, italic := item.italic), item, x, 0.0);
    } else {
      AppendedBoth(R, out.(width := x, italic := item.italic), item, item', x, 0.0);
      AppendedItalic(out, item, item', x);
    }
  }

  lemma AppendedItalic(out: Box, item: Box, item': Box, x: real)
    requires item.italic == item'.italic
    ensures Appended(out.(width := x, italic := item.italic), item', x, 0.0) == Appended(out.(width := x, italic := item'.italic), item', x, 0.0)
  {
  }

  lemma {:induction false} RowGoesOn(R: Relation, out: Box, out': Box, items: seq<Box>)
    requires Stable(R) && Alike(R, out, out')
    ensures Alike(R, RowFrom(out, items), RowFrom(out', items))
    decreases |items|
  {
    hide Stable, Alike, AddItem;
    if items != [] {
      ItemAdded(R, out, out', items[0], items[0]);
      RowGoesOn(R, AddItem(out, items[0]), AddItem(out', items[0]), items[1..]);
    }
  }

  lemma {:induction false} RowReplaced(R: Relation, out: Box, items: seq<Box>, i: nat, item: Box)
    requires Stable(R) && i < |items| && Alike(R, items[i], item)
    ensures Alike(R, RowFrom(out, items), RowFrom(out, items[i := item]))
    decreases |items|
  {
    hide Stable, Alike, AddItem;
    var items' := items[i := item];
    if i == 0 {
      ItemAdded(R, out, out, items[0], item);
      assert items'[1..] == items[1..];
      RowGoesOn(R, AddItem(out, items[0]), AddItem(out, item), items[1..]);
    } else {
      assert items'[1..] == items[1..][i - 1 := item];
      RowReplaced(R, AddItem(out, items[0]), items[1..], i - 1, item);
    }
  }

  lemma AccentReplaced(R: Relation, body: Box, body': Box, mark: Box, cap: real)
    requires Stable(R) && Alike(R, body, body')
    ensures Alike(R, AccentBox(body, mark, cap), AccentBox(body', mark, cap))
  {
    hide Stable, Appended;
    var width := Max(body.width + body.italic, mark.width);
    var x := (width - mark.width) / 2.0 + 0.9 * body.italic;
    var out := Empty(Max(width, x + mark.width));
    AppendedBoth(R, out, body, body', (width - body.width) / 2.0, 0.0);
    AppendedTo(R, Appended(out, body, (width - body.width) / 2.0, 0.0), Appended(out, body', (width - body.width) / 2.0, 0.0),
               mark, x, -body.ascent - mark.descent - 0.1 * cap);
  }

  lemma MacronReplaced(R: Relation, body: Box, body': Box, size: real)
    requires Stable(R) && Alike(R, body, body')
    ensures Alike(R, MacronBox(body, size), MacronBox(body', size))
  {
    hide Stable, Appended;
    var rule := Box(body.width, size * 0.05, 0.0, [Line(Point(0.0, 0.0), Point(body.width, 0.0), RuleWidth(size))], 0.0, false);
    AppendedTo(R, body, body', rule, 0.0, -body.ascent - size * 0.1);
  }

  lemma MarkedReplaced(R: Relation, body: Box, body': Box, size: real, tilde: bool)
    requires Stable(R) && Alike(R, body, body')
    ensures Alike(R, UnderlineBox(body, size), UnderlineBox(body', size))
    ensures Alike(R, WideAccentBox(body, tilde, size), WideAccentBox(body', tilde, size))
  {
    hide Stable;
    var y := body.descent + size * 0.1;
    WithMarks(R, body, body', [Line(Point(0.0, y), Point(body.width, y), RuleWidth(size))]);
    var top, height, w, stroke := -body.ascent - size * 0.14, size * 0.16, body.width, RuleWidth(size);
    WithMarks(R, body, body',
      if tilde then
        [Curve([Point(0.0, top), Point(w / 3.0, top - height * 2.0), Point(w * 2.0 / 3.0, top + height * 2.0), Point(w, top)], stroke)]
      else
        [Line(Point(0.0, top), Point(w / 2.0, top - height), stroke), Line(Point(w / 2.0, top - height), Point(w, top), stroke)]);
  }

  lemma GroupReplaced(R: Relation, left: Box, body: Box, body': Box, right: Box)
    requires Stable(R) && Alike(R, body, body')
    ensures Alike(R, GroupBox(left, body, right), GroupBox(left, body', right))
  {
    hide Stable, Appended;
    var width := body.width + body.italic;
    var out := Appended(Empty(left.width + width + right.width), left, 0.0, 0.0);
    AppendedBoth(R, out, body, body', left.width, 0.0);
    AppendedTo(R, Appended(out, body, left.width, 0.0), Appended(out, body', left.width, 0.0), right, left.width + width, 0.0);
  }

  lemma RadicalReplaced(R: Relation, body: Box, body': Box, cap: real, xHeight: real, trail: real)
    requires Stable(R) && Alike(R, body, body')
    ensures Alike(R, RadicalBox(body, cap, xHeight, trail), RadicalBox(body', cap, xHeight, trail))
  {
    hide Stable, Appended;
    var top := -body.ascent - 0.4 * xHeight;
    var p := RadicalPoints(body, top, cap, xHeight, trail);
    assert RadicalPoints(body', top, cap, xHeight, trail) == p;
    var sign := [Line(p[0], p[1], 0.75), Line(p[1], p[2], 0.75), Line(p[2], p[3], 0.75), Line(p[3], p[4], 0.75)];
    AppendedBoth(R, Empty(body.width + body.italic + 0.6 * cap + 0.2 * xHeight + 2.0 * trail).(marks := sign), body, body', 0.6 * cap + 0.2 * xHeight, 0.0);
  }

  lemma StackedReplaced(R: Relation, a: Box, a': Box, b: Box, b': Box, u: real, v: real, axis: real, theta: real, rule: bool)
    requires Stable(R) && ((Alike(R, a, a') && b == b') || (a == a' && Alike(R, b, b')))
    ensures Alike(R, Stacked(a, b, u, v, axis, theta, rule), Stacked(a', b', u, v, axis, theta, rule))
  {
    hide Stable, Appended;
    var width := Max(a.width + a.italic, b.width + b.italic);
    var ax, bx := (width - (a.width + a.italic)) / 2.0, (width - (b.width + b.italic)) / 2.0;
    var over, over' := Appended(Empty(width), a, ax, -u), Appended(Empty(width), a', ax, -u);
    var both, both' := Appended(over, b, bx, v), Appended(over', b', bx, v);
    if Alike(R, a, a') && b == b' {
      AppendedBoth(R, Empty(width), a, a', ax, -u);
      AppendedTo(R, over, over', b, bx, v);
    } else {
      AppendedBoth(R, over, b, b', bx, v);
    }
    WithMarks(R, both, both', [Line(Point(0.0, -axis), Point(width, -axis), theta)]);
  }

  lemma FractionReplaced(R: Relation, m: Fonts, face: Face, size: real, level: nat, a: Box, a': Box, b: Box, b': Box, theta: real, rule: bool)
    requires Stable(R) && ((Alike(R, a, a') && b == b') || (a == a' && Alike(R, b, b')))
    ensures Alike(R, FractionBox(m, face, size, level, a, b, theta, rule), FractionBox(m, face, size, level, a', b', theta, rule))
  {
    var (u, v) := FractionOffsets(m, face, size, level, a, b, theta);
    assert FractionOffsets(m, face, size, level, a', b', theta) == (u, v);
    hide Stable, Stacked, FractionOffsets;
    StackedReplaced(R, a, a', b, b', u, v, m.math("+", size, face).ascent / 2.0, theta, rule);
  }

  /** Related, or both missing. */
  ghost predicate AlikeOption(R: Relation, b: Option<Box>, b': Option<Box>) {
    (b.Some? <==> b'.Some?) && (b.Some? ==> Alike(R, b.value, b'.value))
  }

  lemma ScriptAdded(R: Relation, out: Box, out': Box, script: Option<Box>, script': Option<Box>, x: real, y: real)
    requires Stable(R)
    requires (Alike(R, out, out') && script == script') || (out == out' && script.Some? && AlikeOption(R, script, script'))
    ensures Alike(R, WithScript(out, script, x, y), WithScript(out', script', x, y))
  {
    hide Stable, Appended;
    if script.Some? {
      if Alike(R, out, out') && script == script' {
        AppendedTo(R, out, out', script.value, x, y);
      } else {
        AppendedBoth(R, out, script.value, script'.value, x, y);
      }
    }
  }

  /** One of the three parts of a scripted expression is replaced. */
  ghost predicate OneOfThree(R: Relation, base: Box, base': Box, upper: Option<Box>, upper': Option<Box>, lower: Option<Box>, lower': Option<Box>) {
    || (Alike(R, base, base') && upper == upper' && lower == lower')
    || (base == base' && upper.Some? && AlikeOption(R, upper, upper') && lower == lower')
    || (base == base' && upper == upper' && lower.Some? && AlikeOption(R, lower, lower'))
  }

  lemma ScriptsReplaced(R: Relation, base: Box, base': Box, upper: Option<Box>, upper': Option<Box>, lower: Option<Box>, lower': Option<Box>, u: real, v: real)
    requires Stable(R) && OneOfThree(R, base, base', upper, upper', lower, lower')
    ensures Alike(R, ScriptsBox(base, upper, lower, u, v), ScriptsBox(base', upper', lower', u, v))
  {
    hide Stable, WithScript;
    var x := base.width + base.italic;
    var sx := x + if lower.Some? then base.italic else 0.0;
    var out, out' := base.(italic := 0.0, simple := false), base'.(italic := 0.0, simple := false);
    var one, one' := WithScript(out, upper, sx, -u), WithScript(out', upper', sx, -u);
    if base == base' && upper == upper' && lower.Some? && AlikeOption(R, lower, lower') {
      ScriptAdded(R, one, one', lower, lower', x, v);
    } else {
      ScriptAdded(R, out, out', upper, upper', sx, -u);
      ScriptAdded(R, one, one', lower, lower', x, v);
    }
  }

  lemma LimitReplaced(R: Relation, out: Box, out': Box, op: Box, l: Box, l': Box, column: real, integral: bool, thin: real, space: real)
    requires Stable(R) && ((Alike(R, out, out') && l == l') || (out == out' && Alike(R, l, l')))
    ensures Alike(R, LowerLimit(out, op, l, column, integral, thin, space), LowerLimit(out', op, l', column, integral, thin, space))
    ensures Alike(R, UpperLimit(out, op, l, column, integral, thin, space), UpperLimit(out', op, l', column, integral, thin, space))
  {
    hide Stable, Appended;
    var lx := if integral then op.width / 2.0 + thin else (column - l.width) / 2.0;
    var ly := if integral then op.descent + (l.ascent - l.descent) / 2.0 else op.descent + l.ascent + Max(space, space - l.ascent);
    var ux := if integral then op.width + thin else (column - l.width) / 2.0;
    var uy := if integral then -op.ascent + (l.ascent - l.descent) / 2.0 else -op.ascent - l.descent - Max(space, space - l.descent);
    if Alike(R, out, out') && l == l' {
      AppendedTo(R, out.(width := Max(out.width, lx + l.width)), out'.(width := Max(out.width, lx + l.width)), l, lx, ly);
      AppendedTo(R, out.(width := Max(out.width, ux + l.width)), out'.(width := Max(out.width, ux + l.width)), l, ux, uy);
    } else {
      AppendedBoth(R, out.(width := Max(out.width, lx + l.width)), l, l', lx, ly);
      AppendedBoth(R, out.(width := Max(out.width, ux + l.width)), l, l', ux, uy);
    }
  }

  lemma LimitsReplaced(R: Relation, op: Box, lower: Option<Box>, lower': Option<Box>, upper: Option<Box>, upper': Option<Box>, integral: bool, thin: real, space: real)
    requires Stable(R)
    requires (lower.Some? && AlikeOption(R, lower, lower') && upper == upper') || (lower == lower' && upper.Some? && AlikeOption(R, upper, upper'))
    ensures Alike(R, LimitsBox(op, lower, upper, integral, thin, space), LimitsBox(op, lower', upper', integral, thin, space))
  {
    hide Stable, LowerLimit, UpperLimit, SymbolBox;
    var column := Max(Max(op.width, WidthOf(lower)), WidthOf(upper));
    var symbol := SymbolBox(op, column, integral, space);
    if lower == lower' && upper.Some? && AlikeOption(R, upper, upper') {
      var below := if lower.None? then symbol else LowerLimit(symbol, op, lower.value, column, integral, thin, space);
      LimitReplaced(R, below, below, op, upper.value, upper'.value, column, integral, thin, space);
    } else {
      LimitReplaced(R, symbol, symbol, op, lower.value, lower'.value, column, integral, thin, space);
      if upper.Some? {
        LimitReplaced(R, LowerLimit(symbol, op, lower.value, column, integral, thin, space),
          LowerLimit(symbol, op, lower'.value, column, integral, thin, space), op, upper.value, upper'.value, column, integral, thin, space);
      }
    }
  }

  lemma BodyReplaced(R: Relation, limits: Box, limits': Box, body: Box, body': Box)
    requires Stable(R) && ((Alike(R, limits, limits') && body == body') || (limits == limits' && Alike(R, body, body')))
    ensures Alike(R, OperatorWithBody(limits, body), OperatorWithBody(limits', body'))
  {
    hide Stable, Appended;
    if Alike(R, limits, limits') && body == body' {
      AppendedTo(R, limits.(italic := body.italic), limits'.(italic := body.italic), body, limits.width, 0.0);
    } else {
      AppendedBoth(R, limits.(italic := body.italic), body, body', limits.width, 0.0);
    }
  }

  // -------------------------------------------------------------------------
  // In an expression
  // -------------------------------------------------------------------------

  /** The expression with another part. */
  ghost function WithPart(e: MathExpr, i: nat, part: MathExpr): MathExpr
    requires i < |Parts(e)|
  {
    WithParts(e, Parts(e)[i := part])
  }

  /** A part whose layout is exchanged for a related one makes the layout a related one. */
  lemma PartReplaced(R: Relation, m: Fonts, p: Params, c: Context, e: MathExpr, i: nat, part: MathExpr)
    requires Stable(R) && i < |Parts(e)| && !e.Phantom?
    requires Alike(R, PartLayout(m, p, c, e, Parts(e)[i], i), PartLayout(m, p, c, e, part, i))
    ensures Alike(R, Layout(m, p, c, e), Layout(m, p, c, WithPart(e, i, part)))
  {
    hide Stable, Alike;
    match e
    case Row(values) => RowPart(R, m, p, c, e, i, part);
    case Fraction(_, _) => FractionPart(R, m, p, c, e, i, part);
    case Atop(_, _) => FractionPart(R, m, p, c, e, i, part);
    case Scripts(_, _, _) => ScriptsPart(R, m, p, c, e, i, part);
    case DisplayOperator(_, _, _, _) => OperatorPart(R, m, p, c, e, i, part);
    case BGroup(_, _, _) => GroupPart(R, m, p, c, e, part);
    case _ => SinglePart(R, m, p, c, e, part);
  }

  lemma RowPart(R: Relation, m: Fonts, p: Params, c: Context, e: MathExpr, i: nat, part: MathExpr)
    requires Stable(R) && e.Row? && i < |e.values| && Alike(R, Layout(m, p, c, e.values[i]), Layout(m, p, c, part))
    ensures Alike(R, Layout(m, p, c, e), Layout(m, p, c, WithPart(e, i, part)))
  {
    RowLayout(m, p, c, e.values);
    RowLayout(m, p, c, e.values[i := part]);
    hide Stable, Alike, Layout, RowFrom;
    var items := Layouts(m, p, c, e.values);
    assert Layouts(m, p, c, e.values[i := part]) == items[i := Layout(m, p, c, part)];
    RowReplaced(R, Empty(0.0), items, i, Layout(m, p, c, part));
  }

  lemma FractionAlike(R: Relation, m: Fonts, p: Params, c: Context, e: MathExpr, e': MathExpr)
    requires Stable(R) && ((e.Fraction? && e'.Fraction?) || (e.Atop? && e'.Atop?))
    requires var over, over' := Layout(m, p, c.Numerator(), e.over), Layout(m, p, c.Numerator(), e'.over);
      var under, under' := Layout(m, p, c.Denominator(), e.under), Layout(m, p, c.Denominator(), e'.under);
      (Alike(R, over, over') && under == under') || (over == over' && Alike(R, under, under'))
    ensures Alike(R, Layout(m, p, c, e), Layout(m, p, c, e'))
  {
    hide Stable, Alike, Layout, FractionBox, Context.Size, Context.Numerator, Context.Denominator;
    FractionUnfolds(m, p, c, e);
    FractionUnfolds(m, p, c, e');
    FractionReplaced(R, m, p.face, c.Size(), c.level, Layout(m, p, c.Numerator(), e.over), Layout(m, p, c.Numerator(), e'.over),
      Layout(m, p, c.Denominator(), e.under), Layout(m, p, c.Denominator(), e'.under), 0.015 * LayoutInch(p), e.Fraction?);
  }

  lemma FractionPart(R: Relation, m: Fonts, p: Params, c: Context, e: MathExpr, i: nat, part: MathExpr)
    requires Stable(R) && (e.Fraction? || e.Atop?) && i < 2
    requires Alike(R, PartLayout(m, p, c, e, Parts(e)[i], i), PartLayout(m, p, c, e, part, i))
    ensures Alike(R, Layout(m, p, c, e), Layout(m, p, c, WithPart(e, i, part)))
  {
    hide Stable, Alike, Layout, Context.Numerator, Context.Denominator;
    FractionAlike(R, m, p, c, e, WithPart(e, i, part));
  }

  ghost function BaseOf(e: MathExpr): MathExpr
    requires e.Scripts? || e.DisplayOperator?
  {
    if e.Scripts? then e.base else e.value
  }

  /** The parts of an expression with scripts or limits, one of them replaced. */
  lemma ScriptedParts(R: Relation, m: Fonts, p: Params, c: Context, e: MathExpr, i: nat, part: MathExpr)
    requires (e.Scripts? || e.DisplayOperator?) && i < |Parts(e)|
    requires Alike(R, PartLayout(m, p, c, e, Parts(e)[i], i), PartLayout(m, p, c, e, part, i))
    ensures var e' := WithPart(e, i, part);
      && (e'.Scripts? <==> e.Scripts?) && (e'.DisplayOperator? <==> e.DisplayOperator?)
      && (e.DisplayOperator? ==> e'.symbol == e.symbol)
      && OneOfThree(R, Layout(m, p, c, BaseOf(e)), Layout(m, p, c, BaseOf(e')), SupOf(m, p, c, e), SupOf(m, p, c, e'), SubOf(m, p, c, e), SubOf(m, p, c, e'))
  {
    var e' := WithPart(e, i, part);
    ScriptedWith(e, i, part);
    hide Alike, Layout, Context.Script, WithPart;
    var base, upper, lower := Layout(m, p, c, BaseOf(e)), SupOf(m, p, c, e), SubOf(m, p, c, e);
    var base', upper', lower' := Layout(m, p, c, BaseOf(e')), SupOf(m, p, c, e'), SubOf(m, p, c, e');
    if i == 0 {
      assert Alike(R, base, base') && upper == upper' && lower == lower';
    } else if i == 1 && e.sub.Some? {
      assert base == base' && upper == upper' && AlikeOption(R, lower, lower');
    } else {
      assert base == base' && AlikeOption(R, upper, upper') && lower == lower';
    }
  }

  lemma ScriptedWith(e: MathExpr, i: nat, part: MathExpr)
    requires (e.Scripts? || e.DisplayOperator?) && i < |Parts(e)|
    ensures var e' := WithPart(e, i, part);
      && (e'.Scripts? <==> e.Scripts?) && (e'.DisplayOperator? <==> e.DisplayOperator?)
      && (e.DisplayOperator? ==> e'.symbol == e.symbol)
      && BaseOf(e') == (if i == 0 then part else BaseOf(e))
      && (i == 0 ==> Parts(e)[0] == BaseOf(e))
      && e'.sub == (if i == 1 && e.sub.Some? then Some(part) else e.sub)
      && e'.sup == (if i == |Parts(e)| - 1 && e.sup.Some? then Some(part) else e.sup)
  {
  }

  lemma ScriptsPart(R: Relation, m: Fonts, p: Params, c: Context, e: MathExpr, i: nat, part: MathExpr)
    requires Stable(R) && e.Scripts? && i < |Parts(e)|
    requires Alike(R, PartLayout(m, p, c, e, Parts(e)[i], i), PartLayout(m, p, c, e, part, i))
    ensures Alike(R, Layout(m, p, c, e), Layout(m, p, c, WithPart(e, i, part)))
  {
    var e' := WithPart(e, i, part);
    ScriptedParts(R, m, p, c, e, i, part);
    ScriptsUnfold(m, p, c, e);
    ScriptsUnfold(m, p, c, e');
    ShiftsFromExtents(R, m, p, c, e, e');
    hide Stable, Alike, Layout, ScriptsBox, Context.Script, ShiftsOf, SupOf, SubOf;
    var shifts := ShiftsOf(m, p, c, e);
    ScriptsReplaced(R, Layout(m, p, c, e.base), Layout(m, p, c, e'.base), SupOf(m, p, c, e), SupOf(m, p, c, e'),
      SubOf(m, p, c, e), SubOf(m, p, c, e'), shifts.0, shifts.1);
  }

  lemma ShiftsFromExtents(R: Relation, m: Fonts, p: Params, c: Context, e: MathExpr, e': MathExpr)
    requires e.Scripts? && e'.Scripts?
    requires OneOfThree(R, Layout(m, p, c, e.base), Layout(m, p, c, e'.base), SupOf(m, p, c, e), SupOf(m, p, c, e'), SubOf(m, p, c, e), SubOf(m, p, c, e'))
    ensures ShiftsOf(m, p, c, e') == ShiftsOf(m, p, c, e)
  {
    hide Layout, Context.Size, Context.Script, SupOf, SubOf, LayoutInch;
  }

  lemma OperatorAlike(R: Relation, m: Fonts, p: Params, c: Context, e: MathExpr, e': MathExpr)
    requires Stable(R) && e.DisplayOperator? && e'.DisplayOperator? && e.symbol == e'.symbol
    requires OneOfThree(R, Layout(m, p, c, e.value), Layout(m, p, c, e'.value), SupOf(m, p, c, e), SupOf(m, p, c, e'), SubOf(m, p, c, e), SubOf(m, p, c, e'))
    ensures Alike(R, Layout(m, p, c, e), Layout(m, p, c, e'))
  {
    hide Stable, Alike, Layout, LimitsBox, OperatorBox, OperatorWithBody, OneOfThree, Context.Size, Context.Script, SupOf, SubOf;
    OperatorUnfolds(m, p, c, e);
    OperatorUnfolds(m, p, c, e');
    OperatorReplaced(R, OperatorBox(m, e.symbol, p.face, c), Layout(m, p, c, e.value), Layout(m, p, c, e'.value),
      SupOf(m, p, c, e), SupOf(m, p, c, e'), SubOf(m, p, c, e), SubOf(m, p, c, e'), e.symbol == "∫",
      m.math("M", c.Size(), p.face).width / 6.0, 0.15 * m.math("X", c.Size(), p.face).ascent);
  }

  lemma OperatorPart(R: Relation, m: Fonts, p: Params, c: Context, e: MathExpr, i: nat, part: MathExpr)
    requires Stable(R) && e.DisplayOperator? && i < |Parts(e)|
    requires Alike(R, PartLayout(m, p, c, e, Parts(e)[i], i), PartLayout(m, p, c, e, part, i))
    ensures Alike(R, Layout(m, p, c, e), Layout(m, p, c, WithPart(e, i, part)))
  {
    var e' := WithPart(e, i, part);
    ScriptedParts(R, m, p, c, e, i, part);
    hide Stable, Alike, Layout, OneOfThree, SupOf, SubOf, WithPart, Parts, PartLayout;
    OperatorAlike(R, m, p, c, e, e');
  }

  lemma OperatorReplaced(R: Relation, op: Box, body: Box, body': Box, upper: Option<Box>, upper': Option<Box>,
                         lower: Option<Box>, lower': Option<Box>, integral: bool, thin: real, space: real)
    requires Stable(R) && OneOfThree(R, body, body', upper, upper', lower, lower')
    ensures Alike(R, OperatorWithBody(LimitsBox(op, lower, upper, integral, thin, space), body),
                     OperatorWithBody(LimitsBox(op, lower', upper', integral, thin, space), body'))
  {
    hide Stable, Alike, LimitsBox, OperatorWithBody;
    if !(Alike(R, body, body') && lower == lower' && upper == upper') {
      LimitsReplaced(R, op, lower, lower', upper, upper', integral, thin, space);
    }
    BodyReplaced(R, LimitsBox(op, lower, upper, integral, thin, space), LimitsBox(op, lower', upper', integral, thin, space), body, body');
  }

  lemma GroupUnfolds(m: Fonts, p: Params, c: Context, e: MathExpr)
    requires e.BGroup?
    ensures var axis := m.math("+", c.Size(), p.face).ascent / 2.0;
      var reach := GroupReach(Layout(m, p, c, e.value), axis, m.math("x", c.Size(), p.face).ascent);
      Layout(m, p, c, e) == GroupBox(DelimiterBox(m, e.left, c.Size(), axis, reach), Layout(m, p, c, e.value), DelimiterBox(m, e.right, c.Size(), axis, reach))
  {
    hide GroupBox, DelimiterBox, GroupReach, Context.Size;
  }

  lemma GroupsAlike(R: Relation, m: Fonts, left: string, right: string, size: real, body: Box, body': Box, axis: real, xHeight: real)
    requires Stable(R) && Alike(R, body, body')
    ensures var reach, reach' := GroupReach(body, axis, xHeight), GroupReach(body', axis, xHeight);
      Alike(R, GroupBox(DelimiterBox(m, left, size, axis, reach), body, DelimiterBox(m, right, size, axis, reach)),
               GroupBox(DelimiterBox(m, left, size, axis, reach'), body', DelimiterBox(m, right, size, axis, reach')))
  {
    hide Stable, GroupBox, DelimiterBox;
    var reach := GroupReach(body, axis, xHeight);
    GroupReplaced(R, DelimiterBox(m, left, size, axis, reach), body, body', DelimiterBox(m, right, size, axis, reach));
  }

  lemma GroupAlike(R: Relation, m: Fonts, p: Params, c: Context, e: MathExpr, e': MathExpr)
    requires Stable(R) && e.BGroup? && e'.BGroup? && e'.left == e.left && e'.right == e.right
    requires Alike(R, Layout(m, p, c, e.value), Layout(m, p, c, e'.value))
    ensures Alike(R, Layout(m, p, c, e), Layout(m, p, c, e'))
  {
    hide Stable, Alike, Layout, DelimiterBox, GroupBox, GroupReach, Context.Size;
    GroupUnfolds(m, p, c, e);
    GroupUnfolds(m, p, c, e');
    GroupsAlike(R, m, e.left, e.right, c.Size(), Layout(m, p, c, e.value), Layout(m, p, c, e'.value),
      m.math("+", c.Size(), p.face).ascent / 2.0, m.math("x", c.Size(), p.face).ascent);
  }

  lemma GroupPart(R: Relation, m: Fonts, p: Params, c: Context, e: MathExpr, part: MathExpr)
    requires Stable(R) && e.BGroup? && Alike(R, Layout(m, p, c, e.value), Layout(m, p, c, part))
    ensures Alike(R, Layout(m, p, c, e), Layout(m, p, c, WithPart(e, 0, part)))
  {
    hide Stable, Alike, Layout;
    GroupAlike(R, m, p, c, e, WithPart(e, 0, part));
  }

  lemma SinglePart(R: Relation, m: Fonts, p: Params, c: Context, e: MathExpr, part: MathExpr)
    requires Stable(R) && (e.Style? || e.Scale? || e.Radical? || e.Accent? || e.Underline? || e.WideAccent?)
    requires Alike(R, PartLayout(m, p, c, e, e.value, 0), PartLayout(m, p, c, e, part, 0))
    ensures Alike(R, Layout(m, p, c, e), Layout(m, p, c, WithPart(e, 0, part)))
  {
    hide Stable, Alike, RadicalBox, UnderlineBox, WideAccentBox, Context.Size, Times;
    var body, body' := PartLayout(m, p, c, e, e.value, 0), PartLayout(m, p, c, e, part, 0);
    var size := c.Size();
    match e
    case Radical(_) =>
      RadicalReplaced(R, body, body', m.math("X", size, p.face).ascent, m.math("x", size, p.face).ascent, 0.05555556 * m.textWidth("M", size, p.face));
    case Accent(_, _) => AccentPart(R, m, p, c, e, part);
    case Underline(_) => MarkedReplaced(R, body, body', size, true);
    case WideAccent(_, accent) => MarkedReplaced(R, body, body', size, accent == "tilde");
    case Style(_, _) =>
    case Scale(_, _) =>
  }

  lemma AccentPart(R: Relation, m: Fonts, p: Params, c: Context, e: MathExpr, part: MathExpr)
    requires Stable(R) && e.Accent? && Alike(R, Layout(m, p, c, e.value), Layout(m, p, c, part))
    ensures Alike(R, Layout(m, p, c, e), Layout(m, p, c, WithPart(e, 0, part)))
  {
    hide Stable, Alike, AccentBox, MacronBox, TextBox, Context.Size;
    var body, body', size := Layout(m, p, c, e.value), Layout(m, p, c, part), c.Size();
    AccentReplaced(R, body, body', TextBox(m, e.accent, p.face, size), m.math("X", size, p.face).ascent);
    MacronReplaced(R, body, body', size);
  }

  // -------------------------------------------------------------------------
  // Subterms and phantoms
  // -------------------------------------------------------------------------

  ghost function SubtermAt(e: MathExpr, path: seq<nat>): MathExpr
    requires IsPath(e, path)
    decreases |path|
  {
    if path == [] then e else SubtermAt(Parts(e)[path[0]], path[1..])
  }

  /** The parameters there: the face is that of the innermost style around it. */
  ghost function ParamsAt(e: MathExpr, p: Params, path: seq<nat>): Params
    requires IsPath(e, path)
    decreases |path|
  {
    if path == [] then p else ParamsAt(Parts(e)[path[0]], if e.Style? then Params(e.face, p.dpi) else p, path[1..])
  }

  /** The expression with another subterm there. */
  ghost function Replaced(e: MathExpr, path: seq<nat>, other: MathExpr): MathExpr
    requires IsPath(e, path)
    decreases |path|
  {
    if path == [] then other else WithPart(e, path[0], Replaced(Parts(e)[path[0]], path[1..], other))
  }

  /** It is in no phantom. */
  ghost predicate Visible(e: MathExpr, path: seq<nat>)
    requires IsPath(e, path)
    decreases |path|
  {
    path == [] || (!e.Phantom? && Visible(Parts(e)[path[0]], path[1..]))
  }

  /** `b` is `a` without these marks, which stand there in one piece, moved as a whole. */
  ghost predicate Without(marks: seq<Mark>, a: seq<Mark>, b: seq<Mark>) {
    exists before, after, x, y :: WithoutAt(marks, a, b, before, after, x, y)
  }

  ghost predicate WithoutAt(marks: seq<Mark>, a: seq<Mark>, b: seq<Mark>, before: seq<Mark>, after: seq<Mark>, x: real, y: real) {
    a == before + ShiftAll(marks, x, y) + after && b == before + after
  }

  ghost function Hiding(marks: seq<Mark>): Relation {
    (a, b) => Without(marks, a, b)
  }

  lemma WithoutMore(marks: seq<Mark>, a: seq<Mark>, b: seq<Mark>, more: seq<Mark>, further: seq<Mark>)
    requires Without(marks, a, b)
    ensures Without(marks, more + a + further, more + b + further)
  {
    var before, after, x, y :| WithoutAt(marks, a, b, before, after, x, y);
    assert more + a + further == (more + before) + ShiftAll(marks, x, y) + (after + further);
    assert more + b + further == (more + before) + (after + further);
    assert WithoutAt(marks, more + a + further, more + b + further, more + before, after + further, x, y);
  }

  lemma WithoutMoved(marks: seq<Mark>, a: seq<Mark>, b: seq<Mark>, x: real, y: real)
    requires Without(marks, a, b)
    ensures Without(marks, ShiftAll(a, x, y), ShiftAll(b, x, y))
  {
    var before, after, x', y' :| WithoutAt(marks, a, b, before, after, x', y');
    ShiftJoins(before + ShiftAll(marks, x', y'), after, x, y);
    ShiftJoins(before, ShiftAll(marks, x', y'), x, y);
    ShiftJoins(before, after, x, y);
    ShiftTwice(marks, x', y', x, y);
    assert WithoutAt(marks, ShiftAll(a, x, y), ShiftAll(b, x, y), ShiftAll(before, x, y), ShiftAll(after, x, y), x' + x, y' + y);
  }

  lemma HidingIsStable(marks: seq<Mark>)
    ensures Stable(Hiding(marks))
  {
    hide Without, ShiftAll;
    var R := Hiding(marks);
    forall a, b, before, after | R(a, b) ensures R(before + a + after, before + b + after) {
      WithoutMore(marks, a, b, before, after);
    }
    forall a, b, x, y | R(a, b) ensures R(ShiftAll(a, x, y), ShiftAll(b, x, y)) {
      WithoutMoved(marks, a, b, x, y);
    }
  }

  /** A subterm that is replaced by its phantom: the layout keeps its extents, and its marks but for those of
      the subterm, which stood in one piece and are gone.  Everything else stays where it was.  Inside another
      phantom nothing changes. */
  lemma {:induction false} PhantomHides(m: Fonts, p: Params, c: Context, e: MathExpr, path: seq<nat>)
    requires IsPath(e, path)
    ensures var sub, e' := SubtermAt(e, path), Replaced(e, path, Phantom(SubtermAt(e, path)));
      if Visible(e, path) then
        Alike(Hiding(Layout(m, ParamsAt(e, p, path), ContextAt(e, c, path), sub).marks), Layout(m, p, c, e), Layout(m, p, c, e'))
      else Layout(m, p, c, e') == Layout(m, p, c, e)
    decreases |path|
  {
    if path == [] {
      PhantomAlone(m, p, c, e);
    } else {
      var i, rest := path[0], path[1..];
      var part := Parts(e)[i];
      var part' := Replaced(part, rest, Phantom(SubtermAt(part, rest)));
      PhantomHides(m, ParamsOf(e, p), ContextOf(e, c, i), part, rest);
      if Visible(e, path) {
        var marks := Layout(m, ParamsAt(e, p, path), ContextAt(e, c, path), SubtermAt(e, path)).marks;
        HidingIsStable(marks);
        hide Stable, Layout, Hiding, Alike, Parts, WithParts, ContextOf;
        PartReplaced(Hiding(marks), m, p, c, e, i, part');
      } else if e.Phantom? {
        hide Hiding;
      } else {
        hide Layout, Parts, WithParts, ContextOf, Hiding;
        LayoutOfParts(m, p, c, e, Parts(e)[i := part']);
      }
    }
  }

  lemma PhantomAlone(m: Fonts, p: Params, c: Context, e: MathExpr)
    ensures Alike(Hiding(Layout(m, p, c, e).marks), Layout(m, p, c, e), Layout(m, p, c, Phantom(e)))
  {
    hide Layout, Without;
    PhantomUnfolds(m, p, c, e);
    WithoutAll(Layout(m, p, c, e).marks);
  }

  lemma WithoutAll(marks: seq<Mark>)
    ensures Without(marks, marks, [])
  {
    NotMoved(marks);
    hide ShiftAll;
    assert [] + marks + [] == marks;
    assert WithoutAt(marks, marks, [], [], [], 0.0, 0.0);
  }

  lemma PhantomUnfolds(m: Fonts, p: Params, c: Context, e: MathExpr)
    ensures Layout(m, p, c, Phantom(e)) == Layout(m, p, c, e).(marks := [])
  {
    hide Context.Size, Context.Script, Context.Numerator, Context.Denominator, Times,
      TextBox, VariableBox, RowFrom, FractionBox, ScriptsBox, ScriptShifts, ScriptsApart, RadicalBox, AccentBox, MacronBox,
      UnderlineBox, SpaceBox, GroupReach, GroupBox, DelimiterBox, WideAccentBox, LimitsBox, OperatorBox, OperatorWithBody;
  }

  lemma NotMoved(marks: seq<Mark>)
    ensures ShiftAll(marks, 0.0, 0.0) == marks
  {
    forall i | 0 <= i < |marks| ensures Shift(marks[i], 0.0, 0.0) == marks[i] {
      if marks[i].Curve? {
        assert Shift(marks[i], 0.0, 0.0).points == marks[i].points;
      }
    }
  }

  /** So the layout of a phantom has the extents of what it hides, and draws nothing. */
  lemma PhantomDrawsNothing(m: Fonts, p: Params, c: Context, e: MathExpr)
    ensures var hidden, shown := Layout(m, p, c, Phantom(e)), Layout(m, p, c, e);
      && |hidden.marks| == 0
      && hidden.width == shown.width && hidden.ascent == shown.ascent && hidden.descent == shown.descent
      && hidden.italic == shown.italic && hidden.simple == shown.simple
  {
    PhantomAlone(m, p, c, e);
    var marks := Layout(m, p, c, e).marks;
    var before, after, x, y :| WithoutAt(marks, marks, Layout(m, p, c, Phantom(e)).marks, before, after, x, y);
    assert |ShiftAll(marks, x, y)| == |marks|;
    assert |before + after| == 0;
  }

  /** Every text outside of phantoms is drawn, in the face of the innermost style around it and in the size of
      its context. */
  lemma TextIsDrawn(m: Fonts, p: Params, c: Context, e: MathExpr, path: seq<nat>, text: string) returns (k: nat, at: Point)
    requires IsPath(e, path) && Visible(e, path) && SubtermAt(e, path) == Text(text)
    ensures k < |Layout(m, p, c, e).marks|
    ensures Layout(m, p, c, e).marks[k] == Glyphs(text, at, ContextAt(e, c, path).Size(), ParamsAt(e, p, path).face)
  {
    PhantomHides(m, p, c, e, path);
    var q, d := ParamsAt(e, p, path), ContextAt(e, c, path);
    var glyphs := Glyphs(text, Point(0.0, 0.0), d.Size(), q.face);
    assert Layout(m, q, d, Text(text)).marks == [glyphs];
    hide Layout, Replaced;
    var all, others := Layout(m, p, c, e).marks, Layout(m, p, c, Replaced(e, path, Phantom(Text(text)))).marks;
    var before, after, x, y :| WithoutAt([glyphs], all, others, before, after, x, y);
    k, at := |before|, Point(x, y);
    assert ShiftAll([glyphs], x, y) == [Glyphs(text, Point(x, y), d.Size(), q.face)];
  }
}
