/** What the shapes of `crates/r-graphics-engine/src/math.rs` keep apart, and what the style levels do. */
module MathProperties {
  import opened Wrappers
  import opened MathLayout
  import opened MathFits

  // -------------------------------------------------------------------------
  // Every expression has bounds
  // -------------------------------------------------------------------------

  /** No negative space and no negative scale anywhere. */
  ghost predicate Proper(e: MathExpr)
    decreases e
  {
    && (e.Space? ==> e.em >= 0.0) && (e.Scale? ==> e.scale >= 0.0)
    && forall i :: 0 <= i < |Parts(e)| ==> Proper(Parts(e)[i])
  }

  ghost predicate Unscaled(e: MathExpr)
    decreases e
  {
    !e.Scale? && forall i :: 0 <= i < |Parts(e)| ==> Unscaled(Parts(e)[i])
  }

  lemma {:induction false} Widen(e: MathExpr, base: real, low: real, high: real, low': real, high': real)
    requires Within(e, base, low, high) && low' <= low && high <= high'
    ensures Within(e, base, low', high')
    decreases e
  {
    hide Parts, Times;
    if e.Scale? {
      Widen(e.value, Times(base, e.scale), low, high, low', high');
    } else {
      forall i | 0 <= i < |Parts(e)| ensures Within(Parts(e)[i], base, low', high') {
        Widen(Parts(e)[i], base, low, high, low', high');
      }
    }
  }

  function Min(a: real, b: real): real {
    if a < b then a else b
  }

  lemma {:induction false} BoundsExist(e: MathExpr, base: real) returns (low: real, high: real)
    requires Proper(e) && base >= 0.0
    ensures 0.0 <= low <= high && Within(e, base, low, high)
    decreases e
  {
    if e.Scale? {
      assert Proper(Parts(e)[0]);
      TimesNotNegative(base, e.scale);
      low, high := BoundsExist(e.value, Times(base, e.scale));
    } else {
      hide Parts;
      low, high := base, base;
      for i := 0 to |Parts(e)|
        invariant 0.0 <= low <= base <= high
        invariant forall k :: 0 <= k < i ==> Within(Parts(e)[k], base, low, high)
      {
        var l, h := BoundsExist(Parts(e)[i], base);
        var low', high' := Min(low, l), Max(high, h);
        forall k | 0 <= k < i ensures Within(Parts(e)[k], base, low', high') {
          Widen(Parts(e)[k], base, low, high, low', high');
        }
        Widen(Parts(e)[i], base, l, h, low', high');
        low, high := low', high';
      }
    }
  }

  /** Every mark lies in the box of its layout, whose width and italic correction are not negative. */
  ghost predicate Framed(m: Fonts, b: Box) {
    && b.width >= 0.0 && b.italic >= 0.0 && b.ascent + b.descent >= 0.0
    && forall i :: 0 <= i < |b.marks| ==> Inside(m, b.marks[i], b.width, b.ascent, b.descent)
  }

  lemma EveryLayoutIsFramed(m: Fonts, p: Params, c: Context, e: MathExpr)
    requires InkUpright(m) && PiecesMatch(m) && c.base >= 0.0 && Proper(e)
    ensures Framed(m, Layout(m, p, c, e))
  {
    var low, high := BoundsExist(e, c.base);
    LayoutFits(m, p, c, e, low, high);
    hide Layout, Inside;
  }

  lemma {:induction false} UnscaledWithin(e: MathExpr, base: real)
    requires Unscaled(e) && Proper(e)
    ensures Within(e, base, base, base)
    decreases e
  {
    hide Parts;
    forall i | 0 <= i < |Parts(e)| ensures Within(Parts(e)[i], base, base, base) {
      UnscaledWithin(Parts(e)[i], base);
    }
  }

  /** Without explicit scales, scripts and fractions of any depth keep at least half the font size,
      and only a display operator exceeds it, by a quarter. */
  lemma SizesOfUnscaled(m: Fonts, p: Params, fontSize: real, e: MathExpr, i: nat)
    requires InkUpright(m) && PiecesMatch(m) && fontSize >= 0.0 && Unscaled(e) && Proper(e)
    requires i < |LayoutAt(m, p, fontSize, e).marks|
    ensures var mark := LayoutAt(m, p, fontSize, e).marks[i];
      mark.Glyphs? ==> 0.5 * fontSize <= mark.size <= 1.25 * fontSize
  {
    UnscaledWithin(e, fontSize);
    LayoutFits(m, p, Context(0, false, fontSize), e, fontSize, fontSize);
    hide Layout, Inside;
  }

  // -------------------------------------------------------------------------
  // Style levels
  // -------------------------------------------------------------------------

  /** The context in which an expression lays out its `i`-th part. */
  ghost function ContextOf(e: MathExpr, c: Context, i: nat): Context
    requires i < |Parts(e)|
  {
    match e
    case Fraction(_, _) => if i == 0 then c.Numerator() else c.Denominator()
    case Atop(_, _) => if i == 0 then c.Numerator() else c.Denominator()
    case Scripts(_, sub, _) => ScriptContext(c, i, sub.Some?)
    case DisplayOperator(_, _, sub, _) => ScriptContext(c, i, sub.Some?)
    case Radical(_) => c.Prime()
    case Scale(_, scale) => c.Magnified(scale)
    case _ => c
  }

  function ScriptContext(c: Context, i: nat, hasSub: bool): Context {
    if i == 0 then c else if i == 1 && hasSub then c.Script(true) else c.Script(c.compact)
  }

  function ParamsOf(e: MathExpr, p: Params): Params {
    if e.Style? then p.(face := e.face) else p
  }

  /** The expression with other parts. */
  ghost function WithParts(e: MathExpr, parts: seq<MathExpr>): MathExpr
    requires |parts| == |Parts(e)|
  {
    match e
    case Row(_) => Row(parts)
    case Fraction(_, _) => Fraction(parts[0], parts[1])
    case Atop(_, _) => Atop(parts[0], parts[1])
    case Scripts(_, sub, sup) =>
      Scripts(parts[0], if sub.Some? then Some(parts[1]) else None, if sup.Some? then Some(parts[|parts| - 1]) else None)
    case DisplayOperator(symbol, _, sub, sup) =>
      DisplayOperator(symbol, parts[0], if sub.Some? then Some(parts[1]) else None, if sup.Some? then Some(parts[|parts| - 1]) else None)
    case Style(_, face) => Style(parts[0], face)
    case Scale(_, scale) => Scale(parts[0], scale)
    case Radical(_) => Radical(parts[0])
    case Accent(_, accent) => Accent(parts[0], accent)
    case Underline(_) => Underline(parts[0])
    case Phantom(_) => Phantom(parts[0])
    case BGroup(left, _, right) => BGroup(left, parts[0], right)
    case WideAccent(_, accent) => WideAccent(parts[0], accent)
    case _ => e
  }

  ghost function PartLayout(m: Fonts, p: Params, c: Context, e: MathExpr, part: MathExpr, i: nat): Box
    requires i < |Parts(e)|
  {
    Layout(m, ParamsOf(e, p), ContextOf(e, c, i), part)
  }

  /** These are the contexts: an expression sees of its parts only their layouts there, so parts that are
      laid out alike can be exchanged. */
  lemma LayoutOfParts(m: Fonts, p: Params, c: Context, e: MathExpr, parts: seq<MathExpr>)
    requires |parts| == |Parts(e)|
    requires forall i :: 0 <= i < |parts| ==> PartLayout(m, p, c, e, parts[i], i) == PartLayout(m, p, c, e, Parts(e)[i], i)
    ensures Layout(m, p, c, WithParts(e, parts)) == Layout(m, p, c, e)
  {
    hide Context.Size, Context.Script, Context.Numerator, Context.Denominator, Times,
      TextBox, VariableBox, RowFrom, FractionBox, ScriptsBox, ScriptShifts, ScriptsApart, RadicalBox, AccentBox, MacronBox,
      UnderlineBox, SpaceBox, GroupReach, GroupBox, DelimiterBox, WideAccentBox, LimitsBox, OperatorBox, OperatorWithBody;
    if e.Row? {
      RowOfParts(m, p, c, e, parts);
    } else if e.Scripts? || e.DisplayOperator? {
      ScriptedOfParts(m, p, c, e, parts);
    } else if |parts| > 0 {
      assert PartLayout(m, p, c, e, parts[0], 0) == PartLayout(m, p, c, e, Parts(e)[0], 0);
      if |parts| > 1 {
        assert PartLayout(m, p, c, e, parts[1], 1) == PartLayout(m, p, c, e, Parts(e)[1], 1);
      }
    }
  }

  lemma RowOfParts(m: Fonts, p: Params, c: Context, e: MathExpr, parts: seq<MathExpr>)
    requires |parts| == |Parts(e)| && e.Row?
    requires forall i :: 0 <= i < |parts| ==> PartLayout(m, p, c, e, parts[i], i) == PartLayout(m, p, c, e, Parts(e)[i], i)
    ensures Layout(m, p, c, WithParts(e, parts)) == Layout(m, p, c, e)
  {
    hide RowFrom, Context.Size;
    var values := e.values;
    forall i | 0 <= i < |parts| ensures Layout(m, p, c, parts[i]) == Layout(m, p, c, values[i]) {
      assert PartLayout(m, p, c, e, parts[i], i) == PartLayout(m, p, c, e, Parts(e)[i], i);
    }
    assert seq(|parts|, i requires 0 <= i < |parts| => Layout(m, p, c, parts[i]))
        == seq(|values|, i requires 0 <= i < |values| => Layout(m, p, c, values[i]));
  }

  lemma ScriptedOfParts(m: Fonts, p: Params, c: Context, e: MathExpr, parts: seq<MathExpr>)
    requires |parts| == |Parts(e)| && (e.Scripts? || e.DisplayOperator?)
    requires forall i :: 0 <= i < |parts| ==> PartLayout(m, p, c, e, parts[i], i) == PartLayout(m, p, c, e, Parts(e)[i], i)
    ensures Layout(m, p, c, WithParts(e, parts)) == Layout(m, p, c, e)
  {
    hide Context.Size, Context.Script, ScriptsBox, ScriptShifts, ScriptsApart, LimitsBox, OperatorBox, OperatorWithBody;
    var old', last := Parts(e), |parts| - 1;
    assert PartLayout(m, p, c, e, parts[0], 0) == PartLayout(m, p, c, e, old'[0], 0);
    if e.sub.Some? {
      assert PartLayout(m, p, c, e, parts[1], 1) == PartLayout(m, p, c, e, old'[1], 1);
    }
    if e.sup.Some? {
      assert PartLayout(m, p, c, e, parts[last], last) == PartLayout(m, p, c, e, old'[last], last);
    }
  }

  /** A way down: which part is taken at each expression. */
  ghost predicate IsPath(e: MathExpr, path: seq<nat>)
    decreases |path|
  {
    path == [] || (path[0] < |Parts(e)| && IsPath(Parts(e)[path[0]], path[1..]))
  }

  /** The context at its end. */
  ghost function ContextAt(e: MathExpr, c: Context, path: seq<nat>): Context
    requires IsPath(e, path)
    decreases |path|
  {
    if path == [] then c else ContextAt(Parts(e)[path[0]], ContextOf(e, c, path[0]), path[1..])
  }

  /** The way goes through a script or a limit. */
  ghost predicate ThroughScript(e: MathExpr, path: seq<nat>)
    requires IsPath(e, path)
    decreases |path|
  {
    path != [] && (((e.Scripts? || e.DisplayOperator?) && path[0] > 0) || ThroughScript(Parts(e)[path[0]], path[1..]))
  }

  lemma ContextRises(e: MathExpr, c: Context, i: nat)
    requires i < |Parts(e)| && c.level <= 3
    ensures var d := ContextOf(e, c, i);
      && c.level <= d.level <= 3 && (c.compact ==> d.compact)
      && ((e.Scripts? || e.DisplayOperator?) && i > 0 ==> d.level >= 2)
      && ((e.Fraction? || e.Atop?) && c.level > 0 ==> d.level >= 2)
  {
    hide Times;
  }

  /** Down any path through an expression the level only rises, never above 3, compactness stays, and
      from the first script on the level is at least 2. */
  lemma {:induction false} LevelsRise(e: MathExpr, c: Context, path: seq<nat>)
    requires IsPath(e, path) && c.level <= 3
    ensures var d := ContextAt(e, c, path);
      && c.level <= d.level <= 3 && (c.compact ==> d.compact)
      && (ThroughScript(e, path) ==> d.level >= 2)
    decreases |path|
  {
    hide Parts, ContextOf;
    if path != [] {
      ContextRises(e, c, path[0]);
      LevelsRise(Parts(e)[path[0]], ContextOf(e, c, path[0]), path[1..]);
    }
  }

  // -------------------------------------------------------------------------
  // Clearances
  // -------------------------------------------------------------------------

  /** After the shifts the numerator stays `phi` above the top of the rule.  The denominator is kept
      `phi` below the same edge, not below the bottom of the rule, and so may come closer by `theta`. */
  lemma FractionClearance(a: Box, b: Box, axis: real, theta: real, phi: real, u: real, v: real)
    ensures var (u', v') := FractionShifts(a, b, axis, theta, phi, u, v);
      && u' - a.descent >= axis + theta / 2.0 + phi
      && v' - b.ascent >= -axis + theta / 2.0 + (phi - theta)
      && u' >= u && v' >= v
  {
  }

  /** It clears the bottom of the rule by `phi` exactly if it did so before it was shifted. */
  lemma DenominatorClearsIff(a: Box, b: Box, axis: real, theta: real, phi: real, u: real, v: real)
    requires theta > 0.0
    ensures FractionShifts(a, b, axis, theta, phi, u, v).1 - b.ascent >= -axis + theta / 2.0 + phi
      <==> axis - theta / 2.0 - b.ascent + v >= phi
  {
  }

  /** The greatest height of a denominator that clears the rule in full. */
  function DenominatorRoom(m: Fonts, face: Face, size: real, level: nat, theta: real): real {
    0.01 * theta + 0.7 * m.math("0", size, face).ascent
      + (if level == 0 then 0.344444 else 0.08333333) * m.math("X", size, face).ascent
  }

  function RuleGap(level: nat, theta: real): real {
    if level == 0 then 3.0 * theta else theta
  }

  lemma OffsetsClearIff(m: Fonts, face: Face, size: real, level: nat, a: Box, b: Box, theta: real)
    requires theta > 0.0
    ensures FractionOffsets(m, face, size, level, a, b, theta).1 - b.ascent
        >= -(m.math("+", size, face).ascent / 2.0) + theta / 2.0 + RuleGap(level, theta)
      <==> b.ascent <= DenominatorRoom(m, face, size, level, theta)
  {
    hide FractionShifts;
    var axis, cap := m.math("+", size, face).ascent / 2.0, m.math("X", size, face).ascent;
    var digit := m.math("0", size, face).ascent;
    if level == 0 {
      DenominatorClearsIff(a, b, axis, theta, 3.0 * theta, axis + 3.51 * theta + 0.15 * cap + 0.7 * m.math("g", size, face).descent,
                           -axis + 3.51 * theta + 0.7 * digit + 0.344444 * cap);
    } else {
      DenominatorClearsIff(a, b, axis, theta, theta, axis + 1.51 * theta + 0.08333333 * cap,
                           -axis + 1.51 * theta + 0.7 * digit + 0.08333333 * cap);
    }
  }

  /** Where a fraction puts its numerator and denominator. */
  function OffsetsOf(m: Fonts, p: Params, c: Context, e: MathExpr): (real, real)
    requires e.Fraction? || e.Atop?
  {
    FractionOffsets(m, p.face, c.Size(), c.level, Layout(m, p, c.Numerator(), e.over), Layout(m, p, c.Denominator(), e.under),
                    0.015 * LayoutInch(p))
  }

  /** The denominator of a fraction, as it is laid out, clears the bottom of the rule by the full gap if
      and only if it is no higher than seven tenths of a digit and a third (in scripts a twelfth) of a
      capital, and a hundredth of the rule. */
  lemma FractionClearsRuleIff(m: Fonts, p: Params, c: Context, e: MathExpr)
    requires e.Fraction? || e.Atop?
    ensures var theta := 0.015 * LayoutInch(p);
      OffsetsOf(m, p, c, e).1 - Layout(m, p, c.Denominator(), e.under).ascent
        >= -(m.math("+", c.Size(), p.face).ascent / 2.0) + theta / 2.0 + RuleGap(c.level, theta) <==>
      Layout(m, p, c.Denominator(), e.under).ascent <= DenominatorRoom(m, p.face, c.Size(), c.level, theta)
  {
    hide Layout, FractionOffsets, DenominatorRoom, Context.Size, Context.Numerator, Context.Denominator;
    OffsetsClearIff(m, p.face, c.Size(), c.level, Layout(m, p, c.Numerator(), e.over), Layout(m, p, c.Denominator(), e.under),
                    0.015 * LayoutInch(p));
  }

  /** A font whose brackets are twice as high as everything else. */
  const TALL_BRACKETS: Fonts :=
    Fonts((t, s, _) => if t == "[" then Metrics(s, 2.0 * s, 0.0) else Metrics(s, s, 0.0), (t, s, _) => s)

  /** With it, a bracket under a digit at 12 points comes closer to the rule than the gap. */
  lemma BracketTooClose()
    ensures var m, p, c := TALL_BRACKETS, Params(Plain, 0.0), Context(0, false, 12.0);
      var e := Fraction(Text("1"), Text("["));
      var theta := 0.015 * LayoutInch(p);
      OffsetsOf(m, p, c, e).1 - Layout(m, p, c.Denominator(), e.under).ascent
        < -(m.math("+", c.Size(), p.face).ascent / 2.0) + theta / 2.0 + RuleGap(c.level, theta)
  {
    var m, p, c := TALL_BRACKETS, Params(Plain, 0.0), Context(0, false, 12.0);
    FractionClearsRuleIff(m, p, c, Fraction(Text("1"), Text("[")));
    assert c.Denominator().Size() == 12.0 == c.Size();
    assert Layout(m, p, c.Denominator(), Text("[")).ascent == 24.0;
  }

  /** Moving both scripts by the same amount leaves the gap between them as it was, so they end up
      at least `least` apart exactly when they were before. */
  lemma ScriptGapUnchanged(u: real, v: real, up: Box, down: Box, xh: real, least: real)
    ensures var (u', v') := ScriptsApart(u, v, Some(up), Some(down), xh, least);
      && (u' - up.descent) - (down.ascent - v') == (u - up.descent) - (down.ascent - v)
      && (u' != u ==> u' - up.descent == 0.8 * xh)
      && ((u' - up.descent) - (down.ascent - v') >= least <==> (u - up.descent) - (down.ascent - v) >= least)
  {
  }

  /** The body of a display operator starts where the symbol and its limits end: everything of theirs
      is on the left of everything of the body. */
  lemma BodyStandsClear(m: Fonts, limits: Box, body: Box, low: real, high: real, i: nat, k: nat)
    requires Fits(m, limits, low, high) && Fits(m, body, low, high)
    requires i < |limits.marks| && k < |body.marks|
    ensures var r := OperatorWithBody(limits, body).marks;
      && |r| == |limits.marks| + |body.marks|
      && Inside(m, r[i], limits.width, limits.ascent, limits.descent)
      && r[|limits.marks| + k] == Shift(body.marks[k], limits.width, 0.0)
      && Inside(m, body.marks[k], body.width, body.ascent, body.descent)
  {
    hide Inside;
  }

  // -------------------------------------------------------------------------
  // Placement
  // -------------------------------------------------------------------------

  /** Two boxes over each other: their middles in line within the width, and the rule, if any, across. */
  ghost predicate StandsOver(out: Box, a: Box, b: Box, ax: real, u: real, bx: real, v: real, rule: seq<Mark>) {
    && out.marks == ShiftAll(a.marks, ax, -u) + ShiftAll(b.marks, bx, v) + rule
    && 2.0 * ax + (a.width + a.italic) == out.width == 2.0 * bx + (b.width + b.italic)
    && ax >= 0.0 && bx >= 0.0
  }

  /** Clear of the rule by `phi` above and by `phi - theta` below. */
  ghost predicate ClearOfRule(a: Box, b: Box, u: real, v: real, axis: real, theta: real, phi: real) {
    u - a.descent >= axis + theta / 2.0 + phi && v - b.ascent >= -axis + theta / 2.0 + (phi - theta)
  }

  /** The marks of a fraction: the numerator above and the denominator below, each laid out in its own
      context, with their middles over each other, each clear of the rule, which spans the whole width
      at the height of the axis. */
  ghost predicate FractionStands(m: Fonts, p: Params, c: Context, e: MathExpr, ax: real, bx: real)
    requires e.Fraction? || e.Atop?
  {
    var a, b := Layout(m, p, c.Numerator(), e.over), Layout(m, p, c.Denominator(), e.under);
    var axis, theta := m.math("+", c.Size(), p.face).ascent / 2.0, 0.015 * LayoutInch(p);
    var out, offsets := Layout(m, p, c, e), OffsetsOf(m, p, c, e);
    && StandsOver(out, a, b, ax, offsets.0, bx, offsets.1,
                  if e.Fraction? then [Line(Point(0.0, -axis), Point(out.width, -axis), theta)] else [])
    && ClearOfRule(a, b, offsets.0, offsets.1, axis, theta, RuleGap(c.level, theta))
  }

  lemma FractionPlacement(m: Fonts, p: Params, c: Context, e: MathExpr) returns (ax: real, bx: real)
    requires e.Fraction? || e.Atop?
    ensures FractionStands(m, p, c, e, ax, bx)
  {
    hide Layout, FractionBox, FractionOffsets, Context.Size, Context.Numerator, Context.Denominator, LayoutInch, StandsOver, ClearOfRule, Stacked;
    var a, b := Layout(m, p, c.Numerator(), e.over), Layout(m, p, c.Denominator(), e.under);
    var axis, theta := m.math("+", c.Size(), p.face).ascent / 2.0, 0.015 * LayoutInch(p);
    var offsets := OffsetsOf(m, p, c, e);
    FractionUnfolds(m, p, c, e);
    FractionIsStacked(m, p.face, c.Size(), c.level, a, b, theta, e.Fraction?);
    ax, bx := StackedPlacement(a, b, offsets.0, offsets.1, axis, theta, e.Fraction?);
  }

  lemma FractionUnfolds(m: Fonts, p: Params, c: Context, e: MathExpr)
    requires e.Fraction? || e.Atop?
    ensures Layout(m, p, c, e) == FractionBox(m, p.face, c.Size(), c.level, Layout(m, p, c.Numerator(), e.over),
                                              Layout(m, p, c.Denominator(), e.under), 0.015 * LayoutInch(p), e.Fraction?)
  {
    hide FractionBox, Context.Size, Context.Numerator, Context.Denominator;
  }

  lemma FractionIsStacked(m: Fonts, face: Face, size: real, level: nat, a: Box, b: Box, theta: real, rule: bool)
    ensures var axis := m.math("+", size, face).ascent / 2.0;
      var offsets := FractionOffsets(m, face, size, level, a, b, theta);
      && FractionBox(m, face, size, level, a, b, theta, rule) == Stacked(a, b, offsets.0, offsets.1, axis, theta, rule)
      && ClearOfRule(a, b, offsets.0, offsets.1, axis, theta, RuleGap(level, theta))
  {
    hide Stacked, FractionShifts;
    var axis, cap := m.math("+", size, face).ascent / 2.0, m.math("X", size, face).ascent;
    var digit := m.math("0", size, face).ascent;
    if level == 0 {
      FractionClearance(a, b, axis, theta, 3.0 * theta, axis + 3.51 * theta + 0.15 * cap + 0.7 * m.math("g", size, face).descent,
                        -axis + 3.51 * theta + 0.7 * digit + 0.344444 * cap);
    } else {
      FractionClearance(a, b, axis, theta, theta, axis + 1.51 * theta + 0.08333333 * cap,
                        -axis + 1.51 * theta + 0.7 * digit + 0.08333333 * cap);
    }
  }

  lemma StackedPlacement(a: Box, b: Box, u: real, v: real, axis: real, theta: real, rule: bool) returns (ax: real, bx: real)
    ensures var out := Stacked(a, b, u, v, axis, theta, rule);
      StandsOver(out, a, b, ax, u, bx, v, if rule then [Line(Point(0.0, -axis), Point(out.width, -axis), theta)] else [])
  {
    hide ShiftAll;
    var width := Max(a.width + a.italic, b.width + b.italic);
    ax, bx := (width - (a.width + a.italic)) / 2.0, (width - (b.width + b.italic)) / 2.0;
    var first, second := ShiftAll(a.marks, ax, -u), ShiftAll(b.marks, bx, v);
    assert [] + first == first && first + second + [] == first + second;
  }

  /** A superscript keeps a quarter of an x-height between its ink and the baseline; a lone subscript is
      at least 0.35 x-heights down and its top at most 0.8 script x-heights up; next to a superscript it
      is at least 0.45 capital heights down. */
  lemma ScriptsClear(m: Fonts, face: Face, c: Context, base: Box, upper: Option<Box>, lower: Option<Box>)
    ensures var (u, v) := ScriptShifts(m, face, c, base, upper, lower);
      var xh, cap := m.math("x", c.Size(), face).ascent, m.math("X", c.Size(), face).ascent;
      && (upper.Some? ==> u - upper.value.descent >= 0.25 * xh)
      && (lower.Some? && upper.None? ==> v >= 0.35 * xh && lower.value.ascent - v <= 0.8 * m.math("x", c.Script(true).Size(), face).ascent)
      && (lower.Some? && upper.Some? ==> v >= 0.45 * cap)
      && (!base.simple ==> u >= base.ascent - 0.3861111 * cap && v >= base.descent + 0.05 * cap)
  {
    hide Context.Size, Context.Script;
  }

  ghost function SupOf(m: Fonts, p: Params, c: Context, e: MathExpr): Option<Box>
    requires e.Scripts? || e.DisplayOperator?
  {
    if e.sup.None? then None else Some(Layout(m, p, c.Script(c.compact), e.sup.value))
  }

  ghost function SubOf(m: Fonts, p: Params, c: Context, e: MathExpr): Option<Box>
    requires e.Scripts? || e.DisplayOperator?
  {
    if e.sub.None? then None else Some(Layout(m, p, c.Script(true), e.sub.value))
  }

  /** The marks of an optional box at its place. */
  ghost function Placed(b: Option<Box>, x: real, y: real): seq<Mark> {
    if b.None? then [] else ShiftAll(b.value.marks, x, y)
  }

  /** A superscript keeps its ink a quarter of an x-height above the baseline.  A lone subscript is well
      down and its top well below.  Together they are at least as far apart as these bounds, and either
      the subscript is still down or the superscript was moved up to 0.8 x-heights. */
  ghost predicate ScriptsKeepClear(upper: Option<Box>, lower: Option<Box>, u: real, v: real, xh: real, cap: real, scriptXh: real) {
    && (upper.Some? ==> u - upper.value.descent >= 0.25 * xh)
    && (lower.Some? && upper.None? ==> v >= 0.35 * xh && lower.value.ascent - v <= 0.8 * scriptXh)
    && (lower.Some? && upper.Some? ==>
          && (v >= 0.45 * cap || u - upper.value.descent == 0.8 * xh)
          && (u - upper.value.descent) + v >= 0.25 * xh + 0.45 * cap)
  }

  /** The distance that the scripts are meant to keep. */
  function LeastGap(p: Params): real {
    4.0 * 0.015 * LayoutInch(p)
  }

  /** How far an expression moves its superscript up and its subscript down: before they are compared, and
      in the end. */
  ghost function FirstShifts(m: Fonts, p: Params, c: Context, e: MathExpr): (real, real)
    requires e.Scripts?
  {
    ScriptShifts(m, p.face, c, Layout(m, p, c, e.base), SupOf(m, p, c, e), SubOf(m, p, c, e))
  }

  ghost function ShiftsOf(m: Fonts, p: Params, c: Context, e: MathExpr): (real, real)
    requires e.Scripts?
  {
    var first := FirstShifts(m, p, c, e);
    ScriptsApart(first.0, first.1, SupOf(m, p, c, e), SubOf(m, p, c, e), m.math("x", c.Size(), p.face).ascent, LeastGap(p))
  }

  /** A scripted expression: the base where it was, then the scripts in their own contexts, beginning where
      the base with its italic correction ends, or further right, and inside the width. */
  ghost predicate ScriptsStand(m: Fonts, p: Params, c: Context, e: MathExpr, sx: real, x: real)
    requires e.Scripts?
  {
    var base, upper, lower, out := Layout(m, p, c, e.base), SupOf(m, p, c, e), SubOf(m, p, c, e), Layout(m, p, c, e);
    var shifts := ShiftsOf(m, p, c, e);
    && out.marks == base.marks + Placed(upper, sx, -shifts.0) + Placed(lower, x, shifts.1)
    && x == base.width + base.italic && sx == x + (if lower.Some? then base.italic else 0.0)
    && (upper.Some? ==> sx + upper.value.width <= out.width)
    && (lower.Some? ==> x + lower.value.width <= out.width)
    && ScriptsKeepClear(upper, lower, shifts.0, shifts.1, m.math("x", c.Size(), p.face).ascent, m.math("X", c.Size(), p.face).ascent,
                        m.math("x", c.Script(true).Size(), p.face).ascent)
  }

  lemma ScriptsPlacement(m: Fonts, p: Params, c: Context, e: MathExpr) returns (sx: real, x: real)
    requires e.Scripts?
    ensures ScriptsStand(m, p, c, e, sx, x)
  {
    hide Layout, SupOf, SubOf, Context.Size, Context.Script, ShiftsOf, ScriptsBox, ScriptsKeepClear;
    var base, upper, lower := Layout(m, p, c, e.base), SupOf(m, p, c, e), SubOf(m, p, c, e);
    ScriptsUnfold(m, p, c, e);
    x := base.width + base.italic;
    sx := x + if lower.Some? then base.italic else 0.0;
    ScriptsBoxMarks(base, upper, lower, ShiftsOf(m, p, c, e).0, ShiftsOf(m, p, c, e).1);
  }

  lemma ScriptsUnfold(m: Fonts, p: Params, c: Context, e: MathExpr)
    requires e.Scripts?
    ensures var shifts := ShiftsOf(m, p, c, e);
      && Layout(m, p, c, e) == ScriptsBox(Layout(m, p, c, e.base), SupOf(m, p, c, e), SubOf(m, p, c, e), shifts.0, shifts.1)
      && ScriptsKeepClear(SupOf(m, p, c, e), SubOf(m, p, c, e), shifts.0, shifts.1, m.math("x", c.Size(), p.face).ascent,
                          m.math("X", c.Size(), p.face).ascent, m.math("x", c.Script(true).Size(), p.face).ascent)
  {
    hide ScriptShifts, ScriptsApart, ScriptsBox, ScriptsKeepClear, Context.Size, Context.Script;
    var base, upper, lower := Layout(m, p, c, e.base), SupOf(m, p, c, e), SubOf(m, p, c, e);
    var first := FirstShifts(m, p, c, e);
    ScriptsClear(m, p.face, c, base, upper, lower);
    ApartKeepsClear(first.0, first.1, upper, lower, m.math("x", c.Size(), p.face).ascent, m.math("X", c.Size(), p.face).ascent,
                    m.math("x", c.Script(true).Size(), p.face).ascent, LeastGap(p));
  }

  /** The height that a subscript may have to stay clear of the superscript.  It depends on the base and the
      superscript, not on the subscript. */
  function SubscriptRoom(m: Fonts, p: Params, c: Context, base: Box, up: Box): real {
    var xh, cap := m.math("x", c.Size(), p.face).ascent, m.math("X", c.Size(), p.face).ascent;
    var rise := if c.level == 0 && !c.compact then 0.95 else if c.compact then 0.7 else 0.825;
    var u := if base.simple then 0.0 else base.ascent - 0.3861111 * cap;
    var v := if base.simple then 0.0 else base.descent + 0.05 * cap;
    Max(Max(u, rise * xh) - up.descent, 0.25 * xh) + Max(v, 0.45 * cap) - LeastGap(p)
  }

  /** The gap between the ink of the two scripts. */
  ghost function ScriptGap(m: Fonts, p: Params, c: Context, e: MathExpr): real
    requires e.Scripts? && e.sub.Some? && e.sup.Some?
  {
    var shifts := ShiftsOf(m, p, c, e);
    (shifts.0 - SupOf(m, p, c, e).value.descent) - (SubOf(m, p, c, e).value.ascent - shifts.1)
  }

  /** Two scripts, as they are laid out, are as far apart as they are meant to be if and only if the
      subscript is no higher than its room: moving them when they are not does not part them. */
  lemma ScriptsApartIff(m: Fonts, p: Params, c: Context, e: MathExpr)
    requires e.Scripts? && e.sub.Some? && e.sup.Some?
    ensures ScriptGap(m, p, c, e) >= LeastGap(p)
      <==> SubOf(m, p, c, e).value.ascent <= SubscriptRoom(m, p, c, Layout(m, p, c, e.base), SupOf(m, p, c, e).value)
  {
    hide Layout, Context.Size, Context.Script, ScriptsApart, LayoutInch;
    var first := FirstShifts(m, p, c, e);
    ScriptGapUnchanged(first.0, first.1, SupOf(m, p, c, e).value, SubOf(m, p, c, e).value, m.math("x", c.Size(), p.face).ascent, LeastGap(p));
  }

  /** A font in which everything is as high as it is wide. */
  const SQUARE: Fonts := Fonts((t, s, _) => Metrics(s, s, 0.0), (t, s, _) => s)

  /** With it, two scripts on a letter at 6 points come too close: 4.2 points instead of 4.32. */
  lemma ScriptsTooClose()
    ensures var m, p, c := SQUARE, Params(Plain, 0.0), Context(0, false, 6.0);
      var e := Scripts(Text("x"), Some(Text("1")), Some(Text("2")));
      ScriptGap(m, p, c, e) == 4.2 < 4.32 == LeastGap(p)
  {
    var m, p, c := SQUARE, Params(Plain, 0.0), Context(0, false, 6.0);
    var e := Scripts(Text("x"), Some(Text("1")), Some(Text("2")));
    assert c.Size() == 6.0 && c.Script(true).Size() == 4.2 == c.Script(false).Size();
    assert SupOf(m, p, c, e).value == TextBox(m, "2", Plain, 4.2) && SubOf(m, p, c, e).value == TextBox(m, "1", Plain, 4.2);
    assert Layout(m, p, c, e.base) == TextBox(m, "x", Plain, 6.0);
  }

  lemma ApartKeepsClear(u: real, v: real, upper: Option<Box>, lower: Option<Box>, xh: real, cap: real, scriptXh: real, least: real)
    requires upper.Some? ==> u - upper.value.descent >= 0.25 * xh
    requires lower.Some? && upper.None? ==> v >= 0.35 * xh && lower.value.ascent - v <= 0.8 * scriptXh
    requires lower.Some? && upper.Some? ==> v >= 0.45 * cap
    ensures var shifts := ScriptsApart(u, v, upper, lower, xh, least);
      ScriptsKeepClear(upper, lower, shifts.0, shifts.1, xh, cap, scriptXh)
  {
  }

  lemma ScriptsBoxMarks(base: Box, upper: Option<Box>, lower: Option<Box>, u: real, v: real)
    ensures var x := base.width + base.italic;
      var sx := x + if lower.Some? then base.italic else 0.0;
      var out := ScriptsBox(base, upper, lower, u, v);
      && out.marks == base.marks + Placed(upper, sx, -u) + Placed(lower, x, v)
      && (upper.Some? ==> sx + upper.value.width <= out.width)
      && (lower.Some? ==> x + lower.value.width <= out.width)
  {
    hide ShiftAll;
    assert base.marks + [] == base.marks;
    if upper.Some? {
      var x := base.width + base.italic + if lower.Some? then base.italic else 0.0;
      assert base.marks + ShiftAll(upper.value.marks, x, -u) + [] == base.marks + ShiftAll(upper.value.marks, x, -u);
    }
  }

  // -------------------------------------------------------------------------
  // Display operators
  // -------------------------------------------------------------------------

  datatype Places = Places(ox: real, lx: real, ly: real, ux: real, uy: real)

  /** Limits above and below: their middles in line with that of the symbol, their ink at least `space`
      away from its ink. */
  ghost predicate LimitsAround(op: Box, lower: Option<Box>, upper: Option<Box>, at: Places, space: real) {
    && (lower.Some? ==> 2.0 * at.lx + lower.value.width == 2.0 * at.ox + op.width && at.ly - lower.value.ascent >= op.descent + space)
    && (upper.Some? ==> 2.0 * at.ux + upper.value.width == 2.0 * at.ox + op.width && at.uy + upper.value.descent <= -op.ascent - space)
  }

  /** Limits beside an integral: the lower one right of its middle, its ink centered at the foot; the upper
      one right of all of it, its ink centered at the head. */
  ghost predicate LimitsBeside(op: Box, lower: Option<Box>, upper: Option<Box>, at: Places, thin: real) {
    && at.ox == 0.0
    && (lower.Some? ==> at.lx == op.width / 2.0 + thin && at.ly + (lower.value.descent - lower.value.ascent) / 2.0 == op.descent)
    && (upper.Some? ==> at.ux == op.width + thin && at.uy + (upper.value.descent - upper.value.ascent) / 2.0 == -op.ascent)
  }

  /** Everything ends at `right` or before. */
  ghost predicate EndsBy(op: Box, lower: Option<Box>, upper: Option<Box>, at: Places, right: real) {
    && at.ox + op.width <= right
    && (lower.Some? ==> at.lx + lower.value.width <= right)
    && (upper.Some? ==> at.ux + upper.value.width <= right)
  }

  ghost predicate LimitsPlaced(out: Box, op: Box, lower: Option<Box>, upper: Option<Box>, integral: bool, thin: real, space: real, at: Places) {
    && out.marks == ShiftAll(op.marks, at.ox, 0.0) + Placed(lower, at.lx, at.ly) + Placed(upper, at.ux, at.uy)
    && (if integral then LimitsBeside(op, lower, upper, at, thin) else LimitsAround(op, lower, upper, at, space))
    && EndsBy(op, lower, upper, at, if integral then out.width else out.width - thin)
  }

  /** A display operator: the symbol, its limits in their own contexts, and then the body, which begins
      where all of them have ended, with a thin space more unless it is an integral. */
  ghost predicate OperatorStands(m: Fonts, p: Params, c: Context, e: MathExpr, at: Places, bx: real)
    requires e.DisplayOperator?
  {
    var op, lower, upper := OperatorBox(m, e.symbol, p.face, c), SubOf(m, p, c, e), SupOf(m, p, c, e);
    var body, out := Layout(m, p, c, e.value), Layout(m, p, c, e);
    var thin, space := m.math("M", c.Size(), p.face).width / 6.0, 0.15 * m.math("X", c.Size(), p.face).ascent;
    && out.marks == ShiftAll(op.marks, at.ox, 0.0) + Placed(lower, at.lx, at.ly) + Placed(upper, at.ux, at.uy)
                    + ShiftAll(body.marks, bx, 0.0)
    && (if e.symbol == "∫" then LimitsBeside(op, lower, upper, at, thin) else LimitsAround(op, lower, upper, at, space))
    && EndsBy(op, lower, upper, at, if e.symbol == "∫" then bx else bx - thin)
    && bx + body.width == out.width
  }

  lemma LimitsClearSymbol(m: Fonts, p: Params, c: Context, e: MathExpr) returns (at: Places, bx: real)
    requires e.DisplayOperator?
    ensures OperatorStands(m, p, c, e, at, bx)
  {
    hide Layout, SupOf, SubOf, Context.Size, Context.Script, OperatorBox, OperatorWithBody, LimitsBox,
      LimitsAround, LimitsBeside, EndsBy, ShiftAll, Placed;
    var op, lower, upper := OperatorBox(m, e.symbol, p.face, c), SubOf(m, p, c, e), SupOf(m, p, c, e);
    var thin, space := m.math("M", c.Size(), p.face).width / 6.0, 0.15 * m.math("X", c.Size(), p.face).ascent;
    var limits := LimitsBox(op, lower, upper, e.symbol == "∫", thin, space);
    OperatorUnfolds(m, p, c, e);
    WithBodyMarks(limits, Layout(m, p, c, e.value));
    at := LimitsPlacement(op, lower, upper, e.symbol == "∫", thin, space);
    bx := limits.width;
  }

  lemma WithBodyMarks(limits: Box, body: Box)
    ensures OperatorWithBody(limits, body).marks == limits.marks + ShiftAll(body.marks, limits.width, 0.0)
    ensures OperatorWithBody(limits, body).width == limits.width + body.width
  {
  }

  lemma OperatorUnfolds(m: Fonts, p: Params, c: Context, e: MathExpr)
    requires e.DisplayOperator?
    ensures Layout(m, p, c, e) == OperatorWithBody(
      LimitsBox(OperatorBox(m, e.symbol, p.face, c), SubOf(m, p, c, e), SupOf(m, p, c, e), e.symbol == "∫",
                m.math("M", c.Size(), p.face).width / 6.0, 0.15 * m.math("X", c.Size(), p.face).ascent),
      Layout(m, p, c, e.value))
  {
    hide Context.Size, Context.Script, OperatorBox, LimitsBox, OperatorWithBody;
  }

  lemma LimitsPlacement(op: Box, lower: Option<Box>, upper: Option<Box>, integral: bool, thin: real, space: real) returns (at: Places)
    ensures LimitsPlaced(LimitsBox(op, lower, upper, integral, thin, space), op, lower, upper, integral, thin, space, at)
  {
    var column := Max(Max(op.width, WidthOf(lower)), WidthOf(upper));
    var lw, la, ld := WidthOf(lower), if lower.None? then 0.0 else lower.value.ascent, if lower.None? then 0.0 else lower.value.descent;
    var uw, ua, ud := WidthOf(upper), if upper.None? then 0.0 else upper.value.ascent, if upper.None? then 0.0 else upper.value.descent;
    at := if integral then
        Places(0.0, op.width / 2.0 + thin, op.descent + (la - ld) / 2.0, op.width + thin, -op.ascent + (ua - ud) / 2.0)
      else
        Places((column - op.width) / 2.0, (column - lw) / 2.0, op.descent + la + Max(space, space - la),
               (column - uw) / 2.0, -op.ascent - ud - Max(space, space - ud));
    LimitsMarks(op, lower, upper, integral, thin, space, column, at);
    LimitsWidth(op, lower, upper, integral, thin, space, column, at);
  }

  lemma LimitsMarks(op: Box, lower: Option<Box>, upper: Option<Box>, integral: bool, thin: real, space: real, column: real, at: Places)
    requires column == Max(Max(op.width, WidthOf(lower)), WidthOf(upper))
    requires at.ox == if integral then 0.0 else (column - op.width) / 2.0
    requires lower.Some? ==> at.lx == (if integral then op.width / 2.0 + thin else (column - lower.value.width) / 2.0)
    requires lower.Some? ==> at.ly == (if integral then op.descent + (lower.value.ascent - lower.value.descent) / 2.0
                                       else op.descent + lower.value.ascent + Max(space, space - lower.value.ascent))
    requires upper.Some? ==> at.ux == (if integral then op.width + thin else (column - upper.value.width) / 2.0)
    requires upper.Some? ==> at.uy == (if integral then -op.ascent + (upper.value.ascent - upper.value.descent) / 2.0
                                       else -op.ascent - upper.value.descent - Max(space, space - upper.value.descent))
    ensures LimitsBox(op, lower, upper, integral, thin, space).marks
      == ShiftAll(op.marks, at.ox, 0.0) + Placed(lower, at.lx, at.ly) + Placed(upper, at.ux, at.uy)
  {
    hide ShiftAll, Max;
    var symbol := ShiftAll(op.marks, at.ox, 0.0);
    assert [] + symbol == symbol && symbol + [] == symbol;
    assert symbol + Placed(lower, at.lx, at.ly) + [] == symbol + Placed(lower, at.lx, at.ly);
  }

  lemma LimitsWidth(op: Box, lower: Option<Box>, upper: Option<Box>, integral: bool, thin: real, space: real, column: real, at: Places)
    requires column == Max(Max(op.width, WidthOf(lower)), WidthOf(upper))
    requires at.ox == if integral then 0.0 else (column - op.width) / 2.0
    requires lower.Some? ==> at.lx == (if integral then op.width / 2.0 + thin else (column - lower.value.width) / 2.0)
    requires upper.Some? ==> at.ux == (if integral then op.width + thin else (column - upper.value.width) / 2.0)
    ensures var right := LimitsBox(op, lower, upper, integral, thin, space).width;
      EndsBy(op, lower, upper, at, if integral then right else right - thin)
  {
    hide ShiftAll;
  }
}
