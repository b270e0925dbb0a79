/** Mathematical typesetting as in `crates/r-graphics-engine/src/math.rs`.  Coordinates have a baseline
  and a downward Y axis.  Lengths are real numbers, and fonts are functions. */
module MathLayout {
  import opened Wrappers

  datatype Face = Plain | Bold | Italic | BoldItalic {
    predicate IsItalic() {
      this == Italic || this == BoldItalic
    }
  }

  datatype Metrics = Metrics(width: real, ascent: real, descent: real)

  /** `measure_math_text`, and the width that `measure_text` gives, for a text, size and face. */
  datatype Fonts = Fonts(math: (string, real, Face) -> Metrics, textWidth: (string, real, Face) -> real)

  datatype Params = Params(face: Face, dpi: real)

  function LayoutInch(params: Params): real {
    if params.dpi > 0.0 then params.dpi else 72.0
  }

  datatype MathExpr =
    | Text(text: string)
    | Variable(text: string)
    | Upright(text: string)
    | Row(values: seq<MathExpr>)
    | Fraction(over: MathExpr, under: MathExpr)
    | Atop(over: MathExpr, under: MathExpr)
    | Style(value: MathExpr, face: Face)
    | Scale(value: MathExpr, scale: real)
    | Scripts(base: MathExpr, sub: Option<MathExpr>, sup: Option<MathExpr>)
    | Radical(value: MathExpr)
    | Accent(value: MathExpr, accent: string)
    | Underline(value: MathExpr)
    | Space(em: real)
    | Phantom(value: MathExpr)
    | BGroup(left: string, value: MathExpr, right: string)
    | WideAccent(value: MathExpr, accent: string)
    | DisplayOperator(symbol: string, value: MathExpr, sub: Option<MathExpr>, sup: Option<MathExpr>)

  datatype Point = Point(x: real, y: real)

  datatype Mark =
    | Glyphs(text: string, p: Point, size: real, face: Face)
    | Line(a: Point, b: Point, w: real)
    | Curve(points: seq<Point>, w: real)

  /** A finished layout. */
  datatype Box = Box(width: real, ascent: real, descent: real, marks: seq<Mark>, italic: real, simple: bool)

  function Max(a: real, b: real): real {
    if a < b then b else a
  }

  // -------------------------------------------------------------------------
  // Style levels
  // -------------------------------------------------------------------------

  function Times(a: real, b: real): real {
    a * b
  }

  datatype Context = Context(level: nat, compact: bool, base: real) {
    function Factor(): real {
      if level <= 1 then 1.0 else if level == 2 then 0.7 else 0.5
    }

    function Size(): real {
      base * Factor()
    }

    function Script(compact: bool): Context {
      var l := level + 1;
      this.(level := if l < 2 then 2 else if l > 3 then 3 else l, compact := compact)
    }

    function Numerator(): Context {
      if level == 0 then this.(level := 1) else Script(compact)
    }

    function Denominator(): Context {
      if level == 0 then this.(level := 1, compact := true) else Script(true)
    }

    function Magnified(scale: real): Context {
      this.(base := Times(base, scale))
    }

    function Prime(): Context {
      this.(compact := true)
    }
  }

  // -------------------------------------------------------------------------
  // Putting boxes together
  // -------------------------------------------------------------------------

  function Moved(p: Point, x: real, y: real): Point {
    Point(p.x + x, p.y + y)
  }

  function Shift(m: Mark, x: real, y: real): Mark {
    match m
    case Glyphs(t, p, s, f) => Glyphs(t, Moved(p, x, y), s, f)
    case Line(a, b, w) => Line(Moved(a, x, y), Moved(b, x, y), w)
    case Curve(points, w) => Curve(seq(|points|, i requires 0 <= i < |points| => Moved(points[i], x, y)), w)
  }

  function ShiftAll(marks: seq<Mark>, x: real, y: real): seq<Mark> {
    seq(|marks|, i requires 0 <= i < |marks| => Shift(marks[i], x, y))
  }

  function Appended(out: Box, other: Box, x: real, y: real): Box {
    out.(ascent := Max(out.ascent, other.ascent - y),
         descent := Max(out.descent, other.descent + y),
         marks := out.marks + ShiftAll(other.marks, x, y))
  }

  function Empty(width: real): Box {
    Box(width, 0.0, 0.0, [], 0.0, false)
  }

  /** One more item in a row. */
  function AddItem(out: Box, item: Box): Box {
    var x := out.width + out.italic;
    Appended(out.(width := x, italic := item.italic), item, x, 0.0).(width := x + item.width)
  }

  function RowFrom(out: Box, items: seq<Box>): Box
    decreases |items|
  {
    if items == [] then out else RowFrom(AddItem(out, items[0]), items[1..])
  }

  // -------------------------------------------------------------------------
  // One function per shape
  // -------------------------------------------------------------------------

  function TextBox(m: Fonts, text: string, face: Face, size: real): Box {
    var t := m.math(text, size, face);
    Box(t.width, t.ascent, t.descent, [Glyphs(text, Point(0.0, 0.0), size, face)],
        if face.IsItalic() then 0.15 * t.ascent else 0.0, true)
  }

  function CharFace(ch: char, face: Face): Face {
    if '0' <= ch <= '9' then Plain else face
  }

  /** The characters of a variable, digits upright. */
  function CharBoxes(m: Fonts, text: string, face: Face, size: real): seq<Box> {
    seq(|text|, i requires 0 <= i < |text| => TextBox(m, [text[i]], CharFace(text[i], face), size))
  }

  function VariableBox(m: Fonts, text: string, face: Face, size: real): Box {
    RowFrom(Empty(0.0).(simple := true), CharBoxes(m, text, face, size))
  }

  function RuleWidth(size: real): real {
    Max(size * 0.055, 0.5)
  }

  function AccentBox(body: Box, mark: Box, capAscent: real): Box {
    var width := Max(body.width + body.italic, mark.width);
    var x := (width - mark.width) / 2.0 + 0.9 * body.italic;
    var y := -body.ascent - mark.descent - 0.1 * capAscent;
    var out := Empty(Max(width, x + mark.width));
    Appended(Appended(out, body, (width - body.width) / 2.0, 0.0), mark, x, y)
  }

  function MacronBox(body: Box, size: real): Box {
    var rule := Box(body.width, size * 0.05, 0.0, [Line(Point(0.0, 0.0), Point(body.width, 0.0), RuleWidth(size))], 0.0, false);
    Appended(body, rule, 0.0, -body.ascent - size * 0.1)
  }

  function UnderlineBox(body: Box, size: real): Box {
    var y := body.descent + size * 0.1;
    body.(marks := body.marks + [Line(Point(0.0, y), Point(body.width, y), RuleWidth(size))], descent := y + size * 0.03)
  }

  function SpaceBox(em: real, level: nat, emWidth: real): Box {
    Empty(if level >= 2 && em >= 2.0 / 9.0 then 0.0 else em * emWidth)
  }

  /** Top, extension and bottom of a growing delimiter. */
  function Pieces(symbol: string): Option<(string, string, string)> {
    if symbol == "(" then Some(("⎛", "⎜", "⎝"))
    else if symbol == ")" then Some(("⎞", "⎟", "⎠"))
    else if symbol == "[" then Some(("⎡", "⎢", "⎣"))
    else if symbol == "]" then Some(("⎤", "⎥", "⎦"))
    else if symbol == "{" then Some(("⎧", "⎪", "⎩"))
    else if symbol == "}" then Some(("⎫", "⎪", "⎭"))
    else if symbol == "|" || symbol == "||" then Some(("⎪", "⎪", "⎪"))
    else None
  }

  function Ceil(r: real): int {
    -((-r).Floor)
  }

  /** How many extensions bridge a gap; extensions without height bridge none. */
  function Extensions(gap: real, height: real): nat {
    if height <= 0.0 then 0
    else
      var n := Ceil(gap / (0.99 * height));
      if n < 0 then 0 else n
  }

  /** The middle of the `i`-th of `n` extensions, upward. */
  function Center(low: real, high: real, i: nat, n: nat): real
    requires n > 0
  {
    low + (i as real + 0.5) * (high - low) / (n as real)
  }

  function ExtendFrom(out: Box, ext: Box, low: real, high: real, i: nat, n: nat): Box
    requires i <= n
    decreases n - i
  {
    if i == n then out
    else
      var y := Center(low, high, i, n) - (ext.ascent - ext.descent) / 2.0;
      ExtendFrom(Appended(out, ext, 0.0, -y), ext, low, high, i + 1, n)
  }

  /** The ends of a delimiter around the axis, with the middle of a brace between them. */
  function DelimiterEnds(top: Box, bot: Box, mid: Option<Box>, axis: real, dist: real): Box {
    var ends := Appended(Appended(Empty(Max(top.width, bot.width)), top, 0.0, -(dist - top.ascent + axis)),
                         bot, 0.0, dist - bot.descent - axis);
    if mid.None? then ends
    else Appended(ends, mid.value, 0.0, -(axis - (mid.value.ascent - mid.value.descent) / 2.0))
  }

  function DelimiterReach(symbol: string, top: Box, dist: real): real {
    Max(dist, (if symbol == "{" || symbol == "}" then 1.2 else 0.8) * (top.ascent + top.descent))
  }

  function MiddlePiece(m: Fonts, symbol: string, size: real): Option<Box> {
    if symbol == "{" then Some(TextBox(m, "⎨", Plain, size))
    else if symbol == "}" then Some(TextBox(m, "⎬", Plain, size))
    else None
  }

  function DelimiterBox(m: Fonts, symbol: string, size: real, axis: real, dist: real): Box {
    var p := Pieces(symbol);
    if p.None? then Empty(0.0)
    else
      var top, ext, bot := TextBox(m, p.value.0, Plain, size), TextBox(m, p.value.1, Plain, size), TextBox(m, p.value.2, Plain, size);
      var reach := DelimiterReach(symbol, top, dist);
      var high := axis + reach - top.ascent - top.descent;
      var low := axis - reach + bot.ascent + bot.descent;
      ExtendFrom(DelimiterEnds(top, bot, MiddlePiece(m, symbol, size), axis, reach), ext, low, high,
                 0, Extensions(high - low, ext.ascent + ext.descent))
  }

  function GroupReach(body: Box, axis: real, xHeight: real): real {
    Max(body.ascent - axis, body.descent + axis) + 0.2 * xHeight
  }

  function GroupBox(left: Box, body: Box, right: Box): Box {
    var width := body.width + body.italic;
    Appended(Appended(Appended(Empty(left.width + width + right.width), left, 0.0, 0.0),
                      body, left.width, 0.0),
             right, left.width + width, 0.0)
  }

  function WideAccentBox(body: Box, tilde: bool, size: real): Box {
    var y := -body.ascent - size * 0.14;
    var stroke, height, w := RuleWidth(size), size * 0.16, body.width;
    var marks :=
      if tilde then
        [Curve([Point(0.0, y), Point(w / 3.0, y - height * 2.0), Point(w * 2.0 / 3.0, y + height * 2.0), Point(w, y)], stroke)]
      else
        [Line(Point(0.0, y), Point(w / 2.0, y - height), stroke), Line(Point(w / 2.0, y - height), Point(w, y), stroke)];
    body.(marks := body.marks + marks, ascent := -y + height + stroke / 2.0)
  }

  /** The symbol of an operator: a tall integral, a magnified symbol, or an ordinary one. */
  function OperatorBox(m: Fonts, symbol: string, face: Face, c: Context): Box {
    if symbol == "∫" && c.level == 0 then TallIntegral(m, face, c.Size())
    else if c.level == 0 && (symbol == "∑" || symbol == "∏" || symbol == "∪" || symbol == "∩") then
      Magnified(m, symbol, c.Magnified(1.25).Size())
    else TextBox(m, symbol, Plain, c.Size())
  }

  function TallIntegral(m: Fonts, face: Face, size: real): Box {
    var top, bottom := TextBox(m, "⌠", Plain, size), TextBox(m, "⌡", Plain, size);
    var axis := m.math("+", size, face).ascent / 2.0;
    Appended(Appended(Empty(Max(top.width, bottom.width)), top, 0.0, -(axis + 0.99 * top.descent)),
             bottom, 0.0, -(axis - 0.99 * bottom.ascent))
  }

  function Magnified(m: Fonts, symbol: string, size: real): Box {
    var op := TextBox(m, symbol, Plain, size);
    var axis := m.math("+", size, Plain).ascent / 2.0;
    Appended(Empty(op.width), op, 0.0, (op.ascent - op.descent) / 2.0 - axis)
  }

  function WidthOf(b: Option<Box>): real {
    if b.None? then 0.0 else b.value.width
  }

  /** The symbol with its limits; those of an integral stand to the right. */
  function LimitsBox(op: Box, lower: Option<Box>, upper: Option<Box>, integral: bool, thin: real, space: real): Box {
    var column := Max(Max(op.width, WidthOf(lower)), WidthOf(upper));
    var symbol := SymbolBox(op, column, integral, space);
    var withLower := if lower.None? then symbol else LowerLimit(symbol, op, lower.value, column, integral, thin, space);
    var withUpper := if upper.None? then withLower else UpperLimit(withLower, op, upper.value, column, integral, thin, space);
    if integral then withUpper else Spaced(withUpper, lower.Some?, upper.Some?, thin, space)
  }

  function SymbolBox(op: Box, column: real, integral: bool, space: real): Box {
    if integral then Appended(Empty(op.width), op, 0.0, 0.0)
    else Appended(Empty(column), op.(ascent := op.ascent + space, descent := op.descent + space), (column - op.width) / 2.0, 0.0)
  }

  function Spaced(out: Box, below: bool, above: bool, thin: real, space: real): Box {
    out.(width := out.width + thin,
         ascent := out.ascent + (if above then space else 0.0),
         descent := out.descent + (if below then space else 0.0))
  }

  function LowerLimit(out: Box, op: Box, l: Box, column: real, integral: bool, thin: real, space: real): Box {
    var x := if integral then op.width / 2.0 + thin else (column - l.width) / 2.0;
    var y := if integral then op.descent + (l.ascent - l.descent) / 2.0
             else op.descent + l.ascent + Max(space, space - l.ascent);
    Appended(out.(width := Max(out.width, x + l.width)), l, x, y)
  }

  function UpperLimit(out: Box, op: Box, u: Box, column: real, integral: bool, thin: real, space: real): Box {
    var x := if integral then op.width + thin else (column - u.width) / 2.0;
    var y := if integral then -op.ascent + (u.ascent - u.descent) / 2.0
             else -op.ascent - u.descent - Max(space, space - u.descent);
    Appended(out.(width := Max(out.width, x + u.width)), u, x, y)
  }

  function OperatorWithBody(limits: Box, body: Box): Box {
    Appended(limits.(italic := body.italic), body, limits.width, 0.0).(width := limits.width + body.width)
  }

  /** How far the numerator goes up and the denominator down: (up, down), before and after the
      clearance from the rule is made at least `phi`. */
  function FractionShifts(a: Box, b: Box, axis: real, theta: real, phi: real, u: real, v: real): (real, real) {
    (u + Max(phi - (u - a.descent - axis - theta / 2.0), 0.0),
     v + Max(phi - (axis + theta / 2.0 - b.ascent + v), 0.0))
  }

  /** How far the numerator of a fraction goes up and its denominator down. */
  function FractionOffsets(m: Fonts, face: Face, size: real, level: nat, a: Box, b: Box, theta: real): (real, real) {
    var axis, cap := m.math("+", size, face).ascent / 2.0, m.math("X", size, face).ascent;
    var digit := m.math("0", size, face).ascent;
    if level == 0 then
      FractionShifts(a, b, axis, theta, 3.0 * theta, axis + 3.51 * theta + 0.15 * cap + 0.7 * m.math("g", size, face).descent,
                     -axis + 3.51 * theta + 0.7 * digit + 0.344444 * cap)
    else
      FractionShifts(a, b, axis, theta, theta, axis + 1.51 * theta + 0.08333333 * cap,
                     -axis + 1.51 * theta + 0.7 * digit + 0.08333333 * cap)
  }

  function FractionBox(m: Fonts, face: Face, size: real, level: nat, a: Box, b: Box, theta: real, rule: bool): Box {
    var (u, v) := FractionOffsets(m, face, size, level, a, b, theta);
    Stacked(a, b, u, v, m.math("+", size, face).ascent / 2.0, theta, rule)
  }

  function Stacked(a: Box, b: Box, u: real, v: real, axis: real, theta: real, rule: bool): Box {
    var aw, bw := a.width + a.italic, b.width + b.italic;
    var width := Max(aw, bw);
    var out := Appended(Appended(Empty(width), a, (width - aw) / 2.0, -u), b, (width - bw) / 2.0, v);
    if rule then out.(marks := out.marks + [Line(Point(0.0, -axis), Point(width, -axis), theta)]) else out
  }

  /** How far a superscript goes up and a subscript down, before the two are compared. */
  function ScriptShifts(m: Fonts, face: Face, c: Context, base: Box, upper: Option<Box>, lower: Option<Box>): (real, real) {
    var size := c.Size();
    var xh, cap := m.math("x", size, face).ascent, m.math("X", size, face).ascent;
    var u := if base.simple then 0.0 else base.ascent - 0.3861111 * cap;
    var v := if base.simple then 0.0 else base.descent + 0.05 * cap;
    var p := if c.level == 0 && !c.compact then 0.95 else if c.compact then 0.7 else 0.825;
    (if upper.None? then u else Max(Max(u, p * xh), upper.value.descent + 0.25 * xh),
     if lower.None? then v
     else if upper.Some? then Max(v, 0.45 * cap)
     else Max(Max(v, 0.35 * xh), lower.value.ascent - 0.8 * m.math("x", c.Script(true).Size(), face).ascent))
  }

  /** When both come closer than `least`, the superscript is moved up, and the subscript with it. */
  function ScriptsApart(u: real, v: real, upper: Option<Box>, lower: Option<Box>, xh: real, least: real): (real, real) {
    if upper.Some? && lower.Some? && u - upper.value.descent - lower.value.ascent + v < least then
      var psi := 0.8 * xh - (u - upper.value.descent);
      if psi > 0.0 then (u + psi, v - psi) else (u, v)
    else (u, v)
  }

  function WithScript(out: Box, script: Option<Box>, x: real, y: real): Box {
    if script.None? then out else Appended(out, script.value, x, y)
  }

  function WidenedBy(width: real, script: Option<Box>, x: real): real {
    if script.None? then width else Max(width, x + script.value.width)
  }

  /** A superscript beside a subscript is moved right by the italic correction once more. */
  function ScriptsBox(base: Box, upper: Option<Box>, lower: Option<Box>, u: real, v: real): Box {
    var x := base.width + base.italic;
    var sx := x + if lower.Some? then base.italic else 0.0;
    var out := base.(italic := 0.0, simple := false);
    WithScript(WithScript(out, upper, sx, -u), lower, x, v).(width := WidenedBy(WidenedBy(x, upper, sx), lower, x))
  }

  /** The corners of a root sign. */
  function RadicalPoints(l: Box, top: real, cap: real, xHeight: real, trail: real): seq<Point> {
    var middle, rw := (l.ascent - l.descent) / 2.0, 0.6 * cap;
    [Point(0.0, -0.8 * middle), Point(rw * 0.3, -middle), Point(rw * 0.6, l.descent), Point(rw, top),
     Point(rw + 0.2 * xHeight + l.width + l.italic + trail, top)]
  }

  function RadicalBox(l: Box, cap: real, xHeight: real, trail: real): Box {
    var rw, rs := 0.6 * cap, 0.2 * xHeight;
    var top := -l.ascent - 0.4 * xHeight;
    var p := RadicalPoints(l, top, cap, xHeight, trail);
    var sign := [Line(p[0], p[1], 0.75), Line(p[1], p[2], 0.75), Line(p[2], p[3], 0.75), Line(p[3], p[4], 0.75)];
    var out := Appended(Empty(l.width + l.italic + rw + rs + 2.0 * trail).(marks := sign), l, rw + rs, 0.0);
    out.(ascent := Max(out.ascent, -top))
  }

  // -------------------------------------------------------------------------
  // Expressions
  // -------------------------------------------------------------------------

  function Layout(m: Fonts, p: Params, c: Context, e: MathExpr): Box
    decreases e
  {
    var size := c.Size();
    match e
    case Text(text) => TextBox(m, text, p.face, size)
    case Variable(text) => VariableBox(m, text, p.face, size)
    case Upright(text) => TextBox(m, text, Plain, size)
    case Row(values) =>
      RowFrom(Empty(0.0), seq(|values|, i requires 0 <= i < |values| => Layout(m, p, c, values[i])))
    case Fraction(a, b) =>
      FractionBox(m, p.face, size, c.level, Layout(m, p, c.Numerator(), a), Layout(m, p, c.Denominator(), b), 0.015 * LayoutInch(p), true)
    case Atop(a, b) =>
      FractionBox(m, p.face, size, c.level, Layout(m, p, c.Numerator(), a), Layout(m, p, c.Denominator(), b), 0.015 * LayoutInch(p), false)
    case Style(value, face) => Layout(m, p.(face := face), c, value)
    case Scale(value, scale) => Layout(m, p, c.Magnified(scale), value)
    case Scripts(base, sub, sup) =>
      var out := Layout(m, p, c, base);
      var upper := if sup.None? then None else Some(Layout(m, p, c.Script(c.compact), sup.value));
      var lower := if sub.None? then None else Some(Layout(m, p, c.Script(true), sub.value));
      var (u, v) := ScriptShifts(m, p.face, c, out, upper, lower);
      var (u', v') := ScriptsApart(u, v, upper, lower, m.math("x", size, p.face).ascent, 4.0 * 0.015 * LayoutInch(p));
      ScriptsBox(out, upper, lower, u', v')
    case Radical(value) =>
      RadicalBox(Layout(m, p, c.Prime(), value), m.math("X", size, p.face).ascent, m.math("x", size, p.face).ascent,
                 0.05555556 * m.textWidth("M", size, p.face))
    case Accent(value, accent) =>
      var body := Layout(m, p, c, value);
      if accent != "¯" then AccentBox(body, TextBox(m, accent, p.face, size), m.math("X", size, p.face).ascent)
      else MacronBox(body, size)
    case Underline(value) => UnderlineBox(Layout(m, p, c, value), size)
    case Space(em) => SpaceBox(em, c.level, m.math("M", size, p.face).width)
    case Phantom(value) => Layout(m, p, c, value).(marks := [])
    case BGroup(left, value, right) =>
      var body := Layout(m, p, c, value);
      var axis := m.math("+", size, p.face).ascent / 2.0;
      var reach := GroupReach(body, axis, m.math("x", size, p.face).ascent);
      GroupBox(DelimiterBox(m, left, size, axis, reach), body, DelimiterBox(m, right, size, axis, reach))
    case WideAccent(value, accent) => WideAccentBox(Layout(m, p, c, value), accent == "tilde", size)
    case DisplayOperator(symbol, value, sub, sup) =>
      var lower := if sub.None? then None else Some(Layout(m, p, c.Script(true), sub.value));
      var upper := if sup.None? then None else Some(Layout(m, p, c.Script(c.compact), sup.value));
      OperatorWithBody(
        LimitsBox(OperatorBox(m, symbol, p.face, c), lower, upper, symbol == "∫",
                  m.math("M", size, p.face).width / 6.0, 0.15 * m.math("X", size, p.face).ascent),
        Layout(m, p, c, value))
  }

  /** `MathExpr::layout`. */
  function LayoutAt(m: Fonts, p: Params, fontSize: real, e: MathExpr): Box {
    Layout(m, p, Context(0, false, fontSize), e)
  }
}
