/** What a style changes in a layout (`crates/r-graphics-engine/src/math.rs`). */
module MathFaces {
  import opened Wrappers
  import opened MathLayout
  import opened MathFits
  import opened MathProperties
  import opened MathBuilder
  import opened MathSubterms

  function Faceless(mark: Mark): Mark {
    if mark.Glyphs? then mark.(face := Plain) else mark
  }

  /** The same marks, but for the faces of texts. */
  ghost predicate SameButFaces(a: seq<Mark>, b: seq<Mark>) {
    |a| == |b| && forall i :: 0 <= i < |a| ==> Faceless(a[i]) == Faceless(b[i])
  }

  ghost function Faces(): Relation {
    (a, b) => SameButFaces(a, b)
  }

  lemma FacesAreStable()
    ensures Stable(Faces())
  {
    forall a: seq<Mark>, b, before: seq<Mark>, after | Faces()(a, b) ensures Faces()(before + a + after, before + b + after) {
      FacesAround(a, b, before, after);
    }
    forall a, b, x, y | Faces()(a, b) ensures Faces()(ShiftAll(a, x, y), ShiftAll(b, x, y)) {
      FacesMoved(a, b, x, y);
    }
  }

  lemma FacesAround(a: seq<Mark>, b: seq<Mark>, before: seq<Mark>, after: seq<Mark>)
    requires SameButFaces(a, b)
    ensures SameButFaces(before + a + after, before + b + after)
  {
  }

  lemma FacesMoved(a: seq<Mark>, b: seq<Mark>, x: real, y: real)
    requires SameButFaces(a, b)
    ensures SameButFaces(ShiftAll(a, x, y), ShiftAll(b, x, y))
  {
    forall i | 0 <= i < |a| ensures Faceless(Shift(a[i], x, y)) == Faceless(Shift(b[i], x, y)) {
      assert Faceless(a[i]) == Faceless(b[i]);
    }
  }

  /** Two layouts that differ in the faces of texts at most. */
  ghost predicate AlikeButFaces(b: Box, b': Box) {
    Alike(Faces(), b, b')
  }

  lemma FacesTwice(b: Box, b': Box, b'': Box)
    requires AlikeButFaces(b, b') && AlikeButFaces(b', b'')
    ensures AlikeButFaces(b, b'')
  {
    assert forall i :: 0 <= i < |b.marks| ==> Faceless(b.marks[i]) == Faceless(b'.marks[i]) && Faceless(b'.marks[i]) == Faceless(b''.marks[i]);
  }

  lemma FacesSelf(b: Box)
    ensures AlikeButFaces(b, b)
  {
  }

  /** A font whose faces have the same measures. */
  ghost predicate FaceBlind(m: Fonts) {
    && (forall t, s, f, g :: m.math(t, s, f) == m.math(t, s, g))
    && (forall t, s, f, g :: m.textWidth(t, s, f) == m.textWidth(t, s, g))
  }

  lemma Blind(m: Fonts, text: string, size: real, face: Face, face': Face)
    requires FaceBlind(m)
    ensures m.math(text, size, face) == m.math(text, size, face') && m.textWidth(text, size, face) == m.textWidth(text, size, face')
  {
  }

  lemma TextsAlike(m: Fonts, text: string, face: Face, face': Face, size: real)
    requires FaceBlind(m) && face.IsItalic() == face'.IsItalic()
    ensures AlikeButFaces(TextBox(m, text, face, size), TextBox(m, text, face', size))
  {
    hide FaceBlind;
    Blind(m, text, size, face, face');
  }

  lemma {:induction false} RowsAlike(out: Box, out': Box, items: seq<Box>, items': seq<Box>)
    requires AlikeButFaces(out, out') && |items| == |items'|
    requires forall i :: 0 <= i < |items| ==> AlikeButFaces(items[i], items'[i])
    ensures AlikeButFaces(RowFrom(out, items), RowFrom(out', items'))
    decreases |items|
  {
    FacesAreStable();
    hide AlikeButFaces, AddItem, Stable, Faces;
    if items != [] {
      ItemsAlike(out, out', items[0], items'[0]);
      RowsAlike(AddItem(out, items[0]), AddItem(out', items'[0]), items[1..], items'[1..]);
    }
  }

  lemma ItemsAlike(out: Box, out': Box, item: Box, item': Box)
    requires AlikeButFaces(out, out') && AlikeButFaces(item, item') && Stable(Faces())
    ensures AlikeButFaces(AddItem(out, item), AddItem(out', item'))
  {
    hide Stable, Faces, Alike, AddItem;
    ItemAdded(Faces(), out, out', item, item);
    ItemAdded(Faces(), out', out', item, item');
    FacesTwice(AddItem(out, item), AddItem(out', item), AddItem(out', item'));
  }

  lemma VariablesAlike(m: Fonts, text: string, face: Face, face': Face, size: real)
    requires FaceBlind(m) && face.IsItalic() == face'.IsItalic()
    ensures AlikeButFaces(VariableBox(m, text, face, size), VariableBox(m, text, face', size))
  {
    hide AlikeButFaces, TextBox, RowFrom;
    FacesSelf(Empty(0.0).(simple := true));
    var items, items' := CharBoxes(m, text, face, size), CharBoxes(m, text, face', size);
    forall i | 0 <= i < |items| ensures AlikeButFaces(items[i], items'[i]) {
      TextsAlike(m, [text[i]], CharFace(text[i], face), CharFace(text[i], face'), size);
    }
    RowsAlike(Empty(0.0).(simple := true), Empty(0.0).(simple := true), items, items');
  }

  // -------------------------------------------------------------------------
  // Expressions
  // -------------------------------------------------------------------------

  /** Two parameters that agree but for the face, and there on whether it is italic. */
  ghost predicate SameSlant(p: Params, p': Params) {
    p'.dpi == p.dpi && p'.face.IsItalic() == p.face.IsItalic()
  }

  lemma {:induction false} FacesOnly(m: Fonts, p: Params, p': Params, c: Context, e: MathExpr)
    requires FaceBlind(m) && SameSlant(p, p')
    ensures AlikeButFaces(Layout(m, p, c, e), Layout(m, p', c, e))
    decreases e
  {
    hide FaceBlind, AlikeButFaces;
    match e
    case Text(text) => TextsAlike(m, text, p.face, p'.face, c.Size());
    case Variable(text) => VariablesAlike(m, text, p.face, p'.face, c.Size());
    case Upright(text) => FacesSelf(Layout(m, p, c, e));
    case Row(values) => RowFaces(m, p, p', c, e);
    case Fraction(a, b) =>
      FacesOnly(m, p, p', c.Numerator(), a);
      FacesOnly(m, p, p', c.Denominator(), b);
      FractionFaces(m, p, p', c, e);
    case Atop(a, b) =>
      FacesOnly(m, p, p', c.Numerator(), a);
      FacesOnly(m, p, p', c.Denominator(), b);
      FractionFaces(m, p, p', c, e);
    case Style(value, face) => FacesOnly(m, p.(face := face), p'.(face := face), c, value);
    case Scale(value, scale) => FacesOnly(m, p, p', c.Magnified(scale), value);
    case Scripts(base, sub, sup) => 
      FacesOnly(m, p, p', c, base);
      if sub.Some? { FacesOnly(m, p, p', c.Script(true), sub.value); }
      if sup.Some? { FacesOnly(m, p, p', c.Script(c.compact), sup.value); }
      ScriptFaces(m, p, p', c, e);
    case DisplayOperator(_, value, sub, sup) =>
      FacesOnly(m, p, p', c, value);
      if sub.Some? { FacesOnly(m, p, p', c.Script(true), sub.value); }
      if sup.Some? { FacesOnly(m, p, p', c.Script(c.compact), sup.value); }
      OperatorFaces(m, p, p', c, e);
    case Space(_) => SpaceFaces(m, p, p', c, e);
    case Radical(value) =>
      FacesOnly(m, p, p', c.Prime(), value);
      SingleFaces(m, p, p', c, e);
    case _ =>
      FacesOnly(m, p, p', c, e.value);
      SingleFaces(m, p, p', c, e);
  }

  lemma RowFaces(m: Fonts, p: Params, p': Params, c: Context, e: MathExpr)
    requires FaceBlind(m) && SameSlant(p, p') && e.Row?
    ensures AlikeButFaces(Layout(m, p, c, e), Layout(m, p', c, e))
    decreases e, 0
  {
    hide FaceBlind, AlikeButFaces;
    RowLayout(m, p, c, e.values);
    RowLayout(m, p', c, e.values);
    forall i | 0 <= i < |e.values| ensures AlikeButFaces(Layout(m, p, c, e.values[i]), Layout(m, p', c, e.values[i])) {
      FacesOnly(m, p, p', c, e.values[i]);
    }
    hide Layout, RowFrom;
    FacesSelf(Empty(0.0));
    RowsAlike(Empty(0.0), Empty(0.0), Layouts(m, p, c, e.values), Layouts(m, p', c, e.values));
  }

  lemma SpaceFaces(m: Fonts, p: Params, p': Params, c: Context, e: MathExpr)
    requires FaceBlind(m) && e.Space?
    ensures AlikeButFaces(Layout(m, p, c, e), Layout(m, p', c, e))
  {
    hide FaceBlind;
    Blind(m, "M", c.Size(), p.face, p'.face);
    FacesSelf(Layout(m, p, c, e));
  }

  lemma FractionFaces(m: Fonts, p: Params, p': Params, c: Context, e: MathExpr)
    requires FaceBlind(m) && SameSlant(p, p') && (e.Fraction? || e.Atop?)
    requires AlikeButFaces(Layout(m, p, c.Numerator(), e.over), Layout(m, p', c.Numerator(), e.over))
    requires AlikeButFaces(Layout(m, p, c.Denominator(), e.under), Layout(m, p', c.Denominator(), e.under))
    ensures AlikeButFaces(Layout(m, p, c, e), Layout(m, p', c, e))
  {
    hide Layout, FractionBox, FractionOffsets, Context.Size, Context.Numerator, Context.Denominator;
    FractionUnfolds(m, p, c, e);
    FractionUnfolds(m, p', c, e);
    var a, a', b, b' := Layout(m, p, c.Numerator(), e.over), Layout(m, p', c.Numerator(), e.over),
      Layout(m, p, c.Denominator(), e.under), Layout(m, p', c.Denominator(), e.under);
    var size, theta := c.Size(), 0.015 * LayoutInch(p);
    FractionMeasures(m, p, p', size, c.level, a', b', theta, e.Fraction?);
    hide FaceBlind, Alike, Stable, Faces;
    FacesAreStable();
    FractionReplaced(Faces(), m, p.face, size, c.level, a, a', b, b, theta, e.Fraction?);
    FractionReplaced(Faces(), m, p.face, size, c.level, a', a', b, b', theta, e.Fraction?);
    FacesTwice(FractionBox(m, p.face, size, c.level, a, b, theta, e.Fraction?), FractionBox(m, p.face, size, c.level, a', b, theta, e.Fraction?),
               FractionBox(m, p.face, size, c.level, a', b', theta, e.Fraction?));
  }

  lemma FractionMeasures(m: Fonts, p: Params, p': Params, size: real, level: nat, a: Box, b: Box, theta: real, rule: bool)
    requires FaceBlind(m)
    ensures FractionBox(m, p.face, size, level, a, b, theta, rule) == FractionBox(m, p'.face, size, level, a, b, theta, rule)
  {
    hide FaceBlind, Stacked, FractionShifts;
    Blind(m, "+", size, p.face, p'.face);
    Blind(m, "X", size, p.face, p'.face);
    Blind(m, "0", size, p.face, p'.face);
    Blind(m, "g", size, p.face, p'.face);
    assert FractionOffsets(m, p.face, size, level, a, b, theta) == FractionOffsets(m, p'.face, size, level, a, b, theta);
  }

  /** A box, or both missing. */
  ghost predicate AlikeParts(b: Option<Box>, b': Option<Box>) {
    (b.Some? <==> b'.Some?) && (b.Some? ==> AlikeButFaces(b.value, b'.value))
  }

  lemma ScriptFaces(m: Fonts, p: Params, p': Params, c: Context, e: MathExpr)
    requires FaceBlind(m) && SameSlant(p, p') && e.Scripts?
    requires AlikeButFaces(Layout(m, p, c, e.base), Layout(m, p', c, e.base))
    requires AlikeParts(SupOf(m, p, c, e), SupOf(m, p', c, e)) && AlikeParts(SubOf(m, p, c, e), SubOf(m, p', c, e))
    ensures AlikeButFaces(Layout(m, p, c, e), Layout(m, p', c, e))
  {
    hide Layout, ScriptsBox, ShiftsOf, SupOf, SubOf, Context.Script, Context.Size;
    ScriptsUnfold(m, p, c, e);
    ScriptsUnfold(m, p', c, e);
    ShiftsAgree(m, p, p', c, e);
    hide FaceBlind;
    var shifts := ShiftsOf(m, p, c, e);
    ThreeAlike(Layout(m, p, c, e.base), Layout(m, p', c, e.base), SupOf(m, p, c, e), SupOf(m, p', c, e),
               SubOf(m, p, c, e), SubOf(m, p', c, e), shifts.0, shifts.1);
  }

  lemma ShiftsAgree(m: Fonts, p: Params, p': Params, c: Context, e: MathExpr)
    requires FaceBlind(m) && SameSlant(p, p') && e.Scripts?
    requires AlikeButFaces(Layout(m, p, c, e.base), Layout(m, p', c, e.base))
    requires AlikeParts(SupOf(m, p, c, e), SupOf(m, p', c, e)) && AlikeParts(SubOf(m, p, c, e), SubOf(m, p', c, e))
    ensures ShiftsOf(m, p, c, e) == ShiftsOf(m, p', c, e)
  {
    hide Layout, SupOf, SubOf, Context.Script, Context.Size, Faces, FaceBlind;
    var base, base', upper, upper', lower, lower' := Layout(m, p, c, e.base), Layout(m, p', c, e.base),
      SupOf(m, p, c, e), SupOf(m, p', c, e), SubOf(m, p, c, e), SubOf(m, p', c, e);
    ShiftsMeasure(m, p, p', c, base, upper, lower);
    Blind(m, "x", c.Size(), p.face, p'.face);
    ShiftsOfExtents(m, p'.face, c, base, base', upper, upper', lower, lower');
    hide ScriptShifts, AlikeButFaces;
    assert FirstShifts(m, p, c, e) == FirstShifts(m, p', c, e);
    ApartOfExtents(FirstShifts(m, p, c, e), upper, upper', lower, lower', m.math("x", c.Size(), p.face).ascent, LeastGap(p));
  }

  lemma ShiftsMeasure(m: Fonts, p: Params, p': Params, c: Context, base: Box, upper: Option<Box>, lower: Option<Box>)
    requires FaceBlind(m)
    ensures ScriptShifts(m, p.face, c, base, upper, lower) == ScriptShifts(m, p'.face, c, base, upper, lower)
  {
    hide FaceBlind, Context.Size, Context.Script;
    Blind(m, "x", c.Size(), p.face, p'.face);
    Blind(m, "X", c.Size(), p.face, p'.face);
    Blind(m, "x", c.Script(true).Size(), p.face, p'.face);
  }

  lemma ShiftsOfExtents(m: Fonts, face: Face, c: Context, base: Box, base': Box, upper: Option<Box>, upper': Option<Box>, lower: Option<Box>, lower': Option<Box>)
    requires AlikeButFaces(base, base') && AlikeParts(upper, upper') && AlikeParts(lower, lower')
    ensures ScriptShifts(m, face, c, base, upper, lower) == ScriptShifts(m, face, c, base', upper', lower')
  {
    hide Context.Size, Context.Script, Faces;
  }

  lemma ApartOfExtents(first: (real, real), upper: Option<Box>, upper': Option<Box>, lower: Option<Box>, lower': Option<Box>, xh: real, least: real)
    requires AlikeParts(upper, upper') && AlikeParts(lower, lower')
    ensures ScriptsApart(first.0, first.1, upper, lower, xh, least) == ScriptsApart(first.0, first.1, upper', lower', xh, least)
  {
    hide Faces;
  }

  lemma ThreeAlike(base: Box, base': Box, upper: Option<Box>, upper': Option<Box>, lower: Option<Box>, lower': Option<Box>, u: real, v: real)
    requires AlikeButFaces(base, base') && AlikeParts(upper, upper') && AlikeParts(lower, lower')
    ensures AlikeButFaces(ScriptsBox(base, upper, lower, u, v), ScriptsBox(base', upper', lower', u, v))
  {
    FacesAreStable();
    hide ScriptsBox, Alike, Faces, Stable;
    var R := Faces();
    var one, two := ScriptsBox(base', upper, lower, u, v), ScriptsBox(base', upper', lower, u, v);
    ScriptsReplaced(R, base, base', upper, upper, lower, lower, u, v);
    if upper.Some? {
      ScriptsReplaced(R, base', base', upper, upper', lower, lower, u, v);
    } else {
      FacesSelf(one);
    }
    if lower.Some? {
      ScriptsReplaced(R, base', base', upper', upper', lower, lower', u, v);
    } else {
      FacesSelf(two);
    }
    FacesTwice(ScriptsBox(base, upper, lower, u, v), one, two);
    FacesTwice(ScriptsBox(base, upper, lower, u, v), two, ScriptsBox(base', upper', lower', u, v));
  }

  lemma OperatorFaces(m: Fonts, p: Params, p': Params, c: Context, e: MathExpr)
    requires FaceBlind(m) && SameSlant(p, p') && e.DisplayOperator?
    requires AlikeButFaces(Layout(m, p, c, e.value), Layout(m, p', c, e.value))
    requires AlikeParts(SupOf(m, p, c, e), SupOf(m, p', c, e)) && AlikeParts(SubOf(m, p, c, e), SubOf(m, p', c, e))
    ensures AlikeButFaces(Layout(m, p, c, e), Layout(m, p', c, e))
  {
    hide Layout, LimitsBox, OperatorBox, OperatorWithBody, SupOf, SubOf, Context.Script, Context.Size, AlikeButFaces, AlikeParts;
    OperatorBlind(m, p, p', c, e);
    OperatorUnfolds(m, p, c, e);
    hide FaceBlind;
    OperatorsAlike(OperatorBox(m, e.symbol, p.face, c), Layout(m, p, c, e.value), Layout(m, p', c, e.value),
      SupOf(m, p, c, e), SupOf(m, p', c, e), SubOf(m, p, c, e), SubOf(m, p', c, e), e.symbol == "∫",
      m.math("M", c.Size(), p.face).width / 6.0, 0.15 * m.math("X", c.Size(), p.face).ascent);
  }

  lemma OperatorBlind(m: Fonts, p: Params, p': Params, c: Context, e: MathExpr)
    requires FaceBlind(m) && e.DisplayOperator?
    ensures Layout(m, p', c, e) == OperatorWithBody(
      LimitsBox(OperatorBox(m, e.symbol, p.face, c), SubOf(m, p', c, e), SupOf(m, p', c, e), e.symbol == "∫",
                m.math("M", c.Size(), p.face).width / 6.0, 0.15 * m.math("X", c.Size(), p.face).ascent),
      Layout(m, p', c, e.value))
  {
    hide FaceBlind, Layout, LimitsBox, OperatorBox, OperatorWithBody, SupOf, SubOf, Context.Script, Context.Size;
    OperatorsMeasure(m, p, p', c, e.symbol);
    Blind(m, "M", c.Size(), p.face, p'.face);
    Blind(m, "X", c.Size(), p.face, p'.face);
    OperatorUnfolds(m, p', c, e);
  }

  lemma OperatorsMeasure(m: Fonts, p: Params, p': Params, c: Context, symbol: string)
    requires FaceBlind(m)
    ensures OperatorBox(m, symbol, p.face, c) == OperatorBox(m, symbol, p'.face, c)
  {
    Blind(m, "+", c.Size(), p.face, p'.face);
    hide FaceBlind, TextBox, Magnified, Appended;
  }

  lemma OperatorsAlike(op: Box, body: Box, body': Box, upper: Option<Box>, upper': Option<Box>, lower: Option<Box>, lower': Option<Box>,
                       integral: bool, thin: real, space: real)
    requires AlikeButFaces(body, body') && AlikeParts(upper, upper') && AlikeParts(lower, lower')
    ensures AlikeButFaces(OperatorWithBody(LimitsBox(op, lower, upper, integral, thin, space), body),
                          OperatorWithBody(LimitsBox(op, lower', upper', integral, thin, space), body'))
  {
    FacesAreStable();
    hide LimitsBox, OperatorWithBody, Alike, Faces, Stable;
    var R := Faces();
    var zero, one := OperatorWithBody(LimitsBox(op, lower, upper, integral, thin, space), body), OperatorWithBody(LimitsBox(op, lower, upper, integral, thin, space), body');
    var two, three := OperatorWithBody(LimitsBox(op, lower, upper', integral, thin, space), body'), OperatorWithBody(LimitsBox(op, lower', upper', integral, thin, space), body');
    OperatorReplaced(R, op, body, body', upper, upper, lower, lower, integral, thin, space);
    if upper.Some? {
      OperatorReplaced(R, op, body', body', upper, upper', lower, lower, integral, thin, space);
    } else {
      FacesSelf(one);
    }
    if lower.Some? {
      OperatorReplaced(R, op, body', body', upper', upper', lower, lower', integral, thin, space);
    } else {
      FacesSelf(two);
    }
    FacesTwice(zero, one, two);
    FacesTwice(zero, two, three);
  }

  lemma SingleFaces(m: Fonts, p: Params, p': Params, c: Context, e: MathExpr)
    requires FaceBlind(m) && SameSlant(p, p')
    requires e.Radical? || e.Accent? || e.Underline? || e.WideAccent? || e.Phantom? || e.BGroup?
    requires AlikeButFaces(Layout(m, p, ContextOf(e, c, 0), e.value), Layout(m, p', ContextOf(e, c, 0), e.value))
    ensures AlikeButFaces(Layout(m, p, c, e), Layout(m, p', c, e))
  {
    var body, body' := Layout(m, p, ContextOf(e, c, 0), e.value), Layout(m, p', ContextOf(e, c, 0), e.value);
    if e.Accent? {
      AccentFaces(m, p, p', c, e);
    } else if e.Radical? {
      RadicalFaces(m, p, p', c, e);
    } else if e.BGroup? {
      GroupFaces(m, p, p', c, e);
    } else if e.Phantom? {
      hide FaceBlind;
    } else {
      FacesAreStable();
      hide FaceBlind, Stable, Faces, UnderlineBox, WideAccentBox, Context.Size;
      MarkedReplaced(Faces(), body, body', c.Size(), e.WideAccent? && e.accent == "tilde");
    }
  }

  lemma RadicalFaces(m: Fonts, p: Params, p': Params, c: Context, e: MathExpr)
    requires FaceBlind(m) && e.Radical? && AlikeButFaces(Layout(m, p, c.Prime(), e.value), Layout(m, p', c.Prime(), e.value))
    ensures AlikeButFaces(Layout(m, p, c, e), Layout(m, p', c, e))
  {
    hide FaceBlind, Stable, Faces, Alike, RadicalBox, Context.Size;
    FacesAreStable();
    var size := c.Size();
    Blind(m, "X", size, p.face, p'.face);
    Blind(m, "x", size, p.face, p'.face);
    Blind(m, "M", size, p.face, p'.face);
    RadicalReplaced(Faces(), Layout(m, p, c.Prime(), e.value), Layout(m, p', c.Prime(), e.value),
      m.math("X", size, p.face).ascent, m.math("x", size, p.face).ascent, 0.05555556 * m.textWidth("M", size, p.face));
  }

  lemma GroupFaces(m: Fonts, p: Params, p': Params, c: Context, e: MathExpr)
    requires FaceBlind(m) && e.BGroup? && AlikeButFaces(Layout(m, p, c, e.value), Layout(m, p', c, e.value))
    ensures AlikeButFaces(Layout(m, p, c, e), Layout(m, p', c, e))
  {
    hide FaceBlind, Layout, GroupBox, DelimiterBox, Context.Size, Alike, GroupReach;
    var size := c.Size();
    Blind(m, "+", size, p.face, p'.face);
    Blind(m, "x", size, p.face, p'.face);
    GroupUnfolds(m, p, c, e);
    GroupUnfolds(m, p', c, e);
    hide Stable, Faces;
    FacesAreStable();
    GroupsAlike(Faces(), m, e.left, e.right, size, Layout(m, p, c, e.value), Layout(m, p', c, e.value), m.math("+", size, p.face).ascent / 2.0, m.math("x", size, p.face).ascent);
  }

  lemma AccentFaces(m: Fonts, p: Params, p': Params, c: Context, e: MathExpr)
    requires FaceBlind(m) && SameSlant(p, p') && e.Accent?
    requires AlikeButFaces(Layout(m, p, c, e.value), Layout(m, p', c, e.value))
    ensures AlikeButFaces(Layout(m, p, c, e), Layout(m, p', c, e))
  {
    hide FaceBlind, Stable, Faces, AccentBox, MacronBox, TextBox, Context.Size;
    FacesAreStable();
    var size, body, body' := c.Size(), Layout(m, p, c, e.value), Layout(m, p', c, e.value);
    TextsAlike(m, e.accent, p.face, p'.face, size);
    Blind(m, "X", size, p.face, p'.face);
    if e.accent == "¯" {
      MacronReplaced(Faces(), body, body', size);
    } else {
      var mark, mark', cap := TextBox(m, e.accent, p.face, size), TextBox(m, e.accent, p'.face, size), m.math("X", size, p.face).ascent;
      AccentReplaced(Faces(), body, body', mark, cap);
      AccentMarkReplaced(body', mark, mark', cap);
      FacesTwice(AccentBox(body, mark, cap), AccentBox(body', mark, cap), AccentBox(body', mark', cap));
    }
  }

  lemma AccentMarkReplaced(body: Box, mark: Box, mark': Box, cap: real)
    requires AlikeButFaces(mark, mark') && Stable(Faces())
    ensures AlikeButFaces(AccentBox(body, mark, cap), AccentBox(body, mark', cap))
  {
    hide Stable, Appended, Faces;
    var width := Max(body.width + body.italic, mark.width);
    var x := (width - mark.width) / 2.0 + 0.9 * body.italic;
    var out := Appended(Empty(Max(width, x + mark.width)), body, (width - body.width) / 2.0, 0.0);
    AppendedBoth(Faces(), out, mark, mark', x, -body.ascent - mark.descent - 0.1 * cap);
  }

  /** With a font whose faces measure alike, a style of the same slant changes nothing but the faces of texts. */
  lemma StyleChangesFaces(m: Fonts, p: Params, c: Context, e: MathExpr, face: Face)
    requires FaceBlind(m) && face.IsItalic() == p.face.IsItalic()
    ensures AlikeButFaces(Layout(m, p, c, e), Layout(m, p, c, Style(e, face)))
  {
    FacesOnly(m, p, p.(face := face), c, e);
  }

  /** A style of the face already in force changes nothing, and an inner style takes precedence. */
  lemma InnerStyleCounts(m: Fonts, p: Params, c: Context, e: MathExpr, face: Face, outer: Face)
    ensures Layout(m, p, c, Style(e, p.face)) == Layout(m, p, c, e)
    ensures Layout(m, p, c, Style(Style(e, face), outer)) == Layout(m, p, c, Style(e, face))
  {
    assert p.(face := p.face) == p;
  }
}
