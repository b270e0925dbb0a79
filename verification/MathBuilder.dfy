/** Layouts that grow in place, as the loops of `crates/r-graphics-engine/src/math.rs` build them, and
  what rows have in common with rows in rows. */
module MathBuilder {
  import opened Wrappers
  import opened MathLayout

  class Builder {
    var width: real
    var ascent: real
    var descent: real
    var marks: seq<Mark>
    var italic: real
    var simple: bool

    ghost function Value(): Box
      reads this
    {
      Box(width, ascent, descent, marks, italic, simple)
    }

    constructor (width: real, simple: bool)
      ensures Value() == Empty(width).(simple := simple)
    {
      this.width, ascent, descent, marks, italic, this.simple := width, 0.0, 0.0, [], 0.0, simple;
    }

    method Append(other: Box, x: real, y: real)
      modifies this
      ensures Value() == Appended(old(Value()), other, x, y)
    {
      ascent := Max(ascent, other.ascent - y);
      descent := Max(descent, other.descent + y);
      for i := 0 to |other.marks|
        invariant marks == old(marks) + ShiftAll(other.marks, x, y)[..i]
        invariant Value() == Appended(old(Value()), other, x, y).(marks := marks)
      {
        marks := marks + [Shift(other.marks[i], x, y)];
      }
    }

    /** The step of the loops over rows and over characters. */
    method Advance(item: Box, correction: real)
      modifies this
      ensures Value() == AddItem(old(Value()), item.(italic := correction))
    {
      width := width + italic;
      italic := correction;
      Append(item, width, 0.0);
      width := width + item.width;
    }
  }

  lemma NoItems(out: Box)
    ensures RowFrom(out, []) == out
  {
  }

  lemma RowTakesNext(out: Box, items: seq<Box>, i: nat)
    requires i < |items|
    ensures RowFrom(out, items[..i + 1]) == AddItem(RowFrom(out, items[..i]), items[i])
  {
    RowOfMore(out, items[..i], items[i]);
    assert items[..i] + [items[i]] == items[..i + 1];
  }

  lemma {:induction false} RowOfMore(out: Box, items: seq<Box>, item: Box)
    ensures RowFrom(out, items + [item]) == AddItem(RowFrom(out, items), item)
    decreases |items|
  {
    hide AddItem;
    if items == [] {
      assert [item][1..] == [];
    } else {
      RowOfMore(AddItem(out, items[0]), items[1..], item);
      assert (items + [item])[1..] == items[1..] + [item];
    }
  }

  method LayoutRow(m: Fonts, p: Params, c: Context, values: seq<MathExpr>) returns (out: Builder)
    ensures fresh(out) && out.Value() == Layout(m, p, c, Row(values))
  {
    hide AddItem, RowFrom;
    out := new Builder(0.0, false);
    ghost var items := seq(|values|, i requires 0 <= i < |values| => Layout(m, p, c, values[i]));
    assert items[..0] == [];
    NoItems(Empty(0.0));
    for i := 0 to |values|
      invariant fresh(out) && out.Value() == RowFrom(Empty(0.0), items[..i])
    {
      var item := Layout(m, p, c, values[i]);
      out.Advance(item, item.italic);
      RowTakesNext(Empty(0.0), items, i);
    }
    assert items[..|values|] == items;
  }

  method LayoutVariable(m: Fonts, p: Params, c: Context, text: string) returns (out: Builder)
    ensures fresh(out) && out.Value() == Layout(m, p, c, Variable(text))
  {
    hide AddItem, RowFrom;
    var size := c.Size();
    out := new Builder(0.0, true);
    ghost var items := CharBoxes(m, text, p.face, size);
    ghost var start := Empty(0.0).(simple := true);
    assert items[..0] == [];
    NoItems(start);
    for i := 0 to |text|
      invariant fresh(out) && out.Value() == RowFrom(start, items[..i])
    {
      var face := CharFace(text[i], p.face);
      var item := TextBox(m, [text[i]], face, size);
      out.Advance(item, if face.IsItalic() then 0.15 * item.ascent else 0.0);
      RowTakesNext(start, items, i);
    }
    assert items[..|text|] == items;
  }

  method LayoutDelimiter(m: Fonts, symbol: string, size: real, axis: real, dist: real) returns (out: Builder)
    ensures fresh(out) && out.Value() == DelimiterBox(m, symbol, size, axis, dist)
  {
    hide Appended, ExtendFrom, Extensions;
    var p := Pieces(symbol);
    if p.None? {
      out := new Builder(0.0, false);
      return;
    }
    var top := TextBox(m, p.value.0, Plain, size);
    var bot := TextBox(m, p.value.2, Plain, size);
    var ext := TextBox(m, p.value.1, Plain, size);
    var reach := DelimiterReach(symbol, top, dist);
    var high := axis + reach - top.ascent - top.descent;
    var low := axis - reach + bot.ascent + bot.descent;
    out := new Builder(Max(top.width, bot.width), false);
    out.Append(top, 0.0, -(reach - top.ascent + axis));
    out.Append(bot, 0.0, reach - bot.descent - axis);
    var mid := MiddlePiece(m, symbol, size);
    if mid.Some? {
      out.Append(mid.value, 0.0, -(axis - (mid.value.ascent - mid.value.descent) / 2.0));
    }
    var n := Extensions(high - low, ext.ascent + ext.descent);
    Extend(out, ext, low, high, n);
  }

  method Extend(out: Builder, ext: Box, low: real, high: real, n: nat)
    modifies out
    ensures out.Value() == ExtendFrom(old(out.Value()), ext, low, high, 0, n)
  {
    hide Appended;
    for i := 0 to n
      invariant ExtendFrom(out.Value(), ext, low, high, i, n) == ExtendFrom(old(out.Value()), ext, low, high, 0, n)
    {
      var y := Center(low, high, i, n) - (ext.ascent - ext.descent) / 2.0;
      out.Append(ext, 0.0, -y);
    }
  }

  // -------------------------------------------------------------------------
  // Rows
  // -------------------------------------------------------------------------

  /** A variable is a row of its characters, the digits upright, except that a script treats it as a
      single symbol. */
  lemma VariableIsRow(m: Fonts, p: Params, c: Context, text: string)
    ensures var chars := seq(|text|, i requires 0 <= i < |text| => if '0' <= text[i] <= '9' then Upright([text[i]]) else Text([text[i]]));
      Layout(m, p, c, Variable(text)) == Layout(m, p, c, Row(chars)).(simple := true)
  {
    var chars := seq(|text|, i requires 0 <= i < |text| => if '0' <= text[i] <= '9' then Upright([text[i]]) else Text([text[i]]));
    var items := CharBoxes(m, text, p.face, c.Size());
    hide TextBox, RowFrom, Context.Size;
    assert seq(|chars|, i requires 0 <= i < |chars| => Layout(m, p, c, chars[i])) == items;
    SimpleStays(Empty(0.0), items);
  }

  lemma {:induction false} SimpleStays(out: Box, items: seq<Box>)
    ensures RowFrom(out.(simple := true), items) == RowFrom(out, items).(simple := true)
    decreases |items|
  {
    if items != [] {
      assert AddItem(out.(simple := true), items[0]) == AddItem(out, items[0]).(simple := true);
      hide AddItem;
      SimpleStays(AddItem(out, items[0]), items[1..]);
    }
  }

  lemma ShiftTwice(marks: seq<Mark>, x: real, y: real, x': real, y': real)
    ensures ShiftAll(ShiftAll(marks, x, y), x', y') == ShiftAll(marks, x + x', y + y')
  {
    forall i | 0 <= i < |marks| ensures Shift(Shift(marks[i], x, y), x', y') == Shift(marks[i], x + x', y + y') {
      OneShiftTwice(marks[i], x, y, x', y');
    }
  }

  lemma OneShiftTwice(mark: Mark, x: real, y: real, x': real, y': real)
    ensures Shift(Shift(mark, x, y), x', y') == Shift(mark, x + x', y + y')
  {
    if mark.Curve? {
      assert Shift(Shift(mark, x, y), x', y').points == Shift(mark, x + x', y + y').points;
    }
  }

  lemma ShiftJoins(a: seq<Mark>, b: seq<Mark>, x: real, y: real)
    ensures ShiftAll(a + b, x, y) == ShiftAll(a, x, y) + ShiftAll(b, x, y)
  {
  }

  /** A row as an item puts its own items where they would stand anyway. */
  lemma {:induction false} RowAsItem(out: Box, items: seq<Box>)
    requires items != [] && out.ascent >= 0.0 && out.descent >= 0.0
    ensures AddItem(out, RowFrom(Empty(0.0), items)) == RowFrom(out, items)
    decreases |items|
  {
    var n := |items| - 1;
    RowTakesNext(Empty(0.0), items, n);
    RowTakesNext(out, items, n);
    assert items[..n + 1] == items;
    if n == 0 {
      assert items[..0] == [];
      RowOfOne(out, items[0]);
    } else {
      RowAsItem(out, items[..n]);
      hide RowFrom;
      AddTwo(out, RowFrom(Empty(0.0), items[..n]), items[n]);
    }
  }

  lemma RowOfOne(out: Box, item: Box)
    requires out.ascent >= 0.0 && out.descent >= 0.0
    ensures AddItem(out, AddItem(Empty(0.0), item)) == AddItem(out, item)
  {
    ShiftTwice(item.marks, 0.0, 0.0, out.width + out.italic, 0.0);
    hide ShiftAll;
    assert [] + ShiftAll(item.marks, 0.0, 0.0) == ShiftAll(item.marks, 0.0, 0.0);
  }

  lemma AddTwo(out: Box, row: Box, item: Box)
    ensures AddItem(out, AddItem(row, item)) == AddItem(AddItem(out, row), item)
  {
    var x, r := out.width + out.italic, row.width + row.italic;
    ShiftTwice(item.marks, r, 0.0, x, 0.0);
    ShiftJoins(row.marks, ShiftAll(item.marks, r, 0.0), x, 0.0);
    hide ShiftAll;
    assert out.marks + (ShiftAll(row.marks, x, 0.0) + ShiftAll(item.marks, r + x, 0.0))
        == out.marks + ShiftAll(row.marks, x, 0.0) + ShiftAll(item.marks, r + x, 0.0);
  }

  lemma {:induction false} RowJoins(out: Box, a: seq<Box>, b: seq<Box>)
    ensures RowFrom(out, a + b) == RowFrom(RowFrom(out, a), b)
    decreases |a|
  {
    hide AddItem;
    if a == [] {
      assert a + b == b;
    } else {
      assert (a + b)[1..] == a[1..] + b;
      RowJoins(AddItem(out, a[0]), a[1..], b);
    }
  }

  lemma {:induction false} RowNotNegative(out: Box, items: seq<Box>)
    requires out.ascent >= 0.0 && out.descent >= 0.0
    ensures RowFrom(out, items).ascent >= 0.0 && RowFrom(out, items).descent >= 0.0
    decreases |items|
  {
    if items != [] {
      RowNotNegative(AddItem(out, items[0]), items[1..]);
    }
  }

  ghost function Layouts(m: Fonts, p: Params, c: Context, values: seq<MathExpr>): seq<Box> {
    seq(|values|, i requires 0 <= i < |values| => Layout(m, p, c, values[i]))
  }

  lemma RowLayout(m: Fonts, p: Params, c: Context, values: seq<MathExpr>)
    ensures Layout(m, p, c, Row(values)) == RowFrom(Empty(0.0), Layouts(m, p, c, values))
  {
    assert Layouts(m, p, c, values) == seq(|values|, i requires 0 <= i < |values| => Layout(m, p, c, values[i]));
  }

  /** Grouping some items of a row changes nothing, if there are any. */
  lemma RowsFlatten(m: Fonts, p: Params, c: Context, before: seq<MathExpr>, group: seq<MathExpr>, after: seq<MathExpr>)
    requires group != []
    ensures Layout(m, p, c, Row(before + [Row(group)] + after)) == Layout(m, p, c, Row(before + group + after))
  {
    RowLayout(m, p, c, before + [Row(group)] + after);
    RowLayout(m, p, c, before + group + after);
    RowLayout(m, p, c, group);
    hide RowFrom, Layout;
    var bs, gs, rs := Layouts(m, p, c, before), Layouts(m, p, c, group), Layouts(m, p, c, after);
    var g := RowFrom(Empty(0.0), gs);
    assert Layouts(m, p, c, before + [Row(group)] + after) == bs + [g] + rs;
    assert Layouts(m, p, c, before + group + after) == bs + gs + rs;
    var out := RowFrom(Empty(0.0), bs);
    RowJoins(Empty(0.0), bs + [g], rs);
    RowOfMore(Empty(0.0), bs, g);
    RowJoins(Empty(0.0), bs + gs, rs);
    RowJoins(Empty(0.0), bs, gs);
    RowNotNegative(Empty(0.0), bs);
    RowAsItem(out, gs);
  }

  /** An empty group turns the italic correction before it into width at once; the next item would have
      begun there anyway. */
  lemma EmptyGroup(out: Box)
    requires out.ascent >= 0.0 && out.descent >= 0.0
    ensures AddItem(out, RowFrom(Empty(0.0), [])) == out.(width := out.width + out.italic, italic := 0.0)
    ensures AddItem(out, RowFrom(Empty(0.0), [])) == out <==> out.italic == 0.0
    ensures forall item :: AddItem(AddItem(out, RowFrom(Empty(0.0), [])), item) == AddItem(out, item)
  {
    assert out.marks + ShiftAll([], out.width + out.italic, 0.0) == out.marks;
    forall item ensures AddItem(out.(width := out.width + out.italic, italic := 0.0), item) == AddItem(out, item) {
      hide ShiftAll;
    }
  }

  /** So an empty group at the end of a row is the only one that can be seen, and only behind an italic
      correction. */
  lemma EmptyGroupIff(m: Fonts, p: Params, c: Context, before: seq<MathExpr>, after: seq<MathExpr>)
    ensures Layout(m, p, c, Row(before + [Row([])] + after)) == Layout(m, p, c, Row(before + after))
      <==> after != [] || Layout(m, p, c, Row(before)).italic == 0.0
  {
    RowLayout(m, p, c, before + [Row([])] + after);
    RowLayout(m, p, c, before + after);
    RowLayout(m, p, c, before);
    RowLayout(m, p, c, []);
    hide RowFrom, Layout;
    var bs, rs := Layouts(m, p, c, before), Layouts(m, p, c, after);
    var out, g := RowFrom(Empty(0.0), bs), RowFrom(Empty(0.0), []);
    assert Layouts(m, p, c, []) == [];
    assert Layouts(m, p, c, before + [Row([])] + after) == bs + [g] + rs;
    assert Layouts(m, p, c, before + after) == bs + rs;
    RowJoins(Empty(0.0), bs + [g], rs);
    RowOfMore(Empty(0.0), bs, g);
    RowJoins(Empty(0.0), bs, rs);
    RowNotNegative(Empty(0.0), bs);
    EmptyGroup(out);
    SameFromNext(AddItem(out, g), out, rs);
  }

  lemma SameFromNext(a: Box, b: Box, items: seq<Box>)
    ensures items == [] ==> RowFrom(a, items) == a && RowFrom(b, items) == b
    ensures items != [] && AddItem(a, items[0]) == AddItem(b, items[0]) ==> RowFrom(a, items) == RowFrom(b, items)
  {
    hide AddItem;
  }

  /** Grouping items of a row, some or none, changes nothing, unless an empty group ends a row with an
      italic correction.  This is exact. */
  lemma GroupingIff(m: Fonts, p: Params, c: Context, before: seq<MathExpr>, group: seq<MathExpr>, after: seq<MathExpr>)
    ensures Layout(m, p, c, Row(before + [Row(group)] + after)) == Layout(m, p, c, Row(before + group + after))
      <==> group != [] || after != [] || Layout(m, p, c, Row(before)).italic == 0.0
  {
    if group != [] {
      RowsFlatten(m, p, c, before, group, after);
    } else {
      EmptyGroupIff(m, p, c, before, after);
      assert before + group + after == before + after;
    }
  }
}
