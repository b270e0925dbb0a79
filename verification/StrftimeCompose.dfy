/** When formats compose, exactly: a format whose last directive is read to its end cannot be followed
  by every other. */
module StrftimeCompose {
  import opened Wrappers
  import opened Decimal
  import opened YearText
  import opened Strftime
  import opened StrftimeText

  // -------------------------------------------------------------------------
  // Ends of texts
  // -------------------------------------------------------------------------

  predicate EndsInDigit(s: string) {
    s != "" && IsDigit(s[|s| - 1])
  }

  lemma NumberEndsInDigit(n: int, c: Conversion)
    ensures EndsInDigit(ConvText(n, c))
  {
    var digits := Show(if n < 0 then -n else n);
    var text := ConvText(n, c);
    hide Show, ConvText;
    assert EndsInDigit(digits);
    LastOfNumber(n, c);
  }

  lemma LastOfNumber(n: int, c: Conversion)
    ensures ConvText(n, c) != "" && ConvText(n, c)[|ConvText(n, c)| - 1] == Show(if n < 0 then -n else n)[|Show(if n < 0 then -n else n)| - 1]
  {
    hide Show;
  }

  lemma YearEndsInDigit(tm: Tm, env: Env, pad: char, width: int)
    ensures EndsInDigit(YearDirective(tm, env, pad, width))
  {
    hide ConvText, ParseConversion, YearFormat;
    var year := 1900 + tm.year;
    NumberEndsInDigit(year, ParseConversion(YearFormat('0', 4, year)));
    NumberEndsInDigit(year, ParseConversion(YearFormat(pad, width, year)));
  }

  lemma NotBoth(s: string, t: string)
    requires EndsInDigit(s)
    ensures s != t + "Y"
  {
    assert (t + "Y")[|t|] == 'Y';
  }

  lemma SameTail(a: string, b: string, c: string)
    requires a + b == a + c
    ensures b == c
  {
    assert b == (a + b)[|a|..] && c == (a + c)[|a|..];
  }

  lemma WeekdayLetter(i: int)
    ensures var name := Name(ABDAY_NAMES, i);
      name != "" && name[0] != '\0' && !IsDigit(name[0]) && name[0] != '_'
  {
  }

  lemma FirstUntilNul(s: string)
    requires s != "" && s[0] != '\0'
    ensures UntilNul(s) != "" && UntilNul(s)[0] == s[0]
  {
  }

  lemma WeekdayText(tm: Tm, env: Env)
    ensures Expand(['%', 'a'], tm, env) == UntilNul(Name(ABDAY_NAMES, tm.wday))
  {
    hide Expand, UntilNul, ClosedFrom, Name;
    OneDirective('a', tm, env);
  }

  /** The text of %+ begins with a weekday. */
  lemma WeekdayFirst(tm: Tm, env: Env)
    ensures var text := Expand(Composite('+').value, tm, env); text != "" && !IsDigit(text[0]) && text[0] != '_'
  {
    hide Expand, UntilNul, Name;
    var rest := "%b %e %H:%M:%S %Z %Y";
    WeekdayLetter(tm.wday);
    FirstUntilNul(Name(ABDAY_NAMES, tm.wday));
    WeekdayText(tm, env);
    SimpleA();
    DirectiveThen('a', ' ', rest, tm, env);
    hide Composite;
    PlusFormat();
  }

  lemma SimpleA()
    ensures IsSimple('a')
  {
  }

  lemma PlusFormat()
    ensures Composite('+').Some? && Composite('+').value == ['%', 'a'] + ([' '] + "%b %e %H:%M:%S %Z %Y")
  {
    assert "%a %b %e %H:%M:%S %Z %Y" == ['%', 'a'] + ([' '] + "%b %e %H:%M:%S %Z %Y");
  }

  // -------------------------------------------------------------------------
  // Modifiers up to the end
  // -------------------------------------------------------------------------

  predicate IsModifier(c: char) {
    IsDigit(c) || c == '_' || c == '+'
  }

  /** From `i` on, a format consists of modifiers. */
  predicate Tail(f: string, i: nat) {
    i <= |f| && forall k :: i <= k < |f| ==> IsModifier(f[k])
  }

  lemma {:induction false} SkippedIsTail(f: string, i: nat)
    requires i <= |f|
    ensures SkipModifiers(f, i) == |f| <==> Tail(f, i)
    decreases |f| - i
  {
    if i < |f| && IsModifier(f[i]) {
      SkippedIsTail(f, i + 1);
      assert Tail(f, i) <==> Tail(f, i + 1);
    }
  }

  lemma {:induction false} PadWithinSkip(f: string, i: nat, pad: char)
    requires i <= |f|
    ensures ReadPad(f, i, pad).0 <= SkipModifiers(f, i) && SkipModifiers(f, ReadPad(f, i, pad).0) == SkipModifiers(f, i)
    decreases |f| - i
  {
    if i < |f| && (f[i] == '0' || f[i] == '+' || f[i] == '_') {
      PadWithinSkip(f, i + 1, f[i]);
    }
  }

  lemma {:induction false} WidthWithinSkip(f: string, i: nat, width: int)
    requires i <= |f|
    ensures ReadWidth(f, i, width).0 <= SkipModifiers(f, i)
    ensures ReadWidth(f, i, width).0 < |f| ==> !IsDigit(f[ReadWidth(f, i, width).0])
    decreases |f| - i
  {
    if i < |f| && IsDigit(f[i]) {
      WidthWithinSkip(f, i + 1, AddDigit(width, DigitValue(f[i])));
    }
  }

  /** Modifiers are never read beyond the character that ends them. */
  lemma NextWithinSkip(f: string, i: nat)
    requires i < |f|
    ensures ReadModifiers(f, i).next <= SkipModifiers(f, i + 1)
  {
    hide SkipModifiers, ReadPad, ReadWidth;
    PadWithinSkip(f, i + 1, '\0');
    WidthWithinSkip(f, ReadPad(f, i + 1, '\0').0, 0);
  }

  lemma {:induction false} PadStops(f: string, i: nat, pad: char)
    requires i <= |f|
    ensures var j := ReadPad(f, i, pad).0;
      && (j < |f| ==> f[j] != '0' && f[j] != '+' && f[j] != '_')
      && (i < |f| && (f[i] == '0' || f[i] == '+' || f[i] == '_') ==> j > i)
    decreases |f| - i
  {
    if i < |f| && (f[i] == '0' || f[i] == '+' || f[i] == '_') {
      PadStops(f, i + 1, f[i]);
    }
  }

  lemma WidthStarts(f: string, i: nat, width: int)
    requires i < |f| && IsDigit(f[i])
    ensures ReadWidth(f, i, width).0 > i
  {
  }

  /** A tail of modifiers in front of 'Y': at least one is read, and reading stops at the 'Y', or at a '_'
      or '+' behind a digit. */
  lemma TailRead(h: string, i: nat)
    requires i + 1 < |h| && h[|h| - 1] == 'Y' && Tail(h[..|h| - 1], i + 1)
    ensures var k := ReadModifiers(h, i).next;
      && i + 1 <= k < |h| && (i + 2 < |h| ==> k >= i + 2)
      && (k == |h| - 1 || h[k] == '_' || h[k] == '+')
  {
    var n := |h| - 1;
    assert forall k :: i + 1 <= k < n ==> IsModifier(h[k]) by {
      assert forall k :: 0 <= k < n ==> h[..n][k] == h[k];
    }
    SkipToYear(h, i + 1);
    hide SkipModifiers, ReadPad, ReadWidth;
    NextWithinSkip(h, i);
    PadStops(h, i + 1, '\0');
    var j := ReadPad(h, i + 1, '\0').0;
    PadWithinSkip(h, i + 1, '\0');
    if j < |h| && IsDigit(h[j]) {
      WidthStarts(h, j, 0);
      WidthWithinSkip(h, j, 0);
    }
  }

  lemma {:induction false} SkipToYear(h: string, i: nat)
    requires i < |h| && h[|h| - 1] == 'Y' && forall k :: i <= k < |h| - 1 ==> IsModifier(h[k])
    ensures SkipModifiers(h, i) == |h| - 1
    decreases |h| - i
  {
    if i < |h| - 1 {
      SkipToYear(h, i + 1);
    }
  }

  /** Modifiers without a directive stand for themselves. */
  lemma {:induction false} LiteralTail(f: string, i: nat, tm: Tm, env: Env)
    requires i <= |f| && forall k :: i <= k < |f| ==> f[k] != '%'
    ensures ExpandFrom(f, i, tm, env) == f[i..]
    decreases |f| - i
  {
    if i < |f| {
      LiteralTail(f, i + 1, tm, env);
      assert f[i..] == [f[i]] + f[i + 1..];
    }
  }

  /** What a modifier stands for where a directive is expected. */
  function Lone(c: char, tm: Tm, env: Env): string {
    if c == '+' then Expand(Composite('+').value, tm, env) else [c]
  }

  lemma ModifierAt(f: string, i: nat, tm: Tm, env: Env)
    requires i < |f| && f[i] == '%'
    requires ReadModifiers(f, i).next < |f| && IsModifier(f[ReadModifiers(f, i).next])
    ensures Directive(f, i, tm, env) == (Lone(f[ReadModifiers(f, i).next], tm, env), ReadModifiers(f, i).next + 1)
  {
    var m := ReadModifiers(f, i);
    var c := f[m.next];
    ModifierIsSimple(c, tm, env, m.pad, m.width);
    hide ReadModifiers, Rank, Expand, Simple, UntilNul;
  }

  lemma ModifierIsSimple(c: char, tm: Tm, env: Env, pad: char, width: int)
    requires IsModifier(c)
    ensures c != '\0' && c != 'E' && c != 'O'
    ensures if c == '+' then Composite(c).Some? else Composite(c).None? && UntilNul(Simple(c, tm, env, pad, width)) == [c]
  {
    if c != '+' {
      UntilNulOfClean([c]);
      hide UntilNul;
      assert Simple(c, tm, env, pad, width) == [c];
    }
  }

  // -------------------------------------------------------------------------
  // Open formats
  // -------------------------------------------------------------------------

  /** "%E" and "%O" stand for nothing, but in front of 'Y' they are the year. */
  lemma LocaleOpens(f: string, i: nat, tm: Tm, env: Env)
    requires i < |f| && f[i] == '%' && SkipModifiers(f, i + 1) < |f| && !ClosedAt(f, i)
    ensures ExpandFrom(f + "Y", i, tm, env) != ExpandFrom(f, i, tm, env) + "Y"
  {
    hide SkipModifiers, ReadModifiers, Directive;
    NextWithinSkip(f, i);
    var m, h := ReadModifiers(f, i), f + "Y";
    ModifiersInFront(f, "Y", i);
    assert m.next == |f| - 1 && (f[m.next] == 'E' || f[m.next] == 'O');
    assert h[i] == '%' && h[m.next] == f[m.next] && h[m.next + 1] == 'Y';
    LocaleAtEnd(f, i, tm, env);
    LocaleBeforeYear(h, i, tm, env);
    PlainYear(tm, env);
    assert ExpandFrom(f, |f|, tm, env) == "" && ExpandFrom(h, |h|, tm, env) == "";
    var year := Expand(['%', 'Y'], tm, env);
    assert ExpandFrom(h, i, tm, env) == year + "" == year;
    NotBoth(year, "" + "");
  }

  lemma LocaleAtEnd(f: string, i: nat, tm: Tm, env: Env)
    requires i < |f| && f[i] == '%' && ReadModifiers(f, i).next == |f| - 1 && (f[|f| - 1] == 'E' || f[|f| - 1] == 'O')
    ensures Directive(f, i, tm, env) == ("", |f|)
  {
    hide ReadModifiers, Rank, Expand, Simple, UntilNul, Composite;
  }

  lemma LocaleBeforeYear(h: string, i: nat, tm: Tm, env: Env)
    requires i < |h| && h[i] == '%' && ReadModifiers(h, i).next == |h| - 2
    requires (h[|h| - 2] == 'E' || h[|h| - 2] == 'O') && h[|h| - 1] == 'Y'
    ensures Directive(h, i, tm, env) == (Expand(['%', 'Y'], tm, env), |h|)
  {
    hide ReadModifiers, Rank, Expand, Simple, UntilNul, Composite;
  }

  lemma PlainYear(tm: Tm, env: Env)
    ensures EndsInDigit(Expand(['%', 'Y'], tm, env))
  {
    BareModifiers('Y');
    hide ReadModifiers, Expand, YearDirective;
    YearAlone(['%', 'Y'], tm, env);
    YearEndsInDigit(tm, env, '\0', -1);
  }

  /** A '%' with modifiers and nothing else: in front of 'Y' they are read as padding and width. */
  lemma TailOpens(f: string, i: nat, tm: Tm, env: Env)
    requires i < |f| && f[i] == '%' && Tail(f, i + 1)
    ensures ExpandFrom(f + "Y", i, tm, env) != ExpandFrom(f, i, tm, env) + "Y"
  {
    hide ExpandFrom, Directive, ReadModifiers, Expand;
    var h := f + "Y";
    assert h[..|h| - 1] == f && h[i] == '%' && h[|f|] == 'Y';
    TailRead(h, i);
    var k := ReadModifiers(h, i).next;
    if k == |f| {
      YearOpens(f, h, i, tm, env);
    } else {
      RestOpens(f, h, i, k, tm, env);
    }
  }

  lemma YearOpens(f: string, h: string, i: nat, tm: Tm, env: Env)
    requires i < |f| && h == f + "Y" && h[i] == '%' && ReadModifiers(h, i).next == |f|
    ensures ExpandFrom(h, i, tm, env) != ExpandFrom(f, i, tm, env) + "Y"
  {
    hide Directive, ReadModifiers, YearDirective;
    var m := ReadModifiers(h, i);
    YearAt(h, i, tm, env);
    YearEndsInDigit(tm, env, m.pad, m.width);
    var year := YearDirective(tm, env, m.pad, m.width);
    assert ExpandFrom(h, |h|, tm, env) == "";
    assert year + "" == year;
    var text := ExpandFrom(f, i, tm, env);
    hide ExpandFrom;
    NotBoth(year, text);
  }

  /** The text of a tail: its first character as a directive, and the others as they are. */
  lemma TailText(f: string, i: nat, tm: Tm, env: Env)
    requires i + 1 < |f| && f[i] == '%' && Tail(f, i + 1)
    ensures ExpandFrom(f, i, tm, env) == Lone(f[i + 1], tm, env) + f[i + 2..]
  {
    hide Directive, SkipModifiers, ReadPad, ReadWidth, Lone;
    SkippedIsTail(f, i + 1);
    assert ReadModifiers(f, i) == Modifiers(i + 1, '\0', -1);
    ModifierAt(f, i, tm, env);
    LiteralTail(f, i + 2, tm, env);
  }

  lemma RestText(h: string, i: nat, k: nat, tm: Tm, env: Env)
    requires i < k < |h| && h[i] == '%' && ReadModifiers(h, i).next == k && IsModifier(h[k])
    requires forall j :: k < j < |h| ==> h[j] != '%'
    ensures ExpandFrom(h, i, tm, env) == Lone(h[k], tm, env) + h[k + 1..]
  {
    hide Directive, ReadModifiers, Lone;
    ModifierAt(h, i, tm, env);
    LiteralTail(h, k + 1, tm, env);
  }

  lemma RestOpens(f: string, h: string, i: nat, k: nat, tm: Tm, env: Env)
    requires i < |f| && f[i] == '%' && Tail(f, i + 1) && h == f + "Y"
    requires ReadModifiers(h, i).next == k && i + 2 <= k < |f| && (h[k] == '_' || h[k] == '+')
    ensures ExpandFrom(h, i, tm, env) != ExpandFrom(f, i, tm, env) + "Y"
  {
    assert forall j :: k < j < |f| ==> IsModifier(f[j]) && h[j] == f[j];
    assert h[|f|] == 'Y' && h[k] == f[k] && h[i] == '%';
    hide ExpandFrom, ReadModifiers;
    TailText(f, i, tm, env);
    RestText(h, i, k, tm, env);
    WeekdayFirst(tm, env);
    hide Expand;
    assert h[k + 1..] == f[k + 1..] + "Y";
    DifferentTails(f, i, k, Lone(f[i + 1], tm, env), Lone(f[k], tm, env), Lone('+', tm, env));
  }

  /** The two texts differ in length, or in their first character. */
  lemma DifferentTails(f: string, i: nat, k: nat, first: string, later: string, weekday: string)
    requires i + 2 <= k < |f| && IsModifier(f[i + 1]) && (f[k] == '_' || f[k] == '+')
    requires weekday != "" && !IsDigit(weekday[0]) && weekday[0] != '_'
    requires first == if f[i + 1] == '+' then weekday else [f[i + 1]]
    requires later == if f[k] == '+' then weekday else ['_']
    ensures later + (f[k + 1..] + "Y") != first + f[i + 2..] + "Y"
  {
    var a, b := later + (f[k + 1..] + "Y"), first + f[i + 2..] + "Y";
    if f[k] == '+' && f[i + 1] != '+' {
      assert a[0] == weekday[0] && b[0] == f[i + 1];
    } else {
      assert |a| < |b|;
    }
  }

  /** Behind a format that is not closed, a 'Y' is not just a 'Y'. */
  lemma {:induction false} OpenDiffers(f: string, i: nat, tm: Tm, env: Env)
    requires i <= |f| && !ClosedFrom(f, i)
    ensures ExpandFrom(f + "Y", i, tm, env) != ExpandFrom(f, i, tm, env) + "Y"
    decreases |f| - i
  {
    hide Directive, ClosedAt, Behind;
    var h := f + "Y";
    if f[i] != '%' {
      OpenDiffers(f, i + 1, tm, env);
      PrefixDiffers([f[i]], ExpandFrom(h, i + 1, tm, env), ExpandFrom(f, i + 1, tm, env));
    } else if ClosedAt(f, i) {
      DirectiveInFront(f, "Y", i, tm, env);
      var next := Behind(f, i);
      OpenDiffers(f, next, tm, env);
      PrefixDiffers(Directive(f, i, tm, env).0, ExpandFrom(h, next, tm, env), ExpandFrom(f, next, tm, env));
    } else if SkipModifiers(f, i + 1) < |f| {
      LocaleOpens(f, i, tm, env);
    } else {
      SkippedIsTail(f, i + 1);
      TailOpens(f, i, tm, env);
    }
  }

  lemma PrefixDiffers(a: string, b: string, c: string)
    requires b != c + "Y"
    ensures a + b != a + c + "Y"
  {
    Associate(a, c, "Y");
    if a + b == a + c + "Y" {
      SameTail(a, b, c + "Y");
    }
  }

  /** A format is closed if and only if a 'Y' behind it is just a 'Y', at any one time. */
  lemma ClosedIff(f: string, tm: Tm, env: Env)
    ensures ClosedFrom(f, 0) <==> Expand(f + "Y", tm, env) == Expand(f, tm, env) + "Y"
  {
    if ClosedFrom(f, 0) {
      hide Expand, ClosedFrom;
      FormatsCompose(f, "Y", tm, env);
      OneCharacter('Y', tm, env);
    } else {
      hide ExpandFrom, ClosedFrom;
      OpenDiffers(f, 0, tm, env);
    }
  }

  /** So a format can be followed by every other, the texts simply joined, if and only if it is closed. */
  lemma ComposesIff(f: string, tm: Tm, env: Env)
    ensures ClosedFrom(f, 0) <==> forall g :: Expand(f + g, tm, env) == Expand(f, tm, env) + Expand(g, tm, env)
  {
    hide Expand, ClosedFrom;
    ClosedIff(f, tm, env);
    OneCharacter('Y', tm, env);
    if ClosedFrom(f, 0) {
      forall g ensures Expand(f + g, tm, env) == Expand(f, tm, env) + Expand(g, tm, env) {
        FormatsCompose(f, g, tm, env);
      }
    } else {
      assert Expand(f + "Y", tm, env) != Expand(f, tm, env) + Expand("Y", tm, env);
    }
  }

  /** "%5" alone stands for "5", but in front of 'Y' the digit becomes a width. */
  lemma WidthNeedsItsDirective(tm: Tm, env: Env)
    ensures !ClosedFrom("%5", 0) && Expand("%5", tm, env) == "5"
    ensures Expand("%5" + "Y", tm, env) != "5" + "Y"
  {
    assert Tail("%5", 1);
    TailText("%5", 0, tm, env);
    assert "5" + "%5"[2..] == "5";
    SkippedIsTail("%5", 1);
    hide Expand, ExpandFrom, SkipModifiers;
    ClosedIff("%5", tm, env);
  }
}
