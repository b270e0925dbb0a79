/** Properties of the unlimited text of a format: how formats compose, what the locale modifiers
    do, and that no NUL byte gets into the text. */
module StrftimeText {
  import opened Wrappers
  import opened Decimal
  import opened Calendar
  import opened YearText
  import opened Strftime

  // -------------------------------------------------------------------------
  // Formats compose
  // -------------------------------------------------------------------------

  /** The directive at `i` is not read to the end of the format, so that what follows the format cannot
      change what it stands for. */
  ghost predicate ClosedAt(format: string, i: nat)
    requires i < |format|
  {
    var m := ReadModifiers(format, i);
    && SkipModifiers(format, i + 1) < |format|
    && m.next < |format|
    && ((format[m.next] == 'E' || format[m.next] == 'O') ==> m.next + 1 < |format|)
  }

  /** Where the format goes on behind that directive. */
  ghost function Behind(format: string, i: nat): (j: nat)
    requires i < |format| && ClosedAt(format, i)
    ensures i < j <= |format|
  {
    var m := ReadModifiers(format, i);
    if format[m.next] == '\0' then m.next
    else if format[m.next] == 'E' || format[m.next] == 'O' then m.next + 2
    else m.next + 1
  }

  /** So are all directives from position `i` on. */
  ghost predicate ClosedFrom(format: string, i: nat)
    requires i <= |format|
    decreases |format| - i
  {
    if i == |format| then true
    else if format[i] != '%' then ClosedFrom(format, i + 1)
    else ClosedAt(format, i) && ClosedFrom(format, Behind(format, i))
  }

  lemma {:induction false} SkipInFront(f: string, g: string, i: nat)
    requires i <= |f| && SkipModifiers(f, i) < |f|
    ensures SkipModifiers(f + g, i) == SkipModifiers(f, i)
    decreases |f| - i
  {
    if SkipModifiers(f, i) > i {
      SkipInFront(f, g, i + 1);
    }
  }

  lemma {:induction false} PadInFront(f: string, g: string, i: nat, pad: char)
    requires i <= |f| && ReadPad(f, i, pad).0 < |f|
    ensures ReadPad(f + g, i, pad) == ReadPad(f, i, pad)
    decreases |f| - i
  {
    if i < |f| && (f[i] == '0' || f[i] == '+' || f[i] == '_') {
      PadInFront(f, g, i + 1, f[i]);
    }
  }

  lemma {:induction false} WidthInFront(f: string, g: string, i: nat, width: int)
    requires i <= |f| && ReadWidth(f, i, width).0 < |f|
    ensures ReadWidth(f + g, i, width) == ReadWidth(f, i, width)
    decreases |f| - i
  {
    if i < |f| && IsDigit(f[i]) {
      WidthInFront(f, g, i + 1, AddDigit(width, DigitValue(f[i])));
    }
  }

  lemma ModifiersInFront(f: string, g: string, i: nat)
    requires i < |f| && SkipModifiers(f, i + 1) < |f| && ReadModifiers(f, i).next < |f|
    ensures ReadModifiers(f + g, i) == ReadModifiers(f, i)
  {
    hide SkipModifiers, ReadPad, ReadWidth;
    SkipInFront(f, g, i + 1);
    if f[SkipModifiers(f, i + 1)] == 'Y' {
      var (j, pad) := ReadPad(f, i + 1, '\0');
      if j < |f| {
        PadInFront(f, g, i + 1, '\0');
        if IsDigit(f[j]) {
          WidthInFront(f, g, j, 0);
        }
      }
    }
  }

  lemma {:induction false} SkipBehind(f: string, g: string, i: nat)
    requires i <= |g|
    ensures SkipModifiers(f + g, |f| + i) == |f| + SkipModifiers(g, i)
    decreases |g| - i
  {
    if i < |g| {
      SkipBehind(f, g, i + 1);
    }
  }

  lemma {:induction false} PadBehind(f: string, g: string, i: nat, pad: char)
    requires i <= |g|
    ensures ReadPad(f + g, |f| + i, pad) == (|f| + ReadPad(g, i, pad).0, ReadPad(g, i, pad).1)
    decreases |g| - i
  {
    if i < |g| {
      PadBehind(f, g, i + 1, g[i]);
    }
  }

  lemma {:induction false} WidthBehind(f: string, g: string, i: nat, width: int)
    requires i <= |g|
    ensures ReadWidth(f + g, |f| + i, width) == (|f| + ReadWidth(g, i, width).0, ReadWidth(g, i, width).1)
    decreases |g| - i
  {
    if i < |g| && IsDigit(g[i]) {
      WidthBehind(f, g, i + 1, AddDigit(width, DigitValue(g[i])));
    }
  }

  lemma ModifiersBehind(f: string, g: string, i: nat)
    requires i < |g|
    ensures ReadModifiers(f + g, |f| + i) ==
      var m := ReadModifiers(g, i); m.(next := |f| + m.next)
  {
    hide SkipModifiers, ReadPad, ReadWidth;
    SkipBehind(f, g, i + 1);
    PadBehind(f, g, i + 1, '\0');
    var (j, pad) := ReadPad(g, i + 1, '\0');
    WidthBehind(f, g, j, 0);
    assert forall k :: 0 <= k < |g| ==> (f + g)[|f| + k] == g[k];
  }

  lemma DirectiveBehind(f: string, g: string, i: nat, tm: Tm, env: Env)
    requires i < |g| && g[i] == '%'
    ensures (f + g)[|f| + i] == '%'
    ensures Directive(f + g, |f| + i, tm, env) == (Directive(g, i, tm, env).0, |f| + Directive(g, i, tm, env).1)
  {
    hide Directive, ReadModifiers;
    ModifiersBehind(f, g, i);
    var m := ReadModifiers(g, i);
    assert forall k :: 0 <= k < |g| ==> (f + g)[|f| + k] == g[k];
    SameDirective(f + g, |f| + i, g, i, tm, env);
  }

  /** A directive depends only on its modifiers and the two characters after them. */
  lemma SameDirective(f: string, j: nat, g: string, i: nat, tm: Tm, env: Env)
    requires i < |g| && g[i] == '%' && j < |f| && f[j] == '%' && |f| - j == |g| - i
    requires var m := ReadModifiers(g, i);
      && ReadModifiers(f, j) == m.(next := m.next - i + j)
      && (m.next < |g| ==> f[m.next - i + j] == g[m.next])
      && (m.next + 1 < |g| ==> f[m.next + 1 - i + j] == g[m.next + 1])
    ensures Directive(f, j, tm, env) == (Directive(g, i, tm, env).0, Directive(g, i, tm, env).1 - i + j)
  {
    hide ReadModifiers, Simple, Expand, Composite, UntilNul, Rank;
  }

  /** The text of the second part does not depend on what stands before it. */
  lemma {:induction false} ExpandBehind(f: string, g: string, i: nat, tm: Tm, env: Env)
    requires i <= |g|
    ensures ExpandFrom(f + g, |f| + i, tm, env) == ExpandFrom(g, i, tm, env)
    decreases |g| - i
  {
    hide Directive;
    if i < |g| {
      if g[i] != '%' {
        ExpandBehind(f, g, i + 1, tm, env);
      } else {
        DirectiveBehind(f, g, i, tm, env);
        ExpandBehind(f, g, Directive(g, i, tm, env).1, tm, env);
      }
    }
  }

  lemma DirectiveInFront(f: string, g: string, i: nat, tm: Tm, env: Env)
    requires i < |f| && f[i] == '%' && ClosedAt(f, i)
    ensures Directive(f + g, i, tm, env) == Directive(f, i, tm, env)
    ensures Directive(f, i, tm, env).1 == Behind(f, i)
  {
    hide ReadModifiers, SkipModifiers, Directive;
    ModifiersInFront(f, g, i);
    var m := ReadModifiers(f, i);
    assert (f + g)[i] == f[i] && (f + g)[m.next] == f[m.next];
    assert m.next + 1 < |f| ==> (f + g)[m.next + 1] == f[m.next + 1];
    ClosedDirective(f, f + g, i, tm, env);
  }

  lemma ClosedDirective(f: string, h: string, i: nat, tm: Tm, env: Env)
    requires i < |f| <= |h| && f[i] == '%' == h[i] && ClosedAt(f, i)
    requires ReadModifiers(h, i) == ReadModifiers(f, i)
    requires var m := ReadModifiers(f, i);
      && m.next < |f| && h[m.next] == f[m.next] && (m.next + 1 < |f| ==> h[m.next + 1] == f[m.next + 1])
    ensures Directive(h, i, tm, env) == Directive(f, i, tm, env)
    ensures Directive(f, i, tm, env).1 == Behind(f, i)
  {
    hide ReadModifiers, SkipModifiers, Simple, Expand, Composite, UntilNul, Rank;
  }

  lemma {:induction false} ExpandInFront(f: string, g: string, i: nat, tm: Tm, env: Env)
    requires i <= |f| && ClosedFrom(f, i)
    ensures ExpandFrom(f + g, i, tm, env) == ExpandFrom(f, i, tm, env) + ExpandFrom(f + g, |f|, tm, env)
    decreases |f| - i
  {
    hide Directive, ClosedAt, Behind;
    var rest := ExpandFrom(f + g, |f|, tm, env);
    if i == |f| {
      assert "" + rest == rest;
    } else if f[i] != '%' {
      ExpandInFront(f, g, i + 1, tm, env);
      Associate([f[i]], ExpandFrom(f, i + 1, tm, env), rest);
    } else {
      DirectiveInFront(f, g, i, tm, env);
      var (text, next) := Directive(f, i, tm, env);
      ExpandInFront(f, g, next, tm, env);
      Associate(text, ExpandFrom(f, next, tm, env), rest);
    }
  }

  /** A format that ends with a complete directive can be followed by any other: the texts are
      simply joined. */
  lemma FormatsCompose(f: string, g: string, tm: Tm, env: Env)
    requires ClosedFrom(f, 0)
    ensures Expand(f + g, tm, env) == Expand(f, tm, env) + Expand(g, tm, env)
  {
    hide ExpandFrom, ClosedFrom;
    ExpandInFront(f, g, 0, tm, env);
    ExpandBehind(f, g, 0, tm, env);
  }

  /** %E and %O have no effect of their own, except that they swallow each other. */
  lemma LocaleModifiersAreTransparent(modifier: char, c: char, tm: Tm, env: Env)
    requires modifier == 'E' || modifier == 'O'
    ensures Expand(['%', modifier, c], tm, env) == Expand(['%', c], tm, env)
    ensures c == 'E' || c == 'O' ==> Expand(['%', modifier, c], tm, env) == ""
  {
    var f, h := ['%', modifier, c], ['%', c];
    NoModifiers(f);
    assert Directive(f, 0, tm, env) == (Expand(h, tm, env), 3);
    assert ExpandFrom(f, 3, tm, env) == "";
    assert Expand(h, tm, env) + "" == Expand(h, tm, env);
    if c == 'E' || c == 'O' {
      NoModifiers(h);
      assert Directive(h, 0, tm, env) == ("", 2);
      assert ExpandFrom(h, 2, tm, env) == "";
    }
  }

  lemma NoModifiers(f: string)
    requires |f| > 1 && (f[1] == 'E' || f[1] == 'O')
    ensures ReadModifiers(f, 0) == Modifiers(1, '\0', -1)
  {
    assert SkipModifiers(f, 1) == 1;
  }

  // -------------------------------------------------------------------------
  // No NUL inside the text
  // -------------------------------------------------------------------------

  predicate Clean(s: string) {
    forall i :: 0 <= i < |s| ==> s[i] != '\0'
  }

  lemma {:induction false} UntilNulIsClean(s: string)
    ensures Clean(UntilNul(s))
  {
    if s != "" && s[0] != '\0' {
      UntilNulIsClean(s[1..]);
    }
  }

  lemma CompositeIsClean(c: char)
    requires Composite(c).Some?
    ensures Clean(Composite(c).value)
  {
  }

  /** A format without NUL, as every C string is, has a text without NUL: the buffer then holds a
      C string of exactly the returned length. */
  lemma {:induction false} TextIsClean(format: string, i: nat, tm: Tm, env: Env)
    requires i <= |format| && Clean(format)
    ensures Clean(ExpandFrom(format, i, tm, env))
    decreases Rank(format), |format| - i, 1
  {
    hide Directive, Rank;
    if i < |format| {
      if format[i] != '%' {
        TextIsClean(format, i + 1, tm, env);
      } else {
        DirectiveIsClean(format, i, tm, env);
        TextIsClean(format, Directive(format, i, tm, env).1, tm, env);
      }
    }
  }

  lemma {:induction false} DirectiveIsClean(format: string, i: nat, tm: Tm, env: Env)
    requires i < |format| && format[i] == '%' && Clean(format)
    ensures Clean(Directive(format, i, tm, env).0)
    decreases Rank(format), |format| - i, 0
  {
    hide ReadModifiers, Simple, UntilNul, Rank, ExpandFrom;
    var m := ReadModifiers(format, i);
    if m.next < |format| {
      var c := format[m.next];
      if c == 'E' || c == 'O' {
        if m.next + 1 < |format| {
          ModifierRank(format, m.next);
          TextIsClean(['%', format[m.next + 1]], 0, tm, env);
        }
      } else if Composite(c).Some? {
        CompositeRank(format, c);
        CompositeIsClean(c);
        TextIsClean(Composite(c).value, 0, tm, env);
      } else {
        UntilNulIsClean(Simple(c, tm, env, m.pad, m.width));
      }
    }
  }

  // -------------------------------------------------------------------------
  // Dates and times
  // -------------------------------------------------------------------------

  /** A character that is a directive by itself. */
  predicate IsSimple(c: char) {
    !IsDigit(c) && c != '_' && c != '+' && c != 'E' && c != 'O' && c != '\0' && c != '%'
  }

  lemma OneDirective(c: char, tm: Tm, env: Env)
    requires IsSimple(c)
    ensures ClosedFrom(['%', c], 0)
    ensures Expand(['%', c], tm, env)
      == if Composite(c).Some? then Expand(Composite(c).value, tm, env) else UntilNul(Simple(c, tm, env, '\0', -1))
  {
    var f := ['%', c];
    BareModifiers(c);
    hide Simple, UntilNul, ReadModifiers, SkipModifiers;
    assert ClosedFrom(f, 2);
    assert ExpandFrom(f, 2, tm, env) == "";
    var text := Directive(f, 0, tm, env).0;
    assert Directive(f, 0, tm, env).1 == 2;
    assert Expand(f, tm, env) == text + "";
  }

  lemma BareModifiers(c: char)
    requires IsSimple(c)
    ensures SkipModifiers(['%', c], 1) == 1 && ReadModifiers(['%', c], 0) == Modifiers(1, '\0', -1)
  {
    var f := ['%', c];
    assert SkipModifiers(f, 1) == 1;
    assert ReadPad(f, 1, '\0') == (1, '\0');
  }

  /** A directive, a separator, and the rest. */
  lemma DirectiveThen(c: char, separator: char, rest: string, tm: Tm, env: Env)
    requires IsSimple(c) && separator != '%'
    ensures Expand(['%', c] + ([separator] + rest), tm, env)
      == Expand(['%', c], tm, env) + ([separator] + Expand(rest, tm, env))
  {
    OneDirective(c, tm, env);
    OneCharacter(separator, tm, env);
    hide Expand, ClosedFrom, IsSimple;
    FormatsCompose([separator], rest, tm, env);
    FormatsCompose(['%', c], [separator] + rest, tm, env);
  }

  lemma ThreeDirectives(a: char, b: char, c: char, separator: char, tm: Tm, env: Env)
    requires IsSimple(a) && IsSimple(b) && separator != '%'
    ensures Expand(['%', a, separator, '%', b, separator, '%', c], tm, env)
      == Expand(['%', a], tm, env) + ([separator] + (Expand(['%', b], tm, env) + ([separator] + Expand(['%', c], tm, env))))
  {
    hide Expand, IsSimple;
    var rest := ['%', b] + ([separator] + ['%', c]);
    DirectiveThen(b, separator, ['%', c], tm, env);
    DirectiveThen(a, separator, rest, tm, env);
    assert ['%', a] + ([separator] + rest) == ['%', a, separator, '%', b, separator, '%', c];
  }

  lemma OneCharacter(c: char, tm: Tm, env: Env)
    requires c != '%'
    ensures Expand([c], tm, env) == [c] && ClosedFrom([c], 0)
  {
    assert ExpandFrom([c], 1, tm, env) == "";
    assert ClosedFrom([c], 1);
  }

  function Two(n: nat): string
    requires n < 100
  {
    [Digit(n / 10), Digit(n % 10)]
  }

  lemma TwoDigits(n: nat)
    requires n < 100
    ensures Printf(n, "%02d") == Two(n) && UntilNul(Printf(n, "%02d")) == Two(n)
    ensures Read(Two(n)) == n
  {
    TwoDigitConversion();
    TwoDigitText(n);
    ConvIsClean(n, TWO_DIGITS);
    hide ConvText, ParseConversion, UntilNul;
    assert Two(n)[..1] == [Digit(n / 10)];
    assert Read([Digit(n / 10)]) == n / 10;
  }

  lemma TwoDigitDirective(c: char, n: nat, tm: Tm, env: Env)
    requires IsSimple(c) && Composite(c).None? && n < 100
    requires Simple(c, tm, env, '\0', -1) == Printf(n, "%02d")
    ensures Expand(['%', c], tm, env) == Two(n) && Read(Two(n)) == n
  {
    hide Expand, Simple, Composite, Printf, UntilNul, ClosedFrom;
    OneDirective(c, tm, env);
    TwoDigits(n);
  }

  /** %T: hours, minutes and seconds, two digits each, which read back. */
  lemma TimeText(tm: Tm, env: Env)
    requires 0 <= tm.hour < 100 && 0 <= tm.min < 100 && 0 <= tm.sec < 100
    ensures Expand(['%', 'T'], tm, env) == Two(tm.hour) + ([':'] + (Two(tm.min) + ([':'] + Two(tm.sec))))
    ensures Read(Two(tm.hour)) == tm.hour && Read(Two(tm.min)) == tm.min && Read(Two(tm.sec)) == tm.sec
  {
    hide Expand, UntilNul, Printf, Two, Read, ClosedFrom;
    OneDirective('T', tm, env);
    TwoDigitDirective('H', tm.hour, tm, env);
    TwoDigitDirective('M', tm.min, tm, env);
    TwoDigitDirective('S', tm.sec, tm, env);
    hide Simple;
    ThreeDirectives('H', 'M', 'S', ':', tm, env);
    assert ['%', 'H', ':', '%', 'M', ':', '%', 'S'] == "%H:%M:%S";
  }

  /** %F: the year as %Y gives it, which reads back, then month and day, two digits each. */
  lemma DateText(tm: Tm, env: Env)
    requires 0 <= tm.mon < 99 && 0 <= tm.mday < 100 && 1900 + tm.year != -0x8000_0000
    ensures Expand(['%', 'F'], tm, env) == Expand(['%', 'Y'], tm, env) + (['-'] + (Two(tm.mon + 1) + (['-'] + Two(tm.mday))))
    ensures ReadInt(Expand(['%', 'Y'], tm, env)) == Some(1900 + tm.year)
    ensures Read(Two(tm.mon + 1)) == tm.mon + 1 && Read(Two(tm.mday)) == tm.mday
  {
    hide Expand, UntilNul, Printf, Two, Read, ReadInt, ClosedFrom, YearDirective;
    OneDirective('F', tm, env);
    YearInFull(tm, env);
    OneDirective('Y', tm, env);
    TwoDigitDirective('m', tm.mon + 1, tm, env);
    TwoDigitDirective('d', tm.mday, tm, env);
    hide Simple;
    ThreeDirectives('Y', 'm', 'd', '-', tm, env);
    assert ['%', 'Y', '-', '%', 'm', '-', '%', 'd'] == "%Y-%m-%d";
  }

  lemma YearInFull(tm: Tm, env: Env)
    requires 1900 + tm.year != -0x8000_0000
    ensures UntilNul(YearDirective(tm, env, '\0', -1)) == YearDirective(tm, env, '\0', -1)
    ensures ReadInt(YearDirective(tm, env, '\0', -1)) == Some(1900 + tm.year)
  {
    hide ConvText, ParseConversion, YearFormat, ReadInt, UntilNul;
    var year := 1900 + tm.year;
    var format := if env.padYears then YearFormat('0', 4, year) else YearFormat('\0', -1, year);
    var c := ParseConversion(format);
    ConvIsClean(year, c);
    ConvReadsBack(year, c);
  }

  // -------------------------------------------------------------------------
  // The plus sign of a year
  // -------------------------------------------------------------------------

  lemma PlusInNumber(n: int, c: Conversion)
    ensures '+' in ConvText(n, c) <==> c.plus && n >= 0
  {
    hide Show;
    var sign, digits := Sign(n, c.plus), Magnitude(n);
    NoPlus(Show(if n < 0 then -n else n));
    assert '+' !in digits;
    var pad := if |sign| + |digits| < c.width then c.width - |sign| - |digits| else 0;
    assert '+' !in Repeat('0', pad) && '+' !in Repeat(' ', pad);
  }

  lemma NoPlus(s: string)
    requires AllDigits(s)
    ensures '+' !in s && '+' !in "-" + s
  {
  }

  /** The year gets its plus sign exactly when '+' is given without a width and the year is above 9999. */
  lemma PlusIff(tm: Tm, env: Env, pad: char, width: int)
    ensures '+' in YearDirective(tm, env, pad, width) <==> pad == '+' && 1900 + tm.year > 9999 && width <= 0
  {
    hide ConvText, ParseConversion, YearFormat;
    var year := 1900 + tm.year;
    YearConversion('0', 4, year);
    YearConversion(pad, width, year);
    PlusInNumber(year, ParseConversion(YearFormat('0', 4, year)));
    PlusInNumber(year, ParseConversion(YearFormat(pad, width, year)));
  }

  /** A format that is one %Y directive with its modifiers. */
  ghost predicate IsYearFormat(f: string) {
    |f| >= 2 && f[0] == '%' && f[|f| - 1] == 'Y' && ReadModifiers(f, 0).next == |f| - 1
  }

  lemma YearAlone(f: string, tm: Tm, env: Env)
    requires IsYearFormat(f)
    ensures var m := ReadModifiers(f, 0); Expand(f, tm, env) == YearDirective(tm, env, m.pad, m.width)
  {
    hide ReadModifiers, YearDirective, Directive;
    YearAt(f, 0, tm, env);
    var m := ReadModifiers(f, 0);
    var text := YearDirective(tm, env, m.pad, m.width);
    assert ExpandFrom(f, |f|, tm, env) == "";
    assert text + "" == text;
  }

  lemma YearAt(f: string, i: nat, tm: Tm, env: Env)
    requires i < |f| && f[i] == '%' && ReadModifiers(f, i).next < |f| && f[ReadModifiers(f, i).next] == 'Y'
    ensures var m := ReadModifiers(f, i);
      Directive(f, i, tm, env) == (YearDirective(tm, env, m.pad, m.width), m.next + 1)
  {
    hide ReadModifiers, YearDirective, UntilNul, Rank, Expand, Simple, Composite;
    var m := ReadModifiers(f, i);
    YearIsClean(tm, env, m.pad, m.width);
    YearIsSimple(tm, env, m.pad, m.width);
  }

  lemma YearIsSimple(tm: Tm, env: Env, pad: char, width: int)
    ensures Composite('Y').None? && Simple('Y', tm, env, pad, width) == YearDirective(tm, env, pad, width)
  {
    hide YearDirective;
  }

  lemma YearIsClean(tm: Tm, env: Env, pad: char, width: int)
    ensures UntilNul(YearDirective(tm, env, pad, width)) == YearDirective(tm, env, pad, width)
  {
    hide ConvText, ParseConversion, YearFormat, UntilNul;
    var year := 1900 + tm.year;
    ConvIsClean(year, ParseConversion(YearFormat('0', 4, year)));
    ConvIsClean(year, ParseConversion(YearFormat(pad, width, year)));
  }

  /** In the text of a format: the sign is lost exactly when a width stands behind the '+'. */
  lemma PlusInTextIff(f: string, tm: Tm, env: Env)
    requires IsYearFormat(f)
    ensures '+' in Expand(f, tm, env)
      <==> ReadModifiers(f, 0).pad == '+' && 1900 + tm.year > 9999 && ReadModifiers(f, 0).width <= 0
  {
    hide Expand, ReadModifiers, YearDirective;
    YearAlone(f, tm, env);
    PlusIff(tm, env, ReadModifiers(f, 0).pad, ReadModifiers(f, 0).width);
  }

  /** %+Y shows it, %+6Y does not. */
  lemma WidthLosesPlus(tm: Tm, env: Env)
    requires 1900 + tm.year > 9999
    ensures '+' in Expand("%+Y", tm, env) && '+' !in Expand("%+6Y", tm, env)
  {
    assert SkipModifiers("%+Y", 2) == 2 && SkipModifiers("%+6Y", 2) == 3;
    assert ReadModifiers("%+Y", 0) == Modifiers(2, '+', -1);
    assert ReadWidth("%+6Y", 3, 6) == (3, 6);
    assert ReadModifiers("%+6Y", 0) == Modifiers(3, '+', 6);
    hide Expand, ReadModifiers;
    PlusInTextIff("%+Y", tm, env);
    PlusInTextIff("%+6Y", tm, env);
  }

  // -------------------------------------------------------------------------
  // Week dates
  // -------------------------------------------------------------------------

  /** %G-W%V is the week date of ISO 8601: the year of the week's Thursday, which reads back, and the
      number of that Thursday in its year. */
  lemma WeekDateText(tm: Tm, env: Env)
    requires IsI32(tm.year) && 0 <= tm.wday <= 6 && 0 <= tm.yday < YearLength(1900 + tm.year)
    ensures var y := 1900 + tm.year;
      var week := 1 + IsoThursday(y, tm.yday, tm.wday) / 7;
      && 1 <= week <= 53
      && Expand(['%', 'G', '-', 'W', '%', 'V'], tm, env) == Expand(['%', 'G'], tm, env) + ("-W" + Two(week))
      && ReadInt(Expand(['%', 'G'], tm, env)) == Some(IsoYear(y, tm.yday, tm.wday))
      && Read(Two(week)) == week
  {
    hide Expand, Two, Read, ReadInt, IsoFrom, IsoYear, IsoThursday, YearLength;
    IsoWeekDate(tm.year, tm.yday, tm.wday);
    WeekDateParts(tm, env);
    WeekDateJoins(tm, env);
  }

  lemma WeekDateParts(tm: Tm, env: Env)
    requires IsI32(tm.year) && 0 <= tm.wday <= 6 && 0 <= tm.yday < YearLength(1900 + tm.year)
    ensures var (w, base) := IsoFrom(tm.year, 1900, tm.yday, tm.wday);
      && 1 <= w <= 53 && Expand(['%', 'V'], tm, env) == Two(w) && Read(Two(w)) == w
      && ReadInt(Expand(['%', 'G'], tm, env)) == Some(tm.year + base)
  {
    hide Expand, IsoFrom, YearLength, UntilNul, Printf, Two, Read, ReadInt, YconvText, ClosedFrom, IsSimple;
    IsoWeekDate(tm.year, tm.yday, tm.wday);
    var (w, base) := IsoFrom(tm.year, 1900, tm.yday, tm.wday);
    IsoBase(tm.year, tm.yday, tm.wday);
    IsSimpleLetters();
    YearReadsBackI32(tm.year, base);
    YconvIsClean(tm.year, base, true, true);
    OneDirective('G', tm, env);
    TwoDigitDirective('V', w, tm, env);
  }

  lemma WeekDateJoins(tm: Tm, env: Env)
    ensures Expand(['%', 'G', '-', 'W', '%', 'V'], tm, env) == Expand(['%', 'G'], tm, env) + ("-W" + Expand(['%', 'V'], tm, env))
  {
    hide Expand, ClosedFrom, IsSimple;
    IsSimpleLetters();
    DirectiveThen('G', '-', ['W'] + ['%', 'V'], tm, env);
    OneCharacter('W', tm, env);
    FormatsCompose(['W'], ['%', 'V'], tm, env);
    var week := Expand(['%', 'V'], tm, env);
    assert ['%', 'G'] + (['-'] + (['W'] + ['%', 'V'])) == ['%', 'G', '-', 'W', '%', 'V'];
    assert ['-'] + (['W'] + week) == "-W" + week;
  }

  lemma IsSimpleLetters()
    ensures IsSimple('G') && IsSimple('V')
  {
  }

  lemma IsoBase(year: int, yday: int, wday: int)
    requires 0 <= wday <= 6 && 0 <= yday < YearLength(1900 + year)
    ensures IsI32(IsoFrom(year, 1900, yday, wday).1)
  {
    hide IsoFrom, YearLength;
    IsoWeekDate(year, yday, wday);
  }
}
