/** The recursive format processor of the `strftime` port (`crates/rmath/src/tzone_strftime.rs`).

  `Expand` is the unlimited text of a format.  The methods below write into a bounded buffer in
  place, and are proved to write exactly the part of that text that fits.  Bytes are characters.
 */
module Strftime {
  import opened Wrappers
  import opened Decimal
  import opened Calendar
  import opened YearText

  const DAY_NAMES := ["Sunday", "Monday", "Tuesday", "Wednesday", "Thursday", "Friday", "Saturday"]
  const ABDAY_NAMES := ["Sun", "Mon", "Tue", "Wed", "Thu", "Fri", "Sat"]
  const MON_NAMES := ["January", "February", "March", "April", "May", "June", "July", "August",
                      "September", "October", "November", "December"]
  const ABMON_NAMES := ["Jan", "Feb", "Mar", "Apr", "May", "Jun", "Jul", "Aug", "Sep", "Oct", "Nov", "Dec"]

  /** `struct Rtm`.  A missing zone is a null `tm_zone`. */
  datatype Tm = Tm(sec: int, min: int, hour: int, mday: int, mon: int, year: int, wday: int,
                   yday: int, isdst: int, gmtoff: int, zone: Option<string>)

  /** What the formatter asks of its surroundings: whether R_PAD_YEARS_BY_ZERO is "yes" (or
      unset), and the text of `R_mktime` for this time. */
  datatype Env = Env(padYears: bool, mktime: string)

  // -------------------------------------------------------------------------
  // The text of single directives
  // -------------------------------------------------------------------------

  function Name(names: seq<string>, i: int): string {
    if 0 <= i < |names| then names[i] else "?"
  }

  /** A C string ends at its first NUL. */
  function UntilNul(s: string): string {
    if s == "" || s[0] == '\0' then "" else [s[0]] + UntilNul(s[1..])
  }

  function ZoneName(tm: Tm): string {
    if tm.zone.Some? then tm.zone.value else if tm.isdst >= 0 then "UTC" else ""
  }

  function Hour12(hour: int): int {
    if TMod(hour, 12) != 0 then TMod(hour, 12) else 12
  }

  /** printf's conversion of `n`. */
  function Printf(n: int, format: string): string {
    ConvText(n, ParseConversion(format))
  }

  /** The printf directive assembled for %Y. */
  function YearFormat(pad: char, width: int, year: int): string {
    "%" + (if pad == '0' || pad == '+' then "0" else "")
    + (if width > 0 then Show(width) else "")
    + (if pad == '+' && year > 9999 then "+" else "") + "d"
  }

  function YearDirective(tm: Tm, env: Env, pad: char, width: int): string {
    var year := TM_YEAR_BASE + tm.year;
    if env.padYears && pad == '\0' then Printf(year, YearFormat('0', 4, year))
    else Printf(year, YearFormat(pad, width, year))
  }

  function OffsetDirective(tm: Tm): string {
    if tm.isdst < 0 then ""
    else
      var minutes := TDiv(if tm.gmtoff < 0 then -tm.gmtoff else tm.gmtoff, 60);
      (if tm.gmtoff < 0 then "-" else "+") + Printf(TDiv(minutes, 60) * 100 + TMod(minutes, 60), "%04d")
  }

  function IsoDirective(c: char, tm: Tm): string {
    var (w, base) := IsoFrom(tm.year, TM_YEAR_BASE, tm.yday, tm.wday);
    if c == 'V' then Printf(w, "%02d") else YconvText(tm.year, base, c != 'g', true)
  }

  /** Directives that stand for another format. */
  function Composite(c: char): Option<string> {
    match c
    case 'c' => Some("%a %b %e %T %Y")
    case 'X' => Some("%H:%M:%S")
    case 'x' => Some("%m/%d/%y")
    case 'D' => Some("%m/%d/%y")
    case 'F' => Some("%Y-%m-%d")
    case 'R' => Some("%H:%M")
    case 'r' => Some("%I:%M:%S %p")
    case 'T' => Some("%H:%M:%S")
    case 'v' => Some("%e-%b-%Y")
    case '+' => Some("%a %b %e %H:%M:%S %Z %Y")
    case _ => None
  }

  /** Every other directive; a character that is none stands for itself. */
  function Simple(c: char, tm: Tm, env: Env, pad: char, width: int): string {
    match c
    case 'A' => Name(DAY_NAMES, tm.wday)
    case 'a' => Name(ABDAY_NAMES, tm.wday)
    case 'B' => Name(MON_NAMES, tm.mon)
    case 'b' => Name(ABMON_NAMES, tm.mon)
    case 'h' => Name(ABMON_NAMES, tm.mon)
    case 'p' => if tm.hour < 12 then "AM" else "PM"
    case 'P' => if tm.hour < 12 then "am" else "pm"
    case 'C' => YconvText(tm.year, TM_YEAR_BASE, true, false)
    case 'd' => Printf(tm.mday, "%02d")
    case 'e' => Printf(tm.mday, "%2d")
    case 'H' => Printf(tm.hour, "%02d")
    case 'I' => Printf(Hour12(tm.hour), "%02d")
    case 'j' => Printf(tm.yday + 1, "%03d")
    case 'k' => Printf(tm.hour, "%2d")
    case 'l' => Printf(Hour12(tm.hour), "%2d")
    case 'M' => Printf(tm.min, "%02d")
    case 'm' => Printf(tm.mon + 1, "%02d")
    case 'n' => "\n"
    case 'S' => Printf(tm.sec, "%02d")
    case 's' => env.mktime
    case 't' => "\t"
    case 'U' => Printf(SundayWeek(tm.yday, tm.wday), "%02d")
    case 'u' => Printf(if tm.wday == 0 then 7 else tm.wday, "%d")
    case 'V' => IsoDirective(c, tm)
    case 'G' => IsoDirective(c, tm)
    case 'g' => IsoDirective(c, tm)
    case 'W' => Printf(MondayWeek(tm.yday, tm.wday), "%02d")
    case 'w' => Printf(tm.wday, "%d")
    case 'y' => YconvText(tm.year, TM_YEAR_BASE, false, true)
    case 'Y' => YearDirective(tm, env, pad, width)
    case 'Z' => ZoneName(tm)
    case 'z' => OffsetDirective(tm)
    case _ => [c]
  }

  // -------------------------------------------------------------------------
  // Modifiers of %Y
  // -------------------------------------------------------------------------

  /** The end of a run of digits, '_' and '+'. */
  function SkipModifiers(format: string, i: nat): (j: nat)
    requires i <= |format|
    ensures i <= j <= |format|
    decreases |format| - i
  {
    if i < |format| && (IsDigit(format[i]) || format[i] == '_' || format[i] == '+') then SkipModifiers(format, i + 1) else i
  }

  function ReadPad(format: string, i: nat, pad: char): (r: (nat, char))
    requires i <= |format|
    ensures i <= r.0 <= |format|
    decreases |format| - i
  {
    if i < |format| && (format[i] == '0' || format[i] == '+' || format[i] == '_') then ReadPad(format, i + 1, format[i])
    else (i, pad)
  }

  /** A width, saturating at the largest i32. */
  function ReadWidth(format: string, i: nat, width: int): (r: (nat, int))
    requires i <= |format|
    ensures i <= r.0 <= |format|
    decreases |format| - i
  {
    if i < |format| && IsDigit(format[i]) then ReadWidth(format, i + 1, AddDigit(width, DigitValue(format[i]))) else (i, width)
  }

  function AddDigit(width: int, d: nat): int {
    if width > I32_MAX / 10 || (width == I32_MAX / 10 && d > I32_MAX % 10) then I32_MAX else width * 10 + d
  }

  datatype Modifiers = Modifiers(next: nat, pad: char, width: int)

  /** From the '%' at `i`: where the directive character is, with the padding and the width that
      precede a 'Y'. */
  function ReadModifiers(format: string, i: nat): (m: Modifiers)
    requires i < |format|
    ensures i < m.next <= |format|
  {
    var f := SkipModifiers(format, i + 1);
    if f < |format| && format[f] == 'Y' then
      var (j, pad) := ReadPad(format, i + 1, '\0');
      if j < |format| && IsDigit(format[j]) then
        var (k, width) := ReadWidth(format, j, 0);
        Modifiers(k, pad, width)
      else Modifiers(j, pad, -1)
    else Modifiers(i + 1, '\0', -1)
  }

  // -------------------------------------------------------------------------
  // The text of a format
  // -------------------------------------------------------------------------

  /** How deep a format can nest: %E and %O pass one character on, %c contains %T, and the other
      composite directives contain only simple ones. */
  ghost function Rank(format: string): nat {
    if |format| > 0 && ('E' in format[..|format| - 1] || 'O' in format[..|format| - 1]) then 3
    else if 'c' in format then 2
    else if exists c :: c in format && IsComposite(c) then 1
    else 0
  }

  predicate IsComposite(c: char) {
    c == 'c' || c == 'X' || c == 'x' || c == 'D' || c == 'F' || c == 'R' || c == 'r' || c == 'T' || c == 'v' || c == '+'
  }

  predicate IsPlain(s: string) {
    forall i :: 0 <= i < |s| ==> !IsComposite(s[i]) && s[i] != 'E' && s[i] != 'O'
  }

  lemma PlainRank(s: string)
    requires IsPlain(s)
    ensures Rank(s) == 0
  {
  }

  lemma CompositeRank(format: string, c: char)
    requires c in format && Composite(c).Some?
    ensures Rank(Composite(c).value) < Rank(format)
  {
    assert IsComposite(c);
    assert Rank(format) >= if c == 'c' then 2 else 1;
    var s := Composite(c).value;
    if c == 'c' {
      DateAndTimeRank();
    } else {
      hide Rank;
      assert IsPlain(s);
      PlainRank(s);
    }
  }

  lemma DateAndTimeRank()
    ensures Rank("%a %b %e %T %Y") <= 1
  {
  }

  lemma ModifierRank(format: string, j: nat)
    requires j + 1 < |format| && (format[j] == 'E' || format[j] == 'O')
    ensures Rank(['%', format[j + 1]]) < Rank(format)
  {
    assert format[..|format| - 1][j] == format[j];
    assert ['%', format[j + 1]][..1] == ['%'];
  }

  function Expand(format: string, tm: Tm, env: Env): string
    decreases Rank(format), |format| + 1, 0
  {
    ExpandFrom(format, 0, tm, env)
  }

  /** The text of `format` from position `i` on. */
  function ExpandFrom(format: string, i: nat, tm: Tm, env: Env): string
    requires i <= |format|
    decreases Rank(format), |format| - i, 1
  {
    if i == |format| then ""
    else if format[i] != '%' then [format[i]] + ExpandFrom(format, i + 1, tm, env)
    else
      var (text, next) := Directive(format, i, tm, env);
      text + ExpandFrom(format, next, tm, env)
  }

  /** What the directive at `i` stands for, and where the format goes on. */
  function Directive(format: string, i: nat, tm: Tm, env: Env): (r: (string, nat))
    requires i < |format| && format[i] == '%'
    ensures i < r.1 <= |format|
    decreases Rank(format), |format| - i, 0
  {
    var m := ReadModifiers(format, i);
    if m.next == |format| then ("%", m.next)
    else
      var c := format[m.next];
      if c == '\0' then ("", m.next)
      else if c == 'E' || c == 'O' then
        if m.next + 1 < |format| then
          ModifierRank(format, m.next);
          (Expand(['%', format[m.next + 1]], tm, env), m.next + 2)
        else ("", m.next + 1)
      else if Composite(c).Some? then
        CompositeRank(format, c);
        (Expand(Composite(c).value, tm, env), m.next + 1)
      else (UntilNul(Simple(c, tm, env, m.pad, m.width)), m.next + 1)
  }

  // -------------------------------------------------------------------------
  // Bounded writing
  // -------------------------------------------------------------------------

  /** From `before` to `after`, the part of `text` that fits between `pt` and `limit` was written
      there, nothing else changed, and `end` is the new position. */
  ghost predicate Wrote(before: string, after: string, pt: nat, limit: nat, text: string, end: nat) {
    && pt <= end <= limit <= |before| == |after|
    && end == (if pt + |text| <= limit then pt + |text| else limit)
    && after == before[..pt] + text[..end - pt] + before[end..]
  }

  lemma WroteNothing(before: string, pt: nat, limit: nat)
    requires pt <= limit <= |before|
    ensures Wrote(before, before, pt, limit, "", pt)
  {
  }

  /** Two pieces, one after the other. */
  lemma WroteBoth(a: string, b: string, c: string, pt: nat, limit: nat, first: string, mid: nat, second: string, end: nat)
    requires Wrote(a, b, pt, limit, first, mid) && Wrote(b, c, mid, limit, second, end)
    ensures Wrote(a, c, pt, limit, first + second, end)
  {
    if pt + |first| <= limit {
      WroteInFull(a, b, c, pt, limit, first, mid, second, end);
    } else {
      assert end == limit == mid;
      assert c == b;
      assert (first + second)[..end - pt] == first[..end - pt];
    }
  }

  lemma WroteInFull(a: string, b: string, c: string, pt: nat, limit: nat, first: string, mid: nat, second: string, end: nat)
    requires Wrote(a, b, pt, limit, first, mid) && Wrote(b, c, mid, limit, second, end) && pt + |first| <= limit
    ensures Wrote(a, c, pt, limit, first + second, end)
  {
    assert b[..mid] == a[..pt] + first;
    assert b[end..] == a[end..];
    assert (first + second)[..end - pt] == first + second[..end - mid];
  }

  lemma UntilNulOfClean(s: string)
    requires forall i :: 0 <= i < |s| ==> s[i] != '\0'
    ensures UntilNul(s) == s
  {
    if s != "" {
      UntilNulOfClean(s[1..]);
      assert s == [s[0]] + s[1..];
    }
  }

  /** Numbers print without NUL. */
  lemma ConvIsClean(n: int, c: Conversion)
    ensures UntilNul(ConvText(n, c)) == ConvText(n, c)
  {
    hide Show, UntilNul;
    UntilNulOfClean(ConvText(n, c));
  }

  lemma YconvIsClean(a: int, b: int, top: bool, yy: bool)
    ensures UntilNul(YconvText(a, b, top, yy)) == YconvText(a, b, top, yy)
  {
    hide Show, UntilNul, Split, ConvText;
    var (lead, trail) := Split(a, b);
    var first := if !top then "" else if lead == 0 && trail < 0 then "-0" else ConvText(lead, TWO_DIGITS);
    var second := if !yy then "" else ConvText(if trail < 0 then -trail else trail, TWO_DIGITS);
    ConvHasNoNul(lead, TWO_DIGITS);
    ConvHasNoNul(if trail < 0 then -trail else trail, TWO_DIGITS);
    assert YconvText(a, b, top, yy) == first + second;
    UntilNulOfClean(first + second);
  }

  lemma ConvHasNoNul(n: int, c: Conversion)
    ensures forall i :: 0 <= i < |ConvText(n, c)| ==> ConvText(n, c)[i] != '\0'
  {
    hide Show;
  }

  method FmtAdd(buf: array<char>, pt: nat, ptlim: nat, str: string) returns (end: nat)
    requires pt <= ptlim <= buf.Length
    modifies buf
    ensures pt <= end <= ptlim
    ensures Wrote(old(buf[..]), buf[..], pt, ptlim, UntilNul(str), end)
  {
    hide UntilNul;
    end := pt;
    var i := 0;
    while i < |str|
      invariant 0 <= i <= |str| && end == pt + i <= ptlim
      invariant forall k :: 0 <= k < i ==> buf[pt + k] == str[k] && str[k] != '\0'
      invariant forall k :: 0 <= k < buf.Length && (k < pt || k >= end) ==> buf[k] == old(buf[k])
    {
      if end >= ptlim {
        break;
      }
      if str[i] == '\0' {
        break;
      }
      buf[end] := str[i];
      end := end + 1;
      i := i + 1;
    }
    UntilNulStarts(str, i);
    assert UntilNul(str)[..end - pt] == str[..i];
    assert buf[..] == old(buf[..])[..pt] + str[..i] + old(buf[..])[end..];
  }

  /** `UntilNul` begins with any NUL-free beginning, and ends where a NUL or the string does. */
  lemma {:induction false} UntilNulStarts(s: string, i: nat)
    requires i <= |s| && forall k :: 0 <= k < i ==> s[k] != '\0'
    ensures s[..i] <= UntilNul(s)
    ensures i == |s| || s[i] == '\0' ==> UntilNul(s) == s[..i]
  {
    if i > 0 {
      UntilNulStarts(s[1..], i - 1);
      assert s[..i] == [s[0]] + s[1..][..i - 1];
    }
  }

  method PutChar(buf: array<char>, pt: nat, ptlim: nat, c: char) returns (end: nat)
    requires pt <= ptlim <= buf.Length
    modifies buf
    ensures pt <= end <= ptlim
    ensures Wrote(old(buf[..]), buf[..], pt, ptlim, [c], end)
  {
    end := pt;
    if pt < ptlim {
      buf[pt] := c;
      end := pt + 1;
    }
  }

  method FmtConv(buf: array<char>, pt: nat, ptlim: nat, n: int, format: string) returns (end: nat)
    requires pt <= ptlim <= buf.Length
    modifies buf
    ensures pt <= end <= ptlim
    ensures Wrote(old(buf[..]), buf[..], pt, ptlim, UntilNul(Printf(n, format)), end)
  {
    var c := ReadConversion(format);
    var text := PrintNumber(n, c);
    end := FmtAdd(buf, pt, ptlim, text);
  }

  /** The flag and width loops of `fmt_conv`. */
  method ReadConversion(format: string) returns (c: Conversion)
    ensures c == ParseConversion(format)
  {
    var f := TrimLeading(TrimLeading(format, '%'), 'l');
    var zeros, plus, i := false, false, 0;
    while i < |f| && (f[i] == '0' || f[i] == '+' || f[i] == '-')
      invariant 0 <= i <= |f|
      invariant ParseFlags(f, i, zeros, plus) == ParseFlags(f, 0, false, false)
    {
      if f[i] == '0' {
        zeros := true;
      } else if f[i] == '+' {
        plus := true;
      }
      i := i + 1;
    }
    var width: nat := 0;
    ghost var start := i;
    while i < |f| && IsDigit(f[i])
      invariant 0 <= start <= i <= |f|
      invariant ParseWidth(f, i, width) == ParseWidth(f, start, 0)
    {
      width := width * 10 + DigitValue(f[i]);
      i := i + 1;
    }
    c := Conversion(zeros, plus, width);
  }

  /** The padding loops of `fmt_conv`. */
  method PrintNumber(n: int, c: Conversion) returns (text: string)
    ensures text == ConvText(n, c)
  {
    hide Magnitude;
    var sign := if n < 0 then "-" else if c.plus then "+" else "";
    var num := sign + Magnitude(n);
    if c.width > 0 && |num| < c.width {
      var padLen := c.width - |num|;
      if c.zeros {
        var padded := Padding(sign, '0', padLen);
        text := padded + num[|sign|..];
        assert num[|sign|..] == Magnitude(n);
      } else {
        var padded := Padding("", ' ', padLen);
        text := padded + num;
        assert padded == Repeat(' ', padLen);
      }
    } else {
      text := num;
      assert sign + Repeat('0', 0) == sign;
      assert Repeat(' ', 0) + num == num;
    }
  }

  method Padding(start: string, c: char, n: nat) returns (padded: string)
    ensures padded == start + Repeat(c, n)
  {
    padded := start;
    var i := 0;
    while i < n
      invariant 0 <= i <= n && padded == start + Repeat(c, i)
    {
      padded := padded + [c];
      i := i + 1;
    }
  }

  method FmtYconv(buf: array<char>, pt: nat, ptlim: nat, a: int, b: int, convertTop: bool, convertYy: bool) returns (end: nat)
    requires pt <= ptlim <= buf.Length
    modifies buf
    ensures pt <= end <= ptlim
    ensures Wrote(old(buf[..]), buf[..], pt, ptlim, UntilNul(YconvText(a, b, convertTop, convertYy)), end)
  {
    hide Wrote, UntilNul, Printf, YconvText, Split;
    YconvIsClean(a, b, convertTop, convertYy);
    YconvPieces(a, b, convertTop, convertYy);
    var (lead, trail) := Split(a, b);
    end := pt;
    WroteNothing(buf[..], pt, ptlim);
    ghost var before, mid := buf[..], buf[..];
    ghost var top := "";
    if convertTop {
      if lead == 0 && trail < 0 {
        ConstantIsClean();
        end := FmtAdd(buf, pt, ptlim, "-0");
        top := "-0";
      } else {
        TwoDigitsAreClean(lead);
        end := FmtConv(buf, pt, ptlim, lead, "%02d");
        top := Printf(lead, "%02d");
      }
      mid := buf[..];
    }
    ghost var k := end;
    if convertYy {
      var t := if trail < 0 then -trail else trail;
      TwoDigitsAreClean(t);
      end := FmtConv(buf, end, ptlim, t, "%02d");
      WroteBoth(before, mid, buf[..], pt, ptlim, top, k, Printf(t, "%02d"), end);
    } else {
      assert top + "" == top;
    }
  }

  lemma TwoDigitsAreClean(n: int)
    ensures UntilNul(Printf(n, "%02d")) == Printf(n, "%02d")
  {
    ConvIsClean(n, ParseConversion("%02d"));
  }

  lemma YconvPieces(a: int, b: int, top: bool, yy: bool)
    ensures var (lead, trail) := Split(a, b);
      var first := if !top then "" else if lead == 0 && trail < 0 then "-0" else Printf(lead, "%02d");
      var second := if !yy then "" else Printf(if trail < 0 then -trail else trail, "%02d");
      YconvText(a, b, top, yy) == first + second
  {
    hide ConvText, ParseConversion, Split;
    TwoDigitConversion();
  }

  lemma ConstantIsClean()
    ensures UntilNul("-0") == "-0"
  {
    UntilNulOfClean("-0");
  }

  lemma TwoDigitConversion()
    ensures ParseConversion("%02d") == TWO_DIGITS
  {
    assert "%02d"[1..] == "02d";
    assert ParseFlags("02d", 0, false, false) == ParseFlags("02d", 1, true, false);
    assert ParseWidth("02d", 1, 0) == ParseWidth("02d", 2, 2);
  }

  // -------------------------------------------------------------------------
  // The processor
  // -------------------------------------------------------------------------

  method FmtIso(buf: array<char>, pt: nat, ptlim: nat, spec: char, tm: Tm) returns (end: nat)
    requires pt <= ptlim <= buf.Length && (spec == 'V' || spec == 'G' || spec == 'g')
    modifies buf
    ensures pt <= end <= ptlim
    ensures Wrote(old(buf[..]), buf[..], pt, ptlim, UntilNul(IsoDirective(spec, tm)), end)
  {
    hide Wrote, UntilNul;
    var w, base, _ := IsoWeek(tm.year, tm.yday, tm.wday);
    if spec == 'V' {
      end := FmtConv(buf, pt, ptlim, w, "%02d");
    } else if spec == 'g' {
      end := FmtYconv(buf, pt, ptlim, tm.year, base, false, true);
    } else {
      end := FmtYconv(buf, pt, ptlim, tm.year, base, true, true);
    }
  }

  method FmtOffset(buf: array<char>, pt: nat, ptlim: nat, tm: Tm) returns (end: nat)
    requires pt <= ptlim <= buf.Length
    modifies buf
    ensures pt <= end <= ptlim
    ensures Wrote(old(buf[..]), buf[..], pt, ptlim, UntilNul(OffsetDirective(tm)), end)
  {
    hide UntilNul, ConvText, ParseConversion;
    end := pt;
    if tm.isdst < 0 {
      UntilNulOfClean("");
      return;
    }
    var diff := tm.gmtoff;
    var sign := "+";
    if diff < 0 {
      diff := -diff;
      sign := "-";
    }
    ghost var before := buf[..];
    UntilNulOfClean(sign);
    end := FmtAdd(buf, pt, ptlim, sign);
    ghost var mid, k := buf[..], end;
    diff := TDiv(diff, 60);
    var n := TDiv(diff, 60) * 100 + TMod(diff, 60);
    end := FmtConv(buf, end, ptlim, n, "%04d");
    hide Wrote;
    ConvIsClean(n, ParseConversion("%04d"));
    SignedOffsetIsClean(sign, n);
    WroteBoth(before, mid, buf[..], pt, ptlim, sign, k, Printf(n, "%04d"), end);
  }

  lemma SignedOffsetIsClean(sign: string, n: int)
    requires sign == "+" || sign == "-"
    ensures UntilNul(sign + Printf(n, "%04d")) == sign + Printf(n, "%04d")
  {
    hide Show, UntilNul, ParseConversion;
    UntilNulOfClean(sign + Printf(n, "%04d"));
  }

  method FmtYear(buf: array<char>, pt: nat, ptlim: nat, tm: Tm, env: Env, pad: char, width: int) returns (end: nat)
    requires pt <= ptlim <= buf.Length
    modifies buf
    ensures pt <= end <= ptlim
    ensures Wrote(old(buf[..]), buf[..], pt, ptlim, UntilNul(YearDirective(tm, env, pad, width)), end)
  {
    hide Wrote, UntilNul, ConvText, ParseConversion, Show;
    var year := TM_YEAR_BASE + tm.year;
    var effectivePad, effectiveWidth := pad, width;
    if env.padYears && pad == '\0' {
      effectivePad, effectiveWidth := '0', 4;
    }
    var format := "%";
    if effectivePad == '0' || effectivePad == '+' {
      format := format + "0";
    }
    if effectiveWidth > 0 {
      format := format + Show(effectiveWidth);
    }
    if effectivePad == '+' && year > 9999 {
      format := format + "+";
    }
    format := format + "d";
    assert format == YearFormat(effectivePad, effectiveWidth, year);
    end := FmtConv(buf, pt, ptlim, year, format);
  }

  method FmtSimple(buf: array<char>, pt: nat, ptlim: nat, c: char, tm: Tm, env: Env, pad: char, width: int) returns (end: nat)
    requires pt <= ptlim <= buf.Length && c != '\0'
    modifies buf
    ensures pt <= end <= ptlim
    ensures Wrote(old(buf[..]), buf[..], pt, ptlim, UntilNul(Simple(c, tm, env, pad, width)), end)
  {
    hide Wrote, UntilNul, ConvText, ParseConversion, YconvText, Name, ZoneName, IsoDirective, OffsetDirective, YearDirective;
    match c {
      case 'A' => end := FmtAdd(buf, pt, ptlim, Name(DAY_NAMES, tm.wday));
      case 'a' => end := FmtAdd(buf, pt, ptlim, Name(ABDAY_NAMES, tm.wday));
      case 'B' => end := FmtAdd(buf, pt, ptlim, Name(MON_NAMES, tm.mon));
      case 'b' => end := FmtAdd(buf, pt, ptlim, Name(ABMON_NAMES, tm.mon));
      case 'h' => end := FmtAdd(buf, pt, ptlim, Name(ABMON_NAMES, tm.mon));
      case 'p' => end := FmtAdd(buf, pt, ptlim, if tm.hour < 12 then "AM" else "PM");
      case 'P' => end := FmtAdd(buf, pt, ptlim, if tm.hour < 12 then "am" else "pm");
      case 'C' => end := FmtYconv(buf, pt, ptlim, tm.year, TM_YEAR_BASE, true, false);
      case 'd' => end := FmtConv(buf, pt, ptlim, tm.mday, "%02d");
      case 'e' => end := FmtConv(buf, pt, ptlim, tm.mday, "%2d");
      case 'H' => end := FmtConv(buf, pt, ptlim, tm.hour, "%02d");
      case 'I' => end := FmtConv(buf, pt, ptlim, Hour12(tm.hour), "%02d");
      case 'j' => end := FmtConv(buf, pt, ptlim, tm.yday + 1, "%03d");
      case 'k' => end := FmtConv(buf, pt, ptlim, tm.hour, "%2d");
      case 'l' => end := FmtConv(buf, pt, ptlim, Hour12(tm.hour), "%2d");
      case 'M' => end := FmtConv(buf, pt, ptlim, tm.min, "%02d");
      case 'm' => end := FmtConv(buf, pt, ptlim, tm.mon + 1, "%02d");
      case 'n' => end := FmtAdd(buf, pt, ptlim, "\n");
      case 'S' => end := FmtConv(buf, pt, ptlim, tm.sec, "%02d");
      case 's' => end := FmtAdd(buf, pt, ptlim, env.mktime);
      case 't' => end := FmtAdd(buf, pt, ptlim, "\t");
      case 'U' => end := FmtConv(buf, pt, ptlim, SundayWeek(tm.yday, tm.wday), "%02d");
      case 'u' => end := FmtConv(buf, pt, ptlim, if tm.wday == 0 then 7 else tm.wday, "%d");
      case 'V' => end := FmtIso(buf, pt, ptlim, c, tm);
      case 'G' => end := FmtIso(buf, pt, ptlim, c, tm);
      case 'g' => end := FmtIso(buf, pt, ptlim, c, tm);
      case 'W' => end := FmtConv(buf, pt, ptlim, MondayWeek(tm.yday, tm.wday), "%02d");
      case 'w' => end := FmtConv(buf, pt, ptlim, tm.wday, "%d");
      case 'y' => end := FmtYconv(buf, pt, ptlim, tm.year, TM_YEAR_BASE, false, true);
      case 'Y' => end := FmtYear(buf, pt, ptlim, tm, env, pad, width);
      case 'Z' => end := FmtAdd(buf, pt, ptlim, ZoneName(tm));
      case 'z' => end := FmtOffset(buf, pt, ptlim, tm);
      case _ =>
        UntilNulOfClean([c]);
        end := PutChar(buf, pt, ptlim, c);
    }
  }

  /** The loop over the modifiers of %Y. */
  method ScanModifiers(format: string, idx: nat) returns (m: Modifiers)
    requires idx < |format|
    ensures m == ReadModifiers(format, idx)
  {
    var f := idx + 1;
    while f < |format| && (IsDigit(format[f]) || format[f] == '_' || format[f] == '+')
      invariant idx < f <= |format|
      invariant SkipModifiers(format, f) == SkipModifiers(format, idx + 1)
    {
      f := f + 1;
    }
    if f < |format| && format[f] == 'Y' {
      var pad, width, j := '\0', -1, idx + 1;
      while j < |format| && (format[j] == '0' || format[j] == '+' || format[j] == '_')
        invariant idx < j <= |format|
        invariant ReadPad(format, j, pad) == ReadPad(format, idx + 1, '\0')
      {
        pad := format[j];
        j := j + 1;
      }
      if j < |format| && IsDigit(format[j]) {
        width := 0;
        ghost var start := j;
        while j < |format| && IsDigit(format[j])
          invariant idx < start <= j <= |format|
          invariant ReadWidth(format, j, width) == ReadWidth(format, start, 0)
        {
          width := AddDigit(width, DigitValue(format[j]));
          j := j + 1;
        }
      }
      m := Modifiers(j, pad, width);
    } else {
      m := Modifiers(idx + 1, '\0', -1);
    }
  }

  /** `fmt_do`: it ends on every format, and for every limit writes exactly the part of the
      format's unlimited text that fits. */
  method FmtDo(buf: array<char>, format: string, tm: Tm, env: Env, pt: nat, ptlim: nat) returns (end: nat)
    requires pt <= ptlim <= buf.Length
    modifies buf
    ensures pt <= end <= ptlim
    ensures Wrote(old(buf[..]), buf[..], pt, ptlim, Expand(format, tm, env), end)
    decreases Rank(format), |format| + 1
  {
    hide Wrote, Directive, ReadModifiers, Rank;
    end := pt;
    var idx := 0;
    ghost var done := "";
    WroteNothing(buf[..], pt, ptlim);
    while idx < |format|
      invariant 0 <= idx <= |format| && pt <= end <= ptlim
      invariant Wrote(old(buf[..]), buf[..], pt, ptlim, done, end)
      invariant Expand(format, tm, env) == done + ExpandFrom(format, idx, tm, env)
    {
      ghost var mid, k := buf[..], end;
      ghost var text;
      if format[idx] != '%' {
        end := PutChar(buf, end, ptlim, format[idx]);
        text := [format[idx]];
        idx := idx + 1;
      } else {
        var m := ScanModifiers(format, idx);
        end, idx, text := FmtDirective(buf, format, tm, env, end, ptlim, idx, m);
      }
      WroteBoth(old(buf[..]), mid, buf[..], pt, ptlim, done, k, text, end);
      Associate(done, text, ExpandFrom(format, idx, tm, env));
      done := done + text;
    }
    assert done + "" == done;
  }

  /** One '%' directive; `text` is what it stands for. */
  method FmtDirective(buf: array<char>, format: string, tm: Tm, env: Env, pt: nat, ptlim: nat, idx: nat, m: Modifiers)
    returns (end: nat, next: nat, ghost text: string)
    requires pt <= ptlim <= buf.Length
    requires idx < |format| && format[idx] == '%' && m == ReadModifiers(format, idx)
    modifies buf
    ensures pt <= end <= ptlim
    ensures Wrote(old(buf[..]), buf[..], pt, ptlim, text, end)
    ensures (text, next) == Directive(format, idx, tm, env)
    decreases Rank(format), |format|
  {
    hide Wrote, Simple, UntilNul, Rank, Expand, ReadModifiers, Composite;
    end := pt;
    WroteNothing(buf[..], pt, ptlim);
    if m.next == |format| {
      end := PutChar(buf, pt, ptlim, '%');
      return end, m.next, "%";
    }
    var c := format[m.next];
    if c == '\0' {
      return end, m.next, "";
    }
    if c == 'E' || c == 'O' {
      if m.next + 1 < |format| {
        ModifierRank(format, m.next);
        end := FmtDo(buf, ['%', format[m.next + 1]], tm, env, pt, ptlim);
        return end, m.next + 2, Expand(['%', format[m.next + 1]], tm, env);
      }
      return end, m.next + 1, "";
    }
    if Composite(c).Some? {
      CompositeRank(format, c);
      end := FmtDo(buf, Composite(c).value, tm, env, pt, ptlim);
      return end, m.next + 1, Expand(Composite(c).value, tm, env);
    }
    end := FmtSimple(buf, pt, ptlim, c, tm, env, m.pad, m.width);
    return end, m.next + 1, UntilNul(Simple(c, tm, env, m.pad, m.width));
  }

  /** `R_strftime` on a buffer of at least `maxsize` bytes.  A missing format means "%c".  A text
      that fills the buffer counts as not fitting; otherwise it is followed by a NUL. */
  method RStrftime(s: array?<char>, maxsize: nat, format: Option<string>, tm: Tm, env: Env) returns (n: nat)
    requires s != null ==> maxsize <= s.Length
    modifies if s != null then {s} else {}
    ensures s == null || maxsize == 0 ==> n == 0
    ensures s != null && maxsize == 0 ==> s[..] == old(s[..])
    ensures s != null && maxsize > 0 ==>
      var text := Expand(if format.Some? then format.value else "%c", tm, env);
      if |text| >= maxsize then n == 0 && s[..] == text[..maxsize] + old(s[maxsize..])
      else n == |text| && s[..] == text + ['\0'] + old(s[n + 1..])
  {
    if s == null || maxsize == 0 {
      return 0;
    }
    ghost var before := s[..];
    var pt := FmtDo(s, if format.Some? then format.value else "%c", tm, env, 0, maxsize);
    ghost var text := Expand(if format.Some? then format.value else "%c", tm, env);
    if pt == maxsize {
      assert s[..] == text[..maxsize] + before[maxsize..];
      return 0;
    }
    assert s[..] == text + before[pt..];
    s[pt] := '\0';
    n := pt;
    assert s[..] == (text + before[pt..])[pt := '\0'];
    TextThenNul(before, text);
  }

  lemma TextThenNul(before: string, text: string)
    requires |text| < |before|
    ensures (text + before[|text|..])[|text| := '\0'] == text + ['\0'] + before[|text| + 1..]
  {
  }

  // -------------------------------------------------------------------------
  // Properties of the text
  // -------------------------------------------------------------------------

  /** A width is read back from its own numeral. */
  lemma {:induction false} WidthReadsBack(before: string, n: nat, after: string)
    ensures |before + Show(n)| <= |before + Show(n) + after|
    ensures ParseWidth(before + Show(n) + after, |before|, 0) == ParseWidth(before + Show(n) + after, |before + Show(n)|, n)
  {
    var f := before + Show(n) + after;
    if n < 10 {
      assert f[|before|] == Digit(n);
    } else {
      var d := [Digit(n % 10)];
      WidthReadsBack(before, n / 10, d + after);
      assert f == before + Show(n / 10) + (d + after);
      assert f[|before + Show(n / 10)|] == d[0];
    }
  }

  /** What the assembled %Y directive means: zero padding for '0' and '+', and the width.  The
      '+' stands after the width, where flags are no longer read, so a year above 9999 gets its
      plus sign exactly when '+' was given without a width. */
  lemma YearConversion(pad: char, width: int, year: int)
    ensures ParseConversion(YearFormat(pad, width, year))
      == Conversion(pad == '0' || pad == '+', pad == '+' && year > 9999 && width <= 0, if width > 0 then width else 0)
  {
    var zero := if pad == '0' || pad == '+' then "0" else "";
    var tail := (if pad == '+' && year > 9999 then "+" else "") + "d";
    hide ParseConversion, ParseFlags, Show;
    if width > 0 {
      FirstDigit(width);
      assert YearFormat(pad, width, year) == "%" + (zero + Show(width) + tail);
      AfterPercent(zero + Show(width) + tail);
      FlagsWithWidth(zero, width, tail);
    } else {
      assert YearFormat(pad, width, year) == "%" + (zero + tail);
      AfterPercent(zero + tail);
      FlagsWithoutWidth(zero, tail);
    }
  }

  lemma AfterPercent(f: string)
    requires f != "" && f[0] != '%' && f[0] != 'l'
    ensures ParseConversion("%" + f) == ParseFlags(f, 0, false, false)
  {
    hide ParseFlags, TrimLeading;
    TrimOnce(f);
  }

  lemma FlagsWithWidth(zero: string, width: nat, tail: string)
    requires zero == "" || zero == "0"
    requires width > 0 && tail != "" && !IsDigit(tail[0])
    ensures ParseFlags(zero + Show(width) + tail, 0, false, false) == Conversion(zero == "0", false, width)
  {
    var f := zero + Show(width) + tail;
    FirstDigit(width);
    WidthReadsBack(zero, width, tail);
    hide Show;
    assert f[|zero|] == Show(width)[0];
    assert f[|zero + Show(width)|] == tail[0];
    assert ParseFlags(f, |zero|, zero == "0", false) == Conversion(zero == "0", false, width);
  }

  lemma FlagsWithoutWidth(zero: string, tail: string)
    requires zero == "" || zero == "0"
    requires tail == "d" || tail == "+d"
    ensures ParseFlags(zero + tail, 0, false, false) == Conversion(zero == "0", tail == "+d", 0)
  {
    var f := zero + tail;
    assert f[|zero|] == tail[0];
    assert tail == "+d" ==> f[|zero| + 1] == 'd';
    assert ParseFlags(f, |zero|, zero == "0", false) == Conversion(zero == "0", tail == "+d", 0);
  }

  lemma {:induction false} FirstDigit(n: nat)
    requires n > 0
    ensures Show(n)[0] != '0' && IsDigit(Show(n)[0])
  {
    if n >= 10 {
      FirstDigit(n / 10);
      assert Show(n)[0] == Show(n / 10)[0];
    }
  }

  lemma TrimOnce(f: string)
    requires f != "" && f[0] != '%' && f[0] != 'l'
    ensures TrimLeading(TrimLeading("%" + f, '%'), 'l') == f
  {
    assert ("%" + f)[1..] == f;
  }
}
