/** What the single directives of `strftime` print, read back from the text: each field of the time, its padding,
    and the directives that stand for several (`crates/rmath/src/tzone_strftime.rs`). */
module StrftimeFields {
  import opened Wrappers
  import opened Arithmetic
  import opened Decimal
  import opened Calendar
  import opened YearText
  import opened Strftime
  import opened StrftimeText

  /** The text of a format of one directive. */
  function TextOf(c: char, tm: Tm, env: Env): string {
    Expand(['%', c], tm, env)
  }

  /** A directive that stands for itself alone. */
  predicate Plain(c: char) {
    IsSimple(c) && Composite(c).None?
  }

  lemma SimpleText(c: char, tm: Tm, env: Env)
    requires Plain(c)
    ensures TextOf(c, tm, env) == UntilNul(Simple(c, tm, env, '\0', -1))
  {
    hide Simple, UntilNul, ClosedFrom, Expand;
    OneDirective(c, tm, env);
  }

  lemma CleanText(c: char, text: string, tm: Tm, env: Env)
    requires Plain(c) && Simple(c, tm, env, '\0', -1) == text && Clean(text)
    ensures TextOf(c, tm, env) == text
  {
    hide Simple, UntilNul, ClosedFrom, Expand;
    SimpleText(c, tm, env);
    UntilNulOfClean(text);
  }

  /** The digits are those of the decimal system. */
  lemma DigitIs(d: nat)
    requires d < 10
    ensures Digit(d) == "0123456789"[d]
  {
  }

  // -------------------------------------------------------------------------
  // Padding
  // -------------------------------------------------------------------------

  /** A number below a hundred, a blank in place of a leading zero. */
  function Blanked(n: nat): (s: string)
    requires n < 100
    ensures |s| == 2
  {
    [if n < 10 then ' ' else Digit(n / 10), Digit(n % 10)]
  }

  lemma BlankConversion()
    ensures ParseConversion("%2d") == Conversion(false, false, 2)
  {
    assert "%2d"[1..] == "2d";
    assert ParseFlags("2d", 0, false, false) == Conversion(false, false, ParseWidth("2d", 0, 0));
    assert ParseWidth("2d", 0, 0) == ParseWidth("2d", 1, 2);
  }

  lemma BlankDigits(n: nat)
    requires n < 100
    ensures Printf(n, "%2d") == Blanked(n) && Clean(Blanked(n)) && ReadInt(Blanked(n)) == Some(n)
  {
    BlankConversion();
    hide ParseConversion, ReadInt;
    BlankShown(n);
    ConvReadsBack(n, Conversion(false, false, 2));
    hide ConvText;
    BlankText(n);
  }

  lemma BlankText(n: nat)
    requires n < 100
    ensures ConvText(n, Conversion(false, false, 2)) == Blanked(n)
  {
    BlankShown(n);
    hide Show, Blanked;
    assert "" + Show(n) == Show(n);
  }

  lemma BlankShown(n: nat)
    requires n < 100
    ensures Repeat(' ', if n < 10 then 1 else 0) + Show(n) == Blanked(n) && |Show(n)| == (if n < 10 then 1 else 2)
  {
    if n < 10 {
      assert Show(n) == [Digit(n)];
    } else {
      assert Show(n / 10) == [Digit(n / 10)];
      assert Show(n) == [Digit(n / 10)] + [Digit(n % 10)];
    }
  }

  lemma BlankedDirective(c: char, n: nat, tm: Tm, env: Env)
    requires Plain(c) && n < 100 && Simple(c, tm, env, '\0', -1) == Printf(n, "%2d")
    ensures TextOf(c, tm, env) == Blanked(n) && ReadInt(TextOf(c, tm, env)) == Some(n)
  {
    hide Simple, Printf, TextOf, Blanked, ReadInt;
    BlankDigits(n);
    CleanText(c, Blanked(n), tm, env);
  }

  lemma TwoDigited(c: char, n: nat, tm: Tm, env: Env)
    requires Plain(c) && n < 100 && Simple(c, tm, env, '\0', -1) == Printf(n, "%02d")
    ensures TextOf(c, tm, env) == Two(n) && Read(Two(n)) == n
  {
    hide Simple, Printf, Expand, Two, Read;
    TwoDigitDirective(c, n, tm, env);
  }

  // -------------------------------------------------------------------------
  // Hours
  // -------------------------------------------------------------------------

  /** The hour on a clock face: twelve at noon and at midnight. */
  function OnClock(hour: nat): (h: nat)
    requires hour < 24
    ensures 1 <= h <= 12 && (hour - h) % 12 == 0
  {
    if hour == 0 then 12 else if hour <= 12 then hour else hour - 12
  }

  /** %I is the hour on the clock face in two digits, %l the same with a blank for a leading zero, and %p is AM
      before noon and PM from noon on.  The first or second and the third together tell the hour. */
  lemma HourText(tm: Tm, env: Env)
    requires 0 <= tm.hour < 24
    ensures TextOf('I', tm, env) == Two(OnClock(tm.hour)) && Read(Two(OnClock(tm.hour))) == OnClock(tm.hour)
    ensures TextOf('l', tm, env) == Blanked(OnClock(tm.hour)) && ReadInt(TextOf('l', tm, env)) == Some(OnClock(tm.hour))
    ensures TextOf('p', tm, env) == (if tm.hour < 12 then "AM" else "PM")
    ensures TextOf('P', tm, env) == (if tm.hour < 12 then "am" else "pm")
  {
    hide TextOf, Simple, Expand, Printf, UntilNul, Two, Read, Blanked, ReadInt, Hour12, Plain, OnClock;
    HourOnClock(tm.hour);
    HourParts(tm, env);
    TwoDigited('I', OnClock(tm.hour), tm, env);
    BlankedDirective('l', OnClock(tm.hour), tm, env);
    CleanText('p', if tm.hour < 12 then "AM" else "PM", tm, env);
    CleanText('P', if tm.hour < 12 then "am" else "pm", tm, env);
  }

  lemma HourOnClock(hour: nat)
    requires hour < 24
    ensures Hour12(hour) == OnClock(hour) && hour == OnClock(hour) % 12 + if hour < 12 then 0 else 12
  {
  }

  /** So the two texts tell the hour. */
  lemma HourFromText(tm: Tm, env: Env)
    requires 0 <= tm.hour < 24
    ensures AllDigits(TextOf('I', tm, env))
    ensures tm.hour == Read(TextOf('I', tm, env)) % 12 + if TextOf('p', tm, env) == "PM" then 12 else 0
  {
    hide TextOf, OnClock, Read;
    HourText(tm, env);
    HourOnClock(tm.hour);
    assert "AM"[0] != "PM"[0];
  }

  lemma HourParts(tm: Tm, env: Env)
    ensures Plain('I') && Plain('l') && Plain('p') && Plain('P')
    ensures Simple('I', tm, env, '\0', -1) == Printf(Hour12(tm.hour), "%02d") && Simple('l', tm, env, '\0', -1) == Printf(Hour12(tm.hour), "%2d")
    ensures Simple('p', tm, env, '\0', -1) == (if tm.hour < 12 then "AM" else "PM")
    ensures Simple('P', tm, env, '\0', -1) == (if tm.hour < 12 then "am" else "pm")
  {
    hide Printf, Hour12;
  }

  // -------------------------------------------------------------------------
  // Days
  // -------------------------------------------------------------------------

  function Three(n: nat): (s: string)
    requires n < 1000
    ensures |s| == 3 && AllDigits(s)
  {
    [Digit(n / 100), Digit(n / 10 % 10), Digit(n % 10)]
  }

  lemma ThreeDigits(n: nat)
    requires n < 1000
    ensures Printf(n, "%03d") == Three(n) && Clean(Three(n)) && Read(Three(n)) == n
  {
    assert "%03d"[1..] == "03d";
    assert ParseFlags("03d", 0, false, false) == ParseFlags("03d", 1, true, false);
    assert ParseWidth("03d", 1, 0) == ParseWidth("03d", 2, 3);
    assert ParseConversion("%03d") == Conversion(true, false, 3);
    hide ParseConversion, ParseFlags, ParseWidth, UntilNul;
    ThreeShown(n);
    ThreeRead(n);
  }

  lemma ThreeRead(n: nat)
    requires n < 1000
    ensures Read(Three(n)) == n
  {
    assert Three(n)[..2] == [Digit(n / 100), Digit(n / 10 % 10)] && [Digit(n / 100), Digit(n / 10 % 10)][..1] == [Digit(n / 100)];
    assert Read([Digit(n / 100)]) == n / 100;
    assert Read(Three(n)[..2]) == 10 * (n / 100) + n / 10 % 10;
  }

  lemma ThreeShown(n: nat)
    requires n < 1000
    ensures Repeat('0', if n < 10 then 2 else if n < 100 then 1 else 0) + Show(n) == Three(n) && |Show(n)| == (if n < 10 then 1 else if n < 100 then 2 else 3)
  {
    assert Digit(0) == '0';
    if n < 10 {
      assert Show(n) == [Digit(n)];
    } else if n < 100 {
      assert Show(n / 10) == [Digit(n / 10)];
      assert Show(n) == [Digit(n / 10)] + [Digit(n % 10)];
    } else {
      assert n / 10 / 10 == n / 100;
      assert Show(n / 100) == [Digit(n / 100)];
      assert Show(n / 10) == [Digit(n / 100)] + [Digit(n / 10 % 10)];
      assert Show(n) == Show(n / 10) + [Digit(n % 10)];
    }
  }

  /** %j is the day of the year from 001 on; %d and %e the day of the month, with a zero or a blank in front; %w the
      day of the week from Sunday 0, and %u the same with 7 for Sunday. */
  lemma DayText(tm: Tm, env: Env)
    requires 0 <= tm.yday < 999 && 0 <= tm.mday < 100 && 0 <= tm.wday <= 6
    ensures TextOf('j', tm, env) == Three(tm.yday + 1) && Read(Three(tm.yday + 1)) == tm.yday + 1
    ensures TextOf('d', tm, env) == Two(tm.mday) && Read(Two(tm.mday)) == tm.mday
    ensures TextOf('e', tm, env) == Blanked(tm.mday) && ReadInt(TextOf('e', tm, env)) == Some(tm.mday)
    ensures TextOf('w', tm, env) == ["0123456"[tm.wday]]
    ensures TextOf('u', tm, env) == ["7123456"[tm.wday]]
  {
    DayParts(tm, env);
    hide TextOf, Simple, Expand, Printf, UntilNul, Two, Read, Blanked, ReadInt, Three, Plain;
    ThreeDigits(tm.yday + 1);
    CleanText('j', Three(tm.yday + 1), tm, env);
    TwoDigited('d', tm.mday, tm, env);
    BlankedDirective('e', tm.mday, tm, env);
    DigitIs(tm.wday);
    DigitIs(if tm.wday == 0 then 7 else tm.wday);
    OneDigit(tm.wday);
    OneDigit(if tm.wday == 0 then 7 else tm.wday);
    CleanText('w', [Digit(tm.wday)], tm, env);
    CleanText('u', [Digit(if tm.wday == 0 then 7 else tm.wday)], tm, env);
  }

  lemma DayParts(tm: Tm, env: Env)
    ensures Plain('j') && Plain('d') && Plain('e') && Plain('w') && Plain('u')
    ensures Simple('j', tm, env, '\0', -1) == Printf(tm.yday + 1, "%03d")
    ensures Simple('d', tm, env, '\0', -1) == Printf(tm.mday, "%02d") && Simple('e', tm, env, '\0', -1) == Printf(tm.mday, "%2d")
    ensures Simple('w', tm, env, '\0', -1) == Printf(tm.wday, "%d")
    ensures Simple('u', tm, env, '\0', -1) == Printf(if tm.wday == 0 then 7 else tm.wday, "%d")
  {
    hide Printf;
  }

  lemma OneDigit(n: nat)
    requires n < 10
    ensures Printf(n, "%d") == [Digit(n)] && Clean([Digit(n)])
  {
    assert "%d"[1..] == "d";
    assert ParseConversion("%d") == Conversion(false, false, 0);
    assert Show(n) == [Digit(n)];
    assert Repeat(' ', 0) == "";
  }

  /** %H and %k, the hour of the day; %M, %S and %m. */
  lemma ClockText(tm: Tm, env: Env)
    requires 0 <= tm.hour < 100 && 0 <= tm.min < 100 && 0 <= tm.sec < 100 && 0 <= tm.mon < 99
    ensures TextOf('H', tm, env) == Two(tm.hour) && Read(Two(tm.hour)) == tm.hour
    ensures TextOf('k', tm, env) == Blanked(tm.hour) && ReadInt(TextOf('k', tm, env)) == Some(tm.hour)
    ensures TextOf('M', tm, env) == Two(tm.min) && TextOf('S', tm, env) == Two(tm.sec) && TextOf('m', tm, env) == Two(tm.mon + 1)
  {
    ClockParts(tm, env);
    hide TextOf, Simple, Expand, Printf, UntilNul, Two, Read, Blanked, ReadInt, Plain;
    TwoDigited('H', tm.hour, tm, env);
    BlankedDirective('k', tm.hour, tm, env);
    TwoDigited('M', tm.min, tm, env);
    TwoDigited('S', tm.sec, tm, env);
    TwoDigited('m', tm.mon + 1, tm, env);
  }

  lemma ClockParts(tm: Tm, env: Env)
    ensures Plain('H') && Plain('k') && Plain('M') && Plain('S') && Plain('m')
    ensures Simple('H', tm, env, '\0', -1) == Printf(tm.hour, "%02d") && Simple('k', tm, env, '\0', -1) == Printf(tm.hour, "%2d")
    ensures Simple('M', tm, env, '\0', -1) == Printf(tm.min, "%02d") && Simple('S', tm, env, '\0', -1) == Printf(tm.sec, "%02d")
    ensures Simple('m', tm, env, '\0', -1) == Printf(tm.mon + 1, "%02d")
  {
    hide Printf;
  }

  lemma NumberReads(c: char, n: int, format: string, tm: Tm, env: Env)
    requires Plain(c) && Simple(c, tm, env, '\0', -1) == Printf(n, format) && n != I32_MIN
    ensures ReadInt(TextOf(c, tm, env)) == Some(n)
  {
    hide TextOf, Simple, Plain, ConvText, ParseConversion, UntilNul, ReadInt;
    SimpleText(c, tm, env);
    ConvIsClean(n, ParseConversion(format));
    ConvReadsBack(n, ParseConversion(format));
  }

  /** Whatever the fields hold, within 32 bits: each number reads back, with its padding and its sign. */
  lemma NumbersReadBack(tm: Tm, env: Env)
    requires -0x8000_0000 < tm.mday && -0x8000_0000 < tm.hour && -0x8000_0000 < tm.min && -0x8000_0000 < tm.sec && -0x8000_0000 < tm.wday
    requires -0x8000_0000 <= tm.mon && -0x8000_0000 <= tm.yday
    ensures ReadInt(TextOf('d', tm, env)) == Some(tm.mday) == ReadInt(TextOf('e', tm, env))
    ensures ReadInt(TextOf('H', tm, env)) == Some(tm.hour) == ReadInt(TextOf('k', tm, env))
    ensures ReadInt(TextOf('M', tm, env)) == Some(tm.min) && ReadInt(TextOf('S', tm, env)) == Some(tm.sec)
    ensures ReadInt(TextOf('m', tm, env)) == Some(tm.mon + 1) && ReadInt(TextOf('j', tm, env)) == Some(tm.yday + 1)
    ensures ReadInt(TextOf('w', tm, env)) == Some(tm.wday)
    ensures ReadInt(TextOf('u', tm, env)) == Some(if tm.wday == 0 then 7 else tm.wday)
  {
    DayParts(tm, env);
    ClockParts(tm, env);
    hide TextOf, Simple, Plain, Printf, ReadInt;
    NumberReads('d', tm.mday, "%02d", tm, env);
    NumberReads('e', tm.mday, "%2d", tm, env);
    NumberReads('H', tm.hour, "%02d", tm, env);
    NumberReads('k', tm.hour, "%2d", tm, env);
    NumberReads('M', tm.min, "%02d", tm, env);
    NumberReads('S', tm.sec, "%02d", tm, env);
    NumberReads('m', tm.mon + 1, "%02d", tm, env);
    NumberReads('j', tm.yday + 1, "%03d", tm, env);
    NumberReads('w', tm.wday, "%d", tm, env);
    NumberReads('u', if tm.wday == 0 then 7 else tm.wday, "%d", tm, env);
  }

  // -------------------------------------------------------------------------
  // Names
  // -------------------------------------------------------------------------

  function DayName(wday: int): string {
    if wday == 0 then "Sunday" else if wday == 1 then "Monday" else if wday == 2 then "Tuesday"
    else if wday == 3 then "Wednesday" else if wday == 4 then "Thursday" else if wday == 5 then "Friday"
    else if wday == 6 then "Saturday" else "?"
  }

  function MonthName(mon: int): string {
    if mon == 0 then "January" else if mon == 1 then "February" else if mon == 2 then "March"
    else if mon == 3 then "April" else if mon == 4 then "May" else if mon == 5 then "June"
    else if mon == 6 then "July" else if mon == 7 then "August" else if mon == 8 then "September"
    else if mon == 9 then "October" else if mon == 10 then "November" else if mon == 11 then "December" else "?"
  }

  function Short(name: string): string {
    if |name| <= 3 then name else name[..3]
  }

  lemma DayNames(wday: int)
    ensures Name(DAY_NAMES, wday) == DayName(wday) && Name(ABDAY_NAMES, wday) == Short(DayName(wday))
    ensures Clean(DayName(wday)) && Clean(Short(DayName(wday)))
  {
  }

  lemma MonthNames(mon: int)
    ensures Name(MON_NAMES, mon) == MonthName(mon) && Name(ABMON_NAMES, mon) == Short(MonthName(mon))
    ensures Clean(MonthName(mon)) && Clean(Short(MonthName(mon)))
  {
  }

  /** %A and %B are the English names of day and month, %a, %b and %h their first three letters; a question mark
      stands for a day or a month that there is not. */
  lemma NameText(tm: Tm, env: Env)
    ensures TextOf('A', tm, env) == DayName(tm.wday) && TextOf('a', tm, env) == Short(DayName(tm.wday))
    ensures TextOf('B', tm, env) == MonthName(tm.mon)
    ensures TextOf('b', tm, env) == Short(MonthName(tm.mon)) == TextOf('h', tm, env)
  {
    hide TextOf, Simple, Plain, Name, DayName, MonthName, Short;
    NameParts(tm, env);
    DayNames(tm.wday);
    MonthNames(tm.mon);
    CleanText('A', DayName(tm.wday), tm, env);
    CleanText('a', Short(DayName(tm.wday)), tm, env);
    CleanText('B', MonthName(tm.mon), tm, env);
    CleanText('b', Short(MonthName(tm.mon)), tm, env);
    CleanText('h', Short(MonthName(tm.mon)), tm, env);
  }

  lemma NameParts(tm: Tm, env: Env)
    ensures Plain('A') && Plain('a') && Plain('B') && Plain('b') && Plain('h')
    ensures Simple('A', tm, env, '\0', -1) == Name(DAY_NAMES, tm.wday) && Simple('a', tm, env, '\0', -1) == Name(ABDAY_NAMES, tm.wday)
    ensures Simple('B', tm, env, '\0', -1) == Name(MON_NAMES, tm.mon)
    ensures Simple('b', tm, env, '\0', -1) == Name(ABMON_NAMES, tm.mon) == Simple('h', tm, env, '\0', -1)
  {
    hide Name;
  }

  /** The names are different, so the short text tells the day, and the month. */
  lemma NamesDiffer(i: int, k: int)
    ensures 0 <= i < 7 && 0 <= k < 7 && Short(DayName(i)) == Short(DayName(k)) ==> i == k
    ensures 0 <= i < 12 && 0 <= k < 12 && Short(MonthName(i)) == Short(MonthName(k)) ==> i == k
  {
    if 0 <= i < 7 && 0 <= k < 7 && Short(DayName(i)) == Short(DayName(k)) {
      assert Short(DayName(i))[0] == Short(DayName(k))[0] && Short(DayName(i))[1] == Short(DayName(k))[1];
    }
    if 0 <= i < 12 && 0 <= k < 12 && Short(MonthName(i)) == Short(MonthName(k)) {
      assert Short(MonthName(i))[0] == Short(MonthName(k))[0] && Short(MonthName(i))[1] == Short(MonthName(k))[1]
        && Short(MonthName(i))[2] == Short(MonthName(k))[2];
    }
  }

  // -------------------------------------------------------------------------
  // Weeks and years
  // -------------------------------------------------------------------------

  /** %U and %W are the numbers of Sundays and of Mondays in the year so far, in a real year two digits each. */
  lemma WeekText(tm: Tm, env: Env)
    requires 0 <= tm.yday && 0 <= tm.wday <= 6
    ensures ReadInt(TextOf('U', tm, env)) == Some(DaysSoFar(tm.yday, tm.wday, 0))
    ensures ReadInt(TextOf('W', tm, env)) == Some(DaysSoFar(tm.yday, tm.wday, 1))
    ensures tm.yday < 366 ==>
      && DaysSoFar(tm.yday, tm.wday, 0) < 100 && TextOf('U', tm, env) == Two(DaysSoFar(tm.yday, tm.wday, 0))
      && DaysSoFar(tm.yday, tm.wday, 1) < 100 && TextOf('W', tm, env) == Two(DaysSoFar(tm.yday, tm.wday, 1))
  {
    WeekCounts(tm.yday, tm.wday);
    WeekParts(tm, env);
    hide TextOf, Simple, Plain, Printf, Two, Read, ReadInt, DaysSoFar, SundayWeek, MondayWeek;
    NumberReads('U', DaysSoFar(tm.yday, tm.wday, 0), "%02d", tm, env);
    NumberReads('W', DaysSoFar(tm.yday, tm.wday, 1), "%02d", tm, env);
    if tm.yday < 366 {
      WeekRange(tm.yday, tm.wday);
      TwoDigited('U', DaysSoFar(tm.yday, tm.wday, 0), tm, env);
      TwoDigited('W', DaysSoFar(tm.yday, tm.wday, 1), tm, env);
    }
  }

  lemma WeekRange(yday: nat, wday: int)
    requires yday < 366 && 0 <= wday <= 6
    ensures SundayWeek(yday, wday) < 100 && MondayWeek(yday, wday) < 100
  {
  }

  lemma WeekParts(tm: Tm, env: Env)
    ensures Plain('U') && Plain('W')
    ensures Simple('U', tm, env, '\0', -1) == Printf(SundayWeek(tm.yday, tm.wday), "%02d")
    ensures Simple('W', tm, env, '\0', -1) == Printf(MondayWeek(tm.yday, tm.wday), "%02d")
  {
    hide Printf, SundayWeek, MondayWeek;
  }

  /** %C and %y, century and year within it, read back together as the year. */
  lemma CenturyAndYear(tm: Tm, env: Env)
    requires IsI32(tm.year)
    ensures ReadInt(TextOf('C', tm, env) + TextOf('y', tm, env)) == Some(1900 + tm.year)
    ensures Expand("%C%y", tm, env) == TextOf('C', tm, env) + TextOf('y', tm, env)
  {
    hide TextOf, Simple, Plain, YconvText, ReadInt, UntilNul, Expand, ClosedFrom;
    YearParts(tm, env);
    YconvIsClean(tm.year, 1900, true, false);
    YconvIsClean(tm.year, 1900, false, true);
    SimpleText('C', tm, env);
    SimpleText('y', tm, env);
    YconvJoins(tm.year, 1900);
    YearReadsBackI32(tm.year, 1900);
    BothJoined('C', 'y', tm, env);
    assert ['%', 'C'] + ['%', 'y'] == "%C%y";
  }

  lemma YconvJoins(a: int, b: int)
    ensures YconvText(a, b, true, false) + YconvText(a, b, false, true) == YconvText(a, b, true, true)
  {
    hide Split, ConvText;
  }

  lemma BothJoined(c: char, d: char, tm: Tm, env: Env)
    requires Plain(c)
    ensures Expand(['%', c] + ['%', d], tm, env) == TextOf(c, tm, env) + TextOf(d, tm, env)
  {
    hide Expand, ClosedFrom;
    OneDirective(c, tm, env);
    FormatsCompose(['%', c], ['%', d], tm, env);
  }

  lemma YearParts(tm: Tm, env: Env)
    ensures Plain('C') && Plain('y') && Plain('g')
    ensures Simple('C', tm, env, '\0', -1) == YconvText(tm.year, 1900, true, false)
    ensures Simple('y', tm, env, '\0', -1) == YconvText(tm.year, 1900, false, true)
    ensures Simple('g', tm, env, '\0', -1) == YconvText(tm.year, IsoFrom(tm.year, 1900, tm.yday, tm.wday).1, false, true)
  {
    hide YconvText, IsoFrom;
  }

  /** %y is the year within its century in two digits, and %g that of the ISO year, of years after 0. */
  lemma YearInCentury(tm: Tm, env: Env)
    requires IsI32(tm.year) && 0 <= tm.wday <= 6 && 0 <= tm.yday < YearLength(1900 + tm.year)
    ensures tm.year >= -1900 ==> TextOf('y', tm, env) == Two((1900 + tm.year) % 100)
    ensures var y := IsoYear(1900 + tm.year, tm.yday, tm.wday); y >= 0 ==> TextOf('g', tm, env) == Two(y % 100)
  {
    hide TextOf, Simple, Plain, YconvText, UntilNul, Two, IsoFrom, IsoYear, YearLength;
    YearParts(tm, env);
    SimpleText('y', tm, env);
    SimpleText('g', tm, env);
    IsoWeekDate(tm.year, tm.yday, tm.wday);
    var base := IsoFrom(tm.year, 1900, tm.yday, tm.wday).1;
    YconvIsClean(tm.year, 1900, false, true);
    YconvIsClean(tm.year, base, false, true);
    LastTwo(tm.year, 1900);
    LastTwo(tm.year, base);
  }

  lemma LastTwo(a: int, b: int)
    ensures a + b >= 0 ==> YconvText(a, b, false, true) == Two((a + b) % 100)
  {
    if a + b >= 0 {
      SplitIsExact(a, b);
      var lead, trail := Split(a, b).0, Split(a, b).1;
      hide Split, ConvText, Two;
      NotNegative(lead, trail);
      TwoDigitText(trail);
      YearWithin(a, b);
      assert Two(trail) == [Digit(trail / 10), Digit(trail % 10)];
    }
  }

  lemma NotNegative(lead: int, trail: int)
    requires -100 < trail < 100 && !(lead > 0 && trail < 0) && 100 * lead + trail >= 0
    ensures trail >= 0 && (100 * lead + trail) % 100 == trail
  {
    RemainderIs(100 * lead + trail, lead, 100, trail);
  }

  lemma YearWithin(a: int, b: int)
    requires 0 <= Split(a, b).1 < 100
    ensures YconvText(a, b, false, true) == ConvText(Split(a, b).1, TWO_DIGITS)
  {
    hide Split, ConvText;
    assert "" + ConvText(Split(a, b).1, TWO_DIGITS) == ConvText(Split(a, b).1, TWO_DIGITS);
  }

  // -------------------------------------------------------------------------
  // Zones
  // -------------------------------------------------------------------------

  /** %z is empty if it is unknown whether summer time applies; otherwise a sign and at least four digits, the last
      two of them minutes and the others hours, that give the offset in whole minutes, toward zero. */
  lemma OffsetText(tm: Tm, env: Env)
    ensures tm.isdst < 0 ==> TextOf('z', tm, env) == ""
    ensures tm.isdst >= 0 ==>
      var text := TextOf('z', tm, env);
      && |text| >= 5 && text[0] == (if tm.gmtoff < 0 then '-' else '+') && AllDigits(text[1..])
      && Read(text[1..]) % 100 < 60
      && Read(text[1..]) / 100 * 60 + Read(text[1..]) % 100 == (if tm.gmtoff < 0 then -tm.gmtoff else tm.gmtoff) / 60
  {
    hide TextOf, Simple, Plain, OffsetDirective, UntilNul, Read;
    OffsetParts(tm, env);
    SimpleText('z', tm, env);
    if tm.isdst >= 0 {
      var minutes := (if tm.gmtoff < 0 then -tm.gmtoff else tm.gmtoff) / 60;
      OffsetDigits(tm, minutes);
      OffsetReads(minutes);
      var text := OffsetDirective(tm);
      var digits := Printf(minutes / 60 * 100 + minutes % 60, "%04d");
      hide Printf;
      assert text[1..] == digits;
      assert Clean(text);
      UntilNulOfClean(text);
    }
  }

  lemma OffsetParts(tm: Tm, env: Env)
    ensures Plain('z') && Plain('Z') && Simple('z', tm, env, '\0', -1) == OffsetDirective(tm) && Simple('Z', tm, env, '\0', -1) == ZoneName(tm)
    ensures tm.isdst < 0 ==> OffsetDirective(tm) == "" && UntilNul("") == ""
  {
    hide Printf;
  }

  lemma OffsetDigits(tm: Tm, minutes: nat)
    requires tm.isdst >= 0 && minutes == (if tm.gmtoff < 0 then -tm.gmtoff else tm.gmtoff) / 60
    ensures OffsetDirective(tm) == (if tm.gmtoff < 0 then "-" else "+") + Printf(minutes / 60 * 100 + minutes % 60, "%04d")
  {
    hide Printf;
  }

  lemma OffsetReads(minutes: nat)
    ensures var n := minutes / 60 * 100 + minutes % 60;
      var digits := Printf(n, "%04d");
      && |digits| >= 4 && AllDigits(digits) && Read(digits) == n && n / 100 == minutes / 60 && n % 100 == minutes % 60
  {
    var n := minutes / 60 * 100 + minutes % 60;
    assert "%04d"[1..] == "04d";
    assert ParseFlags("04d", 0, false, false) == ParseFlags("04d", 1, true, false);
    assert ParseWidth("04d", 1, 0) == ParseWidth("04d", 2, 4);
    assert ParseConversion("%04d") == Conversion(true, false, 4);
    hide ParseConversion, ParseFlags, ParseWidth;
    var pad: nat := if |Show(n)| < 4 then 4 - |Show(n)| else 0;
    ReadShow(n);
    ReadLeadingZeros(pad, Show(n));
    hide Show, Read;
    assert ConvText(n, Conversion(true, false, 4)) == "" + Repeat('0', pad) + Show(n);
    assert "" + Repeat('0', pad) == Repeat('0', pad);
  }

  /** %Z is the name of the zone, up to a NUL; without one "UTC", or nothing if it is unknown whether summer time
      applies. */
  lemma ZoneText(tm: Tm, env: Env)
    ensures tm.zone.Some? ==> TextOf('Z', tm, env) <= tm.zone.value && (Clean(tm.zone.value) ==> TextOf('Z', tm, env) == tm.zone.value)
    ensures tm.zone.None? ==> TextOf('Z', tm, env) == (if tm.isdst >= 0 then "UTC" else "")
  {
    hide TextOf, Simple, Plain, UntilNul, OffsetDirective;
    OffsetParts(tm, env);
    SimpleText('Z', tm, env);
    if tm.zone.Some? {
      UntilNulIsPrefix(tm.zone.value);
      if Clean(tm.zone.value) {
        UntilNulOfClean(tm.zone.value);
      }
    } else {
      UntilNulOfClean("UTC");
      UntilNulOfClean("");
    }
  }

  lemma {:induction false} UntilNulIsPrefix(s: string)
    ensures UntilNul(s) <= s
  {
    if s != "" && s[0] != '\0' {
      UntilNulIsPrefix(s[1..]);
    }
  }

  // -------------------------------------------------------------------------
  // Directives that stand for several
  // -------------------------------------------------------------------------

  /** The texts of several directives, with a separator behind each but the last. */
  function JoinedTexts(cs: string, separators: string, tm: Tm, env: Env): string
    requires |cs| == |separators| + 1
    decreases |cs|
  {
    if |cs| == 1 then TextOf(cs[0], tm, env)
    else TextOf(cs[0], tm, env) + ([separators[0]] + JoinedTexts(cs[1..], separators[1..], tm, env))
  }

  function JoinedFormat(cs: string, separators: string): string
    requires |cs| == |separators| + 1
    decreases |cs|
  {
    if |cs| == 1 then ['%', cs[0]] else ['%', cs[0]] + ([separators[0]] + JoinedFormat(cs[1..], separators[1..]))
  }

  lemma {:induction false} FormatJoins(cs: string, separators: string, tm: Tm, env: Env)
    requires |cs| == |separators| + 1
    requires forall i :: 0 <= i < |cs| - 1 ==> IsSimple(cs[i]) && separators[i] != '%'
    ensures Expand(JoinedFormat(cs, separators), tm, env) == JoinedTexts(cs, separators, tm, env)
    decreases |cs|
  {
    hide Expand, IsSimple;
    if |cs| > 1 {
      FormatJoins(cs[1..], separators[1..], tm, env);
      DirectiveThen(cs[0], separators[0], JoinedFormat(cs[1..], separators[1..]), tm, env);
    }
  }

  lemma TwoJoined(a: char, b: char, s: char)
    ensures JoinedFormat([a, b], [s]) == ['%', a, s, '%', b]
  {
    assert JoinedFormat([b], []) == ['%', b];
    assert [a, b][1..] == [b] && [s][1..] == [];
  }

  lemma ThreeJoined(a: char, b: char, c: char, s: char, t: char)
    ensures JoinedFormat([a, b, c], [s, t]) == ['%', a, s, '%', b, t, '%', c]
  {
    TwoJoined(b, c, t);
    assert [a, b, c][1..] == [b, c] && [s, t][1..] == [t];
  }

  lemma FourJoined(a: char, b: char, c: char, d: char, s: char, t: char, u: char)
    ensures JoinedFormat([a, b, c, d], [s, t, u]) == ['%', a, s, '%', b, t, '%', c, u, '%', d]
  {
    ThreeJoined(b, c, d, t, u);
    assert [a, b, c, d][1..] == [b, c, d] && [s, t, u][1..] == [t, u];
  }

  lemma FiveJoined(a: char, b: char, c: char, d: char, e: char, s: char)
    ensures JoinedFormat([a, b, c, d, e], [s, s, s, s]) == ['%', a, s, '%', b, s, '%', c, s, '%', d, s, '%', e]
  {
    FourJoined(b, c, d, e, s, s, s);
    assert [a, b, c, d, e][1..] == [b, c, d, e] && [s, s, s, s][1..] == [s, s, s];
  }

  /** A directive that stands for others, with these between them. */
  lemma StandsFor(c: char, format: string, cs: string, separators: string, tm: Tm, env: Env)
    requires IsSimple(c) && Composite(c) == Some(format)
    requires |cs| == |separators| + 1 && format == JoinedFormat(cs, separators)
    requires forall i :: 0 <= i < |cs| - 1 ==> IsSimple(cs[i]) && separators[i] != '%'
    ensures TextOf(c, tm, env) == JoinedTexts(cs, separators, tm, env)
  {
    hide Expand, ClosedFrom, Composite, IsSimple, JoinedFormat, JoinedTexts, Simple, UntilNul;
    OneDirective(c, tm, env);
    FormatJoins(cs, separators, tm, env);
  }

  /** %T and %X are hour, minute and second; %R hour and minute; %D and %x month, day and year within the century;
      %F year, month and day; %v day, month name and year. */
  lemma ShortForms(tm: Tm, env: Env)
    ensures TextOf('T', tm, env) == JoinedTexts("HMS", "::", tm, env) == TextOf('X', tm, env)
    ensures TextOf('R', tm, env) == JoinedTexts("HM", ":", tm, env)
    ensures TextOf('D', tm, env) == JoinedTexts("mdy", "//", tm, env) == TextOf('x', tm, env)
    ensures TextOf('F', tm, env) == JoinedTexts("Ymd", "--", tm, env)
    ensures TextOf('v', tm, env) == JoinedTexts("ebY", "--", tm, env)
  {
    hide Expand, JoinedFormat, JoinedTexts, TextOf;
    ThreeJoined('H', 'M', 'S', ':', ':');
    StandsFor('T', "%H:%M:%S", "HMS", "::", tm, env);
    StandsFor('X', "%H:%M:%S", "HMS", "::", tm, env);
    TwoJoined('H', 'M', ':');
    StandsFor('R', "%H:%M", "HM", ":", tm, env);
    ThreeJoined('m', 'd', 'y', '/', '/');
    StandsFor('D', "%m/%d/%y", "mdy", "//", tm, env);
    StandsFor('x', "%m/%d/%y", "mdy", "//", tm, env);
    ThreeJoined('Y', 'm', 'd', '-', '-');
    StandsFor('F', "%Y-%m-%d", "Ymd", "--", tm, env);
    ThreeJoined('e', 'b', 'Y', '-', '-');
    StandsFor('v', "%e-%b-%Y", "ebY", "--", tm, env);
  }

  /** %c is day, month, day of the month, time and year, and %r hour, minute, second and AM or PM. */
  lemma LongForms(tm: Tm, env: Env)
    ensures TextOf('c', tm, env) == JoinedTexts("abeTY", "    ", tm, env)
    ensures TextOf('r', tm, env) == JoinedTexts("IMSp", ":: ", tm, env)
  {
    hide Expand, JoinedFormat, JoinedTexts, TextOf;
    FiveJoined('a', 'b', 'e', 'T', 'Y', ' ');
    StandsFor('c', "%a %b %e %T %Y", "abeTY", "    ", tm, env);
    FourJoined('I', 'M', 'S', 'p', ':', ':', ' ');
    StandsFor('r', "%I:%M:%S %p", "IMSp", ":: ", tm, env);
  }

  /** %+ is day, month, day of the month, hour, minute, second, zone and year. */
  lemma PlusForm(tm: Tm, env: Env)
    ensures TextOf('+', tm, env) == JoinedTexts("abeHMSZY", "   ::  ", tm, env)
  {
    PlusAlone(tm, env);
    PlusJoined();
    hide Expand, JoinedFormat, JoinedTexts, TextOf;
    FormatJoins("abeHMSZY", "   ::  ", tm, env);
  }

  lemma OneMoreJoined(c: char, s: char, cs: string, separators: string)
    requires |cs| == |separators| + 1
    ensures JoinedFormat([c] + cs, [s] + separators) == ['%', c, s] + JoinedFormat(cs, separators)
  {
    assert ([c] + cs)[1..] == cs && ([s] + separators)[1..] == separators;
  }

  lemma PlusJoined()
    ensures JoinedFormat("abeHMSZY", "   ::  ") == "%a %b %e %H:%M:%S %Z %Y"
  {
    FourJoined('M', 'S', 'Z', 'Y', ':', ' ', ' ');
    hide JoinedFormat;
    assert "MSZY" == ['M', 'S', 'Z', 'Y'] && ":  " == [':', ' ', ' '];
    OneMoreJoined('H', ':', "MSZY", ":  ");
    OneMoreJoined('e', ' ', ['H'] + "MSZY", [':'] + ":  ");
    OneMoreJoined('b', ' ', ['e'] + (['H'] + "MSZY"), [' '] + ([':'] + ":  "));
    OneMoreJoined('a', ' ', ['b'] + (['e'] + (['H'] + "MSZY")), [' '] + ([' '] + ([':'] + ":  ")));
    assert "abeHMSZY" == ['a'] + (['b'] + (['e'] + (['H'] + "MSZY")));
    assert "   ::  " == [' '] + ([' '] + ([' '] + ([':'] + ":  ")));
  }

  lemma PlusAlone(tm: Tm, env: Env)
    ensures TextOf('+', tm, env) == Expand("%a %b %e %H:%M:%S %Z %Y", tm, env)
  {
    var f := ['%', '+'];
    var text := Expand("%a %b %e %H:%M:%S %Z %Y", tm, env);
    PlusModifiers();
    PlusDirective(tm, env);
    hide ReadModifiers, SkipModifiers, Directive;
    assert ExpandFrom(f, 2, tm, env) == "";
    assert Expand(f, tm, env) == text + "";
  }

  lemma PlusModifiers()
    ensures ReadModifiers(['%', '+'], 0) == Modifiers(1, '\0', -1)
  {
    assert SkipModifiers(['%', '+'], 1) == 2;
  }

  lemma PlusDirective(tm: Tm, env: Env)
    requires ReadModifiers(['%', '+'], 0) == Modifiers(1, '\0', -1)
    ensures Directive(['%', '+'], 0, tm, env) == (Expand("%a %b %e %H:%M:%S %Z %Y", tm, env), 2)
  {
    hide ReadModifiers, SkipModifiers, Expand, Simple, UntilNul, Rank;
  }

  /** Characters that are no directives, and the two that stand for white space. */
  lemma OtherText(c: char, tm: Tm, env: Env)
    ensures TextOf('n', tm, env) == "\n" && TextOf('t', tm, env) == "\t" && TextOf('%', tm, env) == "%"
    ensures Clean(env.mktime) ==> TextOf('s', tm, env) == env.mktime
    ensures IsSimple(c) && c !in "aAbBcCdDeFgGhHIjklmMnpPrRsStTuUvVwWxXyYzZ" ==> TextOf(c, tm, env) == [c]
  {
    hide TextOf;
    PercentText(tm, env);
    CleanText('n', "\n", tm, env);
    CleanText('t', "\t", tm, env);
    if Clean(env.mktime) {
      CleanText('s', env.mktime, tm, env);
    }
    if IsSimple(c) && c !in "aAbBcCdDeFgGhHIjklmMnpPrRsStTuUvVwWxXyYzZ" {
      NoDirective(c, tm, env);
      CleanText(c, [c], tm, env);
    }
  }

  lemma PercentText(tm: Tm, env: Env)
    ensures TextOf('%', tm, env) == "%"
  {
    var f := ['%', '%'];
    assert SkipModifiers(f, 1) == 1;
    assert ReadModifiers(f, 0) == Modifiers(1, '\0', -1);
    hide ReadModifiers, SkipModifiers;
    UntilNulOfClean("%");
    assert Simple('%', tm, env, '\0', -1) == "%";
    hide UntilNul, Simple;
    assert Directive(f, 0, tm, env) == ("%", 2);
    assert ExpandFrom(f, 2, tm, env) == "";
    hide Directive;
    assert Expand(f, tm, env) == "%" + "";
  }

  lemma NoDirective(c: char, tm: Tm, env: Env)
    requires IsSimple(c) && c !in "aAbBcCdDeFgGhHIjklmMnpPrRsStTuUvVwWxXyYzZ"
    ensures Plain(c) && Simple(c, tm, env, '\0', -1) == [c] && Clean([c])
  {
    var all := "aAbBcCdDeFgGhHIjklmMnpPrRsStTuUvVwWxXyYzZ";
    assert forall i :: 0 <= i < |all| ==> c != all[i];
    hide Printf, Name, YconvText, YearDirective, OffsetDirective, IsoDirective, ZoneName, SundayWeek, MondayWeek;
  }

  // -------------------------------------------------------------------------
  // The width of a year
  // -------------------------------------------------------------------------

  /** A number, or the greatest of 32 bits if it is greater. */
  function Saturated(n: nat): nat {
    if n < 2_147_483_647 then n else 2_147_483_647
  }

  lemma OneMoreDigit(n: nat, d: nat)
    requires d < 10
    ensures AddDigit(Saturated(n), d) == Saturated(10 * n + d)
  {
  }

  /** The width of a %Y directive is the number of its digits, all of them, saturated. */
  lemma {:induction false} WidthSaturates(format: string, start: nat, i: nat)
    requires start <= i <= |format| && AllDigits(format[start..i])
    ensures var (k, width) := ReadWidth(format, i, Saturated(Read(format[start..i])));
      && AllDigits(format[start..k]) && width == Saturated(Read(format[start..k]))
      && (k < |format| ==> !IsDigit(format[k]))
    decreases |format| - i
  {
    if i < |format| && IsDigit(format[i]) {
      assert format[start..i + 1] == format[start..i] + [format[i]];
      assert format[start..i + 1][..i - start] == format[start..i];
      OneMoreDigit(Read(format[start..i]), DigitValue(format[i]));
      hide Read, AddDigit, Saturated;
      WidthSaturates(format, start, i + 1);
    }
  }
}
