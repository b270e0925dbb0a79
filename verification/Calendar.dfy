/** The calendar arithmetic of the `strftime` port (`crates/rmath/src/tzone_strftime.rs`): leap
    years without overflow, the ISO 8601 week, and the two simple week counts. */
module Calendar {

  const TM_YEAR_BASE := 1900

  /** Division and remainder that truncate toward zero. */
  function TDiv(a: int, b: int): int
    requires b > 0
  {
    if a >= 0 then a / b else -(-a / b)
  }

  function TMod(a: int, b: int): int
    requires b > 0
  {
    a - b * TDiv(a, b)
  }

  predicate IsLeap(y: int) {
    TMod(y, 4) == 0 && (TMod(y, 100) != 0 || TMod(y, 400) == 0)
  }

  /** `isleap_sum`: the leap test on `a + b` without forming the sum. */
  predicate IsLeapSum(a: int, b: int) {
    IsLeap(TMod(a, 400) + TMod(b, 400))
  }

  /** It is the leap test on the sum, and what it adds up stays within three digits. */
  lemma LeapSumIsLeap(a: int, b: int)
    ensures IsLeapSum(a, b) <==> IsLeap(a + b)
    ensures -798 <= TMod(a, 400) + TMod(b, 400) <= 798
  {
    var c := TMod(a, 400) + TMod(b, 400);
    LeapByRemainders(a + b);
    LeapByRemainders(c);
    SameRemainders(c, TDiv(a, 400) + TDiv(b, 400), a + b);
    TModZero(a, 400);
    TModZero(b, 400);
  }

  /** Truncation does not matter for a test against zero. */
  lemma LeapByRemainders(y: int)
    ensures IsLeap(y) <==> y % 4 == 0 && (y % 100 != 0 || y % 400 == 0)
  {
    TModZero(y, 4);
    TModZero(y, 100);
    TModZero(y, 400);
    hide TMod;
  }

  lemma SameRemainders(c: int, q: int, y: int)
    requires y == c + 400 * q
    ensures y % 4 == c % 4 && y % 100 == c % 100 && y % 400 == c % 400
  {
    assert y / 400 == c / 400 + q;
    assert y / 100 == c / 100 + 4 * q;
    assert y / 4 == c / 4 + 100 * q;
  }

  lemma TModZero(a: int, b: int)
    requires b == 4 || b == 100 || b == 400
    ensures TMod(a, b) == 0 <==> a % b == 0
    ensures -b < TMod(a, b) < b
  {
  }

  function YearLength(y: int): int {
    if IsLeap(y) then 366 else 365
  }

  // -------------------------------------------------------------------------
  // ISO 8601 weeks
  // -------------------------------------------------------------------------

  /** The first day of the ISO year that begins in the year of `yday`: -3 .. 3. */
  function Bottom(yday: int, wday: int): int {
    TMod(yday + 11 - wday, 7) - 3
  }

  function Top(bot: int, yearLength: int): int {
    var top := bot - TMod(yearLength, 7);
    (if top < -3 then top + 7 else top) + yearLength
  }

  /** The %V / %G / %g loop.  `base` is added to `year`; `rounds` counts the iterations. */
  method IsoWeek(year: int, yday0: int, wday: int) returns (w: int, base: int, ghost rounds: nat)
    ensures (w, base) == IsoFrom(year, TM_YEAR_BASE, yday0, wday)
    ensures 0 <= yday0 && 0 <= wday <= 6 ==> rounds <= 2
  {
    base := TM_YEAR_BASE;
    var yday := yday0;
    rounds := 0;
    while true
      invariant IsoFrom(year, base, yday, wday) == IsoFrom(year, TM_YEAR_BASE, yday0, wday)
      invariant 0 <= yday0 ==> yday >= 365 * rounds
      invariant 0 <= yday0 && 0 <= wday <= 6 ==> rounds <= 1
      decreases if yday < 4 then 4 - yday else 0
    {
      rounds := rounds + 1;
      var yearLength := if IsLeapSum(year, base) then 366 else 365;
      var bot := TMod(yday + 11 - wday, 7) - 3;
      var top := bot - TMod(yearLength, 7);
      if top < -3 {
        top := top + 7;
      }
      top := top + yearLength;
      if yday >= top {
        base := base + 1;
        w := 1;
        return;
      }
      if yday >= bot {
        w := 1 + TDiv(yday - bot, 7);
        return;
      }
      base := base - 1;
      yday := yday + if IsLeapSum(year, base) then 366 else 365;
    }
  }

  /** The same search as a function; it ends for every input, consistent or not. */
  function IsoFrom(year: int, base: int, yday: int, wday: int): (int, int)
    decreases if yday < 4 then 4 - yday else 0
  {
    var bot := Bottom(yday, wday);
    if yday >= Top(bot, if IsLeapSum(year, base) then 366 else 365) then (1, base + 1)
    else if yday >= bot then (1 + TDiv(yday - bot, 7), base)
    else IsoFrom(year, base - 1, yday + (if IsLeapSum(year, base - 1) then 366 else 365), wday)
  }

  /** Days from `yday` to the Thursday of its week, which runs from Monday to Sunday. */
  function ToThursday(wday: int): int {
    if wday == 0 then -3 else 4 - wday
  }

  /** The year that contains the Thursday of the week. */
  function IsoYear(y: int, yday: int, wday: int): int {
    var thursday := yday + ToThursday(wday);
    if thursday < 0 then y - 1 else if thursday >= YearLength(y) then y + 1 else y
  }

  /** The day of that year on which this Thursday falls. */
  function IsoThursday(y: int, yday: int, wday: int): int {
    var thursday := yday + ToThursday(wday);
    if thursday < 0 then thursday + YearLength(y - 1)
    else if thursday >= YearLength(y) then thursday - YearLength(y)
    else thursday
  }

  /** The loop computes the ISO 8601 week date: the year of the week's Thursday, and the week
      number that counts the Thursdays of that year. */
  lemma IsoWeekDate(year: int, yday: int, wday: int)
    requires 0 <= wday <= 6 && 0 <= yday < YearLength(year + TM_YEAR_BASE)
    ensures var (w, base) := IsoFrom(year, TM_YEAR_BASE, yday, wday);
      && year + base == IsoYear(year + TM_YEAR_BASE, yday, wday)
      && w == 1 + IsoThursday(year + TM_YEAR_BASE, yday, wday) / 7
      && 1 <= w <= 53
  {
    var y := year + TM_YEAR_BASE;
    LeapSumIsLeap(year, TM_YEAR_BASE);
    LeapSumIsLeap(year, TM_YEAR_BASE - 1);
    var bot := Bottom(yday, wday);
    hide IsLeap, IsLeapSum, Bottom, Top;
    if yday < bot {
      BeforeFirstWeek(yday, wday, YearLength(y - 1));
      BottomIsMonday(yday, wday);
      TopIsMonday(bot, YearLength(y));
      var d := yday + YearLength(y - 1);
      assert IsoFrom(year, TM_YEAR_BASE, yday, wday) == IsoFrom(year, TM_YEAR_BASE - 1, d, wday);
      assert IsoFrom(year, TM_YEAR_BASE - 1, d, wday) == (1 + TDiv(d - Bottom(d, wday), 7), TM_YEAR_BASE - 1);
    } else if yday < Top(bot, YearLength(y)) {
      InsideYear(yday, wday, YearLength(y));
    } else {
      AfterLastWeek(yday, wday, YearLength(y));
    }
  }

  /** `Bottom` is a Monday at most three days from January 1, so its Thursday is one of the first
      seven days of the year; `Top` is the same for the next year. */
  lemma BottomIsMonday(yday: int, wday: int)
    requires 0 <= yday && 0 <= wday <= 6
    ensures -3 <= Bottom(yday, wday) <= 3
    ensures (yday + ToThursday(wday) - 3 - Bottom(yday, wday)) % 7 == 0
  {
  }

  lemma TopIsMonday(bot: int, length: int)
    requires 365 <= length <= 366 && -3 <= bot <= 3
    ensures length - 3 <= Top(bot, length) <= length + 3
    ensures (Top(bot, length) - bot) % 7 == 0
  {
  }

  /** `k` whole weeks after the Monday `bot`. */
  lemma Weeks(yday: int, wday: int, bot: int) returns (k: int)
    requires 0 <= wday <= 6 && (yday + ToThursday(wday) - 3 - bot) % 7 == 0
    ensures yday + ToThursday(wday) == 7 * k + 3 + bot
    ensures 7 * k <= yday - bot <= 7 * k + 6
  {
    k := (yday + ToThursday(wday) - 3 - bot) / 7;
  }

  lemma InsideYear(yday: int, wday: int, length: int)
    requires 365 <= length <= 366 && 0 <= yday && 0 <= wday <= 6
    requires Bottom(yday, wday) <= yday < Top(Bottom(yday, wday), length)
    ensures 0 <= yday + ToThursday(wday) < length
    ensures 1 + TDiv(yday - Bottom(yday, wday), 7) == 1 + (yday + ToThursday(wday)) / 7
    ensures 1 <= 1 + TDiv(yday - Bottom(yday, wday), 7) <= 53
  {
    var bot := Bottom(yday, wday);
    BottomIsMonday(yday, wday);
    TopIsMonday(bot, length);
    hide Bottom, Top;
    var k := Weeks(yday, wday, bot);
    var t := (Top(bot, length) - bot) / 7;
    assert k < t;
  }

  lemma AfterLastWeek(yday: int, wday: int, length: int)
    requires 365 <= length <= 366 && 0 <= yday < length && 0 <= wday <= 6
    requires Top(Bottom(yday, wday), length) <= yday
    ensures length <= yday + ToThursday(wday) < length + 7
  {
    var bot := Bottom(yday, wday);
    BottomIsMonday(yday, wday);
    TopIsMonday(bot, length);
    hide Bottom, Top;
    var k := Weeks(yday, wday, bot);
    var t := (Top(bot, length) - bot) / 7;
    assert k == t;
  }

  /** A day before the first week of its year belongs to the last week of the year before, whose
      length is `before`. */
  lemma BeforeFirstWeek(yday: int, wday: int, before: int)
    requires 365 <= before <= 366 && 0 <= yday && 0 <= wday <= 6 && yday < Bottom(yday, wday)
    ensures yday + ToThursday(wday) < 0
    ensures var d := yday + before; var bot := Bottom(d, wday);
      && bot <= d < Top(bot, before)
      && 1 + TDiv(d - bot, 7) == 1 + (d + ToThursday(wday)) / 7
      && 1 <= 1 + TDiv(d - bot, 7) <= 53
  {
    hide Bottom, Top;
    var d := yday + before;
    EarlyThursday(yday, wday);
    BottomIsMonday(d, wday);
    TopIsMonday(Bottom(d, wday), before);
    var j := Weeks(d, wday, Bottom(d, wday));
    WithinLastWeek(d, Bottom(d, wday), Top(Bottom(d, wday), before), before, d + ToThursday(wday), j);
    InsideYear(d, wday, before);
  }

  lemma EarlyThursday(yday: int, wday: int)
    requires 0 <= yday < Bottom(yday, wday) && 0 <= wday <= 6
    ensures yday + ToThursday(wday) < 0
  {
    hide Bottom, Top;
    BottomIsMonday(yday, wday);
    var k := Weeks(yday, wday, Bottom(yday, wday));
    assert k < 0;
  }

  lemma WithinLastWeek(d: int, bot: int, top: int, length: int, thursday: int, j: int)
    requires (top - bot) % 7 == 0 && thursday == 7 * j + 3 + bot && 7 * j <= d - bot <= 7 * j + 6
    requires thursday < length <= top + 3
    ensures d < top
  {
    var t := (top - bot) / 7;
    assert j < t;
  }

  // -------------------------------------------------------------------------
  // Weeks counted from the first Sunday or Monday
  // -------------------------------------------------------------------------

  /** How many of the days 0 .. yday of a year fall on weekday `day`, when `yday` falls on `wday`. */
  function DaysSoFar(yday: nat, wday: int, day: int): nat
    requires 0 <= wday <= 6
  {
    (if wday == day then 1 else 0) + if yday == 0 then 0 else DaysSoFar(yday - 1, (wday + 6) % 7, day)
  }

  /** %U */
  function SundayWeek(yday: int, wday: int): int {
    TDiv(yday + 7 - wday, 7)
  }

  /** %W */
  function MondayWeek(yday: int, wday: int): int {
    TDiv(yday + 7 - (if wday != 0 then wday - 1 else 6), 7)
  }

  /** %U counts the Sundays and %W the Mondays of the year up to and including the day. */
  lemma {:induction false} WeekCounts(yday: nat, wday: int)
    requires 0 <= wday <= 6
    ensures SundayWeek(yday, wday) == DaysSoFar(yday, wday, 0)
    ensures MondayWeek(yday, wday) == DaysSoFar(yday, wday, 1)
  {
    var before := if wday == 0 then 6 else wday - 1;
    assert (wday + 6) % 7 == before;
    if yday > 0 {
      WeekCounts(yday - 1, before);
      OneMoreWeek(yday + 7 - wday);
      OneMoreWeek(yday + 7 - (if wday != 0 then wday - 1 else 6));
    }
  }

  lemma OneMoreWeek(n: int)
    requires n > 0
    ensures TDiv(n, 7) == n / 7 && TDiv(n + 7, 7) == TDiv(n, 7) + 1
    ensures n >= 7 ==> TDiv(n - 7, 7) == TDiv(n, 7) - 1
  {
  }
}
