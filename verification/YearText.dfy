/** The number printers of the `strftime` port, `fmt_conv` and `fmt_yconv`
    (`crates/rmath/src/tzone_strftime.rs`), as the texts they append. */
module YearText {
  import opened Wrappers
  import opened Decimal
  import opened Calendar

  const I32_MIN := -0x8000_0000
  const I32_MAX := 0x7fff_ffff

  predicate IsI32(n: int) {
    I32_MIN <= n <= I32_MAX
  }

  // -------------------------------------------------------------------------
  // fmt_conv
  // -------------------------------------------------------------------------

  datatype Conversion = Conversion(zeros: bool, plus: bool, width: nat)

  function TrimLeading(s: string, c: char): string {
    if s != "" && s[0] == c then TrimLeading(s[1..], c) else s
  }

  /** The printf directive: flags, then a width.  What follows the width is ignored. */
  function ParseConversion(format: string): Conversion {
    var f := TrimLeading(TrimLeading(format, '%'), 'l');
    ParseFlags(f, 0, false, false)
  }

  function ParseFlags(f: string, i: nat, zeros: bool, plus: bool): Conversion
    requires i <= |f|
    decreases |f| - i
  {
    if i < |f| && f[i] == '0' then ParseFlags(f, i + 1, true, plus)
    else if i < |f| && f[i] == '+' then ParseFlags(f, i + 1, zeros, true)
    else if i < |f| && f[i] == '-' then ParseFlags(f, i + 1, zeros, plus)
    else Conversion(zeros, plus, ParseWidth(f, i, 0))
  }

  function ParseWidth(f: string, i: nat, width: nat): nat
    requires i <= |f|
    decreases |f| - i
  {
    if i < |f| && IsDigit(f[i]) then ParseWidth(f, i + 1, width * 10 + DigitValue(f[i])) else width
  }

  /** The digits printed for the magnitude of `n`.  Negation wraps for the least i32, whose
      magnitude therefore prints with a sign of its own. */
  function Magnitude(n: int): string {
    if n == I32_MIN then "-" + Show(-n) else if n < 0 then Show(-n) else Show(n)
  }

  function Sign(n: int, plus: bool): string {
    if n < 0 then "-" else if plus then "+" else ""
  }

  function ConvText(n: int, c: Conversion): string {
    var sign, digits := Sign(n, c.plus), Magnitude(n);
    var length := |sign| + |digits|;
    var pad: nat := if length < c.width then c.width - length else 0;
    if c.zeros then sign + Repeat('0', pad) + digits
    else Repeat(' ', pad) + (sign + digits)
  }

  function Max(a: nat, b: nat): nat {
    if a < b then b else a
  }

  lemma ConvLength(n: int, c: Conversion)
    ensures |ConvText(n, c)| == Max(c.width, |Sign(n, c.plus)| + |Magnitude(n)|)
  {
  }

  lemma SignedReads(n: int, m: nat, plus: bool, k: nat)
    requires m == if n < 0 then -n else n
    ensures ReadInt(Sign(n, plus) + Repeat('0', k) + Show(m)) == Some(n)
  {
    ReadShow(m);
    ReadLeadingZeros(k, Show(m));
    var digits := Repeat('0', k) + Show(m);
    assert |digits| >= 1;
    hide ReadInt, Read, Show, Repeat;
    ReadIntSigned(Sign(n, plus), digits);
    Associate(Sign(n, plus), Repeat('0', k), Show(m));
  }

  /** For every flag and width, the printed text reads back as the number, except for the least
      i32, which is printed with two signs. */
  lemma ConvReadsBack(n: int, c: Conversion)
    ensures ReadInt(ConvText(n, c)) == Some(n) <==> n != I32_MIN
  {
    hide Show, ReadInt;
    var sign, digits := Sign(n, c.plus), Magnitude(n);
    var pad := |ConvText(n, c)| - |sign| - |digits|;
    if n == I32_MIN {
      TwoSigns(c, pad);
    } else {
      var m := if n < 0 then -n else n;
      SignedReads(n, m, c.plus, pad);
      SignedReads(n, m, c.plus, 0);
      ReadIntSkipsBlanks(pad, sign + digits);
      assert sign + Repeat('0', 0) + digits == sign + digits;
    }
  }

  lemma TwoSigns(c: Conversion, pad: nat)
    requires pad == |ConvText(I32_MIN, c)| - 1 - |Magnitude(I32_MIN)|
    ensures ReadInt(ConvText(I32_MIN, c)).None?
  {
    hide Show;
    var digits := Magnitude(I32_MIN);
    SecondSign(pad, digits);
    if !c.zeros {
      ReadIntSkipsBlanks(pad, "-" + digits);
      SecondSign(0, digits);
      assert "-" + Repeat('0', 0) + digits == "-" + digits;
    }
  }

  lemma SecondSign(pad: nat, digits: string)
    requires digits != "" && digits[0] == '-'
    ensures ReadInt("-" + Repeat('0', pad) + digits).None?
  {
    var t := "-" + Repeat('0', pad) + digits;
    assert t[1..] == Repeat('0', pad) + digits;
    assert t[1..][pad] == '-';
  }

  // -------------------------------------------------------------------------
  // fmt_yconv
  // -------------------------------------------------------------------------

  const TWO_DIGITS := Conversion(true, false, 2)

  /** Century and year within it, for the year `a + b`, computed without forming the sum. */
  function Split(a: int, b: int): (r: (int, int)) {
    var trail0 := TMod(a, 100) + TMod(b, 100);
    var lead0 := TDiv(a, 100) + TDiv(b, 100) + TDiv(trail0, 100);
    var trail := TMod(trail0, 100);
    if trail < 0 && lead0 > 0 then (lead0 - 1, trail + 100)
    else if lead0 < 0 && trail > 0 then (lead0 + 1, trail - 100)
    else (lead0, trail)
  }

  /** The split is exact, and its parts never have opposite signs.  For 32-bit arguments every
      intermediate value fits in 32 bits. */
  lemma SplitIsExact(a: int, b: int)
    ensures var (lead, trail) := Split(a, b);
      && 100 * lead + trail == a + b
      && -100 < trail < 100
      && !(lead > 0 && trail < 0) && !(lead < 0 && trail > 0)
    ensures IsI32(a) && IsI32(b) ==> I32_MIN < Split(a, b).0 <= I32_MAX
  {
    var trail0 := TMod(a, 100) + TMod(b, 100);
    Truncation(a);
    Truncation(b);
    Truncation(trail0);
    hide TDiv, TMod;
  }

  lemma Truncation(a: int)
    ensures a == 100 * TDiv(a, 100) + TMod(a, 100)
    ensures -100 < TMod(a, 100) < 100
    ensures a >= 0 ==> TMod(a, 100) >= 0 && TDiv(a, 100) >= 0
    ensures a <= 0 ==> TMod(a, 100) <= 0 && TDiv(a, 100) <= 0
  {
  }

  function YconvText(a: int, b: int, convertTop: bool, convertYy: bool): string {
    var (lead, trail) := Split(a, b);
    (if !convertTop then "" else if lead == 0 && trail < 0 then "-0" else ConvText(lead, TWO_DIGITS)) +
    (if !convertYy then "" else ConvText(if trail < 0 then -trail else trail, TWO_DIGITS))
  }

  lemma TwoDigitText(n: nat)
    requires n < 100
    ensures ConvText(n, TWO_DIGITS) == [Digit(n / 10), Digit(n % 10)]
  {
    if n < 10 {
      assert Show(n) == [Digit(n)];
      assert Repeat('0', 1) == ['0'];
      assert Digit(0) == '0';
    } else {
      assert Show(n / 10) == [Digit(n / 10)];
      assert Show(n) == [Digit(n / 10)] + [Digit(n % 10)];
      assert Repeat('0', 0) == "";
    }
  }

  /** The digits of the century, with its sign in front. */
  lemma CenturyText(lead: int) returns (digits: string)
    requires lead != I32_MIN
    ensures AllDigits(digits) && digits != "" && Read(digits) == if lead < 0 then -lead else lead
    ensures ConvText(lead, TWO_DIGITS) == Sign(lead, false) + digits
  {
    var m := if lead < 0 then -lead else lead;
    var length := |Sign(lead, false)| + |Show(m)|;
    var pad := if length < 2 then 2 - length else 0;
    digits := Repeat('0', pad) + Show(m);
    ReadShow(m);
    ReadLeadingZeros(pad, Show(m));
    assert Sign(lead, false) + Repeat('0', pad) + Show(m) == Sign(lead, false) + digits;
  }

  /** Century followed by year reads back as the whole year, also between -99 and -1, where the
      century is written "-0". */
  lemma YearReadsBack(a: int, b: int)
    requires Split(a, b).0 != I32_MIN
    ensures ReadInt(YconvText(a, b, true, true)) == Some(a + b)
  {
    SplitIsExact(a, b);
    var (lead, trail) := Split(a, b);
    hide Split, Show, ReadInt, Read, ConvText;
    var yy := if trail < 0 then -trail else trail;
    TwoDigitText(yy);
    var tail := [Digit(yy / 10), Digit(yy % 10)];
    if lead == 0 && trail < 0 {
      ReadZero();
      ReadTwoMore("0", yy / 10, yy % 10);
      ReadIntSigned("-", "0" + tail);
      assert "-0" + tail == "-" + ("0" + tail);
    } else {
      var digits := CenturyText(lead);
      ReadTwoMore(digits, yy / 10, yy % 10);
      ReadIntSigned(Sign(lead, false), digits + tail);
      Associate(Sign(lead, false), digits, tail);
    }
  }

  lemma ReadZero()
    ensures AllDigits("0") && Read("0") == 0
  {
    assert "0"[..0] == "";
  }

  /** Every pair of 32-bit arguments is covered. */
  lemma YearReadsBackI32(a: int, b: int)
    requires IsI32(a) && IsI32(b)
    ensures ReadInt(YconvText(a, b, true, true)) == Some(a + b)
  {
    SplitIsExact(a, b);
    YearReadsBack(a, b);
  }
}
