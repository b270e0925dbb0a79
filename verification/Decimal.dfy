/** Decimal numerals as the formatter prints them, and the reader they are inverse to. */
module Decimal {
  import opened Wrappers

  function Digit(d: nat): (c: char)
    requires d < 10
    ensures IsDigit(c) && DigitValue(c) == d
  {
    ('0' as int + d) as char
  }

  predicate IsDigit(c: char) {
    '0' <= c <= '9'
  }

  function DigitValue(c: char): nat
    requires IsDigit(c)
  {
    c as int - '0' as int
  }

  predicate AllDigits(s: string) {
    forall i :: 0 <= i < |s| ==> IsDigit(s[i])
  }

  /** The shortest numeral of `n`. */
  function Show(n: nat): (s: string)
    ensures |s| >= 1 && AllDigits(s)
  {
    if n < 10 then [Digit(n)] else Show(n / 10) + [Digit(n % 10)]
  }

  /** The value of a digit string, most significant digit first. */
  function Read(s: string): nat
    requires AllDigits(s)
  {
    if s == "" then 0 else 10 * Read(s[..|s| - 1]) + DigitValue(s[|s| - 1])
  }

  function Repeat(c: char, n: nat): (s: string)
    ensures |s| == n && forall i :: 0 <= i < n ==> s[i] == c
  {
    seq(n, _ => c)
  }

  lemma {:induction false} ReadShow(n: nat)
    ensures Read(Show(n)) == n
  {
    var s := Show(n);
    if n >= 10 {
      ReadShow(n / 10);
      assert s[..|s| - 1] == Show(n / 10);
    }
  }

  lemma {:induction false} ReadLeadingZeros(k: nat, s: string)
    requires AllDigits(s)
    ensures AllDigits(Repeat('0', k) + s) && Read(Repeat('0', k) + s) == Read(s)
    decreases |s|, k
  {
    var t := Repeat('0', k) + s;
    if s != "" {
      ReadLeadingZeros(k, s[..|s| - 1]);
      assert t[..|t| - 1] == Repeat('0', k) + s[..|s| - 1];
    } else if k > 0 {
      ReadLeadingZeros(k - 1, "");
      assert t[..|t| - 1] == Repeat('0', k - 1) + "";
    }
  }

  /** Two more digits. */
  lemma ReadTwoMore(s: string, hi: nat, lo: nat)
    requires AllDigits(s) && hi < 10 && lo < 10
    ensures AllDigits(s + [Digit(hi), Digit(lo)])
    ensures Read(s + [Digit(hi), Digit(lo)]) == 100 * Read(s) + 10 * hi + lo
  {
    var t := s + [Digit(hi), Digit(lo)];
    assert t[..|t| - 1] == s + [Digit(hi)];
    assert (s + [Digit(hi)])[..|s|] == s;
  }

  /** Reads blanks, an optional sign and at least one digit. */
  function ReadInt(s: string): Option<int> {
    if s != "" && s[0] == ' ' then ReadInt(s[1..])
    else if s != "" && s[0] == '-' then Negated(ReadDigits(s[1..]))
    else if s != "" && s[0] == '+' then ReadDigits(s[1..])
    else ReadDigits(s)
  }

  function ReadDigits(s: string): Option<int> {
    if s != "" && AllDigits(s) then Some(Read(s)) else None
  }

  function Negated(r: Option<int>): Option<int> {
    if r.Some? then Some(-r.value) else None
  }

  /** A sign and digits. */
  lemma ReadIntSigned(sign: string, digits: string)
    requires sign == "" || sign == "-" || sign == "+"
    requires digits != "" && AllDigits(digits)
    ensures ReadInt(sign + digits) == Some(if sign == "-" then -(Read(digits) as int) else Read(digits))
  {
    hide Read;
    assert IsDigit(digits[0]);
    if sign == "" {
      assert sign + digits == digits;
    } else {
      assert (sign + digits)[1..] == digits;
    }
  }

  lemma Associate(a: string, b: string, c: string)
    ensures a + b + c == a + (b + c)
  {
  }

  lemma {:induction false} ReadIntSkipsBlanks(k: nat, s: string)
    ensures ReadInt(Repeat(' ', k) + s) == ReadInt(s)
  {
    var t := Repeat(' ', k) + s;
    if k == 0 {
      assert t == s;
    } else {
      assert t[1..] == Repeat(' ', k - 1) + s;
      ReadIntSkipsBlanks(k - 1, s);
    }
  }
}
