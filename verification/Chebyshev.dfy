/** Chebyshev series: `chebyshev_init` and `chebyshev_eval`, over the reals.

  The evaluator runs Clenshaw's backward recurrence.  It is proved equal to the
  series it stands for, and the truncation rule of the initialiser is compared
  with the bound its documentation promises.
 */
module Chebyshev {
  import opened Arithmetic

  /** `ml_warn_return_nan()` or a number. */
  datatype Evaluation = NaN | Number(value: real)

  // -------------------------------------------------------------------------
  // The series
  // -------------------------------------------------------------------------

  /** Chebyshev polynomials of the first kind. */
  function T(k: nat, x: real): real {
    if k == 0 then 1.0 else if k == 1 then x else 2.0 * x * T(k - 1, x) - T(k - 2, x)
  }

  /** Polynomials of the second kind, shifted by one: `V(k)` is usually written U_{k-1}. */
  function V(k: nat, x: real): real {
    if k == 0 then 0.0 else if k == 1 then 1.0 else 2.0 * x * V(k - 1, x) - V(k - 2, x)
  }

  lemma TNext(k: nat, x: real)
    requires k >= 1
    ensures T(k + 1, x) == 2.0 * x * T(k, x) - T(k - 1, x)
  {
  }

  lemma VNext(k: nat, x: real)
    requires k >= 1
    ensures V(k + 1, x) == 2.0 * x * V(k, x) - V(k - 1, x)
  {
  }

  lemma FirstTwo(x: real)
    ensures T(0, x) == 1.0 && T(1, x) == x && V(0, x) == 0.0 && V(1, x) == 1.0
  {
  }

  /** One term of the series. */
  function Term(c: real, k: nat, x: real): real {
    c * T(k, x)
  }

  /** The terms `lo <= k < hi` of the series. */
  function Terms(a: seq<real>, lo: nat, hi: nat, x: real): real
    requires lo <= hi <= |a|
    decreases hi - lo
  {
    if lo == hi then 0.0 else Term(a[lo], lo, x) + Terms(a, lo + 1, hi, x)
  }

  /** The `n`-term series: a[0]/2 plus the terms 1 .. n-1. */
  function Series(a: seq<real>, n: nat, x: real): real
    requires 1 <= n <= |a|
  {
    a[0] * 0.5 + Terms(a, 1, n, x)
  }

  // -------------------------------------------------------------------------
  // Evaluation
  // -------------------------------------------------------------------------

  /** Clenshaw's backward recurrence on the first `n` coefficients. */
  function Clenshaw(a: seq<real>, k: nat, n: nat, x: real): real
    requires k <= n + 1 && n <= |a|
    decreases n + 1 - k
  {
    if k >= n then 0.0
    else x * 2.0 * Clenshaw(a, k + 1, n, x) - Clenshaw(a, k + 2, n, x) + a[k]
  }

  method ChebyshevEval(x: real, a: seq<real>, n: int) returns (r: Evaluation)
    requires 1 <= n <= 1000 && -1.1 <= x <= 1.1 ==> n <= |a|
    ensures r.NaN? <==> n < 1 || n > 1000 || x < -1.1 || x > 1.1
    ensures r.Number? ==> r.value == Series(a, n, x)
  {
    if n < 1 || n > 1000 {
      return NaN;
    }
    if x < -1.1 || x > 1.1 {
      return NaN;
    }
    var twox := x * 2.0;
    var b2, b1, b0 := 0.0, 0.0, 0.0;
    var i := 1;
    while i <= n
      invariant 1 <= i <= n + 1
      invariant b0 == Clenshaw(a, n - i + 1, n, x)
      invariant b1 == if i == 1 then 0.0 else Clenshaw(a, n - i + 2, n, x)
      invariant i == n + 1 ==> b2 == Clenshaw(a, 2, n, x)
    {
      b2 := b1;
      b1 := b0;
      b0 := twox * b1 - b2 + a[n - i];
      i := i + 1;
    }
    ClenshawIsSeries(a, n, x);
    r := Number((b0 - b2) * 0.5);
  }

  lemma ClenshawIsSeries(a: seq<real>, n: nat, x: real)
    requires 1 <= n <= |a|
    ensures (Clenshaw(a, 0, n, x) - Clenshaw(a, 2, n, x)) * 0.5 == Series(a, n, x)
  {
    hide Clenshaw, Terms, T;
    ClenshawSums(a, 1, n, x);
    ClenshawNext(a, 0, n, x);
    FirstTwo(x);
    HalfDifference(a[0], Clenshaw(a, 0, n, x), Clenshaw(a, 1, n, x), Clenshaw(a, 2, n, x), x, T(0, x), T(1, x), Terms(a, 1, n, x));
  }

  lemma HalfDifference(c: real, b0: real, b1: real, b2: real, x: real, t0: real, t1: real, terms: real)
    requires b0 == x * 2.0 * b1 - b2 + c
    requires t0 == 1.0 && t1 == x && terms == b1 * t1 - b2 * t0
    ensures (b0 - b2) * 0.5 == c * 0.5 + terms
  {
  }

  /** The tail of the series from `m` on, read off two consecutive values of the recurrence. */
  lemma {:induction false} ClenshawSums(a: seq<real>, m: nat, n: nat, x: real)
    requires 1 <= m <= n <= |a|
    ensures Terms(a, m, n, x) == Clenshaw(a, m, n, x) * T(m, x) - Clenshaw(a, m + 1, n, x) * T(m - 1, x)
    decreases n - m
  {
    hide T, Clenshaw;
    if m == n {
      ClenshawEnds(a, n, x);
    } else {
      ClenshawSums(a, m + 1, n, x);
      ClenshawNext(a, m, n, x);
      TNext(m, x);
      ClenshawIdentity(a[m], Clenshaw(a, m, n, x), Clenshaw(a, m + 1, n, x), Clenshaw(a, m + 2, n, x), x,
                       T(m - 1, x), T(m, x), T(m + 1, x));
    }
  }

  lemma ClenshawNext(a: seq<real>, k: nat, n: nat, x: real)
    requires k < n <= |a|
    ensures Clenshaw(a, k, n, x) == x * 2.0 * Clenshaw(a, k + 1, n, x) - Clenshaw(a, k + 2, n, x) + a[k]
  {
  }

  lemma ClenshawEnds(a: seq<real>, n: nat, x: real)
    requires n <= |a|
    ensures Clenshaw(a, n, n, x) == 0.0 && Clenshaw(a, n + 1, n, x) == 0.0
  {
  }

  lemma ClenshawIdentity(am: real, b0: real, b1: real, b2: real, x: real, t0: real, t1: real, t2: real)
    requires b0 == x * 2.0 * b1 - b2 + am
    requires t2 == 2.0 * x * t1 - t0
    ensures am * t1 + (b1 * t2 - b2 * t1) == b0 * t1 - b1 * t0
  {
    assert b1 * t2 == b1 * (2.0 * x * t1 - t0);
    assert b0 * t1 == (x * 2.0 * b1 - b2 + am) * t1;
  }

  // -------------------------------------------------------------------------
  // The polynomials are bounded by one on [-1, 1]
  // -------------------------------------------------------------------------

  /** The rotation that leads from one pair (T, V) to the next. */
  lemma {:induction false} Rotation(k: nat, x: real, d: real)
    requires d == 1.0 - x * x
    ensures T(k + 1, x) == x * T(k, x) - d * V(k, x)
    ensures V(k + 1, x) == x * V(k, x) + T(k, x)
  {
    hide T, V;
    if k == 0 {
      FirstTwo(x);
    } else {
      Rotation(k - 1, x, d);
      TNext(k, x);
      VNext(k, x);
      RotationStep(x, d, T(k - 1, x), V(k - 1, x), T(k, x), V(k, x), T(k + 1, x), V(k + 1, x));
    }
  }

  lemma RotationStep(x: real, d: real, t0: real, v0: real, t1: real, v1: real, t2: real, v2: real)
    requires d == 1.0 - x * x
    requires t1 == x * t0 - d * v0 && v1 == x * v0 + t0
    requires t2 == 2.0 * x * t1 - t0 && v2 == 2.0 * x * v1 - v0
    ensures t2 == x * t1 - d * v1
    ensures v2 == x * v1 + t1
  {
    assert x * t1 == x * (x * t0 - d * v0);
    assert d * v1 == d * (x * v0 + t0);
    assert d * t0 == (1.0 - x * x) * t0;
    assert x * v1 == x * (x * v0 + t0);
    assert d * v0 == (1.0 - x * x) * v0;
  }

  /** Pell's identity, the cosine-sine relation of the two kinds. */
  lemma {:induction false} PellIdentity(k: nat, x: real, d: real)
    requires d == 1.0 - x * x
    ensures T(k, x) * T(k, x) + d * (V(k, x) * V(k, x)) == 1.0
  {
    hide T, V;
    if k == 0 {
      FirstTwo(x);
    } else {
      PellIdentity(k - 1, x, d);
      Rotation(k - 1, x, d);
      PellStep(x, d, T(k - 1, x), V(k - 1, x), T(k, x), V(k, x));
    }
  }

  lemma PellStep(x: real, d: real, t: real, v: real, t1: real, v1: real)
    requires d == 1.0 - x * x
    requires t1 == x * t - d * v && v1 == x * v + t
    ensures t1 * t1 + d * (v1 * v1) == t * t + d * (v * v)
  {
    var p, q, s := t * t, t * v, v * v;
    assert t1 * t1 == (x * t - d * v) * (x * t - d * v) == x * x * p - 2.0 * (x * d) * q + d * d * s;
    assert v1 * v1 == (x * v + t) * (x * v + t) == x * x * s + 2.0 * x * q + p;
    assert d * (v1 * v1) == d * (x * x * s + 2.0 * x * q + p) == d * (x * x) * s + 2.0 * (x * d) * q + d * p;
    assert x * x * p + d * p == p;
    assert d * d * s + d * (x * x) * s == d * (d + x * x) * s;
  }

  lemma BoundedByOne(k: nat, x: real)
    requires -1.0 <= x <= 1.0
    ensures -1.0 <= T(k, x) <= 1.0
  {
    PellIdentity(k, x, 1.0 - x * x);
    SquareAtMostOne(x);
    SquareBound(T(k, x), 1.0 - x * x, V(k, x));
  }

  lemma SquareBound(t: real, d: real, v: real)
    requires d >= 0.0 && t * t + d * (v * v) == 1.0
    ensures -1.0 <= t <= 1.0
  {
    NonNegativeProduct(d, v * v);
    if t > 1.0 {
      NonNegativeProduct(t, t - 1.0);
    } else if t < -1.0 {
      NonNegativeProduct(-t, -t - 1.0);
    }
  }

  lemma SquareAtMostOne(x: real)
    requires -1.0 <= x <= 1.0
    ensures x * x <= 1.0
  {
    if x >= 0.0 {
      assert x * x <= 1.0 * x;
    } else {
      assert (-x) * (-x) <= 1.0 * (-x);
    }
  }

  lemma {:induction false} AtOne(k: nat)
    ensures T(k, 1.0) == 1.0
  {
    if k > 1 {
      AtOne(k - 1);
      AtOne(k - 2);
    }
  }

  // -------------------------------------------------------------------------
  // Truncation
  // -------------------------------------------------------------------------

  /** The mass |a[lo]| + ... + |a[hi-1]| that the initialiser adds up. */
  function Mass(a: seq<real>, lo: nat, hi: nat): (r: real)
    requires lo <= hi <= |a|
    ensures r >= 0.0
    decreases hi - lo
  {
    if lo == hi then 0.0 else Abs(a[lo]) + Mass(a, lo + 1, hi)
  }

  lemma {:induction false} MassGrows(a: seq<real>, lo: nat, mid: nat, hi: nat)
    requires lo <= mid <= hi <= |a|
    ensures Mass(a, lo, hi) >= Mass(a, mid, hi)
    decreases mid - lo
  {
    if lo < mid {
      MassGrows(a, lo + 1, mid, hi);
    }
  }

  lemma {:induction false} MassDependsOnMagnitudes(a: seq<real>, c: seq<real>, lo: nat, hi: nat)
    requires lo <= hi <= |a| && |c| == |a|
    requires forall k :: 0 <= k < |a| ==> Abs(c[k]) == Abs(a[k])
    ensures Mass(c, lo, hi) == Mass(a, lo, hi)
    decreases hi - lo
  {
    if lo < hi {
      MassDependsOnMagnitudes(a, c, lo + 1, hi);
    }
  }

  /** The last index whose tail mass exceeds `eta`, or 0 when none does. */
  ghost predicate LastHeavyIndex(dos: seq<real>, nos: nat, eta: real, i: nat)
    requires nos <= |dos|
  {
    && i < nos
    && (forall j :: i < j <= nos ==> Mass(dos, j, nos) <= eta || (i == nos - 1 && j == nos))
    && (i == 0 || Mass(dos, i, nos) > eta)
  }

  method ChebyshevInit(dos: seq<real>, nos: nat, eta: real) returns (r: nat)
    requires nos <= |dos|
    ensures nos < 1 ==> r == 0
    ensures nos >= 1 ==> LastHeavyIndex(dos, nos, eta, r)
  {
    if nos < 1 {
      return 0;
    }
    var err := 0.0;
    var i := 0;
    var ii := 1;
    while ii <= nos
      invariant 1 <= ii <= nos + 1
      invariant i == if ii == 1 then 0 else nos - ii + 1
      invariant err == Mass(dos, nos - ii + 1, nos)
      invariant ii > 1 ==> err <= eta
      invariant forall j :: nos - ii + 1 <= j < nos ==> Mass(dos, j, nos) <= eta
    {
      i := nos - ii;
      err := err + Abs(dos[i]);
      if err > eta {
        if ii > 1 {
          assert 0.0 <= Mass(dos, nos - 1, nos) <= eta;
        }
        return i;
      }
      ii := ii + 1;
    }
    r := i;
  }

  /** `Series` splits at any number of terms. */
  lemma {:induction false} TermsSplit(a: seq<real>, lo: nat, mid: nat, hi: nat, x: real)
    requires lo <= mid <= hi <= |a|
    ensures Terms(a, lo, hi, x) == Terms(a, lo, mid, x) + Terms(a, mid, hi, x)
    decreases mid - lo
  {
    if lo < mid {
      TermsSplit(a, lo + 1, mid, hi, x);
    }
  }

  lemma {:induction false} TermsWithinMass(a: seq<real>, lo: nat, hi: nat, x: real)
    requires lo <= hi <= |a| && -1.0 <= x <= 1.0
    ensures Abs(Terms(a, lo, hi, x)) <= Mass(a, lo, hi)
    decreases hi - lo
  {
    hide Term;
    if lo < hi {
      TermsWithinMass(a, lo + 1, hi, x);
      TermWithinMagnitude(a[lo], lo, x);
    }
  }

  lemma TermWithinMagnitude(c: real, k: nat, x: real)
    requires -1.0 <= x <= 1.0
    ensures Abs(Term(c, k, x)) <= Abs(c)
  {
    hide T;
    BoundedByOne(k, x);
    ScaledWithin(c, T(k, x));
  }

  lemma ScaledWithin(c: real, t: real)
    requires -1.0 <= t <= 1.0
    ensures Abs(c * t) <= Abs(c)
  {
    if c >= 0.0 {
      NonNegativeProduct(c, 1.0 - t);
      NonNegativeProduct(c, 1.0 + t);
    } else {
      NonNegativeProduct(-c, 1.0 - t);
      NonNegativeProduct(-c, 1.0 + t);
    }
  }

  lemma {:induction false} TermsAtOne(a: seq<real>, lo: nat, hi: nat)
    requires lo <= hi <= |a|
    requires forall k :: 0 <= k < |a| ==> a[k] >= 0.0
    ensures Terms(a, lo, hi, 1.0) == Mass(a, lo, hi)
    decreases hi - lo
  {
    if lo < hi {
      TermsAtOne(a, lo + 1, hi);
      AtOne(lo);
    }
  }

  /** `n` terms are enough for every coefficient array with the magnitudes of `dos`
      at every point of [-1, 1]. */
  ghost predicate EnoughTerms(dos: seq<real>, nos: nat, eta: real, n: nat)
    requires 1 <= n <= nos <= |dos|
  {
    forall c: seq<real>, x: real ::
      |c| == |dos| && (forall k :: 0 <= k < |c| ==> Abs(c[k]) == Abs(dos[k])) && -1.0 <= x <= 1.0
      ==> Abs(Series(c, nos, x) - Series(c, n, x)) <= eta
  }

  /** One more term than the initialiser returns keeps the documented error bound. */
  lemma OneMoreTermSuffices(dos: seq<real>, nos: nat, eta: real, i: nat, n: nat, x: real)
    requires 1 <= nos <= |dos| && eta >= 0.0
    requires LastHeavyIndex(dos, nos, eta, i)
    requires i < n <= nos && -1.0 <= x <= 1.0
    ensures Abs(Series(dos, nos, x) - Series(dos, n, x)) <= eta
  {
    TermsSplit(dos, 1, n, nos, x);
    TermsWithinMass(dos, n, nos, x);
    assert Mass(dos, nos, nos) == 0.0;
  }

  /** The coefficients with their signs removed. */
  function Magnitudes(a: seq<real>): (c: seq<real>)
    ensures |c| == |a| && forall k :: 0 <= k < |a| ==> c[k] >= 0.0 && Abs(c[k]) == Abs(a[k])
  {
    seq(|a|, k requires 0 <= k < |a| => Abs(a[k]))
  }

  /** With no negative coefficient, stopping at the returned count (or earlier) misses by more
      than `eta` at x = 1. */
  lemma ReturnedCountFallsShort(dos: seq<real>, nos: nat, eta: real, i: nat, n: nat)
    requires 1 <= n <= i < nos <= |dos| && eta >= 0.0
    requires LastHeavyIndex(dos, nos, eta, i)
    ensures var c := Magnitudes(dos); Abs(Series(c, nos, 1.0) - Series(c, n, 1.0)) > eta
    ensures !EnoughTerms(dos, nos, eta, n)
  {
    var c := Magnitudes(dos);
    TermsSplit(c, 1, n, nos, 1.0);
    TermsAtOne(c, n, nos);
    MassGrows(c, n, i, nos);
    MassDependsOnMagnitudes(dos, c, i, nos);
  }

  /** The documented meaning of the returned count, made exact: the least number of terms that
      guarantees an error of at most `eta` is one more than the count returned.  The
      initialiser sees only magnitudes, so the guarantee ranges over all sign patterns. */
  lemma LeastSufficientCount(dos: seq<real>, nos: nat, eta: real, i: nat, n: nat)
    requires 1 <= n <= nos <= |dos| && eta >= 0.0
    requires LastHeavyIndex(dos, nos, eta, i)
    ensures EnoughTerms(dos, nos, eta, n) <==> n >= i + 1
  {
    if n >= i + 1 {
      forall c: seq<real>, x: real | |c| == |dos| && (forall k :: 0 <= k < |c| ==> Abs(c[k]) == Abs(dos[k])) && -1.0 <= x <= 1.0
        ensures Abs(Series(c, nos, x) - Series(c, n, x)) <= eta
      {
        forall j | i < j <= nos
          ensures Mass(c, j, nos) == Mass(dos, j, nos)
        {
          MassDependsOnMagnitudes(dos, c, j, nos);
        }
        MassDependsOnMagnitudes(dos, c, i, nos);
        OneMoreTermSuffices(c, nos, eta, i, n, x);
      }
    } else {
      ReturnedCountFallsShort(dos, nos, eta, i, n);
    }
  }
}
