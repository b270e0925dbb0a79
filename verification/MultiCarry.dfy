/** Marsaglia's multiply-with-carry generator, the built-in stream behind `unif_rand`.

  Words are integers in [0, 2^32), with every wrap-around of the source written out.  One half
  of the state steps by `a * low + high`; the theory below gives that step its closed form
  modulo `a * 2^16 - 1`, its inverse, its fixed points and the fate of every seed.
 */
module MultiCarry {
  import opened Arithmetic

  const B := 0x1_0000
  const WORD := 0x1_0000_0000
  const A1 := 36969
  const A2 := 18000

  predicate Multiplier(a: int) {
    a == A1 || a == A2
  }

  predicate IsWord(x: int) {
    0 <= x < WORD
  }

  /** `a.wrapping_mul(x & 0xFFFF).wrapping_add(x >> 16)` on 32-bit words. */
  function WrappingStep(a: int, x: int): (y: int)
    requires Multiplier(a) && IsWord(x)
  {
    (a * (x % B) % WORD + x / B) % WORD
  }

  /** The modulus `a * 2^16 - 1` of one half. */
  function Modulus(a: int): int {
    a * B - 1
  }

  // -------------------------------------------------------------------------
  // The generator
  // -------------------------------------------------------------------------

  class RngState {
    var s0: int
    var s1: int

    predicate Valid()
      reads this
    {
      IsWord(s0) && IsWord(s1)
    }

    constructor (i1: int, i2: int)
      requires IsWord(i1) && IsWord(i2)
      ensures Valid() && s0 == i1 && s1 == i2
    {
      s0, s1 := i1, i2;
    }

    /** Advances both halves.  The result is the 32-bit word `(i1 << 16) ^ (i2 & 0xFFFF)`, before
        it is scaled to a double; its two halves share no bit, so the `^` is a sum. */
    method Step() returns (word: int)
      requires Valid()
      modifies this
      ensures Valid()
      ensures s0 == WrappingStep(A1, old(s0)) && s1 == WrappingStep(A2, old(s1))
      ensures IsWord(word) && word / B == s0 % B && word % B == s1 % B
    {
      var i1, i2 := s0, s1;
      i1 := (A1 * (i1 % B) % WORD + i1 / B) % WORD;
      i2 := (A2 * (i2 % B) % WORD + i2 / B) % WORD;
      s0 := i1;
      s1 := i2;
      word := i1 * B % WORD + i2 % B;
      ShiftedHalf(i1, i2);
    }
  }

  lemma ShiftedHalf(i1: int, i2: int)
    requires IsWord(i1) && IsWord(i2)
    ensures i1 * B % WORD == i1 % B * B
  {
    assert i1 * B == i1 % B * B + i1 / B * WORD;
  }

  /** The thread-local slots: an installed state, if any, and the default one. */
  class ThreadRng {
    var installed: RngState?
    var default: RngState

    ghost predicate Valid()
      reads this, installed, default
    {
      installed != default && default.Valid() && (installed != null ==> installed.Valid())
    }

    /** The state the built-in stream advances. */
    function Current(): RngState
      reads this
    {
      if installed != null then installed else default
    }

    constructor ()
      ensures Valid() && fresh(default) && installed == null
      ensures default.s0 == 1234 && default.s1 == 5678
    {
      default := new RngState(1234, 5678);
      installed := null;
    }

    method SetSeed(i1: int, i2: int)
      requires Valid() && IsWord(i1) && IsWord(i2)
      modifies Current()
      ensures Valid()
      ensures Current().s0 == i1 && Current().s1 == i2
    {
      if installed != null {
        installed.s0 := i1;
        installed.s1 := i2;
      } else {
        default.s0 := i1;
        default.s1 := i2;
      }
    }

    /** `multicarry_unif_rand`: an installed session state advances and the default one does not,
        and the other way round when none is installed. */
    method NextWord() returns (word: int)
      requires Valid()
      modifies Current()
      ensures Valid()
      ensures Current().s0 == WrappingStep(A1, old(Current().s0))
      ensures Current().s1 == WrappingStep(A2, old(Current().s1))
      ensures IsWord(word) && word / B == Current().s0 % B && word % B == Current().s1 % B
    {
      if installed != null {
        word := installed.Step();
      } else {
        word := default.Step();
      }
    }

    /** After seeding, `n` draws leave the halves at the `n`-th point of the two orbits. */
    method SeedAndDraw(i1: int, i2: int, n: nat)
      requires Valid() && IsWord(i1) && IsWord(i2)
      modifies Current()
      ensures Valid()
      ensures Current().s0 == Orbit(A1, i1, n) && Current().s1 == Orbit(A2, i2, n)
    {
      SetSeed(i1, i2);
      var k := 0;
      while k < n
        invariant Valid() && 0 <= k <= n
        invariant Current() == old(Current())
        invariant Current().s0 == Orbit(A1, i1, k) && Current().s1 == Orbit(A2, i2, k)
      {
        var _ := NextWord();
        k := k + 1;
      }
    }
  }

  /** The state of one half after `k` steps. */
  function Orbit(a: int, x: int, k: nat): (y: int)
    requires Multiplier(a) && IsWord(x)
    ensures IsWord(y)
  {
    if k == 0 then x else WrappingStep(a, Orbit(a, x, k - 1))
  }

  // -------------------------------------------------------------------------
  // One step
  // -------------------------------------------------------------------------

  /** Neither the product nor the sum wraps: the step is `a * low + high` exactly. */
  lemma StepDoesNotWrap(a: int, x: int)
    requires Multiplier(a) && IsWord(x)
    ensures WrappingStep(a, x) == a * (x % B) + x / B
  {
    var low, high := x % B, x / B;
    assert 0 <= low < B && 0 <= high < B;
    if a == A1 {
      assert 0 <= A1 * low + high < WORD;
    } else {
      assert 0 <= A2 * low + high < WORD;
    }
  }

  /** The step multiplies by `a` modulo `a * 2^16 - 1`, and the carry is the quotient. */
  lemma StepIsMultiplication(a: int, x: int)
    requires Multiplier(a) && IsWord(x)
    ensures a * x == WrappingStep(a, x) + x / B * Modulus(a)
    ensures WrappingStep(a, x) * B == x + x % B * Modulus(a)
  {
    StepDoesNotWrap(a, x);
    var low, high := x % B, x / B;
    if a == A1 {
      assert A1 * x == A1 * low + high + high * (A1 * B - 1);
    } else {
      assert A2 * x == A2 * low + high + high * (A2 * B - 1);
    }
  }

  /** [0, m] is closed under the step, and so is its interior. */
  lemma StepStaysInRange(a: int, x: int)
    requires Multiplier(a) && 0 <= x <= Modulus(a)
    ensures 0 <= WrappingStep(a, x) <= Modulus(a)
    ensures 0 < x < Modulus(a) ==> 0 < WrappingStep(a, x) < Modulus(a)
  {
    StepDoesNotWrap(a, x);
    if a == A1 {
      assert x / B < A1;
    } else {
      assert x / B < A2;
    }
  }

  /** The inverse of the step: `y = a * low + high` with `high < a` is undone by one division. */
  function StepBack(a: int, y: int): int
    requires Multiplier(a)
  {
    y % a * B + y / a
  }

  /** Digits in base `d` are read back by one division. */
  lemma Digits(d: int, q: int, r: int)
    requires d == A1 || d == A2 || d == B
    requires 0 <= r < d
    ensures (d * q + r) / d == q && (d * q + r) % d == r
  {
    if d == A1 {
      assert (A1 * q + r) / A1 == q;
    } else if d == A2 {
      assert (A2 * q + r) / A2 == q;
    }
  }

  /** The step permutes [0, m]: it has a two-sided inverse there. */
  lemma StepPermutes(a: int, x: int)
    requires Multiplier(a) && 0 <= x <= Modulus(a)
    ensures StepBack(a, WrappingStep(a, x)) == x
    ensures 0 <= StepBack(a, x) <= Modulus(a)
    ensures WrappingStep(a, StepBack(a, x)) == x
  {
    StepDoesNotWrap(a, x);
    Digits(a, x % B, x / B);
    var low, high := x / a, x % a;
    assert 0 <= low < B;
    Digits(B, high, low);
    StepDoesNotWrap(a, B * high + low);
  }

  /** Within [0, m] only the two ends stay put. */
  lemma FixedPoints(a: int, x: int)
    requires Multiplier(a) && 0 <= x <= Modulus(a)
    ensures WrappingStep(a, x) == x <==> x == 0 || x == Modulus(a)
  {
    StepDoesNotWrap(a, x);
    if WrappingStep(a, x) == x {
      BezoutForcesEnds(a, x % B, x / B);
    }
  }

  /** `a - 1` is invertible modulo 2^16 - 1, so `(a - 1) * low = (2^16 - 1) * high` leaves no choice. */
  lemma BezoutForcesEnds(a: int, low: int, high: int)
    requires Multiplier(a) && 0 <= low < B && (a - 1) * low == (B - 1) * high
    ensures low == 0 || low == B - 1
  {
    if a == A1 {
      assert low == (B - 1) * (U1 * high + V1 * low);
    } else {
      assert low == (B - 1) * (U2 * high + V2 * low);
    }
  }

  const U1 := -3643
  const V1 := 2055
  const U2 := 18704
  const V2 := -5137

  // -------------------------------------------------------------------------
  // Orbits
  // -------------------------------------------------------------------------

  function Pow(a: int, k: nat): int {
    if k == 0 then 1 else a * Pow(a, k - 1)
  }

  /** Closed form: `k` steps multiply by `a^k`, modulo `m`, for every seed. */
  lemma {:induction false} OrbitIsPower(a: int, x: int, k: nat) returns (q: int)
    requires Multiplier(a) && IsWord(x)
    ensures Pow(a, k) * x == Orbit(a, x, k) + q * Modulus(a)
  {
    if k == 0 {
      q := 0;
    } else {
      var p := OrbitIsPower(a, x, k - 1);
      var y := Orbit(a, x, k - 1);
      StepIsMultiplication(a, y);
      q := a * p + y / B;
      PowerStep(a, Pow(a, k - 1), x, y, p, Modulus(a), WrappingStep(a, y), y / B);
    }
  }

  lemma PowerStep(a: int, pow: int, x: int, y: int, p: int, m: int, z: int, c: int)
    requires pow * x == y + p * m
    requires a * y == z + c * m
    ensures a * pow * x == z + (a * p + c) * m
  {
    assert a * pow * x == a * (pow * x) == a * (y + p * m) == a * y + a * (p * m);
    assert a * (p * m) == a * p * m;
  }

  /** Inside (0, m) the closed form is exact: the orbit is `a^k * x mod m`. */
  lemma {:induction false} OrbitClosedForm(a: int, x: int, k: nat)
    requires Multiplier(a) && 0 < x < Modulus(a)
    ensures 0 < Orbit(a, x, k) < Modulus(a)
    ensures Orbit(a, x, k) == Pow(a, k) * x % Modulus(a)
  {
    OrbitStaysInside(a, x, k);
    var q := OrbitIsPower(a, x, k);
    RemainderIs(Pow(a, k) * x, q, Modulus(a), Orbit(a, x, k));
  }

  lemma {:induction false} OrbitStaysInside(a: int, x: int, k: nat)
    requires Multiplier(a) && 0 < x < Modulus(a)
    ensures 0 < Orbit(a, x, k) < Modulus(a)
  {
    if k > 0 {
      OrbitStaysInside(a, x, k - 1);
      StepStaysInRange(a, Orbit(a, x, k - 1));
    }
  }

  /** Every 32-bit seed is in [0, m] after at most two steps, and never leaves. */
  lemma {:induction false} EntersRangeWithinTwoSteps(a: int, x: int, k: nat)
    requires Multiplier(a) && IsWord(x) && k >= 2
    ensures 0 <= Orbit(a, x, k) <= Modulus(a)
  {
    if k == 2 {
      TwoSteps(a, x);
    } else {
      EntersRangeWithinTwoSteps(a, x, k - 1);
      StepStaysInRange(a, Orbit(a, x, k - 1));
    }
  }

  lemma TwoSteps(a: int, x: int)
    requires Multiplier(a) && IsWord(x)
    ensures 0 <= Orbit(a, x, 2) <= Modulus(a)
  {
    StepDoesNotWrap(a, x);
    var y := WrappingStep(a, x);
    StepDoesNotWrap(a, y);
    assert Orbit(a, x, 1) == y;
    if y <= Modulus(a) {
      StepStaysInRange(a, y);
    } else if a == A1 {
      assert y / B <= A1;
    } else {
      assert y / B <= A2;
    }
  }

  /** An orbit that reaches a fixed point of the step, and so degenerates. */
  ghost predicate Degenerates(a: int, x: int)
    requires Multiplier(a) && IsWord(x)
  {
    exists k: nat :: WrappingStep(a, Orbit(a, x, k)) == Orbit(a, x, k)
  }

  lemma MultipleDegenerates(a: int, x: int)
    requires Multiplier(a) && IsWord(x) && x % Modulus(a) == 0
    ensures Degenerates(a, x)
  {
    MultipleStaysMultiple(a, x, 2);
    EntersRangeWithinTwoSteps(a, x, 2);
    EndsOfRange(a, Orbit(a, x, 2));
    FixedPoints(a, Orbit(a, x, 2));
  }

  lemma EndsOfRange(a: int, y: int)
    requires Multiplier(a) && 0 <= y <= Modulus(a) && y % Modulus(a) == 0
    ensures y == 0 || y == Modulus(a)
  {
    if a == A1 {
      assert y % (A1 * B - 1) == 0;
    } else {
      assert y % (A2 * B - 1) == 0;
    }
  }

  lemma FixedIsMultiple(a: int, x: int, k: nat)
    requires Multiplier(a) && IsWord(x)
    requires WrappingStep(a, Orbit(a, x, k)) == Orbit(a, x, k)
    ensures x % Modulus(a) == 0
  {
    FixedForever(a, x, k, k + 2);
    EntersRangeWithinTwoSteps(a, x, k + 2);
    FixedPoints(a, Orbit(a, x, k));
    MultipleBackToSeed(a, x, k);
  }

  /** The bad seeds are exactly the multiples of `m`. */
  lemma DegeneratesIffMultiple(a: int, x: int)
    requires Multiplier(a) && IsWord(x)
    ensures Degenerates(a, x) <==> x % Modulus(a) == 0
  {
    if Degenerates(a, x) {
      var k: nat :| WrappingStep(a, Orbit(a, x, k)) == Orbit(a, x, k);
      FixedIsMultiple(a, x, k);
    }
    if x % Modulus(a) == 0 {
      MultipleDegenerates(a, x);
    }
  }

  lemma {:induction false} FixedForever(a: int, x: int, k: nat, n: nat)
    requires Multiplier(a) && IsWord(x) && k <= n
    requires WrappingStep(a, Orbit(a, x, k)) == Orbit(a, x, k)
    ensures Orbit(a, x, n) == Orbit(a, x, k)
  {
    if k < n {
      FixedForever(a, x, k, n - 1);
    }
  }

  lemma MultipleUnderStep(a: int, x: int)
    requires Multiplier(a) && IsWord(x)
    ensures x % Modulus(a) == 0 <==> WrappingStep(a, x) % Modulus(a) == 0
  {
    StepIsMultiplication(a, x);
    var y, m := WrappingStep(a, x), Modulus(a);
    if x % m == 0 {
      MultipleIn(a, x, m, y, -(x / B));
    }
    if y % m == 0 {
      MultipleIn(B, y, m, x, -(x % B));
    }
  }

  /** `a` times a multiple of `m`, plus a multiple of `m`. */
  lemma MultipleIn(a: int, x: int, m: int, y: int, c: int)
    requires m > 0 && x % m == 0 && y == a * x + c * m
    ensures y % m == 0
  {
    var q := x / m;
    assert x == q * m;
    assert y == a * (q * m) + c * m == (a * q + c) * m;
    RemainderIs(y, a * q + c, m, 0);
  }

  lemma {:induction false} MultipleStaysMultiple(a: int, x: int, k: nat)
    requires Multiplier(a) && IsWord(x) && x % Modulus(a) == 0
    ensures Orbit(a, x, k) % Modulus(a) == 0
  {
    if k > 0 {
      MultipleStaysMultiple(a, x, k - 1);
      MultipleUnderStep(a, Orbit(a, x, k - 1));
    }
  }

  lemma {:induction false} MultipleBackToSeed(a: int, x: int, k: nat)
    requires Multiplier(a) && IsWord(x) && Orbit(a, x, k) % Modulus(a) == 0
    ensures x % Modulus(a) == 0
  {
    if k > 0 {
      MultipleUnderStep(a, Orbit(a, x, k - 1));
      MultipleBackToSeed(a, x, k - 1);
    }
  }
}
