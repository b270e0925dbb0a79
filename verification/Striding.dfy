/** Striding partitions (`inventory[index::count]` of `scripts/conformance_shards.py`, and the same in its
  siblings), and what it takes for parts to make up a whole. */
module Striding {
  import opened Arithmetic

  // -------------------------------------------------------------------------
  // Lists and their elements
  // -------------------------------------------------------------------------

  function Elements<T(==, !new)>(s: seq<T>): set<T> {
    set x | x in s
  }

  /** `len(s) == len(set(s))`. */
  predicate Distinct<T(==, !new)>(s: seq<T>) {
    |Elements(s)| == |s|
  }

  lemma ElementsOfMore<T(!new)>(s: seq<T>, x: T)
    ensures Elements(s + [x]) == Elements(s) + {x}
  {
  }

  lemma {:induction false} FewElements<T(!new)>(s: seq<T>)
    ensures |Elements(s)| <= |s|
  {
    if s != [] {
      var init, x := s[..|s| - 1], s[|s| - 1];
      FewElements(init);
      assert s == init + [x];
      ElementsOfMore(init, x);
    }
  }

  /** Distinct so far, and nothing repeated at the end. */
  lemma DistinctOfMore<T(!new)>(s: seq<T>, x: T)
    ensures Distinct(s + [x]) <==> Distinct(s) && x !in s
  {
    ElementsOfMore(s, x);
    FewElements(s);
    if x in s {
      assert Elements(s) + {x} == Elements(s);
    }
  }

  /** In a list without repetition every element occurs once. */
  lemma {:induction false} DistinctOnce<T(!new)>(s: seq<T>, x: T)
    requires Distinct(s)
    ensures multiset(s)[x] == if x in s then 1 else 0
  {
    if s != [] {
      var init, y := s[..|s| - 1], s[|s| - 1];
      assert s == init + [y];
      DistinctOfMore(init, y);
      DistinctOnce(init, x);
    }
  }

  /** Lists without repetition and with the same elements are permutations of each other. */
  lemma SameElements<T(!new)>(a: seq<T>, b: seq<T>)
    requires Distinct(a) && Distinct(b) && Elements(a) == Elements(b)
    ensures multiset(a) == multiset(b)
  {
    forall x ensures multiset(a)[x] == multiset(b)[x] {
      DistinctOnce(a, x);
      DistinctOnce(b, x);
      assert x in a <==> x in Elements(a);
      assert x in b <==> x in Elements(b);
    }
  }

  lemma {:induction false} PermutationDistinct<T(!new)>(a: seq<T>, b: seq<T>)
    requires multiset(a) == multiset(b)
    ensures Elements(a) == Elements(b) && |a| == |b| && (Distinct(a) <==> Distinct(b))
  {
    forall x ensures x in a <==> x in b {
      assert x in a <==> multiset(a)[x] > 0;
      assert x in b <==> multiset(b)[x] > 0;
    }
    assert |a| == |multiset(a)| && |b| == |multiset(b)|;
  }

  function Range(m: nat): set<int> {
    if m == 0 then {} else Range(m - 1) + {m - 1}
  }

  lemma {:induction false} RangeIs(m: nat)
    ensures |Range(m)| == m
    ensures forall i :: i in Range(m) <==> 0 <= i < m
  {
    if m > 0 {
      RangeIs(m - 1);
    }
  }

  // -------------------------------------------------------------------------
  // Strides
  // -------------------------------------------------------------------------

  /** `s[i::n]`. */
  function Stride<T>(s: seq<T>, i: nat, n: nat): seq<T>
    requires n > 0
    decreases |s| - i
  {
    if i >= |s| then [] else [s[i]] + Stride(s, i + n, n)
  }

  /** The elements of a stride by position. */
  lemma {:induction false} StrideAt<T>(s: seq<T>, i: nat, n: nat, k: nat)
    requires n > 0
    ensures k < |Stride(s, i, n)| <==> i + k * n < |s|
    ensures k < |Stride(s, i, n)| ==> Stride(s, i, n)[k] == s[i + k * n]
    decreases k
  {
    if i < |s| && k > 0 {
      StrideAt(s, i + n, n, k - 1);
      assert i + n + (k - 1) * n == i + k * n;
    } else if k > 0 {
      assert k * n >= 0;
    }
  }

  lemma {:induction false} StrideOfMore<T>(s: seq<T>, x: T, i: nat, n: nat)
    requires n > 0
    ensures Stride(s + [x], i, n) == Stride(s, i, n) + if i <= |s| && (|s| - i) % n == 0 then [x] else []
    decreases |s| + 1 - i
  {
    if i < |s| {
      StrideOfMore(s, x, i + n, n);
      StepBack(|s| - i, n);
    } else if i == |s| {
      assert Stride(s + [x], i + n, n) == [];
    }
  }

  lemma StepBack(d: nat, n: nat)
    requires n > 0 && d > 0
    ensures n <= d ==> d % n == (d - n) % n
    ensures n > d ==> d % n != 0
  {
    if n <= d {
      SubtractOne(d, n);
    }
  }

  lemma SubtractOne(d: nat, n: nat)
    requires 0 < n <= d
    ensures d % n == (d - n) % n
  {
    var q, r := (d - n) / n, (d - n) % n;
    assert d - n == q * n + r && 0 <= r < n;
    assert d == (q + 1) * n + r;
    RemainderIs(d, q + 1, n, r);
  }

  // -------------------------------------------------------------------------
  // Parts and the whole
  // -------------------------------------------------------------------------

  /** The first `k` of `n` strides. */
  function StridesTo<T>(s: seq<T>, n: nat, k: nat): (r: seq<seq<T>>)
    requires n > 0
    ensures |r| == k && forall i :: 0 <= i < k ==> r[i] == Stride(s, i, n)
  {
    seq(k, i requires 0 <= i < k => Stride(s, i, n))
  }

  function Strides<T>(s: seq<T>, n: nat): (r: seq<seq<T>>)
    requires n > 0
  {
    StridesTo(s, n, n)
  }

  /** All parts with an index in `chosen`, together. */
  ghost function Pool<T>(parts: seq<seq<T>>, chosen: set<int>): multiset<T> {
    if parts == [] then multiset{}
    else
      var k := |parts| - 1;
      Pool(parts[..k], chosen) + if k in chosen then multiset(parts[k]) else multiset{}
  }

  lemma {:induction false} PoolOfNone<T>(parts: seq<seq<T>>)
    ensures Pool(parts, {}) == multiset{}
  {
    if parts != [] {
      PoolOfNone(parts[..|parts| - 1]);
    }
  }

  lemma PoolNext<T>(parts: seq<seq<T>>, part: seq<T>, chosen: set<int>)
    ensures Pool(parts + [part], chosen) == Pool(parts, chosen) + if |parts| in chosen then multiset(part) else multiset{}
  {
    assert (parts + [part])[..|parts|] == parts;
  }

  lemma {:induction false} PoolOfMore<T>(parts: seq<seq<T>>, chosen: set<int>, k: nat)
    requires k < |parts| && k !in chosen
    ensures Pool(parts, chosen + {k}) == Pool(parts, chosen) + multiset(parts[k])
  {
    var last := |parts| - 1;
    var init, part := parts[..last], parts[last];
    assert parts == init + [part];
    PoolNext(init, part, chosen);
    PoolNext(init, part, chosen + {k});
    hide Pool;
    if k < last {
      PoolOfMore(init, chosen, k);
      assert init[k] == parts[k];
    } else {
      PoolSame(init, chosen, chosen + {k});
    }
  }

  lemma {:induction false} PoolSame<T>(parts: seq<seq<T>>, a: set<int>, b: set<int>)
    requires forall i :: 0 <= i < |parts| ==> (i in a <==> i in b)
    ensures Pool(parts, a) == Pool(parts, b)
  {
    if parts != [] {
      PoolSame(parts[..|parts| - 1], a, b);
    }
  }

  /** The strides of a list hold each of its positions once: together they are a permutation of it. */
  lemma {:induction false} StridesMakeWhole<T>(s: seq<T>, n: nat)
    requires n > 0
    ensures Pool(Strides(s, n), Range(n)) == multiset(s)
  {
    RangeIs(n);
    if s == [] {
      EmptyStrides(n, Strides(s, n));
    } else {
      var init, x := s[..|s| - 1], s[|s| - 1];
      assert s == init + [x];
      StridesMakeWhole(init, n);
      OneStrideGrows(init, x, n, n);
    }
  }

  lemma {:induction false} EmptyStrides<T>(n: nat, parts: seq<seq<T>>)
    requires forall i :: 0 <= i < |parts| ==> parts[i] == []
    ensures Pool(parts, Range(n)) == multiset{}
    decreases |parts|
  {
    hide Range;
    if parts != [] {
      EmptyStrides(n, parts[..|parts| - 1]);
    }
  }

  function Residue(d: nat, n: nat): nat
    requires n > 0
  {
    d % n
  }

  lemma ResidueStride<T>(s: seq<T>, x: T, i: nat, n: nat)
    requires i < n
    ensures Stride(s + [x], i, n) == Stride(s, i, n) + if Residue(|s|, n) == i then [x] else []
  {
    hide Stride;
    StrideOfMore(s, x, i, n);
    SameResidue(|s|, i, n);
  }

  lemma GrowingStride<T>(s: seq<T>, x: T, i: nat, n: nat)
    requires i < n
    ensures multiset(Stride(s + [x], i, n)) == multiset(Stride(s, i, n)) + if Residue(|s|, n) == i then multiset{x} else multiset{}
  {
    hide Stride, Residue;
    ResidueStride(s, x, i, n);
    StrideMultiset(Stride(s, i, n), x);
  }

  /** One more element goes to one stride. */
  lemma {:induction false} OneStrideGrows<T>(s: seq<T>, x: T, n: nat, k: nat)
    requires n > 0 && k <= n
    ensures Pool(StridesTo(s + [x], n, k), Range(n))
      == Pool(StridesTo(s, n, k), Range(n)) + if Residue(|s|, n) < k then multiset{x} else multiset{}
  {
    hide Range, Stride, Residue, Pool, StridesTo;
    if k == 0 {
      NoStrides(s, n);
      NoStrides(s + [x], n);
    } else {
      OneStrideGrows(s, x, n, k - 1);
      InRange(n, k - 1);
      NextStride(s + [x], n, k - 1);
      NextStride(s, n, k - 1);
      GrowingStride(s, x, k - 1, n);
    }
  }

  lemma NoStrides<T>(s: seq<T>, n: nat)
    requires n > 0
    ensures Pool(StridesTo(s, n, 0), Range(n)) == multiset{}
  {
  }

  lemma InRange(m: nat, i: nat)
    requires i < m
    ensures i in Range(m)
  {
    RangeIs(m);
  }

  lemma StrideMultiset<T>(s: seq<T>, x: T)
    ensures multiset(s + [x]) == multiset(s) + multiset{x} && multiset(s + []) == multiset(s)
  {
    assert s + [] == s;
  }

  lemma NextStride<T>(s: seq<T>, n: nat, k: nat)
    requires k < n && k in Range(n)
    ensures Pool(StridesTo(s, n, k + 1), Range(n)) == Pool(StridesTo(s, n, k), Range(n)) + multiset(Stride(s, k, n))
  {
    hide Stride, Pool, Range;
    assert StridesTo(s, n, k + 1) == StridesTo(s, n, k) + [Stride(s, k, n)];
    PoolNext(StridesTo(s, n, k), Stride(s, k, n), Range(n));
  }

  lemma SameResidue(d: nat, i: nat, n: nat)
    requires i < n
    ensures (i <= d && (d - i) % n == 0) <==> d % n == i
  {
    if d % n == i {
      var q := d / n;
      assert d == q * n + i;
      RemainderIs(d - i, q, n, 0);
    }
    if i <= d && (d - i) % n == 0 {
      var q := (d - i) / n;
      assert d - i == q * n;
      RemainderIs(d, q, n, i);
    }
  }

  lemma StrideDistinct<T(!new)>(s: seq<T>, i: nat, n: nat)
    requires 0 <= i < n && Distinct(s)
    ensures Distinct(Stride(s, i, n))
  {
    StridesMakeWhole(s, n);
    RangeIs(n);
    PartWithinPool(Strides(s, n), Range(n), i);
    var t := Stride(s, i, n);
    forall x ensures multiset(t)[x] <= 1 {
      DistinctOnce(s, x);
    }
    OnceDistinct(t);
  }

  lemma {:induction false} PartWithinPool<T>(parts: seq<seq<T>>, chosen: set<int>, k: nat)
    requires k < |parts| && k in chosen
    ensures multiset(parts[k]) <= Pool(parts, chosen)
  {
    var last := |parts| - 1;
    if k < last {
      PartWithinPool(parts[..last], chosen, k);
      assert parts[..last][k] == parts[k];
    }
  }

  lemma {:induction false} TwoPartsWithinPool<T>(parts: seq<seq<T>>, chosen: set<int>, i: nat, j: nat)
    requires i < j < |parts| && i in chosen && j in chosen
    ensures multiset(parts[i]) + multiset(parts[j]) <= Pool(parts, chosen)
  {
    var last := |parts| - 1;
    var init := parts[..last];
    assert parts == init + [parts[last]];
    PoolNext(init, parts[last], chosen);
    assert forall k :: 0 <= k < last ==> init[k] == parts[k];
    if j < last {
      TwoPartsWithinPool(init, chosen, i, j);
    } else {
      PartWithinPool(init, chosen, i);
    }
  }

  /** No element of a list without repetition belongs to two of its strides. */
  lemma StridesDisjoint<T(!new)>(s: seq<T>, n: nat, i: nat, j: nat, x: T)
    requires Distinct(s) && i < j < n
    ensures !(x in Stride(s, i, n) && x in Stride(s, j, n))
  {
    StridesMakeWhole(s, n);
    RangeIs(n);
    TwoPartsWithinPool(Strides(s, n), Range(n), i, j);
    DistinctOnce(s, x);
    hide Pool, Range;
    TwiceInBoth(Stride(s, i, n), Stride(s, j, n), multiset(s), x);
  }

  lemma TwiceInBoth<T>(a: seq<T>, b: seq<T>, whole: multiset<T>, x: T)
    requires multiset(a) + multiset(b) <= whole && whole[x] <= 1
    ensures !(x in a && x in b)
  {
    assert (multiset(a) + multiset(b))[x] <= 1;
    assert x in a ==> multiset(a)[x] >= 1;
    assert x in b ==> multiset(b)[x] >= 1;
  }

  lemma {:induction false} OnceDistinct<T(!new)>(s: seq<T>)
    requires forall x :: multiset(s)[x] <= 1
    ensures Distinct(s)
  {
    if s != [] {
      var init, y := s[..|s| - 1], s[|s| - 1];
      assert s == init + [y];
      assert multiset(s)[y] == multiset(init)[y] + 1;
      assert forall x :: multiset(init)[x] <= multiset(s)[x];
      OnceDistinct(init);
      DistinctOfMore(init, y);
    }
  }

  lemma NothingMissing(a: set<int>, b: set<int>)
    ensures a - b == {} <==> a <= b
  {
    if a - b == {} {
      forall x | x in a ensures x in b {
        assert x in b || x in a - b;
      }
    }
  }

  // -------------------------------------------------------------------------
  // One report per part
  // -------------------------------------------------------------------------

  /** As many reports as parts, and one for each. */
  ghost predicate OneEach(slots: seq<int>, m: nat) {
    |slots| == m && Elements(slots) == Range(m)
  }

  /** That is the same as no repetition and none missing. */
  lemma OneEachIff(slots: seq<int>, m: nat)
    ensures OneEach(slots, m) <==> Distinct(slots) && Elements(slots) == Range(m)
  {
    RangeIs(m);
  }
}
