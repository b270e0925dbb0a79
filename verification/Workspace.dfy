/** The join of workspace test shards in `scripts/workspace_execution.py`.  Targets are numbers; source
  identity, executables, commands and the other receipts are given. */
module Workspace {
  import opened Wrappers
  import opened Striding

  datatype Target = Target(id: nat, isTest: bool)

  function Tests(rows: seq<Target>): seq<Target> {
    if rows == [] then []
    else
      var init, last := Tests(rows[..|rows| - 1]), rows[|rows| - 1];
      if last.isTest then init + [last] else init
  }

  function Docs(rows: seq<Target>): seq<Target> {
    if rows == [] then []
    else
      var init, last := Docs(rows[..|rows| - 1]), rows[|rows| - 1];
      if last.isTest then init else init + [last]
  }

  /** The last shard takes the documentation tests, the others share the test executables. */
  function Partition(rows: seq<Target>, index: int, count: int): Result<seq<Target>> {
    if !(2 <= count <= |Tests(rows)| + 1) || !(0 <= index < count) then Raised
    else if index == count - 1 then Ok(Docs(rows))
    else Ok(Stride(Tests(rows), index, count - 1))
  }

  // -------------------------------------------------------------------------
  // Producers
  // -------------------------------------------------------------------------

  datatype Receipt = Receipt(complete: bool, exit: int)

  /** A shard report: `sealed` is whether policy, inventory, Cargo phases and commands check out, `tested`
      the targets that were run with their receipts, and `phases` the receipts of the documentation tests
      and of the UniFFI check, which only the last shard runs. */
  datatype Report = Report(sealed: bool, index: int, features: nat, tested: seq<nat>, receipts: seq<Receipt>,
                           phases: seq<Receipt>, complete: bool, passed: bool)

  function Ids(rows: seq<Target>): (r: seq<nat>)
    ensures |r| == |rows|
  {
    seq(|rows|, i requires 0 <= i < |rows| => rows[i].id)
  }

  predicate AllComplete(receipts: seq<Receipt>) {
    forall i :: 0 <= i < |receipts| ==> receipts[i].complete
  }

  predicate AllPassed(receipts: seq<Receipt>) {
    forall i :: 0 <= i < |receipts| ==> receipts[i].exit == 0
  }

  /** `validate_producer`. */
  predicate Validated(rows: seq<Target>, count: int, r: Report) {
    && r.sealed && Partition(rows, r.index, count).Ok?
    && r.tested == (if r.index == count - 1 then [] else Ids(Partition(rows, r.index, count).value))
    && |r.receipts| == |r.tested|
    && |r.phases| == (if r.index == count - 1 then 2 else 0)
    && r.complete == AllComplete(r.receipts + r.phases)
    && r.passed == (r.complete && AllPassed(r.receipts + r.phases))
  }

  // -------------------------------------------------------------------------
  // The merge
  // -------------------------------------------------------------------------

  datatype Merge = Merge(errors: nat, seen: set<int>, admitted: set<nat>, completed: seq<bool>, passed: seq<bool>, features: Option<nat>)

  function Merged(rows: seq<Target>, count: int, m: Merge, r: Report): Merge {
    if !Validated(rows, count, r) || r.index in m.seen || (m.features.Some? && m.features.value != r.features)
    then m.(errors := m.errors + 1)
    else Merge(m.errors, m.seen + {r.index}, m.admitted + Elements(Ids(Partition(rows, r.index, count).value)),
               m.completed + [r.complete], m.passed + [r.passed], Some(r.features))
  }

  function MergedAll(rows: seq<Target>, count: int, commitMatches: bool, reports: seq<Report>): Merge {
    if reports == [] then Merge(if commitMatches then 0 else 1, {}, {}, [], [], None)
    else Merged(rows, count, MergedAll(rows, count, commitMatches, reports[..|reports| - 1]), reports[|reports| - 1])
  }

  predicate AllTrue(s: seq<bool>) {
    forall i :: 0 <= i < |s| ==> s[i]
  }

  datatype Summary = Summary(complete: bool, strictPass: bool, errors: nat)

  function RangeOf(count: int): set<int> {
    if count < 0 then {} else Range(count)
  }

  function Summarized(rows: seq<Target>, count: int, m: Merge): Summary {
    var errors := m.errors + if RangeOf(count) - m.seen == {} then 0 else 1;
    var complete := errors == 0 && Elements(Ids(rows)) <= m.admitted && AllTrue(m.completed);
    Summary(complete, complete && AllTrue(m.passed), errors)
  }

  /** `merge`. */
  method MergeReports(rows: seq<Target>, count: int, commitMatches: bool, reports: seq<Report>) returns (s: Summary)
    ensures s == Summarized(rows, count, MergedAll(rows, count, commitMatches, reports))
  {
    hide Summarized, Validated, Partition;
    var errors, seen: set<int>, admitted: set<nat>, completed, passed, features: Option<nat> :=
      if commitMatches then 0 else 1, {}, {}, [], [], None;
    assert reports[..0] == [];
    for i := 0 to |reports|
      invariant Merge(errors, seen, admitted, completed, passed, features) == MergedAll(rows, count, commitMatches, reports[..i])
    {
      var r := reports[i];
      assert reports[..i + 1][..i] == reports[..i];
      if !Validated(rows, count, r) {
        errors := errors + 1;
        continue;
      }
      if r.index in seen || (features.Some? && features.value != r.features) {
        errors := errors + 1;
        continue;
      }
      features := Some(r.features);
      seen := seen + {r.index};
      ValidatedPartition(rows, count, r);
      admitted := admitted + Elements(Ids(Partition(rows, r.index, count).value));
      completed := completed + [r.complete];
      passed := passed + [r.passed];
    }
    assert reports[..|reports|] == reports;
    s := Summarized(rows, count, Merge(errors, seen, admitted, completed, passed, features));
  }

  lemma ValidatedPartition(rows: seq<Target>, count: int, r: Report)
    requires Validated(rows, count, r)
    ensures Partition(rows, r.index, count).Ok? && 0 <= r.index < count
  {
  }

  // -------------------------------------------------------------------------
  // Complete if and only if
  // -------------------------------------------------------------------------

  ghost function Indexes(reports: seq<Report>): (r: seq<int>)
    ensures |r| == |reports|
  {
    seq(|reports|, i requires 0 <= i < |reports| => reports[i].index)
  }

  ghost predicate AllValidated(rows: seq<Target>, count: int, reports: seq<Report>) {
    forall r :: r in reports ==> Validated(rows, count, r)
  }

  ghost predicate SameFeatures(reports: seq<Report>) {
    forall q, r :: q in reports && r in reports ==> q.features == r.features
  }

  /** What the merge holds as long as nothing was wrong. */
  ghost predicate Holds(rows: seq<Target>, count: int, m: Merge, reports: seq<Report>) {
    && m.seen == Elements(Indexes(reports))
    && (forall id :: id in m.admitted <==> Admits(rows, count, reports, id))
    && (reports == [] <==> m.features.None?) && (forall r :: r in reports ==> m.features == Some(r.features))
    && (AllTrue(m.completed) <==> forall r :: r in reports ==> r.complete)
    && (AllTrue(m.passed) <==> forall r :: r in reports ==> r.passed)
  }

  ghost predicate Admits(rows: seq<Target>, count: int, reports: seq<Report>, id: nat) {
    exists r :: r in reports && Admitted(rows, count, r, id)
  }

  ghost predicate Admitted(rows: seq<Target>, count: int, r: Report, id: nat) {
    Partition(rows, r.index, count).Ok? && id in Ids(Partition(rows, r.index, count).value)
  }

  lemma {:induction false} ErrorFree(rows: seq<Target>, count: int, commitMatches: bool, reports: seq<Report>)
    ensures var m := MergedAll(rows, count, commitMatches, reports);
      && (m.errors == 0 <==> commitMatches && AllValidated(rows, count, reports) && Distinct(Indexes(reports)) && SameFeatures(reports))
      && (m.errors == 0 ==> Holds(rows, count, m, reports))
    decreases |reports|
  {
    hide Validated, Holds, Merged;
    if reports == [] {
      NothingHeld(rows, count);
    } else {
      var n := |reports| - 1;
      var init, r := reports[..n], reports[n];
      ErrorFree(rows, count, commitMatches, init);
      assert reports == init + [r];
      assert Indexes(reports) == Indexes(init) + [r.index];
      DistinctOfMore(Indexes(init), r.index);
      OneMore(rows, count, init, r);
      var m := MergedAll(rows, count, commitMatches, init);
      hide AllValidated, SameFeatures;
      if m.errors == 0 {
        ReportMerged(rows, count, m, init, r);
      } else {
        ErrorsStay(rows, count, m, r);
      }
    }
  }

  /** Each report adds at most one error, and so do a commit that does not match and shards that are missing. */
  lemma {:induction false} ErrorsAtMost(rows: seq<Target>, count: int, commitMatches: bool, reports: seq<Report>)
    ensures var m := MergedAll(rows, count, commitMatches, reports);
      && m.errors <= |reports| + (if commitMatches then 0 else 1)
      && m.errors <= Summarized(rows, count, m).errors <= m.errors + 1
    decreases |reports|
  {
    hide Validated, Partition, Elements, Ids, AllTrue;
    if reports != [] {
      ErrorsAtMost(rows, count, commitMatches, reports[..|reports| - 1]);
    }
  }

  lemma NothingHeld(rows: seq<Target>, count: int)
    ensures Holds(rows, count, Merge(0, {}, {}, [], [], None), []) && Distinct(Indexes([]))
  {
  }

  lemma OneMore(rows: seq<Target>, count: int, init: seq<Report>, r: Report)
    ensures AllValidated(rows, count, init + [r]) <==> AllValidated(rows, count, init) && Validated(rows, count, r)
    ensures SameFeatures(init + [r]) ==> SameFeatures(init)
  {
    hide Validated;
    assert r in init + [r];
    assert forall q :: q in init ==> q in init + [r];
  }

  lemma ErrorsStay(rows: seq<Target>, count: int, m: Merge, r: Report)
    ensures Merged(rows, count, m, r).errors >= m.errors
  {
    hide Validated;
  }

  lemma FeaturesOfMore(init: seq<Report>, r: Report, features: Option<nat>)
    requires (init == [] <==> features.None?) && forall q :: q in init ==> features == Some(q.features)
    ensures SameFeatures(init + [r]) <==> features.None? || features.value == r.features
    ensures SameFeatures(init + [r]) ==> forall q :: q in init + [r] ==> q.features == r.features
  {
    if SameFeatures(init + [r]) && init != [] {
      assert init[0] in init + [r] && r in init + [r] && init[0] in init;
    }
  }

  lemma ReportMerged(rows: seq<Target>, count: int, m: Merge, init: seq<Report>, r: Report)
    requires m.errors == 0 && Holds(rows, count, m, init)
    ensures Merged(rows, count, m, r).errors == 0
      <==> Validated(rows, count, r) && r.index !in Indexes(init) && SameFeatures(init + [r])
    ensures Merged(rows, count, m, r).errors == 0 ==> Holds(rows, count, Merged(rows, count, m, r), init + [r])
  {
    FeaturesOfMore(init, r, m.features);
    assert r.index in m.seen <==> r.index in Indexes(init);
    hide SameFeatures, Validated, Partition, Holds;
    if Merged(rows, count, m, r).errors == 0 {
      ReportHeld(rows, count, m, init, r);
    }
  }

  lemma ReportHeld(rows: seq<Target>, count: int, m: Merge, init: seq<Report>, r: Report)
    requires Holds(rows, count, m, init) && Merged(rows, count, m, r).errors == m.errors
    requires forall q :: q in init + [r] ==> q.features == r.features
    ensures Holds(rows, count, Merged(rows, count, m, r), init + [r])
  {
    hide Validated, Partition, Admits, AllTrue;
    ValidatedPartition(rows, count, r);
    AdmitsMore(rows, count, m.admitted, init, r);
    assert Indexes(init + [r]) == Indexes(init) + [r.index];
    ElementsOfMore(Indexes(init), r.index);
    TrueOfMore(m.completed, r.complete);
    TrueOfMore(m.passed, r.passed);
    assert forall q :: q in init + [r] <==> q in init || q == r;
  }

  lemma TrueOfMore(s: seq<bool>, b: bool)
    ensures AllTrue(s + [b]) <==> AllTrue(s) && b
  {
    if AllTrue(s + [b]) {
      assert (s + [b])[|s|];
      forall i | 0 <= i < |s| ensures s[i] {
        assert (s + [b])[i];
      }
    }
  }

  lemma AdmitsMore(rows: seq<Target>, count: int, admitted: set<nat>, init: seq<Report>, r: Report)
    requires forall id :: id in admitted <==> Admits(rows, count, init, id)
    requires Partition(rows, r.index, count).Ok?
    ensures forall id :: id in admitted + Elements(Ids(Partition(rows, r.index, count).value)) <==> Admits(rows, count, init + [r], id)
  {
    hide Partition;
    assert r in init + [r];
    forall id ensures Admits(rows, count, init + [r], id) <==> Admits(rows, count, init, id) || Admitted(rows, count, r, id) {
      if Admits(rows, count, init, id) {
        var q :| q in init && Admitted(rows, count, q, id);
        assert q in init + [r];
      }
    }
  }

  // -------------------------------------------------------------------------
  // Nothing is left out
  // -------------------------------------------------------------------------

  lemma {:induction false} TestOrDoc(rows: seq<Target>, t: Target)
    requires t in rows
    ensures t in Tests(rows) || t in Docs(rows)
    ensures t.isTest ==> t in Tests(rows)
  {
    var last := rows[|rows| - 1];
    if t != last {
      TestOrDoc(rows[..|rows| - 1], t);
    }
  }

  /** The shard of a test, and its place there. */
  lemma TestShard(tests: seq<Target>, n: nat, t: Target) returns (index: nat, i: nat)
    requires n > 0 && t in tests
    ensures index < n && i < |Stride(tests, index, n)| && Stride(tests, index, n)[i] == t
  {
    var k :| 0 <= k < |tests| && tests[k] == t;
    hide Stride;
    index, i := k % n, k / n;
    StrideAt(tests, index, n, i);
    Division(k, n);
  }

  lemma Division(k: nat, n: nat)
    requires n > 0
    ensures k % n + k / n * n == k
  {
  }

  /** Every target belongs to a shard. */
  lemma EveryTargetHasShard(rows: seq<Target>, count: int, t: Target) returns (index: int)
    requires 2 <= count <= |Tests(rows)| + 1 && t in rows
    ensures 0 <= index < count && t in Partition(rows, index, count).value
  {
    TestOrDoc(rows, t);
    if t in Tests(rows) {
      var i;
      index, i := TestShard(Tests(rows), count - 1, t);
    } else {
      index := count - 1;
    }
  }

  /** No test target belongs to two shards. */
  lemma NoTargetInTwoShards(rows: seq<Target>, count: int, i: int, j: int, id: nat)
    requires 2 <= count <= |Tests(rows)| + 1 && 0 <= i < j < count - 1
    requires Distinct(Ids(Tests(rows)))
    ensures !(id in Ids(Partition(rows, i, count).value) && id in Ids(Partition(rows, j, count).value))
  {
    var tests, n := Tests(rows), count - 1;
    IdsOfStride(tests, i, n);
    IdsOfStride(tests, j, n);
    StridesDisjoint(Ids(tests), n, i, j, id);
  }

  lemma {:induction false} IdsOfStride(rows: seq<Target>, i: nat, n: nat)
    requires n > 0
    ensures Ids(Stride(rows, i, n)) == Stride(Ids(rows), i, n)
    decreases |rows| - i
  {
    if i < |rows| {
      IdsOfStride(rows, i + n, n);
      assert Stride(Ids(rows), i, n) == [Ids(rows)[i]] + Stride(Ids(rows), i + n, n);
    }
  }

  lemma SlotsInRange(rows: seq<Target>, count: int, reports: seq<Report>)
    requires count >= 0 && AllValidated(rows, count, reports)
    ensures Elements(Indexes(reports)) <= Range(count)
  {
    hide Validated;
    RangeIs(count);
    forall k | k in Elements(Indexes(reports)) ensures k in Range(count) {
      var i :| 0 <= i < |reports| && Indexes(reports)[i] == k;
      assert reports[i] in reports;
      ValidatedPartition(rows, count, reports[i]);
    }
  }

  /** Completeness is claimed exactly when the commit matches and there is one valid, finished report for
      each test shard and one for the documentation shard, nothing else, all built with the same features;
      and a strict pass exactly when they all passed too. */
  lemma CompleteIff(rows: seq<Target>, count: int, commitMatches: bool, reports: seq<Report>)
    requires 2 <= count <= |Tests(rows)| + 1
    ensures var s := Summarized(rows, count, MergedAll(rows, count, commitMatches, reports));
      && (s.complete <==>
            && commitMatches && AllValidated(rows, count, reports) && OneEach(Indexes(reports), count)
            && SameFeatures(reports) && forall r :: r in reports ==> r.complete)
      && (s.strictPass <==> s.complete && forall r :: r in reports ==> r.passed)
  {
    hide Tests, AllValidated, MergedAll, Indexes, SameFeatures, Admits;
    var m := MergedAll(rows, count, commitMatches, reports);
    ErrorFree(rows, count, commitMatches, reports);
    OneEachIff(Indexes(reports), count);
    NothingMissing(Range(count), m.seen);
    if m.errors == 0 {
      SlotsInRange(rows, count, reports);
      if Range(count) <= m.seen {
        AllAdmitted(rows, count, reports);
        assert Elements(Ids(rows)) <= m.admitted;
      }
    }
  }

  lemma ReportOf(reports: seq<Report>, index: int) returns (j: nat)
    requires index in Elements(Indexes(reports))
    ensures j < |reports| && reports[j].index == index && reports[j] in reports
  {
    j :| 0 <= j < |reports| && Indexes(reports)[j] == index;
  }

  lemma AllAdmitted(rows: seq<Target>, count: int, reports: seq<Report>)
    requires 2 <= count <= |Tests(rows)| + 1 && Range(count) <= Elements(Indexes(reports))
    ensures forall id :: id in Elements(Ids(rows)) ==> Admits(rows, count, reports, id)
  {
    RangeIs(count);
    forall id | id in Elements(Ids(rows)) ensures Admits(rows, count, reports, id) {
      var k :| 0 <= k < |rows| && Ids(rows)[k] == id;
      var index := EveryTargetHasShard(rows, count, rows[k]);
      assert index in Range(count);
      hide Partition, Range, Tests;
      var j := ReportOf(reports, index);
      var part := Partition(rows, index, count).value;
      var i :| 0 <= i < |part| && part[i] == rows[k];
      assert Ids(part)[i] == id;
      assert reports[j] in reports && Admitted(rows, count, reports[j], id);
    }
  }

  /** A strict pass means that every test target was run to its end with exit code zero by some shard,
      and the documentation tests and the UniFFI check too. */
  lemma StrictPassMeans(rows: seq<Target>, count: int, commitMatches: bool, reports: seq<Report>, t: Target)
    requires 2 <= count <= |Tests(rows)| + 1 && t in rows && t.isTest
    requires Summarized(rows, count, MergedAll(rows, count, commitMatches, reports)).strictPass
    ensures exists r, i :: r in reports && 0 <= i < |r.tested| && i < |r.receipts| && r.tested[i] == t.id && r.receipts[i] == Receipt(true, 0)
    ensures exists r :: r in reports && r.phases == [Receipt(true, 0), Receipt(true, 0)]
  {
    CompleteIff(rows, count, commitMatches, reports);
    hide MergedAll, Summarized, Tests, Indexes, Validated;
    RangeIs(count);
    var j, i := TestWasRun(rows, count, reports, t);
    var l := ReportOf(reports, count - 1);
    PhasesRan(rows, count, reports[l]);
  }

  lemma TestWasRun(rows: seq<Target>, count: int, reports: seq<Report>, t: Target) returns (j: nat, i: nat)
    requires 2 <= count <= |Tests(rows)| + 1 && t in rows && t.isTest
    requires AllValidated(rows, count, reports) && Range(count) <= Elements(Indexes(reports))
    requires forall r :: r in reports ==> r.complete && r.passed
    ensures j < |reports| && reports[j] in reports && i < |reports[j].tested| && i < |reports[j].receipts|
    ensures reports[j].tested[i] == t.id && reports[j].receipts[i] == Receipt(true, 0)
  {
    hide Tests, Stride, Range, Validated, Indexes;
    RangeIs(count);
    TestOrDoc(rows, t);
    var index;
    index, i := TestShard(Tests(rows), count - 1, t);
    assert index in Range(count);
    j := ReportOf(reports, index);
    TestRan(rows, count, reports[j], i, t);
  }

  lemma TestRan(rows: seq<Target>, count: int, r: Report, i: nat, t: Target)
    requires Validated(rows, count, r) && r.complete && r.passed && r.index != count - 1
    requires i < |Stride(Tests(rows), r.index, count - 1)| && Stride(Tests(rows), r.index, count - 1)[i] == t
    ensures i < |r.tested| && i < |r.receipts| && r.tested[i] == t.id && r.receipts[i] == Receipt(true, 0)
  {
    assert (r.receipts + r.phases)[i] == r.receipts[i];
  }

  lemma PhasesRan(rows: seq<Target>, count: int, r: Report)
    requires Validated(rows, count, r) && r.complete && r.passed && r.index == count - 1
    ensures r.phases == [Receipt(true, 0), Receipt(true, 0)]
  {
    assert (r.receipts + r.phases)[|r.receipts|] == r.phases[0];
    assert (r.receipts + r.phases)[|r.receipts| + 1] == r.phases[1];
  }
}
