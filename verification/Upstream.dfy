/** Verdicts, summaries and the join of upstream execution reports in `scripts/upstream_execution.py`.
  Cases are numbers; sealed files, commands and the rest of a contract are given. */
module Upstream {
  import opened Wrappers
  import opened Striding

  datatype Disposition = MustPass | MayFail | Skipped
  datatype Status = Pass | Fail | XFail | XPass | Skip
  datatype Engine = Gnu | Rust

  datatype Process = Process(finished: bool, exit: int, complete: bool)
  datatype Phase = Phase(engine: Engine, process: Process)

  /** A case of the inventory: curated, or a whole driver. */
  datatype Case = Case(id: nat, whole: bool, disposition: Disposition)

  // -------------------------------------------------------------------------
  // Verdicts
  // -------------------------------------------------------------------------

  predicate AllComplete(phases: seq<Phase>) {
    forall i :: 0 <= i < |phases| ==> phases[i].process.complete
  }

  predicate AllSucceeded(phases: seq<Phase>) {
    forall i :: 0 <= i < |phases| ==> phases[i].process.complete && phases[i].process.exit == 0
  }

  predicate Clean(p: Process) {
    p.finished && p.exit == 0
  }

  /** `sameOutput` is whether the two normalized outputs are equal. */
  function Verdict(disposition: Disposition, phases: seq<Phase>, normalizations: seq<Phase>, sameOutput: bool): Result<Status> {
    if disposition.Skipped? then
      if phases != [] || normalizations != [] then Raised else Ok(Skip)
    else if |phases| == 1 && phases[0].engine.Gnu? && !phases[0].process.finished then Ok(Fail)
    else if phases == [] || !phases[0].engine.Gnu? then Raised
    else if !Clean(phases[0].process) then
      if |phases| != 1 then Raised else Judged(disposition, phases, false)
    else if |phases| != 2 || !phases[1].engine.Rust? then Raised
    else if !Clean(phases[1].process) then Judged(disposition, phases, false)
    else if |normalizations| != 2 || !normalizations[0].engine.Gnu? || !normalizations[1].engine.Rust? then Raised
    else if !AllSucceeded(normalizations) then Ok(Fail)
    else Judged(disposition, phases, sameOutput)
  }

  /** A timeout or a cancellation is never an expected failure. */
  function Judged(disposition: Disposition, phases: seq<Phase>, same: bool): Result<Status> {
    if !AllComplete(phases) then Ok(Fail)
    else if disposition.MayFail? then Ok(if same then XPass else XFail)
    else Ok(if same then Pass else Fail)
  }

  /** It was neither cut short nor in error. */
  ghost predicate RanWell(p: Process) {
    p.complete && p.exit == 0
  }

  /** Both engines ran to a successful end, and so did both normalizations. */
  ghost predicate BothRan(phases: seq<Phase>, normalizations: seq<Phase>) {
    && |phases| == 2 && phases[0].engine.Gnu? && phases[1].engine.Rust?
    && RanWell(phases[0].process) && RanWell(phases[1].process) && phases[0].process.finished && phases[1].process.finished
    && |normalizations| == 2 && normalizations[0].engine.Gnu? && normalizations[1].engine.Rust?
    && RanWell(normalizations[0].process) && RanWell(normalizations[1].process)
  }

  /** Agreement is reported exactly when both engines ran to the end and agreed. */
  lemma AgreementIff(d: Disposition, phases: seq<Phase>, norms: seq<Phase>, same: bool)
    ensures Verdict(d, phases, norms, same) == Ok(Pass) <==> d.MustPass? && BothRan(phases, norms) && same
    ensures Verdict(d, phases, norms, same) == Ok(XPass) <==> d.MayFail? && BothRan(phases, norms) && same
    ensures Verdict(d, phases, norms, same) == Ok(Skip) <==> d.Skipped? && phases == [] && norms == []
  {
  }

  /** An expected failure needs the disposition, and a real end of every process: a difference, or an
      engine that stopped with an error. */
  lemma ExpectedFailureIff(d: Disposition, phases: seq<Phase>, norms: seq<Phase>, same: bool)
    ensures Verdict(d, phases, norms, same) == Ok(XFail) <==>
      && d.MayFail? && (forall i :: 0 <= i < |phases| ==> phases[i].process.complete)
      && ((BothRan(phases, norms) && !same) || StoppedEarly(phases))
  {
  }

  ghost predicate StoppedEarly(phases: seq<Phase>) {
    || (|phases| == 1 && phases[0].engine.Gnu? && phases[0].process.finished && phases[0].process.exit != 0)
    || (|phases| == 2 && phases[0].engine.Gnu? && phases[0].process.finished && phases[0].process.exit == 0
        && phases[1].engine.Rust? && !(phases[1].process.finished && phases[1].process.exit == 0))
  }

  // -------------------------------------------------------------------------
  // Partition
  // -------------------------------------------------------------------------

  datatype Suite = All | Curated | Whole

  function Selected(rows: seq<Case>, suite: Suite): seq<Case> {
    if rows == [] then []
    else
      var init, last := Selected(rows[..|rows| - 1], suite), rows[|rows| - 1];
      if suite.All? || last.whole == suite.Whole? then init + [last] else init
  }

  /** The curated cases, the whole drivers, or all cases, as often as they occur. */
  lemma {:induction false} SelectedIs(rows: seq<Case>, c: Case)
    ensures multiset(Selected(rows, Whole))[c] == if c.whole then multiset(rows)[c] else 0
    ensures multiset(Selected(rows, Curated))[c] == if c.whole then 0 else multiset(rows)[c]
    ensures Selected(rows, All) == rows
  {
    if rows != [] {
      var n := |rows| - 1;
      SelectedIs(rows[..n], c);
      assert rows == rows[..n] + [rows[n]];
    }
  }

  function Partition(rows: seq<Case>, suite: Suite, index: int, count: int): Result<seq<Case>> {
    var selected := Selected(rows, suite);
    if !(1 <= count <= |selected|) || !(0 <= index < count) then Raised else Ok(Stride(selected, index, count))
  }

  // -------------------------------------------------------------------------
  // Reports
  // -------------------------------------------------------------------------

  /** The result of a case with the processes it comes from. */
  datatype Row = Row(id: nat, status: Status, phases: seq<Phase>, normalizations: seq<Phase>, sameOutput: bool)

  /** `sealed`: what `validate_report` reads from files holds together.  `policy` is the normalization
      environment of the producer, and `complete` its claim. */
  datatype Report = Report(sealed: bool, contract: nat, policy: nat, suite: Suite, index: int, count: int,
                           rows: seq<Row>, failed: bool, finalized: bool, complete: bool)

  datatype Expected = Expected(inventory: seq<Case>, count: int, contract: nat)

  function CaseIds(cases: seq<Case>): (r: seq<nat>)
    ensures |r| == |cases|
  {
    seq(|cases|, i requires 0 <= i < |cases| => cases[i].id)
  }

  function RowIds(rows: seq<Row>): (r: seq<nat>)
    ensures |r| == |rows|
  {
    seq(|rows|, i requires 0 <= i < |rows| => rows[i].id)
  }

  /** `summarize`, as far as completion goes. */
  predicate Complete(selected: seq<Case>, r: Report) {
    && r.finalized && !r.failed
    && Distinct(RowIds(r.rows)) && Elements(RowIds(r.rows)) == Elements(CaseIds(selected))
    && forall i :: 0 <= i < |r.rows| ==> AllComplete(r.rows[i].phases) && AllSucceeded(r.rows[i].normalizations)
  }

  /** The declared status of a row is the verdict on a selected case with that number. */
  predicate Declared(selected: seq<Case>, row: Row) {
    exists i :: 0 <= i < |selected| && selected[i].id == row.id
      && Verdict(selected[i].disposition, row.phases, row.normalizations, row.sameOutput) == Ok(row.status)
  }

  predicate Validated(x: Expected, r: Report) {
    && r.sealed && r.contract == x.contract
    && var selected := Partition(x.inventory, r.suite, r.index, r.count);
    && selected.Ok?
    && Distinct(RowIds(r.rows))
    && (forall i :: 0 <= i < |r.rows| ==> Declared(selected.value, r.rows[i]))
    && r.complete == Complete(selected.value, r)
  }

  /** The one curated shard, or one of the shards of whole drivers. */
  predicate Expects(x: Expected, r: Report) {
    || (r.suite.Curated? && r.index == 0 && r.count == 1)
    || (r.suite.Whole? && r.count == x.count)
  }

  function Slot(r: Report): int {
    if r.suite.Curated? then 0 else r.index + 1
  }

  predicate Good(x: Expected, r: Report) {
    Validated(x, r) && Expects(x, r) && r.complete
  }

  // -------------------------------------------------------------------------
  // The merge
  // -------------------------------------------------------------------------

  datatype Merge = Merge(errors: nat, rows: seq<Row>, seen: set<int>, policy: Option<nat>)

  /** The first validated report sets the policy, even if it is not counted. */
  function Merged(x: Expected, m: Merge, r: Report): Merge {
    if !Validated(x, r) then m.(errors := m.errors + 1)
    else if m.policy.Some? && m.policy.value != r.policy then m.(errors := m.errors + 1)
    else
      var n := m.(policy := Some(r.policy));
      if !Expects(x, r) || Slot(r) in m.seen then n.(errors := m.errors + 1)
      else n.(errors := m.errors + if r.complete then 0 else 1, rows := m.rows + r.rows, seen := m.seen + {Slot(r)})
  }

  function MergedAll(x: Expected, commitMatches: bool, reports: seq<Report>): Merge {
    if reports == [] then Merge(if commitMatches then 0 else 1, [], {}, None)
    else Merged(x, MergedAll(x, commitMatches, reports[..|reports| - 1]), reports[|reports| - 1])
  }

  predicate Occurs(rows: seq<Row>, status: Status) {
    exists i :: 0 <= i < |rows| && rows[i].status == status
  }

  datatype Summary = Summary(complete: bool, strictPass: bool, rows: seq<Row>)

  function Summarized(x: Expected, m: Merge): Summary
    requires x.count >= 0
  {
    var errors := m.errors + if m.seen == Range(x.count + 1) then 0 else 1;
    var complete := errors == 0 && Distinct(RowIds(m.rows)) && Elements(RowIds(m.rows)) == Elements(CaseIds(x.inventory));
    Summary(complete, complete && !Occurs(m.rows, Fail) && !Occurs(m.rows, XPass), m.rows)
  }

  /** `merge`.  It fails outright if the whole drivers cannot be partitioned so. */
  method MergeReports(x: Expected, commitMatches: bool, reports: seq<Report>) returns (r: Result<Summary>)
    ensures r.Ok? <==> 1 <= x.count <= |Selected(x.inventory, Whole)|
    ensures r.Ok? ==> r.value == Summarized(x, MergedAll(x, commitMatches, reports))
  {
    hide Summarized, Validated, Expects;
    if Partition(x.inventory, Whole, 0, x.count).Raised? {
      return Raised;
    }
    var errors, rows, seen: set<int>, policy: Option<nat> := if commitMatches then 0 else 1, [], {}, None;
    assert reports[..0] == [];
    for i := 0 to |reports|
      invariant Merge(errors, rows, seen, policy) == MergedAll(x, commitMatches, reports[..i])
    {
      var report := reports[i];
      assert reports[..i + 1][..i] == reports[..i];
      if !Validated(x, report) {
        errors := errors + 1;
        continue;
      }
      if policy.None? {
        policy := Some(report.policy);
      } else if report.policy != policy.value {
        errors := errors + 1;
        continue;
      }
      if Slot(report) in seen || !Expects(x, report) {
        errors := errors + 1;
        continue;
      }
      seen := seen + {Slot(report)};
      rows := rows + report.rows;
      if !report.complete {
        errors := errors + 1;
      }
    }
    assert reports[..|reports|] == reports;
    r := Ok(Summarized(x, Merge(errors, rows, seen, policy)));
  }

  // -------------------------------------------------------------------------
  // Parts of the inventory
  // -------------------------------------------------------------------------

  /** What each slot has to cover: the curated cases, then the strides of the whole drivers. */
  ghost function Parts(x: Expected): seq<seq<nat>>
    requires x.count > 0
  {
    [CaseIds(Selected(x.inventory, Curated))] + Strides(CaseIds(Selected(x.inventory, Whole)), x.count)
  }

  lemma {:induction false} PoolOfFirst(first: seq<nat>, parts: seq<seq<nat>>, m: nat)
    requires |parts| <= m
    ensures Pool([first] + parts, Range(m + 1)) == multiset(first) + Pool(parts, Range(m))
    decreases |parts|
  {
    RangeIs(m);
    RangeIs(m + 1);
    if parts == [] {
      PoolNext([], first, Range(m + 1));
      assert [first] + parts == [] + [first];
    } else {
      var k := |parts| - 1;
      var init := parts[..k];
      assert parts == init + [parts[k]];
      assert [first] + parts == [first] + init + [parts[k]];
      PoolOfFirst(first, init, m);
      PoolNext([first] + init, parts[k], Range(m + 1));
      PoolNext(init, parts[k], Range(m));
    }
  }

  lemma CaseIdsOfMore(cases: seq<Case>, c: Case)
    ensures CaseIds(cases + [c]) == CaseIds(cases) + [c.id]
  {
  }

  lemma {:induction false} SuitesMakeWhole(cases: seq<Case>)
    ensures multiset(CaseIds(Selected(cases, Curated))) + multiset(CaseIds(Selected(cases, Whole))) == multiset(CaseIds(cases))
  {
    if cases != [] {
      var init, c := cases[..|cases| - 1], cases[|cases| - 1];
      assert cases == init + [c];
      SuitesMakeWhole(init);
      CaseIdsOfMore(init, c);
      CaseIdsOfMore(Selected(init, Curated), c);
      CaseIdsOfMore(Selected(init, Whole), c);
      assert Selected(init, Curated) + [] == Selected(init, Curated);
      assert Selected(init, Whole) + [] == Selected(init, Whole);
    }
  }

  /** Together the parts are the inventory. */
  lemma PartsMakeWhole(x: Expected)
    requires x.count > 0
    ensures Pool(Parts(x), Range(x.count + 1)) == multiset(CaseIds(x.inventory))
  {
    var whole := CaseIds(Selected(x.inventory, Whole));
    PoolOfFirst(CaseIds(Selected(x.inventory, Curated)), Strides(whole, x.count), x.count);
    StridesMakeWhole(whole, x.count);
    SuitesMakeWhole(x.inventory);
  }

  lemma {:induction false} IdsOfStride(cases: seq<Case>, i: nat, n: nat)
    requires n > 0
    ensures CaseIds(Stride(cases, i, n)) == Stride(CaseIds(cases), i, n)
    decreases |cases| - i
  {
    if i < |cases| {
      IdsOfStride(cases, i + n, n);
      assert Stride(CaseIds(cases), i, n) == [CaseIds(cases)[i]] + Stride(CaseIds(cases), i + n, n);
    }
  }

  lemma {:induction false} StrideByOne(s: seq<nat>, i: nat)
    ensures Stride(s, i, 1) == if i <= |s| then s[i..] else []
    decreases |s| - i
  {
    if i < |s| {
      StrideByOne(s, i + 1);
    }
  }

  /** A good report covers the part of its slot, each case once. */
  lemma GoodRows(x: Expected, r: Report)
    requires Good(x, r) && x.count > 0 && Distinct(CaseIds(x.inventory))
    ensures 0 <= Slot(r) <= x.count
    ensures multiset(RowIds(r.rows)) == multiset(Parts(x)[Slot(r)])
  {
    var k := Slot(r);
    var selected := SelectedPart(x, r);
    hide Partition, Selected, Validated, Expects, Parts;
    PartDistinct(x, k);
    CompleteRows(x, r, selected);
    SameElements(RowIds(r.rows), Parts(x)[k]);
  }

  lemma SelectedPart(x: Expected, r: Report) returns (selected: seq<Case>)
    requires Good(x, r) && x.count > 0
    ensures Partition(x.inventory, r.suite, r.index, r.count) == Ok(selected)
    ensures 0 <= Slot(r) <= x.count && |Parts(x)| == x.count + 1 && CaseIds(selected) == Parts(x)[Slot(r)]
  {
    hide Complete, Declared, Distinct;
    var all := Selected(x.inventory, r.suite);
    selected := Partition(x.inventory, r.suite, r.index, r.count).value;
    IdsOfStride(all, r.index, r.count);
    if r.suite.Curated? {
      StrideByOne(CaseIds(all), 0);
    }
    hide Selected, Stride;
  }

  lemma CompleteRows(x: Expected, r: Report, selected: seq<Case>)
    requires Good(x, r) && Partition(x.inventory, r.suite, r.index, r.count) == Ok(selected)
    ensures Distinct(RowIds(r.rows)) && Elements(RowIds(r.rows)) == Elements(CaseIds(selected))
    ensures forall i :: 0 <= i < |r.rows| ==> AllComplete(r.rows[i].phases) && AllSucceeded(r.rows[i].normalizations)
  {
  }

  lemma PartDistinct(x: Expected, k: nat)
    requires x.count > 0 && k <= x.count && Distinct(CaseIds(x.inventory))
    ensures Distinct(Parts(x)[k])
  {
    PartsMakeWhole(x);
    RangeIs(x.count + 1);
    PartWithinPool(Parts(x), Range(x.count + 1), k);
    var t := Parts(x)[k];
    forall id ensures multiset(t)[id] <= 1 {
      DistinctOnce(CaseIds(x.inventory), id);
    }
    OnceDistinct(t);
  }

  /** What a good report is: of the one curated shard or of an expected shard of whole drivers, under the expected
      contract, finished and not failed; with one row for each case of its part, whose status is the verdict on that
      case, no process cut short, and no normalization in error. */
  ghost predicate Proper(x: Expected, r: Report)
    requires x.count > 0
  {
    && r.sealed && r.contract == x.contract && r.finalized && !r.failed && r.complete
    && ((r.suite.Curated? && r.index == 0 && r.count == 1) || (r.suite.Whole? && r.count == x.count && 0 <= r.index < x.count))
    && r.count <= |Selected(x.inventory, r.suite)|
    && multiset(RowIds(r.rows)) == multiset(Parts(x)[if r.suite.Curated? then 0 else r.index + 1])
    && forall i :: 0 <= i < |r.rows| ==> RowProper(x, r.rows[i])
  }

  ghost predicate RowProper(x: Expected, row: Row) {
    && (exists c :: c in x.inventory && c.id == row.id && Verdict(c.disposition, row.phases, row.normalizations, row.sameOutput) == Ok(row.status))
    && (forall k :: 0 <= k < |row.phases| ==> row.phases[k].process.complete)
    && (forall k :: 0 <= k < |row.normalizations| ==> RanWell(row.normalizations[k].process))
  }

  lemma GoodIff(x: Expected, r: Report)
    requires x.count > 0 && Distinct(CaseIds(x.inventory))
    ensures Good(x, r) <==> Proper(x, r)
  {
    if Good(x, r) {
      GoodIsProper(x, r);
    }
    if Proper(x, r) {
      ProperIsGood(x, r);
    }
  }

  lemma GoodIsProper(x: Expected, r: Report)
    requires x.count > 0 && Distinct(CaseIds(x.inventory)) && Good(x, r)
    ensures Proper(x, r)
  {
    GoodRows(x, r);
    forall i | 0 <= i < |r.rows| ensures RowProper(x, r.rows[i]) {
      assert r.rows[i] in r.rows;
      RowEvidence(x, r, r.rows[i]);
      hide Verdict, Good;
    }
    hide Parts, Selected, Stride, Declared, Complete, RowProper;
    PartLength(x, r);
  }

  lemma PartLength(x: Expected, r: Report)
    requires Good(x, r)
    ensures r.count <= |Selected(x.inventory, r.suite)| && r.finalized && !r.failed && r.complete
    ensures (r.suite.Curated? && r.index == 0 && r.count == 1) || (r.suite.Whole? && r.count == x.count && 0 <= r.index < x.count)
  {
    hide Selected, Stride, Declared;
  }

  lemma ProperIsGood(x: Expected, r: Report)
    requires x.count > 0 && Distinct(CaseIds(x.inventory)) && Proper(x, r)
    ensures Good(x, r)
  {
    PartOfSlot(x, r);
    PartDistinct(x, Slot(r));
    ProperParts(x, r);
    hide Selected, Stride, Distinct, Elements, RowProper;
    var selected := Stride(Selected(x.inventory, r.suite), r.index, r.count);
    hide Parts;
    PermutationDistinct(RowIds(r.rows), CaseIds(selected));
    ProperRows(x, r, selected);
    hide Declared, AllComplete, AllSucceeded, RowIds, CaseIds;
  }

  lemma ProperParts(x: Expected, r: Report)
    requires x.count > 0 && Proper(x, r)
    ensures r.sealed && r.contract == x.contract && r.finalized && !r.failed && r.complete && Expects(x, r)
    ensures Partition(x.inventory, r.suite, r.index, r.count) == Ok(Stride(Selected(x.inventory, r.suite), r.index, r.count))
  {
    hide Selected, Stride, Parts, RowProper;
  }

  lemma ProperRows(x: Expected, r: Report, selected: seq<Case>)
    requires Distinct(CaseIds(x.inventory)) && r.count > 0 && r.index >= 0
    requires selected == Stride(Selected(x.inventory, r.suite), r.index, r.count)
    requires multiset(RowIds(r.rows)) == multiset(CaseIds(selected))
    requires forall i :: 0 <= i < |r.rows| ==> RowProper(x, r.rows[i])
    ensures forall i :: 0 <= i < |r.rows| ==> Declared(selected, r.rows[i])
    ensures forall i :: 0 <= i < |r.rows| ==> AllComplete(r.rows[i].phases) && AllSucceeded(r.rows[i].normalizations)
  {
    hide Stride, Selected, Declared;
    forall i | 0 <= i < |r.rows|
      ensures Declared(selected, r.rows[i]) && AllComplete(r.rows[i].phases) && AllSucceeded(r.rows[i].normalizations) {
      assert RowIds(r.rows)[i] in multiset(RowIds(r.rows));
      assert RowIds(r.rows)[i] in multiset(CaseIds(selected));
      ProperIsDeclared(x, r, selected, r.rows[i]);
      RowRan(x, r.rows[i]);
      hide RowProper;
    }
  }

  lemma RowRan(x: Expected, row: Row)
    requires RowProper(x, row)
    ensures AllComplete(row.phases) && AllSucceeded(row.normalizations)
  {
  }

  lemma PartOfSlot(x: Expected, r: Report)
    requires x.count > 0 && Proper(x, r)
    ensures |Parts(x)| == x.count + 1 && Slot(r) <= x.count
    ensures CaseIds(Stride(Selected(x.inventory, r.suite), r.index, r.count)) == Parts(x)[Slot(r)]
  {
    var all := Selected(x.inventory, r.suite);
    IdsOfStride(all, r.index, r.count);
    if r.suite.Curated? {
      StrideByOne(CaseIds(all), 0);
    }
    hide Selected, Stride, RowProper;
  }

  lemma ProperIsDeclared(x: Expected, r: Report, selected: seq<Case>, row: Row)
    requires Distinct(CaseIds(x.inventory)) && RowProper(x, row) && r.count > 0 && r.index >= 0
    requires selected == Stride(Selected(x.inventory, r.suite), r.index, r.count) && row.id in CaseIds(selected)
    ensures Declared(selected, row)
  {
    hide Verdict;
    var c :| c in x.inventory && c.id == row.id && Verdict(c.disposition, row.phases, row.normalizations, row.sameOutput) == Ok(row.status);
    var k :| 0 <= k < |selected| && CaseIds(selected)[k] == row.id;
    StrideAt(Selected(x.inventory, r.suite), r.index, r.count, k);
    assert selected[k] in Selected(x.inventory, r.suite);
    SelectedIn(x.inventory, r.suite, selected[k]);
    SameId(x.inventory, c, selected[k]);
  }

  lemma {:induction false} SameId(cases: seq<Case>, c: Case, d: Case)
    requires Distinct(CaseIds(cases)) && c in cases && d in cases && c.id == d.id
    ensures c == d
  {
    var init, last := cases[..|cases| - 1], cases[|cases| - 1];
    assert cases == init + [last];
    CaseIdsOfMore(init, last);
    DistinctOfMore(CaseIds(init), last.id);
    hide Distinct;
    IdIn(init, c);
    IdIn(init, d);
    if c in init && d in init {
      SameId(init, c, d);
    }
  }

  lemma IdIn(cases: seq<Case>, c: Case)
    ensures c in cases ==> c.id in CaseIds(cases)
  {
    if c in cases {
      var i :| 0 <= i < |cases| && cases[i] == c;
      assert CaseIds(cases)[i] == c.id;
    }
  }

  // -------------------------------------------------------------------------
  // Complete if and only if
  // -------------------------------------------------------------------------

  ghost function Slots(reports: seq<Report>): (r: seq<int>)
    ensures |r| == |reports|
  {
    seq(|reports|, i requires 0 <= i < |reports| => Slot(reports[i]))
  }

  ghost predicate AllGood(x: Expected, reports: seq<Report>) {
    forall r :: r in reports ==> Good(x, r)
  }

  ghost predicate Policy(reports: seq<Report>, policy: Option<nat>) {
    (reports == [] <==> policy.None?) && forall r :: r in reports ==> policy == Some(r.policy)
  }

  ghost predicate SamePolicy(reports: seq<Report>) {
    forall q, r :: q in reports && r in reports ==> q.policy == r.policy
  }

  ghost predicate Pooled(x: Expected, m: Merge, reports: seq<Report>)
    requires x.count > 0
  {
    && m.seen == Elements(Slots(reports))
    && multiset(RowIds(m.rows)) == Pool(Parts(x), m.seen)
    && Policy(reports, m.policy)
    && (forall row :: row in m.rows ==> exists r :: r in reports && row in r.rows)
  }

  lemma GoodOfMore(x: Expected, init: seq<Report>, r: Report)
    ensures AllGood(x, init + [r]) <==> AllGood(x, init) && Good(x, r)
  {
    hide Good;
    if AllGood(x, init + [r]) {
      assert r in init + [r];
      assert forall q :: q in init ==> q in init + [r];
    }
  }

  lemma PolicyOfMore(init: seq<Report>, r: Report, policy: Option<nat>)
    requires Policy(init, policy)
    ensures SamePolicy(init)
    ensures SamePolicy(init + [r]) <==> policy.None? || policy.value == r.policy
    ensures SamePolicy(init + [r]) ==> Policy(init + [r], Some(r.policy))
  {
    if SamePolicy(init + [r]) && init != [] {
      assert init[0] in init + [r] && r in init + [r] && init[0] in init;
    }
  }

  lemma PolicyOfFewer(init: seq<Report>, r: Report)
    requires SamePolicy(init + [r])
    ensures SamePolicy(init)
  {
    assert forall q :: q in init ==> q in init + [r];
  }

  /** The merge is free of errors exactly when every report is good, no shard comes twice, and all
      producers normalized alike. */
  lemma {:induction false} ErrorFree(x: Expected, commitMatches: bool, reports: seq<Report>)
    requires x.count > 0 && Distinct(CaseIds(x.inventory))
    ensures var m := MergedAll(x, commitMatches, reports);
      && (m.errors == 0 <==> commitMatches && AllGood(x, reports) && Distinct(Slots(reports)) && SamePolicy(reports))
      && (m.errors == 0 ==> Pooled(x, m, reports))
    decreases |reports|
  {
    hide Good, Pooled, Merged;
    if reports == [] {
      NothingPooled(x);
    } else {
      var n := |reports| - 1;
      var init, r := reports[..n], reports[n];
      ErrorFree(x, commitMatches, init);
      assert reports == init + [r];
      assert Slots(reports) == Slots(init) + [Slot(r)];
      DistinctOfMore(Slots(init), Slot(r));
      GoodOfMore(x, init, r);
      if SamePolicy(reports) {
        PolicyOfFewer(init, r);
      }
      var m := MergedAll(x, commitMatches, init);
      hide SamePolicy, AllGood;
      if m.errors == 0 {
        ReportMerged(x, m, init, r);
      } else {
        ErrorsStay(x, m, r);
      }
    }
  }

  lemma NothingPooled(x: Expected)
    requires x.count > 0
    ensures Pooled(x, Merge(0, [], {}, None), [])
    ensures Distinct(Slots([]))
  {
    PoolOfNone(Parts(x));
  }

  lemma ErrorsStay(x: Expected, m: Merge, r: Report)
    ensures Merged(x, m, r).errors >= m.errors
  {
    hide Validated, Expects;
  }

  lemma ReportMerged(x: Expected, m: Merge, init: seq<Report>, r: Report)
    requires x.count > 0 && Distinct(CaseIds(x.inventory))
    requires m.errors == 0 && Pooled(x, m, init)
    ensures Merged(x, m, r).errors == 0 <==> Good(x, r) && Slot(r) !in Slots(init) && SamePolicy(init + [r])
    ensures Merged(x, m, r).errors == 0 ==> Pooled(x, Merged(x, m, r), init + [r])
  {
    PolicyOfMore(init, r, m.policy);
    assert Slot(r) in m.seen <==> Slot(r) in Slots(init);
    hide Validated, Expects, Policy, SamePolicy;
    if Good(x, r) && Slot(r) !in m.seen && SamePolicy(init + [r]) {
      RowsPooled(x, m, init, r);
    }
  }

  lemma RowIdsOfMore(a: seq<Row>, b: seq<Row>)
    ensures RowIds(a + b) == RowIds(a) + RowIds(b)
  {
  }

  lemma RowsPooled(x: Expected, m: Merge, init: seq<Report>, r: Report)
    requires x.count > 0 && Distinct(CaseIds(x.inventory))
    requires Pooled(x, m, init) && Good(x, r) && Slot(r) !in m.seen && Policy(init + [r], Some(r.policy))
    ensures Pooled(x, Merge(m.errors, m.rows + r.rows, m.seen + {Slot(r)}, Some(r.policy)), init + [r])
  {
    GoodRows(x, r);
    hide Good, RowIds, Pool, Parts, Policy;
    RowIdsOfMore(m.rows, r.rows);
    PartsCount(x);
    PoolOfMore(Parts(x), m.seen, Slot(r));
    assert Slots(init + [r]) == Slots(init) + [Slot(r)];
    ElementsOfMore(Slots(init), Slot(r));
    forall row | row in m.rows + r.rows ensures exists q :: q in init + [r] && row in q.rows {
      if row in m.rows {
        var q :| q in init && row in q.rows;
        assert q in init + [r];
      } else {
        assert r in init + [r];
      }
    }
  }

  lemma PartsCount(x: Expected)
    requires x.count > 0
    ensures |Parts(x)| == x.count + 1
  {
  }

  /** Completeness is claimed exactly when the commit matches, there is one good report for the curated
      cases and one for each shard of the whole drivers, nothing else, and all normalized alike. */
  lemma CompleteIff(x: Expected, commitMatches: bool, reports: seq<Report>)
    requires x.count > 0 && Distinct(CaseIds(x.inventory))
    ensures var s := Summarized(x, MergedAll(x, commitMatches, reports));
      && (s.complete <==> commitMatches && AllGood(x, reports) && OneEach(Slots(reports), x.count + 1) && SamePolicy(reports))
      && (s.complete ==> multiset(RowIds(s.rows)) == multiset(CaseIds(x.inventory)))
  {
    hide AllGood, MergedAll, Slots, SamePolicy;
    var m := MergedAll(x, commitMatches, reports);
    ErrorFree(x, commitMatches, reports);
    OneEachIff(Slots(reports), x.count + 1);
    if m.errors == 0 && m.seen == Range(x.count + 1) {
      PartsMakeWhole(x);
      PermutationDistinct(RowIds(m.rows), CaseIds(x.inventory));
    }
  }

  /** What a strict pass is worth: every case of the inventory has exactly one row, no row is a failure
      or an unexpected pass, and every status is the verdict on processes that all ran to their end. */
  lemma StrictPassMeans(x: Expected, commitMatches: bool, reports: seq<Report>, i: nat)
    requires x.count > 0 && Distinct(CaseIds(x.inventory))
    requires Summarized(x, MergedAll(x, commitMatches, reports)).strictPass
    requires i < |MergedAll(x, commitMatches, reports).rows|
    ensures multiset(RowIds(MergedAll(x, commitMatches, reports).rows)) == multiset(CaseIds(x.inventory))
    ensures var row := MergedAll(x, commitMatches, reports).rows[i];
      && (row.status.Pass? || row.status.XFail? || row.status.Skip?)
      && Declared(x.inventory, row) && AllComplete(row.phases) && AllSucceeded(row.normalizations)
      && (row.status.Pass? ==> BothRan(row.phases, row.normalizations) && row.sameOutput)
  {
    CompleteIff(x, commitMatches, reports);
    ErrorFree(x, commitMatches, reports);
    var m := MergedAll(x, commitMatches, reports);
    var row := m.rows[i];
    assert row in m.rows;
    var r :| r in reports && row in r.rows;
    hide MergedAll, Pooled;
    assert Good(x, r);
    RowEvidence(x, r, row);
  }

  /** A complete merge is a strict pass exactly if every row passed, failed as expected, or was skipped. */
  lemma StrictPassIff(x: Expected, m: Merge)
    requires x.count >= 0
    ensures var s := Summarized(x, m);
      s.strictPass <==> s.complete && forall i :: 0 <= i < |s.rows| ==> s.rows[i].status in {Pass, XFail, Skip}
  {
    hide Range;
    if Occurs(m.rows, Fail) {
      var i :| 0 <= i < |m.rows| && m.rows[i].status == Fail;
    }
    if Occurs(m.rows, XPass) {
      var i :| 0 <= i < |m.rows| && m.rows[i].status == XPass;
    }
  }

  lemma RowEvidence(x: Expected, r: Report, row: Row)
    requires Good(x, r) && row in r.rows
    ensures Declared(x.inventory, row) && AllComplete(row.phases) && AllSucceeded(row.normalizations)
    ensures row.status.Pass? ==> BothRan(row.phases, row.normalizations) && row.sameOutput
  {
    var all := Selected(x.inventory, r.suite);
    var selected := Stride(all, r.index, r.count);
    hide Selected, Stride, Complete;
    CompleteRows(x, r, selected);
    assert Declared(selected, row);
    var k :| 0 <= k < |selected| && selected[k].id == row.id
      && Verdict(selected[k].disposition, row.phases, row.normalizations, row.sameOutput) == Ok(row.status);
    var c := selected[k];
    StrideAt(all, r.index, r.count, k);
    assert c in all;
    SelectedIn(x.inventory, r.suite, c);
    AgreementIff(c.disposition, row.phases, row.normalizations, row.sameOutput);
    var n :| 0 <= n < |x.inventory| && x.inventory[n] == c;
  }

  lemma {:induction false} SelectedIn(cases: seq<Case>, suite: Suite, c: Case)
    requires c in Selected(cases, suite)
    ensures c in cases
  {
    if cases[|cases| - 1] != c {
      SelectedIn(cases[..|cases| - 1], suite, c);
    }
  }
}
