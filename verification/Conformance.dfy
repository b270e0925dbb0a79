/** The join of conformance shard reports in `scripts/conformance_shards.py`.  Cases are numbers; digests
  and the rest of an execution contract are given. */
module Conformance {
  import opened Wrappers
  import opened Striding

  datatype Status = Pass | Fail | XFail | XPass | Skip | Unknown

  datatype Row = Row(id: nat, status: Status, timeout: bool)

  datatype Counts = Counts(pass: nat, fail: nat, xfail: nat, xpass: nat, skip: nat)

  datatype Shard = Shard(index: int, count: int, total: int, selectedTotal: int, digest: nat)

  /** `readable` and `rowsReadable`: the fields have the expected types.  `contract` stands for
      everything in the execution contract but the shard. */
  datatype Report = Report(readable: bool, contract: nat, shard: Shard, rowsReadable: bool, rows: seq<Row>,
                           total: int, inventoryTotal: int, counts: Counts, claim: bool)

  /** What the reports are held against. */
  datatype Expected = Expected(inventory: seq<nat>, count: int, contract: nat, digest: seq<nat> -> nat)

  function Partition(inventory: seq<nat>, index: int, count: int): (r: Result<seq<nat>>)
    ensures r.Ok? <==> 0 <= index < count <= |inventory| && Distinct(inventory)
    ensures r.Ok? ==> r.value == Stride(inventory, index, count)
  {
    if count < 1 || !(0 <= index < count) || count > |inventory| || !Distinct(inventory) then Raised
    else Ok(Stride(inventory, index, count))
  }

  function Ids(rows: seq<Row>): (r: seq<nat>)
    ensures |r| == |rows|
  {
    seq(|rows|, i requires 0 <= i < |rows| => rows[i].id)
  }

  function CountOf(rows: seq<Row>, status: Status): (n: nat)
    ensures n <= |rows|
    ensures n == |rows| <==> forall i :: 0 <= i < |rows| ==> rows[i].status == status
  {
    if rows == [] then 0
    else CountOf(rows[..|rows| - 1], status) + if rows[|rows| - 1].status == status then 1 else 0
  }

  function CountsOf(rows: seq<Row>): Counts {
    Counts(CountOf(rows, Pass), CountOf(rows, Fail), CountOf(rows, XFail), CountOf(rows, XPass), CountOf(rows, Skip))
  }

  predicate TimedOut(rows: seq<Row>) {
    exists i :: 0 <= i < |rows| && rows[i].timeout
  }

  // -------------------------------------------------------------------------
  // One report
  // -------------------------------------------------------------------------

  predicate HeaderOk(x: Expected, r: Report) {
    && r.readable && r.contract == x.contract
    && var selected := Partition(x.inventory, r.shard.index, x.count);
    && selected.Ok?
    && r.shard == Shard(r.shard.index, x.count, |x.inventory|, |selected.value|, x.digest(selected.value))
  }

  /** All selected cases have a result, and none timed out. */
  predicate Finished(x: Expected, r: Report)
    requires HeaderOk(x, r)
  {
    Elements(Ids(r.rows)) == Elements(Stride(x.inventory, r.shard.index, x.count)) && !TimedOut(r.rows)
  }

  predicate BodyOk(x: Expected, r: Report)
    requires HeaderOk(x, r)
  {
    var selected := Stride(x.inventory, r.shard.index, x.count);
    && r.rowsReadable
    && Distinct(Ids(r.rows)) && Elements(Ids(r.rows)) <= Elements(selected)
    && (forall i :: 0 <= i < |r.rows| ==> r.rows[i].status != Unknown)
    && |r.rows| == r.total && r.inventoryTotal == |selected|
    && r.counts == CountsOf(r.rows)
    && r.claim == Finished(x, r)
  }

  /** A valid report of a shard that ran to its end. */
  predicate Good(x: Expected, r: Report) {
    HeaderOk(x, r) && BodyOk(x, r) && Finished(x, r)
  }

  // -------------------------------------------------------------------------
  // The merge
  // -------------------------------------------------------------------------

  datatype Merge = Merge(errors: nat, rows: seq<Row>, seen: set<int>)

  /** A shard counts as seen before its rows are looked at. */
  function Merged(x: Expected, m: Merge, r: Report): Merge {
    if !HeaderOk(x, r) || r.shard.index in m.seen then m.(errors := m.errors + 1)
    else
      var seen := m.seen + {r.shard.index};
      if !BodyOk(x, r) then m.(errors := m.errors + 1, seen := seen)
      else Merge(m.errors + if Finished(x, r) then 0 else 1, m.rows + r.rows, seen)
  }

  function MergedAll(x: Expected, commitMatches: bool, reports: seq<Report>): Merge {
    if reports == [] then Merge(if commitMatches then 0 else 1, [], {})
    else Merged(x, MergedAll(x, commitMatches, reports[..|reports| - 1]), reports[|reports| - 1])
  }

  function Unattempted(inventory: seq<nat>, attempted: set<nat>): seq<nat> {
    if inventory == [] then []
    else (if inventory[0] in attempted then [] else [inventory[0]]) + Unattempted(inventory[1..], attempted)
  }

  datatype Summary = Summary(complete: bool, strictPass: bool, rows: seq<Row>, received: set<int>, unattempted: seq<nat>, errors: nat)

  function Summarized(x: Expected, m: Merge): Summary
    requires x.count > 0
  {
    var errors := m.errors + if Range(x.count) - m.seen == {} then 0 else 1;
    var unattempted := Unattempted(x.inventory, Elements(Ids(m.rows)));
    var complete := errors == 0 && unattempted == [] && !TimedOut(m.rows) && |m.rows| == |x.inventory|;
    Summary(complete, complete && CountOf(m.rows, Pass) == |x.inventory|, m.rows, m.seen, unattempted, errors)
  }

  /** `merge_reports`.  It fails outright if the inventory cannot be partitioned at all. */
  method MergeReports(x: Expected, commitMatches: bool, reports: seq<Report>) returns (r: Result<Summary>)
    ensures r.Ok? <==> 1 <= x.count <= |x.inventory| && Distinct(x.inventory)
    ensures r.Ok? ==> r.value == Summarized(x, MergedAll(x, commitMatches, reports))
  {
    hide Summarized, HeaderOk, BodyOk, Finished;
    if Partition(x.inventory, 0, x.count).Raised? {
      return Raised;
    }
    var errors, rows, seen: set<int> := if commitMatches then 0 else 1, [], {};
    assert reports[..0] == [];
    for i := 0 to |reports|
      invariant Merge(errors, rows, seen) == MergedAll(x, commitMatches, reports[..i])
    {
      var report := reports[i];
      assert reports[..i + 1][..i] == reports[..i];
      if !HeaderOk(x, report) || report.shard.index in seen {
        errors := errors + 1;
        continue;
      }
      seen := seen + {report.shard.index};
      if !BodyOk(x, report) {
        errors := errors + 1;
        continue;
      }
      rows := rows + report.rows;
      if !Finished(x, report) {
        errors := errors + 1;
      }
    }
    assert reports[..|reports|] == reports;
    r := Ok(Summarized(x, Merge(errors, rows, seen)));
  }

  // -------------------------------------------------------------------------
  // Complete if and only if
  // -------------------------------------------------------------------------

  ghost function Indexes(reports: seq<Report>): (r: seq<int>)
    ensures |r| == |reports|
  {
    seq(|reports|, i requires 0 <= i < |reports| => reports[i].shard.index)
  }

  ghost predicate AllGood(x: Expected, reports: seq<Report>) {
    forall r :: r in reports ==> Good(x, r)
  }

  /** A good report holds its share of the inventory, each case once. */
  lemma GoodRows(x: Expected, r: Report)
    requires Good(x, r)
    ensures 0 <= r.shard.index < x.count
    ensures multiset(Ids(r.rows)) == multiset(Strides(x.inventory, x.count)[r.shard.index])
  {
    StrideDistinct(x.inventory, r.shard.index, x.count);
    SameElements(Ids(r.rows), Stride(x.inventory, r.shard.index, x.count));
  }

  /** The rows with a status. */
  ghost function WithStatus(rows: seq<Row>, status: Status): set<int> {
    set i | 0 <= i < |rows| && rows[i].status == status
  }

  lemma {:induction false} CountIsSize(rows: seq<Row>, status: Status)
    ensures CountOf(rows, status) == |WithStatus(rows, status)|
  {
    if rows != [] {
      var n := |rows| - 1;
      CountIsSize(rows[..n], status);
      assert WithStatus(rows, status) == WithStatus(rows[..n], status) + if rows[n].status == status then {n} else {};
    }
  }

  /** What a good report is: one of the expected shards under the expected contract, with the digest and the
      number of its cases; a result for each of them and for nothing else, none unknown and none timed out; counts
      that are the numbers of results of each kind; and the claim to be complete. */
  ghost predicate Proper(x: Expected, r: Report) {
    && r.readable && r.rowsReadable && r.contract == x.contract && r.claim
    && 0 <= r.shard.index < x.count && r.shard.count == x.count && r.shard.total == |x.inventory|
    && var share := Stride(x.inventory, r.shard.index, x.count);
    && r.shard.digest == x.digest(share)
    && r.total == r.inventoryTotal == r.shard.selectedTotal == |share|
    && multiset(Ids(r.rows)) == multiset(share)
    && (forall i :: 0 <= i < |r.rows| ==> !r.rows[i].timeout && r.rows[i].status != Unknown)
    && r.counts.pass == |WithStatus(r.rows, Pass)| && r.counts.fail == |WithStatus(r.rows, Fail)|
    && r.counts.xfail == |WithStatus(r.rows, XFail)| && r.counts.xpass == |WithStatus(r.rows, XPass)|
    && r.counts.skip == |WithStatus(r.rows, Skip)|
  }

  lemma GoodIff(x: Expected, r: Report)
    requires 1 <= x.count <= |x.inventory| && Distinct(x.inventory)
    ensures Good(x, r) <==> Proper(x, r)
  {
    CountsAreSizes(r.rows);
    hide WithStatus, CountOf, CountsOf;
    if 0 <= r.shard.index < x.count {
      var share := Stride(x.inventory, r.shard.index, x.count);
      StrideDistinct(x.inventory, r.shard.index, x.count);
      if Good(x, r) {
        SameElements(Ids(r.rows), share);
        assert |multiset(Ids(r.rows))| == |multiset(share)|;
      }
      if Proper(x, r) {
        PermutationDistinct(Ids(r.rows), share);
      }
    }
  }

  lemma CountsAreSizes(rows: seq<Row>)
    ensures CountsOf(rows) == Counts(|WithStatus(rows, Pass)|, |WithStatus(rows, Fail)|, |WithStatus(rows, XFail)|,
                                     |WithStatus(rows, XPass)|, |WithStatus(rows, Skip)|)
  {
    CountIsSize(rows, Pass);
    CountIsSize(rows, Fail);
    CountIsSize(rows, XFail);
    CountIsSize(rows, XPass);
    CountIsSize(rows, Skip);
  }

  lemma IdsOfMore(a: seq<Row>, b: seq<Row>)
    ensures Ids(a + b) == Ids(a) + Ids(b)
    ensures TimedOut(a + b) <==> TimedOut(a) || TimedOut(b)
  {
    if TimedOut(b) {
      var i :| 0 <= i < |b| && b[i].timeout;
      assert (a + b)[|a| + i].timeout;
    }
    if TimedOut(a) {
      var i :| 0 <= i < |a| && a[i].timeout;
      assert (a + b)[i].timeout;
    }
  }

  /** The merge is free of errors exactly when every report is good and no shard comes twice; then it
      has the rows of the shards it has seen. */
  lemma {:induction false} ErrorFree(x: Expected, commitMatches: bool, reports: seq<Report>)
    ensures var m := MergedAll(x, commitMatches, reports);
      && (m.errors == 0 <==> commitMatches && AllGood(x, reports) && Distinct(Indexes(reports)))
      && (m.errors == 0 ==> Pooled(x, m, reports))
    decreases |reports|
  {
    hide Good, HeaderOk, BodyOk, Finished, Pooled;
    if reports == [] {
      NothingPooled(x);
    } else {
      var n := |reports| - 1;
      var init, r := reports[..n], reports[n];
      ErrorFree(x, commitMatches, init);
      assert reports == init + [r];
      assert Indexes(reports) == Indexes(init) + [r.shard.index];
      DistinctOfMore(Indexes(init), r.shard.index);
      GoodOfMore(x, init, r);
      var m := MergedAll(x, commitMatches, init);
      if m.errors == 0 {
        ReportMerged(x, m, init, r);
      } else {
        ErrorsStay(x, m, r);
      }
    }
  }

  /** The rows, and the shards that were seen. */
  ghost predicate Pooled(x: Expected, m: Merge, reports: seq<Report>) {
    && m.seen == Elements(Indexes(reports))
    && (x.count > 0 ==> multiset(Ids(m.rows)) == Pool(Strides(x.inventory, x.count), m.seen))
    && !TimedOut(m.rows)
  }

  lemma NothingPooled(x: Expected)
    ensures Pooled(x, Merge(0, [], {}), [])
    ensures Distinct(Indexes([]))
  {
    if x.count > 0 {
      PoolOfNone(Strides(x.inventory, x.count));
    }
  }

  lemma GoodOfMore(x: Expected, init: seq<Report>, r: Report)
    ensures AllGood(x, init + [r]) <==> AllGood(x, init) && Good(x, r)
  {
    hide Good;
    if AllGood(x, init + [r]) {
      assert r in init + [r];
      assert forall q :: q in init ==> q in init + [r];
    }
  }

  lemma ErrorsStay(x: Expected, m: Merge, r: Report)
    ensures Merged(x, m, r).errors >= m.errors
  {
    hide HeaderOk, BodyOk, Finished;
  }

  /** Each report adds at most one error, and so do a commit that does not match and shards that are missing. */
  lemma {:induction false} ErrorsAtMost(x: Expected, commitMatches: bool, reports: seq<Report>)
    requires x.count > 0
    ensures var m := MergedAll(x, commitMatches, reports);
      && m.errors <= |reports| + (if commitMatches then 0 else 1)
      && m.errors <= Summarized(x, m).errors <= m.errors + 1
    decreases |reports|
  {
    hide HeaderOk, BodyOk, Finished, Unattempted, TimedOut, CountOf;
    if reports != [] {
      ErrorsAtMost(x, commitMatches, reports[..|reports| - 1]);
    }
  }

  lemma ReportMerged(x: Expected, m: Merge, init: seq<Report>, r: Report)
    requires m.errors == 0 && Pooled(x, m, init)
    ensures Merged(x, m, r).errors == 0 <==> Good(x, r) && r.shard.index !in Indexes(init)
    ensures Merged(x, m, r).errors == 0 ==> Pooled(x, Merged(x, m, r), init + [r])
  {
    assert r.shard.index in m.seen <==> r.shard.index in Indexes(init);
    assert Good(x, r) <==> HeaderOk(x, r) && BodyOk(x, r) && Finished(x, r);
    hide HeaderOk, BodyOk, Finished;
    if Good(x, r) && r.shard.index !in m.seen {
      RowsPooled(x, m, init, r);
    }
  }

  lemma RowsPooled(x: Expected, m: Merge, init: seq<Report>, r: Report)
    requires Pooled(x, m, init) && Good(x, r) && r.shard.index !in m.seen
    ensures Pooled(x, Merge(m.errors, m.rows + r.rows, m.seen + {r.shard.index}), init + [r])
  {
    GoodRows(x, r);
    NoTimeout(x, r);
    hide Good, Ids, Pool, Strides, TimedOut;
    IdsOfMore(m.rows, r.rows);
    PoolOfMore(Strides(x.inventory, x.count), m.seen, r.shard.index);
    assert Indexes(init + [r]) == Indexes(init) + [r.shard.index];
    ElementsOfMore(Indexes(init), r.shard.index);
  }

  lemma NoTimeout(x: Expected, r: Report)
    requires Good(x, r)
    ensures !TimedOut(r.rows)
  {
  }

  lemma {:induction false} NoneUnattempted(inventory: seq<nat>, attempted: set<nat>)
    ensures Unattempted(inventory, attempted) == [] <==> forall id :: id in inventory ==> id in attempted
  {
    if inventory != [] {
      NoneUnattempted(inventory[1..], attempted);
      assert inventory == [inventory[0]] + inventory[1..];
    }
  }

  /** Completeness is claimed exactly when the commit matches and there is one good report for each
      shard and nothing else, in whatever order. */
  lemma CompleteIff(x: Expected, commitMatches: bool, reports: seq<Report>)
    requires 1 <= x.count <= |x.inventory| && Distinct(x.inventory)
    ensures var s := Summarized(x, MergedAll(x, commitMatches, reports));
      && (s.complete <==> commitMatches && AllGood(x, reports) && OneEach(Indexes(reports), x.count))
      && (s.complete ==> multiset(Ids(s.rows)) == multiset(x.inventory))
  {
    hide AllGood, MergedAll, Indexes;
    var m, slots := MergedAll(x, commitMatches, reports), Indexes(reports);
    ErrorFree(x, commitMatches, reports);
    OneEachIff(slots, x.count);
    NoneUnattempted(x.inventory, Elements(Ids(m.rows)));
    NothingMissing(Range(x.count), m.seen);
    if m.errors == 0 {
      SlotsInRange(x, reports);
      if Range(x.count) - m.seen == {} {
        assert m.seen == Range(x.count);
        StridesMakeWhole(x.inventory, x.count);
        PermutationDistinct(Ids(m.rows), x.inventory);
      }
    }
  }

  lemma SlotsInRange(x: Expected, reports: seq<Report>)
    requires x.count >= 0 && AllGood(x, reports)
    ensures Elements(Indexes(reports)) <= Range(x.count)
  {
    RangeIs(x.count);
    forall k | k in Elements(Indexes(reports)) ensures k in Range(x.count) {
      var i :| 0 <= i < |reports| && Indexes(reports)[i] == k;
      assert reports[i] in reports;
      GoodRows(x, reports[i]);
    }
  }

  /** A strict pass means that every case of the inventory has a result, and that it is a pass. */
  lemma StrictPassIff(x: Expected, commitMatches: bool, reports: seq<Report>)
    requires 1 <= x.count <= |x.inventory| && Distinct(x.inventory)
    ensures var s := Summarized(x, MergedAll(x, commitMatches, reports));
      s.strictPass <==> s.complete && forall i :: 0 <= i < |s.rows| ==> s.rows[i].status == Pass
  {
    hide MergedAll;
  }

  /** The rows of all reports together. */
  ghost function AllRows(reports: seq<Report>): multiset<Row> {
    if reports == [] then multiset{} else AllRows(reports[..|reports| - 1]) + multiset(reports[|reports| - 1].rows)
  }

  lemma AllRowsOfMore(reports: seq<Report>, r: Report)
    ensures AllRows(reports + [r]) == AllRows(reports) + multiset(r.rows)
  {
    assert (reports + [r])[..|reports|] == reports;
  }

  lemma {:induction false} AllRowsWithout(reports: seq<Report>, i: nat)
    requires i < |reports|
    ensures AllRows(reports) == AllRows(reports[..i] + reports[i + 1..]) + multiset(reports[i].rows)
  {
    var n := |reports| - 1;
    var init, last := reports[..n], reports[n];
    assert reports == init + [last];
    AllRowsOfMore(init, last);
    hide AllRows;
    if i == n {
      assert reports[..i] + reports[i + 1..] == init;
    } else {
      AllRowsWithout(init, i);
      assert reports[..i] + reports[i + 1..] == init[..i] + init[i + 1..] + [last];
      AllRowsOfMore(init[..i] + init[i + 1..], last);
    }
  }

  lemma {:induction false} AllRowsInAnyOrder(a: seq<Report>, b: seq<Report>)
    requires multiset(a) == multiset(b)
    ensures AllRows(a) == AllRows(b)
    decreases |a|
  {
    if a == [] {
      assert |b| == |multiset(b)|;
    } else {
      var n := |a| - 1;
      assert a == a[..n] + [a[n]];
      assert a[n] in multiset(b);
      var i :| 0 <= i < |b| && b[i] == a[n];
      hide AllRows;
      WithoutOne(a, b, i);
      AllRowsOfMore(a[..n], a[n]);
      AllRowsWithout(b, i);
      AllRowsInAnyOrder(a[..n], b[..i] + b[i + 1..]);
    }
  }

  lemma WithoutOne<T>(a: seq<T>, b: seq<T>, i: nat)
    requires multiset(a) == multiset(b) && a != [] && i < |b| && b[i] == a[|a| - 1]
    ensures multiset(a[..|a| - 1]) == multiset(b[..i] + b[i + 1..])
  {
    var x := b[i];
    assert a == a[..|a| - 1] + [x] + [];
    assert a[..|a| - 1] + [] == a[..|a| - 1];
    assert b == b[..i] + [x] + b[i + 1..];
    OneBetween(a[..|a| - 1], x, []);
    OneBetween(b[..i], x, b[i + 1..]);
    OneLess(multiset(a[..|a| - 1]), multiset(b[..i] + b[i + 1..]), x);
  }

  lemma OneBetween<T>(before: seq<T>, x: T, after: seq<T>)
    ensures multiset(before + [x] + after) == multiset(before + after) + multiset{x}
  {
  }

  lemma OneLess<T>(a: multiset<T>, b: multiset<T>, x: T)
    requires a + multiset{x} == b + multiset{x}
    ensures a == b
  {
    assert a == a + multiset{x} - multiset{x} && b == b + multiset{x} - multiset{x};
  }

  /** Without errors the merge has all rows of all reports. */
  lemma {:induction false} MergedRows(x: Expected, commitMatches: bool, reports: seq<Report>)
    requires MergedAll(x, commitMatches, reports).errors == 0
    ensures multiset(MergedAll(x, commitMatches, reports).rows) == AllRows(reports)
    decreases |reports|
  {
    hide HeaderOk, BodyOk, Finished;
    if reports != [] {
      MergedRows(x, commitMatches, reports[..|reports| - 1]);
    }
  }

  lemma AllPassIff(rows: seq<Row>)
    ensures (forall i :: 0 <= i < |rows| ==> rows[i].status == Pass) <==> forall row :: row in multiset(rows) ==> row.status == Pass
  {
    forall i | 0 <= i < |rows| ensures rows[i] in multiset(rows) {
    }
  }

  /** The same reports in another order give the same answer: the claims are the same, and the rows of a
      complete merge are the same up to their order, which sorting removes. */
  lemma OrderDoesNotMatter(x: Expected, commitMatches: bool, a: seq<Report>, b: seq<Report>)
    requires 1 <= x.count <= |x.inventory| && Distinct(x.inventory) && multiset(a) == multiset(b)
    ensures var s, t := Summarized(x, MergedAll(x, commitMatches, a)), Summarized(x, MergedAll(x, commitMatches, b));
      && s.complete == t.complete && s.strictPass == t.strictPass
      && (s.complete ==> multiset(s.rows) == multiset(t.rows))
  {
    SameCompleteness(x, commitMatches, a, b);
    StrictPassIff(x, commitMatches, a);
    StrictPassIff(x, commitMatches, b);
    var m, n := MergedAll(x, commitMatches, a), MergedAll(x, commitMatches, b);
    hide MergedAll;
    if Summarized(x, m).complete {
      MergedRows(x, commitMatches, a);
      MergedRows(x, commitMatches, b);
      AllRowsInAnyOrder(a, b);
      AllPassIff(m.rows);
      AllPassIff(n.rows);
    }
  }

  lemma SameCompleteness(x: Expected, commitMatches: bool, a: seq<Report>, b: seq<Report>)
    requires 1 <= x.count <= |x.inventory| && Distinct(x.inventory) && multiset(a) == multiset(b)
    ensures Summarized(x, MergedAll(x, commitMatches, a)).complete == Summarized(x, MergedAll(x, commitMatches, b)).complete
  {
    CompleteIff(x, commitMatches, a);
    CompleteIff(x, commitMatches, b);
    hide Summarized, MergedAll, Good;
    PermutationDistinct(a, b);
    assert forall r :: r in a <==> r in b by {
      assert forall r :: r in a <==> r in Elements(a);
      assert forall r :: r in b <==> r in Elements(b);
    }
    SameIndexes(a, b);
    SameIndexes(b, a);
  }

  lemma SameIndexes(a: seq<Report>, b: seq<Report>)
    requires forall r :: r in a ==> r in b
    ensures Elements(Indexes(a)) <= Elements(Indexes(b))
  {
    forall k | k in Elements(Indexes(a)) ensures k in Elements(Indexes(b)) {
      var i :| 0 <= i < |a| && Indexes(a)[i] == k;
      assert a[i] in b;
      var j :| 0 <= j < |b| && b[j] == a[i];
      assert Indexes(b)[j] == k;
    }
  }
}
