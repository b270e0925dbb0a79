/** The byte-budgeted recorder of interactive plots in `crates/r-embed/src/session.rs`, which keeps a
  page across evaluations. */
module Recorder {
  import opened Wrappers
  import opened Scene

  const BUDGET: nat := 16 * 1024 * 1024

  /** Sizes of the recorder's types in bytes. */
  datatype Sizes = Sizes(operation: nat, path: nat, command: nat) {
    predicate Valid() {
      operation > 0 && 4 * operation <= BUDGET
    }
  }

  /** A drawing call.  `dashCapacity` is the capacity of the caller's dash list, and `granted` is
      whether the session's memory limit would let the reservation grow. */
  datatype Call = Call(op: Operation, dashCapacity: nat, granted: bool)

  predicate ValidCall(c: Call) {
    c.op.DrawPath? && c.op.path.stroke.dash.Some? ==> |c.op.path.stroke.dash.value.intervals| <= c.dashCapacity
  }

  // -------------------------------------------------------------------------
  // Bytes
  // -------------------------------------------------------------------------

  function PathBytes(z: Sizes, p: Path, dashCapacity: nat): nat {
    2 * z.operation + z.path + |p.commands| * z.command + if p.stroke.dash.None? then 0 else dashCapacity * 4
  }

  /** A recorded operation; copied lists have no spare capacity. */
  function OperationBytes(z: Sizes, op: Operation): (r: nat)
    ensures r >= 2 * z.operation
  {
    match op
    case Clear(_) => 2 * z.operation
    case Clip(_) => 2 * z.operation
    case DrawPath(p) => PathBytes(z, p, if p.stroke.dash.None? then 0 else |p.stroke.dash.value.intervals|)
    case DrawText(text, _, _, _, _) => 2 * z.operation + |text|
    case DrawImage(pixels, _, _) => 2 * z.operation + |pixels|
  }

  /** What a call that does not clear asks for. */
  function CallBytes(z: Sizes, c: Call): nat {
    if c.op.DrawPath? then PathBytes(z, c.op.path, c.dashCapacity) else OperationBytes(z, c.op)
  }

  function SumBytes(z: Sizes, ops: seq<Operation>): nat {
    if ops == [] then 0 else SumBytes(z, ops[..|ops| - 1]) + OperationBytes(z, ops[|ops| - 1])
  }

  lemma {:induction false} SumAtLeast(z: Sizes, ops: seq<Operation>)
    ensures SumBytes(z, ops) >= |ops| * (2 * z.operation)
    decreases |ops|
  {
    hide OperationBytes;
    if ops != [] {
      var n, k := |ops| - 1, 2 * z.operation;
      SumAtLeast(z, ops[..n]);
      assert |ops| * k == n * k + k;
    }
  }

  function MaxNat(a: nat, b: nat): nat {
    if a < b then b else a
  }

  function SceneBytes(z: Sizes, ops: seq<Operation>): nat {
    MaxNat(SumBytes(z, ops), if ops == [] then 0 else 4 * z.operation)
  }

  // -------------------------------------------------------------------------
  // One evaluation
  // -------------------------------------------------------------------------

  /** The recorder while an evaluation draws. */
  datatype Track = Track(ops: seq<Operation>, drew: bool, retained: nat, reserved: nat, exceeded: bool)

  function Tracked(z: Sizes, t: Track, c: Call): Track {
    if c.op.Clear? then
      if c.granted then t.(ops := [c.op], retained := 4 * z.operation, reserved := 4 * z.operation) else t.(exceeded := true)
    else
      var total := t.retained + CallBytes(z, c);
      if total > BUDGET || !c.granted then t.(exceeded := true)
      else t.(ops := t.ops + [c.op], drew := t.drew || !c.op.Clip?, retained := total, reserved := total)
  }

  function TrackedAll(z: Sizes, t: Track, calls: seq<Call>): Track {
    if calls == [] then t else Tracked(z, TrackedAll(z, t, calls[..|calls| - 1]), calls[|calls| - 1])
  }

  function StartTrack(z: Sizes, ops: seq<Operation>, reserved: nat): Track {
    Track(ops, false, SceneBytes(z, ops), reserved, false)
  }

  function Ops(calls: seq<Call>): seq<Operation> {
    seq(|calls|, i requires 0 <= i < |calls| => calls[i].op)
  }

  /** `TrackingDrawTarget`. */
  class Tracker {
    const sizes: Sizes
    const target: DisplayList
    var drew: bool
    var retained: nat
    var reserved: nat
    var exceeded: bool

    ghost function Value(): Track
      reads this, target
    {
      Track(target.operations, drew, retained, reserved, exceeded)
    }

    constructor (sizes: Sizes, target: DisplayList, reserved: nat)
      ensures this.target == target && this.sizes == sizes && Value() == StartTrack(sizes, target.operations, reserved)
    {
      this.sizes, this.target, this.reserved := sizes, target, reserved;
      drew, exceeded := false, false;
      retained := SceneBytes(sizes, target.operations);
    }

    method Reserve(bytes: nat, granted: bool) returns (ok: bool)
      modifies this
      ensures ok == (old(retained) + bytes <= BUDGET && granted)
      ensures ok ==> retained == reserved == old(retained) + bytes && exceeded == old(exceeded)
      ensures !ok ==> exceeded && retained == old(retained) && reserved == old(reserved)
      ensures drew == old(drew)
    {
      var total := retained + bytes;
      if total > BUDGET || !granted {
        exceeded := true;
        return false;
      }
      reserved := total;
      retained := total;
      ok := true;
    }

    method Draw(c: Call)
      modifies this, target
      ensures Value() == Tracked(sizes, old(Value()), c)
    {
      hide CallBytes;
      if c.op.Clear? {
        var bytes := 4 * sizes.operation;
        if !c.granted {
          exceeded := true;
          return;
        }
        reserved := bytes;
        target.Draw(c.op);
        retained := bytes;
      } else {
        var ok := Reserve(CallBytes(sizes, c), c.granted);
        if !ok {
          return;
        }
        if !c.op.Clip? {
          drew := true;
        }
        target.Draw(c.op);
      }
    }

    /** An evaluation, as far as the recorder sees it. */
    method DrawAll(calls: seq<Call>)
      modifies this, target
      ensures Value() == TrackedAll(sizes, old(Value()), calls)
    {
      hide Tracked;
      assert calls[..0] == [];
      for i := 0 to |calls|
        invariant Value() == TrackedAll(sizes, old(Value()), calls[..i])
      {
        Draw(calls[i]);
        assert calls[..i + 1][..i] == calls[..i];
      }
      assert calls[..|calls|] == calls;
    }
  }

  /** Nothing is lost silently: without a refusal the page holds exactly what recording all calls
      gives, and something was drawn exactly when a path, text or image was. */
  lemma {:induction false} NothingMissing(z: Sizes, t: Track, calls: seq<Call>)
    requires !TrackedAll(z, t, calls).exceeded
    ensures !t.exceeded && TrackedAll(z, t, calls).ops == RecordedAll(t.ops, Ops(calls))
    ensures TrackedAll(z, t, calls).drew
      <==> t.drew || exists i :: 0 <= i < |calls| && !calls[i].op.Clear? && !calls[i].op.Clip?
    decreases |calls|
  {
    if calls != [] {
      var n := |calls| - 1;
      NothingMissing(z, t, calls[..n]);
      assert Ops(calls)[..n] == Ops(calls[..n]);
      DrewSoFar(calls, n);
    }
  }

  ghost predicate Draws(calls: seq<Call>) {
    exists i :: 0 <= i < |calls| && !calls[i].op.Clear? && !calls[i].op.Clip?
  }

  lemma DrewSoFar(calls: seq<Call>, n: nat)
    requires |calls| == n + 1
    ensures Draws(calls) <==> Draws(calls[..n]) || (!calls[n].op.Clear? && !calls[n].op.Clip?)
  {
    if i :| 0 <= i < n && !calls[..n][i].op.Clear? && !calls[..n][i].op.Clip? {
      assert !calls[i].op.Clear? && !calls[i].op.Clip?;
    }
    if i :| 0 <= i < |calls| && !calls[i].op.Clear? && !calls[i].op.Clip? {
      assert i < n ==> !calls[..n][i].op.Clear? && !calls[..n][i].op.Clip?;
    }
  }

  // -------------------------------------------------------------------------
  // Accounting
  // -------------------------------------------------------------------------

  /** The capacity of a list that grew one element at a time: at least 4, then doubling. */
  function Capacity(n: nat): (c: nat)
    ensures c >= n
  {
    if n == 0 then 0
    else
      var c := Capacity(n - 1);
      if n - 1 < c then c else MaxNat(4, 2 * c)
  }

  lemma {:induction false} CapacityBound(n: nat)
    requires n > 0
    ensures Capacity(n) <= MaxNat(4, 2 * (n - 1))
  {
    if n > 1 {
      CapacityBound(n - 1);
    }
  }

  /** The accounted bytes are within the budget and at least those of the operations, and a page that
      starts with a clear is accounted with four operations from the beginning. */
  ghost predicate Accounted(z: Sizes, ops: seq<Operation>, retained: nat) {
    && SumBytes(z, ops) <= retained <= BUDGET
    && (ops != [] && ops[0].Clear? ==> 4 * z.operation <= retained)
  }

  /** So the doubling list of operations is covered too, except a first operation that is no clear. */
  lemma CapacityCovered(z: Sizes, ops: seq<Operation>, retained: nat)
    requires Accounted(z, ops, retained)
    requires |ops| != 1 || ops[0].Clear?
    ensures Capacity(|ops|) * z.operation <= retained
  {
    var n := |ops|;
    if n > 0 {
      CapacityBound(n);
      SumAtLeast(z, ops);
      hide Capacity, SumBytes;
      if n > 1 {
        CoveredFromTwo(n, z.operation, Capacity(n), SumBytes(z, ops));
      } else {
        Scale(Capacity(n), 4, z.operation);
      }
    }
  }

  lemma CoveredFromTwo(n: nat, k: nat, c: nat, sum: nat)
    requires n > 1 && c <= MaxNat(4, 2 * (n - 1)) && sum >= n * (2 * k)
    ensures c * k <= sum
  {
    Scale(c, 2 * n, k);
    assert 2 * n * k == n * (2 * k);
  }

  lemma Scale(a: nat, b: nat, k: nat)
    requires a <= b
    ensures a * k <= b * k
  {
  }

  /** A first call that is no clear is covered exactly if it asks for four operations or more: a text, an
      image or a path can, a clip cannot. */
  lemma FirstOperationCoveredIff(z: Sizes, reserved: nat, c: Call)
    requires !c.op.Clear? && !Tracked(z, StartTrack(z, [], reserved), c).exceeded
    ensures var t := Tracked(z, StartTrack(z, [], reserved), c);
      && t.ops == [c.op] && t.retained == CallBytes(z, c)
      && (Capacity(|t.ops|) * z.operation <= t.retained <==> CallBytes(z, c) >= 4 * z.operation)
  {
    NoBytes(z);
    hide SumBytes, CallBytes;
    assert Capacity(1) == 4;
  }

  /** So a fresh page whose first call is a clip is accounted with two operations, and its list holds four. */
  lemma FirstClipUndercounted(z: Sizes, rect: Option<Rect>, reserved: nat)
    requires z.Valid()
    ensures var t := Tracked(z, StartTrack(z, [], reserved), Call(Clip(rect), 0, true));
      !t.exceeded && t.retained == 2 * z.operation < Capacity(|t.ops|) * z.operation
  {
    assert Capacity(1) == 4;
  }

  /** The list of operations is covered, except on a page that began empty and whose one call is no clear
      and asks for less than four operations.  This is exact. */
  lemma CapacityCoveredIff(z: Sizes, ops: seq<Operation>, reserved: nat, calls: seq<Call>)
    requires z.Valid() && SumBytes(z, ops) <= reserved <= BUDGET
    requires forall i :: 0 <= i < |calls| ==> ValidCall(calls[i])
    requires !TrackedAll(z, StartTrack(z, ops, reserved), calls).exceeded
    ensures var u := TrackedAll(z, StartTrack(z, ops, reserved), calls);
      Capacity(|u.ops|) * z.operation <= u.retained <==>
        !(ops == [] && |calls| == 1 && !calls[0].op.Clear? && CallBytes(z, calls[0]) < 4 * z.operation)
  {
    var t := StartTrack(z, ops, reserved);
    var u := TrackedAll(z, t, calls);
    RecountAccounted(z, ops, reserved);
    AlwaysAccounted(z, t, calls);
    NothingMissing(z, t, calls);
    if |u.ops| != 1 || u.ops[0].Clear? {
      CapacityCovered(z, u.ops, u.retained);
      OneCall(z, t, calls);
    } else {
      LoneOperation(ops, Ops(calls));
      assert Capacity(1) == 4;
      hide SumBytes, CallBytes;
      if calls != [] {
        OneCall(z, t, calls);
        FirstOperationCoveredIff(z, reserved, calls[0]);
      }
    }
  }

  lemma OneCall(z: Sizes, t: Track, calls: seq<Call>)
    ensures |calls| == 1 ==> TrackedAll(z, t, calls) == Tracked(z, t, calls[0])
    ensures |calls| == 1 && t.ops == [] && !calls[0].op.Clear? && !Tracked(z, t, calls[0]).exceeded ==> Tracked(z, t, calls[0]).ops == [calls[0].op]
  {
    hide Tracked, CallBytes;
    if |calls| == 1 {
      assert calls[..0] == [];
      hide TrackedAll;
      TrackedOps(z, t, calls[0]);
    }
  }

  lemma TrackedOps(z: Sizes, t: Track, c: Call)
    ensures !c.op.Clear? && !Tracked(z, t, c).exceeded ==> Tracked(z, t, c).ops == t.ops + [c.op]
  {
  }

  /** How a recording can come to hold a single operation that is no clear. */
  lemma LoneOperation(kept: seq<Operation>, ops: seq<Operation>)
    requires |RecordedAll(kept, ops)| == 1 && !RecordedAll(kept, ops)[0].Clear?
    ensures (kept == [] && |ops| == 1 && !ops[0].Clear?) || (|kept| == 1 && ops == [])
    decreases |ops|
  {
    if ops != [] {
      var init := ops[..|ops| - 1];
      NothingRecorded(kept, init);
    }
  }

  lemma NothingRecorded(kept: seq<Operation>, ops: seq<Operation>)
    ensures RecordedAll(kept, ops) == [] <==> kept == [] && ops == []
  {
  }

  lemma CallAccounted(z: Sizes, t: Track, c: Call)
    requires z.Valid() && ValidCall(c) && Accounted(z, t.ops, t.retained)
    ensures Accounted(z, Tracked(z, t, c).ops, Tracked(z, t, c).retained)
    ensures SumBytes(z, t.ops) <= t.reserved <= BUDGET
      ==> SumBytes(z, Tracked(z, t, c).ops) <= Tracked(z, t, c).reserved <= BUDGET
  {
    hide CallBytes, OperationBytes, SumBytes;
    if c.op.Clear? {
      NoBytes(z);
      SumOfMore(z, [], c.op);
      assert [] + [c.op] == [c.op];
      ClearBytes(z, c.op);
    } else {
      SumOfMore(z, t.ops, c.op);
      CallCoversCopy(z, c);
    }
  }

  lemma ClearBytes(z: Sizes, op: Operation)
    requires op.Clear?
    ensures OperationBytes(z, op) == 2 * z.operation
  {
  }

  lemma CallCoversCopy(z: Sizes, c: Call)
    requires ValidCall(c) && !c.op.Clear?
    ensures OperationBytes(z, c.op) <= CallBytes(z, c)
  {
  }

  lemma SumOfMore(z: Sizes, ops: seq<Operation>, op: Operation)
    ensures SumBytes(z, ops + [op]) == SumBytes(z, ops) + OperationBytes(z, op)
  {
    assert (ops + [op])[..|ops|] == ops;
  }

  /** At every moment of an evaluation. */
  lemma {:induction false} AlwaysAccounted(z: Sizes, t: Track, calls: seq<Call>)
    requires z.Valid() && Accounted(z, t.ops, t.retained) && SumBytes(z, t.ops) <= t.reserved <= BUDGET
    requires forall i :: 0 <= i < |calls| ==> ValidCall(calls[i])
    ensures var u := TrackedAll(z, t, calls);
      Accounted(z, u.ops, u.retained) && SumBytes(z, u.ops) <= u.reserved <= BUDGET
    decreases |calls|
  {
    hide Tracked, Accounted, SumBytes;
    if calls != [] {
      AlwaysAccounted(z, t, calls[..|calls| - 1]);
      CallAccounted(z, TrackedAll(z, t, calls[..|calls| - 1]), calls[|calls| - 1]);
    }
  }

  /** A page kept from an earlier evaluation is within the budget when it is counted again. */
  lemma RecountAccounted(z: Sizes, ops: seq<Operation>, reserved: nat)
    requires z.Valid() && SumBytes(z, ops) <= reserved <= BUDGET
    ensures Accounted(z, ops, SceneBytes(z, ops))
  {
  }

  // -------------------------------------------------------------------------
  // What is accounted for the data
  // -------------------------------------------------------------------------

  /** The bytes of the data an operation holds: those of a text or an image, or of a path with its commands and
      four for each length of its dashes. */
  function DataBytes(z: Sizes, op: Operation, dashes: nat): nat {
    match op
    case Clear(_) => 0
    case Clip(_) => 0
    case DrawPath(p) => z.path + |p.commands| * z.command + if p.stroke.dash.Some? then 4 * dashes else 0
    case DrawText(text, _, _, _, _) => |text|
    case DrawImage(pixels, _, _) => |pixels|
  }

  /** A call that does not clear is refused exactly if the session refuses memory, or if two operations and its
      data are more than what 16 MiB leave beside the page; a refused call leaves page and account. */
  lemma RefusedIff(z: Sizes, t: Track, c: Call)
    requires !c.op.Clear? && !t.exceeded
    ensures var u := Tracked(z, t, c);
      && (u.exceeded <==> !c.granted || t.retained + 2 * z.operation + DataBytes(z, c.op, c.dashCapacity) > 16_777_216)
      && (u.exceeded ==> u.ops == t.ops && u.retained == t.retained && u.reserved == t.reserved && u.drew == t.drew)
      && (!u.exceeded ==> u.ops == t.ops + [c.op] && u.reserved == u.retained == t.retained + 2 * z.operation + DataBytes(z, c.op, c.dashCapacity))
  {
  }

  /** A clear is refused exactly if the session refuses memory for four operations, however much was recorded; else it
      is all that is left of the page. */
  lemma ClearedIff(z: Sizes, t: Track, c: Call)
    requires c.op.Clear? && !t.exceeded
    ensures Tracked(z, t, c) ==
      if c.granted then Track([c.op], t.drew, 4 * z.operation, 4 * z.operation, false) else Track(t.ops, t.drew, t.retained, t.reserved, true)
  {
  }

  /** Once refused, an evaluation stays refused. */
  lemma {:induction false} RefusalStays(z: Sizes, t: Track, calls: seq<Call>)
    requires t.exceeded
    ensures TrackedAll(z, t, calls).exceeded
    decreases |calls|
  {
    hide CallBytes;
    if calls != [] {
      RefusalStays(z, t, calls[..|calls| - 1]);
    }
  }

  /** So a text, an image or a path whose data alone exceed 16 MiB is never recorded. */
  lemma LargeDataIsRefused(z: Sizes, t: Track, c: Call)
    requires !c.op.Clear? && DataBytes(z, c.op, c.dashCapacity) > 16_777_216
    ensures Tracked(z, t, c).exceeded && Tracked(z, t, c).ops == t.ops
  {
    hide CallBytes;
    CallIsData(z, c);
  }

  lemma CallIsData(z: Sizes, c: Call)
    ensures !c.op.Clear? ==> CallBytes(z, c) == 2 * z.operation + DataBytes(z, c.op, c.dashCapacity)
  {
  }

  function DashesOf(op: Operation): nat {
    if op.DrawPath? && op.path.stroke.dash.Some? then |op.path.stroke.dash.value.intervals| else 0
  }

  function PageBytes(z: Sizes, ops: seq<Operation>): nat {
    if ops == [] then 0 else PageBytes(z, ops[..|ops| - 1]) + DataBytes(z, ops[|ops| - 1], DashesOf(ops[|ops| - 1]))
  }

  lemma {:induction false} SumIsData(z: Sizes, ops: seq<Operation>)
    ensures SumBytes(z, ops) == |ops| * (2 * z.operation) + PageBytes(z, ops)
    decreases |ops|
  {
    hide OperationBytes, DataBytes, DashesOf;
    if ops != [] {
      var n := |ops| - 1;
      SumIsData(z, ops[..n]);
      OperationIsData(z, ops[n]);
      OneMoreTime(n, 2 * z.operation);
    }
  }

  lemma OneMoreTime(n: nat, k: nat)
    ensures (n + 1) * k == n * k + k
  {
  }

  lemma OperationIsData(z: Sizes, op: Operation)
    ensures OperationBytes(z, op) == 2 * z.operation + DataBytes(z, op, DashesOf(op))
  {
  }

  /** Over any run of evaluations, the data of the kept page and two operations for each of its own stay within
      16 MiB together. */
  lemma PageFitsBudget(z: Sizes, inputs: seq<Input>)
    requires z.Valid()
    requires forall i, k :: 0 <= i < |inputs| && 0 <= k < |inputs[i].calls| ==> ValidCall(inputs[i].calls[k])
    ensures var s := Run(z, State(true, None, None), inputs);
      s.page.Some? ==> |s.page.value.ops| * (2 * z.operation) + PageBytes(z, s.page.value.ops) <= 16_777_216
  {
    RunKeeps(z, inputs);
    hide Run, History, SumBytes, PageBytes;
    var s := Run(z, State(true, None, None), inputs);
    if s.page.Some? {
      SumIsData(z, s.page.value.ops);
    }
  }

  // -------------------------------------------------------------------------
  // Evaluations
  // -------------------------------------------------------------------------

  datatype Page = Page(width: nat, height: nat, ops: seq<Operation>)

  datatype State = State(active: bool, page: Option<Page>, reservation: Option<nat>)

  /** What an evaluation meets: the plot size, whether the canvas and an empty reservation can be had,
      what the code draws, whether it ends in an error, and whether a picture could be finished. */
  datatype Input = Input(width: nat, height: nat, canvas: bool, reservable: bool, calls: seq<Call>, fails: bool, finishes: bool)

  /** `png` is what the renderer is told to draw. */
  datatype Outcome =
    | Closed
    | TooSmall
    | NoWorkspace
    | OverBudget
    | Unfinished
    | Evaluated(failed: bool, png: Option<seq<Operation>>)

  predicate Begins(s: State, x: Input) {
    s.active && x.width >= 32 && x.height >= 32 && x.canvas && (s.reservation.None? ==> x.reservable)
  }

  function PageOf(s: State, x: Input): Page {
    if s.page.Some? then s.page.value else Page(x.width, x.height, [])
  }

  function ReservedBy(s: State): nat {
    if s.reservation.Some? then s.reservation.value else 0
  }

  function Ran(z: Sizes, s: State, x: Input): Track {
    TrackedAll(z, StartTrack(z, PageOf(s, x).ops, ReservedBy(s)), x.calls)
  }

  function After(z: Sizes, s: State, x: Input): State {
    if !Begins(s, x) then s
    else
      var t := Ran(z, s, x);
      if t.exceeded then s.(page := None, reservation := None)
      else s.(page := Some(PageOf(s, x).(ops := t.ops)), reservation := Some(t.reserved))
  }

  function OutcomeOf(z: Sizes, s: State, x: Input, sqrt: real -> real): Outcome {
    if !s.active then Closed
    else if x.width < 32 || x.height < 32 then TooSmall
    else if !Begins(s, x) then NoWorkspace
    else
      var t := Ran(z, s, x);
      var p := PageOf(s, x);
      if t.exceeded then OverBudget
      else if t.drew && !x.finishes then Unfinished
      else Evaluated(x.fails, if t.drew then Some(ScaleAll(t.ops, ScaleAxis(x.width, p.width), ScaleAxis(x.height, p.height), sqrt)) else None)
  }

  /** The early exits, in their order, and that they leave everything as it was; an evaluation that gets past them
      fails only for the budget, or for a picture that was drawn and cannot be finished. */
  lemma OutcomeIff(z: Sizes, s: State, x: Input, sqrt: real -> real)
    ensures var out, t := OutcomeOf(z, s, x, sqrt), Ran(z, s, x);
      var small := x.width < 32 || x.height < 32;
      var begins := s.active && !small && x.canvas && (s.reservation.Some? || x.reservable);
      && (out.Closed? <==> !s.active) && (out.TooSmall? <==> s.active && small)
      && (out.NoWorkspace? <==> s.active && !small && !begins)
      && (out.OverBudget? <==> begins && t.exceeded)
      && (out.Unfinished? <==> begins && !t.exceeded && t.drew && !x.finishes)
      && (out.Evaluated? <==> begins && !t.exceeded && (t.drew ==> x.finishes))
      && (out.Evaluated? ==> out.failed == x.fails && (out.png.Some? <==> t.drew))
      && (!begins ==> After(z, s, x) == s)
  {
    hide Ran, ScaleAll;
  }

  /** An evaluation that draws nothing keeps the page, or begins an empty one of its size, and reserves nothing. */
  lemma IdleEvaluation(z: Sizes, s: State, x: Input)
    requires Begins(s, x) && x.calls == []
    ensures After(z, s, x).active && After(z, s, x).reservation == (if s.reservation.Some? then s.reservation else Some(0))
    ensures After(z, s, x).page == if s.page.Some? then s.page else Some(Page(x.width, x.height, []))
  {
  }

  class Session {
    const sizes: Sizes
    var active: bool
    var page: DisplayList?
    var reservation: Option<nat>

    ghost function Value(): State
      reads this, page
    {
      State(active, if page == null then None else Some(Page(page.width, page.height, page.operations)), reservation)
    }

    constructor (sizes: Sizes)
      ensures this.sizes == sizes && Value() == State(true, None, None) && page == null
    {
      this.sizes, active, page, reservation := sizes, true, null, None;
    }

    /** `eval_interactive`. */
    method EvalInteractive(x: Input, sqrt: real -> real) returns (out: Outcome)
      modifies this, page
      ensures Value() == After(sizes, old(Value()), x)
      ensures out == OutcomeOf(sizes, old(Value()), x, sqrt)
      ensures page != null ==> page == old(page) || fresh(page)
    {
      hide TrackedAll, ScaleAll, ScaleAxis;
      if !active {
        return Closed;
      }
      if x.width < 32 || x.height < 32 {
        return TooSmall;
      }
      if !x.canvas {
        return NoWorkspace;
      }
      if reservation.None? {
        if !x.reservable {
          return NoWorkspace;
        }
        reservation := Some(0);
      }
      var scene := page;
      if scene == null {
        scene := new DisplayList(x.width, x.height);
        page := scene;
      }
      var target := new Tracker(sizes, scene, reservation.value);
      target.DrawAll(x.calls);
      if target.exceeded {
        page, reservation := null, None;
        return OverBudget;
      }
      reservation := Some(target.reserved);
      var png := None;
      if target.drew {
        var renderer := new Renderer(x.width, x.height);
        renderer.Replay(scene, sqrt);
        ghost var all := ScaleAll(scene.operations, ScaleAxis(x.width, scene.width), ScaleAxis(x.height, scene.height), sqrt);
        assert [] + all == all;
        if !x.finishes {
          return Unfinished;
        }
        png := Some(renderer.calls);
      }
      out := Evaluated(x.fails, png);
    }
  }

  /** The renderer, reduced to the calls it gets. */
  class Renderer {
    const width: nat
    const height: nat
    var calls: seq<Operation>

    constructor (width: nat, height: nat)
      ensures this.width == width && this.height == height && calls == []
    {
      this.width, this.height, calls := width, height, [];
    }

    method Replay(list: DisplayList, sqrt: real -> real)
      modifies this
      ensures calls == old(calls) + ScaleAll(list.operations, ScaleAxis(width, list.width), ScaleAxis(height, list.height), sqrt)
    {
      var sx, sy := ScaleAxis(width, list.width), ScaleAxis(height, list.height);
      ghost var all := ScaleAll(list.operations, sx, sy, sqrt);
      hide ScaleOp, ScaleAxis, ScalarScale;
      for i := 0 to |list.operations|
        invariant calls == old(calls) + all[..i]
      {
        calls := calls + [ScaleOp(list.operations[i], sx, sy, ScalarScale(sx, sy, sqrt))];
        assert all[..i + 1] == all[..i] + [all[i]];
      }
      assert all[..|all|] == all;
    }
  }

  // -------------------------------------------------------------------------
  // Runs
  // -------------------------------------------------------------------------

  function Run(z: Sizes, s: State, inputs: seq<Input>): State {
    if inputs == [] then s else After(z, Run(z, s, inputs[..|inputs| - 1]), inputs[|inputs| - 1])
  }

  /** The drawing calls of all evaluations since the page was begun. */
  function History(z: Sizes, s: State, inputs: seq<Input>): seq<Operation> {
    if inputs == [] then []
    else
      var before, x := Run(z, s, inputs[..|inputs| - 1]), inputs[|inputs| - 1];
      var h := History(z, s, inputs[..|inputs| - 1]);
      if !Begins(before, x) then h
      else if Ran(z, before, x).exceeded then []
      else h + Ops(x.calls)
  }

  ghost predicate Keeps(z: Sizes, s: State, history: seq<Operation>) {
    && (s.page.None? ==> history == [])
    && (s.page.Some? ==>
          && s.reservation.Some? && s.page.value.ops == SinceClear(history)
          && SumBytes(z, s.page.value.ops) <= s.reservation.value <= BUDGET)
    && (s.page.None? && s.reservation.Some? ==> s.reservation.value <= BUDGET)
  }

  /** Over any run of evaluations, the kept page is exactly what was drawn since the last clear since
      the last refusal, in whatever evaluations, and the reservation covers it within the budget. */
  lemma {:induction false} RunKeeps(z: Sizes, inputs: seq<Input>)
    requires z.Valid()
    requires forall i, k :: 0 <= i < |inputs| && 0 <= k < |inputs[i].calls| ==> ValidCall(inputs[i].calls[k])
    ensures var s := State(true, None, None);
      Keeps(z, Run(z, s, inputs), History(z, s, inputs))
    decreases |inputs|
  {
    hide After, Begins, Ran, Keeps;
    var s := State(true, None, None);
    if inputs == [] {
      NothingKept(z);
    } else {
      var n := |inputs| - 1;
      RunKeeps(z, inputs[..n]);
      EvaluationKeeps(z, Run(z, s, inputs[..n]), History(z, s, inputs[..n]), inputs[n]);
    }
  }

  lemma NothingKept(z: Sizes)
    ensures Keeps(z, State(true, None, None), [])
  {
  }

  lemma EvaluationKeeps(z: Sizes, s: State, history: seq<Operation>, x: Input)
    requires z.Valid() && Keeps(z, s, history) && forall k :: 0 <= k < |x.calls| ==> ValidCall(x.calls[k])
    ensures Keeps(z, After(z, s, x),
      if !Begins(s, x) then history else if Ran(z, s, x).exceeded then [] else history + Ops(x.calls))
  {
    hide Tracked, TrackedAll, SumBytes, SinceClear, Accounted;
    if Begins(s, x) && !Ran(z, s, x).exceeded {
      var ops := PageOf(s, x).ops;
      NoBytes(z);
      NoOps();
      RecountAccounted(z, ops, ReservedBy(s));
      AlwaysAccounted(z, StartTrack(z, ops, ReservedBy(s)), x.calls);
      NothingMissing(z, StartTrack(z, ops, ReservedBy(s)), x.calls);
      KeptIsSinceClear([], history);
      RecordTwice([], history, Ops(x.calls));
      KeptIsSinceClear([], history + Ops(x.calls));
    }
  }

  lemma NoBytes(z: Sizes)
    ensures SumBytes(z, []) == 0
  {
  }

  lemma NoOps()
    ensures SinceClear([]) == []
  {
  }

  /** A picture is returned exactly when this evaluation drew something, and it shows the whole kept
      page, with what earlier evaluations drew on it. */
  lemma PictureIsWholePage(z: Sizes, s: State, x: Input, sqrt: real -> real)
    requires OutcomeOf(z, s, x, sqrt).Evaluated?
    ensures OutcomeOf(z, s, x, sqrt).png.Some? <==> Draws(x.calls)
    ensures After(z, s, x).page.Some?
    ensures Draws(x.calls) ==>
      var page := After(z, s, x).page.value;
      OutcomeOf(z, s, x, sqrt).png.value == ScaleAll(page.ops, ScaleAxis(x.width, page.width), ScaleAxis(x.height, page.height), sqrt)
  {
    hide ScaleAll, ScaleAxis, TrackedAll;
    NothingMissing(z, StartTrack(z, PageOf(s, x).ops, ReservedBy(s)), x.calls);
  }

  /** If the picture cannot be finished, what was drawn is kept all the same. */
  lemma UnfinishedKeepsPage(z: Sizes, s: State, x: Input, sqrt: real -> real)
    ensures OutcomeOf(z, s, x, sqrt).Unfinished?
      <==> Begins(s, x) && !Ran(z, s, x).exceeded && Draws(x.calls) && !x.finishes
    ensures OutcomeOf(z, s, x, sqrt).Unfinished? ==>
      After(z, s, x).page == Some(PageOf(s, x).(ops := RecordedAll(PageOf(s, x).ops, Ops(x.calls))))
  {
    hide ScaleAll, ScaleAxis, TrackedAll;
    if Begins(s, x) && !Ran(z, s, x).exceeded {
      NothingMissing(z, StartTrack(z, PageOf(s, x).ops, ReservedBy(s)), x.calls);
    }
  }

  /** After a refusal the next evaluation starts on an empty page of its own size. */
  lemma RefusalRecovers(z: Sizes, s: State, x: Input, y: Input, sqrt: real -> real)
    requires OutcomeOf(z, s, x, sqrt).OverBudget?
    ensures After(z, s, x) == State(true, None, None)
    ensures PageOf(After(z, s, x), y) == Page(y.width, y.height, [])
  {
    hide TrackedAll;
  }
}
