/** The section scanner of `scripts/optimize_wasm_runtime.py`: the standard sections of a WebAssembly
  module (sections 5.2.2, 5.5.2 and 5.5.3 of the WebAssembly Core Specification), in their original
  encoding, with the custom sections left out. */
module WasmSections {
  type byte = b: int | 0 <= b < 256

  const HEADER: seq<byte> := [0, 97, 115, 109, 1, 0, 0, 0]

  datatype Error = InvalidHeader | InvalidLength | Truncated
  datatype Result<T> = Ok(value: T) | Err(error: Error)

  // -------------------------------------------------------------------------
  // Sections
  // -------------------------------------------------------------------------

  /** A section with the bytes that encode its length. */
  datatype Section = Section(kind: byte, leb: seq<byte>, content: seq<byte>)

  function Pow2(n: nat): nat {
    if n == 0 then 1 else 2 * Pow2(n - 1)
  }

  /** The number that LEB128 bytes stand for when the first of them counts 2^shift times. */
  function LebValue(leb: seq<byte>, shift: nat): nat {
    if leb == [] then 0 else leb[0] % 128 * Pow2(shift) + LebValue(leb[1..], shift + 7)
  }

  /** The digits of a number to the base 128, the least significant first. */
  function Base128(digits: seq<byte>): nat {
    if digits == [] then 0 else digits[0] % 128 + 128 * Base128(digits[1..])
  }

  /** LEB128 is that, without the top bits. */
  lemma {:induction false} LebIsBase128(leb: seq<byte>, shift: nat)
    ensures LebValue(leb, shift) == Base128(leb) * Pow2(shift)
    ensures LebValue(leb, 0) == Base128(leb)
    decreases |leb|
  {
    if leb != [] {
      LebIsBase128(leb[1..], shift + 7);
      LebIsBase128(leb[1..], 7);
      SevenMore(shift);
      SevenMore(0);
      Distribute(leb[0] % 128, Base128(leb[1..]), Pow2(shift));
    }
  }

  lemma SevenMore(n: nat)
    ensures Pow2(n + 7) == 128 * Pow2(n) && Pow2(0) == 1
  {
    assert Pow2(n + 2) == 2 * Pow2(n + 1) == 4 * Pow2(n);
    assert Pow2(n + 4) == 2 * Pow2(n + 3) == 4 * Pow2(n + 2);
    assert Pow2(n + 6) == 2 * Pow2(n + 5) == 4 * Pow2(n + 4);
  }

  lemma Distribute(d: nat, rest: nat, p: nat)
    ensures d * p + rest * (128 * p) == (d + 128 * rest) * p
  {
  }

  /** At most `most` bytes; the top bit says that another one follows. */
  predicate IsLeb(leb: seq<byte>, most: nat) {
    && 1 <= |leb| <= most
    && leb[|leb| - 1] < 128
    && forall i :: 0 <= i < |leb| - 1 ==> leb[i] >= 128
  }

  predicate WellFormed(s: Section) {
    IsLeb(s.leb, 5) && LebValue(s.leb, 0) == |s.content|
  }

  function Encode(s: Section): seq<byte> {
    [s.kind] + s.leb + s.content
  }

  function EncodeAll(ss: seq<Section>): seq<byte> {
    if ss == [] then [] else Encode(ss[0]) + EncodeAll(ss[1..])
  }

  ghost predicate AllWellFormed(ss: seq<Section>) {
    forall i :: 0 <= i < |ss| ==> WellFormed(ss[i])
  }

  /** The sections that can change execution. */
  function Standard(ss: seq<Section>): seq<Section> {
    if ss == [] then []
    else if ss[0].kind != 0 then [ss[0]] + Standard(ss[1..])
    else Standard(ss[1..])
  }

  // -------------------------------------------------------------------------
  // Scanning
  // -------------------------------------------------------------------------

  /** The length at `p`, given what was read before, and the position behind it. */
  function ReadLength(data: seq<byte>, p: nat, length: nat, shift: nat): (r: Result<(nat, nat)>)
    requires p <= |data|
    ensures r.Ok? ==> p < r.value.1 <= |data|
    decreases |data| - p
  {
    if p >= |data| || shift > 28 then Err(InvalidLength)
    else
      var length' := length + data[p] % 128 * Pow2(shift);
      if data[p] < 128 then Ok((length', p + 1)) else ReadLength(data, p + 1, length', shift + 7)
  }

  /** The section at `p`. */
  function ReadSection(data: seq<byte>, p: nat): (r: Result<Section>)
    requires p < |data|
    ensures r.Ok? ==> p + |Encode(r.value)| <= |data|
  {
    var n := ReadLength(data, p + 1, 0, 0);
    if n.Err? then Err(n.error)
    else
      var (length, q) := n.value;
      if q + length > |data| then Err(Truncated)
      else Ok(Section(data[p], data[p + 1..q], data[q..q + length]))
  }

  function ReadSections(data: seq<byte>, p: nat): Result<seq<Section>>
    requires p <= |data|
    decreases |data| - p
  {
    if p == |data| then Ok([])
    else
      var s := ReadSection(data, p);
      if s.Err? then Err(s.error)
      else Prepend([s.value], ReadSections(data, p + |Encode(s.value)|))
  }

  function Prepend(ss: seq<Section>, r: Result<seq<Section>>): Result<seq<Section>> {
    if r.Err? then r else Ok(ss + r.value)
  }

  /** The sections of a module. */
  function Sections(data: seq<byte>): Result<seq<Section>> {
    if HEADER <= data then ReadSections(data, 8) else Err(InvalidHeader)
  }

  function ExecutionSections(data: seq<byte>): Result<seq<byte>> {
    var ss := Sections(data);
    if ss.Err? then Err(ss.error) else Ok(HEADER + EncodeAll(Standard(ss.value)))
  }

  /** `execution_sections`.  The payload bits of a length do not overlap, so that or-ing them in
      adds them. */
  method ScanExecutionSections(data: seq<byte>) returns (r: Result<seq<byte>>)
    ensures r == ExecutionSections(data)
  {
    hide EncodeAll, Standard, ReadLength, ReadSections, Encode;
    if !(|data| >= 8 && data[..8] == HEADER) {
      return Err(InvalidHeader);
    }
    var position := 8;
    var result := data[..8];
    ghost var done: seq<Section> := [];
    NothingScanned(data);
    while position < |data|
      invariant 8 <= position <= |data|
      invariant ReadSections(data, 8) == Prepend(done, ReadSections(data, position))
      invariant result == HEADER + EncodeAll(Standard(done))
      decreases |data| - position
    {
      var start := position;
      var kind := data[position];
      position := position + 1;
      OneSectionRead(data, position - 1, done);
      var n := ScanLength(data, position);
      if n.Err? {
        return Err(n.error);
      }
      var length := n.value.0;
      position := n.value.1;
      var end := position + length;
      if end > |data| {
        return Err(Truncated);
      }
      ghost var s := ReadSection(data, start).value;
      Whole(data, start, position, end);
      if kind != 0 {
        result := result + data[start..end];
      }
      OneMore(done, s);
      done := done + [s];
      position := end;
    }
    AllRead(data, done);
    r := Ok(result);
  }

  lemma AllRead(data: seq<byte>, done: seq<Section>)
    ensures Prepend(done, ReadSections(data, |data|)) == Ok(done)
  {
    assert done + [] == done;
  }

  lemma OneSectionRead(data: seq<byte>, p: nat, done: seq<Section>)
    requires p < |data| && 8 <= |data| && ReadSections(data, 8) == Prepend(done, ReadSections(data, p))
    ensures var s := ReadSection(data, p);
      if s.Err? then ReadSections(data, 8) == Err(s.error)
      else ReadSections(data, 8) == Prepend(done + [s.value], ReadSections(data, p + |Encode(s.value)|))
  {
    hide ReadSection, Encode;
    var s := ReadSection(data, p);
    if s.Ok? {
      PrependTwice(done, [s.value], ReadSections(data, p + |Encode(s.value)|));
    }
  }

  /** The inner loop. */
  method ScanLength(data: seq<byte>, start: nat) returns (r: Result<(nat, nat)>)
    requires start <= |data|
    ensures r == ReadLength(data, start, 0, 0)
  {
    var position: nat, length: nat, shift: nat := start, 0, 0;
    while true
      invariant start <= position <= |data|
      invariant ReadLength(data, position, length, shift) == ReadLength(data, start, 0, 0)
      decreases |data| - position
    {
      if position >= |data| || shift > 28 {
        return Err(InvalidLength);
      }
      var value := data[position];
      position := position + 1;
      length := length + value % 128 * Pow2(shift);
      if value < 128 {
        return Ok((length, position));
      }
      shift := shift + 7;
    }
  }

  lemma NothingScanned(data: seq<byte>)
    requires |data| >= 8
    ensures ReadSections(data, 8) == Prepend([], ReadSections(data, 8))
    ensures EncodeAll(Standard([])) == []
  {
    var r := ReadSections(data, 8);
    assert r.Ok? ==> [] + r.value == r.value;
  }

  lemma Whole(data: seq<byte>, start: nat, q: nat, end: nat)
    requires start < q <= end <= |data|
    ensures Encode(Section(data[start], data[start + 1..q], data[q..end])) == data[start..end]
  {
  }

  lemma PrependTwice(a: seq<Section>, b: seq<Section>, r: Result<seq<Section>>)
    ensures Prepend(a, Prepend(b, r)) == Prepend(a + b, r)
  {
    assert r.Ok? ==> a + (b + r.value) == a + b + r.value;
  }

  lemma {:induction false} OneMore(ss: seq<Section>, s: Section)
    ensures EncodeAll(Standard(ss + [s])) == EncodeAll(Standard(ss)) + if s.kind != 0 then Encode(s) else []
  {
    StandardJoins(ss, [s]);
    EncodeJoins(Standard(ss), Standard([s]));
    assert Standard([s]) == if s.kind != 0 then [s] else [];
    assert Encode(s) + [] == Encode(s);
  }

  lemma {:induction false} StandardJoins(a: seq<Section>, b: seq<Section>)
    ensures Standard(a + b) == Standard(a) + Standard(b)
  {
    if a == [] {
      assert a + b == b;
    } else {
      assert (a + b)[1..] == a[1..] + b;
      StandardJoins(a[1..], b);
    }
  }

  lemma {:induction false} EncodeJoins(a: seq<Section>, b: seq<Section>)
    ensures EncodeAll(a + b) == EncodeAll(a) + EncodeAll(b)
  {
    if a == [] {
      assert a + b == b;
    } else {
      assert (a + b)[1..] == a[1..] + b;
      EncodeJoins(a[1..], b);
    }
  }

  // -------------------------------------------------------------------------
  // What is accepted
  // -------------------------------------------------------------------------

  /** The reader takes off exactly the LEB128 bytes that start at `p`. */
  lemma {:induction false} LengthIsSound(data: seq<byte>, p: nat, length: nat, k: nat)
    requires p <= |data| && ReadLength(data, p, length, 7 * k).Ok?
    ensures k <= 4
    ensures var (n, q) := ReadLength(data, p, length, 7 * k).value;
      IsLeb(data[p..q], 5 - k) && n == length + LebValue(data[p..q], 7 * k)
    decreases |data| - p
  {
    var (n, q) := ReadLength(data, p, length, 7 * k).value;
    hide Pow2;
    if data[p] < 128 {
      assert data[p..q] == [data[p]];
      assert LebValue([data[p]][1..], 7 * k + 7) == 0;
    } else {
      LengthIsSound(data, p + 1, length + data[p] % 128 * Pow2(7 * k), k + 1);
      assert data[p..q] == [data[p]] + data[p + 1..q];
      assert data[p..q][1..] == data[p + 1..q];
    }
  }

  lemma {:induction false} LengthIsComplete(data: seq<byte>, p: nat, q: nat, length: nat, k: nat)
    requires p < q <= |data| && k <= 4 && IsLeb(data[p..q], 5 - k)
    ensures ReadLength(data, p, length, 7 * k) == Ok((length + LebValue(data[p..q], 7 * k), q))
    decreases q - p
  {
    hide Pow2;
    var leb := data[p..q];
    assert leb[0] == data[p];
    assert leb[1..] == data[p + 1..q];
    if q == p + 1 {
      assert LebValue(leb[1..], 7 * k + 7) == 0;
    } else {
      assert leb[|leb| - 1] == data[p + 1..q][q - p - 2];
      LengthIsComplete(data, p + 1, q, length + data[p] % 128 * Pow2(7 * k), k + 1);
    }
  }

  lemma SectionIsSound(data: seq<byte>, p: nat)
    requires p < |data| && ReadSection(data, p).Ok?
    ensures var s := ReadSection(data, p).value;
      WellFormed(s) && |Encode(s)| > 0 && data[p..p + |Encode(s)|] == Encode(s)
  {
    hide LebValue, IsLeb, ReadLength;
    LengthIsSound(data, p + 1, 0, 0);
    var (length, q) := ReadLength(data, p + 1, 0, 0).value;
    Whole(data, p, q, q + length);
  }

  lemma SliceOfSlice(data: seq<byte>, p: nat, end: nat, i: nat, j: nat)
    requires p <= end <= |data| && i <= j <= end - p
    ensures data[p..end][i..j] == data[p + i..p + j]
  {
    var a, b := data[p..end][i..j], data[p + i..p + j];
    assert |a| == |b|;
    forall k | 0 <= k < |a| ensures a[k] == b[k] {
      assert a[k] == data[p..end][i + k];
    }
  }

  lemma SectionIsComplete(s: Section, data: seq<byte>, p: nat)
    requires WellFormed(s) && p + |Encode(s)| <= |data| && data[p..p + |Encode(s)|] == Encode(s)
    ensures p < |data| && |Encode(s)| > 0 && ReadSection(data, p) == Ok(s)
  {
    hide LebValue, ReadLength;
    var q := p + 1 + |s.leb|;
    var e := Encode(s);
    assert e[1..q - p] == s.leb && e[q - p..] == s.content && e[0] == s.kind;
    SliceOfSlice(data, p, p + |e|, 1, q - p);
    SliceOfSlice(data, p, p + |e|, q - p, |e|);
    assert data[p] == data[p..p + |e|][0];
    LengthIsComplete(data, p + 1, q, 0, 0);
  }

  lemma {:induction false} SectionsAreSound(data: seq<byte>, p: nat)
    requires p <= |data| && ReadSections(data, p).Ok?
    ensures var ss := ReadSections(data, p).value;
      AllWellFormed(ss) && EncodeAll(ss) == data[p..]
    decreases |data| - p
  {
    hide ReadSection, WellFormed, Encode;
    if p < |data| {
      SectionIsSound(data, p);
      var s := ReadSection(data, p).value;
      var next := p + |Encode(s)|;
      SectionsAreSound(data, next);
      var rest := ReadSections(data, next).value;
      assert ([s] + rest)[1..] == rest;
      assert data[p..] == data[p..next] + data[next..];
    }
  }

  lemma {:induction false} SectionsAreComplete(ss: seq<Section>, data: seq<byte>, p: nat)
    requires AllWellFormed(ss) && p <= |data| && EncodeAll(ss) == data[p..]
    ensures ReadSections(data, p) == Ok(ss)
    decreases |ss|
  {
    hide ReadSection, WellFormed, Encode;
    if ss != [] {
      var s, rest := ss[0], EncodeAll(ss[1..]);
      var next := p + |Encode(s)|;
      assert WellFormed(s);
      assert data[p..][..|Encode(s)|] == data[p..next];
      assert (Encode(s) + rest)[..|Encode(s)|] == Encode(s);
      SectionIsComplete(s, data, p);
      assert data[p..][|Encode(s)|..] == data[next..];
      SectionsAreComplete(ss[1..], data, next);
      assert ss == [s] + ss[1..];
    }
  }

  /** Accepted are exactly the header followed by complete sections, and no byte string can be cut
      into sections in two ways. */
  lemma AcceptedIff(data: seq<byte>, ss: seq<Section>)
    ensures Sections(data) == Ok(ss) <==> AllWellFormed(ss) && data == [0, 97, 115, 109, 1, 0, 0, 0] + EncodeAll(ss)
  {
    hide ReadSections, EncodeAll, AllWellFormed;
    if Sections(data) == Ok(ss) {
      SectionsAreSound(data, 8);
      assert data == HEADER + data[8..];
    }
    if AllWellFormed(ss) && data == HEADER + EncodeAll(ss) {
      assert data[8..] == EncodeAll(ss);
      SectionsAreComplete(ss, data, 8);
    }
  }

  // -------------------------------------------------------------------------
  // What is kept
  // -------------------------------------------------------------------------

  lemma {:induction false} StandardIsWellFormed(ss: seq<Section>)
    requires AllWellFormed(ss)
    ensures AllWellFormed(Standard(ss)) && Standard(Standard(ss)) == Standard(ss)
  {
    hide WellFormed;
    if ss != [] {
      assert WellFormed(ss[0]);
      StandardIsWellFormed(ss[1..]);
      var rest := Standard(ss[1..]);
      assert ([ss[0]] + rest)[1..] == rest;
    }
  }

  /** The result is itself a module, made of the standard sections. */
  lemma SectionsOfResult(data: seq<byte>)
    requires Sections(data).Ok?
    ensures Sections(ExecutionSections(data).value) == Ok(Standard(Sections(data).value))
  {
    hide AllWellFormed, Sections, EncodeAll, Standard;
    var ss := Sections(data).value;
    AcceptedIff(data, ss);
    StandardIsWellFormed(ss);
    AcceptedIff(ExecutionSections(data).value, Standard(ss));
  }

  lemma Idempotent(data: seq<byte>)
    requires ExecutionSections(data).Ok?
    ensures ExecutionSections(ExecutionSections(data).value) == ExecutionSections(data)
  {
    hide AllWellFormed, Sections, EncodeAll, Standard;
    var ss := Sections(data).value;
    AcceptedIff(data, ss);
    SectionsOfResult(data);
    StandardIsWellFormed(ss);
  }

  /** A module is left as it is exactly when it has no custom section. */
  lemma UnchangedIff(data: seq<byte>)
    requires ExecutionSections(data).Ok?
    ensures ExecutionSections(data).value == data
      <==> forall i :: 0 <= i < |Sections(data).value| ==> Sections(data).value[i].kind != 0
  {
    var ss := Sections(data).value;
    hide AllWellFormed, Sections, EncodeAll, Standard;
    SectionsOfResult(data);
    AcceptedIff(data, ss);
    AllStandardIff(ss);
  }

  lemma {:induction false} AllStandardIff(ss: seq<Section>)
    ensures |Standard(ss)| <= |ss|
    ensures Standard(ss) == ss <==> forall i :: 0 <= i < |ss| ==> ss[i].kind != 0
  {
    if ss != [] {
      AllStandardIff(ss[1..]);
      assert ss == [ss[0]] + ss[1..];
      assert ss[0].kind != 0 ==> Standard(ss)[1..] == Standard(ss[1..]);
      assert forall i :: 0 <= i < |ss| - 1 ==> ss[1..][i] == ss[i + 1];
      assert (forall i :: 0 <= i < |ss| ==> ss[i].kind != 0)
        <==> ss[0].kind != 0 && forall i :: 0 <= i < |ss| - 1 ==> ss[1..][i].kind != 0 by {
        if ss[0].kind != 0 && forall i :: 0 <= i < |ss| - 1 ==> ss[1..][i].kind != 0 {
          forall i | 0 <= i < |ss| ensures ss[i].kind != 0 {
            assert i > 0 ==> ss[i] == ss[1..][i - 1];
          }
        }
      }
    }
  }

  /** Two modules give the same bytes exactly when their standard sections, each with the original
      encoding of its length, are the same in the same order. */
  lemma EqualIff(a: seq<byte>, b: seq<byte>)
    requires ExecutionSections(a).Ok? && ExecutionSections(b).Ok?
    ensures ExecutionSections(a) == ExecutionSections(b)
      <==> Standard(Sections(a).value) == Standard(Sections(b).value)
  {
    hide AllWellFormed, Sections, EncodeAll, Standard;
    SectionsOfResult(a);
    SectionsOfResult(b);
  }

  /** A custom section at any boundary makes no difference. */
  lemma CustomSectionsDoNotMatter(before: seq<Section>, custom: Section, after: seq<Section>)
    requires AllWellFormed(before) && AllWellFormed(after) && WellFormed(custom) && custom.kind == 0
    ensures ExecutionSections(HEADER + EncodeAll(before + [custom] + after))
      == ExecutionSections(HEADER + EncodeAll(before + after))
    ensures ExecutionSections(HEADER + EncodeAll(before + after)).Ok?
  {
    hide Sections, EncodeAll, WellFormed;
    AcceptedIff(HEADER + EncodeAll(before + [custom] + after), before + [custom] + after);
    AcceptedIff(HEADER + EncodeAll(before + after), before + after);
    StandardJoins(before, [custom]);
    StandardJoins(before + [custom], after);
    StandardJoins(before, after);
    assert Standard([custom]) == [];
    assert Standard(before) + [] == Standard(before);
  }
}
