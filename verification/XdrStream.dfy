/** Whole sequences of items through the memory stream of `crates/rmath/src/xdr.rs`. */
module XdrStream {
  import opened XdrWire
  import opened Xdr

  // -------------------------------------------------------------------------
  // Sequences of items
  // -------------------------------------------------------------------------

  ghost predicate AllTyped(vs: seq<Item>, ts: seq<Type>) {
    |vs| == |ts| && forall i :: 0 <= i < |vs| ==> HasType(vs[i], ts[i])
  }

  ghost predicate AllAllowed(vs: seq<Item>, ts: seq<Type>) {
    |vs| == |ts| && forall i :: 0 <= i < |vs| ==> Allowed(vs[i], ts[i])
  }

  ghost function WireAll(vs: seq<Item>): seq<byte> {
    if vs == [] then [] else WireAll(vs[..|vs| - 1]) + Wire(vs[|vs| - 1])
  }

  ghost function SentAll(vs: seq<Item>): seq<Item> {
    seq(|vs|, i requires 0 <= i < |vs| => Sent(vs[i]))
  }

  /** Reading one item after another. */
  ghost function ParseAll(ts: seq<Type>, b: seq<byte>, was: seq<Item>): (r: Parsed<seq<Item>>)
    requires |was| == |ts|
    ensures r.Got? ==> r.used <= |b|
  {
    if ts == [] then Got([], 0)
    else
      var before := ParseAll(ts[..|ts| - 1], b, was[..|ts| - 1]);
      if before.Fail? then Fail
      else
        var last := Parse(ts[|ts| - 1], b[before.used..], was[|ts| - 1]);
        if last.Fail? then Fail else Got(before.value + [last.value], before.used + last.used)
  }

  lemma WireAllNext(vs: seq<Item>, i: nat)
    requires i < |vs|
    ensures WireAll(vs[..i + 1]) == WireAll(vs[..i]) + Wire(vs[i])
  {
    assert vs[..i + 1][..i] == vs[..i];
  }

  lemma {:induction false} WireAllGrows(vs: seq<Item>, n: nat)
    requires n <= |vs|
    ensures WireAll(vs[..n]) <= WireAll(vs)
    decreases |vs|
  {
    hide Wire;
    if n == |vs| {
      assert vs[..n] == vs;
    } else {
      WireAllGrows(vs[..|vs| - 1], n);
      assert vs[..|vs| - 1][..n] == vs[..n];
    }
  }

  lemma {:induction false} WireAllIsAligned(vs: seq<Item>)
    ensures |WireAll(vs)| % 4 == 0
  {
    hide Wire;
    if vs != [] {
      WireAllIsAligned(vs[..|vs| - 1]);
      WireIsAligned(vs[|vs| - 1]);
    }
  }

  lemma {:induction false} FailStays(ts: seq<Type>, n: nat, b: seq<byte>, was: seq<Item>)
    requires n <= |ts| == |was| && ParseAll(ts[..n], b, was[..n]).Fail?
    ensures ParseAll(ts, b, was).Fail?
    decreases |ts|
  {
    if n == |ts| {
      assert ts[..n] == ts && was[..n] == was;
    } else {
      assert ts[..|ts| - 1][..n] == ts[..n] && was[..|ts| - 1][..n] == was[..n];
      FailStays(ts[..|ts| - 1], n, b, was[..|ts| - 1]);
    }
  }

  /** Writing any sequence of allowed items, then reading with the same types: the same values come
      back and exactly their bytes are used up, whatever follows. */
  lemma {:induction false} ParseWireAll(vs: seq<Item>, ts: seq<Type>, rest: seq<byte>, was: seq<Item>)
    requires |was| == |ts|
    requires AllTyped(vs, ts) && AllAllowed(vs, ts)
    requires |WireAll(vs)| <= I32_MAX
    ensures ParseAll(ts, WireAll(vs) + rest, was) == Got(SentAll(vs), |WireAll(vs)|)
  {
    hide Wire, Parse, HasType, Allowed, Sent;
    var n := |vs| - 1;
    if vs == [] {
      assert [] + rest == rest;
    } else {
      var v, w := vs[n], Wire(vs[n]);
      assert WireAll(vs) + rest == WireAll(vs[..n]) + (w + rest);
      ParseWireAll(vs[..n], ts[..n], w + rest, was[..n]);
      StringFits(v);
      ParseWire(v, ts[n], rest, was[n]);
      assert (WireAll(vs) + rest)[|WireAll(vs[..n])|..] == w + rest;
      assert SentAll(vs) == SentAll(vs[..n]) + [Sent(v)];
    }
  }

  lemma StringFits(v: Item)
    requires |Wire(v)| <= I32_MAX
    ensures v.Str? ==> |Shortened(v.s)| < U32_MAX
  {
    hide Bytes;
  }

  // -------------------------------------------------------------------------
  // Streams
  // -------------------------------------------------------------------------

  /** A caller that sends, receives or releases one item after another, up to the first failure. */
  method XdrAll(x: Stream, ts: seq<Type>, vs: seq<Item>) returns (ok: bool, out: seq<Item>)
    requires x.Valid() && |vs| == |ts|
    requires forall i :: 0 <= i < |vs| ==> SameKind(vs[i], ts[i])
    requires x.op.Encode? ==> AllTyped(vs, ts)
    modifies x`pos, x`handy, x.base
    ensures x.Valid() && x.Limit() == old(x.Limit())
    ensures x.op.Encode? ==>
      && ok == (AllAllowed(vs, ts) && |WireAll(vs)| <= old(x.handy))
      && (ok ==> x.pos == old(x.pos) + |WireAll(vs)| && out == vs)
      && Put(old(x.base[..]), x.base[..], old(x.pos), x.pos, WireAll(vs))
    ensures x.op.Decode? ==>
      && x.base[..] == old(x.base[..])
      && ok == ParseAll(ts, old(x.Rest()), vs).Got?
      && (ok ==> out == ParseAll(ts, old(x.Rest()), vs).value && x.pos == old(x.pos) + ParseAll(ts, old(x.Rest()), vs).used)
    ensures x.op.Free? ==> ok && out == vs && x.base[..] == old(x.base[..]) && x.pos == old(x.pos)
  {
    hide Put, Wire, Parse, HasType, SameKind, Allowed, ParseAll, WireAll;
    ok, out := true, [];
    ghost var rest := x.Rest();
    ghost var before, p := x.base[..], x.pos;
    PutNothing(before, p, []);
    NoItems(vs, ts, rest);
    for i := 0 to |ts|
      invariant x.Valid() && x.Limit() == old(x.Limit()) && |out| == i
      invariant x.op.Encode? ==>
        && AllAllowed(vs[..i], ts[..i]) && out == vs[..i]
        && x.pos == p + |WireAll(vs[..i])|
        && Put(before, x.base[..], p, x.pos, WireAll(vs[..i]))
      invariant x.op.Decode? ==> x.base[..] == before && p <= x.pos && ParseAll(ts[..i], rest, vs[..i]) == Got(out, x.pos - p)
      invariant x.op.Free? ==> out == vs[..i] && x.base[..] == before && x.pos == p
    {
      ghost var mid, m := x.base[..], x.pos;
      ghost var here := x.Rest();
      var v;
      ok, v := XdrItem(x, ts[i], vs[i]);
      if x.op.Encode? {
        OneMoreSent(before, mid, x.base[..], p, m, x.pos, vs, i);
        OneMoreAllowed(vs, ts, i);
      } else if x.op.Decode? {
        assert rest[m - p..] == here;
        OneMoreRead(ts, i, rest, vs);
      }
      if !ok {
        return;
      }
      out := out + [v];
    }
    assert vs[..|vs|] == vs && ts[..|ts|] == ts;
  }

  lemma NoItems(vs: seq<Item>, ts: seq<Type>, rest: seq<byte>)
    ensures WireAll(vs[..0]) == [] && ParseAll(ts[..0], rest, vs[..0]) == Got([], 0)
  {
  }

  lemma OneMoreSent(a: seq<byte>, b: seq<byte>, c: seq<byte>, p: nat, m: nat, e: nat, vs: seq<Item>, i: nat)
    requires i < |vs| && m == p + |WireAll(vs[..i])|
    requires Put(a, b, p, m, WireAll(vs[..i])) && Put(b, c, m, e, Wire(vs[i]))
    ensures Put(a, c, p, e, WireAll(vs[..i + 1])) && Put(a, c, p, e, WireAll(vs))
    ensures |WireAll(vs[..i + 1])| == |WireAll(vs[..i])| + |Wire(vs[i])| && |WireAll(vs[..i + 1])| <= |WireAll(vs)|
  {
    hide Put, Wire;
    WireAllNext(vs, i);
    PutBoth(a, b, c, p, m, e, WireAll(vs[..i]), Wire(vs[i]));
    WireAllGrows(vs, i + 1);
    PutMore(a, c, p, e, WireAll(vs[..i + 1]), WireAll(vs));
  }

  lemma OneMoreAllowed(vs: seq<Item>, ts: seq<Type>, i: nat)
    requires i < |vs| == |ts|
    ensures AllAllowed(vs[..i + 1], ts[..i + 1]) <==> AllAllowed(vs[..i], ts[..i]) && Allowed(vs[i], ts[i])
    ensures AllAllowed(vs, ts) ==> Allowed(vs[i], ts[i])
  {
    hide Allowed;
    var vs', ts' := vs[..i + 1], ts[..i + 1];
    assert forall k :: 0 <= k < i ==> vs'[k] == vs[..i][k] && ts'[k] == ts[..i][k];
    if AllAllowed(vs', ts') {
      assert Allowed(vs'[i], ts'[i]);
      assert forall k :: 0 <= k < i ==> Allowed(vs'[k], ts'[k]);
    }
  }

  lemma OneMoreRead(ts: seq<Type>, i: nat, b: seq<byte>, was: seq<Item>)
    requires i < |ts| == |was| && ParseAll(ts[..i], b, was[..i]).Got?
    ensures var done := ParseAll(ts[..i], b, was[..i]);
      var r := Parse(ts[i], b[done.used..], was[i]);
      && ParseAll(ts[..i + 1], b, was[..i + 1]) == (if r.Fail? then Fail else Got(done.value + [r.value], done.used + r.used))
      && (r.Fail? ==> ParseAll(ts, b, was).Fail?)
  {
    hide Parse;
    assert ts[..i + 1][..i] == ts[..i] && was[..i + 1][..i] == was[..i];
    if Parse(ts[i], b[ParseAll(ts[..i], b, was[..i]).used..], was[i]).Fail? {
      FailStays(ts, i + 1, b, was);
    }
  }

  lemma PutAll(a: seq<byte>, b: seq<byte>, end: nat, wire: seq<byte>)
    requires Put(a, b, 0, end, wire) && end == |wire|
    ensures b == wire + a[end..]
  {
  }

  lemma PutMore(a: seq<byte>, b: seq<byte>, pos: nat, end: nat, first: seq<byte>, all: seq<byte>)
    requires Put(a, b, pos, end, first) && first <= all
    ensures Put(a, b, pos, end, all)
  {
    assert all[..end - pos] == first[..end - pos];
  }

  lemma TypedIsSameKind(vs: seq<Item>, ts: seq<Type>)
    requires AllTyped(vs, ts)
    ensures |vs| == |ts| && forall i :: 0 <= i < |vs| ==> SameKind(vs[i], ts[i])
  {
    forall i | 0 <= i < |vs| ensures SameKind(vs[i], ts[i]) {
      assert HasType(vs[i], ts[i]);
    }
  }

  /** One side encodes into memory, another decodes from it, on machines of any byte order.  The
      first succeeds exactly when every count is within its bound and the total fits; then the
      second succeeds, returns the items, and stops at the same place. */
  method EncodeThenDecode(memory: array<byte>, size: nat, ts: seq<Type>, vs: seq<Item>, blank: seq<Item>,
                          littleHere: bool, littleThere: bool)
    returns (sent: bool, received: bool, out: seq<Item>)
    requires size <= memory.Length && size <= I32_MAX
    requires AllTyped(vs, ts)
    requires |blank| == |ts| && forall i :: 0 <= i < |ts| ==> SameKind(blank[i], ts[i])
    modifies memory
    ensures sent == (AllAllowed(vs, ts) && |WireAll(vs)| <= size)
    ensures sent ==> received && out == SentAll(vs)
    ensures sent ==> memory[..] == WireAll(vs) + old(memory[|WireAll(vs)|..])
  {
    hide HasType, SameKind, Allowed, Put, ParseAll, WireAll, AllTyped, AllAllowed;
    TypedIsSameKind(vs, ts);
    var writer := new Stream(memory, size, 0, littleHere);
    sent, out := XdrAll(writer, ts, vs);
    received := false;
    if sent {
      ghost var n := writer.pos;
      PutAll(old(memory[..]), memory[..], n, WireAll(vs));
      var reader := new Stream(memory, size, 1, littleThere);
      assert reader.Rest() == WireAll(vs) + memory[n..size];
      ParseWireAll(vs, ts, memory[n..size], blank);
      received, out := XdrAll(reader, ts, blank);
      var a := writer.GetPos();
      var b := reader.GetPos();
      assert a == b;
    }
  }
}
