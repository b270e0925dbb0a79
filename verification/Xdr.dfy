/** The memory stream of `crates/rmath/src/xdr.rs`: a cursor in a buffer, run by the same routines
  in encode, decode and free mode. */
module Xdr {
  import opened Wrappers
  import opened XdrWire
  import opened XdrNumbers

  datatype Op = Encode | Decode | Free

  function OpOf(op: int): Op {
    if op == 0 then Encode else if op == 1 then Decode else Free
  }

  // -------------------------------------------------------------------------
  // What a writer leaves behind
  // -------------------------------------------------------------------------

  /** The part of `wire` from `pos` to `end` was written, and nothing else. */
  ghost predicate Put(before: seq<byte>, after: seq<byte>, pos: nat, end: nat, wire: seq<byte>) {
    && pos <= end <= |before| && end - pos <= |wire|
    && after == before[..pos] + wire[..end - pos] + before[end..]
  }

  lemma PutNothing(a: seq<byte>, pos: nat, wire: seq<byte>)
    requires pos <= |a|
    ensures Put(a, a, pos, pos, wire)
  {
  }

  lemma PutPart(a: seq<byte>, b: seq<byte>, pos: nat, end: nat, first: seq<byte>, second: seq<byte>)
    requires Put(a, b, pos, end, first)
    ensures Put(a, b, pos, end, first + second)
  {
    assert (first + second)[..end - pos] == first[..end - pos];
  }

  lemma PutBoth(a: seq<byte>, b: seq<byte>, c: seq<byte>, pos: nat, mid: nat, end: nat, first: seq<byte>, second: seq<byte>)
    requires Put(a, b, pos, mid, first) && Put(b, c, mid, end, second) && mid == pos + |first|
    ensures Put(a, c, pos, end, first + second)
  {
    assert b[..mid] == a[..pos] + first;
    assert b[end..] == a[end..];
    assert (first + second)[..end - pos] == first + second[..end - mid];
  }

  lemma PutAt(a: seq<byte>, b: seq<byte>, pos: nat, end: nat, wire: seq<byte>)
    requires Put(a, b, pos, end, wire) && end == pos + |wire|
    ensures b[pos..end] == wire
  {
  }

  class Stream {
    const op: Op
    const little: bool
    const base: array<byte>
    var pos: nat
    var handy: nat

    /** The stream occupies the first `Limit()` bytes of `base`. */
    ghost function Limit(): nat
      reads this
    {
      pos + handy
    }

    ghost predicate Valid()
      reads this
    {
      pos + handy <= base.Length && pos + handy <= I32_MAX
    }

    ghost function Rest(): seq<byte>
      reads this, base
      requires Valid()
    {
      base[pos..pos + handy]
    }

    /** `xdrmem_create`, for sizes that are not negative as a C int. */
    constructor (addr: array<byte>, size: nat, op: int, little: bool)
      requires size <= addr.Length && size <= I32_MAX
      ensures Valid() && base == addr && this.op == OpOf(op) && this.little == little
      ensures pos == 0 && handy == size
    {
      this.op := OpOf(op);
      this.little := little;
      base := addr;
      pos := 0;
      handy := size;
    }

    method GetLong() returns (ok: bool, w: word)
      requires Valid()
      modifies this`pos, this`handy
      ensures Valid() && Limit() == old(Limit())
      ensures ok == ParseWord(old(Rest())).Got?
      ensures if ok then w == ParseWord(old(Rest())).value && pos == old(pos) + 4 else pos == old(pos)
    {
      ok, w := false, 0;
      if handy < 4 {
        return;
      }
      handy := handy - 4;
      w := NetworkOrder(little, ReadNative(little, base[pos..pos + 4]));
      ReadBigEndian(little, base[pos..pos + 4]);
      hide Join, ReadNative, NetworkOrder;
      assert old(Rest())[..4] == base[old(pos)..old(pos) + 4];
      pos := pos + 4;
      ok := true;
    }

    method PutLong(w: word) returns (ok: bool)
      requires Valid()
      modifies this`pos, this`handy, base
      ensures Valid() && Limit() == old(Limit())
      ensures ok == (4 <= old(handy)) && pos == old(pos) + if ok then 4 else 0
      ensures Put(old(base[..]), base[..], old(pos), pos, Bytes(w))
    {
      ok := false;
      if handy < 4 {
        return;
      }
      handy := handy - 4;
      var b := WriteNative(little, NetworkOrder(little, w));
      WrittenBigEndian(little, w);
      BytesLength(w);
      hide WriteNative, NetworkOrder, Bytes;
      base[pos], base[pos + 1], base[pos + 2], base[pos + 3] := b[0], b[1], b[2], b[3];
      pos := pos + 4;
      ok := true;
    }

    method GetBytes(len: word) returns (ok: bool, data: seq<byte>)
      requires Valid()
      modifies this`pos, this`handy
      ensures Valid() && Limit() == old(Limit())
      ensures ok == (len <= old(handy))
      ensures if ok then data == old(Rest())[..len] && pos == old(pos) + len else data == [] && pos == old(pos)
    {
      ok, data := true, [];
      if len == 0 {
        return;
      }
      if handy < len {
        ok := false;
        return;
      }
      handy := handy - len;
      data := base[pos..pos + len];
      pos := pos + len;
    }

    method PutBytes(data: seq<byte>, len: word) returns (ok: bool)
      requires Valid() && len <= |data|
      modifies this`pos, this`handy, base
      ensures Valid() && Limit() == old(Limit())
      ensures ok == (len <= old(handy)) && pos == old(pos) + if ok then len else 0
      ensures Put(old(base[..]), base[..], old(pos), pos, data[..len])
    {
      ok := true;
      if len == 0 {
        return;
      }
      if handy < len {
        ok := false;
        return;
      }
      handy := handy - len;
      forall i | 0 <= i < len {
        base[pos + i] := data[i];
      }
      pos := pos + len;
    }

    method GetPos() returns (p: nat)
      requires Valid()
      ensures p == pos
    {
      p := pos;
    }

    /** Any position up to the limit is accepted, in front of the cursor or behind it. */
    method SetPos(p: word) returns (ok: bool)
      requires Valid()
      modifies this`pos, this`handy
      ensures Valid() && Limit() == old(Limit())
      ensures ok == (p <= old(Limit())) && pos == if ok then p else old(pos)
    {
      var last := pos + handy;
      if p > last {
        return false;
      }
      pos := p;
      handy := last - p;
      ok := true;
    }

    /** What a routine did that had to send, receive or release `v`: its wire form, whether it may
        be sent, and what a reader makes of the bytes ahead. */
    twostate predicate Did<T>(wire: seq<byte>, allowed: bool, ahead: Parsed<T>, v: T, ok: bool, out: T)
      requires old(Valid())
      reads this, base
    {
      && Valid() && Limit() == old(Limit())
      && match op
         case Encode =>
           && ok == (allowed && |wire| <= old(handy))
           && (ok ==> pos == old(pos) + |wire|)
           && out == v
           && Put(old(base[..]), base[..], old(pos), pos, wire)
         case Decode =>
           && base[..] == old(base[..]) && pos >= old(pos)
           && ok == ahead.Got?
           && (ok ==> out == ahead.value && pos == old(pos) + ahead.used)
         case Free =>
           ok && out == v && base[..] == old(base[..]) && pos == old(pos)
    }
  }

  // -------------------------------------------------------------------------
  // The routines
  // -------------------------------------------------------------------------

  method XdrInt(x: Stream, i: int32) returns (ok: bool, out: int32)
    requires x.Valid()
    modifies x`pos, x`handy, x.base
    ensures x.Did(Bytes(AsWord(i)), true, Parse(TInt, old(x.Rest()), Int(i)), Int(i), ok, Int(out))
    ensures ok && x.op.Encode? ==> x.pos == old(x.pos) + 4 && SignedNumber(x.base[old(x.pos)..x.pos]) == i
    ensures ok && x.op.Decode? ==> x.pos == old(x.pos) + 4 && out == SignedNumber(x.base[old(x.pos)..x.pos])
  {
    ok, out := true, i;
    ghost var before, p := x.base[..], x.pos;
    IntOnWire(i);
    NumbersRead(x.Rest(), Int(i));
    hide Bytes, SignedNumber;
    match x.op {
      case Decode =>
        var w;
        ok, w := x.GetLong();
        out := AsInt32(w);
        assert ok ==> old(x.Rest())[..4] == x.base[p..p + 4];
      case Encode =>
        ok := x.PutLong(AsWord(i));
        if ok {
          PutAt(before, x.base[..], p, x.pos, Wire(Int(i)));
        }
      case Free =>
    }
  }

  method XdrUInt(x: Stream, u: word) returns (ok: bool, out: word)
    requires x.Valid()
    modifies x`pos, x`handy, x.base
    ensures x.Did(Bytes(u), true, ParseWord(old(x.Rest())), u, ok, out)
  {
    ok, out := true, u;
    match x.op {
      case Decode => ok, out := x.GetLong();
      case Encode => ok := x.PutLong(u);
      case Free =>
    }
  }

  method XdrOpaque(x: Stream, data: seq<byte>, cnt: word) returns (ok: bool, out: seq<byte>)
    requires x.Valid()
    requires x.op.Encode? ==> |data| == cnt
    modifies x`pos, x`handy, x.base
    ensures x.Did(Padded(data), true, ParseOpaque(old(x.Rest()), cnt), data, ok, out)
  {
    hide Put, Padded, ParseOpaque;
    ok, out := true, data;
    if cnt == 0 {
      if x.op.Decode? {
        out := [];
        NoOpaque(x.Rest());
      } else if x.op.Encode? {
        NoPadding(data);
        PutNothing(x.base[..], x.pos, Padded(data));
      }
      return;
    }
    var rndup := if cnt % 4 != 0 then 4 - cnt % 4 else 0;
    match x.op {
      case Decode => ok, out := ReceiveOpaque(x, cnt, rndup);
      case Encode => ok := SendOpaque(x, data, cnt, rndup);
      case Free =>
    }
  }

  lemma NoPadding(data: seq<byte>)
    requires data == []
    ensures Padded(data) == []
  {
  }

  lemma NoOpaque(b: seq<byte>)
    ensures ParseOpaque(b, 0) == Got([], 0)
  {
  }

  /** The padding is read and thrown away. */
  method ReceiveOpaque(x: Stream, cnt: word, rndup: nat) returns (ok: bool, out: seq<byte>)
    requires x.Valid() && cnt > 0 && rndup == Padding(cnt)
    modifies x`pos, x`handy
    ensures x.Valid() && x.Limit() == old(x.Limit()) && x.pos >= old(x.pos)
    ensures ok == ParseOpaque(old(x.Rest()), cnt).Got?
    ensures ok ==> out == ParseOpaque(old(x.Rest()), cnt).value && x.pos == old(x.pos) + cnt + Padding(cnt)
  {
    ok, out := x.GetBytes(cnt);
    if ok && rndup != 0 {
      var crud;
      ok, crud := x.GetBytes(rndup);
    }
  }

  /** The padding goes out after the data. */
  method SendOpaque(x: Stream, data: seq<byte>, cnt: word, rndup: nat) returns (ok: bool)
    requires x.Valid() && |data| == cnt && cnt > 0 && rndup == Padding(cnt)
    modifies x`pos, x`handy, x.base
    ensures x.Valid() && x.Limit() == old(x.Limit())
    ensures ok == (|Padded(data)| <= old(x.handy))
    ensures ok ==> x.pos == old(x.pos) + |Padded(data)|
    ensures Put(old(x.base[..]), x.base[..], old(x.pos), x.pos, Padded(data))
  {
    hide Put;
    ghost var before, p := x.base[..], x.pos;
    ok := x.PutBytes(data, cnt);
    assert data[..cnt] == data;
    PutPart(before, x.base[..], p, x.pos, data, Zeros(rndup));
    if ok && rndup != 0 {
      ghost var mid, m := x.base[..], x.pos;
      ok := x.PutBytes([0, 0, 0, 0], rndup);
      assert [0, 0, 0, 0][..rndup] == Zeros(rndup);
      PutBoth(before, mid, x.base[..], p, m, x.pos, data, Zeros(rndup));
    }
  }

  /** The count goes out before it is compared with `maxsize`. */
  method XdrBytes(x: Stream, data: seq<byte>, maxsize: word) returns (ok: bool, out: seq<byte>)
    requires x.Valid()
    requires x.op.Encode? ==> |data| <= U32_MAX
    modifies x`pos, x`handy, x.base
    ensures x.Did(Bytes(|data| % 0x1_0000_0000) + Padded(data), |data| <= maxsize,
                  ParseCounted(old(x.Rest()), maxsize, None), data, ok, out)
  {
    hide Put, Bytes, Join, Padded;
    ghost var before, p := x.base[..], x.pos;
    var size;
    ok, size := XdrUInt(x, if x.op.Encode? then |data| else 0);
    out := data;
    if x.op.Encode? {
      BytesLength(|data|);
      PutPart(before, x.base[..], p, x.pos, Bytes(|data|), Padded(data));
    }
    if !ok {
      return;
    }
    if size > maxsize && !x.op.Free? {
      ok := false;
      return;
    }
    match x.op {
      case Decode =>
        if size == 0 {
          out := [];
          return;
        }
        ok, out := XdrOpaque(x, data, size);
      case Encode =>
        ghost var mid, m := x.base[..], x.pos;
        ok, out := XdrOpaque(x, data, size);
        PutBoth(before, mid, x.base[..], p, m, x.pos, Bytes(|data|), Padded(data));
      case Free =>
    }
  }

  /** Room for the NUL is added in 32 bits. */
  method XdrString(x: Stream, s: seq<byte>, maxsize: word) returns (ok: bool, out: seq<byte>)
    requires x.Valid()
    modifies x`pos, x`handy, x.base
    ensures x.Did(Bytes(|Shortened(s)|) + Padded(Shortened(s)), |Shortened(s)| <= maxsize,
                  ParseCounted(old(x.Rest()), maxsize, Some(s)), s, ok, out)
  {
    hide Put, Bytes, Join, Padded;
    ghost var before, p := x.base[..], x.pos;
    var size := 0;
    if x.op.Encode? {
      size := |s| % 0x1_0000_0000;
    }
    out := s;
    ok, size := XdrUInt(x, size);
    BytesLength(size);
    if x.op.Encode? {
      PutPart(before, x.base[..], p, x.pos, Bytes(size), Padded(Shortened(s)));
    }
    if !ok {
      return;
    }
    if size > maxsize {
      ok := false;
      return;
    }
    var nodesize := (size + 1) % 0x1_0000_0000;
    match x.op {
      case Decode =>
        if nodesize == 0 {
          return;
        }
        ok, out := XdrOpaque(x, s, size);
      case Encode =>
        ghost var mid, m := x.base[..], x.pos;
        var sent;
        ok, sent := XdrOpaque(x, Shortened(s), size);
        PutBoth(before, mid, x.base[..], p, m, x.pos, Bytes(size), Padded(Shortened(s)));
      case Free =>
    }
  }

  // What these routines leave in the buffer when they send, in numbers.

  lemma WordSent(before: seq<byte>, after: seq<byte>, pos: nat, u: word)
    requires Put(before, after, pos, pos + 4, Wire(UInt(u)))
    ensures BigEndian(after[pos..pos + 4]) == u
  {
    UIntOnWire(u);
    hide Wire, BigEndian;
    PutAt(before, after, pos, pos + 4, Wire(UInt(u)));
  }

  lemma DataSent(before: seq<byte>, after: seq<byte>, pos: nat, end: nat, data: seq<byte>)
    requires Put(before, after, pos, end, Padded(data)) && end == pos + |Padded(data)|
    ensures DataOnWire(after[pos..end], data)
  {
    PaddedOnWire(data);
    hide Padded, DataOnWire;
    PutAt(before, after, pos, end, Padded(data));
  }

  /** The number of bytes, the bytes, and zeros. */
  lemma CountedSent(before: seq<byte>, after: seq<byte>, pos: nat, end: nat, data: seq<byte>)
    requires |data| < 0x1_0000_0000 && Put(before, after, pos, end, Bytes(|data|) + Padded(data))
    requires end == pos + |Bytes(|data|) + Padded(data)|
    ensures CountedAt(after, pos, end, data)
  {
    hide Bytes, Padded, CountedAt;
    PutAt(before, after, pos, end, Bytes(|data|) + Padded(data));
    CountedWritten(after, pos, end, data);
  }

  lemma DoubleSent(before: seq<byte>, after: seq<byte>, pos: nat, little: bool, first: word, second: word)
    requires Put(before, after, pos, pos + 8, Wire(DoubleOf(little, first, second)))
    ensures BigEndian(after[pos..pos + 4]) == if little then second else first
    ensures BigEndian(after[pos + 4..pos + 8]) == if little then first else second
  {
    var high, low := if little then second else first, if little then first else second;
    DoubleOnWire(high, low);
    var wire := Wire(Double(high, low));
    hide Wire, BigEndian;
    PutAt(before, after, pos, pos + 8, wire);
    assert after[pos..pos + 4] == wire[..4] && after[pos + 4..pos + 8] == wire[4..];
  }

  /** The halves of a double in memory: the high one comes second on a little-endian machine.  The
      high one is sent first on either, and the second is tried even if the first failed. */
  method XdrDouble(x: Stream, first: word, second: word) returns (ok: bool, outFirst: word, outSecond: word)
    requires x.Valid()
    modifies x`pos, x`handy, x.base
    ensures var v := DoubleOf(x.little, first, second);
      x.Did(Wire(v), true, Parse(TDouble, old(x.Rest()), v), v, ok, DoubleOf(x.little, outFirst, outSecond))
  {
    hide Put, Bytes, Join;
    ok, outFirst, outSecond := true, first, second;
    var high, low := if x.little then second else first, if x.little then first else second;
    match x.op {
      case Encode =>
        ghost var before, p := x.base[..], x.pos;
        BytesLength(high);
        BytesLength(low);
        var a := x.PutLong(high);
        ghost var mid, m := x.base[..], x.pos;
        PutPart(before, mid, p, m, Bytes(high), Bytes(low));
        var b := x.PutLong(low);
        ok := a && b;
        if a {
          PutBoth(before, mid, x.base[..], p, m, x.pos, Bytes(high), Bytes(low));
        } else {
          PutNothing(mid, m, Bytes(low));
          NothingPut(mid, x.base[..], m, Bytes(low));
        }
      case Decode =>
        ghost var rest := x.Rest();
        var a, h := x.GetLong();
        assert a ==> x.Rest() == rest[4..];
        var b, l := x.GetLong();
        ok := a && b;
        assert ok ==> rest[4..][..4] == rest[4..8];
        outFirst, outSecond := if x.little then l else h, if x.little then h else l;
      case Free =>
    }
  }

  function DoubleOf(little: bool, first: word, second: word): Item {
    if little then Double(second, first) else Double(first, second)
  }

  lemma NothingPut(a: seq<byte>, b: seq<byte>, pos: nat, wire: seq<byte>)
    requires Put(a, b, pos, pos, wire)
    ensures a == b
  {
  }

  /** One item of any type.  A double is taken apart as the machine stores it. */
  method XdrItem(x: Stream, t: Type, v: Item) returns (ok: bool, out: Item)
    requires x.Valid() && SameKind(v, t) && (x.op.Encode? ==> HasType(v, t))
    modifies x`pos, x`handy, x.base
    ensures x.Did(Wire(v), Allowed(v, t), Parse(t, old(x.Rest()), v), v, ok, out)
  {
    hide Put, Bytes, Join, Padded, ParseOpaque, ParseCounted;
    match t {
      case TInt =>
        var i;
        ok, i := XdrInt(x, v.i);
        out := Int(i);
      case TUInt =>
        var u;
        ok, u := XdrUInt(x, v.u);
        out := UInt(u);
      case TOpaque(cnt) =>
        var d;
        ok, d := XdrOpaque(x, v.data, cnt);
        out := Opaque(d);
      case TCounted(maxsize) =>
        var d;
        ok, d := XdrBytes(x, v.bytes, maxsize);
        out := Counted(d);
      case TStr(maxsize) =>
        var s;
        ok, s := XdrString(x, v.s, maxsize);
        out := Str(s);
      case TDouble =>
        var a, b := if x.little then v.low else v.high, if x.little then v.high else v.low;
        var c, d;
        ok, c, d := XdrDouble(x, a, b);
        out := DoubleOf(x.little, c, d);
    }
  }
}
