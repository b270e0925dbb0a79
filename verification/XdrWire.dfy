/** What XDR items look like on the wire (sections 4.1, 4.2, 4.7, 4.9, 4.10 and 4.11 of RFC 4506),
  and how the readers of `crates/rmath/src/xdr.rs` take them off it. */
module XdrWire {
  import opened Wrappers

  type byte = b: int | 0 <= b < 256
  type word = w: int | 0 <= w < 0x1_0000_0000
  type int32 = i: int | -0x8000_0000 <= i < 0x8000_0000

  const I32_MAX := 0x7fff_ffff
  const U32_MAX := 0xffff_ffff

  // -------------------------------------------------------------------------
  // Words
  // -------------------------------------------------------------------------

  /** The four bytes of a word, most significant first. */
  function Bytes(w: word): seq<byte> {
    var x: int := w;
    [x / 256 / 256 / 256, x / 256 / 256 % 256, x / 256 % 256, x % 256]
  }

  function Join(b: seq<byte>): word
    requires |b| == 4
  {
    Horner(b[0], b[1], b[2], b[3])
  }

  function Horner(a: int, b: int, c: int, d: int): int {
    ((a * 256 + b) * 256 + c) * 256 + d
  }

  lemma JoinBytes(w: word)
    ensures Join(Bytes(w)) == w
  {
    var x: int := w;
    assert x == x / 256 * 256 + x % 256;
    assert x / 256 == x / 256 / 256 * 256 + x / 256 % 256;
    assert x / 256 / 256 == x / 256 / 256 / 256 * 256 + x / 256 / 256 % 256;
  }

  lemma BytesJoin(b: seq<byte>)
    requires |b| == 4
    ensures Bytes(Join(b)) == b
  {
    var x: int, a: int, y: int, c: int, d: int := Join(b), b[0], b[1], b[2], b[3];
    assert x == ((a * 256 + y) * 256 + c) * 256 + d;
    assert x / 256 == (a * 256 + y) * 256 + c && x % 256 == d;
    assert x / 256 / 256 == a * 256 + y && x / 256 % 256 == c;
    assert x / 256 / 256 / 256 == a && x / 256 / 256 % 256 == y;
  }

  function Reversed(b: seq<byte>): seq<byte>
    requires |b| == 4
  {
    [b[3], b[2], b[1], b[0]]
  }

  function Swap(w: word): word {
    Join(Reversed(Bytes(w)))
  }

  /** A word read from, and written to, the memory of a machine of the given byte order. */
  function ReadNative(little: bool, b: seq<byte>): word
    requires |b| == 4
  {
    Join(if little then Reversed(b) else b)
  }

  function WriteNative(little: bool, w: word): seq<byte> {
    if little then Reversed(Bytes(w)) else Bytes(w)
  }

  /** `htonl` and `ntohl`. */
  function NetworkOrder(little: bool, w: word): word {
    if little then Swap(w) else w
  }

  /** On either kind of machine a swapped word lands in memory most significant byte first. */
  lemma WrittenBigEndian(little: bool, w: word)
    ensures WriteNative(little, NetworkOrder(little, w)) == Bytes(w)
  {
    BytesJoin(Reversed(Bytes(w)));
  }

  lemma ReadBigEndian(little: bool, b: seq<byte>)
    requires |b| == 4
    ensures NetworkOrder(little, ReadNative(little, b)) == Join(b)
  {
    BytesJoin(Reversed(b));
  }

  function AsWord(i: int32): word {
    if i < 0 then i + 0x1_0000_0000 else i
  }

  function AsInt32(w: word): int32 {
    if w > I32_MAX then w - 0x1_0000_0000 else w
  }

  /** The file backend: the writer swaps and then asks for big-endian bytes, the reader only
      asks for big-endian bytes. */
  function StdioPutLong(little: bool, w: word): seq<byte> {
    Bytes(NetworkOrder(little, w))
  }

  function StdioGetLong(b: seq<byte>): word
    requires |b| == 4
  {
    Join(b)
  }

  /** On a little-endian machine every word comes back with its bytes reversed; only a word that
      reads the same both ways survives.  A second trip undoes the first. */
  lemma StdioReversesWords(little: bool, w: word)
    ensures StdioGetLong(StdioPutLong(little, w)) == NetworkOrder(little, w)
    ensures StdioGetLong(StdioPutLong(little, w)) == w
      <==> !little || (Bytes(w)[0] == Bytes(w)[3] && Bytes(w)[1] == Bytes(w)[2])
    ensures StdioPutLong(little, w) == Bytes(w)
      <==> !little || (Bytes(w)[0] == Bytes(w)[3] && Bytes(w)[1] == Bytes(w)[2])
    ensures NetworkOrder(little, NetworkOrder(little, w)) == w
  {
    JoinBytes(w);
    JoinBytes(NetworkOrder(little, w));
    BytesJoin(Reversed(Bytes(w)));
    hide Bytes, Join;
    assert Reversed(Reversed(Bytes(w))) == Bytes(w);
    BytesLength(w);
    var b := Bytes(w);
    if little && b[0] == b[3] && b[1] == b[2] {
      assert Reversed(b) == b;
    }
  }

  lemma BytesLength(w: word)
    ensures |Bytes(w)| == 4
  {
  }

  // -------------------------------------------------------------------------
  // Items
  // -------------------------------------------------------------------------

  /** A double is its 64-bit pattern, in two halves. */
  datatype Item =
    | Int(i: int32)
    | UInt(u: word)
    | Opaque(data: seq<byte>)
    | Counted(bytes: seq<byte>)
    | Str(s: seq<byte>)
    | Double(high: word, low: word)

  datatype Type = TInt | TUInt | TOpaque(cnt: word) | TCounted(maxsize: word) | TStr(maxsize: word) | TDouble

  /** What a caller may hand over to be encoded: the lengths that are arguments of the routine are
      unsigned 32-bit numbers, and a C string holds no NUL. */
  predicate HasType(v: Item, t: Type) {
    match t
    case TInt => v.Int?
    case TUInt => v.UInt?
    case TOpaque(cnt) => v.Opaque? && |v.data| == cnt
    case TCounted(_) => v.Counted? && |v.bytes| <= U32_MAX
    case TStr(_) => v.Str? && 0 !in v.s
    case TDouble => v.Double?
  }

  predicate SameKind(v: Item, t: Type) {
    match t
    case TInt => v.Int?
    case TUInt => v.UInt?
    case TOpaque(_) => v.Opaque?
    case TCounted(_) => v.Counted?
    case TStr(_) => v.Str?
    case TDouble => v.Double?
  }

  /** The length of a string is truncated to 32 bits. */
  function Shortened(s: seq<byte>): (r: seq<byte>)
    ensures |r| <= U32_MAX && r <= s
  {
    s[..|s| % 0x1_0000_0000]
  }

  /** What is left of an item on the wire. */
  function Sent(v: Item): Item {
    if v.Str? then Str(Shortened(v.s)) else v
  }

  /** An item is sent whole exactly when it is not a string of 2^32 bytes or more. */
  lemma SentWhole(v: Item)
    ensures Sent(v) == v <==> (v.Str? ==> |v.s| <= U32_MAX)
  {
    if v.Str? && |v.s| > U32_MAX {
      assert |Shortened(v.s)| <= U32_MAX;
    }
  }

  function Padding(n: nat): (k: nat)
    ensures k < 4 && (n + k) % 4 == 0
  {
    if n % 4 != 0 then 4 - n % 4 else 0
  }

  function Zeros(k: nat): seq<byte> {
    seq(k, _ => 0)
  }

  function Padded(data: seq<byte>): (r: seq<byte>)
    ensures |r| == |data| + Padding(|data|)
  {
    data + Zeros(Padding(|data|))
  }

  function Wire(v: Item): seq<byte> {
    match v
    case Int(i) => Bytes(AsWord(i))
    case UInt(u) => Bytes(u)
    case Opaque(data) => Padded(data)
    case Counted(bytes) => Bytes(|bytes| % 0x1_0000_0000) + Padded(bytes)
    case Str(s) => Bytes(|Shortened(s)|) + Padded(Shortened(s))
    case Double(high, low) => Bytes(high) + Bytes(low)
  }

  predicate Allowed(v: Item, t: Type) {
    match t
    case TCounted(maxsize) => v.Counted? && |v.bytes| <= maxsize
    case TStr(maxsize) => v.Str? && |Shortened(v.s)| <= maxsize
    case _ => true
  }

  lemma WireIsAligned(v: Item)
    ensures |Wire(v)| % 4 == 0
  {
    hide Bytes, Padding, Zeros;
    match v
    case Int(i) => BytesLength(AsWord(i));
    case UInt(u) => BytesLength(u);
    case Opaque(data) =>
    case Counted(bytes) => BytesLength(|bytes| % 0x1_0000_0000);
    case Str(s) => BytesLength(|Shortened(s)|);
    case Double(high, low) => BytesLength(high); BytesLength(low);
  }

  // -------------------------------------------------------------------------
  // Reading
  // -------------------------------------------------------------------------

  datatype Parsed<T> = Fail | Got(value: T, used: nat)

  function ParseWord(b: seq<byte>): (r: Parsed<word>)
    ensures r.Got? ==> r.used == 4 <= |b|
  {
    if |b| < 4 then Fail else Got(Join(b[..4]), 4)
  }

  /** The padding is skipped, whatever it holds. */
  function ParseOpaque(b: seq<byte>, cnt: word): (r: Parsed<seq<byte>>)
    ensures r.Got? ==> |r.value| == cnt && r.used == cnt + Padding(cnt) <= |b|
  {
    if |b| < cnt + Padding(cnt) then Fail else Got(b[..cnt], cnt + Padding(cnt))
  }

  /** A count, then so many bytes.  The reader of strings is given the old string in `keep`: with room for
      the NUL added the greatest count becomes zero, and then nothing is read and the string stays. */
  function ParseCounted(b: seq<byte>, maxsize: word, keep: Option<seq<byte>>): (r: Parsed<seq<byte>>)
    ensures r.Got? ==> 4 <= r.used <= |b| && (|r.value| <= maxsize || (keep.Some? && maxsize == U32_MAX && Join(b[..4]) == U32_MAX))
  {
    var n := ParseWord(b);
    if n.Fail? || n.value > maxsize then Fail
    else if keep.Some? && n.value == U32_MAX then Got(keep.value, 4)
    else
      var d := ParseOpaque(b[4..], n.value);
      if d.Fail? then Fail else Got(d.value, 4 + d.used)
  }

  /** `was` is what the caller holds before. */
  function Parse(t: Type, b: seq<byte>, was: Item): (r: Parsed<Item>)
    ensures r.Got? ==> r.used <= |b|
  {
    match t
    case TInt => (var n := ParseWord(b); if n.Fail? then Fail else Got(Int(AsInt32(n.value)), 4))
    case TUInt => (var n := ParseWord(b); if n.Fail? then Fail else Got(UInt(n.value), 4))
    case TOpaque(cnt) => (var d := ParseOpaque(b, cnt); if d.Fail? then Fail else Got(Opaque(d.value), d.used))
    case TCounted(m) => (var d := ParseCounted(b, m, None); if d.Fail? then Fail else Got(Counted(d.value), d.used))
    case TStr(m) => (var d := ParseCounted(b, m, Some(if was.Str? then was.s else [])); if d.Fail? then Fail else Got(Str(d.value), d.used))
    case TDouble => if |b| < 8 then Fail else Got(Double(Join(b[..4]), Join(b[4..8])), 8)
  }

  // -------------------------------------------------------------------------
  // Readers accept exactly the wire forms
  // -------------------------------------------------------------------------

  /** `b` starts with `w`, apart from the `pad` bytes at the end of `w`. */
  predicate StartsWith(b: seq<byte>, w: seq<byte>, pad: nat) {
    pad <= |w| <= |b| && b[..|w| - pad] == w[..|w| - pad]
  }

  function PadOf(v: Item): (k: nat)
    ensures k <= |Wire(v)|
  {
    match v
    case Opaque(data) => Padding(|data|)
    case Counted(bytes) => Padding(|bytes|)
    case Str(s) => Padding(|Shortened(s)|)
    case _ => 0
  }

  /** What a reader may return: a string that was read may hold NUL bytes. */
  predicate Readable(v: Item, t: Type) {
    if t.TStr? then v.Str? && |v.s| <= U32_MAX else HasType(v, t)
  }

  /** The count for which the string reader stops early. */
  predicate WrapsAround(t: Type, b: seq<byte>) {
    t.TStr? && t.maxsize == U32_MAX && |b| >= 4 && Join(b[..4]) == U32_MAX
  }

  lemma ParseWordIff(b: seq<byte>, w: word)
    ensures ParseWord(b) == Got(w, 4) <==> StartsWith(b, Bytes(w), 0)
    ensures |Bytes(w)| == 4
  {
    BytesLength(w);
    JoinBytes(w);
    if |b| >= 4 {
      BytesJoin(b[..4]);
    }
    hide Bytes, Join;
    assert Bytes(w)[..4] == Bytes(w);
  }

  lemma ParseOpaqueIff(b: seq<byte>, data: seq<byte>, cnt: word)
    ensures ParseOpaque(b, cnt) == Got(data, cnt + Padding(cnt))
      <==> |data| == cnt && StartsWith(b, Padded(data), Padding(|data|))
  {
    if |data| == cnt {
      assert Padded(data)[..|Padded(data)| - Padding(|data|)] == data;
    }
  }

  lemma ParseCountedIff(b: seq<byte>, data: seq<byte>, maxsize: word, keep: Option<seq<byte>>, n: nat)
    requires |data| <= U32_MAX
    requires keep.Some? && maxsize == U32_MAX && |b| >= 4 ==> Join(b[..4]) != U32_MAX
    ensures ParseCounted(b, maxsize, keep) == Got(data, n)
      <==> |data| <= maxsize && n == 4 + |Padded(data)| && StartsWith(b, Bytes(|data|) + Padded(data), Padding(|data|))
  {
    ParseWordIff(b, |data|);
    var w, whole := Bytes(|data|), Bytes(|data|) + Padded(data);
    var k := |Padded(data)| - Padding(|data|);
    assert whole[..4] == w && whole[..4 + k] == w + Padded(data)[..k];
    hide Bytes, Join, Padded, ParseOpaque;
    if |b| >= 4 {
      ParseOpaqueIff(b[4..], data, |data|);
      SplitStart(b, w, Padded(data), k);
    }
    if ParseCounted(b, maxsize, keep) == Got(data, n) {
      CountIsLength(b, maxsize, keep);
    }
  }

  lemma SplitStart(b: seq<byte>, w: seq<byte>, d: seq<byte>, k: nat)
    requires |w| == 4 <= |b| && k <= |d|
    ensures 4 + |d| <= |b| ==> (b[..4 + k] == w + d[..k] <==> b[..4] == w && b[4..][..k] == d[..k])
  {
    if 4 + |d| <= |b| {
      assert b[..4 + k] == b[..4] + b[4..][..k];
      if b[..4 + k] == w + d[..k] {
        assert b[..4] == b[..4 + k][..4] == w;
        assert b[4..][..k] == b[..4 + k][4..] == d[..k];
      }
    }
  }

  lemma CountIsLength(b: seq<byte>, maxsize: word, keep: Option<seq<byte>>)
    requires ParseCounted(b, maxsize, keep).Got?
    requires keep.Some? && maxsize == U32_MAX && |b| >= 4 ==> Join(b[..4]) != U32_MAX
    ensures var r := ParseCounted(b, maxsize, keep);
      ParseWord(b) == Got(|r.value|, 4) && |r.value| <= maxsize && r.used == 4 + |r.value| + Padding(|r.value|)
  {
    hide Bytes, Join;
  }

  /** Apart from that count, a reader accepts exactly the wire forms of the allowed values of its
      type, whatever the padding holds, and returns the value and the length. */
  lemma ParseIff(t: Type, b: seq<byte>, was: Item, v: Item, n: nat)
    requires !WrapsAround(t, b)
    ensures Parse(t, b, was) == Got(v, n)
      <==> Readable(v, t) && Allowed(v, t) && n == |Wire(v)| && StartsWith(b, Wire(v), PadOf(v))
  {
    hide Bytes, Join, Padded, ParseOpaque, ParseCounted, StartsWith, ParseWord;
    match v
    case Int(i) =>
      if t.TInt? { ParseWordIff(b, AsWord(i)); }
    case UInt(u) =>
      if t.TUInt? { ParseWordIff(b, u); }
    case Opaque(data) =>
      if t.TOpaque? { ParseOpaqueIff(b, data, t.cnt); }
    case Counted(bytes) =>
      if t.TCounted? && |bytes| <= U32_MAX {
        BytesLength(|bytes|);
        ParseCountedIff(b, bytes, t.maxsize, None, n);
      }
    case Str(s) =>
      if t.TStr? && |s| <= U32_MAX {
        BytesLength(|s|);
        assert Shortened(s) == s;
        ParseCountedIff(b, s, t.maxsize, Some(if was.Str? then was.s else []), n);
      }
    case Double(high, low) =>
      if t.TDouble? { ParseDoubleIff(b, was, high, low); }
  }

  lemma ParseDoubleIff(b: seq<byte>, was: Item, high: word, low: word)
    ensures Parse(TDouble, b, was) == Got(Double(high, low), 8) <==> StartsWith(b, Bytes(high) + Bytes(low), 0)
    ensures |Bytes(high) + Bytes(low)| == 8
  {
    ParseWordIff(b, high);
    ParseWordIff(b[if |b| < 4 then 0 else 4..], low);
    hide Bytes, Join;
    if |b| >= 8 {
      assert b[4..][..4] == b[4..8];
      SplitStart(b, Bytes(high), Bytes(low), 4);
    }
  }

  /** So writing, then reading: whatever follows it, an item comes back, and exactly its own bytes
      are used up.  The one string left out has 2^32 - 1 bytes, which no stream can hold. */
  lemma ParseWire(v: Item, t: Type, rest: seq<byte>, was: Item)
    requires HasType(v, t) && Allowed(v, t) && (v.Str? ==> |Shortened(v.s)| < U32_MAX)
    ensures Parse(t, Wire(v) + rest, was) == Got(Sent(v), |Wire(v)|)
  {
    var b := Wire(v) + rest;
    SentOnWire(v, t);
    if v.Str? {
      CountOnWire(v.s, rest);
    }
    hide Wire, PadOf, Parse, Shortened, Join;
    assert b[..|Wire(v)| - PadOf(v)] == Wire(v)[..|Wire(v)| - PadOf(v)];
    ParseIff(t, b, was, Sent(v), |Wire(v)|);
  }

  lemma SentOnWire(v: Item, t: Type)
    requires HasType(v, t) && Allowed(v, t)
    ensures Readable(Sent(v), t) && Allowed(Sent(v), t) && Wire(Sent(v)) == Wire(v) && PadOf(Sent(v)) == PadOf(v)
  {
    hide Bytes, Padded;
    if v.Str? {
      var s := Shortened(v.s);
      assert Shortened(s) == s;
    }
  }

  lemma CountOnWire(s: seq<byte>, rest: seq<byte>)
    ensures |Wire(Str(s)) + rest| >= 4 && Join((Wire(Str(s)) + rest)[..4]) == |Shortened(s)|
  {
    var n := |Shortened(s)|;
    JoinBytes(n);
    BytesLength(n);
    hide Bytes, Join, Padded;
    assert (Wire(Str(s)) + rest)[..4] == Bytes(n);
  }

  /** With that count the reader of strings succeeds, reads nothing more and leaves the caller's string as it
      was, whatever follows. */
  lemma WrappedKeepsString(t: Type, b: seq<byte>, s: seq<byte>)
    requires WrapsAround(t, b)
    ensures Parse(t, b, Str(s)) == Got(Str(s), 4)
  {
  }

  /** Four bytes 255 are such a count, and no string they could stand for follows. */
  lemma GreatestCountKeepsString(rest: seq<byte>, s: seq<byte>)
    requires |s| < U32_MAX
    ensures Parse(TStr(U32_MAX), [255, 255, 255, 255] + rest, Str(s)) == Got(Str(s), 4)
    ensures !StartsWith([255, 255, 255, 255] + rest, Wire(Str(s)), PadOf(Str(s)))
  {
    var b := [255, 255, 255, 255] + rest;
    assert b[..4] == [255, 255, 255, 255];
    WrappedKeepsString(TStr(U32_MAX), b, s);
    hide Parse;
    assert Shortened(s) == s;
    JoinBytes(|s|);
    BytesLength(|s|);
    if StartsWith(b, Wire(Str(s)), PadOf(Str(s))) {
      ShortCount(b, s);
    }
  }

  lemma ShortCount(b: seq<byte>, s: seq<byte>)
    requires |s| < U32_MAX && StartsWith(b, Wire(Str(s)), PadOf(Str(s)))
    ensures |b| >= 4 && Join(b[..4]) == |s|
  {
    assert Shortened(s) == s;
    JoinBytes(|s|);
    BytesLength(|s|);
    hide Bytes, Join;
    var w := Wire(Str(s));
    var k := |w| - PadOf(Str(s));
    assert w[..4] == Bytes(|s|) && b[..4] == b[..k][..4] == w[..k][..4] == w[..4];
  }
}
