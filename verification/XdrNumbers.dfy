/** The numbers on the wire (section 4 of RFC 4506): what the bytes of an item are, digit by digit to the base
    256, and what numbers a reader makes of them. */
module XdrNumbers {
  import opened XdrWire

  /** A number with these digits to the base 256, the most significant first. */
  function BigEndian(b: seq<byte>): nat {
    if b == [] then 0 else 256 * BigEndian(b[..|b| - 1]) + b[|b| - 1]
  }

  lemma FourDigits(b: seq<byte>)
    requires |b| == 4
    ensures var p: int, q: int, r: int, s: int := b[0], b[1], b[2], b[3];
      BigEndian(b) == 16777216 * p + 65536 * q + 256 * r + s
  {
    var three, two, one := b[..3], b[..2], b[..1];
    assert three[..2] == two && two[..1] == one && one[..0] == [];
    assert BigEndian(one) == b[0];
    assert BigEndian(two) == 256 * BigEndian(one) + b[1];
    assert BigEndian(three) == 256 * BigEndian(two) + b[2];
    assert BigEndian(b) == 256 * BigEndian(three) + b[3];
  }

  lemma BytesAreDigits(w: word)
    ensures |Bytes(w)| == 4 && BigEndian(Bytes(w)) == w
  {
    FourDigits(Bytes(w));
    var x: int := w;
    assert x == x / 256 * 256 + x % 256;
    assert x / 256 == x / 256 / 256 * 256 + x / 256 % 256;
    assert x / 256 / 256 == x / 256 / 256 / 256 * 256 + x / 256 / 256 % 256;
    hide BigEndian;
  }

  lemma JoinIsNumber(b: seq<byte>)
    requires |b| == 4
    ensures Join(b) == BigEndian(b)
  {
    FourDigits(b);
    hide BigEndian;
  }

  /** Two's complement in four bytes. */
  function SignedNumber(b: seq<byte>): int
    requires |b| == 4
  {
    BigEndian(b) - if b[0] >= 128 then 4294967296 else 0
  }

  lemma {:induction false} FirstDigit(b: seq<byte>)
    requires |b| == 4
    ensures BigEndian(b) < 4294967296 && (b[0] >= 128 <==> BigEndian(b) >= 2147483648)
  {
    FourDigits(b);
    hide BigEndian;
  }

  // -------------------------------------------------------------------------
  // What is written
  // -------------------------------------------------------------------------

  /** An integer: its own digits if it is not negative, those of its sum with 2^32 if it is; the first bit is the
      sign. */
  lemma IntOnWire(i: int32)
    ensures var b := Wire(Int(i));
      && |b| == 4 && BigEndian(b) == (if i >= 0 then i else i + 4294967296)
      && SignedNumber(b) == i && (b[0] >= 128 <==> i < 0)
  {
    BytesAreDigits(AsWord(i));
    FirstDigit(Bytes(AsWord(i)));
    hide BigEndian, Bytes;
  }

  lemma UIntOnWire(u: word)
    ensures |Wire(UInt(u))| == 4 && BigEndian(Wire(UInt(u))) == u
  {
    BytesAreDigits(u);
  }

  /** Two words, the more significant half first. */
  lemma DoubleOnWire(high: word, low: word)
    ensures var b := Wire(Double(high, low));
      |b| == 8 && BigEndian(b[..4]) == high && BigEndian(b[4..]) == low
  {
    BytesAreDigits(high);
    BytesAreDigits(low);
    hide Bytes, BigEndian;
    assert (Bytes(high) + Bytes(low))[..4] == Bytes(high) && (Bytes(high) + Bytes(low))[4..] == Bytes(low);
  }

  /** Data as they are, and less than four zeros up to a multiple of four. */
  predicate DataOnWire(b: seq<byte>, data: seq<byte>) {
    && |data| <= |b| < |data| + 4 && |b| % 4 == 0
    && b[..|data|] == data && forall i :: |data| <= i < |b| ==> b[i] == 0
  }

  lemma PaddedOnWire(data: seq<byte>)
    ensures DataOnWire(Padded(data), data)
  {
  }

  /** Counted data and strings: the number of bytes, then the data. */
  lemma CountedOnWire(data: seq<byte>)
    requires |data| < 4294967296
    ensures var b := Wire(Counted(data)); |b| >= 4 && BigEndian(b[..4]) == |data| && DataOnWire(b[4..], data)
    ensures var b := Wire(Str(data)); |b| >= 4 && BigEndian(b[..4]) == |data| && DataOnWire(b[4..], data)
  {
    BytesAreDigits(|data|);
    PaddedOnWire(data);
    assert Shortened(data) == data;
    hide Bytes, BigEndian, Padded, DataOnWire;
    assert (Bytes(|data|) + Padded(data))[..4] == Bytes(|data|) && (Bytes(|data|) + Padded(data))[4..] == Padded(data);
  }

  // -------------------------------------------------------------------------
  // What is read
  // -------------------------------------------------------------------------

  /** The first four bytes, as a signed or unsigned number. */
  lemma NumbersRead(b: seq<byte>, was: Item)
    ensures Parse(TInt, b, was).Got? <==> |b| >= 4
    ensures Parse(TUInt, b, was).Got? <==> |b| >= 4
    ensures |b| >= 4 ==>
      && Parse(TInt, b, was).used == 4 && Parse(TInt, b, was).value.Int? && Parse(TInt, b, was).value.i == SignedNumber(b[..4])
      && Parse(TUInt, b, was).used == 4 && Parse(TUInt, b, was).value.UInt? && Parse(TUInt, b, was).value.u == BigEndian(b[..4])
  {
    if |b| >= 4 {
      JoinIsNumber(b[..4]);
      FirstDigit(b[..4]);
      hide Join, BigEndian;
    }
  }

  lemma DoublesRead(b: seq<byte>, was: Item)
    ensures Parse(TDouble, b, was).Got? <==> |b| >= 8
    ensures |b| >= 8 ==> var r := Parse(TDouble, b, was);
      r.used == 8 && r.value.Double? && r.value.high == BigEndian(b[..4]) && r.value.low == BigEndian(b[4..8])
  {
    if |b| >= 8 {
      JoinIsNumber(b[..4]);
      JoinIsNumber(b[4..8]);
    }
  }

  /** A count within the bound, and so many bytes behind it; those up to the next multiple of four must be there,
      whatever they are. */
  lemma CountedRead(b: seq<byte>, maxsize: word, was: Item)
    ensures var n := if |b| >= 4 then BigEndian(b[..4]) else 0;
      var used := 4 + (n + 3) / 4 * 4;
      && (Parse(TCounted(maxsize), b, was).Got? <==> |b| >= 4 && n <= maxsize && used <= |b|)
      && (Parse(TCounted(maxsize), b, was).Got? ==> Parse(TCounted(maxsize), b, was) == Got(Counted(b[4..4 + n]), used))
      && (n < 4294967295 ==>
            && (Parse(TStr(maxsize), b, was).Got? <==> |b| >= 4 && n <= maxsize && used <= |b|)
            && (Parse(TStr(maxsize), b, was).Got? ==> Parse(TStr(maxsize), b, was) == Got(Str(b[4..4 + n]), used)))
  {
    if |b| >= 4 {
      JoinIsNumber(b[..4]);
      hide Join, BigEndian;
      var n := BigEndian(b[..4]);
      PaddingRounds(n);
      hide Padding;
      assert 4 + n <= |b| ==> b[4..][..n] == b[4..4 + n];
    }
  }

  lemma PaddingRounds(n: nat)
    ensures n + Padding(n) == (n + 3) / 4 * 4
  {
  }

  // -------------------------------------------------------------------------
  // In a buffer
  // -------------------------------------------------------------------------

  /** Counted data from one position of a buffer to another. */
  predicate CountedAt(base: seq<byte>, pos: nat, end: nat, data: seq<byte>) {
    pos + 4 <= end <= |base| && BigEndian(base[pos..pos + 4]) == |data| && DataOnWire(base[pos + 4..end], data)
  }

  lemma CountedWritten(base: seq<byte>, pos: nat, end: nat, data: seq<byte>)
    requires pos <= end <= |base| && |data| < 4294967296 && base[pos..end] == Bytes(|data|) + Padded(data)
    ensures CountedAt(base, pos, end, data)
  {
    CountedOnWire(data);
    BytesAreDigits(|data|);
    hide Bytes, BigEndian, Padded, DataOnWire;
    assert base[pos..pos + 4] == base[pos..end][..4] && base[pos + 4..end] == base[pos..end][4..];
  }
}
