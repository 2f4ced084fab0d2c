/** What any bytes mean to the number fields of a message (pb_decode.c), stated over the bytes themselves: which are accepted, and as
    what. */
module PbNumbers {
  import opened InternalKeys
  import opened LogFormat
  import opened Varints
  import opened VarintBytes
  import opened PbMessages
  import opened PbWire

  lemma {:induction false} SumSplits(b: Bytes, p: nat, m: nat, q: nat)
    requires p <= m <= q <= |b|
    ensures Sum(b, p, q) == Sum(b, p, m) + Shift(Sum(b, m, q), m - p)
    decreases m - p
  {
    if p < m {
      SumSplits(b, p + 1, m, q);
      assert Shift(Sum(b, m, q), m - p) == 128 * Shift(Sum(b, m, q), m - (p + 1));
    }
  }

  // ---------------------------------------------------------------- 32-bit numbers

  /** A byte past the 35th bit may add nothing, or be as in the sign extension of a negative number. */
  predicate Filler(x: nat, k: nat, low: nat) {
    x % 128 == 0 || (low >= 0x8000_0000 && x == if k < 9 then 0xFF else 0x01)
  }

  /** The bytes from `m` on are acceptable in a number that starts at `p` and ends at `q`. */
  predicate Accepts(b: Bytes, p: nat, m: nat, q: nat)
    requires p <= q <= |b|
  {
    && (q - p == 5 ==> b[q - 1] < 16)
    && forall i :: p + 5 <= i < q && m <= i ==> Filler(b[i] as nat, i - p, Sum(b, p, q) % TWO32)
  }

  lemma {:induction false} HighGroups(x: nat, k: nat)
    ensures k >= 5 ==> Shift(x, k) % TWO32 == 0
  {
    if k > 5 {
      HighGroups(x, k - 1);
      TimesMod(Shift(x, k - 1));
    } else if k == 5 {
      assert Shift(x, 1) == 128 * Shift(x, 0) && Shift(x, 3) == 128 * Shift(x, 2) && Shift(x, 5) == 128 * Shift(x, 4);
      assert Shift(x, 5) == TWO32 * (8 * x);
    }
  }

  lemma TimesMod(y: nat)
    requires y % TWO32 == 0
    ensures 128 * y % TWO32 == 0
  {
    assert 128 * y == TWO32 * (128 * (y / TWO32));
  }

  lemma AddMod(x: nat, y: nat)
    ensures (x % TWO32 + y) % TWO32 == (x + y) % TWO32
    ensures y % TWO32 == 0 ==> (x + y) % TWO32 == x % TWO32
  {
    assert x + y == TWO32 * (x / TWO32) + (x % TWO32 + y);
    if y % TWO32 == 0 { assert x + y == TWO32 * (x / TWO32 + y / TWO32) + x % TWO32; }
  }

  /** The five lowest groups decide the low 32 bits. */
  lemma LowBits(b: Bytes, p: nat, m: nat, q: nat)
    requires p + 5 <= m <= q <= |b|
    ensures Sum(b, p, m) % TWO32 == Sum(b, p, q) % TWO32
  {
    SumSplits(b, p, m, q);
    HighGroups(Sum(b, m, q), m - p);
    AddMod(Sum(b, p, m), Shift(Sum(b, m, q), m - p));
  }

  lemma NextByte(b: Bytes, p: nat, m: nat)
    requires p <= m < |b|
    ensures Accumulated(m - p, b[m] as nat, Sum(b, p, m) % TWO32) == Sum(b, p, m + 1) % TWO32
  {
    SumSplits(b, p, m, m + 1);
    HighGroups(b[m] as nat % 128, m - p);
    AddMod(Sum(b, p, m), Shift(b[m] as nat % 128, m - p));
    assert Sum(b, m, m + 1) == b[m] as nat % 128;
  }

  lemma {:induction false} Rest32Exactly(b: Bytes, p: nat, m: nat, limit: nat, v: nat, q: nat)
    requires p <= m && limit <= |b|
    ensures Varint32From(b, m, limit, m - p, if m <= limit then Sum(b, p, m) % TWO32 else 0) == Some(Number(v, q))
            <==> Ends(b, m, q, limit) && v == Sum(b, p, q) % TWO32 && Accepts(b, p, m, q)
    decreases limit - m
  {
    if m < limit {
      NextByte(b, p, m);
      if b[m] < 128 { SmallByteEnds(b, m, limit, q); } else { LaterEnd(b, m, limit, q); Rest32Exactly(b, p, m + 1, limit, v, q); }
      if Ends(b, m, q, limit) { OneMore(b, p, m, q); }
    }
  }

  lemma LaterEnd(b: Bytes, p: nat, limit: nat, q: nat)
    requires p < limit <= |b| && b[p] >= 128
    ensures Ends(b, p, q, limit) <==> Ends(b, p + 1, q, limit)
  {
  }

  lemma OneMore(b: Bytes, p: nat, m: nat, q: nat)
    requires p <= m < q <= |b|
    ensures Accepts(b, p, m, q) <==> !Overflows(m - p, b[m] as nat, Sum(b, p, m) % TWO32) && Accepts(b, p, m + 1, q)
  {
    if m >= p + 5 { LowBits(b, p, m, q); }
  }

  /** A number of 32 bits is read exactly from bytes with an end that are acceptable, as the low 32 bits of what they say. */
  lemma Read32Exactly(b: Bytes, p: nat, limit: nat, v: nat, q: nat)
    requires limit <= |b|
    ensures GetVarint32(b, p, limit) == Some(Number(v, q))
            <==> Ends(b, p, q, limit) && v == Sum(b, p, q) % TWO32 && Accepts(b, p, p, q)
  {
    Rest32Exactly(b, p, p, limit, v, q);
  }

  // ---------------------------------------------------------------- values

  /** The bytes from `p` up to `q` are a number of 64 bits, bits past them being lost. */
  ghost predicate Is64(b: Bytes, p: nat, limit: nat, y: nat, q: nat)
    requires limit <= |b|
  {
    match Ends(b, p, q, limit)
    case true => q - p <= 10 && y == Sum(b, p, q) % TWO64
    case false => false
  }

  ghost predicate Is32(b: Bytes, p: nat, limit: nat, y: nat, q: nat)
    requires limit <= |b|
  {
    match Ends(b, p, q, limit)
    case true => Accepts(b, p, p, q) && y == Sum(b, p, q) % TWO32
    case false => false
  }

  /** The bytes from `p` up to `q` mean the number `i` to a field of kind `k`. */
  ghost predicate Means(k: Kind, b: Bytes, p: nat, limit: nat, v: Value, q: nat)
    requires limit <= |b|
  {
    match k
    case Bool => v.Flag? && exists y: nat :: Is32(b, p, limit, y, q) && v.flag == (y != 0)
    case UVarint(width) => v.Int? && 0 <= v.number < Span(width) && Is64(b, p, limit, v.number, q)
    case SVarint(width) => v.Int? && Signed(width, v.number) && Is64(b, p, limit, ZigZag(v.number), q)
    case Varint(width) => v.Int? && Signed(width, v.number) && exists y: nat :: Is64(b, p, limit, y, q) && SameBits(v.number, y, width)
    case _ => false
  }

  /** Equal in the bits that are looked at: all 64 for a field of 64 bits, the low 32 for others. */
  predicate SameBits(i: int, y: nat, width: nat) { (i - y) % (if width == 8 then TWO64 else TWO32) == 0 }

  /** A boolean, enumeration or integer field gets a value exactly if its bytes mean this value and it is in the field's range. */
  lemma NumberExactly(k: Kind, b: Bytes, p: nat, limit: nat, v: Value, q: nat)
    requires limit <= |b| && KindOk(k) && WireType(k) == 0
    ensures DecodeScalar(k, b, p, limit) == Some(ValueAt(v, q)) <==> Means(k, b, p, limit, v, q)
  {
    match k
    case Bool => Read32Means(b, p, limit, v, q);
    case UVarint(width) => if v.Int? && v.number >= 0 { Read64Exactly(b, p, limit, v.number, q); }
    case SVarint(width) => if v.Int? { Read64Exactly(b, p, limit, ZigZag(v.number), q); ZigZagExactly(b, p, limit, width, v.number, q); }
    case Varint(width) => SignedExactly(b, p, limit, width, v, q);
  }

  lemma Read32Means(b: Bytes, p: nat, limit: nat, v: Value, q: nat)
    requires limit <= |b|
    ensures DecodeScalar(Bool, b, p, limit) == Some(ValueAt(v, q)) <==> Means(Bool, b, p, limit, v, q)
  {
    var r := GetVarint32(b, p, limit);
    if r.Some? {
      Read32Exactly(b, p, limit, r.value.value, r.value.next);
      assert Is32(b, p, limit, r.value.value, r.value.next);
    }
    forall y: nat | Is32(b, p, limit, y, q) ensures r == Some(Number(y, q)) { Read32Exactly(b, p, limit, y, q); }
  }

  lemma ZigZagExactly(b: Bytes, p: nat, limit: nat, width: nat, i: int, q: nat)
    requires limit <= |b|
    ensures GetZigZag(b, p, limit, width) == Some(ValueAt(Int(i), q))
            <==> Signed(width, i) && GetVarint64(b, p, limit) == Some(Number(ZigZag(i), q))
  {
    var r := GetVarint64(b, p, limit);
    if r.Some? { assert UnZigZag(r.value.value) == i <==> r.value.value == ZigZag(i); }
  }

  lemma SignedExactly(b: Bytes, p: nat, limit: nat, width: nat, v: Value, q: nat)
    requires limit <= |b| && Width(width)
    ensures GetSigned(b, p, limit, width) == Some(ValueAt(v, q)) <==> Means(Varint(width), b, p, limit, v, q)
  {
    var r := GetVarint64(b, p, limit);
    if r.Some? {
      Read64Exactly(b, p, limit, r.value.value, r.value.next);
      if v.Int? && Signed(width, v.number) { LowPattern(v.number, r.value.value, width); }
    }
    forall y: nat | Is64(b, p, limit, y, q) ensures r == Some(Number(y, q)) { Read64Exactly(b, p, limit, y, q); }
  }

  /** A number in range is the one with the same bits. */
  lemma LowPattern(i: int, y: nat, width: nat)
    requires y < TWO64 && Width(width) && Signed(width, i)
    ensures SameBits(i, y, width) <==> i == if width == 8 then FromPattern(y, TWO64) else FromPattern(y % TWO32, TWO32)
  {
  }

  lemma Read64Exactly(b: Bytes, p: nat, limit: nat, y: nat, q: nat)
    requires limit <= |b|
    ensures Is64(b, p, limit, y, q) <==> GetVarint64(b, p, limit) == Some(Number(y, q))
  {
    var r := GetVarint(b, p, limit, 10);
    if r.Some? { VarintExactly(b, p, limit, 10, r.value.value, r.value.next); }
    if Ends(b, p, q, limit) { VarintExactly(b, p, limit, 10, Sum(b, p, q), q); }
  }

  // ---------------------------------------------------------------- what is not noticed

  /** Bits past the 32nd of a number's fifth byte are refused only if this byte is the last: 80 80 80 80 F0 00, which says
      7 * 2^32, is read as 0. */
  lemma LostBits(b: Bytes)
    requires b == [0x80, 0x80, 0x80, 0x80, 0xF0, 0x00]
    ensures Sum(b, 0, 6) == 7 * TWO32 && GetVarint32(b, 0, 6) == Some(Number(0, 6))
  {
    assert Sum(b, 4, 6) == 112 && Sum(b, 2, 6) == 112 * 16384;
    Read32Exactly(b, 0, 6, 0, 6);
  }

  /** What a field of at most 32 bits makes of a number written by a 64-bit field: the number itself exactly if it is in range. One
      that is not is refused only if its low 32 bits are out of range as well. */
  lemma NarrowField(b: Bytes, p: nat, limit: nat, width: nat, i: int, low: int)
    requires limit <= |b| && Width(width) && width < 8 && Signed(8, i) && Signed(4, low) && (i - low) % TWO32 == 0
    requires At(b, p, EncodeVarint(Pattern(i))) && p + |EncodeVarint(Pattern(i))| <= limit
    ensures DecodeScalar(Varint(width), b, p, limit)
            == if Signed(width, low) then Some(ValueAt(Int(low), p + |EncodeVarint(Pattern(i))|)) else None
    ensures Signed(width, i) <==> low == i && Signed(width, low)
  {
    Encoded64(b, p, limit, Pattern(i));
    SamePattern(i, low);
    LowPattern(low, Pattern(i), 4);
  }

  lemma SamePattern(i: int, low: int)
    requires Signed(8, i) && (i - low) % TWO32 == 0
    ensures SameBits(low, Pattern(i), 4)
  {
    var d := (i - low) / TWO32;
    assert i - low == TWO32 * d;
    assert low - Pattern(i) == TWO32 * if i < 0 then -d - TWO32 else -d;
  }
}
