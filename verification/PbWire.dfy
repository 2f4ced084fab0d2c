/** Reading numbers, strings and tags from a stream (pb_decode.c). A stream is the bytes from `p` up to `limit`. */
module PbWire {
  import opened InternalKeys
  import opened LogFormat
  import opened Varints
  import opened PbMessages

  // ---------------------------------------------------------------- numbers

  /** Whether a byte past the 32nd bit is refused: it must add nothing, or belong to the sign extension of a negative number. */
  predicate Overflows(k: nat, x: nat, result: nat) {
    k >= 5 && x % 128 != 0 && (result < 0x8000_0000 || x != if k < 9 then 0xFF else 0x01)
  }

  function Accumulated(k: nat, x: nat, result: nat): nat {
    if k >= 5 then result else (result + Shift(x % 128, k)) % TWO32
  }

  /** A number moved up by `k` groups of seven bits. */
  function Shift(x: nat, k: nat): nat { if k == 0 then x else 128 * Shift(x, k - 1) }

  /** The rest of a 32-bit number after `k` of its bytes. */
  function Varint32From(b: Bytes, p: nat, limit: nat, k: nat, result: nat): (r: Option<Number>)
    requires limit <= |b|
    ensures r.Some? ==> p < r.value.next <= limit
    decreases limit - p
  {
    if p >= limit then None
    else
      var x := b[p] as nat;
      if Overflows(k, x, result) then None
      else if x >= 128 then Varint32From(b, p + 1, limit, k + 1, Accumulated(k, x, result))
      else if k == 4 && x >= 16 then None
      else Some(Number(Accumulated(k, x, result), p + 1))
  }

  function GetVarint32(b: Bytes, p: nat, limit: nat): (r: Option<Number>)
    requires limit <= |b|
    ensures r.Some? ==> p < r.value.next <= limit
  {
    Varint32From(b, p, limit, 0, 0)
  }

  /** A 64-bit number has at most ten bytes; bits past the 64th are lost. */
  function GetVarint64(b: Bytes, p: nat, limit: nat): (r: Option<Number>)
    requires limit <= |b|
    ensures r.Some? ==> p < r.value.next <= limit && r.value.value < TWO64
  {
    var r := GetVarint(b, p, limit, 10);
    if r.None? then None else Some(Number(r.value.value % TWO64, r.value.next))
  }

  lemma {:induction false} Encoded32From(b: Bytes, p: nat, limit: nat, k: nat, result: nat, y: nat)
    requires limit <= |b| && At(b, p, EncodeVarint(y)) && p + |EncodeVarint(y)| <= limit
    requires k <= 4 && result + Shift(y, k) < TWO32
    ensures Varint32From(b, p, limit, k, result) == Some(Number(result + Shift(y, k), p + |EncodeVarint(y)|))
    decreases y
  {
    LastGroup(y, k);
    if y < 128 {
      assert EncodeVarint(y) == [y as byte] + [];
      AtFirst(b, p, y as byte, []);
      Accumulates(k, y, result, y);
    } else {
      AtFirst(b, p, (y % 128 + 128) as byte, EncodeVarint(y / 128));
      ShiftSplits(y % 128, y / 128, k);
      Accumulates(k, y % 128 + 128, result, y % 128);
      Encoded32From(b, p + 1, limit, k + 1, result + Shift(y % 128, k), y / 128);
    }
  }

  lemma Accumulates(k: nat, x: nat, result: nat, low: nat)
    requires k < 5 && low < 128 && x % 128 == low && result + Shift(low, k) < TWO32
    ensures Accumulated(k, x, result) == result + Shift(low, k)
  {
  }

  /** The fifth group of a 32-bit number has four bits. */
  lemma LastGroup(y: nat, k: nat)
    requires k <= 4 && Shift(y, k) < TWO32
    ensures k == 4 ==> y < 16
  {
    if k == 4 { assert Shift(y, 3) == 128 * Shift(y, 2) && Shift(y, 1) == 128 * Shift(y, 0); }
  }

  lemma {:induction false} ShiftSplits(low: nat, high: nat, k: nat)
    ensures Shift(low + 128 * high, k) == Shift(low, k) + Shift(high, k + 1)
  {
    if k > 0 { ShiftSplits(low, high, k - 1); }
  }

  lemma Encoded32(b: Bytes, p: nat, limit: nat, x: nat)
    requires limit <= |b| && At(b, p, EncodeVarint(x)) && p + |EncodeVarint(x)| <= limit && x < TWO32
    ensures GetVarint32(b, p, limit) == Some(Number(x, p + |EncodeVarint(x)|))
  {
    Encoded32From(b, p, limit, 0, 0, x);
  }

  lemma Encoded64(b: Bytes, p: nat, limit: nat, x: nat)
    requires limit <= |b| && At(b, p, EncodeVarint(x)) && p + |EncodeVarint(x)| <= limit && x < TWO64
    ensures GetVarint64(b, p, limit) == Some(Number(x, p + |EncodeVarint(x)|))
  {
    VarintRanges();
    GetEncoded(b, p, limit, 10, x);
  }

  // ---------------------------------------------------------------- values

  function FromPattern(x: nat, span: nat): int { if x < span / 2 then x else x - span }

  function UnZigZag(x: nat): int { if x % 2 == 1 then -(x / 2) - 1 else x / 2 }

  /** Numbers of at most 32 bits are cut to 32 bits first; then the value must fit the field. */
  function GetSigned(b: Bytes, p: nat, limit: nat, width: nat): (r: Option<ValueAt>)
    requires limit <= |b|
    ensures r.Some? ==> p < r.value.next <= limit
  {
    var r := GetVarint64(b, p, limit);
    if r.None? then None
    else
      var i := if width == 8 then FromPattern(r.value.value, TWO64) else FromPattern(r.value.value % TWO32, TWO32);
      if Signed(width, i) then Some(ValueAt(Int(i), r.value.next)) else None
  }

  function GetUnsigned(b: Bytes, p: nat, limit: nat, width: nat): (r: Option<ValueAt>)
    requires limit <= |b|
    ensures r.Some? ==> p < r.value.next <= limit
  {
    var r := GetVarint64(b, p, limit);
    if r.None? || r.value.value >= Span(width) then None else Some(ValueAt(Int(r.value.value), r.value.next))
  }

  function GetZigZag(b: Bytes, p: nat, limit: nat, width: nat): (r: Option<ValueAt>)
    requires limit <= |b|
    ensures r.Some? ==> p < r.value.next <= limit
  {
    var r := GetVarint64(b, p, limit);
    if r.None? || !Signed(width, UnZigZag(r.value.value)) then None else Some(ValueAt(Int(UnZigZag(r.value.value)), r.value.next))
  }

  function GetFixed(b: Bytes, p: nat, limit: nat, n: nat): (r: Option<ValueAt>)
    requires limit <= |b| && n > 0
    ensures r.Some? ==> p < r.value.next <= limit
  {
    if p + n > limit then None else Some(ValueAt(Int(DecodeFixed(b[p..p + n])), p + n))
  }

  /** A length, which must satisfy `ok`, and as many bytes. */
  function GetBlob(b: Bytes, p: nat, limit: nat, ok: nat -> bool): (r: Option<ValueAt>)
    requires limit <= |b|
    ensures r.Some? ==> p < r.value.next <= limit
  {
    var n := GetVarint32(b, p, limit);
    if n.None? || !ok(n.value.value) || n.value.next + n.value.value > limit then None
    else Some(ValueAt(Blob(b[n.value.next..n.value.next + n.value.value]), n.value.next + n.value.value))
  }

  /** Everything but submessages. Fixed-length bytes may also come as an empty string, which stands for zeros. */
  function DecodeScalar(k: Kind, b: Bytes, p: nat, limit: nat): (r: Option<ValueAt>)
    requires limit <= |b| && !k.Message?
    ensures r.Some? ==> p < r.value.next <= limit
  {
    match k
    case Bool =>
      var r := GetVarint32(b, p, limit);
      if r.None? then None else Some(ValueAt(Flag(r.value.value != 0), r.value.next))
    case Varint(width) => GetSigned(b, p, limit, width)
    case UVarint(width) => GetUnsigned(b, p, limit, width)
    case SVarint(width) => GetZigZag(b, p, limit, width)
    case Fixed32 => GetFixed(b, p, limit, 4)
    case Fixed64 => GetFixed(b, p, limit, 8)
    case BytesOf(max) => GetBlob(b, p, limit, n => n <= max)
    case StringOf(size) => GetBlob(b, p, limit, n => n < size)
    case FixedBytes(size) =>
      var r := GetBlob(b, p, limit, n => n == 0 || n == size);
      if r.Some? && r.value.value == Blob([]) then Some(ValueAt(Blob(seq(size, _ => 0)), r.value.next)) else r
    case Message(_) => None
  }

  lemma SignedReads(b: Bytes, p: nat, limit: nat, width: nat, i: int)
    requires Width(width) && Signed(width, i) && limit <= |b|
    requires At(b, p, EncodeVarint(Pattern(i))) && p + |EncodeVarint(Pattern(i))| <= limit
    ensures GetSigned(b, p, limit, width) == Some(ValueAt(Int(i), p + |EncodeVarint(Pattern(i))|))
  {
    Encoded64(b, p, limit, Pattern(i));
    if width != 8 { PatternCut(i); }
  }

  lemma PatternCut(i: int)
    requires Signed(4, i)
    ensures Pattern(i) % TWO32 == if i < 0 then i + TWO32 else i
  {
    if i < 0 { assert i + TWO64 == 0xFFFF_FFFF * TWO32 + (i + TWO32); }
  }

  lemma UnsignedReads(b: Bytes, p: nat, limit: nat, width: nat, i: nat)
    requires Width(width) && i < Span(width) && limit <= |b| && At(b, p, EncodeVarint(i)) && p + |EncodeVarint(i)| <= limit
    ensures GetUnsigned(b, p, limit, width) == Some(ValueAt(Int(i), p + |EncodeVarint(i)|))
  {
    Encoded64(b, p, limit, i);
  }

  lemma ZigZagReads(b: Bytes, p: nat, limit: nat, width: nat, i: int)
    requires Width(width) && Signed(width, i) && limit <= |b|
    requires At(b, p, EncodeVarint(ZigZag(i))) && p + |EncodeVarint(ZigZag(i))| <= limit
    ensures GetZigZag(b, p, limit, width) == Some(ValueAt(Int(i), p + |EncodeVarint(ZigZag(i))|))
  {
    Encoded64(b, p, limit, ZigZag(i));
    assert UnZigZag(ZigZag(i)) == i;
  }

  lemma FixedReads(b: Bytes, p: nat, limit: nat, n: nat, x: nat)
    requires limit <= |b| && n > 0 && At(b, p, EncodeFixed(x, n)) && p + n <= limit && x < Pow256(n)
    ensures GetFixed(b, p, limit, n) == Some(ValueAt(Int(x), p + n))
  {
    DecodeEncodeFixed(x, n);
    assert b[p..p + n] == EncodeFixed(x, n);
  }

  lemma BlobReads(b: Bytes, p: nat, limit: nat, ok: nat -> bool, s: Bytes)
    requires limit <= |b| && At(b, p, EncodeVarint(|s|) + s) && p + |EncodeVarint(|s|) + s| <= limit && |s| < TWO32 && ok(|s|)
    ensures GetBlob(b, p, limit, ok) == Some(ValueAt(Blob(s), p + |EncodeVarint(|s|) + s|))
  {
    AtParts(b, p, EncodeVarint(|s|), s);
    Encoded32(b, p, limit, |s|);
    var q := p + |EncodeVarint(|s|)|;
    assert b[q..q + |s|] == s;
  }

  lemma WideRanges()
    ensures Pow256(4) == TWO32 && Pow256(8) == TWO64
  {
    FixedRanges();
    assert Pow256(6) == 0x1_0000 * Pow256(4) && Pow256(8) == 0x1_0000 * Pow256(6);
  }

  /** Every value that is not a message reads back from its encoding. */
  lemma ScalarReads(k: Kind, v: Value, b: Bytes, p: nat, limit: nat)
    requires !k.Message? && KindOk(k) && TypedValue(k, v) && FitsValue(k, v, true) && limit <= |b|
    requires At(b, p, EncodeScalar(k, v)) && p + |EncodeScalar(k, v)| <= limit && |EncodeScalar(k, v)| < TWO32
    ensures DecodeScalar(k, b, p, limit) == Some(ValueAt(v, p + |EncodeScalar(k, v)|))
  {
    if Packable(k) { NumberReads(k, v, b, p, limit); } else { StringReads(k, v, b, p, limit); }
  }

  lemma NumberReads(k: Kind, v: Value, b: Bytes, p: nat, limit: nat)
    requires Packable(k) && KindOk(k) && TypedValue(k, v) && limit <= |b|
    requires At(b, p, EncodeScalar(k, v)) && p + |EncodeScalar(k, v)| <= limit
    ensures DecodeScalar(k, b, p, limit) == Some(ValueAt(v, p + |EncodeScalar(k, v)|))
  {
    match k
    case Bool => Encoded32(b, p, limit, if v.flag then 1 else 0);
    case Varint(width) => SignedReads(b, p, limit, width, v.number);
    case UVarint(width) => UnsignedReads(b, p, limit, width, v.number);
    case SVarint(width) => ZigZagReads(b, p, limit, width, v.number);
    case Fixed32 => WideRanges(); FixedReads(b, p, limit, 4, v.number);
    case Fixed64 => WideRanges(); FixedReads(b, p, limit, 8, v.number);
  }

  lemma StringReads(k: Kind, v: Value, b: Bytes, p: nat, limit: nat)
    requires !Packable(k) && !k.Message? && TypedValue(k, v) && FitsValue(k, v, true) && limit <= |b|
    requires At(b, p, EncodeScalar(k, v)) && p + |EncodeScalar(k, v)| <= limit && |EncodeScalar(k, v)| < TWO32
    ensures DecodeScalar(k, b, p, limit) == Some(ValueAt(v, p + |EncodeScalar(k, v)|))
  {
    match k
    case BytesOf(max) => BlobReads(b, p, limit, n => n <= max, v.blob);
    case StringOf(size) => BlobReads(b, p, limit, n => n < size, v.blob);
    case FixedBytes(size) =>
      BlobReads(b, p, limit, n => n == 0 || n == size, v.blob);
      if size == 0 { assert v.blob == seq(size, _ => 0); }
  }
}
