/** Base-128 varints (util/coding.cc; Protocol Buffers Encoding, "Base 128 Varints"): seven bits a byte, least significant
    group first, the high bit set on all bytes but the last. */
module Varints {
  import opened InternalKeys
  import opened Framing

  function EncodeVarint(x: nat): (b: Bytes)
    ensures |b| > 0
  {
    if x < 128 then [x as byte] else [(x % 128 + 128) as byte] + EncodeVarint(x / 128)
  }

  datatype Number = Number(value: nat, next: nat)

  /** Read a varint of at most `n` bytes at `p`, not looking at or past `limit`. */
  function GetVarint(b: Bytes, p: nat, limit: nat, n: nat): (r: Option<Number>)
    requires limit <= |b|
    ensures r.Some? ==> p < r.value.next <= limit
    decreases limit - p
  {
    if n == 0 || p >= limit then None
    else if b[p] < 128 then Some(Number(b[p] as nat, p + 1))
    else
      var rest := GetVarint(b, p + 1, limit, n - 1);
      if rest.None? then None else Some(Number(b[p] as nat - 128 + 128 * rest.value.value, rest.value.next))
  }

  function Pow128(n: nat): nat { if n == 0 then 1 else 128 * Pow128(n - 1) }

  /** `s` stands at position `p`. */
  predicate At(b: Bytes, p: nat, s: Bytes) {
    Part(b, p, |s|) == Some(s)
  }

  lemma AtParts(b: Bytes, p: nat, s: Bytes, t: Bytes)
    requires At(b, p, s + t)
    ensures At(b, p, s) && At(b, p + |s|, t)
  {
    assert s + t == [] + s + t;
    PartOfParts(b, p, [], s, t);
  }

  lemma AtFirst(b: Bytes, p: nat, x: byte, t: Bytes)
    requires At(b, p, [x] + t)
    ensures p < |b| && b[p] == x && At(b, p + 1, t)
  {
    AtParts(b, p, [x], t);
    assert b[p..p + 1] == [x];
  }

  /** Every number of at most 7n bits reads back from its encoding. */
  lemma {:induction false} GetEncoded(b: Bytes, p: nat, limit: nat, n: nat, x: nat)
    requires limit <= |b| && At(b, p, EncodeVarint(x)) && p + |EncodeVarint(x)| <= limit && x < Pow128(n) && n > 0
    ensures GetVarint(b, p, limit, n) == Some(Number(x, p + |EncodeVarint(x)|))
    decreases n
  {
    if x < 128 {
      assert EncodeVarint(x) == [x as byte] + [];
      AtFirst(b, p, x as byte, []);
    } else {
      AtFirst(b, p, (x % 128 + 128) as byte, EncodeVarint(x / 128));
      GetEncoded(b, p + 1, limit, n - 1, x / 128);
    }
  }

  lemma VarintRanges()
    ensures Pow128(5) >= 0x1_0000_0000 && Pow128(10) >= 0x1_0000_0000_0000_0000
  {
    assert Pow128(2) == 16384 && Pow128(4) == 268435456 && Pow128(5) == 34359738368;
    assert Pow128(7) == 16384 * Pow128(5) && Pow128(9) == 16384 * Pow128(7) && Pow128(10) == 128 * Pow128(9);
  }
}
