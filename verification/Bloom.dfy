/** The Bloom filter policy (util/bloom.cc), for any hash function and any number of bits per key. */
module Bloom {
  import opened InternalKeys
  import opened LogFormat

  // ---------------------------------------------------------------- bits of a byte

  /** Bit `j` of `b`, counted from the least significant. */
  predicate HasBit(b: nat, j: nat) {
    if j == 0 then b % 2 == 1 else HasBit(b / 2, j - 1)
  }

  /** `b | (1 << j)`. */
  function SetBit(b: nat, j: nat): nat {
    if j == 0 then b / 2 * 2 + 1 else b % 2 + 2 * SetBit(b / 2, j - 1)
  }

  function Pow2(n: nat): (p: nat)
    ensures p > 0
  {
    if n == 0 then 1 else 2 * Pow2(n - 1)
  }

  lemma {:induction false} SetBitSets(b: nat, j: nat, i: nat)
    ensures HasBit(SetBit(b, j), i) <==> i == j || HasBit(b, i)
  {
    if j > 0 && i > 0 {
      SetBitSets(b / 2, j - 1, i - 1);
      assert SetBit(b, j) / 2 == SetBit(b / 2, j - 1);
    } else if i > 0 {
      assert SetBit(b, 0) / 2 == b / 2;
    }
  }

  lemma {:induction false} SetBitFits(b: nat, j: nat, n: nat)
    requires b < Pow2(n) && j < n
    ensures SetBit(b, j) < Pow2(n)
  {
    if j > 0 { SetBitFits(b / 2, j - 1, n - 1); }
  }

  function SetInByte(b: byte, j: nat): byte
    requires j < 8
  {
    SetBitFits(b as nat, j, 8);
    assert Pow2(8) == 256 by { assert Pow2(4) == 16; }
    SetBit(b as nat, j) as byte
  }

  // ---------------------------------------------------------------- bit arrays

  predicate BitAt(arr: Bytes, pos: nat)
    requires pos < 8 * |arr|
  {
    HasBit(arr[pos / 8] as nat, pos % 8)
  }

  function WithBit(arr: Bytes, pos: nat): (r: Bytes)
    requires pos < 8 * |arr|
    ensures |r| == |arr|
  {
    arr[pos / 8 := SetInByte(arr[pos / 8], pos % 8)]
  }

  lemma WithBitSets(arr: Bytes, pos: nat, q: nat)
    requires pos < 8 * |arr| && q < 8 * |arr|
    ensures BitAt(WithBit(arr, pos), q) <==> q == pos || BitAt(arr, q)
  {
    if q / 8 == pos / 8 {
      SetBitSets(arr[pos / 8] as nat, pos % 8, q % 8);
    }
  }

  // ---------------------------------------------------------------- probes

  type Hash = Bytes -> U32

  /** Rotate right by 17 bits: the step between probes. */
  function Delta(h: U32): U32 {
    h / 0x2_0000 + h % 0x2_0000 * 0x8000
  }

  function Probe(h: U32, delta: U32, j: nat): U32 {
    if j == 0 then h else (Probe(h, delta, j - 1) + delta) % TWO32
  }

  /** The number of probes: 69 percent of the bits per key, rounded down, within 1 and 30. */
  function Probes(bitsPerKey: nat): (k: nat)
    ensures 1 <= k <= 30
  {
    var k := bitsPerKey * 69 / 100;
    if k < 1 then 1 else if k > 30 then 30 else k
  }

  function FilterBytes(n: nat, bitsPerKey: nat): (b: nat)
    ensures b >= 8
  {
    var bits := n * bitsPerKey;
    ((if bits < 64 then 64 else bits) + 7) / 8
  }

  /** All `k` probes of a key hit set bits. */
  predicate Hits(hash: Hash, key: Bytes, arr: Bytes, k: nat)
    requires |arr| > 0
  {
    forall j :: 0 <= j < k ==> BitAt(arr, Probe(hash(key), Delta(hash(key)), j) % (8 * |arr|))
  }

  // ---------------------------------------------------------------- making a filter

  /** Set the bits of the first `k` probes of a key. */
  function WithKey(hash: Hash, key: Bytes, arr: Bytes, k: nat): (r: Bytes)
    requires |arr| > 0
    ensures |r| == |arr|
  {
    if k == 0 then arr
    else WithBit(WithKey(hash, key, arr, k - 1), Probe(hash(key), Delta(hash(key)), k - 1) % (8 * |arr|))
  }

  function WithKeys(hash: Hash, keys: seq<Bytes>, arr: Bytes, k: nat): (r: Bytes)
    requires |arr| > 0
    ensures |r| == |arr|
  {
    if keys == [] then arr else WithKey(hash, keys[|keys| - 1], WithKeys(hash, keys[..|keys| - 1], arr, k), k)
  }

  /** The filter of a list of keys: a bit array, and the number of probes as its last byte. */
  function Filter(hash: Hash, bitsPerKey: nat, keys: seq<Bytes>): (filter: Bytes)
    ensures |filter| == FilterBytes(|keys|, bitsPerKey) + 1
  {
    WithKeys(hash, keys, seq(FilterBytes(|keys|, bitsPerKey), _ => 0), Probes(bitsPerKey)) + [Probes(bitsPerKey) as byte]
  }

  predicate Matches(hash: Hash, key: Bytes, filter: Bytes) {
    |filter| >= 2 && (filter[|filter| - 1] as nat > 30 || Hits(hash, key, filter[..|filter| - 1], filter[|filter| - 1] as nat))
  }

  method CreateFilter(hash: Hash, bitsPerKey: nat, keys: seq<Bytes>) returns (filter: Bytes)
    ensures filter == Filter(hash, bitsPerKey, keys)
  {
    var k := Probes(bitsPerKey);
    var size := FilterBytes(|keys|, bitsPerKey);
    var start: Bytes := seq(size, _ => 0);
    var arr := start;
    for i := 0 to |keys|
      invariant arr == WithKeys(hash, keys[..i], start, k)
    {
      var h := hash(keys[i]);
      var delta := Delta(h);
      ghost var before := arr;
      for j := 0 to k
        invariant arr == WithKey(hash, keys[i], before, j) && h == Probe(hash(keys[i]), delta, j)
      {
        var bitpos := h % (8 * size);
        arr := WithBit(arr, bitpos);
        h := (h + delta) % TWO32;
      }
      assert keys[..i + 1][..i] == keys[..i];
    }
    assert keys[..|keys|] == keys;
    filter := arr + [k as byte];
  }

  /** Probe for a key, with the number of probes the filter was made with. */
  method KeyMayMatch(hash: Hash, key: Bytes, filter: Bytes) returns (may: bool)
    ensures may == Matches(hash, key, filter)
  {
    if |filter| < 2 {
      return false;
    }
    var arr := filter[..|filter| - 1];
    var bits := 8 * |arr|;
    var k := filter[|filter| - 1] as nat;
    if k > 30 {
      return true;
    }
    var h := hash(key);
    var delta := Delta(h);
    for j := 0 to k
      invariant h == Probe(hash(key), delta, j) && Hits(hash, key, arr, j)
    {
      if !BitAt(arr, h % bits) {
        return false;
      }
      h := (h + delta) % TWO32;
    }
    return true;
  }

  // ---------------------------------------------------------------- no false negatives

  ghost predicate Grown(a: Bytes, b: Bytes) {
    |a| == |b| && forall q :: 0 <= q < 8 * |a| && BitAt(a, q) ==> BitAt(b, q)
  }

  lemma WithBitGrows(arr: Bytes, pos: nat)
    requires pos < 8 * |arr|
    ensures Grown(arr, WithBit(arr, pos)) && BitAt(WithBit(arr, pos), pos)
  {
    forall q | 0 <= q < 8 * |arr| ensures BitAt(WithBit(arr, pos), q) <==> q == pos || BitAt(arr, q) { WithBitSets(arr, pos, q); }
  }

  lemma {:induction false} WithKeyHits(hash: Hash, key: Bytes, arr: Bytes, k: nat)
    requires |arr| > 0
    ensures Grown(arr, WithKey(hash, key, arr, k)) && Hits(hash, key, WithKey(hash, key, arr, k), k)
  {
    if k > 0 {
      WithKeyHits(hash, key, arr, k - 1);
      WithBitGrows(WithKey(hash, key, arr, k - 1), Probe(hash(key), Delta(hash(key)), k - 1) % (8 * |arr|));
    }
  }

  lemma {:induction false} WithKeysHits(hash: Hash, keys: seq<Bytes>, arr: Bytes, k: nat, key: Bytes)
    requires |arr| > 0 && key in keys
    ensures Hits(hash, key, WithKeys(hash, keys, arr, k), k)
  {
    var n := |keys| - 1;
    var before := WithKeys(hash, keys[..n], arr, k);
    WithKeyHits(hash, keys[n], before, k);
    if key != keys[n] {
      WithKeysHits(hash, keys[..n], arr, k, key);
    }
  }

  /** No false negatives: every key a filter was made from matches it. */
  lemma NoFalseNegatives(hash: Hash, bitsPerKey: nat, keys: seq<Bytes>, key: Bytes)
    requires key in keys
    ensures Matches(hash, key, Filter(hash, bitsPerKey, keys))
  {
    var start: Bytes := seq(FilterBytes(|keys|, bitsPerKey), _ => 0);
    var k := Probes(bitsPerKey);
    WithKeysHits(hash, keys, start, k, key);
    var filter := Filter(hash, bitsPerKey, keys);
    assert filter[..|filter| - 1] == WithKeys(hash, keys, start, k);
  }
}
