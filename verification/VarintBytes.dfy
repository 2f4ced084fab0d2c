/** Which bytes are a varint, and which number it is (util/coding.cc, pb_decode.c; Protocol Buffers Encoding: "Base 128 Varints"), stated
    over the bytes themselves. */
module VarintBytes {
  import opened InternalKeys
  import opened Varints

  /** The bytes from `p` up to `q` as a number: seven bits a byte, the least significant first. */
  function Sum(b: Bytes, p: nat, q: nat): nat
    requires p <= q <= |b|
    decreases q - p
  {
    if p == q then 0 else b[p] as nat % 128 + 128 * Sum(b, p + 1, q)
  }

  /** A number that starts at `p` ends at `q`. */
  predicate Ends(b: Bytes, p: nat, q: nat, limit: nat)
    requires limit <= |b|
  {
    p < q <= limit && b[q - 1] < 128 && forall i :: p <= i < q - 1 ==> b[i] >= 128
  }

  lemma SmallByteEnds(b: Bytes, p: nat, limit: nat, q: nat)
    requires p < limit <= |b| && b[p] < 128
    ensures Ends(b, p, q, limit) <==> q == p + 1
    ensures Sum(b, p, p + 1) == b[p] as nat
  {
    assert b[p] as nat == b[p] as nat % 128;
  }

  // ---------------------------------------------------------------- varints

  /** A varint is read from exactly the bytes up to the first small one, if these are at most `n`. */
  lemma {:induction false} VarintExactly(b: Bytes, p: nat, limit: nat, n: nat, v: nat, q: nat)
    requires limit <= |b|
    ensures GetVarint(b, p, limit, n) == Some(Number(v, q)) <==> Ends(b, p, q, limit) && q - p <= n && v == Sum(b, p, q)
    decreases n
  {
    if n > 0 && p < limit {
      if b[p] < 128 {
        SmallByteEnds(b, p, limit, q);
      } else {
        var rest := GetVarint(b, p + 1, limit, n - 1);
        if rest.Some? { VarintExactly(b, p + 1, limit, n - 1, rest.value.value, rest.value.next); }
        if Ends(b, p, q, limit) { VarintExactly(b, p + 1, limit, n - 1, Sum(b, p + 1, q), q); }
      }
    }
  }

  /** A number is written as the shortest bytes that mean it. */
  lemma {:induction false} EncodedExactly(x: nat, s: Bytes)
    ensures s == EncodeVarint(x) <==> s != [] && Ends(s, 0, |s|, |s|) && Sum(s, 0, |s|) == x && (|s| > 1 ==> s[|s| - 1] != 0)
    decreases |s|
  {
    if |s| > 1 && s[0] >= 128 {
      EncodedExactly(x / 128, s[1..]);
      MoreBytes(x, s);
    } else if s != [] {
      if s[0] < 128 { SmallByteEnds(s, 0, |s|, |s|); }
    }
  }

  lemma {:induction false} MoreBytes(x: nat, s: Bytes)
    requires |s| > 1 && s[0] >= 128
    ensures s == EncodeVarint(x) <==> x >= 128 && s[0] as nat == x % 128 + 128 && s[1..] == EncodeVarint(x / 128)
    ensures Ends(s, 0, |s|, |s|) <==> Ends(s[1..], 0, |s| - 1, |s| - 1)
    ensures Sum(s, 0, |s|) == s[0] as nat - 128 + 128 * Sum(s[1..], 0, |s| - 1)
    ensures Ends(s, 0, |s|, |s|) && s[|s| - 1] != 0 ==> Sum(s, 0, |s|) >= 128
  {
    assert s == [s[0]] + s[1..];
    SumTail(s, 1, |s|);
    TailEnds(s);
    TailIsNumber(s[1..]);
  }

  lemma {:induction false} SumTail(s: Bytes, p: nat, q: nat)
    requires 1 <= p <= q <= |s|
    ensures Sum(s, p, q) == Sum(s[1..], p - 1, q - 1)
    decreases q - p
  {
    if p < q { SumTail(s, p + 1, q); }
  }

  lemma TailEnds(s: Bytes)
    requires |s| > 1 && s[0] >= 128
    ensures Ends(s, 0, |s|, |s|) <==> Ends(s[1..], 0, |s| - 1, |s| - 1)
  {
    if Ends(s, 0, |s|, |s|) {
      forall i | 0 <= i < |s| - 2 ensures s[1..][i] >= 128 { assert s[i + 1] >= 128; }
    }
    if Ends(s[1..], 0, |s| - 1, |s| - 1) {
      forall i | 0 <= i < |s| - 1 ensures s[i] >= 128 { if i > 0 { assert s[1..][i - 1] >= 128; } }
    }
  }

  /** A number whose last byte is not zero is not zero. */
  lemma {:induction false} TailIsNumber(s: Bytes)
    requires s != []
    ensures s[|s| - 1] as nat % 128 != 0 ==> Sum(s, 0, |s|) > 0
    decreases |s|
  {
    if |s| > 1 { SumTail(s, 1, |s|); TailIsNumber(s[1..]); }
  }
}
