/** The default comparator (util/comparator.cc, include/leveldb/slice.h): byte strings in lexicographic order, which embeds
    in the real numbers. The rest of the model takes user keys as points of such an order.
 */
module Bytewise {
  import opened InternalKeys

  /** Lexicographic order; a proper prefix comes first. */
  predicate Less(a: Bytes, b: Bytes) {
    b != [] && (a == [] || a[0] < b[0] || (a[0] == b[0] && Less(a[1..], b[1..])))
  }

  /** A byte string read as a fraction in base 257, the digit 0 meaning "no more bytes". */
  function Rank(a: Bytes): (r: real)
    ensures 0.0 <= r < 1.0
  {
    if a == [] then 0.0 else ((a[0] as int + 1) as real + Rank(a[1..])) / 257.0
  }

  /** Ranks order byte strings exactly as the comparator does. */
  lemma {:induction false} RankOrders(a: Bytes, b: Bytes)
    ensures Less(a, b) <==> Rank(a) < Rank(b)
    ensures a == b <==> Rank(a) == Rank(b)
  {
    if a != [] && b != [] {
      RankOrders(a[1..], b[1..]);
      assert a == b <==> a[0] == b[0] && a[1..] == b[1..] by {
        assert a == [a[0]] + a[1..] && b == [b[0]] + b[1..];
      }
      var x, y := (a[0] as int + 1) as real, (b[0] as int + 1) as real;
      assert a[0] < b[0] ==> x + 1.0 <= y;
      assert b[0] < a[0] ==> y + 1.0 <= x;
    }
  }

  /** Three-way comparison: the common length byte by byte, then the lengths (Slice::compare). */
  method Compare(a: Bytes, b: Bytes) returns (r: int)
    ensures r < 0 <==> Rank(a) < Rank(b)
    ensures r == 0 <==> a == b
    ensures r > 0 <==> Rank(b) < Rank(a)
  {
    var n := if |a| < |b| then |a| else |b|;
    var i := 0;
    while i < n && a[i] == b[i]
      invariant 0 <= i <= n && a[..i] == b[..i]
    {
      i := i + 1;
    }
    FromFirstDifference(a, b, i);
    RankOrders(a, b);
    RankOrders(b, a);
    if i < n {
      return if a[i] < b[i] then -1 else 1;
    }
    return if |a| < |b| then -1 else if |a| > |b| then 1 else 0;
  }

  /** After a common prefix the rest decides. */
  lemma {:induction false} FromFirstDifference(a: Bytes, b: Bytes, i: nat)
    requires i <= |a| && i <= |b| && a[..i] == b[..i]
    ensures Less(a, b) <==> Less(a[i..], b[i..])
    ensures a == b <==> a[i..] == b[i..]
  {
    if i == 0 {
      assert a[0..] == a && b[0..] == b;
    } else {
      assert a[0] == a[..i][0] == b[..i][0] == b[0];
      assert a[1..][..i - 1] == a[..i][1..] && b[1..][..i - 1] == b[..i][1..];
      FromFirstDifference(a[1..], b[1..], i - 1);
      assert a[1..][i - 1..] == a[i..] && b[1..][i - 1..] == b[i..];
      assert a == [a[0]] + a[1..] && b == [b[0]] + b[1..];
    }
  }
}
