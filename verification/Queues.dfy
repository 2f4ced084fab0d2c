/** Linked lists as sequences: membership, removal, distinctness. */
module Queues {

  predicate Distinct<T(==)>(q: seq<T>) {
    forall i, j :: 0 <= i < j < |q| ==> q[i] != q[j]
  }

  /** The queue with the first occurrence of `x` taken out. */
  function Without<T(==,!new)>(q: seq<T>, x: T): (r: seq<T>)
    ensures |r| == |q| - if x in q then 1 else 0
    ensures forall y :: y != x ==> (y in r <==> y in q)
    ensures Distinct(q) ==> x !in r
  {
    if q == [] then []
    else if q[0] == x then
      assert q == [q[0]] + q[1..];
      q[1..]
    else
      assert q == [q[0]] + q[1..];
      [q[0]] + Without(q[1..], x)
  }

  lemma {:induction false} WithoutDistinct<T(!new)>(q: seq<T>, x: T)
    requires Distinct(q)
    ensures Distinct(Without(q, x))
  {
    if q != [] && q[0] != x {
      WithoutDistinct(q[1..], x);
      assert q[0] !in q[1..];
    }
  }

  lemma AppendDistinct<T>(q: seq<T>, x: T)
    requires Distinct(q) && x !in q
    ensures Distinct(q + [x])
  {
  }

  lemma TailDistinct<T(!new)>(q: seq<T>)
    requires Distinct(q) && q != []
    ensures Distinct(q[1..]) && q[0] !in q[1..]
    ensures forall y :: y in q <==> y == q[0] || y in q[1..]
  {
    assert q == [q[0]] + q[1..];
  }

  // ---------------------------------------------------------------- order

  /** `a` is ahead of `b`. */
  ghost predicate Ahead<T(!new)>(q: seq<T>, a: T, b: T) {
    exists i, j :: 0 <= i < j < |q| && q[i] == a && q[j] == b
  }

  lemma {:induction false} WithoutAt<T(!new)>(q: seq<T>, x: T) returns (k: nat)
    ensures x in q ==> k < |q| && q[k] == x && Without(q, x) == q[..k] + q[k + 1..]
    ensures x !in q ==> Without(q, x) == q
  {
    k := 0;
    if q != [] && q[0] != x {
      assert q == [q[0]] + q[1..];
      var m := WithoutAt(q[1..], x);
      k := m + 1;
      if x in q { assert q[1..][..m] + q[1..][m + 1..] == q[1..k] + q[k + 1..] && [q[0]] + q[1..k] == q[..k]; }
    }
  }

  /** Removal keeps the order of the others. */
  lemma {:induction false} WithoutAhead<T(!new)>(q: seq<T>, x: T, a: T, b: T)
    ensures Ahead(Without(q, x), a, b) ==> Ahead(q, a, b)
    ensures Ahead(q, a, b) && a != x && b != x ==> Ahead(Without(q, x), a, b)
  {
    var k := WithoutAt(q, x);
    var r := Without(q, x);
    if x in q {
      if i, j :| 0 <= i < j < |r| && r[i] == a && r[j] == b {
        assert q[if i < k then i else i + 1] == a && q[if j < k then j else j + 1] == b;
      }
      if i, j :| 0 <= i < j < |q| && q[i] == a && q[j] == b {
        if a != x && b != x { assert r[if i < k then i else i - 1] == a && r[if j < k then j else j - 1] == b; }
      }
    }
  }

  lemma {:induction false} TailAhead<T(!new)>(q: seq<T>, k: nat, a: T, b: T)
    requires k <= |q|
    ensures Ahead(q[k..], a, b) ==> Ahead(q, a, b)
    ensures Ahead(q, a, b) && a !in q[..k] ==> Ahead(q[k..], a, b)
  {
    if i, j :| 0 <= i < j < |q[k..]| && q[k..][i] == a && q[k..][j] == b {
      assert q[k + i] == a && q[k + j] == b;
    }
    if i, j :| 0 <= i < j < |q| && q[i] == a && q[j] == b {
      if a !in q[..k] {
        assert forall m :: 0 <= m < k ==> q[m] == q[..k][m] && q[..k][m] in q[..k];
        assert q[k..][i - k] == a && q[k..][j - k] == b;
      }
    }
  }

  lemma {:induction false} AppendAhead<T(!new)>(q: seq<T>, x: T, a: T, b: T)
    ensures Ahead(q, a, b) || (b == x && a in q) ==> Ahead(q + [x], a, b)
    ensures Ahead(q + [x], a, b) ==> Ahead(q, a, b) || (b == x && a in q)
  {
    var r := q + [x];
    if i, j :| 0 <= i < j < |q| && q[i] == a && q[j] == b {
      assert r[i] == a && r[j] == b;
    }
    if b == x && a in q {
      var i :| 0 <= i < |q| && q[i] == a;
      assert r[i] == a && r[|q|] == b;
    }
  }

  /** What is no longer in the rest of a list was ahead of all that still is. */
  lemma {:induction false} GoneIsAhead<T(!new)>(q: seq<T>, k: nat, a: T, b: T)
    requires k <= |q| && a in q && a !in q[k..] && b in q[k..]
    ensures Ahead(q, a, b) && a in q[..k]
  {
    assert q == q[..k] + q[k..];
    var i :| 0 <= i < k && q[..k][i] == a;
    var j :| 0 <= j < |q[k..]| && q[k..][j] == b;
    assert q[i] == a && q[k + j] == b;
  }
}
