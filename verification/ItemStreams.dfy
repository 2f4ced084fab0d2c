/** Byte strings that hold one item after the other, and length-prefixed strings (util/coding.cc). */
module ItemStreams {
  import opened InternalKeys
  import opened Framing
  import opened LogFormat
  import opened Varints

  datatype Item<T> = Item(value: T, next: nat)

  /** How an item is written, and how one is read from the bytes between a position and a limit. */
  type Put<!T> = T -> Bytes
  type Get<!T> = (Bytes, nat, nat) -> Option<Item<T>>

  function PutAll<T>(put: Put<T>, xs: seq<T>): Bytes {
    if xs == [] then [] else put(xs[0]) + PutAll(put, xs[1..])
  }

  /** All items up to the limit; none if one is malformed. */
  function GetAll<T>(get: Get<T>, b: Bytes, p: nat, limit: nat): Option<seq<T>>
    decreases limit - p
  {
    if p >= limit then Some([])
    else
      var r := get(b, p, limit);
      if r.None? || !(p < r.value.next <= limit) then None
      else
        var rest := GetAll(get, b, r.value.next, limit);
        if rest.None? then None else Some([r.value.value] + rest.value)
  }

  /** Wherever the item stands, reading gives it back and ends behind it. */
  ghost predicate ReadsBack<T(!new)>(put: Put<T>, get: Get<T>, x: T) {
    put(x) != [] && forall b: Bytes, p: nat, limit: nat :: ReadsBackAt(put, get, x, b, p, limit)
  }

  predicate ReadsBackAt<T(==)>(put: Put<T>, get: Get<T>, x: T, b: Bytes, p: nat, limit: nat) {
    At(b, p, put(x)) && p + |put(x)| <= limit <= |b| ==> get(b, p, limit) == Some(Item(x, p + |put(x)|))
  }

  lemma {:induction false} AllRead<T(!new)>(put: Put<T>, get: Get<T>, xs: seq<T>, b: Bytes, p: nat, limit: nat)
    requires (forall x :: x in xs ==> ReadsBack(put, get, x)) && At(b, p, PutAll(put, xs)) && p + |PutAll(put, xs)| == limit <= |b|
    ensures GetAll(get, b, p, limit) == Some(xs)
  {
    if xs != [] {
      var x, rest := xs[0], PutAll(put, xs[1..]);
      assert ReadsBack(put, get, x) && ReadsBackAt(put, get, x, b, p, limit);
      AtParts(b, p, put(x), rest);
      AllRead(put, get, xs[1..], b, p + |put(x)|, limit);
      assert [x] + xs[1..] == xs;
    }
  }

  /** One item of each sort, in order. */
  function GetEach<S, T>(get: S -> Get<T>, sorts: seq<S>, b: Bytes, p: nat, limit: nat): Option<Item<seq<T>>> {
    if sorts == [] then Some(Item([], p))
    else
      var first := get(sorts[0])(b, p, limit);
      if first.None? then None else Led(first.value.value, GetEach(get, sorts[1..], b, first.value.next, limit))
  }

  function Led<T>(x: T, rest: Option<Item<seq<T>>>): Option<Item<seq<T>>> {
    if rest.None? then None else Some(Item([x] + rest.value.value, rest.value.next))
  }

  lemma {:induction false} EachReads<S, T(!new)>(put: Put<T>, get: S -> Get<T>, sorts: seq<S>, xs: seq<T>, b: Bytes, p: nat, limit: nat)
    requires |sorts| == |xs| && forall i :: 0 <= i < |xs| ==> ReadsBack(put, get(sorts[i]), xs[i])
    requires At(b, p, PutAll(put, xs)) && p + |PutAll(put, xs)| <= limit <= |b|
    ensures GetEach(get, sorts, b, p, limit) == Some(Item(xs, p + |PutAll(put, xs)|))
  {
    if xs != [] {
      var x, rest := xs[0], PutAll(put, xs[1..]);
      AtParts(b, p, put(x), rest);
      assert ReadsBack(put, get(sorts[0]), x) && ReadsBackAt(put, get(sorts[0]), x, b, p, limit);
      EachReads(put, get, sorts[1..], xs[1..], b, p + |put(x)|, limit);
      assert [x] + xs[1..] == xs;
    }
  }

  lemma {:induction false} PutConcat<T>(put: Put<T>, xs: seq<T>, ys: seq<T>)
    ensures PutAll(put, xs + ys) == PutAll(put, xs) + PutAll(put, ys)
  {
    if xs == [] {
      assert xs + ys == ys;
    } else {
      PutConcat(put, xs[1..], ys);
      assert (xs + ys)[1..] == xs[1..] + ys;
      Assoc(put(xs[0]), PutAll(put, xs[1..]), PutAll(put, ys));
    }
  }

  lemma PutOne<T>(put: Put<T>, x: T)
    ensures PutAll(put, [x]) == put(x)
  {
    assert [x][1..] == [];
  }

  /** Items already read, and those still to be read. */
  function Prefixed<T>(xs: seq<T>, rest: Option<seq<T>>): Option<seq<T>> {
    if rest.None? then None else Some(xs + rest.value)
  }

  lemma PrefixedMore<T>(xs: seq<T>, x: T, rest: Option<seq<T>>)
    ensures Prefixed(xs, Prefixed([x], rest)) == Prefixed(xs + [x], rest)
  {
    if rest.Some? { assert xs + ([x] + rest.value) == xs + [x] + rest.value; }
  }

  /** One item more of those already read. */
  lemma NextRead<T>(get: Get<T>, b: Bytes, p: nat, limit: nat, done: seq<T>, x: T, next: nat)
    requires p < next <= limit && get(b, p, limit) == Some(Item(x, next))
    ensures Prefixed(done, GetAll(get, b, p, limit)) == Prefixed(done + [x], GetAll(get, b, next, limit))
  {
    PrefixedMore(done, x, GetAll(get, b, next, limit));
  }

  lemma PrefixedNone<T>(rest: Option<seq<T>>)
    ensures Prefixed([], rest) == rest
  {
    if rest.Some? { assert [] + rest.value == rest.value; }
  }

  // ---------------------------------------------------------------- numbers and strings

  function PutSlice(s: Bytes): Bytes { EncodeVarint(|s|) + s }

  /** A 32-bit length and as many bytes (GetLengthPrefixedSlice). */
  function GetSlice(b: Bytes, p: nat, limit: nat): (r: Option<Item<Bytes>>)
    requires limit <= |b|
    ensures r.Some? ==> p < r.value.next <= limit && |r.value.value| < TWO32
  {
    var n := GetVarint(b, p, limit, 5);
    if n.None? || n.value.next + n.value.value % TWO32 > limit then None
    else
      var end := n.value.next + n.value.value % TWO32;
      Some(Item(b[n.value.next..end], end))
  }

  lemma SliceReads(b: Bytes, p: nat, limit: nat, s: Bytes)
    requires At(b, p, PutSlice(s)) && p + |PutSlice(s)| <= limit <= |b| && |s| < TWO32
    ensures GetSlice(b, p, limit) == Some(Item(s, p + |PutSlice(s)|))
  {
    VarintRanges();
    AtParts(b, p, EncodeVarint(|s|), s);
    GetEncoded(b, p, limit, 5, |s|);
    var q := p + |EncodeVarint(|s|)|;
    assert b[q..q + |s|] == s;
  }
}
