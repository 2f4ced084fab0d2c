/** Which bytes are a write batch, and which one (db/write_batch.cc: WriteBatch::Iterate): stated over the bytes and over where its
    items begin, whoever wrote them. */
module BatchBytes {
  import opened InternalKeys
  import opened LogFormat
  import opened Varints
  import opened VarintBytes
  import opened ItemStreams
  import opened WriteBatches

  /** The bytes from `p` up to `q` say `x`. */
  type Says<!T> = (Bytes, nat, nat, T) -> bool

  /** The items `xs` stand one behind the other, beginning at `cuts`. */
  ghost predicate Listed<T(!new)>(says: Says<T>, b: Bytes, xs: seq<T>, cuts: seq<nat>) {
    && |cuts| == |xs| + 1
    && forall i :: 0 <= i < |xs| ==> cuts[i] < cuts[i + 1] && says(b, cuts[i], cuts[i + 1], xs[i])
  }

  /** An item is read from exactly the bytes that say it. */
  ghost predicate ReadsExactly<T(!new)>(get: Get<T>, says: Says<T>, b: Bytes, limit: nat) {
    forall p: nat, q: nat, x: T :: p < limit ==> (get(b, p, limit) == Some(Item(x, q)) && p < q <= limit <==> p < q <= limit && says(b, p, q, x))
  }

  lemma {:induction false} WhereItemsBegin<T(!new)>(get: Get<T>, says: Says<T>, b: Bytes, p: nat, limit: nat) returns (cuts: seq<nat>)
    requires p <= limit && ReadsExactly(get, says, b, limit) && GetAll(get, b, p, limit).Some?
    ensures Listed(says, b, GetAll(get, b, p, limit).value, cuts) && cuts[0] == p && cuts[|cuts| - 1] == limit
    decreases limit - p
  {
    if p == limit {
      cuts := [p];
    } else {
      var r := get(b, p, limit).value;
      assert says(b, p, r.next, r.value);
      var rest := WhereItemsBegin(get, says, b, r.next, limit);
      cuts := [p] + rest;
    }
  }

  lemma {:induction false} ListedIsRead<T(!new)>(get: Get<T>, says: Says<T>, b: Bytes, limit: nat, xs: seq<T>, cuts: seq<nat>)
    requires ReadsExactly(get, says, b, limit) && Listed(says, b, xs, cuts) && cuts[|cuts| - 1] == limit
    ensures cuts[0] <= limit && GetAll(get, b, cuts[0], limit) == Some(xs)
    decreases xs
  {
    if xs != [] {
      ListedIsRead(get, says, b, limit, xs[1..], cuts[1..]);
      assert says(b, cuts[0], cuts[1], xs[0]);
      assert [xs[0]] + xs[1..] == xs;
    }
  }

  // ---------------------------------------------------------------- strings and operations

  /** A length of 32 bits in at most five bytes, and the string. */
  predicate SliceAt(b: Bytes, p: nat, q: nat, s: Bytes) {
    match p + |s| < q <= |b|
    case true => var m := q - |s|; Ends(b, p, m, m) && m - p <= 5 && Sum(b, p, m) % TWO32 == |s| && b[m..q] == s
    case false => false
  }

  lemma SliceExactly(b: Bytes, p: nat, limit: nat, s: Bytes, q: nat)
    requires limit <= |b|
    ensures GetSlice(b, p, limit) == Some(Item(s, q)) <==> q <= limit && SliceAt(b, p, q, s)
  {
    var n := GetVarint(b, p, limit, 5);
    if n.Some? { VarintExactly(b, p, limit, 5, n.value.value, n.value.next); }
    if q <= limit && SliceAt(b, p, q, s) {
      var m := q - |s|;
      VarintExactly(b, p, limit, 5, Sum(b, p, m), m);
    }
  }

  ghost predicate OpAt(b: Bytes, p: nat, q: nat, op: ByteOp) {
    match p < |b|
    case true =>
      (match op
       case ByteDelete(key) => b[p] == 0 && SliceAt(b, p + 1, q, key)
       case BytePut(key, value) => b[p] == 1 && exists m: nat :: SliceAt(b, p + 1, m, key) && SliceAt(b, m, q, value))
    case false => false
  }

  lemma OpExactly(b: Bytes, p: nat, limit: nat, op: ByteOp, q: nat)
    requires p < limit <= |b|
    ensures GetOp(b, p, limit) == Some(Item(op, q)) <==> q <= limit && OpAt(b, p, q, op)
  {
    if op.ByteDelete? { DeleteExactly(b, p, limit, op.key, q); } else { PutExactly(b, p, limit, op.key, op.value, q); }
  }

  lemma DeleteExactly(b: Bytes, p: nat, limit: nat, key: Bytes, q: nat)
    requires p < limit <= |b|
    ensures GetOp(b, p, limit) == Some(Item(ByteDelete(key), q)) <==> q <= limit && OpAt(b, p, q, ByteDelete(key))
  {
    SliceExactly(b, p + 1, limit, key, q);
  }

  lemma PutExactly(b: Bytes, p: nat, limit: nat, key: Bytes, value: Bytes, q: nat)
    requires p < limit <= |b|
    ensures GetOp(b, p, limit) == Some(Item(BytePut(key, value), q)) <==> q <= limit && OpAt(b, p, q, BytePut(key, value))
  {
    PutSplits(b, p, p + 1, limit, key, value, q);
    BothSlices(b, p + 1, limit, key, value, q);
  }

  /** Two strings are read one after the other. */
  predicate Slices(b: Bytes, p: nat, m: nat, limit: nat, key: Bytes, value: Bytes, q: nat)
    requires limit <= |b|
  {
    GetSlice(b, p, limit) == Some(Item(key, m)) && GetSlice(b, m, limit) == Some(Item(value, q))
  }

  lemma BothSlices(b: Bytes, p: nat, limit: nat, key: Bytes, value: Bytes, q: nat)
    requires limit <= |b|
    ensures (exists m: nat :: Slices(b, p, m, limit, key, value, q))
            <==> q <= limit && exists m: nat :: SliceAt(b, p, m, key) && SliceAt(b, m, q, value)
  {
    forall m: nat ensures Slices(b, p, m, limit, key, value, q) <==> q <= limit && SliceAt(b, p, m, key) && SliceAt(b, m, q, value) {
      SlicesExactly(b, p, m, limit, key, value, q);
    }
  }

  lemma PutSplits(b: Bytes, p: nat, next: nat, limit: nat, key: Bytes, value: Bytes, q: nat)
    requires p < limit <= |b| && next == p + 1
    ensures GetOp(b, p, limit) == Some(Item(BytePut(key, value), q)) <==> b[p] == 1 && exists m: nat :: Slices(b, next, m, limit, key, value, q)
  {
    var k := GetSlice(b, next, limit);
    assert k.Some? ==> (Slices(b, next, k.value.next, limit, key, value, q)
                        <==> k.value.value == key && GetSlice(b, k.value.next, limit) == Some(Item(value, q)));
  }

  lemma SlicesExactly(b: Bytes, p: nat, m: nat, limit: nat, key: Bytes, value: Bytes, q: nat)
    requires limit <= |b|
    ensures Slices(b, p, m, limit, key, value, q) <==> q <= limit && SliceAt(b, p, m, key) && SliceAt(b, m, q, value)
  {
    SliceExactly(b, p, limit, key, m);
    SliceExactly(b, m, limit, value, q);
    SliceFits(b, m, q, value);
  }

  lemma SliceFits(b: Bytes, m: nat, q: nat, s: Bytes)
    ensures SliceAt(b, m, q, s) ==> m <= q
  {
  }

  lemma OpsReadExactly(b: Bytes)
    ensures ReadsExactly(GetOp, OpAt, b, |b|)
  {
    forall p: nat, q: nat, op: ByteOp | p < |b|
      ensures GetOp(b, p, |b|) == Some(Item(op, q)) && p < q <= |b| <==> p < q <= |b| && OpAt(b, p, q, op)
    {
      OpExactly(b, p, |b|, op, q);
    }
  }

  // ---------------------------------------------------------------- whole batches

  /** The bytes are a header and the batch's operations, one behind the other up to the end and as many as the header says. */
  ghost predicate BatchAt(rep: Bytes, batch: ByteBatch, cuts: seq<nat>) {
    && Listed(OpAt, rep, batch.ops, cuts) && cuts[0] == BATCH_HEADER && cuts[|cuts| - 1] == |rep|
    && |rep| >= BATCH_HEADER && DecodeFixed(rep[..8]) == batch.first && DecodeFixed(rep[8..BATCH_HEADER]) == |batch.ops|
  }

  /** Bytes are accepted as a batch exactly if they are laid out as one, and as that one. */
  lemma BatchExactly(rep: Bytes, batch: ByteBatch)
    ensures DecodeBatch(rep) == Some(batch) <==> exists cuts :: BatchAt(rep, batch, cuts)
  {
    OpsReadExactly(rep);
    if DecodeBatch(rep) == Some(batch) {
      var cuts := WhereItemsBegin(GetOp, OpAt, rep, BATCH_HEADER, |rep|);
      assert BatchAt(rep, batch, cuts);
    }
    if cuts :| BatchAt(rep, batch, cuts) { ListedIsRead(GetOp, OpAt, rep, |rep|, batch.ops, cuts); }
  }
}
