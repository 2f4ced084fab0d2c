/** The bytes of a write batch (db/write_batch.cc): a header with the first sequence number and the number of operations, then one item
    for each operation. A batch is what one log record holds. */
module WriteBatches {
  import opened InternalKeys
  import opened Bytewise
  import opened Framing
  import opened LogFormat
  import opened LogRoundTrip
  import opened Varints
  import opened ItemStreams
  import Disk

  const BATCH_HEADER: nat := 12

  datatype ByteOp = BytePut(key: Bytes, value: Bytes) | ByteDelete(key: Bytes)

  datatype ByteBatch = ByteBatch(first: nat, ops: seq<ByteOp>)

  predicate OpFits(op: ByteOp) {
    |op.key| < TWO32 && (op.BytePut? ==> |op.value| < TWO32)
  }

  predicate BatchFits(b: ByteBatch) {
    b.first < Pow256(8) && |b.ops| < TWO32 && forall op :: op in b.ops ==> OpFits(op)
  }

  // ---------------------------------------------------------------- one operation

  function PutOp(op: ByteOp): Bytes {
    match op
    case BytePut(key, value) => [1] + (PutSlice(key) + PutSlice(value))
    case ByteDelete(key) => [0] + PutSlice(key)
  }

  function GetOp(b: Bytes, p: nat, limit: nat): Option<Item<ByteOp>> {
    if !(p < limit <= |b|) then None
    else
      var key := GetSlice(b, p + 1, limit);
      if key.None? || b[p] > 1 then None
      else if b[p] == 0 then Some(Item(ByteDelete(key.value.value), key.value.next))
      else
        var value := GetSlice(b, key.value.next, limit);
        if value.None? then None else Some(Item(BytePut(key.value.value, value.value.value), value.value.next))
  }

  lemma PutReads(key: Bytes, value: Bytes, b: Bytes, p: nat, limit: nat)
    requires |key| < TWO32 && |value| < TWO32
    requires At(b, p, [1] + (PutSlice(key) + PutSlice(value))) && p + 1 + |PutSlice(key) + PutSlice(value)| <= limit <= |b|
    ensures GetOp(b, p, limit) == Some(Item(BytePut(key, value), p + 1 + |PutSlice(key) + PutSlice(value)|))
  {
    AtFirst(b, p, 1, PutSlice(key) + PutSlice(value));
    AtParts(b, p + 1, PutSlice(key), PutSlice(value));
    SliceReads(b, p + 1, limit, key);
    SliceReads(b, p + 1 + |PutSlice(key)|, limit, value);
  }

  lemma DeleteReads(key: Bytes, b: Bytes, p: nat, limit: nat)
    requires |key| < TWO32 && At(b, p, [0] + PutSlice(key)) && p + 1 + |PutSlice(key)| <= limit <= |b|
    ensures GetOp(b, p, limit) == Some(Item(ByteDelete(key), p + 1 + |PutSlice(key)|))
  {
    AtFirst(b, p, 0, PutSlice(key));
    SliceReads(b, p + 1, limit, key);
  }

  lemma OpReads(op: ByteOp)
    requires OpFits(op)
    ensures ReadsBack(PutOp, GetOp, op)
  {
    forall b: Bytes, p: nat, limit: nat ensures ReadsBackAt(PutOp, GetOp, op, b, p, limit) {
      if At(b, p, PutOp(op)) && p + |PutOp(op)| <= limit <= |b| {
        match op
        case BytePut(key, value) => PutReads(key, value, b, p, limit);
        case ByteDelete(key) => DeleteReads(key, b, p, limit);
      }
    }
  }

  // ---------------------------------------------------------------- whole batches

  function EncodeBatch(b: ByteBatch): Bytes {
    EncodeFixed(b.first, 8) + EncodeFixed(|b.ops|, 4) + PutAll(PutOp, b.ops)
  }

  /** The operations, if the items are well formed and as many as the header says. */
  function DecodeBatch(rep: Bytes): Option<ByteBatch> {
    if |rep| < BATCH_HEADER then None
    else
      var ops := GetAll(GetOp, rep, BATCH_HEADER, |rep|);
      if ops.None? || |ops.value| != DecodeFixed(rep[8..BATCH_HEADER]) then None
      else Some(ByteBatch(DecodeFixed(rep[..8]), ops.value))
  }

  lemma HeaderParts(first: nat, count: nat, items: Bytes)
    ensures var rep := EncodeFixed(first, 8) + EncodeFixed(count, 4) + items;
            |rep| == BATCH_HEADER + |items| && rep[..8] == EncodeFixed(first, 8) && rep[8..BATCH_HEADER] == EncodeFixed(count, 4) && rep[BATCH_HEADER..] == items
  {
  }

  /** Every batch reads back from its bytes. */
  lemma BatchReads(b: ByteBatch)
    requires BatchFits(b)
    ensures DecodeBatch(EncodeBatch(b)) == Some(b)
  {
    var items, rep := PutAll(PutOp, b.ops), EncodeBatch(b);
    HeaderParts(b.first, |b.ops|, items);
    FixedRanges();
    DecodeEncodeFixed(b.first, 8);
    DecodeEncodeFixed(|b.ops|, 4);
    forall op | op in b.ops ensures ReadsBack(PutOp, GetOp, op) { OpReads(op); }
    assert rep[BATCH_HEADER..BATCH_HEADER + |items|] == items;
    AllRead(PutOp, GetOp, b.ops, rep, BATCH_HEADER, |rep|);
  }

  /** A batch under construction: operations are appended and the count in the header is patched. */
  class WriteBatch {
    var rep: Bytes
    ghost var batch: ByteBatch

    ghost predicate Valid()
      reads this
    {
      rep == EncodeBatch(batch) && BatchFits(batch)
    }

    constructor ()
      ensures Valid() && batch == ByteBatch(0, [])
    {
      rep, batch := seq(BATCH_HEADER, _ => 0), ByteBatch(0, []);
      new;
      EmptyHeader();
    }

    method Count() returns (n: nat)
      requires Valid()
      ensures n == |batch.ops|
    {
      HeaderParts(batch.first, |batch.ops|, PutAll(PutOp, batch.ops));
      FixedRanges();
      DecodeEncodeFixed(|batch.ops|, 4);
      n := DecodeFixed(rep[8..BATCH_HEADER]);
    }

    method SetSequence(first: nat)
      requires Valid() && first < Pow256(8)
      modifies this
      ensures Valid() && batch == old(batch).(first := first)
    {
      HeaderParts(batch.first, |batch.ops|, PutAll(PutOp, batch.ops));
      rep := EncodeFixed(first, 8) + rep[8..BATCH_HEADER] + rep[BATCH_HEADER..];
      batch := batch.(first := first);
    }

    /** Put and Delete. */
    method Add(op: ByteOp)
      requires Valid() && OpFits(op) && |batch.ops| + 1 < TWO32
      modifies this
      ensures Valid() && batch == old(batch).(ops := old(batch.ops) + [op])
    {
      var n := Count();
      HeaderParts(batch.first, |batch.ops|, PutAll(PutOp, batch.ops));
      PutConcat(PutOp, batch.ops, [op]);
      PutOne(PutOp, op);
      rep := rep[..8] + EncodeFixed(n + 1, 4) + (rep[BATCH_HEADER..] + PutOp(op));
      batch := batch.(ops := batch.ops + [op]);
    }

    /** Append the operations of another batch. */
    method Append(source: WriteBatch)
      requires Valid() && source.Valid() && |batch.ops| + |source.batch.ops| < TWO32
      modifies this
      ensures Valid() && batch == old(batch).(ops := old(batch.ops) + old(source.batch.ops))
    {
      var n := Count();
      var more := source.Count();
      HeaderParts(batch.first, |batch.ops|, PutAll(PutOp, batch.ops));
      HeaderParts(source.batch.first, |source.batch.ops|, PutAll(PutOp, source.batch.ops));
      PutConcat(PutOp, batch.ops, source.batch.ops);
      rep, batch := rep[..8] + EncodeFixed(n + more, 4) + (rep[BATCH_HEADER..] + source.rep[BATCH_HEADER..]),
                    batch.(ops := batch.ops + source.batch.ops);
    }
  }

  lemma EmptyHeader()
    ensures seq(BATCH_HEADER, _ => 0) == EncodeBatch(ByteBatch(0, [])) && BatchFits(ByteBatch(0, []))
  {
    var rep: Bytes := seq(BATCH_HEADER, _ => 0);
    ZeroFixed(8);
    ZeroFixed(4);
    assert EncodeFixed(0, 8) + EncodeFixed(0, 4) + [] == rep;
    assert Pow256(8) == 256 * Pow256(7) && Pow256(0) == 1;
    PowPositive(8);
  }

  lemma {:induction false} ZeroFixed(n: nat)
    ensures EncodeFixed(0, n) == seq(n, _ => 0)
  {
    if n > 0 { ZeroFixed(n - 1); }
  }

  lemma {:induction false} PowPositive(n: nat)
    ensures Pow256(n) > 0
  {
    if n > 0 { PowPositive(n - 1); }
  }

  /** Call the handler for each operation: here, list the operations (Iterate). */
  method Iterate(rep: Bytes) returns (r: Option<ByteBatch>)
    ensures r == DecodeBatch(rep)
  {
    if |rep| < BATCH_HEADER {
      return None;
    }
    var p, ops := BATCH_HEADER, [];
    PrefixedNone(GetAll(GetOp, rep, p, |rep|));
    while p < |rep|
      invariant BATCH_HEADER <= p <= |rep|
      invariant GetAll(GetOp, rep, BATCH_HEADER, |rep|) == Prefixed(ops, GetAll(GetOp, rep, p, |rep|))
      decreases |rep| - p
    {
      var op := GetOp(rep, p, |rep|);
      if op.None? {
        return None;
      }
      assert p < op.value.next <= |rep|;
      PrefixedMore(ops, op.value.value, GetAll(GetOp, rep, op.value.next, |rep|));
      p, ops := op.value.next, ops + [op.value.value];
    }
    assert ops + [] == ops;
    r := if |ops| != DecodeFixed(rep[8..BATCH_HEADER]) then None else Some(ByteBatch(DecodeFixed(rep[..8]), ops));
  }

  // ---------------------------------------------------------------- a log of batches

  /** The batch as the store sees it: user keys in the order of the comparator. */
  function Ranked(op: ByteOp): Disk.Op {
    match op
    case BytePut(key, value) => Disk.Put(Rank(key), value)
    case ByteDelete(key) => Disk.Delete(Rank(key))
  }

  function AsStored(b: ByteBatch): Disk.Batch {
    Disk.Batch(b.first, seq(|b.ops|, i requires 0 <= i < |b.ops| => Ranked(b.ops[i])))
  }

  function Stored(bs: seq<ByteBatch>): seq<Disk.Batch> {
    seq(|bs|, i requires 0 <= i < |bs| => AsStored(bs[i]))
  }

  function Records(bs: seq<ByteBatch>): (rs: seq<Bytes>)
    ensures |rs| == |bs|
  {
    seq(|bs|, i requires 0 <= i < |bs| => EncodeBatch(bs[i]))
  }

  /** Write batches to a log, lose the end of the file at any byte, read what is left and parse it: exactly the batches whose records lie
      wholly before the cut come back, so that the store's log has lost its last records and nothing else. */
  method WriteTearReplay(crc: Crc, batches: seq<ByteBatch>, cut: nat) returns (replayed: seq<ByteBatch>)
    requires (forall b :: b in batches ==> BatchFits(b)) && cut <= |Laid(Framer(crc), Records(batches), 0)|
    ensures var k := WholeRecords(Framer(crc), Records(batches), 0, cut);
            replayed == batches[..k] && Stored(replayed) == Stored(batches)[..k]
  {
    var records, drops := WriteTearRead(crc, Records(batches), cut);
    ghost var k := WholeRecords(Framer(crc), Records(batches), 0, cut);
    replayed := [];
    for i := 0 to |records|
      invariant replayed == batches[..i]
    {
      assert batches[i] in batches && records[i] == EncodeBatch(batches[i]);
      BatchReads(batches[i]);
      var b := Iterate(records[i]);
      replayed := replayed + [b.value];
    }
    StoredPrefix(batches, k);
  }

  lemma StoredPrefix(batches: seq<ByteBatch>, k: nat)
    requires k <= |batches|
    ensures Stored(batches[..k]) == Stored(batches)[..k]
  {
  }
}
