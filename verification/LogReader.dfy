/** Reading a framed log back (db/log_reader.cc), from offset 0. */
module LogReader {
  import opened InternalKeys
  import opened Framing
  import opened LogFormat

  // ---------------------------------------------------------------- what the reader computes

  datatype PhysicalResult = Record(kind: byte, data: Bytes) | EndOfFile | Bad

  /** A result, the position after it, and the sizes of the drops reported on the way. */
  datatype Scan = Scan(result: PhysicalResult, next: nat, drops: seq<nat>)

  function BlockEnd(file: Bytes, p: nat): nat { Min(|file|, BlockStart(p) + BLOCK) }

  /** Where the next header can be: a block's last few bytes are a trailer. */
  function HeaderAt(p: nat): nat {
    if BLOCK - Off(p) < HEADER then BlockStart(p) + BLOCK else p
  }

  function LengthOf(block: Bytes): nat
    requires HEADER <= |block|
  {
    DecodeFixed(block[4..6])
  }

  predicate ChecksumOk(crc: Crc, block: Bytes)
    requires HEADER <= |block| && HEADER + LengthOf(block) <= |block|
  {
    DecodeFixed(block[..4]) < TWO32 && Unmask(DecodeFixed(block[..4])) == crc(block[6..HEADER + LengthOf(block)])
  }

  /** What the rest of a block starts with, how many of its bytes that takes, and the drops reported. */
  datatype Parsed = Parsed(result: PhysicalResult, used: nat, drops: seq<nat>)

  /** Parse the rest of a block. A record that sticks out is an error in a full block, but the normal end of a torn file. */
  function Parse(crc: Crc, block: Bytes, full: bool): (r: Parsed)
    requires HEADER <= |block|
    ensures 0 < r.used <= |block| && (r.result.EndOfFile? ==> r.drops == [] && r.used == |block|)
  {
    var n := HEADER + LengthOf(block);
    if n > |block| then
      if full then Parsed(Bad, |block|, [|block|]) else Parsed(EndOfFile, |block|, [])
    else if block[6] == 0 && n == HEADER then Parsed(Bad, |block|, [])
    else if !ChecksumOk(crc, block) then Parsed(Bad, |block|, [|block|])
    else Parsed(Record(block[6], block[HEADER..n]), n, [])
  }

  /** The physical record at or after position `p`. */
  function PhysicalAt(crc: Crc, file: Bytes, p: nat): (s: Scan)
    requires p <= |file|
    ensures s.result.EndOfFile? ==> s.drops == []
    ensures s.next <= |file| && (s.result.EndOfFile? || p < s.next)
  {
    var q := HeaderAt(p);
    var end := BlockEnd(file, q);
    if |file| < q || end - q < HEADER then Scan(EndOfFile, |file|, [])
    else
      var r := Parse(crc, file[q..end], end == BlockStart(q) + BLOCK);
      Scan(r.result, q + r.used, r.drops)
  }

  /** What one physical record does to the record being put together. */
  datatype Progress = Done(record: Option<Bytes>, drops: seq<nat>) | More(fragmented: bool, scratch: Bytes, drops: seq<nat>)

  /** A started record that is given up is reported, unless nothing of it was there. */
  function Abandon(fragmented: bool, scratch: Bytes): seq<nat> {
    if fragmented && scratch != [] then [|scratch|] else []
  }

  function Take(result: PhysicalResult, fragmented: bool, scratch: Bytes): Progress {
    match result
    case EndOfFile => Done(None, [])
    case Bad => if fragmented then More(false, [], [|scratch|]) else More(false, scratch, [])
    case Record(kind, data) =>
      if kind == FULL then Done(Some(data), Abandon(fragmented, scratch))
      else if kind == FIRST then More(true, data, Abandon(fragmented, scratch))
      else if kind == MIDDLE then
        if fragmented then More(true, scratch + data, []) else More(false, scratch, [|data|])
      else if kind == LAST then
        if fragmented then Done(Some(scratch + data), []) else More(false, scratch, [|data|])
      else More(false, [], [|data| + if fragmented then |scratch| else 0])
  }

  /** `r` with earlier drops before its own. */
  function After(drops: seq<nat>, r: Logical): Logical {
    Logical(r.record, r.next, drops + r.drops)
  }

  /** The next whole record from position `p`, given the fragments collected so far. */
  function RecordFrom(crc: Crc, file: Bytes, p: nat, fragmented: bool, scratch: Bytes): (r: Logical)
    requires p <= |file|
    ensures r.next <= |file| && (r.record.Some? ==> p < r.next)
    decreases |file| - p
  {
    var s := PhysicalAt(crc, file, p);
    match Take(s.result, fragmented, scratch)
    case Done(record, drops) => Logical(record, s.next, s.drops + drops)
    case More(fragmented', scratch', drops) => After(s.drops + drops, RecordFrom(crc, file, s.next, fragmented', scratch'))
  }

  /** The reading step of ReadRecord. */
  function NextRecord(crc: Crc): Step {
    (file: Bytes, p: nat) => if p <= |file| then RecordFrom(crc, file, p, false, []) else Logical(None, p, [])
  }

  // ---------------------------------------------------------------- the reader

  class Reader {
    const crc: Crc
    const file: Bytes
    var pos: nat          // bytes read from the file so far
    var buffer: Bytes     // the unread end of the last block read
    var eof: bool
    var drops: seq<nat>

    constructor (crc: Crc, file: Bytes)
      ensures Valid() && this.crc == crc && this.file == file && At() == 0 && drops == []
    {
      this.crc, this.file := crc, file;
      pos, buffer, eof, drops := 0, [], false, [];
    }

    ghost predicate Valid()
      reads this
    {
      && |buffer| <= pos <= |file| && buffer == file[pos - |buffer|..pos]
      && (if eof then pos == |file| && |buffer| <= Off(|file|) else Off(pos) == 0 && |buffer| <= BLOCK)
    }

    /** Position of the first unread byte. */
    ghost function At(): nat
      requires Valid()
      reads this
    {
      pos - |buffer|
    }

    /** Read the next block; a short read means the end of the file. */
    method Refill()
      requires Valid() && !eof && |buffer| < HEADER
      modifies this
      ensures Valid() && drops == old(drops)
      ensures At() == old(pos) && (pos > old(pos) || eof)
    {
      var n := Min(BLOCK, |file| - pos);
      buffer := file[pos..pos + n];
      ShortRead(pos, |file|, n);
      pos := pos + n;
      if n < BLOCK {
        eof := true;
      }
    }

    /** Read the next physical record, refilling the buffer as needed. */
    method ReadPhysicalRecord() returns (result: PhysicalResult)
      requires Valid()
      modifies this
      ensures Valid()
      ensures var s := PhysicalAt(crc, file, old(At())); result == s.result && At() == s.next && drops == old(drops) + s.drops
    {
      while |buffer| < HEADER
        invariant Valid() && drops == old(drops)
        invariant PhysicalAt(crc, file, At()) == PhysicalAt(crc, file, old(At()))
        decreases !eof, |file| - pos
      {
        if eof {
          AtTheEnd(crc, file, At());
          buffer := [];
          return EndOfFile;
        }
        TrailerSkipped(crc, file, At(), pos);
        Refill();
      }
      BufferedScan(crc, file, At(), pos, buffer, eof);
      result := ParseBuffer();
    }

    /** Parse the header at the front of the buffer and take the record it describes. */
    method ParseBuffer() returns (result: PhysicalResult)
      requires Valid() && HEADER <= |buffer|
      modifies this
      ensures Valid()
      ensures var r := Parse(crc, old(buffer), !old(eof));
              result == r.result && At() == old(At()) + r.used && drops == old(drops) + r.drops
    {
      var size, length := |buffer|, LengthOf(buffer);
      if HEADER + length > size {
        buffer := [];
        if !eof {
          drops := drops + [size];
          return Bad;
        }
        return EndOfFile;
      }
      if buffer[6] == 0 && length == 0 {
        buffer := [];
        return Bad;
      }
      if !ChecksumOk(crc, buffer) {
        buffer := [];
        drops := drops + [size];
        return Bad;
      }
      result := Record(buffer[6], buffer[HEADER..HEADER + length]);
      buffer := buffer[HEADER + length..];
    }
  }

  /** The bytes just before a block boundary belong to the block before it. */
  lemma {:induction false} BeforeBoundary(p: nat, pos: nat)
    requires p < pos <= p + BLOCK && Off(pos) == 0
    ensures BlockStart(p) == pos - BLOCK
    decreases pos
  {
    assert pos >= BLOCK && BlockStart(pos) == BLOCK + BlockStart(pos - BLOCK);
    if p >= BLOCK { BeforeBoundary(p - BLOCK, pos - BLOCK); }
  }

  lemma TrailerSkipped(crc: Crc, file: Bytes, p: nat, pos: nat)
    requires p <= pos <= |file| && Off(pos) == 0 && pos - p < HEADER
    ensures PhysicalAt(crc, file, p) == PhysicalAt(crc, file, pos)
  {
    if p < pos { BeforeBoundary(p, pos); }
  }

  lemma ShortRead(pos: nat, len: nat, n: nat)
    requires Off(pos) == 0 && pos <= len && n == Min(BLOCK, len - pos)
    ensures n < BLOCK ==> Off(len) == n
    ensures n == BLOCK ==> Off(pos + n) == 0
  {
    if n < BLOCK { SameBlock(pos, len); } else { NextBlock(pos); }
  }

  /** Fewer bytes than a header are left in the last, partial block. */
  lemma AtTheEnd(crc: Crc, file: Bytes, p: nat)
    requires p <= |file| && |file| - p < HEADER && |file| - p <= Off(|file|)
    ensures PhysicalAt(crc, file, p) == Scan(EndOfFile, |file|, [])
  {
    SameBlock(|file|, p);
  }

  /** With a whole header buffered, the buffer is the rest of the block that the scan looks at. */
  lemma BufferedHeader(file: Bytes, p: nat, pos: nat, buffer: Bytes, eof: bool)
    requires p + |buffer| == pos <= |file| && buffer == file[p..pos] && HEADER <= |buffer|
    requires if eof then pos == |file| && |buffer| <= Off(|file|) else Off(pos) == 0 && |buffer| <= BLOCK
    ensures HeaderAt(p) == p && BlockEnd(file, p) == pos && (eof <==> pos != BlockStart(p) + BLOCK)
  {
    if eof { SameBlock(|file|, p); } else { BeforeBoundary(p, pos); }
  }

  lemma BufferedScan(crc: Crc, file: Bytes, p: nat, pos: nat, buffer: Bytes, eof: bool)
    requires p + |buffer| == pos <= |file| && buffer == file[p..pos] && HEADER <= |buffer|
    requires if eof then pos == |file| && |buffer| <= Off(|file|) else Off(pos) == 0 && |buffer| <= BLOCK
    ensures PhysicalAt(crc, file, p) == var r := Parse(crc, buffer, !eof); Scan(r.result, p + r.used, r.drops)
  {
    BufferedHeader(file, p, pos, buffer, eof);
  }

  // ---------------------------------------------------------------- whole records

  /** Read the next whole record, joining fragments (ReadRecord). */
  method ReadRecord(reader: Reader) returns (record: Option<Bytes>)
    requires reader.Valid()
    modifies reader
    ensures reader.Valid()
    ensures var r := RecordFrom(reader.crc, reader.file, old(reader.At()), false, []);
            record == r.record && reader.At() == r.next && reader.drops == old(reader.drops) + r.drops
  {
    var fragmented := false;
    var scratch: Bytes := [];
    ghost var goal := RecordFrom(reader.crc, reader.file, reader.At(), false, []);
    ghost var start := reader.drops;
    var done := false;
    record := None;
    while !done
      invariant reader.Valid()
      invariant !done ==> Completes(RecordFrom(reader.crc, reader.file, reader.At(), fragmented, scratch), reader.drops, start, goal)
      invariant done ==> record == goal.record && reader.At() == goal.next && reader.drops == start + goal.drops
      decreases !done, |reader.file| - reader.At()
    {
      done, record, fragmented, scratch := ReadStep(reader, fragmented, scratch, start, goal);
    }
  }

  /** One turn of ReadRecord's loop. */
  method ReadStep(reader: Reader, fragmented: bool, scratch: Bytes, ghost start: seq<nat>, ghost goal: Logical)
    returns (done: bool, record: Option<Bytes>, fragmented': bool, scratch': Bytes)
    requires reader.Valid()
    requires Completes(RecordFrom(reader.crc, reader.file, reader.At(), fragmented, scratch), reader.drops, start, goal)
    modifies reader
    ensures reader.Valid()
    ensures !done ==> Completes(RecordFrom(reader.crc, reader.file, reader.At(), fragmented', scratch'), reader.drops, start, goal)
    ensures !done ==> reader.At() > old(reader.At())
    ensures done ==> record == goal.record && reader.At() == goal.next && reader.drops == start + goal.drops
  {
    ghost var s, before := PhysicalAt(reader.crc, reader.file, reader.At()), reader.drops;
    var result := reader.ReadPhysicalRecord();
    var drops;
    done, record, fragmented', scratch', drops := TakePhysical(result, fragmented, scratch);
    if done {
      DoneCompletes(record, s.next, s.drops, drops, before, start, goal);
    } else {
      MoreCompletes(RecordFrom(reader.crc, reader.file, s.next, fragmented', scratch'), s.drops, drops, before, start, goal);
    }
    reader.drops := reader.drops + drops;
  }

  lemma MoreCompletes(rest: Logical, d1: seq<nat>, d2: seq<nat>, drops: seq<nat>, start: seq<nat>, goal: Logical)
    requires Completes(After(d1 + d2, rest), drops, start, goal)
    ensures Completes(rest, (drops + d1) + d2, start, goal)
  {
    assert ((drops + d1) + d2) + rest.drops == drops + ((d1 + d2) + rest.drops);
  }

  lemma DoneCompletes(record: Option<Bytes>, next: nat, d1: seq<nat>, d2: seq<nat>, drops: seq<nat>, start: seq<nat>, goal: Logical)
    requires Completes(Logical(record, next, d1 + d2), drops, start, goal)
    ensures record == goal.record && next == goal.next && (drops + d1) + d2 == start + goal.drops
  {
    assert (drops + d1) + d2 == drops + (d1 + d2);
  }

  ghost predicate Completes(r: Logical, drops: seq<nat>, start: seq<nat>, goal: Logical) {
    r.record == goal.record && r.next == goal.next && drops + r.drops == start + goal.drops
  }

  /** The switch over record types. */
  method TakePhysical(result: PhysicalResult, fragmented: bool, scratch: Bytes)
    returns (done: bool, record: Option<Bytes>, fragmented': bool, scratch': Bytes, drops: seq<nat>)
    ensures Take(result, fragmented, scratch) == if done then Done(record, drops) else More(fragmented', scratch', drops)
  {
    done, record, fragmented', scratch', drops := false, None, fragmented, scratch, [];
    match result {
      case EndOfFile =>
        done := true;
      case Bad =>
        if fragmented {
          drops := [|scratch|];
          fragmented', scratch' := false, [];
        }
      case Record(kind, data) =>
        if kind == FULL {
          if fragmented && scratch != [] {
            drops := [|scratch|];
          }
          done, record := true, Some(data);
        } else if kind == FIRST {
          if fragmented && scratch != [] {
            drops := [|scratch|];
          }
          fragmented', scratch' := true, data;
        } else if kind == MIDDLE {
          if fragmented {
            scratch' := scratch + data;
          } else {
            drops := [|data|];
          }
        } else if kind == LAST {
          if fragmented {
            done, record := true, Some(scratch + data);
          } else {
            drops := [|data|];
          }
        } else {
          drops := [|data| + if fragmented then |scratch| else 0];
          fragmented', scratch' := false, [];
        }
    }
  }

  lemma PrependTwice(records: seq<Bytes>, drops: seq<nat>, record: Bytes, d: seq<nat>, c: Contents)
    ensures Prepend(records, drops, Prepend([record], d, c)) == Prepend(records + [record], drops + d, c)
  {
  }

  lemma PrependNone(records: seq<Bytes>, drops: seq<nat>, d: seq<nat>)
    ensures Prepend(records, drops, Contents([], d)) == Contents(records, drops + d)
  {
  }

  /** Read a log to its end, as recovery does. */
  method ReadAll(crc: Crc, file: Bytes) returns (records: seq<Bytes>, drops: seq<nat>)
    ensures Contents(records, drops) == ReadWith(NextRecord(crc), file, 0)
  {
    var reader := new Reader(crc, file);
    records := [];
    var more := true;
    ghost var step := NextRecord(crc);
    ghost var goal := ReadWith(step, file, 0);
    PrependEmpty(goal);
    while more
      invariant reader.Valid() && reader.crc == crc && reader.file == file && fresh(reader)
      invariant more ==> goal == Prepend(records, reader.drops, ReadWith(step, file, reader.At()))
      invariant !more ==> goal == Contents(records, reader.drops)
      decreases more, |file| - reader.At()
    {
      ghost var r, before := step(file, reader.At()), reader.drops;
      var record := ReadRecord(reader);
      if record.Some? {
        PrependTwice(records, before, record.value, r.drops, ReadWith(step, file, reader.At()));
        records := records + [record.value];
      } else {
        PrependNone(records, before, r.drops);
        more := false;
      }
    }
    drops := reader.drops;
  }

  lemma PrependEmpty(c: Contents)
    ensures Prepend([], [], c) == c
  {
  }
}
