/** What a damaged log reads as (db/log_reader.cc: ReadPhysicalRecord, ReadRecord): every file, byte for byte, and then written logs in which
    a fragment no longer matches its checksum. */
module LogDamage {
  import opened InternalKeys
  import opened Framing
  import opened LogFormat
  import opened LogReader
  import opened LogRoundTrip

  // ---------------------------------------------------------------- every file, over its bytes

  /** The end of the block in which `q` lies, or of the file. */
  function RestEnds(file: Bytes, q: nat): nat {
    if q / BLOCK * BLOCK + BLOCK <= |file| then q / BLOCK * BLOCK + BLOCK else |file|
  }

  /** The position of the next header: no header starts in the last six bytes of a block. */
  function NextHeader(p: nat): nat {
    if p % BLOCK > BLOCK - HEADER then p / BLOCK * BLOCK + BLOCK else p
  }

  function LengthAt(file: Bytes, q: nat): nat
    requires q + HEADER <= |file|
  {
    file[q + 4] as nat + 256 * file[q + 5] as nat
  }

  function SumAt(file: Bytes, q: nat): nat
    requires q + HEADER <= |file|
  {
    file[q] as nat + 256 * (file[q + 1] as nat + 256 * (file[q + 2] as nat + 256 * file[q + 3] as nat))
  }

  /** A header and as many bytes as it says, in one block. */
  predicate FitsAt(file: Bytes, q: nat) {
    q + HEADER <= |file| && q + HEADER + LengthAt(file, q) <= RestEnds(file, q)
  }

  /** The stored checksum is that of type and payload. */
  predicate SumFits(crc: Crc, file: Bytes, q: nat)
    requires FitsAt(file, q)
  {
    SumAt(file, q) == Mask(crc(file[q + 6..q + HEADER + LengthAt(file, q)]))
  }

  /** A header of zeros, as preallocated space has. */
  predicate Blank(file: Bytes, q: nat)
    requires q + HEADER <= |file|
  {
    file[q + 6] == 0 && LengthAt(file, q) == 0
  }

  lemma MaskUnmask(x: U32)
    ensures Mask(Unmask(x)) == x
  {
    var rot := (x + TWO32 - MASK_DELTA) % TWO32;
    assert Unmask(x) / 0x8000 == rot % 0x2_0000;
    assert Unmask(x) % 0x8000 == rot / 0x2_0000;
  }

  lemma {:induction false} FixedBytes(b: Bytes)
    ensures |b| == 2 ==> DecodeFixed(b) == b[0] as nat + 256 * b[1] as nat
    ensures |b| == 4 ==> DecodeFixed(b) == b[0] as nat + 256 * (b[1] as nat + 256 * (b[2] as nat + 256 * b[3] as nat))
  {
    if |b| > 2 {
      FixedBytes(b[2..]);
      assert DecodeFixed(b[1..]) == b[1] as nat + 256 * DecodeFixed(b[2..]) by { assert b[1..][1..] == b[2..]; }
    } else if |b| == 2 {
      assert DecodeFixed(b[1..]) == b[1] as nat by { assert b[1..][1..] == []; }
    }
  }

  lemma Positions(file: Bytes, p: nat)
    ensures HeaderAt(p) == NextHeader(p) && BlockEnd(file, p) == RestEnds(file, p) && BlockStart(p) == p / BLOCK * BLOCK
  {
    OffIsRemainder(p);
  }

  /** The rest of a block, seen from the file. */
  lemma BlockBytes(crc: Crc, file: Bytes, q: nat, end: nat)
    requires q + HEADER <= end <= |file| && end == RestEnds(file, q)
    ensures LengthOf(file[q..end]) == LengthAt(file, q) && file[q..end][6] == file[q + 6]
    ensures FitsAt(file, q) ==> (ChecksumOk(crc, file[q..end]) <==> SumFits(crc, file, q))
  {
    var block := file[q..end];
    FixedBytes(block[4..6]);
    FixedBytes(block[..4]);
    assert block[..4] == file[q..q + 4] && block[4..6] == file[q + 4..q + 6];
    if FitsAt(file, q) {
      var n := LengthAt(file, q);
      assert block[6..HEADER + n] == file[q + 6..q + HEADER + n];
      var sum := SumAt(file, q);
      if Unmask(sum) == crc(file[q + 6..q + HEADER + n]) { MaskUnmask(sum); }
      UnmaskMask(crc(file[q + 6..q + HEADER + n]));
    }
  }

  /** What the reader makes of the bytes at `q`. A record that sticks out of a whole block, or does not match its checksum, takes the rest
      of the block with it, which is reported; reading goes on behind the block. Blank space is skipped without a report, and what
      sticks out of the file is its end. */
  ghost predicate ReadsBytes(crc: Crc, file: Bytes, q: nat, s: Scan) {
    var end := RestEnds(file, q);
    if q + HEADER > end then s == Scan(EndOfFile, |file|, [])
    else if !FitsAt(file, q) then s == if end == q / BLOCK * BLOCK + BLOCK then Scan(Bad, end, [end - q]) else Scan(EndOfFile, end, [])
    else if Blank(file, q) then s == Scan(Bad, end, [])
    else if !SumFits(crc, file, q) then s == Scan(Bad, end, [end - q])
    else s == Scan(Record(file[q + 6], file[q + HEADER..q + HEADER + LengthAt(file, q)]), q + HEADER + LengthAt(file, q), [])
  }

  lemma Slice(file: Bytes, q: nat, end: nat, a: nat, b: nat)
    requires q <= end <= |file| && a <= b <= end - q
    ensures file[q..end][a..b] == file[q + a..q + b]
  {
    forall i | a <= i < b ensures file[q..end][i] == file[q + i] {}
  }

  lemma ParsesBytes(crc: Crc, file: Bytes, q: nat, end: nat, block: Bytes)
    requires q + HEADER <= end == RestEnds(file, q) <= |file| && block == file[q..end]
    requires LengthOf(block) == LengthAt(file, q) && block[6] == file[q + 6] && (FitsAt(file, q) ==> (ChecksumOk(crc, block) <==> SumFits(crc, file, q)))
    ensures var r := Parse(crc, block, end == q / BLOCK * BLOCK + BLOCK); ReadsBytes(crc, file, q, Scan(r.result, q + r.used, r.drops))
  {
    if FitsAt(file, q) { Slice(file, q, end, HEADER, HEADER + LengthAt(file, q)); }
  }

  /** Every file: a physical record is returned only if it is whole, lies in one block and matches its checksum. */
  lemma PhysicalExactly(crc: Crc, file: Bytes, p: nat)
    requires p <= |file|
    ensures ReadsBytes(crc, file, NextHeader(p), PhysicalAt(crc, file, p))
  {
    Positions(file, p);
    Positions(file, NextHeader(p));
    var q, end := NextHeader(p), RestEnds(file, NextHeader(p));
    if q + HEADER <= end {
      BlockBytes(crc, file, q, end);
      ParsesBytes(crc, file, q, end, file[q..end]);
    }
  }

  // ---------------------------------------------------------------- every record is made of what is there

  /** From `p` on, physical records follow each other that make up `data`: one whole, or a first one, middle ones and a last one. */
  ghost predicate Chain(crc: Crc, file: Bytes, p: nat, begin: bool, data: Bytes, end: nat)
    decreases |file| - p
  {
    && p <= |file| && PhysicalAt(crc, file, p).result.Record?
    && var s := PhysicalAt(crc, file, p);
       if s.result.kind == Kind(begin, true) then data == s.result.data && end == s.next
       else s.result.kind == Kind(begin, false) && s.result.data <= data && Chain(crc, file, s.next, false, data[|s.result.data|..], end)
  }

  lemma ChainStep(crc: Crc, file: Bytes, p: nat, begin: bool, data: Bytes, end: nat, scratch: Bytes)
    requires p <= |file| && PhysicalAt(crc, file, p).result.Record? && PhysicalAt(crc, file, p).result.kind == Kind(begin, false)
    requires scratch + PhysicalAt(crc, file, p).result.data <= data
    requires Chain(crc, file, PhysicalAt(crc, file, p).next, false, data[|scratch| + |PhysicalAt(crc, file, p).result.data|..], end)
    ensures scratch <= data && Chain(crc, file, p, begin, data[|scratch|..], end)
  {
    var d := PhysicalAt(crc, file, p).result.data;
    assert (scratch + d)[..|scratch|] == scratch && (scratch + d)[|scratch|..] == d;
    assert data[|scratch|..][|d|..] == data[|scratch| + |d|..];
    assert data[..|scratch + d|] == scratch + d;
    assert d <= data[|scratch|..] by { assert data[|scratch|..][..|d|] == data[..|scratch + d|][|scratch|..]; }
  }

  /** A chain starts ahead, or the fragments collected so far go on at `p`. */
  ghost predicate There(crc: Crc, file: Bytes, p: nat, fragmented: bool, scratch: Bytes, q: nat, data: Bytes, end: nat) {
    match fragmented && scratch <= data
    case true => (p <= q && Chain(crc, file, q, true, data, end)) || Chain(crc, file, p, false, data[|scratch|..], end)
    case false => p <= q && Chain(crc, file, q, true, data, end)
  }

  lemma DoneIsThere(crc: Crc, file: Bytes, p: nat, fragmented: bool, scratch: Bytes, data: Bytes, ds: seq<nat>)
    requires p <= |file| && Take(PhysicalAt(crc, file, p).result, fragmented, scratch) == Progress.Done(Some(data), ds)
    ensures There(crc, file, p, fragmented, scratch, p, data, PhysicalAt(crc, file, p).next)
  {
    var d := PhysicalAt(crc, file, p).result.data;
    assert (scratch + d)[|scratch|..] == d;
  }

  lemma MoreIsThere(crc: Crc, file: Bytes, p: nat, fragmented: bool, scratch: Bytes, f: bool, scratch': Bytes, ds: seq<nat>, ahead: nat,
                    data: Bytes, end: nat) returns (q: nat)
    requires p <= |file| && PhysicalAt(crc, file, p).next > p && Take(PhysicalAt(crc, file, p).result, fragmented, scratch) == More(f, scratch', ds)
    requires There(crc, file, PhysicalAt(crc, file, p).next, f, scratch', ahead, data, end)
    ensures There(crc, file, p, fragmented, scratch, q, data, end)
  {
    var s := PhysicalAt(crc, file, p);
    q := ahead;
    if !(s.next <= ahead && Chain(crc, file, ahead, true, data, end)) {
      if s.result.kind == FIRST {
        q := p;
        assert [] + s.result.data == s.result.data && data[0..] == data;
        ChainStep(crc, file, p, true, data, end, []);
      } else {
        ChainStep(crc, file, p, false, data, end, scratch);
      }
    }
  }

  /** Whatever the file holds, a record that is returned is the payload of one whole physical record, or of a first, middle ones and a
      last right behind each other, all of which match their checksums. */
  lemma {:induction false} RecordsAreThere(crc: Crc, file: Bytes, p: nat, fragmented: bool, scratch: Bytes) returns (q: nat)
    requires p <= |file| && RecordFrom(crc, file, p, fragmented, scratch).record.Some?
    ensures var r := RecordFrom(crc, file, p, fragmented, scratch); There(crc, file, p, fragmented, scratch, q, r.record.value, r.next)
    decreases |file| - p
  {
    var s := PhysicalAt(crc, file, p);
    match Take(s.result, fragmented, scratch)
    case Done(record, ds) =>
      DoneIsThere(crc, file, p, fragmented, scratch, record.value, ds);
      q := p;
    case More(f, scratch', ds) =>
      var next := RecordFrom(crc, file, s.next, f, scratch');
      var ahead := RecordsAreThere(crc, file, s.next, f, scratch');
      q := MoreIsThere(crc, file, p, fragmented, scratch, f, scratch', ds, ahead, next.record.value, next.next);
  }

  /** The records of any file. */
  lemma ReturnedIsThere(crc: Crc, file: Bytes, p: nat) returns (q: nat)
    requires p <= |file| && NextRecord(crc)(file, p).record.Some?
    ensures var r := NextRecord(crc)(file, p); p <= q && Chain(crc, file, q, true, r.record.value, r.next)
  {
    q := RecordsAreThere(crc, file, p, false, []);
  }

  // ---------------------------------------------------------------- only what is ahead matters

  ghost predicate SameFrom(a: Bytes, b: Bytes, r: nat) { r <= |a| && |a| == |b| && a[r..] == b[r..] }

  lemma SameRest(a: Bytes, b: Bytes, r: nat, q: nat, end: nat)
    requires SameFrom(a, b, r) && r <= q <= end <= |a|
    ensures a[q..end] == b[q..end]
  {
    forall i | q <= i < end ensures a[i] == b[i] {
      assert a[r..][i - r] == a[i] && b[r..][i - r] == b[i];
    }
  }

  lemma SameScan(crc: Crc, a: Bytes, b: Bytes, r: nat, p: nat)
    requires SameFrom(a, b, r) && r <= p <= |a|
    ensures PhysicalAt(crc, a, p) == PhysicalAt(crc, b, p)
  {
    var q := HeaderAt(p);
    PadLeadsToHeader(p);
    if q <= |a| && BlockEnd(a, q) - q >= HEADER { SameRest(a, b, r, q, BlockEnd(a, q)); }
  }

  lemma {:induction false} SameRecord(crc: Crc, a: Bytes, b: Bytes, r: nat, p: nat, fragmented: bool, scratch: Bytes)
    requires SameFrom(a, b, r) && r <= p <= |a|
    ensures RecordFrom(crc, a, p, fragmented, scratch) == RecordFrom(crc, b, p, fragmented, scratch)
    decreases |a| - p
  {
    SameScan(crc, a, b, r, p);
    var s := PhysicalAt(crc, a, p);
    match Take(s.result, fragmented, scratch)
    case Done(_, _) =>
    case More(fragmented', scratch', _) => SameRecord(crc, a, b, r, s.next, fragmented', scratch');
  }

  lemma {:induction false} SameReading(crc: Crc, a: Bytes, b: Bytes, r: nat, p: nat)
    requires SameFrom(a, b, r) && r <= p <= |a|
    ensures ReadWith(NextRecord(crc), a, p) == ReadWith(NextRecord(crc), b, p)
    decreases |a| - p
  {
    SameRecord(crc, a, b, r, p, false, []);
    var x := RecordFrom(crc, a, p, false, []);
    if x.record.Some? { SameReading(crc, a, b, r, x.next); }
  }

  // ---------------------------------------------------------------- reading from the start of any block

  /** How many of the records laid from `p` on have their header before `r`. */
  function StartedBefore(frame: Frame, records: seq<Bytes>, p: nat, r: nat): (k: nat)
    ensures k <= |records|
  {
    if records == [] || HeaderAt(p) >= r then 0
    else 1 + StartedBefore(frame, records[1..], p + |frame(records[0], p)|, r)
  }

  lemma SameHeader(crc: Crc, file: Bytes, p: nat, q: nat)
    requires p <= q <= |file| && HeaderAt(p) == HeaderAt(q)
    ensures PhysicalAt(crc, file, p) == PhysicalAt(crc, file, q)
  {
  }

  lemma HeaderIsHeader(p: nat)
    ensures HeaderAt(HeaderAt(p)) == HeaderAt(p) && p <= HeaderAt(p)
  {
    PadLeadsToHeader(p);
    PadLeadsToHeader(HeaderAt(p));
  }

  /** Reading `whole` at `r`, where a header is, is reading it in front of the padding. */
  lemma ReadBehindPadding(crc: Crc, whole: Bytes, p: nat, r: nat)
    requires p <= r <= |whole| && HeaderAt(p) == HeaderAt(r)
    ensures ReadWith(NextRecord(crc), whole, p) == ReadWith(NextRecord(crc), whole, r)
  {
    SameHeader(crc, whole, p, r);
    assert RecordFrom(crc, whole, p, false, []) == RecordFrom(crc, whole, r, false, []);
  }

  lemma ReadLaid(frame: Frame, step: Step, whole: Bytes, p: nat, records: seq<Bytes>)
    requires Inverts(frame, step) && LaidFrom(frame, whole, p, records)
    ensures ReadWith(step, whole, p) == Contents(records, [])
  {
    ReadBack(frame, step, whole, |whole|, p, records);
    AllAreWhole(frame, records, p, |whole|);
    assert whole[..|whole|] == whole && records[..|records|] == records;
  }

  /** No block starts inside the block of a header. */
  lemma NextBoundary(p: nat, r: nat)
    requires HeaderAt(p) < r && Off(r) == 0
    ensures HeaderAt(p) - Start(Off(p)) + BLOCK <= r
  {
    PadLeadsToHeader(p);
    OffIsRemainder(r);
    OffIsRemainder(HeaderAt(p));
  }

  /** A record cut by a block boundary does not end in its first block. */
  lemma NotTheLast(crc: Crc, whole: Bytes, p: nat, data: Bytes, begin: bool, end: nat, r: nat)
    requires FramedIn(crc, whole, p, data, begin, end) && HeaderAt(p) < r < end && Off(r) == 0
    ensures FragmentLength(|data|, Off(p)) < |data|
  {
    NextBoundary(p, r);
    if FragmentLength(|data|, Off(p)) == |data| {
      OnlyFragment(crc, whole, p, data, begin, end);
    }
  }

  /** A fragment that is not the last fills its block, and the rest of the record starts behind it. */
  lemma NotLast(crc: Crc, whole: Bytes, p: nat, data: Bytes, begin: bool, end: nat) returns (first: Bytes, rest: Bytes, p': nat)
    requires FramedIn(crc, whole, p, data, begin, end) && FragmentLength(|data|, Off(p)) < |data|
    ensures data == first + rest && |first| == FragmentLength(|data|, Off(p)) && p' == HeaderAt(p) + HEADER + |first| && Off(p') == 0
    ensures PhysicalIn(crc, whole, p, Kind(begin, false), first) && FramedIn(crc, whole, p', rest, false, end)
    ensures |first| == 0 ==> BLOCK - Start(Off(p)) == HEADER
    ensures p < p'
  {
    var n := FragmentLength(|data|, Off(p));
    first, rest, p' := SplitFirst(crc, whole, p, data, begin, end, n);
    FillsBlock(p, n, |data|);
    HeaderIsHeader(p);
  }

  lemma SplitFirst(crc: Crc, whole: Bytes, p: nat, data: Bytes, begin: bool, end: nat, n: nat) returns (first: Bytes, rest: Bytes, p': nat)
    requires FramedIn(crc, whole, p, data, begin, end) && n == FragmentLength(|data|, Off(p)) && n < |data|
    ensures data == first + rest && |first| == n && p' == HeaderAt(p) + HEADER + n
    ensures PhysicalIn(crc, whole, p, Kind(begin, false), first) && FramedIn(crc, whole, p', rest, false, end)
  {
    first, rest, p' := data[..n], data[n..], HeaderAt(p) + HEADER + n;
    FirstOfMore(crc, whole, p, data, begin, end, n);
  }

  /** Where a record is cut by a block boundary, a later fragment of it starts. */
  lemma {:induction false} CutAtBlock(crc: Crc, whole: Bytes, p: nat, data: Bytes, begin: bool, end: nat, r: nat) returns (k: nat)
    requires FramedIn(crc, whole, p, data, begin, end) && HeaderAt(p) < r < end && Off(r) == 0
    ensures k <= |data| && FramedIn(crc, whole, r, data[k..], false, end)
    decreases |data|, BLOCK - Start(Off(p)) == HEADER
  {
    NotTheLast(crc, whole, p, data, begin, end, r);
    var first, rest, p' := NotLast(crc, whole, p, data, begin, end);
    NextBoundary(p, r);
    PadLeadsToHeader(p);
    k := |first|;
    if p' < r {
      PadLeadsToHeader(p');
      var more := CutAtBlock(crc, whole, p', rest, false, end, r);
      assert rest[more..] == data[|first| + more..];
      k := |first| + more;
    }
  }

  /** Fragments whose start is missing are dropped and reported. */
  lemma {:induction false} SkipFragments(crc: Crc, whole: Bytes, p: nat, data: Bytes, end: nat, r: Logical) returns (ds: seq<nat>)
    requires FramedIn(crc, whole, p, data, false, end) && p <= end <= |whole| && RecordFrom(crc, whole, end, false, []) == r
    ensures RecordFrom(crc, whole, p, false, []) == After(ds, r)
    decreases |data|, BLOCK - Start(Off(p)) == HEADER
  {
    if FragmentLength(|data|, Off(p)) == |data| {
      OnlyFragment(crc, whole, p, data, false, end);
      HeaderIsHeader(p);
      ds := SkipOne(crc, whole, p, true, data, end, r);
    } else {
      var first, rest, p' := NotLast(crc, whole, p, data, false, end);
      var later := SkipFragments(crc, whole, p', rest, end, r);
      var now := SkipOne(crc, whole, p, false, first, p', After(later, r));
      AfterAfter(now, later, r);
      ds := now + later;
    }
  }

  lemma AfterAfter(a: seq<nat>, b: seq<nat>, r: Logical)
    ensures After(a, After(b, r)) == After(a + b, r)
  {
    assert a + (b + r.drops) == a + b + r.drops;
  }

  lemma SkipOne(crc: Crc, whole: Bytes, p: nat, last: bool, data: Bytes, next: nat, r: Logical) returns (ds: seq<nat>)
    requires PhysicalIn(crc, whole, p, Kind(false, last), data) && p <= next == HeaderAt(p) + HEADER + |data| <= |whole|
    requires RecordFrom(crc, whole, next, false, []) == r
    ensures RecordFrom(crc, whole, p, false, []) == After(ds, r)
  {
    ScanWhole(crc, whole, |whole|, p, Kind(false, last), data);
    assert whole[..|whole|] == whole;
    ds := [] + [|data|];
    SkipTaken(crc, whole, p, Kind(false, last), data, next, r);
  }

  lemma SkipTaken(crc: Crc, whole: Bytes, p: nat, kind: byte, data: Bytes, next: nat, r: Logical)
    requires p <= |whole| && PhysicalAt(crc, whole, p) == Scan(Record(kind, data), next, []) && (kind == MIDDLE || kind == LAST)
    requires RecordFrom(crc, whole, next, false, []) == r
    ensures RecordFrom(crc, whole, p, false, []) == After([] + [|data|], r)
  {
    assert Take(Record(kind, data), false, []) == More(false, [], [|data|]);
  }

  /** A step that skips to `q` reads the same records as one from `q`. */
  lemma SameRecords(step: Step, file: Bytes, p: nat, q: nat, ds: seq<nat>)
    requires p <= q <= |file| && step(file, p) == After(ds, step(file, q)) && (step(file, q).record.Some? ==> q < step(file, q).next)
    ensures ReadWith(step, file, p).records == ReadWith(step, file, q).records
    ensures ReadWith(step, file, p).drops == ds + ReadWith(step, file, q).drops
  {
    var r := step(file, q);
    if r.record.Some? && r.next <= |file| { assert ds + r.drops + ReadWith(step, file, r.next).drops == ds + (r.drops + ReadWith(step, file, r.next).drops); }
  }

  // ---------------------------------------------------------------- resuming at a block

  /** From inside a record that starts before `r`, reading goes on at its end. */
  ghost predicate ResumesAt(frame: Frame, step: Step, whole: Bytes, r: nat, p: nat, record: Bytes) {
    var end := p + |frame(record, p)|;
    && (Part(whole, p, |frame(record, p)|) == Some(frame(record, p)) && HeaderAt(p) < r < end ==>
          ReadWith(step, whole, r).records == ReadWith(step, whole, end).records)
    && (Part(whole, p, |frame(record, p)|) == Some(frame(record, p)) && p <= r <= HeaderAt(p) ==>
          ReadWith(step, whole, r).records == ReadWith(step, whole, p).records)
    && HeaderAt(end) >= end
  }

  lemma {:induction false} ResumeWith(frame: Frame, step: Step, whole: Bytes, p: nat, records: seq<Bytes>, r: nat)
    requires Inverts(frame, step) && (forall p: nat, record: Bytes :: ResumesAt(frame, step, whole, r, p, record))
    requires LaidFrom(frame, whole, p, records) && p <= r <= |whole|
    ensures ReadWith(step, whole, r).records == records[StartedBefore(frame, records, p, r)..]
    decreases records
  {
    if records == [] {
      ReadLaid(frame, step, whole, p, records);
    } else {
      var end := p + |frame(records[0], p)|;
      assert ResumesAt(frame, step, whole, r, p, records[0]);
      FirstRecord(frame, whole, p, records);
      if HeaderAt(p) >= r {
        ReadLaid(frame, step, whole, p, records);
      } else if end <= r {
        ResumeWith(frame, step, whole, end, records[1..], r);
      } else {
        ReadLaid(frame, step, whole, end, records[1..]);
        assert StartedBefore(frame, records[1..], end, r) == 0;
      }
    }
  }

  lemma BeforeNext(p: nat, r: nat)
    requires p < r <= HeaderAt(p) && Off(r) == 0
    ensures r == HeaderAt(p) == HeaderAt(r)
  {
    OffIsRemainder(r);
    OffIsRemainder(p);
  }

  lemma InsideResumes(crc: Crc, whole: Bytes, r: nat, p: nat, record: Bytes, end: nat)
    requires FramedIn(crc, whole, p, record, true, end) && end <= |whole| && HeaderAt(p) < r < end && Off(r) == 0
    ensures ReadWith(NextRecord(crc), whole, r).records == ReadWith(NextRecord(crc), whole, end).records
  {
    var k := CutAtBlock(crc, whole, p, record, true, end, r);
    var ds := SkipFragments(crc, whole, r, record[k..], end, RecordFrom(crc, whole, end, false, []));
    SameRecords(NextRecord(crc), whole, r, end, ds);
  }

  lemma FramedHere(crc: Crc, whole: Bytes, p: nat, record: Bytes)
    requires Part(whole, p, |Framer(crc)(record, p)|) == Some(Framer(crc)(record, p))
    ensures FramedIn(crc, whole, p, record, true, p + |Framer(crc)(record, p)|) && p + |Framer(crc)(record, p)| <= |whole|
    ensures p + |Pad(Off(p))| < p + |Framer(crc)(record, p)|
  {
  }

  lemma BlockResumes(crc: Crc, whole: Bytes, r: nat, p: nat, record: Bytes)
    requires r <= |whole| && (Off(r) == 0 || r == |whole|)
    ensures ResumesAt(Framer(crc), NextRecord(crc), whole, r, p, record)
  {
    var framed := Framer(crc)(record, p);
    HeaderIsHeader(p + |framed|);
    PartResumes(crc, whole, r, p, record, framed, p + |framed|);
    ResumesByParts(Framer(crc), NextRecord(crc), whole, r, p, record, framed, p + |framed|);
  }

  lemma PartResumes(crc: Crc, whole: Bytes, r: nat, p: nat, record: Bytes, framed: Bytes, end: nat)
    requires r <= |whole| && (Off(r) == 0 || r == |whole|) && framed == Framer(crc)(record, p) && end == p + |framed|
    ensures Part(whole, p, |framed|) == Some(framed) && HeaderAt(p) < r < end ==>
              ReadWith(NextRecord(crc), whole, r).records == ReadWith(NextRecord(crc), whole, end).records
    ensures Part(whole, p, |framed|) == Some(framed) && p <= r <= HeaderAt(p) ==>
              ReadWith(NextRecord(crc), whole, r).records == ReadWith(NextRecord(crc), whole, p).records
  {
    if Part(whole, p, |framed|) == Some(framed) {
      FramedHere(crc, whole, p, record);
      HeaderResumes(crc, whole, r, p, record, end);
    }
  }

  lemma ResumesByParts(frame: Frame, step: Step, whole: Bytes, r: nat, p: nat, record: Bytes, framed: Bytes, end: nat)
    requires framed == frame(record, p) && end == p + |framed| && HeaderAt(end) >= end
    requires Part(whole, p, |framed|) == Some(framed) && HeaderAt(p) < r < end ==> ReadWith(step, whole, r).records == ReadWith(step, whole, end).records
    requires Part(whole, p, |framed|) == Some(framed) && p <= r <= HeaderAt(p) ==> ReadWith(step, whole, r).records == ReadWith(step, whole, p).records
    ensures ResumesAt(frame, step, whole, r, p, record)
  {
  }

  lemma HeaderResumes(crc: Crc, whole: Bytes, r: nat, p: nat, record: Bytes, end: nat)
    requires FramedIn(crc, whole, p, record, true, end) && end <= |whole| && r <= |whole| && (Off(r) == 0 || r == |whole|)
    requires p + |Pad(Off(p))| < end
    ensures HeaderAt(p) < r < end ==> ReadWith(NextRecord(crc), whole, r).records == ReadWith(NextRecord(crc), whole, end).records
    ensures p <= r <= HeaderAt(p) ==> ReadWith(NextRecord(crc), whole, r).records == ReadWith(NextRecord(crc), whole, p).records
  {
    PadLeadsToHeader(p);
    if HeaderAt(p) < r < end {
      InsideResumes(crc, whole, r, p, record, end);
    } else if p < r <= HeaderAt(p) {
      BeforeNext(p, r);
      ReadBehindPadding(crc, whole, p, r);
    }
  }

  /** A log can be read from the start of any block: exactly the records that start there or later come back. */
  lemma Resume(crc: Crc, records: seq<Bytes>, r: nat)
    requires r <= |Laid(Framer(crc), records, 0)| && (Off(r) == 0 || r == |Laid(Framer(crc), records, 0)|)
    ensures ReadWith(NextRecord(crc), Laid(Framer(crc), records, 0), r).records == records[StartedBefore(Framer(crc), records, 0, r)..]
  {
    var whole := Laid(Framer(crc), records, 0);
    assert whole[0..|whole|] == whole;
    ReaderInvertsWriter(crc);
    forall p: nat, record: Bytes ensures ResumesAt(Framer(crc), NextRecord(crc), whole, r, p, record) { BlockResumes(crc, whole, r, p, record); }
    ResumeWith(Framer(crc), NextRecord(crc), whole, 0, records, r);
  }

  // ---------------------------------------------------------------- a damaged fragment

  /** A record with `left` bytes to go from `p` on has a fragment with its header at `a`. */
  ghost predicate HasHeader(left: nat, p: nat, a: nat)
    decreases left, BLOCK - Start(Off(p)) == HEADER
  {
    var n := FragmentLength(left, Off(p));
    a == HeaderAt(p) || (n < left && (FillsBlock(p, n, left); HasHeader(left - n, HeaderAt(p) + HEADER + n, a)))
  }

  /** Some fragment of the records laid from `p` on has its header at `a`. */
  ghost predicate HeaderIn(frame: Frame, records: seq<Bytes>, p: nat, a: nat)
    decreases records
  {
    records != []
    && var end := p + |frame(records[0], p)|;
       if end <= a then HeaderIn(frame, records[1..], end, a) else HasHeader(|records[0]|, p, a)
  }

  lemma {:induction false} HeaderIsAhead(left: nat, p: nat, a: nat)
    requires HasHeader(left, p, a)
    ensures p <= HeaderAt(p) <= a
    decreases left, BLOCK - Start(Off(p)) == HEADER
  {
    var n := FragmentLength(left, Off(p));
    HeaderIsHeader(p);
    if a != HeaderAt(p) {
      FillsBlock(p, n, left);
      HeaderIsAhead(left - n, HeaderAt(p) + HEADER + n, a);
    }
  }

  lemma BadIsTaken(crc: Crc, file: Bytes, p: nat, begin: bool, scratch: Bytes, r: nat, drops: seq<nat>, tail: Logical) returns (ds: seq<nat>)
    requires p <= |file| && PhysicalAt(crc, file, p) == Scan(Bad, r, drops) && drops != [] && (begin ==> scratch == [])
    requires RecordFrom(crc, file, r, false, []) == tail
    ensures ds != [] && RecordFrom(crc, file, p, !begin, scratch) == After(ds, tail)
  {
    ds := drops + if begin then [] else [|scratch|];
  }

  /** Same bytes before `a`: what ends by then is there in both files. */
  lemma SameBefore(crc: Crc, whole: Bytes, file: Bytes, a: nat, p: nat, kind: byte, data: Bytes)
    requires a <= |file| == |whole| && file[..a] == whole[..a] && PhysicalIn(crc, whole, p, kind, data) && HeaderAt(p) + HEADER + |data| <= a
    ensures PhysicalIn(crc, file, p, kind, data)
  {
    PadLeadsToHeader(p);
    SamePart(whole, file, a, HeaderAt(p), HEADER + |data|);
  }

  lemma SamePart(whole: Bytes, file: Bytes, a: nat, p: nat, n: nat)
    requires a <= |file| == |whole| && file[..a] == whole[..a] && p + n <= a
    ensures Part(file, p, n) == Part(whole, p, n)
  {
    forall i | p <= i < p + n ensures file[i] == whole[i] { assert file[..a][i] == file[i] && whole[..a][i] == whole[i]; }
    assert file[p..p + n] == whole[p..p + n];
  }

  /** The files agree before `a`, where the reader finds something bad and goes on at `r`. */
  ghost predicate BadAt(crc: Crc, whole: Bytes, file: Bytes, a: nat, r: nat, drops: seq<nat>) {
    match a <= |file| == |whole|
    case true => drops != [] && file[..a] == whole[..a] && PhysicalAt(crc, file, a) == Scan(Bad, r, drops)
    case false => false
  }

  lemma GoodBefore(crc: Crc, whole: Bytes, file: Bytes, p: nat, first: Bytes, begin: bool, scratch: Bytes, p': nat, a: nat,
                   r: nat, drops: seq<nat>, tail: Logical)
    requires BadAt(crc, whole, file, a, r, drops) && PhysicalIn(crc, whole, p, Kind(begin, false), first)
    requires p <= p' == HeaderAt(p) + HEADER + |first| <= a && (begin ==> scratch == []) && RecordFrom(crc, file, p', true, scratch + first) == tail
    ensures RecordFrom(crc, file, p, !begin, scratch) == tail
  {
    SameBefore(crc, whole, file, a, p, Kind(begin, false), first);
    assert file[..|file|] == file;
    OneMoreFragment(crc, file, |file|, p, begin, scratch, first, p', tail);
  }

  /** A record one of whose fragments is damaged is given up and reported; reading goes on at `r`. */
  lemma {:induction false} UpToDamage(crc: Crc, whole: Bytes, file: Bytes, p: nat, data: Bytes, begin: bool, end: nat, scratch: Bytes, a: nat,
                                      r: nat, drops: seq<nat>, tail: Logical) returns (ds: seq<nat>)
    requires FramedIn(crc, whole, p, data, begin, end) && HasHeader(|data|, p, a) && (begin ==> scratch == [])
    requires BadAt(crc, whole, file, a, r, drops)
    requires RecordFrom(crc, file, r, false, []) == tail
    ensures p <= a && ds != [] && RecordFrom(crc, file, p, !begin, scratch) == After(ds, tail)
    decreases |data|, BLOCK - Start(Off(p)) == HEADER
  {
    HeaderIsAhead(|data|, p, a);
    if a == HeaderAt(p) {
      ds := DamagedHere(crc, whole, file, p, begin, scratch, a, r, drops, tail);
    } else {
      HeaderLater(|data|, p, a, FragmentLength(|data|, Off(p)));
      var first, rest, p' := NotLast(crc, whole, p, data, begin, end);
      ds := UpToDamage(crc, whole, file, p', rest, false, end, scratch + first, a, r, drops, tail);
      GoodBefore(crc, whole, file, p, first, begin, scratch, p', a, r, drops, After(ds, tail));
    }
  }

  lemma DamagedHere(crc: Crc, whole: Bytes, file: Bytes, p: nat, begin: bool, scratch: Bytes, a: nat, r: nat, drops: seq<nat>, tail: Logical)
    returns (ds: seq<nat>)
    requires a == HeaderAt(p) && p <= a && (begin ==> scratch == []) && BadAt(crc, whole, file, a, r, drops)
    requires RecordFrom(crc, file, r, false, []) == tail
    ensures ds != [] && RecordFrom(crc, file, p, !begin, scratch) == After(ds, tail)
  {
    HeaderIsHeader(p);
    SameHeader(crc, file, p, a);
    ds := BadIsTaken(crc, file, p, begin, scratch, r, drops, tail);
  }

  lemma HeaderLater(left: nat, p: nat, a: nat, n: nat)
    requires HasHeader(left, p, a) && a != HeaderAt(p) && n == FragmentLength(left, Off(p))
    ensures n < left && HasHeader(left - n, HeaderAt(p) + HEADER + n, a) && HeaderAt(p) + HEADER + n <= a
  {
    FillsBlock(p, n, left);
    HeaderIsAhead(left - n, HeaderAt(p) + HEADER + n, a);
  }

  /** At a record laid in `whole`, reading `file` gives it if it ends before `a`, and what comes at `r` if it has a header at `a`. */
  ghost predicate DamagedAt(frame: Frame, step: Step, whole: Bytes, file: Bytes, a: nat, r: nat, p: nat, record: Bytes) {
    var end := p + |frame(record, p)|;
    Part(whole, p, |frame(record, p)|) == Some(frame(record, p)) ==>
      && p < end <= |file|
      && (end <= a ==> step(file, p) == Logical(Some(record), end, []))
      && (a < end && HasHeader(|record|, p, a) ==>
            ReadWith(step, file, p).records == ReadWith(step, file, r).records && ReadWith(step, file, p).drops != [])
  }

  lemma {:induction false} ReadAround(frame: Frame, step: Step, whole: Bytes, file: Bytes, p: nat, records: seq<Bytes>, a: nat, r: nat)
    requires forall p: nat, record: Bytes :: DamagedAt(frame, step, whole, file, a, r, p, record)
    requires LaidFrom(frame, whole, p, records) && HeaderIn(frame, records, p, a)
    ensures ReadWith(step, file, p).records == records[..WholeRecords(frame, records, p, a)] + ReadWith(step, file, r).records
    ensures ReadWith(step, file, p).drops != []
    decreases records
  {
    var end := p + |frame(records[0], p)|;
    FirstRecord(frame, whole, p, records);
    assert DamagedAt(frame, step, whole, file, a, r, p, records[0]);
    if end <= a {
      ReadAround(frame, step, whole, file, end, records[1..], a, r);
      var n := WholeRecords(frame, records[1..], end, a);
      TakeOne(records, n);
      Assoc3([records[0]], records[1..][..n], ReadWith(step, file, r).records);
    }
  }

  lemma Assoc3(a: seq<Bytes>, b: seq<Bytes>, c: seq<Bytes>)
    ensures a + (b + c) == (a + b) + c
  {
  }

  lemma DamagedRecord(crc: Crc, whole: Bytes, file: Bytes, a: nat, r: nat, drops: seq<nat>, p: nat, record: Bytes, end: nat)
    requires FramedIn(crc, whole, p, record, true, end) && HasHeader(|record|, p, a)
    requires BadAt(crc, whole, file, a, r, drops)
    ensures ReadWith(NextRecord(crc), file, p).records == ReadWith(NextRecord(crc), file, r).records
    ensures ReadWith(NextRecord(crc), file, p).drops != []
  {
    HeaderIsAhead(|record|, p, a);
    var tail := RecordFrom(crc, file, r, false, []);
    var ds := UpToDamage(crc, whole, file, p, record, true, end, [], a, r, drops, tail);
    SameRecords(NextRecord(crc), file, p, r, ds);
  }

  lemma IntactRecord(crc: Crc, whole: Bytes, file: Bytes, a: nat, p: nat, record: Bytes, framed: Bytes)
    requires framed == Framer(crc)(record, p) && Part(whole, p, |framed|) == Some(framed) && p + |framed| <= a
    requires a <= |file| == |whole| && file[..a] == whole[..a]
    ensures NextRecord(crc)(file, p) == Logical(Some(record), p + |framed|, [])
  {
    SamePart(whole, file, a, p, |framed|);
    assert file[..|file|] == file;
    ReadFirst(crc, file, |file|, p, record, framed);
  }

  lemma RecordAround(crc: Crc, whole: Bytes, file: Bytes, a: nat, r: nat, drops: seq<nat>, p: nat, record: Bytes)
    requires BadAt(crc, whole, file, a, r, drops)
    ensures DamagedAt(Framer(crc), NextRecord(crc), whole, file, a, r, p, record)
  {
    var framed := Framer(crc)(record, p);
    if Part(whole, p, |framed|) == Some(framed) {
      FramedHere(crc, whole, p, record);
      if p + |framed| <= a {
        IntactRecord(crc, whole, file, a, p, record, framed);
      } else if HasHeader(|record|, p, a) {
        DamagedRecord(crc, whole, file, a, r, drops, p, record, p + |framed|);
      }
    }
  }

  /** A whole fragment at `a` that does not match its checksum, in a file that is otherwise as written before `a` and behind its block. */
  ghost predicate Mismatch(crc: Crc, whole: Bytes, file: Bytes, a: nat) {
    && |file| == |whole| && FitsAt(file, a) && !Blank(file, a) && !SumFits(crc, file, a)
    && file[..a] == whole[..a] && file[RestEnds(file, a)..] == whole[RestEnds(file, a)..]
  }

  ghost predicate DamagedFile(crc: Crc, records: seq<Bytes>, file: Bytes, a: nat) {
    match HeaderIn(Framer(crc), records, 0, a)
    case true => Mismatch(crc, Laid(Framer(crc), records, 0), file, a)
    case false => false
  }

  lemma FitsIsHeader(file: Bytes, a: nat)
    requires FitsAt(file, a)
    ensures NextHeader(a) == a && a < RestEnds(file, a) <= |file| && (Off(RestEnds(file, a)) == 0 || RestEnds(file, a) == |file|)
  {
    OffIsRemainder(RestEnds(file, a));
  }

  lemma FileAround(crc: Crc, records: seq<Bytes>, whole: Bytes, file: Bytes, a: nat, r: nat, drops: seq<nat>)
    requires BadAt(crc, whole, file, a, r, drops) && whole == Laid(Framer(crc), records, 0) && HeaderIn(Framer(crc), records, 0, a)
    ensures ReadWith(NextRecord(crc), file, 0).records
            == records[..WholeRecords(Framer(crc), records, 0, a)] + ReadWith(NextRecord(crc), file, r).records
    ensures ReadWith(NextRecord(crc), file, 0).drops != []
  {
    forall p: nat, record: Bytes ensures DamagedAt(Framer(crc), NextRecord(crc), whole, file, a, r, p, record) {
      RecordAround(crc, whole, file, a, r, drops, p, record);
    }
    assert whole[0..|whole|] == whole;
    ReadAround(Framer(crc), NextRecord(crc), whole, file, 0, records, a, r);
  }

  /** The damage costs the records that touch it or start behind it in its block, and it is reported; all other records are returned. */
  lemma DamageIsContained(crc: Crc, records: seq<Bytes>, file: Bytes, a: nat)
    requires DamagedFile(crc, records, file, a)
    ensures ReadWith(NextRecord(crc), file, 0).records
            == records[..WholeRecords(Framer(crc), records, 0, a)] + records[StartedBefore(Framer(crc), records, 0, RestEnds(file, a))..]
    ensures ReadWith(NextRecord(crc), file, 0).drops != []
  {
    var whole := Laid(Framer(crc), records, 0);
    MismatchIsLost(crc, whole, file, a);
    Contained(crc, records, whole, file, a, RestEnds(file, a), [RestEnds(file, a) - a]);
  }

  lemma MismatchIsLost(crc: Crc, whole: Bytes, file: Bytes, a: nat)
    requires Mismatch(crc, whole, file, a)
    ensures a < RestEnds(file, a) && LostAt(crc, whole, file, a, RestEnds(file, a), [RestEnds(file, a) - a])
  {
    FitsIsHeader(file, a);
    PhysicalExactly(crc, file, a);
  }

  /** The same of any fragment that the reader finds bad. */
  ghost predicate LostAt(crc: Crc, whole: Bytes, file: Bytes, a: nat, r: nat, drops: seq<nat>) {
    match SameFrom(file, whole, r)
    case true => (Off(r) == 0 || r == |file|) && BadAt(crc, whole, file, a, r, drops)
    case false => false
  }

  lemma Contained(crc: Crc, records: seq<Bytes>, whole: Bytes, file: Bytes, a: nat, r: nat, drops: seq<nat>)
    requires LostAt(crc, whole, file, a, r, drops) && whole == Laid(Framer(crc), records, 0) && HeaderIn(Framer(crc), records, 0, a)
    ensures ReadWith(NextRecord(crc), file, 0).records
            == records[..WholeRecords(Framer(crc), records, 0, a)] + records[StartedBefore(Framer(crc), records, 0, r)..]
    ensures ReadWith(NextRecord(crc), file, 0).drops != []
  {
    FileAround(crc, records, whole, file, a, r, drops);
    SameReading(crc, file, whole, r, r);
    Resume(crc, records, r);
  }

  /** Read such a file. */
  method ReadDamaged(crc: Crc, ghost records: seq<Bytes>, file: Bytes, ghost a: nat) returns (recovered: seq<Bytes>, drops: seq<nat>)
    requires DamagedFile(crc, records, file, a)
    ensures recovered == records[..WholeRecords(Framer(crc), records, 0, a)] + records[StartedBefore(Framer(crc), records, 0, RestEnds(file, a))..]
    ensures drops != []
  {
    recovered, drops := ReadAll(crc, file);
    DamageIsContained(crc, records, file, a);
  }
}
