/** What the log writer wrote, the reader reads back: all of it from a whole file, and from a file torn anywhere exactly
    the records that are whole, without reporting an error.
 */
module LogRoundTrip {
  import opened InternalKeys
  import opened Framing
  import opened LogFormat
  import opened LogReader

  // ---------------------------------------------------------------- one physical record

  lemma {:induction false} ParsePhysical(crc: Crc, kind: byte, data: Bytes, rest: Bytes, full: bool)
    requires |data| < 65536 && kind != 0
    ensures Parse(crc, Physical(crc, kind, data) + rest, full) == Parsed(Record(kind, data), HEADER + |data|, [])
  {
    var block := Physical(crc, kind, data) + rest;
    var sum := Mask(crc([kind] + data));
    FixedRanges();
    assert block[..4] == EncodeFixed(sum, 4);
    DecodeEncodeFixed(sum, 4);
    UnmaskMask(crc([kind] + data));
    assert block[4..6] == EncodeFixed(|data|, 2);
    DecodeEncodeFixed(|data|, 2);
    assert block[6] == kind;
    assert block[6..HEADER + |data|] == [kind] + data;
    assert block[HEADER..HEADER + |data|] == data;
  }

  /** Torn inside the record: the header may be whole, but the payload is not. */
  lemma ParseTorn(crc: Crc, kind: byte, data: Bytes, n: nat)
    requires |data| < 65536 && HEADER <= n < HEADER + |data|
    ensures Parse(crc, Physical(crc, kind, data)[..n], false) == Parsed(EndOfFile, n, [])
  {
    var block := Physical(crc, kind, data)[..n];
    FixedRanges();
    assert block[4..6] == EncodeFixed(|data|, 2);
    DecodeEncodeFixed(|data|, 2);
  }

  /** `whole` holds a physical record in one block after position `p` and its padding. */
  ghost predicate PhysicalIn(crc: Crc, whole: Bytes, p: nat, kind: byte, data: Bytes) {
    && kind != 0 && Start(Off(p)) + HEADER + |data| <= BLOCK
    && Part(whole, p + |Pad(Off(p))|, HEADER + |data|) == Some(Physical(crc, kind, data))
  }

  /** Padding takes the reader where the writer put the header. */
  lemma PadLeadsToHeader(p: nat)
    ensures HeaderAt(p) == p + |Pad(Off(p))|
    ensures Off(HeaderAt(p)) == Start(Off(p))
  {
    NextBlock(p);
  }

  lemma SplitBlock(whole: Bytes, cut: nat, q: nat, m: nat, end: nat)
    requires q <= m <= end <= cut <= |whole|
    ensures whole[..cut][q..end] == whole[q..m] + whole[..cut][m..end]
  {
    var x, y := whole[..cut][q..end], whole[q..m] + whole[..cut][m..end];
    forall i | 0 <= i < end - q ensures x[i] == y[i] {
      assert x[i] == whole[q + i];
      assert q + i >= m ==> y[i] == whole[..cut][m..end][q + i - m] == whole[m + (q + i - m)];
    }
  }

  lemma ScanWhole(crc: Crc, whole: Bytes, cut: nat, p: nat, kind: byte, data: Bytes)
    requires PhysicalIn(crc, whole, p, kind, data) && HeaderAt(p) + HEADER + |data| <= cut <= |whole|
    ensures PhysicalAt(crc, whole[..cut], p) == Scan(Record(kind, data), HeaderAt(p) + HEADER + |data|, [])
  {
    var file, q := whole[..cut], HeaderAt(p);
    PadLeadsToHeader(p);
    var end := BlockEnd(file, q);
    SplitBlock(whole, cut, q, q + HEADER + |data|, end);
    ParsePhysical(crc, kind, data, file[q + HEADER + |data|..end], end == BlockStart(q) + BLOCK);
  }

  lemma ScanTorn(crc: Crc, whole: Bytes, cut: nat, p: nat, kind: byte, data: Bytes)
    requires PhysicalIn(crc, whole, p, kind, data) && p <= cut <= |whole| && cut < HeaderAt(p) + HEADER + |data|
    ensures PhysicalAt(crc, whole[..cut], p) == Scan(EndOfFile, cut, [])
  {
    var file, q := whole[..cut], HeaderAt(p);
    PadLeadsToHeader(p);
    if q + HEADER <= cut {
      assert BlockEnd(file, q) == cut && cut < BlockStart(q) + BLOCK;
      assert file[q..cut] == Physical(crc, kind, data)[..cut - q];
      ParseTorn(crc, kind, data, cut - q);
    }
  }

  // ---------------------------------------------------------------- one record

  ghost predicate FramedIn(crc: Crc, whole: Bytes, p: nat, data: Bytes, begin: bool, end: nat) {
    p <= end && Part(whole, p, end - p) == Some(Framed(crc, data, Off(p), begin))
  }

  /** A framed record that fits its block is one fragment. */
  lemma OnlyFragment(crc: Crc, whole: Bytes, p: nat, data: Bytes, begin: bool, end: nat)
    requires FramedIn(crc, whole, p, data, begin, end) && FragmentLength(|data|, Off(p)) == |data|
    ensures PhysicalIn(crc, whole, p, Kind(begin, true), data) && end == HeaderAt(p) + HEADER + |data|
  {
    PadLeadsToHeader(p);
    assert data[..|data|] == data;
    var pad, physical := Pad(Off(p)), Physical(crc, Kind(begin, true), data);
    assert Framed(crc, data, Off(p), begin) == pad + physical + [];
    PartOfParts(whole, p, pad, physical, []);
  }

  /** Otherwise it starts with a fragment that fills the block, and the rest is framed from the next block on. */
  lemma FirstOfMore(crc: Crc, whole: Bytes, p: nat, data: Bytes, begin: bool, end: nat, n: nat)
    requires FramedIn(crc, whole, p, data, begin, end) && n == FragmentLength(|data|, Off(p)) && n < |data|
    ensures PhysicalIn(crc, whole, p, Kind(begin, false), data[..n])
    ensures FramedIn(crc, whole, HeaderAt(p) + HEADER + n, data[n..], false, end)
  {
    PadLeadsToHeader(p);
    FillsBlock(p, n, |data|);
    var pad, physical, rest := Pad(Off(p)), Physical(crc, Kind(begin, false), data[..n]), Framed(crc, data[n..], 0, false);
    assert Framed(crc, data, Off(p), begin) == pad + physical + rest;
    PartOfParts(whole, p, pad, physical, rest);
  }

  // ---------------------------------------------------------------- what a scan contributes

  lemma RecordEnds(crc: Crc, file: Bytes, p: nat, fragmented: bool, scratch: Bytes, next: nat)
    requires p <= |file| && PhysicalAt(crc, file, p) == Scan(EndOfFile, next, [])
    ensures RecordFrom(crc, file, p, fragmented, scratch) == Logical(None, next, [])
  {
  }

  lemma RecordGoesOn(crc: Crc, file: Bytes, p: nat, begin: bool, scratch: Bytes, data: Bytes, next: nat)
    requires p <= |file| && PhysicalAt(crc, file, p) == Scan(Record(Kind(begin, false), data), next, []) && (begin ==> scratch == [])
    ensures RecordFrom(crc, file, p, !begin, scratch) == RecordFrom(crc, file, next, true, scratch + data)
  {
    assert Take(Record(Kind(begin, false), data), !begin, scratch) == More(true, scratch + data, []);
    var r := RecordFrom(crc, file, next, true, scratch + data);
    assert After([], r) == r;
  }

  lemma RecordIsDone(crc: Crc, file: Bytes, p: nat, begin: bool, scratch: Bytes, data: Bytes, next: nat)
    requires p <= |file| && PhysicalAt(crc, file, p) == Scan(Record(Kind(begin, true), data), next, []) && (begin ==> scratch == [])
    ensures RecordFrom(crc, file, p, !begin, scratch) == Logical(Some(scratch + data), next, [])
  {
    assert [] + data == data;
    assert Take(Record(Kind(begin, true), data), !begin, scratch) == Done(Some(scratch + data), []);
  }

  lemma TornFragment(crc: Crc, whole: Bytes, cut: nat, p: nat, begin: bool, scratch: Bytes, kind: byte, data: Bytes)
    requires PhysicalIn(crc, whole, p, kind, data) && p <= cut <= |whole| && cut < HeaderAt(p) + HEADER + |data|
    ensures RecordFrom(crc, whole[..cut], p, !begin, scratch) == Logical(None, cut, [])
  {
    ScanTorn(crc, whole, cut, p, kind, data);
    RecordEnds(crc, whole[..cut], p, !begin, scratch, cut);
  }

  lemma LastFragment(crc: Crc, whole: Bytes, cut: nat, p: nat, begin: bool, scratch: Bytes, data: Bytes)
    requires PhysicalIn(crc, whole, p, Kind(begin, true), data) && HeaderAt(p) + HEADER + |data| <= cut <= |whole| && (begin ==> scratch == [])
    ensures RecordFrom(crc, whole[..cut], p, !begin, scratch) == Logical(Some(scratch + data), HeaderAt(p) + HEADER + |data|, [])
  {
    ScanWhole(crc, whole, cut, p, Kind(begin, true), data);
    RecordIsDone(crc, whole[..cut], p, begin, scratch, data, HeaderAt(p) + HEADER + |data|);
  }

  lemma OneMoreFragment(crc: Crc, whole: Bytes, cut: nat, p: nat, begin: bool, scratch: Bytes, data: Bytes, p': nat, r: Logical)
    requires PhysicalIn(crc, whole, p, Kind(begin, false), data) && (begin ==> scratch == [])
    requires p' == HeaderAt(p) + HEADER + |data| <= cut <= |whole| && RecordFrom(crc, whole[..cut], p', true, scratch + data) == r
    ensures RecordFrom(crc, whole[..cut], p, !begin, scratch) == r
  {
    ScanWhole(crc, whole, cut, p, Kind(begin, false), data);
    RecordGoesOn(crc, whole[..cut], p, begin, scratch, data, p');
  }

  /** Reading at a framed record gives the record if it is whole in the file, and otherwise the end of the file. */
  lemma {:induction false} ReadFramed(crc: Crc, whole: Bytes, cut: nat, p: nat, data: Bytes, begin: bool, scratch: Bytes, end: nat)
    requires FramedIn(crc, whole, p, data, begin, end) && p <= cut <= |whole| && (begin ==> scratch == [])
    ensures RecordFrom(crc, whole[..cut], p, !begin, scratch) == WholeOrEnd(scratch + data, end, cut)
    decreases |data|, BLOCK - Start(Off(p)) == HEADER
  {
    var n := FragmentLength(|data|, Off(p));
    if n == |data| {
      OnlyFragment(crc, whole, p, data, begin, end);
      ReadLast(crc, whole, cut, p, begin, scratch, data);
    } else {
      var p' := HeaderAt(p) + HEADER + n;
      FirstOfMore(crc, whole, p, data, begin, end, n);
      if p' > cut {
        TornFragment(crc, whole, cut, p, begin, scratch, Kind(begin, false), data[..n]);
      } else {
        FillsBlock(p, n, |data|);
        ReadFramed(crc, whole, cut, p', data[n..], false, scratch + data[..n], end);
        Rejoin(scratch, data, n);
        OneMoreFragment(crc, whole, cut, p, begin, scratch, data[..n], p', WholeOrEnd(scratch + data, end, cut));
      }
    }
  }

  lemma Rejoin(scratch: Bytes, data: Bytes, n: nat)
    requires n <= |data|
    ensures (scratch + data[..n]) + data[n..] == scratch + data
  {
    assert data[..n] + data[n..] == data;
  }

  lemma ReadLast(crc: Crc, whole: Bytes, cut: nat, p: nat, begin: bool, scratch: Bytes, data: Bytes)
    requires PhysicalIn(crc, whole, p, Kind(begin, true), data) && p <= cut <= |whole| && (begin ==> scratch == [])
    ensures RecordFrom(crc, whole[..cut], p, !begin, scratch) == WholeOrEnd(scratch + data, HeaderAt(p) + HEADER + |data|, cut)
  {
    if HeaderAt(p) + HEADER + |data| > cut {
      TornFragment(crc, whole, cut, p, begin, scratch, Kind(begin, true), data);
    } else {
      LastFragment(crc, whole, cut, p, begin, scratch, data);
    }
  }

  lemma FillsBlock(p: nat, n: nat, left: nat)
    requires n == FragmentLength(left, Off(p)) && n < left
    ensures Off(HeaderAt(p) + HEADER + n) == 0
    ensures n == 0 ==> BLOCK - Start(Off(p)) == HEADER
  {
    PadLeadsToHeader(p);
    NextBlock(HeaderAt(p));
  }

  // ---------------------------------------------------------------- whole files

  lemma EndIsEnd(crc: Crc, file: Bytes)
    ensures RecordFrom(crc, file, |file|, false, []) == Logical(None, |file|, [])
  {
    PadLeadsToHeader(|file|);
    RecordEnds(crc, file, |file|, false, [], |file|);
  }

  lemma FramedIsNotEmpty(crc: Crc, record: Bytes, p: nat)
    ensures Framer(crc)(record, p) != []
  {
  }

  lemma ReadFirst(crc: Crc, whole: Bytes, cut: nat, p: nat, record: Bytes, framed: Bytes)
    requires framed == Framer(crc)(record, p) && Part(whole, p, |framed|) == Some(framed) && p <= cut <= |whole|
    ensures NextRecord(crc)(whole[..cut], p) == WholeOrEnd(record, p + |framed|, cut)
  {
    ReadFramed(crc, whole, cut, p, record, true, [], p + |framed|);
    assert [] + record == record;
  }

  /** Reading undoes framing, record by record. */
  lemma ReaderInvertsWriter(crc: Crc)
    ensures Inverts(Framer(crc), NextRecord(crc))
  {
    var frame, step := Framer(crc), NextRecord(crc);
    forall whole: Bytes, cut: nat, p: nat, record: Bytes ensures InvertsAt(frame, step, whole, cut, p, record) {
      if p <= cut <= |whole| && Part(whole, p, |frame(record, p)|) == Some(frame(record, p)) {
        FramedIsNotEmpty(crc, record, p);
        ReadFirst(crc, whole, cut, p, record, frame(record, p));
      }
    }
    forall file ensures step(file, |file|) == Logical(None, |file|, []) {
      EndIsEnd(crc, file);
    }
  }

  /** Torn tail: from every byte-prefix of a written log the reader returns exactly the records that lie wholly in it, and
      reports no drop. */
  lemma TornTail(crc: Crc, records: seq<Bytes>, cut: nat)
    requires cut <= |Laid(Framer(crc), records, 0)|
    ensures ReadWith(NextRecord(crc), Laid(Framer(crc), records, 0)[..cut], 0)
            == Contents(records[..WholeRecords(Framer(crc), records, 0, cut)], [])
  {
    ReaderInvertsWriter(crc);
    TornFile(Framer(crc), NextRecord(crc), records, cut);
  }

  /** Round trip: a whole log reads back as the records written. */
  lemma RoundTrip(crc: Crc, records: seq<Bytes>)
    ensures ReadWith(NextRecord(crc), Laid(Framer(crc), records, 0), 0) == Contents(records, [])
  {
    ReaderInvertsWriter(crc);
    WholeFile(Framer(crc), NextRecord(crc), records, Laid(Framer(crc), records, 0));
  }

  /** Write records, lose the end of the file, read what is left. */
  method WriteTearRead(crc: Crc, records: seq<Bytes>, cut: nat) returns (recovered: seq<Bytes>, drops: seq<nat>)
    requires cut <= |Laid(Framer(crc), records, 0)|
    ensures recovered == records[..WholeRecords(Framer(crc), records, 0, cut)] && drops == []
  {
    var file := WriteAll(crc, records);
    recovered, drops := ReadAll(crc, file[..cut]);
    TornTail(crc, records, cut);
  }
}
