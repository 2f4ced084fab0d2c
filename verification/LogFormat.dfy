/** The framed log: 32 KiB blocks of physical records, and the writer that cuts records into fragments
    (db/log_format.h, db/log_writer.cc, util/crc32c.h, util/coding.h).

    The checksum is an arbitrary 32-bit function of the bytes it covers.
 */
module LogFormat {
  import opened InternalKeys
  import opened Framing

  const BLOCK: nat := 32768
  const HEADER: nat := 7
  const TWO32: nat := 0x1_0000_0000

  type U32 = x: nat | x < TWO32
  type Crc = Bytes -> U32

  // Record types; zero is reserved for preallocated files.
  const FULL: byte := 1
  const FIRST: byte := 2
  const MIDDLE: byte := 3
  const LAST: byte := 4

  // ---------------------------------------------------------------- checksums

  const MASK_DELTA: U32 := 0xa282ead8

  /** A stored checksum: the halves of 17 and 15 bits change places, and an offset is added modulo 2^32. */
  function Mask(crc: U32): U32 {
    (crc / 0x8000 + crc % 0x8000 * 0x2_0000 + MASK_DELTA) % TWO32
  }

  function Unmask(masked: U32): U32 {
    var rot := (masked + TWO32 - MASK_DELTA) % TWO32;
    rot / 0x2_0000 + rot % 0x2_0000 * 0x8000
  }

  lemma UnmaskMask(crc: U32)
    ensures Unmask(Mask(crc)) == crc
  {
    var rot := crc / 0x8000 + crc % 0x8000 * 0x2_0000;
    assert rot < TWO32;
    assert (Mask(crc) + TWO32 - MASK_DELTA) % TWO32 == rot;
    assert rot / 0x2_0000 == crc % 0x8000;
    assert rot % 0x2_0000 == crc / 0x8000;
  }

  /** The low `n` bytes of a number, least significant first. */
  function EncodeFixed(x: nat, n: nat): (b: Bytes)
    ensures |b| == n
  {
    if n == 0 then [] else [(x % 256) as byte] + EncodeFixed(x / 256, n - 1)
  }

  function DecodeFixed(b: Bytes): nat {
    if b == [] then 0 else b[0] as nat + 256 * DecodeFixed(b[1..])
  }

  function Pow256(n: nat): nat { if n == 0 then 1 else 256 * Pow256(n - 1) }

  lemma {:induction false} DecodeEncodeFixed(x: nat, n: nat)
    requires x < Pow256(n)
    ensures DecodeFixed(EncodeFixed(x, n)) == x
  {
    if n > 0 {
      DecodeEncodeFixed(x / 256, n - 1);
      assert EncodeFixed(x, n)[1..] == EncodeFixed(x / 256, n - 1);
    }
  }

  lemma FixedRanges()
    ensures Pow256(2) == 65536 && Pow256(4) == TWO32
  {
    assert Pow256(1) == 256 && Pow256(3) == 256 * Pow256(2);
  }

  // ---------------------------------------------------------------- blocks

  /** The position at which the block holding `p` starts. */
  function BlockStart(p: nat): (b: nat)
    ensures b <= p < b + BLOCK
  {
    if p < BLOCK then 0 else BLOCK + BlockStart(p - BLOCK)
  }

  function Off(p: nat): (o: nat)
    ensures o < BLOCK && o <= p
  {
    p - BlockStart(p)
  }

  lemma {:induction false} OffIsRemainder(p: nat)
    ensures Off(p) == p % BLOCK
  {
    if p >= BLOCK { OffIsRemainder(p - BLOCK); }
  }

  lemma {:induction false} SameBlock(p: nat, q: nat)
    requires BlockStart(p) <= q < BlockStart(p) + BLOCK
    ensures BlockStart(q) == BlockStart(p)
  {
    if p >= BLOCK { SameBlock(p - BLOCK, q - BLOCK); }
  }

  lemma {:induction false} NextBlock(p: nat)
    ensures BlockStart(BlockStart(p) + BLOCK) == BlockStart(p) + BLOCK
    ensures Off(BlockStart(p) + BLOCK) == 0
  {
    if p >= BLOCK { NextBlock(p - BLOCK); }
  }

  // ---------------------------------------------------------------- physical records

  /** Header and payload: masked checksum of type and payload, two length bytes, type. */
  function Physical(crc: Crc, kind: byte, data: Bytes): (b: Bytes)
    requires |data| < 65536
    ensures |b| == HEADER + |data|
  {
    EncodeFixed(Mask(crc([kind] + data)), 4) + EncodeFixed(|data|, 2) + [kind] + data
  }

  function Zeros(n: nat): (b: Bytes)
    ensures |b| == n
  {
    seq(n, _ => 0)
  }

  /** The trailer written at `off` when no header fits in the rest of the block. */
  function Pad(off: nat): Bytes
    requires off <= BLOCK
  {
    if BLOCK - off < HEADER then Zeros(BLOCK - off) else []
  }

  /** Where in its block the next physical record starts. */
  function Start(off: nat): (o: nat)
    requires off <= BLOCK
    ensures o + HEADER <= BLOCK
  {
    if BLOCK - off < HEADER then 0 else off
  }

  function Kind(begin: bool, end: bool): byte {
    if begin && end then FULL else if begin then FIRST else if end then LAST else MIDDLE
  }

  function Min(a: nat, b: nat): nat { if a < b then a else b }

  /** Length of the next fragment of a record with `left` bytes to go. */
  function FragmentLength(left: nat, off: nat): nat
    requires off <= BLOCK
  {
    Min(left, BLOCK - Start(off) - HEADER)
  }

  /** The bytes the writer appends for `data` at block offset `off`. A fragment that is not the last fills its block. */
  function Framed(crc: Crc, data: Bytes, off: nat, begin: bool): Bytes
    requires off <= BLOCK
    decreases |data|, BLOCK - Start(off) == HEADER
  {
    var n := FragmentLength(|data|, off);
    var end := n == |data|;
    Pad(off) + Physical(crc, Kind(begin, end), data[..n]) + if end then [] else Framed(crc, data[n..], 0, false)
  }

  /** A record framed as one from position `p` of the file on. */
  function Framer(crc: Crc): Frame {
    (record: Bytes, p: nat) => Framed(crc, record, Off(p), true)
  }

  /** The writer's offset BLOCK and offset 0 mean the same place. */
  lemma EndOfBlockIsStart(crc: Crc, data: Bytes, begin: bool)
    ensures Framed(crc, data, BLOCK, begin) == Framed(crc, data, 0, begin)
  {
    assert Pad(BLOCK) == [] == Pad(0);
  }

  // ---------------------------------------------------------------- writer

  /** A writer's block offset agrees with the file length; the end of a block may be written as BLOCK. */
  predicate OffsetAt(off: nat, len: nat) {
    off == Off(len) || (off == BLOCK && Off(len) == 0)
  }

  lemma OffsetAdvances(off: nat, len: nat, n: nat)
    requires OffsetAt(off, len) && off + n <= BLOCK
    ensures OffsetAt(off + n, len + n)
    ensures off + n == BLOCK ==> OffsetAt(0, len + n)
  {
    if off + n == BLOCK {
      if n > 0 { NextBlock(len); }
    } else {
      SameBlock(len, len + n);
    }
  }

  lemma SameOffset(crc: Crc, record: Bytes, off: nat, len: nat)
    requires OffsetAt(off, len)
    ensures Framed(crc, record, off, true) == Framed(crc, record, Off(len), true)
  {
    EndOfBlockIsStart(crc, record, true);
  }

  /** One fragment, then the rest from the end of the block it filled. */
  lemma FramedStep(crc: Crc, data: Bytes, off: nat, begin: bool, n: nat)
    requires off <= BLOCK && n == FragmentLength(|data|, off)
    ensures n < |data| ==> Start(off) + HEADER + n == BLOCK
    ensures var head := Pad(off) + Physical(crc, Kind(begin, n == |data|), data[..n]);
            Framed(crc, data, off, begin) == if n == |data| then head else head + Framed(crc, data[n..], BLOCK, false)
  {
    if n < |data| {
      EndOfBlockIsStart(crc, data[n..], false);
    }
  }

  class Writer {
    const crc: Crc
    var dest: Bytes
    var blockOffset: nat

    ghost predicate Valid()
      reads this
    {
      OffsetAt(blockOffset, |dest|)
    }

    constructor (crc: Crc, dest: Bytes)
      ensures Valid() && this.crc == crc && this.dest == dest
    {
      this.crc, this.dest := crc, dest;
      blockOffset := |dest| % BLOCK;
      OffIsRemainder(|dest|);
    }

    /** Append one record, cut into fragments at block boundaries; an empty record still takes one header. */
    method AddRecord(record: Bytes)
      requires Valid()
      modifies this
      ensures Valid()
      ensures dest == old(dest) + Framer(crc)(record, old(|dest|))
    {
      var left := record;
      var begin := true;
      ghost var whole := dest + Framed(crc, record, blockOffset, true);
      SameOffset(crc, record, blockOffset, |dest|);
      while true
        invariant Valid()
        invariant dest + Framed(crc, left, blockOffset, begin) == whole
        decreases |left|, BLOCK - Start(blockOffset) == HEADER
      {
        FramedStep(crc, left, blockOffset, begin, FragmentLength(|left|, blockOffset));
        ghost var before, off := dest, blockOffset;
        var n := EmitFragment(left, begin);
        if |left| == n {
          break;
        }
        Assoc(before, Pad(off) + Physical(crc, Kind(begin, false), left[..n]), Framed(crc, left[n..], BLOCK, false));
        left, begin := left[n..], false;
      }
    }

    /** One turn of the loop: fill the trailer if no header fits, then write as much as the block takes. */
    method EmitFragment(left: Bytes, begin: bool) returns (n: nat)
      requires Valid()
      modifies this
      ensures Valid() && blockOffset == Start(old(blockOffset)) + HEADER + n
      ensures n == FragmentLength(|left|, old(blockOffset))
      ensures dest == old(dest) + (Pad(old(blockOffset)) + Physical(crc, Kind(begin, n == |left|), left[..n]))
    {
      var leftover := BLOCK - blockOffset;
      if leftover < HEADER {
        if leftover > 0 {
          dest := dest + Zeros(leftover);
        }
        OffsetAdvances(blockOffset, old(|dest|), leftover);
        blockOffset := 0;
      }
      assert dest == old(dest) + Pad(old(blockOffset));
      var avail := BLOCK - blockOffset - HEADER;
      n := if |left| < avail then |left| else avail;
      EmitPhysicalRecord(Kind(begin, |left| == n), left[..n]);
      Assoc(old(dest), Pad(old(blockOffset)), Physical(crc, Kind(begin, |left| == n), left[..n]));
    }

    method EmitPhysicalRecord(kind: byte, data: Bytes)
      requires Valid() && blockOffset + HEADER + |data| <= BLOCK
      modifies this
      ensures dest == old(dest) + Physical(crc, kind, data)
      ensures blockOffset == old(blockOffset) + HEADER + |data| && Valid()
    {
      var header := EncodeFixed(Mask(crc([kind] + data)), 4) + EncodeFixed(|data|, 2) + [kind];
      dest := dest + header;
      dest := dest + data;
      OffsetAdvances(blockOffset, old(|dest|), HEADER + |data|);
      blockOffset := blockOffset + HEADER + |data|;
    }
  }

  /** Adding a record to a file of laid records lays it behind them. */
  method AddBehind(writer: Writer, record: Bytes, ghost records: seq<Bytes>)
    requires writer.Valid() && writer.dest == Laid(Framer(writer.crc), records, 0)
    modifies writer
    ensures writer.Valid() && writer.dest == Laid(Framer(writer.crc), records + [record], 0)
  {
    LaidAppend(Framer(writer.crc), records, record, 0, |writer.dest|);
    writer.AddRecord(record);
  }

  /** Writing a list of records to an empty file. */
  method WriteAll(crc: Crc, records: seq<Bytes>) returns (file: Bytes)
    ensures file == Laid(Framer(crc), records, 0)
  {
    var writer := new Writer(crc, []);
    for i := 0 to |records|
      invariant writer.Valid() && writer.crc == crc && fresh(writer)
      invariant writer.dest == Laid(Framer(crc), records[..i], 0)
    {
      AddBehind(writer, records[i], records[..i]);
      TakeNext(records, i);
    }
    assert records[..|records|] == records;
    file := writer.dest;
  }
}
