/** Files of framed records in general: records laid one after the other, and reading them back from a file cut short.
    A framing gives the bytes of a record at a position; a reading step gives the next whole record from a position.
 */
module Framing {
  import opened InternalKeys

  type Frame = (Bytes, nat) -> Bytes

  /** The next whole record if there is one, the position after it, and the sizes of drops reported on the way. */
  datatype Logical = Logical(record: Option<Bytes>, next: nat, drops: seq<nat>)

  type Step = (Bytes, nat) -> Logical

  // ---------------------------------------------------------------- writing

  /** Records one after the other, the first one at position `p` of the file. */
  function Laid(frame: Frame, records: seq<Bytes>, p: nat): Bytes {
    if records == [] then []
    else frame(records[0], p) + Laid(frame, records[1..], p + |frame(records[0], p)|)
  }

  lemma Assoc(a: Bytes, b: Bytes, c: Bytes)
    ensures (a + b) + c == a + (b + c)
  {
  }

  /** Appending a record to a file lays it behind the others. */
  lemma {:induction false} LaidAppend(frame: Frame, records: seq<Bytes>, record: Bytes, p: nat, end: nat)
    requires end == p + |Laid(frame, records, p)|
    ensures Laid(frame, records + [record], p) == Laid(frame, records, p) + frame(record, end)
    decreases records
  {
    var all := records + [record];
    if records == [] {
      assert all == [record] && all[1..] == [];
    } else {
      var first := frame(records[0], p);
      assert all[0] == records[0] && all[1..] == records[1..] + [record];
      LaidAppend(frame, records[1..], record, p + |first|, end);
      Assoc(first, Laid(frame, records[1..], p + |first|), frame(record, end));
    }
  }

  lemma TakeNext(records: seq<Bytes>, i: nat)
    requires i < |records|
    ensures records[..i + 1] == records[..i] + [records[i]]
  {
  }

  // ---------------------------------------------------------------- reading

  datatype Contents = Contents(records: seq<Bytes>, drops: seq<nat>)

  function Prepend(records: seq<Bytes>, drops: seq<nat>, c: Contents): Contents {
    Contents(records + c.records, drops + c.drops)
  }

  /** All records from position `p` on, and everything reported as dropped. */
  function ReadWith(step: Step, file: Bytes, p: nat): Contents
    decreases if p <= |file| then |file| - p else 0
  {
    var r := step(file, p);
    if r.record.None? || !(p < r.next <= |file|) then Contents([], r.drops)
    else Prepend([r.record.value], r.drops, ReadWith(step, file, r.next))
  }

  // ---------------------------------------------------------------- reading undoes writing

  /** The `n` bytes from position `p`, if they are there. */
  function Part(whole: Bytes, p: nat, n: nat): Option<Bytes> {
    if p + n <= |whole| then Some(whole[p..p + n]) else None
  }

  lemma PartOfParts(whole: Bytes, p: nat, a: Bytes, b: Bytes, c: Bytes)
    requires Part(whole, p, |a| + |b| + |c|) == Some(a + b + c)
    ensures Part(whole, p + |a|, |b|) == Some(b)
    ensures Part(whole, p + |a| + |b|, |c|) == Some(c)
  {
    var all := a + b + c;
    assert whole[p..p + |all|] == all;
    forall i | 0 <= i < |b| ensures whole[p + |a| + i] == b[i] {
      assert all[|a| + i] == b[i] && whole[p..p + |all|][|a| + i] == all[|a| + i];
    }
    forall i | 0 <= i < |c| ensures whole[p + |a| + |b| + i] == c[i] {
      assert all[|a| + |b| + i] == c[i] && whole[p..p + |all|][|a| + |b| + i] == all[|a| + |b| + i];
    }
    assert whole[p + |a|..p + |a| + |b|] == b;
    assert whole[p + |a| + |b|..p + |a| + |b| + |c|] == c;
  }

  /** The record if it ends within the file, and otherwise the end of the file. */
  function WholeOrEnd(record: Bytes, end: nat, cut: nat): Logical {
    if end <= cut then Logical(Some(record), end, []) else Logical(None, cut, [])
  }

  /** At a framed record of a file cut anywhere, the step gives the record if it is whole and the end of the file if not. */
  ghost predicate InvertsAt(frame: Frame, step: Step, whole: Bytes, cut: nat, p: nat, record: Bytes) {
    p <= cut <= |whole| && Part(whole, p, |frame(record, p)|) == Some(frame(record, p))
    ==> frame(record, p) != [] && step(whole[..cut], p) == WholeOrEnd(record, p + |frame(record, p)|, cut)
  }

  ghost predicate Inverts(frame: Frame, step: Step) {
    && (forall whole: Bytes, cut: nat, p: nat, record: Bytes :: InvertsAt(frame, step, whole, cut, p, record))
    && (forall file :: step(file, |file|) == Logical(None, |file|, []))
  }

  /** How many of the records laid from position `p` on end at or before `cut`. */
  function WholeRecords(frame: Frame, records: seq<Bytes>, p: nat, cut: nat): (k: nat)
    ensures k <= |records|
  {
    if records == [] then 0
    else
      var end := p + |frame(records[0], p)|;
      if end <= cut then 1 + WholeRecords(frame, records[1..], end, cut) else 0
  }

  lemma TakeOne(records: seq<Bytes>, n: nat)
    requires n < |records|
    ensures [records[0]] + records[1..][..n] == records[..n + 1]
  {
  }

  /** Position `p` of `whole` starts the records, and they run to its end. */
  ghost predicate LaidFrom(frame: Frame, whole: Bytes, p: nat, records: seq<Bytes>) {
    p <= |whole| && Part(whole, p, |whole| - p) == Some(Laid(frame, records, p))
  }

  lemma FirstRecord(frame: Frame, whole: Bytes, p: nat, records: seq<Bytes>)
    requires LaidFrom(frame, whole, p, records) && records != []
    ensures var first := frame(records[0], p);
            Part(whole, p, |first|) == Some(first) && LaidFrom(frame, whole, p + |first|, records[1..])
  {
    var first := frame(records[0], p);
    var rest := Laid(frame, records[1..], p + |first|);
    assert Laid(frame, records, p) == [] + first + rest;
    PartOfParts(whole, p, [], first, rest);
  }

  lemma ReadNothing(step: Step, file: Bytes, p: nat)
    requires step(file, p) == Logical(None, |file|, [])
    ensures ReadWith(step, file, p) == Contents([], [])
  {
  }

  lemma ReadOneMore(step: Step, file: Bytes, p: nat, record: Bytes, next: nat, rest: seq<Bytes>)
    requires step(file, p) == Logical(Some(record), next, []) && p < next <= |file|
    requires ReadWith(step, file, next) == Contents(rest, [])
    ensures ReadWith(step, file, p) == Contents([record] + rest, [])
  {
  }

  /** Reading a cut file from the start of a record. */
  lemma {:induction false} ReadBack(frame: Frame, step: Step, whole: Bytes, cut: nat, p: nat, records: seq<Bytes>)
    requires Inverts(frame, step) && LaidFrom(frame, whole, p, records) && p <= cut <= |whole|
    ensures ReadWith(step, whole[..cut], p) == Contents(records[..WholeRecords(frame, records, p, cut)], [])
    decreases records
  {
    var file := whole[..cut];
    if records == [] {
      ReadNothing(step, file, p);
    } else {
      var end := p + |frame(records[0], p)|;
      FirstRecord(frame, whole, p, records);
      assert InvertsAt(frame, step, whole, cut, p, records[0]);
      if end <= cut {
        ReadBack(frame, step, whole, cut, end, records[1..]);
        var n := WholeRecords(frame, records[1..], end, cut);
        ReadOneMore(step, file, p, records[0], end, records[1..][..n]);
        TakeOne(records, n);
      } else {
        ReadNothing(step, file, p);
      }
    }
  }

  /** From every byte-prefix of a written file, reading returns exactly the records that lie wholly in it and reports no
      drop. */
  lemma TornFile(frame: Frame, step: Step, records: seq<Bytes>, cut: nat)
    requires Inverts(frame, step) && cut <= |Laid(frame, records, 0)|
    ensures ReadWith(step, Laid(frame, records, 0)[..cut], 0) == Contents(records[..WholeRecords(frame, records, 0, cut)], [])
  {
    var whole := Laid(frame, records, 0);
    assert whole[0..|whole|] == whole;
    ReadBack(frame, step, whole, cut, 0, records);
  }

  lemma {:induction false} AllAreWhole(frame: Frame, records: seq<Bytes>, p: nat, cut: nat)
    requires cut == p + |Laid(frame, records, p)|
    ensures WholeRecords(frame, records, p, cut) == |records|
    decreases records
  {
    if records != [] {
      AllAreWhole(frame, records[1..], p + |frame(records[0], p)|, cut);
    }
  }

  /** A whole file reads back as the records written. */
  lemma WholeFile(frame: Frame, step: Step, records: seq<Bytes>, whole: Bytes)
    requires Inverts(frame, step) && whole == Laid(frame, records, 0)
    ensures ReadWith(step, whole, 0) == Contents(records, [])
  {
    AllAreWhole(frame, records, 0, |whole|);
    TornFile(frame, step, records, |whole|);
    assert whole[..|whole|] == whole;
    assert records[..|records|] == records;
  }
}
