/** The encoder (pb_encode.c): output streams that write or only count, and two passes over each submessage and packed array. */
module PbEncoder {
  import opened InternalKeys
  import opened Framing
  import opened LogFormat
  import opened Varints
  import opened PbMessages
  import opened PbDecoder
  import opened PbRoundTrip
  import opened PbTheorems

  datatype Outcome = Done | StreamFull | ArrayTooLong | BytesTooLong | SizeChanged

  /** A stream with a callback hands its bytes on, up to `max` of them; one without only counts them. */
  class OStream {
    const writing: bool
    const max: nat
    var written: nat
    var out: Bytes

    ghost predicate Valid()
      reads this
    {
      writing ==> written <= max
    }

    /** There is room for `n` more bytes. */
    ghost predicate Room(n: nat)
      reads this
    {
      writing ==> written + n <= max
    }

    /** Since the stream held `out0`, and had counted `written0`, it has taken `bytes`. */
    ghost predicate Took(out0: Bytes, written0: nat, bytes: Bytes)
      reads this
    {
      written == written0 + |bytes| && out == if writing then out0 + bytes else out0
    }

    constructor (writing: bool, max: nat, out: Bytes)
      ensures Valid() && this.writing == writing && this.max == max && this.out == out && written == 0
    {
      this.writing, this.max, this.out, written := writing, max, out, 0;
    }

    method Write(buf: Bytes) returns (r: Outcome)
      requires Valid()
      modifies this
      ensures Valid() && (r == Done || r == StreamFull)
      ensures r.Done? <==> old(Room(|buf|))
      ensures r.Done? ==> Took(old(out), old(written), buf)
    {
      if |buf| > 0 && writing {
        if written + |buf| > max {
          return StreamFull;
        }
        out := out + buf;
      }
      written := written + |buf|;
      r := Done;
    }

    /** Count bytes that need not exist. */
    method Count(n: nat)
      requires Valid() && !writing
      modifies this`written
      ensures Valid() && written == old(written) + n
    {
      written := written + n;
    }

    method PutNumber(x: nat) returns (r: Outcome)
      requires Valid()
      modifies this
      ensures Valid() && (r == Done || r == StreamFull)
      ensures r.Done? <==> old(Room(|EncodeVarint(x)|))
      ensures r.Done? ==> Took(old(out), old(written), EncodeVarint(x))
    {
      var buf := NumberBytes(x);
      r := Write(buf);
    }

    /** A length and the bytes (pb_encode_string). */
    method PutString(s: Bytes) returns (r: Outcome)
      requires Valid()
      modifies this
      ensures Valid() && (r == Done || r == StreamFull)
      ensures r.Done? <==> old(Room(|EncodeVarint(|s|) + s|))
      ensures r.Done? ==> Took(old(out), old(written), EncodeVarint(|s|) + s)
    {
      r := PutNumber(|s|);
      if r.Done? {
        r := Write(s);
      }
    }
  }

  /** The bytes so far have their top bits set; those of `value` are to follow. */
  predicate Pending(x: nat, buf: Bytes, value: nat) {
    if value > 0 then EncodeVarint(x) == buf + EncodeVarint(value)
    else |buf| > 0 && buf[|buf| - 1] >= 128 && EncodeVarint(x) == buf[..|buf| - 1] + [buf[|buf| - 1] - 128]
  }

  lemma PendingNext(x: nat, buf: Bytes, value: nat)
    requires Pending(x, buf, value) && value > 0
    ensures Pending(x, buf + [(value % 128 + 128) as byte], value / 128)
  {
    var next := buf + [(value % 128 + 128) as byte];
    if value < 128 {
      assert next[..|next| - 1] == buf;
    } else {
      Assoc(buf, [(value % 128 + 128) as byte], EncodeVarint(value / 128));
    }
  }

  /** Seven bits a byte, with the top bit set and then unset on the last one. */
  method NumberBytes(x: nat) returns (buf: Bytes)
    ensures buf == EncodeVarint(x)
  {
    if x < 128 {
      return [x as byte];
    }
    buf := [];
    var value: nat := x;
    while value > 0
      invariant Pending(x, buf, value)
      decreases value
    {
      PendingNext(x, buf, value);
      buf := buf + [(value % 128 + 128) as byte];
      value := value / 128;
    }
    buf := buf[..|buf| - 1] + [buf[|buf| - 1] - 128];
  }

  // ---------------------------------------------------------------- values

  /** Single values are written in the wire format. */
  ghost predicate Writes(w: Wire) {
    (forall x: nat :: NumberWritten(w, x)) && forall k, v :: ScalarWritten(w, k, v)
  }

  predicate NumberWritten(w: Wire, x: nat) { w.putNumber(x) == EncodeVarint(x) }

  predicate ScalarWritten(w: Wire, k: Kind, v: Value) { !k.Message? && TypedValue(k, v) ==> w.putScalar(k, v) == EncodeScalar(k, v) }

  lemma ProtobufWrites()
    ensures Writes(Protobuf())
  {
    var w := Protobuf();
    forall x: nat ensures NumberWritten(w, x) {}
    forall k, v ensures ScalarWritten(w, k, v) {}
  }

  method PutTag(s: OStream, ghost w: Wire, tag: nat, wire: nat) returns (r: Outcome)
    requires s.Valid() && Writes(w)
    modifies s
    ensures s.Valid() && (r == Done || r == StreamFull)
    ensures r.Done? <==> old(s.Room(|w.EncodeTag(tag, wire)|))
    ensures r.Done? ==> s.Took(old(s.out), old(s.written), w.EncodeTag(tag, wire))
  {
    assert NumberWritten(w, tag * 8 + wire);
    r := s.PutNumber(tag * 8 + wire);
  }

  method PutScalar(s: OStream, ghost w: Wire, k: Kind, v: Value) returns (r: Outcome)
    requires s.Valid() && Writes(w) && !k.Message? && TypedValue(k, v)
    modifies s
    ensures s.Valid() && r != SizeChanged
    ensures r.Done? <==> FitsValue(k, v, false) && old(s.Room(|w.putScalar(k, v)|))
    ensures r.Done? ==> s.Took(old(s.out), old(s.written), w.putScalar(k, v))
  {
    assert ScalarWritten(w, k, v);
    match k
    case Bool => r := s.PutNumber(if v.flag then 1 else 0);
    case Varint(_) => r := s.PutNumber(if v.number < 0 then v.number + TWO64 else v.number);
    case UVarint(_) => r := s.PutNumber(v.number);
    case SVarint(_) => r := s.PutNumber(if v.number < 0 then -2 * v.number - 1 else 2 * v.number);
    case Fixed32 => r := s.Write(EncodeFixed(v.number, 4));
    case Fixed64 => r := s.Write(EncodeFixed(v.number, 8));
    case BytesOf(max) => if |v.blob| > max { r := BytesTooLong; } else { r := s.PutString(v.blob); }
    case StringOf(_) => r := s.PutString(v.blob);
    case FixedBytes(_) => r := s.PutString(v.blob);
  }

  // ---------------------------------------------------------------- arrays of numbers

  lemma ItemsSplit(w: Wire, k: Kind, items: seq<Value>, j: nat)
    requires Numbers(k, items) && j < |items|
    ensures Splits(ItemsFrom(w, k, items), ItemAt(w, k, items), j)
  {
    assert items[j..][1..] == items[j + 1..];
  }

  /** Entry `i`, on a stream that has taken those before it. */
  method PutItem(s: OStream, ghost w: Wire, k: Kind, items: seq<Value>, i: nat, ghost out0: Bytes, ghost written0: nat, ghost done: Bytes)
      returns (r: Outcome)
    requires s.Valid() && Writes(w) && Numbers(k, items) && i < |items|
    requires s.Took(out0, written0, done) && done + ItemsFrom(w, k, items)(i) == ItemsFrom(w, k, items)(0)
    modifies s
    ensures s.Valid() && r != SizeChanged
    ensures !r.Done? ==> s.writing && written0 + |ItemsFrom(w, k, items)(0)| > s.max
    ensures r.Done? ==> s.Took(out0, written0, done + ItemAt(w, k, items)(i))
    ensures r.Done? ==> done + ItemAt(w, k, items)(i) + ItemsFrom(w, k, items)(i + 1) == ItemsFrom(w, k, items)(0)
  {
    ItemsSplit(w, k, items, i);
    NextPiece(ItemsFrom(w, k, items), ItemAt(w, k, items), done, i);
    Assoc(out0, done, ItemAt(w, k, items)(i));
    r := PutScalar(s, w, k, items[i]);
  }

  lemma ItemsEnd(w: Wire, k: Kind, items: seq<Value>)
    requires Numbers(k, items)
    ensures ItemsFrom(w, k, items)(0) == EncodeItems(w, k, items) && ItemsFrom(w, k, items)(|items|) == []
  {
    assert items[0..] == items && items[|items|..] == [];
  }

  /** The entries, one after the other, on a stream that counts or writes. */
  method PutItems(s: OStream, ghost w: Wire, k: Kind, items: seq<Value>) returns (r: Outcome)
    requires s.Valid() && Writes(w) && Numbers(k, items)
    modifies s
    ensures s.Valid() && r != SizeChanged
    ensures r.Done? <==> old(s.Room(|EncodeItems(w, k, items)|))
    ensures r.Done? ==> s.Took(old(s.out), old(s.written), EncodeItems(w, k, items))
  {
    ghost var all, piece := ItemsFrom(w, k, items), ItemAt(w, k, items);
    ghost var done: Bytes := [];
    ItemsEnd(w, k, items);
    for i := 0 to |items|
      invariant s.Valid() && s.Took(old(s.out), old(s.written), done) && done + all(i) == all(0)
    {
      r := PutItem(s, w, k, items, i, old(s.out), old(s.written), done);
      if !r.Done? {
        return;
      }
      done := done + piece(i);
    }
    r := Done;
  }

  lemma NextPiece(all: nat -> Bytes, piece: nat -> Bytes, done: Bytes, i: nat)
    requires Splits(all, piece, i) && done + all(i) == all(0)
    ensures done + piece(i) + all(i + 1) == all(0) && |done| + |piece(i)| <= |all(0)|
  {
  }

  /** The size of a packed array: known for fixed-size numbers, counted for the others. */
  method PackedSize(ghost w: Wire, k: Kind, items: seq<Value>) returns (size: nat)
    requires Writes(w) && Numbers(k, items)
    ensures size == |EncodeItems(w, k, items)|
  {
    if k.Fixed32? {
      FixedSize(w, k, items, 4);
      size := 4 * |items|;
    } else if k.Fixed64? {
      FixedSize(w, k, items, 8);
      size := 8 * |items|;
    } else {
      var sizing := new OStream(false, 0, []);
      var r := PutItems(sizing, w, k, items);
      size := sizing.written;
    }
  }

  lemma {:induction false} FixedSize(w: Wire, k: Kind, items: seq<Value>, n: nat)
    requires Writes(w) && Numbers(k, items) && ((k.Fixed32? && n == 4) || (k.Fixed64? && n == 8))
    ensures |EncodeItems(w, k, items)| == n * |items|
  {
    if items != [] {
      assert ScalarWritten(w, k, items[0]);
      FixedSize(w, k, items[1..], n);
    }
  }

  method PutPacked(s: OStream, ghost w: Wire, f: Field, items: seq<Value>) returns (r: Outcome)
    requires s.Valid() && Writes(w) && Numbers(f.kind, items)
    modifies s
    ensures s.Valid() && r != SizeChanged
    ensures r.Done? <==> old(s.Room(|w.EncodeTag(f.tag, 2) + w.EncodeString(EncodeItems(w, f.kind, items))|))
    ensures r.Done? ==> s.Took(old(s.out), old(s.written), w.EncodeTag(f.tag, 2) + w.EncodeString(EncodeItems(w, f.kind, items)))
  {
    ghost var body := EncodeItems(w, f.kind, items);
    r := PutTag(s, w, f.tag, 2);
    if !r.Done? {
      return;
    }
    var size := PackedSize(w, f.kind, items);
    assert NumberWritten(w, size);
    r := s.PutNumber(size);
    if !r.Done? {
      return;
    }
    Assoc(old(s.out), w.EncodeTag(f.tag, 2), w.putNumber(size));
    Assoc(old(s.out), w.EncodeTag(f.tag, 2) + w.putNumber(size), body);
    Assoc(w.EncodeTag(f.tag, 2), w.putNumber(size), body);
    if !s.writing {
      s.Count(size);
    } else {
      r := PutItems(s, w, f.kind, items);
    }
  }

  // ---------------------------------------------------------------- messages

  method PutValue(s: OStream, ghost w: Wire, k: Kind, v: Value) returns (r: Outcome)
    requires s.Valid() && Writes(w) && TypedValue(k, v)
    modifies s
    ensures s.Valid() && r != SizeChanged
    ensures r.Done? <==> FitsValue(k, v, false) && old(s.Room(|EncodeValue(w, k, v)|))
    ensures r.Done? ==> s.Took(old(s.out), old(s.written), EncodeValue(w, k, v))
    decreases v, 1
  {
    if k.Message? {
      r := PutSubmessage(s, w, k.fields, v.slots);
    } else {
      r := PutScalar(s, w, k, v);
    }
  }

  /** Count the message, write its size, and write the message on a stream of exactly that size. The two passes agree. */
  method PutSubmessage(s: OStream, ghost w: Wire, fs: seq<Field>, slots: seq<Slot>) returns (r: Outcome)
    requires s.Valid() && Writes(w) && Typed(fs, slots)
    modifies s
    ensures s.Valid() && r != SizeChanged
    ensures r.Done? <==> Fits(fs, slots, false) && old(s.Room(|w.EncodeString(EncodeFields(w, fs, slots))|))
    ensures r.Done? ==> s.Took(old(s.out), old(s.written), w.EncodeString(EncodeFields(w, fs, slots)))
    decreases slots, 2
  {
    ghost var body := EncodeFields(w, fs, slots);
    var sizing := new OStream(false, 0, []);
    r := PutFields(sizing, w, fs, slots);
    if !r.Done? {
      return;
    }
    var size := sizing.written;
    assert NumberWritten(w, size);
    r := s.PutNumber(size);
    if !r.Done? {
      return;
    }
    Assoc(old(s.out), w.putNumber(size), body);
    if !s.writing {
      s.Count(size);
      return;
    }
    if s.written + size > s.max {
      return StreamFull;
    }
    var sub := new OStream(true, size, s.out);
    r := PutFields(sub, w, fs, slots);
    s.written := s.written + sub.written;
    s.out := sub.out;
    if sub.written != size {
      r := SizeChanged;
    }
  }

  method PutFields(s: OStream, ghost w: Wire, fs: seq<Field>, slots: seq<Slot>) returns (r: Outcome)
    requires s.Valid() && Writes(w) && Typed(fs, slots)
    modifies s
    ensures s.Valid() && r != SizeChanged
    ensures r.Done? <==> Fits(fs, slots, false) && old(s.Room(|EncodeFields(w, fs, slots)|))
    ensures r.Done? ==> s.Took(old(s.out), old(s.written), EncodeFields(w, fs, slots))
    decreases slots, 1
  {
    ghost var all, piece := FieldsFrom(w, fs, slots), FieldAt(w, fs, slots);
    ghost var done: Bytes := [];
    assert fs[0..] == fs && slots[0..] == slots && slots[|fs|..] == [];
    for i := 0 to |fs|
      invariant s.Valid() && s.Took(old(s.out), old(s.written), done) && done + all(i) == all(0)
      invariant forall j :: 0 <= j < i ==> FitsSlot(fs[j], slots[j], false)
    {
      MessageSplits(w, fs, slots, i);
      NextPiece(all, piece, done, i);
      r := PutSlot(s, w, fs[i], slots[i]);
      if !r.Done? {
        return;
      }
      Assoc(old(s.out), done, piece(i));
      done := done + piece(i);
    }
    r := Done;
  }

  method PutSlot(s: OStream, ghost w: Wire, f: Field, slot: Slot) returns (r: Outcome)
    requires s.Valid() && Writes(w) && TypedSlot(f, slot)
    modifies s
    ensures s.Valid() && r != SizeChanged
    ensures r.Done? <==> FitsSlot(f, slot, false) && old(s.Room(|EncodeSlot(w, f, slot)|))
    ensures r.Done? ==> s.Took(old(s.out), old(s.written), EncodeSlot(w, f, slot))
    decreases slot, 1
  {
    match slot
    case One(None) => r := Done;
    case One(Some(v)) => r := PutTagged(s, w, f, v);
    case Many(items) =>
      if items == [] {
        r := Done;
      } else if |items| > f.rule.limit {
        r := ArrayTooLong;
      } else if Packable(f.kind) {
        r := PutPacked(s, w, f, items);
      } else {
        r := PutArray(s, w, f, items);
      }
  }

  method PutTagged(s: OStream, ghost w: Wire, f: Field, v: Value) returns (r: Outcome)
    requires s.Valid() && Writes(w) && TypedValue(f.kind, v)
    modifies s
    ensures s.Valid() && r != SizeChanged
    ensures r.Done? <==> FitsValue(f.kind, v, false)
                         && old(s.Room(|w.EncodeTag(f.tag, WireType(f.kind)) + EncodeValue(w, f.kind, v)|))
    ensures r.Done? ==> s.Took(old(s.out), old(s.written), w.EncodeTag(f.tag, WireType(f.kind)) + EncodeValue(w, f.kind, v))
    decreases v, 2
  {
    r := PutTag(s, w, f.tag, WireType(f.kind));
    if r.Done? {
      r := PutValue(s, w, f.kind, v);
      Assoc(old(s.out), w.EncodeTag(f.tag, WireType(f.kind)), EncodeValue(w, f.kind, v));
    }
  }

  /** Entry `i`, on a stream that has taken those before it. */
  method PutEntry(s: OStream, ghost w: Wire, f: Field, items: seq<Value>, i: nat, ghost out0: Bytes, ghost written0: nat, ghost done: Bytes)
      returns (r: Outcome)
    requires s.Valid() && Writes(w) && TypedItems(f, items) && i < |items|
    requires s.Took(out0, written0, done) && done + TaggedFrom(w, f, items)(i) == TaggedFrom(w, f, items)(0)
    modifies s
    ensures s.Valid() && r != SizeChanged
    ensures !r.Done? ==> !FitsValue(f.kind, items[i], false) || (s.writing && written0 + |TaggedFrom(w, f, items)(0)| > s.max)
    ensures r.Done? ==> FitsValue(f.kind, items[i], false) && s.Took(out0, written0, done + TaggedAt(w, f, items)(i))
    ensures r.Done? ==> done + TaggedAt(w, f, items)(i) + TaggedFrom(w, f, items)(i + 1) == TaggedFrom(w, f, items)(0)
    decreases items, 0
  {
    TaggedSplits(w, f, items, i);
    NextPiece(TaggedFrom(w, f, items), TaggedAt(w, f, items), done, i);
    Assoc(out0, done, TaggedAt(w, f, items)(i));
    r := PutTagged(s, w, f, items[i]);
  }

  /** An array whose entries each have a tag. */
  method PutArray(s: OStream, ghost w: Wire, f: Field, items: seq<Value>) returns (r: Outcome)
    requires s.Valid() && Writes(w) && TypedItems(f, items)
    modifies s
    ensures s.Valid() && r != SizeChanged
    ensures r.Done? <==> (forall j :: 0 <= j < |items| ==> FitsValue(f.kind, items[j], false)) && old(s.Room(|EncodeTagged(w, f, items)|))
    ensures r.Done? ==> s.Took(old(s.out), old(s.written), EncodeTagged(w, f, items))
    decreases items, 1
  {
    ghost var all, piece := TaggedFrom(w, f, items), TaggedAt(w, f, items);
    ghost var done: Bytes := [];
    TaggedEnds(w, f, items);
    for i := 0 to |items|
      invariant s.Valid() && s.Took(old(s.out), old(s.written), done) && done + all(i) == all(0)
      invariant forall j :: 0 <= j < i ==> FitsValue(f.kind, items[j], false)
    {
      r := PutEntry(s, w, f, items, i, old(s.out), old(s.written), done);
      if !r.Done? {
        return;
      }
      done := done + piece(i);
    }
    r := Done;
  }

  // ---------------------------------------------------------------- whole messages

  /** Only count (pb_get_encoded_size). */
  method GetEncodedSize(fs: seq<Field>, slots: seq<Slot>) returns (size: Option<nat>)
    requires Typed(fs, slots)
    ensures size == if Fits(fs, slots, false) then Some(|Encode(fs, slots)|) else None
  {
    ProtobufWrites();
    var s := new OStream(false, 0, []);
    var r := PutFields(s, Protobuf(), fs, slots);
    size := if r.Done? then Some(s.written) else None;
  }

  /** Encode into a buffer of `max` bytes. */
  method EncodeTo(fs: seq<Field>, slots: seq<Slot>, max: nat) returns (r: Outcome, b: Bytes)
    requires Typed(fs, slots)
    ensures r.Done? <==> Fits(fs, slots, false) && |Encode(fs, slots)| <= max
    ensures r.Done? ==> b == Encode(fs, slots)
    ensures r != SizeChanged
  {
    ProtobufWrites();
    var s := new OStream(true, max, []);
    r := PutFields(s, Protobuf(), fs, slots);
    b := s.out;
  }

  /** A buffer of the counted size is enough, and the message comes back from it. */
  method SizeEncodeDecode(fs: seq<Field>, slots: seq<Slot>) returns (b: Bytes)
    requires SchemaOk(fs) && Typed(fs, slots) && Fits(fs, slots, true) && |Encode(fs, slots)| < TWO32
    ensures |b| == |Encode(fs, slots)| && Decode(fs, b) == Some(slots)
  {
    FitsRelaxed(fs, slots);
    var size := GetEncodedSize(fs, slots);
    var r;
    r, b := EncodeTo(fs, slots, size.value);
    RoundTrip(fs, slots);
  }
}
