/** Messages written with one schema and read with another (pb_decode.c: pb_decode, pb_skip_field). Fields that the reader does not know are
    skipped, fields that the writer did not know keep their defaults, and a missing required field is an error. */
module PbEvolution {
  import opened InternalKeys
  import opened LogFormat
  import opened Varints
  import opened PbMessages
  import opened PbWire
  import opened PbDecoder
  import opened PbRoundTrip
  import opened PbTheorems

  // ---------------------------------------------------------------- what is skipped

  /** A number of any length: bytes of 128 and more, and then one below. */
  predicate NumberBytes(s: Bytes) {
    s != [] && s[|s| - 1] < 128 && forall i :: 0 <= i < |s| - 1 ==> s[i] >= 128
  }

  /** The bytes of a value, whatever it stands for, as its wire type says: a number, eight bytes, four bytes, or a length and as many bytes. */
  ghost predicate Payload(wire: nat, s: Bytes) {
    match wire
    case 0 => NumberBytes(s)
    case 1 => |s| == 8
    case 2 => exists text: Bytes :: |text| < TWO32 && s == EncodeVarint(|text|) + text
    case 5 => |s| == 4
    case _ => false
  }

  lemma {:induction false} NumberIsSkipped(b: Bytes, p: nat, limit: nat, s: Bytes)
    requires NumberBytes(s) && At(b, p, s) && p + |s| <= limit <= |b|
    ensures SkipVarint(b, p, limit) == Some(p + |s|)
    decreases s
  {
    assert b[p] == s[0];
    if |s| > 1 {
      assert s == [s[0]] + s[1..];
      AtParts(b, p, [s[0]], s[1..]);
      NumberIsSkipped(b, p + 1, limit, s[1..]);
    }
  }

  lemma {:induction false} VarintIsNumber(x: nat)
    ensures NumberBytes(EncodeVarint(x))
  {
    if x >= 128 {
      VarintIsNumber(x / 128);
      assert EncodeVarint(x)[1..] == EncodeVarint(x / 128);
      forall i | 0 <= i < |EncodeVarint(x)| - 1 ensures EncodeVarint(x)[i] >= 128 {
        if i > 0 { assert EncodeVarint(x)[i] == EncodeVarint(x / 128)[i - 1]; }
      }
    }
  }

  lemma {:induction false} PayloadIsSkipped(wire: nat, s: Bytes, b: Bytes, p: nat, limit: nat)
    requires Payload(wire, s) && At(b, p, s) && p + |s| <= limit <= |b|
    ensures Skip(b, p, limit, wire) == Some(p + |s|)
  {
    if wire == 0 {
      NumberIsSkipped(b, p, limit, s);
    } else if wire == 2 {
      var text: Bytes :| |text| < TWO32 && s == EncodeVarint(|text|) + text;
      AtParts(b, p, EncodeVarint(|text|), text);
      Encoded32(b, p, limit, |text|);
    }
  }

  lemma {:induction false} PayloadStands(wire: nat, s: Bytes, b: Bytes, p: nat, limit: nat)
    requires Payload(wire, s) && At(b, p, s) && p + |s| <= limit <= |b| && s != []
    ensures Protobuf().Skip(b, p, limit, wire) == Some(p + |s|)
  {
    PayloadIsSkipped(wire, s, b, p, limit);
  }

  lemma {:induction false} TagStands(tag: nat, wire: nat, b: Bytes, p: nat, limit: nat, head: Bytes)
    requires 0 < tag < TAG_LIMIT && wire < 8 && head == EncodeVarint(tag * 8 + wire) && At(b, p, head) && p + |head| <= limit <= |b|
    ensures p < limit && Protobuf().DecodeTag(b, p, limit) == Tag(tag, wire, p + |head|)
  {
    Encoded32(b, p, limit, tag * 8 + wire);
  }

  ghost predicate Unlisted(fs: seq<Field>, tag: nat) { forall i :: 0 <= i < |fs| ==> fs[i].tag != tag }

  /** A field that the schema does not list is passed over: decoding goes on behind it with what it had. */
  lemma {:induction false} UnknownIsSkipped(fs: seq<Field>, tag: nat, wire: nat, s: Bytes, b: Bytes, p: nat, limit: nat, dest: seq<Slot>, seen: set<nat>)
    requires Unlisted(fs, tag) && 0 < tag < TAG_LIMIT && wire < 8 && Payload(wire, s) && |dest| == |fs|
    requires At(b, p, EncodeVarint(tag * 8 + wire) + s) && p + |EncodeVarint(tag * 8 + wire) + s| <= limit <= |b|
    ensures DecodeFields(Protobuf(), fs, b, p, limit, dest, seen)
            == DecodeFields(Protobuf(), fs, b, p + |EncodeVarint(tag * 8 + wire) + s|, limit, dest, seen)
  {
    var head := EncodeVarint(tag * 8 + wire);
    AtParts(b, p, head, s);
    TagStands(tag, wire, b, p, limit, head);
    PayloadStands(wire, s, b, p + |head|, limit);
    SkipStep(Protobuf(), fs, tag, wire, b, p, p + |head|, p + |head| + |s|, limit, dest, seen);
  }

  /** A field that is not listed and whose wire type has no value is refused. */
  lemma {:induction false} OtherTypesAreRefused(fs: seq<Field>, tag: nat, wire: nat, b: Bytes, p: nat, limit: nat, dest: seq<Slot>, seen: set<nat>)
    requires Unlisted(fs, tag) && 0 < tag < TAG_LIMIT && wire < 8 && wire !in {0, 1, 2, 5} && |dest| == |fs|
    requires At(b, p, EncodeVarint(tag * 8 + wire)) && p + |EncodeVarint(tag * 8 + wire)| <= limit <= |b|
    ensures DecodeFields(Protobuf(), fs, b, p, limit, dest, seen) == None
  {
    TagStands(tag, wire, b, p, limit, EncodeVarint(tag * 8 + wire));
    RefuseStep(Protobuf(), fs, tag, wire, b, p, p + |EncodeVarint(tag * 8 + wire)|, limit, dest, seen);
  }

  lemma {:induction false} SkipStep(w: Wire, fs: seq<Field>, tag: nat, wire: nat, b: Bytes, p: nat, next: nat, q: nat, limit: nat, dest: seq<Slot>, seen: set<nat>)
    requires Unlisted(fs, tag) && p < limit && |dest| == |fs| && w.DecodeTag(b, p, limit) == Tag(tag, wire, next) && w.Skip(b, next, limit, wire) == Some(q)
    ensures q <= limit && DecodeFields(w, fs, b, p, limit, dest, seen) == DecodeFields(w, fs, b, q, limit, dest, seen)
  {
  }

  lemma {:induction false} RefuseStep(w: Wire, fs: seq<Field>, tag: nat, wire: nat, b: Bytes, p: nat, next: nat, limit: nat, dest: seq<Slot>, seen: set<nat>)
    requires Unlisted(fs, tag) && p < limit && |dest| == |fs| && w.DecodeTag(b, p, limit) == Tag(tag, wire, next) && w.Skip(b, next, limit, wire) == None
    ensures DecodeFields(w, fs, b, p, limit, dest, seen) == None
  {
  }

  // ---------------------------------------------------------------- skipping what was encoded

  predicate SkipsScalar(w: Wire, k: Kind, v: Value, b: Bytes, p: nat, limit: nat) {
    !k.Message? && TypedValue(k, v) && Stands(b, p, limit, w.putScalar(k, v)) ==> w.Skip(b, p, limit, WireType(k)) == Some(p + |w.putScalar(k, v)|)
  }

  predicate SkipsString(w: Wire, s: Bytes, b: Bytes, p: nat, limit: nat) {
    Stands(b, p, limit, w.EncodeString(s)) ==> w.Skip(b, p, limit, 2) == Some(p + |w.EncodeString(s)|)
  }

  /** Encoded values can be skipped. */
  ghost predicate Skips(w: Wire) {
    && (forall k, v, b, p: nat, limit: nat :: SkipsScalar(w, k, v, b, p, limit))
    && (forall s, b, p: nat, limit: nat :: SkipsString(w, s, b, p, limit))
  }

  lemma {:induction false} ScalarIsPayload(k: Kind, v: Value)
    requires !k.Message? && TypedValue(k, v) && |EncodeScalar(k, v)| < TWO32
    ensures Payload(WireType(k), EncodeScalar(k, v)) && EncodeScalar(k, v) != []
  {
    match k
    case Bool => VarintIsNumber(if v.flag then 1 else 0);
    case Varint(_) => VarintIsNumber(Pattern(v.number));
    case UVarint(_) => VarintIsNumber(v.number);
    case SVarint(_) => VarintIsNumber(ZigZag(v.number));
    case Fixed32 =>
    case Fixed64 =>
    case BytesOf(_) => StringIsPayload(v.blob);
    case StringOf(_) => StringIsPayload(v.blob);
    case FixedBytes(_) => StringIsPayload(v.blob);
  }

  lemma {:induction false} StringIsPayload(s: Bytes)
    requires |EncodeVarint(|s|) + s| < TWO32
    ensures Payload(2, EncodeVarint(|s|) + s)
  {
    assert |s| < TWO32;
  }

  lemma {:induction false} ProtobufSkips()
    ensures Skips(Protobuf())
  {
    var w := Protobuf();
    forall k, v, b, p: nat, limit: nat ensures SkipsScalar(w, k, v, b, p, limit) {
      if !k.Message? && TypedValue(k, v) && Stands(b, p, limit, w.putScalar(k, v)) {
        ScalarIsPayload(k, v);
        PayloadIsSkipped(WireType(k), EncodeScalar(k, v), b, p, limit);
      }
    }
    forall s, b, p: nat, limit: nat ensures SkipsString(w, s, b, p, limit) {
      if Stands(b, p, limit, w.EncodeString(s)) {
        StringIsPayload(s);
        PayloadIsSkipped(2, EncodeVarint(|s|) + s, b, p, limit);
      }
    }
  }

  /** The decoder has moved past `p` to `q` and kept what it had. */
  ghost predicate Passed(w: Wire, fs: seq<Field>, b: Bytes, p: nat, q: nat, limit: nat, dest: seq<Slot>, seen: set<nat>) {
    Moved(w, fs, b, p, q, limit, dest, dest, seen, seen)
  }

  /** A tag that is not listed and the value behind it. */
  lemma {:induction false} ValuePassed(w: Wire, fs: seq<Field>, tag: nat, wire: nat, s: Bytes, b: Bytes, p: nat, limit: nat, dest: seq<Slot>, seen: set<nat>)
    requires Reads(w) && Unlisted(fs, tag) && 0 < tag < TAG_LIMIT && wire < 8 && |dest| == |fs| && Stands(b, p, limit, w.EncodeTag(tag, wire) + s)
    requires w.Skip(b, p + |w.EncodeTag(tag, wire)|, limit, wire) == Some(p + |w.EncodeTag(tag, wire) + s|)
    ensures Passed(w, fs, b, p, p + |w.EncodeTag(tag, wire) + s|, limit, dest, seen)
  {
    var head := w.EncodeTag(tag, wire);
    StandsParts(b, p, limit, head, s);
    TagReads(w, tag, wire, b, p, limit);
    SkipStep(w, fs, tag, wire, b, p, p + |head|, p + |head + s|, limit, dest, seen);
  }

  lemma {:induction false} EncodedPassed(w: Wire, fs: seq<Field>, f: Field, v: Value, b: Bytes, p: nat, limit: nat, dest: seq<Slot>, seen: set<nat>)
    requires Reads(w) && Skips(w) && Unlisted(fs, f.tag) && 0 < f.tag < TAG_LIMIT && |dest| == |fs| && TypedValue(f.kind, v)
    requires Stands(b, p, limit, w.EncodeTag(f.tag, WireType(f.kind)) + EncodeValue(w, f.kind, v))
    ensures Passed(w, fs, b, p, p + |w.EncodeTag(f.tag, WireType(f.kind)) + EncodeValue(w, f.kind, v)|, limit, dest, seen)
  {
    var head, s := w.EncodeTag(f.tag, WireType(f.kind)), EncodeValue(w, f.kind, v);
    StandsParts(b, p, limit, head, s);
    if f.kind.Message? {
      assert SkipsString(w, EncodeFields(w, f.kind.fields, v.slots), b, p + |head|, limit);
    } else {
      assert SkipsScalar(w, f.kind, v, b, p + |head|, limit);
    }
    ValuePassed(w, fs, f.tag, WireType(f.kind), s, b, p, limit, dest, seen);
  }

  lemma {:induction false} PassedOn(w: Wire, fs: seq<Field>, b: Bytes, p: nat, q: nat, r: nat, limit: nat, dest: seq<Slot>, seen: set<nat>)
    requires Passed(w, fs, b, p, q, limit, dest, seen) && Passed(w, fs, b, q, r, limit, dest, seen)
    ensures Passed(w, fs, b, p, r, limit, dest, seen)
  {
  }

  lemma {:induction false} TaggedPassed(w: Wire, fs: seq<Field>, f: Field, items: seq<Value>, b: Bytes, p: nat, limit: nat, dest: seq<Slot>, seen: set<nat>)
    requires Reads(w) && Skips(w) && Unlisted(fs, f.tag) && 0 < f.tag < TAG_LIMIT && |dest| == |fs|
    requires (forall i :: 0 <= i < |items| ==> TypedValue(f.kind, items[i])) && Stands(b, p, limit, EncodeTagged(w, f, items))
    ensures Passed(w, fs, b, p, p + |EncodeTagged(w, f, items)|, limit, dest, seen)
    decreases items
  {
    if items != [] {
      var first, rest := w.EncodeTag(f.tag, WireType(f.kind)) + EncodeValue(w, f.kind, items[0]), EncodeTagged(w, f, items[1..]);
      StandsParts(b, p, limit, first, rest);
      EncodedPassed(w, fs, f, items[0], b, p, limit, dest, seen);
      TaggedPassed(w, fs, f, items[1..], b, p + |first|, limit, dest, seen);
      assert p + |first + rest| == p + |first| + |rest|;
      PassedOn(w, fs, b, p, p + |first|, p + |first| + |rest|, limit, dest, seen);
    }
  }

  /** A whole field that is not listed: a value, an array, or nothing. */
  lemma {:induction false} SlotPassed(w: Wire, fs: seq<Field>, f: Field, slot: Slot, s: Bytes, b: Bytes, p: nat, limit: nat, dest: seq<Slot>, seen: set<nat>)
    requires Reads(w) && Skips(w) && Unlisted(fs, f.tag) && 0 < f.tag < TAG_LIMIT && |dest| == |fs| && TypedSlot(f, slot)
    requires s == EncodeSlot(w, f, slot) && Stands(b, p, limit, s)
    ensures Passed(w, fs, b, p, p + |s|, limit, dest, seen)
  {
    match slot
    case One(None) =>
    case One(Some(v)) => EncodedPassed(w, fs, f, v, b, p, limit, dest, seen);
    case Many(items) =>
      if items != [] {
        if Packable(f.kind) {
          PackedPassed(w, fs, f, items, b, p, limit, dest, seen);
        } else {
          TaggedPassed(w, fs, f, items, b, p, limit, dest, seen);
        }
      }
  }

  lemma {:induction false} PackedPassed(w: Wire, fs: seq<Field>, f: Field, items: seq<Value>, b: Bytes, p: nat, limit: nat, dest: seq<Slot>, seen: set<nat>)
    requires Reads(w) && Skips(w) && Unlisted(fs, f.tag) && 0 < f.tag < TAG_LIMIT && |dest| == |fs| && Numbers(f.kind, items)
    requires Stands(b, p, limit, w.EncodeTag(f.tag, 2) + w.EncodeString(EncodeItems(w, f.kind, items)))
    ensures Passed(w, fs, b, p, p + |w.EncodeTag(f.tag, 2) + w.EncodeString(EncodeItems(w, f.kind, items))|, limit, dest, seen)
  {
    var head, body := w.EncodeTag(f.tag, 2), EncodeItems(w, f.kind, items);
    StandsParts(b, p, limit, head, w.EncodeString(body));
    assert SkipsString(w, body, b, p + |head|, limit);
    ValuePassed(w, fs, f.tag, 2, w.EncodeString(body), b, p, limit, dest, seen);
  }

  // ---------------------------------------------------------------- two schemas

  function Only<T>(yes: bool, x: T): seq<T> { if yes then [x] else [] }

  /** Of what belongs to the fields of a schema, what belongs to those that one side knows. */
  function Pick<T>(fs: seq<Field>, xs: seq<T>, knows: Field -> bool): (r: seq<T>)
    requires |fs| == |xs|
    ensures |r| == Count(fs, knows)
  {
    if fs == [] then [] else Only(knows(fs[0]), xs[0]) + Pick(fs[1..], xs[1..], knows)
  }

  function Count(fs: seq<Field>, knows: Field -> bool): nat {
    if fs == [] then 0 else (if knows(fs[0]) then 1 else 0) + Count(fs[1..], knows)
  }

  function Kept(fs: seq<Field>, knows: Field -> bool): seq<Field> { Pick(fs, fs, knows) }

  /** The slots after the fields before `j` have been read, if the other side wrote those it knows. */
  function Filled(fs: seq<Field>, slots: seq<Slot>, written: Field -> bool, j: nat): (r: seq<Slot>)
    requires |fs| == |slots|
    ensures |r| == |fs|
  {
    seq(|fs|, k requires 0 <= k < |fs| => if k < j && written(fs[k]) then slots[k] else Default(fs[k]))
  }

  lemma {:induction false} PickSplits<T>(fs: seq<Field>, xs: seq<T>, knows: Field -> bool, j: nat)
    requires j < |fs| == |xs|
    ensures Pick(fs, xs, knows) == Pick(fs[..j], xs[..j], knows) + (Only(knows(fs[j]), xs[j]) + Pick(fs[j + 1..], xs[j + 1..], knows))
  {
    if j > 0 {
      PickSplits(fs[1..], xs[1..], knows, j - 1);
      ShiftBack(fs, j);
      ShiftBack(xs, j);
      assert fs[..j][0] == fs[0] && xs[..j][0] == xs[0];
    }
  }

  lemma {:induction false} ShiftBack<T>(xs: seq<T>, j: nat)
    requires 0 < j < |xs|
    ensures xs[1..][..j - 1] == xs[..j][1..] && xs[1..][j - 1] == xs[j] && xs[1..][j..] == xs[j + 1..]
  {
  }

  /** A known field, its place and its slot. */
  lemma {:induction false} PickIs<T>(fs: seq<Field>, xs: seq<T>, knows: Field -> bool, j: nat)
    requires j < |fs| == |xs|
    ensures Count(fs[..j], knows) <= Count(fs, knows)
    ensures knows(fs[j]) ==> Count(fs[..j], knows) < Count(fs, knows) && Pick(fs, xs, knows)[Count(fs[..j], knows)] == xs[j]
  {
    PickSplits(fs, xs, knows, j);
  }

  lemma {:induction false} CountNext(fs: seq<Field>, knows: Field -> bool, j: nat)
    requires j < |fs|
    ensures Count(fs[..j + 1], knows) == Count(fs[..j], knows) + if knows(fs[j]) then 1 else 0
  {
    PickSplits(fs[..j + 1], fs[..j + 1], knows, j);
    assert fs[..j + 1][..j] == fs[..j] && fs[..j + 1][j + 1..] == [];
  }

  /** Changing one slot changes what is picked of it. */
  lemma {:induction false} PickUpdate<T>(fs: seq<Field>, xs: seq<T>, knows: Field -> bool, j: nat, x: T)
    requires j < |fs| == |xs|
    ensures !knows(fs[j]) ==> Pick(fs, xs[j := x], knows) == Pick(fs, xs, knows)
    ensures knows(fs[j]) ==> Count(fs[..j], knows) < Count(fs, knows)
                             && Pick(fs, xs[j := x], knows) == Pick(fs, xs, knows)[Count(fs[..j], knows) := x]
  {
    PickSplits(fs, xs, knows, j);
    PickSplits(fs, xs[j := x], knows, j);
    assert xs[j := x][..j] == xs[..j] && xs[j := x][j + 1..] == xs[j + 1..];
  }

  lemma {:induction false} KeptMembers(fs: seq<Field>, knows: Field -> bool)
    ensures forall f :: f in Kept(fs, knows) ==> f in fs && knows(f)
  {
    if fs != [] { KeptMembers(fs[1..], knows); }
  }

  lemma {:induction false} KeptDiffers(fs: seq<Field>, knows: Field -> bool)
    requires TagsDiffer(fs)
    ensures TagsDiffer(Kept(fs, knows))
  {
    if fs != [] {
      KeptDiffers(fs[1..], knows);
      KeptMembers(fs[1..], knows);
      var rest := Kept(fs[1..], knows);
      forall i | 0 <= i < |rest| ensures rest[i].tag != fs[0].tag {
        assert rest[i] in rest;
        var k :| 0 <= k < |fs[1..]| && fs[1..][k] == rest[i];
      }
    }
  }

  lemma {:induction false} KeptTyped(fs: seq<Field>, slots: seq<Slot>, knows: Field -> bool)
    requires Typed(fs, slots)
    ensures Typed(Kept(fs, knows), Pick(fs, slots, knows))
  {
    if fs != [] { KeptTyped(fs[1..], slots[1..], knows); }
  }

  lemma {:induction false} UnknownIsUnlisted(fs: seq<Field>, knows: Field -> bool, j: nat)
    requires TagsDiffer(fs) && j < |fs| && !knows(fs[j])
    ensures Unlisted(Kept(fs, knows), fs[j].tag)
  {
    KeptMembers(fs, knows);
    var r := Kept(fs, knows);
    forall i | 0 <= i < |r| ensures r[i].tag != fs[j].tag {
      assert r[i] in r;
      var k :| 0 <= k < |fs| && fs[k] == r[i];
    }
  }

  // ---------------------------------------------------------------- what the writer wrote

  function Written(w: Wire, fs: seq<Field>, slots: seq<Slot>, written: Field -> bool): Bytes
    requires Typed(fs, slots)
  {
    if fs == [] then [] else (if written(fs[0]) then EncodeSlot(w, fs[0], slots[0]) else []) + Written(w, fs[1..], slots[1..], written)
  }

  lemma {:induction false} WrittenIsEncoded(w: Wire, fs: seq<Field>, slots: seq<Slot>, written: Field -> bool)
    requires Typed(fs, slots) && Typed(Kept(fs, written), Pick(fs, slots, written))
    ensures Written(w, fs, slots, written) == EncodeFields(w, Kept(fs, written), Pick(fs, slots, written))
  {
    if fs != [] {
      KeptTyped(fs[1..], slots[1..], written);
      WrittenIsEncoded(w, fs[1..], slots[1..], written);
      if written(fs[0]) {
        assert Kept(fs, written) == [fs[0]] + Kept(fs[1..], written) && Pick(fs, slots, written) == [slots[0]] + Pick(fs[1..], slots[1..], written);
        assert Kept(fs, written)[1..] == Kept(fs[1..], written) && Pick(fs, slots, written)[1..] == Pick(fs[1..], slots[1..], written);
      } else {
        assert Kept(fs, written) == Kept(fs[1..], written) && Pick(fs, slots, written) == Pick(fs[1..], slots[1..], written);
      }
    }
  }

  // ---------------------------------------------------------------- required fields

  /** The required fields that have been read when those before `r` have, of the ones that were written. */
  function SeenOf(fs: seq<Field>, written: Field -> bool, r: nat): set<nat>
    requires r <= |fs|
  {
    if r == 0 then {} else if written(fs[r - 1]) then Seen(fs, r - 1, SeenOf(fs, written, r - 1)) else SeenOf(fs, written, r - 1)
  }

  /** The required fields before `r`. */
  function RequiredBefore(fs: seq<Field>, r: nat): set<nat> { set k: nat | k < r && k < |fs| && fs[k].rule.Required? }

  /** Every required field among the first 64 was written. */
  ghost predicate NoneMissing(fs: seq<Field>, written: Field -> bool) {
    forall r :: 0 <= r < |fs| && fs[r].rule.Required? && |RequiredBefore(fs, r)| < MAX_REQUIRED ==> written(fs[r])
  }

  lemma {:induction false} CountIsBefore(fs: seq<Field>, r: nat)
    requires r <= |fs|
    ensures RequiredCount(fs[..r]) == |RequiredBefore(fs, r)|
  {
    if r == 0 {
      assert RequiredBefore(fs, 0) == {};
    } else {
      CountIsBefore(fs, r - 1);
      assert fs[..r][..r - 1] == fs[..r - 1];
      assert RequiredBefore(fs, r) == RequiredBefore(fs, r - 1) + if fs[r - 1].rule.Required? then {r - 1} else {};
    }
  }

  lemma {:induction false} CountGrows(fs: seq<Field>, i: nat, r: nat)
    requires i < r <= |fs| && fs[i].rule.Required?
    ensures RequiredCount(fs[..i]) < RequiredCount(fs[..r])
    decreases r
  {
    assert fs[..r][..r - 1] == fs[..r - 1];
    if i < r - 1 { CountGrows(fs, i, r - 1); }
  }

  lemma {:induction false} SeenOfIs(fs: seq<Field>, written: Field -> bool, r: nat, i: nat)
    requires r <= |fs| && i < r && fs[i].rule.Required? && RequiredCount(fs[..i]) < MAX_REQUIRED
    ensures RequiredCount(fs[..i]) in SeenOf(fs, written, r) <==> written(fs[i])
    decreases r
  {
    if i < r - 1 {
      SeenOfIs(fs, written, r - 1, i);
      if fs[r - 1].rule.Required? { CountGrows(fs, i, r - 1); }
    } else {
      SeenIsBelow(fs, written, i);
    }
  }

  lemma {:induction false} SeenIsBelow(fs: seq<Field>, written: Field -> bool, r: nat)
    requires r <= |fs|
    ensures forall n :: n in SeenOf(fs, written, r) ==> n < RequiredCount(fs[..r])
  {
    if r > 0 {
      SeenIsBelow(fs, written, r - 1);
      assert fs[..r][..r - 1] == fs[..r - 1];
    }
  }

  lemma {:induction false} NthRequired(fs: seq<Field>, r: nat, n: nat) returns (i: nat)
    requires r <= |fs| && n < RequiredCount(fs[..r])
    ensures i < r && fs[i].rule.Required? && RequiredCount(fs[..i]) == n
    decreases r
  {
    assert fs[..r][..r - 1] == fs[..r - 1];
    if n < RequiredCount(fs[..r - 1]) {
      i := NthRequired(fs, r - 1, n);
    } else {
      i := r - 1;
    }
  }

  lemma {:induction false} CompleteExactly(fs: seq<Field>, written: Field -> bool)
    ensures Complete(fs, SeenOf(fs, written, |fs|)) <==> NoneMissing(fs, written)
  {
    assert fs[..|fs|] == fs;
    if Complete(fs, SeenOf(fs, written, |fs|)) {
      forall r | 0 <= r < |fs| && fs[r].rule.Required? && |RequiredBefore(fs, r)| < MAX_REQUIRED ensures written(fs[r]) {
        CountIsBefore(fs, r);
        CountGrows(fs, r, |fs|);
        SeenOfIs(fs, written, |fs|, r);
      }
    }
    if NoneMissing(fs, written) {
      forall n: nat | n < RequiredCount(fs) && n < MAX_REQUIRED ensures n in SeenOf(fs, written, |fs|) {
        var i := NthRequired(fs, |fs|, n);
        CountIsBefore(fs, i);
        SeenOfIs(fs, written, |fs|, i);
      }
    }
  }

  // ---------------------------------------------------------------- the walk over the written fields

  function WrittenFrom(w: Wire, fs: seq<Field>, slots: seq<Slot>, written: Field -> bool): nat -> Bytes
    requires Typed(fs, slots)
  {
    (j: nat) => if j <= |fs| then Written(w, fs[j..], slots[j..], written) else []
  }

  function WrittenAt(w: Wire, fs: seq<Field>, slots: seq<Slot>, written: Field -> bool): nat -> Bytes
    requires Typed(fs, slots)
  {
    (j: nat) => if j < |fs| && written(fs[j]) then EncodeSlot(w, fs[j], slots[j]) else []
  }

  function ReaderDest(fs: seq<Field>, slots: seq<Slot>, written: Field -> bool, known: Field -> bool): nat -> seq<Slot>
    requires |fs| == |slots|
  {
    (j: nat) => if j <= |fs| then Pick(fs, Filled(fs, slots, written, j), known) else []
  }

  function ReaderSeen(fs: seq<Field>, written: Field -> bool, known: Field -> bool): nat -> set<nat> {
    (j: nat) => if j <= |fs| then SeenOfFirst(Kept(fs, known), written, Count(fs[..j], known)) else {}
  }

  function SeenOfFirst(fs: seq<Field>, written: Field -> bool, r: nat): set<nat> { if r <= |fs| then SeenOf(fs, written, r) else {} }

  lemma {:induction false} WrittenSplits(w: Wire, fs: seq<Field>, slots: seq<Slot>, written: Field -> bool, j: nat)
    requires Typed(fs, slots) && j < |fs|
    ensures Splits(WrittenFrom(w, fs, slots, written), WrittenAt(w, fs, slots, written), j)
  {
    assert fs[j..][1..] == fs[j + 1..] && slots[j..][1..] == slots[j + 1..];
  }

  lemma {:induction false} FilledNext(fs: seq<Field>, slots: seq<Slot>, written: Field -> bool, j: nat)
    requires j < |fs| == |slots|
    ensures Filled(fs, slots, written, j)[j] == Default(fs[j])
    ensures Filled(fs, slots, written, j + 1) == if written(fs[j]) then Filled(fs, slots, written, j)[j := slots[j]] else Filled(fs, slots, written, j)
  {
  }

  /** The reader's structure and the required fields it has seen when the fields before `j` have been read. */
  ghost predicate ReadSoFar(fs: seq<Field>, slots: seq<Slot>, written: Field -> bool, known: Field -> bool, j: nat, dest: seq<Slot>, seen: set<nat>) {
    match j <= |fs| == |slots|
    case true => dest == Pick(fs, Filled(fs, slots, written, j), known) && seen == SeenOfFirst(Kept(fs, known), written, Count(fs[..j], known))
    case false => false
  }

  lemma {:induction false} SoFarNext(fs: seq<Field>, slots: seq<Slot>, written: Field -> bool, known: Field -> bool, j: nat, dest: seq<Slot>,
                                     seen: set<nat>, dest': seq<Slot>, seen': set<nat>) returns (i: nat)
    requires j < |fs| && ReadSoFar(fs, slots, written, known, j, dest, seen) && ReadSoFar(fs, slots, written, known, j + 1, dest', seen')
    ensures |dest| == |dest'| == |Kept(fs, known)|
    ensures !written(fs[j]) || !known(fs[j]) ==> dest' == dest && seen' == seen
    ensures known(fs[j]) ==> i < |dest| && Kept(fs, known)[i] == fs[j] && dest[i] == Default(fs[j]) && seen == SeenOf(Kept(fs, known), written, i)
    ensures written(fs[j]) && known(fs[j]) ==> dest' == dest[i := slots[j]] && seen' == SeenOf(Kept(fs, known), written, i + 1)
  {
    i := Count(fs[..j], known);
    var filled := Filled(fs, slots, written, j);
    PickIs(fs, fs, known, j);
    PickIs(fs, filled, known, j);
    PickUpdate(fs, filled, known, j, slots[j]);
    FilledNext(fs, slots, written, j);
    CountNext(fs, known, j);
  }

  lemma {:induction false} CommonSlot(w: Wire, fs: seq<Field>, i: nat, slot: Slot, s: Bytes, written: Field -> bool, b: Bytes, p: nat, limit: nat,
                                      dest: seq<Slot>)
    requires Reads(w) && TagsDiffer(fs) && i < |fs| == |dest| && GoodSlot(fs[i], slot) && dest[i] == Default(fs[i]) && written(fs[i])
    requires s == EncodeSlot(w, fs[i], slot) && Stands(b, p, limit, s)
    ensures Moved(w, fs, b, p, p + |s|, limit, dest, dest[i := slot], SeenOf(fs, written, i), SeenOf(fs, written, i + 1))
  {
    SlotInto(w, fs, i, slot, s, b, p, limit, dest, SeenOf(fs, written, i));
    SeenCommon(fs, written, i, slot, SeenOf(fs, written, i));
  }

  lemma {:induction false} SeenCommon(fs: seq<Field>, written: Field -> bool, i: nat, slot: Slot, seen: set<nat>)
    requires i < |fs| && written(fs[i]) && TypedSlot(fs[i], slot) && seen == SeenOf(fs, written, i)
    ensures (if slot.One? && slot.value.Some? then Seen(fs, i, seen) else seen) == SeenOf(fs, written, i + 1)
  {
  }

  /** One field: read, skipped, or not there. */
  lemma {:induction false} OneField(w: Wire, fs: seq<Field>, slots: seq<Slot>, written: Field -> bool, known: Field -> bool, j: nat, s: Bytes,
                                    b: Bytes, p: nat, limit: nat, dest: seq<Slot>, seen: set<nat>, dest': seq<Slot>, seen': set<nat>)
    requires Reads(w) && Skips(w) && TagsDiffer(fs) && j < |fs| == |slots| && GoodSlot(fs[j], slots[j])
    requires s == (if written(fs[j]) then EncodeSlot(w, fs[j], slots[j]) else []) && Stands(b, p, limit, s)
    requires ReadSoFar(fs, slots, written, known, j, dest, seen) && ReadSoFar(fs, slots, written, known, j + 1, dest', seen')
    ensures Moved(w, Kept(fs, known), b, p, p + |s|, limit, dest, dest', seen, seen')
  {
    var i := SoFarNext(fs, slots, written, known, j, dest, seen, dest', seen');
    if written(fs[j]) && known(fs[j]) {
      KeptDiffers(fs, known);
      CommonSlot(w, Kept(fs, known), i, slots[j], s, written, b, p, limit, dest);
    } else if written(fs[j]) {
      UnknownIsUnlisted(fs, known, j);
      SlotPassed(w, Kept(fs, known), fs[j], slots[j], s, b, p, limit, dest, seen);
    }
  }

  lemma {:induction false} FieldMoves(w: Wire, fs: seq<Field>, slots: seq<Slot>, written: Field -> bool, known: Field -> bool, j: nat, b: Bytes, end: nat,
                   all: nat -> Bytes, piece: nat -> Bytes, dest: nat -> seq<Slot>, seen: nat -> set<nat>)
    requires Reads(w) && Skips(w) && TagsDiffer(fs) && j < |fs| == |slots| && GoodSlot(fs[j], slots[j]) && end <= |b|
    requires piece(j) == if written(fs[j]) then EncodeSlot(w, fs[j], slots[j]) else []
    requires ReadSoFar(fs, slots, written, known, j, dest(j), seen(j)) && ReadSoFar(fs, slots, written, known, j + 1, dest(j + 1), seen(j + 1))
    ensures Moves(b, end, end, all, piece, Stage(w, Kept(fs, known), b, end, Places(all, end), dest, seen), j)
  {
    var p, q := Place(all, end, j), Place(all, end, j + 1);
    if Stands(b, p, end, piece(j)) && q == p + |piece(j)| {
      OneField(w, fs, slots, written, known, j, piece(j), b, p, end, dest(j), seen(j), dest(j + 1), seen(j + 1));
    }
    StageMoves(w, Kept(fs, known), b, end, all, piece, dest, seen, j, p, q);
  }

  lemma {:induction false} ReaderIsSoFar(fs: seq<Field>, slots: seq<Slot>, written: Field -> bool, known: Field -> bool, j: nat)
    requires j <= |fs| == |slots|
    ensures ReadSoFar(fs, slots, written, known, j, ReaderDest(fs, slots, written, known)(j), ReaderSeen(fs, written, known)(j))
  {
  }

  lemma {:induction false} WalkEnds(w: Wire, fs: seq<Field>, slots: seq<Slot>, written: Field -> bool, known: Field -> bool)
    requires Typed(fs, slots)
    ensures WrittenFrom(w, fs, slots, written)(0) == Written(w, fs, slots, written) && WrittenFrom(w, fs, slots, written)(|fs|) == []
    ensures ReaderDest(fs, slots, written, known)(0) == Defaults(Kept(fs, known)) && ReaderSeen(fs, written, known)(0) == {}
    ensures ReaderSeen(fs, written, known)(|fs|) == SeenOf(Kept(fs, known), written, |Kept(fs, known)|)
  {
    assert fs[0..] == fs && slots[0..] == slots && fs[|fs|..] == [] && slots[|fs|..] == [] && fs[..0] == [] && fs[..|fs|] == fs;
    DefaultsPicked(fs, Filled(fs, slots, written, 0), known);
  }

  lemma {:induction false} DefaultsPicked(fs: seq<Field>, d: seq<Slot>, knows: Field -> bool)
    requires |d| == |fs| && forall k :: 0 <= k < |fs| ==> d[k] == Default(fs[k])
    ensures Pick(fs, d, knows) == Defaults(Kept(fs, knows))
  {
    if fs != [] {
      DefaultsPicked(fs[1..], d[1..], knows);
      assert Kept(fs, knows) == Only(knows(fs[0]), fs[0]) + Kept(fs[1..], knows);
    }
  }

  /** Decoding what the writer wrote, field by field. */
  lemma {:induction false} ReaderReads(w: Wire, fs: seq<Field>, slots: seq<Slot>, written: Field -> bool, known: Field -> bool, b: Bytes, end: nat)
    requires Reads(w) && Skips(w) && GoodAll(fs, slots) && Stands(b, 0, end, Written(w, fs, slots, written)) && end == |Written(w, fs, slots, written)|
    ensures DecodeFields(w, Kept(fs, known), b, 0, end, Defaults(Kept(fs, known)), {})
            == if NoneMissing(Kept(fs, known), written) then Some(Pick(fs, Filled(fs, slots, written, |fs|), known)) else None
  {
    var r, all, piece := Kept(fs, known), WrittenFrom(w, fs, slots, written), WrittenAt(w, fs, slots, written);
    var dest, seen := ReaderDest(fs, slots, written, known), ReaderSeen(fs, written, known);
    var d := Stage(w, r, b, end, Places(all, end), dest, seen);
    WalkEnds(w, fs, slots, written, known);
    forall j: nat | j < |fs| ensures Splits(all, piece, j) && Moves(b, end, end, all, piece, d, j) {
      WrittenSplits(w, fs, slots, written, j);
      assert FieldOk(fs[j]) && TypedSlot(fs[j], slots[j]) && FitsSlot(fs[j], slots[j], true);
      ReaderIsSoFar(fs, slots, written, known, j);
      ReaderIsSoFar(fs, slots, written, known, j + 1);
      FieldMoves(w, fs, slots, written, known, j, b, end, all, piece, dest, seen);
    }
    WalkPieces(b, 0, end, end, all, piece, |fs|, |fs|, d);
    StageIs(w, r, b, end, Places(all, end), dest, seen, 0, 0, Defaults(r), {});
    StageIs(w, r, b, end, Places(all, end), dest, seen, |fs|, end, dest(|fs|), seen(|fs|));
    CompleteExactly(r, written);
  }

  /** One side may know fields that the other does not. The reader gets what was written of the fields it knows, and defaults for the
      others; it refuses the message exactly if a required field among its first 64 was not written. */
  lemma {:induction false} Evolution(fs: seq<Field>, slots: seq<Slot>, written: Field -> bool, known: Field -> bool)
    requires GoodAll(fs, slots)
    ensures Typed(Kept(fs, written), Pick(fs, slots, written))
    ensures |Encode(Kept(fs, written), Pick(fs, slots, written))| < TWO32 ==>
              Decode(Kept(fs, known), Encode(Kept(fs, written), Pick(fs, slots, written)))
              == if NoneMissing(Kept(fs, known), written) then Some(Pick(fs, Filled(fs, slots, written, |fs|), known)) else None
  {
    KeptTyped(fs, slots, written);
    WrittenIsEncoded(Protobuf(), fs, slots, written);
    ProtobufReads();
    ProtobufSkips();
    var b := Encode(Kept(fs, written), Pick(fs, slots, written));
    assert b[0..|b|] == b;
    if |b| < TWO32 { ReaderReads(Protobuf(), fs, slots, written, known, b, |b|); }
  }

  lemma {:induction false} KnowsAll<T>(fs: seq<Field>, xs: seq<T>, knows: Field -> bool)
    requires |fs| == |xs| && forall f :: f in fs ==> knows(f)
    ensures Pick(fs, xs, knows) == xs
  {
    if fs != [] { KnowsAll(fs[1..], xs[1..], knows); }
  }

  /** A reader with a shorter schema gets its own fields. */
  lemma {:induction false} ShorterSchemaReads(fs: seq<Field>, slots: seq<Slot>, known: Field -> bool)
    requires GoodAll(fs, slots) && |Encode(fs, slots)| < TWO32
    ensures Decode(Kept(fs, known), Encode(fs, slots)) == Some(Pick(fs, slots, known))
  {
    var all: Field -> bool := _ => true;
    Evolution(fs, slots, all, known);
    KnowsAll(fs, fs, all);
    KnowsAll(fs, slots, all);
    assert Filled(fs, slots, all, |fs|) == slots;
  }

  /** A message that lacks a required field, among the first 64, is refused. */
  lemma {:induction false} MissingRequiredIsRefused(fs: seq<Field>, slots: seq<Slot>, i: nat)
    requires GoodAll(fs, slots) && i < |fs| && fs[i].rule.Required? && |RequiredBefore(fs, i)| < MAX_REQUIRED
    requires var others := (f: Field) => f.tag != fs[i].tag;
             Typed(Kept(fs, others), Pick(fs, slots, others)) && |Encode(Kept(fs, others), Pick(fs, slots, others))| < TWO32
    ensures var others := (f: Field) => f.tag != fs[i].tag;
            Decode(fs, Encode(Kept(fs, others), Pick(fs, slots, others))) == None
  {
    var others: Field -> bool := (f: Field) => f.tag != fs[i].tag;
    var all: Field -> bool := _ => true;
    Evolution(fs, slots, others, all);
    KnowsAll(fs, fs, all);
  }
}
