/** Messages one after the other (Protocol Buffers Encoding: "Last One Wins", "Packed Repeated Fields"; pb_decode.c: pb_decode_noinit):
    decoding merges them. Single values are replaced, submessages merged, arrays continued. */
module PbMerge {
  import opened InternalKeys
  import opened LogFormat
  import opened Varints
  import opened PbMessages
  import opened PbDecoder
  import opened PbRoundTrip
  import opened PbTheorems

  // ---------------------------------------------------------------- merging

  /** A slot of a structure that is being filled: required fields may still have their defaults. */
  predicate HeldSlot(f: Field, s: Slot) {
    if f.rule.Repeated? then s.Many? && forall i :: 0 <= i < |s.items| ==> TypedValue(f.kind, s.items[i])
    else s.One? && (s.value.Some? ==> TypedValue(f.kind, s.value.value))
  }

  predicate Held(fs: seq<Field>, slots: seq<Slot>) {
    |fs| == |slots| && forall i :: 0 <= i < |slots| ==> HeldSlot(fs[i], slots[i])
  }

  lemma {:induction false} TypedIsHeld(fs: seq<Field>, slots: seq<Slot>)
    requires Typed(fs, slots)
    ensures Held(fs, slots)
  {
    forall i | 0 <= i < |slots| ensures HeldSlot(fs[i], slots[i]) { assert TypedSlot(fs[i], slots[i]); }
  }

  /** The later value, merged into the earlier one if both are messages. */
  function MergeValue(k: Kind, earlier: Option<Value>, v: Value): Value
    requires TypedValue(k, v) && (earlier.Some? ==> TypedValue(k, earlier.value))
    decreases v, 0
  {
    if !k.Message? || earlier.None? then v else TypedIsHeld(k.fields, earlier.value.slots); Record(MergeAll(k.fields, earlier.value.slots, v.slots))
  }

  function MergeSlot(f: Field, earlier: Slot, s: Slot): Slot
    requires HeldSlot(f, earlier) && TypedSlot(f, s)
    decreases s, 0
  {
    match s
    case One(None) => earlier
    case One(Some(v)) => One(Some(MergeValue(f.kind, earlier.value, v)))
    case Many(items) => Many(earlier.items + items)
  }

  function MergeAll(fs: seq<Field>, earlier: seq<Slot>, slots: seq<Slot>): (r: seq<Slot>)
    requires Held(fs, earlier) && Typed(fs, slots)
    ensures |r| == |fs|
    decreases slots, 0
  {
    seq(|fs|, i requires 0 <= i < |fs| => MergeSlot(fs[i], earlier[i], slots[i]))
  }

  /** The joined arrays have room in the structure. */
  predicate RoomForValue(k: Kind, earlier: Option<Value>, v: Value)
    requires TypedValue(k, v) && (earlier.Some? ==> TypedValue(k, earlier.value))
    decreases v, 0
  {
    k.Message? && earlier.Some? ==> (TypedIsHeld(k.fields, earlier.value.slots); RoomForAll(k.fields, earlier.value.slots, v.slots))
  }

  predicate RoomForSlot(f: Field, earlier: Slot, s: Slot)
    requires HeldSlot(f, earlier) && TypedSlot(f, s)
    decreases s, 0
  {
    match s
    case One(None) => true
    case One(Some(v)) => RoomForValue(f.kind, earlier.value, v)
    case Many(items) => items == [] || |earlier.items| + |items| <= f.rule.limit
  }

  predicate RoomForAll(fs: seq<Field>, earlier: seq<Slot>, slots: seq<Slot>)
    requires Held(fs, earlier) && Typed(fs, slots)
    decreases slots, 0
  {
    forall i :: 0 <= i < |slots| ==> RoomForSlot(fs[i], earlier[i], slots[i])
  }

  // ---------------------------------------------------------------- values, fields and messages

  lemma {:induction false} ValueMerges(w: Wire, k: Kind, earlier: Option<Value>, v: Value, b: Bytes, p: nat, limit: nat)
    requires Reads(w) && Good(k, v) && Stands(b, p, limit, EncodeValue(w, k, v))
    requires (earlier.Some? ==> TypedValue(k, earlier.value)) && RoomForValue(k, earlier, v)
    ensures DecodeValue(w, k, b, p, limit, earlier) == Some(ValueAt(MergeValue(k, earlier, v), p + |EncodeValue(w, k, v)|))
    decreases v, 2
  {
    if earlier.None? || !k.Message? {
      ValueReads(w, k, v, b, p, limit);
    } else {
      TypedIsHeld(k.fields, earlier.value.slots);
      SubmessageMerges(w, k, earlier.value, v, EncodeFields(w, k.fields, v.slots), b, p, limit);
    }
  }

  lemma {:induction false} SubmessageMerges(w: Wire, k: Kind, earlier: Value, v: Value, body: Bytes, b: Bytes, p: nat, limit: nat)
    requires Reads(w) && k.Message? && v.Record? && earlier.Record? && GoodAll(k.fields, v.slots) && Held(k.fields, earlier.slots)
    requires RoomForAll(k.fields, earlier.slots, v.slots) && body == EncodeFields(w, k.fields, v.slots)
    requires Stands(b, p, limit, w.EncodeString(body))
    ensures DecodeValue(w, k, b, p, limit, Some(earlier))
            == Some(ValueAt(Record(MergeAll(k.fields, earlier.slots, v.slots)), p + |w.EncodeString(body)|))
    decreases v, 1
  {
    var q := p + |w.putNumber(|body|)|;
    StringStands(w, b, p, limit, body);
    var merged := MergeAll(k.fields, earlier.slots, v.slots);
    MessageMerges(w, k.fields, v.slots, earlier.slots, body, b, q, q + |body|, merged, {});
    InsideMerges(w, k, earlier, Some(merged), body, b, p, limit, q);
  }

  /** A submessage is decoded into the one that is there. */
  lemma {:induction false} InsideMerges(w: Wire, k: Kind, earlier: Value, merged: Option<seq<Slot>>, body: Bytes, b: Bytes, p: nat, limit: nat, q: nat)
    requires k.Message? && earlier.Record? && |earlier.slots| == |k.fields| && p <= limit && q + |body| <= limit
    requires w.Number(b, p, limit) == Some(Number(|body|, q)) && DecodeFields(w, k.fields, b, q, q + |body|, earlier.slots, {}) == merged
    ensures DecodeValue(w, k, b, p, limit, Some(earlier)) == if merged.Some? then Some(ValueAt(Record(merged.value), q + |body|)) else None
  {
    assert StartFrom(k.fields, Some(earlier)) == earlier.slots;
  }

  lemma {:induction false} MessageMerges(w: Wire, fs: seq<Field>, slots: seq<Slot>, earlier: seq<Slot>, all: Bytes, b: Bytes, p: nat, end: nat,
                                         merged: seq<Slot>, start: set<nat>)
    requires Reads(w) && GoodAll(fs, slots) && Held(fs, earlier) && RoomForAll(fs, earlier, slots) && all == EncodeFields(w, fs, slots)
    requires Stands(b, p, end, all) && end == p + |all| && merged == MergeAll(fs, earlier, slots)
    ensures DecodeFields(w, fs, b, p, end, earlier, start) == Some(merged)
    decreases slots, |fs| + 2
  {
    assert fs[0..] == fs && slots[0..] == slots;
    assert merged == MergedFrom(fs, earlier, slots, 0, earlier);
    FieldsMerge(w, fs, slots, earlier, 0, all, b, p, end, end, earlier, merged, start, start, SeenPlus(fs, slots, |fs|, start));
    MergedEnds(w, fs, slots, b, end, merged, start);
  }

  /** The required fields of a whole message have been seen. */
  lemma {:induction false} MergedEnds(w: Wire, fs: seq<Field>, slots: seq<Slot>, b: Bytes, end: nat, dest: seq<Slot>, seen: set<nat>)
    requires Typed(fs, slots) && |dest| == |fs|
    ensures DecodeFields(w, fs, b, end, end, dest, SeenPlus(fs, slots, |fs|, seen)) == Some(dest)
  {
    assert fs[..|fs|] == fs;
    SeenPlusHas(fs, slots, |fs|, seen);
    forall j: nat | j < RequiredCount(fs) && j < MAX_REQUIRED ensures j in SeenPlus(fs, slots, |fs|, seen) { SeenAll(fs, slots, |fs|, j); }
  }

  /** The required fields seen when those of the first `j` fields have been added. */
  function SeenPlus(fs: seq<Field>, slots: seq<Slot>, j: nat, seen: set<nat>): set<nat>
    requires j <= |fs| == |slots|
  {
    if j == 0 then seen else SeenNow(fs, slots, j - 1, SeenPlus(fs, slots, j - 1, seen))
  }

  lemma {:induction false} SeenPlusHas(fs: seq<Field>, slots: seq<Slot>, j: nat, seen: set<nat>)
    requires j <= |fs| == |slots|
    ensures SeenBy(fs, slots, j) <= SeenPlus(fs, slots, j, seen) && seen <= SeenPlus(fs, slots, j, seen)
  {
    if j > 0 { SeenPlusHas(fs, slots, j - 1, seen); }
  }

  lemma {:induction false} SlotMerges(w: Wire, fs: seq<Field>, slots: seq<Slot>, i: nat, slot: Slot, s: Bytes, b: Bytes, p: nat, limit: nat,
                                      dest: seq<Slot>, seen: set<nat>)
    requires Reads(w) && TagsDiffer(fs) && i < |fs| == |dest| == |slots| && slot == slots[i] && GoodSlot(fs[i], slot) && HeldSlot(fs[i], dest[i])
    requires RoomForSlot(fs[i], dest[i], slot) && s == EncodeSlot(w, fs[i], slot) && Stands(b, p, limit, s)
    ensures Moved(w, fs, b, p, p + |s|, limit, dest, dest[i := MergeSlot(fs[i], dest[i], slot)], seen, SeenNow(fs, slots, i, seen))
    decreases slot, 1
  {
    match slot
    case One(None) => assert dest[i := dest[i]] == dest;
    case One(Some(v)) => OneMerges(w, fs, i, v, s, b, p, limit, dest, seen);
    case Many(items) =>
      if items == [] {
        assert dest[i].items + items == dest[i].items && dest[i := dest[i]] == dest;
      } else if Packable(fs[i].kind) {
        PackedFieldJoins(w, fs, i, items, s, b, p, limit, dest, seen);
      } else {
        TaggedJoins(w, fs, i, items, dest[i].items, s, b, p, p + |s|, limit, dest, dest[i := Many(dest[i].items + items)], seen);
      }
  }

  lemma {:induction false} OneMerges(w: Wire, fs: seq<Field>, i: nat, v: Value, s: Bytes, b: Bytes, p: nat, limit: nat, dest: seq<Slot>, seen: set<nat>)
    requires Reads(w) && TagsDiffer(fs) && i < |fs| == |dest| && !fs[i].rule.Repeated? && HeldSlot(fs[i], dest[i]) && Good(fs[i].kind, v)
    requires RoomForValue(fs[i].kind, dest[i].value, v)
    requires s == w.EncodeTag(fs[i].tag, WireType(fs[i].kind)) + EncodeValue(w, fs[i].kind, v) && Stands(b, p, limit, s)
    ensures Moved(w, fs, b, p, p + |s|, limit, dest, dest[i := One(Some(MergeValue(fs[i].kind, dest[i].value, v)))], seen, Seen(fs, i, seen))
    decreases v, 3
  {
    var tag, value := w.EncodeTag(fs[i].tag, WireType(fs[i].kind)), EncodeValue(w, fs[i].kind, v);
    StandsParts(b, p, limit, tag, value);
    ValueMerges(w, fs[i].kind, dest[i].value, v, b, p + |tag|, limit);
    FieldStep(w, fs, i, WireType(fs[i].kind), b, p, limit, dest, seen, One(Some(MergeValue(fs[i].kind, dest[i].value, v))), p + |s|);
  }

  /** What the structure holds when the fields from `j` on have been merged into `earlier`, those before being as `done` says. */
  function MergedFrom(fs: seq<Field>, earlier: seq<Slot>, slots: seq<Slot>, j: nat, done: seq<Slot>): (r: seq<Slot>)
    requires Held(fs, earlier) && Typed(fs, slots) && |done| == |fs|
    ensures |r| == |fs|
  {
    seq(|fs|, i requires 0 <= i < |fs| => if i < j then done[i] else MergeSlot(fs[i], earlier[i], slots[i]))
  }

  /** From field `j` on the structure is as before, and merging will make it `merged`. */
  ghost predicate WillMerge(fs: seq<Field>, earlier: seq<Slot>, slots: seq<Slot>, j: nat, dest: seq<Slot>, merged: seq<Slot>)
    requires Held(fs, earlier) && Typed(fs, slots)
  {
    match j <= |fs| == |dest|
    case true => (forall i :: j <= i < |fs| ==> dest[i] == earlier[i]) && merged == MergedFrom(fs, earlier, slots, j, dest)
    case false => false
  }

  /** The slots are those of a message that fits, and there is room for them in what is there. */
  ghost predicate Mergeable(fs: seq<Field>, slots: seq<Slot>, earlier: seq<Slot>) {
    match GoodAll(fs, slots) && Held(fs, earlier)
    case true => RoomForAll(fs, earlier, slots)
    case false => false
  }

  lemma {:induction false} FieldsMerge(w: Wire, fs: seq<Field>, slots: seq<Slot>, earlier: seq<Slot>, j: nat, all: Bytes, b: Bytes, p: nat, end: nat,
                                       limit: nat, dest: seq<Slot>, merged: seq<Slot>, start: set<nat>, seen: set<nat>, last: set<nat>)
    requires Reads(w) && Mergeable(fs, slots, earlier) && j <= |fs|
    requires WillMerge(fs, earlier, slots, j, dest, merged) && all == EncodeFields(w, fs[j..], slots[j..]) && Stands(b, p, limit, all)
    requires end == p + |all| && seen == SeenPlus(fs, slots, j, start) && last == SeenPlus(fs, slots, |fs|, start)
    ensures Moved(w, fs, b, p, end, limit, dest, merged, seen, last)
    decreases slots, 1 + |fs| - j
  {
    if j == |fs| {
      assert merged == dest;
    } else {
      var s, rest := FirstField(w, fs, slots, j, all);
      var q, dest', seen' := OneFieldMerges(w, fs, slots, earlier, j, s, rest, b, p, end, limit, dest, merged, start, seen);
      FieldsMerge(w, fs, slots, earlier, j + 1, rest, b, q, end, limit, dest', merged, start, seen', last);
      Onward(w, fs, b, p, q, end, limit, dest, dest', merged, seen, seen', last);
    }
  }

  lemma {:induction false} OneFieldMerges(w: Wire, fs: seq<Field>, slots: seq<Slot>, earlier: seq<Slot>, j: nat, s: Bytes, rest: Bytes, b: Bytes, p: nat,
                                          end: nat, limit: nat, dest: seq<Slot>, merged: seq<Slot>, start: set<nat>, seen: set<nat>)
    returns (q: nat, dest': seq<Slot>, seen': set<nat>)
    requires Reads(w) && Mergeable(fs, slots, earlier) && j < |fs|
    requires WillMerge(fs, earlier, slots, j, dest, merged)
    requires s == EncodeSlot(w, fs[j], slots[j]) && Stands(b, p, limit, s + rest) && end == p + |s + rest| && seen == SeenPlus(fs, slots, j, start)
    ensures WillMerge(fs, earlier, slots, j + 1, dest', merged) && Stands(b, q, limit, rest) && end == q + |rest| && seen' == SeenPlus(fs, slots, j + 1, start)
    ensures Moved(w, fs, b, p, q, limit, dest, dest', seen, seen')
    decreases slots, 0
  {
    q, dest', seen' := p + |s|, dest[j := MergeSlot(fs[j], earlier[j], slots[j])], SeenNow(fs, slots, j, seen);
    StandsParts(b, p, limit, s, rest);
    SlotIsGood(fs, slots, earlier, j);
    SlotMerges(w, fs, slots, j, slots[j], s, b, p, limit, dest, seen);
    assert merged == MergedFrom(fs, earlier, slots, j + 1, dest');
  }

  lemma {:induction false} FirstField(w: Wire, fs: seq<Field>, slots: seq<Slot>, j: nat, all: Bytes) returns (s: Bytes, rest: Bytes)
    requires Typed(fs, slots) && j < |fs| && all == EncodeFields(w, fs[j..], slots[j..])
    ensures all == s + rest && s == EncodeSlot(w, fs[j], slots[j]) && rest == EncodeFields(w, fs[j + 1..], slots[j + 1..])
  {
    s, rest := EncodeSlot(w, fs[j], slots[j]), EncodeFields(w, fs[j + 1..], slots[j + 1..]);
    assert fs[j..][1..] == fs[j + 1..] && slots[j..][1..] == slots[j + 1..];
  }

  lemma {:induction false} SlotIsGood(fs: seq<Field>, slots: seq<Slot>, earlier: seq<Slot>, j: nat)
    requires GoodAll(fs, slots) && Held(fs, earlier) && RoomForAll(fs, earlier, slots) && j < |fs|
    ensures GoodSlot(fs[j], slots[j]) && HeldSlot(fs[j], earlier[j]) && RoomForSlot(fs[j], earlier[j], slots[j])
  {
    assert FieldOk(fs[j]) && TypedSlot(fs[j], slots[j]) && FitsSlot(fs[j], slots[j], true);
  }

  // ---------------------------------------------------------------- no room

  lemma {:induction false} PackedOverflows(w: Wire, k: Kind, items: seq<Value>, all: Bytes, b: Bytes, p: nat, end: nat, before: seq<Value>, max: nat)
    requires Reads(w) && KindOk(k) && Numbers(k, items) && |before| + |items| > max && items != []
    requires all == EncodeItems(w, k, items) && Stands(b, p, end, all) && p + |all| == end
    ensures DecodePacked(w, k, b, p, end, before, max) == None
    decreases items
  {
    var first, rest := w.putScalar(k, items[0]), EncodeItems(w, k, items[1..]);
    StandsParts(b, p, end, first, rest);
    NumberItem(w, k, items[0], b, p, end);
    if |before| < max {
      StepNumber(w, k, b, p, end, before, max, items[0], p + |first|);
      PackedOverflows(w, k, items[1..], rest, b, p + |first|, end, before + [items[0]], max);
    }
  }

  lemma {:induction false} PackedFieldOverflows(w: Wire, fs: seq<Field>, i: nat, items: seq<Value>, body: Bytes, b: Bytes, p: nat, limit: nat,
                                                dest: seq<Slot>, seen: set<nat>)
    requires Reads(w) && TagsDiffer(fs) && i < |fs| == |dest| && fs[i].rule.Repeated? && KindOk(fs[i].kind) && Numbers(fs[i].kind, items)
    requires dest[i].Many? && |dest[i].items| + |items| > fs[i].rule.limit && items != []
    requires body == EncodeItems(w, fs[i].kind, items) && Stands(b, p, limit, w.EncodeTag(fs[i].tag, 2) + w.EncodeString(body))
    ensures DecodeFields(w, fs, b, p, limit, dest, seen) == None
  {
    var tag := w.EncodeTag(fs[i].tag, 2);
    StandsParts(b, p, limit, tag, w.EncodeString(body));
    StringStands(w, b, p + |tag|, limit, body);
    var q := p + |tag| + |w.putNumber(|body|)|;
    PackedOverflows(w, fs[i].kind, items, body, b, q, q + |body|, dest[i].items, fs[i].rule.limit);
    FieldRefused(w, fs, i, 2, b, p, limit, dest, seen);
  }

  lemma {:induction false} TaggedOverflows(w: Wire, fs: seq<Field>, i: nat, items: seq<Value>, before: seq<Value>, s: Bytes, b: Bytes, p: nat, limit: nat,
                                           dest: seq<Slot>, seen: set<nat>)
    requires Reads(w) && TagsDiffer(fs) && i < |fs| == |dest| && TypedItems(fs[i], items) && dest[i] == Many(before) && items != []
    requires |before| + |items| > fs[i].rule.limit && (forall j :: 0 <= j < |items| ==> Good(fs[i].kind, items[j]))
    requires s == EncodeTagged(w, fs[i], items) && Stands(b, p, limit, s)
    ensures DecodeFields(w, fs, b, p, limit, dest, seen) == None
    decreases items
  {
    var tag, value := w.EncodeTag(fs[i].tag, WireType(fs[i].kind)), EncodeValue(w, fs[i].kind, items[0]);
    StandsParts(b, p, limit, tag + value, EncodeTagged(w, fs[i], items[1..]));
    StandsParts(b, p, limit, tag, value);
    if |before| < fs[i].rule.limit {
      ItemReads(w, fs, i, items[0], before, tag + value, b, p, limit, dest, seen);
      TaggedOverflows(w, fs, i, items[1..], before + [items[0]], EncodeTagged(w, fs[i], items[1..]), b, p + |tag + value|, limit,
                      dest[i := Many(before + [items[0]])], seen);
    } else {
      FieldRefused(w, fs, i, WireType(fs[i].kind), b, p, limit, dest, seen);
    }
  }

  lemma {:induction false} ValueOverflows(w: Wire, k: Kind, earlier: Value, v: Value, body: Bytes, b: Bytes, p: nat, limit: nat)
    requires Reads(w) && k.Message? && v.Record? && earlier.Record? && GoodAll(k.fields, v.slots) && Held(k.fields, earlier.slots)
    requires !RoomForAll(k.fields, earlier.slots, v.slots) && body == EncodeFields(w, k.fields, v.slots)
    requires Stands(b, p, limit, w.EncodeString(body))
    ensures DecodeValue(w, k, b, p, limit, Some(earlier)) == None
    decreases v, 1
  {
    var q := p + |w.putNumber(|body|)|;
    StringStands(w, b, p, limit, body);
    MessageOverflows(w, k.fields, v.slots, earlier.slots, body, b, q, q + |body|, {});
    InsideMerges(w, k, earlier, None, body, b, p, limit, q);
  }

  lemma {:induction false} OneOverflows(w: Wire, fs: seq<Field>, i: nat, v: Value, s: Bytes, b: Bytes, p: nat, limit: nat, dest: seq<Slot>, seen: set<nat>)
    requires Reads(w) && TagsDiffer(fs) && i < |fs| == |dest| && !fs[i].rule.Repeated? && HeldSlot(fs[i], dest[i]) && Good(fs[i].kind, v)
    requires !RoomForValue(fs[i].kind, dest[i].value, v)
    requires s == w.EncodeTag(fs[i].tag, WireType(fs[i].kind)) + EncodeValue(w, fs[i].kind, v) && Stands(b, p, limit, s)
    ensures DecodeFields(w, fs, b, p, limit, dest, seen) == None
    decreases v, 3
  {
    var k, tag, earlier := fs[i].kind, w.EncodeTag(fs[i].tag, WireType(fs[i].kind)), dest[i].value.value;
    TypedIsHeld(k.fields, earlier.slots);
    StandsParts(b, p, limit, tag, EncodeValue(w, k, v));
    ValueOverflows(w, k, earlier, v, EncodeFields(w, k.fields, v.slots), b, p + |tag|, limit);
    FieldRefused(w, fs, i, WireType(k), b, p, limit, dest, seen);
  }

  lemma {:induction false} SlotOverflows(w: Wire, fs: seq<Field>, i: nat, slot: Slot, s: Bytes, b: Bytes, p: nat, limit: nat, dest: seq<Slot>, seen: set<nat>)
    requires Reads(w) && TagsDiffer(fs) && i < |fs| == |dest| && GoodSlot(fs[i], slot) && HeldSlot(fs[i], dest[i])
    requires !RoomForSlot(fs[i], dest[i], slot) && s == EncodeSlot(w, fs[i], slot) && Stands(b, p, limit, s)
    ensures DecodeFields(w, fs, b, p, limit, dest, seen) == None
    decreases slot, 1
  {
    match slot
    case One(Some(v)) => OneOverflows(w, fs, i, v, s, b, p, limit, dest, seen);
    case Many(items) =>
      if Packable(fs[i].kind) {
        PackedFieldOverflows(w, fs, i, items, EncodeItems(w, fs[i].kind, items), b, p, limit, dest, seen);
      } else {
        TaggedOverflows(w, fs, i, items, dest[i].items, s, b, p, limit, dest, seen);
      }
  }

  /** Some field from `j` on has no room. */
  ghost predicate NoRoomFrom(fs: seq<Field>, earlier: seq<Slot>, slots: seq<Slot>, j: nat)
    requires Held(fs, earlier) && Typed(fs, slots)
  {
    exists i :: j <= i < |fs| && !RoomForSlot(fs[i], earlier[i], slots[i])
  }

  lemma {:induction false} FieldsOverflow(w: Wire, fs: seq<Field>, slots: seq<Slot>, earlier: seq<Slot>, j: nat, all: Bytes, b: Bytes, p: nat, limit: nat,
                                          dest: seq<Slot>, seen: set<nat>)
    requires Reads(w) && GoodAll(fs, slots) && Held(fs, earlier) && j < |fs| == |dest| && NoRoomFrom(fs, earlier, slots, j)
    requires (forall i :: j <= i < |fs| ==> dest[i] == earlier[i]) && all == EncodeFields(w, fs[j..], slots[j..]) && Stands(b, p, limit, all)
    ensures DecodeFields(w, fs, b, p, limit, dest, seen) == None
    decreases slots, 1 + |fs| - j
  {
    var s, rest := FirstField(w, fs, slots, j, all);
    StandsParts(b, p, limit, s, rest);
    GoodFieldSlot(fs, slots, earlier, j);
    if RoomForSlot(fs[j], earlier[j], slots[j]) {
      var dest' := dest[j := MergeSlot(fs[j], earlier[j], slots[j])];
      SlotMerges(w, fs, slots, j, slots[j], s, b, p, limit, dest, seen);
      FieldsOverflow(w, fs, slots, earlier, j + 1, rest, b, p + |s|, limit, dest', SeenNow(fs, slots, j, seen));
    } else {
      SlotOverflows(w, fs, j, slots[j], s, b, p, limit, dest, seen);
    }
  }

  lemma {:induction false} GoodFieldSlot(fs: seq<Field>, slots: seq<Slot>, earlier: seq<Slot>, j: nat)
    requires GoodAll(fs, slots) && Held(fs, earlier) && j < |fs|
    ensures GoodSlot(fs[j], slots[j]) && HeldSlot(fs[j], earlier[j])
  {
    assert FieldOk(fs[j]) && TypedSlot(fs[j], slots[j]) && FitsSlot(fs[j], slots[j], true);
  }

  lemma {:induction false} MessageOverflows(w: Wire, fs: seq<Field>, slots: seq<Slot>, earlier: seq<Slot>, all: Bytes, b: Bytes, p: nat, limit: nat,
                                            start: set<nat>)
    requires Reads(w) && GoodAll(fs, slots) && Held(fs, earlier) && !RoomForAll(fs, earlier, slots) && all == EncodeFields(w, fs, slots)
    requires Stands(b, p, limit, all)
    ensures DecodeFields(w, fs, b, p, limit, earlier, start) == None
    decreases slots, |fs| + 2
  {
    assert fs[0..] == fs && slots[0..] == slots;
    FieldsOverflow(w, fs, slots, earlier, 0, all, b, p, limit, earlier, start);
  }

  // ---------------------------------------------------------------- whole messages

  lemma {:induction false} DefaultsAreHeld(fs: seq<Field>, slots: seq<Slot>)
    requires Typed(fs, slots) && Fits(fs, slots, true)
    ensures Held(fs, Defaults(fs)) && RoomForAll(fs, Defaults(fs), slots) && MergeAll(fs, Defaults(fs), slots) == slots
  {
    forall i | 0 <= i < |fs|
      ensures HeldSlot(fs[i], Defaults(fs)[i]) && RoomForSlot(fs[i], Defaults(fs)[i], slots[i]) && MergeSlot(fs[i], Defaults(fs)[i], slots[i]) == slots[i]
    {
      assert TypedSlot(fs[i], slots[i]) && FitsSlot(fs[i], slots[i], true);
      if slots[i].Many? { assert [] + slots[i].items == slots[i].items; }
    }
  }

  /** Two encodings one after the other decode to the second message merged into the first, exactly if the joined arrays have room. */
  lemma {:induction false} ConcatenationMerges(fs: seq<Field>, first: seq<Slot>, second: seq<Slot>)
    requires GoodAll(fs, first) && GoodAll(fs, second) && |Encode(fs, first)| < TWO32 && |Encode(fs, second)| < TWO32
    ensures Held(fs, first)
    ensures Decode(fs, Encode(fs, first) + Encode(fs, second)) == if RoomForAll(fs, first, second) then Some(MergeAll(fs, first, second)) else None
  {
    var x, y := Encode(fs, first), Encode(fs, second);
    ProtobufReads();
    TypedIsHeld(fs, first);
    DefaultsAreHeld(fs, first);
    BothMerge(Protobuf(), fs, first, second, x, y, x + y);
  }

  lemma {:induction false} BothMerge(w: Wire, fs: seq<Field>, first: seq<Slot>, second: seq<Slot>, x: Bytes, y: Bytes, b: Bytes)
    requires Reads(w) && GoodAll(fs, first) && GoodAll(fs, second) && Held(fs, first) && Held(fs, Defaults(fs))
    requires RoomForAll(fs, Defaults(fs), first) && MergeAll(fs, Defaults(fs), first) == first
    requires x == EncodeFields(w, fs, first) && y == EncodeFields(w, fs, second) && b == x + y && |x| < TWO32 && |y| < TWO32
    ensures DecodeFields(w, fs, b, 0, |b|, Defaults(fs), {}) == if RoomForAll(fs, first, second) then Some(MergeAll(fs, first, second)) else None
  {
    var seen := FirstMerges(w, fs, first, x, b);
    assert b[|x|..|x| + |y|] == y;
    if RoomForAll(fs, first, second) {
      MessageMerges(w, fs, second, first, y, b, |x|, |b|, MergeAll(fs, first, second), seen);
    } else {
      MessageOverflows(w, fs, second, first, y, b, |x|, |b|, seen);
    }
  }

  lemma {:induction false} FirstMerges(w: Wire, fs: seq<Field>, first: seq<Slot>, x: Bytes, b: Bytes) returns (seen: set<nat>)
    requires Reads(w) && GoodAll(fs, first) && Held(fs, first) && Held(fs, Defaults(fs))
    requires RoomForAll(fs, Defaults(fs), first) && MergeAll(fs, Defaults(fs), first) == first
    requires x == EncodeFields(w, fs, first) && |x| <= |b| && b[..|x|] == x && |x| < TWO32
    ensures DecodeFields(w, fs, b, 0, |b|, Defaults(fs), {}) == DecodeFields(w, fs, b, |x|, |b|, first, seen)
  {
    seen := SeenPlus(fs, first, |fs|, {});
    assert fs[0..] == fs && first[0..] == first && b[0..|x|] == x;
    assert MergedFrom(fs, Defaults(fs), first, 0, Defaults(fs)) == first;
    FieldsMerge(w, fs, first, Defaults(fs), 0, x, b, 0, |x|, |b|, Defaults(fs), first, {}, {}, seen);
  }
}
