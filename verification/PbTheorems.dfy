/** Whole messages: decoding gives back exactly the messages whose strings all end inside their buffers. A string that fills its buffer is
    encoded (the encoder stops at the end of the buffer), but its length leaves the decoder no room for the terminator.
 */
module PbTheorems {
  import opened InternalKeys
  import opened LogFormat
  import opened Varints
  import opened PbMessages
  import opened PbWire
  import opened PbDecoder
  import opened PbRoundTrip

  // ---------------------------------------------------------------- values that the decoder refuses

  /** The encoder accepts the value; a string in it fills its buffer. */
  predicate Brimful(k: Kind, v: Value) { KindOk(k) && TypedValue(k, v) && FitsValue(k, v, false) && !FitsValue(k, v, true) }

  predicate ScalarRefused(w: Wire, k: Kind, v: Value, b: Bytes, p: nat, limit: nat) {
    !k.Message? && Brimful(k, v) && Stands(b, p, limit, w.putScalar(k, v)) ==> w.Scalar(k, b, p, limit) == None
  }

  ghost predicate Refuses(w: Wire) {
    forall k, v, b, p: nat, limit: nat :: ScalarRefused(w, k, v, b, p, limit)
  }

  lemma ProtobufRefuses()
    ensures Refuses(Protobuf())
  {
    var w := Protobuf();
    forall k, v, b, p: nat, limit: nat ensures ScalarRefused(w, k, v, b, p, limit) {
      if !k.Message? && Brimful(k, v) && Stands(b, p, limit, EncodeScalar(k, v)) {
        AtParts(b, p, EncodeVarint(|v.blob|), v.blob);
        Encoded32(b, p, limit, |v.blob|);
      }
    }
  }

  lemma FieldRefused(w: Wire, fs: seq<Field>, i: nat, wire: nat, b: Bytes, p: nat, limit: nat, dest: seq<Slot>, seen: set<nat>)
    requires Reads(w) && TagsDiffer(fs) && i < |fs| == |dest| && wire < 8 && Stands(b, p, limit, w.EncodeTag(fs[i].tag, wire))
    requires DecodeSlot(w, fs[i], wire, b, p + |w.EncodeTag(fs[i].tag, wire)|, limit, dest[i]) == None
    ensures DecodeFields(w, fs, b, p, limit, dest, seen) == None
  {
    TagReads(w, fs[i].tag, wire, b, p, limit);
    IndexIs(fs, i);
  }

  /** A tag, and a value behind it that is refused. */
  lemma ValueRefusedAt(w: Wire, fs: seq<Field>, i: nat, b: Bytes, p: nat, limit: nat, dest: seq<Slot>, seen: set<nat>)
    requires Reads(w) && TagsDiffer(fs) && i < |fs| == |dest| && Stands(b, p, limit, w.EncodeTag(fs[i].tag, WireType(fs[i].kind)))
    requires DecodeValue(w, fs[i].kind, b, p + |w.EncodeTag(fs[i].tag, WireType(fs[i].kind))|, limit, None) == None
    requires !Packable(fs[i].kind) && (!fs[i].rule.Repeated? ==> dest[i] == One(None))
    ensures DecodeFields(w, fs, b, p, limit, dest, seen) == None
  {
    FieldRefused(w, fs, i, WireType(fs[i].kind), b, p, limit, dest, seen);
  }

  lemma InsideRefused(w: Wire, k: Kind, body: Bytes, b: Bytes, p: nat, limit: nat)
    requires Reads(w) && k.Message? && Stands(b, p, limit, w.EncodeString(body))
    requires var q := p + |w.putNumber(|body|)|; DecodeFields(w, k.fields, b, q, q + |body|, Defaults(k.fields), {}) == None
    ensures DecodeValue(w, k, b, p, limit, None) == None
  {
    StringStands(w, b, p, limit, body);
    assert StartFrom(k.fields, None) == Defaults(k.fields);
  }

  // ---------------------------------------------------------------- the first value that is refused

  lemma {:induction false} ValueRefused(w: Wire, k: Kind, v: Value, b: Bytes, p: nat, limit: nat)
    requires Reads(w) && Refuses(w) && Brimful(k, v) && Stands(b, p, limit, EncodeValue(w, k, v))
    ensures DecodeValue(w, k, b, p, limit, None) == None
    decreases v, 1
  {
    if k.Message? {
      SubmessageRefused(w, k, v, b, p, limit);
    } else {
      assert ScalarRefused(w, k, v, b, p, limit);
    }
  }

  lemma {:induction false} SubmessageRefused(w: Wire, k: Kind, v: Value, b: Bytes, p: nat, limit: nat)
    requires Reads(w) && Refuses(w) && k.Message? && v.Record? && SchemaOk(k.fields) && Typed(k.fields, v.slots)
    requires Fits(k.fields, v.slots, false) && !Fits(k.fields, v.slots, true)
    requires Stands(b, p, limit, w.EncodeString(EncodeFields(w, k.fields, v.slots)))
    ensures DecodeValue(w, k, b, p, limit, None) == None
    decreases v, 0
  {
    var body := EncodeFields(w, k.fields, v.slots);
    var q := p + |w.putNumber(|body|)|;
    StringStands(w, b, p, limit, body);
    MessageRefused(w, k.fields, v.slots, b, q, q + |body|);
    InsideRefused(w, k, body, b, p, limit);
  }

  lemma {:induction false} FirstBrimful(fs: seq<Field>, slots: seq<Slot>, n: nat) returns (j: nat)
    requires Typed(fs, slots) && n <= |fs| && exists i :: 0 <= i < n && !FitsSlot(fs[i], slots[i], true)
    ensures j < n && !FitsSlot(fs[j], slots[j], true) && forall i :: 0 <= i < j ==> FitsSlot(fs[i], slots[i], true)
  {
    if exists i :: 0 <= i < n - 1 && !FitsSlot(fs[i], slots[i], true) {
      j := FirstBrimful(fs, slots, n - 1);
    } else {
      j := n - 1;
    }
  }

  lemma {:induction false} MessageRefused(w: Wire, fs: seq<Field>, slots: seq<Slot>, b: Bytes, p: nat, end: nat)
    requires Reads(w) && Refuses(w) && SchemaOk(fs) && Typed(fs, slots) && Fits(fs, slots, false) && !Fits(fs, slots, true)
    requires Stands(b, p, end, EncodeFields(w, fs, slots)) && p + |EncodeFields(w, fs, slots)| == end
    ensures DecodeFields(w, fs, b, p, end, Defaults(fs), {}) == None
    decreases slots, 1
  {
    var m := FirstBrimful(fs, slots, |fs|);
    var q := Place(FieldsFrom(w, fs, slots), end, m);
    FieldsEnd(w, fs, slots);
    MessageWalk(w, fs, slots, b, p, end, m, FieldsFrom(w, fs, slots), MessageStage(w, fs, slots, b, end));
    MessageStageIs(w, fs, slots, b, end, 0, p, Defaults(fs), {});
    MessageStageIs(w, fs, slots, b, end, m, q, Dest(fs, slots, m), SeenBy(fs, slots, m));
    assert FieldOk(fs[m]) && TypedSlot(fs[m], slots[m]) && FitsSlot(fs[m], slots[m], false);
    SlotRefused(w, fs, slots, m, FieldAt(w, fs, slots)(m), b, q, end, SeenBy(fs, slots, m));
  }

  lemma {:induction false} SlotRefused(w: Wire, fs: seq<Field>, slots: seq<Slot>, i: nat, s: Bytes, b: Bytes, p: nat, limit: nat, seen: set<nat>)
    requires Reads(w) && Refuses(w) && TagsDiffer(fs) && i < |fs| == |slots| && FieldOk(fs[i]) && TypedSlot(fs[i], slots[i])
    requires FitsSlot(fs[i], slots[i], false) && !FitsSlot(fs[i], slots[i], true)
    requires s == EncodeSlot(w, fs[i], slots[i]) && Stands(b, p, limit, s)
    ensures DecodeFields(w, fs, b, p, limit, Dest(fs, slots, i), seen) == None
    decreases slots[i], 1
  {
    DestNext(fs, slots, i);
    match slots[i]
    case One(Some(v)) => OneRefused(w, fs, i, v, s, b, p, limit, Dest(fs, slots, i), seen);
    case Many(items) => TaggedRefused(w, fs, i, items, b, p, limit, Dest(fs, slots, i), seen);
  }

  lemma {:induction false} OneRefused(w: Wire, fs: seq<Field>, i: nat, v: Value, s: Bytes, b: Bytes, p: nat, limit: nat, dest: seq<Slot>, seen: set<nat>)
    requires Reads(w) && Refuses(w) && TagsDiffer(fs) && i < |fs| == |dest| && Brimful(fs[i].kind, v)
    requires !fs[i].rule.Repeated? ==> dest[i] == One(None)
    requires s == w.EncodeTag(fs[i].tag, WireType(fs[i].kind)) + EncodeValue(w, fs[i].kind, v) && Stands(b, p, limit, s)
    ensures DecodeFields(w, fs, b, p, limit, dest, seen) == None
    decreases v, 2
  {
    var tag := w.EncodeTag(fs[i].tag, WireType(fs[i].kind));
    StandsParts(b, p, limit, tag, EncodeValue(w, fs[i].kind, v));
    ValueRefused(w, fs[i].kind, v, b, p + |tag|, limit);
    ValueRefusedAt(w, fs, i, b, p, limit, dest, seen);
  }

  lemma {:induction false} FirstItem(k: Kind, items: seq<Value>, n: nat) returns (j: nat)
    requires (forall i :: 0 <= i < |items| ==> TypedValue(k, items[i])) && n <= |items|
    requires exists i :: 0 <= i < n && !FitsValue(k, items[i], true)
    ensures j < n && !FitsValue(k, items[j], true) && forall i :: 0 <= i < j ==> FitsValue(k, items[i], true)
  {
    if exists i :: 0 <= i < n - 1 && !FitsValue(k, items[i], true) {
      j := FirstItem(k, items, n - 1);
    } else {
      j := n - 1;
    }
  }

  lemma {:induction false} TaggedRefused(w: Wire, fs: seq<Field>, i: nat, items: seq<Value>, b: Bytes, p: nat, limit: nat, dest: seq<Slot>, seen: set<nat>)
    requires Reads(w) && Refuses(w) && TagsDiffer(fs) && i < |fs| == |dest| && KindOk(fs[i].kind) && TypedItems(fs[i], items)
    requires |items| <= fs[i].rule.limit && dest[i] == Many([])
    requires (forall j :: 0 <= j < |items| ==> FitsValue(fs[i].kind, items[j], false))
    requires exists j :: 0 <= j < |items| && !FitsValue(fs[i].kind, items[j], true)
    requires Stands(b, p, limit, EncodeTagged(w, fs[i], items))
    ensures DecodeFields(w, fs, b, p, limit, dest, seen) == None
    decreases items, 1
  {
    var m := FirstItem(fs[i].kind, items, |items|);
    var end := p + |EncodeTagged(w, fs[i], items)|;
    var q := Place(TaggedFrom(w, fs[i], items), end, m);
    TaggedEnds(w, fs[i], items);
    assert items[..0] == [] && dest[i := Many([])] == dest;
    TaggedWalk(w, fs, i, items, b, p, end, limit, dest, seen, m, TaggedFrom(w, fs[i], items),
               TaggedStage(w, fs, i, items, b, end, limit, dest, seen));
    TaggedStageIs(w, fs, i, items, b, end, limit, dest, seen, 0, p, dest);
    TaggedStageIs(w, fs, i, items, b, end, limit, dest, seen, m, q, dest[i := Many(items[..m])]);
    OneRefused(w, fs, i, items[m], TaggedAt(w, fs[i], items)(m), b, q, limit, dest[i := Many(items[..m])], seen);
  }

  // ---------------------------------------------------------------- whole messages

  function Encode(fs: seq<Field>, slots: seq<Slot>): Bytes
    requires Typed(fs, slots)
  {
    EncodeFields(Protobuf(), fs, slots)
  }

  ghost function Decode(fs: seq<Field>, b: Bytes): Option<seq<Slot>> {
    DecodeFields(Protobuf(), fs, b, 0, |b|, Defaults(fs), {})
  }

  /** Of the messages that the encoder accepts, exactly those come back whose strings all end inside their buffers. */
  lemma RoundTrip(fs: seq<Field>, slots: seq<Slot>)
    requires SchemaOk(fs) && Typed(fs, slots) && Fits(fs, slots, false) && |Encode(fs, slots)| < TWO32
    ensures Fits(fs, slots, true) ==> Decode(fs, Encode(fs, slots)) == Some(slots)
    ensures !Fits(fs, slots, true) ==> Decode(fs, Encode(fs, slots)) == None
  {
    var w, b := Protobuf(), Encode(fs, slots);
    ProtobufReads();
    ProtobufRefuses();
    assert b[0..|b|] == b;
    if Fits(fs, slots, true) {
      MessageReads(w, fs, slots, b, 0, |b|);
    } else {
      MessageRefused(w, fs, slots, b, 0, |b|);
    }
  }

  /** A one-letter string in a one-byte buffer. */
  lemma UnterminatedString()
    ensures var fs := [Field(1, Required, StringOf(1))];
            var slots := [One(Some(Blob([65])))];
            SchemaOk(fs) && Typed(fs, slots) && Fits(fs, slots, false) && Decode(fs, Encode(fs, slots)) == None
  {
    var fs := [Field(1, Required, StringOf(1))];
    var slots := [One(Some(Blob([65])))];
    assert FieldOk(fs[0]) && TypedSlot(fs[0], slots[0]) && FitsSlot(fs[0], slots[0], false) && !FitsSlot(fs[0], slots[0], true);
    assert Encode(fs, slots) == EncodeSlot(Protobuf(), fs[0], slots[0]) + EncodeFields(Protobuf(), [], []);
    RoundTrip(fs, slots);
  }
}
