/** Protocol Buffers messages as nanopb describes them (pb.h, pb_encode.c): field descriptors, the values that a message structure
    holds, and the bytes that encode them (Protocol Buffers Encoding: "Base 128 Varints", "Signed Integers", "Packed Repeated
    Fields").
 */
module PbMessages {
  import opened InternalKeys
  import opened LogFormat
  import opened Varints

  const TWO64: nat := 0x1_0000_0000_0000_0000
  const TAG_LIMIT: nat := 0x2000_0000

  /** How a field is stored and encoded; `width`, `max` and `size` are in bytes. A string's buffer has room for its terminator. */
  datatype Kind =
    | Bool | Varint(width: nat) | UVarint(width: nat) | SVarint(width: nat) | Fixed32 | Fixed64
    | BytesOf(max: nat) | StringOf(size: nat) | FixedBytes(size: nat) | Message(fields: seq<Field>)

  datatype Rule = Required | Optional | Repeated(limit: nat)

  datatype Field = Field(tag: nat, rule: Rule, kind: Kind)

  datatype Value = Flag(flag: bool) | Int(number: int) | Blob(blob: Bytes) | Record(slots: seq<Slot>)

  /** What the structure holds for a field: a value, none if an optional field is not set or a required field still has its
      default, or the entries of an array. */
  datatype Slot = One(value: Option<Value>) | Many(items: seq<Value>)

  // ---------------------------------------------------------------- descriptors

  /** Numbers of `width` bytes. */
  function Span(width: nat): nat {
    if width == 1 then 0x100 else if width == 2 then 0x1_0000 else if width == 4 then TWO32 else TWO64
  }

  predicate Width(width: nat) { width == 1 || width == 2 || width == 4 || width == 8 }

  predicate TagsDiffer(fs: seq<Field>) {
    && (forall i :: 0 <= i < |fs| ==> 0 < fs[i].tag < TAG_LIMIT)
    && (forall i, j :: 0 <= i < j < |fs| ==> fs[i].tag != fs[j].tag)
  }

  /** What the generator of descriptors guarantees. */
  predicate KindOk(k: Kind) {
    match k
    case Varint(width) => Width(width)
    case UVarint(width) => Width(width)
    case SVarint(width) => Width(width)
    case Message(fs) => SchemaOk(fs)
    case _ => true
  }

  predicate FieldOk(f: Field) { KindOk(f.kind) }

  predicate SchemaOk(fs: seq<Field>) {
    TagsDiffer(fs) && forall i :: 0 <= i < |fs| ==> FieldOk(fs[i])
  }

  // ---------------------------------------------------------------- values

  predicate Signed(width: nat, i: int) { -(Span(width) / 2) <= i < Span(width) / 2 }

  /** The value has the C type of the field. */
  predicate TypedValue(k: Kind, v: Value)
    decreases v
  {
    match k
    case Bool => v.Flag?
    case Varint(width) => v.Int? && Signed(width, v.number)
    case UVarint(width) => v.Int? && 0 <= v.number < Span(width)
    case SVarint(width) => v.Int? && Signed(width, v.number)
    case Fixed32 => v.Int? && 0 <= v.number < TWO32
    case Fixed64 => v.Int? && 0 <= v.number < TWO64
    case BytesOf(_) => v.Blob?
    case StringOf(size) => v.Blob? && |v.blob| <= size && 0 !in v.blob
    case FixedBytes(size) => v.Blob? && |v.blob| == size
    case Message(fs) => v.Record? && Typed(fs, v.slots)
  }

  predicate TypedSlot(f: Field, s: Slot)
    decreases s
  {
    match f.rule
    case Required => s.One? && s.value.Some? && TypedValue(f.kind, s.value.value)
    case Optional => s.One? && (s.value.Some? ==> TypedValue(f.kind, s.value.value))
    case Repeated(_) => s.Many? && forall i :: 0 <= i < |s.items| ==> TypedValue(f.kind, s.items[i])
  }

  predicate Typed(fs: seq<Field>, slots: seq<Slot>)
    decreases slots
  {
    |fs| == |slots| && forall i :: 0 <= i < |slots| ==> TypedSlot(fs[i], slots[i])
  }

  /** Counts and sizes are within the bounds of the structure; with `terminated`, every string ends inside its buffer. */
  predicate FitsValue(k: Kind, v: Value, terminated: bool)
    requires TypedValue(k, v)
    decreases v
  {
    match k
    case BytesOf(max) => |v.blob| <= max
    case StringOf(size) => terminated ==> |v.blob| < size
    case Message(fs) => Fits(fs, v.slots, terminated)
    case _ => true
  }

  predicate FitsSlot(f: Field, s: Slot, terminated: bool)
    requires TypedSlot(f, s)
    decreases s
  {
    match s
    case One(value) => value.Some? ==> FitsValue(f.kind, value.value, terminated)
    case Many(items) => |items| <= f.rule.limit && forall i :: 0 <= i < |items| ==> FitsValue(f.kind, items[i], terminated)
  }

  predicate Fits(fs: seq<Field>, slots: seq<Slot>, terminated: bool)
    requires Typed(fs, slots)
    decreases slots
  {
    forall i :: 0 <= i < |slots| ==> FitsSlot(fs[i], slots[i], terminated)
  }

  lemma {:induction false} FitsRelaxed(fs: seq<Field>, slots: seq<Slot>)
    requires Typed(fs, slots) && Fits(fs, slots, true)
    ensures Fits(fs, slots, false)
    decreases slots
  {
    forall i | 0 <= i < |slots| ensures FitsSlot(fs[i], slots[i], false) { SlotRelaxed(fs[i], slots[i]); }
  }

  lemma {:induction false} SlotRelaxed(f: Field, s: Slot)
    requires TypedSlot(f, s) && FitsSlot(f, s, true)
    ensures FitsSlot(f, s, false)
    decreases s
  {
    match s
    case One(None) =>
    case One(Some(v)) => ValueRelaxed(f.kind, v);
    case Many(items) => forall i | 0 <= i < |items| ensures FitsValue(f.kind, items[i], false) { ValueRelaxed(f.kind, items[i]); }
  }

  lemma {:induction false} ValueRelaxed(k: Kind, v: Value)
    requires TypedValue(k, v) && FitsValue(k, v, true)
    ensures FitsValue(k, v, false)
    decreases v
  {
    if k.Message? { FitsRelaxed(k.fields, v.slots); }
  }

  // ---------------------------------------------------------------- single values

  predicate Packable(k: Kind) { k.Bool? || k.Varint? || k.UVarint? || k.SVarint? || k.Fixed32? || k.Fixed64? }

  function WireType(k: Kind): (w: nat)
    ensures w < 8
  {
    match k
    case Fixed32 => 5
    case Fixed64 => 1
    case BytesOf(_) => 2
    case StringOf(_) => 2
    case FixedBytes(_) => 2
    case Message(_) => 2
    case _ => 0
  }

  /** A 64-bit pattern: two's complement. */
  function Pattern(i: int): int { if i < 0 then i + TWO64 else i }

  /** Small negative numbers become small numbers. */
  function ZigZag(i: int): nat { if i < 0 then -2 * i - 1 else 2 * i }

  /** Everything but submessages. */
  function EncodeScalar(k: Kind, v: Value): Bytes
    requires TypedValue(k, v) && !k.Message?
  {
    match k
    case Bool => EncodeVarint(if v.flag then 1 else 0)
    case Varint(width) => EncodeVarint(Pattern(v.number))
    case UVarint(width) => EncodeVarint(v.number)
    case SVarint(width) => EncodeVarint(ZigZag(v.number))
    case Fixed32 => EncodeFixed(v.number, 4)
    case Fixed64 => EncodeFixed(v.number, 8)
    case BytesOf(_) => EncodeVarint(|v.blob|) + v.blob
    case StringOf(_) => EncodeVarint(|v.blob|) + v.blob
    case FixedBytes(_) => EncodeVarint(|v.blob|) + v.blob
    case Message(_) => []
  }

  datatype ValueAt = ValueAt(value: Value, next: nat)

  datatype TagRead = End | Broken | Tag(tag: nat, wire: nat, next: nat)

  /** How single values are written and read: a number, a value that is no message, a value to be skipped. Messages are encoded and
      decoded in terms of these. */
  datatype Wire = Wire(putNumber: nat -> Bytes, putScalar: (Kind, Value) -> Bytes, number: (Bytes, nat, nat) -> Option<Number>,
                       scalar: (Kind, Bytes, nat, nat) -> Option<ValueAt>, skip: (Bytes, nat, nat, nat) -> Option<nat>)
  {
    function Number(b: Bytes, p: nat, limit: nat): (r: Option<Number>)
      ensures r.Some? ==> p < r.value.next <= limit
    {
      var r := number(b, p, limit);
      if r.Some? && p < r.value.next <= limit then r else None
    }

    function Scalar(k: Kind, b: Bytes, p: nat, limit: nat): (r: Option<ValueAt>)
      ensures r.Some? ==> p < r.value.next <= limit
    {
      var r := scalar(k, b, p, limit);
      if r.Some? && p < r.value.next <= limit then r else None
    }

    function Skip(b: Bytes, p: nat, limit: nat, wire: nat): (r: Option<nat>)
      ensures r.Some? ==> p < r.value <= limit
    {
      var r := skip(b, p, limit, wire);
      if r.Some? && p < r.value <= limit then r else None
    }

    function EncodeTag(tag: nat, wire: nat): Bytes { putNumber(tag * 8 + wire) }

    function EncodeString(s: Bytes): Bytes { putNumber(|s|) + s }

    /** A tag; zero ends the message. */
    function DecodeTag(b: Bytes, p: nat, limit: nat): (r: TagRead)
      ensures r.Tag? ==> p < r.next <= limit
    {
      var r := Number(b, p, limit);
      if r.None? then Broken else if r.value.value == 0 then End else Tag(r.value.value / 8, r.value.value % 8, r.value.next)
    }
  }

  // ---------------------------------------------------------------- messages

  function EncodeValue(w: Wire, k: Kind, v: Value): Bytes
    requires TypedValue(k, v)
    decreases v, 1
  {
    if k.Message? then w.EncodeString(EncodeFields(w, k.fields, v.slots)) else w.putScalar(k, v)
  }

  /** One value after the other. */
  function EncodeItems(w: Wire, k: Kind, items: seq<Value>): Bytes
    requires Packable(k) && forall i :: 0 <= i < |items| ==> TypedValue(k, items[i])
  {
    if items == [] then [] else w.putScalar(k, items[0]) + EncodeItems(w, k, items[1..])
  }

  /** One value after the other, each behind the tag of the field. */
  function EncodeTagged(w: Wire, f: Field, items: seq<Value>): Bytes
    requires forall i :: 0 <= i < |items| ==> TypedValue(f.kind, items[i])
    decreases items
  {
    if items == [] then []
    else w.EncodeTag(f.tag, WireType(f.kind)) + EncodeValue(w, f.kind, items[0]) + EncodeTagged(w, f, items[1..])
  }

  /** Arrays of numbers are packed; empty arrays and optional fields that are not set leave nothing. */
  function EncodeSlot(w: Wire, f: Field, s: Slot): Bytes
    requires TypedSlot(f, s)
    decreases s
  {
    match s
    case One(None) => []
    case One(Some(v)) => w.EncodeTag(f.tag, WireType(f.kind)) + EncodeValue(w, f.kind, v)
    case Many(items) =>
      if items == [] then []
      else if Packable(f.kind) then w.EncodeTag(f.tag, 2) + w.EncodeString(EncodeItems(w, f.kind, items))
      else EncodeTagged(w, f, items)
  }

  function EncodeFields(w: Wire, fs: seq<Field>, slots: seq<Slot>): Bytes
    requires Typed(fs, slots)
    decreases slots, 0
  {
    if slots == [] then [] else EncodeSlot(w, fs[0], slots[0]) + EncodeFields(w, fs[1..], slots[1..])
  }
}
