/** Decoding a message field by field (pb_decode.c, pb_common.c). */
module PbDecoder {
  import opened InternalKeys
  import opened LogFormat
  import opened Varints
  import opened PbMessages
  import opened PbWire

  const MAX_REQUIRED: nat := 64

  datatype SlotAt = SlotAt(slot: Slot, next: nat)

  /** The wire format. */
  function Protobuf(): Wire {
    Wire((x: nat) => EncodeVarint(x),
         (k: Kind, v: Value) => if !k.Message? && TypedValue(k, v) then EncodeScalar(k, v) else [],
         (b: Bytes, p: nat, limit: nat) => if limit <= |b| then GetVarint32(b, p, limit) else None,
         (k: Kind, b: Bytes, p: nat, limit: nat) => if limit <= |b| && !k.Message? then DecodeScalar(k, b, p, limit) else None,
         (b: Bytes, p: nat, limit: nat, wire: nat) => if limit <= |b| then Skip(b, p, limit, wire) else None)
  }

  // ---------------------------------------------------------------- unknown fields, required fields

  function SkipVarint(b: Bytes, p: nat, limit: nat): (r: Option<nat>)
    requires limit <= |b|
    ensures r.Some? ==> p < r.value <= limit
    decreases limit - p
  {
    if p >= limit then None else if b[p] < 128 then Some(p + 1) else SkipVarint(b, p + 1, limit)
  }

  /** A value of a field that the descriptors do not list. */
  function Skip(b: Bytes, p: nat, limit: nat, wire: nat): (r: Option<nat>)
    requires limit <= |b|
    ensures r.Some? ==> p < r.value <= limit
  {
    if wire == 0 then SkipVarint(b, p, limit)
    else if wire == 1 then if p + 8 <= limit then Some(p + 8) else None
    else if wire == 5 then if p + 4 <= limit then Some(p + 4) else None
    else if wire == 2 then
      var n := GetVarint32(b, p, limit);
      if n.None? || n.value.next + n.value.value > limit then None else Some(n.value.next + n.value.value)
    else None
  }

  function Index(fs: seq<Field>, tag: nat): (i: Option<nat>)
    ensures i.Some? ==> i.value < |fs| && fs[i.value].tag == tag
    ensures i.None? ==> forall k :: 0 <= k < |fs| ==> fs[k].tag != tag
  {
    if fs == [] then None
    else if fs[|fs| - 1].tag == tag then Some(|fs| - 1)
    else Index(fs[..|fs| - 1], tag)
  }

  /** How many of the fields are required. */
  function RequiredCount(fs: seq<Field>): (n: nat)
    ensures n <= |fs|
  {
    if fs == [] then 0 else RequiredCount(fs[..|fs| - 1]) + if fs[|fs| - 1].rule.Required? then 1 else 0
  }

  /** The required fields seen after one of field `i`: only the first 64 are tracked. */
  function Seen(fs: seq<Field>, i: nat, seen: set<nat>): set<nat>
    requires i < |fs|
  {
    if fs[i].rule.Required? && RequiredCount(fs[..i]) < MAX_REQUIRED then seen + {RequiredCount(fs[..i])} else seen
  }

  ghost predicate Complete(fs: seq<Field>, seen: set<nat>) {
    forall j: nat :: j < RequiredCount(fs) && j < MAX_REQUIRED ==> j in seen
  }

  // ---------------------------------------------------------------- messages

  function Default(f: Field): Slot { if f.rule.Repeated? then Many([]) else One(None) }

  function Defaults(fs: seq<Field>): (d: seq<Slot>)
    ensures |d| == |fs|
  {
    seq(|fs|, i requires 0 <= i < |fs| => Default(fs[i]))
  }

  /** A submessage that is already there is decoded into, others start from their defaults. */
  function StartFrom(fs: seq<Field>, current: Option<Value>): (d: seq<Slot>)
    ensures |d| == |fs|
  {
    if current.Some? && current.value.Record? && |current.value.slots| == |fs| then current.value.slots else Defaults(fs)
  }

  function Items(s: Slot): seq<Value> { if s.Many? then s.items else [] }

  function Current(s: Slot): Option<Value> { if s.One? then s.value else None }

  /** The entries of a packed array, up to the end of its bytes. */
  function DecodePacked(w: Wire, k: Kind, b: Bytes, p: nat, limit: nat, items: seq<Value>, max: nat): Option<seq<Value>>
    requires Packable(k)
    decreases limit - p
  {
    if p >= limit then Some(items)
    else if |items| >= max then None
    else
      var r := w.Scalar(k, b, p, limit);
      if r.None? then None else DecodePacked(w, k, b, r.value.next, limit, items + [r.value.value], max)
  }

  function PackedSlot(w: Wire, f: Field, b: Bytes, p: nat, limit: nat, items: seq<Value>): (r: Option<SlotAt>)
    requires p <= limit && f.rule.Repeated? && Packable(f.kind)
    ensures r.Some? ==> p < r.value.next <= limit
  {
    var n := w.Number(b, p, limit);
    if n.None? || n.value.next + n.value.value > limit then None
    else
      var end := n.value.next + n.value.value;
      var all := DecodePacked(w, f.kind, b, n.value.next, end, items, f.rule.limit);
      if all.None? then None else Some(SlotAt(Many(all.value), end))
  }

  ghost function DecodeValue(w: Wire, k: Kind, b: Bytes, p: nat, limit: nat, current: Option<Value>): (r: Option<ValueAt>)
    requires p <= limit
    ensures r.Some? ==> p < r.value.next <= limit
    decreases limit - p, 0
  {
    if !k.Message? then w.Scalar(k, b, p, limit)
    else
      var n := w.Number(b, p, limit);
      if n.None? || n.value.next + n.value.value > limit then None
      else
        var end := n.value.next + n.value.value;
        var slots := DecodeFields(w, k.fields, b, n.value.next, end, StartFrom(k.fields, current), {});
        if slots.None? then None else Some(ValueAt(Record(slots.value), end))
  }

  ghost function DecodeSlot(w: Wire, f: Field, wire: nat, b: Bytes, p: nat, limit: nat, current: Slot): (r: Option<SlotAt>)
    requires p <= limit
    ensures r.Some? ==> p < r.value.next <= limit
    decreases limit - p, 1
  {
    if !f.rule.Repeated? then
      var r := DecodeValue(w, f.kind, b, p, limit, Current(current));
      if r.None? then None else Some(SlotAt(One(Some(r.value.value)), r.value.next))
    else if wire == 2 && Packable(f.kind) then PackedSlot(w, f, b, p, limit, Items(current))
    else if |Items(current)| >= f.rule.limit then None
    else
      var r := DecodeValue(w, f.kind, b, p, limit, None);
      if r.None? then None else Some(SlotAt(Many(Items(current) + [r.value.value]), r.value.next))
  }

  ghost function DecodeFields(w: Wire, fs: seq<Field>, b: Bytes, p: nat, limit: nat, dest: seq<Slot>, seen: set<nat>): (r: Option<seq<Slot>>)
    requires p <= limit && |dest| == |fs|
    decreases limit - p, 2
  {
    var t := if p == limit then End else w.DecodeTag(b, p, limit);
    match t
    case End => if Complete(fs, seen) then Some(dest) else None
    case Broken => None
    case Tag(tag, wire, next) =>
      var i := Index(fs, tag);
      if i.None? then
        var q := w.Skip(b, next, limit, wire);
        if q.None? then None else DecodeFields(w, fs, b, q.value, limit, dest, seen)
      else
        var r := DecodeSlot(w, fs[i.value], wire, b, next, limit, dest[i.value]);
        if r.None? then None
        else DecodeFields(w, fs, b, r.value.next, limit, dest[i.value := r.value.slot], Seen(fs, i.value, seen))
  }
}
