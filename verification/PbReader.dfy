/** The decoder as it runs (pb_decode.c, pb_common.c): a cyclic iterator over the field descriptors and a loop over the tags. */
module PbReader {
  import opened InternalKeys
  import opened LogFormat
  import opened Varints
  import opened PbMessages
  import opened PbWire
  import opened PbDecoder
  import opened PbTheorems

  /** A 32-bit number, byte by byte (pb_decode_varint32_eof). */
  method ReadNumber(b: Bytes, start: nat, limit: nat) returns (r: Option<Number>)
    requires limit <= |b|
    ensures r == GetVarint32(b, start, limit)
  {
    var p, k: nat, result: nat := start, 0, 0;
    while p < limit
      invariant GetVarint32(b, start, limit) == Varint32From(b, p, limit, k, result)
      decreases limit - p
    {
      var x := b[p] as nat;
      if k >= 5 {
        if x % 128 != 0 && (result < 0x8000_0000 || x != if k < 9 then 0xFF else 0x01) {
          return None;
        }
      } else {
        result := (result + Shift(x % 128, k)) % TWO32;
      }
      p := p + 1;
      if x < 128 {
        return if k == 4 && x >= 16 then None else Some(Number(result, p));
      }
      k := k + 1;
    }
    r := None;
  }

  /** A position in the field descriptors, and how many required fields are before it (pb_field_iter_t). */
  class FieldIter {
    const fs: seq<Field>
    var pos: nat
    var required: nat

    ghost predicate Valid()
      reads this
    {
      (pos < |fs| || fs == []) && pos <= |fs| && required == RequiredCount(fs[..pos])
    }

    constructor (fs: seq<Field>)
      ensures Valid() && this.fs == fs && pos == 0
    {
      this.fs, pos, required := fs, 0, 0;
    }

    /** The next field, or the first one after the last. */
    method Next() returns (more: bool)
      requires Valid()
      modifies this
      ensures Valid() && more == (old(pos) + 1 < |fs|) && pos == if more then old(pos) + 1 else 0
    {
      more := pos + 1 < |fs|;
      if more {
        assert fs[..pos + 1][..pos] == fs[..pos];
        if fs[pos].rule.Required? {
          required := required + 1;
        }
        pos := pos + 1;
      } else {
        pos, required := 0, 0;
      }
    }

    /** Search from where the iterator stands, all the way round. */
    method Find(tag: nat) returns (found: bool)
      requires Valid() && TagsDiffer(fs)
      modifies this
      ensures Valid() && Index(fs, tag) == if found then Some(pos) else None
    {
      if fs == [] {
        return false;
      }
      var start := pos;
      ghost var k := 0;
      while true
        invariant Valid() && 0 <= k < |fs| && pos == Round(start, k, |fs|)
        invariant forall j :: 0 <= j < k ==> fs[Round(start, j, |fs|)].tag != tag
        decreases |fs| - k
      {
        if fs[pos].tag == tag {
          return true;
        }
        var more := Next();
        if pos == start {
          assert k + 1 == |fs|;
          forall i | 0 <= i < |fs| ensures fs[i].tag != tag {
            assert i == Round(start, if i >= start then i - start else i - start + |fs|, |fs|);
          }
          return false;
        }
        k := k + 1;
      }
    }

    /** How many required fields there are in all. */
    method CountRequired() returns (n: nat)
      requires Valid()
      modifies this
      ensures n == RequiredCount(fs)
    {
      if fs == [] {
        return 0;
      }
      var last;
      while true
        invariant Valid()
        decreases |fs| - pos
      {
        n, last := required, fs[pos].rule;
        assert fs[..pos + 1][..pos] == fs[..pos];
        ghost var at := pos;
        var more := Next();
        if !more {
          assert fs[..at + 1] == fs;
          break;
        }
      }
      if last.Required? {
        n := n + 1;
      }
    }
  }

  /** The position `k` steps after `start` in a circle of `n`. */
  function Round(start: nat, k: nat, n: nat): (r: nat)
    requires start < n && k < n
    ensures r < n
  {
    if start + k < n then start + k else start + k - n
  }

  // ---------------------------------------------------------------- messages

  method ReadPacked(w: Wire, k: Kind, b: Bytes, start: nat, limit: nat, before: seq<Value>, max: nat) returns (r: Option<seq<Value>>)
    requires Packable(k) && start <= limit
    ensures r == DecodePacked(w, k, b, start, limit, before, max)
  {
    var p, items := start, before;
    while p < limit && |items| < max
      invariant p <= limit && DecodePacked(w, k, b, start, limit, before, max) == DecodePacked(w, k, b, p, limit, items, max)
      decreases limit - p
    {
      var v := w.Scalar(k, b, p, limit);
      if v.None? {
        return None;
      }
      p, items := v.value.next, items + [v.value.value];
    }
    r := if p < limit then None else Some(items);
  }

  method ReadValue(w: Wire, k: Kind, b: Bytes, p: nat, limit: nat, current: Option<Value>) returns (r: Option<ValueAt>)
    requires KindOk(k) && p <= limit
    ensures r == DecodeValue(w, k, b, p, limit, current)
    decreases limit - p, 0
  {
    if !k.Message? {
      return w.Scalar(k, b, p, limit);
    }
    var n := w.Number(b, p, limit);
    if n.None? || n.value.next + n.value.value > limit {
      return None;
    }
    var end := n.value.next + n.value.value;
    var slots := ReadFields(w, k.fields, b, n.value.next, end, StartFrom(k.fields, current));
    r := if slots.None? then None else Some(ValueAt(Record(slots.value), end));
  }

  method ReadSlot(w: Wire, f: Field, wire: nat, b: Bytes, p: nat, limit: nat, current: Slot) returns (r: Option<SlotAt>)
    requires FieldOk(f) && p <= limit
    ensures r == DecodeSlot(w, f, wire, b, p, limit, current)
    decreases limit - p, 1
  {
    if !f.rule.Repeated? {
      var v := ReadValue(w, f.kind, b, p, limit, Current(current));
      r := if v.None? then None else Some(SlotAt(One(Some(v.value.value)), v.value.next));
    } else if wire == 2 && Packable(f.kind) {
      var n := w.Number(b, p, limit);
      if n.None? || n.value.next + n.value.value > limit {
        return None;
      }
      var end := n.value.next + n.value.value;
      var items := ReadPacked(w, f.kind, b, n.value.next, end, Items(current), f.rule.limit);
      r := if items.None? then None else Some(SlotAt(Many(items.value), end));
    } else if |Items(current)| >= f.rule.limit {
      r := None;
    } else {
      var v := ReadValue(w, f.kind, b, p, limit, None);
      r := if v.None? then None else Some(SlotAt(Many(Items(current) + [v.value.value]), v.value.next));
    }
  }

  method ReadFields(w: Wire, fs: seq<Field>, b: Bytes, start: nat, limit: nat, dest0: seq<Slot>) returns (r: Option<seq<Slot>>)
    requires SchemaOk(fs) && start <= limit && |dest0| == |fs|
    ensures r == DecodeFields(w, fs, b, start, limit, dest0, {})
    decreases limit - start, 2
  {
    var p, dest, seen: set<nat> := start, dest0, {};
    var it := new FieldIter(fs);
    while p < limit
      invariant start <= p <= limit && |dest| == |fs| && it.Valid() && it.fs == fs && fresh(it)
      invariant DecodeFields(w, fs, b, start, limit, dest0, {}) == DecodeFields(w, fs, b, p, limit, dest, seen)
      decreases limit - p
    {
      var t := w.DecodeTag(b, p, limit);
      if t.Broken? {
        return None;
      }
      if t.End? {
        break;
      }
      var found := it.Find(t.tag);
      if !found {
        var q := w.Skip(b, t.next, limit, t.wire);
        if q.None? {
          return None;
        }
        p := q.value;
      } else {
        assert FieldOk(fs[it.pos]);
        if fs[it.pos].rule.Required? && it.required < MAX_REQUIRED {
          seen := seen + {it.required};
        }
        var s := ReadSlot(w, fs[it.pos], t.wire, b, t.next, limit, dest[it.pos]);
        if s.None? {
          return None;
        }
        p, dest := s.value.next, dest[it.pos := s.value.slot];
      }
    }
    var n := it.CountRequired();
    if n > MAX_REQUIRED {
      n := MAX_REQUIRED;
    }
    for i := 0 to n
      invariant forall j :: 0 <= j < i ==> j in seen
    {
      if i !in seen {
        return None;
      }
    }
    r := Some(dest);
  }

  /** Decode a buffer (pb_decode). */
  method DecodeBuffer(fs: seq<Field>, b: Bytes) returns (r: Option<seq<Slot>>)
    requires SchemaOk(fs)
    ensures r == Decode(fs, b)
  {
    r := ReadFields(Protobuf(), fs, b, 0, |b|, Defaults(fs));
  }
}
