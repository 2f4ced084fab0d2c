/** Decoding undoes encoding, for every nested schema and every message that fits it. */
module PbRoundTrip {
  import opened InternalKeys
  import opened LogFormat
  import opened Varints
  import opened PbMessages
  import opened PbWire
  import opened PbDecoder

  // ---------------------------------------------------------------- single values

  /** The bytes `s` stand at `p`, within the stream and within the reach of a 32-bit length. */
  predicate Stands(b: Bytes, p: nat, limit: nat, s: Bytes) {
    At(b, p, s) && p + |s| <= limit <= |b| && |s| < TWO32
  }

  predicate Good(k: Kind, v: Value) { KindOk(k) && TypedValue(k, v) && FitsValue(k, v, true) }

  predicate NumberRead(w: Wire, x: nat, b: Bytes, p: nat, limit: nat) {
    x < TWO32 && Stands(b, p, limit, w.putNumber(x)) ==> w.Number(b, p, limit) == Some(Number(x, p + |w.putNumber(x)|))
  }

  predicate ScalarRead(w: Wire, k: Kind, v: Value, b: Bytes, p: nat, limit: nat) {
    !k.Message? && Good(k, v) && Stands(b, p, limit, w.putScalar(k, v))
    ==> w.Scalar(k, b, p, limit) == Some(ValueAt(v, p + |w.putScalar(k, v)|))
  }

  /** Single values read back from their encodings. */
  ghost predicate Reads(w: Wire) {
    && (forall x: nat, b, p: nat, limit: nat :: NumberRead(w, x, b, p, limit))
    && (forall k, v, b, p: nat, limit: nat :: ScalarRead(w, k, v, b, p, limit))
  }

  lemma ProtobufReads()
    ensures Reads(Protobuf())
  {
    var w := Protobuf();
    forall x: nat, b, p: nat, limit: nat ensures NumberRead(w, x, b, p, limit) {
      if x < TWO32 && Stands(b, p, limit, w.putNumber(x)) { Encoded32(b, p, limit, x); }
    }
    forall k, v, b, p: nat, limit: nat ensures ScalarRead(w, k, v, b, p, limit) {
      if !k.Message? && Good(k, v) && Stands(b, p, limit, w.putScalar(k, v)) { ScalarReads(k, v, b, p, limit); }
    }
  }

  // ---------------------------------------------------------------- one step of the decoder

  lemma TagReads(w: Wire, tag: nat, wire: nat, b: Bytes, p: nat, limit: nat)
    requires Reads(w) && 0 < tag < TAG_LIMIT && wire < 8 && Stands(b, p, limit, w.EncodeTag(tag, wire))
    ensures w.DecodeTag(b, p, limit) == Tag(tag, wire, p + |w.EncodeTag(tag, wire)|)
  {
    assert NumberRead(w, tag * 8 + wire, b, p, limit);
  }

  lemma IndexIs(fs: seq<Field>, i: nat)
    requires TagsDiffer(fs) && i < |fs|
    ensures Index(fs, fs[i].tag) == Some(i)
  {
    var k := Index(fs, fs[i].tag);
    assert k.Some?;
    assert fs[k.value].tag == fs[i].tag;
  }

  /** A known field: its value goes into its slot. */
  lemma FieldStep(w: Wire, fs: seq<Field>, i: nat, wire: nat, b: Bytes, p: nat, limit: nat, dest: seq<Slot>, seen: set<nat>, s: Slot, next: nat)
    requires Reads(w) && TagsDiffer(fs) && i < |fs| == |dest| && wire < 8 && Stands(b, p, limit, w.EncodeTag(fs[i].tag, wire))
    requires DecodeSlot(w, fs[i], wire, b, p + |w.EncodeTag(fs[i].tag, wire)|, limit, dest[i]) == Some(SlotAt(s, next))
    ensures next <= limit
    ensures DecodeFields(w, fs, b, p, limit, dest, seen) == DecodeFields(w, fs, b, next, limit, dest[i := s], Seen(fs, i, seen))
  {
    TagReads(w, fs[i].tag, wire, b, p, limit);
    IndexIs(fs, i);
  }

  lemma StepInto(w: Wire, k: Kind, b: Bytes, p: nat, limit: nat, size: nat, next: nat, v: Value)
    requires p <= limit <= |b| && w.Number(b, p, limit) == Some(Number(size, next)) && next + size <= limit && k.Message? && v.Record?
    requires DecodeFields(w, k.fields, b, next, next + size, Defaults(k.fields), {}) == Some(v.slots)
    ensures DecodeValue(w, k, b, p, limit, None) == Some(ValueAt(v, next + size))
  {
    assert StartFrom(k.fields, None) == Defaults(k.fields);
  }

  lemma StepOne(w: Wire, f: Field, wire: nat, b: Bytes, p: nat, limit: nat, v: Value, next: nat)
    requires p <= limit <= |b| && !f.rule.Repeated? && DecodeValue(w, f.kind, b, p, limit, None) == Some(ValueAt(v, next))
    ensures DecodeSlot(w, f, wire, b, p, limit, One(None)) == Some(SlotAt(One(Some(v)), next))
  {
  }

  lemma StepItem(w: Wire, f: Field, wire: nat, b: Bytes, p: nat, limit: nat, before: seq<Value>, v: Value, next: nat)
    requires p <= limit <= |b| && f.rule.Repeated? && !Packable(f.kind) && |before| < f.rule.limit
    requires DecodeValue(w, f.kind, b, p, limit, None) == Some(ValueAt(v, next))
    ensures DecodeSlot(w, f, wire, b, p, limit, Many(before)) == Some(SlotAt(Many(before + [v]), next))
  {
  }

  // ---------------------------------------------------------------- pieces one after the other

  predicate Same<T(==)>(d: nat -> T, i: nat) { d(i) == d(i + 1) }

  lemma {:induction false} Chain<T>(d: nat -> T, n: nat)
    requires forall i: nat :: i < n ==> Same(d, i)
    ensures d(0) == d(n)
  {
    if n > 0 {
      Chain(d, n - 1);
      assert Same(d, n - 1);
    }
  }

  lemma StandsParts(b: Bytes, p: nat, limit: nat, s: Bytes, t: Bytes)
    requires Stands(b, p, limit, s + t)
    ensures Stands(b, p, limit, s) && Stands(b, p + |s|, limit, t)
  {
    AtParts(b, p, s, t);
  }

  lemma StringStands(w: Wire, b: Bytes, p: nat, limit: nat, s: Bytes)
    requires Reads(w) && Stands(b, p, limit, w.EncodeString(s))
    ensures var q := p + |w.putNumber(|s|)|;
            && w.Number(b, p, limit) == Some(Number(|s|, q)) && Stands(b, q, q + |s|, s) && q + |s| <= limit
            && p + |w.EncodeString(s)| == q + |s|
  {
    StandsParts(b, p, limit, w.putNumber(|s|), s);
    assert NumberRead(w, |s|, b, p, limit);
  }

  /** `all(j)` are the pieces from `j` on. */
  predicate Splits(all: nat -> Bytes, piece: nat -> Bytes, j: nat) { all(j) == piece(j) + all(j + 1) }

  /** Piece `j` stands where those before it end. */
  lemma {:induction false} PieceStands(b: Bytes, p: nat, limit: nat, all: nat -> Bytes, piece: nat -> Bytes, n: nat, j: nat)
    requires Stands(b, p, limit, all(0)) && j <= n && forall i: nat :: i < n ==> Splits(all, piece, i)
    ensures |all(j)| <= |all(0)| && Stands(b, p + |all(0)| - |all(j)|, limit, all(j))
    ensures j < n ==> |all(j + 1)| <= |all(0)| && Stands(b, p + |all(0)| - |all(j)|, limit, piece(j))
                      && |all(j)| == |piece(j)| + |all(j + 1)|
  {
    if j > 0 {
      PieceStands(b, p, limit, all, piece, n, j - 1);
      assert Splits(all, piece, j - 1);
      StandsParts(b, p + |all(0)| - |all(j - 1)|, limit, piece(j - 1), all(j));
    }
    if j < n {
      assert Splits(all, piece, j);
      StandsParts(b, p + |all(0)| - |all(j)|, limit, piece(j), all(j + 1));
    }
  }

  /** Where piece `j` starts, if they end at `end`. */
  function Place(all: nat -> Bytes, end: nat, j: nat): nat { if |all(j)| <= end then end - |all(j)| else 0 }

  function Places(all: nat -> Bytes, end: nat): nat -> nat { (j: nat) => Place(all, end, j) }

  /** A reader that stands at piece `j` moves past it. */
  predicate Moves<T(==)>(b: Bytes, end: nat, limit: nat, all: nat -> Bytes, piece: nat -> Bytes, d: nat -> T, j: nat) {
    var p := Place(all, end, j);
    Stands(b, p, limit, piece(j)) && Place(all, end, j + 1) == p + |piece(j)| ==> Same(d, j)
  }

  /** A reader that moves past the first `m` of `n` pieces stands at the next one. */
  lemma WalkPieces<T>(b: Bytes, p: nat, end: nat, limit: nat, all: nat -> Bytes, piece: nat -> Bytes, m: nat, n: nat, d: nat -> T)
    requires Stands(b, p, limit, all(0)) && p + |all(0)| == end && m <= n
    requires forall i: nat :: i < n ==> Splits(all, piece, i)
    requires forall i: nat :: i < m ==> Moves(b, end, limit, all, piece, d, i)
    ensures d(0) == d(m) && (m < n ==> Stands(b, Place(all, end, m), limit, piece(m)))
  {
    forall i: nat | i < m ensures Same(d, i) {
      PieceStands(b, p, limit, all, piece, n, i);
      assert Moves(b, end, limit, all, piece, d, i);
    }
    Chain(d, m);
    PieceStands(b, p, limit, all, piece, n, m);
  }

  // ---------------------------------------------------------------- arrays of numbers

  predicate Numbers(k: Kind, items: seq<Value>) {
    Packable(k) && forall i :: 0 <= i < |items| ==> TypedValue(k, items[i])
  }

  function ItemsFrom(w: Wire, k: Kind, items: seq<Value>): nat -> Bytes
    requires Numbers(k, items)
  {
    (j: nat) => if j <= |items| then EncodeItems(w, k, items[j..]) else []
  }

  function ItemAt(w: Wire, k: Kind, items: seq<Value>): nat -> Bytes
    requires Numbers(k, items)
  {
    (j: nat) => if j < |items| then w.putScalar(k, items[j]) else []
  }

  lemma NumberItem(w: Wire, k: Kind, v: Value, b: Bytes, p: nat, limit: nat)
    requires Reads(w) && Packable(k) && KindOk(k) && TypedValue(k, v) && Stands(b, p, limit, w.putScalar(k, v))
    ensures w.Scalar(k, b, p, limit) == Some(ValueAt(v, p + |w.putScalar(k, v)|))
  {
    assert ScalarRead(w, k, v, b, p, limit);
  }

  lemma StepNumber(w: Wire, k: Kind, b: Bytes, p: nat, limit: nat, before: seq<Value>, max: nat, v: Value, next: nat)
    requires Packable(k) && p <= limit <= |b| && |before| < max && w.Scalar(k, b, p, limit) == Some(ValueAt(v, next))
    ensures DecodePacked(w, k, b, p, limit, before, max) == DecodePacked(w, k, b, next, limit, before + [v], max)
  {
  }

  lemma {:induction false} PackedJoins(w: Wire, k: Kind, items: seq<Value>, b: Bytes, p: nat, end: nat, before: seq<Value>, max: nat)
    requires Reads(w) && KindOk(k) && Numbers(k, items) && |before| + |items| <= max && Stands(b, p, end, EncodeItems(w, k, items))
    requires p + |EncodeItems(w, k, items)| == end
    ensures DecodePacked(w, k, b, p, end, before, max) == Some(before + items)
    decreases items
  {
    if items == [] {
      assert before + items == before;
    } else {
      var first, rest := w.putScalar(k, items[0]), EncodeItems(w, k, items[1..]);
      StandsParts(b, p, end, first, rest);
      NumberItem(w, k, items[0], b, p, end);
      StepNumber(w, k, b, p, end, before, max, items[0], p + |first|);
      PackedJoins(w, k, items[1..], b, p + |first|, end, before + [items[0]], max);
      assert before + [items[0]] + items[1..] == before + items;
    }
  }

  lemma {:induction false} PackedSlotJoins(w: Wire, f: Field, items: seq<Value>, b: Bytes, p: nat, limit: nat, before: seq<Value>)
    requires Reads(w) && f.rule.Repeated? && KindOk(f.kind) && Numbers(f.kind, items) && |before| + |items| <= f.rule.limit
    requires Stands(b, p, limit, w.EncodeString(EncodeItems(w, f.kind, items)))
    ensures PackedSlot(w, f, b, p, limit, before) == Some(SlotAt(Many(before + items), p + |w.EncodeString(EncodeItems(w, f.kind, items))|))
  {
    var body := EncodeItems(w, f.kind, items);
    StringStands(w, b, p, limit, body);
    PackedJoins(w, f.kind, items, b, p + |w.putNumber(|body|)|, p + |w.putNumber(|body|)| + |body|, before, f.rule.limit);
  }

  // ---------------------------------------------------------------- one field

  /** The decoder has moved from `p`, where it had `dest`, to `q`, where it has `dest'`. */
  ghost predicate Moved(w: Wire, fs: seq<Field>, b: Bytes, p: nat, q: nat, limit: nat, dest: seq<Slot>, dest': seq<Slot>, seen: set<nat>, seen': set<nat>) {
    match p <= limit <= |b| && q <= limit && |dest| == |fs| == |dest'|
    case true => DecodeFields(w, fs, b, p, limit, dest, seen) == DecodeFields(w, fs, b, q, limit, dest', seen')
    case false => false
  }

  /** What the decoder has left to do at each of a series of states. */
  ghost function Stage(w: Wire, fs: seq<Field>, b: Bytes, limit: nat, at: nat -> nat, dest: nat -> seq<Slot>, seen: nat -> set<nat>):
      nat -> Option<seq<Slot>>
  {
    (j: nat) => if at(j) <= limit && |dest(j)| == |fs| then DecodeFields(w, fs, b, at(j), limit, dest(j), seen(j)) else None
  }

  lemma SameStage(w: Wire, fs: seq<Field>, b: Bytes, limit: nat, at: nat -> nat, dest: nat -> seq<Slot>, seen: nat -> set<nat>, j: nat)
    requires Moved(w, fs, b, at(j), at(j + 1), limit, dest(j), dest(j + 1), seen(j), seen(j + 1))
    ensures Same(Stage(w, fs, b, limit, at, dest, seen), j)
  {
  }

  /** A reader that has moved past piece `j` is at the next stage. */
  lemma {:induction false} StageMoves(w: Wire, fs: seq<Field>, b: Bytes, end: nat, all: nat -> Bytes, piece: nat -> Bytes, dest: nat -> seq<Slot>,
                                      seen: nat -> set<nat>, j: nat, p: nat, q: nat)
    requires p == Place(all, end, j) && q == Place(all, end, j + 1)
    requires Stands(b, p, end, piece(j)) && q == p + |piece(j)| ==> Moved(w, fs, b, p, q, end, dest(j), dest(j + 1), seen(j), seen(j + 1))
    ensures Moves(b, end, end, all, piece, Stage(w, fs, b, end, Places(all, end), dest, seen), j)
  {
    if Stands(b, p, end, piece(j)) && q == p + |piece(j)| { SameStage(w, fs, b, end, Places(all, end), dest, seen, j); }
  }

  lemma StageIs(w: Wire, fs: seq<Field>, b: Bytes, limit: nat, at: nat -> nat, dest: nat -> seq<Slot>, seen: nat -> set<nat>, j: nat,
                p: nat, d: seq<Slot>, sn: set<nat>)
    requires at(j) == p <= limit && dest(j) == d && |d| == |fs| && seen(j) == sn
    ensures Stage(w, fs, b, limit, at, dest, seen)(j) == DecodeFields(w, fs, b, p, limit, d, sn)
  {
  }

  /** A tag stands at `p`; the value behind it, which ends at `q`, has been read. */
  lemma ValueMoves(w: Wire, fs: seq<Field>, i: nat, wire: nat, v: Value, b: Bytes, p: nat, q: nat, limit: nat, dest: seq<Slot>, seen: set<nat>)
    requires Reads(w) && TagsDiffer(fs) && i < |fs| == |dest| && wire < 8 && Stands(b, p, limit, w.EncodeTag(fs[i].tag, wire))
    requires DecodeValue(w, fs[i].kind, b, p + |w.EncodeTag(fs[i].tag, wire)|, limit, None) == Some(ValueAt(v, q))
    requires dest[i] == Default(fs[i]) && !fs[i].rule.Repeated?
    ensures Moved(w, fs, b, p, q, limit, dest, dest[i := One(Some(v))], seen, Seen(fs, i, seen))
  {
    StepOne(w, fs[i], wire, b, p + |w.EncodeTag(fs[i].tag, wire)|, limit, v, q);
    FieldStep(w, fs, i, wire, b, p, limit, dest, seen, One(Some(v)), q);
  }

  lemma ItemMoves(w: Wire, fs: seq<Field>, i: nat, wire: nat, v: Value, before: seq<Value>, b: Bytes, p: nat, q: nat, limit: nat, dest: seq<Slot>,
                  seen: set<nat>)
    requires Reads(w) && TagsDiffer(fs) && i < |fs| == |dest| && wire < 8 && Stands(b, p, limit, w.EncodeTag(fs[i].tag, wire))
    requires DecodeValue(w, fs[i].kind, b, p + |w.EncodeTag(fs[i].tag, wire)|, limit, None) == Some(ValueAt(v, q))
    requires dest[i] == Many(before) && fs[i].rule.Repeated? && !Packable(fs[i].kind) && |before| < fs[i].rule.limit
    ensures Moved(w, fs, b, p, q, limit, dest, dest[i := Many(before + [v])], seen, seen)
  {
    StepItem(w, fs[i], wire, b, p + |w.EncodeTag(fs[i].tag, wire)|, limit, before, v, q);
    FieldStep(w, fs, i, wire, b, p, limit, dest, seen, Many(before + [v]), q);
  }

  // ---------------------------------------------------------------- values, arrays and messages

  predicate GoodSlot(f: Field, s: Slot) { FieldOk(f) && TypedSlot(f, s) && FitsSlot(f, s, true) }

  predicate GoodAll(fs: seq<Field>, slots: seq<Slot>) { SchemaOk(fs) && Typed(fs, slots) && Fits(fs, slots, true) }

  lemma {:induction false} ValueReads(w: Wire, k: Kind, v: Value, b: Bytes, p: nat, limit: nat)
    requires Reads(w) && Good(k, v) && Stands(b, p, limit, EncodeValue(w, k, v))
    ensures DecodeValue(w, k, b, p, limit, None) == Some(ValueAt(v, p + |EncodeValue(w, k, v)|))
    decreases v, 1
  {
    if k.Message? {
      SubmessageReads(w, k, v, EncodeFields(w, k.fields, v.slots), b, p, limit);
    } else {
      assert ScalarRead(w, k, v, b, p, limit);
    }
  }

  lemma {:induction false} SubmessageReads(w: Wire, k: Kind, v: Value, body: Bytes, b: Bytes, p: nat, limit: nat)
    requires Reads(w) && k.Message? && v.Record? && GoodAll(k.fields, v.slots) && body == EncodeFields(w, k.fields, v.slots)
    requires Stands(b, p, limit, w.EncodeString(body))
    ensures DecodeValue(w, k, b, p, limit, None) == Some(ValueAt(v, p + |w.EncodeString(body)|))
    decreases v, 0
  {
    var q := p + |w.putNumber(|body|)|;
    StringStands(w, b, p, limit, body);
    MessageReads(w, k.fields, v.slots, b, q, q + |body|);
    InsideReads(w, k, v, body, b, p, limit);
  }

  lemma InsideReads(w: Wire, k: Kind, v: Value, body: Bytes, b: Bytes, p: nat, limit: nat)
    requires Reads(w) && k.Message? && v.Record? && Stands(b, p, limit, w.EncodeString(body))
    requires var q := p + |w.putNumber(|body|)|;
             DecodeFields(w, k.fields, b, q, q + |body|, Defaults(k.fields), {}) == Some(v.slots)
    ensures DecodeValue(w, k, b, p, limit, None) == Some(ValueAt(v, p + |w.EncodeString(body)|))
  {
    StringStands(w, b, p, limit, body);
    StepInto(w, k, b, p, limit, |body|, p + |w.putNumber(|body|)|, v);
  }

  predicate TypedItems(f: Field, items: seq<Value>) {
    f.rule.Repeated? && !Packable(f.kind) && forall j :: 0 <= j < |items| ==> TypedValue(f.kind, items[j])
  }

  function TaggedFrom(w: Wire, f: Field, items: seq<Value>): nat -> Bytes
    requires TypedItems(f, items)
  {
    (j: nat) => if j <= |items| then EncodeTagged(w, f, items[j..]) else []
  }

  function TaggedAt(w: Wire, f: Field, items: seq<Value>): nat -> Bytes
    requires TypedItems(f, items)
  {
    (j: nat) => if j < |items| then w.EncodeTag(f.tag, WireType(f.kind)) + EncodeValue(w, f.kind, items[j]) else []
  }

  /** The structure with the first `j` entries of an array. */
  function TaggedDest(dest: seq<Slot>, i: nat, items: seq<Value>): nat -> seq<Slot>
    requires i < |dest|
  {
    (j: nat) => if j <= |items| then dest[i := Many(items[..j])] else []
  }

  ghost function TaggedStage(w: Wire, fs: seq<Field>, i: nat, items: seq<Value>, b: Bytes, end: nat, limit: nat, dest: seq<Slot>, seen: set<nat>):
      nat -> Option<seq<Slot>>
    requires i < |fs| == |dest| && TypedItems(fs[i], items)
  {
    Stage(w, fs, b, limit, Places(TaggedFrom(w, fs[i], items), end), TaggedDest(dest, i, items), (j: nat) => seen)
  }

  lemma TaggedStageIs(w: Wire, fs: seq<Field>, i: nat, items: seq<Value>, b: Bytes, end: nat, limit: nat, dest: seq<Slot>, seen: set<nat>,
                      j: nat, p: nat, d: seq<Slot>)
    requires i < |fs| == |dest| && TypedItems(fs[i], items) && j <= |items| && p == Place(TaggedFrom(w, fs[i], items), end, j) <= limit
    requires d == dest[i := Many(items[..j])]
    ensures TaggedStage(w, fs, i, items, b, end, limit, dest, seen)(j) == DecodeFields(w, fs, b, p, limit, d, seen)
  {
    StageIs(w, fs, b, limit, Places(TaggedFrom(w, fs[i], items), end), TaggedDest(dest, i, items), (j: nat) => seen, j, p, d, seen);
  }

  lemma TaggedSplits(w: Wire, f: Field, items: seq<Value>, j: nat)
    requires TypedItems(f, items) && j < |items|
    ensures Splits(TaggedFrom(w, f, items), TaggedAt(w, f, items), j)
  {
    assert items[j..][1..] == items[j + 1..];
  }

  lemma {:induction false} TaggedMoves(w: Wire, fs: seq<Field>, i: nat, items: seq<Value>, b: Bytes, end: nat, limit: nat, dest: seq<Slot>,
                                       seen: set<nat>, j: nat, all: nat -> Bytes, piece: nat -> Bytes, d: nat -> Option<seq<Slot>>)
    requires Reads(w) && TagsDiffer(fs) && i < |fs| == |dest| && TypedItems(fs[i], items) && end <= limit <= |b|
    requires j < |items| <= fs[i].rule.limit && Good(fs[i].kind, items[j])
    requires all == TaggedFrom(w, fs[i], items) && piece == TaggedAt(w, fs[i], items)
    requires d == TaggedStage(w, fs, i, items, b, end, limit, dest, seen)
    ensures Moves(b, end, limit, all, piece, d, j)
    decreases items, 0
  {
    var p, q, s := Place(all, end, j), Place(all, end, j + 1), piece(j);
    if Stands(b, p, limit, s) && q == p + |s| {
      ItemReads(w, fs, i, items[j], items[..j], s, b, p, limit, dest[i := Many(items[..j])], seen);
      OneMore(dest, i, items, j);
      SameStage(w, fs, b, limit, Places(all, end), TaggedDest(dest, i, items), (j: nat) => seen, j);
    }
  }

  lemma OneMore(dest: seq<Slot>, i: nat, items: seq<Value>, j: nat)
    requires i < |dest| && j < |items|
    ensures dest[i := Many(items[..j])][i := Many(items[..j] + [items[j]])] == dest[i := Many(items[..j + 1])]
  {
    assert items[..j] + [items[j]] == items[..j + 1];
  }

  lemma {:induction false} ItemReads(w: Wire, fs: seq<Field>, i: nat, v: Value, before: seq<Value>, s: Bytes, b: Bytes, p: nat, limit: nat,
                                     dest: seq<Slot>, seen: set<nat>)
    requires Reads(w) && TagsDiffer(fs) && i < |fs| == |dest| && Good(fs[i].kind, v) && dest[i] == Many(before)
    requires fs[i].rule.Repeated? && !Packable(fs[i].kind) && |before| < fs[i].rule.limit
    requires s == w.EncodeTag(fs[i].tag, WireType(fs[i].kind)) + EncodeValue(w, fs[i].kind, v) && Stands(b, p, limit, s)
    ensures Moved(w, fs, b, p, p + |s|, limit, dest, dest[i := Many(before + [v])], seen, seen)
    decreases v, 2
  {
    var f := fs[i];
    var tag, value := w.EncodeTag(f.tag, WireType(f.kind)), EncodeValue(w, f.kind, v);
    StandsParts(b, p, limit, tag, value);
    ValueReads(w, f.kind, v, b, p + |tag|, limit);
    assert p + |s| == p + |tag| + |value|;
    ItemMoves(w, fs, i, WireType(f.kind), v, before, b, p, p + |s|, limit, dest, seen);
  }

  /** The decoder moves past the first `m` entries of an array. */
  lemma {:induction false} TaggedWalk(w: Wire, fs: seq<Field>, i: nat, items: seq<Value>, b: Bytes, p: nat, end: nat, limit: nat,
                                      dest: seq<Slot>, seen: set<nat>, m: nat, all: nat -> Bytes, d: nat -> Option<seq<Slot>>)
    requires Reads(w) && TagsDiffer(fs) && i < |fs| == |dest| && TypedItems(fs[i], items) && m <= |items| <= fs[i].rule.limit
    requires forall j :: 0 <= j < m ==> Good(fs[i].kind, items[j])
    requires all == TaggedFrom(w, fs[i], items) && Stands(b, p, limit, all(0)) && end == p + |all(0)|
    requires d == TaggedStage(w, fs, i, items, b, end, limit, dest, seen)
    ensures d(0) == d(m) && (m < |items| ==> Stands(b, Place(all, end, m), limit, TaggedAt(w, fs[i], items)(m)))
    decreases items, 1
  {
    var piece := TaggedAt(w, fs[i], items);
    forall j: nat | j < |items| ensures Splits(all, piece, j) { TaggedSplits(w, fs[i], items, j); }
    forall j: nat | j < m ensures Moves(b, end, limit, all, piece, d, j) {
      TaggedMoves(w, fs, i, items, b, end, limit, dest, seen, j, all, piece, d);
    }
    WalkPieces(b, p, end, limit, all, piece, m, |items|, d);
  }

  lemma TaggedEnds(w: Wire, f: Field, items: seq<Value>)
    requires TypedItems(f, items)
    ensures TaggedFrom(w, f, items)(0) == EncodeTagged(w, f, items) && TaggedFrom(w, f, items)(|items|) == []
  {
    assert items[0..] == items && items[|items|..] == [];
  }

  lemma {:induction false} Onward(w: Wire, fs: seq<Field>, b: Bytes, p: nat, q: nat, r: nat, limit: nat, d: seq<Slot>, d': seq<Slot>, d'': seq<Slot>,
                                  s: set<nat>, s': set<nat>, s'': set<nat>)
    requires Moved(w, fs, b, p, q, limit, d, d', s, s') && Moved(w, fs, b, q, r, limit, d', d'', s', s'')
    ensures Moved(w, fs, b, p, r, limit, d, d'', s, s'')
  {
  }

  /** The entries of an array join those already there. */
  lemma {:induction false} TaggedJoins(w: Wire, fs: seq<Field>, i: nat, items: seq<Value>, before: seq<Value>, s: Bytes, b: Bytes, p: nat, end: nat,
                                       limit: nat, dest: seq<Slot>, joined: seq<Slot>, seen: set<nat>)
    requires Reads(w) && TagsDiffer(fs) && i < |fs| == |dest| && TypedItems(fs[i], items) && dest[i] == Many(before)
    requires |before| + |items| <= fs[i].rule.limit && (forall j :: 0 <= j < |items| ==> Good(fs[i].kind, items[j]))
    requires s == EncodeTagged(w, fs[i], items) && Stands(b, p, limit, s) && end == p + |s| && joined == dest[i := Many(before + items)]
    ensures Moved(w, fs, b, p, end, limit, dest, joined, seen, seen)
    decreases items, 0
  {
    if items == [] {
      assert before + items == before && joined == dest;
    } else {
      var first, rest := w.EncodeTag(fs[i].tag, WireType(fs[i].kind)) + EncodeValue(w, fs[i].kind, items[0]), EncodeTagged(w, fs[i], items[1..]);
      var q, now, dest' := p + |first|, before + [items[0]], dest[i := Many(before + [items[0]])];
      StandsParts(b, p, limit, first, rest);
      ItemReads(w, fs, i, items[0], before, first, b, p, limit, dest, seen);
      assert now + items[1..] == before + items && joined == dest'[i := Many(now + items[1..])];
      TaggedJoins(w, fs, i, items[1..], now, rest, b, q, end, limit, dest', joined, seen);
      Onward(w, fs, b, p, q, end, limit, dest, dest', joined, seen, seen, seen);
    }
  }

  lemma {:induction false} PackedFieldJoins(w: Wire, fs: seq<Field>, i: nat, items: seq<Value>, s: Bytes, b: Bytes, p: nat, limit: nat, dest: seq<Slot>,
                                            seen: set<nat>)
    requires Reads(w) && TagsDiffer(fs) && i < |fs| == |dest| && fs[i].rule.Repeated? && KindOk(fs[i].kind) && Numbers(fs[i].kind, items)
    requires dest[i].Many? && |dest[i].items| + |items| <= fs[i].rule.limit
    requires s == w.EncodeTag(fs[i].tag, 2) + w.EncodeString(EncodeItems(w, fs[i].kind, items)) && Stands(b, p, limit, s)
    ensures Moved(w, fs, b, p, p + |s|, limit, dest, dest[i := Many(dest[i].items + items)], seen, seen)
  {
    var tag, body := w.EncodeTag(fs[i].tag, 2), w.EncodeString(EncodeItems(w, fs[i].kind, items));
    StandsParts(b, p, limit, tag, body);
    PackedSlotJoins(w, fs[i], items, b, p + |tag|, limit, dest[i].items);
    FieldStep(w, fs, i, 2, b, p, limit, dest, seen, Many(dest[i].items + items), p + |s|);
  }

  /** The structure after the first `i` fields have been decoded. */
  function Dest(fs: seq<Field>, slots: seq<Slot>, i: nat): (d: seq<Slot>)
    requires i <= |fs| == |slots|
    ensures |d| == |fs|
  {
    slots[..i] + Defaults(fs)[i..]
  }

  lemma DestNext(fs: seq<Field>, slots: seq<Slot>, i: nat)
    requires i < |fs| == |slots|
    ensures Dest(fs, slots, i)[i] == Default(fs[i]) && Dest(fs, slots, i)[i := slots[i]] == Dest(fs, slots, i + 1)
  {
  }

  /** The required fields seen by then. */
  function SeenBy(fs: seq<Field>, slots: seq<Slot>, i: nat): set<nat>
    requires i <= |fs| == |slots|
  {
    if i == 0 then {} else SeenNow(fs, slots, i - 1, SeenBy(fs, slots, i - 1))
  }

  function SeenNow(fs: seq<Field>, slots: seq<Slot>, i: nat, seen: set<nat>): set<nat>
    requires i < |fs| == |slots|
  {
    if slots[i].One? && slots[i].value.Some? then Seen(fs, i, seen) else seen
  }

  lemma {:induction false} SeenAll(fs: seq<Field>, slots: seq<Slot>, i: nat, j: nat)
    requires Typed(fs, slots) && i <= |fs| && j < RequiredCount(fs[..i]) && j < MAX_REQUIRED
    ensures j in SeenBy(fs, slots, i)
  {
    if i > 0 {
      assert fs[..i][..i - 1] == fs[..i - 1] && TypedSlot(fs[i - 1], slots[i - 1]);
      if j < RequiredCount(fs[..i - 1]) { SeenAll(fs, slots, i - 1, j); }
    }
  }

  /** One field: nothing, a value, or an array. */
  lemma {:induction false} SlotReads(w: Wire, fs: seq<Field>, slots: seq<Slot>, i: nat, s: Bytes, b: Bytes, p: nat, limit: nat, seen: set<nat>)
    requires Reads(w) && TagsDiffer(fs) && i < |fs| == |slots| && GoodSlot(fs[i], slots[i])
    requires s == EncodeSlot(w, fs[i], slots[i]) && Stands(b, p, limit, s)
    ensures Moved(w, fs, b, p, p + |s|, limit, Dest(fs, slots, i), Dest(fs, slots, i + 1), seen, SeenNow(fs, slots, i, seen))
    decreases slots[i], 2
  {
    DestNext(fs, slots, i);
    SlotInto(w, fs, i, slots[i], s, b, p, limit, Dest(fs, slots, i), seen);
  }

  /** A field that still has its default. */
  lemma {:induction false} SlotInto(w: Wire, fs: seq<Field>, i: nat, slot: Slot, s: Bytes, b: Bytes, p: nat, limit: nat, dest: seq<Slot>,
                                    seen: set<nat>)
    requires Reads(w) && TagsDiffer(fs) && i < |fs| == |dest| && GoodSlot(fs[i], slot) && dest[i] == Default(fs[i])
    requires s == EncodeSlot(w, fs[i], slot) && Stands(b, p, limit, s)
    ensures Moved(w, fs, b, p, p + |s|, limit, dest, dest[i := slot], seen, if slot.One? && slot.value.Some? then Seen(fs, i, seen) else seen)
    decreases slot, 1
  {
    match slot
    case One(None) => assert dest[i := slot] == dest;
    case One(Some(v)) => OneReads(w, fs, i, v, s, b, p, limit, dest, seen);
    case Many(items) =>
      if items == [] { assert dest[i := slot] == dest; } else { ArrayInto(w, fs, i, items, s, b, p, limit, dest, dest[i := slot], seen); }
  }

  lemma {:induction false} ArrayInto(w: Wire, fs: seq<Field>, i: nat, items: seq<Value>, s: Bytes, b: Bytes, p: nat, limit: nat, dest: seq<Slot>,
                                     joined: seq<Slot>, seen: set<nat>)
    requires Reads(w) && TagsDiffer(fs) && i < |fs| == |dest| && GoodSlot(fs[i], Many(items)) && dest[i] == Many([]) && items != []
    requires s == EncodeSlot(w, fs[i], Many(items)) && Stands(b, p, limit, s) && joined == dest[i := Many(items)]
    ensures Moved(w, fs, b, p, p + |s|, limit, dest, joined, seen, seen)
    decreases items, 2
  {
    assert [] + items == items;
    if Packable(fs[i].kind) {
      PackedFieldJoins(w, fs, i, items, s, b, p, limit, dest, seen);
    } else {
      TaggedJoins(w, fs, i, items, [], s, b, p, p + |s|, limit, dest, joined, seen);
    }
  }

  lemma {:induction false} OneReads(w: Wire, fs: seq<Field>, i: nat, v: Value, s: Bytes, b: Bytes, p: nat, limit: nat, dest: seq<Slot>, seen: set<nat>)
    requires Reads(w) && TagsDiffer(fs) && i < |fs| == |dest| && !fs[i].rule.Repeated? && dest[i] == One(None) && Good(fs[i].kind, v)
    requires s == w.EncodeTag(fs[i].tag, WireType(fs[i].kind)) + EncodeValue(w, fs[i].kind, v) && Stands(b, p, limit, s)
    ensures Moved(w, fs, b, p, p + |s|, limit, dest, dest[i := One(Some(v))], seen, Seen(fs, i, seen))
    decreases v, 2
  {
    var f := fs[i];
    var tag, value := w.EncodeTag(f.tag, WireType(f.kind)), EncodeValue(w, f.kind, v);
    StandsParts(b, p, limit, tag, value);
    ValueReads(w, f.kind, v, b, p + |tag|, limit);
    assert p + |s| == p + |tag| + |value|;
    ValueMoves(w, fs, i, WireType(f.kind), v, b, p, p + |s|, limit, dest, seen);
  }

  function FieldsFrom(w: Wire, fs: seq<Field>, slots: seq<Slot>): nat -> Bytes
    requires Typed(fs, slots)
  {
    (j: nat) => if j <= |fs| then EncodeFields(w, fs[j..], slots[j..]) else []
  }

  function FieldAt(w: Wire, fs: seq<Field>, slots: seq<Slot>): nat -> Bytes
    requires Typed(fs, slots)
  {
    (j: nat) => if j < |fs| then EncodeSlot(w, fs[j], slots[j]) else []
  }

  function MessageDest(fs: seq<Field>, slots: seq<Slot>): nat -> seq<Slot>
    requires |fs| == |slots|
  {
    (j: nat) => if j <= |fs| then Dest(fs, slots, j) else []
  }

  function MessageSeen(fs: seq<Field>, slots: seq<Slot>): nat -> set<nat>
    requires |fs| == |slots|
  {
    (j: nat) => if j <= |fs| then SeenBy(fs, slots, j) else {}
  }

  /** What the decoder has left to do at each field of a message that ends at `end`. */
  ghost function MessageStage(w: Wire, fs: seq<Field>, slots: seq<Slot>, b: Bytes, end: nat): nat -> Option<seq<Slot>>
    requires Typed(fs, slots)
  {
    Stage(w, fs, b, end, Places(FieldsFrom(w, fs, slots), end), MessageDest(fs, slots), MessageSeen(fs, slots))
  }

  lemma MessageStageIs(w: Wire, fs: seq<Field>, slots: seq<Slot>, b: Bytes, end: nat, j: nat, p: nat, d: seq<Slot>, seen: set<nat>)
    requires Typed(fs, slots) && j <= |fs| && p == Place(FieldsFrom(w, fs, slots), end, j) <= end
    requires d == Dest(fs, slots, j) && seen == SeenBy(fs, slots, j)
    ensures MessageStage(w, fs, slots, b, end)(j) == DecodeFields(w, fs, b, p, end, d, seen)
  {
    StageIs(w, fs, b, end, Places(FieldsFrom(w, fs, slots), end), MessageDest(fs, slots), MessageSeen(fs, slots), j, p, d, seen);
  }

  lemma MessageSplits(w: Wire, fs: seq<Field>, slots: seq<Slot>, j: nat)
    requires Typed(fs, slots) && j < |fs|
    ensures Splits(FieldsFrom(w, fs, slots), FieldAt(w, fs, slots), j)
  {
    assert fs[j..][1..] == fs[j + 1..] && slots[j..][1..] == slots[j + 1..];
  }

  lemma {:induction false} MessageMoves(w: Wire, fs: seq<Field>, slots: seq<Slot>, b: Bytes, end: nat, j: nat)
    requires Reads(w) && TagsDiffer(fs) && Typed(fs, slots) && end <= |b| && j < |fs| && GoodSlot(fs[j], slots[j])
    ensures Moves(b, end, end, FieldsFrom(w, fs, slots), FieldAt(w, fs, slots), MessageStage(w, fs, slots, b, end), j)
    decreases slots, 1
  {
    PieceMoves(w, fs, slots, b, end, j, FieldsFrom(w, fs, slots), FieldAt(w, fs, slots), MessageDest(fs, slots), MessageSeen(fs, slots));
  }

  lemma {:induction false} PieceMoves(w: Wire, fs: seq<Field>, slots: seq<Slot>, b: Bytes, end: nat, j: nat, all: nat -> Bytes, piece: nat -> Bytes,
                                      dest: nat -> seq<Slot>, seen: nat -> set<nat>)
    requires Reads(w) && TagsDiffer(fs) && Typed(fs, slots) && end <= |b| && j < |fs| && GoodSlot(fs[j], slots[j])
    requires piece(j) == EncodeSlot(w, fs[j], slots[j]) && dest(j) == Dest(fs, slots, j) && dest(j + 1) == Dest(fs, slots, j + 1)
    requires seen(j + 1) == SeenNow(fs, slots, j, seen(j))
    ensures Moves(b, end, end, all, piece, Stage(w, fs, b, end, Places(all, end), dest, seen), j)
    decreases slots, 0
  {
    var p, q := Place(all, end, j), Place(all, end, j + 1);
    if Stands(b, p, end, piece(j)) && q == p + |piece(j)| { SlotReads(w, fs, slots, j, piece(j), b, p, end, seen(j)); }
    StageMoves(w, fs, b, end, all, piece, dest, seen, j, p, q);
  }

  /** The decoder moves past the first `m` fields of a message. */
  lemma {:induction false} MessageWalk(w: Wire, fs: seq<Field>, slots: seq<Slot>, b: Bytes, p: nat, end: nat, m: nat, all: nat -> Bytes,
                                       d: nat -> Option<seq<Slot>>)
    requires Reads(w) && SchemaOk(fs) && Typed(fs, slots) && m <= |fs| && forall j :: 0 <= j < m ==> FitsSlot(fs[j], slots[j], true)
    requires all == FieldsFrom(w, fs, slots) && Stands(b, p, end, all(0)) && p + |all(0)| == end
    requires d == MessageStage(w, fs, slots, b, end)
    ensures d(0) == d(m) && (m < |fs| ==> Stands(b, Place(all, end, m), end, FieldAt(w, fs, slots)(m)))
    decreases slots, 2
  {
    var piece := FieldAt(w, fs, slots);
    forall j: nat | j < |fs| ensures Splits(all, piece, j) { MessageSplits(w, fs, slots, j); }
    forall j: nat | j < m ensures Moves(b, end, end, all, piece, d, j) {
      assert FieldOk(fs[j]) && TypedSlot(fs[j], slots[j]);
      MessageMoves(w, fs, slots, b, end, j);
    }
    WalkPieces(b, p, end, end, all, piece, m, |fs|, d);
  }

  lemma FieldsEnd(w: Wire, fs: seq<Field>, slots: seq<Slot>)
    requires Typed(fs, slots)
    ensures FieldsFrom(w, fs, slots)(0) == EncodeFields(w, fs, slots) && FieldsFrom(w, fs, slots)(|fs|) == []
    ensures Dest(fs, slots, 0) == Defaults(fs) && Dest(fs, slots, |fs|) == slots
  {
    assert fs[0..] == fs && slots[0..] == slots && slots[|fs|..] == [];
  }

  lemma {:induction false} MessageReads(w: Wire, fs: seq<Field>, slots: seq<Slot>, b: Bytes, p: nat, end: nat)
    requires Reads(w) && GoodAll(fs, slots) && Stands(b, p, end, EncodeFields(w, fs, slots)) && p + |EncodeFields(w, fs, slots)| == end
    ensures DecodeFields(w, fs, b, p, end, Defaults(fs), {}) == Some(slots)
    decreases slots, 3
  {
    FieldsEnd(w, fs, slots);
    MessageWalk(w, fs, slots, b, p, end, |fs|, FieldsFrom(w, fs, slots), MessageStage(w, fs, slots, b, end));
    MessageStageIs(w, fs, slots, b, end, 0, p, Defaults(fs), {});
    MessageStageIs(w, fs, slots, b, end, |fs|, end, slots, SeenBy(fs, slots, |fs|));
    MessageEnds(w, fs, slots, b, end);
  }

  lemma MessageEnds(w: Wire, fs: seq<Field>, slots: seq<Slot>, b: Bytes, end: nat)
    requires Typed(fs, slots) && end <= |b|
    ensures DecodeFields(w, fs, b, end, end, slots, SeenBy(fs, slots, |fs|)) == Some(slots)
  {
    assert fs[..|fs|] == fs;
    forall j: nat | j < RequiredCount(fs) && j < MAX_REQUIRED ensures j in SeenBy(fs, slots, |fs|) { SeenAll(fs, slots, |fs|, j); }
  }
}
