/** The bytes of a version edit (db/version_edit.cc): tagged items, each a few numbers and strings. An edit is what one manifest record
    holds. */
module EditFormat {
  import opened InternalKeys
  import opened Framing
  import opened LogFormat
  import opened LogRoundTrip
  import opened Varints
  import opened ItemStreams
  import opened Versions

  const TWO64: nat := 0x1_0000_0000_0000_0000

  // ---------------------------------------------------------------- items

  datatype Part = Num(n: nat) | Text(s: Bytes)

  datatype Sort = Level | Wide | String

  datatype Raw = Raw(tag: nat, parts: seq<Part>)

  /** What follows each tag. */
  function Sorts(tag: nat): Option<seq<Sort>> {
    match tag
    case 1 => Some([String])
    case 2 => Some([Wide])
    case 3 => Some([Wide])
    case 4 => Some([Wide])
    case 5 => Some([Level, String])
    case 6 => Some([Level, Wide])
    case 7 => Some([Level, Wide, Wide, String, String])
    case 9 => Some([Wide])
    case _ => None
  }

  predicate PartOk(sort: Sort, part: Part) {
    match sort
    case Level => part.Num? && part.n < NUM_LEVELS
    case Wide => part.Num? && part.n < TWO64
    case String => part.Text? && |part.s| < TWO32
  }

  predicate PartsOk(sorts: seq<Sort>, parts: seq<Part>) {
    |sorts| == |parts| && forall i :: 0 <= i < |parts| ==> PartOk(sorts[i], parts[i])
  }

  predicate RawOk(raw: Raw) { Sorts(raw.tag).Some? && PartsOk(Sorts(raw.tag).value, raw.parts) }

  function PutPart(part: Part): Bytes { if part.Num? then EncodeVarint(part.n) else PutSlice(part.s) }

  function GetLevel(b: Bytes, p: nat, limit: nat): Option<Item<Part>> {
    if limit > |b| then None
    else
      var n := GetVarint(b, p, limit, 5);
      if n.None? || n.value.value % TWO32 >= NUM_LEVELS then None else Some(Item(Num(n.value.value % TWO32), n.value.next))
  }

  function GetWide(b: Bytes, p: nat, limit: nat): Option<Item<Part>> {
    if limit > |b| then None
    else
      var n := GetVarint(b, p, limit, 10);
      if n.None? then None else Some(Item(Num(n.value.value % TWO64), n.value.next))
  }

  function GetText(b: Bytes, p: nat, limit: nat): Option<Item<Part>> {
    if limit > |b| then None
    else
      var s := GetSlice(b, p, limit);
      if s.None? then None else Some(Item(Text(s.value.value), s.value.next))
  }

  function GetPart(sort: Sort): Get<Part> {
    match sort
    case Level => GetLevel
    case Wide => GetWide
    case String => GetText
  }

  lemma PartReads(sort: Sort, part: Part)
    requires PartOk(sort, part)
    ensures ReadsBack(PutPart, GetPart(sort), part)
  {
    forall b: Bytes, p: nat, limit: nat ensures ReadsBackAt(PutPart, GetPart(sort), part, b, p, limit) {
      if At(b, p, PutPart(part)) && p + |PutPart(part)| <= limit <= |b| {
        match sort
        case Level => Reads32(b, p, limit, part.n);
        case Wide => Reads64(b, p, limit, part.n);
        case String => SliceReads(b, p, limit, part.s);
      }
    }
  }

  lemma PartIsOk(sort: Sort, b: Bytes, p: nat, limit: nat)
    requires GetPart(sort)(b, p, limit).Some?
    ensures PartOk(sort, GetPart(sort)(b, p, limit).value.value) && p < GetPart(sort)(b, p, limit).value.next <= limit
  {
  }

  lemma Reads32(b: Bytes, p: nat, limit: nat, x: nat)
    requires x < TWO32 && At(b, p, EncodeVarint(x)) && p + |EncodeVarint(x)| <= limit <= |b|
    ensures GetVarint(b, p, limit, 5) == Some(Number(x, p + |EncodeVarint(x)|)) && x % TWO32 == x
  {
    VarintRanges();
    GetEncoded(b, p, limit, 5, x);
  }

  lemma Reads64(b: Bytes, p: nat, limit: nat, x: nat)
    requires x < TWO64 && At(b, p, EncodeVarint(x)) && p + |EncodeVarint(x)| <= limit <= |b|
    ensures GetVarint(b, p, limit, 10) == Some(Number(x, p + |EncodeVarint(x)|)) && x % TWO64 == x
  {
    VarintRanges();
    GetEncoded(b, p, limit, 10, x);
  }

  function PutRaw(raw: Raw): Bytes { EncodeVarint(raw.tag) + PutAll(PutPart, raw.parts) }

  /** A 32-bit tag and what a table lists for it. */
  function GetTagged(table: nat -> Option<seq<Sort>>, b: Bytes, p: nat, limit: nat): Option<Item<Raw>> {
    if limit > |b| then None
    else
      var tag := GetVarint(b, p, limit, 5);
      if tag.None? || table(tag.value.value % TWO32).None? then None
      else Behind(tag.value.value % TWO32, GetEach(GetPart, table(tag.value.value % TWO32).value, b, tag.value.next, limit))
  }

  function Behind(tag: nat, parts: Option<Item<seq<Part>>>): Option<Item<Raw>> {
    if parts.None? then None else Some(Item(Raw(tag, parts.value.value), parts.value.next))
  }

  function GetRaw(b: Bytes, p: nat, limit: nat): Option<Item<Raw>> { GetTagged(Sorts, b, p, limit) }

  lemma RawReads(raw: Raw)
    requires RawOk(raw)
    ensures ReadsBack(PutRaw, GetRaw, raw)
  {
    forall b: Bytes, p: nat, limit: nat ensures ReadsBackAt(PutRaw, GetRaw, raw, b, p, limit) {
      if At(b, p, PutRaw(raw)) && p + |PutRaw(raw)| <= limit <= |b| {
        var tag, parts, sorts := EncodeVarint(raw.tag), PutAll(PutPart, raw.parts), Sorts(raw.tag).value;
        TagSmall(raw);
        AtParts(b, p, tag, parts);
        Reads32(b, p, limit, raw.tag);
        PartsRead(sorts, raw.parts, b, p + |tag|, limit);
        GotTagged(Sorts, sorts, raw, b, p, p + |tag|, p + |tag| + |parts|, limit);
      }
    }
  }

  lemma TagSmall(raw: Raw)
    requires RawOk(raw)
    ensures raw.tag < TWO32
  {
  }

  lemma PartsRead(sorts: seq<Sort>, parts: seq<Part>, b: Bytes, p: nat, limit: nat)
    requires PartsOk(sorts, parts) && At(b, p, PutAll(PutPart, parts)) && p + |PutAll(PutPart, parts)| <= limit <= |b|
    ensures GetEach(GetPart, sorts, b, p, limit) == Some(Item(parts, p + |PutAll(PutPart, parts)|))
  {
    forall i | 0 <= i < |sorts| ensures ReadsBack(PutPart, GetPart(sorts[i]), parts[i]) { PartReads(sorts[i], parts[i]); }
    EachReads(PutPart, GetPart, sorts, parts, b, p, limit);
  }

  lemma GotTagged(table: nat -> Option<seq<Sort>>, sorts: seq<Sort>, raw: Raw, b: Bytes, p: nat, q: nat, end: nat, limit: nat)
    requires limit <= |b| && raw.tag < TWO32 && table(raw.tag) == Some(sorts) && GetVarint(b, p, limit, 5) == Some(Number(raw.tag, q))
    requires GetEach(GetPart, sorts, b, q, limit) == Some(Item(raw.parts, end))
    ensures GetTagged(table, b, p, limit) == Some(Item(raw, end))
  {
    assert raw.tag % TWO32 == raw.tag;
  }

  lemma RawIsOk(b: Bytes, p: nat, limit: nat)
    requires GetRaw(b, p, limit).Some?
    ensures RawOk(GetRaw(b, p, limit).value.value) && p < GetRaw(b, p, limit).value.next <= limit
  {
    TaggedIsOk(Sorts, b, p, limit);
  }

  lemma TaggedIsOk(table: nat -> Option<seq<Sort>>, b: Bytes, p: nat, limit: nat)
    requires GetTagged(table, b, p, limit).Some?
    ensures p < GetTagged(table, b, p, limit).value.next <= limit
    ensures var raw := GetTagged(table, b, p, limit).value.value; table(raw.tag).Some? && PartsOk(table(raw.tag).value, raw.parts)
  {
    var tag := GetVarint(b, p, limit, 5).value;
    PartsAreOk(table(tag.value % TWO32).value, b, tag.next, limit);
  }

  lemma {:induction false} PartsAreOk(sorts: seq<Sort>, b: Bytes, p: nat, limit: nat)
    requires p <= limit && GetEach(GetPart, sorts, b, p, limit).Some?
    ensures PartsOk(sorts, GetEach(GetPart, sorts, b, p, limit).value.value)
    ensures p <= GetEach(GetPart, sorts, b, p, limit).value.next <= limit
  {
    if sorts != [] {
      PartIsOk(sorts[0], b, p, limit);
      PartsAreOk(sorts[1..], b, GetPart(sorts[0])(b, p, limit).value.next, limit);
    }
  }

  // ---------------------------------------------------------------- edits

  datatype ByteFile = ByteFile(number: nat, size: nat, smallest: Bytes, largest: Bytes)

  datatype ByteEdit = ByteEdit(comparator: Option<Bytes>, logNumber: Option<nat>, prevLogNumber: Option<nat>, nextFile: Option<nat>,
                               lastSequence: Option<nat>, pointers: seq<(nat, Bytes)>, deleted: set<(nat, nat)>, added: seq<(nat, ByteFile)>)

  const NO_EDIT: ByteEdit := ByteEdit(None, None, None, None, None, [], {}, [])

  /** What the parser starts from: clearing an edit leaves its compaction pointers. */
  function Cleared(before: ByteEdit): ByteEdit { NO_EDIT.(pointers := before.pointers) }

  /** An item as the parser stores it. */
  function Absorb(e: ByteEdit, raw: Raw): ByteEdit
    requires RawOk(raw)
  {
    var ps := raw.parts;
    match raw.tag
    case 1 => e.(comparator := Some(ps[0].s))
    case 2 => e.(logNumber := Some(ps[0].n))
    case 3 => e.(nextFile := Some(ps[0].n))
    case 4 => e.(lastSequence := Some(ps[0].n))
    case 5 => e.(pointers := e.pointers + [(ps[0].n, ps[1].s)])
    case 6 => e.(deleted := e.deleted + {(ps[0].n, ps[1].n)})
    case 7 => e.(added := e.added + [(ps[0].n, ByteFile(ps[1].n, ps[2].n, ps[3].s, ps[4].s))])
    case 9 => e.(prevLogNumber := Some(ps[0].n))
  }

  predicate AllOk(raws: seq<Raw>) { forall r :: r in raws ==> RawOk(r) }

  function AbsorbAll(e: ByteEdit, raws: seq<Raw>): ByteEdit
    requires AllOk(raws)
  {
    if raws == [] then e
    else
      assert raws[|raws| - 1] in raws;
      Absorb(AbsorbAll(e, raws[..|raws| - 1]), raws[|raws| - 1])
  }

  lemma {:induction false} AbsorbConcat(e: ByteEdit, a: seq<Raw>, b: seq<Raw>)
    requires AllOk(a) && AllOk(b)
    ensures AllOk(a + b) && AbsorbAll(e, a + b) == AbsorbAll(AbsorbAll(e, a), b)
  {
    if b == [] {
      assert a + b == a;
    } else {
      var n := |b| - 1;
      AbsorbConcat(e, a, b[..n]);
      assert (a + b)[..|a + b| - 1] == a + b[..n];
    }
  }

  lemma AbsorbOne(e: ByteEdit, raw: Raw)
    requires RawOk(raw)
    ensures AllOk([raw]) && AbsorbAll(e, [raw]) == Absorb(e, raw)
  {
    assert [raw][..0] == [];
  }

  // ---------------------------------------------------------------- the items of an edit

  predicate FileFits(f: (nat, ByteFile)) {
    f.0 < NUM_LEVELS && f.1.number < TWO64 && f.1.size < TWO64 && |f.1.smallest| < TWO32 && |f.1.largest| < TWO32
  }

  predicate NumberFits(n: Option<nat>) { n.Some? ==> n.value < TWO64 }

  predicate EditFits(e: ByteEdit) {
    && (e.comparator.Some? ==> |e.comparator.value| < TWO32)
    && NumberFits(e.logNumber) && NumberFits(e.prevLogNumber) && NumberFits(e.nextFile) && NumberFits(e.lastSequence)
    && (forall p :: p in e.pointers ==> p.0 < NUM_LEVELS && |p.1| < TWO32)
    && (forall d :: d in e.deleted ==> d.0 < NUM_LEVELS && d.1 < TWO64)
    && (forall a :: a in e.added ==> FileFits(a))
  }

  /** The order in which the deleted files are listed. */
  ghost predicate Enumerates(order: seq<(nat, nat)>, deleted: set<(nat, nat)>) {
    forall d :: d in order <==> d in deleted
  }

  function Single(tag: nat, n: Option<nat>): seq<Raw> { if n.None? then [] else [Raw(tag, [Num(n.value)])] }

  function Name(s: Option<Bytes>): seq<Raw> { if s.None? then [] else [Raw(1, [Text(s.value)])] }

  function PointerItem(p: (nat, Bytes)): Raw { Raw(5, [Num(p.0), Text(p.1)]) }
  function DeletedItem(d: (nat, nat)): Raw { Raw(6, [Num(d.0), Num(d.1)]) }
  function AddedItem(a: (nat, ByteFile)): Raw {
    Raw(7, [Num(a.0), Num(a.1.number), Num(a.1.size), Text(a.1.smallest), Text(a.1.largest)])
  }

  function Each<T>(item: T -> Raw, xs: seq<T>): seq<Raw> {
    if xs == [] then [] else Each(item, xs[..|xs| - 1]) + [item(xs[|xs| - 1])]
  }

  function Heads(e: ByteEdit): seq<Raw> {
    Name(e.comparator) + Single(2, e.logNumber) + Single(9, e.prevLogNumber) + Single(3, e.nextFile) + Single(4, e.lastSequence)
  }

  function ItemsOf(e: ByteEdit, order: seq<(nat, nat)>): seq<Raw> {
    Heads(e) + Each(PointerItem, e.pointers) + Each(DeletedItem, order) + Each(AddedItem, e.added)
  }

  /** The edit with a number set, if there is one. */
  function WithNumber(e: ByteEdit, tag: nat, n: Option<nat>): ByteEdit {
    if n.None? then e
    else if tag == 2 then e.(logNumber := n)
    else if tag == 3 then e.(nextFile := n)
    else if tag == 4 then e.(lastSequence := n)
    else e.(prevLogNumber := n)
  }

  lemma AbsorbSingle(e: ByteEdit, tag: nat, n: Option<nat>)
    requires (tag == 2 || tag == 3 || tag == 4 || tag == 9) && NumberFits(n)
    ensures AllOk(Single(tag, n)) && AbsorbAll(e, Single(tag, n)) == WithNumber(e, tag, n)
  {
    if n.Some? { AbsorbOne(e, Raw(tag, [Num(n.value)])); }
  }

  lemma AbsorbName(e: ByteEdit, s: Option<Bytes>)
    requires s.Some? ==> |s.value| < TWO32
    ensures AllOk(Name(s)) && AbsorbAll(e, Name(s)) == if s.None? then e else e.(comparator := s)
  {
    if s.Some? { AbsorbOne(e, Raw(1, [Text(s.value)])); }
  }

  /** Items followed by one more number. */
  lemma AbsorbNumber(start: ByteEdit, raws: seq<Raw>, e: ByteEdit, tag: nat, n: Option<nat>)
    requires AllOk(raws) && AbsorbAll(start, raws) == e && (tag == 2 || tag == 3 || tag == 4 || tag == 9) && NumberFits(n)
    ensures AllOk(raws + Single(tag, n)) && AbsorbAll(start, raws + Single(tag, n)) == WithNumber(e, tag, n)
  {
    AbsorbSingle(e, tag, n);
    AbsorbConcat(start, raws, Single(tag, n));
  }

  lemma AbsorbHeads(before: ByteEdit, e: ByteEdit)
    requires EditFits(e)
    ensures AllOk(Heads(e))
    ensures AbsorbAll(Cleared(before), Heads(e)) == e.(pointers := before.pointers, deleted := {}, added := [])
  {
    var start := Cleared(before);
    var e1 := start.(comparator := e.comparator);
    var e2 := e1.(logNumber := e.logNumber);
    var e3 := e2.(prevLogNumber := e.prevLogNumber);
    var e4 := e3.(nextFile := e.nextFile);
    var n, a, b, c := Name(e.comparator), Single(2, e.logNumber), Single(9, e.prevLogNumber), Single(3, e.nextFile);
    AbsorbName(start, e.comparator);
    AbsorbNumber(start, n, e1, 2, e.logNumber);
    AbsorbNumber(start, n + a, e2, 9, e.prevLogNumber);
    AbsorbNumber(start, n + a + b, e3, 3, e.nextFile);
    AbsorbNumber(start, n + a + b + c, e4, 4, e.lastSequence);
  }

  lemma PointerOk(p: (nat, Bytes))
    requires p.0 < NUM_LEVELS && |p.1| < TWO32
    ensures RawOk(PointerItem(p))
  {
  }

  lemma {:induction false} AbsorbPointers(e: ByteEdit, xs: seq<(nat, Bytes)>)
    requires forall p :: p in xs ==> p.0 < NUM_LEVELS && |p.1| < TWO32
    ensures AllOk(Each(PointerItem, xs)) && AbsorbAll(e, Each(PointerItem, xs)) == e.(pointers := e.pointers + xs)
  {
    if xs == [] {
      assert e.pointers + xs == e.pointers;
    } else {
      var n := |xs| - 1;
      AbsorbPointers(e, xs[..n]);
      PointerOk(xs[n]);
      AbsorbOne(AbsorbAll(e, Each(PointerItem, xs[..n])), PointerItem(xs[n]));
      AbsorbConcat(e, Each(PointerItem, xs[..n]), [PointerItem(xs[n])]);
      assert e.pointers + xs[..n] + [xs[n]] == e.pointers + xs;
    }
  }

  lemma {:induction false} AbsorbDeleted(e: ByteEdit, xs: seq<(nat, nat)>)
    requires forall d :: d in xs ==> d.0 < NUM_LEVELS && d.1 < TWO64
    ensures AllOk(Each(DeletedItem, xs)) && AbsorbAll(e, Each(DeletedItem, xs)) == e.(deleted := e.deleted + set d | d in xs)
  {
    if xs != [] {
      var n := |xs| - 1;
      AbsorbDeleted(e, xs[..n]);
      AbsorbOne(AbsorbAll(e, Each(DeletedItem, xs[..n])), DeletedItem(xs[n]));
      AbsorbConcat(e, Each(DeletedItem, xs[..n]), [DeletedItem(xs[n])]);
      assert (set d | d in xs) == (set d | d in xs[..n]) + {xs[n]};
      assert e.deleted + (set d | d in xs[..n]) + {xs[n]} == e.deleted + set d | d in xs;
    }
  }

  lemma AddedOk(a: (nat, ByteFile))
    requires FileFits(a)
    ensures RawOk(AddedItem(a))
  {
    var sorts, parts := Sorts(7).value, AddedItem(a).parts;
    assert PartOk(sorts[0], parts[0]) && PartOk(sorts[1], parts[1]) && PartOk(sorts[2], parts[2]);
    assert PartOk(sorts[3], parts[3]) && PartOk(sorts[4], parts[4]);
  }

  lemma {:induction false} AbsorbAdded(e: ByteEdit, xs: seq<(nat, ByteFile)>)
    requires forall a :: a in xs ==> FileFits(a)
    ensures AllOk(Each(AddedItem, xs)) && AbsorbAll(e, Each(AddedItem, xs)) == e.(added := e.added + xs)
  {
    if xs == [] {
      assert e.added + xs == e.added;
    } else {
      var n := |xs| - 1;
      AbsorbAdded(e, xs[..n]);
      AddedOk(xs[n]);
      AbsorbOne(AbsorbAll(e, Each(AddedItem, xs[..n])), AddedItem(xs[n]));
      AbsorbConcat(e, Each(AddedItem, xs[..n]), [AddedItem(xs[n])]);
      assert e.added + xs[..n] + [xs[n]] == e.added + xs;
    }
  }

  /** Collecting the items of an edit gives the edit, behind the compaction pointers already there. */
  lemma ItemsMakeEdit(before: ByteEdit, e: ByteEdit, order: seq<(nat, nat)>)
    requires EditFits(e) && Enumerates(order, e.deleted)
    ensures AllOk(ItemsOf(e, order)) && AbsorbAll(Cleared(before), ItemsOf(e, order)) == e.(pointers := before.pointers + e.pointers)
  {
    var pointers := before.pointers + e.pointers;
    var e1 := e.(pointers := before.pointers, deleted := {}, added := []);
    var e2 := e.(pointers := pointers, deleted := {}, added := []);
    var e3 := e.(pointers := pointers, added := []);
    var h, p, d, a := Heads(e), Each(PointerItem, e.pointers), Each(DeletedItem, order), Each(AddedItem, e.added);
    AbsorbHeads(before, e);
    AbsorbPointers(e1, e.pointers);
    AbsorbDeleted(e2, order);
    AbsorbAdded(e3, e.added);
    assert [] + e.added == e.added && {} + (set x | x in order) == e.deleted;
    AbsorbConcat(Cleared(before), h, p);
    AbsorbConcat(Cleared(before), h + p, d);
    AbsorbConcat(Cleared(before), h + p + d, a);
  }

  // ---------------------------------------------------------------- encoding and decoding

  function EncodeEdit(e: ByteEdit, order: seq<(nat, nat)>): Bytes { PutAll(PutRaw, ItemsOf(e, order)) }

  lemma {:induction false} GotOk(b: Bytes, p: nat, limit: nat)
    requires GetAll(GetRaw, b, p, limit).Some?
    ensures AllOk(GetAll(GetRaw, b, p, limit).value)
    decreases limit - p
  {
    if p < limit {
      RawIsOk(b, p, limit);
      GotOk(b, GetRaw(b, p, limit).value.next, limit);
    }
  }

  function DecodeEdit(before: ByteEdit, src: Bytes): Option<ByteEdit> {
    var items := GetAll(GetRaw, src, 0, |src|);
    if items.None? then None else GotOk(src, 0, |src|); Some(AbsorbAll(Cleared(before), items.value))
  }

  /** An edit reads back from its bytes, in whatever order its deleted files are listed, behind the pointers of the edit read into. */
  lemma EditReads(before: ByteEdit, e: ByteEdit, order: seq<(nat, nat)>)
    requires EditFits(e) && Enumerates(order, e.deleted)
    ensures DecodeEdit(before, EncodeEdit(e, order)) == Some(e.(pointers := before.pointers + e.pointers))
  {
    ItemsMakeEdit(before, e, order);
    var items, b := ItemsOf(e, order), EncodeEdit(e, order);
    forall raw | raw in items ensures ReadsBack(PutRaw, GetRaw, raw) { RawReads(raw); }
    assert b[0..|b|] == b;
    AllRead(PutRaw, GetRaw, items, b, 0, |b|);
  }

  /** The edit itself comes back exactly when the edit read into has no compaction pointers. */
  lemma RoundTrip(before: ByteEdit, e: ByteEdit, order: seq<(nat, nat)>)
    requires EditFits(e) && Enumerates(order, e.deleted)
    ensures DecodeEdit(before, EncodeEdit(e, order)) == Some(e) <==> before.pointers == []
  {
    EditReads(before, e, order);
    if before.pointers == [] {
      assert before.pointers + e.pointers == e.pointers;
    } else {
      assert |before.pointers + e.pointers| != |e.pointers|;
    }
  }

  /** One item more of those already read. */
  lemma NextItem(start: ByteEdit, src: Bytes, p: nat, done: seq<Raw>, e: ByteEdit, raw: Raw, next: nat)
    requires p < |src| && AllOk(done) && e == AbsorbAll(start, done) && GetRaw(src, p, |src|) == Some(Item(raw, next))
    ensures p < next <= |src| && RawOk(raw) && AllOk(done + [raw]) && Absorb(e, raw) == AbsorbAll(start, done + [raw])
    ensures Prefixed(done, GetAll(GetRaw, src, p, |src|)) == Prefixed(done + [raw], GetAll(GetRaw, src, next, |src|))
  {
    RawIsOk(src, p, |src|);
    NextRead(GetRaw, src, p, |src|, done, raw, next);
    AbsorbOne(e, raw);
    AbsorbConcat(start, done, [raw]);
  }

  /** Parse an edit item by item (DecodeFrom). */
  method DecodeFrom(before: ByteEdit, src: Bytes) returns (r: Option<ByteEdit>)
    ensures r == DecodeEdit(before, src)
  {
    var p, e := 0, Cleared(before);
    ghost var done: seq<Raw> := [];
    PrefixedNone(GetAll(GetRaw, src, p, |src|));
    while p < |src|
      invariant p <= |src| && AllOk(done) && e == AbsorbAll(Cleared(before), done)
      invariant GetAll(GetRaw, src, 0, |src|) == Prefixed(done, GetAll(GetRaw, src, p, |src|))
      decreases |src| - p
    {
      var item := GetRaw(src, p, |src|);
      if item.None? {
        return None;
      }
      NextItem(Cleared(before), src, p, done, e, item.value.value, item.value.next);
      e := Absorb(e, item.value.value);
      done := done + [item.value.value];
      p := item.value.next;
    }
    assert done + [] == done;
    r := Some(e);
  }

  // ---------------------------------------------------------------- a manifest

  datatype Listed = Listed(edit: ByteEdit, order: seq<(nat, nat)>)

  ghost predicate ListedOk(x: Listed) { EditFits(x.edit) && Enumerates(x.order, x.edit.deleted) }

  function EditRecords(xs: seq<Listed>): (rs: seq<Bytes>)
    ensures |rs| == |xs|
  {
    seq(|xs|, i requires 0 <= i < |xs| => EncodeEdit(xs[i].edit, xs[i].order))
  }

  /** Write edits to a manifest, lose the end of the file at any byte, read and parse what is left: the edits before the cut come back. */
  method WriteTearManifest(crc: Crc, xs: seq<Listed>, cut: nat) returns (edits: seq<ByteEdit>)
    requires (forall x :: x in xs ==> ListedOk(x)) && cut <= |Laid(Framer(crc), EditRecords(xs), 0)|
    ensures |edits| == WholeRecords(Framer(crc), EditRecords(xs), 0, cut) && forall i :: 0 <= i < |edits| ==> edits[i] == xs[i].edit
  {
    var records, drops := WriteTearRead(crc, EditRecords(xs), cut);
    edits := ParseRecords(records, xs);
  }

  method ParseRecords(records: seq<Bytes>, ghost xs: seq<Listed>) returns (edits: seq<ByteEdit>)
    requires (forall x :: x in xs ==> ListedOk(x)) && records <= EditRecords(xs)
    ensures |edits| == |records| && forall i :: 0 <= i < |edits| ==> edits[i] == xs[i].edit
  {
    edits := [];
    for i := 0 to |records|
      invariant |edits| == i && forall j :: 0 <= j < i ==> edits[j] == xs[j].edit
    {
      assert xs[i] in xs && records[i] == EditRecords(xs)[i];
      var e := ParseRecord(records[i], xs[i]);
      edits := edits + [e];
    }
  }

  method ParseRecord(record: Bytes, ghost x: Listed) returns (e: ByteEdit)
    requires ListedOk(x) && record == EncodeEdit(x.edit, x.order)
    ensures e == x.edit
  {
    RoundTrip(NO_EDIT, x.edit, x.order);
    var r := DecodeFrom(NO_EDIT, record);
    e := r.value;
  }
}
