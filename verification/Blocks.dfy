/** The bytes of a data block (table/block_builder.cc, table/block.cc): keys compressed against their predecessor, with a full
    key at every restart point, and an iterator that searches the restart points and parses forward from them. */
module Blocks {
  import opened InternalKeys
  import opened LogFormat
  import opened FilterBlocks
  import opened Varints

  datatype Pair = Pair(key: Bytes, value: Bytes)

  // ---------------------------------------------------------------- one entry

  /** The three lengths, the rest of the key, the value. */
  function Lengths(shared: nat, e: Pair): Bytes
    requires shared <= |e.key|
  {
    EncodeVarint(shared) + EncodeVarint(|e.key| - shared) + EncodeVarint(|e.value|)
  }

  function EntryBytes(shared: nat, e: Pair): (b: Bytes)
    requires shared <= |e.key|
    ensures |b| > 0
  {
    Lengths(shared, e) + (e.key[shared..] + e.value)
  }

  datatype Header = Header(shared: nat, nonShared: nat, valueLength: nat, next: nat)

  /** Three varints, one after the other. */
  function ThreeVarints(b: Bytes, p: nat, limit: nat): Option<Header>
    requires limit <= |b|
  {
    var x := GetVarint(b, p, limit, 5);
    if x.None? then None
    else
      var y := GetVarint(b, x.value.next, limit, 5);
      if y.None? then None
      else
        var z := GetVarint(b, y.value.next, limit, 5);
        if z.None? then None
        else Some(Header(x.value.value % TWO32, y.value.value % TWO32, z.value.value % TWO32, z.value.next))
  }

  /** The lengths at `p`, with a fast path for one-byte lengths; nothing if they are malformed or point past `limit`. */
  function DecodeEntry(b: Bytes, p: nat, limit: nat): (h: Option<Header>)
    requires limit <= |b|
    ensures h.Some? ==> h.value.next + h.value.nonShared + h.value.valueLength <= limit
  {
    if limit < p + 3 then None
    else
      var h := if b[p] < 128 && b[p + 1] < 128 && b[p + 2] < 128
               then Some(Header(b[p] as nat, b[p + 1] as nat, b[p + 2] as nat, p + 3))
               else ThreeVarints(b, p, limit);
      if h.None? || limit < h.value.next + h.value.nonShared + h.value.valueLength then None else h
  }

  /** Wherever `e` stands, a varint read there gives `x` and ends after `e`. */
  ghost predicate ReadsAs(b: Bytes, limit: nat, x: nat, e: Bytes) {
    match limit <= |b|
    case false => false
    case true => forall p: nat :: At(b, p, e) && p + |e| <= limit ==> GetVarint(b, p, limit, 5) == Some(Number(x, p + |e|))
  }

  lemma EncodedReads(b: Bytes, limit: nat, x: U32)
    requires limit <= |b|
    ensures ReadsAs(b, limit, x, EncodeVarint(x))
  {
    VarintRanges();
    forall p: nat | At(b, p, EncodeVarint(x)) && p + |EncodeVarint(x)| <= limit
      ensures GetVarint(b, p, limit, 5) == Some(Number(x, p + |EncodeVarint(x)|))
    {
      GetEncoded(b, p, limit, 5, x);
    }
  }

  lemma ThreeRead(b: Bytes, p: nat, limit: nat, x: U32, y: U32, z: U32, q: nat, r: nat, next: nat)
    requires limit <= |b| && GetVarint(b, p, limit, 5) == Some(Number(x, q))
    requires GetVarint(b, q, limit, 5) == Some(Number(y, r)) && GetVarint(b, r, limit, 5) == Some(Number(z, next))
    ensures ThreeVarints(b, p, limit) == Some(Header(x, y, z, next))
  {
  }

  lemma ThreeEncoded(b: Bytes, p: nat, limit: nat, x: U32, y: U32, z: U32, ex: Bytes, ey: Bytes, ez: Bytes)
    requires ReadsAs(b, limit, x, ex) && ReadsAs(b, limit, y, ey) && ReadsAs(b, limit, z, ez)
    requires At(b, p, ex + ey + ez) && p + |ex + ey + ez| <= limit
    ensures ThreeVarints(b, p, limit) == Some(Header(x, y, z, p + |ex + ey + ez|))
  {
    AtParts(b, p, ex + ey, ez);
    AtParts(b, p, ex, ey);
    var q, r, next := p + |ex|, p + |ex + ey|, p + |ex + ey + ez|;
    assert GetVarint(b, p, limit, 5) == Some(Number(x, q));
    assert GetVarint(b, q, limit, 5) == Some(Number(y, r));
    assert GetVarint(b, r, limit, 5) == Some(Number(z, next));
    ThreeRead(b, p, limit, x, y, z, q, r, next);
  }

  /** On short lengths the fast path reads what the slow one would. */
  lemma FastIsSlow(b: Bytes, p: nat, limit: nat)
    requires limit <= |b| && p + 3 <= limit && b[p] < 128 && b[p + 1] < 128 && b[p + 2] < 128
    ensures ThreeVarints(b, p, limit) == Some(Header(b[p] as nat, b[p + 1] as nat, b[p + 2] as nat, p + 3))
  {
  }

  /** A written entry decodes to its lengths, followed by the rest of its key and its value. */
  lemma DecodeParts(b: Bytes, p: nat, limit: nat, shared: nat, e: Pair, ex: Bytes, ey: Bytes, ez: Bytes, rest: Bytes)
    requires shared <= |e.key| < TWO32 && |e.value| < TWO32 && rest == e.key[shared..] + e.value
    requires ReadsAs(b, limit, shared, ex) && ReadsAs(b, limit, |e.key| - shared, ey) && ReadsAs(b, limit, |e.value|, ez)
    requires |ex| > 0 && |ey| > 0 && |ez| > 0
    requires At(b, p, (ex + ey + ez) + rest) && p + |ex + ey + ez| + |rest| <= limit
    ensures var n := p + |ex + ey + ez|;
            && DecodeEntry(b, p, limit) == Some(Header(shared, |e.key| - shared, |e.value|, n))
            && At(b, n, e.key[shared..]) && At(b, n + |e.key| - shared, e.value)
  {
    var n := p + |ex + ey + ez|;
    AtParts(b, p, ex + ey + ez, rest);
    AtParts(b, n, e.key[shared..], e.value);
    ThreeEncoded(b, p, limit, shared, |e.key| - shared, |e.value|, ex, ey, ez);
    DecodeThree(b, p, limit, Header(shared, |e.key| - shared, |e.value|, n));
  }

  lemma DecodeWritten(b: Bytes, p: nat, limit: nat, shared: nat, e: Pair)
    requires shared <= |e.key| < TWO32 && |e.value| < TWO32 && limit <= |b|
    requires At(b, p, EntryBytes(shared, e)) && p + |EntryBytes(shared, e)| <= limit
    ensures var n := p + |Lengths(shared, e)|;
            && DecodeEntry(b, p, limit) == Some(Header(shared, |e.key| - shared, |e.value|, n))
            && At(b, n, e.key[shared..]) && At(b, n + |e.key| - shared, e.value)
  {
    var ex, ey, ez := LengthsRead(b, limit, shared, e);
    DecodeParts(b, p, limit, shared, e, ex, ey, ez, e.key[shared..] + e.value);
  }

  lemma LengthsRead(b: Bytes, limit: nat, shared: nat, e: Pair) returns (ex: Bytes, ey: Bytes, ez: Bytes)
    requires shared <= |e.key| < TWO32 && |e.value| < TWO32 && limit <= |b|
    ensures ReadsAs(b, limit, shared, ex) && ReadsAs(b, limit, |e.key| - shared, ey) && ReadsAs(b, limit, |e.value|, ez)
    ensures |ex| > 0 && |ey| > 0 && |ez| > 0 && Lengths(shared, e) == ex + ey + ez
    ensures EntryBytes(shared, e) == (ex + ey + ez) + (e.key[shared..] + e.value)
  {
    ex, ey, ez := EncodeVarint(shared), EncodeVarint(|e.key| - shared), EncodeVarint(|e.value|);
    EncodedReads(b, limit, shared);
    EncodedReads(b, limit, |e.key| - shared);
    EncodedReads(b, limit, |e.value|);
  }

  lemma DecodeThree(b: Bytes, p: nat, limit: nat, h: Header)
    requires limit <= |b| && p + 3 <= limit && ThreeVarints(b, p, limit) == Some(h) && h.next + h.nonShared + h.valueLength <= limit
    ensures DecodeEntry(b, p, limit) == Some(h)
  {
    if b[p] < 128 && b[p + 1] < 128 && b[p + 2] < 128 { FastIsSlow(b, p, limit); }
  }

  // ---------------------------------------------------------------- layout

  /** For specification: the entries, how much of each key is shared, where each entry starts, and which entries are restart
      points. */
  datatype Layout = Layout(entries: seq<Pair>, shared: seq<nat>, offs: seq<nat>, restarts: seq<nat>)

  function KeyBefore(entries: seq<Pair>, i: nat): Bytes
    requires i <= |entries|
  {
    if i == 0 then [] else entries[i - 1].key
  }

  ghost predicate EntryOk(b: Bytes, l: Layout, i: nat) {
    && i < |l.entries| == |l.shared| && |l.offs| == |l.entries| + 1
    && l.shared[i] <= |l.entries[i].key| && l.shared[i] <= |KeyBefore(l.entries, i)|
    && l.entries[i].key[..l.shared[i]] == KeyBefore(l.entries, i)[..l.shared[i]]
    && At(b, l.offs[i], EntryBytes(l.shared[i], l.entries[i])) && l.offs[i + 1] == l.offs[i] + |EntryBytes(l.shared[i], l.entries[i])|
  }

  /** Restart points are in order, start at the first entry and carry whole keys. */
  ghost predicate RestartsOk(l: Layout) {
    && |l.restarts| > 0 && l.restarts[0] == 0 && |l.shared| == |l.entries|
    && (forall j, k :: 0 <= j < k < |l.restarts| ==> l.restarts[j] < l.restarts[k])
    && (forall j :: 0 < j < |l.restarts| ==> l.restarts[j] < |l.entries|)
    && (forall j :: 0 <= j < |l.restarts| && l.restarts[j] < |l.entries| ==> l.shared[l.restarts[j]] == 0)
  }

  ghost predicate LayoutOk(b: Bytes, l: Layout, limit: nat) {
    && |l.offs| == |l.entries| + 1 && l.offs[0] == 0 && l.offs[|l.entries|] == limit <= |b|
    && RestartsOk(l) && forall i :: 0 <= i < |l.entries| ==> EntryOk(b, l, i)
  }

  /** Word `j` of the restart array is where restart point `j` starts. */
  ghost predicate RestartWord(b: Bytes, l: Layout, limit: nat, j: nat) {
    j < |l.restarts| && l.restarts[j] < |l.offs| && WordIs(b, limit, j, l.offs[l.restarts[j]])
  }

  ghost predicate RestartWords(b: Bytes, l: Layout, limit: nat) {
    && |b| == limit + 4 * |l.restarts| + 4
    && (forall j :: 0 <= j < |l.restarts| ==> RestartWord(b, l, limit, j))
    && WordIs(b, limit, |l.restarts|, |l.restarts|)
  }

  // ---------------------------------------------------------------- building

  predicate LongestCommon(a: Bytes, b: Bytes, n: nat) {
    n <= |a| && n <= |b| && a[..n] == b[..n] && (n < |a| && n < |b| ==> a[n] != b[n])
  }

  method CommonPrefix(a: Bytes, b: Bytes) returns (n: nat)
    ensures LongestCommon(a, b, n)
  {
    n := 0;
    while n < |a| && n < |b| && a[n] == b[n]
      invariant n <= |a| && n <= |b| && a[..n] == b[..n]
    {
      n := n + 1;
    }
  }

  lemma AtStays(b: Bytes, b': Bytes, p: nat, s: Bytes)
    requires At(b, p, s) && b <= b'
    ensures At(b', p, s)
  {
    assert b'[p..p + |s|] == b[p..p + |s|];
  }

  lemma AtEnd(b: Bytes, s: Bytes)
    ensures At(b + s, |b|, s)
  {
    assert (b + s)[|b|..|b| + |s|] == s;
  }

  /** Writing an entry at the end of the buffer extends the layout. */
  lemma LayoutGrows(b: Bytes, l: Layout, shared: nat, e: Pair, restart: bool)
    requires LayoutOk(b, l, |b|) && shared <= |e.key| && shared <= |KeyBefore(l.entries, |l.entries|)|
    requires e.key[..shared] == KeyBefore(l.entries, |l.entries|)[..shared]
    requires restart ==> shared == 0 && l.entries != []
    requires l.entries == [] ==> shared == 0
    ensures var b' := b + EntryBytes(shared, e);
            LayoutOk(b', Layout(l.entries + [e], l.shared + [shared], l.offs + [|b'|], l.restarts + if restart then [|l.entries|] else []), |b'|)
  {
    var b' := b + EntryBytes(shared, e);
    var l' := Layout(l.entries + [e], l.shared + [shared], l.offs + [|b'|], l.restarts + if restart then [|l.entries|] else []);
    forall i | 0 <= i < |l'.entries| ensures EntryOk(b', l', i) {
      if i < |l.entries| {
        assert EntryOk(b, l, i);
        AtStays(b, b', l.offs[i], EntryBytes(l.shared[i], l.entries[i]));
      } else {
        AtEnd(b, EntryBytes(shared, e));
      }
    }
    RestartsGrow(l, shared, e, restart, l'.offs);
  }

  lemma RestartsGrow(l: Layout, shared: nat, e: Pair, restart: bool, offs: seq<nat>)
    requires RestartsOk(l) && (restart ==> shared == 0 && l.entries != []) && (l.entries == [] ==> shared == 0)
    ensures RestartsOk(Layout(l.entries + [e], l.shared + [shared], offs, l.restarts + if restart then [|l.entries|] else []))
  {
  }

  class BlockBuilder {
    const interval: nat
    var buffer: Bytes
    var restarts: seq<nat>
    var counter: nat
    var lastKey: Bytes
    ghost var layout: Layout

    constructor (interval: nat)
      requires interval >= 1
      ensures Valid() && layout.entries == []
    {
      this.interval := interval;
      buffer, restarts, counter, lastKey := [], [0], 0, [];
      layout := Layout([], [], [0], [0]);
    }

    ghost predicate Valid()
      reads this
    {
      && LayoutOk(buffer, layout, |buffer|) && counter <= interval && interval >= 1
      && lastKey == KeyBefore(layout.entries, |layout.entries|) && (layout.entries == [] ==> counter == 0)
      && |restarts| == |layout.restarts| && forall j :: 0 <= j < |restarts| ==> restarts[j] == layout.offs[layout.restarts[j]]
    }

    /** Append an entry, sharing a prefix with the last key unless it is time for a restart point. */
    method Add(e: Pair)
      requires Valid()
      modifies this
      ensures Valid() && layout.entries == old(layout.entries) + [e]
      ensures if old(counter) < interval
              then layout.restarts == old(layout.restarts) && counter == old(counter) + 1
                   && exists n :: layout.shared == old(layout.shared) + [n] && LongestCommon(old(lastKey), e.key, n)
              else layout.restarts == old(layout.restarts) + [old(|layout.entries|)] && counter == 1 && layout.shared == old(layout.shared) + [0]
    {
      var shared := 0;
      var restart := false;
      if counter < interval {
        shared := CommonPrefix(lastKey, e.key);
      } else {
        restart := true;
        restarts := restarts + [|buffer|];
        counter := 0;
      }
      LayoutGrows(buffer, layout, shared, e, restart);
      ghost var n := |layout.entries|;
      buffer := buffer + EntryBytes(shared, e);
      layout := Layout(layout.entries + [e], layout.shared + [shared], layout.offs + [|buffer|], layout.restarts + if restart then [n] else []);
      lastKey := lastKey[..shared] + e.key[shared..];
      assert lastKey == e.key;
      counter := counter + 1;
    }

    /** Append the restart array and its length. */
    method Finish() returns (block: Bytes)
      requires Valid()
      ensures |buffer| < TWO32 ==>
                LayoutOk(block, layout, |buffer|) && RestartWords(block, layout, |buffer|) && EntriesFit(layout)
    {
      block := AppendWords(buffer, restarts + [|restarts|]);
      if |buffer| < TWO32 {
        FinishedLayout(buffer, layout, restarts, block);
      }
    }
  }

  /** Lengths fit in 32 bits. */
  ghost predicate EntriesFit(l: Layout) {
    forall i :: 0 <= i < |l.entries| ==> |l.entries[i].key| < TWO32 && |l.entries[i].value| < TWO32
  }

  lemma {:induction false} OffsIncrease(b: Bytes, l: Layout, limit: nat, i: nat, j: nat)
    requires LayoutOk(b, l, limit) && i <= j <= |l.entries|
    ensures l.offs[i] + (j - i) <= l.offs[j]
    decreases j
  {
    if i < j {
      OffsIncrease(b, l, limit, i, j - 1);
      assert EntryOk(b, l, j - 1);
    }
  }

  lemma KeysFit(b: Bytes, l: Layout, limit: nat)
    requires LayoutOk(b, l, limit) && limit < TWO32
    ensures EntriesFit(l)
  {
    forall i | 0 <= i < |l.entries| ensures |l.entries[i].key| < TWO32 && |l.entries[i].value| < TWO32 {
      assert EntryOk(b, l, i);
      KeyFits(b, l, limit, i);
    }
  }

  /** Keys are no longer than all key bytes written up to them. */
  lemma {:induction false} KeyFits(b: Bytes, l: Layout, limit: nat, i: nat)
    requires LayoutOk(b, l, limit) && i < |l.entries|
    ensures |l.entries[i].key| <= l.offs[i + 1] <= limit && |l.entries[i].value| <= limit
  {
    assert EntryOk(b, l, i);
    OffsIncrease(b, l, limit, i + 1, |l.entries|);
    if i > 0 { KeyFits(b, l, limit, i - 1); }
  }

  lemma FinishedLayout(buffer: Bytes, l: Layout, restarts: seq<nat>, block: Bytes)
    requires LayoutOk(buffer, l, |buffer|) && |buffer| < TWO32 && block == buffer + Words(restarts + [|restarts|])
    requires |restarts| == |l.restarts| && forall j :: 0 <= j < |restarts| ==> restarts[j] == l.offs[l.restarts[j]]
    ensures LayoutOk(block, l, |buffer|) && RestartWords(block, l, |buffer|) && EntriesFit(l)
  {
    KeysFit(buffer, l, |buffer|);
    forall i | 0 <= i < |l.entries| ensures EntryOk(block, l, i) {
      assert EntryOk(buffer, l, i);
      AtStays(buffer, block, l.offs[i], EntryBytes(l.shared[i], l.entries[i]));
    }
    FinishedWords(buffer, l, restarts, block);
  }

  lemma FinishedWords(buffer: Bytes, l: Layout, restarts: seq<nat>, block: Bytes)
    requires LayoutOk(buffer, l, |buffer|) && |buffer| < TWO32 && block == buffer + Words(restarts + [|restarts|])
    requires |restarts| == |l.restarts| && forall j :: 0 <= j < |restarts| ==> restarts[j] == l.offs[l.restarts[j]]
    ensures RestartWords(block, l, |buffer|)
  {
    var ns := restarts + [|restarts|];
    FewRestarts(buffer, l, |buffer|);
    forall j | 0 <= j < |ns| ensures ns[j] < TWO32 {
      if j < |restarts| { OffsIncrease(buffer, l, |buffer|, l.restarts[j], |l.entries|); }
    }
    AppendedWords(buffer, ns, block);
    forall j | 0 <= j < |restarts| ensures RestartWord(block, l, |buffer|, j) {
      assert WordIs(block, |buffer|, j, ns[j]);
    }
    assert WordIs(block, |buffer|, |restarts|, ns[|restarts|]);
  }

  lemma WordBehind(a: Bytes, w: Bytes, b: Bytes, j: nat, n: nat)
    requires b == a + w && 4 * j + 4 <= |w| && WordIn(w, 4 * j) == n
    ensures WordIs(b, |a|, j, n)
  {
    assert b == a + w + [];
    WordInMiddle(a, w, [], b, 4 * j, n);
  }

  lemma AppendedWords(a: Bytes, ns: seq<nat>, b: Bytes)
    requires b == a + Words(ns) && forall j :: 0 <= j < |ns| ==> ns[j] < TWO32
    ensures forall j :: 0 <= j < |ns| ==> WordIs(b, |a|, j, ns[j])
  {
    forall j | 0 <= j < |ns| ensures WordIs(b, |a|, j, ns[j]) {
      WordsWord(ns, j);
      WordBehind(a, Words(ns), b, j, ns[j]);
    }
  }

  lemma FewRestarts(b: Bytes, l: Layout, limit: nat)
    requires LayoutOk(b, l, limit)
    ensures |l.restarts| <= if limit == 0 then 1 else limit
  {
    var n := |l.restarts| - 1;
    RestartIndexes(l, n);
    if n > 0 {
      OffsIncrease(b, l, limit, l.restarts[n], |l.entries|);
      OffsIncrease(b, l, limit, 0, l.restarts[n]);
    }
  }

  lemma {:induction false} RestartIndexes(l: Layout, j: nat)
    requires RestartsOk(l) && j < |l.restarts|
    ensures j <= l.restarts[j]
  {
    if j > 0 { RestartIndexes(l, j - 1); }
  }
}
