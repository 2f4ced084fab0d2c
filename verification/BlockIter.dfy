/** The block iterator (table/block.cc: Block::Iter): it stands on the entries a block was built from, in order; Seek finds the
    first key not before the target, for every placement of restart points, and Prev the entry just before. */
module BlockIter {
  import opened InternalKeys
  import opened Framing
  import opened LogFormat
  import opened FilterBlocks
  import opened Varints
  import opened Blocks

  // ---------------------------------------------------------------- parsing one entry

  datatype Step = Step(key: Bytes, valueAt: nat, valueLength: nat)

  /** Parse the entry at `off`, given the key before it; nothing if it is malformed. */
  function ParseEntry(b: Bytes, off: nat, limit: nat, key: Bytes): (r: Option<Step>)
    requires limit <= |b|
    ensures r.Some? ==> r.value.valueAt + r.value.valueLength <= limit
  {
    var h := DecodeEntry(b, off, limit);
    if h.None? || |key| < h.value.shared then None
    else Some(Step(key[..h.value.shared] + b[h.value.next..h.value.next + h.value.nonShared],
                   h.value.next + h.value.nonShared, h.value.valueLength))
  }

  /** The full key at a restart point; nothing if the entry there shares bytes. */
  function RestartKey(b: Bytes, off: nat, limit: nat): Option<Bytes>
    requires limit <= |b|
  {
    var h := DecodeEntry(b, off, limit);
    if h.None? || h.value.shared != 0 then None else Some(b[h.value.next..h.value.next + h.value.nonShared])
  }

  /** Entry `i` reads back. */
  ghost predicate Readable(b: Bytes, limit: nat, l: Layout, i: nat) {
    && limit <= |b| && i < |l.entries| == |l.shared| && |l.offs| == |l.entries| + 1
    && var e := l.entries[i];
       && (l.shared[i] == 0 ==> RestartKey(b, l.offs[i], limit) == Some(e.key))
       && (forall key :: l.shared[i] == 0 || key == KeyBefore(l.entries, i) ==>
             var r := ParseEntry(b, l.offs[i], limit, key);
             r.Some? && r.value.key == e.key && At(b, r.value.valueAt, e.value) && r.value.valueLength == |e.value|
             && r.value.valueAt + r.value.valueLength == l.offs[i + 1])
  }

  lemma PartSlice(b: Bytes, p: nat, s: Bytes)
    requires At(b, p, s)
    ensures p + |s| <= |b| && b[p..p + |s|] == s
  {
  }

  lemma ParsesTo(b: Bytes, off: nat, limit: nat, key: Bytes, shared: nat, e: Pair, n: nat, h: Option<Header>)
    requires limit <= |b| && shared <= |e.key| && h == DecodeEntry(b, off, limit)
    requires h == Some(Header(shared, |e.key| - shared, |e.value|, n)) && At(b, n, e.key[shared..])
    ensures shared <= |key| && key[..shared] == e.key[..shared] ==>
              ParseEntry(b, off, limit, key) == Some(Step(e.key, n + |e.key| - shared, |e.value|))
    ensures shared == 0 ==> RestartKey(b, off, limit) == Some(e.key)
  {
    PartSlice(b, n, e.key[shared..]);
    assert e.key[..shared] + e.key[shared..] == e.key;
  }

  lemma EntriesAreReadable(b: Bytes, limit: nat, l: Layout, i: nat)
    requires LayoutOk(b, l, limit) && EntriesFit(l) && i < |l.entries|
    ensures Readable(b, limit, l, i)
  {
    assert EntryOk(b, l, i);
    OffsIncrease(b, l, limit, i + 1, |l.entries|);
    DecodeWritten(b, l.offs[i], limit, l.shared[i], l.entries[i]);
    EntryReadsBack(b, limit, l, i, l.offs[i] + |Lengths(l.shared[i], l.entries[i])|, DecodeEntry(b, l.offs[i], limit));
  }

  lemma EntryReadsBack(b: Bytes, limit: nat, l: Layout, i: nat, n: nat, h: Option<Header>)
    requires limit <= |b| && i < |l.entries| == |l.shared| && |l.offs| == |l.entries| + 1 && h == DecodeEntry(b, l.offs[i], limit)
    requires l.shared[i] <= |l.entries[i].key| && l.shared[i] <= |KeyBefore(l.entries, i)|
    requires l.entries[i].key[..l.shared[i]] == KeyBefore(l.entries, i)[..l.shared[i]]
    requires h == Some(Header(l.shared[i], |l.entries[i].key| - l.shared[i], |l.entries[i].value|, n))
    requires At(b, n, l.entries[i].key[l.shared[i]..]) && At(b, n + |l.entries[i].key| - l.shared[i], l.entries[i].value)
    requires n + |l.entries[i].key| - l.shared[i] + |l.entries[i].value| == l.offs[i + 1]
    ensures Readable(b, limit, l, i)
  {
    var e := l.entries[i];
    ParsesTo(b, l.offs[i], limit, [], l.shared[i], e, n, h);
    forall key | l.shared[i] == 0 || key == KeyBefore(l.entries, i)
      ensures ParseEntry(b, l.offs[i], limit, key) == Some(Step(e.key, n + |e.key| - l.shared[i], |e.value|))
    {
      ParsesTo(b, l.offs[i], limit, key, l.shared[i], e, n, h);
    }
  }

  // ---------------------------------------------------------------- what the iterator relies on

  predicate OffsUp(l: Layout, i: nat, j: nat) {
    i < |l.offs| && j < |l.offs| && l.offs[i] < l.offs[j]
  }

  ghost predicate BlockOk(b: Bytes, limit: nat, l: Layout) {
    && |l.offs| == |l.entries| + 1 && l.offs[0] == 0 && l.offs[|l.entries|] == limit && RestartsOk(l)
    && (forall i, j :: 0 <= i < j <= |l.entries| ==> OffsUp(l, i, j))
    && (forall i :: 0 <= i < |l.entries| ==> Readable(b, limit, l, i))
    && RestartWords(b, l, limit)
  }

  lemma BuiltBlockOk(b: Bytes, limit: nat, l: Layout)
    requires LayoutOk(b, l, limit) && RestartWords(b, l, limit) && EntriesFit(l)
    ensures BlockOk(b, limit, l)
  {
    forall i | 0 <= i < |l.entries| ensures Readable(b, limit, l, i) { EntriesAreReadable(b, limit, l, i); }
    forall i, j | 0 <= i < j <= |l.entries| ensures OffsUp(l, i, j) { OffsIncrease(b, l, limit, i, j); }
  }

  type Order = (Bytes, Bytes) -> bool

  ghost predicate Transitive(less: Order) {
    forall a, b, c :: less(a, b) && less(b, c) ==> less(a, c)
  }

  ghost predicate SortedBy(less: Order, es: seq<Pair>) {
    forall i, j :: 0 <= i < j < |es| ==> less(es[i].key, es[j].key)
  }

  // ---------------------------------------------------------------- the iterator

  class Iter {
    const data: Bytes
    const limit: nat          // where the restart array starts
    const numRestarts: nat
    var current: nat          // offset of the current entry; `limit` when not on an entry
    var restartIndex: nat
    var key: Bytes
    var valueAt: nat
    var valueLength: nat
    var corrupt: bool
    ghost const layout: Layout

    constructor (data: Bytes, limit: nat, numRestarts: nat, ghost layout: Layout)
      requires BlockOk(data, limit, layout) && numRestarts == |layout.restarts|
      ensures Valid() && Position() == None && this.data == data && this.layout == layout
    {
      this.data, this.limit, this.numRestarts, this.layout := data, limit, numRestarts, layout;
      current, restartIndex, key, valueAt, valueLength, corrupt := limit, numRestarts, [], 0, 0, false;
    }

    ghost predicate BlockValid()
      reads this
    {
      match corrupt
      case true => false
      case false => BlockOk(data, limit, layout) && numRestarts == |layout.restarts|
    }

    /** The iterator stands on entry `i`, and its restart index is that of the last restart point at or before it. */
    ghost predicate On(i: nat)
      requires BlockValid()
      reads this
    {
      match i < |layout.entries|
      case false => false
      case true =>
        && current == layout.offs[i] && key == layout.entries[i].key
        && At(data, valueAt, layout.entries[i].value) && valueLength == |layout.entries[i].value|
        && valueAt + valueLength == layout.offs[i + 1]
        && restartIndex < numRestarts && layout.restarts[restartIndex] <= i
        && (restartIndex + 1 < numRestarts ==> i <= layout.restarts[restartIndex + 1])
    }

    /** The next entry to parse is `i`. */
    ghost predicate Ready(i: nat)
      requires BlockValid()
      reads this
    {
      match i <= |layout.entries|
      case false => false
      case true =>
        && valueAt + valueLength == layout.offs[i] && restartIndex < numRestarts && layout.restarts[restartIndex] <= i
        && (i < |layout.entries| ==> layout.shared[i] == 0 || key == KeyBefore(layout.entries, i))
        && (restartIndex + 1 < numRestarts && i > 0 ==> i <= layout.restarts[restartIndex + 1] + 1)
    }

    ghost predicate Valid()
      reads this
    {
      BlockValid() && (current == limit || exists i :: On(i))
    }

    ghost function Position(): (p: Option<nat>)
      requires Valid()
      reads this
      ensures p.None? <==> current == limit
      ensures p.Some? ==> On(p.value)
    {
      if current == limit then None
      else
        var i :| On(i);
        Some(i)
    }

    lemma OnIsPosition(i: nat)
      requires BlockValid() && On(i)
      ensures Valid() && Position() == Some(i)
    {
      OffsOrder(data, limit, layout, i, |layout.entries|);
      OffsOrder(data, limit, layout, i, Position().value);
    }

    /** The entry under the iterator. */
    method Entry() returns (e: Option<Pair>)
      requires Valid()
      ensures e == match Position() case None => None case Some(i) => Some(layout.entries[i])
    {
      if current < limit {
        ghost var i := Position().value;
        PartSlice(data, valueAt, layout.entries[i].value);
        return Some(Pair(key, data[valueAt..valueAt + valueLength]));
      }
      ghost var p := Position();
      if p.Some? { OffsOrder(data, limit, layout, p.value, |layout.entries|); }
      return None;
    }

    method GetRestartPoint(index: nat) returns (off: nat)
      requires BlockValid() && index < numRestarts
      ensures off == layout.offs[layout.restarts[index]]
    {
      assert RestartWord(data, layout, limit, index);
      off := WordIn(data, limit + 4 * index);
    }

    method SeekToRestartPoint(index: nat)
      requires BlockValid() && index < numRestarts
      modifies this`key, this`restartIndex, this`valueAt, this`valueLength
      ensures BlockValid() && Ready(layout.restarts[index]) && restartIndex == index
    {
      key := [];
      restartIndex := index;
      valueAt := GetRestartPoint(index);
      valueLength := 0;
    }

    /** Parse the entry after the current one; `false` at the end of the block. */
    method ParseNextKey(ghost i: nat) returns (ok: bool)
      requires BlockValid() && Ready(i)
      modifies this
      ensures BlockValid() && (ok <==> i < |layout.entries|)
      ensures if ok then On(i) && Ready(i + 1) else current == limit
    {
      current := valueAt + valueLength;
      OffsOrder(data, limit, layout, i, |layout.entries|);
      if current >= limit {
        current, restartIndex := limit, numRestarts;
        return false;
      }
      TakeEntry(i);
      AdvanceRestartIndex(i);
      ok := true;
    }

    method TakeEntry(ghost i: nat)
      requires BlockValid() && i < |layout.entries| && current == layout.offs[i]
      requires layout.shared[i] == 0 || key == KeyBefore(layout.entries, i)
      modifies this`key, this`valueAt, this`valueLength
      ensures BlockValid() && key == layout.entries[i].key && At(data, valueAt, layout.entries[i].value)
      ensures valueLength == |layout.entries[i].value| && valueAt + valueLength == layout.offs[i + 1]
    {
      var r := ParseEntry(data, current, limit, key);
      ReadsEntry(data, limit, layout, i, key, r);
      key, valueAt, valueLength := r.value.key, r.value.valueAt, r.value.valueLength;
    }

    method AdvanceRestartIndex(ghost i: nat)
      requires BlockValid() && i < |layout.entries| && current == layout.offs[i]
      requires restartIndex < numRestarts && layout.restarts[restartIndex] <= i
      modifies this`restartIndex
      ensures BlockValid() && restartIndex < numRestarts && layout.restarts[restartIndex] <= i
      ensures restartIndex + 1 < numRestarts ==> i <= layout.restarts[restartIndex + 1]
    {
      var go := true;
      while go
        invariant BlockValid() && restartIndex < numRestarts && layout.restarts[restartIndex] <= i
        invariant !go && restartIndex + 1 < numRestarts ==> i <= layout.restarts[restartIndex + 1]
        decreases go, numRestarts - restartIndex
      {
        if restartIndex + 1 < numRestarts {
          var next := GetRestartPoint(restartIndex + 1);
          OffsOrder(data, limit, layout, layout.restarts[restartIndex + 1], i);
          go := next < current;
          if go {
            restartIndex := restartIndex + 1;
          }
        } else {
          go := false;
        }
      }
    }

    method SeekToFirst()
      requires BlockValid()
      modifies this
      ensures Valid() && Position() == if layout.entries == [] then None else Some(0)
    {
      SeekToRestartPoint(0);
      var ok := ParseNextKey(0);
      if ok { OnIsPosition(0); }
    }

    method Next()
      requires Valid() && Position().Some?
      modifies this
      ensures Valid()
      ensures var i := old(Position()).value; Position() == if i + 1 < |layout.entries| then Some(i + 1) else None
    {
      ghost var i := Position().value;
      OnIsReady(i);
      var ok := ParseNextKey(i + 1);
      if ok { OnIsPosition(i + 1); }
    }

    lemma OnIsReady(i: nat)
      requires BlockValid() && On(i)
      ensures Ready(i + 1)
    {
    }

    /** Parse forward from entry `i` until an entry ends at or after `original`. */
    method ScanTo(ghost i: nat, original: nat, ghost target: nat)
      requires BlockValid() && Ready(i) && target <= |layout.entries| && original == layout.offs[target]
      requires i < target || i == |layout.entries|
      modifies this
      ensures Valid() && Position() == if i < target then Some(target - 1) else None
    {
      ghost var n := i;
      var ok := ParseNextKey(n);
      OffsOrder(data, limit, layout, n + if ok then 1 else 0, target);
      while ok && valueAt + valueLength < original
        invariant BlockValid() && if ok then n < target && On(n) && Ready(n + 1) else i == |layout.entries| && current == limit
        invariant ok ==> (n + 1 < target <==> valueAt + valueLength < original)
        decreases target - n
      {
        n := n + 1;
        ok := ParseNextKey(n);
        OffsOrder(data, limit, layout, n + 1, target);
      }
      if ok { OnIsPosition(target - 1); }
    }

    method SeekToLast()
      requires BlockValid()
      modifies this
      ensures Valid() && Position() == if layout.entries == [] then None else Some(|layout.entries| - 1)
    {
      SeekToRestartPoint(numRestarts - 1);
      ScanTo(layout.restarts[numRestarts - 1], limit, |layout.entries|);
    }

    /** Go back to a restart point before the current entry and parse forward to the entry that ends where it starts. */
    method Prev()
      requires Valid() && Position().Some?
      modifies this
      ensures Valid() && Position() == if old(Position()).value == 0 then None else Some(old(Position()).value - 1)
    {
      ghost var i := Position().value;
      var original := current;
      var point := GetRestartPoint(restartIndex);
      OffsOrder(data, limit, layout, layout.restarts[restartIndex], i);
      while point >= original
        invariant point < original <==> layout.restarts[restartIndex] < i
        invariant BlockValid() && restartIndex < numRestarts && layout.restarts[restartIndex] <= i
        invariant point == layout.offs[layout.restarts[restartIndex]]
        decreases restartIndex
      {
        if restartIndex == 0 {
          current, restartIndex := limit, numRestarts;
          return;
        }
        restartIndex := restartIndex - 1;
        point := GetRestartPoint(restartIndex);
        OffsOrder(data, limit, layout, layout.restarts[restartIndex], i);
      }
      ghost var r := layout.restarts[restartIndex];
      SeekToRestartPoint(restartIndex);
      ScanTo(r, original, i);
    }

    /** The last restart point whose key is before the target, or the first one. */
    method FindRestart(less: Order, target: Bytes) returns (left: nat)
      requires BlockValid()
      ensures left < numRestarts && (left == 0 || less(layout.entries[layout.restarts[left]].key, target))
    {
      left := 0;
      var right := numRestarts - 1;
      while left < right
        invariant 0 <= left <= right < numRestarts
        invariant left == 0 || less(layout.entries[layout.restarts[left]].key, target)
      {
        var mid := (left + right + 1) / 2;
        var off := GetRestartPoint(mid);
        assert Readable(data, limit, layout, layout.restarts[mid]);
        var midKey := RestartKey(data, off, limit);
        if less(midKey.value, target) {
          left := mid;
        } else {
          right := mid - 1;
        }
      }
    }

    /** Binary search among the restart points, then forward to the first key not before the target. */
    method Seek(less: Order, target: Bytes)
      requires BlockValid() && Transitive(less) && SortedBy(less, layout.entries)
      modifies this
      ensures Valid()
      ensures match Position()
              case None => forall k :: 0 <= k < |layout.entries| ==> less(layout.entries[k].key, target)
              case Some(i) => i < |layout.entries| && !less(layout.entries[i].key, target)
                              && forall k :: 0 <= k < i ==> less(layout.entries[k].key, target)
    {
      var left := FindRestart(less, target);
      ghost var i := layout.restarts[left];
      SeekToRestartPoint(left);
      var ok := ParseNextKey(i);
      while ok && less(key, target)
        invariant BlockValid() && i <= |layout.entries| && (ok <==> i < |layout.entries|)
        invariant if ok then On(i) && Ready(i + 1) else current == limit
        invariant forall k :: 0 <= k < i ==> less(layout.entries[k].key, target)
        decreases |layout.entries| - i
      {
        i := i + 1;
        ok := ParseNextKey(i);
      }
      if ok { OnIsPosition(i); }
    }
  }

  lemma OffsOrder(b: Bytes, limit: nat, l: Layout, i: nat, j: nat)
    requires BlockOk(b, limit, l) && i <= |l.entries| && j <= |l.entries|
    ensures l.offs[i] < l.offs[j] <==> i < j
    ensures l.offs[i] == l.offs[j] <==> i == j
  {
    if i < j { assert OffsUp(l, i, j); }
    if j < i { assert OffsUp(l, j, i); }
  }

  lemma ReadsEntry(b: Bytes, limit: nat, l: Layout, i: nat, key: Bytes, r: Option<Step>)
    requires BlockOk(b, limit, l) && i < |l.entries| && (l.shared[i] == 0 || key == KeyBefore(l.entries, i))
    requires r == ParseEntry(b, l.offs[i], limit, key)
    ensures r.Some? && r.value.key == l.entries[i].key && At(b, r.value.valueAt, l.entries[i].value)
    ensures r.value.valueLength == |l.entries[i].value| && r.value.valueAt + r.value.valueLength == l.offs[i + 1]
  {
    assert Readable(b, limit, l, i);
  }

  /** Build a block from entries in order. */
  method BuildBlock(interval: nat, entries: seq<Pair>) returns (block: Bytes, limit: nat, numRestarts: nat, ghost layout: Layout)
    requires interval >= 1
    ensures layout.entries == entries
    ensures limit < TWO32 ==> BlockOk(block, limit, layout) && numRestarts == |layout.restarts|
  {
    var builder := new BlockBuilder(interval);
    for i := 0 to |entries|
      invariant builder.Valid() && fresh(builder) && builder.layout.entries == entries[..i]
    {
      assert entries[..i + 1] == entries[..i] + [entries[i]];
      builder.Add(entries[i]);
    }
    assert entries[..|entries|] == entries;
    block := builder.Finish();
    limit, numRestarts, layout := |builder.buffer|, |builder.restarts|, builder.layout;
    if limit < TWO32 { BuiltBlockOk(block, limit, layout); }
  }

  /** Build a block and look a target up: the first of the added entries whose key is not before it, for every restart
      interval. */
  method BuildAndSeek(interval: nat, entries: seq<Pair>, less: Order, target: Bytes) returns (found: Option<Pair>, limit: nat)
    requires interval >= 1 && Transitive(less) && SortedBy(less, entries)
    ensures limit < TWO32 ==>
              match found
              case None => forall k :: 0 <= k < |entries| ==> less(entries[k].key, target)
              case Some(e) => exists i :: 0 <= i < |entries| && entries[i] == e && !less(e.key, target)
                                          && forall k :: 0 <= k < i ==> less(entries[k].key, target)
  {
    var block, numRestarts;
    ghost var layout;
    block, limit, numRestarts, layout := BuildBlock(interval, entries);
    found := None;
    if limit < TWO32 {
      var it := new Iter(block, limit, numRestarts, layout);
      it.Seek(less, target);
      found := it.Entry();
    }
  }
}
