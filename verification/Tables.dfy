/** Tables: data blocks, an index of separators, an optional filter (table/table_builder.cc, table/table.cc: InternalGet).
    A data block appears here as its sorted list of entries; module `Blocks` treats its bytes.
 */
module Tables {
  import opened InternalKeys
  import opened History
  import opened Bytewise
  import opened Separators
  import opened LogFormat
  import opened FilterBlocks

  datatype ByteEntry = ByteEntry(key: ByteKey, value: Bytes)

  function EntryOf(e: ByteEntry): Entry {
    Entry(KeyOf(e.key), e.value)
  }

  datatype Filter = NoFilter | Filter(policy: Policy, contents: Bytes)

  datatype Table = Table(blocks: seq<seq<ByteEntry>>, offsets: seq<nat>, index: seq<ByteKey>, filter: Filter)

  // ---------------------------------------------------------------- what a finished table keeps

  predicate SortedBlock(es: seq<ByteEntry>) {
    forall i, j :: 0 <= i < j < |es| ==> Before(KeyOf(es[i].key), KeyOf(es[j].key))
  }

  ghost predicate AllBefore(a: seq<ByteEntry>, b: seq<ByteEntry>) {
    forall x, y :: x in a && y in b ==> Before(KeyOf(x.key), KeyOf(y.key))
  }

  predicate EndsBy(es: seq<ByteEntry>, sep: ByteKey) {
    forall e :: e in es ==> AtMost(KeyOf(e.key), KeyOf(sep))
  }

  /** A lookup that the index sends to the block before `sep` has nothing to look for in `later`: `sep` is the last key of
      that block, or a user key below all of `later`. */
  predicate Splits(es: seq<ByteEntry>, sep: ByteKey, later: seq<ByteEntry>)
    requires es != []
  {
    sep == es[|es| - 1].key || forall y :: y in later ==> Rank(sep.user) < Rank(y.key.user)
  }

  ghost predicate BlocksOk(blocks: seq<seq<ByteEntry>>) {
    && (forall i :: 0 <= i < |blocks| ==> blocks[i] != [] && SortedBlock(blocks[i]))
    && (forall i, j :: 0 <= i < j < |blocks| ==> AllBefore(blocks[i], blocks[j]))
  }

  ghost predicate IndexOk(blocks: seq<seq<ByteEntry>>, index: seq<ByteKey>) {
    && |index| <= |blocks| && (forall i :: 0 <= i < |blocks| ==> blocks[i] != [])
    && (forall i :: 0 <= i < |index| ==> EndsBy(blocks[i], index[i]))
    && (forall i, j :: 0 <= i < |index| && i < j < |blocks| ==> Splits(blocks[i], index[i], blocks[j]))
  }

  ghost predicate FilterOk(blocks: seq<seq<ByteEntry>>, offsets: seq<nat>, filter: Filter) {
    |offsets| == |blocks|
    && (filter.Filter? ==>
          forall i, e :: 0 <= i < |blocks| && e in blocks[i] ==> KeyMayMatch(filter.policy, filter.contents, offsets[i], e.key.user))
  }

  ghost predicate TableOk(t: Table) {
    BlocksOk(t.blocks) && |t.index| == |t.blocks| && IndexOk(t.blocks, t.index) && FilterOk(t.blocks, t.offsets, t.filter)
  }

  function Contents(blocks: seq<seq<ByteEntry>>): set<Entry> {
    set i, e | 0 <= i < |blocks| && e in blocks[i] :: EntryOf(e)
  }

  // ---------------------------------------------------------------- lookup

  /** The first index key at or after `k`. */
  method SeekIndexBlock(index: seq<ByteKey>, k: InternalKey) returns (i: nat)
    ensures i <= |index| && (forall j :: 0 <= j < i ==> Before(KeyOf(index[j]), k)) && (i < |index| ==> AtMost(k, KeyOf(index[i])))
  {
    i := 0;
    while i < |index| && Before(KeyOf(index[i]), k)
      invariant 0 <= i <= |index| && forall j :: 0 <= j < i ==> Before(KeyOf(index[j]), k)
    {
      i := i + 1;
    }
  }

  method SeekBlock(es: seq<ByteEntry>, k: InternalKey) returns (i: nat)
    ensures i <= |es| && (forall j :: 0 <= j < i ==> Before(KeyOf(es[j].key), k)) && (i < |es| ==> AtMost(k, KeyOf(es[i].key)))
  {
    i := 0;
    while i < |es| && Before(KeyOf(es[i].key), k)
      invariant 0 <= i <= |es| && forall j :: 0 <= j < i ==> Before(KeyOf(es[j].key), k)
    {
      i := i + 1;
    }
  }

  /** Blocks before the one the index gives hold only smaller keys. */
  lemma PastTheIndex(blocks: seq<seq<ByteEntry>>, index: seq<ByteKey>, i: nat, k: InternalKey)
    requires IndexOk(blocks, index) && i <= |index| && forall j :: 0 <= j < i ==> Before(KeyOf(index[j]), k)
    ensures forall j, e :: 0 <= j < i && e in blocks[j] ==> Before(KeyOf(e.key), k)
  {
    forall j, e | 0 <= j < i && e in blocks[j] ensures Before(KeyOf(e.key), k) {
      assert EndsBy(blocks[j], index[j]);
    }
  }

  lemma NothingBefore(blocks: seq<seq<ByteEntry>>, u: Bytes, s: nat, n: nat)
    requires n == |blocks| && forall j, e :: 0 <= j < n && e in blocks[j] ==> Before(KeyOf(e.key), LookupKey(Rank(u), s))
    ensures Reads(Contents(blocks), Rank(u), s, None)
  {
  }

  /** Entries of `u` visible at `s` can only be in the block the index gives: later blocks hold none of `u`, unless that block
      already has one at or after the lookup key. */
  lemma LaterBlocks(t: Table, u: Bytes, s: nat, i: nat, m: nat, y: ByteEntry)
    requires TableOk(t) && i < m < |t.blocks| && y in t.blocks[m] && y.key.user == u
    requires AtMost(LookupKey(Rank(u), s), KeyOf(t.index[i]))
    ensures var last := t.blocks[i][|t.blocks[i]| - 1]; last in t.blocks[i] && AtMost(LookupKey(Rank(u), s), KeyOf(last.key))
  {
    assert Splits(t.blocks[i], t.index[i], t.blocks[m]);
  }

  /** If the block has nothing at or after the lookup key, the table has nothing of `u` there at all. */
  lemma NotInBlock(t: Table, u: Bytes, s: nat, i: nat)
    requires TableOk(t) && i < |t.blocks| && AtMost(LookupKey(Rank(u), s), KeyOf(t.index[i]))
    requires forall j, e :: 0 <= j < i && e in t.blocks[j] ==> Before(KeyOf(e.key), LookupKey(Rank(u), s))
    requires forall e :: e in t.blocks[i] ==> Before(KeyOf(e.key), LookupKey(Rank(u), s))
    ensures Reads(Contents(t.blocks), Rank(u), s, None)
  {
    forall m, e | 0 <= m < |t.blocks| && e in t.blocks[m] ensures !Visible(EntryOf(e), Rank(u), s) {
      NotThere(t, u, s, i, m, e);
    }
  }

  lemma NotThere(t: Table, u: Bytes, s: nat, i: nat, m: nat, e: ByteEntry)
    requires TableOk(t) && i < |t.blocks| && AtMost(LookupKey(Rank(u), s), KeyOf(t.index[i]))
    requires forall j, e :: 0 <= j < i && e in t.blocks[j] ==> Before(KeyOf(e.key), LookupKey(Rank(u), s))
    requires forall e :: e in t.blocks[i] ==> Before(KeyOf(e.key), LookupKey(Rank(u), s))
    requires m < |t.blocks| && e in t.blocks[m]
    ensures !Visible(EntryOf(e), Rank(u), s)
  {
    RankOrders(e.key.user, u);
    if m > i && e.key.user == u {
      LaterBlocks(t, u, s, i, m, e);
      assert false;
    }
  }

  /** A filter that rejects the user key speaks the truth about the block. */
  lemma FilteredOut(t: Table, u: Bytes, s: nat, i: nat)
    requires TableOk(t) && i < |t.blocks| && AtMost(LookupKey(Rank(u), s), KeyOf(t.index[i]))
    requires forall j, e :: 0 <= j < i && e in t.blocks[j] ==> Before(KeyOf(e.key), LookupKey(Rank(u), s))
    requires t.filter.Filter? && !KeyMayMatch(t.filter.policy, t.filter.contents, t.offsets[i], u)
    ensures Reads(Contents(t.blocks), Rank(u), s, None)
  {
    forall x | x in Contents(t.blocks) ensures !Visible(x, Rank(u), s) {
      var m, e :| 0 <= m < |t.blocks| && e in t.blocks[m] && x == EntryOf(e);
      RankOrders(e.key.user, u);
      if m >= i && e.key.user == u {
        LaterOrHere(t, u, s, i, m, e);
        assert false;
      }
    }
  }

  lemma LaterOrHere(t: Table, u: Bytes, s: nat, i: nat, m: nat, y: ByteEntry)
    requires TableOk(t) && i <= m < |t.blocks| && y in t.blocks[m] && y.key.user == u && t.filter.Filter?
    requires AtMost(LookupKey(Rank(u), s), KeyOf(t.index[i]))
    ensures KeyMayMatch(t.filter.policy, t.filter.contents, t.offsets[i], u)
  {
    if m > i {
      LaterBlocks(t, u, s, i, m, y);
      var last := t.blocks[i][|t.blocks[i]| - 1];
      assert AllBefore(t.blocks[i], t.blocks[m]);
      RankOrders(last.key.user, u);
    }
  }

  /** Everything at or after the lookup key is at or after the entry found. */
  lemma NothingBetween(blocks: seq<seq<ByteEntry>>, k: InternalKey, i: nat, j: nat, m: nat, y: ByteEntry)
    requires BlocksOk(blocks) && i < |blocks| && j < |blocks[i]| && m < |blocks| && y in blocks[m]
    requires forall n, e :: 0 <= n < i && e in blocks[n] ==> Before(KeyOf(e.key), k)
    requires forall n :: 0 <= n < j ==> Before(KeyOf(blocks[i][n].key), k)
    requires AtMost(k, KeyOf(y.key))
    ensures AtMost(KeyOf(blocks[i][j].key), KeyOf(y.key))
  {
    assert blocks[i][j] in blocks[i];
    if m == i {
      var n :| 0 <= n < |blocks[i]| && blocks[i][n] == y;
      assert SortedBlock(blocks[i]);
    } else if m > i {
      assert AllBefore(blocks[i], blocks[m]);
    }
  }

  lemma FoundInBlock(blocks: seq<seq<ByteEntry>>, u: Bytes, s: nat, i: nat, j: nat)
    requires BlocksOk(blocks) && i < |blocks| && j < |blocks[i]|
    requires forall n, e :: 0 <= n < i && e in blocks[n] ==> Before(KeyOf(e.key), LookupKey(Rank(u), s))
    requires forall n :: 0 <= n < j ==> Before(KeyOf(blocks[i][n].key), LookupKey(Rank(u), s))
    requires AtMost(LookupKey(Rank(u), s), KeyOf(blocks[i][j].key))
    ensures Reads(Contents(blocks), Rank(u), s, if blocks[i][j].key.user == u then Some(EntryOf(blocks[i][j])) else None)
  {
    var e := blocks[i][j];
    forall m, y | 0 <= m < |blocks| && y in blocks[m] && Visible(EntryOf(y), Rank(u), s) ensures AtMost(KeyOf(e.key), KeyOf(y.key)) {
      NothingBetween(blocks, LookupKey(Rank(u), s), i, j, m, y);
    }
    assert e in blocks[i];
    assert EntryOf(e) in Contents(blocks);
    RankOrders(e.key.user, u);
    SeekIsNewest(Contents(blocks), Rank(u), s, EntryOf(e));
  }

  lemma SeekIsNewest(h: set<Entry>, u: UserKey, s: nat, e: Entry)
    requires e in h && AtMost(LookupKey(u, s), e.key) && forall x :: x in h && Visible(x, u, s) ==> AtMost(e.key, x.key)
    ensures Reads(h, u, s, if e.key.user == u then Some(e) else None)
  {
  }

  // ---------------------------------------------------------------- building

  /** The user key is in the filter group of the block offset, which may still be open. */
  ghost predicate InGroup(groups: seq<seq<Bytes>>, pending: seq<Bytes>, offset: nat, user: Bytes) {
    var g := offset / 2048;
    if g < |groups| then user in groups[g] else g == |groups| && user in pending
  }

  ghost predicate BlockInGroup(groups: seq<seq<Bytes>>, pending: seq<Bytes>, offset: nat, es: seq<ByteEntry>) {
    forall e :: e in es ==> InGroup(groups, pending, offset, e.key.user)
  }

  /** Everything added so far, in order. */
  function Flat(blocks: seq<seq<ByteEntry>>): seq<ByteEntry> {
    if blocks == [] then [] else Flat(blocks[..|blocks| - 1]) + blocks[|blocks| - 1]
  }

  lemma FlatAppend(blocks: seq<seq<ByteEntry>>, es: seq<ByteEntry>)
    ensures Flat(blocks + [es]) == Flat(blocks) + es
  {
    assert (blocks + [es])[..|blocks|] == blocks;
  }

  /** The part of a table written so far: whole blocks, an open block, and an index that lags by at most one block. */
  ghost predicate Growing(blocks: seq<seq<ByteEntry>>, open: seq<ByteEntry>, index: seq<ByteKey>, pending: bool, last: ByteKey) {
    match pending
    case true =>
      && BlocksOk(blocks) && IndexOk(blocks, index) && |index| + 1 == |blocks|
      && open == [] && last == blocks[|blocks| - 1][|blocks[|blocks| - 1]| - 1].key
    case false =>
      && BlocksOk(blocks) && IndexOk(blocks, index) && |index| == |blocks|
      && SortedBlock(open) && (forall i :: 0 <= i < |blocks| ==> AllBefore(blocks[i], open))
      && (forall i :: 0 <= i < |index| ==> Splits(blocks[i], index[i], open))
      && if open == [] then blocks == [] else last == open[|open| - 1].key
  }

  ghost predicate Follows(blocks: seq<seq<ByteEntry>>, open: seq<ByteEntry>, last: ByteKey, key: ByteKey) {
    (blocks != [] || open != []) ==> Before(KeyOf(last), KeyOf(key))
  }

  /** The last key bounds everything before it. */
  lemma LastIsLargest(blocks: seq<seq<ByteEntry>>, open: seq<ByteEntry>, index: seq<ByteKey>, pending: bool, last: ByteKey, key: ByteKey)
    requires Growing(blocks, open, index, pending, last) && Follows(blocks, open, last, key)
    ensures forall e :: e in open ==> Before(KeyOf(e.key), KeyOf(key))
    ensures forall i, e :: 0 <= i < |blocks| && e in blocks[i] ==> Before(KeyOf(e.key), KeyOf(key))
  {
    if open != [] {
      assert open[|open| - 1] in open;
      forall e | e in open ensures AtMost(KeyOf(e.key), KeyOf(last)) {
        var n :| 0 <= n < |open| && open[n] == e;
      }
      forall i, e | 0 <= i < |blocks| && e in blocks[i] ensures Before(KeyOf(e.key), KeyOf(last)) {
        assert AllBefore(blocks[i], open);
      }
    } else if blocks != [] {
      var z := |blocks| - 1;
      assert blocks[z] != [] && SortedBlock(blocks[z]) && blocks[z][|blocks[z]| - 1] in blocks[z];
      forall i, e | 0 <= i < |blocks| && e in blocks[i] ensures AtMost(KeyOf(e.key), KeyOf(last)) {
        if i == z {
          var n :| 0 <= n < |blocks[z]| && blocks[z][n] == e;
        } else {
          assert AllBefore(blocks[i], blocks[z]);
        }
      }
    }
  }

  /** With the first key of the next block known, the pending index entry can be written. */
  lemma IndexCatchesUp(blocks: seq<seq<ByteEntry>>, index: seq<ByteKey>, last: ByteKey, sep: ByteKey, key: ByteKey)
    requires Growing(blocks, [], index, true, last) && Separates(last, sep, key) && Before(KeyOf(last), KeyOf(key))
    ensures IndexOk(blocks, index + [sep]) && |index| + 1 == |blocks|
    ensures forall e: ByteEntry :: e.key == key ==> Splits(blocks[|index|], sep, [e])
  {
    LastIsLargest(blocks, [], index, true, last, key);
    var z := |blocks| - 1;
    SeparatorsSplit(last, sep, key);
    forall e | e in blocks[z] ensures AtMost(KeyOf(e.key), KeyOf(sep)) {
      var n :| 0 <= n < |blocks[z]| && blocks[z][n] == e;
      assert SortedBlock(blocks[z]);
    }
  }

  /** Adding an entry to the open block. */
  lemma EntryGrows(blocks: seq<seq<ByteEntry>>, open: seq<ByteEntry>, index: seq<ByteKey>, last: ByteKey, e: ByteEntry)
    requires BlocksOk(blocks) && IndexOk(blocks, index) && |index| == |blocks| && SortedBlock(open)
    requires (forall i :: 0 <= i < |blocks| ==> AllBefore(blocks[i], open)) && (forall i :: 0 <= i < |index| ==> Splits(blocks[i], index[i], open))
    requires forall x :: x in open ==> Before(KeyOf(x.key), KeyOf(e.key))
    requires forall i, x :: 0 <= i < |blocks| && x in blocks[i] ==> Before(KeyOf(x.key), KeyOf(e.key))
    requires forall i :: 0 <= i < |index| ==> Splits(blocks[i], index[i], [e])
    ensures Growing(blocks, open + [e], index, false, e.key)
  {
    forall i | 0 <= i < |index| ensures Splits(blocks[i], index[i], open + [e]) {
      assert Splits(blocks[i], index[i], open) && Splits(blocks[i], index[i], [e]) && e in [e];
    }
  }

  /** Closing the open block. */
  lemma BlockCloses(blocks: seq<seq<ByteEntry>>, open: seq<ByteEntry>, index: seq<ByteKey>, last: ByteKey)
    requires Growing(blocks, open, index, false, last) && open != []
    ensures Growing(blocks + [open], [], index, true, last)
  {
    ClosedBlocks(blocks, open);
    ClosedIndex(blocks, open, index);
  }

  lemma ClosedBlocks(blocks: seq<seq<ByteEntry>>, open: seq<ByteEntry>)
    requires BlocksOk(blocks) && SortedBlock(open) && open != [] && forall i :: 0 <= i < |blocks| ==> AllBefore(blocks[i], open)
    ensures BlocksOk(blocks + [open])
  {
  }

  lemma ClosedIndex(blocks: seq<seq<ByteEntry>>, open: seq<ByteEntry>, index: seq<ByteKey>)
    requires IndexOk(blocks, index) && open != [] && forall i :: 0 <= i < |index| ==> Splits(blocks[i], index[i], open)
    ensures IndexOk(blocks + [open], index)
  {
    var all := blocks + [open];
    forall i, j | 0 <= i < |index| && i < j < |all| ensures Splits(all[i], index[i], all[j]) {
      assert j < |blocks| ==> Splits(blocks[i], index[i], blocks[j]);
    }
  }

  /** Every user key is in the filter group of its block's offset, the open block's in the current group. */
  ghost predicate KeysFiled(groups: seq<seq<Bytes>>, pending: seq<Bytes>, blocks: seq<seq<ByteEntry>>, offsets: seq<nat>, offset: nat,
                        open: seq<ByteEntry>)
  {
    && |groups| == offset / 2048 && |offsets| == |blocks|
    && (forall i :: 0 <= i < |blocks| ==> BlockInGroup(groups, pending, offsets[i], blocks[i]))
    && BlockInGroup(groups, pending, offset, open)
  }

  lemma KeyIsFiled(groups: seq<seq<Bytes>>, pending: seq<Bytes>, blocks: seq<seq<ByteEntry>>, offsets: seq<nat>, offset: nat,
                  open: seq<ByteEntry>, e: ByteEntry)
    requires KeysFiled(groups, pending, blocks, offsets, offset, open)
    ensures KeysFiled(groups, pending + [e.key.user], blocks, offsets, offset, open + [e])
  {
    forall i | 0 <= i < |blocks| ensures BlockInGroup(groups, pending + [e.key.user], offsets[i], blocks[i]) {
      assert BlockInGroup(groups, pending, offsets[i], blocks[i]);
    }
  }

  lemma BlockIsFiled(groups: seq<seq<Bytes>>, pending: seq<Bytes>, blocks: seq<seq<ByteEntry>>, offsets: seq<nat>, offset: nat,
                    open: seq<ByteEntry>, groups': seq<seq<Bytes>>, pending': seq<Bytes>, offset': nat)
    requires KeysFiled(groups, pending, blocks, offsets, offset, open) && groups <= groups' && |groups'| == offset' / 2048
    requires if |groups'| == |groups| then pending' == pending else groups'[|groups|] == pending
    ensures KeysFiled(groups', pending', blocks + [open], offsets + [offset], offset', [])
  {
    forall i | 0 <= i < |blocks| ensures BlockInGroup(groups', pending', offsets[i], blocks[i]) {
      assert BlockInGroup(groups, pending, offsets[i], blocks[i]);
    }
  }

  lemma KeysMatch(policy: Policy, groups: seq<seq<Bytes>>, pending: seq<Bytes>, blocks: seq<seq<ByteEntry>>, offsets: seq<nat>,
                     offset: nat, groups': seq<seq<Bytes>>)
    requires Sound(policy) && KeysFiled(groups, pending, blocks, offsets, offset, [])
    requires groups' == groups + (if pending == [] then [] else [pending]) && |Data(policy, groups')| < TWO32
    ensures FilterOk(blocks, offsets, Filter(policy, Block(policy, groups')))
  {
    forall i, e | 0 <= i < |blocks| && e in blocks[i] ensures KeyMayMatch(policy, Block(policy, groups'), offsets[i], e.key.user) {
      assert BlockInGroup(groups, pending, offsets[i], blocks[i]);
      ReaderAsksGroup(policy, groups', offsets[i], e.key.user);
    }
  }

  /** Builds a table entry by entry. `size` gives the written size of a block, `full` says when to cut one. */
  class TableBuilder {
    const size: seq<ByteEntry> -> nat
    const full: seq<ByteEntry> -> bool
    const filter: FilterBlockBuilder?
    var offset: nat
    var open: seq<ByteEntry>
    var blocks: seq<seq<ByteEntry>>
    var offsets: seq<nat>
    var index: seq<ByteKey>
    var lastKey: ByteKey
    var pendingIndex: bool

    constructor (size: seq<ByteEntry> -> nat, full: seq<ByteEntry> -> bool, policy: Option<Policy>)
      ensures Valid() && Added() == [] && (filter != null ==> fresh(filter) && Some(filter.policy) == policy)
      ensures this.size == size && this.full == full && (filter == null <==> policy == None) && blocks == [] && open == []
    {
      this.size, this.full := size, full;
      var f: FilterBlockBuilder? := null;
      if policy.Some? {
        f := new FilterBlockBuilder(policy.value);
      }
      filter := f;
      offset, open, blocks, offsets, index := 0, [], [], [], [];
      lastKey, pendingIndex := ByteKey([], 0, Value), false;
    }

    ghost predicate FilterValid()
      reads this, filter
    {
      match filter == null
      case true => true
      case false => filter.Valid() && KeysFiled(filter.groups, filter.Pending(), blocks, offsets, offset, open)
    }

    ghost predicate Valid()
      reads this, filter
    {
      Growing(blocks, open, index, pendingIndex, lastKey) && |offsets| == |blocks| && FilterValid()
    }

    ghost function Added(): seq<ByteEntry>
      reads this
    {
      Flat(blocks) + open
    }

    /** Add an entry after all earlier ones; a pending index entry is written first, now that the next key is known. */
    method Add(e: ByteEntry)
      requires Valid() && Follows(blocks, open, lastKey, e.key)
      modifies this, filter
      ensures Valid() && Added() == old(Added()) + [e] && lastKey == e.key && (blocks != [] || open != [])
    {
      AddToFilter(e);
      AddToBlock(e);
      if full(open) {
        Flush();
      }
    }

    method AddToFilter(e: ByteEntry)
      requires FilterValid()
      modifies filter
      ensures filter != null ==> filter.Valid() && KeysFiled(filter.groups, filter.Pending(), blocks, offsets, offset, open + [e])
    {
      if filter != null {
        KeyIsFiled(filter.groups, filter.Pending(), blocks, offsets, offset, open, e);
        filter.AddKey(e.key.user);
      }
    }

    method AddToBlock(e: ByteEntry)
      requires Growing(blocks, open, index, pendingIndex, lastKey) && Follows(blocks, open, lastKey, e.key)
      modifies this`index, this`pendingIndex, this`lastKey, this`open
      ensures Growing(blocks, open, index, pendingIndex, lastKey) && open == old(open) + [e] && lastKey == e.key
    {
      LastIsLargest(blocks, open, index, pendingIndex, lastKey, e.key);
      WriteIndexEntry(e);
      EntryGrows(blocks, open, index, lastKey, e);
      lastKey := e.key;
      open := open + [e];
    }

    /** The index entry of the last block, once the first key of the next one is known. */
    method WriteIndexEntry(e: ByteEntry)
      requires Growing(blocks, open, index, pendingIndex, lastKey) && Follows(blocks, open, lastKey, e.key)
      modifies this`index, this`pendingIndex, this`lastKey
      ensures !pendingIndex && |index| == |blocks| && IndexOk(blocks, index)
      ensures forall i :: 0 <= i < |index| ==> Splits(blocks[i], index[i], open) && Splits(blocks[i], index[i], [e])
    {
      if pendingIndex {
        IndexLater(blocks, index, lastKey, e);
        var sep := InternalSeparator(lastKey, e.key);
        IndexCatchesUp(blocks, index, lastKey, sep, e.key);
        lastKey := sep;
        index := index + [sep];
        pendingIndex := false;
      } else {
        IndexStays(blocks, open, index, lastKey, e);
      }
    }

    /** Write the open block and note where it went. */
    method Flush()
      requires Valid()
      modifies this, filter
      ensures Valid() && Added() == old(Added()) && open == [] && lastKey == old(lastKey)
      ensures old(blocks) != [] || old(open) != [] ==> blocks != []
    {
      if open == [] {
        return;
      }
      var next := offset + size(open) + 5;
      CloseInFilter(next);
      CloseBlock(next);
    }

    method CloseBlock(next: nat)
      requires Growing(blocks, open, index, pendingIndex, lastKey) && open != []
      modifies this`blocks, this`offsets, this`open, this`offset, this`pendingIndex
      ensures Growing(blocks, open, index, pendingIndex, lastKey) && Added() == old(Added())
      ensures blocks == old(blocks) + [old(open)] && offsets == old(offsets) + [old(offset)] && open == [] && offset == next
    {
      BlockCloses(blocks, open, index, lastKey);
      FlatAppend(blocks, open);
      blocks, offsets, open, offset, pendingIndex := blocks + [open], offsets + [offset], [], next, true;
    }

    method CloseInFilter(next: nat)
      requires FilterValid() && offset <= next
      modifies filter
      ensures filter != null ==> filter.Valid() && KeysFiled(filter.groups, filter.Pending(), blocks + [open], offsets + [offset], next, [])
    {
      if filter != null {
        ghost var groups, pending := filter.groups, filter.Pending();
        filter.StartBlock(next);
        BlockIsFiled(groups, pending, blocks, offsets, offset, open, filter.groups, filter.Pending(), next);
      }
    }

    /** Write what is left, the filter, and the last index entry. */
    method Finish() returns (t: Table)
      requires Valid() && (filter != null ==> Sound(filter.policy))
      modifies this, filter
      ensures Flat(t.blocks) == old(Added()) && t.filter.NoFilter? == (filter == null)
      ensures filter == null || |Data(filter.policy, filter.groups)| < TWO32 ==> TableOk(t)
    {
      Flush();
      var f := NoFilter;
      if filter != null {
        ghost var groups, pending := filter.groups, filter.Pending();
        var contents := filter.Finish();
        f := Filter(filter.policy, contents);
        if |Data(filter.policy, filter.groups)| < TWO32 {
          KeysMatch(filter.policy, groups, pending, blocks, offsets, offset, filter.groups);
        }
      }
      if pendingIndex {
        var succ := InternalSuccessor(lastKey);
        LastIndexEntry(blocks, index, lastKey, succ);
        index := index + [succ];
        pendingIndex := false;
      }
      t := Table(blocks, offsets, index, f);
    }
  }

  lemma IndexLater(blocks: seq<seq<ByteEntry>>, index: seq<ByteKey>, last: ByteKey, e: ByteEntry)
    requires Growing(blocks, [], index, true, last) && Follows(blocks, [], last, e.key)
    ensures forall i :: 0 <= i < |index| ==> Splits(blocks[i], index[i], [e])
  {
    var z := |blocks| - 1;
    var top := blocks[z][|blocks[z]| - 1];
    assert top in blocks[z];
    forall i | 0 <= i < |index| ensures Splits(blocks[i], index[i], [e]) {
      assert Splits(blocks[i], index[i], blocks[z]);
    }
  }

  lemma IndexStays(blocks: seq<seq<ByteEntry>>, open: seq<ByteEntry>, index: seq<ByteKey>, last: ByteKey, e: ByteEntry)
    requires Growing(blocks, open, index, false, last) && Follows(blocks, open, last, e.key)
    ensures forall i :: 0 <= i < |index| ==> Splits(blocks[i], index[i], [e])
  {
    if open != [] {
      assert open[|open| - 1] in open;
      forall i | 0 <= i < |index| ensures Splits(blocks[i], index[i], [e]) {
        assert Splits(blocks[i], index[i], open);
      }
    }
  }

  lemma LastIndexEntry(blocks: seq<seq<ByteEntry>>, index: seq<ByteKey>, last: ByteKey, succ: ByteKey)
    requires Growing(blocks, [], index, true, last) && (succ == last || Rank(last.user) < Rank(succ.user))
    ensures IndexOk(blocks, index + [succ]) && |index| + 1 == |blocks|
  {
    var z := |blocks| - 1;
    forall e | e in blocks[z] ensures AtMost(KeyOf(e.key), KeyOf(succ)) {
      var n :| 0 <= n < |blocks[z]| && blocks[z][n] == e;
      assert SortedBlock(blocks[z]);
    }
  }

  lemma {:induction false} FlatContents(blocks: seq<seq<ByteEntry>>)
    ensures forall e :: e in Flat(blocks) <==> exists i :: 0 <= i < |blocks| && e in blocks[i]
  {
    if blocks != [] {
      FlatContents(blocks[..|blocks| - 1]);
    }
  }

  function AllEntries(es: seq<ByteEntry>): set<Entry> {
    set e | e in es :: EntryOf(e)
  }

  lemma SameContents(blocks: seq<seq<ByteEntry>>)
    ensures Contents(blocks) == AllEntries(Flat(blocks))
  {
    FlatContents(blocks);
  }

  /** Build a table from a strictly increasing list of entries. */
  method BuildTable(entries: seq<ByteEntry>, size: seq<ByteEntry> -> nat, full: seq<ByteEntry> -> bool, policy: Option<Policy>)
    returns (t: Table, ghost groups: seq<seq<Bytes>>)
    requires SortedBlock(entries) && (policy.Some? ==> Sound(policy.value))
    ensures Flat(t.blocks) == entries
    ensures policy.None? || |Data(policy.value, groups)| < TWO32 ==> TableOk(t)
  {
    var builder := new TableBuilder(size, full, policy);
    AddAll(builder, entries);
    t := builder.Finish();
    groups := if builder.filter != null then builder.filter.groups else [];
  }

  method AddAll(builder: TableBuilder, entries: seq<ByteEntry>)
    requires builder.Valid() && SortedBlock(entries) && builder.blocks == [] && builder.open == []
    modifies builder, builder.filter
    ensures builder.Valid() && builder.Added() == entries
  {
    for i := 0 to |entries|
      invariant builder.Valid() && builder.Added() == entries[..i]
      invariant if i == 0 then builder.blocks == [] && builder.open == [] else builder.lastKey == entries[i - 1].key
    {
      assert entries[..i + 1] == entries[..i] + [entries[i]];
      builder.Add(entries[i]);
    }
    assert entries[..|entries|] == entries;
  }

  /** Index seek, filter check, block seek: the entry handed to the caller, if any. Its user key is the one looked for exactly
      if the table's list of entries has a visible one, and it is then the newest; this holds with the filter on or off and
      however the list was cut into blocks. */
  method InternalGet(t: Table, u: Bytes, s: nat) returns (r: Option<ByteEntry>)
    requires TableOk(t)
    ensures Reads(AllEntries(Flat(t.blocks)), Rank(u), s, if r.Some? && r.value.key.user == u then Some(EntryOf(r.value)) else None)
  {
    var k := LookupKey(Rank(u), s);
    SameContents(t.blocks);
    var i := SeekIndexBlock(t.index, k);
    if i == |t.index| {
      PastTheIndex(t.blocks, t.index, i, k);
      NothingBefore(t.blocks, u, s, i);
      return None;
    }
    PastTheIndex(t.blocks, t.index, i, k);
    if t.filter.Filter? && !KeyMayMatch(t.filter.policy, t.filter.contents, t.offsets[i], u) {
      FilteredOut(t, u, s, i);
      return None;
    }
    var j := SeekBlock(t.blocks[i], k);
    if j == |t.blocks[i]| {
      NotInBlock(t, u, s, i);
      return None;
    }
    r := Some(t.blocks[i][j]);
    FoundInBlock(t.blocks, u, s, i, j);
  }
}
