/** The filter block of a table (table/filter_block.cc): one filter for the keys of every 2 KiB of block offsets. */
module FilterBlocks {
  import opened InternalKeys
  import opened Framing
  import opened LogFormat
  import Bloom

  const BASE_LG: nat := 11

  /** A filter policy: how to summarise keys, and how to ask a summary about a key. */
  datatype Policy = Policy(create: seq<Bytes> -> Bytes, mayMatch: (Bytes, Bytes) -> bool)

  ghost predicate Sound(policy: Policy) {
    forall keys, key :: key in keys ==> policy.mayMatch(key, policy.create(keys))
  }

  function BloomPolicy(hash: Bloom.Hash, bitsPerKey: nat): Policy {
    Policy((keys: seq<Bytes>) => Bloom.Filter(hash, bitsPerKey, keys), (key: Bytes, filter: Bytes) => Bloom.Matches(hash, key, filter))
  }

  lemma BloomIsSound(hash: Bloom.Hash, bitsPerKey: nat)
    ensures Sound(BloomPolicy(hash, bitsPerKey))
  {
    forall keys: seq<Bytes>, key | key in keys
      ensures BloomPolicy(hash, bitsPerKey).mayMatch(key, BloomPolicy(hash, bitsPerKey).create(keys))
    {
      Bloom.NoFalseNegatives(hash, bitsPerKey, keys, key);
    }
  }

  // ---------------------------------------------------------------- layout

  function FilterOf(policy: Policy, keys: seq<Bytes>): Bytes {
    if keys == [] then [] else policy.create(keys)
  }

  /** The filters of all groups, one after the other. */
  function Data(policy: Policy, groups: seq<seq<Bytes>>): Bytes {
    if groups == [] then [] else Data(policy, groups[..|groups| - 1]) + FilterOf(policy, groups[|groups| - 1])
  }

  function Starts(policy: Policy, groups: seq<seq<Bytes>>): (r: seq<nat>)
    ensures |r| == |groups| && forall i :: 0 <= i < |r| ==> r[i] == |Data(policy, groups[..i])|
  {
    seq(|groups|, i requires 0 <= i < |groups| => |Data(policy, groups[..i])|)
  }

  function Words(ns: seq<nat>): (b: Bytes)
    ensures |b| == 4 * |ns|
  {
    if ns == [] then [] else Words(ns[..|ns| - 1]) + EncodeFixed(ns[|ns| - 1], 4)
  }

  lemma {:induction false} WordAt(ns: seq<nat>, i: nat)
    requires i < |ns|
    ensures Words(ns)[4 * i..4 * i + 4] == EncodeFixed(ns[i], 4)
  {
    var n := |ns| - 1;
    if i < n {
      WordAt(ns[..n], i);
      assert Words(ns)[4 * i..4 * i + 4] == Words(ns[..n])[4 * i..4 * i + 4];
    }
  }

  /** The finished block: filters, their offsets, the offset of the offsets, and the encoding parameter. */
  function Block(policy: Policy, groups: seq<seq<Bytes>>): Bytes {
    var data := Data(policy, groups);
    data + Words(Starts(policy, groups) + [|data|]) + [BASE_LG as byte]
  }

  // ---------------------------------------------------------------- reading

  function WordIn(b: Bytes, p: nat): nat
    requires p + 4 <= |b|
  {
    DecodeFixed(b[p..p + 4])
  }

  function ShiftRight(x: nat, n: nat): nat {
    if n == 0 then x else ShiftRight(x / 2, n - 1)
  }

  /** Ask the filter with number `index`, given where the offset array starts. */
  predicate AskFilter(policy: Policy, contents: Bytes, last: nat, index: nat, key: Bytes)
    requires last + 4 * index + 8 <= |contents|
  {
    var start := WordIn(contents, last + 4 * index);
    var limit := WordIn(contents, last + 4 * index + 4);
    if start <= limit <= last then policy.mayMatch(key, contents[start..limit]) else start != limit
  }

  /** FilterBlockReader: anything malformed counts as a possible match. */
  predicate KeyMayMatch(policy: Policy, contents: Bytes, offset: nat, key: Bytes) {
    var n := |contents|;
    n >= 5 ==>
      var last := WordIn(contents, n - 5);
      last <= n - 5 ==>
        var num := (n - 5 - last) / 4;
        var index := ShiftRight(offset, contents[n - 1] as nat);
        index < num ==> AskFilter(policy, contents, last, index, key)
  }

  lemma DataPrefix(policy: Policy, groups: seq<seq<Bytes>>, i: nat)
    requires i <= |groups|
    ensures Data(policy, groups[..i]) <= Data(policy, groups)
    decreases |groups| - i
  {
    if i < |groups| {
      DataPrefix(policy, groups, i + 1);
      assert groups[..i + 1][..i] == groups[..i];
    } else {
      assert groups[..i] == groups;
    }
  }

  /** Group `i`'s filter lies between its start and the next one. */
  lemma FilterSlice(policy: Policy, groups: seq<seq<Bytes>>, i: nat)
    requires i < |groups|
    ensures var data := Data(policy, groups);
            var start, limit := |Data(policy, groups[..i])|, |Data(policy, groups[..i + 1])|;
            start <= limit <= |data| && data[start..limit] == FilterOf(policy, groups[i])
  {
    assert groups[..i + 1][..i] == groups[..i];
    DataPrefix(policy, groups, i + 1);
    var upTo := Data(policy, groups[..i + 1]);
    assert Data(policy, groups)[..|upTo|] == upTo;
  }

  lemma WordInMiddle(a: Bytes, w: Bytes, z: Bytes, b: Bytes, p: nat, n: nat)
    requires b == a + w + z && p + 4 <= |w| && WordIn(w, p) == n
    ensures |a| + p + 4 <= |b| && WordIn(b, |a| + p) == n
  {
    assert b[|a| + p..|a| + p + 4] == w[p..p + 4];
  }

  lemma WordsWord(ns: seq<nat>, i: nat)
    requires i < |ns| && ns[i] < TWO32
    ensures WordIn(Words(ns), 4 * i) == ns[i]
  {
    WordAt(ns, i);
    FixedRanges();
    DecodeEncodeFixed(ns[i], 4);
  }

  lemma FirstPart(a: Bytes, w: Bytes, z: Bytes, i: nat, j: nat)
    requires i <= j <= |a|
    ensures (a + w + z)[i..j] == a[i..j]
  {
    var all := a + w + z;
    assert forall k :: i <= k < j ==> all[k] == a[k];
  }

  lemma BaseIs2048(x: nat)
    ensures ShiftRight(x, BASE_LG) == x / 2048
  {
    var x2 := x / 4;
    TwoShifts(x, 9);
    var x4 := x2 / 4;
    TwoShifts(x2, 7);
    assert x4 == x / 16;
    var x6 := x4 / 4;
    TwoShifts(x4, 5);
    assert x6 == x / 64;
    var x8 := x6 / 4;
    TwoShifts(x6, 3);
    assert x8 == x / 256;
    var x10 := x8 / 4;
    TwoShifts(x8, 1);
    assert x10 == x / 1024;
    assert ShiftRight(x10, 1) == ShiftRight(x10 / 2, 0) == x10 / 2;
  }

  lemma TwoShifts(x: nat, n: nat)
    ensures ShiftRight(x, n + 2) == ShiftRight(x / 4, n)
  {
    assert ShiftRight(x, n + 2) == ShiftRight(x / 2, n + 1) == ShiftRight(x / 2 / 2, n);
  }

  ghost predicate WordIs(b: Bytes, last: nat, i: nat, n: nat) {
    last + 4 * i + 4 <= |b| && WordIn(b, last + 4 * i) == n
  }

  ghost predicate PartIs(b: Bytes, i: nat, j: nat, last: nat, part: Bytes) {
    i <= j <= last <= |b| && b[i..j] == part
  }

  /** What a reader finds in a block: the offset array after the filters, and the filters it delimits. */
  ghost predicate Laid(b: Bytes, starts: seq<nat>, filters: seq<Bytes>) {
    && |starts| == |filters| + 1
    && var last := starts[|filters|];
       && |b| == last + 4 * |filters| + 5 && b[|b| - 1] == BASE_LG as byte
       && (forall i :: 0 <= i < |starts| ==> WordIs(b, last, i, starts[i]))
       && (forall i :: 0 <= i < |filters| ==> PartIs(b, starts[i], starts[i + 1], last, filters[i]))
  }

  lemma AsksFilter(policy: Policy, b: Bytes, starts: seq<nat>, filters: seq<Bytes>, i: nat, key: Bytes)
    requires Laid(b, starts, filters) && i < |filters|
    ensures var last := starts[|filters|];
            last + 4 * i + 8 <= |b| && AskFilter(policy, b, last, i, key) == policy.mayMatch(key, filters[i])
  {
    var last := starts[|filters|];
    assert WordIs(b, last, i, starts[i]) && WordIs(b, last, i + 1, starts[i + 1]);
    assert PartIs(b, starts[i], starts[i + 1], last, filters[i]);
  }

  lemma ReadsLaid(policy: Policy, b: Bytes, starts: seq<nat>, filters: seq<Bytes>, offset: nat, key: Bytes)
    requires Laid(b, starts, filters)
    ensures KeyMayMatch(policy, b, offset, key) <==> (offset / 2048 < |filters| ==> policy.mayMatch(key, filters[offset / 2048]))
  {
    assert WordIs(b, starts[|filters|], |filters|, starts[|filters|]);
    BaseIs2048(offset);
    if offset / 2048 < |filters| {
      AsksFilter(policy, b, starts, filters, offset / 2048, key);
    }
  }

  function Filters(policy: Policy, groups: seq<seq<Bytes>>): (r: seq<Bytes>)
    ensures |r| == |groups| && forall i :: 0 <= i < |r| ==> r[i] == FilterOf(policy, groups[i])
  {
    seq(|groups|, i requires 0 <= i < |groups| => FilterOf(policy, groups[i]))
  }

  lemma BlockWords(data: Bytes, w: Bytes, b: Bytes, i: nat, n: nat)
    requires b == data + w + [BASE_LG as byte] && 4 * i + 4 <= |w| && WordIn(w, 4 * i) == n
    ensures WordIs(b, |data|, i, n)
  {
    WordInMiddle(data, w, [BASE_LG as byte], b, 4 * i, n);
  }

  lemma BlockParts(data: Bytes, w: Bytes, b: Bytes, i: nat, j: nat, part: Bytes)
    requires b == data + w + [BASE_LG as byte] && i <= j <= |data| && data[i..j] == part
    ensures PartIs(b, i, j, |data|, part)
  {
    FirstPart(data, w, [BASE_LG as byte], i, j);
  }

  lemma BlockIsLaid(policy: Policy, groups: seq<seq<Bytes>>, data: Bytes, ns: seq<nat>, b: Bytes)
    requires data == Data(policy, groups) && |data| < TWO32 && ns == Starts(policy, groups) + [|data|]
    requires b == data + Words(ns) + [BASE_LG as byte]
    ensures Laid(b, ns, Filters(policy, groups))
  {
    var m := |groups|;
    forall i | 0 <= i <= m ensures ns[i] == |Data(policy, groups[..i])| <= |data| {
      DataPrefix(policy, groups, i);
      assert groups[..m] == groups;
    }
    forall i | 0 <= i < |ns| ensures WordIs(b, |data|, i, ns[i]) {
      WordsWord(ns, i);
      BlockWords(data, Words(ns), b, i, ns[i]);
    }
    forall i | 0 <= i < m ensures PartIs(b, ns[i], ns[i + 1], |data|, Filters(policy, groups)[i]) {
      FilterSlice(policy, groups, i);
      BlockParts(data, Words(ns), b, ns[i], ns[i + 1], FilterOf(policy, groups[i]));
    }
  }

  /** The reader asks the filter of the group that the block offset falls in. */
  lemma ReaderAsksGroup(policy: Policy, groups: seq<seq<Bytes>>, offset: nat, key: Bytes)
    requires |Data(policy, groups)| < TWO32
    ensures KeyMayMatch(policy, Block(policy, groups), offset, key)
            <==> (offset / 2048 < |groups| ==> policy.mayMatch(key, FilterOf(policy, groups[offset / 2048])))
  {
    var data := Data(policy, groups);
    var ns := Starts(policy, groups) + [|data|];
    BlockIsLaid(policy, groups, data, ns, Block(policy, groups));
    ReadsLaid(policy, Block(policy, groups), ns, Filters(policy, groups), offset, key);
  }

  // ---------------------------------------------------------------- building

  /** The builder: keys of the current filter are kept in one string with the positions at which they start. */
  class FilterBlockBuilder {
    const policy: Policy
    var keys: Bytes
    var start: seq<nat>
    var result: Bytes
    var offsets: seq<nat>
    ghost var groups: seq<seq<Bytes>>

    constructor (policy: Policy)
      ensures Valid() && this.policy == policy && groups == [] && Pending() == []
    {
      this.policy := policy;
      keys, start, result, offsets, groups := [], [], [], [], [];
    }

    ghost predicate Valid()
      reads this
    {
      && (forall i :: 0 <= i < |start| ==> start[i] <= |keys|)
      && (forall i, j :: 0 <= i < j < |start| ==> start[i] <= start[j])
      && result == Data(policy, groups) && offsets == Starts(policy, groups)
    }

    function KeyAt(i: nat): Bytes
      requires i < |start| && (forall k :: 0 <= k < |start| ==> start[k] <= |keys|)
      requires forall k, j :: 0 <= k < j < |start| ==> start[k] <= start[j]
      reads this
    {
      keys[start[i]..if i + 1 < |start| then start[i + 1] else |keys|]
    }

    /** The keys added since the last filter was made. */
    ghost function Pending(): (ks: seq<Bytes>)
      requires Valid()
      reads this
      ensures |ks| == |start|
    {
      seq(|start|, i requires 0 <= i < |start| && Valid() reads this => KeyAt(i))
    }

    method AddKey(key: Bytes)
      requires Valid()
      modifies this
      ensures Valid() && groups == old(groups) && Pending() == old(Pending()) + [key]
    {
      start := start + [|keys|];
      keys := keys + key;
      forall i | 0 <= i < |start| ensures Pending()[i] == (old(Pending()) + [key])[i] {
        if i + 1 < |start| {
          assert Pending()[i] == keys[start[i]..start[i + 1]] == old(keys)[start[i]..start[i + 1]];
        }
      }
    }

    method GenerateFilter()
      requires Valid()
      modifies this
      ensures Valid() && groups == old(groups) + [old(Pending())] && Pending() == []
    {
      ghost var pending := Pending();
      StartsAppend(policy, groups, pending);
      offsets := offsets + [|result|];
      groups := groups + [pending];
      if start == [] {
        return;
      }
      var n := |start|;
      var tmp: seq<Bytes> := [];
      for i := 0 to n
        invariant start == old(start) && keys == old(keys) && |tmp| == i && tmp == pending[..i]
      {
        var limit := if i + 1 < n then start[i + 1] else |keys|;
        tmp := tmp + [keys[start[i]..limit]];
      }
      assert tmp == pending;
      result := result + policy.create(tmp);
      keys, start := [], [];
    }

    /** Close filters until the one for this block offset is current. */
    method StartBlock(offset: nat)
      requires Valid() && |groups| <= offset / 2048
      modifies this
      ensures Valid() && |groups| == offset / 2048 && old(groups) <= groups
      ensures if offset / 2048 == old(|groups|) then groups == old(groups) && Pending() == old(Pending())
              else Pending() == [] && groups[old(|groups|)] == old(Pending())
    {
      var index := offset / 2048;
      while index > |offsets|
        invariant Valid() && |groups| <= index && old(groups) <= groups
        invariant if |groups| == old(|groups|) then groups == old(groups) && Pending() == old(Pending())
                  else Pending() == [] && groups[old(|groups|)] == old(Pending())
        decreases index - |offsets|
      {
        GenerateFilter();
      }
    }

    method Finish() returns (contents: Bytes)
      requires Valid()
      modifies this
      ensures Valid() && contents == Block(policy, groups)
      ensures groups == old(groups) + if old(Pending()) == [] then [] else [old(Pending())]
    {
      if start != [] {
        GenerateFilter();
      }
      contents := AppendWords(result, offsets + [|result|]);
      contents := contents + [BASE_LG as byte];
    }
  }

  /** PutFixed32 for every number. */
  method AppendWords(dst: Bytes, ns: seq<nat>) returns (out: Bytes)
    ensures out == dst + Words(ns)
  {
    out := dst;
    for i := 0 to |ns|
      invariant out == dst + Words(ns[..i])
    {
      assert ns[..i + 1][..i] == ns[..i];
      Assoc(dst, Words(ns[..i]), EncodeFixed(ns[i], 4));
      out := out + EncodeFixed(ns[i], 4);
    }
    assert ns[..|ns|] == ns;
  }

  lemma StartsAppend(policy: Policy, groups: seq<seq<Bytes>>, g: seq<Bytes>)
    ensures Starts(policy, groups + [g]) == Starts(policy, groups) + [|Data(policy, groups)|]
    ensures Data(policy, groups + [g]) == Data(policy, groups) + FilterOf(policy, g)
  {
    var all := groups + [g];
    assert all[..|groups|] == groups;
    assert forall i :: 0 <= i < |groups| ==> all[..i] == groups[..i];
  }

  // ---------------------------------------------------------------- whole runs of the builder

  datatype Call = Start(offset: nat) | Key(key: Bytes)

  /** The block offset that the `n`-th call belongs to: the last one started before it. */
  function OffsetAt(calls: seq<Call>, n: nat): nat
    requires n <= |calls|
  {
    if n == 0 then 0 else if calls[n - 1].Start? then calls[n - 1].offset else OffsetAt(calls, n - 1)
  }

  ghost predicate OffsetsGrow(calls: seq<Call>) {
    forall n :: 0 <= n < |calls| && calls[n].Start? ==> OffsetAt(calls, n) <= calls[n].offset
  }

  /** Key `i` of the calls is in the group of its block offset, which may still be open. */
  ghost predicate Filed(calls: seq<Call>, i: nat, groups: seq<seq<Bytes>>, pending: seq<Bytes>)
    requires i < |calls| && calls[i].Key?
  {
    var g := OffsetAt(calls, i) / 2048;
    if g < |groups| then calls[i].key in groups[g] else g == |groups| && calls[i].key in pending
  }

  ghost predicate AllFiled(calls: seq<Call>, n: nat, groups: seq<seq<Bytes>>, pending: seq<Bytes>) {
    n <= |calls| && forall i :: 0 <= i < n && calls[i].Key? ==> Filed(calls, i, groups, pending)
  }

  lemma FiledAfterStart(calls: seq<Call>, n: nat, groups: seq<seq<Bytes>>, pending: seq<Bytes>, groups': seq<seq<Bytes>>, pending': seq<Bytes>)
    requires n < |calls| && calls[n].Start? && AllFiled(calls, n, groups, pending) && groups <= groups'
    requires if groups' == groups then pending' == pending else |groups| < |groups'| && groups'[|groups|] == pending
    ensures AllFiled(calls, n + 1, groups', pending')
  {
  }

  lemma FiledAfterKey(calls: seq<Call>, n: nat, groups: seq<seq<Bytes>>, pending: seq<Bytes>, pending': seq<Bytes>)
    requires n < |calls| && calls[n].Key? && AllFiled(calls, n, groups, pending) && |groups| == OffsetAt(calls, n) / 2048
    requires pending' == pending + [calls[n].key]
    ensures AllFiled(calls, n + 1, groups, pending')
  {
  }

  lemma FiledMatches(policy: Policy, calls: seq<Call>, groups: seq<seq<Bytes>>, pending: seq<Bytes>, groups': seq<seq<Bytes>>)
    requires Sound(policy) && AllFiled(calls, |calls|, groups, pending) && groups' == groups + (if pending == [] then [] else [pending])
    requires |Data(policy, groups')| < TWO32
    ensures forall i :: 0 <= i < |calls| && calls[i].Key? ==>
              KeyMayMatch(policy, Block(policy, groups'), OffsetAt(calls, i), calls[i].key)
  {
    forall i | 0 <= i < |calls| && calls[i].Key? ensures KeyMayMatch(policy, Block(policy, groups'), OffsetAt(calls, i), calls[i].key) {
      assert Filed(calls, i, groups, pending);
      ReaderAsksGroup(policy, groups', OffsetAt(calls, i), calls[i].key);
    }
  }

  /** For every run of the builder with non-decreasing block offsets, every key matches at the offset it was added under. */
  method BuildFilter(policy: Policy, calls: seq<Call>) returns (contents: Bytes, ghost groups: seq<seq<Bytes>>)
    requires Sound(policy) && OffsetsGrow(calls)
    ensures contents == Block(policy, groups)
    ensures |Data(policy, groups)| < TWO32 ==>
              forall i :: 0 <= i < |calls| && calls[i].Key? ==> KeyMayMatch(policy, contents, OffsetAt(calls, i), calls[i].key)
  {
    var builder := new FilterBlockBuilder(policy);
    Replay(builder, calls);
    ghost var before, pending := builder.groups, builder.Pending();
    contents := builder.Finish();
    groups := builder.groups;
    if |Data(policy, groups)| < TWO32 {
      FiledMatches(policy, calls, before, pending, groups);
    }
  }

  /** With the built-in Bloom policy, whatever the hash function and the number of bits per key. */
  method BuildBloomFilter(hash: Bloom.Hash, bitsPerKey: nat, calls: seq<Call>) returns (contents: Bytes, ghost groups: seq<seq<Bytes>>)
    requires OffsetsGrow(calls)
    ensures contents == Block(BloomPolicy(hash, bitsPerKey), groups)
    ensures |Data(BloomPolicy(hash, bitsPerKey), groups)| < TWO32 ==>
              forall i :: 0 <= i < |calls| && calls[i].Key? ==>
                KeyMayMatch(BloomPolicy(hash, bitsPerKey), contents, OffsetAt(calls, i), calls[i].key)
  {
    BloomIsSound(hash, bitsPerKey);
    contents, groups := BuildFilter(BloomPolicy(hash, bitsPerKey), calls);
  }

  method Replay(builder: FilterBlockBuilder, calls: seq<Call>)
    requires builder.Valid() && builder.groups == [] && builder.Pending() == [] && OffsetsGrow(calls)
    modifies builder
    ensures builder.Valid() && AllFiled(calls, |calls|, builder.groups, builder.Pending())
  {
    for n := 0 to |calls|
      invariant builder.Valid() && |builder.groups| == OffsetAt(calls, n) / 2048
      invariant AllFiled(calls, n, builder.groups, builder.Pending())
    {
      if calls[n].Start? { ReplayStart(builder, calls, n); } else { ReplayKey(builder, calls, n); }
    }
  }

  method ReplayStart(builder: FilterBlockBuilder, calls: seq<Call>, n: nat)
    requires builder.Valid() && n < |calls| && |builder.groups| == OffsetAt(calls, n) / 2048 && calls[n].Start?
    requires OffsetAt(calls, n) <= calls[n].offset && AllFiled(calls, n, builder.groups, builder.Pending())
    modifies builder
    ensures builder.Valid() && |builder.groups| == OffsetAt(calls, n + 1) / 2048
    ensures AllFiled(calls, n + 1, builder.groups, builder.Pending())
  {
    ghost var before, pending := builder.groups, builder.Pending();
    builder.StartBlock(calls[n].offset);
    FiledAfterStart(calls, n, before, pending, builder.groups, builder.Pending());
  }

  method ReplayKey(builder: FilterBlockBuilder, calls: seq<Call>, n: nat)
    requires builder.Valid() && n < |calls| && |builder.groups| == OffsetAt(calls, n) / 2048 && calls[n].Key?
    requires AllFiled(calls, n, builder.groups, builder.Pending())
    modifies builder
    ensures builder.Valid() && |builder.groups| == OffsetAt(calls, n + 1) / 2048
    ensures AllFiled(calls, n + 1, builder.groups, builder.Pending())
  {
    ghost var before, pending := builder.groups, builder.Pending();
    builder.AddKey(calls[n].key);
    FiledAfterKey(calls, n, before, pending, builder.Pending());
  }
}
