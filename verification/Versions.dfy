/** Table files arranged in levels, the invariant every version keeps, and the layered read
    (db/version_set.cc: FindFile, Version::Get; db/db_impl.cc: DBImpl::Get).
 */
module Versions {
  import opened InternalKeys
  import opened History

  const NUM_LEVELS: nat := 7

  /** A table file: its metadata and the sorted entries stored under its number. */
  datatype FileMeta = FileMeta(number: nat, size: nat, smallest: InternalKey, largest: InternalKey, entries: seq<Entry>)

  type Version = v: seq<seq<FileMeta>> | |v| == NUM_LEVELS witness [[], [], [], [], [], [], []]

  predicate FileOk(f: FileMeta) {
    && f.entries != []
    && Sorted(f.entries)
    && f.smallest == f.entries[0].key
    && f.largest == f.entries[|f.entries| - 1].key
    && forall e :: e in f.entries ==> e.key.sequence <= MAX_SEQUENCE
  }

  predicate FilesOk(fs: seq<FileMeta>) {
    forall f :: f in fs ==> FileOk(f)
  }

  /** Sorted and pairwise disjoint in internal-key order: what every level above 0 must be. */
  predicate DisjointSorted(fs: seq<FileMeta>) {
    forall i, j :: 0 <= i < j < |fs| ==> Before(fs[i].largest, fs[j].smallest)
  }

  /** The order of a level's file list: smallest key, then number. */
  predicate BySmallest(f: FileMeta, g: FileMeta) {
    Before(f.smallest, g.smallest) || (f.smallest == g.smallest && f.number < g.number)
  }

  predicate SortedBySmallest(fs: seq<FileMeta>) {
    forall i, j :: 0 <= i < j < |fs| ==> BySmallest(fs[i], fs[j])
  }

  predicate UniqueNumbers(fs: seq<FileMeta>) {
    forall i, j :: 0 <= i < j < |fs| ==> fs[i].number != fs[j].number
  }

  function FilesContents(fs: seq<FileMeta>): set<Entry> {
    set f, e | f in fs && e in f.entries :: e
  }

  /** Every entry of `a` is newer than every entry of `b` for the same user key. */
  ghost predicate NewerThan(a: set<Entry>, b: set<Entry>) {
    forall x, y :: x in a && y in b && x.key.user == y.key.user ==> x.key.sequence > y.key.sequence
  }

  /** Level-0 files may overlap; their numbers follow their age. */
  ghost predicate NumberedByAge(fs: seq<FileMeta>) {
    forall f, g :: f in fs && g in fs && f.number > g.number ==> NewerThan(Elements(f.entries), Elements(g.entries))
  }

  ghost predicate LevelsByAge(v: Version) {
    forall i, j :: 0 <= i < j < NUM_LEVELS ==> NewerThan(FilesContents(v[i]), FilesContents(v[j]))
  }

  /** What the files of a single level keep. */
  predicate ShapeOk(level: nat, fs: seq<FileMeta>) {
    && FilesOk(fs) && UniqueNumbers(fs) && SortedBySmallest(fs)
    && (level > 0 ==> DisjointSorted(fs))
  }

  ghost predicate LevelOk(level: nat, fs: seq<FileMeta>) {
    ShapeOk(level, fs) && Distinct(FilesContents(fs))
  }

  lemma VersionLevelOk(v: Version, level: nat)
    requires VersionOk(v) && level < NUM_LEVELS
    ensures LevelOk(level, v[level])
  {
    forall e | e in FilesContents(v[level]) ensures e in Contents(v) { InContents(v, level, e); }
  }

  /** The version invariant. */
  ghost predicate VersionOk(v: Version) {
    && (forall l :: 0 <= l < NUM_LEVELS ==> ShapeOk(l, v[l]))
    && NumberedByAge(v[0])
    && LevelsByAge(v)
    && Distinct(Contents(v))
  }

  /** Entries of the first `n` levels. */
  ghost function Shallow(v: Version, n: nat): set<Entry>
    requires n <= NUM_LEVELS
  {
    set l, e | 0 <= l < n && e in FilesContents(v[l]) :: e
  }

  ghost function Contents(v: Version): set<Entry> {
    Shallow(v, NUM_LEVELS)
  }

  lemma ShallowStep(v: Version, n: nat)
    requires n < NUM_LEVELS
    ensures Shallow(v, n + 1) == Shallow(v, n) + FilesContents(v[n])
  {
  }

  lemma ShallowIsNewer(v: Version, n: nat)
    requires n < NUM_LEVELS && LevelsByAge(v)
    ensures NewerThan(Shallow(v, n), FilesContents(v[n]))
  {
  }

  lemma InContents(v: Version, l: nat, e: Entry)
    requires l < NUM_LEVELS && e in FilesContents(v[l])
    ensures e in Contents(v)
  {
  }

  lemma FileInRange(f: FileMeta, e: Entry)
    requires FileOk(f) && e in f.entries
    ensures AtMost(f.smallest, e.key) && AtMost(e.key, f.largest)
    ensures f.smallest.user <= e.key.user <= f.largest.user
  {
    var i :| 0 <= i < |f.entries| && f.entries[i] == e;
    if 0 < i { assert Before(f.entries[0].key, e.key); }
    if i < |f.entries| - 1 { assert Before(e.key, f.entries[|f.entries| - 1].key); }
  }

  lemma FileBounds(f: FileMeta)
    requires FileOk(f)
    ensures AtMost(f.smallest, f.largest)
    ensures f.smallest.user <= f.largest.user
    ensures f.entries[0] in f.entries && f.entries[|f.entries| - 1] in f.entries
  {
    FileInRange(f, f.entries[0]);
  }

  /** Every file's bounds are in order: all that reasoning about file ranges needs to know of a file. */
  predicate Ranged(fs: seq<FileMeta>) {
    forall i :: 0 <= i < |fs| ==> AtMost(fs[i].smallest, fs[i].largest)
  }

  ghost predicate EntriesInRange(fs: seq<FileMeta>) {
    forall f, e :: f in fs && e in f.entries ==> AtMost(f.smallest, e.key) && AtMost(e.key, f.largest)
  }

  lemma FilesAreRanged(fs: seq<FileMeta>)
    requires FilesOk(fs)
    ensures Ranged(fs) && EntriesInRange(fs)
  {
    forall i | 0 <= i < |fs| ensures AtMost(fs[i].smallest, fs[i].largest) {
      assert fs[i] in fs;
      FileBounds(fs[i]);
    }
    forall f, e | f in fs && e in f.entries ensures AtMost(f.smallest, e.key) && AtMost(e.key, f.largest) {
      FileInRange(f, e);
    }
  }

  // ---------------------------------------------------------------- combining layers

  /** Reading a newer layer first and an older one only when it has nothing is reading their union. */
  lemma LayeredReads(a: set<Entry>, b: set<Entry>, u: UserKey, s: nat, ra: Option<Entry>, rb: Option<Entry>)
    requires NewerThan(a, b)
    requires Reads(a, u, s, ra)
    requires ra.None? ==> Reads(b, u, s, rb)
    ensures Reads(a + b, u, s, if ra.Some? then ra else rb)
  {
  }

  // ---------------------------------------------------------------- searching one level

  /** Binary search for the first file whose largest key is at or after `key` (FindFile). */
  method FindFile(fs: seq<FileMeta>, key: InternalKey) returns (index: nat)
    requires FilesOk(fs) && DisjointSorted(fs)
    ensures index <= |fs|
    ensures forall i :: 0 <= i < index ==> Before(fs[i].largest, key)
    ensures forall i :: index <= i < |fs| ==> AtMost(key, fs[i].largest)
  {
    var left, right := 0, |fs|;
    while left < right
      invariant 0 <= left <= right <= |fs|
      invariant forall i :: 0 <= i < left ==> Before(fs[i].largest, key)
      invariant forall i :: right <= i < |fs| ==> AtMost(key, fs[i].largest)
    {
      var mid := (left + right) / 2;
      forall i, j | 0 <= i < j < |fs| ensures Before(fs[i].largest, fs[j].largest) {
        FileBounds(fs[j]);
      }
      if Before(fs[mid].largest, key) {
        left := mid + 1;
      } else {
        right := mid;
      }
    }
    return right;
  }

  ghost predicate IsFileIndex(fs: seq<FileMeta>, key: InternalKey, index: nat) {
    && index <= |fs|
    && (forall i :: 0 <= i < index ==> Before(fs[i].largest, key))
    && (forall i :: index <= i < |fs| ==> AtMost(key, fs[i].largest))
  }

  /** One binary-searched file answers for a whole sorted level, even when a user key spans two files. */
  lemma OneFileSuffices(fs: seq<FileMeta>, u: UserKey, s: nat, index: nat)
    requires FilesOk(fs) && DisjointSorted(fs)
    requires IsFileIndex(fs, LookupKey(u, s), index)
    ensures index < |fs| && fs[index].smallest.user <= u ==> Reads(FilesContents(fs), u, s, Seek(fs[index].entries, u, s))
    ensures index == |fs| || u < fs[index].smallest.user ==> Reads(FilesContents(fs), u, s, None)
  {
    var k := LookupKey(u, s);
    forall x | x in FilesContents(fs) && Visible(x, u, s)
      ensures index < |fs| && fs[index].smallest.user <= u
      ensures exists y :: y in fs[index].entries && Visible(y, u, s) && x.key.sequence <= y.key.sequence
    {
      var j :| 0 <= j < |fs| && x in fs[j].entries;
      FileInRange(fs[j], x);
      FileBounds(fs[index]);
      if j != index {
        var last := fs[index].entries[|fs[index].entries| - 1];
        assert Before(fs[index].largest, fs[j].smallest);
        assert Visible(last, u, s) && x.key.sequence <= last.key.sequence;
      }
    }
    if index < |fs| && fs[index].smallest.user <= u {
      assert fs[index] in fs;
      SeekReads(fs[index].entries, u, s);
    }
  }

  method SearchSortedLevel(fs: seq<FileMeta>, u: UserKey, s: nat) returns (r: Option<Entry>)
    requires FilesOk(fs) && DisjointSorted(fs)
    ensures Reads(FilesContents(fs), u, s, r)
  {
    var index := FindFile(fs, LookupKey(u, s));
    OneFileSuffices(fs, u, s, index);
    if index >= |fs| || u < fs[index].smallest.user {
      r := None;
    } else {
      r := Seek(fs[index].entries, u, s);
    }
  }

  ghost predicate NewestFirst(fs: seq<FileMeta>) {
    forall i, j :: 0 <= i < j < |fs| ==> fs[i].number > fs[j].number
  }

  /** Insertion by decreasing file number, standing for the sort of the overlapping level-0 files. */
  method InsertByNumber(fs: seq<FileMeta>, f: FileMeta) returns (out: seq<FileMeta>)
    requires NewestFirst(fs)
    requires forall g :: g in fs ==> g.number != f.number
    ensures NewestFirst(out)
    ensures forall g :: g in out <==> g in fs || g == f
  {
    var i := 0;
    while i < |fs| && fs[i].number > f.number
      invariant 0 <= i <= |fs|
      invariant forall j :: 0 <= j < i ==> fs[j].number > f.number
    {
      i := i + 1;
    }
    out := fs[..i] + [f] + fs[i..];
    assert i < |fs| ==> fs[i] in fs;
    assert forall k :: 0 <= k < |out| ==> out[k] == if k < i then fs[k] else if k == i then f else fs[k - 1];
    InsertedElements(fs, f, i, out);
  }

  lemma InsertedElements(fs: seq<FileMeta>, f: FileMeta, i: nat, out: seq<FileMeta>)
    requires i <= |fs| && out == fs[..i] + [f] + fs[i..]
    ensures forall g :: g in out <==> g in fs || g == f
  {
    assert fs == fs[..i] + fs[i..];
  }

  /** The level-0 files whose user-key range covers `u`, newest first. */
  method CandidatesNewestFirst(fs: seq<FileMeta>, u: UserKey) returns (tmp: seq<FileMeta>)
    requires UniqueNumbers(fs)
    ensures NewestFirst(tmp)
    ensures forall f :: f in tmp <==> f in fs && f.smallest.user <= u <= f.largest.user
  {
    tmp := [];
    for i := 0 to |fs|
      invariant NewestFirst(tmp)
      invariant forall f :: f in tmp <==> f in fs[..i] && f.smallest.user <= u <= f.largest.user
    {
      if fs[i].smallest.user <= u <= fs[i].largest.user {
        tmp := InsertByNumber(tmp, fs[i]);
      }
      assert fs[..i + 1] == fs[..i] + [fs[i]];
    }
    assert fs[..|fs|] == fs;
  }

  /** Level 0: search every file that may hold `u`, newest first. */
  method SearchLevelZero(fs: seq<FileMeta>, u: UserKey, s: nat) returns (r: Option<Entry>)
    requires FilesOk(fs) && UniqueNumbers(fs) && NumberedByAge(fs)
    ensures Reads(FilesContents(fs), u, s, r)
  {
    var tmp := CandidatesNewestFirst(fs, u);
    r := None;
    for i := 0 to |tmp|
      invariant r == None
      invariant forall j :: 0 <= j < i ==> Reads(Elements(tmp[j].entries), u, s, None)
    {
      assert tmp[i] in fs;
      r := Seek(tmp[i].entries, u, s);
      SeekReads(tmp[i].entries, u, s);
      if r.Some? {
        FirstHitIsNewest(fs, tmp, i, u, s, r);
        return;
      }
    }
    NoHit(fs, tmp, u, s);
  }

  lemma NoHit(fs: seq<FileMeta>, tmp: seq<FileMeta>, u: UserKey, s: nat)
    requires FilesOk(fs)
    requires forall f :: f in tmp <==> f in fs && f.smallest.user <= u <= f.largest.user
    requires forall j :: 0 <= j < |tmp| ==> Reads(Elements(tmp[j].entries), u, s, None)
    ensures Reads(FilesContents(fs), u, s, None)
  {
    forall x | x in FilesContents(fs) ensures !Visible(x, u, s) {
      var f :| f in fs && x in f.entries;
      FileInRange(f, x);
      if x.key.user == u {
        var k :| 0 <= k < |tmp| && tmp[k] == f;
        assert x in Elements(tmp[k].entries);
      }
    }
  }

  /** The first hit in newest-first order is the newest visible entry of the level. */
  lemma FirstHitIsNewest(fs: seq<FileMeta>, tmp: seq<FileMeta>, i: nat, u: UserKey, s: nat, r: Option<Entry>)
    requires FilesOk(fs) && NumberedByAge(fs) && NewestFirst(tmp)
    requires i < |tmp|
    requires forall f :: f in tmp <==> f in fs && f.smallest.user <= u <= f.largest.user
    requires forall j :: 0 <= j < i ==> Reads(Elements(tmp[j].entries), u, s, None)
    requires r.Some? && Reads(Elements(tmp[i].entries), u, s, r)
    ensures Reads(FilesContents(fs), u, s, r)
  {
    assert r.value in Elements(tmp[i].entries) && tmp[i] in fs;
    forall x | x in FilesContents(fs) && Visible(x, u, s) ensures x.key.sequence <= r.value.key.sequence {
      var f :| f in fs && x in f.entries;
      FileInRange(f, x);
      HitBeats(tmp, i, f, u, s, r, x);
    }
  }

  lemma HitBeats(tmp: seq<FileMeta>, i: nat, f: FileMeta, u: UserKey, s: nat, r: Option<Entry>, x: Entry)
    requires NumberedByAge(tmp) && NewestFirst(tmp) && i < |tmp| && f in tmp
    requires forall j :: 0 <= j < i ==> Reads(Elements(tmp[j].entries), u, s, None)
    requires r.Some? && Reads(Elements(tmp[i].entries), u, s, r)
    requires x in f.entries && Visible(x, u, s)
    ensures x.key.sequence <= r.value.key.sequence
  {
    var k :| 0 <= k < |tmp| && tmp[k] == f;
    assert x in Elements(tmp[k].entries);
    assert i < k ==> tmp[i].number > tmp[k].number;
  }

  // ---------------------------------------------------------------- the whole version

  /** Search level by level and stop at the first hit (Version::Get). */
  method VersionGet(v: Version, u: UserKey, s: nat) returns (r: Option<Entry>)
    requires VersionOk(v)
    ensures Reads(Contents(v), u, s, r)
  {
    r := None;
    var level := 0;
    while level < NUM_LEVELS
      invariant 0 <= level <= NUM_LEVELS
      invariant Reads(Shallow(v, level), u, s, r)
    {
      if r == None {
        if level == 0 {
          r := SearchLevelZero(v[0], u, s);
        } else {
          r := SearchSortedLevel(v[level], u, s);
        }
        LayeredReads(Shallow(v, level), FilesContents(v[level]), u, s, None, r) by { ShallowIsNewer(v, level); }
      } else {
        LayeredReads(Shallow(v, level), FilesContents(v[level]), u, s, r, None) by { ShallowIsNewer(v, level); }
      }
      ShallowStep(v, level);
      level := level + 1;
    }
  }
}
