/** Choosing the level for a flushed memtable and installing it (db/version_set.cc: SomeFileOverlapsRange,
    PickLevelForMemTableOutput; db/db_impl.cc: WriteLevel0Table, BackgroundCompaction's trivial move).
 */
module Flushes {
  import opened InternalKeys
  import opened History
  import opened Versions
  import opened Selection
  import opened Installs

  const MAX_MEM_COMPACT_LEVEL: nat := 2

  ghost predicate SomeOverlap(fs: seq<FileMeta>, r: Range) {
    exists i :: 0 <= i < |fs| && Overlaps(fs[i], r)
  }

  /** Linear scan at level 0, one binary search elsewhere. */
  method SomeFileOverlapsRange(sorted: bool, fs: seq<FileMeta>, r: Range) returns (overlap: bool)
    requires FilesOk(fs) && (sorted ==> DisjointSorted(fs))
    ensures overlap <==> SomeOverlap(fs, r)
  {
    if !sorted {
      for i := 0 to |fs|
        invariant forall j :: 0 <= j < i ==> !Overlaps(fs[j], r)
      {
        if Overlaps(fs[i], r) {
          return true;
        }
      }
      return false;
    }
    var index := 0;
    if r.begin.Some? {
      index := FindFile(fs, LookupKey(r.begin.value, MAX_SEQUENCE));
      PassedFilesEndBefore(fs, r.begin.value, index);
    }
    FilesAreRanged(fs);
    FirstFileDecides(fs, r, index);
    if index >= |fs| {
      return false;
    }
    return !(r.end.Some? && r.end.value < fs[index].smallest.user);
  }

  /** No stored key sorts before a user key's key with the largest sequence, so the search splits at the user key. */
  lemma PassedFilesEndBefore(fs: seq<FileMeta>, u: UserKey, index: nat)
    requires FilesOk(fs) && IsFileIndex(fs, LookupKey(u, MAX_SEQUENCE), index)
    ensures forall i :: 0 <= i < index ==> fs[i].largest.user < u
    ensures forall i :: index <= i < |fs| ==> u <= fs[i].largest.user
  {
    forall i | 0 <= i < index ensures fs[i].largest.user < u {
      assert fs[i] in fs;
      FileBounds(fs[i]);
    }
  }

  /** Past the files that end before the range, the first one decides whether any overlaps it. */
  lemma FirstFileDecides(fs: seq<FileMeta>, r: Range, index: nat)
    requires Ranged(fs) && DisjointSorted(fs) && index <= |fs|
    requires forall i :: 0 <= i < index ==> r.begin.Some? && fs[i].largest.user < r.begin.value
    requires forall i :: index <= i < |fs| && r.begin.Some? ==> r.begin.value <= fs[i].largest.user
    ensures SomeOverlap(fs, r) <==> index < |fs| && !(r.end.Some? && r.end.value < fs[index].smallest.user)
  {
    BoundsIncrease(fs);
    if index < |fs| && !(r.end.Some? && r.end.value < fs[index].smallest.user) {
      assert Overlaps(fs[index], r);
    }
  }

  /** A level that a table over `r` may go to: nothing overlaps it there or above, and on the way down no level after the next holds too
      many bytes that it overlaps. */
  ghost predicate MaySink(v: Version, r: Range, maxGrandparentBytes: nat, level: nat) {
    level == 0 || (
      && level <= MAX_MEM_COMPACT_LEVEL
      && (forall l :: 0 <= l <= level ==> !SomeOverlap(v[l], r))
      && (forall l :: 2 <= l < level + 2 ==> TotalSize(Overlapping(v[l], r)) <= maxGrandparentBytes))
  }

  /** Push the new table down while no level on the way overlaps it and the level after that is not too heavy: it goes as deep as it may. */
  method PickLevelForMemTableOutput(v: Version, lo: UserKey, hi: UserKey, maxGrandparentBytes: nat) returns (level: nat)
    requires forall l :: 0 <= l < NUM_LEVELS ==> ShapeOk(l, v[l])
    ensures level <= MAX_MEM_COMPACT_LEVEL
    ensures level > 0 ==> forall l :: 0 <= l <= level ==> !SomeOverlap(v[l], Range(Some(lo), Some(hi)))
    ensures forall l: nat :: MaySink(v, Range(Some(lo), Some(hi)), maxGrandparentBytes, l) ==> l <= level
    ensures MaySink(v, Range(Some(lo), Some(hi)), maxGrandparentBytes, level)
  {
    var r := Range(Some(lo), Some(hi));
    level := 0;
    assert ShapeOk(0, v[0]);
    var overlap := SomeFileOverlapsRange(false, v[0], r);
    if overlap {
      return;
    }
    var sinks := true;
    while level < MAX_MEM_COMPACT_LEVEL && sinks
      invariant level <= MAX_MEM_COMPACT_LEVEL && !SomeOverlap(v[0], r)
      invariant forall l :: 0 <= l < level ==> SinksBelow(v, r, maxGrandparentBytes, l)
      invariant !sinks ==> level < MAX_MEM_COMPACT_LEVEL && !SinksBelow(v, r, maxGrandparentBytes, level)
      decreases MAX_MEM_COMPACT_LEVEL - level, sinks
    {
      sinks := MaySinkOn(v, r, maxGrandparentBytes, level);
      if sinks {
        level := level + 1;
      }
    }
    SinksStepByStep(v, r, maxGrandparentBytes, level);
  }

  /** From level `l` a table over `r` may go down one more. */
  ghost predicate SinksBelow(v: Version, r: Range, maxGrandparentBytes: nat, l: nat) {
    l < MAX_MEM_COMPACT_LEVEL && !SomeOverlap(v[l + 1], r) && TotalSize(Overlapping(v[l + 2], r)) <= maxGrandparentBytes
  }

  method MaySinkOn(v: Version, r: Range, maxGrandparentBytes: nat, level: nat) returns (sinks: bool)
    requires level < MAX_MEM_COMPACT_LEVEL && forall l :: 0 <= l < NUM_LEVELS ==> ShapeOk(l, v[l])
    ensures sinks <==> SinksBelow(v, r, maxGrandparentBytes, level)
  {
    assert ShapeOk(level + 1, v[level + 1]);
    var overlap := SomeFileOverlapsRange(true, v[level + 1], r);
    if overlap {
      return false;
    }
    var overlaps, _ := GetOverlappingInputs(level + 2, v[level + 2], r);
    sinks := TotalSize(overlaps) <= maxGrandparentBytes;
  }

  lemma SinksStepByStep(v: Version, r: Range, maxGrandparentBytes: nat, level: nat)
    requires level <= MAX_MEM_COMPACT_LEVEL && !SomeOverlap(v[0], r) && forall l :: 0 <= l < level ==> SinksBelow(v, r, maxGrandparentBytes, l)
    requires level < MAX_MEM_COMPACT_LEVEL ==> !SinksBelow(v, r, maxGrandparentBytes, level)
    ensures MaySink(v, r, maxGrandparentBytes, level) && forall l: nat :: MaySink(v, r, maxGrandparentBytes, l) ==> l <= level
    ensures forall l :: 0 <= l <= level ==> !SomeOverlap(v[l], r)
  {
    forall l | 0 <= l <= level ensures !SomeOverlap(v[l], r) {
      if l > 0 { assert SinksBelow(v, r, maxGrandparentBytes, l - 1); }
    }
    forall l | 2 <= l < level + 2 ensures TotalSize(Overlapping(v[l], r)) <= maxGrandparentBytes { assert SinksBelow(v, r, maxGrandparentBytes, l - 2); }
  }

  // ---------------------------------------------------------------- installing a flushed table

  ghost predicate FlushInstalled(v: Version, v': Version, level: nat, f: FileMeta)
    requires level < NUM_LEVELS
  {
    && Replaced(v[level], [], [f], v'[level])
    && forall l :: 0 <= l < NUM_LEVELS && l != level ==> v'[l] == v[l]
  }

  /** A level the picker allows: 0, or one that the table overlaps neither there nor on the way down. */
  ghost predicate LevelAllowed(v: Version, level: nat, f: FileMeta) {
    level < NUM_LEVELS
    && (level > 0 ==> forall l :: 0 <= l <= level ==> !SomeOverlap(v[l], Range(Some(f.smallest.user), Some(f.largest.user))))
  }

  lemma FlushContents(v: Version, v': Version, level: nat, f: FileMeta)
    requires level < NUM_LEVELS && FlushInstalled(v, v', level, f)
    ensures Contents(v') == Contents(v) + Elements(f.entries)
    ensures FilesContents(v'[level]) == FilesContents(v[level]) + Elements(f.entries)
  {
    ReplacedContents(v[level], [], [f], v'[level]);
    assert FilesContents([f]) == Elements(f.entries) by {
      assert f in [f];
    }
    assert Unchosen(v[level], []) == FilesContents(v[level]);
    forall e | e in Contents(v') ensures e in Contents(v) + Elements(f.entries) {
      var l :| 0 <= l < NUM_LEVELS && e in FilesContents(v'[l]);
      assert l != level ==> v'[l] == v[l];
    }
    forall e | e in Contents(v) ensures e in Contents(v') {
      var l :| 0 <= l < NUM_LEVELS && e in FilesContents(v[l]);
      assert l != level ==> v'[l] == v[l];
      InContents(v', l, e);
    }
    forall e | e in Elements(f.entries) ensures e in Contents(v') {
      InContents(v', level, e);
    }
  }

  /** Files that do not overlap a range hold none of its user keys. */
  lemma NoOverlapNoSharedKey(fs: seq<FileMeta>, f: FileMeta)
    requires FilesOk(fs) && FileOk(f)
    requires !SomeOverlap(fs, Range(Some(f.smallest.user), Some(f.largest.user)))
    ensures forall x, y :: x in FilesContents(fs) && y in Elements(f.entries) ==> x.key.user != y.key.user
    ensures forall g :: g in fs ==> Apart(g, f)
  {
    FilesAreRanged(fs);
    forall y | y in f.entries ensures f.smallest.user <= y.key.user <= f.largest.user {
      FileInRange(f, y);
    }
    forall g | g in fs ensures !Overlaps(g, Range(Some(f.smallest.user), Some(f.largest.user))) {
      var i :| 0 <= i < |fs| && fs[i] == g;
    }
  }

  lemma FlushByAge(v: Version, v': Version, level: nat, f: FileMeta)
    requires LevelsByAge(v) && LevelAllowed(v, level, f) && FlushInstalled(v, v', level, f) && FileOk(f)
    requires forall l :: 0 <= l < NUM_LEVELS ==> FilesOk(v[l])
    requires NewerThan(Elements(f.entries), Contents(v))
    ensures LevelsByAge(v')
  {
    FlushContents(v, v', level, f);
    forall i, j | 0 <= i < j < NUM_LEVELS ensures NewerThan(FilesContents(v'[i]), FilesContents(v'[j])) {
      assert NewerThan(FilesContents(v[i]), FilesContents(v[j]));
      if i == level {
        NewerInLevel(v, j, Elements(f.entries));
      } else if j == level {
        assert !SomeOverlap(v[i], Range(Some(f.smallest.user), Some(f.largest.user)));
        NoOverlapNoSharedKey(v[i], f);
      }
    }
  }

  lemma NewerInLevel(v: Version, l: nat, a: set<Entry>)
    requires l < NUM_LEVELS && NewerThan(a, Contents(v))
    ensures NewerThan(a, FilesContents(v[l]))
  {
    forall e | e in FilesContents(v[l]) ensures e in Contents(v) { InContents(v, l, e); }
  }

  /** Installing a flushed memtable at an allowed level keeps the version invariant. */
  lemma FlushKeepsVersion(v: Version, v': Version, level: nat, f: FileMeta)
    requires VersionOk(v) && LevelAllowed(v, level, f) && FlushInstalled(v, v', level, f) && FileOk(f)
    requires NewerThan(Elements(f.entries), Contents(v))
    requires Distinct(Contents(v) + Elements(f.entries))
    requires forall l, g :: 0 <= l < NUM_LEVELS && g in v[l] ==> g.number < f.number
    ensures VersionOk(v')
    ensures Contents(v') == Contents(v) + Elements(f.entries)
  {
    FlushContents(v, v', level, f);
    FlushShape(v, v', level, f);
    FlushByAge(v, v', level, f) by {
      forall l | 0 <= l < NUM_LEVELS ensures FilesOk(v[l]) { assert ShapeOk(l, v[l]); }
    }
    if level == 0 {
      FlushNumbers(v[0], v'[0], f) by { NewerInLevel(v, 0, Elements(f.entries)); }
    }
  }

  lemma FlushShape(v: Version, v': Version, level: nat, f: FileMeta)
    requires LevelAllowed(v, level, f) && FlushInstalled(v, v', level, f) && FileOk(f)
    requires forall l :: 0 <= l < NUM_LEVELS ==> ShapeOk(l, v[l])
    requires forall g :: g in v[level] ==> g.number < f.number
    ensures forall l :: 0 <= l < NUM_LEVELS ==> ShapeOk(l, v'[l])
  {
    assert ShapeOk(level, v[level]);
    if level > 0 {
      assert !SomeOverlap(v[level], Range(Some(f.smallest.user), Some(f.largest.user)));
      NoOverlapNoSharedKey(v[level], f);
    }
    ReplacedLevelOk(level, v[level], [], [f], v'[level]);
    forall l | 0 <= l < NUM_LEVELS ensures ShapeOk(l, v'[l]) {
      assert l != level ==> v'[l] == v[l];
    }
  }

  lemma FlushNumbers(fs: seq<FileMeta>, fs': seq<FileMeta>, f: FileMeta)
    requires NumberedByAge(fs) && Replaced(fs, [], [f], fs')
    requires NewerThan(Elements(f.entries), FilesContents(fs))
    requires forall g :: g in fs ==> g.number < f.number
    ensures NumberedByAge(fs')
  {
    forall a, b | a in fs' && b in fs' && a.number > b.number ensures NewerThan(Elements(a.entries), Elements(b.entries)) {
      if a == f {
        assert forall e :: e in Elements(b.entries) ==> e in FilesContents(fs);
      }
    }
  }

  // ---------------------------------------------------------------- trivial move

  /** Moving a single selected file down is a compaction that keeps every entry: the invariant and the contents stay. */
  lemma TrivialMoveKeepsVersion(v: Version, v': Version, level: nat, f: FileMeta)
    requires VersionOk(v) && level + 1 < NUM_LEVELS
    requires SelectionClosed(level, v[level], v[level + 1], [f], [])
    requires CompactionInstalled(v, v', level, [f], [], [f])
    requires forall g :: g in v[level + 1] ==> g.number != f.number
    ensures VersionOk(v')
    ensures Contents(v') == Contents(v)
  {
    SelectedAreMembers(v, level, [f], []);
    assert f in [f];
    MovedContents(v, v', level, f);
    SingleFileOk(f);
    CompactionKeepsVersion(v, v', level, [f], [], [f]);
  }

  lemma SingleFileOk(f: FileMeta)
    requires FilesOk([f])
    ensures DisjointSorted([f]) && UniqueNumbers([f])
    ensures FilesContents([f]) <= Inputs([f], [])
  {
  }

  lemma MovedContents(v: Version, v': Version, level: nat, f: FileMeta)
    requires level + 1 < NUM_LEVELS && f in v[level]
    requires CompactionInstalled(v, v', level, [f], [], [f])
    ensures Contents(v') == Contents(v)
  {
    assert FilesContents([]) == {};
    RestAndInputs(v, level, [f], []);
    InstalledContents(v, v', level, [f], [], [f]);
  }
}
