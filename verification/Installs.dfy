/** Installing the result of a flush, a trivial move or a compaction keeps the version invariant
    (db/db_impl.cc: CompactMemTable, BackgroundCompaction, InstallCompactionResults;
    db/version_set.cc: PickLevelForMemTableOutput).
 */
module Installs {
  import opened InternalKeys
  import opened History
  import opened Versions
  import opened Selection

  // ---------------------------------------------------------------- levels seen as sets of files

  predicate Apart(f: FileMeta, g: FileMeta) {
    Before(f.largest, g.smallest) || Before(g.largest, f.smallest)
  }

  ghost predicate PairwiseApart(fs: seq<FileMeta>) {
    forall f, g :: f in fs && g in fs && f != g ==> Apart(f, g)
  }

  ghost predicate PairwiseNumbered(fs: seq<FileMeta>) {
    forall f, g :: f in fs && g in fs && f != g ==> f.number != g.number
  }

  /** In a list sorted by smallest key, facts about pairs of members become facts about positions. */
  lemma PositionsFromMembers(fs: seq<FileMeta>)
    requires SortedBySmallest(fs)
    ensures PairwiseNumbered(fs) ==> UniqueNumbers(fs)
    ensures PairwiseApart(fs) && Ranged(fs) ==> DisjointSorted(fs)
  {
    forall i, j | 0 <= i < j < |fs|
      ensures fs[i] != fs[j]
      ensures PairwiseApart(fs) && Ranged(fs) ==> Before(fs[i].largest, fs[j].smallest)
    {
      assert BySmallest(fs[i], fs[j]);
      assert PairwiseApart(fs) ==> Apart(fs[i], fs[j]);
    }
  }

  lemma MembersFromPositions(fs: seq<FileMeta>)
    ensures UniqueNumbers(fs) ==> PairwiseNumbered(fs)
    ensures DisjointSorted(fs) ==> PairwiseApart(fs)
  {
  }

  /** `fs'` holds `fs` without `gone` and with `added`, in list order. */
  ghost predicate Replaced(fs: seq<FileMeta>, gone: seq<FileMeta>, added: seq<FileMeta>, fs': seq<FileMeta>) {
    && SortedBySmallest(fs')
    && forall f :: f in fs' <==> (f in fs && f !in gone) || f in added
  }

  lemma ReplacedContents(fs: seq<FileMeta>, gone: seq<FileMeta>, added: seq<FileMeta>, fs': seq<FileMeta>)
    requires Replaced(fs, gone, added, fs')
    ensures FilesContents(fs') == Unchosen(fs, gone) + FilesContents(added)
  {
  }

  lemma ChosenSplit(fs: seq<FileMeta>, chosen: seq<FileMeta>)
    requires forall f :: f in chosen ==> f in fs
    ensures FilesContents(fs) == Unchosen(fs, chosen) + FilesContents(chosen)
  {
  }

  /** Replacing files of a level keeps the level in order if the new files stay apart from the ones that remain. */
  lemma ReplacedLevelOk(level: nat, fs: seq<FileMeta>, gone: seq<FileMeta>, added: seq<FileMeta>, fs': seq<FileMeta>)
    requires FilesOk(fs) && UniqueNumbers(fs) && (level > 0 ==> DisjointSorted(fs))
    requires FilesOk(added) && UniqueNumbers(added) && (level > 0 ==> DisjointSorted(added))
    requires Replaced(fs, gone, added, fs')
    requires forall f, g :: f in fs && f !in gone && g in added ==> f.number != g.number
    requires level > 0 ==> forall f, g :: f in fs && f !in gone && g in added ==> Apart(f, g)
    ensures FilesOk(fs') && UniqueNumbers(fs') && (level > 0 ==> DisjointSorted(fs'))
  {
    MembersFromPositions(fs);
    MembersFromPositions(added);
    FilesAreRanged(fs');
    assert PairwiseNumbered(fs');
    assert level > 0 ==> PairwiseApart(fs');
    PositionsFromMembers(fs');
  }

  // ---------------------------------------------------------------- compaction

  /** The version after a compaction from `level`: inputs out, outputs into the next level. */
  ghost predicate CompactionInstalled(v: Version, v': Version, level: nat, in0: seq<FileMeta>, in1: seq<FileMeta>, outs: seq<FileMeta>)
    requires level + 1 < NUM_LEVELS
  {
    && Replaced(v[level], in0, [], v'[level])
    && Replaced(v[level + 1], in1, outs, v'[level + 1])
    && forall l :: 0 <= l < NUM_LEVELS && l != level && l != level + 1 ==> v'[l] == v[l]
  }

  ghost function Inputs(in0: seq<FileMeta>, in1: seq<FileMeta>): set<Entry> {
    FilesContents(in0) + FilesContents(in1)
  }

  /** Entries of all files that a compaction leaves alone. */
  ghost function Rest(v: Version, level: nat, in0: seq<FileMeta>, in1: seq<FileMeta>): set<Entry>
    requires level + 1 < NUM_LEVELS
  {
    (set l, e | 0 <= l < NUM_LEVELS && l != level && l != level + 1 && e in FilesContents(v[l]) :: e)
    + Unchosen(v[level], in0) + Unchosen(v[level + 1], in1)
  }

  /** A next-level file outside the selection lies wholly on one side of every input entry. */
  lemma UnchosenIsAside(next: seq<FileMeta>, in0: seq<FileMeta>, in1: seq<FileMeta>, g: FileMeta, o: FileMeta)
    requires FilesOk(next) && DisjointSorted(next) && FilesOk(in0) && FileOk(o)
    requires OverlapsChosen(next, in0, in1)
    requires g in next && g !in in1
    requires forall e :: e in o.entries ==> e in Inputs(in0, in1)
    ensures Apart(g, o)
  {
    var lo, hi :| Spans(in0, lo, hi) && in1 == Overlapping(next, Range(Some(lo), Some(hi)));
    MembersFromPositions(next);
    FilesAreRanged(next);
    FilesAreRanged(in0);
    if g.largest.user < lo {
      InputsAfter(next, in0, lo, hi, g, o.entries[0]);
    } else {
      InputsBefore(next, in0, lo, hi, g, o.entries[|o.entries| - 1]);
    }
  }

  lemma InputsAfter(next: seq<FileMeta>, in0: seq<FileMeta>, lo: UserKey, hi: UserKey, g: FileMeta, e: Entry)
    requires PairwiseApart(next) && Ranged(next) && EntriesInRange(next) && EntriesInRange(in0)
    requires Spans(in0, lo, hi) && g in next && g.largest.user < lo
    requires e in Inputs(in0, Overlapping(next, Range(Some(lo), Some(hi))))
    ensures Before(g.largest, e.key)
  {
    if e !in FilesContents(in0) {
      var f :| f in next && Overlaps(f, Range(Some(lo), Some(hi))) && e in f.entries;
      assert AtMost(f.smallest, f.largest) && AtMost(g.smallest, g.largest);
      assert f != g && Apart(f, g);
    }
  }

  lemma InputsBefore(next: seq<FileMeta>, in0: seq<FileMeta>, lo: UserKey, hi: UserKey, g: FileMeta, e: Entry)
    requires PairwiseApart(next) && Ranged(next) && EntriesInRange(next) && EntriesInRange(in0)
    requires Spans(in0, lo, hi) && g in next && hi < g.smallest.user
    requires e in Inputs(in0, Overlapping(next, Range(Some(lo), Some(hi))))
    ensures Before(e.key, g.smallest)
  {
    if e !in FilesContents(in0) {
      var f :| f in next && Overlaps(f, Range(Some(lo), Some(hi))) && e in f.entries;
      assert AtMost(f.smallest, f.largest) && AtMost(g.smallest, g.largest);
      assert f != g && Apart(f, g);
    }
  }

  lemma RestAndInputs(v: Version, level: nat, in0: seq<FileMeta>, in1: seq<FileMeta>)
    requires level + 1 < NUM_LEVELS
    requires forall f :: f in in0 ==> f in v[level]
    requires forall f :: f in in1 ==> f in v[level + 1]
    ensures Contents(v) == Rest(v, level, in0, in1) + Inputs(in0, in1)
  {
    ChosenSplit(v[level], in0);
    ChosenSplit(v[level + 1], in1);
    assert forall e :: e in Contents(v) ==> e in Rest(v, level, in0, in1) + Inputs(in0, in1);
  }

  lemma InstalledContents(v: Version, v': Version, level: nat, in0: seq<FileMeta>, in1: seq<FileMeta>, outs: seq<FileMeta>)
    requires level + 1 < NUM_LEVELS
    requires CompactionInstalled(v, v', level, in0, in1, outs)
    ensures Contents(v') == Rest(v, level, in0, in1) + FilesContents(outs)
  {
    ReplacedContents(v[level], in0, [], v'[level]);
    ReplacedContents(v[level + 1], in1, outs, v'[level + 1]);
    assert FilesContents([]) == {};
    assert forall e :: e in Contents(v') ==> e in Rest(v, level, in0, in1) + FilesContents(outs);
  }

  lemma NewerSubset(a: set<Entry>, b: set<Entry>, a': set<Entry>, b': set<Entry>)
    requires NewerThan(a, b) && a' <= a && b' <= b
    ensures NewerThan(a', b')
  {
  }

  /** A level's entries after the install, in terms of the levels before. */
  lemma InstalledLevels(v: Version, v': Version, level: nat, in0: seq<FileMeta>, in1: seq<FileMeta>, outs: seq<FileMeta>)
    requires level + 1 < NUM_LEVELS
    requires CompactionInstalled(v, v', level, in0, in1, outs)
    requires forall f :: f in in0 ==> f in v[level]
    requires forall f :: f in in1 ==> f in v[level + 1]
    requires FilesContents(outs) <= Inputs(in0, in1)
    ensures FilesContents(v'[level]) == Unchosen(v[level], in0) <= FilesContents(v[level])
    ensures FilesContents(v'[level + 1]) <= FilesContents(in0) + FilesContents(v[level + 1])
    ensures FilesContents(in0) <= FilesContents(v[level])
  {
    ReplacedContents(v[level], in0, [], v'[level]);
    ReplacedContents(v[level + 1], in1, outs, v'[level + 1]);
    assert FilesContents([]) == {};
    ChosenSplit(v[level], in0);
    ChosenSplit(v[level + 1], in1);
  }

  /** Smaller levels stay newer: the only new neighbours are the files left behind in `level` and the outputs below them. */
  lemma InstalledByAge(v: Version, v': Version, level: nat, in0: seq<FileMeta>, in1: seq<FileMeta>, outs: seq<FileMeta>)
    requires LevelsByAge(v) && level + 1 < NUM_LEVELS
    requires CompactionInstalled(v, v', level, in0, in1, outs)
    requires NoOlderLeft(v[level], in0)
    requires forall f :: f in in0 ==> f in v[level]
    requires forall f :: f in in1 ==> f in v[level + 1]
    requires FilesContents(outs) <= Inputs(in0, in1)
    ensures LevelsByAge(v')
  {
    InstalledLevels(v, v', level, in0, in1, outs);
    var low := FilesContents(in0) + FilesContents(v[level + 1]);
    forall i, j | 0 <= i < j < NUM_LEVELS ensures NewerThan(FilesContents(v'[i]), FilesContents(v'[j])) {
      var a := if i == level + 1 then low else if i == level then Unchosen(v[level], in0) else FilesContents(v[i]);
      var b := if j == level + 1 then low else if j == level then Unchosen(v[level], in0) else FilesContents(v[j]);
      assert NewerThan(a, b) by {
        LevelPair(v, level, in0, i, j);
      }
      NewerSubset(a, b, FilesContents(v'[i]), FilesContents(v'[j]));
    }
  }

  lemma LevelPair(v: Version, level: nat, in0: seq<FileMeta>, i: nat, j: nat)
    requires LevelsByAge(v) && level + 1 < NUM_LEVELS && i < j < NUM_LEVELS
    requires NoOlderLeft(v[level], in0)
    requires FilesContents(in0) <= FilesContents(v[level])
    ensures var low := FilesContents(in0) + FilesContents(v[level + 1]);
            var a := if i == level + 1 then low else if i == level then Unchosen(v[level], in0) else FilesContents(v[i]);
            var b := if j == level + 1 then low else if j == level then Unchosen(v[level], in0) else FilesContents(v[j]);
            NewerThan(a, b)
  {
    assert NewerThan(FilesContents(v[i]), FilesContents(v[j]));
    if i == level + 1 {
      assert NewerThan(FilesContents(v[level]), FilesContents(v[j]));
    } else if j == level + 1 && i < level {
      assert NewerThan(FilesContents(v[i]), FilesContents(v[level]));
    }
  }

  /** Every compaction whose inputs were selected by the closure rules keeps the version invariant. */
  lemma CompactionKeepsVersion(v: Version, v': Version, level: nat, in0: seq<FileMeta>, in1: seq<FileMeta>, outs: seq<FileMeta>)
    requires VersionOk(v) && level + 1 < NUM_LEVELS
    requires SelectionClosed(level, v[level], v[level + 1], in0, in1)
    requires CompactionInstalled(v, v', level, in0, in1, outs)
    requires FilesOk(outs) && DisjointSorted(outs) && UniqueNumbers(outs)
    requires FilesContents(outs) <= Inputs(in0, in1)
    requires forall f, g :: f in v[level + 1] && f !in in1 && g in outs ==> f.number != g.number
    ensures VersionOk(v')
  {
    SelectedAreMembers(v, level, in0, in1);
    InstalledByAge(v, v', level, in0, in1, outs);
    InstalledDistinct(v, v', level, in0, in1, outs);
    forall l | 0 <= l < NUM_LEVELS ensures ShapeOk(l, v'[l]) {
      InstalledShape(v, v', level, in0, in1, outs, l);
    }
    InstalledNumbers(v, v', level, in0, in1, outs);
  }

  lemma InstalledDistinct(v: Version, v': Version, level: nat, in0: seq<FileMeta>, in1: seq<FileMeta>, outs: seq<FileMeta>)
    requires Distinct(Contents(v)) && level + 1 < NUM_LEVELS
    requires forall f :: f in in0 ==> f in v[level]
    requires forall f :: f in in1 ==> f in v[level + 1]
    requires CompactionInstalled(v, v', level, in0, in1, outs)
    requires FilesContents(outs) <= Inputs(in0, in1)
    ensures Distinct(Contents(v'))
  {
    RestAndInputs(v, level, in0, in1);
    InstalledContents(v, v', level, in0, in1, outs);
  }

  lemma InstalledNumbers(v: Version, v': Version, level: nat, in0: seq<FileMeta>, in1: seq<FileMeta>, outs: seq<FileMeta>)
    requires NumberedByAge(v[0]) && level + 1 < NUM_LEVELS
    requires CompactionInstalled(v, v', level, in0, in1, outs)
    ensures NumberedByAge(v'[0])
  {
    assert forall f :: f in v'[0] ==> f in v[0];
  }

  lemma InstalledShape(v: Version, v': Version, level: nat, in0: seq<FileMeta>, in1: seq<FileMeta>, outs: seq<FileMeta>, l: nat)
    requires level + 1 < NUM_LEVELS && l < NUM_LEVELS
    requires ShapeOk(l, v[l]) && FilesOk(in0)
    requires CompactionInstalled(v, v', level, in0, in1, outs) && OverlapsChosen(v[level + 1], in0, in1)
    requires FilesOk(outs) && DisjointSorted(outs) && UniqueNumbers(outs)
    requires FilesContents(outs) <= Inputs(in0, in1)
    requires forall f, g :: f in v[level + 1] && f !in in1 && g in outs ==> f.number != g.number
    ensures ShapeOk(l, v'[l])
  {
    if l == level {
      ReplacedLevelOk(l, v[l], in0, [], v'[l]);
    } else if l == level + 1 {
      OutputsLevelOk(v[l], v'[l], l, in0, in1, outs);
    }
  }

  lemma SelectedAreMembers(v: Version, level: nat, in0: seq<FileMeta>, in1: seq<FileMeta>)
    requires VersionOk(v) && level + 1 < NUM_LEVELS
    requires SelectionClosed(level, v[level], v[level + 1], in0, in1)
    ensures forall f :: f in in0 ==> f in v[level]
    ensures forall f :: f in in1 ==> f in v[level + 1]
    ensures FilesOk(in0) && FilesOk(in1)
  {
    assert ShapeOk(level, v[level]) && ShapeOk(level + 1, v[level + 1]);
    VersionLevelOk(v, level);
    ClosedLeavesNothing(level, v[level], in0);
  }

  lemma OutputsLevelOk(next: seq<FileMeta>, next': seq<FileMeta>, level: nat, in0: seq<FileMeta>, in1: seq<FileMeta>, outs: seq<FileMeta>)
    requires level > 0 && FilesOk(next) && UniqueNumbers(next) && DisjointSorted(next) && FilesOk(in0)
    requires FilesOk(outs) && DisjointSorted(outs) && UniqueNumbers(outs)
    requires OverlapsChosen(next, in0, in1) && Replaced(next, in1, outs, next')
    requires FilesContents(outs) <= Inputs(in0, in1)
    requires forall f, g :: f in next && f !in in1 && g in outs ==> f.number != g.number
    ensures FilesOk(next') && UniqueNumbers(next') && DisjointSorted(next')
  {
    forall f, g | f in next && f !in in1 && g in outs ensures Apart(f, g) {
      assert forall e :: e in g.entries ==> e in FilesContents(outs);
      UnchosenIsAside(next, in0, in1, f, g);
    }
    ReplacedLevelOk(level, next, in1, outs, next');
  }

  /** No entry is stored twice, so the files left alone share none with the inputs. */
  lemma RestIsDisjoint(v: Version, level: nat, in0: seq<FileMeta>, in1: seq<FileMeta>)
    requires VersionOk(v) && level + 1 < NUM_LEVELS
    requires forall f :: f in in0 ==> f in v[level]
    requires forall f :: f in in1 ==> f in v[level + 1]
    ensures Rest(v, level, in0, in1) !! Inputs(in0, in1)
  {
    forall e | e in FilesContents(in0) ensures e !in Rest(v, level, in0, in1) {
      var f :| f in in0 && e in f.entries;
      StoredOnlyThere(v, level, f, e);
      ChosenIsNotInRest(v, level, in0, in1, level, f, e);
    }
    forall e | e in FilesContents(in1) ensures e !in Rest(v, level, in0, in1) {
      var f :| f in in1 && e in f.entries;
      StoredOnlyThere(v, level + 1, f, e);
      ChosenIsNotInRest(v, level, in0, in1, level + 1, f, e);
    }
  }

  ghost predicate OnlyIn(v: Version, k: nat, f: FileMeta, e: Entry) {
    forall l, g :: 0 <= l < NUM_LEVELS && g in v[l] && e in g.entries ==> l == k && g == f
  }

  lemma ChosenIsNotInRest(v: Version, level: nat, in0: seq<FileMeta>, in1: seq<FileMeta>, k: nat, f: FileMeta, e: Entry)
    requires level + 1 < NUM_LEVELS && OnlyIn(v, k, f, e)
    requires (k == level && f in in0) || (k == level + 1 && f in in1)
    ensures e !in Rest(v, level, in0, in1)
  {
  }

  lemma StoredOnlyThere(v: Version, k: nat, f: FileMeta, e: Entry)
    requires VersionOk(v) && k < NUM_LEVELS && f in v[k] && e in f.entries
    ensures OnlyIn(v, k, f, e)
  {
    forall l, g | 0 <= l < NUM_LEVELS && g in v[l] && e in g.entries ensures l == k && g == f {
      StoredOnce(v, l, k, g, f, e);
    }
  }

  lemma StoredOnce(v: Version, l: nat, k: nat, f: FileMeta, g: FileMeta, e: Entry)
    requires VersionOk(v) && l < NUM_LEVELS && k < NUM_LEVELS
    requires f in v[l] && g in v[k] && e in f.entries && e in g.entries
    ensures l == k && f == g
  {
    StoredInOneLevel(v, l, k, e);
    assert ShapeOk(l, v[l]);
    StoredInOneFile(l, v[l], f, g, e);
  }

  lemma StoredInOneLevel(v: Version, l: nat, k: nat, e: Entry)
    requires LevelsByAge(v) && l < NUM_LEVELS && k < NUM_LEVELS
    requires e in FilesContents(v[l]) && e in FilesContents(v[k])
    ensures l == k
  {
  }

  lemma StoredInOneFile(level: nat, fs: seq<FileMeta>, f: FileMeta, g: FileMeta, e: Entry)
    requires ShapeOk(level, fs) && (level == 0 ==> NumberedByAge(fs))
    requires f in fs && g in fs && e in f.entries && e in g.entries
    ensures f == g
  {
    MembersFromPositions(fs);
    FilesAreRanged(fs);
    assert e in Elements(f.entries) && e in Elements(g.entries);
  }
}
