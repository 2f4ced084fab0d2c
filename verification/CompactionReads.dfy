/** What a whole compaction does to reads: the exact condition under which it changes none, and a simple condition
    that suffices.
 */
module CompactionReads {
  import opened InternalKeys
  import opened History
  import opened Versions
  import opened Selection
  import opened Compaction
  import opened Installs

  /** A compaction as the source runs it: inputs selected by the closure rules, outputs by the drop rules, then installed. */
  ghost predicate Compacted(v: Version, v': Version, level: nat, in0: seq<FileMeta>, in1: seq<FileMeta>, outs: seq<FileMeta>, ss: nat) {
    && level + 1 < NUM_LEVELS
    && SelectionClosed(level, v[level], v[level + 1], in0, in1)
    && CompactionInstalled(v, v', level, in0, in1, outs)
    && FilesContents(outs) == Kept(Inputs(in0, in1), BaseOf(v, level), ss)
  }

  /** The two versions as sets: what is left alone, and the inputs before and their kept part after. */
  lemma CompactedSets(v: Version, v': Version, level: nat, in0: seq<FileMeta>, in1: seq<FileMeta>, outs: seq<FileMeta>, ss: nat)
    requires VersionOk(v) && Compacted(v, v', level, in0, in1, outs, ss)
    ensures Contents(v) == Rest(v, level, in0, in1) + Inputs(in0, in1)
    ensures Contents(v') == Rest(v, level, in0, in1) + Kept(Inputs(in0, in1), BaseOf(v, level), ss)
    ensures Rest(v, level, in0, in1) !! Inputs(in0, in1)
  {
    SelectedAreMembers(v, level, in0, in1);
    RestAndInputs(v, level, in0, in1);
    RestIsDisjoint(v, level, in0, in1);
    InstalledContents(v, v', level, in0, in1, outs);
  }

  lemma LayeredExact(above: set<Entry>, before: set<Entry>, after: set<Entry>, rest: set<Entry>, inputs: set<Entry>,
                     base: UserKey -> bool, ss: nat)
    requires before == rest + inputs && after == rest + Kept(inputs, base, ss) && rest !! inputs
    requires above !! before && Distinct(above + before)
    ensures ReadsPreserved(above + before, above + after, ss)
            <==> forall t :: t in inputs ==> !ExposedBy(above + rest, inputs, base, ss, t)
  {
    assert above + before == (above + rest) + inputs;
    assert above + after == (above + rest) + Kept(inputs, base, ss);
    DropRulesExact(above + rest, inputs, base, ss);
  }

  /** Reads over the memtables (`above`) and the version are the same before and after a compaction, for every user
      key and every snapshot at or above the oldest one, if and only if no dropped tombstone exposes a value. */
  lemma CompactionReadsExact(above: set<Entry>, v: Version, v': Version, level: nat, in0: seq<FileMeta>, in1: seq<FileMeta>,
                             outs: seq<FileMeta>, ss: nat)
    requires VersionOk(v) && Compacted(v, v', level, in0, in1, outs, ss)
    requires above !! Contents(v) && Distinct(above + Contents(v))
    ensures ReadsPreserved(above + Contents(v), above + Contents(v'), ss)
            <==> forall t :: t in Inputs(in0, in1) ==> !ExposedBy(above + Rest(v, level, in0, in1), Inputs(in0, in1), BaseOf(v, level), ss, t)
  {
    CompactedSets(v, v', level, in0, in1, outs, ss);
    LayeredExact(above, Contents(v), Contents(v'), Rest(v, level, in0, in1), Inputs(in0, in1), BaseOf(v, level), ss);
  }

  ghost predicate AcrossTheCut(next: seq<FileMeta>, in1: seq<FileMeta>, f: FileMeta, g: FileMeta, u: UserKey) {
    f in in1 && g in next && g !in in1 && f.largest.user == u == g.smallest.user
  }

  /** Some file left behind begins inside the user key `u` at which a chosen file of the same level ends. */
  ghost predicate SplitBehind(next: seq<FileMeta>, in1: seq<FileMeta>, u: UserKey) {
    exists f, g :: AcrossTheCut(next, in1, f, g, u)
  }

  /** No chosen next-level file ends inside the user key at which a file left behind begins. The source closes the
      inputs of the compacted level this way, but not those of the next level. */
  ghost predicate NextLevelCut(next: seq<FileMeta>, in1: seq<FileMeta>) {
    forall u :: !SplitBehind(next, in1, u)
  }

  /** Below a dropped tombstone an older entry can only sit in a next-level file that splits the tombstone's user key. */
  lemma OlderEntryIsAcrossTheCut(v: Version, level: nat, in0: seq<FileMeta>, in1: seq<FileMeta>, t: Entry, y: Entry)
    requires VersionOk(v) && level + 1 < NUM_LEVELS
    requires SelectionClosed(level, v[level], v[level + 1], in0, in1)
    requires t in Inputs(in0, in1) && BaseLevel(v, level, t.key.user)
    requires y in Rest(v, level, in0, in1) && y.key.user == t.key.user && y.key.sequence < t.key.sequence
    ensures SplitBehind(v[level + 1], in1, t.key.user)
  {
    SelectedContents(v, level, in0, in1);
    NotElsewhere(v, level, in0, in1, t, y);
    assert ShapeOk(level + 1, v[level + 1]);
    NextLevelSplit(level + 1, v[level + 1], in0, in1, t, y);
  }

  lemma SelectedContents(v: Version, level: nat, in0: seq<FileMeta>, in1: seq<FileMeta>)
    requires VersionOk(v) && level + 1 < NUM_LEVELS
    requires SelectionClosed(level, v[level], v[level + 1], in0, in1)
    ensures FilesContents(in0) <= FilesContents(v[level]) && FilesContents(in1) <= FilesContents(v[level + 1])
    ensures FilesOk(in0)
  {
    SelectedAreMembers(v, level, in0, in1);
    ChosenSplit(v[level], in0);
    ChosenSplit(v[level + 1], in1);
  }

  lemma NextLevelSplit(level: nat, next: seq<FileMeta>, in0: seq<FileMeta>, in1: seq<FileMeta>, t: Entry, y: Entry)
    requires level > 0 && ShapeOk(level, next) && FilesOk(in0) && OverlapsChosen(next, in0, in1)
    requires t in Inputs(in0, in1) && y in Unchosen(next, in1)
    requires y.key.user == t.key.user && y.key.sequence < t.key.sequence
    ensures SplitBehind(next, in1, t.key.user)
  {
    var g :| g in next && g !in in1 && y in g.entries;
    NotInRange(next, in0, in1, g, y, t);
    var f :| f in in1 && t in f.entries;
    SplitUserKey(level, next, f, g, t, y);
    assert AcrossTheCut(next, in1, f, g, t.key.user);
  }

  /** The older entry is in the next level. */
  lemma NotElsewhere(v: Version, level: nat, in0: seq<FileMeta>, in1: seq<FileMeta>, t: Entry, y: Entry)
    requires VersionOk(v) && level + 1 < NUM_LEVELS && NoOlderLeft(v[level], in0)
    requires FilesContents(in0) <= FilesContents(v[level]) && FilesContents(in1) <= FilesContents(v[level + 1])
    requires t in Inputs(in0, in1) && BaseLevel(v, level, t.key.user)
    requires y in Rest(v, level, in0, in1) && y.key.user == t.key.user && y.key.sequence < t.key.sequence
    ensures y in Unchosen(v[level + 1], in1)
  {
    assert NewerThan(FilesContents(v[level]), FilesContents(v[level + 1]));
    assert y !in Unchosen(v[level], in0);
    forall l | 0 <= l < NUM_LEVELS && l != level && l != level + 1 ensures y !in FilesContents(v[l]) {
      if l < level {
        assert NewerThan(FilesContents(v[l]), FilesContents(v[level]));
        assert NewerThan(FilesContents(v[l]), FilesContents(v[level + 1]));
      } else {
        assert ShapeOk(l, v[l]);
        DeepEntriesAreCovered(v[l]);
      }
    }
  }

  lemma DeepEntriesAreCovered(fs: seq<FileMeta>)
    requires FilesOk(fs)
    ensures forall y :: y in FilesContents(fs) ==> Covered(fs, y.key.user)
  {
    FilesAreRanged(fs);
    forall y | y in FilesContents(fs) ensures Covered(fs, y.key.user) {
      var i :| 0 <= i < |fs| && y in fs[i].entries;
      assert fs[i] in fs;
    }
  }

  /** A next-level file left behind shares no user key with the inputs of the upper level. */
  lemma NotInRange(next: seq<FileMeta>, in0: seq<FileMeta>, in1: seq<FileMeta>, g: FileMeta, y: Entry, t: Entry)
    requires FilesOk(next) && FilesOk(in0) && OverlapsChosen(next, in0, in1)
    requires g in next && g !in in1 && y in g.entries && t in Inputs(in0, in1) && y.key.user == t.key.user
    ensures t in FilesContents(in1)
  {
    FilesAreRanged(next);
    FilesAreRanged(in0);
    var lo, hi :| Spans(in0, lo, hi) && in1 == Overlapping(next, Range(Some(lo), Some(hi)));
  }

  lemma SplitUserKey(level: nat, fs: seq<FileMeta>, f: FileMeta, g: FileMeta, t: Entry, y: Entry)
    requires level > 0 && ShapeOk(level, fs) && f in fs && g in fs && f != g
    requires t in f.entries && y in g.entries && y.key.user == t.key.user && y.key.sequence < t.key.sequence
    ensures f.largest.user == t.key.user == g.smallest.user
  {
    MembersFromPositions(fs);
    FilesAreRanged(fs);
    assert Apart(f, g);
  }

  /** If the next level's inputs are cut between user keys, a compaction changes no read. */
  lemma CutCompactionPreservesReads(above: set<Entry>, v: Version, v': Version, level: nat, in0: seq<FileMeta>, in1: seq<FileMeta>,
                                    outs: seq<FileMeta>, ss: nat)
    requires VersionOk(v) && Compacted(v, v', level, in0, in1, outs, ss)
    requires NewerThan(above, Contents(v)) && Distinct(above + Contents(v))
    requires NextLevelCut(v[level + 1], in1)
    ensures ReadsPreserved(above + Contents(v), above + Contents(v'), ss)
  {
    CompactedSets(v, v', level, in0, in1, outs, ss);
    CompactionReadsExact(above, v, v', level, in0, in1, outs, ss);
    forall t | t in Inputs(in0, in1)
      ensures !ExposedBy(above + Rest(v, level, in0, in1), Inputs(in0, in1), BaseOf(v, level), ss, t)
    {
      if BaseLevel(v, level, t.key.user) {
        RestIsNewer(v, level, in0, in1, t);
        NothingBelow(above, Contents(v), Rest(v, level, in0, in1), Inputs(in0, in1), t);
      }
    }
  }

  lemma RestIsNewer(v: Version, level: nat, in0: seq<FileMeta>, in1: seq<FileMeta>, t: Entry)
    requires VersionOk(v) && level + 1 < NUM_LEVELS
    requires SelectionClosed(level, v[level], v[level + 1], in0, in1)
    requires NextLevelCut(v[level + 1], in1) && t in Inputs(in0, in1) && BaseLevel(v, level, t.key.user)
    ensures forall y :: y in Rest(v, level, in0, in1) && y.key.user == t.key.user ==> t.key.sequence <= y.key.sequence
  {
    forall y | y in Rest(v, level, in0, in1) && y.key.user == t.key.user ensures t.key.sequence <= y.key.sequence {
      if y.key.sequence < t.key.sequence {
        OlderEntryIsAcrossTheCut(v, level, in0, in1, t, y);
        assert false;
      }
    }
  }

  /** With a clean cut, nothing at all is left below a tombstone at its base level. */
  lemma NothingBelow(above: set<Entry>, all: set<Entry>, rest: set<Entry>, inputs: set<Entry>, t: Entry)
    requires all == rest + inputs && rest !! inputs && t in inputs
    requires NewerThan(above, all) && Distinct(above + all)
    requires forall y :: y in rest && y.key.user == t.key.user ==> t.key.sequence <= y.key.sequence
    ensures ReadAt(above + rest, t.key.user, t.key.sequence) == NotFound
  {
    assert t in all;
  }
}
