/** Choosing the inputs of a compaction (db/version_set.cc: GetOverlappingInputs, AddBoundaryInputs,
    SetupOtherInputs, PickCompaction, CompactRange).
 */
module Selection {
  import opened InternalKeys
  import opened History
  import opened Versions

  // ---------------------------------------------------------------- user-key ranges

  /** A user-key range; `None` is an open end. */
  datatype Range = Range(begin: Option<UserKey>, end: Option<UserKey>)

  predicate Overlaps(f: FileMeta, r: Range) {
    && (r.begin.Some? ==> r.begin.value <= f.largest.user)
    && (r.end.Some? ==> f.smallest.user <= r.end.value)
  }

  predicate Inside(f: FileMeta, r: Range) {
    && (r.begin.Some? ==> r.begin.value <= f.smallest.user)
    && (r.end.Some? ==> f.largest.user <= r.end.value)
  }

  predicate Covers(wide: Range, narrow: Range) {
    && (wide.begin.Some? ==> narrow.begin.Some? && wide.begin.value <= narrow.begin.value)
    && (wide.end.Some? ==> narrow.end.Some? && narrow.end.value <= wide.end.value)
  }

  /** No file sticks out of the range it overlaps. */
  predicate ClosedRange(fs: seq<FileMeta>, r: Range) {
    forall f :: f in fs && Overlaps(f, r) ==> Inside(f, r)
  }

  function Overlapping(fs: seq<FileMeta>, r: Range): (out: seq<FileMeta>)
    ensures forall f :: f in out <==> f in fs && Overlaps(f, r)
    ensures |out| <= |fs|
  {
    if fs == [] then []
    else
      var rest := Overlapping(fs[..|fs| - 1], r);
      if Overlaps(fs[|fs| - 1], r) then rest + [fs[|fs| - 1]] else rest
  }

  /** How many files still stick out on either side: what a restart of the level-0 scan uses up. */
  ghost function Outside(fs: seq<FileMeta>, r: Range): nat {
    if fs == [] then 0
    else
      (if r.begin.Some? && fs[0].smallest.user < r.begin.value then 1 else 0)
      + (if r.end.Some? && r.end.value < fs[0].largest.user then 1 else 0)
      + Outside(fs[1..], r)
  }

  lemma {:induction false} OutsideShrinks(fs: seq<FileMeta>, wide: Range, narrow: Range)
    requires Covers(wide, narrow)
    requires wide.begin.Some? == narrow.begin.Some? && wide.end.Some? == narrow.end.Some?
    ensures Outside(fs, wide) <= Outside(fs, narrow)
    ensures (exists f :: f in fs && Inside(f, wide) && !Inside(f, narrow)) ==> Outside(fs, wide) < Outside(fs, narrow)
  {
    if fs != [] {
      OutsideShrinks(fs[1..], wide, narrow);
      assert forall f :: f in fs ==> f == fs[0] || f in fs[1..];
    }
  }

  /** All files of a level that overlap a range. At level 0 a file that sticks out widens the range and
      restarts the scan; the result is the least closed range and exactly the files in it. */
  method GetOverlappingInputs(level: nat, fs: seq<FileMeta>, r: Range) returns (inputs: seq<FileMeta>, ghost final: Range)
    ensures inputs == Overlapping(fs, final)
    ensures Covers(final, r)
    ensures level > 0 ==> final == r
    ensures level == 0 ==> ClosedRange(fs, final)
    ensures level == 0 ==> forall c :: Covers(c, r) && ClosedRange(fs, c) ==> Covers(c, final)
  {
    var cur := r;
    inputs := [];
    var i := 0;
    while i < |fs|
      invariant 0 <= i <= |fs|
      invariant inputs == Overlapping(fs[..i], cur)
      invariant Covers(cur, r) && cur.begin.Some? == r.begin.Some? && cur.end.Some? == r.end.Some?
      invariant level > 0 ==> cur == r
      invariant level == 0 ==> ClosedRange(fs[..i], cur)
      invariant level == 0 ==> forall c :: Covers(c, r) && ClosedRange(fs, c) ==> Covers(c, cur)
      decreases Outside(fs, cur), |fs| - i
    {
      var f := fs[i];
      assert fs[..i + 1][..i] == fs[..i];
      assert f in fs;
      i := i + 1;
      if Overlaps(f, cur) {
        inputs := inputs + [f];
        if level == 0 {
          var wide := cur;
          if cur.begin.Some? && f.smallest.user < cur.begin.value {
            wide := Range(Some(f.smallest.user), cur.end);
          } else if cur.end.Some? && cur.end.value < f.largest.user {
            wide := Range(cur.begin, Some(f.largest.user));
          }
          if wide != cur {
            WidenStep(fs, f, cur, wide);
            cur, inputs, i := wide, [], 0;
          }
        }
      }
    }
    assert fs[..|fs|] == fs;
    final := cur;
  }

  /** Widening to a file that overlaps the range stays below every closed range and uses up a file that stuck out. */
  lemma WidenStep(fs: seq<FileMeta>, f: FileMeta, cur: Range, wide: Range)
    requires f in fs && Overlaps(f, cur) && Covers(wide, cur) && !Inside(f, cur)
    requires cur.begin.Some? == wide.begin.Some? && cur.end.Some? == wide.end.Some?
    requires wide.begin == cur.begin || wide.begin == Some(f.smallest.user)
    requires wide.end == cur.end || wide.end == Some(f.largest.user)
    requires wide != cur
    ensures Outside(fs, wide) < Outside(fs, cur)
    ensures forall c :: Covers(c, cur) && ClosedRange(fs, c) ==> Covers(c, wide)
  {
    OutsideDrops(fs, f, cur, wide);
    forall c | Covers(c, cur) && ClosedRange(fs, c) ensures Covers(c, wide) {
      assert Overlaps(f, c);
    }
  }

  lemma {:induction false} OutsideDrops(fs: seq<FileMeta>, f: FileMeta, cur: Range, wide: Range)
    requires f in fs && Covers(wide, cur) && wide != cur
    requires cur.begin.Some? == wide.begin.Some? && cur.end.Some? == wide.end.Some?
    requires wide.begin == cur.begin || wide.begin == Some(f.smallest.user)
    requires wide.end == cur.end || wide.end == Some(f.largest.user)
    ensures Outside(fs, wide) < Outside(fs, cur)
  {
    OutsideShrinks(fs[1..], wide, cur);
    if f != fs[0] {
      assert f in fs[1..];
      OutsideDrops(fs[1..], f, cur, wide);
    }
  }

  // ---------------------------------------------------------------- ranges of file lists

  ghost predicate IsKeyRange(fs: seq<FileMeta>, smallest: InternalKey, largest: InternalKey) {
    && (exists f :: f in fs && f.smallest == smallest)
    && (exists f :: f in fs && f.largest == largest)
    && (forall f :: f in fs ==> AtMost(smallest, f.smallest) && AtMost(f.largest, largest))
  }

  /** The minimal range covering a list of files (GetRange). */
  method GetRange(fs: seq<FileMeta>) returns (smallest: InternalKey, largest: InternalKey)
    requires fs != []
    ensures IsKeyRange(fs, smallest, largest)
  {
    smallest, largest := fs[0].smallest, fs[0].largest;
    for i := 1 to |fs|
      invariant exists f :: f in fs && f.smallest == smallest
      invariant exists f :: f in fs && f.largest == largest
      invariant forall j :: 0 <= j < i ==> AtMost(smallest, fs[j].smallest) && AtMost(fs[j].largest, largest)
    {
      if Before(fs[i].smallest, smallest) { smallest := fs[i].smallest; }
      if Before(largest, fs[i].largest) { largest := fs[i].largest; }
    }
  }

  // ---------------------------------------------------------------- boundary files

  /** `f` starts after `largest` inside the same user key: leaving it behind would leave older entries above newer ones. */
  predicate IsBoundary(f: FileMeta, largest: InternalKey) {
    Before(largest, f.smallest) && f.smallest.user == largest.user
  }

  method FindSmallestBoundaryFile(fs: seq<FileMeta>, largest: InternalKey) returns (b: Option<FileMeta>)
    ensures b.None? ==> forall f :: f in fs ==> !IsBoundary(f, largest)
    ensures b.Some? ==> b.value in fs && IsBoundary(b.value, largest)
    ensures b.Some? ==> forall f :: f in fs && IsBoundary(f, largest) ==> AtMost(b.value.smallest, f.smallest)
  {
    b := None;
    for i := 0 to |fs|
      invariant b.None? ==> forall j :: 0 <= j < i ==> !IsBoundary(fs[j], largest)
      invariant b.Some? ==> b.value in fs && IsBoundary(b.value, largest)
      invariant b.Some? ==> forall j :: 0 <= j < i && IsBoundary(fs[j], largest) ==> AtMost(b.value.smallest, fs[j].smallest)
    {
      if IsBoundary(fs[i], largest) {
        if b.None? || Before(fs[i].smallest, b.value.smallest) {
          b := Some(fs[i]);
        }
      }
    }
  }

  ghost predicate IsLargest(fs: seq<FileMeta>, largest: InternalKey) {
    (exists f :: f in fs && f.largest == largest) && forall f :: f in fs ==> AtMost(f.largest, largest)
  }

  ghost predicate NoBoundary(fs: seq<FileMeta>, chosen: seq<FileMeta>) {
    forall largest, f :: IsLargest(chosen, largest) && f in fs ==> !IsBoundary(f, largest)
  }

  predicate SliceAt(fs: seq<FileMeta>, xs: seq<FileMeta>, i: int, j: int) {
    0 <= i < j <= |fs| && xs == fs[i..j]
  }

  /** A run of neighbours. */
  ghost predicate IsSlice(fs: seq<FileMeta>, xs: seq<FileMeta>) {
    exists i, j :: SliceAt(fs, xs, i, j)
  }

  /** The next file, if any, starts at a later user key. */
  predicate CleanCut(fs: seq<FileMeta>, j: nat)
    requires 0 < j <= |fs|
  {
    j == |fs| || fs[j - 1].largest.user < fs[j].smallest.user
  }

  ghost predicate IsClosedSlice(fs: seq<FileMeta>, xs: seq<FileMeta>) {
    exists i, j :: SliceAt(fs, xs, i, j) && CleanCut(fs, j)
  }

  ghost function After(fs: seq<FileMeta>, key: InternalKey): nat {
    if fs == [] then 0 else (if Before(key, fs[0].smallest) then 1 else 0) + After(fs[1..], key)
  }

  lemma {:induction false} AfterDrops(fs: seq<FileMeta>, f: FileMeta, key: InternalKey, key': InternalKey)
    requires Before(key, key')
    ensures After(fs, key') <= After(fs, key)
    ensures f in fs && Before(key, f.smallest) && AtMost(f.smallest, key') ==> After(fs, key') < After(fs, key)
  {
    if fs != [] {
      AfterDrops(fs[1..], f, key, key');
    }
  }

  /** In a sorted level both bounds increase from file to file. */
  lemma BoundsIncrease(fs: seq<FileMeta>)
    requires Ranged(fs) && DisjointSorted(fs)
    ensures forall a, b :: 0 <= a < b < |fs| ==> Before(fs[a].smallest, fs[b].smallest) && Before(fs[a].largest, fs[b].largest)
  {
  }

  /** In a sorted level the last of a run of files has the largest key. */
  lemma LastIsLargest(fs: seq<FileMeta>, i: nat, j: nat)
    requires Ranged(fs) && DisjointSorted(fs) && i < j <= |fs|
    ensures IsLargest(fs[i..j], fs[j - 1].largest)
  {
    BoundsIncrease(fs);
    assert fs[j - 1] == fs[i..j][j - 1 - i];
  }

  /** In a sorted level the smallest boundary file is the very next file. */
  lemma NextFileIsBoundary(fs: seq<FileMeta>, j: nat, m: nat)
    requires Ranged(fs) && DisjointSorted(fs)
    requires 0 < j <= |fs| && m < |fs|
    requires IsBoundary(fs[m], fs[j - 1].largest)
    requires forall k :: 0 <= k < |fs| && IsBoundary(fs[k], fs[j - 1].largest) ==> AtMost(fs[m].smallest, fs[k].smallest)
    ensures m == j
  {
    BoundsIncrease(fs);
    assert j <= m;
    assert Before(fs[j - 1].largest, fs[j].smallest);
  }

  /** Extend the chosen files with boundary files until none is left (AddBoundaryInputs). */
  method AddBoundaryInputs(fs: seq<FileMeta>, chosen: seq<FileMeta>) returns (out: seq<FileMeta>)
    requires FilesOk(fs)
    ensures chosen <= out
    ensures NoBoundary(fs, chosen) ==> out == chosen
    ensures NoBoundary(fs, out)
    ensures DisjointSorted(fs) && IsSlice(fs, chosen) ==> IsSlice(fs, out)
  {
    out := chosen;
    if chosen == [] {
      return;
    }
    var _, largest := GetRange(chosen);
    var searching := true;
    while searching
      invariant chosen <= out && IsLargest(out, largest)
      invariant searching || forall f :: f in fs ==> !IsBoundary(f, largest)
      invariant NoBoundary(fs, chosen) ==> out == chosen
      invariant DisjointSorted(fs) && IsSlice(fs, chosen) ==> IsSlice(fs, out)
      decreases After(fs, largest), searching
    {
      var b := FindSmallestBoundaryFile(fs, largest);
      if b.Some? {
        FileBounds(b.value);
        AfterDrops(fs, b.value, largest, b.value.largest);
        if DisjointSorted(fs) && IsSlice(fs, out) {
          FilesAreRanged(fs);
          ExtendSlice(fs, out, largest, b.value);
        }
        ExtendLargest(out, largest, b.value);
        out, largest := out + [b.value], b.value.largest;
      } else {
        searching := false;
      }
    }
    LargestUnique(out, largest);
  }

  lemma LargestUnique(fs: seq<FileMeta>, largest: InternalKey)
    requires IsLargest(fs, largest)
    ensures forall k :: IsLargest(fs, k) ==> k == largest
  {
    forall k | IsLargest(fs, k) ensures k == largest {
      var f :| f in fs && f.largest == k;
      var g :| g in fs && g.largest == largest;
      assert AtMost(k, largest) && AtMost(largest, k);
      SameKey(k, largest);
    }
  }

  lemma SameKey(a: InternalKey, b: InternalKey)
    requires AtMost(a, b) && AtMost(b, a)
    ensures a == b
  {
  }

  lemma ExtendLargest(out: seq<FileMeta>, largest: InternalKey, b: FileMeta)
    requires IsLargest(out, largest) && Before(largest, b.largest)
    ensures IsLargest(out + [b], b.largest)
  {
    assert b in out + [b];
  }

  lemma ExtendSlice(fs: seq<FileMeta>, out: seq<FileMeta>, largest: InternalKey, b: FileMeta)
    requires Ranged(fs) && DisjointSorted(fs) && IsSlice(fs, out) && IsLargest(out, largest)
    requires b in fs && IsBoundary(b, largest)
    requires forall f :: f in fs && IsBoundary(f, largest) ==> AtMost(b.smallest, f.smallest)
    ensures IsSlice(fs, out + [b])
  {
    var i, j :| SliceAt(fs, out, i, j);
    SliceLargest(fs, out, i, j, largest);
    var m :| 0 <= m < |fs| && fs[m] == b;
    NextFileIsBoundary(fs, j, m);
    AppendNext(fs, out, i, j);
  }

  lemma SliceLargest(fs: seq<FileMeta>, out: seq<FileMeta>, i: nat, j: nat, largest: InternalKey)
    requires Ranged(fs) && DisjointSorted(fs) && SliceAt(fs, out, i, j) && IsLargest(out, largest)
    ensures largest == fs[j - 1].largest
  {
    LastIsLargest(fs, i, j);
    LargestUnique(out, largest);
  }

  lemma AppendNext(fs: seq<FileMeta>, out: seq<FileMeta>, i: nat, j: nat)
    requires SliceAt(fs, out, i, j) && j < |fs|
    ensures IsSlice(fs, out + [fs[j]])
  {
    assert SliceAt(fs, out + [fs[j]], i, j + 1);
  }

  // ---------------------------------------------------------------- closure of a selection

  ghost function Unchosen(fs: seq<FileMeta>, chosen: seq<FileMeta>): set<Entry> {
    set f, e | f in fs && f !in chosen && e in f.entries :: e
  }

  /** Nothing older than a chosen entry of the same user key is left behind in the level. */
  ghost predicate NoOlderLeft(fs: seq<FileMeta>, chosen: seq<FileMeta>) {
    NewerThan(Unchosen(fs, chosen), FilesContents(chosen))
  }

  /** A start set as PickCompaction and CompactRange build it: a run of neighbours, or at level 0 all files of a closed range. */
  ghost predicate SeedOk(level: nat, fs: seq<FileMeta>, seed: seq<FileMeta>) {
    && seed != []
    && (level > 0 ==> IsSlice(fs, seed))
    && (level == 0 ==> exists r :: ClosedRange(fs, r) && seed == Overlapping(fs, r))
  }

  /** A start set closed under boundary files. */
  ghost predicate ClosedInLevel(level: nat, fs: seq<FileMeta>, chosen: seq<FileMeta>) {
    && chosen != []
    && (level > 0 ==> IsClosedSlice(fs, chosen))
    && (level == 0 ==> exists r :: ClosedRange(fs, r) && chosen == Overlapping(fs, r))
  }

  lemma ClosedRangeHasNoBoundary(fs: seq<FileMeta>, r: Range)
    requires FilesOk(fs) && ClosedRange(fs, r)
    ensures NoBoundary(fs, Overlapping(fs, r))
  {
    var chosen := Overlapping(fs, r);
    forall largest, f | IsLargest(chosen, largest) && f in fs ensures !IsBoundary(f, largest) {
      var g :| g in chosen && g.largest == largest;
      FileBounds(f);
      FileBounds(g);
      assert IsBoundary(f, largest) ==> Overlaps(f, r);
      assert f in chosen ==> AtMost(f.largest, largest);
    }
  }

  lemma ClosedRangeLeavesNothing(fs: seq<FileMeta>, r: Range)
    requires FilesOk(fs) && ClosedRange(fs, r)
    ensures NoOlderLeft(fs, Overlapping(fs, r))
  {
    var chosen := Overlapping(fs, r);
    forall x, y | x in Unchosen(fs, chosen) && y in FilesContents(chosen)
      ensures x.key.user != y.key.user
    {
      var g :| g in fs && g !in chosen && x in g.entries;
      var f :| f in chosen && y in f.entries;
      FileInRange(g, x);
      FileInRange(f, y);
      assert Inside(f, r) && !Overlaps(g, r);
    }
  }

  lemma NoBoundaryIsCleanCut(fs: seq<FileMeta>, chosen: seq<FileMeta>)
    requires Ranged(fs) && DisjointSorted(fs) && IsSlice(fs, chosen) && NoBoundary(fs, chosen)
    ensures IsClosedSlice(fs, chosen)
  {
    var i, j :| SliceAt(fs, chosen, i, j);
    LastIsLargest(fs, i, j);
    if j < |fs| {
      assert fs[j] in fs && !IsBoundary(fs[j], fs[j - 1].largest);
    }
    assert CleanCut(fs, j);
  }

  /** A file outside a cleanly cut run either precedes it or shares no user key with it. */
  lemma OutsideTheSlice(fs: seq<FileMeta>, i: nat, j: nat, m: nat, n: nat)
    requires Ranged(fs) && DisjointSorted(fs)
    requires i <= n < j <= |fs| && CleanCut(fs, j) && m < |fs| && (m < i || j <= m)
    ensures Before(fs[m].largest, fs[n].smallest) || fs[n].largest.user < fs[m].smallest.user
  {
    BoundsIncrease(fs);
  }

  lemma UnchosenBefore(fs: seq<FileMeta>, i: nat, j: nat, g: FileMeta, f: FileMeta)
    requires Ranged(fs) && DisjointSorted(fs)
    requires i < j <= |fs| && CleanCut(fs, j)
    requires g in fs && g !in fs[i..j] && f in fs[i..j]
    ensures Before(g.largest, f.smallest) || f.largest.user < g.smallest.user
  {
    var m :| 0 <= m < |fs| && fs[m] == g;
    var n :| i <= n < j && fs[n] == f;
    forall k | i <= k < j ensures fs[k] in fs[i..j] {
      assert fs[k] == fs[i..j][k - i];
    }
    OutsideTheSlice(fs, i, j, m, n);
  }

  lemma SliceLeavesNothing(fs: seq<FileMeta>, i: nat, j: nat)
    requires Ranged(fs) && EntriesInRange(fs) && DisjointSorted(fs) && Distinct(FilesContents(fs))
    requires i < j <= |fs| && CleanCut(fs, j)
    ensures NoOlderLeft(fs, fs[i..j])
  {
    forall x, y | x in Unchosen(fs, fs[i..j]) && y in FilesContents(fs[i..j]) && x.key.user == y.key.user
      ensures x.key.sequence > y.key.sequence
    {
      var g :| g in fs && g !in fs[i..j] && x in g.entries;
      var f :| f in fs[i..j] && y in f.entries;
      UnchosenBefore(fs, i, j, g, f);
      assert f in fs;
      assert Before(x.key, y.key);
      assert x in FilesContents(fs) && y in FilesContents(fs);
    }
  }

  lemma ClosedLeavesNothing(level: nat, fs: seq<FileMeta>, chosen: seq<FileMeta>)
    requires LevelOk(level, fs) && ClosedInLevel(level, fs, chosen)
    ensures NoOlderLeft(fs, chosen)
    ensures forall f :: f in chosen ==> f in fs
  {
    if level > 0 {
      var i, j :| SliceAt(fs, chosen, i, j) && CleanCut(fs, j);
      FilesAreRanged(fs);
      SliceLeavesNothing(fs, i, j);
    } else {
      var r :| ClosedRange(fs, r) && chosen == Overlapping(fs, r);
      ClosedRangeLeavesNothing(fs, r);
    }
  }

  /** Closing a start set under boundary files keeps its shape. */
  lemma BoundaryClosed(level: nat, fs: seq<FileMeta>, seed: seq<FileMeta>, out: seq<FileMeta>)
    requires LevelOk(level, fs) && SeedOk(level, fs, seed)
    requires NoBoundary(fs, out) && seed <= out
    requires NoBoundary(fs, seed) ==> out == seed
    requires DisjointSorted(fs) && IsSlice(fs, seed) ==> IsSlice(fs, out)
    ensures ClosedInLevel(level, fs, out)
  {
    if level > 0 {
      FilesAreRanged(fs);
      NoBoundaryIsCleanCut(fs, out);
    } else {
      var r :| ClosedRange(fs, r) && seed == Overlapping(fs, r);
      ClosedRangeHasNoBoundary(fs, r);
    }
  }

  /** The user-key range a list of files spans. */
  ghost predicate Spans(fs: seq<FileMeta>, lo: UserKey, hi: UserKey) {
    && (exists f :: f in fs && f.smallest.user == lo)
    && (exists f :: f in fs && f.largest.user == hi)
    && (forall f :: f in fs ==> lo <= f.smallest.user && f.largest.user <= hi)
  }

  /** All files of the next level that overlap the range of the chosen ones. */
  ghost predicate OverlapsChosen(next: seq<FileMeta>, in0: seq<FileMeta>, in1: seq<FileMeta>) {
    exists lo, hi :: Spans(in0, lo, hi) && in1 == Overlapping(next, Range(Some(lo), Some(hi)))
  }

  /** What the source promises of a finished selection from files `fs` and the next level's files `next`. */
  ghost predicate SelectionClosed(level: nat, fs: seq<FileMeta>, next: seq<FileMeta>, in0: seq<FileMeta>, in1: seq<FileMeta>) {
    && ClosedInLevel(level, fs, in0)
    && NoOlderLeft(fs, in0)
    && OverlapsChosen(next, in0, in1)
  }

  function TotalSize(fs: seq<FileMeta>): nat {
    if fs == [] then 0 else TotalSize(fs[..|fs| - 1]) + fs[|fs| - 1].size
  }

  /** The files of the next level that overlap the range of `in0`. */
  method NextLevelInputs(level: nat, next: seq<FileMeta>, in0: seq<FileMeta>) returns (in1: seq<FileMeta>)
    requires in0 != []
    ensures OverlapsChosen(next, in0, in1)
  {
    var smallest, largest := GetRange(in0);
    ghost var final;
    in1, final := GetOverlappingInputs(level + 1, next, Range(Some(smallest.user), Some(largest.user)));
    assert Spans(in0, smallest.user, largest.user);
  }

  /** Boundary closure of a start set. */
  method CloseUnderBoundary(level: nat, fs: seq<FileMeta>, seed: seq<FileMeta>) returns (out: seq<FileMeta>)
    requires LevelOk(level, fs) && SeedOk(level, fs, seed)
    ensures ClosedInLevel(level, fs, out) && NoOlderLeft(fs, out)
    ensures forall f :: f in out ==> f in fs
    ensures forall f :: f in seed ==> f in out
  {
    out := AddBoundaryInputs(fs, seed);
    BoundaryClosed(level, fs, seed, out);
    ClosedLeavesNothing(level, fs, out);
  }

  /** Every file of the level that overlaps the range of both input lists, again closed under boundary files. */
  method Expand(level: nat, fs: seq<FileMeta>, in0: seq<FileMeta>, in1: seq<FileMeta>) returns (out: seq<FileMeta>)
    requires LevelOk(level, fs)
    requires in0 != [] && forall f :: f in in0 ==> f in fs
    ensures ClosedInLevel(level, fs, out) && NoOlderLeft(fs, out)
    ensures forall f :: f in in0 ==> f in out
  {
    var start, limit := GetRange(in0 + in1);
    var expanded, final := GetOverlappingInputs(level, fs, Range(Some(start.user), Some(limit.user)));
    CoveredByExpansion(fs, in0, in1, start, limit, final);
    ExpansionIsSeed(level, fs, in0, final);
    out := CloseUnderBoundary(level, fs, expanded);
  }

  /** Close a start set under boundary files and overlap, and grow it if the next level's inputs stay the same
      (SetupOtherInputs). `expandLimit` is the byte limit for the grown selection. */
  method SetupOtherInputs(level: nat, fs: seq<FileMeta>, next: seq<FileMeta>, seed: seq<FileMeta>, expandLimit: nat)
    returns (in0: seq<FileMeta>, in1: seq<FileMeta>)
    requires LevelOk(level, fs) && SeedOk(level, fs, seed)
    ensures SelectionClosed(level, fs, next, in0, in1)
    ensures forall f :: f in seed ==> f in in0
  {
    in0 := CloseUnderBoundary(level, fs, seed);
    in1 := NextLevelInputs(level, next, in0);
    if in1 != [] {
      var grown := Expand(level, fs, in0, in1);
      if |grown| > |in0| && TotalSize(in1) + TotalSize(grown) < expandLimit {
        var grownNext := NextLevelInputs(level, next, grown);
        if |grownNext| == |in1| {
          in0, in1 := grown, grownNext;
        }
      }
    }
  }

  /** The expansion keeps every file chosen so far. */
  lemma CoveredByExpansion(fs: seq<FileMeta>, in0: seq<FileMeta>, in1: seq<FileMeta>, start: InternalKey, limit: InternalKey, final: Range)
    requires FilesOk(fs) && forall f :: f in in0 ==> f in fs
    requires IsKeyRange(in0 + in1, start, limit)
    requires Covers(final, Range(Some(start.user), Some(limit.user)))
    ensures forall f :: f in in0 ==> f in Overlapping(fs, final)
  {
    forall f | f in in0 ensures f in Overlapping(fs, final) {
      FileBounds(f);
      assert f in in0 + in1;
    }
  }

  lemma ExpansionIsSeed(level: nat, fs: seq<FileMeta>, in0: seq<FileMeta>, final: Range)
    requires LevelOk(level, fs)
    requires in0 != [] && forall f :: f in in0 ==> f in Overlapping(fs, final)
    requires level == 0 ==> ClosedRange(fs, final)
    ensures SeedOk(level, fs, Overlapping(fs, final))
  {
    assert in0[0] in Overlapping(fs, final);
    if level > 0 {
      FilesAreRanged(fs);
      OverlappingIsSlice(fs, final);
    }
  }

  /** In a sorted level the files overlapping a range are neighbours. */
  lemma {:induction false} OverlappingIsSlice(fs: seq<FileMeta>, r: Range)
    requires Ranged(fs) && DisjointSorted(fs)
    ensures Overlapping(fs, r) != [] ==> IsSlice(fs, Overlapping(fs, r))
  {
    if fs != [] {
      var n := |fs| - 1;
      OverlappingIsSlice(fs[..n], r);
      var rest := Overlapping(fs[..n], r);
      if rest != [] {
        var i, j :| SliceAt(fs[..n], rest, i, j);
        SliceGrows(fs, rest, i, j, r);
      } else if Overlaps(fs[n], r) {
        assert Overlapping(fs, r) == [fs[n]];
        assert SliceAt(fs, [fs[n]], n, n + 1);
      }
    }
  }

  lemma SliceGrows(fs: seq<FileMeta>, rest: seq<FileMeta>, i: nat, j: nat, r: Range)
    requires Ranged(fs) && DisjointSorted(fs) && fs != []
    requires SliceAt(fs[..|fs| - 1], rest, i, j) && rest == Overlapping(fs[..|fs| - 1], r)
    ensures IsSlice(fs, Overlapping(fs, r))
  {
    var n := |fs| - 1;
    assert SliceAt(fs, rest, i, j);
    if Overlaps(fs[n], r) {
      assert fs[i] == rest[0];
      NoGap(fs, i, j, n, r);
      AppendNext(fs, rest, i, j);
    }
  }

  /** Files between two that overlap a range overlap it too. */
  lemma Between(fs: seq<FileMeta>, i: nat, j: nat, n: nat, r: Range)
    requires Ranged(fs) && DisjointSorted(fs)
    requires i <= j <= n < |fs| && Overlaps(fs[i], r) && Overlaps(fs[n], r)
    ensures Overlaps(fs[j], r)
  {
    BoundsIncrease(fs);
  }

  lemma NoGap(fs: seq<FileMeta>, i: nat, j: nat, n: nat, r: Range)
    requires Ranged(fs) && DisjointSorted(fs)
    requires i < j <= n < |fs| && Overlaps(fs[i], r) && Overlaps(fs[n], r)
    requires Overlapping(fs[..n], r) == fs[i..j]
    ensures j == n
  {
    BoundsIncrease(fs);
    Between(fs, i, j, n, r);
    assert fs[j] !in fs[i..j];
    forall k | 0 <= k < n ensures fs[k] in fs[..n] {
      assert fs[k] == fs[..n][k];
    }
  }

  // ---------------------------------------------------------------- starting points

  /** At level 0 a file takes along everything it overlaps. */
  method OverlappingFile(fs: seq<FileMeta>, f: FileMeta) returns (seed: seq<FileMeta>)
    requires FilesOk(fs) && f in fs
    ensures f in seed && exists r :: ClosedRange(fs, r) && seed == Overlapping(fs, r)
  {
    var smallest, largest := GetRange([f]);
    ghost var final;
    seed, final := GetOverlappingInputs(0, fs, Range(Some(smallest.user), Some(largest.user)));
    FileBounds(f);
    assert f in [f];
    assert Overlaps(f, final);
  }

  /** A size- or seek-triggered compaction starts from one file; at level 0 from everything it overlaps (PickCompaction). */
  method PickCompaction(level: nat, fs: seq<FileMeta>, next: seq<FileMeta>, f: FileMeta, expandLimit: nat)
    returns (in0: seq<FileMeta>, in1: seq<FileMeta>)
    requires LevelOk(level, fs) && f in fs
    ensures SelectionClosed(level, fs, next, in0, in1)
    ensures f in in0
  {
    var seed := [f];
    if level == 0 {
      seed := OverlappingFile(fs, f);
    } else {
      ghost var i :| 0 <= i < |fs| && fs[i] == f;
      assert SliceAt(fs, [f], i, i + 1);
    }
    in0, in1 := SetupOtherInputs(level, fs, next, seed, expandLimit);
  }

  /** Keep files from the front until `limit` bytes are reached. */
  method Truncate(files: seq<FileMeta>, limit: nat) returns (part: seq<FileMeta>)
    requires files != []
    ensures part <= files && part != []
    ensures part == files || TotalSize(part) >= limit
    ensures forall n :: 0 < n < |part| ==> TotalSize(files[..n]) < limit
  {
    var total, i := 0, 0;
    while i < |files|
      invariant 0 <= i <= |files|
      invariant total == TotalSize(files[..i])
      invariant forall n :: 0 < n <= i ==> TotalSize(files[..n]) < limit
    {
      assert files[..i + 1][..i] == files[..i];
      total := total + files[i].size;
      if total >= limit {
        return files[..i + 1];
      }
      i := i + 1;
    }
    return files;
  }

  /** A manual compaction takes the files of a range, above level 0 only until `fileLimit` bytes are reached (CompactRange). */
  method CompactRange(level: nat, fs: seq<FileMeta>, next: seq<FileMeta>, r: Range, fileLimit: nat, expandLimit: nat)
    returns (work: bool, in0: seq<FileMeta>, in1: seq<FileMeta>)
    requires LevelOk(level, fs)
    ensures work <==> exists f :: f in fs && Overlaps(f, r)
    ensures work ==> SelectionClosed(level, fs, next, in0, in1)
  {
    var inputs, final := GetOverlappingInputs(level, fs, r);
    in0, in1 := [], [];
    work := inputs != [];
    RangeHasWork(level, fs, r, final);
    if work {
      if level > 0 {
        FilesAreRanged(fs);
        OverlappingIsSlice(fs, r);
        var part := Truncate(inputs, fileLimit);
        PrefixIsSlice(fs, inputs, part);
        inputs := part;
      }
      in0, in1 := SetupOtherInputs(level, fs, next, inputs, expandLimit);
    }
  }

  lemma PrefixIsSlice(fs: seq<FileMeta>, all: seq<FileMeta>, part: seq<FileMeta>)
    requires IsSlice(fs, all) && part <= all && part != []
    ensures IsSlice(fs, part)
  {
    var i, j :| SliceAt(fs, all, i, j);
    assert SliceAt(fs, part, i, i + |part|);
  }

  /** The least closed range never picks files up from a range that overlaps none. */
  lemma {:induction false} RangeHasWork(level: nat, fs: seq<FileMeta>, r: Range, final: Range)
    requires Covers(final, r)
    requires level > 0 ==> final == r
    requires level == 0 ==> forall c :: Covers(c, r) && ClosedRange(fs, c) ==> Covers(c, final)
    ensures Overlapping(fs, final) != [] <==> exists f :: f in fs && Overlaps(f, r)
  {
    if f :| f in fs && Overlaps(f, r) {
      assert f in Overlapping(fs, final);
    } else if level == 0 {
      assert ClosedRange(fs, r);
      NothingOverlaps(fs, final, r);
    } else {
      NothingOverlaps(fs, final, r);
    }
  }

  lemma NothingOverlaps(fs: seq<FileMeta>, final: Range, r: Range)
    requires Covers(r, final) && !exists f :: f in fs && Overlaps(f, r)
    ensures Overlapping(fs, final) == []
  {
    var fs' := Overlapping(fs, final);
    if fs' != [] {
      assert fs'[0] in fs';
      assert Overlaps(fs'[0], r);
      assert false;
    }
  }
}
