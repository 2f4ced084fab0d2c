/** Version edits and the builder that applies them (db/version_edit.h, db/version_set.cc: VersionSet::Builder,
    LogAndApply, Recover).
 */
module VersionEdits {
  import opened InternalKeys
  import opened Versions

  datatype VersionEdit = VersionEdit(
    logNumber: Option<nat>, nextFile: Option<nat>, lastSequence: Option<nat>,
    deleted: set<(nat, nat)>, added: seq<(nat, FileMeta)>)

  predicate LevelsInRange(edit: VersionEdit) {
    && (forall d :: d in edit.deleted ==> d.0 < NUM_LEVELS)
    && (forall a :: a in edit.added ==> a.0 < NUM_LEVELS)
  }

  // ---------------------------------------------------------------- what an edit means

  /** A version as one set of files per level. */
  type Levels = s: seq<set<FileMeta>> | |s| == NUM_LEVELS witness [{}, {}, {}, {}, {}, {}, {}]

  ghost function SetsOf(v: Version): Levels {
    seq(NUM_LEVELS, l requires 0 <= l < NUM_LEVELS => set f | f in v[l])
  }

  ghost function AddedTo(edit: VersionEdit, l: nat): set<FileMeta> {
    set a | a in edit.added && a.0 == l :: a.1
  }

  ghost function NextLevel(files: set<FileMeta>, edit: VersionEdit, l: nat): set<FileMeta> {
    (set f | f in files && (l, f.number) !in edit.deleted) + AddedTo(edit, l)
  }

  /** Deleted files out, added files in. */
  ghost function Next(s: Levels, edit: VersionEdit): Levels {
    seq(NUM_LEVELS, l requires 0 <= l < NUM_LEVELS => NextLevel(s[l], edit, l))
  }

  ghost function Replay(s: Levels, edits: seq<VersionEdit>): Levels {
    if edits == [] then s else Next(Replay(s, edits[..|edits| - 1]), edits[|edits| - 1])
  }

  const NO_FILES: Version := [[], [], [], [], [], [], []]

  // ---------------------------------------------------------------- sorted file lists

  predicate SameSlot(f: FileMeta, g: FileMeta) {
    f.smallest == g.smallest && f.number == g.number
  }

  /** Insertion into the ordered set of added files; an element that compares equal is not replaced. */
  method InsertFile(fs: seq<FileMeta>, f: FileMeta) returns (out: seq<FileMeta>)
    requires SortedBySmallest(fs)
    ensures SortedBySmallest(out)
    ensures if exists g :: g in fs && SameSlot(f, g) then out == fs else forall g :: g in out <==> g in fs || g == f
  {
    var i := 0;
    while i < |fs| && BySmallest(fs[i], f)
      invariant 0 <= i <= |fs|
      invariant forall j :: 0 <= j < i ==> BySmallest(fs[j], f)
    {
      i := i + 1;
    }
    if i < |fs| && SameSlot(f, fs[i]) {
      assert fs[i] in fs;
      return fs;
    }
    BySmallestTotal(fs, f, i);
    out := fs[..i] + [f] + fs[i..];
    assert forall k :: 0 <= k < |out| ==> out[k] == if k < i then fs[k] else if k == i then f else fs[k - 1];
    InsertedElements(fs, f, i, out);
  }

  lemma BySmallestTotal(fs: seq<FileMeta>, f: FileMeta, i: nat)
    requires SortedBySmallest(fs) && i <= |fs|
    requires forall j :: 0 <= j < i ==> BySmallest(fs[j], f)
    requires i < |fs| ==> !BySmallest(fs[i], f) && !SameSlot(f, fs[i])
    ensures forall j :: i <= j < |fs| ==> BySmallest(f, fs[j])
    ensures forall g :: g in fs ==> !SameSlot(f, g)
  {
    forall j | i <= j < |fs| ensures BySmallest(f, fs[j]) {
      KeyTotal(f, fs[i]);
      assert i < j ==> BySmallest(fs[i], fs[j]);
    }
    forall g | g in fs ensures !SameSlot(f, g) {
      var j :| 0 <= j < |fs| && fs[j] == g;
    }
  }

  lemma KeyTotal(f: FileMeta, g: FileMeta)
    ensures BySmallest(f, g) || BySmallest(g, f) || SameSlot(f, g)
  {
  }

  lemma NoMembers(a: seq<FileMeta>, b: seq<FileMeta>)
    requires forall f :: f in a ==> f in b
    ensures b == [] ==> a == []
  {
    if a != [] { assert a[0] in a; }
  }

  /** Sorted lists with the same members are the same list. */
  lemma {:induction false} SortedListUnique(a: seq<FileMeta>, b: seq<FileMeta>)
    requires SortedBySmallest(a) && SortedBySmallest(b)
    requires forall f :: f in a <==> f in b
    ensures a == b
    decreases |a|
  {
    NoMembers(a, b);
    NoMembers(b, a);
    if a != [] {
      assert a[0] in b && b[0] in a;
      var i :| 0 <= i < |b| && b[i] == a[0];
      var j :| 0 <= j < |a| && a[j] == b[0];
      assert i == 0;
      assert forall f :: f in a[1..] ==> f != a[0];
      assert forall f :: f in b[1..] ==> f != b[0];
      forall f ensures f in a[1..] <==> f in b[1..] {
        assert f in a <==> f == a[0] || f in a[1..];
        assert f in b <==> f == b[0] || f in b[1..];
      }
      SortedListUnique(a[1..], b[1..]);
    }
  }

  /** Two versions in list order with the same files per level are equal. */
  lemma VersionUnique(v: Version, w: Version)
    requires forall l :: 0 <= l < NUM_LEVELS ==> SortedBySmallest(v[l]) && SortedBySmallest(w[l])
    requires SetsOf(v) == SetsOf(w)
    ensures v == w
  {
    forall l | 0 <= l < NUM_LEVELS ensures v[l] == w[l] {
      assert SetsOf(v)[l] == SetsOf(w)[l];
      forall f ensures f in v[l] <==> f in w[l] {
        assert f in v[l] <==> f in SetsOf(v)[l];
      }
      SortedListUnique(v[l], w[l]);
    }
  }

  // ---------------------------------------------------------------- merging one level

  /** Merge the base list with the added list, leaving out deleted numbers (Builder::SaveTo). */
  method MergeLevel(base: seq<FileMeta>, added: seq<FileMeta>, deleted: set<nat>) returns (out: seq<FileMeta>)
    requires SortedBySmallest(base) && SortedBySmallest(added)
    requires forall b, a :: b in base && a in added ==> !SameSlot(a, b)
    ensures SortedBySmallest(out)
    ensures forall f :: f in out <==> (f in base || f in added) && f.number !in deleted
  {
    out := [];
    var bi, ai := 0, 0;
    while ai < |added|
      invariant 0 <= bi <= |base| && 0 <= ai <= |added|
      invariant MergeInv(base, added, deleted, bi, ai, out)
    {
      while bi < |base| && !BySmallest(added[ai], base[bi])
        invariant 0 <= bi <= |base|
        invariant MergeInv(base, added, deleted, bi, ai, out)
      {
        TakeBase(base, added, deleted, bi, ai, out);
        if base[bi].number !in deleted {
          out := out + [base[bi]];
        }
        bi := bi + 1;
      }
      TakeAdded(base, added, deleted, bi, ai, out);
      if added[ai].number !in deleted {
        out := out + [added[ai]];
      }
      ai := ai + 1;
    }
    while bi < |base|
      invariant 0 <= bi <= |base| && ai == |added|
      invariant MergeInv(base, added, deleted, bi, ai, out)
    {
      TakeBase(base, added, deleted, bi, ai, out);
      if base[bi].number !in deleted {
        out := out + [base[bi]];
      }
      bi := bi + 1;
    }
    assert base[..bi] == base && added[..ai] == added;
  }

  ghost predicate MergeInv(base: seq<FileMeta>, added: seq<FileMeta>, deleted: set<nat>, bi: nat, ai: nat, out: seq<FileMeta>) {
    && bi <= |base| && ai <= |added|
    && SortedBySmallest(out)
    && (forall f :: f in out <==> (f in base[..bi] || f in added[..ai]) && f.number !in deleted)
    && (forall f, j :: f in out && bi <= j < |base| ==> BySmallest(f, base[j]))
    && (forall f, j :: f in out && ai <= j < |added| ==> BySmallest(f, added[j]))
  }

  lemma TakeBase(base: seq<FileMeta>, added: seq<FileMeta>, deleted: set<nat>, bi: nat, ai: nat, out: seq<FileMeta>)
    requires SortedBySmallest(base) && SortedBySmallest(added) && MergeInv(base, added, deleted, bi, ai, out)
    requires forall b, a :: b in base && a in added ==> !SameSlot(a, b)
    requires bi < |base| && (ai < |added| ==> !BySmallest(added[ai], base[bi]))
    ensures MergeInv(base, added, deleted, bi + 1, ai, if base[bi].number in deleted then out else out + [base[bi]])
  {
    assert base[..bi + 1] == base[..bi] + [base[bi]];
    forall j | ai <= j < |added| ensures BySmallest(base[bi], added[j]) {
      assert base[bi] in base && added[ai] in added;
      KeyTotal(added[ai], base[bi]);
      assert ai < j ==> BySmallest(added[ai], added[j]);
    }
  }

  lemma TakeAdded(base: seq<FileMeta>, added: seq<FileMeta>, deleted: set<nat>, bi: nat, ai: nat, out: seq<FileMeta>)
    requires SortedBySmallest(base) && SortedBySmallest(added) && MergeInv(base, added, deleted, bi, ai, out)
    requires ai < |added| && (bi < |base| ==> BySmallest(added[ai], base[bi]))
    ensures MergeInv(base, added, deleted, bi, ai + 1, if added[ai].number in deleted then out else out + [added[ai]])
  {
    assert added[..ai + 1] == added[..ai] + [added[ai]];
    forall j | bi <= j < |base| ensures BySmallest(added[ai], base[j]) {
      assert bi < j ==> BySmallest(base[bi], base[j]);
    }
  }

  // ---------------------------------------------------------------- the builder

  ghost function Pairs(edit: VersionEdit): set<(nat, nat)> {
    set a | a in edit.added :: (a.0, a.1.number)
  }

  ghost predicate DistinctAdds(edit: VersionEdit) {
    forall i, j :: 0 <= i < j < |edit.added| ==> edit.added[i].0 != edit.added[j].0 || edit.added[i].1.number != edit.added[j].1.number
  }

  ghost function AddedPairs(edits: seq<VersionEdit>): set<(nat, nat)> {
    if edits == [] then {} else AddedPairs(edits[..|edits| - 1]) + Pairs(edits[|edits| - 1])
  }

  /** No (level, file number) pair is added twice. */
  ghost predicate AddedOnce(edits: seq<VersionEdit>) {
    edits == [] || (
      var last := edits[|edits| - 1];
      AddedOnce(edits[..|edits| - 1]) && DistinctAdds(last) && Pairs(last) !! AddedPairs(edits[..|edits| - 1]))
  }

  predicate EditsInRange(edits: seq<VersionEdit>) {
    forall e :: e in edits ==> LevelsInRange(e)
  }

  /** Accumulates deletions and additions of a run of edits and applies them to a base version at the end. */
  class Builder {
    const base: Version
    var deleted: seq<set<nat>>
    var added: seq<seq<FileMeta>>

    constructor (base: Version)
      requires forall l :: 0 <= l < NUM_LEVELS ==> SortedBySmallest(base[l])
      ensures Valid() && this.base == base
      ensures Represents(SetsOf(base))
      ensures forall l :: 0 <= l < NUM_LEVELS ==> added[l] == []
    {
      this.base := base;
      deleted := seq(NUM_LEVELS, l => {});
      added := seq(NUM_LEVELS, l => []);
    }

    ghost predicate Valid()
      reads this
    {
      && |deleted| == NUM_LEVELS && |added| == NUM_LEVELS
      && forall l :: 0 <= l < NUM_LEVELS ==> SortedBySmallest(base[l]) && SortedBySmallest(added[l]) && Separate(base[l], added[l])
    }

    /** Saving now would give these files. */
    ghost predicate Represents(s: Levels)
      requires Valid()
      reads this
    {
      forall l :: 0 <= l < NUM_LEVELS ==> s[l] == Remaining(base[l], added[l], deleted[l])
    }

    /** A (level, number) pair of the base or of an earlier edit. */
    ghost predicate Known(l: nat, n: nat)
      requires Valid() && l < NUM_LEVELS
      reads this
    {
      exists f :: f in base[l] + added[l] && f.number == n
    }

    /** Record one edit: deletions first, then additions, which cancel a recorded deletion of the same number. */
    method Apply(edit: VersionEdit)
      requires Valid() && LevelsInRange(edit) && DistinctAdds(edit)
      requires forall a :: a in edit.added ==> !Known(a.0, a.1.number)
      modifies this
      ensures Valid()
      ensures forall s: Levels :: old(Represents(s)) ==> Represents(Next(s, edit))
      ensures forall l, f :: 0 <= l < NUM_LEVELS ==> (f in added[l] <==> f in old(added[l]) || (l, f) in edit.added)
    {
      DeleteAll(edit.deleted);
      AddAll(edit.added);
      forall s: Levels, l | old(Represents(s)) && 0 <= l < NUM_LEVELS
        ensures Next(s, edit)[l] == Remaining(base[l], added[l], deleted[l])
      {
        assert s[l] == Remaining(base[l], old(added[l]), old(deleted[l]));
        AppliedLevel(base[l], old(added[l]), old(deleted[l]), added[l], deleted[l], edit, l);
      }
    }

    /** Merge everything recorded into the base version. */
    method SaveTo() returns (v: Version)
      requires Valid()
      ensures Represents(SetsOf(v))
      ensures forall l :: 0 <= l < NUM_LEVELS ==> SortedBySmallest(v[l])
    {
      v := NO_FILES;
      var l := 0;
      while l < NUM_LEVELS
        invariant 0 <= l <= NUM_LEVELS
        invariant forall k :: 0 <= k < NUM_LEVELS ==> SortedBySmallest(v[k])
        invariant forall k, f :: 0 <= k < l ==> (f in v[k] <==> f in Remaining(base[k], added[k], deleted[k]))
      {
        assert Separate(base[l], added[l]);
        var merged := MergeLevel(base[l], added[l], deleted[l]);
        v := v[l := merged];
        l := l + 1;
      }
    }

    method DeleteAll(pairs: set<(nat, nat)>)
      requires Valid() && forall d :: d in pairs ==> d.0 < NUM_LEVELS
      modifies this`deleted
      ensures Valid()
      ensures forall l :: 0 <= l < NUM_LEVELS ==> deleted[l] == old(deleted[l]) + set d | d in pairs && d.0 == l :: d.1
    {
      var todo := pairs;
      while todo != {}
        invariant Valid() && todo <= pairs
        invariant forall l, n :: 0 <= l < NUM_LEVELS ==> (n in deleted[l] <==> n in old(deleted[l]) || ((l, n) in pairs && (l, n) !in todo))
        decreases todo
      {
        var d :| d in todo;
        deleted := deleted[d.0 := deleted[d.0] + {d.1}];
        todo := todo - {d};
      }
      forall l | 0 <= l < NUM_LEVELS ensures deleted[l] == old(deleted[l]) + set d | d in pairs && d.0 == l :: d.1 {
        forall n ensures n in (set d | d in pairs && d.0 == l :: d.1) <==> (l, n) in pairs {
          if (l, n) in pairs { assert (l, n).0 == l && (l, n).1 == n; }
        }
      }
    }

    method AddAll(files: seq<(nat, FileMeta)>)
      requires Valid() && forall a :: a in files ==> a.0 < NUM_LEVELS
      requires forall i, j :: 0 <= i < j < |files| ==> files[i].0 != files[j].0 || files[i].1.number != files[j].1.number
      requires forall a :: a in files ==> !Known(a.0, a.1.number)
      modifies this
      ensures Valid()
      ensures forall l, f :: 0 <= l < NUM_LEVELS ==> (f in added[l] <==> f in old(added[l]) || (l, f) in files)
      ensures forall l, n :: 0 <= l < NUM_LEVELS ==> (n in deleted[l] <==> n in old(deleted[l]) && !NumberIn(files, l, n))
    {
      for i := 0 to |files|
        invariant Valid()
        invariant forall l, f :: 0 <= l < NUM_LEVELS ==> (f in added[l] <==> f in old(added[l]) || (l, f) in files[..i])
        invariant forall l, n :: 0 <= l < NUM_LEVELS ==> (n in deleted[l] <==> n in old(deleted[l]) && !NumberIn(files[..i], l, n))
      {
        var l, f := files[i].0, files[i].1;
        assert files[i] in files && files[..i + 1] == files[..i] + [files[i]];
        deleted := deleted[l := deleted[l] - {f.number}];
        assert forall g :: g in added[l] ==> g.number != f.number;
        var merged := InsertFile(added[l], f);
        added := added[l := merged];
      }
      assert files[..|files|] == files;
    }
  }

  ghost predicate NumberIn(files: seq<(nat, FileMeta)>, l: nat, n: nat) {
    exists a :: a in files && a.0 == l && a.1.number == n
  }

  ghost predicate Separate(base: seq<FileMeta>, added: seq<FileMeta>) {
    forall b, a :: b in base && a in added ==> b.number != a.number
  }

  ghost function Remaining(base: seq<FileMeta>, added: seq<FileMeta>, deleted: set<nat>): set<FileMeta> {
    set f | f in base + added && f.number !in deleted
  }

  lemma AppliedLevel(base: seq<FileMeta>, added: seq<FileMeta>, deleted: set<nat>, added': seq<FileMeta>, deleted': set<nat>,
                     edit: VersionEdit, l: nat)
    requires forall f :: f in added' <==> f in added || (l, f) in edit.added
    requires forall n :: n in deleted' <==> (n in deleted || (l, n) in edit.deleted) && !NumberIn(edit.added, l, n)
    requires forall a, f :: a in edit.added && a.0 == l && f in base + added ==> f.number != a.1.number
    ensures NextLevel(Remaining(base, added, deleted), edit, l) == Remaining(base, added', deleted')
  {
    forall f ensures f in AddedTo(edit, l) <==> (l, f) in edit.added {
      if (l, f) in edit.added { assert (l, f).0 == l && (l, f).1 == f; }
    }
    forall f | (l, f) in edit.added ensures NumberIn(edit.added, l, f.number) {
      assert (l, f).0 == l && (l, f).1 == f;
    }
  }

  /** Replaying a run of edits through one builder gives the same version as installing them one at a time, as long as
      no (level, number) pair is added twice (VersionSet::Recover). */
  method RecoverVersion(edits: seq<VersionEdit>) returns (v: Version)
    requires EditsInRange(edits) && AddedOnce(edits)
    ensures SetsOf(v) == Replay(SetsOf(NO_FILES), edits)
    ensures forall l :: 0 <= l < NUM_LEVELS ==> SortedBySmallest(v[l])
  {
    var builder := new Builder(NO_FILES);
    for i := 0 to |edits|
      invariant builder.Valid() && builder.base == NO_FILES
      invariant builder.Represents(Replay(SetsOf(NO_FILES), edits[..i]))
      invariant forall l, f :: 0 <= l < NUM_LEVELS && f in builder.added[l] ==> (l, f.number) in AddedPairs(edits[..i])
    {
      assert edits[..i + 1][..i] == edits[..i];
      PrefixAddedOnce(edits, i + 1);
      assert edits[i] in edits;
      builder.Apply(edits[i]);
    }
    assert edits[..|edits|] == edits;
    v := builder.SaveTo();
  }

  lemma {:induction false} PrefixAddedOnce(edits: seq<VersionEdit>, n: nat)
    requires AddedOnce(edits) && n <= |edits|
    ensures AddedOnce(edits[..n])
  {
    if n < |edits| {
      PrefixAddedOnce(edits[..|edits| - 1], n);
      assert edits[..|edits| - 1][..n] == edits[..n];
    } else {
      assert edits[..n] == edits;
    }
  }

  /** Installing one edit on top of the current version (VersionSet::LogAndApply). */
  method ApplyToCurrent(current: Version, edit: VersionEdit) returns (v: Version)
    requires forall l :: 0 <= l < NUM_LEVELS ==> SortedBySmallest(current[l])
    requires LevelsInRange(edit) && DistinctAdds(edit)
    requires forall a, f :: a in edit.added && f in current[a.0] ==> f.number != a.1.number
    ensures SetsOf(v) == Next(SetsOf(current), edit)
    ensures forall l :: 0 <= l < NUM_LEVELS ==> SortedBySmallest(v[l])
  {
    var builder := new Builder(current);
    builder.Apply(edit);
    v := builder.SaveTo();
  }
}
