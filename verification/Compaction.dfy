/** The compaction loop and what it does to reads (db/db_impl.cc: DoCompactionWork;
    db/version_set.cc: IsBaseLevelForKey).
 */
module Compaction {
  import opened InternalKeys
  import opened History
  import opened Versions
  import opened Selection

  // ---------------------------------------------------------------- the drop rules, declaratively

  /** A newer entry of the same user key among the inputs is itself visible at the oldest snapshot. */
  ghost predicate Hidden(inputs: set<Entry>, ss: nat, e: Entry) {
    exists x :: x in inputs && x.key.user == e.key.user && e.key.sequence < x.key.sequence <= ss
  }

  predicate ObsoleteTombstone(base: UserKey -> bool, ss: nat, e: Entry) {
    e.key.kind.Deletion? && e.key.sequence <= ss && base(e.key.user)
  }

  ghost predicate Dropped(inputs: set<Entry>, base: UserKey -> bool, ss: nat, e: Entry) {
    Hidden(inputs, ss, e) || ObsoleteTombstone(base, ss, e)
  }

  ghost function Kept(inputs: set<Entry>, base: UserKey -> bool, ss: nat): set<Entry> {
    set e | e in inputs && !Dropped(inputs, base, ss, e)
  }

  // ---------------------------------------------------------------- exactly when reads survive

  /** A tombstone the rules drop is the newest visible entry of `u`, and the files left alone hold a value below it. */
  ghost predicate ExposedBy(rest: set<Entry>, inputs: set<Entry>, base: UserKey -> bool, ss: nat, t: Entry) {
    && IsNewest(inputs, t.key.user, ss, t)
    && ObsoleteTombstone(base, ss, t)
    && (forall x :: x in rest && x.key.user == t.key.user && x.key.sequence <= ss ==> x.key.sequence <= t.key.sequence)
    && ReadAt(rest, t.key.user, t.key.sequence) != NotFound
  }

  ghost predicate ReadsPreserved(before: set<Entry>, after: set<Entry>, ss: nat) {
    forall u, s :: ss <= s ==> ReadAt(after, u, s) == ReadAt(before, u, s)
  }

  /** The drop rules keep every read at or above the oldest snapshot if and only if no dropped tombstone exposes a value. */
  lemma DropRulesExact(rest: set<Entry>, inputs: set<Entry>, base: UserKey -> bool, ss: nat)
    requires rest !! inputs && Distinct(rest + inputs)
    ensures ReadsPreserved(rest + inputs, rest + Kept(inputs, base, ss), ss)
            <==> forall t :: t in inputs ==> !ExposedBy(rest, inputs, base, ss, t)
  {
    var before, after := rest + inputs, rest + Kept(inputs, base, ss);
    if forall t :: t in inputs ==> !ExposedBy(rest, inputs, base, ss, t) {
      forall u, s | ss <= s ensures ReadAt(after, u, s) == ReadAt(before, u, s) {
        ReadSurvives(rest, inputs, base, ss, u, s);
      }
    }
    forall t | t in inputs && ExposedBy(rest, inputs, base, ss, t)
      ensures ReadAt(after, t.key.user, ss) != ReadAt(before, t.key.user, ss)
    {
      TombstoneExposes(rest, inputs, base, ss, t);
    }
  }

  lemma ReadSurvives(rest: set<Entry>, inputs: set<Entry>, base: UserKey -> bool, ss: nat, u: UserKey, s: nat)
    requires rest !! inputs && Distinct(rest + inputs) && ss <= s
    requires forall t :: t in inputs ==> !ExposedBy(rest, inputs, base, ss, t)
    ensures ReadAt(rest + Kept(inputs, base, ss), u, s) == ReadAt(rest + inputs, u, s)
  {
    var kept := Kept(inputs, base, ss);
    var before, after := rest + inputs, rest + kept;
    var n := Newest(before, u, s);
    if n.None? {
      ReadsDetermine(after, u, s, None);
    } else if n.value in after {
      ReadsDetermine(after, u, s, n);
    } else {
      DroppedNewest(rest, inputs, base, ss, u, s, n.value);
    }
  }

  lemma OlderAreDropped(inputs: set<Entry>, base: UserKey -> bool, ss: nat, t: Entry)
    requires t in inputs && t.key.sequence <= ss
    ensures forall x :: x in Kept(inputs, base, ss) && x.key.user == t.key.user ==> t.key.sequence <= x.key.sequence
  {
    forall x | x in inputs && x.key.user == t.key.user && x.key.sequence < t.key.sequence ensures Hidden(inputs, ss, x) {
    }
  }

  /** A dropped entry that was the answer is a tombstone, and what it uncovers is not found either. */
  lemma DroppedNewest(rest: set<Entry>, inputs: set<Entry>, base: UserKey -> bool, ss: nat, u: UserKey, s: nat, t: Entry)
    requires rest !! inputs && Distinct(rest + inputs) && ss <= s
    requires IsNewest(rest + inputs, u, s, t) && t in inputs && t !in Kept(inputs, base, ss)
    requires !ExposedBy(rest, inputs, base, ss, t)
    ensures ReadAt(rest + Kept(inputs, base, ss), u, s) == NotFound == ReadAt(rest + inputs, u, s)
  {
    ReadsDetermine(rest + inputs, u, s, Some(t));
    var after := rest + Kept(inputs, base, ss);
    assert !Hidden(inputs, ss, t);
    var below := Newest(rest, u, t.key.sequence);
    OlderAreDropped(inputs, base, ss, t);
    assert Reads(after, u, s, below);
    ReadsDetermine(after, u, s, below);
    assert ReadAt(rest, u, t.key.sequence) == AnswerOf(below);
  }

  lemma TombstoneExposes(rest: set<Entry>, inputs: set<Entry>, base: UserKey -> bool, ss: nat, t: Entry)
    requires rest !! inputs && Distinct(rest + inputs)
    requires t in inputs && ExposedBy(rest, inputs, base, ss, t)
    ensures ReadAt(rest + inputs, t.key.user, ss) == NotFound
    ensures ReadAt(rest + Kept(inputs, base, ss), t.key.user, ss) != NotFound
  {
    var u := t.key.user;
    ReadsDetermine(rest + inputs, u, ss, Some(t));
    var after := rest + Kept(inputs, base, ss);
    var below := Newest(rest, u, t.key.sequence);
    OlderAreDropped(inputs, base, ss, t);
    assert Reads(after, u, ss, below);
    ReadsDetermine(after, u, ss, below);
  }

  /** The rules keep no more than they must. An entry kept at or below the oldest snapshot is what a read there gives, and without it the
      read would find nothing; it is a tombstone only where deeper levels may hold the key. Newer entries are all kept. */
  lemma KeptAreNeeded(inputs: set<Entry>, base: UserKey -> bool, ss: nat, e: Entry)
    requires Distinct(inputs) && e in inputs
    ensures e.key.sequence > ss ==> e in Kept(inputs, base, ss)
    ensures e in Kept(inputs, base, ss) && e.key.sequence <= ss ==>
              && ReadAt(Kept(inputs, base, ss), e.key.user, ss) == AnswerOf(Some(e))
              && ReadAt(Kept(inputs, base, ss) - {e}, e.key.user, ss) == NotFound
              && (e.key.kind.Deletion? ==> !base(e.key.user))
  {
    var kept := Kept(inputs, base, ss);
    if e in kept && e.key.sequence <= ss {
      OlderAreDropped(inputs, base, ss, e);
      ReadsDetermine(kept, e.key.user, ss, Some(e));
      ReadsDetermine(kept - {e}, e.key.user, ss, None);
    }
  }

  // ---------------------------------------------------------------- the loop

  /** No file two or more levels down covers `u` (IsBaseLevelForKey's meaning). */
  predicate BaseLevel(v: Version, level: nat, u: UserKey) {
    forall l :: level + 2 <= l < NUM_LEVELS ==> !Covered(v[l], u)
  }

  function BaseOf(v: Version, level: nat): UserKey -> bool {
    u => BaseLevel(v, level, u)
  }

  /** The drop rules as the loop sees them: the previous input entry and this one. */
  predicate DropAt(input: seq<Entry>, base: UserKey -> bool, ss: nat, i: nat)
    requires i < |input|
  {
    || (i > 0 && input[i - 1].key.user == input[i].key.user && input[i - 1].key.sequence <= ss)
    || ObsoleteTombstone(base, ss, input[i])
  }

  function KeptPrefix(input: seq<Entry>, base: UserKey -> bool, ss: nat, n: nat): seq<Entry>
    requires n <= |input|
  {
    if n == 0 then []
    else KeptPrefix(input, base, ss, n - 1) + if DropAt(input, base, ss, n - 1) then [] else [input[n - 1]]
  }

  function Flatten(groups: seq<seq<Entry>>): seq<Entry> {
    if groups == [] then [] else Flatten(groups[..|groups| - 1]) + groups[|groups| - 1]
  }

  predicate PassedIn(fs: seq<FileMeta>, ptr: nat, u: UserKey) {
    ptr <= |fs| && forall i :: 0 <= i < ptr ==> fs[i].largest.user < u
  }

  predicate Covered(fs: seq<FileMeta>, u: UserKey) {
    exists i :: 0 <= i < |fs| && fs[i].smallest.user <= u <= fs[i].largest.user
  }

  /** With every earlier file passed, the file under the cursor decides whether the level covers `u`. */
  lemma CursorDecides(fs: seq<FileMeta>, ptr: nat, u: UserKey)
    requires Ranged(fs) && DisjointSorted(fs) && PassedIn(fs, ptr, u)
    requires ptr < |fs| ==> u <= fs[ptr].largest.user
    ensures Covered(fs, u) <==> ptr < |fs| && fs[ptr].smallest.user <= u
  {
    BoundsIncrease(fs);
  }

  /** A running compaction: the input version and the cursors into its deeper levels, which only move forward. */
  class CompactionState {
    const version: Version
    const level: nat
    var levelPtrs: seq<nat>

    constructor (version: Version, level: nat)
      ensures this.version == version && this.level == level
      ensures levelPtrs == seq(NUM_LEVELS, i => 0)
    {
      this.version, this.level := version, level;
      levelPtrs := seq(NUM_LEVELS, i => 0);
    }

    /** Files passed by the cursors end before `u`, so no later query at or after `u` needs them. */
    ghost predicate PassedBefore(u: UserKey)
      reads this
    {
      && |levelPtrs| == NUM_LEVELS
      && forall l :: 0 <= l < NUM_LEVELS ==> PassedIn(version[l], levelPtrs[l], u)
    }

    lemma PassedLater(u: UserKey, w: UserKey)
      requires PassedBefore(u) && u <= w
      ensures PassedBefore(w)
    {
      forall l | 0 <= l < NUM_LEVELS ensures PassedIn(version[l], levelPtrs[l], w) {
        assert PassedIn(version[l], levelPtrs[l], u);
      }
    }

    /** Moving cursors forward answers the same question a full scan of the deeper levels would, for non-decreasing keys. */
    method IsBaseLevelForKey(u: UserKey) returns (base: bool)
      requires forall l :: 0 < l < NUM_LEVELS ==> Ranged(version[l]) && DisjointSorted(version[l])
      requires PassedBefore(u)
      modifies this
      ensures base == BaseLevel(version, level, u)
      ensures PassedBefore(u)
    {
      var l := level + 2;
      while l < NUM_LEVELS
        invariant PassedBefore(u)
        invariant forall k :: level + 2 <= k < l && k < NUM_LEVELS ==> !Covered(version[k], u)
      {
        while levelPtrs[l] < |version[l]| && version[l][levelPtrs[l]].largest.user < u
          invariant PassedBefore(u)
          decreases |version[l]| - levelPtrs[l]
        {
          assert PassedIn(version[l], levelPtrs[l], u);
          levelPtrs := levelPtrs[l := levelPtrs[l] + 1];
        }
        assert PassedIn(version[l], levelPtrs[l], u);
        CursorDecides(version[l], levelPtrs[l], u);
        if levelPtrs[l] < |version[l]| && version[l][levelPtrs[l]].smallest.user <= u {
          return false;
        }
        l := l + 1;
      }
      return true;
    }

    /** The two drop rules for an entry whose predecessor of the same user key had sequence `last`. */
    method ShouldDrop(key: InternalKey, last: nat, ss: nat) returns (drop: bool)
      requires forall l :: 0 < l < NUM_LEVELS ==> Ranged(version[l]) && DisjointSorted(version[l])
      requires PassedBefore(key.user)
      modifies this
      ensures drop <==> last <= ss || (key.kind.Deletion? && key.sequence <= ss && BaseLevel(version, level, key.user))
      ensures PassedBefore(key.user)
    {
      drop := false;
      if last <= ss {
        drop := true;
      } else if key.kind.Deletion? && key.sequence <= ss {
        drop := IsBaseLevelForKey(key.user);
      }
    }

    /** Walk the merged inputs in order, drop by the two rules, and cut the rest into output tables wherever
        `stopBefore` or `full` says so (DoCompactionWork). */
    method DoCompactionWork(input: seq<Entry>, ss: nat, stopBefore: nat -> bool, full: nat -> bool)
      returns (outputs: seq<seq<Entry>>)
      requires forall l :: 0 < l < NUM_LEVELS ==> Ranged(version[l]) && DisjointSorted(version[l])
      requires Sorted(input) && ss < MAX_SEQUENCE
      requires levelPtrs == seq(NUM_LEVELS, i => 0)
      modifies this
      ensures Flatten(outputs) == KeptPrefix(input, BaseOf(version, level), ss, |input|)
      ensures NonEmptyGroups(outputs)
    {
      outputs := [];
      var builder: seq<Entry> := [];
      var currentUserKey: Option<UserKey> := None;
      var lastSequenceForKey := MAX_SEQUENCE;
      ghost var base := BaseOf(version, level);
      for i := 0 to |input|
        invariant |levelPtrs| == NUM_LEVELS
        invariant if i == 0 then levelPtrs == seq(NUM_LEVELS, i => 0) else PassedBefore(input[i - 1].key.user)
        invariant i == 0 ==> currentUserKey == None
        invariant i > 0 ==> currentUserKey == Some(input[i - 1].key.user) && lastSequenceForKey == input[i - 1].key.sequence
        invariant Flatten(outputs) + builder == KeptPrefix(input, base, ss, i)
        invariant NonEmptyGroups(outputs)
      {
        var key := input[i].key;
        if i > 0 {
          assert Before(input[i - 1].key, key);
          PassedLater(input[i - 1].key.user, key.user);
        }
        outputs, builder := FinishOutputIf(stopBefore(i), outputs, builder);
        if currentUserKey != Some(key.user) {
          currentUserKey, lastSequenceForKey := Some(key.user), MAX_SEQUENCE;
        }
        var drop := ShouldDrop(key, lastSequenceForKey, ss);
        assert drop == DropAt(input, base, ss, i);
        lastSequenceForKey := key.sequence;
        if !drop {
          assert Flatten(outputs) + (builder + [input[i]]) == (Flatten(outputs) + builder) + [input[i]];
          builder := builder + [input[i]];
          outputs, builder := FinishOutputIf(full(i), outputs, builder);
        }
      }
      outputs, builder := FinishOutputIf(true, outputs, builder);
    }
  }

  /** Close the open output table, if there is one and it is time to (FinishCompactionOutputFile). */
  method FinishOutputIf(now: bool, outputs: seq<seq<Entry>>, builder: seq<Entry>)
    returns (outputs': seq<seq<Entry>>, builder': seq<Entry>)
    requires NonEmptyGroups(outputs)
    ensures Flatten(outputs') + builder' == Flatten(outputs) + builder
    ensures NonEmptyGroups(outputs')
    ensures now ==> builder' == [] && Flatten(outputs') == Flatten(outputs) + builder
  {
    outputs', builder' := outputs, builder;
    if now && builder != [] {
      FlattenAppend(outputs, builder);
      outputs', builder' := outputs + [builder], [];
    }
  }

  lemma FlattenAppend(groups: seq<seq<Entry>>, g: seq<Entry>)
    ensures Flatten(groups + [g]) == Flatten(groups) + g
  {
    assert (groups + [g])[..|groups|] == groups;
  }

  // ---------------------------------------------------------------- the loop computes the declarative rules

  lemma RuleAIsHidden(input: seq<Entry>, ss: nat, i: nat)
    requires Sorted(input) && Distinct(Elements(input)) && i < |input|
    ensures Hidden(Elements(input), ss, input[i])
            <==> i > 0 && input[i - 1].key.user == input[i].key.user && input[i - 1].key.sequence <= ss
  {
    var e := input[i];
    if i > 0 && input[i - 1].key.user == e.key.user && input[i - 1].key.sequence <= ss {
      assert Before(input[i - 1].key, e.key);
      assert input[i - 1] in Elements(input) && e in Elements(input);
    }
    if Hidden(Elements(input), ss, e) {
      var x :| x in Elements(input) && x.key.user == e.key.user && e.key.sequence < x.key.sequence <= ss;
      var j :| 0 <= j < |input| && input[j] == x;
      assert j < i;
      assert j < i - 1 ==> Before(input[j].key, input[i - 1].key);
      assert Before(input[i - 1].key, e.key);
    }
  }

  lemma {:induction false} KeptPrefixElements(input: seq<Entry>, base: UserKey -> bool, ss: nat, n: nat)
    requires n <= |input|
    ensures forall e :: e in KeptPrefix(input, base, ss, n) <==> exists i :: 0 <= i < n && input[i] == e && !DropAt(input, base, ss, i)
  {
    if n > 0 {
      KeptPrefixElements(input, base, ss, n - 1);
    }
  }

  lemma {:induction false} KeptPrefixSorted(input: seq<Entry>, base: UserKey -> bool, ss: nat, n: nat)
    requires n <= |input| && Sorted(input)
    ensures Sorted(KeptPrefix(input, base, ss, n))
  {
    if n > 0 {
      KeptPrefixSorted(input, base, ss, n - 1);
      KeptPrefixElements(input, base, ss, n - 1);
      var rest := KeptPrefix(input, base, ss, n - 1);
      forall i | 0 <= i < |rest| ensures Before(rest[i].key, input[n - 1].key) {
        assert rest[i] in rest;
      }
    }
  }

  /** What the loop writes out is exactly what the declarative rules keep, still in order. */
  lemma LoopKeepsExactly(input: seq<Entry>, base: UserKey -> bool, ss: nat)
    requires Sorted(input) && Distinct(Elements(input))
    ensures Elements(KeptPrefix(input, base, ss, |input|)) == Kept(Elements(input), base, ss)
    ensures Sorted(KeptPrefix(input, base, ss, |input|))
  {
    KeptPrefixSorted(input, base, ss, |input|);
    KeptPrefixElements(input, base, ss, |input|);
    forall i | 0 <= i < |input| ensures DropAt(input, base, ss, i) <==> Dropped(Elements(input), base, ss, input[i]) {
      RuleAIsHidden(input, ss, i);
    }
    forall e | e in Kept(Elements(input), base, ss) ensures e in KeptPrefix(input, base, ss, |input|) {
      var i :| 0 <= i < |input| && input[i] == e;
      assert !DropAt(input, base, ss, i);
    }
  }

  // ---------------------------------------------------------------- output tables

  ghost predicate AllBefore(a: seq<Entry>, b: seq<Entry>) {
    forall x, y :: x in a && y in b ==> Before(x.key, y.key)
  }

  ghost predicate OrderedGroups(groups: seq<seq<Entry>>) {
    && (forall k :: 0 <= k < |groups| ==> Sorted(groups[k]))
    && (forall a, b :: 0 <= a < b < |groups| ==> AllBefore(groups[a], groups[b]))
  }

  lemma {:induction false} FlattenElements(groups: seq<seq<Entry>>)
    ensures forall e :: e in Flatten(groups) <==> exists k :: 0 <= k < |groups| && e in groups[k]
  {
    if groups != [] {
      FlattenElements(groups[..|groups| - 1]);
    }
  }

  lemma SortedConcat(a: seq<Entry>, b: seq<Entry>)
    requires Sorted(a + b)
    ensures Sorted(a) && Sorted(b)
    ensures AllBefore(a, b)
  {
    var all := a + b;
    forall i, j | 0 <= i < j < |a| ensures Before(a[i].key, a[j].key) {
      assert all[i] == a[i] && all[j] == a[j];
    }
    forall i, j | 0 <= i < j < |b| ensures Before(b[i].key, b[j].key) {
      assert all[|a| + i] == b[i] && all[|a| + j] == b[j];
    }
    forall x, y | x in a && y in b ensures Before(x.key, y.key) {
      var i :| 0 <= i < |a| && a[i] == x;
      var j :| 0 <= j < |b| && b[j] == y;
      assert all[i] == x && all[|a| + j] == y;
    }
  }

  /** Cutting a sorted run anywhere gives sorted tables in increasing order. */
  lemma {:induction false} CutsAreOrdered(groups: seq<seq<Entry>>)
    requires Sorted(Flatten(groups))
    ensures OrderedGroups(groups)
  {
    if groups != [] {
      var n := |groups| - 1;
      SortedConcat(Flatten(groups[..n]), groups[n]);
      CutsAreOrdered(groups[..n]);
      FlattenElements(groups[..n]);
      forall a | 0 <= a < n ensures AllBefore(groups[a], groups[n]) {
        assert groups[..n][a] == groups[a];
      }
      forall a, b | 0 <= a < b < n ensures AllBefore(groups[a], groups[b]) {
        assert groups[..n][a] == groups[a] && groups[..n][b] == groups[b];
      }
    }
  }

  predicate NonEmptyGroups(groups: seq<seq<Entry>>) {
    forall k :: 0 <= k < |groups| ==> groups[k] != []
  }

  function OutputFile(number: nat, size: nat, g: seq<Entry>): FileMeta
    requires g != []
  {
    FileMeta(number, size, g[0].key, g[|g| - 1].key, g)
  }

  /** Table files for the output groups, numbered consecutively from `first`. */
  function OutputFiles(groups: seq<seq<Entry>>, first: nat, sizeOf: seq<Entry> -> nat): (fs: seq<FileMeta>)
    requires NonEmptyGroups(groups)
    ensures |fs| == |groups|
    ensures forall k :: 0 <= k < |fs| ==> fs[k] == OutputFile(first + k, sizeOf(groups[k]), groups[k])
  {
    seq(|groups|, k requires 0 <= k < |groups| => OutputFile(first + k, sizeOf(groups[k]), groups[k]))
  }

  /** A list of new table files that may be installed in a level above 0 together. */
  ghost predicate OutputsOk(outs: seq<FileMeta>, first: nat) {
    && FilesOk(outs) && DisjointSorted(outs) && UniqueNumbers(outs)
    && forall f :: f in outs ==> first <= f.number < first + |outs|
  }

  lemma OutputFileOk(number: nat, size: nat, g: seq<Entry>)
    requires g != [] && Sorted(g) && forall e :: e in g ==> e.key.sequence <= MAX_SEQUENCE
    ensures FileOk(OutputFile(number, size, g))
  {
  }

  lemma OutputFilesOk(groups: seq<seq<Entry>>, first: nat, sizeOf: seq<Entry> -> nat)
    requires NonEmptyGroups(groups) && OrderedGroups(groups)
    requires forall e :: e in Flatten(groups) ==> e.key.sequence <= MAX_SEQUENCE
    ensures OutputsOk(OutputFiles(groups, first, sizeOf), first)
  {
    var fs := OutputFiles(groups, first, sizeOf);
    FlattenElements(groups);
    forall k | 0 <= k < |fs| ensures FileOk(fs[k]) {
      OutputFileOk(first + k, sizeOf(groups[k]), groups[k]);
    }
    forall i, j | 0 <= i < j < |fs| ensures Before(fs[i].largest, fs[j].smallest) {
      assert AllBefore(groups[i], groups[j]);
      assert groups[i][|groups[i]| - 1] in groups[i] && groups[j][0] in groups[j];
    }
  }

  lemma OutputFilesContents(groups: seq<seq<Entry>>, first: nat, sizeOf: seq<Entry> -> nat)
    requires NonEmptyGroups(groups)
    ensures FilesContents(OutputFiles(groups, first, sizeOf)) == Elements(Flatten(groups))
  {
    var fs := OutputFiles(groups, first, sizeOf);
    FlattenElements(groups);
    forall e | e in Flatten(groups) ensures e in FilesContents(fs) {
      var k :| 0 <= k < |groups| && e in groups[k];
      assert fs[k] in fs && e in fs[k].entries;
    }
    forall e | e in FilesContents(fs) ensures e in Flatten(groups) {
      var k :| 0 <= k < |fs| && e in fs[k].entries;
      assert e in groups[k];
    }
  }

  /** A whole compaction, from the merged inputs to the list of new tables: they may be installed together, and they
      hold exactly what the rules keep. */
  method Compact(v: Version, level: nat, input: seq<Entry>, ss: nat, first: nat, size: seq<Entry> -> nat,
                 stopBefore: nat -> bool, full: nat -> bool)
    returns (outs: seq<FileMeta>)
    requires VersionOk(v) && Sorted(input) && Distinct(Elements(input)) && ss < MAX_SEQUENCE
    requires forall e :: e in input ==> e.key.sequence <= MAX_SEQUENCE
    ensures OutputsOk(outs, first)
    ensures FilesContents(outs) == Kept(Elements(input), BaseOf(v, level), ss)
  {
    LevelsAreRanged(v);
    var state := new CompactionState(v, level);
    var groups := state.DoCompactionWork(input, ss, stopBefore, full);
    GroupsAreTables(input, BaseOf(v, level), ss, groups);
    OutputFilesOk(groups, first, size);
    OutputFilesContents(groups, first, size);
    outs := OutputFiles(groups, first, size);
  }

  lemma LevelsAreRanged(v: Version)
    requires VersionOk(v)
    ensures forall l :: 0 < l < NUM_LEVELS ==> Ranged(v[l]) && DisjointSorted(v[l])
  {
    forall l | 0 < l < NUM_LEVELS ensures Ranged(v[l]) && DisjointSorted(v[l]) {
      assert ShapeOk(l, v[l]);
      FilesAreRanged(v[l]);
    }
  }

  lemma GroupsAreTables(input: seq<Entry>, base: UserKey -> bool, ss: nat, groups: seq<seq<Entry>>)
    requires Sorted(input) && Distinct(Elements(input)) && forall e :: e in input ==> e.key.sequence <= MAX_SEQUENCE
    requires Flatten(groups) == KeptPrefix(input, base, ss, |input|)
    ensures OrderedGroups(groups) && forall e :: e in Flatten(groups) ==> e.key.sequence <= MAX_SEQUENCE
    ensures Elements(Flatten(groups)) == Kept(Elements(input), base, ss)
  {
    LoopKeepsExactly(input, base, ss);
    CutsAreOrdered(groups);
    KeptPrefixElements(input, base, ss, |input|);
  }
}
