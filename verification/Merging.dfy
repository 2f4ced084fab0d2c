/** Merging sorted runs (table/merger.cc): whatever the order of moves, the merged cursor stands where a cursor over the
    union would stand. Children are cursors over sorted runs with distinct internal keys.
 */
module Merging {
  import opened InternalKeys

  // ---------------------------------------------------------------- sets of keys and their ends

  /** A part of the key order, given by its membership test. */
  type Cut = InternalKey -> bool

  function From(t: InternalKey): Cut { k => !Before(k, t) }
  function Beyond(t: InternalKey): Cut { k => Before(t, k) }
  function Below(t: InternalKey): Cut { k => Before(k, t) }
  const Everything: Cut := (k: InternalKey) => true

  ghost predicate Upward(cut: Cut) {
    forall a, b :: cut(a) && Before(a, b) ==> cut(b)
  }

  ghost predicate Downward(cut: Cut) {
    forall a, b :: cut(b) && Before(a, b) ==> cut(a)
  }

  /** `r` is the first entry of `u` in the cut, if there is one. */
  ghost predicate IsLeast(u: set<Entry>, cut: Cut, r: Option<Entry>) {
    match r
    case None => forall e :: e in u ==> !cut(e.key)
    case Some(e) => e in u && cut(e.key) && forall x :: x in u && cut(x.key) ==> AtMost(e.key, x.key)
  }

  ghost predicate IsGreatest(u: set<Entry>, cut: Cut, r: Option<Entry>) {
    match r
    case None => forall e :: e in u ==> !cut(e.key)
    case Some(e) => e in u && cut(e.key) && forall x :: x in u && cut(x.key) ==> AtMost(x.key, e.key)
  }

  lemma CutsAreClosed(t: InternalKey)
    ensures Upward(From(t)) && Upward(Beyond(t)) && Upward(Everything) && Downward(Below(t)) && Downward(Everything)
  {
  }

  // ---------------------------------------------------------------- runs

  ghost predicate ApartAt(runs: seq<seq<Entry>>, j: nat, k: nat) {
    j < |runs| && k < |runs| && forall x, y :: x in runs[j] && y in runs[k] ==> x.key != y.key
  }

  ghost predicate RunsOk(runs: seq<seq<Entry>>) {
    && (forall j :: 0 <= j < |runs| ==> Sorted(runs[j]))
    && (forall j, k :: 0 <= j < |runs| && 0 <= k < |runs| && j != k ==> ApartAt(runs, j, k))
  }

  function Union(runs: seq<seq<Entry>>): set<Entry> {
    set j, e | 0 <= j < |runs| && e in runs[j] :: e
  }

  /** `pos` is the first position of a sorted run in an upward cut (`None`: there is none). */
  ghost predicate FirstIn(es: seq<Entry>, pos: Option<nat>, cut: Cut) {
    match pos
    case None => forall i :: 0 <= i < |es| ==> !cut(es[i].key)
    case Some(p) => p < |es| && cut(es[p].key) && forall i :: 0 <= i < p ==> !cut(es[i].key)
  }

  ghost predicate LastIn(es: seq<Entry>, pos: Option<nat>, cut: Cut) {
    match pos
    case None => forall i :: 0 <= i < |es| ==> !cut(es[i].key)
    case Some(p) => p < |es| && cut(es[p].key) && forall i :: p < i < |es| ==> !cut(es[i].key)
  }

  // Moves of a child cursor.

  function SeekIn(es: seq<Entry>, t: InternalKey): (pos: Option<nat>)
    requires Sorted(es)
    ensures FirstIn(es, pos, From(t))
  {
    var i := SeekIndex(es, t);
    if i < |es| then Some(i) else None
  }

  function FirstOf(es: seq<Entry>): (pos: Option<nat>)
    ensures FirstIn(es, pos, Everything)
  {
    if es == [] then None else Some(0)
  }

  function LastOf(es: seq<Entry>): (pos: Option<nat>)
    ensures LastIn(es, pos, Everything)
  {
    if es == [] then None else Some(|es| - 1)
  }

  function Forward(es: seq<Entry>, p: nat): Option<nat> {
    if p + 1 < |es| then Some(p + 1) else None
  }

  function Back(p: nat): Option<nat> {
    if p > 0 then Some(p - 1) else None
  }

  lemma ForwardIsBeyond(es: seq<Entry>, p: nat)
    requires Sorted(es) && p < |es|
    ensures FirstIn(es, Forward(es, p), Beyond(es[p].key))
  {
  }

  lemma BackIsBelow(es: seq<Entry>, p: nat)
    requires Sorted(es) && p < |es|
    ensures LastIn(es, Back(p), Below(es[p].key))
  {
  }

  /** Seek to a key, and step over it if it is there: the first entry beyond it. */
  function SeekBeyond(es: seq<Entry>, t: InternalKey): (pos: Option<nat>)
    requires Sorted(es)
  {
    var pos := SeekIn(es, t);
    if pos.Some? && es[pos.value].key == t then Forward(es, pos.value) else pos
  }

  lemma SeekBeyondIsBeyond(es: seq<Entry>, t: InternalKey)
    requires Sorted(es)
    ensures FirstIn(es, SeekBeyond(es, t), Beyond(t))
  {
    var pos := SeekIn(es, t);
    if pos.Some? {
      if es[pos.value].key == t {
        ForwardIsBeyond(es, pos.value);
      } else {
        Total(es[pos.value].key, t);
      }
    }
  }

  lemma Total(a: InternalKey, b: InternalKey)
    ensures a == b || Before(a, b) || Before(b, a)
  {
  }

  /** Seek to a key and step back; if the run has nothing at or after it, go to the run's last entry. */
  function SeekBelow(es: seq<Entry>, t: InternalKey): (pos: Option<nat>)
    requires Sorted(es)
    ensures LastIn(es, pos, Below(t))
  {
    var pos := SeekIn(es, t);
    if pos.Some? then Back(pos.value) else LastOf(es)
  }

  // ---------------------------------------------------------------- the merged cursor

  class MergingIterator {
    const runs: seq<seq<Entry>>
    var pos: seq<Option<nat>>
    var current: Option<nat>
    var forward: bool

    constructor (runs: seq<seq<Entry>>)
      requires RunsOk(runs)
      ensures Valid() && this.runs == runs && Cur() == None
    {
      this.runs := runs;
      pos, current, forward := seq(|runs|, _ => None), None, true;
    }

    ghost predicate InRange()
      reads this
    {
      && RunsOk(runs) && |pos| == |runs|
      && forall j :: 0 <= j < |runs| && pos[j].Some? ==> pos[j].value < |runs[j]|
    }

    /** Child `j` stands just after key `k`, or just before it when moving backward. */
    ghost predicate Around(j: nat, k: InternalKey)
      reads this
    {
      j < |runs| && j < |pos| && if forward then FirstIn(runs[j], pos[j], Beyond(k)) else LastIn(runs[j], pos[j], Below(k))
    }

    /** The children other than the current one stand around its key. */
    ghost predicate Valid()
      reads this
    {
      match current
      case None => InRange()
      case Some(c) =>
        && InRange() && c < |runs| && pos[c].Some?
        && var k := runs[c][pos[c].value].key;
           forall j :: 0 <= j < |runs| && j != c ==> Around(j, k)
    }

    function Cur(): (e: Option<Entry>)
      requires Valid()
      reads this
      ensures e.Some? ==> e.value in Union(runs)
    {
      if current.Some? then
        var e := runs[current.value][pos[current.value].value];
        assert e in runs[current.value];
        Some(e)
      else None
    }

    ghost predicate AllFirst(cut: Cut)
      reads this
    {
      InRange() && Positions(runs, pos, cut)
    }

    ghost predicate AllLast(cut: Cut)
      reads this
    {
      InRange() && PositionsBack(runs, pos, cut)
    }

    /** With every child at its first entry in a cut, the smallest of them is the first entry of the union in the cut. */
    method FindSmallest(ghost cut: Cut)
      requires AllFirst(cut) && Upward(cut)
      modifies this`current, this`forward
      ensures forward && Valid() && IsLeast(Union(runs), cut, Cur())
    {
      var smallest: Option<nat> := None;
      for i := 0 to |runs|
        invariant smallest.Some? ==> smallest.value < i && pos[smallest.value].Some?
        invariant smallest.None? ==> forall j :: 0 <= j < i ==> pos[j].None?
        invariant smallest.Some? ==> forall j :: 0 <= j < i && pos[j].Some? ==>
                    AtMost(runs[smallest.value][pos[smallest.value].value].key, runs[j][pos[j].value].key)
      {
        if pos[i].Some? {
          if smallest.None? {
            smallest := Some(i);
          } else if Before(runs[i][pos[i].value].key, runs[smallest.value][pos[smallest.value].value].key) {
            smallest := Some(i);
          }
        }
      }
      current, forward := smallest, true;
      if current.Some? {
        SmallestIsLeast(runs, pos, current.value, cut);
      } else {
        NothingInCut(runs, pos, cut);
      }
    }

    method FindLargest(ghost cut: Cut)
      requires AllLast(cut) && Downward(cut)
      modifies this`current, this`forward
      ensures !forward && Valid() && IsGreatest(Union(runs), cut, Cur())
    {
      var largest: Option<nat> := None;
      var i := |runs|;
      while i > 0
        invariant 0 <= i <= |runs|
        invariant largest.Some? ==> i <= largest.value < |runs| && pos[largest.value].Some?
        invariant largest.None? ==> forall j :: i <= j < |runs| ==> pos[j].None?
        invariant largest.Some? ==> forall j :: i <= j < |runs| && pos[j].Some? ==>
                    AtMost(runs[j][pos[j].value].key, runs[largest.value][pos[largest.value].value].key)
      {
        i := i - 1;
        if pos[i].Some? {
          if largest.None? {
            largest := Some(i);
          } else if Before(runs[largest.value][pos[largest.value].value].key, runs[i][pos[i].value].key) {
            largest := Some(i);
          }
        }
      }
      current, forward := largest, false;
      if current.Some? {
        LargestIsGreatest(runs, pos, current.value, cut);
      } else {
        NothingInCutBack(runs, pos, cut);
      }
    }

    method SeekToFirst()
      requires InRange()
      modifies this
      ensures Valid() && IsLeast(Union(runs), Everything, Cur())
    {
      pos := seq(|runs|, j requires 0 <= j < |runs| => FirstOf(runs[j]));
      FindSmallest(Everything);
    }

    method SeekToLast()
      requires InRange()
      modifies this
      ensures Valid() && IsGreatest(Union(runs), Everything, Cur())
    {
      pos := seq(|runs|, j requires 0 <= j < |runs| => LastOf(runs[j]));
      FindLargest(Everything);
    }

    method Seek(t: InternalKey)
      requires InRange()
      modifies this
      ensures Valid() && IsLeast(Union(runs), From(t), Cur())
    {
      pos := seq(|runs|, j requires 0 <= j < |runs| && Sorted(runs[j]) => SeekIn(runs[j], t));
      CutsAreClosed(t);
      FindSmallest(From(t));
    }

    method Next()
      requires Valid() && current.Some?
      modifies this
      ensures Valid() && IsLeast(Union(runs), Beyond(old(Cur()).value.key), Cur())
    {
      var c := current.value;
      var k := runs[c][pos[c].value].key;
      assert forward ==> forall j :: 0 <= j < |runs| && j != c ==> Around(j, k) && FirstIn(runs[j], pos[j], Beyond(k));
      if !forward {
        var i := 0;
        while i < |runs|
          invariant 0 <= i <= |runs| && InRange() && pos[c] == old(pos[c])
          invariant forall j :: 0 <= j < i && j != c ==> FirstIn(runs[j], pos[j], Beyond(k))
        {
          if i != c {
            SeekBeyondIsBeyond(runs[i], k);
            pos := pos[i := SeekBeyond(runs[i], k)];
          }
          i := i + 1;
        }
      }
      ForwardIsBeyond(runs[c], pos[c].value);
      pos := pos[c := Forward(runs[c], pos[c].value)];
      CutsAreClosed(k);
      FindSmallest(Beyond(k));
    }

    method Prev()
      requires Valid() && current.Some?
      modifies this
      ensures Valid() && IsGreatest(Union(runs), Below(old(Cur()).value.key), Cur())
    {
      var c := current.value;
      var k := runs[c][pos[c].value].key;
      assert !forward ==> forall j :: 0 <= j < |runs| && j != c ==> Around(j, k) && LastIn(runs[j], pos[j], Below(k));
      if forward {
        var i := 0;
        while i < |runs|
          invariant 0 <= i <= |runs| && InRange() && pos[c] == old(pos[c])
          invariant forall j :: 0 <= j < i && j != c ==> LastIn(runs[j], pos[j], Below(k))
        {
          if i != c {
            pos := pos[i := SeekBelow(runs[i], k)];
          }
          i := i + 1;
        }
      }
      BackIsBelow(runs[c], pos[c].value);
      pos := pos[c := Back(pos[c].value)];
      CutsAreClosed(k);
      FindLargest(Below(k));
    }
  }

  // ---------------------------------------------------------------- why the smallest child is the answer

  ghost predicate Positions(runs: seq<seq<Entry>>, pos: seq<Option<nat>>, cut: Cut) {
    |pos| == |runs| && forall j :: 0 <= j < |runs| ==> FirstIn(runs[j], pos[j], cut)
  }

  ghost predicate PositionsBack(runs: seq<seq<Entry>>, pos: seq<Option<nat>>, cut: Cut) {
    |pos| == |runs| && forall j :: 0 <= j < |runs| ==> LastIn(runs[j], pos[j], cut)
  }

  lemma NothingInCut(runs: seq<seq<Entry>>, pos: seq<Option<nat>>, cut: Cut)
    requires Positions(runs, pos, cut) && forall j :: 0 <= j < |runs| ==> pos[j].None?
    ensures IsLeast(Union(runs), cut, None)
  {
  }

  lemma NothingInCutBack(runs: seq<seq<Entry>>, pos: seq<Option<nat>>, cut: Cut)
    requires PositionsBack(runs, pos, cut) && forall j :: 0 <= j < |runs| ==> pos[j].None?
    ensures IsGreatest(Union(runs), cut, None)
  {
  }

  lemma SmallestIsLeast(runs: seq<seq<Entry>>, pos: seq<Option<nat>>, c: nat, cut: Cut)
    requires RunsOk(runs) && Positions(runs, pos, cut) && Upward(cut)
    requires c < |runs| && pos[c].Some?
    requires forall j :: 0 <= j < |runs| && pos[j].Some? ==> AtMost(runs[c][pos[c].value].key, runs[j][pos[j].value].key)
    ensures var e := runs[c][pos[c].value];
            && IsLeast(Union(runs), cut, Some(e))
            && forall j :: 0 <= j < |runs| && j != c ==> FirstIn(runs[j], pos[j], Beyond(e.key))
  {
    var e := runs[c][pos[c].value];
    forall x | x in Union(runs) && cut(x.key) ensures AtMost(e.key, x.key) {
      var j :| 0 <= j < |runs| && x in runs[j];
      InCutIsLater(runs[j], pos[j], cut, x);
    }
    forall j | 0 <= j < |runs| && j != c ensures FirstIn(runs[j], pos[j], Beyond(e.key)) {
      assert ApartAt(runs, j, c) && e in runs[c];
      OtherChild(runs[j], pos[j], cut, e);
    }
  }

  lemma InCutIsLater(es: seq<Entry>, pos: Option<nat>, cut: Cut, x: Entry)
    requires Sorted(es) && FirstIn(es, pos, cut) && x in es && cut(x.key)
    ensures pos.Some? && AtMost(es[pos.value].key, x.key)
  {
    var i :| 0 <= i < |es| && es[i] == x;
  }

  lemma OtherChild(es: seq<Entry>, pos: Option<nat>, cut: Cut, e: Entry)
    requires Sorted(es) && FirstIn(es, pos, cut) && Upward(cut) && cut(e.key)
    requires forall x :: x in es ==> x.key != e.key
    requires pos.Some? ==> AtMost(e.key, es[pos.value].key)
    ensures FirstIn(es, pos, Beyond(e.key))
  {
    if pos.Some? {
      assert es[pos.value] in es;
      Total(es[pos.value].key, e.key);
    }
  }

  lemma LargestIsGreatest(runs: seq<seq<Entry>>, pos: seq<Option<nat>>, c: nat, cut: Cut)
    requires RunsOk(runs) && PositionsBack(runs, pos, cut) && Downward(cut)
    requires c < |runs| && pos[c].Some?
    requires forall j :: 0 <= j < |runs| && pos[j].Some? ==> AtMost(runs[j][pos[j].value].key, runs[c][pos[c].value].key)
    ensures var e := runs[c][pos[c].value];
            && IsGreatest(Union(runs), cut, Some(e))
            && forall j :: 0 <= j < |runs| && j != c ==> LastIn(runs[j], pos[j], Below(e.key))
  {
    var e := runs[c][pos[c].value];
    forall x | x in Union(runs) && cut(x.key) ensures AtMost(x.key, e.key) {
      var j :| 0 <= j < |runs| && x in runs[j];
      InCutIsEarlier(runs[j], pos[j], cut, x);
    }
    forall j | 0 <= j < |runs| && j != c ensures LastIn(runs[j], pos[j], Below(e.key)) {
      assert ApartAt(runs, j, c) && e in runs[c];
      OtherChildBack(runs[j], pos[j], cut, e);
    }
  }

  lemma InCutIsEarlier(es: seq<Entry>, pos: Option<nat>, cut: Cut, x: Entry)
    requires Sorted(es) && LastIn(es, pos, cut) && x in es && cut(x.key)
    ensures pos.Some? && AtMost(x.key, es[pos.value].key)
  {
    var i :| 0 <= i < |es| && es[i] == x;
  }

  lemma OtherChildBack(es: seq<Entry>, pos: Option<nat>, cut: Cut, e: Entry)
    requires Sorted(es) && LastIn(es, pos, cut) && Downward(cut) && cut(e.key)
    requires forall x :: x in es ==> x.key != e.key
    requires pos.Some? ==> AtMost(es[pos.value].key, e.key)
    ensures LastIn(es, pos, Below(e.key))
  {
    if pos.Some? {
      assert es[pos.value] in es;
      Total(es[pos.value].key, e.key);
    }
  }
}
