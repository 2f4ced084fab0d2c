/** The user-level iterator (db/db_iter.cc): over the merged history it stands where a cursor over the sorted map of the
    snapshot would stand, for any sequence of seeks and moves in either direction.
 */
module UserIterator {
  import opened InternalKeys
  import opened History
  import opened Merging

  // ---------------------------------------------------------------- the snapshot map

  datatype Bound = AllKeys | AtLeast(u: UserKey) | MoreThan(u: UserKey) | LessThan(u: UserKey)

  predicate Allows(b: Bound, u: UserKey) {
    match b
    case AllKeys => true
    case AtLeast(x) => x <= u
    case MoreThan(x) => x < u
    case LessThan(x) => u < x
  }

  /** `u` has a value at snapshot `s`. */
  ghost predicate Present(h: set<Entry>, s: nat, u: UserKey) {
    ReadAt(h, u, s).Found?
  }

  /** `r` is the first key of the snapshot map within the bound. */
  ghost predicate IsFirstKey(h: set<Entry>, s: nat, b: Bound, r: Option<UserKey>) {
    match r
    case None => forall u :: Allows(b, u) ==> !Present(h, s, u)
    case Some(k) => Allows(b, k) && Present(h, s, k) && forall u :: Allows(b, u) && u < k ==> !Present(h, s, u)
  }

  ghost predicate IsLastKey(h: set<Entry>, s: nat, b: Bound, r: Option<UserKey>) {
    match r
    case None => forall u :: Allows(b, u) ==> !Present(h, s, u)
    case Some(k) => Allows(b, k) && Present(h, s, k) && forall u :: Allows(b, u) && k < u ==> !Present(h, s, u)
  }

  lemma NoneVisible(h: set<Entry>, s: nat, u: UserKey)
    requires Distinct(h) && forall x :: x in h ==> !Visible(x, u, s)
    ensures ReadAt(h, u, s) == NotFound
  {
    ReadsDetermine(h, u, s, None);
  }

  lemma NewestDecides(h: set<Entry>, s: nat, e: Entry)
    requires Distinct(h) && IsNewest(h, e.key.user, s, e)
    ensures ReadAt(h, e.key.user, s) == if e.key.kind.Value? then Found(e.value) else NotFound
  {
    ReadsDetermine(h, e.key.user, s, Some(e));
  }

  // ---------------------------------------------------------------- scanning forward

  predicate Passed(n: Option<Entry>, y: Entry) {
    n.None? || Before(y.key, n.value.key)
  }

  /** State of a forward scan with the cursor at `n`: keys at or below `skip` are settled as absent or out of bounds, and
      nothing visible of a key still to be decided has been passed. */
  ghost predicate Scanning(h: set<Entry>, s: nat, n: Option<Entry>, skip: Option<UserKey>, b: Bound) {
    match skip
    case None =>
      && (forall y :: y in h && y.key.sequence <= s && Passed(n, y) ==> !Allows(b, y.key.user))
      && (forall y :: y in h && !Passed(n, y) ==> Allows(b, y.key.user))
    case Some(k) =>
      && (forall y :: y in h && y.key.sequence <= s && Passed(n, y) ==> !Allows(b, y.key.user) || y.key.user <= k)
      && (forall y :: y in h && y.key.sequence <= s && !Passed(n, y) ==> k <= y.key.user)
      && (forall u :: Allows(b, u) && u <= k ==> !Present(h, s, u))
      && (forall u :: k < u ==> Allows(b, u))
  }

  lemma ScanEnds(h: set<Entry>, s: nat, skip: Option<UserKey>, b: Bound)
    requires Distinct(h) && Scanning(h, s, None, skip, b)
    ensures IsFirstKey(h, s, b, None)
  {
    forall u | Allows(b, u) ensures !Present(h, s, u) {
      if !(skip.Some? && u <= skip.value) { NoneVisible(h, s, u); }
    }
  }

  lemma ScanYields(h: set<Entry>, s: nat, c: Entry, skip: Option<UserKey>, b: Bound)
    requires Distinct(h) && Scanning(h, s, Some(c), skip, b) && c in h && c.key.sequence <= s && c.key.kind.Value?
    requires !(skip.Some? && c.key.user <= skip.value)
    ensures IsNewest(h, c.key.user, s, c) && IsFirstKey(h, s, b, Some(c.key.user))
    ensures ReadAt(h, c.key.user, s) == Found(c.value)
  {
    assert Allows(b, c.key.user);
    forall y | y in h && Visible(y, c.key.user, s) ensures y.key.sequence <= c.key.sequence {
      assert !Passed(Some(c), y);
    }
    NewestDecides(h, s, c);
    forall u | Allows(b, u) && u < c.key.user ensures !Present(h, s, u) {
      if !(skip.Some? && u <= skip.value) { NoneVisible(h, s, u); }
    }
  }

  /** An entry that is invisible or hidden is passed without effect. */
  lemma ScanPasses(h: set<Entry>, s: nat, c: Entry, n: Option<Entry>, skip: Option<UserKey>, b: Bound)
    requires Scanning(h, s, Some(c), skip, b) && c in h && IsLeast(h, Beyond(c.key), n)
    requires forall x :: x in h && x.key == c.key ==> x == c
    requires c.key.sequence <= s ==> skip.Some? && c.key.user <= skip.value
    ensures Scanning(h, s, n, skip, b)
  {
    PassedNow(h, c, n);
  }

  lemma PassedNow(h: set<Entry>, c: Entry, n: Option<Entry>)
    requires c in h && IsLeast(h, Beyond(c.key), n) && forall x :: x in h && x.key == c.key ==> x == c
    ensures forall y :: y in h ==> (Passed(n, y) <==> Passed(Some(c), y) || y == c)
  {
    forall y | y in h ensures Passed(n, y) <==> Passed(Some(c), y) || y == c {
      Total(y.key, c.key);
      if n.Some? { Total(y.key, n.value.key); }
    }
  }

  /** A visible deletion settles its key. */
  lemma ScanDeletes(h: set<Entry>, s: nat, c: Entry, n: Option<Entry>, skip: Option<UserKey>, b: Bound)
    requires Distinct(h) && Scanning(h, s, Some(c), skip, b) && c in h && IsLeast(h, Beyond(c.key), n)
    requires forall x :: x in h && x.key == c.key ==> x == c
    requires c.key.sequence <= s && c.key.kind.Deletion? && !b.LessThan?
    ensures Scanning(h, s, n, Some(c.key.user), b)
  {
    PassedNow(h, c, n);
    forall u | Allows(b, u) && u <= c.key.user ensures !Present(h, s, u) {
      if !(skip.Some? && u <= skip.value) {
        if u < c.key.user {
          NoneVisible(h, s, u);
        } else {
          assert IsNewest(h, u, s, c);
          NewestDecides(h, s, c);
        }
      }
    }
  }

  // ---------------------------------------------------------------- scanning backward

  predicate PassedBack(n: Option<Entry>, y: Entry) {
    n.None? || Before(n.value.key, y.key)
  }

  /** State of a backward scan with the cursor at `n`; `last` is the last visible entry passed, if any. */
  ghost predicate ScanningBack(h: set<Entry>, s: nat, n: Option<Entry>, last: Option<Entry>, b: Bound) {
    match last
    case None =>
      && (forall y :: y in h && y.key.sequence <= s && PassedBack(n, y) ==> !Allows(b, y.key.user))
      && (forall y :: y in h && !PassedBack(n, y) ==> Allows(b, y.key.user))
    case Some(e) =>
      && e in h && e.key.sequence <= s && PassedBack(n, e) && Allows(b, e.key.user)
      && (forall y :: y in h && y.key.sequence <= s && PassedBack(n, y) && Allows(b, y.key.user) ==> AtMost(e.key, y.key))
      && (forall u :: Allows(b, u) && e.key.user < u ==> !Present(h, s, u))
      && (forall y :: y in h && !PassedBack(n, y) ==> Allows(b, y.key.user))
  }

  /** The cursor stands before everything visible of `u` and after everything visible of smaller keys. */
  ghost predicate JustBefore(h: set<Entry>, s: nat, n: Option<Entry>, u: UserKey) {
    && (n.Some? ==> n.value.key.user < u)
    && forall y :: y in h && y.key.sequence <= s && y.key.user < u ==> !PassedBack(n, y)
  }

  lemma LastIsNewest(h: set<Entry>, s: nat, n: Option<Entry>, last: Entry, b: Bound)
    requires ScanningBack(h, s, n, Some(last), b) && (b.AllKeys? || b.LessThan?)
    requires n.Some? ==> n.value.key.user < last.key.user
    ensures IsNewest(h, last.key.user, s, last) && JustBefore(h, s, n, last.key.user)
  {
  }

  lemma BackFinds(h: set<Entry>, s: nat, n: Option<Entry>, last: Entry, b: Bound)
    requires Distinct(h) && ScanningBack(h, s, n, Some(last), b) && (b.AllKeys? || b.LessThan?)
    requires last.key.kind.Value? && (n.Some? ==> n.value.key.user < last.key.user)
    ensures IsLastKey(h, s, b, Some(last.key.user)) && ReadAt(h, last.key.user, s) == Found(last.value)
    ensures JustBefore(h, s, n, last.key.user)
  {
    LastIsNewest(h, s, n, last, b);
    NewestDecides(h, s, last);
  }

  lemma BackFindsNothing(h: set<Entry>, s: nat, last: Option<Entry>, b: Bound)
    requires Distinct(h) && ScanningBack(h, s, None, last, b) && (b.AllKeys? || b.LessThan?)
    requires last.Some? ==> last.value.key.kind.Deletion?
    ensures IsLastKey(h, s, b, None)
  {
    if last.Some? {
      LastIsNewest(h, s, None, last.value, b);
      NewestDecides(h, s, last.value);
    }
    forall u | Allows(b, u) ensures !Present(h, s, u) {
      if !(last.Some? && last.value.key.user <= u) { NoneVisible(h, s, u); }
    }
  }

  lemma PassedBackNow(h: set<Entry>, c: Entry, n: Option<Entry>)
    requires c in h && IsGreatest(h, Below(c.key), n) && forall x :: x in h && x.key == c.key ==> x == c
    ensures forall y :: y in h ==> (PassedBack(n, y) <==> PassedBack(Some(c), y) || y == c)
  {
    forall y | y in h ensures PassedBack(n, y) <==> PassedBack(Some(c), y) || y == c {
      Total(y.key, c.key);
      if n.Some? { Total(y.key, n.value.key); }
    }
  }

  lemma BackPasses(h: set<Entry>, s: nat, c: Entry, n: Option<Entry>, last: Option<Entry>, b: Bound)
    requires ScanningBack(h, s, Some(c), last, b) && c in h && IsGreatest(h, Below(c.key), n)
    requires forall x :: x in h && x.key == c.key ==> x == c
    requires c.key.sequence > s
    ensures ScanningBack(h, s, n, last, b)
  {
    PassedBackNow(h, c, n);
  }

  /** A visible entry replaces the last one seen: it is newer, or the last one's key is settled as deleted. */
  lemma BackTakes(h: set<Entry>, s: nat, c: Entry, n: Option<Entry>, last: Option<Entry>, b: Bound)
    requires Distinct(h) && ScanningBack(h, s, Some(c), last, b) && c in h && IsGreatest(h, Below(c.key), n) && (b.AllKeys? || b.LessThan?)
    requires forall x :: x in h && x.key == c.key ==> x == c
    requires c.key.sequence <= s
    requires !(last.Some? && last.value.key.kind.Value? && c.key.user < last.value.key.user)
    ensures ScanningBack(h, s, n, Some(c), b)
  {
    PassedBackNow(h, c, n);
    forall u | Allows(b, u) && c.key.user < u ensures !Present(h, s, u) {
      if last.Some? && last.value.key.user == u {
        LastIsNewest(h, s, Some(c), last.value, b);
        NewestDecides(h, s, last.value);
      } else if !(last.Some? && last.value.key.user < u) {
        NoneVisible(h, s, u);
      }
    }
  }

  // ---------------------------------------------------------------- the iterator

  /** Keys name entries: no two entries share one. */
  ghost predicate KeysDiffer(h: set<Entry>) {
    forall x, y :: x in h && y in h && x.key == y.key ==> x == y
  }

  ghost function Ahead(h: set<Entry>, n: Option<Entry>): set<Entry> {
    set y | y in h && !Passed(n, y)
  }

  ghost function Behind(h: set<Entry>, n: Option<Entry>): set<Entry> {
    set y | y in h && !PassedBack(n, y)
  }

  lemma AheadShrinks(h: set<Entry>, c: Entry, n: Option<Entry>)
    requires c in h && IsLeast(h, Beyond(c.key), n)
    ensures Ahead(h, n) < Ahead(h, Some(c))
  {
    assert c in Ahead(h, Some(c)) && c !in Ahead(h, n);
  }

  lemma BehindShrinks(h: set<Entry>, c: Entry, n: Option<Entry>)
    requires c in h && IsGreatest(h, Below(c.key), n)
    ensures Behind(h, n) < Behind(h, Some(c))
  {
    assert c in Behind(h, Some(c)) && c !in Behind(h, n);
  }

  /** One move of the forward scan. */
  lemma ScanMoves(h: set<Entry>, s: nat, e: Entry, n: Option<Entry>, hidden: Option<UserKey>, hidden': Option<UserKey>, b: Bound)
    requires Distinct(h) && KeysDiffer(h) && e in h && Scanning(h, s, Some(e), hidden, b) && IsLeast(h, Beyond(e.key), n) && !b.LessThan?
    requires hidden' == if e.key.sequence <= s && e.key.kind.Deletion? then Some(e.key.user) else hidden
    requires e.key.sequence <= s && e.key.kind.Value? ==> hidden.Some? && e.key.user <= hidden.value
    ensures Scanning(h, s, n, hidden', b) && Ahead(h, n) < Ahead(h, Some(e))
  {
    AheadShrinks(h, e, n);
    if e.key.sequence <= s && e.key.kind.Deletion? {
      ScanDeletes(h, s, e, n, hidden, b);
    } else {
      ScanPasses(h, s, e, n, hidden, b);
    }
  }

  /** What the backward scan keeps of the last visible entry. */
  predicate Remembers(last: Option<Entry>, kind: ValueType, savedKey: Option<UserKey>, savedValue: Bytes) {
    if kind.Value? then
      last.Some? && last.value.key.kind.Value? && savedKey == Some(last.value.key.user) && savedValue == last.value.value
    else last.None? || last.value.key.kind.Deletion?
  }

  lemma BackMoves(h: set<Entry>, s: nat, e: Entry, n: Option<Entry>, last: Option<Entry>, last': Option<Entry>, b: Bound)
    requires Distinct(h) && KeysDiffer(h) && e in h && ScanningBack(h, s, Some(e), last, b) && IsGreatest(h, Below(e.key), n)
    requires b.AllKeys? || b.LessThan?
    requires last' == if e.key.sequence <= s then Some(e) else last
    requires e.key.sequence <= s ==> !(last.Some? && last.value.key.kind.Value? && e.key.user < last.value.key.user)
    ensures ScanningBack(h, s, n, last', b) && Behind(h, n) < Behind(h, Some(e))
  {
    BehindShrinks(h, e, n);
    if e.key.sequence <= s {
      BackTakes(h, s, e, n, last, b);
    } else {
      BackPasses(h, s, e, n, last, b);
    }
  }

  class DBIter {
    const iter: MergingIterator
    const sequence: nat
    var forward: bool
    var valid: bool
    var savedKey: Option<UserKey>
    var savedValue: Bytes

    constructor (iter: MergingIterator, sequence: nat)
      requires iter.Valid() && Distinct(Union(iter.runs)) && KeysDiffer(Union(iter.runs))
      ensures Valid() && this.iter == iter && this.sequence == sequence && Key() == None
    {
      this.iter, this.sequence := iter, sequence;
      forward, valid, savedKey, savedValue := true, false, None, [];
    }

    ghost function Entries(): set<Entry> { Union(iter.runs) }

    ghost predicate Usable()
      reads this, iter
    {
      iter.Valid() && Distinct(Entries()) && KeysDiffer(Entries())
    }

    /** Forward, the merged cursor is at the entry that gives key and value; backward, it stands just before the entries of
        the saved key. */
    ghost predicate Valid()
      reads this, iter
    {
      match (valid, forward)
      case (false, _) => Usable()
      case (true, true) =>
        Usable() && iter.Cur().Some? && iter.Cur().value.key.kind.Value?
        && IsNewest(Entries(), iter.Cur().value.key.user, sequence, iter.Cur().value)
      case (true, false) =>
        Usable() && savedKey.Some? && ReadAt(Entries(), savedKey.value, sequence) == Found(savedValue)
        && JustBefore(Entries(), sequence, iter.Cur(), savedKey.value)
    }

    function Key(): Option<UserKey>
      requires Valid()
      reads this, iter
    {
      if !valid then None else if forward then Some(iter.Cur().value.key.user) else savedKey
    }

    function Value(): Bytes
      requires Valid() && valid
      reads this, iter
    {
      if forward then iter.Cur().value.value else savedValue
    }

    /** A valid iterator shows a key of the snapshot map with its value. */
    lemma ShowsTheMap()
      requires Valid() && valid
      ensures Key().Some? && ReadAt(Entries(), Key().value, sequence) == Found(Value())
    {
      if forward { NewestDecides(Entries(), sequence, iter.Cur().value); }
    }

    /** The entry under the merged cursor is what the iterator shows. */
    method ShowCurrent()
      requires Usable() && forward && iter.Cur().Some? && iter.Cur().value.key.kind.Value?
      requires IsNewest(Entries(), iter.Cur().value.key.user, sequence, iter.Cur().value)
      modifies this`valid, this`savedKey
      ensures Valid() && Key() == Some(iter.Cur().value.key.user)
    {
      valid, savedKey := true, None;
    }

    /** What was saved is what the iterator shows. */
    method ShowSaved()
      requires Usable() && !forward && savedKey.Some? && ReadAt(Entries(), savedKey.value, sequence) == Found(savedValue)
      requires JustBefore(Entries(), sequence, iter.Cur(), savedKey.value)
      modifies this`valid
      ensures Valid() && Key() == savedKey
    {
      valid := true;
    }

    method ShowNothing()
      requires Usable()
      modifies this`valid, this`savedKey
      ensures Valid() && Key() == None
    {
      valid, savedKey := false, None;
    }

    /** Move forward to the first entry to show; keys at or below `skip` are hidden. */
    method FindNextUserEntry(skip: Option<UserKey>, ghost b: Bound)
      requires Usable() && forward && iter.Cur().Some? && !b.LessThan?
      requires Scanning(Entries(), sequence, iter.Cur(), skip, b)
      modifies this, iter
      ensures Valid() && IsFirstKey(Entries(), sequence, b, Key())
    {
      var done, hidden := false, skip;
      while !done
        invariant !done ==> Usable() && forward && iter.Cur().Some? && Scanning(Entries(), sequence, iter.Cur(), hidden, b)
        invariant done ==> Valid() && IsFirstKey(Entries(), sequence, b, Key())
        decreases !done, if done then {} else Ahead(Entries(), iter.Cur())
      {
        done, hidden := ScanStep(hidden, b);
      }
    }

    /** One turn of the forward scan: show the entry under the cursor, or hide what it hides and move on. */
    method ScanStep(hidden: Option<UserKey>, ghost b: Bound) returns (done: bool, hidden': Option<UserKey>)
      requires Usable() && forward && iter.Cur().Some? && !b.LessThan?
      requires Scanning(Entries(), sequence, iter.Cur(), hidden, b)
      modifies this, iter
      ensures !done ==> Usable() && forward && iter.Cur().Some? && Scanning(Entries(), sequence, iter.Cur(), hidden', b)
      ensures !done ==> Ahead(Entries(), iter.Cur()) < old(Ahead(Entries(), iter.Cur()))
      ensures done ==> Valid() && IsFirstKey(Entries(), sequence, b, Key())
    {
      var e := iter.Cur().value;
      hidden' := hidden;
      if e.key.sequence <= sequence {
        if e.key.kind.Deletion? {
          hidden' := Some(e.key.user);
        } else if !(hidden.Some? && e.key.user <= hidden.value) {
          ScanYields(Entries(), sequence, e, hidden, b);
          ShowCurrent();
          return true, hidden;
        }
      }
      iter.Next();
      ScanMoves(Entries(), sequence, e, iter.Cur(), hidden, hidden', b);
      done := iter.Cur() == None;
      if done {
        ScanEnds(Entries(), sequence, hidden', b);
        ShowNothing();
      }
    }

    /** Move backward to the entry to show, remembering it while stepping over all entries of its key. */
    method FindPrevUserEntry(ghost b: Bound)
      requires Usable() && !forward && (b.AllKeys? || b.LessThan?)
      requires ScanningBack(Entries(), sequence, iter.Cur(), None, b)
      modifies this, iter
      ensures Valid() && IsLastKey(Entries(), sequence, b, Key())
    {
      var kind;
      ghost var last;
      kind, last := ScanBack(b);
      if kind.Deletion? {
        BackFindsNothing(Entries(), sequence, last, b);
        savedValue, forward := [], true;
        ShowNothing();
      } else {
        BackFinds(Entries(), sequence, iter.Cur(), last.value, b);
        ShowSaved();
      }
    }

    /** Step back until the key of a remembered value is left behind, or to the beginning. */
    method ScanBack(ghost b: Bound) returns (kind: ValueType, ghost last: Option<Entry>)
      requires Usable() && !forward && (b.AllKeys? || b.LessThan?)
      requires ScanningBack(Entries(), sequence, iter.Cur(), None, b)
      modifies this`savedKey, this`savedValue, iter
      ensures Usable() && ScanningBack(Entries(), sequence, iter.Cur(), last, b) && Remembers(last, kind, savedKey, savedValue)
      ensures iter.Cur().None? || (last.Some? && kind.Value? && iter.Cur().value.key.user < last.value.key.user)
    {
      var found := false;
      kind, last := Deletion, None;
      while !found && iter.Cur().Some?
        invariant Usable() && ScanningBack(Entries(), sequence, iter.Cur(), last, b) && Remembers(last, kind, savedKey, savedValue)
        invariant found ==> iter.Cur().Some? && last.Some? && kind.Value? && iter.Cur().value.key.user < last.value.key.user
        decreases !found, Behind(Entries(), iter.Cur())
      {
        found, kind, last := BackStep(kind, last, b);
      }
    }

    /** One turn of the backward scan. */
    method BackStep(kind: ValueType, ghost last: Option<Entry>, ghost b: Bound)
      returns (found: bool, kind': ValueType, ghost last': Option<Entry>)
      requires Usable() && !forward && iter.Cur().Some? && (b.AllKeys? || b.LessThan?)
      requires ScanningBack(Entries(), sequence, iter.Cur(), last, b) && Remembers(last, kind, savedKey, savedValue)
      modifies this`savedKey, this`savedValue, iter
      ensures Usable() && ScanningBack(Entries(), sequence, iter.Cur(), last', b) && Remembers(last', kind', savedKey, savedValue)
      ensures found ==> iter.Cur().Some? && last'.Some? && kind'.Value? && iter.Cur().value.key.user < last'.value.key.user
      ensures !found ==> Behind(Entries(), iter.Cur()) < old(Behind(Entries(), iter.Cur()))
    {
      var e := iter.Cur().value;
      kind', last' := kind, last;
      if e.key.sequence <= sequence {
        if kind != Deletion && e.key.user < savedKey.value {
          return true, kind, last;
        }
        kind', last' := e.key.kind, Some(e);
        if kind'.Deletion? {
          savedKey, savedValue := None, [];
        } else {
          savedKey, savedValue := Some(e.key.user), e.value;
        }
      }
      iter.Prev();
      BackMoves(Entries(), sequence, e, iter.Cur(), last, last', b);
      found := false;
    }

    method Seek(target: UserKey)
      requires Usable()
      modifies this, iter
      ensures Valid() && IsFirstKey(Entries(), sequence, AtLeast(target), Key())
    {
      forward, savedKey, savedValue := true, None, [];
      iter.Seek(LookupKey(target, sequence));
      SeekStartsScan(Entries(), sequence, target, iter.Cur());
      if iter.Cur().Some? {
        FindNextUserEntry(None, AtLeast(target));
      } else {
        ScanEnds(Entries(), sequence, None, AtLeast(target));
        ShowNothing();
      }
    }

    method SeekToFirst()
      requires Usable()
      modifies this, iter
      ensures Valid() && IsFirstKey(Entries(), sequence, AllKeys, Key())
    {
      forward, savedValue := true, [];
      iter.SeekToFirst();
      if iter.Cur().Some? {
        FindNextUserEntry(None, AllKeys);
      } else {
        ScanEnds(Entries(), sequence, None, AllKeys);
        ShowNothing();
      }
    }

    method SeekToLast()
      requires Usable()
      modifies this, iter
      ensures Valid() && IsLastKey(Entries(), sequence, AllKeys, Key())
    {
      forward, savedValue := false, [];
      iter.SeekToLast();
      FindPrevUserEntry(AllKeys);
    }

    method Next()
      requires Valid() && valid
      modifies this, iter
      ensures Valid() && IsFirstKey(Entries(), sequence, MoreThan(old(Key().value)), Key())
    {
      ghost var u := Key().value;
      if !forward {
        StepIntoKey(u);
        if iter.Cur() == None {
          ScanEnds(Entries(), sequence, Some(u), MoreThan(u));
          ShowNothing();
          return;
        }
      } else {
        savedKey := Some(iter.Cur().value.key.user);
        GoOn(Entries(), sequence, iter.Cur().value);
      }
      FindNextUserEntry(savedKey, MoreThan(u));
    }

    /** Turning forward: from just before the entries of `u`, step into them. */
    method StepIntoKey(ghost u: UserKey)
      requires Usable() && JustBefore(Entries(), sequence, iter.Cur(), u)
      modifies this`forward, iter
      ensures Usable() && forward && Scanning(Entries(), sequence, iter.Cur(), Some(u), MoreThan(u))
    {
      forward := true;
      ghost var before := iter.Cur();
      if iter.Cur() == None {
        iter.SeekToFirst();
      } else {
        iter.Next();
      }
      TurnForward(Entries(), sequence, before, iter.Cur(), u);
    }

    /** Turning backward: step back until the user key changes. */
    method StepBeforeKey(u: UserKey)
      requires Usable() && PassedFrom(Entries(), iter.Cur(), u)
      modifies iter
      ensures Usable() && ScanningBack(Entries(), sequence, iter.Cur(), None, LessThan(u))
    {
      while iter.Cur().Some? && u <= iter.Cur().value.key.user
        invariant Usable() && PassedFrom(Entries(), iter.Cur(), u)
        decreases Behind(Entries(), iter.Cur())
      {
        ghost var e := iter.Cur().value;
        iter.Prev();
        PassedFromMoves(Entries(), e, iter.Cur(), u);
      }
      TurnBack(Entries(), sequence, iter.Cur(), u);
    }

    method Prev()
      requires Valid() && valid
      modifies this, iter
      ensures Valid() && IsLastKey(Entries(), sequence, LessThan(old(Key().value)), Key())
    {
      ghost var u := Key().value;
      if forward {
        savedKey := Some(iter.Cur().value.key.user);
        GoOn(Entries(), sequence, iter.Cur().value);
        StepBeforeKey(savedKey.value);
        if iter.Cur() == None {
          BackFindsNothing(Entries(), sequence, None, LessThan(u));
          savedValue := [];
          ShowNothing();
          return;
        }
        forward := false;
      } else {
        GoOnBack(Entries(), sequence, iter.Cur(), u);
      }
      FindPrevUserEntry(LessThan(u));
    }
  }

  lemma SeekStartsScan(h: set<Entry>, s: nat, target: UserKey, n: Option<Entry>)
    requires IsLeast(h, From(LookupKey(target, s)), n)
    ensures Scanning(h, s, n, None, AtLeast(target))
  {
  }

  lemma TurnForward(h: set<Entry>, s: nat, c: Option<Entry>, n: Option<Entry>, u: UserKey)
    requires JustBefore(h, s, c, u) && (c.Some? ==> c.value in h)
    requires if c.None? then IsLeast(h, Everything, n) else IsLeast(h, Beyond(c.value.key), n)
    ensures Scanning(h, s, n, Some(u), MoreThan(u))
  {
  }

  /** Everything the cursor passed going back has a user key of at least `u`. */
  ghost predicate PassedFrom(h: set<Entry>, n: Option<Entry>, u: UserKey) {
    forall y :: y in h && PassedBack(n, y) ==> u <= y.key.user
  }

  lemma PassedFromMoves(h: set<Entry>, e: Entry, n: Option<Entry>, u: UserKey)
    requires KeysDiffer(h) && e in h && IsGreatest(h, Below(e.key), n) && PassedFrom(h, Some(e), u) && u <= e.key.user
    ensures PassedFrom(h, n, u) && Behind(h, n) < Behind(h, Some(e))
  {
    BehindShrinks(h, e, n);
    PassedBackNow(h, e, n);
  }

  lemma TurnBack(h: set<Entry>, s: nat, n: Option<Entry>, u: UserKey)
    requires PassedFrom(h, n, u) && (n.Some? ==> n.value.key.user < u)
    ensures ScanningBack(h, s, n, None, LessThan(u))
  {
  }

  lemma GoOn(h: set<Entry>, s: nat, e: Entry)
    ensures Scanning(h, s, Some(e), Some(e.key.user), MoreThan(e.key.user))
    ensures PassedFrom(h, Some(e), e.key.user)
  {
  }

  lemma GoOnBack(h: set<Entry>, s: nat, n: Option<Entry>, u: UserKey)
    requires JustBefore(h, s, n, u)
    ensures ScanningBack(h, s, n, None, LessThan(u))
  {
  }

  // ---------------------------------------------------------------- any sequence of moves

  datatype Move = ToFirst | ToLast | To(target: UserKey) | Onward | Backward

  /** What a move does to a cursor over the sorted snapshot map. A step from nowhere is not allowed and goes nowhere. */
  ghost predicate Moved(h: set<Entry>, s: nat, move: Move, at: Option<UserKey>, at': Option<UserKey>) {
    match move
    case ToFirst => IsFirstKey(h, s, AllKeys, at')
    case ToLast => IsLastKey(h, s, AllKeys, at')
    case To(u) => IsFirstKey(h, s, AtLeast(u), at')
    case Onward => if at.None? then at' == None else IsFirstKey(h, s, MoreThan(at.value), at')
    case Backward => if at.None? then at' == None else IsLastKey(h, s, LessThan(at.value), at')
  }

  /** The map decides where a move ends: there is only one such cursor. */
  lemma MovesAreDetermined(h: set<Entry>, s: nat, move: Move, at: Option<UserKey>, x: Option<UserKey>, y: Option<UserKey>)
    requires Moved(h, s, move, at, x) && Moved(h, s, move, at, y)
    ensures x == y
  {
  }

  method MakeMove(it: DBIter, move: Move) returns (key: Option<UserKey>, value: Bytes)
    requires it.Valid()
    modifies it, it.iter
    ensures it.Valid() && key == it.Key() && Moved(it.Entries(), it.sequence, move, old(it.Key()), key)
    ensures key.Some? ==> ReadAt(it.Entries(), key.value, it.sequence) == Found(value)
  {
    key, value := None, [];
    match move {
      case ToFirst => it.SeekToFirst();
      case ToLast => it.SeekToLast();
      case To(u) => it.Seek(u);
      case Onward => if it.valid { it.Next(); }
      case Backward => if it.valid { it.Prev(); }
    }
    if it.valid {
      it.ShowsTheMap();
      key, value := it.Key(), it.Value();
    }
  }

  /** Any sequence of seeks and steps, with any turns, over any runs of entries: the iterator goes where a cursor over the
      snapshot map goes, and shows the map's values. */
  method Walk(runs: seq<seq<Entry>>, sequence: nat, moves: seq<Move>) returns (keys: seq<Option<UserKey>>, values: seq<Bytes>)
    requires RunsOk(runs) && Distinct(Union(runs)) && KeysDiffer(Union(runs))
    ensures |keys| == |values| == |moves| + 1 && keys[0] == None
    ensures forall i :: 0 <= i < |moves| ==> Moved(Union(runs), sequence, moves[i], keys[i], keys[i + 1])
    ensures forall i :: 0 <= i < |keys| && keys[i].Some? ==> ReadAt(Union(runs), keys[i].value, sequence) == Found(values[i])
  {
    var merged := new MergingIterator(runs);
    var it := new DBIter(merged, sequence);
    keys, values := [None], [[]];
    for n := 0 to |moves|
      invariant it.Valid() && it.Entries() == Union(runs) && it.sequence == sequence && fresh(it) && fresh(it.iter)
      invariant |keys| == |values| == n + 1 && keys[0] == None && keys[n] == it.Key()
      invariant forall i :: 0 <= i < n ==> Moved(Union(runs), sequence, moves[i], keys[i], keys[i + 1])
      invariant forall i :: 0 <= i <= n && keys[i].Some? ==> ReadAt(Union(runs), keys[i].value, sequence) == Found(values[i])
    {
      var key, value := MakeMove(it, moves[n]);
      keys, values := keys + [key], values + [value];
    }
  }
}
