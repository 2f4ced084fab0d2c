/** Short keys for index blocks (util/comparator.cc: FindShortestSeparator, FindShortSuccessor; db/dbformat.cc: the same on
    internal keys). */
module Separators {
  import opened InternalKeys
  import opened Bytewise

  // ---------------------------------------------------------------- byte strings

  /** The strings differ at `i` for the first time. */
  predicate DiffersFirst(a: Bytes, b: Bytes, i: nat) {
    i < |a| && i < |b| && a[..i] == b[..i] && a[i] != b[i]
  }

  /** There is a byte to spare at the first difference. */
  predicate HasRoom(start: Bytes, limit: Bytes, i: nat) {
    DiffersFirst(start, limit, i) && start[i] as int + 1 < limit[i] as int
  }

  /** Shorten `start` to a string that still separates it from `limit`: cut after the first difference and count that byte up,
      if that stays below `limit`. No string between the two is shorter than the one found. */
  method FindShortestSeparator(start: Bytes, limit: Bytes) returns (sep: Bytes)
    ensures |sep| <= |start|
    ensures sep == start || (Rank(start) < Rank(sep) && Rank(sep) < Rank(limit))
    ensures forall i: nat :: HasRoom(start, limit, i) ==> sep == start[..i] + [start[i] + 1]
    ensures sep != start ==> exists i: nat :: HasRoom(start, limit, i)
    ensures sep != start ==> forall t :: Rank(start) < Rank(t) < Rank(limit) ==> |sep| <= |t|
  {
    var n := if |start| < |limit| then |start| else |limit|;
    var i := 0;
    while i < n && start[i] == limit[i]
      invariant 0 <= i <= n && start[..i] == limit[..i]
    {
      i := i + 1;
    }
    sep := start;
    OneDifference(start, limit, i);
    if i < n && start[i] < 255 && start[i] + 1 < limit[i] {
      sep := start[..i] + [start[i] + 1];
      assert HasRoom(start, limit, i);
      Shortened(start, limit, i, sep);
    }
  }

  lemma {:induction false} Shortened(start: Bytes, limit: Bytes, i: nat, sep: Bytes)
    requires HasRoom(start, limit, i) && sep == start[..i] + [start[i] + 1]
    ensures Rank(start) < Rank(sep) < Rank(limit) && forall t :: Rank(start) < Rank(t) < Rank(limit) ==> |sep| <= |t|
  {
    CountedUp(start, i);
    assert sep[..i] == limit[..i];
    FromFirstDifference(sep, limit, i);
    RankOrders(sep, limit);
    forall t | Rank(start) < Rank(t) < Rank(limit) ensures |sep| <= |t| {
      RankOrders(start, t);
      RankOrders(t, limit);
      NoneShorter(start, limit, i, t);
    }
  }

  lemma {:induction false} SamePrefix(a: Bytes, b: Bytes, n: nat)
    requires n <= |a| && n <= |b| && a[..n] == b[..n]
    ensures forall m :: 0 <= m < n ==> a[m] == b[m]
  {
    forall m | 0 <= m < n ensures a[m] == b[m] { assert a[..n][m] == a[m] && b[..n][m] == b[m]; }
  }

  /** There is only one first difference, behind all that is equal. */
  lemma {:induction false} OneDifference(a: Bytes, b: Bytes, i: nat)
    requires i <= |a| && i <= |b| && a[..i] == b[..i] && (i < |a| && i < |b| ==> a[i] != b[i])
    ensures forall j: nat :: DiffersFirst(a, b, j) ==> j == i
  {
    SamePrefix(a, b, i);
    forall j: nat | DiffersFirst(a, b, j) ensures j == i { SamePrefix(a, b, j); }
  }

  /** Strings between the two are longer than what they have in common. */
  lemma {:induction false} NoneShorter(start: Bytes, limit: Bytes, i: nat, t: Bytes)
    requires i <= |start| && i <= |limit| && start[..i] == limit[..i] && Less(start, t) && Less(t, limit)
    ensures i < |t|
  {
    if i > 0 {
      assert start[0] == start[..i][0] && limit[0] == limit[..i][0];
      assert start[1..][..i - 1] == start[..i][1..] && limit[1..][..i - 1] == limit[..i][1..];
      NoneShorter(start[1..], limit[1..], i - 1, t[1..]);
    }
  }

  /** Cutting after a byte and counting it up gives a larger string. */
  lemma CountedUp(key: Bytes, i: nat)
    requires i < |key| && key[i] < 255
    ensures Rank(key) < Rank(key[..i] + [key[i] + 1])
  {
    var up := key[..i] + [key[i] + 1];
    assert up[..i] == key[..i];
    FromFirstDifference(key, up, i);
    RankOrders(key, up);
  }

  /** Shorten a key to a string at or after it: count up the first byte that can be. */
  method FindShortSuccessor(key: Bytes) returns (succ: Bytes)
    ensures |succ| <= |key| && Rank(key) <= Rank(succ)
    ensures forall i :: 0 <= i < |key| && key[i] != 255 && (forall j :: 0 <= j < i ==> key[j] == 255) ==> succ == key[..i] + [key[i] + 1]
    ensures (forall i :: 0 <= i < |key| ==> key[i] == 255) ==> succ == key
  {
    for i := 0 to |key|
      invariant forall j :: 0 <= j < i ==> key[j] == 255
    {
      if key[i] != 255 {
        CountedUp(key, i);
        return key[..i] + [key[i] + 1];
      }
    }
    return key;
  }

  // ---------------------------------------------------------------- internal keys

  /** An internal key whose user key is a byte string. */
  datatype ByteKey = ByteKey(user: Bytes, sequence: nat, kind: ValueType)

  function KeyOf(k: ByteKey): InternalKey {
    InternalKey(Rank(k.user), k.sequence, k.kind)
  }

  /** A key that may stand in an index between two blocks: the last key of the one, or a key whose user key lies strictly
      between theirs. */
  ghost predicate Separates(last: ByteKey, sep: ByteKey, first: ByteKey) {
    sep == last || (Rank(last.user) < Rank(sep.user) < Rank(first.user))
  }

  method InternalSeparator(start: ByteKey, limit: ByteKey) returns (sep: ByteKey)
    ensures Separates(start, sep, limit)
  {
    var tmp := FindShortestSeparator(start.user, limit.user);
    var c := Compare(start.user, tmp);
    if |tmp| < |start.user| && c < 0 {
      return ByteKey(tmp, MAX_SEQUENCE, Value);
    }
    return start;
  }

  method InternalSuccessor(key: ByteKey) returns (succ: ByteKey)
    ensures succ == key || Rank(key.user) < Rank(succ.user)
  {
    var tmp := FindShortSuccessor(key.user);
    var c := Compare(key.user, tmp);
    if |tmp| < |key.user| && c < 0 {
      return ByteKey(tmp, MAX_SEQUENCE, Value);
    }
    return key;
  }

  /** An index key is at or after everything before it and before everything after it. */
  lemma SeparatorsSplit(last: ByteKey, sep: ByteKey, first: ByteKey)
    requires Separates(last, sep, first) && Before(KeyOf(last), KeyOf(first))
    ensures AtMost(KeyOf(last), KeyOf(sep)) && Before(KeyOf(sep), KeyOf(first))
  {
  }
}
