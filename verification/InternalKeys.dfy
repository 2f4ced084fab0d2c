/** Internal keys, entries and their order (db/dbformat.h, db/dbformat.cc).

    A user key is a point of the user comparator's total order. The store never looks inside a
    user key except through that comparator, so any order that embeds in the reals is covered;
    module `Bytewise` proves that the default byte-string comparator does embed.
 */
module InternalKeys {

  newtype byte = x: int | 0 <= x < 256
  type Bytes = seq<byte>

  type UserKey = real

  /** Eight bits of the packed 64-bit tag are taken by the value type. */
  const MAX_SEQUENCE: nat := 0xFF_FFFF_FFFF_FFFF

  datatype Option<+T> = None | Some(value: T)

  datatype ValueType = Deletion | Value

  datatype InternalKey = InternalKey(user: UserKey, sequence: nat, kind: ValueType) {
    /** The sequence and type packed into one number: sequence * 256 + type. */
    function Tag(): nat {
      sequence * 256 + if kind.Value? then 1 else 0
    }
  }

  /** Increasing user key, then decreasing tag. */
  predicate Before(a: InternalKey, b: InternalKey) {
    a.user < b.user || (a.user == b.user && a.Tag() > b.Tag())
  }

  predicate AtMost(a: InternalKey, b: InternalKey) {
    !Before(b, a)
  }

  /** The key that sorts at or before every entry of `u` with sequence at most `s`, and after every newer one. */
  function LookupKey(u: UserKey, s: nat): InternalKey {
    InternalKey(u, s, Value)
  }

  datatype Entry = Entry(key: InternalKey, value: Bytes)

  predicate Sorted(es: seq<Entry>) {
    forall i, j :: 0 <= i < j < |es| ==> Before(es[i].key, es[j].key)
  }

  predicate Visible(e: Entry, u: UserKey, s: nat) {
    e.key.user == u && e.key.sequence <= s
  }

  /** Position of the first entry at or after `k`: what seeking a sorted table or memtable must return. */
  function SeekIndex(es: seq<Entry>, k: InternalKey): (i: nat)
    ensures i <= |es|
    ensures forall j :: 0 <= j < i ==> Before(es[j].key, k)
    ensures i < |es| ==> AtMost(k, es[i].key)
  {
    if es == [] || AtMost(k, es[0].key) then 0 else 1 + SeekIndex(es[1..], k)
  }

  /** What a seek followed by a user-key check returns: the entry of `u` under the cursor, if any. */
  function Seek(es: seq<Entry>, u: UserKey, s: nat): (r: Option<Entry>) {
    var i := SeekIndex(es, LookupKey(u, s));
    if i < |es| && es[i].key.user == u then Some(es[i]) else None
  }
}
