/** The flat multi-version history and what it means to read it at a snapshot. */
module History {
  import opened InternalKeys

  datatype Answer = NotFound | Found(value: Bytes)

  function AnswerOf(r: Option<Entry>): Answer {
    match r
    case None => NotFound
    case Some(e) => if e.key.kind.Value? then Found(e.value) else NotFound
  }

  function Elements(es: seq<Entry>): set<Entry> {
    set e | e in es
  }

  /** No two entries of a user key share a sequence number. */
  ghost predicate Distinct(h: set<Entry>) {
    forall a, b :: a in h && b in h && a.key.user == b.key.user && a.key.sequence == b.key.sequence ==> a == b
  }

  ghost predicate IsNewest(h: set<Entry>, u: UserKey, s: nat, e: Entry) {
    e in h && Visible(e, u, s) && forall x :: x in h && Visible(x, u, s) ==> x.key.sequence <= e.key.sequence
  }

  /** `r` is a correct result of searching `h` for the newest entry of `u` at snapshot `s`. */
  ghost predicate Reads(h: set<Entry>, u: UserKey, s: nat, r: Option<Entry>) {
    match r
    case None => forall x :: x in h ==> !Visible(x, u, s)
    case Some(e) => IsNewest(h, u, s, e)
  }

  ghost function Newest(h: set<Entry>, u: UserKey, s: nat): (r: Option<Entry>)
    ensures Reads(h, u, s, r)
  {
    NewestExists(h, u, s);
    if exists e :: IsNewest(h, u, s, e) then
      var e :| IsNewest(h, u, s, e);
      Some(e)
    else
      None
  }

  /** The value of `u` at snapshot `s`: the specification every read path and every background step must keep. */
  ghost function ReadAt(h: set<Entry>, u: UserKey, s: nat): Answer {
    AnswerOf(Newest(h, u, s))
  }

  lemma {:induction false} NewestExists(h: set<Entry>, u: UserKey, s: nat)
    ensures (exists e :: IsNewest(h, u, s, e)) || forall x :: x in h ==> !Visible(x, u, s)
    decreases |h|
  {
    if x :| x in h {
      var rest := h - {x};
      NewestExists(rest, u, s);
      if Visible(x, u, s) {
        if e :| IsNewest(rest, u, s, e) {
          assert IsNewest(h, u, s, if e.key.sequence >= x.key.sequence then e else x);
        } else {
          assert IsNewest(h, u, s, x);
        }
      } else if e :| IsNewest(rest, u, s, e) {
        assert IsNewest(h, u, s, e);
      }
    }
  }

  /** In a history with distinct sequence numbers every correct search gives the same answer. */
  lemma ReadsDetermine(h: set<Entry>, u: UserKey, s: nat, r: Option<Entry>)
    requires Distinct(h) && Reads(h, u, s, r)
    ensures Newest(h, u, s) == r
    ensures ReadAt(h, u, s) == AnswerOf(r)
  {
  }

  /** A seek in a sorted run finds exactly the newest visible entry of that run. */
  lemma SeekReads(es: seq<Entry>, u: UserKey, s: nat)
    requires Sorted(es)
    ensures Reads(Elements(es), u, s, Seek(es, u, s))
  {
    var k := LookupKey(u, s);
    var i := SeekIndex(es, k);
    forall x | x in Elements(es) && Visible(x, u, s)
      ensures i < |es| && es[i].key.user == u && x.key.sequence <= es[i].key.sequence
    {
      var j :| 0 <= j < |es| && es[j] == x;
      assert AtMost(k, es[j].key);
      assert i <= j;
      if i < j { assert Before(es[i].key, es[j].key); }
    }
  }
}
