/** The manifest of the store as the bytes of a log file: what recovery makes of a manifest whose end is lost (db/version_set.cc: Recover). */
module ManifestBytes {
  import opened InternalKeys
  import opened Bytewise
  import opened Separators
  import opened Framing
  import opened LogFormat
  import opened Versions
  import opened VersionEdits
  import opened EditFormat

  // ---------------------------------------------------------------- internal keys

  const TWO56: nat := 0x100_0000_0000_0000

  /** The user key, then sequence and type in eight bytes (AppendInternalKey). */
  function EncodeKey(k: ByteKey): Bytes { k.user + EncodeFixed(KeyOf(k).Tag(), 8) }

  function DecodeKey(b: Bytes): InternalKey {
    var n := if |b| < 8 then 0 else |b| - 8;
    var tag := DecodeFixed(b[n..]);
    InternalKey(Rank(b[..n]), tag / 256, if tag % 256 == 1 then Value else Deletion)
  }

  lemma KeyReads(k: ByteKey)
    requires k.sequence < TWO56
    ensures DecodeKey(EncodeKey(k)) == KeyOf(k)
  {
    var tag := KeyOf(k).Tag();
    WidePower();
    DecodeEncodeFixed(tag, 8);
    var b := EncodeKey(k);
    assert b[..|k.user|] == k.user && b[|k.user|..] == EncodeFixed(tag, 8);
  }

  lemma WidePower()
    ensures Pow256(8) == 256 * TWO56
  {
    assert Pow256(2) == 0x1_0000 by { FixedRanges(); }
    assert Pow256(4) == 0x1_0000_0000 by { FixedRanges(); }
    assert Pow256(5) == 256 * Pow256(4) && Pow256(6) == 256 * Pow256(5) && Pow256(7) == 256 * Pow256(6) && Pow256(8) == 256 * Pow256(7);
  }

  // ---------------------------------------------------------------- edits of the store

  /** What each file number stands for on disk. */
  type TableOf = nat -> seq<Entry>

  function AsFile(tables: TableOf, f: ByteFile): FileMeta {
    FileMeta(f.number, f.size, DecodeKey(f.smallest), DecodeKey(f.largest), tables(f.number))
  }

  function AsAdded(tables: TableOf, xs: seq<(nat, ByteFile)>): (r: seq<(nat, FileMeta)>)
    ensures |r| == |xs| && forall i :: 0 <= i < |r| ==> r[i] == (xs[i].0, AsFile(tables, xs[i].1))
  {
    seq(|xs|, i requires 0 <= i < |xs| => (xs[i].0, AsFile(tables, xs[i].1)))
  }

  function AsStored(tables: TableOf, e: ByteEdit): VersionEdit {
    VersionEdit(e.logNumber, e.nextFile, e.lastSequence, e.deleted, AsAdded(tables, e.added))
  }

  function Manifest(tables: TableOf, es: seq<ByteEdit>): (m: seq<VersionEdit>)
    ensures |m| == |es| && forall i :: 0 <= i < |m| ==> m[i] == AsStored(tables, es[i])
  {
    seq(|es|, i requires 0 <= i < |es| => AsStored(tables, es[i]))
  }

  function EditsOf(xs: seq<Listed>): (es: seq<ByteEdit>)
    ensures |es| == |xs| && forall i :: 0 <= i < |es| ==> es[i] == xs[i].edit
  {
    seq(|xs|, i requires 0 <= i < |xs| => xs[i].edit)
  }

  lemma StoredInRange(tables: TableOf, e: ByteEdit)
    requires EditFits(e)
    ensures LevelsInRange(AsStored(tables, e))
  {
    forall a | a in AsAdded(tables, e.added) ensures a.0 < NUM_LEVELS {
      var i :| 0 <= i < |e.added| && AsAdded(tables, e.added)[i] == a;
      assert e.added[i] in e.added && FileFits(e.added[i]);
    }
  }

  lemma ManifestInRange(tables: TableOf, xs: seq<Listed>)
    requires forall x :: x in xs ==> ListedOk(x)
    ensures EditsInRange(Manifest(tables, EditsOf(xs)))
  {
    var m := Manifest(tables, EditsOf(xs));
    forall e | e in m ensures LevelsInRange(e) {
      var i :| 0 <= i < |m| && m[i] == e;
      assert xs[i] in xs;
      StoredInRange(tables, xs[i].edit);
    }
  }

  lemma ManifestPrefix(tables: TableOf, xs: seq<Listed>, edits: seq<ByteEdit>)
    requires |edits| <= |xs| && forall i :: 0 <= i < |edits| ==> edits[i] == xs[i].edit
    ensures Manifest(tables, edits) == Manifest(tables, EditsOf(xs))[..|edits|]
  {
  }

  /** Write a manifest, lose its end at any byte, recover: the version is the one that the edits before the cut made, as if the later ones
      had never been logged. */
  method WriteTearRecover(crc: Crc, xs: seq<Listed>, cut: nat, tables: TableOf) returns (v: Version)
    requires (forall x :: x in xs ==> ListedOk(x)) && cut <= |Laid(Framer(crc), EditRecords(xs), 0)|
    requires AddedOnce(Manifest(tables, EditsOf(xs)))
    ensures var k := WholeRecords(Framer(crc), EditRecords(xs), 0, cut);
            k <= |xs| && SetsOf(v) == Replay(SetsOf(NO_FILES), Manifest(tables, EditsOf(xs))[..k])
    ensures forall l :: 0 <= l < NUM_LEVELS ==> SortedBySmallest(v[l])
  {
    var edits := WriteTearManifest(crc, xs, cut);
    ManifestPrefix(tables, xs, edits);
    ManifestInRange(tables, xs);
    PrefixAddedOnce(Manifest(tables, EditsOf(xs)), |edits|);
    v := RecoverVersion(Manifest(tables, edits));
  }
}
