/** A deleted key that comes back: the compaction property is false of the code as it stands.

    Level 2 holds a tombstone of key 2 at the end of one file and an older value of key 2 at the start of the next.
    Compacting the level-1 file of key 1 selects only the first of them, drops the tombstone (no deeper level has
    key 2) and leaves the old value visible.
 */
module Resurrection {
  import opened InternalKeys
  import opened Bytewise
  import opened History
  import opened Versions
  import opened Selection
  import opened Compaction
  import opened Installs
  import opened CompactionReads

  /** A key as large as a table may get: adding an entry for it fills the output, which is then cut. */
  const MAX_FILE_SIZE: nat := 0x20_0000
  const LONG: Bytes := seq(MAX_FILE_SIZE, _ => 2)

  /** The ranks of a one-byte key and of the long one. */
  const ONE: real := Rank([1])
  const TWO: real := Rank(LONG)

  /** The sizes of tables without and with the long key. */
  const SMALL: nat := 100
  const LARGE: nat := MAX_FILE_SIZE + 100

  const NewOne := Entry(InternalKey(ONE, 4, Value), [1])
  const OldOne := Entry(InternalKey(ONE, 2, Value), [0])
  const Tombstone := Entry(InternalKey(TWO, 3, Deletion), [])
  const Deleted := Entry(InternalKey(TWO, 1, Value), [7])

  const Upper := FileMeta(11, SMALL, NewOne.key, NewOne.key, [NewOne])
  const Chosen := FileMeta(8, LARGE, OldOne.key, Tombstone.key, [OldOne, Tombstone])
  const LeftBehind := FileMeta(9, LARGE, Deleted.key, Deleted.key, [Deleted])
  const Output := FileMeta(12, SMALL, NewOne.key, NewOne.key, [NewOne])

  const Start: Version := [[], [Upper], [Chosen, LeftBehind], [], [], [], []]
  const End: Version := [[], [], [Output, LeftBehind], [], [], [], []]

  lemma KeysInOrder()
    ensures ONE < TWO
  {
    assert LONG[0] == 2 && [1 as byte][1..] == [];
  }

  lemma StartContents()
    ensures FilesContents(Start[0]) == FilesContents(Start[3]) == FilesContents(Start[4]) == {}
    ensures FilesContents(Start[5]) == FilesContents(Start[6]) == {}
    ensures FilesContents(Start[1]) == {NewOne}
    ensures FilesContents(Start[2]) == {OldOne, Tombstone, Deleted}
    ensures Contents(Start) == {NewOne, OldOne, Tombstone, Deleted}
  {
    assert Upper in Start[1] && NewOne in Upper.entries;
    assert Chosen in Start[2] && LeftBehind in Start[2];
    assert OldOne in Chosen.entries && Tombstone in Chosen.entries && Deleted in LeftBehind.entries;
    assert FilesContents(Start[1]) == {NewOne};
    assert FilesContents(Start[2]) == {OldOne, Tombstone, Deleted};
    InContents(Start, 1, NewOne);
    InContents(Start, 2, OldOne);
    InContents(Start, 2, Tombstone);
    InContents(Start, 2, Deleted);
  }

  lemma EndContents()
    ensures Contents(End) == {NewOne, Deleted}
  {
    assert Output in End[2] && LeftBehind in End[2];
    assert NewOne in Output.entries && Deleted in LeftBehind.entries;
    assert FilesContents(End[2]) == {NewOne, Deleted};
    InContents(End, 2, NewOne);
    InContents(End, 2, Deleted);
  }

  lemma FilesAreOk()
    ensures FileOk(Upper) && FileOk(Chosen) && FileOk(LeftBehind)
  {
    KeysInOrder();
  }

  lemma StartShapes()
    ensures forall l :: 0 <= l < NUM_LEVELS ==> ShapeOk(l, Start[l])
  {
    FilesAreOk();
    assert ShapeOk(1, [Upper]) && ShapeOk(2, [Chosen, LeftBehind]);
    forall l | 0 <= l < NUM_LEVELS ensures ShapeOk(l, Start[l]) {
      assert l != 1 && l != 2 ==> Start[l] == [];
    }
  }

  lemma UpperIsNewer()
    ensures NewerThan({NewOne}, {OldOne, Tombstone, Deleted})
    ensures Distinct({NewOne, OldOne, Tombstone, Deleted})
  {
    KeysInOrder();
  }

  lemma StartByAge()
    ensures LevelsByAge(Start) && Distinct(Contents(Start))
  {
    StartContents();
    UpperIsNewer();
    forall i, j | 0 <= i < j < NUM_LEVELS ensures NewerThan(FilesContents(Start[i]), FilesContents(Start[j])) {
      if i == 1 && j == 2 {
        assert FilesContents(Start[i]) == {NewOne} && FilesContents(Start[j]) == {OldOne, Tombstone, Deleted};
      } else {
        assert FilesContents(Start[i]) == {} || FilesContents(Start[j]) == {};
      }
    }
  }

  lemma StartIsOk()
    ensures VersionOk(Start)
  {
    StartShapes();
    StartByAge();
  }

  lemma SelectionIsClosed()
    ensures SelectionClosed(1, Start[1], Start[2], [Upper], [Chosen])
  {
    KeysInOrder();
    assert SliceAt(Start[1], [Upper], 0, 1) && CleanCut(Start[1], 1);
    assert Unchosen(Start[1], [Upper]) == {};
    var range := Range(Some(ONE), Some(ONE));
    assert Spans([Upper], ONE, ONE) by {
      assert Upper in [Upper];
    }
    assert Start[2][..1] == [Chosen] && [Chosen][..0] == [];
    assert Overlapping([Chosen], range) == [Chosen];
    assert Overlapping(Start[2], range) == [Chosen];
  }

  lemma KeptIsOutput()
    ensures Kept(Inputs([Upper], [Chosen]), BaseOf(Start, 1), 4) == {NewOne} == FilesContents([Output])
  {
    KeysInOrder();
    assert FilesContents([Upper]) == {NewOne} by {
      assert Upper in [Upper] && NewOne in Upper.entries;
    }
    assert FilesContents([Chosen]) == {OldOne, Tombstone} by {
      assert Chosen in [Chosen] && OldOne in Chosen.entries && Tombstone in Chosen.entries;
    }
    assert FilesContents([Output]) == {NewOne} by {
      assert Output in [Output] && NewOne in Output.entries;
    }
    var inputs := Inputs([Upper], [Chosen]);
    assert inputs == {NewOne, OldOne, Tombstone};
    assert Hidden(inputs, 4, OldOne) by {
      assert NewOne in inputs;
    }
    assert BaseLevel(Start, 1, TWO);
  }

  lemma InstallIsEnd()
    ensures CompactionInstalled(Start, End, 1, [Upper], [Chosen], [Output])
  {
    assert Replaced([Upper], [Upper], [], []);
    assert Replaced([Chosen, LeftBehind], [Chosen], [Output], [Output, LeftBehind]);
  }

  lemma ReadsDiffer()
    ensures ReadAt(Contents(Start), TWO, 4) == NotFound
    ensures ReadAt(Contents(End), TWO, 4) == Found([7])
  {
    KeysInOrder();
    StartContents();
    EndContents();
    UpperIsNewer();
    assert IsNewest(Contents(Start), TWO, 4, Tombstone);
    ReadsDetermine(Contents(Start), TWO, 4, Some(Tombstone));
    assert IsNewest(Contents(End), TWO, 4, Deleted);
    ReadsDetermine(Contents(End), TWO, 4, Some(Deleted));
  }

  lemma CutIsSplit()
    ensures !NextLevelCut(Start[2], [Chosen])
  {
    assert AcrossTheCut(Start[2], [Chosen], Chosen, LeftBehind, TWO);
    assert SplitBehind(Start[2], [Chosen], TWO);
  }

  /** A well-formed version, a selection closed by the source's rules, and a compaction after which the deleted key reads as present. */
  lemma DeletedKeyReturns()
    ensures VersionOk(Start) && |LONG| == MAX_FILE_SIZE
    ensures Compacted(Start, End, 1, [Upper], [Chosen], [Output], 4)
    ensures ReadAt(Contents(Start), TWO, 4) == NotFound
    ensures ReadAt(Contents(End), TWO, 4) == Found([7])
    ensures !NextLevelCut(Start[2], [Chosen])
  {
    KeysInOrder();
    StartIsOk();
    SelectionIsClosed();
    KeptIsOutput();
    InstallIsEnd();
    ReadsDiffer();
    CutIsSplit();
  }
}
