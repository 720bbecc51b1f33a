/** Stopping `RocksState::rollback_to` between any two of its durable writes and running it again. */
module CrashRollback {
  import opened ByteStrings
  import opened Heights
  import opened World
  import opened KeyValue
  import opened RocksRollback
  import L = RocksLayout

  /** The key space after each turn of the rollback loop, starting with the untouched one. */
  function LoopStates(db: Db, hs: seq<BlockHeight>): seq<Db>
    decreases |hs|
  {
    [db] + (if hs == [] then [] else LoopStates(RollbackHeight(db, hs[0]), hs[1..]))
  }

  /** The key space after each of a list of single writes, starting with the untouched one. */
  function WriteStates(db: Db, ws: seq<Write>): seq<Db> {
    seq(|ws| + 1, i requires 0 <= i <= |ws| => WriteBatch(db, ws[..i]))
  }

  /** Every state a crash during `rollback_to(target)` can leave on disk. */
  ghost function DurableStates(db: Db, target: BlockHeight): seq<Db> {
    var db' := RolledBack(db, target);
    LoopStates(db, Descending(HeightsAbove(db, target))) + WriteStates(db', RestoreMeta(HistoryOf(db')))
  }

  /** The heights of a list that still have a journal: the only ones rollback acts on. */
  function Live(db: Db, hs: seq<BlockHeight>): seq<BlockHeight> {
    if hs == [] then [] else (if HasJournal(db, hs[0]) then [hs[0]] else []) + Live(db, hs[1..])
  }

  lemma RollbackHeightKeeps(db: Db, h: BlockHeight)
    ensures forall k :: k != h ==> (HasJournal(RollbackHeight(db, h), k) <==> HasJournal(db, k))
    ensures !HasJournal(RollbackHeight(db, h), h)
    ensures L.Read(RollbackHeight(db, h)).records ==
      if HasJournal(db, h) then L.Read(db).records - {h} else L.Read(db).records
  {
    var db' := RollbackHeight(db, h);
    if HasJournal(db, h) {
      RollbackHeightViews(db, h);
      forall k ensures HasJournal(db', k) <==> k != h && HasJournal(db, k) {
        JournalView(db, k);
        JournalView(db', k);
      }
    }
  }

  lemma {:induction false} LiveMembers(db: Db, hs: seq<BlockHeight>)
    requires Decreasing(hs)
    ensures Decreasing(Live(db, hs))
    ensures forall h :: h in Live(db, hs) <==> h in hs && HasJournal(db, h)
  {
    if hs != [] {
      LiveMembers(db, hs[1..]);
      var rest := Live(db, hs[1..]);
      assert hs == [hs[0]] + hs[1..];
      forall i | 0 <= i < |rest| ensures hs[0] > rest[i] {
        assert rest[i] in hs[1..];
      }
    }
  }

  lemma {:induction false} LiveSame(a: Db, b: Db, hs: seq<BlockHeight>)
    requires forall h :: h in hs ==> (HasJournal(a, h) <==> HasJournal(b, h))
    ensures Live(a, hs) == Live(b, hs)
  {
    if hs != [] {
      LiveSame(a, b, hs[1..]);
    }
  }

  lemma {:induction false} RollbackActsOnLive(db: Db, hs: seq<BlockHeight>)
    requires Decreasing(hs)
    ensures RollbackHeights(db, hs) == RollbackHeights(db, Live(db, hs))
    decreases |hs|
  {
    if hs != [] {
      var h, rest := hs[0], hs[1..];
      if HasJournal(db, h) {
        var db' := RollbackHeight(db, h);
        RollbackHeightKeeps(db, h);
        RollbackActsOnLive(db', rest);
        LiveSame(db, db', rest);
      } else {
        RollbackActsOnLive(db, rest);
        assert Live(db, hs) == Live(db, rest);
      }
    }
  }

  /** Rolling back from a state with the same live heights above the target gives the same loop result. */
  lemma SameLiveSameResult(s: Db, hs: seq<BlockHeight>, target: BlockHeight)
    requires Decreasing(hs)
    requires forall h :: HasJournal(s, h) ==> (h in hs <==> h in HeightsAbove(s, target))
    ensures RollbackHeights(s, hs) == RolledBack(s, target)
  {
    var all := Descending(HeightsAbove(s, target));
    DescendingLists(HeightsAbove(s, target));
    hide HeightsAbove, HasJournal, Live, RollbackHeights, Descending;
    RollbackActsOnLive(s, hs);
    RollbackActsOnLive(s, all);
    LiveMembers(s, hs);
    LiveMembers(s, all);
    assert forall h :: h in all <==> h in ToSet(all);
    assert ToSet(Live(s, hs)) == ToSet(Live(s, all));
    DecreasingUnique(Live(s, hs));
    DecreasingUnique(Live(s, all));
  }

  /** One turn leaves the rest of the list to do. */
  lemma StillAbove(s: Db, hs: seq<BlockHeight>, target: BlockHeight)
    requires Decreasing(hs) && hs != []
    requires forall h :: HasJournal(s, h) ==> (h in hs <==> h in HeightsAbove(s, target))
    ensures Decreasing(hs[1..])
    ensures var s' := RollbackHeight(s, hs[0]);
      forall k :: HasJournal(s', k) ==> (k in hs[1..] <==> k in HeightsAbove(s', target))
  {
    RollbackHeightKeeps(s, hs[0]);
    hide RollbackHeight, HasJournal;
    assert hs == [hs[0]] + hs[1..];
  }

  lemma LoopUnfolds(s: Db, hs: seq<BlockHeight>, i: nat)
    requires hs != [] && 0 < i < |LoopStates(s, hs)|
    ensures var s', rest := RollbackHeight(s, hs[0]), hs[1..];
      && RollbackHeights(s, hs) == RollbackHeights(s', rest)
      && i - 1 < |LoopStates(s', rest)| && LoopStates(s, hs)[i] == LoopStates(s', rest)[i - 1]
  {
    hide RollbackHeight;
  }

  /** Every intermediate state of the loop leads a fresh rollback to the same result. */
  lemma {:induction false} LoopStatesResume(s: Db, hs: seq<BlockHeight>, target: BlockHeight, i: nat)
    requires Decreasing(hs) && i < |LoopStates(s, hs)|
    requires forall h :: HasJournal(s, h) ==> (h in hs <==> h in HeightsAbove(s, target))
    ensures RolledBack(LoopStates(s, hs)[i], target) == RollbackHeights(s, hs)
    decreases |hs|
  {
    if i == 0 {
      SameLiveSameResult(s, hs, target);
    } else {
      StillAbove(s, hs, target);
      LoopUnfolds(s, hs, i);
      hide RollbackHeight, RollbackHeights, LoopStates, HasJournal, HeightsAbove, RolledBack, Decreasing;
      LoopStatesResume(RollbackHeight(s, hs[0]), hs[1..], target, i - 1);
    }
  }

  lemma {:induction false} NoneLiveAfter(db: Db, hs: seq<BlockHeight>)
    ensures forall h :: HasJournal(RollbackHeights(db, hs), h) ==> HasJournal(db, h) && h !in hs
    ensures L.Read(RollbackHeights(db, hs)).records.Keys <= L.Read(db).records.Keys
    decreases |hs|
  {
    if hs != [] {
      RollbackHeightKeeps(db, hs[0]);
      NoneLiveAfter(RollbackHeight(db, hs[0]), hs[1..]);
      assert hs == [hs[0]] + hs[1..];
    }
  }

  lemma NothingLeft(db: Db, target: BlockHeight)
    ensures forall h :: h in HeightsAbove(RolledBack(db, target), target) ==> !HasJournal(RolledBack(db, target), h)
  {
    var hs := Descending(HeightsAbove(db, target));
    DescendingLists(HeightsAbove(db, target));
    assert forall h :: h in hs <==> h in ToSet(hs);
    NoneLiveAfter(db, hs);
  }

  lemma SettledStaysPut(s: Db, target: BlockHeight)
    requires forall h :: h in HeightsAbove(s, target) ==> !HasJournal(s, h)
    ensures RolledBack(s, target) == s
  {
    SameLiveSameResult(s, [], target);
  }

  lemma MetaWritesKeepTables(db: Db, history: seq<HeightRecord>, i: nat)
    requires i <= 3
    ensures var s := WriteBatch(db, RestoreMeta(history)[..i]);
      L.Read(s).records == L.Read(db).records && L.Read(s).journals == L.Read(db).journals
  {
    L.TaggedWrites(db, RestoreMeta(history)[..i], L.M);
  }

  lemma ThreeMetaWrites(history: seq<HeightRecord>)
    ensures |RestoreMeta(history)| == 3
  {
  }

  lemma MetaStatesResume(db: Db, target: BlockHeight, i: nat)
    requires i <= 3
    ensures var d := RolledBack(db, target);
      AfterRollback(WriteBatch(d, RestoreMeta(HistoryOf(d))[..i]), target) == AfterRollback(db, target)
  {
    var d := RolledBack(db, target);
    var history := HistoryOf(d);
    var s := WriteBatch(d, RestoreMeta(history)[..i]);
    MetaWritesKeepTables(d, history, i);
    NothingLeft(db, target);
    forall h | h in HeightsAbove(s, target) ensures !HasJournal(s, h) {
      JournalView(s, h);
      JournalView(d, h);
    }
    SettledStaysPut(s, target);
    RedoPrefix(d, RestoreMeta(history), i);
  }

  /**
    * Whatever the key space holds, a rollback interrupted between any two durable writes and then
    * rerun with the same target ends with the very map an uninterrupted rollback produces.
    */
  lemma RerunAfterCrash(db: Db, target: BlockHeight, i: nat)
    requires i < |DurableStates(db, target)|
    ensures AfterRollback(DurableStates(db, target)[i], target) == AfterRollback(db, target)
  {
    hide HeightsAbove, L.Read, HistoryOf, RestoreMeta, WriteBatch, RollbackHeight;
    var hs := Descending(HeightsAbove(db, target));
    var loop := LoopStates(db, hs);
    DescendingLists(HeightsAbove(db, target));
    assert forall h :: h in hs <==> h in ToSet(hs);
    if i < |loop| {
      LoopStatesResume(db, hs, target, i);
    } else {
      var d := RolledBack(db, target);
      var ws := RestoreMeta(HistoryOf(d));
      ThreeMetaWrites(HistoryOf(d));
      assert DurableStates(db, target)[i] == WriteStates(d, ws)[i - |loop|];
      MetaStatesResume(db, target, i - |loop|);
    }
  }

  /** The last durable state is the finished rollback; so running rollback twice is running it once. */
  lemma RollbackIdempotent(db: Db, target: BlockHeight)
    ensures AfterRollback(AfterRollback(db, target), target) == AfterRollback(db, target)
  {
    MetaStatesResume(db, target, 3);
    var d := RolledBack(db, target);
    assert RestoreMeta(HistoryOf(d))[..3] == RestoreMeta(HistoryOf(d));
  }
}
