/** `RocksState::rollback_to`: one batch per height, then three metadata writes. */
module RocksRollback {
  import opened Options
  import opened ByteStrings
  import opened Heights
  import opened MapUndo
  import opened World
  import opened History
  import opened RecordLists
  import opened KeyValue
  import opened RocksCommit
  import UndoCodec
  import L = RocksLayout

  function UndoWrite(op: UndoOp): Write {
    match op
    case UndoSet(slot, Some(v)) => Put(L.StorageKey(slot), v)
    case UndoSet(slot, None) => Del(L.StorageKey(slot))
    case UndoDelete(slot, v) => Put(L.StorageKey(slot), v)
    case UndoDeploy(id, Some(c)) => Put(L.ContractKey(id), L.ContractValue(c))
    case UndoDeploy(id, None) => Del(L.ContractKey(id))
  }

  /** A journal is undone from its end. */
  function UndoWrites(ops: seq<UndoOp>): seq<Write>
    decreases |ops|
  {
    if ops == [] then [] else [UndoWrite(ops[|ops| - 1])] + UndoWrites(ops[..|ops| - 1])
  }

  function RollbackBatch(h: BlockHeight, ops: seq<UndoOp>): seq<Write> {
    UndoWrites(ops) + [Del(L.HeightKey(h))] + [Del(L.UndoKey(h))]
  }

  predicate HasJournal(db: Db, h: BlockHeight) {
    L.UndoKey(h) in db
  }

  function RollbackHeight(db: Db, h: BlockHeight): Db {
    if HasJournal(db, h) then WriteBatch(db, RollbackBatch(h, UndoCodec.Decode(db[L.UndoKey(h)]))) else db
  }

  function RollbackHeights(db: Db, hs: seq<BlockHeight>): Db
    decreases |hs|
  {
    if hs == [] then db else RollbackHeights(RollbackHeight(db, hs[0]), hs[1..])
  }

  function Above<V>(byHeight: map<BlockHeight, V>, target: BlockHeight): set<BlockHeight> {
    set h | h in byHeight && h > target
  }

  ghost function HeightsAbove(db: Db, target: BlockHeight): set<BlockHeight> {
    Above(L.Read(db).records, target)
  }

  function RecordIn(records: map<BlockHeight, (Bytes32, Bytes32)>): BlockHeight -> HeightRecord {
    (h: BlockHeight) =>
      if h in records then HeightRecord(h, records[h].0, records[h].1) else HeightRecord(h, ZEROES32, ZEROES32)
  }

  /** `height_history`: the records in ascending height order. */
  ghost function HistoryIn(records: map<BlockHeight, (Bytes32, Bytes32)>): seq<HeightRecord> {
    Mapped(RecordIn(records), Ascending(records.Keys))
  }

  ghost function HistoryOf(db: Db): seq<HeightRecord> {
    HistoryIn(View(L.Heights(), db))
  }

  function RestoreMeta(history: seq<HeightRecord>): seq<Write> {
    if history == [] then [Del(L.META_HEIGHT), Del(L.META_HASH), Del(L.META_ROOT)]
    else
      var last := history[|history| - 1];
      [Put(L.META_HEIGHT, Be4(last.height)), Put(L.META_HASH, last.blockHash), Put(L.META_ROOT, last.root)]
  }

  ghost function RolledBack(db: Db, target: BlockHeight): Db {
    RollbackHeights(db, Descending(HeightsAbove(db, target)))
  }

  ghost function AfterRollback(db: Db, target: BlockHeight): Db {
    var db' := RolledBack(db, target);
    WriteBatch(db', RestoreMeta(HistoryOf(db')))
  }

  // ---- What rollback does to the views ----

  lemma UndoWriteViews(db: Db, op: UndoOp)
    ensures L.Read(WriteOne(db, UndoWrite(op))) == L.Read(db).(state := UndoOne(L.StateOf(db), op))
  {
    var w := UndoWrite(op);
    WriteBatchOne(db, w);
    L.ContractsKeyed();
    L.StorageKeyed();
    match op {
      case UndoSet(slot, Some(v)) =>
        L.TaggedWrites(db, [w], L.S);
        PutEntry(L.Storage(), db, slot, v);
      case UndoSet(slot, None) =>
        L.TaggedWrites(db, [w], L.S);
        DeleteEntry(L.Storage(), db, slot);
      case UndoDelete(slot, v) =>
        L.TaggedWrites(db, [w], L.S);
        PutEntry(L.Storage(), db, slot, v);
      case UndoDeploy(id, Some(c)) =>
        L.TaggedWrites(db, [w], L.C);
        var v := L.ContractValue(c);
        assert v[..32] == c.codeHash && v[32..] == c.wasm;
        PutEntry(L.Contracts(), db, id, v);
      case UndoDeploy(id, None) =>
        L.TaggedWrites(db, [w], L.C);
        DeleteEntry(L.Contracts(), db, id);
    }
  }

  lemma {:induction false} UndoWritesViews(db: Db, ops: seq<UndoOp>)
    ensures L.Read(WriteBatch(db, UndoWrites(ops))) == L.Read(db).(state := UndoAll(L.StateOf(db), ops))
    decreases |ops|
  {
    if ops != [] {
      var first, rest := [UndoWrite(ops[|ops| - 1])], ops[..|ops| - 1];
      WriteBatchConcat(db, first, UndoWrites(rest));
      WriteBatchOne(db, first[0]);
      UndoWriteViews(db, ops[|ops| - 1]);
      UndoWritesViews(WriteBatch(db, first), rest);
    }
  }

  lemma DeleteRecord(db: Db, h: BlockHeight)
    ensures L.Read(WriteBatch(db, [Del(L.HeightKey(h))])) == L.Read(db).(records := L.Read(db).records - {h})
  {
    L.HeightsKeyed();
    L.TaggedWrites(db, [Del(L.HeightKey(h))], L.H);
    WriteBatchOne(db, Del(L.HeightKey(h)));
    DeleteEntry(L.Heights(), db, h);
  }

  lemma DeleteJournal(db: Db, h: BlockHeight)
    ensures L.Read(WriteBatch(db, [Del(L.UndoKey(h))])) == L.Read(db).(journals := L.Read(db).journals - {h})
  {
    L.HeightsKeyed();
    L.TaggedWrites(db, [Del(L.UndoKey(h))], L.U);
    WriteBatchOne(db, Del(L.UndoKey(h)));
    DeleteEntry(L.Journals(), db, h);
  }

  lemma JournalView(db: Db, h: BlockHeight)
    ensures Lookup(L.Read(db).journals, h) == Lookup(db, L.UndoKey(h))
    ensures HasJournal(db, h) <==> h in L.Read(db).journals
  {
    L.HeightsKeyed();
    ViewAt(L.Journals(), db, h);
  }

  /** Rolling back one height, on any key space. */
  lemma RollbackHeightViews(db: Db, h: BlockHeight)
    requires HasJournal(db, h)
    ensures var v := L.Read(db);
      L.Read(RollbackHeight(db, h)) ==
        v.(state := UndoAll(v.state, UndoCodec.Decode(db[L.UndoKey(h)])),
           records := v.records - {h}, journals := v.journals - {h})
  {
    var undo := UndoWrites(UndoCodec.Decode(db[L.UndoKey(h)]));
    var db1 := WriteBatch(db, undo);
    WriteBatchConcat(db, undo + [Del(L.HeightKey(h))], [Del(L.UndoKey(h))]);
    WriteBatchConcat(db, undo, [Del(L.HeightKey(h))]);
    UndoWritesViews(db, UndoCodec.Decode(db[L.UndoKey(h)]));
    DeleteRecord(db1, h);
    DeleteJournal(WriteBatch(db1, [Del(L.HeightKey(h))]), h);
  }

  // ---- Whole chains ----

  /** Lengths the runtime and the wire formats guarantee to the state engine. */
  predicate Bounded(c: BlockCommit) {
    && |c.deploys| + |c.upserts| + |c.deletes| < U32_MODULUS
    && (forall i :: 0 <= i < |c.deploys| ==> |c.deploys[i].1.wasm| < U32_MODULUS)
    && (forall i :: 0 <= i < |c.upserts| ==> |c.upserts[i].0.key| < U16_MODULUS && |c.upserts[i].1| < U32_MODULUS)
    && (forall i :: 0 <= i < |c.deletes| ==> |c.deletes[i].key| < U16_MODULUS)
  }

  predicate BoundedState(w: State) {
    && (forall id :: id in w.contracts ==> |w.contracts[id].wasm| < U32_MODULUS)
    && (forall slot :: slot in w.storage ==> |slot.key| < U16_MODULUS && |w.storage[slot]| < U32_MODULUS)
  }

  predicate AllBounded(chain: seq<BlockCommit>) {
    forall i :: 0 <= i < |chain| ==> Bounded(chain[i])
  }

  lemma {:induction false} PutAllFrom<K, V>(m: map<K, V>, puts: seq<(K, V)>, k: K)
    requires k in PutAll(m, puts)
    ensures (k in m && PutAll(m, puts)[k] == m[k]) ||
      exists i :: 0 <= i < |puts| && puts[i].0 == k && PutAll(m, puts)[k] == puts[i].1
  {
    if puts != [] {
      var front, p := puts[..|puts| - 1], puts[|puts| - 1];
      if p.0 != k {
        PutAllFrom(m, front, k);
      }
    }
  }

  lemma ApplyBounded(w: State, c: BlockCommit)
    requires BoundedState(w) && Bounded(c)
    ensures BoundedState(State(w.contracts, PutAll(w.storage, c.upserts))) && BoundedState(Apply(w, c))
  {
    var after := Apply(w, c);
    forall id: Bytes32 | id in after.contracts ensures |after.contracts[id].wasm| < U32_MODULUS {
      PutAllFrom(w.contracts, c.deploys, id);
    }
    var mid := PutAll(w.storage, c.upserts);
    forall slot: Slot | slot in mid ensures |slot.key| < U16_MODULUS && |mid[slot]| < U32_MODULUS {
      PutAllFrom(w.storage, c.upserts, slot);
    }
    forall slot: Slot | slot in after.storage ensures slot in mid && after.storage[slot] == mid[slot] {
      RemoveAllAt(mid, c.deletes, slot);
      assert Lookup(after.storage, slot) == Some(after.storage[slot]);
    }
  }

  lemma {:induction false} ReplayBounded(chain: seq<BlockCommit>)
    requires AllBounded(chain)
    ensures BoundedState(Replay(chain))
  {
    if chain != [] {
      ReplayBounded(chain[..|chain| - 1]);
      ApplyBounded(Replay(chain[..|chain| - 1]), chain[|chain| - 1]);
    }
  }

  lemma {:induction false} FixedPrevsBounded<K, V>(m: map<K, V>, puts: seq<(K, V)>)
    ensures |FixedPrevs(m, puts)| == |puts|
    ensures forall i :: 0 <= i < |puts| ==> FixedPrevs(m, puts)[i] == Entry(puts[i].0, Lookup(m, puts[i].0))
  {
    if puts != [] {
      FixedPrevsBounded(m, puts[..|puts| - 1]);
    }
  }

  lemma {:induction false} FixedRemovalsBounded<K, V>(m: map<K, V>, ks: seq<K>)
    ensures |FixedRemovals(m, ks)| <= |ks|
    ensures forall e :: e in FixedRemovals(m, ks) ==> e.key in m && e.prev == Some(m[e.key])
  {
    if ks != [] {
      FixedRemovalsBounded(m, ks[..|ks| - 1]);
    }
  }

  lemma DeploysInBounds(w: State, c: BlockCommit)
    requires BoundedState(w) && Bounded(c)
    ensures |AsDeploys(FixedPrevs(w.contracts, c.deploys))| == |c.deploys|
    ensures forall op :: op in AsDeploys(FixedPrevs(w.contracts, c.deploys)) ==> UndoCodec.InBounds(op)
  {
    FixedPrevsBounded(w.contracts, c.deploys);
    hide FixedPrevs;
  }

  lemma SetsInBounds(w: State, c: BlockCommit)
    requires BoundedState(w) && Bounded(c)
    ensures |AsSets(FixedPrevs(w.storage, c.upserts))| == |c.upserts|
    ensures forall op :: op in AsSets(FixedPrevs(w.storage, c.upserts)) ==> UndoCodec.InBounds(op)
  {
    FixedPrevsBounded(w.storage, c.upserts);
    hide FixedPrevs;
  }

  lemma DeletesInBounds(w: State, deletes: seq<Slot>)
    requires BoundedState(w)
    ensures |AsDeletes(FixedRemovals(w.storage, deletes))| <= |deletes|
    ensures forall op :: op in AsDeletes(FixedRemovals(w.storage, deletes)) ==> UndoCodec.InBounds(op)
  {
    var es := FixedRemovals(w.storage, deletes);
    FixedRemovalsBounded(w.storage, deletes);
    hide FixedRemovals;
    forall i | 0 <= i < |es| ensures UndoCodec.InBounds(AsDeletes(es)[i]) {
      assert es[i] in es;
    }
  }

  lemma JournalInBounds(w: State, c: BlockCommit)
    requires BoundedState(w) && Bounded(c)
    ensures UndoCodec.AllInBounds(RocksUndo(w, c))
  {
    ApplyBounded(w, c);
    DeploysInBounds(w, c);
    SetsInBounds(w, c);
    DeletesInBounds(State(w.contracts, PutAll(w.storage, c.upserts)), c.deletes);
    hide FixedPrevs, FixedRemovals, BoundedState, PutAll, Apply, AsDeploys, AsSets, AsDeletes, UndoCodec.InBounds;
    forall i | 0 <= i < |RocksUndo(w, c)| ensures UndoCodec.InBounds(RocksUndo(w, c)[i]) {
      assert RocksUndo(w, c)[i] in RocksUndo(w, c);
    }
  }

  // ---- What the key space holds after the commits of `chain` survive ----

  function RecordBy(root: State -> Bytes32): (State, BlockCommit) -> (Bytes32, Bytes32) {
    (w: State, c: BlockCommit) => (c.blockHash, root(Apply(w, c)))
  }

  function JournalBy(): (State, BlockCommit) -> Bytes {
    (w: State, c: BlockCommit) => UndoCodec.Encode(RocksUndo(w, c))
  }

  function ViewsOf(root: State -> Bytes32, chain: seq<BlockCommit>, meta: Metadata): L.Views {
    L.Views(Replay(chain), ByHeight(RecordBy(root), chain), ByHeight(JournalBy(), chain), meta)
  }

  /** All tables are as the surviving commits leave them, whatever the metadata says. */
  ghost predicate TablesHold(root: State -> Bytes32, db: Db, chain: seq<BlockCommit>) {
    IncreasingHeights(chain) && AllBounded(chain) && L.Read(db) == ViewsOf(root, chain, L.MetaOf(db))
  }

  ghost predicate Holds(root: State -> Bytes32, db: Db, chain: seq<BlockCommit>) {
    TablesHold(root, db, chain) && L.MetaOf(db) == MetadataOf(Records(root, chain))
  }

  lemma CommitHolds(root: State -> Bytes32, db: Db, chain: seq<BlockCommit>, c: BlockCommit)
    requires TablesHold(root, db, chain) && Extends(chain, c) && Bounded(c)
    ensures Holds(root, AfterCommit(root, db, c), chain + [c])
  {
    hide View, L.Read, L.StateOf, L.MetaOf, AfterCommit, UndoCodec.Encode, RocksUndo, Apply;
    CommitViews(root, db, c);
    ReadState(db);
    ReadState(AfterCommit(root, db, c));
    ReplaySnoc(chain, c);
    RecordsSnoc(root, chain, c);
    ByHeightSnoc(RecordBy(root), chain, c);
    ByHeightSnoc(JournalBy(), chain, c);
  }

  lemma ReadState(db: Db)
    ensures L.Read(db).state == L.StateOf(db) && L.Read(db).meta == L.MetaOf(db)
  {
  }

  /** Ascending height keys list the records of a chain in commit order. */
  lemma {:induction false} HistoryIsRecords(root: State -> Bytes32, chain: seq<BlockCommit>)
    requires IncreasingHeights(chain)
    ensures HistoryIn(ByHeight(RecordBy(root), chain)) == Records(root, chain)
  {
    if chain == [] {
    } else {
      var front, last := chain[..|chain| - 1], chain[|chain| - 1];
      assert chain == front + [last];
      HistoryIsRecords(root, front);
      RecordsSnoc(root, front, last);
      var records := ByHeight(RecordBy(root), front);
      assert front != [] ==> front[|front| - 1].height < last.height;
      ByHeightKeys(RecordBy(root), front);
      HistoryGrows(records, last.height, RecordBy(root)(Replay(front), last));
    }
  }

  lemma HistoryGrows(records: map<BlockHeight, (Bytes32, Bytes32)>, h: BlockHeight, r: (Bytes32, Bytes32))
    requires forall k :: k in records ==> k < h
    ensures HistoryIn(records[h := r]) == HistoryIn(records) + [HeightRecord(h, r.0, r.1)]
  {
    var keys := Ascending(records.Keys);
    AscendingLists(records.Keys);
    hide Ascending;
    assert forall i :: 0 <= i < |keys| ==> keys[i] in ToSet(keys);
    TopKey(records, keys, h, r);
    assert HistoryIn(records[h := r]) == Mapped(RecordIn(records[h := r]), keys + [h]);
  }

  lemma TopKey(records: map<BlockHeight, (Bytes32, Bytes32)>, keys: seq<BlockHeight>, h: BlockHeight,
      r: (Bytes32, Bytes32))
    requires Increasing(keys) && ToSet(keys) == records.Keys && forall k :: k in records ==> k < h
    ensures Ascending(records[h := r].Keys) == keys + [h]
  {
    assert forall i :: 0 <= i < |keys| ==> keys[i] in ToSet(keys);
    assert ToSet(keys + [h]) == records[h := r].Keys;
    IncreasingUnique(keys + [h]);
  }

  lemma AboveLast<V>(f: (State, BlockCommit) -> V, chain: seq<BlockCommit>, target: BlockHeight)
    requires IncreasingHeights(chain)
    ensures chain == [] || chain[|chain| - 1].height <= target ==> Above(ByHeight(f, chain), target) == {}
    ensures chain != [] && chain[|chain| - 1].height > target ==>
      Above(ByHeight(f, chain), target) != {} && Max(Above(ByHeight(f, chain), target)) == chain[|chain| - 1].height
  {
    ByHeightKeys(f, chain);
    if chain != [] && chain[|chain| - 1].height > target {
      assert chain[|chain| - 1].height in Above(ByHeight(f, chain), target);
    }
  }

  /** The last commit's stored journal, decoded, undoes it. */
  lemma JournalUndoes(front: seq<BlockCommit>, last: BlockCommit)
    requires AllBounded(front) && Bounded(last)
    ensures UndoAll(Apply(Replay(front), last), UndoCodec.Decode(UndoCodec.Encode(RocksUndo(Replay(front), last)))) ==
      Replay(front)
  {
    ReplayBounded(front);
    JournalInBounds(Replay(front), last);
    hide Bounded, BoundedState, RocksUndo, Apply, UndoAll;
    UndoCodec.DecodeInverts(RocksUndo(Replay(front), last));
    RocksUndoInverts(Replay(front), last);
  }

  lemma UndoLast(root: State -> Bytes32, db: Db, chain: seq<BlockCommit>)
    requires IncreasingHeights(chain) && AllBounded(chain) && chain != []
    requires L.Read(db) == ViewsOf(root, chain, L.Read(db).meta)
    ensures HasJournal(db, chain[|chain| - 1].height)
    ensures L.Read(RollbackHeight(db, chain[|chain| - 1].height)) ==
      ViewsOf(root, chain[..|chain| - 1], L.Read(db).meta)
  {
    var front, last := chain[..|chain| - 1], chain[|chain| - 1];
    JournalView(db, last.height);
    JournalUndoes(front, last);
    hide RollbackHeight, HasJournal, Bounded, RocksUndo, Apply, View, UndoAll, UndoCodec.Encode, UndoCodec.Decode;
    RollbackHeightViews(db, last.height);
    ByHeightWithoutLast(RecordBy(root), chain);
    ByHeightWithoutLast(JournalBy(), chain);
  }

  lemma {:induction false} RolledBackViews(root: State -> Bytes32, db: Db, chain: seq<BlockCommit>, target: BlockHeight)
    requires IncreasingHeights(chain) && AllBounded(chain)
    requires L.Read(db) == ViewsOf(root, chain, L.Read(db).meta)
    ensures L.Read(RolledBack(db, target)) == ViewsOf(root, Survivors(chain, target), L.Read(db).meta)
    decreases |chain|
  {
    hide View;
    AboveLast(RecordBy(root), chain, target);
    if chain == [] || chain[|chain| - 1].height <= target {
      assert RolledBack(db, target) == db;
    } else {
      var front, last := chain[..|chain| - 1], chain[|chain| - 1];
      UndoLast(root, db, chain);
      ByHeightWithoutLast(RecordBy(root), chain);
      RollTop(db, last.height, target);
      RolledBackViews(root, RollbackHeight(db, last.height), front, target);
    }
  }

  lemma RollTop(db: Db, h: BlockHeight, target: BlockHeight)
    requires HeightsAbove(db, target) != {} && Max(HeightsAbove(db, target)) == h
    requires L.Read(RollbackHeight(db, h)).records == L.Read(db).records - {h}
    ensures RolledBack(db, target) == RolledBack(RollbackHeight(db, h), target)
  {
    assert HeightsAbove(RollbackHeight(db, h), target) == HeightsAbove(db, target) - {h};
  }

  lemma ThreeWrites(db: Db, ws: seq<Write>)
    requires |ws| == 3
    ensures WriteBatch(db, ws) == WriteOne(WriteOne(WriteOne(db, ws[0]), ws[1]), ws[2])
  {
    hide WriteOne;
    assert ws == [ws[0]] + [ws[1]] + [ws[2]];
    WriteBatchConcat(db, [ws[0]] + [ws[1]], [ws[2]]);
    WriteBatchConcat(db, [ws[0]], [ws[1]]);
    WriteBatchOne(db, ws[0]);
    WriteBatchOne(WriteOne(db, ws[0]), ws[1]);
    WriteBatchOne(WriteOne(WriteOne(db, ws[0]), ws[1]), ws[2]);
  }

  lemma RestoreMetaViews(db: Db, history: seq<HeightRecord>)
    ensures L.Read(WriteBatch(db, RestoreMeta(history))) == L.Read(db).(meta := MetadataOf(history))
  {
    var ws := RestoreMeta(history);
    L.TaggedWrites(db, ws, L.M);
    ThreeWrites(db, ws);
    if history != [] {
      L.ParseHeightInverts(history[|history| - 1].height, []);
    }
  }

  /** Rollback keeps exactly the commits at or below the target, and puts the metadata right whatever it was. */
  lemma RollbackHolds(root: State -> Bytes32, db: Db, chain: seq<BlockCommit>, target: BlockHeight)
    requires TablesHold(root, db, chain)
    ensures Holds(root, AfterRollback(db, target), Survivors(chain, target))
  {
    ReadState(db);
    ReadState(AfterRollback(db, target));
    hide View, L.StateOf, L.MetaOf, RolledBack, RestoreMeta, Records, MetadataOf, HistoryIn;
    var left := Survivors(chain, target);
    SurvivorsArePrefix(chain, target);
    RolledBackViews(root, db, chain, target);
    HistoryIsRecords(root, left);
    RestoreMetaViews(RolledBack(db, target), HistoryOf(RolledBack(db, target)));
  }
}
