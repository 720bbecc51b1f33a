/** `RocksState::commit_block`: one atomic batch. */
module RocksCommit {
  import opened Options
  import opened ByteStrings
  import opened MapUndo
  import opened World
  import opened KeyValue
  import opened RocksLayout
  import UndoCodec

  function DeployWrites(deploys: seq<(Bytes32, Contract)>): seq<Write> {
    seq(|deploys|, i requires 0 <= i < |deploys| => Put(ContractKey(deploys[i].0), ContractValue(deploys[i].1)))
  }

  function UpsertWrites(upserts: seq<(Slot, Bytes)>): seq<Write> {
    seq(|upserts|, i requires 0 <= i < |upserts| => Put(StorageKey(upserts[i].0), upserts[i].1))
  }

  /** Only slots that hold a value before or through this commit are deleted. */
  function DeleteWrites(upserted: map<Slot, Bytes>, deletes: seq<Slot>): seq<Write> {
    if deletes == [] then [] else
      var front, slot := deletes[..|deletes| - 1], deletes[|deletes| - 1];
      DeleteWrites(upserted, front) + (if slot in upserted then [Del(StorageKey(slot))] else [])
  }

  function MetaWrites(h: BlockHeight, hash: Bytes32): seq<Write> {
    [Put(META_HEIGHT, Be4(h)), Put(META_HASH, hash)]
  }

  function RecordWrites(h: BlockHeight, hash: Bytes32, r: Bytes32): seq<Write> {
    [Put(HeightKey(h), hash + r)]
  }

  function DataWrites(w: State, c: BlockCommit): seq<Write> {
    DeployWrites(c.deploys) + UpsertWrites(c.upserts) + DeleteWrites(PutAll(w.storage, c.upserts), c.deletes)
  }

  function JournalWrites(w: State, c: BlockCommit): seq<Write> {
    [Put(UndoKey(c.height), UndoCodec.Encode(RocksUndo(w, c)))]
  }

  function IndexWrites(c: BlockCommit, r: Bytes32): seq<Write> {
    MetaWrites(c.height, c.blockHash) + RecordWrites(c.height, c.blockHash, r) + [Put(META_ROOT, r)]
  }

  function CommitBatch(w: State, c: BlockCommit, r: Bytes32): seq<Write> {
    DataWrites(w, c) + JournalWrites(w, c) + IndexWrites(c, r)
  }

  ghost function AfterCommit(root: State -> Bytes32, db: Db, c: BlockCommit): Db {
    WriteBatch(db, CommitBatch(StateOf(db), c, root(Apply(StateOf(db), c))))
  }

  // ---- What each part of the batch does to the views ----

  lemma {:induction false} DeploysWrite(db: Db, deploys: seq<(Bytes32, Contract)>)
    ensures View(Contracts(), WriteBatch(db, DeployWrites(deploys))) == PutAll(View(Contracts(), db), deploys)
  {
    if deploys != [] {
      var front, d := deploys[..|deploys| - 1], deploys[|deploys| - 1];
      var ws := DeployWrites(deploys);
      assert ws[..|ws| - 1] == DeployWrites(front);
      DeploysWrite(db, front);
      ContractsKeyed();
      var v := ContractValue(d.1);
      assert ContractDecode(v) == Some(d.1) by {
        assert v[..32] == d.1.codeHash && v[32..] == d.1.wasm;
      }
      PutEntry(Contracts(), WriteBatch(db, DeployWrites(front)), d.0, v);
    }
  }

  lemma {:induction false} UpsertsWrite(db: Db, upserts: seq<(Slot, Bytes)>)
    ensures View(Storage(), WriteBatch(db, UpsertWrites(upserts))) == PutAll(View(Storage(), db), upserts)
  {
    if upserts != [] {
      var front, u := upserts[..|upserts| - 1], upserts[|upserts| - 1];
      var ws := UpsertWrites(upserts);
      assert ws[..|ws| - 1] == UpsertWrites(front);
      UpsertsWrite(db, front);
      StorageKeyed();
      PutEntry(Storage(), WriteBatch(db, UpsertWrites(front)), u.0, u.1);
    }
  }

  lemma {:induction false} DeletesTagged(upserted: map<Slot, Bytes>, deletes: seq<Slot>)
    ensures Tagged(DeleteWrites(upserted, deletes), S)
  {
    if deletes != [] {
      DeletesTagged(upserted, deletes[..|deletes| - 1]);
    }
  }

  lemma DeleteOne(db: Db, upserted: map<Slot, Bytes>, left: map<Slot, Bytes>, slot: Slot)
    requires View(Storage(), db) == left && left.Keys <= upserted.Keys
    ensures var ws := if slot in upserted then [Del(StorageKey(slot))] else [];
      View(Storage(), WriteBatch(db, ws)) == left - {slot}
  {
    if slot in upserted {
      StorageKeyed();
      DeleteEntry(Storage(), db, slot);
      WriteBatchOne(db, Del(StorageKey(slot)));
    } else {
      assert left - {slot} == left;
    }
  }

  lemma {:induction false} DeletesWrite(db: Db, upserted: map<Slot, Bytes>, deletes: seq<Slot>)
    requires View(Storage(), db) == upserted
    ensures View(Storage(), WriteBatch(db, DeleteWrites(upserted, deletes))) == RemoveAll(upserted, deletes)
    ensures RemoveAll(upserted, deletes).Keys <= upserted.Keys
  {
    if deletes != [] {
      var front, slot := deletes[..|deletes| - 1], deletes[|deletes| - 1];
      DeletesWrite(db, upserted, front);
      var before := DeleteWrites(upserted, front);
      DeleteOne(WriteBatch(db, before), upserted, RemoveAll(upserted, front), slot);
      WriteBatchConcat(db, before, if slot in upserted then [Del(StorageKey(slot))] else []);
    }
  }

  lemma DataWrite(db: Db, c: BlockCommit)
    ensures Read(WriteBatch(db, DataWrites(StateOf(db), c))) == Read(db).(state := Apply(StateOf(db), c))
  {
    var w := StateOf(db);
    var deploys, upserts := DeployWrites(c.deploys), UpsertWrites(c.upserts);
    var upserted := PutAll(w.storage, c.upserts);
    var deletes := DeleteWrites(upserted, c.deletes);
    var db1 := WriteBatch(db, deploys);
    var db2 := WriteBatch(db1, upserts);
    WriteBatchConcat(db, deploys + upserts, deletes);
    WriteBatchConcat(db, deploys, upserts);
    TaggedWrites(db, deploys, C);
    DeploysWrite(db, c.deploys);
    TaggedWrites(db1, upserts, S);
    UpsertsWrite(db1, c.upserts);
    DeletesWrite(db2, upserted, c.deletes);
    DeletesTagged(upserted, c.deletes);
    TaggedWrites(db2, deletes, S);
  }

  lemma JournalWrite(db: Db, w: State, c: BlockCommit)
    ensures Read(WriteBatch(db, JournalWrites(w, c))) ==
      Read(db).(journals := Read(db).journals[c.height := UndoCodec.Encode(RocksUndo(w, c))])
  {
    var v := UndoCodec.Encode(RocksUndo(w, c));
    HeightsKeyed();
    TaggedWrites(db, JournalWrites(w, c), U);
    WriteBatchOne(db, Put(UndoKey(c.height), v));
    PutEntry(Journals(), db, c.height, v);
  }

  lemma RecordWrite(db: Db, h: BlockHeight, hash: Bytes32, r: Bytes32)
    ensures Read(WriteBatch(db, RecordWrites(h, hash, r))) == Read(db).(records := Read(db).records[h := (hash, r)])
  {
    HeightsKeyed();
    TaggedWrites(db, RecordWrites(h, hash, r), H);
    WriteBatchOne(db, Put(HeightKey(h), hash + r));
    assert (hash + r)[..32] == hash && (hash + r)[32..] == r;
    PutEntry(Heights(), db, h, hash + r);
  }

  lemma MetaWrite(db: Db, h: BlockHeight, hash: Bytes32)
    ensures Read(WriteBatch(db, MetaWrites(h, hash))) ==
      Read(db).(meta := Metadata(Some(h), Some(hash), Read(db).meta.root))
  {
    var ws := MetaWrites(h, hash);
    TaggedWrites(db, ws, M);
    assert ws == [ws[0]] + [ws[1]];
    WriteBatchConcat(db, [ws[0]], [ws[1]]);
    WriteBatchOne(db, ws[0]);
    WriteBatchOne(WriteOne(db, ws[0]), ws[1]);
    ParseHeightInverts(h, []);
  }

  lemma RootWrite(db: Db, r: Bytes32)
    ensures Read(WriteBatch(db, [Put(META_ROOT, r)])) == Read(db).(meta := Read(db).meta.(root := Some(r)))
  {
    TaggedWrites(db, [Put(META_ROOT, r)], M);
    WriteBatchOne(db, Put(META_ROOT, r));
  }

  lemma IndexWrite(db: Db, c: BlockCommit, r: Bytes32)
    ensures Read(WriteBatch(db, IndexWrites(c, r))) ==
      Read(db).(records := Read(db).records[c.height := (c.blockHash, r)],
                meta := Metadata(Some(c.height), Some(c.blockHash), Some(r)))
  {
    var metas, records := MetaWrites(c.height, c.blockHash), RecordWrites(c.height, c.blockHash, r);
    var roots := [Put(META_ROOT, r)];
    WriteBatchConcat(db, metas + records, roots);
    WriteBatchConcat(db, metas, records);
    MetaWrite(db, c.height, c.blockHash);
    RecordWrite(WriteBatch(db, metas), c.height, c.blockHash, r);
    RootWrite(WriteBatch(WriteBatch(db, metas), records), r);
  }

  /** The batch applies the commit and files its journal, record and metadata, on any key space whatever. */
  lemma CommitViews(root: State -> Bytes32, db: Db, c: BlockCommit)
    ensures var w := StateOf(db);
      var r := root(Apply(w, c));
      Read(AfterCommit(root, db, c)) == Views(
        Apply(w, c),
        Read(db).records[c.height := (c.blockHash, r)],
        Read(db).journals[c.height := UndoCodec.Encode(RocksUndo(w, c))],
        Metadata(Some(c.height), Some(c.blockHash), Some(r)))
  {
    var w := StateOf(db);
    var r := root(Apply(w, c));
    var data, journal, index := DataWrites(w, c), JournalWrites(w, c), IndexWrites(c, r);
    WriteBatchConcat(db, data + journal, index);
    WriteBatchConcat(db, data, journal);
    DataWrite(db, c);
    JournalWrite(WriteBatch(db, data), w, c);
    IndexWrite(WriteBatch(WriteBatch(db, data), journal), c, r);
  }
}
