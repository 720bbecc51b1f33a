/** `RocksState` as an object: loops that build batches over one flat key space. */
module RocksStore {
  import opened Options
  import opened ByteStrings
  import opened Heights
  import opened RecordLists
  import opened Repeats
  import opened MapUndo
  import opened World
  import opened History
  import opened StateRoot
  import opened KeyValue
  import opened RocksCommit
  import opened RocksRollback
  import L = RocksLayout
  import Lex = Lexicographic
  import UndoCodec

  // ---- Key order ----

  lemma HeightKeysSortNumerically(a: BlockHeight, b: BlockHeight)
    requires Lex.Leq(L.HeightKey(a), L.HeightKey(b)) && a != b
    ensures a < b
  {
    Lex.CommonPrefix([L.H], Be4(a), Be4(b));
    if b < a {
      Lex.Be4Order(b, a);
    }
  }

  ghost predicate SortedKeys(keys: seq<Bytes>, db: Db) {
    && Lex.Sorted(keys)
    && (forall i, j :: 0 <= i < j < |keys| ==> keys[i] != keys[j])
    && (forall i :: 0 <= i < |keys| ==> keys[i] in db)
  }

  /** The keys a RocksDB iterator yields from `from` onwards. */
  method Scan(db: Db, from: Bytes) returns (keys: seq<Bytes>)
    ensures SortedKeys(keys, db)
    ensures forall k :: k in db && Lex.Leq(from, k) ==> k in keys
  {
    var listed: seq<Bytes> := [];
    var pending := set k | k in db && Lex.Leq(from, k);
    ghost var all := pending;
    while pending != {}
      invariant pending <= all && Lists(listed, all - pending)
      decreases pending
    {
      var k :| k in pending;
      listed := listed + [k];
      pending := pending - {k};
    }
    keys := SortLeaves(listed);
    PermutedListing(listed, keys, all);
    assert forall i :: 0 <= i < |keys| ==> keys[i] in all;
  }

  lemma PermutedListing(a: seq<Bytes>, b: seq<Bytes>, s: set<Bytes>)
    requires Lists(a, s) && multiset(a) == multiset(b)
    ensures Lists(b, s)
  {
    forall k ensures k in b <==> k in s {
      assert k in b <==> k in multiset(b);
      assert k in a <==> k in multiset(a);
    }
    forall i, j | 0 <= i < j < |b| ensures b[i] != b[j] {
      if b[i] == b[j] {
        RepeatCounts(b, i, j);
        WithoutRepeats(a, b[i]);
      }
    }
  }

  /** One step of `height_history`: what a visited key contributes. */
  function RecordAt(db: Db, key: Bytes): Option<BlockHeight>
    requires key in db
  {
    if |key| == 5 && key[0] == L.H && |db[key]| == 64 then L.HeightUnkey(key) else None
  }

  ghost predicate Collected(db: Db, keys: seq<Bytes>, hs: seq<BlockHeight>) {
    && Increasing(hs)
    && (forall h: BlockHeight :: h in hs <==> L.HeightKey(h) in keys && EntryAt(L.Heights(), db, h).Some?)
  }

  lemma SkippedKey(db: Db, keys: seq<Bytes>, i: nat, hs: seq<BlockHeight>)
    requires i < |keys| && keys[i] in db && Collected(db, keys[..i], hs) && RecordAt(db, keys[i]).None?
    ensures Collected(db, keys[..i + 1], hs)
  {
  }

  lemma RecordedKey(db: Db, keys: seq<Bytes>, i: nat, hs: seq<BlockHeight>, h0: BlockHeight)
    requires SortedKeys(keys, db) && i < |keys| && Collected(db, keys[..i], hs) && RecordAt(db, keys[i]) == Some(h0)
    ensures Collected(db, keys[..i + 1], hs + [h0])
  {
    L.HeightsKeyed();
    var t := L.Heights();
    assert keys[..i + 1] == keys[..i] + [keys[i]];
    assert t.key(h0) == keys[i];
    forall n | 0 <= n < |hs| ensures hs[n] < h0 {
      assert hs[n] in hs;
      var j :| 0 <= j < i && keys[j] == L.HeightKey(hs[n]);
      assert Lex.Leq(keys[j], keys[i]) && keys[j] != keys[i];
      HeightKeysSortNumerically(hs[n], h0);
    }
    forall h: BlockHeight ensures L.HeightKey(h) == keys[i] <==> h == h0 {
      assert t.unkey(t.key(h)) == Some(h);
    }
  }

  /** `height_history`: scan the key space in key order; the records come out in height order. */
  method HeightHistory(db: Db) returns (history: seq<HeightRecord>)
    ensures history == HistoryOf(db)
  {
    var keys := Scan(db, [L.H]);
    ghost var hs: seq<BlockHeight>;
    history, hs := CollectRecords(db, keys, RecordIn(View(L.Heights(), db)));
    AllCollected(db, keys, hs);
  }

  method CollectRecords(db: Db, keys: seq<Bytes>, ghost f: BlockHeight -> HeightRecord)
    returns (history: seq<HeightRecord>, ghost hs: seq<BlockHeight>)
    requires SortedKeys(keys, db)
    requires f == RecordIn(View(L.Heights(), db))
    ensures Collected(db, keys, hs) && history == Mapped(f, hs)
  {
    history, hs := [], [];
    for i := 0 to |keys|
      invariant Collected(db, keys[..i], hs)
      invariant history == Mapped(f, hs)
    {
      hide View, RecordIn, Collected, SortedKeys;
      var h := ReadRecord(db, keys, i, hs, f);
      if h.Some? {
        history := history + [h.value];
        hs := hs + [h.value.height];
      }
    }
    assert keys[..|keys|] == keys;
  }

  method ReadRecord(db: Db, keys: seq<Bytes>, i: nat, ghost hs: seq<BlockHeight>, ghost f: BlockHeight -> HeightRecord)
    returns (r: Option<HeightRecord>)
    requires SortedKeys(keys, db) && i < |keys| && keys[i] in db && Collected(db, keys[..i], hs)
    requires f == RecordIn(View(L.Heights(), db))
    ensures r.None? ==> Collected(db, keys[..i + 1], hs)
    ensures r.Some? ==> Collected(db, keys[..i + 1], hs + [r.value.height]) && f(r.value.height) == r.value
  {
    hide View, RecordIn, Collected, SortedKeys;
    var v := db[keys[i]];
    var h := RecordAt(db, keys[i]);
    if h.None? {
      SkippedKey(db, keys, i, hs);
      return None;
    }
    RecordedKey(db, keys, i, hs, h.value);
    RecordRead(db, h.value, keys[i]);
    return Some(HeightRecord(h.value, v[..32], v[32..]));
  }

  lemma RecordRead(db: Db, h: BlockHeight, key: Bytes)
    requires key in db && RecordAt(db, key) == Some(h)
    ensures RecordIn(View(L.Heights(), db))(h) == HeightRecord(h, db[key][..32], db[key][32..])
  {
    L.HeightsKeyed();
    ViewAt(L.Heights(), db, h);
    assert L.Heights().key(h) == key;
  }

  lemma AllCollected(db: Db, keys: seq<Bytes>, hs: seq<BlockHeight>)
    requires Collected(db, keys, hs)
    requires forall k :: k in db && Lex.Leq([L.H], k) ==> k in keys
    ensures Ascending(View(L.Heights(), db).Keys) == hs
  {
    L.HeightsKeyed();
    forall h ensures h in hs <==> h in View(L.Heights(), db) {
      ViewAt(L.Heights(), db, h);
      assert Lex.Leq([L.H], L.HeightKey(h));
    }
    assert ToSet(hs) == View(L.Heights(), db).Keys;
    IncreasingUnique(hs);
  }

  /** Visiting every entry of a table, in any order. */
  method LoadTable<K(!new), V>(t: Table<K, V>, db: Db) returns (m: map<K, V>)
    requires t.Keyed()
    ensures m == View(t, db)
  {
    m := map[];
    var pending := db.Keys;
    while pending != {}
      invariant pending <= db.Keys
      invariant Loaded(t, db, pending, m)
      decreases pending
    {
      var k :| k in pending;
      var x, v := t.unkey(k), t.decode(db[k]);
      ghost var before := m;
      if x.Some? && v.Some? {
        m := m[x.value := v.value];
      }
      pending := pending - {k};
      LoadStep(t, db, pending, k, before, m);
    }
    forall x ensures Lookup(m, x) == Lookup(View(t, db), x) {
      ViewAt(t, db, x);
      assert Loaded(t, db, {}, m);
    }
    MapExtensionality(m, View(t, db));
  }

  ghost predicate Loaded<K(!new), V>(t: Table<K, V>, db: Db, pending: set<Bytes>, m: map<K, V>) {
    forall x :: Lookup(m, x) == (if t.key(x) in pending then None else EntryAt(t, db, x))
  }

  lemma LoadStep<K(!new), V>(t: Table<K, V>, db: Db, pending: set<Bytes>, k: Bytes, before: map<K, V>, after: map<K, V>)
    requires t.Keyed() && k in db && k !in pending && Loaded(t, db, pending + {k}, before)
    requires after ==
      if t.unkey(k).Some? && t.decode(db[k]).Some? then before[t.unkey(k).value := t.decode(db[k]).value] else before
    ensures Loaded(t, db, pending, after)
  {
  }

  /** `for_each_contract` and `for_each_storage` over the key space. */
  method LoadState(db: Db) returns (w: State)
    ensures w == L.StateOf(db)
  {
    L.ContractsKeyed();
    L.StorageKeyed();
    var contracts := LoadTable(L.Contracts(), db);
    var storage := LoadTable(L.Storage(), db);
    w := State(contracts, storage);
  }

  // ---- The object ----

  datatype CommitResult = Committed(root: Bytes32) | RootMismatch

  lemma EffectiveValue(m: map<Slot, Bytes>, upserts: seq<(Slot, Bytes)>, slot: Slot)
    ensures Lookup(PutAll(m, upserts), slot) ==
      var own := Lookup(PutAll(map[], upserts), slot);
      if own.Some? then own else Lookup(m, slot)
  {
  }

  lemma NextDelete(m: map<Slot, Bytes>, deletes: seq<Slot>, i: nat)
    requires i < |deletes|
    ensures var slot, before := deletes[i], deletes[..i];
      DeleteWrites(m, deletes[..i + 1]) ==
        DeleteWrites(m, before) + (if slot in m then [Del(L.StorageKey(slot))] else [])
    ensures var slot, before := deletes[i], deletes[..i];
      AsDeletes(FixedRemovals(m, deletes[..i + 1])) ==
        AsDeletes(FixedRemovals(m, before)) + (if slot in m then [UndoDelete(slot, m[slot])] else [])
  {
    hide L.StorageKey;
    assert deletes[..i + 1][..i] == deletes[..i];
  }

  lemma CommitValid(root: State -> Bytes32, db: Db, chain: seq<BlockCommit>, c: BlockCommit)
    requires Holds(root, db, chain) && Extends(chain, c) && Bounded(c)
    ensures Holds(root, AfterCommit(root, db, c), chain + [c]) && Apply(L.StateOf(db), c) == Replay(chain + [c])
  {
    hide L.Read, L.StateOf, L.MetaOf, AfterCommit, Bounded, Apply;
    ReadState(db);
    CommitHolds(root, db, chain, c);
    ReplaySnoc(chain, c);
  }

  class RocksState {
    const hashes: Hashes
    var db: Db
    /** The commits that have not been rolled back. */
    ghost var chain: seq<BlockCommit>

    ghost predicate Valid()
      reads this
    {
      Holds(RootOf(hashes), db, chain)
    }

    constructor (h: Hashes)
      ensures Valid() && hashes == h && db == map[] && chain == []
    {
      hashes := h;
      db := map[];
      chain := [];
    }

    method GetContract(id: Bytes32) returns (c: Option<Contract>)
      ensures c == Lookup(L.StateOf(db).contracts, id)
    {
      L.ContractsKeyed();
      ViewAt(L.Contracts(), db, id);
      c := EntryAt(L.Contracts(), db, id);
    }

    method StorageGet(slot: Slot) returns (v: Option<Bytes>)
      ensures v == Lookup(L.StateOf(db).storage, slot)
    {
      L.StorageKeyed();
      ViewAt(L.Storage(), db, slot);
      v := EntryAt(L.Storage(), db, slot);
    }

    method BatchDeploys(deploys: seq<(Bytes32, Contract)>) returns (batch: seq<Write>, ops: seq<UndoOp>)
      ensures batch == DeployWrites(deploys)
      ensures ops == AsDeploys(FixedPrevs(L.StateOf(db).contracts, deploys))
    {
      batch, ops := [], [];
      for i := 0 to |deploys|
        invariant batch == DeployWrites(deploys[..i])
        invariant ops == AsDeploys(FixedPrevs(L.StateOf(db).contracts, deploys[..i]))
      {
        hide L.StateOf;
        assert deploys[..i + 1][..i] == deploys[..i];
        var prev := GetContract(deploys[i].0);
        batch := batch + [Put(L.ContractKey(deploys[i].0), L.ContractValue(deploys[i].1))];
        ops := ops + [UndoDeploy(deploys[i].0, prev)];
      }
      assert deploys[..|deploys|] == deploys;
    }

    method BatchUpserts(upserts: seq<(Slot, Bytes)>) returns (batch: seq<Write>, ops: seq<UndoOp>)
      ensures batch == UpsertWrites(upserts)
      ensures ops == AsSets(FixedPrevs(L.StateOf(db).storage, upserts))
    {
      batch, ops := [], [];
      for i := 0 to |upserts|
        invariant batch == UpsertWrites(upserts[..i])
        invariant ops == AsSets(FixedPrevs(L.StateOf(db).storage, upserts[..i]))
      {
        hide L.StateOf;
        assert upserts[..i + 1][..i] == upserts[..i];
        var prev := StorageGet(upserts[i].0);
        batch := batch + [Put(L.StorageKey(upserts[i].0), upserts[i].1)];
        ops := ops + [UndoSet(upserts[i].0, prev)];
      }
      assert upserts[..|upserts|] == upserts;
    }

    /** Deletes see the commit's own upserts first, then the key space before the batch. */
    method BatchDeletes(upserts: seq<(Slot, Bytes)>, deletes: seq<Slot>) returns (batch: seq<Write>, ops: seq<UndoOp>)
      ensures batch == DeleteWrites(PutAll(L.StateOf(db).storage, upserts), deletes)
      ensures ops == AsDeletes(FixedRemovals(PutAll(L.StateOf(db).storage, upserts), deletes))
    {
      var upserted := CollectUpserts(upserts);
      ghost var seen := PutAll(L.StateOf(db).storage, upserts);
      batch, ops := [], [];
      for i := 0 to |deletes|
        invariant batch == DeleteWrites(seen, deletes[..i])
        invariant ops == AsDeletes(FixedRemovals(seen, deletes[..i]))
      {
        hide L.StateOf, PutAll, L.StorageKey, DeleteWrites, FixedRemovals, AsDeletes;
        NextDelete(seen, deletes, i);
        EffectiveValue(L.StateOf(db).storage, upserts, deletes[i]);
        var stored := StorageGet(deletes[i]);
        var effective := if deletes[i] in upserted then Some(upserted[deletes[i]]) else stored;
        if effective.Some? {
          batch := batch + [Del(L.StorageKey(deletes[i]))];
          ops := ops + [UndoDelete(deletes[i], effective.value)];
        }
      }
      assert deletes[..|deletes|] == deletes;
    }

    method CollectUpserts(upserts: seq<(Slot, Bytes)>) returns (m: map<Slot, Bytes>)
      ensures m == PutAll(map[], upserts)
    {
      m := map[];
      for i := 0 to |upserts|
        invariant m == PutAll(map[], upserts[..i])
      {
        assert upserts[..i + 1][..i] == upserts[..i];
        m := m[upserts[i].0 := upserts[i].1];
      }
      assert upserts[..|upserts|] == upserts;
    }

    method BuildBatch(c: BlockCommit, root: Bytes32) returns (batch: seq<Write>)
      ensures batch == CommitBatch(L.StateOf(db), c, root)
    {
      hide L.StateOf, UndoCodec.Encode;
      var deploys, deployOps := BatchDeploys(c.deploys);
      var upserts, setOps := BatchUpserts(c.upserts);
      var deletes, deleteOps := BatchDeletes(c.upserts, c.deletes);
      var journal := UndoCodec.EncodeUndo(deployOps + setOps + deleteOps);
      batch := deploys + upserts + deletes;
      batch := batch + [Put(L.UndoKey(c.height), journal)];
      batch := batch + (MetaWrites(c.height, c.blockHash) + RecordWrites(c.height, c.blockHash, root)
        + [Put(L.META_ROOT, root)]);
    }

    /** Whatever the database holds, the post-commit root check never fails. */
    method CommitBlock(c: BlockCommit) returns (r: CommitResult)
      modifies this
      ensures db == AfterCommit(RootOf(hashes), old(db), c) && chain == old(chain) + [c]
      ensures r == Committed(Root(hashes, Apply(L.StateOf(old(db)), c)))
      ensures old(Valid()) && Extends(old(chain), c) && Bounded(c) ==>
        Valid() && r == Committed(Root(hashes, Replay(chain)))
    {
      hide View, CommitBatch, Root, Apply, Bounded, L.Read, TablesHold;
      var w := LoadState(db);
      var root := ProjectedRoot(hashes, w, c);
      var batch := BuildBatch(c, root);
      CommitViews(RootOf(hashes), db, c);
      if Holds(RootOf(hashes), db, chain) && Extends(chain, c) && Bounded(c) {
        CommitValid(RootOf(hashes), db, chain, c);
      }
      db := WriteBatch(db, batch);
      chain := chain + [c];
      ReadState(db);
      var applied := LoadState(db);
      var appliedRoot := ComputeRoot(hashes, applied);
      if appliedRoot != root {
        return RootMismatch;
      }
      return Committed(root);
    }

    method RollbackTo(target: BlockHeight)
      modifies this
      ensures db == AfterRollback(old(db), target) && chain == Survivors(old(chain), target)
      ensures old(Valid()) ==> Valid()
    {
      hide RollbackHeight, L.Read, TablesHold;
      ghost var db0 := db;
      var recorded := HeightHistory(db);
      HistoryHeights(db, target);
      var heights := SortDescending(set r | r in recorded && r.height > target :: r.height);
      assert heights[0..] == heights;
      for i := 0 to |heights|
        invariant unchanged(this`chain)
        invariant RollbackHeights(db, heights[i..]) == RollbackHeights(db0, heights)
      {
        assert heights[i..][0] == heights[i] && heights[i..][1..] == heights[i + 1..];
        UndoHeight(heights[i]);
      }
      RestoreMetadata();
      if Holds(RootOf(hashes), db0, chain) {
        RollbackHolds(RootOf(hashes), db0, chain, target);
      }
      chain := Survivors(chain, target);
    }

    method UndoHeight(h: BlockHeight)
      modifies this`db
      ensures db == RollbackHeight(old(db), h)
    {
      hide UndoWrite, WriteBatch, UndoCodec.Decode;
      if L.UndoKey(h) in db {
        var ops := UndoCodec.DecodeUndo(db[L.UndoKey(h)]);
        var batch: seq<Write> := [];
        assert ops[..|ops|] == ops;
        for i := |ops| downto 0
          invariant unchanged(this`db)
          invariant batch + UndoWrites(ops[..i]) == UndoWrites(ops)
        {
          assert ops[..i + 1][..i] == ops[..i];
          batch := batch + [UndoWrite(ops[i])];
        }
        assert UndoWrites(ops[..0]) == [];
        assert batch == UndoWrites(ops);
        db := WriteBatch(db, batch + [Del(L.HeightKey(h))] + [Del(L.UndoKey(h))]);
      }
    }

    /** Three separate puts, or three separate deletes. */
    method RestoreMetadata()
      modifies this`db
      ensures db == WriteBatch(old(db), RestoreMeta(HistoryOf(old(db))))
    {
      var history := HeightHistory(db);
      ghost var ws := RestoreMeta(history);
      ThreeWrites(db, ws);
      if history == [] {
        db := db - {L.META_HEIGHT};
        db := db - {L.META_HASH};
        db := db - {L.META_ROOT};
      } else {
        var last := history[|history| - 1];
        db := db[L.META_HEIGHT := Be4(last.height)];
        db := db[L.META_HASH := last.blockHash];
        db := db[L.META_ROOT := last.root];
      }
    }
  }

  lemma HistoryHeights(db: Db, target: BlockHeight)
    ensures (set r | r in HistoryOf(db) && r.height > target :: r.height) == HeightsAbove(db, target)
  {
    forall h ensures (exists r :: r in HistoryOf(db) && r.height == h) <==> h in L.Read(db).records {
      HistoryMember(View(L.Heights(), db), h);
    }
  }

  lemma HistoryMember(records: map<BlockHeight, (Bytes32, Bytes32)>, h: BlockHeight)
    ensures (exists r :: r in HistoryIn(records) && r.height == h) <==> h in records
  {
    var keys := Ascending(records.Keys);
    AscendingLists(records.Keys);
    hide Ascending;
    assert |HistoryIn(records)| == |keys|;
    assert forall i :: 0 <= i < |keys| ==> HistoryIn(records)[i].height == keys[i];
    hide HistoryIn;
    assert h in keys <==> h in ToSet(keys);
    if h in records {
      var i :| 0 <= i < |keys| && keys[i] == h;
      assert HistoryIn(records)[i].height == h;
    }
    if r :| r in HistoryIn(records) && r.height == h {
      var i :| 0 <= i < |keys| && HistoryIn(records)[i] == r;
      assert keys[i] in ToSet(keys);
    }
  }
}
