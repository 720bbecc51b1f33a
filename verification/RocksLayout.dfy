/** How `RocksState` lays out contracts, storage, history, journals and metadata in one key space. */
module RocksLayout {
  import opened Options
  import opened ByteStrings
  import opened World
  import opened KeyValue

  const C: Byte := 0x63
  const S: Byte := 0x73
  const H: Byte := 0x68
  const U: Byte := 0x75
  const M: Byte := 0x6d

  /** "m:h", "m:b" and "m:r". */
  const META_HEIGHT: Bytes := [0x6d, 0x3a, 0x68]
  const META_HASH: Bytes := [0x6d, 0x3a, 0x62]
  const META_ROOT: Bytes := [0x6d, 0x3a, 0x72]

  function ContractKey(id: Bytes32): Bytes {
    [C] + id
  }

  function ContractUnkey(k: Bytes): Option<Bytes32> {
    if |k| == 33 && k[0] == C then Some(k[1..]) else None
  }

  function ContractValue(c: Contract): Bytes {
    c.codeHash + c.wasm
  }

  function ContractDecode(v: Bytes): Option<Contract> {
    if |v| < 32 then None else Some(Contract(v[..32], v[32..]))
  }

  function StorageKey(slot: Slot): Bytes {
    [S] + slot.contract + slot.key
  }

  function StorageUnkey(k: Bytes): Option<Slot> {
    if |k| >= 33 && k[0] == S then Some(Slot(k[1..33], k[33..])) else None
  }

  function RawDecode(v: Bytes): Option<Bytes> {
    Some(v)
  }

  function HeightKey(h: BlockHeight): Bytes {
    [H] + Be4(h)
  }

  function UndoKey(h: BlockHeight): Bytes {
    [U] + Be4(h)
  }

  function HeightUnkey(k: Bytes): Option<BlockHeight> {
    if |k| == 5 && k[0] == H then ParseHeight(k[1..]) else None
  }

  function UndoUnkey(k: Bytes): Option<BlockHeight> {
    if |k| == 5 && k[0] == U then ParseHeight(k[1..]) else None
  }

  function ParseHeight(b: Bytes): Option<BlockHeight> {
    if |b| != 4 then None else
      Be4Inverse(b);
      Some(FromBe4(b))
  }

  function RecordDecode(v: Bytes): Option<(Bytes32, Bytes32)> {
    if |v| == 64 then Some((v[..32], v[32..])) else None
  }

  function Contracts(): Table<Bytes32, Contract> {
    Table(ContractKey, ContractUnkey, ContractDecode)
  }

  function Storage(): Table<Slot, Bytes> {
    Table(StorageKey, StorageUnkey, RawDecode)
  }

  function Heights(): Table<BlockHeight, (Bytes32, Bytes32)> {
    Table(HeightKey, HeightUnkey, RecordDecode)
  }

  function Journals(): Table<BlockHeight, Bytes> {
    Table(UndoKey, UndoUnkey, RawDecode)
  }

  lemma ContractsKeyed()
    ensures Contracts().Keyed()
  {
  }

  lemma StorageKeyed()
    ensures Storage().Keyed()
  {
  }

  lemma ParseHeightInverts(h: BlockHeight, b: Bytes)
    ensures ParseHeight(Be4(h)) == Some(h)
    ensures ParseHeight(b).Some? ==> Be4(ParseHeight(b).value) == b
  {
    Be4RoundTrip(h);
    if |b| == 4 {
      Be4Inverse(b);
    }
  }

  lemma HeightsKeyed()
    ensures Heights().Keyed() && Journals().Keyed()
  {
    forall h: BlockHeight ensures HeightUnkey(HeightKey(h)) == Some(h) && UndoUnkey(UndoKey(h)) == Some(h) {
      assert HeightKey(h)[1..] == Be4(h) && UndoKey(h)[1..] == Be4(h);
      ParseHeightInverts(h, []);
    }
    forall k: Bytes | HeightUnkey(k).Some? ensures HeightKey(HeightUnkey(k).value) == k {
      ParseHeightInverts(0, k[1..]);
      assert k == [k[0]] + k[1..];
    }
    forall k: Bytes | UndoUnkey(k).Some? ensures UndoKey(UndoUnkey(k).value) == k {
      ParseHeightInverts(0, k[1..]);
      assert k == [k[0]] + k[1..];
    }
  }

  /** Everything a node can read back from the key space. */
  datatype Views = Views(
    state: State,
    records: map<BlockHeight, (Bytes32, Bytes32)>,
    journals: map<BlockHeight, Bytes>,
    meta: Metadata)

  ghost function StateOf(db: Db): State {
    State(View(Contracts(), db), View(Storage(), db))
  }

  function Decode32(v: Option<Bytes>): Option<Bytes32> {
    if v.Some? && |v.value| == 32 then Some(v.value) else None
  }

  function MetaOf(db: Db): Metadata {
    Metadata(
      var v := Lookup(db, META_HEIGHT); if v.Some? then ParseHeight(v.value) else None,
      Decode32(Lookup(db, META_HASH)),
      Decode32(Lookup(db, META_ROOT)))
  }

  ghost function Read(db: Db): Views {
    Views(StateOf(db), View(Heights(), db), View(Journals(), db), MetaOf(db))
  }

  // ---- Prefixes keep the tables apart ----

  predicate Tagged(batch: seq<Write>, tag: Byte) {
    forall i :: 0 <= i < |batch| ==> |batch[i].key| > 0 && batch[i].key[0] == tag
  }

  lemma {:induction false} MetaKept(db: Db, batch: seq<Write>, tag: Byte)
    requires Tagged(batch, tag) && tag != M
    ensures MetaOf(WriteBatch(db, batch)) == MetaOf(db)
  {
    if batch != [] {
      MetaKept(db, batch[..|batch| - 1], tag);
    }
  }

  lemma TaggedWrites(db: Db, batch: seq<Write>, tag: Byte)
    requires Tagged(batch, tag)
    ensures tag != C ==> View(Contracts(), WriteBatch(db, batch)) == View(Contracts(), db)
    ensures tag != S ==> View(Storage(), WriteBatch(db, batch)) == View(Storage(), db)
    ensures tag != H ==> View(Heights(), WriteBatch(db, batch)) == View(Heights(), db)
    ensures tag != U ==> View(Journals(), WriteBatch(db, batch)) == View(Journals(), db)
    ensures tag != M ==> MetaOf(WriteBatch(db, batch)) == MetaOf(db)
  {
    ContractsKeyed();
    StorageKeyed();
    HeightsKeyed();
    if tag != C { ForeignWritesKeepView(Contracts(), db, batch); }
    if tag != S { ForeignWritesKeepView(Storage(), db, batch); }
    if tag != H { ForeignWritesKeepView(Heights(), db, batch); }
    if tag != U { ForeignWritesKeepView(Journals(), db, batch); }
    if tag != M { MetaKept(db, batch, tag); }
  }
}
