/** One flat byte-keyed map with atomic batches, and typed tables laid out in it by key prefix. */
module KeyValue {
  import opened Options
  import opened ByteStrings
  import MapUndo

  type Db = map<Bytes, Bytes>

  datatype Write = Put(key: Bytes, value: Bytes) | Del(key: Bytes)

  function WriteOne(db: Db, w: Write): Db {
    match w
    case Put(k, v) => db[k := v]
    case Del(k) => db - {k}
  }

  /** Later writes of a batch override earlier ones. */
  function WriteBatch(db: Db, batch: seq<Write>): Db {
    if batch == [] then db else WriteOne(WriteBatch(db, batch[..|batch| - 1]), batch[|batch| - 1])
  }

  lemma {:induction false} WriteBatchConcat(db: Db, a: seq<Write>, b: seq<Write>)
    ensures WriteBatch(db, a + b) == WriteBatch(WriteBatch(db, a), b)
  {
    if b == [] {
      assert a + b == a;
    } else {
      assert (a + b)[..|a + b| - 1] == a + b[..|b| - 1];
      WriteBatchConcat(db, a, b[..|b| - 1]);
    }
  }

  lemma WriteBatchOne(db: Db, w: Write)
    ensures WriteBatch(db, [w]) == WriteOne(db, w)
  {
  }

  /** What the last write of a batch to a key left there, if any write names it. */
  function LastWrite(batch: seq<Write>, k: Bytes): Option<Option<Bytes>> {
    if batch == [] then None else
      var w := batch[|batch| - 1];
      if w.key == k then Some(if w.Put? then Some(w.value) else None) else LastWrite(batch[..|batch| - 1], k)
  }

  lemma {:induction false} BatchAt(db: Db, batch: seq<Write>, k: Bytes)
    ensures Lookup(WriteBatch(db, batch), k) ==
      if LastWrite(batch, k).Some? then LastWrite(batch, k).value else Lookup(db, k)
  {
    if batch != [] {
      BatchAt(db, batch[..|batch| - 1], k);
    }
  }

  lemma {:induction false} PrefixWrites(batch: seq<Write>, i: nat, k: Bytes)
    requires i <= |batch| && LastWrite(batch[..i], k).Some?
    ensures LastWrite(batch, k).Some?
  {
    if i < |batch| {
      assert batch[..|batch| - 1][..i] == batch[..i];
      PrefixWrites(batch[..|batch| - 1], i, k);
    } else {
      assert batch[..i] == batch;
    }
  }

  /** Redoing a whole batch over any prefix of it is doing it once. */
  lemma RedoPrefix(db: Db, batch: seq<Write>, i: nat)
    requires i <= |batch|
    ensures WriteBatch(WriteBatch(db, batch[..i]), batch) == WriteBatch(db, batch)
  {
    hide LastWrite, WriteBatch;
    var once, twice := WriteBatch(db, batch), WriteBatch(WriteBatch(db, batch[..i]), batch);
    forall k ensures Lookup(twice, k) == Lookup(once, k) {
      BatchAt(db, batch, k);
      BatchAt(WriteBatch(db, batch[..i]), batch, k);
      BatchAt(db, batch[..i], k);
      if LastWrite(batch[..i], k).Some? {
        PrefixWrites(batch, i, k);
      }
    }
    MapUndo.MapExtensionality(twice, once);
  }

  /** A typed table: how its keys are laid out and which values count as entries. */
  datatype Table<!K(!new), !V> = Table(key: K -> Bytes, unkey: Bytes -> Option<K>, decode: Bytes -> Option<V>) {
    /** `unkey` inverts `key` and rejects everything else. */
    ghost predicate Keyed() {
      && (forall x :: unkey(key(x)) == Some(x))
      && (forall k :: unkey(k).Some? ==> key(unkey(k).value) == k)
    }
  }

  function EntryAt<K(!new), V>(t: Table<K, V>, db: Db, x: K): Option<V> {
    if t.key(x) in db then t.decode(db[t.key(x)]) else None
  }

  ghost function View<K(!new), V>(t: Table<K, V>, db: Db): map<K, V> {
    map x | x in (set k | k in db && t.unkey(k).Some? :: t.unkey(k).value) && EntryAt(t, db, x).Some? ::
      EntryAt(t, db, x).value
  }

  lemma ViewAt<K(!new), V>(t: Table<K, V>, db: Db, x: K)
    requires t.Keyed()
    ensures Lookup(View(t, db), x) == EntryAt(t, db, x)
  {
  }

  lemma SameEntriesSameView<K(!new), V>(t: Table<K, V>, a: Db, b: Db)
    requires t.Keyed() && forall x :: EntryAt(t, a, x) == EntryAt(t, b, x)
    ensures View(t, a) == View(t, b)
  {
  }

  /** Writing an entry of a table. */
  lemma PutEntry<K(!new), V>(t: Table<K, V>, db: Db, x: K, value: Bytes)
    requires t.Keyed() && t.decode(value).Some?
    ensures View(t, db[t.key(x) := value]) == View(t, db)[x := t.decode(value).value]
  {
  }

  lemma DeleteEntry<K(!new), V>(t: Table<K, V>, db: Db, x: K)
    requires t.Keyed()
    ensures View(t, db - {t.key(x)}) == View(t, db) - {x}
  {
  }

  /** No write of the batch touches a key of the table. */
  ghost predicate Foreign<K(!new), V>(t: Table<K, V>, batch: seq<Write>) {
    forall i :: 0 <= i < |batch| ==> t.unkey(batch[i].key).None?
  }

  lemma {:induction false} ForeignWritesKeepView<K(!new), V>(t: Table<K, V>, db: Db, batch: seq<Write>)
    requires t.Keyed() && Foreign(t, batch)
    ensures View(t, WriteBatch(db, batch)) == View(t, db)
  {
    if batch != [] {
      var front, w := batch[..|batch| - 1], batch[|batch| - 1];
      ForeignWritesKeepView(t, db, front);
      var before := WriteBatch(db, front);
      forall x ensures EntryAt(t, WriteOne(before, w), x) == EntryAt(t, before, x) {
        assert t.unkey(t.key(x)) == Some(x) && t.unkey(w.key).None?;
      }
      SameEntriesSameView(t, WriteOne(before, w), before);
    }
  }
}
