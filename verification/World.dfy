/** Ordered writes to a map and the journals that take them back. */
module MapUndo {
  import opened Options

  datatype Entry<K, V> = Entry(key: K, prev: Option<V>)

  function PutAll<K, V>(m: map<K, V>, puts: seq<(K, V)>): map<K, V> {
    if puts == [] then m else
      var p := puts[|puts| - 1];
      PutAll(m, puts[..|puts| - 1])[p.0 := p.1]
  }

  function RemoveAll<K, V>(m: map<K, V>, ks: seq<K>): map<K, V> {
    if ks == [] then m else RemoveAll(m, ks[..|ks| - 1]) - {ks[|ks| - 1]}
  }

  /** The value the last put of `k` carries, if any put names `k`. */
  function LastPut<K(==), V>(puts: seq<(K, V)>, k: K): Option<V> {
    if puts == [] then None
    else if puts[|puts| - 1].0 == k then Some(puts[|puts| - 1].1)
    else LastPut(puts[..|puts| - 1], k)
  }

  lemma {:induction false} PutAllAt<K, V>(m: map<K, V>, puts: seq<(K, V)>, k: K)
    ensures Lookup(PutAll(m, puts), k) == if LastPut(puts, k).Some? then LastPut(puts, k) else Lookup(m, k)
  {
    if puts != [] {
      PutAllAt(m, puts[..|puts| - 1], k);
    }
  }

  lemma {:induction false} RemoveAllAt<K, V>(m: map<K, V>, ks: seq<K>, k: K)
    ensures Lookup(RemoveAll(m, ks), k) == if k in ks then None else Lookup(m, k)
  {
    if ks != [] {
      RemoveAllAt(m, ks[..|ks| - 1], k);
      assert ks == ks[..|ks| - 1] + [ks[|ks| - 1]];
    }
  }

  // ---- Journals. `Running` reads the map as it is being written, `Fixed` the map before the writes. ----

  function RunningPrevs<K, V>(m: map<K, V>, puts: seq<(K, V)>): seq<Entry<K, V>> {
    if puts == [] then [] else
      var front, k := puts[..|puts| - 1], puts[|puts| - 1].0;
      RunningPrevs(m, front) + [Entry(k, Lookup(PutAll(m, front), k))]
  }

  function FixedPrevs<K, V>(m: map<K, V>, puts: seq<(K, V)>): seq<Entry<K, V>> {
    if puts == [] then [] else
      var front, k := puts[..|puts| - 1], puts[|puts| - 1].0;
      FixedPrevs(m, front) + [Entry(k, Lookup(m, k))]
  }

  function RunningRemovals<K, V>(m: map<K, V>, ks: seq<K>): seq<Entry<K, V>> {
    if ks == [] then [] else
      var front, k := ks[..|ks| - 1], ks[|ks| - 1];
      RunningRemovals(m, front) + (if k in RemoveAll(m, front) then [Entry(k, Some(RemoveAll(m, front)[k]))] else [])
  }

  function FixedRemovals<K, V>(m: map<K, V>, ks: seq<K>): seq<Entry<K, V>> {
    if ks == [] then [] else
      var front, k := ks[..|ks| - 1], ks[|ks| - 1];
      FixedRemovals(m, front) + (if k in m then [Entry(k, Some(m[k]))] else [])
  }

  function RestoreOne<K, V>(m: map<K, V>, e: Entry<K, V>): map<K, V> {
    match e.prev
    case Some(v) => m[e.key := v]
    case None => m - {e.key}
  }

  /** Rollback walks a journal from its end. */
  function RestoreAll<K, V>(m: map<K, V>, es: seq<Entry<K, V>>): map<K, V>
    decreases |es|
  {
    if es == [] then m else RestoreAll(RestoreOne(m, es[|es| - 1]), es[..|es| - 1])
  }

  /** What the earliest entry for `k` remembers. */
  function FirstPrev<K(==), V>(es: seq<Entry<K, V>>, k: K): Option<Option<V>> {
    if es == [] then None else
      var front, e := es[..|es| - 1], es[|es| - 1];
      if FirstPrev(front, k).Some? then FirstPrev(front, k)
      else if e.key == k then Some(e.prev)
      else None
  }

  /** Walking backwards, the earliest entry for a key is the one that decides it. */
  lemma {:induction false} RestoreAllAt<K, V>(m: map<K, V>, es: seq<Entry<K, V>>, k: K)
    ensures Lookup(RestoreAll(m, es), k) == FirstPrev(es, k).GetOr(Lookup(m, k))
    decreases |es|
  {
    if es != [] {
      RestoreAllAt(RestoreOne(m, es[|es| - 1]), es[..|es| - 1], k);
    }
  }

  lemma {:induction false} FirstPrevConcat<K, V>(a: seq<Entry<K, V>>, b: seq<Entry<K, V>>, k: K)
    ensures FirstPrev(a + b, k) == if FirstPrev(a, k).Some? then FirstPrev(a, k) else FirstPrev(b, k)
  {
    if b == [] {
      assert a + b == a;
    } else {
      assert (a + b)[..|a + b| - 1] == a + b[..|b| - 1];
      FirstPrevConcat(a, b[..|b| - 1], k);
    }
  }

  lemma {:induction false} FirstPrevOfPuts<K, V>(m: map<K, V>, puts: seq<(K, V)>, k: K)
    ensures FirstPrev(RunningPrevs(m, puts), k) == if LastPut(puts, k).Some? then Some(Lookup(m, k)) else None
    ensures FirstPrev(FixedPrevs(m, puts), k) == if LastPut(puts, k).Some? then Some(Lookup(m, k)) else None
  {
    if puts != [] {
      var front := puts[..|puts| - 1];
      FirstPrevOfPuts(m, front, k);
      PutAllAt(m, front, k);
    }
  }

  lemma {:induction false} FirstPrevOfRemovals<K, V>(m: map<K, V>, ks: seq<K>, k: K)
    ensures FirstPrev(RunningRemovals(m, ks), k) == if k in ks && k in m then Some(Some(m[k])) else None
    ensures FirstPrev(FixedRemovals(m, ks), k) == if k in ks && k in m then Some(Some(m[k])) else None
  {
    if ks != [] {
      var front, last := ks[..|ks| - 1], ks[|ks| - 1];
      assert ks == front + [last];
      FirstPrevOfRemovals(m, front, k);
      RemoveAllAt(m, front, last);
      var empty: seq<Entry<K, V>> := [];
      assert RunningRemovals(m, front) + empty == RunningRemovals(m, front);
      assert FixedRemovals(m, front) + empty == FixedRemovals(m, front);
    }
  }

  lemma MapExtensionality<K, V>(a: map<K, V>, b: map<K, V>)
    requires forall k :: Lookup(a, k) == Lookup(b, k)
    ensures a == b
  {
    forall k ensures (k in a <==> k in b) && (k in a ==> a[k] == b[k]) {
      assert Lookup(a, k) == Lookup(b, k);
    }
  }

  /** Either journal takes back puts followed by removals, repeated keys included. */
  lemma RestoreUndoesWrites<K(!new), V>(m: map<K, V>, puts: seq<(K, V)>, ks: seq<K>)
    ensures var undo := RunningPrevs(m, puts) + RunningRemovals(PutAll(m, puts), ks);
      RestoreAll(RemoveAll(PutAll(m, puts), ks), undo) == m
    ensures RestoreAll(RemoveAll(PutAll(m, puts), ks), FixedPrevs(m, puts) + FixedRemovals(PutAll(m, puts), ks)) == m
  {
    var mid := PutAll(m, puts);
    var after := RemoveAll(mid, ks);
    var running := RunningPrevs(m, puts) + RunningRemovals(mid, ks);
    var fixed := FixedPrevs(m, puts) + FixedRemovals(mid, ks);
    forall k
      ensures Lookup(RestoreAll(after, running), k) == Lookup(m, k)
      ensures Lookup(RestoreAll(after, fixed), k) == Lookup(m, k)
    {
      RestoreAllAt(after, running, k);
      RestoreAllAt(after, fixed, k);
      FirstPrevConcat(RunningPrevs(m, puts), RunningRemovals(mid, ks), k);
      FirstPrevConcat(FixedPrevs(m, puts), FixedRemovals(mid, ks), k);
      FirstPrevOfPuts(m, puts, k);
      FirstPrevOfRemovals(mid, ks, k);
      PutAllAt(m, puts, k);
      RemoveAllAt(mid, ks, k);
    }
    MapExtensionality(RestoreAll(after, running), m);
    MapExtensionality(RestoreAll(after, fixed), m);
  }
}

/** Contract state, block commits and undo operations, as both stores see them. */
module World {
  import opened Options
  import opened ByteStrings
  import opened MapUndo

  datatype Contract = Contract(codeHash: Bytes32, wasm: Bytes)
  datatype Slot = Slot(contract: Bytes32, key: Bytes)
  datatype State = State(contracts: map<Bytes32, Contract>, storage: map<Slot, Bytes>)

  const EMPTY: State := State(map[], map[])

  /** All writes of one block. The three lists may repeat keys. */
  datatype BlockCommit = BlockCommit(
    height: BlockHeight,
    blockHash: Bytes32,
    deploys: seq<(Bytes32, Contract)>,
    upserts: seq<(Slot, Bytes)>,
    deletes: seq<Slot>)

  datatype UndoOp =
    | UndoSet(slot: Slot, prev: Option<Bytes>)
    | UndoDelete(slot: Slot, value: Bytes)
    | UndoDeploy(id: Bytes32, replaced: Option<Contract>)

  datatype HeightRecord = HeightRecord(height: BlockHeight, blockHash: Bytes32, root: Bytes32)
  datatype Metadata = Metadata(height: Option<BlockHeight>, blockHash: Option<Bytes32>, root: Option<Bytes32>)

  /** A commit applies its deploys, then all upserts, then all deletes. */
  function Apply(w: State, c: BlockCommit): State {
    State(PutAll(w.contracts, c.deploys), RemoveAll(PutAll(w.storage, c.upserts), c.deletes))
  }

  function Replay(chain: seq<BlockCommit>): State {
    if chain == [] then EMPTY else Apply(Replay(chain[..|chain| - 1]), chain[|chain| - 1])
  }

  /** A slot ends absent if deleted, else with its last upsert, else as it was. */
  lemma SlotAfterCommit(w: State, c: BlockCommit, slot: Slot)
    ensures Lookup(Apply(w, c).storage, slot) ==
      if slot in c.deletes then None
      else if LastPut(c.upserts, slot).Some? then LastPut(c.upserts, slot)
      else Lookup(w.storage, slot)
  {
    PutAllAt(w.storage, c.upserts, slot);
    RemoveAllAt(PutAll(w.storage, c.upserts), c.deletes, slot);
  }

  // ---- Undo operations as journal entries ----

  function UndoOne(w: State, op: UndoOp): State {
    match op
    case UndoSet(slot, Some(v)) => w.(storage := w.storage[slot := v])
    case UndoSet(slot, None) => w.(storage := w.storage - {slot})
    case UndoDelete(slot, v) => w.(storage := w.storage[slot := v])
    case UndoDeploy(id, Some(c)) => w.(contracts := w.contracts[id := c])
    case UndoDeploy(id, None) => w.(contracts := w.contracts - {id})
  }

  function UndoAll(w: State, ops: seq<UndoOp>): State
    decreases |ops|
  {
    if ops == [] then w else UndoAll(UndoOne(w, ops[|ops| - 1]), ops[..|ops| - 1])
  }

  function AsSets(es: seq<Entry<Slot, Bytes>>): seq<UndoOp> {
    seq(|es|, i requires 0 <= i < |es| => UndoSet(es[i].key, es[i].prev))
  }

  function AsDeletes(es: seq<Entry<Slot, Bytes>>): seq<UndoOp> {
    seq(|es|, i requires 0 <= i < |es| => UndoDelete(es[i].key, es[i].prev.GetOr([])))
  }

  function AsDeploys(es: seq<Entry<Bytes32, Contract>>): seq<UndoOp> {
    seq(|es|, i requires 0 <= i < |es| => UndoDeploy(es[i].key, es[i].prev))
  }

  /** MemoryState's journal: running previous values, deploys last. */
  function MemoryUndo(w: State, c: BlockCommit): seq<UndoOp> {
    AsSets(RunningPrevs(w.storage, c.upserts))
    + AsDeletes(RunningRemovals(PutAll(w.storage, c.upserts), c.deletes))
    + AsDeploys(RunningPrevs(w.contracts, c.deploys))
  }

  /** RocksState's journal: deploys first, previous values from before the batch. */
  function RocksUndo(w: State, c: BlockCommit): seq<UndoOp> {
    AsDeploys(FixedPrevs(w.contracts, c.deploys))
    + AsSets(FixedPrevs(w.storage, c.upserts))
    + AsDeletes(FixedRemovals(PutAll(w.storage, c.upserts), c.deletes))
  }

  lemma {:induction false} UndoConcat(w: State, a: seq<UndoOp>, b: seq<UndoOp>)
    ensures UndoAll(w, a + b) == UndoAll(UndoAll(w, b), a)
    decreases |b|
  {
    if b == [] {
      assert a + b == a;
    } else {
      assert (a + b)[..|a + b| - 1] == a + b[..|b| - 1];
      UndoConcat(UndoOne(w, b[|b| - 1]), a, b[..|b| - 1]);
    }
  }

  lemma {:induction false} UndoSets(w: State, es: seq<Entry<Slot, Bytes>>)
    ensures UndoAll(w, AsSets(es)) == w.(storage := RestoreAll(w.storage, es))
    decreases |es|
  {
    if es != [] {
      var front, e := es[..|es| - 1], es[|es| - 1];
      assert AsSets(es)[..|es| - 1] == AsSets(front);
      UndoSets(w.(storage := RestoreOne(w.storage, e)), front);
    }
  }

  lemma {:induction false} UndoDeletes(w: State, es: seq<Entry<Slot, Bytes>>)
    requires forall e :: e in es ==> e.prev.Some?
    ensures UndoAll(w, AsDeletes(es)) == w.(storage := RestoreAll(w.storage, es))
    decreases |es|
  {
    if es != [] {
      var front, e := es[..|es| - 1], es[|es| - 1];
      assert AsDeletes(es)[..|es| - 1] == AsDeletes(front);
      assert e in es;
      UndoDeletes(w.(storage := RestoreOne(w.storage, e)), front);
    }
  }

  lemma {:induction false} UndoDeploys(w: State, es: seq<Entry<Bytes32, Contract>>)
    ensures UndoAll(w, AsDeploys(es)) == w.(contracts := RestoreAll(w.contracts, es))
    decreases |es|
  {
    if es != [] {
      var front, e := es[..|es| - 1], es[|es| - 1];
      assert AsDeploys(es)[..|es| - 1] == AsDeploys(front);
      UndoDeploys(w.(contracts := RestoreOne(w.contracts, e)), front);
    }
  }

  lemma {:induction false} RemovalsRemember<K, V>(m: map<K, V>, ks: seq<K>)
    ensures forall e :: e in RunningRemovals(m, ks) ==> e.prev.Some?
    ensures forall e :: e in FixedRemovals(m, ks) ==> e.prev.Some?
  {
    if ks != [] {
      RemovalsRemember(m, ks[..|ks| - 1]);
    }
  }

  lemma {:induction false} RestoreConcat<K, V>(m: map<K, V>, a: seq<Entry<K, V>>, b: seq<Entry<K, V>>)
    ensures RestoreAll(m, a + b) == RestoreAll(RestoreAll(m, b), a)
    decreases |b|
  {
    if b == [] {
      assert a + b == a;
    } else {
      assert (a + b)[..|a + b| - 1] == a + b[..|b| - 1];
      RestoreConcat(RestoreOne(m, b[|b| - 1]), a, b[..|b| - 1]);
    }
  }

  /** Undoing MemoryState's journal takes a commit back exactly. */
  lemma MemoryUndoInverts(w: State, c: BlockCommit)
    ensures UndoAll(Apply(w, c), MemoryUndo(w, c)) == w
  {
    var mid := PutAll(w.storage, c.upserts);
    var sets, dels := RunningPrevs(w.storage, c.upserts), RunningRemovals(mid, c.deletes);
    var deps := RunningPrevs(w.contracts, c.deploys);
    var s3 := Apply(w, c);
    var s2 := s3.(contracts := RestoreAll(s3.contracts, deps));
    var s1 := s2.(storage := RestoreAll(s2.storage, dels));
    UndoConcat(s3, AsSets(sets) + AsDeletes(dels), AsDeploys(deps));
    UndoDeploys(s3, deps);
    UndoConcat(s2, AsSets(sets), AsDeletes(dels));
    RemovalsRemember(mid, c.deletes);
    UndoDeletes(s2, dels);
    UndoSets(s1, sets);
    RestoreConcat(s3.storage, sets, dels);
    RestoreUndoesWrites(w.storage, c.upserts, c.deletes);
    RestoreUndoesPuts(w.contracts, c.deploys);
  }

  /** So does undoing RocksState's different journal. */
  lemma RocksUndoInverts(w: State, c: BlockCommit)
    ensures UndoAll(Apply(w, c), RocksUndo(w, c)) == w
  {
    var mid := PutAll(w.storage, c.upserts);
    var sets, dels := FixedPrevs(w.storage, c.upserts), FixedRemovals(mid, c.deletes);
    var deps := FixedPrevs(w.contracts, c.deploys);
    var s3 := Apply(w, c);
    var s2 := s3.(storage := RestoreAll(s3.storage, dels));
    var s1 := s2.(storage := RestoreAll(s2.storage, sets));
    UndoConcat(s3, AsDeploys(deps) + AsSets(sets), AsDeletes(dels));
    RemovalsRemember(mid, c.deletes);
    UndoDeletes(s3, dels);
    UndoConcat(s2, AsDeploys(deps), AsSets(sets));
    UndoSets(s2, sets);
    UndoDeploys(s1, deps);
    RestoreConcat(s3.storage, sets, dels);
    RestoreUndoesWrites(w.storage, c.upserts, c.deletes);
    RestoreUndoesPuts(w.contracts, c.deploys);
  }

  lemma RestoreUndoesPuts<K(!new), V>(m: map<K, V>, puts: seq<(K, V)>)
    ensures RestoreAll(PutAll(m, puts), RunningPrevs(m, puts)) == m
    ensures RestoreAll(PutAll(m, puts), FixedPrevs(m, puts)) == m
  {
    RestoreUndoesWrites(m, puts, []);
    assert RunningPrevs(m, puts) + [] == RunningPrevs(m, puts);
    assert FixedPrevs(m, puts) + [] == FixedPrevs(m, puts);
  }

  // ---- Chains of commits ----

  predicate IncreasingHeights(chain: seq<BlockCommit>) {
    forall i, j :: 0 <= i < j < |chain| ==> chain[i].height < chain[j].height
  }

  /** The commits a rollback to `target` leaves in place. */
  function Survivors(chain: seq<BlockCommit>, target: int): seq<BlockCommit> {
    if chain == [] || chain[|chain| - 1].height <= target then chain
    else Survivors(chain[..|chain| - 1], target)
  }

  lemma {:induction false} SurvivorsArePrefix(chain: seq<BlockCommit>, target: int)
    requires IncreasingHeights(chain)
    ensures Survivors(chain, target) <= chain && IncreasingHeights(Survivors(chain, target))
    ensures forall c :: c in chain ==> (c in Survivors(chain, target) <==> c.height <= target)
  {
    if chain != [] {
      var front, last := chain[..|chain| - 1], chain[|chain| - 1];
      assert chain == front + [last];
      if last.height > target {
        SurvivorsArePrefix(front, target);
        assert last !in Survivors(front, target) by {
          assert forall c :: c in front ==> c.height < last.height;
        }
      }
    }
  }
}

/** History and metadata: one record per surviving commit. `root` is any function of the state. */
module History {
  import opened Options
  import opened ByteStrings
  import opened World

  function RecordOf(root: State -> Bytes32, chain: seq<BlockCommit>, i: nat): HeightRecord
    requires i < |chain|
  {
    HeightRecord(chain[i].height, chain[i].blockHash, root(Replay(chain[..i + 1])))
  }

  function Records(root: State -> Bytes32, chain: seq<BlockCommit>): (rs: seq<HeightRecord>)
    ensures |rs| == |chain|
  {
    seq(|chain|, i requires 0 <= i < |chain| => RecordOf(root, chain, i))
  }

  function MetadataOf(history: seq<HeightRecord>): Metadata {
    if history == [] then Metadata(None, None, None)
    else
      var last := history[|history| - 1];
      Metadata(Some(last.height), Some(last.blockHash), Some(last.root))
  }

  lemma RecordsPrefix(root: State -> Bytes32, chain: seq<BlockCommit>, n: nat)
    requires n <= |chain|
    ensures Records(root, chain[..n]) == Records(root, chain)[..n]
  {
    forall i | 0 <= i < n ensures Records(root, chain[..n])[i] == Records(root, chain)[i] {
      assert chain[..n][..i + 1] == chain[..i + 1];
    }
  }

  lemma RecordsSnoc(root: State -> Bytes32, chain: seq<BlockCommit>, c: BlockCommit)
    ensures Records(root, chain + [c]) ==
      Records(root, chain) + [HeightRecord(c.height, c.blockHash, root(Apply(Replay(chain), c)))]
  {
    var longer := chain + [c];
    assert longer[..|chain|] == chain && longer[..|longer|] == longer;
    RecordsPrefix(root, longer, |chain|);
  }

  /** One entry per commit of a chain, by height; `f` sees the state the commit applied to. */
  function ByHeight<V>(f: (State, BlockCommit) -> V, chain: seq<BlockCommit>): map<BlockHeight, V> {
    if chain == [] then map[] else
      var front, last := chain[..|chain| - 1], chain[|chain| - 1];
      ByHeight(f, front)[last.height := f(Replay(front), last)]
  }

  lemma {:induction false} ByHeightKeys<V>(f: (State, BlockCommit) -> V, chain: seq<BlockCommit>)
    requires IncreasingHeights(chain)
    ensures forall h :: h in ByHeight(f, chain) ==> chain != [] && h <= chain[|chain| - 1].height
  {
    if chain != [] {
      ByHeightKeys(f, chain[..|chain| - 1]);
    }
  }

  lemma ByHeightWithoutLast<V>(f: (State, BlockCommit) -> V, chain: seq<BlockCommit>)
    requires IncreasingHeights(chain) && chain != []
    ensures ByHeight(f, chain) - {chain[|chain| - 1].height} == ByHeight(f, chain[..|chain| - 1])
  {
    var front, last := chain[..|chain| - 1], chain[|chain| - 1];
    assert front != [] ==> front[|front| - 1].height < last.height;
    ByHeightKeys(f, front);
    PutThenRemove(ByHeight(f, front), last.height, f(Replay(front), last));
  }

  lemma ByHeightSnoc<V>(f: (State, BlockCommit) -> V, chain: seq<BlockCommit>, c: BlockCommit)
    ensures ByHeight(f, chain + [c]) == ByHeight(f, chain)[c.height := f(Replay(chain), c)]
  {
  }

  lemma PutThenRemove<K, V>(m: map<K, V>, k: K, v: V)
    requires k !in m
    ensures m[k := v] - {k} == m
  {
  }

  predicate Extends(chain: seq<BlockCommit>, c: BlockCommit) {
    chain == [] || chain[|chain| - 1].height < c.height
  }

  lemma ReplaySnoc(chain: seq<BlockCommit>, c: BlockCommit)
    ensures Replay(chain + [c]) == Apply(Replay(chain), c)
  {
  }
}
