/** `MemoryState`: the in-memory store, its undo journal and rollback. */
module MemoryStore {
  import opened Options
  import opened ByteStrings
  import opened Heights
  import opened MapUndo
  import opened World
  import opened History
  import opened StateRoot

  // ---- The store as a value ----

  datatype Contents = Contents(
    state: State,
    meta: Metadata,
    history: seq<HeightRecord>,
    undo: map<BlockHeight, seq<UndoOp>>)

  const FRESH: Contents := Contents(EMPTY, Metadata(None, None, None), [], map[])

  function AfterCommit(root: State -> Bytes32, s: Contents, c: BlockCommit): Contents {
    var after := Apply(s.state, c);
    var record := HeightRecord(c.height, c.blockHash, root(after));
    Contents(after, MetadataOf([record]), s.history + [record], s.undo[c.height := MemoryUndo(s.state, c)])
  }

  function Retain(history: seq<HeightRecord>, target: BlockHeight): seq<HeightRecord> {
    if history == [] then [] else
      var last := history[|history| - 1];
      Retain(history[..|history| - 1], target) + (if last.height <= target then [last] else [])
  }

  /** One turn of the rollback loop. */
  function RollbackHeight(s: Contents, target: BlockHeight, height: nat): Contents {
    if height !in s.undo then s.(history := Retain(s.history, target)) else
      s.(state := UndoAll(s.state, s.undo[height]), undo := s.undo - {height}, history := Retain(s.history, target))
  }

  function RollbackHeights(s: Contents, target: BlockHeight, heights: seq<nat>): Contents
    decreases |heights|
  {
    if heights == [] then s else RollbackHeights(RollbackHeight(s, target, heights[0]), target, heights[1..])
  }

  ghost function HeightsAbove(s: Contents, target: BlockHeight): set<nat> {
    set h | h in s.undo && h > target
  }

  ghost function AfterRollback(s: Contents, target: BlockHeight): Contents {
    var s' := RollbackHeights(s, target, Descending(HeightsAbove(s, target)));
    s'.(meta := MetadataOf(s'.history))
  }

  // ---- What the store holds after the commits of `chain` survive ----

  ghost predicate Holds(root: State -> Bytes32, s: Contents, chain: seq<BlockCommit>) {
    && IncreasingHeights(chain)
    && s.state == Replay(chain)
    && s.history == Records(root, chain)
    && s.meta == MetadataOf(s.history)
    && s.undo == ByHeight(MemoryUndo, chain)
  }

  /** A commit above the last height extends the surviving chain. */
  lemma CommitHolds(root: State -> Bytes32, s: Contents, chain: seq<BlockCommit>, c: BlockCommit)
    requires Holds(root, s, chain) && Extends(chain, c)
    ensures Holds(root, AfterCommit(root, s, c), chain + [c])
  {
    ReplaySnoc(chain, c);
    RecordsSnoc(root, chain, c);
    ByHeightSnoc(MemoryUndo, chain, c);
  }

  lemma AboveLast(s: Contents, chain: seq<BlockCommit>, target: BlockHeight)
    requires IncreasingHeights(chain) && s.undo == ByHeight(MemoryUndo, chain)
    ensures chain == [] || chain[|chain| - 1].height <= target ==> HeightsAbove(s, target) == {}
    ensures chain != [] && chain[|chain| - 1].height > target ==>
      HeightsAbove(s, target) != {} && Max(HeightsAbove(s, target)) == chain[|chain| - 1].height
  {
    ByHeightKeys(MemoryUndo, chain);
    if chain != [] && chain[|chain| - 1].height > target {
      assert chain[|chain| - 1].height in HeightsAbove(s, target);
    }
  }

  /** Undoing heights from the top undoes exactly the commits above the target. */
  lemma {:induction false} UndoingHeightsHolds(s: Contents, chain: seq<BlockCommit>, target: BlockHeight)
    requires IncreasingHeights(chain) && s.state == Replay(chain) && s.undo == ByHeight(MemoryUndo, chain)
    ensures var s' := RollbackHeights(s, target, Descending(HeightsAbove(s, target)));
      s'.state == Replay(Survivors(chain, target)) && s'.undo == ByHeight(MemoryUndo, Survivors(chain, target))
    decreases |chain|
  {
    AboveLast(s, chain, target);
    if chain != [] && chain[|chain| - 1].height > target {
      var front, last := chain[..|chain| - 1], chain[|chain| - 1];
      var s1 := RollbackHeight(s, target, last.height);
      MemoryUndoInverts(Replay(front), last);
      ByHeightWithoutLast(MemoryUndo, chain);
      assert HeightsAbove(s1, target) == HeightsAbove(s, target) - {last.height};
      UndoingHeightsHolds(s1, front, target);
    }
  }

  lemma {:induction false} RetainBelow(history: seq<HeightRecord>, target: BlockHeight)
    requires forall i :: 0 <= i < |history| ==> history[i].height <= target
    ensures Retain(history, target) == history
  {
    if history != [] {
      RetainBelow(history[..|history| - 1], target);
    }
  }

  lemma {:induction false} RetainRecords(root: State -> Bytes32, chain: seq<BlockCommit>, target: BlockHeight)
    requires IncreasingHeights(chain)
    ensures Retain(Records(root, chain), target) == Records(root, Survivors(chain, target))
  {
    if chain == [] || chain[|chain| - 1].height <= target {
      RetainBelow(Records(root, chain), target);
    } else {
      RecordsPrefix(root, chain, |chain| - 1);
      RetainRecords(root, chain[..|chain| - 1], target);
    }
  }

  lemma {:induction false} RollbackHeightsHistory(s: Contents, target: BlockHeight, heights: seq<nat>)
    ensures RollbackHeights(s, target, heights).history ==
      if heights == [] then s.history else Retain(s.history, target)
    decreases |heights|
  {
    if heights != [] {
      RollbackHeightsHistory(RollbackHeight(s, target, heights[0]), target, heights[1..]);
      RetainIdempotent(s.history, target);
    }
  }

  lemma {:induction false} RetainIdempotent(history: seq<HeightRecord>, target: BlockHeight)
    ensures Retain(Retain(history, target), target) == Retain(history, target)
  {
    RetainedBelow(history, target);
    RetainBelow(Retain(history, target), target);
  }

  lemma {:induction false} RetainedBelow(history: seq<HeightRecord>, target: BlockHeight)
    ensures forall i :: 0 <= i < |Retain(history, target)| ==> Retain(history, target)[i].height <= target
  {
    if history != [] {
      RetainedBelow(history[..|history| - 1], target);
    }
  }

  /** Rollback keeps exactly the commits at or below the target. */
  lemma RollbackHolds(root: State -> Bytes32, s: Contents, chain: seq<BlockCommit>, target: BlockHeight)
    requires Holds(root, s, chain)
    ensures Holds(root, AfterRollback(s, target), Survivors(chain, target))
  {
    var heights := Descending(HeightsAbove(s, target));
    UndoingHeightsHolds(s, chain, target);
    RollbackHeightsHistory(s, target, heights);
    AboveLast(s, chain, target);
    RetainRecords(root, chain, target);
    SurvivorsArePrefix(chain, target);
  }

  // ---- The store as an object ----

  class MemoryState {
    const hashes: Hashes
    var contracts: map<Bytes32, Contract>
    var storage: map<Slot, Bytes>
    var metadata: Metadata
    var history: seq<HeightRecord>
    var undo: map<BlockHeight, seq<UndoOp>>
    /** The commits that have not been rolled back. */
    ghost var chain: seq<BlockCommit>

    function Current(): Contents
      reads this
    {
      Contents(State(contracts, storage), metadata, history, undo)
    }

    ghost predicate Valid()
      reads this
    {
      Holds(RootOf(hashes), Current(), chain)
    }

    constructor (h: Hashes)
      ensures Valid() && hashes == h && Current() == FRESH && chain == []
    {
      hashes := h;
      contracts, storage, metadata, history, undo := map[], map[], Metadata(None, None, None), [], map[];
      chain := [];
    }

    method CommitBlock(c: BlockCommit) returns (root: Bytes32)
      requires Valid() && Extends(chain, c)
      modifies this
      ensures Valid() && chain == old(chain) + [c]
      ensures Current() == AfterCommit(RootOf(hashes), old(Current()), c)
      ensures root == Root(hashes, Replay(chain))
    {
      var ops := WriteBlock(c);
      root := ComputeRoot(hashes, State(contracts, storage));
      metadata := Metadata(Some(c.height), Some(c.blockHash), Some(root));
      history := history + [HeightRecord(c.height, c.blockHash, root)];
      undo := undo[c.height := ops];
      CommitHolds(RootOf(hashes), old(Current()), chain, c);
      chain := chain + [c];
      ReplaySnoc(old(chain), c);
    }

    method WriteBlock(c: BlockCommit) returns (ops: seq<UndoOp>)
      modifies this`contracts, this`storage
      ensures State(contracts, storage) == Apply(old(State(contracts, storage)), c)
      ensures ops == MemoryUndo(old(State(contracts, storage)), c)
    {
      var deployPrevs := WriteDeploys(c.deploys);
      var sets := WriteUpserts(c.upserts);
      var deletes := WriteDeletes(c.deletes);
      ops := sets + deletes;
      for i := 0 to |c.deploys|
        invariant ops == sets + deletes + AsDeploys(deployPrevs[..i])
      {
        ops := ops + [UndoDeploy(deployPrevs[i].key, deployPrevs[i].prev)];
      }
      assert deployPrevs[..|deployPrevs|] == deployPrevs;
    }

    method WriteDeploys(deploys: seq<(Bytes32, Contract)>) returns (prevs: seq<Entry<Bytes32, Contract>>)
      modifies this`contracts
      ensures contracts == PutAll(old(contracts), deploys)
      ensures prevs == RunningPrevs(old(contracts), deploys) && |prevs| == |deploys|
    {
      prevs := [];
      for i := 0 to |deploys|
        invariant contracts == PutAll(old(contracts), deploys[..i])
        invariant prevs == RunningPrevs(old(contracts), deploys[..i]) && |prevs| == i
      {
        assert deploys[..i + 1][..i] == deploys[..i];
        prevs := prevs + [Entry(deploys[i].0, Lookup(contracts, deploys[i].0))];
        contracts := contracts[deploys[i].0 := deploys[i].1];
      }
      assert deploys[..|deploys|] == deploys;
    }

    method WriteUpserts(upserts: seq<(Slot, Bytes)>) returns (ops: seq<UndoOp>)
      modifies this`storage
      ensures storage == PutAll(old(storage), upserts)
      ensures ops == AsSets(RunningPrevs(old(storage), upserts))
    {
      ops := [];
      for i := 0 to |upserts|
        invariant storage == PutAll(old(storage), upserts[..i])
        invariant ops == AsSets(RunningPrevs(old(storage), upserts[..i]))
      {
        assert upserts[..i + 1][..i] == upserts[..i];
        ops := ops + [UndoSet(upserts[i].0, Lookup(storage, upserts[i].0))];
        storage := storage[upserts[i].0 := upserts[i].1];
      }
      assert upserts[..|upserts|] == upserts;
    }

    method WriteDeletes(deletes: seq<Slot>) returns (ops: seq<UndoOp>)
      modifies this`storage
      ensures storage == RemoveAll(old(storage), deletes)
      ensures ops == AsDeletes(RunningRemovals(old(storage), deletes))
    {
      ops := [];
      for i := 0 to |deletes|
        invariant storage == RemoveAll(old(storage), deletes[..i])
        invariant ops == AsDeletes(RunningRemovals(old(storage), deletes[..i]))
      {
        assert deletes[..i + 1][..i] == deletes[..i];
        if deletes[i] in storage {
          ops := ops + [UndoDelete(deletes[i], storage[deletes[i]])];
        }
        storage := storage - {deletes[i]};
      }
      assert deletes[..|deletes|] == deletes;
    }

    method RollbackTo(target: BlockHeight)
      requires Valid()
      modifies this
      ensures Valid() && chain == Survivors(old(chain), target)
      ensures Current() == AfterRollback(old(Current()), target)
    {
      hide RollbackHeight;
      var heights := SortDescending(set h | h in undo && h > target);
      ghost var s0 := Current();
      assert heights[0..] == heights;
      for i := 0 to |heights|
        invariant unchanged(this`chain)
        invariant RollbackHeights(Current(), target, heights[i..]) == RollbackHeights(s0, target, heights)
      {
        assert heights[i..][0] == heights[i] && heights[i..][1..] == heights[i + 1..];
        UndoHeight(target, heights[i]);
      }
      metadata := MetadataOf(history);
      RollbackHolds(RootOf(hashes), s0, chain, target);
      chain := Survivors(chain, target);
    }

    method UndoHeight(target: BlockHeight, height: nat)
      modifies this`contracts, this`storage, this`undo, this`history
      ensures Current() == RollbackHeight(old(Current()), target, height)
    {
      if height in undo {
        var ops := undo[height];
        undo := undo - {height};
        UndoOps(ops);
      }
      RetainUpTo(target);
    }

    /** The inner loop of rollback: walk a journal from its end. */
    method UndoOps(ops: seq<UndoOp>)
      modifies this`contracts, this`storage
      ensures State(contracts, storage) == UndoAll(old(State(contracts, storage)), ops)
    {
      ghost var s0 := State(contracts, storage);
      assert ops[..|ops|] == ops;
      for i := |ops| downto 0
        invariant UndoAll(State(contracts, storage), ops[..i]) == UndoAll(s0, ops)
      {
        assert ops[..i + 1][..i] == ops[..i];
        match ops[i] {
          case UndoSet(slot, Some(v)) => storage := storage[slot := v];
          case UndoSet(slot, None) => storage := storage - {slot};
          case UndoDelete(slot, v) => storage := storage[slot := v];
          case UndoDeploy(id, Some(c)) => contracts := contracts[id := c];
          case UndoDeploy(id, None) => contracts := contracts - {id};
        }
      }
      assert ops[..0] == [];
    }

    method RetainUpTo(target: BlockHeight)
      modifies this`history
      ensures history == Retain(old(history), target)
    {
      var kept: seq<HeightRecord> := [];
      for i := 0 to |history|
        invariant unchanged(this`history)
        invariant kept == Retain(history[..i], target)
      {
        assert history[..i + 1][..i] == history[..i];
        if history[i].height <= target {
          kept := kept + [history[i]];
        }
      }
      assert history[..|history|] == history;
      history := kept;
    }
  }
}
