/** `RocksState` refines `MemoryState`: the same operations, the same observations, over every run. */
module Refinement {
  import opened ByteStrings
  import opened World
  import opened History
  import opened KeyValue
  import M = MemoryStore
  import R = RocksRollback
  import RC = RocksCommit
  import L = RocksLayout

  datatype Op = Commit(c: BlockCommit) | Rollback(target: BlockHeight)

  /** The commits left after a run. */
  function Surviving(ops: seq<Op>): seq<BlockCommit> {
    if ops == [] then [] else
      var before := Surviving(ops[..|ops| - 1]);
      match ops[|ops| - 1]
      case Commit(c) => before + [c]
      case Rollback(target) => Survivors(before, target)
  }

  /** Callers commit increasing heights within the wire-format bounds; rollbacks may come at any point. */
  predicate Admissible(ops: seq<Op>) {
    ops == [] || (
      && Admissible(ops[..|ops| - 1])
      && (ops[|ops| - 1].Commit? ==>
            Extends(Surviving(ops[..|ops| - 1]), ops[|ops| - 1].c) && R.Bounded(ops[|ops| - 1].c)))
  }

  ghost function RunMemory(root: State -> Bytes32, ops: seq<Op>): M.Contents {
    if ops == [] then M.FRESH else
      var before := RunMemory(root, ops[..|ops| - 1]);
      match ops[|ops| - 1]
      case Commit(c) => M.AfterCommit(root, before, c)
      case Rollback(target) => M.AfterRollback(before, target)
  }

  ghost function RunRocks(root: State -> Bytes32, ops: seq<Op>): Db {
    if ops == [] then map[] else
      var before := RunRocks(root, ops[..|ops| - 1]);
      match ops[|ops| - 1]
      case Commit(c) => RC.AfterCommit(root, before, c)
      case Rollback(target) => R.AfterRollback(before, target)
  }

  lemma {:induction false} MemoryRunHolds(root: State -> Bytes32, ops: seq<Op>)
    requires Admissible(ops)
    ensures M.Holds(root, RunMemory(root, ops), Surviving(ops))
  {
    if ops != [] {
      var front := ops[..|ops| - 1];
      MemoryRunHolds(root, front);
      match ops[|ops| - 1] {
        case Commit(c) => M.CommitHolds(root, RunMemory(root, front), Surviving(front), c);
        case Rollback(target) => M.RollbackHolds(root, RunMemory(root, front), Surviving(front), target);
      }
    }
  }

  lemma EmptyHolds(root: State -> Bytes32)
    ensures R.Holds(root, map[], [])
  {
  }

  lemma {:induction false} RocksRunHolds(root: State -> Bytes32, ops: seq<Op>)
    requires Admissible(ops)
    ensures R.Holds(root, RunRocks(root, ops), Surviving(ops))
  {
    hide R.TablesHold, MetadataOf, Records, L.MetaOf;
    if ops == [] {
      EmptyHolds(root);
    } else {
      var front := ops[..|ops| - 1];
      RocksRunHolds(root, front);
      match ops[|ops| - 1] {
        case Commit(c) => R.CommitHolds(root, RunRocks(root, front), Surviving(front), c);
        case Rollback(target) => R.RollbackHolds(root, RunRocks(root, front), Surviving(front), target);
      }
    }
  }

  /** What a client of `StateStore` can see. */
  datatype Observation = Observation(state: State, meta: Metadata, history: seq<HeightRecord>)

  ghost function ObserveMemory(s: M.Contents): Observation {
    Observation(s.state, s.meta, s.history)
  }

  ghost function ObserveRocks(db: Db): Observation {
    Observation(L.StateOf(db), L.MetaOf(db), R.HistoryOf(db))
  }

  /** A clean replay of a chain from the empty state. */
  function Replayed(root: State -> Bytes32, chain: seq<BlockCommit>): Observation {
    Observation(Replay(chain), MetadataOf(Records(root, chain)), Records(root, chain))
  }

  lemma HoldsObserved(root: State -> Bytes32, db: Db, chain: seq<BlockCommit>)
    requires R.Holds(root, db, chain)
    ensures ObserveRocks(db) == Replayed(root, chain)
  {
    R.HistoryIsRecords(root, chain);
  }

  /**
    * After any admissible run the two stores agree on contracts, storage, metadata, history and
    * roots, and both equal a clean replay of exactly the commits that survive.
    */
  lemma RocksRefinesMemory(root: State -> Bytes32, ops: seq<Op>)
    requires Admissible(ops)
    ensures ObserveRocks(RunRocks(root, ops)) == ObserveMemory(RunMemory(root, ops)) == Replayed(root, Surviving(ops))
  {
    MemoryRunHolds(root, ops);
    RocksRunHolds(root, ops);
    HoldsObserved(root, RunRocks(root, ops), Surviving(ops));
  }

  /** The undo journals always cover exactly the recorded heights. */
  lemma JournalsMatchHistory(root: State -> Bytes32, ops: seq<Op>, h: BlockHeight)
    requires Admissible(ops)
    ensures h in RunMemory(root, ops).undo <==> R.HasJournal(RunRocks(root, ops), h)
    ensures h in RunMemory(root, ops).undo <==> exists r :: r in RunMemory(root, ops).history && r.height == h
  {
    var chain := Surviving(ops);
    MemoryRunHolds(root, ops);
    RocksRunHolds(root, ops);
    R.JournalView(RunRocks(root, ops), h);
    ByHeightDomain(MemoryUndo, chain, h);
    ByHeightDomain(R.JournalBy(), chain, h);
    RecordHeights(root, chain, h);
  }

  lemma {:induction false} ByHeightDomain<V>(f: (State, BlockCommit) -> V, chain: seq<BlockCommit>, h: BlockHeight)
    ensures h in ByHeight(f, chain) <==> exists i :: 0 <= i < |chain| && chain[i].height == h
  {
    if chain != [] {
      var front, last := chain[..|chain| - 1], chain[|chain| - 1];
      ByHeightDomain(f, front, h);
      if h in ByHeight(f, front) {
        var i :| 0 <= i < |front| && front[i].height == h;
        assert chain[i].height == h;
      }
      assert chain[|chain| - 1].height == h || h in ByHeight(f, front) <==> h in ByHeight(f, chain);
      if exists i :: 0 <= i < |chain| && chain[i].height == h {
        var i :| 0 <= i < |chain| && chain[i].height == h;
        assert i < |front| ==> front[i].height == h;
      }
    }
  }

  lemma RecordHeights(root: State -> Bytes32, chain: seq<BlockCommit>, h: BlockHeight)
    ensures (exists r :: r in Records(root, chain) && r.height == h) <==>
      exists i :: 0 <= i < |chain| && chain[i].height == h
  {
    var rs := Records(root, chain);
    if exists r :: r in rs && r.height == h {
      var r :| r in rs && r.height == h;
      var i :| 0 <= i < |rs| && rs[i] == r;
      assert chain[i].height == h;
    }
    if i :| 0 <= i < |chain| && chain[i].height == h {
      assert rs[i] in rs && rs[i].height == h;
    }
  }
}
