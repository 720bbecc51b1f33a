/** A tick over the flat database that stops between two durable writes of a rollback, and the tick after it. */
module InterruptedTick {
  import opened Options
  import opened ByteStrings
  import opened Heights
  import opened World
  import opened History
  import opened KeyValue
  import opened RocksCommit
  import opened RocksRollback
  import opened CrashRollback
  import opened Indexer
  import opened ChainViews
  import BlockBudgets
  import Refinement
  import L = RocksLayout

  // ---- A completed tick on one view, as what it writes ----

  /** The reorg check passes: nothing is indexed, or the stored hash is the view's at the stored height. */
  ghost predicate Settled(s: Db, b: View) {
    var m := L.MetaOf(s);
    m.height.None? || m.blockHash.None? || (m.height.value < |b| && b[m.height.value].hash == m.blockHash.value)
  }

  /** One turn of `handle_reorg`: the hashes differ, and the stored block is rolled back. */
  ghost predicate ReorgStep(s: Db, b: View, s': Db) {
    var m := L.MetaOf(s);
    && m.height.Some? && m.blockHash.Some? && m.height.value < |b| && b[m.height.value].hash != m.blockHash.value
    && s' == AfterRollback(s, WrappingPred(m.height.value))
  }

  ghost predicate ReorgPath(path: seq<Db>, b: View) {
    && path != [] && Settled(path[|path| - 1], b)
    && forall i :: 0 <= i < |path| - 1 ==> ReorgStep(path[i], b, path[i + 1])
  }

  ghost function NextOf(s: Db): nat {
    match L.MetaOf(s).height
    case None => 1
    case Some(h) => h + 1
  }

  ghost predicate Behind(s: Db, act: BlockHeight, tip: BlockHeight) {
    act > 1 && match L.MetaOf(s).height
      case None => true
      case Some(h) => h < Min(act - 1, tip)
  }

  /** The fast-forward below activation. */
  ghost function Forwarded(root: State -> Bytes32, s: Db, act: BlockHeight, b: View, tip: BlockHeight): Db
    requires Behind(s, act, tip) ==> Min(act - 1, tip) < |b|
  {
    if Behind(s, act, tip) then AfterCommit(root, s, EmptyCommit(Min(act - 1, tip), b[Min(act - 1, tip)].hash)) else s
  }

  /** The catch-up loop up to height `e`. */
  ghost function Indexed(root: State -> Bytes32, node: Node, act: BlockHeight, s: Db, b: View, e: nat): Db
    requires e < |b|
    decreases e
  {
    if e < NextOf(s) then s else
      var before := Indexed(root, node, act, s, b, e - 1);
      AfterCommit(root, before, CommitAt(node, act, L.StateOf(before), b, e))
  }

  /**
    * A completed tick from `s` to `s'`: the reorg turns of `path`, the fast-forward, the blocks up to `e`
    * (the tip, unless stopped).
    */
  ghost predicate CompletedTick(root: State -> Bytes32, node: Node, act: BlockHeight, s: Db, b: View,
      tip: BlockHeight, path: seq<Db>, e: nat, s': Db) {
    && path != [] && path[0] == s && ReorgPath(path, b) && e <= tip && e < |b|
    && var settled := path[|path| - 1];
    && (Behind(settled, act, tip) ==> Min(act - 1, tip) < |b|)
    && s' == Indexed(root, node, act, Forwarded(root, settled, act, b, tip), b, e)
  }

  // ---- Databases that hold a history ----

  /** The metadata names the last block of the history; nothing is asked of the advisory root. */
  ghost predicate NamesLast(s: Db, chain: seq<BlockCommit>) {
    && L.MetaOf(s).height == IndexedHeight(chain)
    && (chain != [] ==> L.MetaOf(s).blockHash == Some(chain[|chain| - 1].blockHash))
  }

  ghost predicate Keeps(root: State -> Bytes32, node: Node, act: BlockHeight, s: Db, chain: seq<BlockCommit>,
      view: View) {
    TablesHold(root, s, chain) && NamesLast(s, chain) && Follows(node, act, chain, view)
  }

  /** The database holds a history of the view: state, records, journals and position. */
  ghost predicate Sound(root: State -> Bytes32, node: Node, act: BlockHeight, s: Db, view: View) {
    exists chain :: Keeps(root, node, act, s, chain, view)
  }

  /** A sound database holds the clean replay of the view up to its indexed height. */
  lemma SoundIsClean(root: State -> Bytes32, node: Node, act: BlockHeight, s: Db, view: View)
    requires Sound(root, node, act, s, view)
    ensures match L.MetaOf(s).height
      case None => L.StateOf(s) == EMPTY
      case Some(h) => h < |view| && L.StateOf(s) == CleanState(node, act, view, h)
  {
    var chain :| Keeps(root, node, act, s, chain, view);
    hide L.StateOf, L.MetaOf, Follows, CleanState;
    ReadState(s);
    EmptyReplay();
    if chain != [] {
      FollowsReplaysClean(node, act, chain, view);
    }
  }

  lemma HoldsNames(root: State -> Bytes32, s: Db, chain: seq<BlockCommit>)
    requires Holds(root, s, chain)
    ensures TablesHold(root, s, chain) && NamesLast(s, chain)
  {
    hide TablesHold, L.MetaOf;
  }

  // ---- Each part of a tick keeps a history of the view ----

  lemma CommitKeeps(root: State -> Bytes32, node: Node, act: BlockHeight, s: Db, chain: seq<BlockCommit>, b: View,
      h: BlockHeight)
    requires TablesHold(root, s, chain) && Follows(node, act, chain, b) && h < |b| && (h == 0 ==> act > 0)
    requires chain == [] || chain[|chain| - 1].height < h
    requires h > FirstHeight(act) ==> chain != [] && chain[|chain| - 1].height + 1 == h
    ensures var c := CommitAt(node, act, L.StateOf(s), b, h);
      Keeps(root, node, act, AfterCommit(root, s, c), chain + [c], b)
  {
    var c := CommitAt(node, act, L.StateOf(s), b, h);
    assert L.StateOf(s) == Replay(chain) by { ReadState(s); hide L.StateOf; }
    hide L.StateOf, Follows, AfterCommit;
    CommitNamesBlock(node, act, Replay(chain), b, h);
    BlockBudgets.CommitsAreBounded(node, Some(act), Replay(chain), BlockAt(b, h), c);
    hide CommitAt, TablesHold;
    FollowsExtends(node, act, chain, b, h);
    CommitHolds(root, s, chain, c);
    HoldsNames(root, AfterCommit(root, s, c), chain + [c]);
  }

  lemma ForwardKeeps(root: State -> Bytes32, node: Node, act: BlockHeight, s: Db, chain: seq<BlockCommit>, b: View,
      tip: BlockHeight)
    returns (chain': seq<BlockCommit>)
    requires Behind(s, act, tip) ==> Min(act - 1, tip) < |b|
    requires TablesHold(root, s, chain) && Follows(node, act, chain, b)
    requires Behind(s, act, tip) || NamesLast(s, chain)
    requires chain == [] || (L.MetaOf(s).height.Some? && chain[|chain| - 1].height <= L.MetaOf(s).height.value)
    ensures Keeps(root, node, act, Forwarded(root, s, act, b, tip), chain', b)
  {
    chain' := chain;
    if Behind(s, act, tip) {
      var target := Min(act - 1, tip);
      hide TablesHold, Follows, L.MetaOf, AfterCommit, NamesLast;
      CommitKeeps(root, node, act, s, chain, b, target);
      assert CommitAt(node, act, L.StateOf(s), b, target) == EmptyCommit(target, b[target].hash);
      chain' := chain + [EmptyCommit(target, b[target].hash)];
    }
  }

  lemma {:induction false} IndexKeeps(root: State -> Bytes32, node: Node, act: BlockHeight, s: Db,
      chain: seq<BlockCommit>, b: View, e: nat)
    returns (chain': seq<BlockCommit>)
    requires e < |b| && Keeps(root, node, act, s, chain, b)
    ensures Keeps(root, node, act, Indexed(root, node, act, s, b, e), chain', b)
    ensures L.MetaOf(Indexed(root, node, act, s, b, e)).height == if e < NextOf(s) then L.MetaOf(s).height else Some(e)
    decreases e
  {
    hide TablesHold, Follows, L.MetaOf, AfterCommit, CommitAt;
    chain' := chain;
    if e >= NextOf(s) {
      var before := Indexed(root, node, act, s, b, e - 1);
      var front := IndexKeeps(root, node, act, s, chain, b, e - 1);
      CommitKeeps(root, node, act, before, front, b, e);
      chain' := front + [CommitAt(node, act, L.StateOf(before), b, e)];
      CommitNamesBlock(node, act, L.StateOf(before), b, e);
    }
  }

  lemma RollbackKeeps(root: State -> Bytes32, node: Node, act: BlockHeight, s: Db, chain: seq<BlockCommit>, a: View,
      target: BlockHeight)
    requires TablesHold(root, s, chain) && Follows(node, act, chain, a)
    ensures Keeps(root, node, act, AfterRollback(s, target), Survivors(chain, target), a)
  {
    SurvivorsArePrefix(chain, target);
    var left := Survivors(chain, target);
    assert chain[..|left|] == left;
    FollowsPrefix(node, act, chain, a, |left|);
    RollbackHolds(root, s, chain, target);
    HoldsNames(root, AfterRollback(s, target), left);
  }

  /** The reorg turns lead from a history of the old view to one of the new. */
  lemma {:induction false} ReorgKeeps(root: State -> Bytes32, node: Node, act: BlockHeight, path: seq<Db>,
      chain: seq<BlockCommit>, a: View, b: View) returns (chain': seq<BlockCommit>)
    requires ReorgPath(path, b) && Keeps(root, node, act, path[0], chain, a) && Linked(a, b)
    ensures Keeps(root, node, act, path[|path| - 1], chain', b)
    decreases |path|
  {
    if |path| == 1 {
      assert path[0] == path[|path| - 1];
      assert Agrees(chain, b);
      FollowsSwitch(node, act, chain, a, b);
      chain' := chain;
    } else {
      hide TablesHold, Follows, Linked, L.MetaOf, AfterRollback, NamesLast;
      assert ReorgStep(path[0], b, path[1]);
      var target := WrappingPred(L.MetaOf(path[0]).height.value);
      RollbackKeeps(root, node, act, path[0], chain, a, target);
      PathTail(path, b);
      chain' := ReorgKeeps(root, node, act, path[1..], Survivors(chain, target), a, b);
    }
  }

  lemma PathTail(path: seq<Db>, b: View)
    requires ReorgPath(path, b) && |path| > 1
    ensures ReorgPath(path[1..], b) && path[1..][0] == path[1] && path[1..][|path| - 2] == path[|path| - 1]
  {
    hide Settled, ReorgStep;
  }

  /** From any database that keeps a history of a linked view, a completed tick leaves a sound one. */
  lemma TickKeeps(root: State -> Bytes32, node: Node, act: BlockHeight, s: Db, chain: seq<BlockCommit>, a: View,
      b: View, tip: BlockHeight, path: seq<Db>, e: nat, s': Db)
    requires Keeps(root, node, act, s, chain, a) && Linked(a, b)
    requires CompletedTick(root, node, act, s, b, tip, path, e, s')
    ensures Sound(root, node, act, s', b)
  {
    hide Keeps, ReorgPath, Linked, Forwarded, Indexed, Behind;
    var settled := path[|path| - 1];
    var chain1 := ReorgKeeps(root, node, act, path, chain, a, b);
    FromSettled(root, node, act, settled, chain1, b, tip, e);
  }

  lemma FromSettled(root: State -> Bytes32, node: Node, act: BlockHeight, s: Db, chain: seq<BlockCommit>, b: View,
      tip: BlockHeight, e: nat)
    requires Keeps(root, node, act, s, chain, b) && e < |b| && (Behind(s, act, tip) ==> Min(act - 1, tip) < |b|)
    ensures Sound(root, node, act, Indexed(root, node, act, Forwarded(root, s, act, b, tip), b, e), b)
  {
    hide TablesHold, Follows, Forwarded, Indexed, Behind, L.MetaOf;
    var chain1 := ForwardKeeps(root, node, act, s, chain, b, tip);
    var chain2 := IndexKeeps(root, node, act, Forwarded(root, s, act, b, tip), chain1, b, e);
  }

  // ---- What an interrupted rollback of the last block leaves on disk ----

  lemma OneHeightAbove(root: State -> Bytes32, db: Db, chain: seq<BlockCommit>, target: BlockHeight)
    requires Holds(root, db, chain) && chain != [] && chain[|chain| - 1].height == target + 1
    ensures HeightsAbove(db, target) == {target + 1}
  {
    hide L.MetaOf, L.StateOf, KeyValue.View;
    var above := HeightsAbove(db, target);
    forall k: BlockHeight ensures k in above <==> k == target + 1 {
      Refinement.ByHeightDomain(RecordBy(root), chain, k);
    }
  }

  /** The database after the height batch and the first `k` metadata writes. */
  ghost function MetaState(db: Db, target: BlockHeight, k: nat): Db
    requires k <= 3
  {
    var rolled := RolledBack(db, target);
    WriteBatch(rolled, RestoreMeta(HistoryOf(rolled))[..k])
  }

  /**
    * How many metadata writes the `i`-th durable state has seen: the batch ends the loop, so its state is
    * listed twice.
    */
  function MetaCount(i: nat): nat {
    if i < 2 then 0 else i - 2
  }

  lemma StatesOfOne(db: Db, target: BlockHeight, h: BlockHeight, i: nat)
    requires HeightsAbove(db, target) == {h} && 1 <= i < 6
    ensures |DurableStates(db, target)| == 6
    ensures DurableStates(db, target)[0] == db && DurableStates(db, target)[i] == MetaState(db, target, MetaCount(i))
  {
    hide RollbackHeight, HistoryOf, RestoreMeta, HeightsAbove;
    DescendingOne(h);
    var rolled := RolledBack(db, target);
    var ws := RestoreMeta(HistoryOf(rolled));
    ThreeMetaWrites(HistoryOf(rolled));
    assert [h][1..] == [];
    assert RollbackHeights(RollbackHeight(db, h), []) == RollbackHeight(db, h);
    assert RollbackHeights(db, [h]) == RollbackHeights(RollbackHeight(db, h), [h][1..]);
    assert rolled == RollbackHeight(db, h);
    assert LoopStates(rolled, []) == [rolled];
    assert LoopStates(db, [h]) == [db] + [rolled];
    assert ws[..0] == [];
    assert WriteBatch(rolled, ws[..0]) == rolled;
  }

  lemma DescendingOne(h: BlockHeight)
    ensures Descending({h}) == [h]
  {
    assert {h} - {h} == {};
    assert Descending({}) == [];
  }

  lemma MetaWritten(d: Db, history: seq<HeightRecord>, k: nat)
    requires k <= 3
    ensures var m, full := L.MetaOf(WriteBatch(d, RestoreMeta(history)[..k])), MetadataOf(history);
      && m.height == (if k >= 1 then full.height else L.MetaOf(d).height)
      && m.blockHash == (if k >= 2 then full.blockHash else L.MetaOf(d).blockHash)
  {
    var ws := RestoreMeta(history);
    assert ws[..0] == [] && ws[..1] == [ws[0]] && ws[..2] == [ws[0]] + [ws[1]]
      && ws[..3] == [ws[0]] + [ws[1]] + [ws[2]];
    WriteBatchConcat(d, [ws[0]] + [ws[1]], [ws[2]]);
    WriteBatchConcat(d, [ws[0]], [ws[1]]);
    WriteBatchOne(d, ws[0]);
    WriteBatchOne(WriteOne(d, ws[0]), ws[1]);
    WriteBatchOne(WriteOne(WriteOne(d, ws[0]), ws[1]), ws[2]);
    if history != [] {
      L.ParseHeightInverts(history[|history| - 1].height, []);
    }
  }

  /**
    * What is on disk from the height batch on: tables without the last block, metadata still to be written
    * from `k` on.
    */
  ghost predicate Interrupted(root: State -> Bytes32, s: Db, front: seq<BlockCommit>, last: BlockCommit, k: nat) {
    && TablesHold(root, s, front) && L.StateOf(s) == Replay(front) && last.height !in L.Read(s).records
    && L.MetaOf(s).height == (if k == 0 then Some(last.height) else IndexedHeight(front))
    && (k <= 1 ==> L.MetaOf(s).blockHash == Some(last.blockHash))
    && (k >= 2 ==> NamesLast(s, front))
  }

  /**
    * The six durable states of rolling back the last block. From the height batch on, all tables are as if
    * the block had never been committed; until the first metadata write the database still says it was.
    */
  lemma InterruptedRollback(root: State -> Bytes32, db: Db, front: seq<BlockCommit>, last: BlockCommit,
      target: BlockHeight, i: nat)
    requires Holds(root, db, front + [last]) && last.height == target + 1 && i < 6
    ensures |DurableStates(db, target)| == 6 && DurableStates(db, target)[0] == db
    ensures i >= 1 ==> Interrupted(root, DurableStates(db, target)[i], front, last, MetaCount(i))
  {
    hide DurableStates, RolledBack, RestoreMeta, HeightsAbove, WriteBatch, HistoryOf, TablesHold, L.MetaOf, L.Read;
    OneHeightAbove(root, db, front + [last], target);
    StatesOfOne(db, target, last.height, if i == 0 then 1 else i);
    RolledBackHolds(root, db, front, last, target);
    if i >= 1 {
      MetaInterrupted(root, RolledBack(db, target), front, last, MetaCount(i));
    }
  }

  lemma RolledBackHolds(root: State -> Bytes32, db: Db, front: seq<BlockCommit>, last: BlockCommit, target: BlockHeight)
    requires Holds(root, db, front + [last]) && last.height == target + 1
    ensures var d := RolledBack(db, target);
      && TablesHold(root, d, front) && HistoryOf(d) == Records(root, front) && last.height !in L.Read(d).records
      && L.MetaOf(d).height == Some(last.height) && L.MetaOf(d).blockHash == Some(last.blockHash)
  {
    var chain, d := front + [last], RolledBack(db, target);
    assert chain[..|front|] == front && chain[|front|] == last;
    assert L.MetaOf(db).height == Some(last.height) && L.MetaOf(db).blockHash == Some(last.blockHash) by {
      hide TablesHold, L.MetaOf;
    }
    hide L.MetaOf, L.StateOf, L.Read, RolledBack, HistoryIn;
    ReadState(db);
    ReadState(d);
    DropLast(chain, target);
    RolledBackViews(root, db, chain, target);
    FrontOfTables(root, db, d, front, last);
  }

  lemma FrontOfTables(root: State -> Bytes32, db: Db, d: Db, front: seq<BlockCommit>, last: BlockCommit)
    requires IncreasingHeights(front + [last]) && AllBounded(front + [last])
    requires L.Read(d) == ViewsOf(root, front, L.MetaOf(d))
    ensures TablesHold(root, d, front) && HistoryOf(d) == Records(root, front) && last.height !in L.Read(d).records
  {
    var chain := front + [last];
    assert chain[|front|] == last && forall i :: 0 <= i < |front| ==> front[i] == chain[i];
    ReadRecords(d);
    hide L.MetaOf, L.StateOf, L.Read, HistoryIn, KeyValue.View, Bounded;
    HistoryIsRecords(root, front);
    Refinement.ByHeightDomain(RecordBy(root), front, last.height);
  }

  lemma ReadRecords(d: Db)
    ensures HistoryOf(d) == HistoryIn(L.Read(d).records)
  {
  }

  lemma MetaInterrupted(root: State -> Bytes32, d: Db, front: seq<BlockCommit>, last: BlockCommit, k: nat)
    requires TablesHold(root, d, front) && HistoryOf(d) == Records(root, front) && last.height !in L.Read(d).records
    requires L.MetaOf(d).height == Some(last.height) && L.MetaOf(d).blockHash == Some(last.blockHash) && k <= 3
    ensures Interrupted(root, WriteBatch(d, RestoreMeta(HistoryOf(d))[..k]), front, last, k)
  {
    hide L.MetaOf, L.Read, L.StateOf, RestoreMeta, WriteBatch, HistoryOf;
    ThreeMetaWrites(HistoryOf(d));
    var s := WriteBatch(d, RestoreMeta(HistoryOf(d))[..k]);
    MetaWritten(d, HistoryOf(d), k);
    MetaTables(d, HistoryOf(d), k);
    TablesMoveMeta(root, d, s, front);
    hide TablesHold;
  }

  lemma TablesMoveMeta(root: State -> Bytes32, d: Db, s: Db, front: seq<BlockCommit>)
    requires TablesHold(root, d, front) && L.Read(s) == L.Read(d).(meta := L.MetaOf(s))
    ensures TablesHold(root, s, front) && L.StateOf(s) == Replay(front) && L.Read(s).records == L.Read(d).records
  {
    ReadState(s);
    hide L.Read, L.StateOf, L.MetaOf;
  }

  lemma MetaTables(d: Db, history: seq<HeightRecord>, k: nat)
    requires k <= 3
    ensures var s := WriteBatch(d, RestoreMeta(history)[..k]);
      L.Read(s) == L.Read(d).(meta := L.MetaOf(s))
  {
    hide KeyValue.View, L.MetaOf;
    L.TaggedWrites(d, RestoreMeta(history)[..k], L.M);
  }

  // ---- The tick after it ----

  /** A block hash names one height, across the two views. */
  ghost predicate OneHeight(a: View, b: View) {
    forall i, j :: 0 <= i < |a| && 0 <= j < |b| && a[i].hash == b[j].hash ==> i == j
  }

  lemma RecordsOfChain(root: State -> Bytes32, s: Db, chain: seq<BlockCommit>, h: BlockHeight)
    requires TablesHold(root, s, chain)
    ensures h in L.Read(s).records <==> exists i :: 0 <= i < |chain| && chain[i].height == h
  {
    hide L.MetaOf, L.StateOf;
    Refinement.ByHeightDomain(RecordBy(root), chain, h);
  }

  /** A history of a view has a record of the height it names, and of the height below any other above activation. */
  lemma KeptRecords(root: State -> Bytes32, node: Node, act: BlockHeight, s: Db, chain: seq<BlockCommit>, b: View,
      h: BlockHeight)
    requires Keeps(root, node, act, s, chain, b)
    requires L.MetaOf(s).height == Some(h)
      || (h >= FirstHeight(act) && exists k: BlockHeight :: k == h + 1 && k in L.Read(s).records)
    ensures h in L.Read(s).records
  {
    hide TablesHold, L.Read, L.MetaOf;
    RecordsOfChain(root, s, chain, h);
    if L.MetaOf(s).height == Some(h) {
      assert chain[|chain| - 1].height == h;
    } else {
      var k: BlockHeight :| k == h + 1 && k in L.Read(s).records;
      RecordsOfChain(root, s, chain, k);
      var i :| 0 <= i < |chain| && chain[i].height == k;
      assert Placed(node, act, chain, b, i);
      assert chain[i - 1].height == h;
    }
  }

  lemma GapIsUnsound(root: State -> Bytes32, node: Node, act: BlockHeight, s: Db, b: View, h: BlockHeight)
    requires h !in L.Read(s).records
    requires L.MetaOf(s).height == Some(h)
      || (h >= FirstHeight(act) && exists k: BlockHeight :: k == h + 1 && k in L.Read(s).records)
    ensures !Sound(root, node, act, s, b)
  {
    hide Keeps, L.Read, L.MetaOf;
    if chain :| Keeps(root, node, act, s, chain, b) {
      KeptRecords(root, node, act, s, chain, b, h);
    }
  }

  lemma {:induction false} IndexedRecords(root: State -> Bytes32, node: Node, act: BlockHeight, s: Db, b: View, e: nat,
      h: BlockHeight)
    requires e < |b|
    ensures h in L.Read(Indexed(root, node, act, s, b, e)).records <==> h in L.Read(s).records || NextOf(s) <= h <= e
    decreases e
  {
    hide CommitAt, L.StateOf, L.MetaOf, AfterCommit, KeyValue.View;
    if e >= NextOf(s) {
      var before := Indexed(root, node, act, s, b, e - 1);
      IndexedRecords(root, node, act, s, b, e - 1, h);
      var c := CommitAt(node, act, L.StateOf(before), b, e);
      CommitNamesBlock(node, act, L.StateOf(before), b, e);
      CommitViews(root, before, c);
      ReadState(before);
    }
  }

  lemma {:induction false} IndexedFrom(root: State -> Bytes32, node: Node, act: BlockHeight, s: Db, b: View, m: nat,
      e: nat)
    requires NextOf(s) <= m <= e < |b|
    requires NextOf(Indexed(root, node, act, s, b, m)) == m + 1
    ensures Indexed(root, node, act, s, b, e) == Indexed(root, node, act, Indexed(root, node, act, s, b, m), b, e)
    decreases e
  {
    hide CommitAt, L.StateOf, L.MetaOf, AfterCommit, NextOf;
    if e > m {
      IndexedFrom(root, node, act, s, b, m, e - 1);
    }
  }

  lemma SettledEndsPath(path: seq<Db>, b: View)
    requires ReorgPath(path, b) && Settled(path[0], b)
    ensures |path| == 1
  {
    hide L.MetaOf, AfterRollback;
    assert |path| > 1 ==> ReorgStep(path[0], b, path[1]);
  }

  /** If the reorg check turns at least once, what it starts from matters only through the tables. */
  lemma TurnedKeeps(root: State -> Bytes32, node: Node, act: BlockHeight, s: Db, chain: seq<BlockCommit>, a: View,
      b: View, tip: BlockHeight, path: seq<Db>, e: nat, s': Db)
    requires TablesHold(root, s, chain) && Follows(node, act, chain, a) && Linked(a, b) && !Settled(s, b)
    requires CompletedTick(root, node, act, s, b, tip, path, e, s')
    ensures Sound(root, node, act, s', b)
  {
    hide TablesHold, Follows, Linked, L.MetaOf, AfterRollback, Keeps, Sound, Indexed, Forwarded, Behind;
    assert |path| > 1;
    assert ReorgStep(path[0], b, path[1]);
    var target := WrappingPred(L.MetaOf(s).height.value);
    RollbackKeeps(root, node, act, s, chain, a, target);
    PathTail(path, b);
    TickKeeps(root, node, act, path[1], Survivors(chain, target), a, b, tip, path[1..], e, s');
  }

  /** Height `h` is below activation, where a history may have gaps, and the tick commits a block above it. */
  predicate ClosesGap(act: BlockHeight, h: BlockHeight, tip: BlockHeight, e: nat) {
    h < FirstHeight(act) && (h < e || (h + 1 < act && h < tip))
  }

  /** The catch-up loop from a torn database whose block the view still has. */
  lemma TornIndexedIff(root: State -> Bytes32, node: Node, act: BlockHeight, s: Db, front: seq<BlockCommit>,
      last: BlockCommit, b: View, e: nat)
    requires TablesHold(root, s, front) && last.height !in L.Read(s).records && L.MetaOf(s).height == Some(last.height)
    requires Follows(node, act, front, b) && e < |b| && (front == [] || front[|front| - 1].height < last.height)
    ensures var s' := Indexed(root, node, act, s, b, e);
      Sound(root, node, act, s', b) <==> last.height < FirstHeight(act) && last.height < e
  {
    var h := last.height;
    var s' := Indexed(root, node, act, s, b, e);
    hide TablesHold, Follows, Sound, L.MetaOf, L.Read, AfterCommit, CommitAt;
    IndexedRecords(root, node, act, s, b, e, h);
    if e < NextOf(s) {
      GapIsUnsound(root, node, act, s', b, h);
    } else {
      var next: BlockHeight := h + 1;
      if h < FirstHeight(act) {
        TornBelowActivation(root, node, act, s, front, b, h, e);
      } else {
        IndexedRecords(root, node, act, s, b, e, next);
        GapIsUnsound(root, node, act, s', b, h);
      }
    }
  }

  lemma TornBelowActivation(root: State -> Bytes32, node: Node, act: BlockHeight, s: Db, front: seq<BlockCommit>,
      b: View, h: BlockHeight, e: nat)
    requires TablesHold(root, s, front) && L.MetaOf(s).height == Some(h) && h < FirstHeight(act)
    requires Follows(node, act, front, b) && h < e < |b| && (front == [] || front[|front| - 1].height < h)
    ensures var s' := Indexed(root, node, act, s, b, e);
      Sound(root, node, act, s', b)
  {
    hide TablesHold, Follows, L.MetaOf, AfterCommit, CommitAt;
    assert Indexed(root, node, act, s, b, h) == s;
    var s1 := Indexed(root, node, act, s, b, h + 1);
    CommitKeeps(root, node, act, s, front, b, h + 1);
    var c := CommitAt(node, act, L.StateOf(s), b, h + 1);
    CommitNamesBlock(node, act, L.StateOf(s), b, h + 1);
    IndexedFrom(root, node, act, s, b, h + 1, e);
    var chain := IndexKeeps(root, node, act, s1, front + [c], b, e);
  }

  lemma TornSettledIff(root: State -> Bytes32, node: Node, act: BlockHeight, s: Db, front: seq<BlockCommit>,
      last: BlockCommit, b: View, tip: BlockHeight, e: nat)
    requires TablesHold(root, s, front) && last.height !in L.Read(s).records && L.MetaOf(s).height == Some(last.height)
    requires Follows(node, act, front, b) && e < |b| && (front == [] || front[|front| - 1].height < last.height)
    requires Behind(s, act, tip) ==> Min(act - 1, tip) < |b|
    ensures var s' := Indexed(root, node, act, Forwarded(root, s, act, b, tip), b, e);
      Sound(root, node, act, s', b) <==> ClosesGap(act, last.height, tip, e)
  {
    hide TablesHold, Follows, L.MetaOf, L.Read, AfterCommit, CommitAt;
    if Behind(s, act, tip) {
      var target := Min(act - 1, tip);
      var s1 := Forwarded(root, s, act, b, tip);
      CommitKeeps(root, node, act, s, front, b, target);
      assert CommitAt(node, act, L.StateOf(s), b, target) == EmptyCommit(target, b[target].hash)
        by { BelowIsEmpty(node, act, L.StateOf(s), b, target); }
      var chain := IndexKeeps(root, node, act, s1, front + [EmptyCommit(target, b[target].hash)], b, e);
    } else {
      TornIndexedIff(root, node, act, s, front, last, b, e);
    }
  }

  lemma BelowIsEmpty(node: Node, act: BlockHeight, w: State, b: View, h: BlockHeight)
    requires h < |b| && h < act
    ensures CommitAt(node, act, w, b, h) == EmptyCommit(h, b[h].hash)
  {
  }

  /**
    * A tick over the flat database is interrupted at the `i`-th durable write of rolling back its last block,
    * and a later tick completes on a linked view `b`. It leaves a history of `b` unless the crash fell
    * between the height batch and the first metadata write and `b` still has the block that the metadata
    * names. Then the block's effects are lost, and the database holds no history of `b`, except that below
    * activation, where blocks have no effects, the next commit closes the gap.
    */
  lemma InterruptedTickIff(root: State -> Bytes32, node: Node, act: BlockHeight, db: Db, front: seq<BlockCommit>,
      last: BlockCommit, target: BlockHeight, i: nat, a: View, b: View, tip: BlockHeight, path: seq<Db>, e: nat, s': Db)
    requires Holds(root, db, front + [last]) && last.height == target + 1 && i < |DurableStates(db, target)|
    requires Follows(node, act, front + [last], a) && Linked(a, b) && OneHeight(a, b)
    requires CompletedTick(root, node, act, DurableStates(db, target)[i], b, tip, path, e, s')
    ensures Sound(root, node, act, s', b) <==>
      || !(1 <= i <= 2)
      || !Agrees(front + [last], b)
      || ClosesGap(act, last.height, tip, e)
  {
    hide Holds, TablesHold, DurableStates, Linked, OneHeight, L.MetaOf, L.Read, L.StateOf, CompletedTick, Sound;
    var chain := front + [last];
    InterruptedRollback(root, db, front, last, target, 0);
    InterruptedRollback(root, db, front, last, target, i);
    FrontFollows(node, act, front, last, a);
    if i == 0 {
      HoldsNames(root, db, chain);
      TickKeeps(root, node, act, db, chain, a, b, tip, path, e, s');
    } else if i <= 2 {
      TornTickIff(root, node, act, DurableStates(db, target)[i], front, last, a, b, tip, path, e, s');
    } else if i == 3 && front != [] {
      HalfNamedUnsettled(node, act, DurableStates(db, target)[i], front, last, a, b);
      TurnedKeeps(root, node, act, DurableStates(db, target)[i], front, a, b, tip, path, e, s');
    } else {
      TickKeeps(root, node, act, DurableStates(db, target)[i], front, a, b, tip, path, e, s');
    }
  }

  /**
    * The input that fails: any database at a tip `b` whose last block a rollback took back just before the
    * crash, the chain having switched back to `b` by the restart. The next tick completes, changes nothing
    * and leaves the tables without the block that the metadata names.
    */
  lemma TornTickWitness(root: State -> Bytes32, node: Node, act: BlockHeight, db: Db, front: seq<BlockCommit>,
      last: BlockCommit, target: BlockHeight, b: View)
    requires Holds(root, db, front + [last]) && last.height == target + 1 && Follows(node, act, front + [last], b)
    ensures |DurableStates(db, target)| == 6
    ensures var s := DurableStates(db, target)[1];
      && CompletedTick(root, node, act, s, b, last.height, [s], last.height, s)
      && L.StateOf(s) == Replay(front) && L.MetaOf(s).height == Some(last.height)
      && forall v: View :: !Sound(root, node, act, s, v)
  {
    hide Holds, TablesHold, DurableStates, L.MetaOf, L.Read, L.StateOf, Sound, Follows, AfterCommit, CommitAt;
    InterruptedRollback(root, db, front, last, target, 1);
    FrontFollows(node, act, front, last, b);
    forall v: View ensures !Sound(root, node, act, DurableStates(db, target)[1], v) {
      GapIsUnsound(root, node, act, DurableStates(db, target)[1], v, last.height);
    }
  }

  lemma FrontFollows(node: Node, act: BlockHeight, front: seq<BlockCommit>, last: BlockCommit, a: View)
    requires Follows(node, act, front + [last], a)
    ensures Follows(node, act, front, a) && (front == [] || front[|front| - 1].height < last.height)
    ensures last.height < |a| && a[last.height].hash == last.blockHash
  {
    var chain := front + [last];
    FollowsPrefix(node, act, chain, a, |front|);
    assert chain[..|front|] == front && chain[|front|] == last;
    assert front != [] ==> chain[|front| - 1] == front[|front| - 1];
    FollowsAgrees(node, act, chain, a);
    assert Placed(node, act, chain, a, |front|);
  }

  lemma TornTickIff(root: State -> Bytes32, node: Node, act: BlockHeight, s: Db, front: seq<BlockCommit>,
      last: BlockCommit, a: View, b: View, tip: BlockHeight, path: seq<Db>, e: nat, s': Db)
    requires Interrupted(root, s, front, last, 0) && Follows(node, act, front + [last], a) && Linked(a, b)
    requires CompletedTick(root, node, act, s, b, tip, path, e, s')
    ensures Sound(root, node, act, s', b) <==>
      !Agrees(front + [last], b) || ClosesGap(act, last.height, tip, e)
  {
    hide TablesHold, Linked, L.MetaOf, L.Read, L.StateOf, Sound, Follows, Forwarded, Indexed, Behind;
    FrontFollows(node, act, front, last, a);
    assert Settled(s, b) <==> Agrees(front + [last], b);
    if Settled(s, b) {
      SettledEndsPath(path, b);
      FollowsSwitch(node, act, front + [last], a, b);
      FrontFollows(node, act, front, last, b);
      TornSettledIff(root, node, act, s, front, last, b, tip, e);
    } else {
      TurnedKeeps(root, node, act, s, front, a, b, tip, path, e, s');
    }
  }

  /**
    * Between the first two metadata writes the stored height and hash belong to different blocks, which no
    * view confuses.
    */
  lemma HalfNamedUnsettled(node: Node, act: BlockHeight, s: Db, front: seq<BlockCommit>, last: BlockCommit, a: View,
      b: View)
    requires front != [] && Follows(node, act, front + [last], a) && OneHeight(a, b)
    requires L.MetaOf(s).height == IndexedHeight(front) && L.MetaOf(s).blockHash == Some(last.blockHash)
    ensures !Settled(s, b)
  {
    hide L.MetaOf, Follows;
    FrontFollows(node, act, front, last, a);
  }
}
