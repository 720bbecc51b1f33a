/**
  * Runs of ticks over the flat database in which any tick may complete, fail, or be cut short between any
  * two durable writes, while the chain changes between ticks.
  */
module DiskRuns {
  import opened Options
  import opened ByteStrings
  import opened Heights
  import opened World
  import opened History
  import opened KeyValue
  import opened RocksCommit
  import opened RocksRollback
  import opened CrashRollback
  import opened Indexer
  import opened ChainViews
  import opened InterruptedTick
  import L = RocksLayout

  // ---- What may happen to the database in one step ----

  /** A turn of the reorg check, cut short after any of its durable writes or not at all. */
  ghost predicate Turns(s: Db, b: View, s': Db) {
    var m := L.MetaOf(s);
    && !Settled(s, b) && m.height.value < |b|
    && s' in DurableStates(s, WrappingPred(m.height.value))
  }

  /** The height that a tick past its reorg check commits next. */
  ghost function CommittedNext(s: Db, act: BlockHeight, tip: BlockHeight): nat {
    if Behind(s, act, tip) then Min(act - 1, tip) else NextOf(s)
  }

  /** One batch of the fast-forward or of the catch-up loop, after the reorg check has passed. */
  ghost predicate Commits(root: State -> Bytes32, node: Node, act: BlockHeight, s: Db, b: View, tip: BlockHeight,
      s': Db) {
    var h := CommittedNext(s, act, tip);
    && Settled(s, b) && h <= tip && h < |b|
    && s' == AfterCommit(root, s, CommitAt(node, act, L.StateOf(s), b, h))
  }

  ghost predicate DiskStep(root: State -> Bytes32, node: Node, act: BlockHeight, s: Db, b: View, tip: BlockHeight,
      s': Db) {
    s' == s || Turns(s, b, s') || Commits(root, node, act, s, b, tip, s')
  }

  /** What one tick sees. */
  datatype Seen = Seen(view: View, tip: BlockHeight)

  ghost predicate DiskRun(root: State -> Bytes32, node: Node, act: BlockHeight, states: seq<Db>, seen: seq<Seen>) {
    && |states| == |seen| + 1 && states[0] == map[]
    && forall i :: 0 <= i < |seen| ==> DiskStep(root, node, act, states[i], seen[i].view, seen[i].tip, states[i + 1])
  }

  /** All views have one genesis and link by hash, and a block hash names one height. */
  ghost predicate Family(seen: seq<Seen>) {
    forall i, j :: 0 <= i < |seen| && 0 <= j < |seen| ==>
      Linked(seen[i].view, seen[j].view) && OneHeight(seen[i].view, seen[j].view)
  }

  // ---- What is on disk at any point ----

  /** The metadata names a height without a record: a rollback was cut short between its batch and the metadata. */
  ghost predicate Torn(s: Db) {
    L.MetaOf(s).height.Some? && L.MetaOf(s).height.value !in L.Read(s).records
  }

  /**
    * The tables hold a history of `a`. The metadata names its last block, or was left behind by rollbacks
    * cut short: the hash is that of a block of `o` at `m`, and the height has no record or is below `m`.
    */
  ghost predicate OnDisk(root: State -> Bytes32, node: Node, act: BlockHeight, s: Db, chain: seq<BlockCommit>, a: View,
      o: View, m: nat) {
    && TablesHold(root, s, chain) && Follows(node, act, chain, a)
    && match L.MetaOf(s).height
       case None => chain == []
       case Some(h) =>
         && h <= m < |o| && L.MetaOf(s).blockHash == Some(o[m].hash)
         && (chain == [] || chain[|chain| - 1].height <= h)
         && (NamesLast(s, chain) || Torn(s) || h < m)
  }

  /** Where a check passes on an untorn database, the database holds a history of the view. */
  lemma SettledKeeps(root: State -> Bytes32, node: Node, act: BlockHeight, s: Db, chain: seq<BlockCommit>, a: View,
      o: View, m: nat, b: View)
    requires OnDisk(root, node, act, s, chain, a, o, m) && Settled(s, b) && !Torn(s)
    requires Linked(a, b) && OneHeight(o, b)
    ensures Keeps(root, node, act, s, chain, b)
  {
    hide L.MetaOf, TablesHold, Follows, Linked;
    FollowsSwitchNamed(node, act, s, chain, a, b);
  }

  lemma FollowsSwitchNamed(node: Node, act: BlockHeight, s: Db, chain: seq<BlockCommit>, a: View, b: View)
    requires Follows(node, act, chain, a) && Linked(a, b)
    ensures NamesLast(s, chain) && Settled(s, b) ==> Follows(node, act, chain, b)
  {
    hide L.MetaOf, Follows, Linked;
    if NamesLast(s, chain) && Settled(s, b) {
      FollowsSwitch(node, act, chain, a, b);
    }
  }

  lemma CommitOnDisk(root: State -> Bytes32, node: Node, act: BlockHeight, s: Db, chain: seq<BlockCommit>, b: View,
      tip: BlockHeight, s': Db) returns (c: BlockCommit)
    requires Keeps(root, node, act, s, chain, b) && Commits(root, node, act, s, b, tip, s')
    ensures OnDisk(root, node, act, s', chain + [c], b, b, c.height) && Keeps(root, node, act, s', chain + [c], b)
  {
    var h: BlockHeight := CommittedNext(s, act, tip);
    c := CommitAt(node, act, L.StateOf(s), b, h);
    hide L.MetaOf, L.StateOf, L.Read, TablesHold, Follows, AfterCommit, CommitAt, Settled;
    CommitKeeps(root, node, act, s, chain, b, h);
    CommitNamesBlock(node, act, L.StateOf(s), b, h);
    NewOnDisk(root, node, act, s', chain, c, b);
  }

  lemma NewOnDisk(root: State -> Bytes32, node: Node, act: BlockHeight, s: Db, chain: seq<BlockCommit>, c: BlockCommit,
      b: View)
    requires Keeps(root, node, act, s, chain + [c], b) && HasBlock(b, c.height, c.blockHash)
    ensures OnDisk(root, node, act, s, chain + [c], b, b, c.height)
  {
    hide L.MetaOf, L.Read, TablesHold, Follows;
  }

  // ---- Rolling back, cut short anywhere ----

  lemma NothingAbove(db: Db, target: BlockHeight, i: nat)
    requires HeightsAbove(db, target) == {} && i < |DurableStates(db, target)|
    ensures i == 0 ==> DurableStates(db, target)[i] == db
    ensures i >= 1 ==> i <= 4 && RolledBack(db, target) == db
    ensures i >= 1 ==> DurableStates(db, target)[i] == MetaState(db, target, i - 1)
  {
    hide HistoryOf, RestoreMeta, HeightsAbove;
    assert Descending({}) == [];
    ThreeMetaWrites(HistoryOf(RolledBack(db, target)));
  }

  lemma IncreasingBelow(chain: seq<BlockCommit>, h: int)
    requires IncreasingHeights(chain) && (chain == [] || chain[|chain| - 1].height <= h)
    ensures forall i :: 0 <= i < |chain| ==> chain[i].height <= h
    ensures forall i :: 0 <= i < |chain| - 1 ==> chain[i].height < h
  {
    forall i | 0 <= i < |chain| - 1 ensures chain[i].height < chain[|chain| - 1].height {
    }
  }

  lemma RecordedUpTo(root: State -> Bytes32, s: Db, chain: seq<BlockCommit>, h: BlockHeight)
    requires TablesHold(root, s, chain) && (chain == [] || chain[|chain| - 1].height <= h)
    ensures forall k :: k in L.Read(s).records ==> k <= h
    ensures h in L.Read(s).records <==> chain != [] && chain[|chain| - 1].height == h
  {
    assert IncreasingHeights(chain);
    hide TablesHold, L.Read;
    IncreasingBelow(chain, h);
    hide IncreasingHeights;
    forall k | k in L.Read(s).records ensures k <= h {
      RecordsOfChain(root, s, chain, k);
    }
    RecordsOfChain(root, s, chain, h);
  }

  /** The metadata height is the only one a turn can find above its target, and only if it is recorded. */
  lemma AboveTarget(root: State -> Bytes32, s: Db, chain: seq<BlockCommit>, h: BlockHeight)
    requires TablesHold(root, s, chain) && (chain == [] || chain[|chain| - 1].height <= h)
    ensures HeightsAbove(s, WrappingPred(h)) == if h > 0 && h in L.Read(s).records then {h} else {}
  {
    RecordedUpTo(root, s, chain, h);
    hide TablesHold, L.Read, HeightsAbove;
    forall k: BlockHeight
      ensures k in HeightsAbove(s, WrappingPred(h)) <==> k == h && h > 0 && h in L.Read(s).records
    {
      AboveMember(s, WrappingPred(h), k);
    }
  }

  lemma AboveMember(s: Db, target: BlockHeight, k: BlockHeight)
    ensures k in HeightsAbove(s, target) <==> k > target && k in L.Read(s).records
  {
  }

  // ---- A turn of the reorg check, cut short anywhere ----

  /** Tables of `front`, and metadata of which the first `k` writes have replaced what `s` had. */
  lemma MetaOnDisk(root: State -> Bytes32, node: Node, act: BlockHeight, d: Db, front: seq<BlockCommit>, a: View,
      o: View, m: nat, h: BlockHeight, k: nat)
    requires TablesHold(root, d, front) && HistoryOf(d) == Records(root, front) && Follows(node, act, front, a)
    requires L.MetaOf(d).height == Some(h) && h <= m < |o| && L.MetaOf(d).blockHash == Some(o[m].hash)
    requires front == [] || (front[|front| - 1].height <= h && front[|front| - 1].height < m)
    requires k <= 3 && (k == 0 ==> h !in L.Read(d).records || h < m) && |RestoreMeta(HistoryOf(d))| == 3
    requires front != [] ==> HasBlock(a, front[|front| - 1].height, front[|front| - 1].blockHash)
    ensures var s := WriteBatch(d, RestoreMeta(HistoryOf(d))[..k]);
      || OnDisk(root, node, act, s, front, a, o, m)
      || (front != [] && OnDisk(root, node, act, s, front, a, a, front[|front| - 1].height))
  {
    hide L.MetaOf, L.Read, L.StateOf, RestoreMeta, WriteBatch, HistoryOf, Follows;
    var s := WriteBatch(d, RestoreMeta(HistoryOf(d))[..k]);
    MetaWritten(d, HistoryOf(d), k);
    MetaTables(d, HistoryOf(d), k);
    TablesMoveMeta(root, d, s, front);
    hide TablesHold;
  }

  lemma TornFront(root: State -> Bytes32, node: Node, act: BlockHeight, s: Db, chain: seq<BlockCommit>, a: View,
      h: BlockHeight)
    requires TablesHold(root, s, chain) && Follows(node, act, chain, a)
    requires chain != [] && chain[|chain| - 1].height == h > 0
    ensures var d, front := RolledBack(s, WrappingPred(h)), chain[..|chain| - 1];
      && TablesHold(root, d, front) && HistoryOf(d) == Records(root, front) && Follows(node, act, front, a)
      && L.MetaOf(d) == L.MetaOf(s) && h !in L.Read(d).records
      && (front != [] ==> front[|front| - 1].height < h)
  {
    var d, front, last := RolledBack(s, WrappingPred(h)), chain[..|chain| - 1], chain[|chain| - 1];
    assert chain == front + [last];
    FollowsPrefix(node, act, chain, a, |front|);
    hide L.MetaOf, L.StateOf, L.Read, RolledBack, HistoryIn, Follows;
    ReadState(s);
    ReadState(d);
    DropLast(chain, WrappingPred(h));
    RolledBackViews(root, s, chain, WrappingPred(h));
    FrontOfTables(root, s, d, front, last);
  }

  /** The hash the metadata names is not that of a settled block, so it is of a greater height than any recorded. */
  lemma UnsettledAbove(root: State -> Bytes32, node: Node, act: BlockHeight, s: Db, chain: seq<BlockCommit>, a: View,
      o: View, m: nat, b: View)
    requires OnDisk(root, node, act, s, chain, a, o, m) && !Settled(s, b) && Linked(a, b)
    requires L.MetaOf(s).height == Some(0) || Torn(s)
    ensures L.MetaOf(s).height.value < m || Torn(s)
    ensures chain != [] ==> chain[|chain| - 1].height < m
  {
    var h := L.MetaOf(s).height.value;
    RecordedUpTo(root, s, chain, h);
    hide L.MetaOf, L.Read, TablesHold, Follows, Linked;
    if !Torn(s) && NamesLast(s, chain) && chain != [] {
      assert !Agrees(chain, b);
      GenesisAgrees(node, act, chain, a, b);
    }
  }

  lemma HistoryOfTables(root: State -> Bytes32, s: Db, chain: seq<BlockCommit>)
    requires TablesHold(root, s, chain)
    ensures HistoryOf(s) == Records(root, chain)
  {
    ReadRecords(s);
    hide L.MetaOf, L.StateOf, L.Read, HistoryIn, HistoryOf, KeyValue.View, Bounded;
    HistoryIsRecords(root, chain);
  }

  lemma NamedByView(node: Node, act: BlockHeight, chain: seq<BlockCommit>, a: View)
    requires Follows(node, act, chain, a)
    ensures chain != [] ==> HasBlock(a, chain[|chain| - 1].height, chain[|chain| - 1].blockHash)
  {
    FollowsAgrees(node, act, chain, a);
  }

  /** Wherever a turn is cut short, what it leaves on disk is again such a database. */
  lemma TurnOnDisk(root: State -> Bytes32, node: Node, act: BlockHeight, s: Db, chain: seq<BlockCommit>, a: View,
      o: View, m: nat, b: View, s': Db) returns (chain': seq<BlockCommit>, o': View, m': nat)
    requires OnDisk(root, node, act, s, chain, a, o, m) && Turns(s, b, s') && Linked(a, b)
    ensures OnDisk(root, node, act, s', chain', a, o', m') && (o' == o || o' == a)
  {
    hide TablesHold, Follows, Linked, L.MetaOf, L.Read, RolledBack, HistoryOf, RestoreMeta, HeightsAbove, DurableStates,
      WriteBatch;
    var h := L.MetaOf(s).height.value;
    var target := WrappingPred(h);
    var i :| 0 <= i < |DurableStates(s, target)| && DurableStates(s, target)[i] == s';
    RecordedUpTo(root, s, chain, h);
    AboveTarget(root, s, chain, h);
    chain', o', m' := chain, o, m;
    if h > 0 && h in L.Read(s).records {
      StatesOfOne(s, target, h, if 1 <= i < 6 then i else 1);
      if i > 0 {
        TornFront(root, node, act, s, chain, a, h);
        chain' := chain[..|chain| - 1];
        ThreeMetaWrites(HistoryOf(RolledBack(s, target)));
        NamedByView(node, act, chain', a);
        MetaOnDisk(root, node, act, RolledBack(s, target), chain', a, o, m, h, MetaCount(i));
      }
    } else {
      NothingAbove(s, target, i);
      if i > 0 {
        UnsettledAbove(root, node, act, s, chain, a, o, m, b);
        HistoryOfTables(root, s, chain);
        ThreeMetaWrites(HistoryOf(s));
        NamedByView(node, act, chain, a);
        MetaOnDisk(root, node, act, s, chain, a, o, m, h, i - 1);
      }
    }
    if !OnDisk(root, node, act, s', chain', a, o, m) {
      o', m' := a, chain'[|chain'| - 1].height;
    }
  }

  // ---- Whole runs ----

  /** No commit before step `n` was made on a torn database. */
  ghost predicate Guarded(root: State -> Bytes32, node: Node, act: BlockHeight, states: seq<Db>, seen: seq<Seen>,
      n: nat)
    requires n <= |seen| < |states|
  {
    forall i :: 0 <= i < n && Commits(root, node, act, states[i], seen[i].view, seen[i].tip, states[i + 1]) ==>
      !Torn(states[i])
  }

  lemma EmptyOnDisk(root: State -> Bytes32, node: Node, act: BlockHeight, a: View)
    ensures OnDisk(root, node, act, map[], [], a, a, 0)
  {
    var none: Db := map[];
    assert L.Read(none) == ViewsOf(root, [], L.MetaOf(none));
  }

  lemma {:induction false} RunOnDisk(root: State -> Bytes32, node: Node, act: BlockHeight, states: seq<Db>,
      seen: seq<Seen>, i: nat) returns (chain: seq<BlockCommit>, a: nat, o: nat, m: nat)
    requires DiskRun(root, node, act, states, seen) && Family(seen) && 0 < |seen| && i <= |seen|
    requires Guarded(root, node, act, states, seen, i)
    ensures a < |seen| && o < |seen| && OnDisk(root, node, act, states[i], chain, seen[a].view, seen[o].view, m)
  {
    hide OnDisk, Torn, Turns, Commits, Linked, OneHeight;
    if i == 0 {
      EmptyOnDisk(root, node, act, seen[0].view);
      chain, a, o, m := [], 0, 0, 0;
    } else {
      chain, a, o, m := RunOnDisk(root, node, act, states, seen, i - 1);
      var s, s', b, tip := states[i - 1], states[i], seen[i - 1].view, seen[i - 1].tip;
      if Commits(root, node, act, s, b, tip, s') {
        assert Settled(s, b) by { CommitsSettled(root, node, act, s, b, tip, s'); }
        SettledKeeps(root, node, act, s, chain, seen[a].view, seen[o].view, m, b);
        var c := CommitOnDisk(root, node, act, s, chain, b, tip, s');
        chain, a, o, m := chain + [c], i - 1, i - 1, c.height;
      } else if s' != s {
        var o': View;
        chain, o', m := TurnOnDisk(root, node, act, s, chain, seen[a].view, seen[o].view, m, b, s');
        o := if o' == seen[o].view then o else a;
      }
    }
  }

  lemma CommitsSettled(root: State -> Bytes32, node: Node, act: BlockHeight, s: Db, b: View, tip: BlockHeight, s': Db)
    requires Commits(root, node, act, s, b, tip, s')
    ensures Settled(s, b)
  {
  }

  /**
    * In every run, however often and wherever its ticks were cut short, as long as nothing was committed
    * on a torn database: where a reorg check passes, the database holds a history of the view, and so
    * reads as its clean replay, exactly when it is not torn.
    */
  lemma GuardedRunIff(root: State -> Bytes32, node: Node, act: BlockHeight, states: seq<Db>, seen: seq<Seen>, i: nat)
    requires DiskRun(root, node, act, states, seen) && Family(seen) && i < |seen|
    requires Guarded(root, node, act, states, seen, i) && Settled(states[i], seen[i].view)
    ensures Sound(root, node, act, states[i], seen[i].view) <==> !Torn(states[i])
    ensures !Torn(states[i]) ==>
      match L.MetaOf(states[i]).height
      case None => L.StateOf(states[i]) == EMPTY
      case Some(h) => h < |seen[i].view| && L.StateOf(states[i]) == CleanState(node, act, seen[i].view, h)
  {
    assert |states| == |seen| + 1;
    hide DiskRun, Guarded, OnDisk, Settled, Keeps, Linked, OneHeight, L.MetaOf, L.StateOf, L.Read, CleanState;
    if Torn(states[i]) {
      GapIsUnsound(root, node, act, states[i], seen[i].view, L.MetaOf(states[i]).height.value);
    } else {
      hide Torn;
      var chain, a, o, m := RunOnDisk(root, node, act, states, seen, i);
      SettledKeeps(root, node, act, states[i], chain, seen[a].view, seen[o].view, m, seen[i].view);
      SoundIsClean(root, node, act, states[i], seen[i].view);
    }
  }

  // ---- Runs in which no rollback is cut short ----

  ghost predicate Whole(s: Db, b: View, s': Db) {
    s' != s && Turns(s, b, s') ==> s' == AfterRollback(s, WrappingPred(L.MetaOf(s).height.value))
  }

  lemma KeptIsUntorn(root: State -> Bytes32, node: Node, act: BlockHeight, s: Db, chain: seq<BlockCommit>, b: View)
    requires Keeps(root, node, act, s, chain, b)
    ensures !Torn(s)
  {
    hide Keeps, L.MetaOf, L.Read;
    if Torn(s) {
      KeptRecords(root, node, act, s, chain, b, L.MetaOf(s).height.value);
    }
  }

  /** Only a turn that is cut short tears a database. */
  lemma WholeStepsDoNotTear(root: State -> Bytes32, node: Node, act: BlockHeight, s: Db, chain: seq<BlockCommit>,
      a: View, o: View, m: nat, b: View, tip: BlockHeight, s': Db)
    requires OnDisk(root, node, act, s, chain, a, o, m) && Linked(a, b) && OneHeight(o, b) && !Torn(s)
    requires DiskStep(root, node, act, s, b, tip, s') && Whole(s, b, s')
    ensures !Torn(s')
  {
    if Commits(root, node, act, s, b, tip, s') {
      hide L.MetaOf, L.StateOf, L.Read, Keeps, OnDisk, Linked, OneHeight, AfterCommit;
      SettledKeeps(root, node, act, s, chain, a, o, m, b);
      var c := CommitOnDisk(root, node, act, s, chain, b, tip, s');
      KeptIsUntorn(root, node, act, s', chain + [c], b);
    } else if s' != s {
      assert TablesHold(root, s, chain) && Follows(node, act, chain, a);
      hide L.MetaOf, L.Read, Keeps, OnDisk, TablesHold, Follows, AfterRollback;
      var target := WrappingPred(L.MetaOf(s).height.value);
      RollbackKeeps(root, node, act, s, chain, a, target);
      KeptIsUntorn(root, node, act, s', Survivors(chain, target), a);
    }
  }

  lemma {:induction false} WholeRunUntorn(root: State -> Bytes32, node: Node, act: BlockHeight, states: seq<Db>,
      seen: seq<Seen>, i: nat)
    requires DiskRun(root, node, act, states, seen) && Family(seen) && 0 < |seen| && i <= |seen|
    requires forall j :: 0 <= j < i ==> Whole(states[j], seen[j].view, states[j + 1])
    ensures Guarded(root, node, act, states, seen, i) && !Torn(states[i])
  {
    hide OnDisk, Torn, DiskStep, Commits, Whole, Linked, OneHeight;
    if i == 0 {
      EmptyOnDisk(root, node, act, seen[0].view);
      assert !Torn(map[]) by { EmptyUntorn(); }
    } else {
      WholeRunUntorn(root, node, act, states, seen, i - 1);
      var chain, a, o, m := RunOnDisk(root, node, act, states, seen, i - 1);
      var b := seen[i - 1].view;
      WholeStepsDoNotTear(root, node, act, states[i - 1], chain, seen[a].view, seen[o].view, m, b, seen[i - 1].tip,
        states[i]);
    }
  }

  lemma EmptyUntorn()
    ensures !Torn(map[])
  {
  }

  /** Without a rollback cut short, every reorg check that passes does so on a history of its view. */
  lemma WholeRunSound(root: State -> Bytes32, node: Node, act: BlockHeight, states: seq<Db>, seen: seq<Seen>, i: nat)
    requires DiskRun(root, node, act, states, seen) && Family(seen) && i < |seen|
    requires forall j :: 0 <= j < i ==> Whole(states[j], seen[j].view, states[j + 1])
    requires Settled(states[i], seen[i].view)
    ensures Sound(root, node, act, states[i], seen[i].view)
  {
    hide DiskRun, Whole, Settled, Sound, Torn, Family;
    WholeRunUntorn(root, node, act, states, seen, i);
    GuardedRunIff(root, node, act, states, seen, i);
  }

  // ---- Where it first goes wrong ----

  lemma Unguarded(root: State -> Bytes32, node: Node, act: BlockHeight, states: seq<Db>, seen: seq<Seen>, i: nat)
    returns (j: nat)
    requires i <= |seen| < |states| && !Guarded(root, node, act, states, seen, i)
    ensures j < i && Settled(states[j], seen[j].view) && Torn(states[j])
  {
    hide Settled, Torn, Commits;
    j :| 0 <= j < i && Commits(root, node, act, states[j], seen[j].view, seen[j].tip, states[j + 1]) && Torn(states[j]);
    CommitsSettled(root, node, act, states[j], seen[j].view, seen[j].tip, states[j + 1]);
  }

  /** Whatever goes wrong in a run first goes wrong where a reorg check passes on a torn database. */
  lemma FirstFault(root: State -> Bytes32, node: Node, act: BlockHeight, states: seq<Db>,
      seen: seq<Seen>, i: nat) returns (j: nat)
    requires DiskRun(root, node, act, states, seen) && Family(seen) && i < |seen|
    requires Settled(states[i], seen[i].view) && !Sound(root, node, act, states[i], seen[i].view)
    ensures j <= i && Settled(states[j], seen[j].view) && Torn(states[j])
  {
    assert |states| == |seen| + 1;
    hide Sound, Settled, Torn, Guarded, DiskRun, Family;
    if Guarded(root, node, act, states, seen, i) {
      GuardedRunIff(root, node, act, states, seen, i);
      j := i;
    } else {
      j := Unguarded(root, node, act, states, seen, i);
    }
  }
}
