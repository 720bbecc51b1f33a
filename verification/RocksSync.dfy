/** The tick over the persistent store, whatever an earlier tick that was cut short left in its database. */
module RocksSync {
  import opened Options
  import opened ByteStrings
  import opened World
  import opened KeyValue
  import opened RocksCommit
  import opened RocksRollback
  import opened RocksStore
  import opened Indexer
  import opened ChainViews
  import opened CrashRollback
  import opened InterruptedTick
  import opened DiskRuns
  import S = Sync
  import opened StateRoot
  import L = RocksLayout

  // ---- The reorg check ----

  /** The view is long enough to have a block at the stored height. */
  ghost predicate Reaches(s: Db, view: View) {
    var m := L.MetaOf(s);
    m.height.None? || m.blockHash.None? || m.height.value < |view|
  }

  method ReorgTurn(source: S.Source, store: RocksState) returns (r: S.Round)
    modifies source, store
    ensures r.Done? ==> Settled(store.db, source.view)
    ensures r.Done? || r.Failed? ==> store.db == old(store.db)
    ensures r.Again? ==> ReorgStep(old(store.db), source.view, store.db)
    ensures !Reaches(old(store.db), source.view) ==> r.Failed?
    ensures S.Reliable(source) && Reaches(old(store.db), source.view) ==> !r.Failed?
  {
    hide AfterRollback, L.MetaOf;
    var m := L.MetaOf(store.db);
    if m.height.None? || m.blockHash.None? {
      return S.Done;
    }
    var canonical := source.BlockHash(m.height.value);
    if canonical.None? {
      return S.Failed;
    }
    if canonical.value == m.blockHash.value {
      return S.Done;
    }
    store.RollbackTo(WrappingPred(m.height.value));
    r := S.Again;
  }

  /** What bounds the reorg loop: the recorded blocks, and one turn more where the metadata was left behind. */
  ghost function TurnsLeft(s: Db, chain: seq<BlockCommit>): nat {
    |chain| + if NamesLast(s, chain) then 0 else 1
  }

  lemma TurnShrinks(root: State -> Bytes32, node: Node, act: BlockHeight, s: Db, chain: seq<BlockCommit>, a: View,
      o: View, m: nat, b: View, s': Db) returns (chain': seq<BlockCommit>, o': View, m': nat)
    requires OnDisk(root, node, act, s, chain, a, o, m) && Linked(a, b) && ReorgStep(s, b, s')
    ensures OnDisk(root, node, act, s', chain', a, o', m') && TurnsLeft(s', chain') < TurnsLeft(s, chain)
    ensures Reaches(s', b)
  {
    assert IncreasingHeights(chain);
    hide L.MetaOf, TablesHold, Follows, AfterRollback, L.Read, Linked;
    var target := WrappingPred(L.MetaOf(s).height.value);
    chain' := Survivors(chain, target);
    RollbackKeeps(root, node, act, s, chain, a, target);
    ShorterIfNamed(node, act, s, chain, a, b);
    SurvivorsBelow(chain, target, L.MetaOf(s).height.value);
    hide OnDisk, Survivors;
    o' := a;
    m' := KeptOnDisk(root, node, act, s', chain', a);
  }

  lemma SurvivorsBelow(chain: seq<BlockCommit>, target: BlockHeight, h: BlockHeight)
    requires IncreasingHeights(chain) && (chain == [] || chain[|chain| - 1].height <= h)
    ensures var left := Survivors(chain, target);
      left != [] ==> left[|left| - 1].height <= h
  {
    SurvivorsArePrefix(chain, target);
    IncreasingBelow(chain, h);
  }

  lemma KeptOnDisk(root: State -> Bytes32, node: Node, act: BlockHeight, s: Db, chain: seq<BlockCommit>, a: View)
    returns (m: nat)
    requires Keeps(root, node, act, s, chain, a)
    ensures OnDisk(root, node, act, s, chain, a, a, m) && NamesLast(s, chain)
    ensures chain != [] ==> L.MetaOf(s).height == Some(chain[|chain| - 1].height)
  {
    hide L.MetaOf, TablesHold, Follows, L.Read;
    m := 0;
    NamedByView(node, act, chain, a);
    if chain != [] {
      m := chain[|chain| - 1].height;
    }
  }

  lemma ShorterIfNamed(node: Node, act: BlockHeight, s: Db, chain: seq<BlockCommit>, a: View, b: View)
    requires Follows(node, act, chain, a) && Linked(a, b) && !Settled(s, b)
    ensures var left := Survivors(chain, WrappingPred(L.MetaOf(s).height.value));
      |left| <= |chain| && (NamesLast(s, chain) ==> |left| < |chain|)
  {
    hide L.MetaOf, Linked;
    SurvivorsArePrefix(chain, WrappingPred(L.MetaOf(s).height.value));
    if NamesLast(s, chain) {
      assert !Agrees(chain, b);
      GenesisAgrees(node, act, chain, a, b);
      DropLast(chain, WrappingPred(L.MetaOf(s).height.value));
    }
  }

  /** A trace of databases, each a whole step after the one before. */
  ghost predicate Trace(root: State -> Bytes32, node: Node, act: BlockHeight, b: View, tip: BlockHeight,
      trace: seq<Db>) {
    trace != [] && forall i :: 0 <= i < |trace| - 1 ==>
      DiskStep(root, node, act, trace[i], b, tip, trace[i + 1]) && Whole(trace[i], b, trace[i + 1])
  }

  lemma TraceGrows(root: State -> Bytes32, node: Node, act: BlockHeight, b: View, tip: BlockHeight, trace: seq<Db>,
      s': Db)
    requires Trace(root, node, act, b, tip, trace)
    requires var s := trace[|trace| - 1];
      DiskStep(root, node, act, s, b, tip, s') && Whole(s, b, s')
    ensures Trace(root, node, act, b, tip, trace + [s'])
  {
    hide DiskStep, Whole;
  }

  lemma WholeTurn(root: State -> Bytes32, node: Node, act: BlockHeight, s: Db, b: View, tip: BlockHeight, s': Db)
    requires ReorgStep(s, b, s')
    ensures DiskStep(root, node, act, s, b, tip, s') && Whole(s, b, s')
  {
    LastDurable(s, WrappingPred(L.MetaOf(s).height.value));
  }

  lemma LastDurable(db: Db, target: BlockHeight)
    ensures AfterRollback(db, target) in DurableStates(db, target)
  {
    hide HistoryOf, RolledBack, WriteBatch;
    var d := RolledBack(db, target);
    var ws := RestoreMeta(HistoryOf(d));
    assert ws[..|ws|] == ws;
    assert WriteStates(d, ws)[|ws|] == AfterRollback(db, target);
    var all := DurableStates(db, target);
    assert all[|all| - 1] == AfterRollback(db, target);
  }

  method HandleReorg(source: S.Source, store: RocksState, ghost node: Node, ghost act: BlockHeight,
      ghost chain0: seq<BlockCommit>, ghost a: View, ghost o0: View, ghost m0: nat)
    returns (ok: bool, ghost path: seq<Db>)
    requires OnDisk(RootOf(store.hashes), node, act, store.db, chain0, a, o0, m0) && Linked(a, source.view)
    modifies source, store
    ensures path != [] && path[0] == old(store.db) && path[|path| - 1] == store.db
    ensures forall i :: 0 <= i < |path| - 1 ==> ReorgStep(path[i], source.view, path[i + 1])
    ensures Trace(RootOf(store.hashes), node, act, source.view, source.tip, path)
    ensures ok ==> Settled(store.db, source.view)
    ensures !Reaches(old(store.db), source.view) ==> !ok
    ensures S.Reliable(source) && Reaches(old(store.db), source.view) ==> ok
  {
    hide OnDisk, Linked, Settled, ReorgStep, DiskStep, Whole, TurnsLeft, Reaches;
    ghost var chain, o, m := chain0, o0, m0;
    path := [store.db];
    while true
      invariant OnDisk(RootOf(store.hashes), node, act, store.db, chain, a, o, m)
      invariant path != [] && path[0] == old(store.db) && path[|path| - 1] == store.db
      invariant forall i :: 0 <= i < |path| - 1 ==> ReorgStep(path[i], source.view, path[i + 1])
      invariant Trace(RootOf(store.hashes), node, act, source.view, source.tip, path)
      invariant store.db == old(store.db) || (Reaches(old(store.db), source.view) && Reaches(store.db, source.view))
      decreases TurnsLeft(store.db, chain)
    {
      ghost var s := store.db;
      var turn := ReorgTurn(source, store);
      if turn.Done? {
        return true, path;
      }
      if turn.Failed? {
        return false, path;
      }
      chain, o, m := TurnShrinks(RootOf(store.hashes), node, act, s, chain, a, o, m, source.view, store.db);
      WholeTurn(RootOf(store.hashes), node, act, s, source.view, source.tip, store.db);
      TraceGrows(RootOf(store.hashes), node, act, source.view, source.tip, path, store.db);
      path := path + [store.db];
    }
    ok := true;
  }

  // ---- Fast-forward and catch-up, on any database ----

  lemma CommitNames(root: State -> Bytes32, node: Node, act: BlockHeight, s: Db, b: View, h: BlockHeight)
    requires h < |b|
    ensures var s' := AfterCommit(root, s, CommitAt(node, act, L.StateOf(s), b, h));
      Settled(s', b) && L.MetaOf(s').height == Some(h) && NextOf(s') == h + 1
  {
    var c := CommitAt(node, act, L.StateOf(s), b, h);
    CommitNamesBlock(node, act, L.StateOf(s), b, h);
    CommitViews(root, s, c);
    ReadState(AfterCommit(root, s, c));
    hide L.Read, L.StateOf, L.MetaOf, AfterCommit, CommitAt, KeyValue.View;
  }

  lemma Idle(root: State -> Bytes32, node: Node, act: BlockHeight, s: Db, b: View, tip: BlockHeight)
    ensures DiskStep(root, node, act, s, b, tip, s)
  {
  }

  lemma StaysForward(root: State -> Bytes32, node: Node, act: BlockHeight, s: Db, b: View, tip: BlockHeight)
    requires !Behind(s, act, tip)
    ensures Forwarded(root, s, act, b, tip) == s && DiskStep(root, node, act, s, b, tip, s)
  {
  }

  lemma ForwardCommit(root: State -> Bytes32, node: Node, act: BlockHeight, s: Db, b: View, tip: BlockHeight)
    requires Behind(s, act, tip) && Settled(s, b) && Min(act - 1, tip) < |b|
    ensures var s' := Forwarded(root, s, act, b, tip);
      && s' == AfterCommit(root, s, EmptyCommit(Min(act - 1, tip), b[Min(act - 1, tip)].hash))
      && DiskStep(root, node, act, s, b, tip, s') && Settled(s', b) && !Behind(s', act, tip)
  {
    hide L.MetaOf, L.StateOf, AfterCommit, CommitAt, Settled;
    var target := Min(act - 1, tip);
    BelowIsEmpty(node, act, L.StateOf(s), b, target);
    CommitNames(root, node, act, s, b, target);
  }

  method FastForward(source: S.Source, store: RocksState, ghost node: Node, act: BlockHeight) returns (ok: bool)
    requires Settled(store.db, source.view)
    modifies source, store
    ensures !ok ==> store.db == old(store.db)
    ensures ok ==> (Behind(old(store.db), act, source.tip) ==> Min(act - 1, source.tip) < |source.view|)
    ensures ok ==> store.db == Forwarded(RootOf(store.hashes), old(store.db), act, source.view, source.tip)
    ensures ok ==> Settled(store.db, source.view) && !Behind(store.db, act, source.tip)
    ensures DiskStep(RootOf(store.hashes), node, act, old(store.db), source.view, source.tip, store.db)
    ensures S.Reliable(source) && source.tip < |source.view| ==> ok
  {
    hide L.MetaOf, AfterCommit, Settled, DiskStep, Forwarded;
    ok := true;
    var indexed := L.MetaOf(store.db).height;
    if act <= 1 || (indexed.Some? && indexed.value >= Min(act - 1, source.tip)) {
      StaysForward(RootOf(store.hashes), node, act, store.db, source.view, source.tip);
    } else {
      var target: BlockHeight := Min(act - 1, source.tip);
      var hash := source.BlockHash(target);
      if hash.None? {
        Idle(RootOf(store.hashes), node, act, store.db, source.view, source.tip);
        return false;
      }
      ForwardCommit(RootOf(store.hashes), node, act, store.db, source.view, source.tip);
      var _ := store.CommitBlock(BlockCommit(target, hash.value, [], [], []));
    }
  }

  method CatchUpRound(source: S.Source, store: RocksState, node: Node, act: BlockHeight) returns (r: S.Round)
    requires ValidView(source.view)
    modifies source, store
    ensures r.Done? <==> NextOf(old(store.db)) > source.tip
    ensures r.Done? || r.Failed? ==> store.db == old(store.db)
    ensures r.Again? ==>
      var s, h := old(store.db), NextOf(old(store.db));
      && h < |source.view|
      && store.db == AfterCommit(RootOf(store.hashes), s, CommitAt(node, act, L.StateOf(s), source.view, h))
    ensures S.Reliable(source) && source.tip < |source.view| ==> !r.Failed?
  {
    hide L.MetaOf, L.StateOf, AfterCommit, AfterTransactions;
    var indexed := L.MetaOf(store.db).height;
    var next := if indexed.None? then 1 else indexed.value as int + 1;
    if next > source.tip {
      return S.Done;
    }
    var hash := source.BlockHash(next);
    if hash.None? {
      return S.Failed;
    }
    if next < act {
      var _ := store.CommitBlock(BlockCommit(next, hash.value, [], [], []));
      return S.Again;
    }
    var txs := source.RawBlock(hash.value);
    if txs.None? {
      return S.Failed;
    }
    assert txs.value == source.view[next].txs;
    var w := LoadState(store.db);
    var processor := new BlockProcessor(node, w, Block(next, hash.value, txs.value));
    processor.ProcessTransactions(txs.value);
    var _ := store.CommitBlock(processor.commit);
    r := S.Again;
  }

  lemma IndexedStep(root: State -> Bytes32, node: Node, act: BlockHeight, s: Db, b: View, e: nat, s': Db)
    requires e < |b| && s' == Indexed(root, node, act, s, b, e) && NextOf(s') < |b|
    requires (e == 0 && s' == s) || (NextOf(s) <= e + 1 == NextOf(s'))
    ensures Indexed(root, node, act, s, b, NextOf(s')) ==
      AfterCommit(root, s', CommitAt(node, act, L.StateOf(s'), b, NextOf(s')))
    ensures NextOf(s) <= NextOf(s')
  {
    hide L.MetaOf, L.StateOf, AfterCommit, CommitAt;
    if s' == s {
      assert Indexed(root, node, act, s, b, NextOf(s) - 1) == s;
    }
  }

  method CatchUp(source: S.Source, store: RocksState, node: Node, act: BlockHeight, stop: nat -> bool,
      ghost before: seq<Db>) returns (ok: bool, ghost e: nat, ghost trace: seq<Db>)
    requires ValidView(source.view) && Settled(store.db, source.view) && !Behind(store.db, act, source.tip)
    requires Trace(RootOf(store.hashes), node, act, source.view, source.tip, before)
    requires before != [] && before[|before| - 1] == store.db
    modifies source, store
    ensures e < |source.view| && e <= source.tip
    ensures store.db == Indexed(RootOf(store.hashes), node, act, old(store.db), source.view, e)
    ensures Trace(RootOf(store.hashes), node, act, source.view, source.tip, trace)
    ensures trace != [] && before <= trace && trace[|trace| - 1] == store.db && Settled(store.db, source.view)
    ensures ok && (forall k :: !stop(k)) ==> NextOf(store.db) > source.tip
    ensures S.Reliable(source) && source.tip < |source.view| ==> ok
  {
    hide L.MetaOf, AfterCommit, Settled, Turns, CommitAt, NextOf, Indexed, Trace;
    ghost var root, fwd := RootOf(store.hashes), store.db;
    e, trace := 0, before;
    IndexedNothing(root, node, act, fwd, source.view);
    var rounds := 0;
    while true
      invariant e < |source.view| && e <= source.tip && store.db == Indexed(root, node, act, fwd, source.view, e)
      invariant (e == 0 && store.db == fwd) || (NextOf(fwd) <= e + 1 == NextOf(store.db))
      invariant Settled(store.db, source.view) && !Behind(store.db, act, source.tip)
      invariant Trace(root, node, act, source.view, source.tip, trace)
      invariant trace != [] && before <= trace && trace[|trace| - 1] == store.db
      decreases source.tip as int - NextOf(store.db)
    {
      if stop(rounds) {
        return true, e, trace;
      }
      rounds := rounds + 1;
      ghost var s := store.db;
      var round := CatchUpRound(source, store, node, act);
      if round.Done? {
        return true, e, trace;
      }
      if round.Failed? {
        return false, e, trace;
      }
      IndexedStep(root, node, act, fwd, source.view, e, s);
      NextCommit(root, node, act, s, source.view, source.tip, store.db);
      TraceGrows(root, node, act, source.view, source.tip, trace, store.db);
      e, trace := NextOf(s), trace + [store.db];
    }
    ok := true;
  }

  lemma IndexedNothing(root: State -> Bytes32, node: Node, act: BlockHeight, s: Db, b: View)
    requires b != []
    ensures Indexed(root, node, act, s, b, 0) == s
  {
  }

  lemma NextCommit(root: State -> Bytes32, node: Node, act: BlockHeight, s: Db, b: View, tip: BlockHeight, s': Db)
    requires Settled(s, b) && !Behind(s, act, tip) && NextOf(s) <= tip && NextOf(s) < |b|
    requires s' == AfterCommit(root, s, CommitAt(node, act, L.StateOf(s), b, NextOf(s)))
    ensures DiskStep(root, node, act, s, b, tip, s') && Whole(s, b, s')
    ensures Settled(s', b) && !Behind(s', act, tip) && NextOf(s') == NextOf(s) + 1
  {
    hide L.MetaOf, L.StateOf, AfterCommit, CommitAt;
    CommitNames(root, node, act, s, b, NextOf(s));
  }

  // ---- The tick ----

  /**
    * `tick` over the persistent store, from any database that earlier ticks, cut short or not, can have
    * left. Its writes are whole steps of a run; if it completes it is a completed tick of the view, up to
    * the tip unless stopped; and it completes exactly if the view reaches the stored height, given a
    * source that answers.
    */
  method Tick(source: S.Source, store: RocksState, node: Node, act: BlockHeight, stop: nat -> bool,
      ghost chain: seq<BlockCommit>, ghost a: View, ghost o: View, ghost m: nat)
    returns (ok: bool, ghost trace: seq<Db>, ghost path: seq<Db>, ghost e: nat)
    requires OnDisk(RootOf(store.hashes), node, act, store.db, chain, a, o, m)
    requires Linked(a, source.view) && ValidView(source.view)
    modifies source, store
    ensures trace != [] && trace[0] == old(store.db) && trace[|trace| - 1] == store.db
    ensures Trace(RootOf(store.hashes), node, act, source.view, source.tip, trace)
    ensures ok ==>
      CompletedTick(RootOf(store.hashes), node, act, old(store.db), source.view, source.tip, path, e, store.db)
    ensures ok ==> Settled(store.db, source.view)
    ensures ok && (forall k :: !stop(k)) ==> NextOf(store.db) > source.tip
    ensures ok ==> Reaches(old(store.db), source.view)
    ensures S.Reliable(source) && source.tip < |source.view| && Reaches(old(store.db), source.view) ==> ok
  {
    hide OnDisk, Linked, Settled, ReorgStep, Trace, Reaches, Forwarded, Indexed, Behind, NextOf, DiskStep, Whole;
    trace, path, e := [store.db], [store.db], 0;
    OneTrace(RootOf(store.hashes), node, act, source.view, source.tip, store.db);
    var tip := source.Tip();
    if tip.None? {
      return false, trace, path, e;
    }
    var settled;
    settled, path := HandleReorg(source, store, node, act, chain, a, o, m);
    trace := path;
    if !settled {
      return false, trace, path, e;
    }
    ghost var kept := store.db;
    var forwarded := FastForward(source, store, node, act);
    if !forwarded {
      return false, trace, path, e;
    }
    SettledStepWhole(kept, source.view, store.db);
    TraceGrows(RootOf(store.hashes), node, act, source.view, source.tip, trace, store.db);
    trace := trace + [store.db];
    ok, e, trace := CatchUp(source, store, node, act, stop, trace);
  }

  lemma OneTrace(root: State -> Bytes32, node: Node, act: BlockHeight, b: View, tip: BlockHeight, s: Db)
    ensures Trace(root, node, act, b, tip, [s])
  {
  }

  lemma SettledStepWhole(s: Db, b: View, s': Db)
    requires Settled(s, b)
    ensures Whole(s, b, s')
  {
  }

  // ---- Runs of ticks ----

  /** The writes of a tick, or of as much of it as happened, continue a run. */
  lemma TraceExtendsRun(root: State -> Bytes32, node: Node, act: BlockHeight, states: seq<Db>,
      seen: seq<Seen>, b: View, tip: BlockHeight, trace: seq<Db>, n: nat)
    requires DiskRun(root, node, act, states, seen) && Trace(root, node, act, b, tip, trace) && n < |trace|
    requires trace[0] == states[|states| - 1]
    ensures DiskRun(root, node, act, states + trace[1..n + 1], seen + seq(n, _ => Seen(b, tip)))
    ensures WholeRun(states, seen) ==> WholeRun(states + trace[1..n + 1], seen + seq(n, _ => Seen(b, tip)))
  {
    hide DiskStep, Whole;
    var states', seen' := states + trace[1..n + 1], seen + seq(n, _ => Seen(b, tip));
    forall i | 0 <= i < |seen'|
      ensures DiskStep(root, node, act, states'[i], seen'[i].view, seen'[i].tip, states'[i + 1])
      ensures WholeRun(states, seen) ==> Whole(states'[i], seen'[i].view, states'[i + 1])
    {
      if i >= |seen| {
        assert states'[i] == trace[i - |seen|] && states'[i + 1] == trace[i - |seen| + 1];
      }
    }
  }

  ghost predicate WholeRun(states: seq<Db>, seen: seq<Seen>) {
    |states| == |seen| + 1 && forall i :: 0 <= i < |seen| ==> Whole(states[i], seen[i].view, states[i + 1])
  }

  ghost predicate FairDisk(weather: seq<S.Weather>) {
    S.Fair(weather) && forall i, j :: 0 <= i < |weather| && 0 <= j < |weather| ==>
      OneHeight(weather[i].view, weather[j].view)
  }

  /** The views of a run are among those of the weather. */
  ghost predicate SeenIn(seen: seq<Seen>, weather: seq<S.Weather>) {
    forall i :: 0 <= i < |seen| ==> exists j :: 0 <= j < |weather| && seen[i].view == weather[j].view
  }

  lemma SeenFamily(seen: seq<Seen>, weather: seq<S.Weather>)
    requires SeenIn(seen, weather) && FairDisk(weather)
    ensures Family(seen)
  {
    hide Linked, OneHeight, ValidView;
  }

  /** Looking at the last state of a run once more, under another view. */
  lemma Looked(root: State -> Bytes32, node: Node, act: BlockHeight, states: seq<Db>, seen: seq<Seen>,
      weather: seq<S.Weather>, i: nat)
    returns (chain: seq<BlockCommit>, a: View, o: View, m: nat)
    requires DiskRun(root, node, act, states, seen) && WholeRun(states, seen) && SeenIn(seen, weather)
    requires FairDisk(weather) && i < |weather|
    ensures OnDisk(root, node, act, states[|seen|], chain, a, o, m) && Linked(a, weather[i].view)
    ensures Settled(states[|seen|], weather[i].view) ==> Sound(root, node, act, states[|seen|], weather[i].view)
  {
    hide DiskStep, Whole, OnDisk, Settled, Sound, Linked, OneHeight, ValidView;
    var s, view := states[|seen|], weather[i].view;
    var states', seen' := states + [s], seen + [Seen(view, 0)];
    assert DiskStep(root, node, act, s, view, 0, s) && Whole(s, view, s) by { IdleStep(root, node, act, s, view); }
    SeenFamily(seen', weather);
    WholeRunUntorn(root, node, act, states', seen', |seen|);
    var ja, jo;
    chain, ja, jo, m := RunOnDisk(root, node, act, states', seen', |seen|);
    a, o := seen'[ja].view, seen'[jo].view;
    if Settled(s, view) {
      WholeRunSound(root, node, act, states', seen', |seen|);
    }
  }

  lemma IdleStep(root: State -> Bytes32, node: Node, act: BlockHeight, s: Db, b: View)
    ensures DiskStep(root, node, act, s, b, 0, s) && Whole(s, b, s)
  {
  }

  lemma SeenMore(seen: seq<Seen>, weather: seq<S.Weather>, i: nat, tip: BlockHeight, n: nat)
    requires SeenIn(seen, weather) && i < |weather|
    ensures SeenIn(seen + seq(n, _ => Seen(weather[i].view, tip)), weather)
  {
  }

  /** Whole steps lead from one database to the other. */
  ghost predicate Leads(root: State -> Bytes32, node: Node, act: BlockHeight, b: View, tip: BlockHeight, s: Db,
      s': Db) {
    exists trace ::
      Trace(root, node, act, b, tip, trace) && trace != [] && trace[0] == s && trace[|trace| - 1] == s'
  }

  lemma TraceLeads(root: State -> Bytes32, node: Node, act: BlockHeight, b: View, tip: BlockHeight, trace: seq<Db>)
    requires Trace(root, node, act, b, tip, trace)
    ensures Leads(root, node, act, b, tip, trace[0], trace[|trace| - 1])
  {
    hide DiskStep, Whole;
  }

  /**
    * One tick of a run: its writes are whole steps; if it completed, the database holds a history of the
    * view it saw, up to the tip unless stopped; and in calm weather it completes exactly if the view
    * reaches the stored height.
    */
  ghost predicate TickDone(root: State -> Bytes32, node: Node, act: BlockHeight, s: Db, w: S.Weather, ok: bool,
      s': Db) {
    && Leads(root, node, act, w.view, w.tip, s, s')
    && (ok ==> Sound(root, node, act, s', w.view) && ((forall k :: !w.stop(k)) ==> NextOf(s') > w.tip))
    && (ok ==> Reaches(s, w.view))
    && (S.Calm(w) && Reaches(s, w.view) ==> ok)
  }

  lemma TickIsDone(root: State -> Bytes32, node: Node, act: BlockHeight, s: Db, w: S.Weather, ok: bool, s': Db)
    requires Leads(root, node, act, w.view, w.tip, s, s')
    requires ok ==> Sound(root, node, act, s', w.view) && ((forall k :: !w.stop(k)) ==> NextOf(s') > w.tip)
    requires ok ==> Reaches(s, w.view)
    requires S.Calm(w) && Reaches(s, w.view) ==> ok
    ensures TickDone(root, node, act, s, w, ok, s')
  {
    hide Leads, Sound, NextOf, Reaches;
  }

  ghost function EndBefore(ends: seq<Db>, i: nat): Db
    requires i <= |ends|
  {
    if i == 0 then map[] else ends[i - 1]
  }

  /** The ticks of a run so far, the first from an empty database and each from where the one before ended. */
  ghost predicate AllDone(root: State -> Bytes32, node: Node, act: BlockHeight, weather: seq<S.Weather>,
      oks: seq<bool>, ends: seq<Db>) {
    && |oks| == |ends| <= |weather|
    && forall i :: 0 <= i < |oks| ==> TickDone(root, node, act, EndBefore(ends, i), weather[i], oks[i], ends[i])
  }

  lemma NoneDone(root: State -> Bytes32, node: Node, act: BlockHeight, weather: seq<S.Weather>)
    ensures AllDone(root, node, act, weather, [], [])
  {
  }

  lemma AllDoneMore(root: State -> Bytes32, node: Node, act: BlockHeight, weather: seq<S.Weather>,
      oks: seq<bool>, ends: seq<Db>, ok: bool, s': Db)
    requires AllDone(root, node, act, weather, oks, ends) && |oks| < |weather|
    requires TickDone(root, node, act, EndBefore(ends, |ends|), weather[|oks|], ok, s')
    ensures AllDone(root, node, act, weather, oks + [ok], ends + [s'])
  {
    hide TickDone;
    var oks', ends' := oks + [ok], ends + [s'];
    forall i | 0 <= i < |oks'| ensures TickDone(root, node, act, EndBefore(ends', i), weather[i], oks'[i], ends'[i]) {
      assert EndBefore(ends', i) == EndBefore(ends, i);
    }
  }

  /** Any number of ticks over a fresh persistent store, each against its own source, none cut short. */
  method Run(store: RocksState, node: Node, act: BlockHeight, weather: seq<S.Weather>)
    returns (oks: seq<bool>, ghost ends: seq<Db>)
    requires store.db == map[] && FairDisk(weather)
    modifies store
    ensures |oks| == |ends| == |weather| && AllDone(RootOf(store.hashes), node, act, weather, oks, ends)
    ensures store.db == EndBefore(ends, |weather|)
  {
    hide AllDone, TickDone, Leads, NextOf, DiskRun, WholeRun, SeenIn, Linked, OneHeight, ValidView, OnDisk, Settled,
      Sound, CompletedTick, Reaches, Trace;
    ghost var root := RootOf(store.hashes);
    ghost var states, seen: seq<Seen> := [store.db], [];
    FreshRun(root, node, act, weather);
    oks, ends := [], [];
    NoneDone(root, node, act, weather);
    for i := 0 to |weather|
      invariant |states| == |seen| + 1 && states[|seen|] == store.db
      invariant DiskRun(root, node, act, states, seen) && WholeRun(states, seen) && SeenIn(seen, weather)
      invariant |oks| == |ends| == i && AllDone(root, node, act, weather, oks, ends) && store.db == EndBefore(ends, i)
    {
      ghost var chain, a, o, m := Looked(root, node, act, states, seen, weather, i);
      assert ValidView(weather[i].view);
      var source := new S.Source(weather[i].view, weather[i].tip, weather[i].fails);
      ghost var before, trace, path, e := store.db, [], [], 0;
      var ok;
      ok, trace, path, e := Tick(source, store, node, act, weather[i].stop, chain, a, o, m);
      ghost var n := |trace| - 1;
      TraceExtendsRun(root, node, act, states, seen, source.view, source.tip, trace, n);
      SeenMore(seen, weather, i, source.tip, n);
      states, seen := states + trace[1..n + 1], seen + seq(n, _ => Seen(source.view, source.tip));
      assert states[|seen|] == store.db;
      chain, a, o, m := Looked(root, node, act, states, seen, weather, i);
      TraceLeads(root, node, act, source.view, source.tip, trace);
      TickIsDone(root, node, act, before, weather[i], ok, store.db);
      AllDoneMore(root, node, act, weather, oks, ends, ok, store.db);
      oks, ends := oks + [ok], ends + [store.db];
    }
  }

  lemma FreshRun(root: State -> Bytes32, node: Node, act: BlockHeight, weather: seq<S.Weather>)
    ensures DiskRun(root, node, act, [map[]], []) && WholeRun([map[]], []) && SeenIn([], weather)
  {
  }
}
