/** The indexing loop against a chain source that may fail at any call and change its mind between ticks. */
module Sync {
  import opened Options
  import opened ByteStrings
  import opened World
  import opened MemoryStore
  import opened Indexer
  import opened ChainViews
  import StateRoot

  // ---- The source, for the length of one tick ----

  class Source {
    const view: View
    const tip: BlockHeight
    const fails: nat -> bool
    var calls: nat

    constructor (v: View, t: BlockHeight, f: nat -> bool)
      ensures view == v && tip == t && fails == f
    {
      view, tip, fails, calls := v, t, f, 0;
    }

    method Tip() returns (r: Option<BlockHeight>)
      modifies this
      ensures r.Some? ==> r.value == tip
      ensures r.None? ==> fails(calls)
    {
      calls := calls + 1;
      r := if fails(calls) then None else Some(tip);
    }

    method BlockHash(h: BlockHeight) returns (r: Option<Bytes32>)
      modifies this
      ensures r.Some? ==> h < |view| && r.value == view[h].hash
      ensures r.None? ==> fails(calls) || h >= |view|
    {
      calls := calls + 1;
      r := if fails(calls) || h >= |view| then None else Some(view[h].hash);
    }

    /** Fetching and decoding the block of a hash. */
    method RawBlock(hash: Bytes32) returns (r: Option<seq<Tx>>)
      modifies this
      ensures r.Some? ==> exists h :: 0 <= h < |view| && view[h].hash == hash && r.value == view[h].txs
      ensures r.None? ==> fails(calls) || forall h :: 0 <= h < |view| ==> view[h].hash != hash
    {
      calls := calls + 1;
      if fails(calls) {
        return None;
      }
      for h := 0 to |view|
        invariant forall k :: 0 <= k < h ==> view[k].hash != hash
      {
        if view[h].hash == hash {
          return Some(view[h].txs);
        }
      }
      r := None;
    }
  }

  // ---- One tick ----

  /** A source that answers every call. */
  ghost predicate Reliable(source: Source) {
    forall k :: !source.fails(k)
  }

  predicate Reached(chain: seq<BlockCommit>, h: int) {
    chain != [] && chain[|chain| - 1].height >= h
  }

  datatype Outcome = Completed(tip: BlockHeight, before: Option<BlockHeight>, after: Option<BlockHeight>) | Transient

  ghost predicate Ready(store: MemoryState, node: Node, act: BlockHeight, view: View)
    reads store
  {
    store.Valid() && Follows(node, act, store.chain, view)
  }

  lemma {:induction false} CanonicalPrefixShort(chain: seq<BlockCommit>, view: View)
    ensures CanonicalPrefix(chain, view) <= chain
  {
    if !Agrees(chain, view) {
      CanonicalPrefixShort(chain[..|chain| - 1], view);
    }
  }

  /** How a turn of a loop ends. */
  datatype Round = Done | Failed | Again

  /** The stored history does not end in a block of the view, which reaches at least as high. */
  ghost predicate Displaced(chain: seq<BlockCommit>, view: View) {
    !Agrees(chain, view) && !Reached(chain, |view|)
  }

  /** One turn of the reorg loop, on any store and any view. */
  method ReorgTurn(source: Source, store: MemoryState) returns (r: Round)
    requires store.Valid()
    modifies source, store
    ensures store.Valid()
    ensures r.Done? ==> Agrees(old(store.chain), source.view)
    ensures r.Done? || r.Failed? ==> store.chain == old(store.chain)
    ensures r.Again? ==> Displaced(old(store.chain), source.view)
    ensures r.Again? ==>
      store.chain == Survivors(old(store.chain), WrappingPred(old(store.chain)[|old(store.chain)| - 1].height))
    ensures Reached(old(store.chain), |source.view|) ==> r.Failed?
    ensures Reliable(source) && !Reached(old(store.chain), |source.view|) ==> !r.Failed?
  {
    hide AfterRollback, Holds;
    LastRecord(StateRoot.RootOf(store.hashes), store.Current(), store.chain);
    var height, ours := store.metadata.height, store.metadata.blockHash;
    if height.None? || ours.None? {
      return Done;
    }
    var canonical := source.BlockHash(height.value);
    if canonical.None? {
      return Failed;
    }
    if canonical.value == ours.value {
      return Done;
    }
    store.RollbackTo(WrappingPred(height.value));
    r := Again;
  }

  /** Rolls back until the stored hash is canonical, or the source fails. */
  method HandleReorg(source: Source, store: MemoryState, ghost node: Node, ghost act: BlockHeight,
      ghost prior: View) returns (ok: bool)
    requires Ready(store, node, act, prior) && Linked(prior, source.view)
    modifies source, store
    ensures store.Valid()
    ensures ok ==> store.chain == CanonicalPrefix(old(store.chain), source.view) && Ready(store, node, act, source.view)
    ensures !ok ==> CanonicalPrefix(old(store.chain), source.view) <= store.chain <= old(store.chain)
    ensures Reached(old(store.chain), |source.view|) ==> !ok
    ensures Reliable(source) && !Reached(old(store.chain), |source.view|) ==> ok
  {
    hide Follows, Holds, Linked, Agrees, CanonicalPrefix;
    while true
      invariant Ready(store, node, act, prior) && store.chain <= old(store.chain)
      invariant CanonicalPrefix(store.chain, source.view) == CanonicalPrefix(old(store.chain), source.view)
      invariant store.chain == old(store.chain) || !Reached(old(store.chain), |source.view|)
      invariant !Reached(old(store.chain), |source.view|) ==> !Reached(store.chain, |source.view|)
      decreases |store.chain|
    {
      CanonicalPrefixShort(store.chain, source.view);
      ghost var chain := store.chain;
      var turn := ReorgTurn(source, store);
      if turn.Done? {
        AgreedFollows(node, act, chain, prior, source.view);
        return true;
      }
      if turn.Failed? {
        return false;
      }
      TurnDropsLast(node, act, chain, prior, source.view);
    }
    ok := true;
  }

  lemma AgreedFollows(node: Node, act: BlockHeight, chain: seq<BlockCommit>, prior: View, view: View)
    requires Follows(node, act, chain, prior) && Linked(prior, view) && Agrees(chain, view)
    ensures CanonicalPrefix(chain, view) == chain && Follows(node, act, chain, view)
  {
    hide Follows;
    FollowsSwitch(node, act, chain, prior, view);
  }

  lemma TurnDropsLast(node: Node, act: BlockHeight, chain: seq<BlockCommit>, prior: View, view: View)
    requires Follows(node, act, chain, prior) && Linked(prior, view) && Displaced(chain, view)
    ensures chain != [] && Survivors(chain, WrappingPred(chain[|chain| - 1].height)) == chain[..|chain| - 1]
    ensures Follows(node, act, chain[..|chain| - 1], prior)
    ensures CanonicalPrefix(chain, view) == CanonicalPrefix(chain[..|chain| - 1], view)
    ensures forall h :: Reached(chain[..|chain| - 1], h) ==> Reached(chain, h)
  {
    GenesisAgrees(node, act, chain, prior, view);
    FollowsIncreases(node, act, chain, prior);
    DropLast(chain, WrappingPred(chain[|chain| - 1].height));
    FollowsPrefix(node, act, chain, prior, |chain| - 1);
    LastIsHighest(node, act, chain, prior);
  }

  /**
    * A mismatch at height 0 would never resolve: the rollback target wraps, so after any number of turns
    * against a source that answers the store is as it was and the loop has still not ended.
    */
  method GenesisTurns(source: Source, store: MemoryState, turns: nat) returns (last: Round)
    requires store.Valid() && Reliable(source) && store.chain != [] && store.chain[|store.chain| - 1].height == 0
    requires Displaced(store.chain, source.view)
    modifies source, store
    ensures store.Valid() && store.chain == old(store.chain) && last.Again?
  {
    hide Holds;
    last := Again;
    for i := 0 to turns
      invariant store.Valid() && store.chain == old(store.chain) && last.Again?
    {
      GenesisMismatchStuck(store.chain);
      last := ReorgTurn(source, store);
    }
  }

  lemma LastIsHighest(node: Node, act: BlockHeight, chain: seq<BlockCommit>, view: View)
    requires Follows(node, act, chain, view) && chain != []
    ensures forall h :: Reached(chain[..|chain| - 1], h) ==> Reached(chain, h)
  {
    var front := chain[..|chain| - 1];
    assert front != [] ==> chain[|front| - 1].height < chain[|chain| - 1].height;
  }

  lemma FollowsIncreases(node: Node, act: BlockHeight, chain: seq<BlockCommit>, view: View)
    requires Follows(node, act, chain, view)
    ensures IncreasingHeights(chain)
  {
  }

  /** Commits the block at `h`, the next of the view; its transactions are not needed below activation. */
  method IndexBlock(store: MemoryState, node: Node, act: BlockHeight, ghost view: View, h: BlockHeight,
      hash: Bytes32, txs: seq<Tx>)
    requires Ready(store, node, act, view)
    requires h < |view| && (h == 0 ==> act > 0) && hash == view[h].hash && (h >= act ==> txs == view[h].txs)
    requires store.chain == [] || store.chain[|store.chain| - 1].height < h
    requires h > FirstHeight(act) ==> store.chain != [] && store.chain[|store.chain| - 1].height + 1 == h
    modifies store
    ensures Ready(store, node, act, view)
    ensures store.chain == old(store.chain) + [CommitAt(node, act, Replay(old(store.chain)), view, h)]
    ensures h < act ==> store.chain == old(store.chain) + [EmptyCommit(h, hash)]
    ensures IndexedHeight(store.chain) == Some(h)
  {
    hide Follows, AfterCommit, Holds, AfterTransactions;
    LastRecord(StateRoot.RootOf(store.hashes), store.Current(), store.chain);
    var c: BlockCommit;
    if h < act {
      c := BlockCommit(h, hash, [], [], []);
    } else {
      var processor := new BlockProcessor(node, State(store.contracts, store.storage), Block(h, hash, txs));
      processor.ProcessTransactions(txs);
      c := processor.commit;
    }
    CommitNamesBlock(node, act, Replay(store.chain), view, h);
    assert c == CommitAt(node, act, Replay(store.chain), view, h);
    FollowsExtends(node, act, store.chain, view, h);
    var _ := store.CommitBlock(c);
  }

  /** The commits added to `before` are at consecutive heights from the next one on, none above the tip. */
  predicate Consecutive(before: seq<BlockCommit>, after: seq<BlockCommit>, tip: BlockHeight) {
    && before <= after
    && forall i :: |before| <= i < |after| ==>
      after[i].height == NextHeight(before) + (i - |before|) && after[i].height <= tip
  }

  /** The height a tick commits next: the fast-forward target while the history ends below it, else the next one. */
  function NextCommitted(act: BlockHeight, chain: seq<BlockCommit>, tip: BlockHeight): nat {
    if act > 1 && !Reached(chain, Min(act - 1, tip)) then Min(act - 1, tip) else NextHeight(chain)
  }

  /** Every commit of `after` beyond `before` is at the height that was next, none above the tip. */
  ghost predicate Grown(act: BlockHeight, before: seq<BlockCommit>, after: seq<BlockCommit>, tip: BlockHeight) {
    && before <= after
    && forall i :: |before| <= i < |after| ==> after[i].height == NextCommitted(act, after[..i], tip) <= tip
  }

  lemma ForwardGrows(act: BlockHeight, before: seq<BlockCommit>, c: BlockCommit, tip: BlockHeight)
    requires act > 1 && !Reached(before, Min(act - 1, tip)) && c.height == Min(act - 1, tip)
    ensures Grown(act, before, before + [c], tip)
  {
    assert (before + [c])[..|before|] == before;
  }

  lemma ConsecutiveGrows(act: BlockHeight, before: seq<BlockCommit>, after: seq<BlockCommit>, tip: BlockHeight)
    requires Consecutive(before, after, tip) && (act > 1 ==> Reached(before, Min(act - 1, tip)))
    ensures Grown(act, before, after, tip)
  {
    forall i | |before| <= i < |after| ensures after[i].height == NextCommitted(act, after[..i], tip) <= tip {
      if i == |before| {
        assert after[..i] == before;
      } else {
        assert after[..i][i - 1] == after[i - 1] && after[|before|].height == NextHeight(before);
      }
    }
  }

  lemma GrownThen(act: BlockHeight, a: seq<BlockCommit>, b: seq<BlockCommit>, c: seq<BlockCommit>, tip: BlockHeight)
    requires Grown(act, a, b, tip) && Grown(act, b, c, tip)
    ensures Grown(act, a, c, tip)
  {
    hide NextCommitted;
    forall i | |a| <= i < |c| ensures c[i].height == NextCommitted(act, c[..i], tip) <= tip {
      if i < |b| {
        assert c[..i] == b[..i] && c[i] == b[i];
      }
    }
  }

  lemma NothingGrown(act: BlockHeight, chain: seq<BlockCommit>, tip: BlockHeight)
    ensures Grown(act, chain, chain, tip)
  {
  }

  /** Below activation only the hash of the fast-forward target is fetched, and an empty block committed for it. */
  method FastForward(source: Source, store: MemoryState, node: Node, act: BlockHeight) returns (ok: bool)
    requires Ready(store, node, act, source.view)
    modifies source, store
    ensures Ready(store, node, act, source.view)
    ensures store.chain == old(store.chain) || (
      && act > 1
      && var target := Min(act - 1, source.tip);
      && !Reached(old(store.chain), target) && target < |source.view|
      && store.chain == old(store.chain) + [EmptyCommit(target, source.view[target].hash)])
    ensures Grown(act, old(store.chain), store.chain, source.tip)
    ensures ok && act > 1 ==> Reached(store.chain, Min(act - 1, source.tip))
    ensures Reliable(source) && source.tip < |source.view| ==> ok
  {
    hide Follows, Holds, CommitAt, Grown;
    ok := true;
    NothingGrown(act, store.chain, source.tip);
    if act > 1 {
      var target: BlockHeight := Min(act - 1, source.tip);
      LastRecord(StateRoot.RootOf(store.hashes), store.Current(), store.chain);
      var indexed := store.metadata.height;
      if indexed.None? || indexed.value < target {
        var hash := source.BlockHash(target);
        if hash.None? {
          return false;
        }
        ghost var before := store.chain;
        IndexBlock(store, node, act, source.view, target, hash.value, []);
        ForwardGrows(act, before, EmptyCommit(target, hash.value), source.tip);
      }
    }
  }

  /** One round of the catch-up loop. Without an activation height the block is fetched, and nothing committed. */
  method CatchUpRound(source: Source, store: MemoryState, node: Node,
      activation: Option<BlockHeight>) returns (r: Round)
    requires store.Valid() && ValidView(source.view)
    requires activation.Some? ==> Ready(store, node, activation.value, source.view)
    modifies source, store
    ensures store.Valid()
    ensures r.Done? <==> NextHeight(old(store.chain)) > source.tip
    ensures r.Done? || r.Failed? || activation.None? ==> store.chain == old(store.chain)
    ensures r.Again? && activation.Some? ==>
      var h := NextHeight(old(store.chain));
      && h < |source.view|
      && store.chain == old(store.chain) + [CommitAt(node, activation.value, Replay(old(store.chain)), source.view, h)]
      && IndexedHeight(store.chain) == Some(h)
    ensures activation.Some? ==> Ready(store, node, activation.value, source.view)
    ensures Reliable(source) && source.tip < |source.view| ==> !r.Failed?
  {
    hide Follows, Holds, CommitAt;
    LastRecord(StateRoot.RootOf(store.hashes), store.Current(), store.chain);
    var next := if store.metadata.height.None? then 1 else store.metadata.height.value + 1;
    if next > source.tip {
      return Done;
    }
    var hash := source.BlockHash(next);
    if hash.None? {
      return Failed;
    }
    if activation.Some? && next < activation.value {
      IndexBlock(store, node, activation.value, source.view, next, hash.value, []);
      return Again;
    }
    var txs := source.RawBlock(hash.value);
    if txs.None? {
      return Failed;
    }
    if activation.Some? {
      IndexBlock(store, node, activation.value, source.view, next, hash.value, txs.value);
    }
    r := Again;
  }

  /** The catch-up loop: each height once, in order, until the tip, a failure, or a stop. */
  method CatchUp(source: Source, store: MemoryState, node: Node, act: BlockHeight, stop: nat -> bool) returns (ok: bool)
    requires Ready(store, node, act, source.view) && ValidView(source.view)
    modifies source, store
    ensures Ready(store, node, act, source.view) && Consecutive(old(store.chain), store.chain, source.tip)
    ensures ok && (forall k :: !stop(k)) ==> source.tip == 0 || Reached(store.chain, source.tip)
    ensures Reliable(source) && source.tip < |source.view| ==> ok
  {
    hide Follows, Holds, CommitAt;
    var rounds := 0;
    while true
      invariant Ready(store, node, act, source.view)
      invariant Consecutive(old(store.chain), store.chain, source.tip)
      invariant NextHeight(store.chain) == NextHeight(old(store.chain)) + |store.chain| - |old(store.chain)|
      decreases source.tip as int - NextHeight(store.chain)
    {
      if stop(rounds) {
        return true;
      }
      rounds := rounds + 1;
      var round := CatchUpRound(source, store, node, Some(act));
      if round.Done? {
        return true;
      }
      if round.Failed? {
        return false;
      }
    }
    ok := true;
  }

  /**
    * Without an activation height the loop comes back to the same height for ever: after any number of
    * rounds against a source that answers, the store is as it was and the loop has still not ended.
    */
  method RoundsWithoutActivation(source: Source, store: MemoryState, node: Node, rounds: nat) returns (last: Round)
    requires store.Valid() && ValidView(source.view)
    requires Reliable(source) && NextHeight(store.chain) <= source.tip < |source.view|
    modifies source, store
    ensures store.Valid() && store.chain == old(store.chain) && last.Again?
  {
    last := Again;
    for i := 0 to rounds
      invariant store.Valid() && store.chain == old(store.chain) && last.Again?
    {
      last := CatchUpRound(source, store, node, None);
    }
  }

  // ---- What a tick may do to the stored history ----

  /** What the world does during one tick. */
  datatype Weather = Weather(view: View, tip: BlockHeight, fails: nat -> bool, stop: nat -> bool)

  /** Every call is answered, and the blocks up to the tip exist. */
  ghost predicate Calm(w: Weather) {
    (forall k :: !w.fails(k)) && w.tip < |w.view|
  }

  /**
    * Whatever the history was, a completed tick leaves one that follows the current view and adds to
    * what the reorg check kept just the blocks up to the tip, all of them unless stopped; a failed tick
    * leaves a history between the old one and what the check keeps, or one that already follows the
    * current view and was added to in the same way. No tick completes on a view that is shorter than the
    * history, and in calm weather every other does.
    */
  ghost predicate TickStep(node: Node, act: BlockHeight, chain: seq<BlockCommit>, chain': seq<BlockCommit>,
      outcome: Outcome, w: Weather) {
    var kept := CanonicalPrefix(chain, w.view);
    && kept <= chain'
    && (outcome.Completed? ==>
          && outcome == Completed(w.tip, IndexedHeight(chain), IndexedHeight(chain'))
          && Follows(node, act, chain', w.view) && Grown(act, kept, chain', w.tip)
          && ((forall k :: !w.stop(k)) ==> w.tip == 0 || Reached(chain', w.tip)))
    && (outcome.Transient? ==>
          chain' <= chain || (Follows(node, act, chain', w.view) && Grown(act, kept, chain', w.tip)))
    && (Reached(chain, |w.view|) ==> outcome.Transient?)
    && (Calm(w) && !Reached(chain, |w.view|) ==> outcome.Completed?)
  }

  /** `tick`. */
  method Tick(source: Source, store: MemoryState, node: Node, act: BlockHeight, stop: nat -> bool,
      ghost prior: View) returns (r: Outcome)
    requires Ready(store, node, act, prior) && Linked(prior, source.view) && ValidView(source.view)
    modifies source, store
    ensures store.Valid()
    ensures TickStep(node, act, old(store.chain), store.chain, r, Weather(source.view, source.tip, source.fails, stop))
  {
    hide Follows, Holds, Linked, ValidView, CanonicalPrefix, AfterRollback, Min, Grown, Consecutive;
    CanonicalPrefixShort(store.chain, source.view);
    LastRecord(StateRoot.RootOf(store.hashes), store.Current(), store.chain);
    var before := store.metadata.height;
    var tip := source.Tip();
    if tip.None? {
      return Transient;
    }
    var settled := HandleReorg(source, store, node, act, prior);
    if !settled {
      return Transient;
    }
    ghost var kept := store.chain;
    var forwarded := FastForward(source, store, node, act);
    if !forwarded {
      return Transient;
    }
    ghost var forward := store.chain;
    var caughtUp := CatchUp(source, store, node, act, stop);
    ConsecutiveGrows(act, forward, store.chain, source.tip);
    GrownThen(act, kept, forward, store.chain, source.tip);
    if !caughtUp {
      return Transient;
    }
    LastRecord(StateRoot.RootOf(store.hashes), store.Current(), store.chain);
    r := Completed(tip.value, before, store.metadata.height);
  }

  // ---- Runs ----

  ghost predicate Fair(weather: seq<Weather>) {
    && (forall i :: 0 <= i < |weather| ==> ValidView(weather[i].view))
    && (forall i, j :: 0 <= i < |weather| && 0 <= j < |weather| ==> Linked(weather[i].view, weather[j].view))
  }

  ghost predicate IsRun(node: Node, act: BlockHeight, chains: seq<seq<BlockCommit>>, outcomes: seq<Outcome>,
      weather: seq<Weather>) {
    && |chains| == |weather| + 1 && |outcomes| == |weather| && chains[0] == []
    && forall i :: 0 <= i < |weather| ==> TickStep(node, act, chains[i], chains[i + 1], outcomes[i], weather[i])
  }

  /** At every point of a run the history follows some view already seen. */
  lemma {:induction false} RunFollowsSeen(node: Node, act: BlockHeight, chains: seq<seq<BlockCommit>>,
      outcomes: seq<Outcome>, weather: seq<Weather>, i: nat) returns (seen: nat)
    requires IsRun(node, act, chains, outcomes, weather) && i < |weather|
    ensures seen <= i && Follows(node, act, chains[i + 1], weather[seen].view)
  {
    hide Follows, CanonicalPrefix;
    assert TickStep(node, act, chains[i], chains[i + 1], outcomes[i], weather[i]);
    NothingFollows(node, act, weather[0].view);
    if Follows(node, act, chains[i + 1], weather[i].view) {
      seen := i;
    } else {
      seen := RunFollowsSeen(node, act, chains, outcomes, weather, i - 1);
      FollowsPrefix(node, act, chains[i], weather[seen].view, |chains[i + 1]|);
      assert chains[i][..|chains[i + 1]|] == chains[i + 1];
    }
  }

  lemma NothingFollows(node: Node, act: BlockHeight, view: View)
    ensures Follows(node, act, [], view)
  {
  }

  /** The state is the clean replay of `view` up to the indexed height. */
  ghost predicate Converged(s: State, indexed: Option<BlockHeight>, node: Node, act: BlockHeight, view: View) {
    match indexed
    case None => s == EMPTY
    case Some(h) => h < |view| && s == CleanState(node, act, view, h)
  }

  /**
    * Reorg convergence: after each completed tick of a run, however the chain changed and whatever
    * failed before it, the replayed state is the clean replay of the chain as that tick saw it.
    */
  lemma RunConverges(node: Node, act: BlockHeight, chains: seq<seq<BlockCommit>>, outcomes: seq<Outcome>,
      weather: seq<Weather>, i: nat)
    requires IsRun(node, act, chains, outcomes, weather) && i < |weather| && outcomes[i].Completed?
    ensures Converged(Replay(chains[i + 1]), outcomes[i].after, node, act, weather[i].view)
  {
    hide Follows, CleanState, CanonicalPrefix;
    assert TickStep(node, act, chains[i], chains[i + 1], outcomes[i], weather[i]);
    EmptyReplay();
    if chains[i + 1] != [] {
      FollowsReplaysClean(node, act, chains[i + 1], weather[i].view);
    }
  }

  /**
    * `run`: any number of ticks from an empty store, one source for each. The store ends as the run's last
    * history says.
    */
  method Run(store: MemoryState, node: Node, act: BlockHeight, weather: seq<Weather>)
    returns (outcomes: seq<Outcome>, ghost chains: seq<seq<BlockCommit>>)
    requires store.Valid() && store.chain == [] && Fair(weather)
    modifies store
    ensures IsRun(node, act, chains, outcomes, weather)
    ensures store.Valid() && store.chain == chains[|weather|]
    ensures State(store.contracts, store.storage) == Replay(chains[|weather|])
    ensures store.metadata.height == IndexedHeight(chains[|weather|])
  {
    hide Holds, Linked, ValidView, TickStep, Follows;
    outcomes, chains := [], [store.chain];
    for i := 0 to |weather|
      invariant IsRun(node, act, chains, outcomes, weather[..i])
      invariant store.Valid() && store.chain == chains[i]
    {
      ghost var prior := weather[i].view;
      NothingFollows(node, act, prior);
      if i > 0 {
        ghost var seen := RunFollowsSeen(node, act, chains, outcomes, weather[..i], i - 1);
        prior := weather[seen].view;
      }
      assert Linked(prior, weather[i].view) && ValidView(weather[i].view);
      var source := new Source(weather[i].view, weather[i].tip, weather[i].fails);
      var outcome := Tick(source, store, node, act, weather[i].stop, prior);
      RunGrows(node, act, chains, outcomes, weather, i, store.chain, outcome);
      outcomes := outcomes + [outcome];
      chains := chains + [store.chain];
    }
    assert weather[..|weather|] == weather;
    LastRecord(StateRoot.RootOf(store.hashes), store.Current(), store.chain);
  }

  lemma RunGrows(node: Node, act: BlockHeight, chains: seq<seq<BlockCommit>>, outcomes: seq<Outcome>,
      weather: seq<Weather>, i: nat, chain: seq<BlockCommit>, outcome: Outcome)
    requires i < |weather| && IsRun(node, act, chains, outcomes, weather[..i])
    requires TickStep(node, act, chains[i], chain, outcome, weather[i])
    ensures IsRun(node, act, chains + [chain], outcomes + [outcome], weather[..i + 1])
  {
    hide TickStep;
  }
}
