/** Versions of the chain, the histories that follow them, and what a reorg leaves of a history. */
module ChainViews {
  import opened Options
  import opened ByteStrings
  import opened World
  import opened History
  import opened MemoryStore
  import opened Indexer
  import BlockBudgets
  import KeyValue
  import Refinement
  import RocksRollback

  datatype Entry = Entry(hash: Bytes32, txs: seq<Tx>)

  /** One version of the chain, by height; a hash names one block. */
  type View = v: seq<Entry> | |v| <= U32_MODULUS

  ghost predicate ValidView(v: View) {
    v != [] && forall i, j :: 0 <= i < j < |v| ==> v[i].hash != v[j].hash
  }

  /**
    * Blocks link to their parents by hash: two views that agree somewhere agree below it, and all share
    * their genesis.
    */
  ghost predicate Linked(a: View, b: View) {
    && a != [] && b != [] && a[0] == b[0]
    && forall h :: 0 <= h < |a| && h < |b| && a[h].hash == b[h].hash ==> a[..h + 1] == b[..h + 1]
  }

  function BlockAt(view: View, h: BlockHeight): Block
    requires h < |view|
  {
    Block(h, view[h].hash, view[h].txs)
  }

  /** What indexing height `h` of a view commits on top of `w`. */
  ghost function CommitAt(node: Node, act: BlockHeight, w: State, view: View, h: BlockHeight): BlockCommit
    requires h < |view|
  {
    if h < act then EmptyCommit(h, view[h].hash) else Processed(node, w, BlockAt(view, h)).commit
  }

  /** The first height whose block can have an effect; height 0 is never processed. */
  function FirstHeight(act: BlockHeight): BlockHeight {
    if act == 0 then 1 else act
  }

  /** Clean replay: every block of the view up to `h`, from the empty state. */
  ghost function CleanState(node: Node, act: BlockHeight, view: View, h: BlockHeight): State
    requires h < |view|
    decreases h
  {
    if h < FirstHeight(act) then EMPTY else
      var before := CleanState(node, act, view, h - 1);
      Apply(before, CommitAt(node, act, before, view, h))
  }

  // ---- The invariant: the surviving commits are those of one view ----

  ghost predicate Placed(node: Node, act: BlockHeight, chain: seq<BlockCommit>, view: View, i: nat)
    requires i < |chain|
  {
    var h := chain[i].height;
    && h < |view| && (h == 0 ==> act > 0) && chain[i] == CommitAt(node, act, Replay(chain[..i]), view, h)
    && (h > FirstHeight(act) ==> i > 0 && chain[i - 1].height + 1 == h)
  }

  /** Gaps are possible only below activation, where nothing has an effect. */
  ghost predicate Follows(node: Node, act: BlockHeight, chain: seq<BlockCommit>, view: View) {
    IncreasingHeights(chain) && forall i :: 0 <= i < |chain| ==> Placed(node, act, chain, view, i)
  }

  lemma CommitNamesBlock(node: Node, act: BlockHeight, w: State, view: View, h: BlockHeight)
    requires h < |view|
    ensures var c := CommitAt(node, act, w, view, h); c.height == h && c.blockHash == view[h].hash
    ensures Some(CommitAt(node, act, w, view, h)) == CommitFor(node, Some(act), w, BlockAt(view, h))
  {
    hide Processed;
    if h >= act {
      BlockBudgets.CommitsAreBounded(node, Some(act), w, BlockAt(view, h), Processed(node, w, BlockAt(view, h)).commit);
    }
  }

  lemma FollowsPrefix(node: Node, act: BlockHeight, chain: seq<BlockCommit>, view: View, n: nat)
    requires Follows(node, act, chain, view) && n <= |chain|
    ensures Follows(node, act, chain[..n], view)
  {
    hide CommitAt;
    forall i | 0 <= i < n ensures Placed(node, act, chain[..n], view, i) {
      assert Placed(node, act, chain, view, i);
      assert chain[..n][..i] == chain[..i];
    }
  }

  lemma FollowsExtends(node: Node, act: BlockHeight, chain: seq<BlockCommit>, view: View, h: BlockHeight)
    requires Follows(node, act, chain, view) && h < |view| && (h == 0 ==> act > 0)
    requires chain == [] || chain[|chain| - 1].height < h
    requires h > FirstHeight(act) ==> chain != [] && chain[|chain| - 1].height + 1 == h
    ensures Follows(node, act, chain + [CommitAt(node, act, Replay(chain), view, h)], view)
  {
    var c := CommitAt(node, act, Replay(chain), view, h);
    CommitNamesBlock(node, act, Replay(chain), view, h);
    hide CommitAt, Replay;
    forall i | 0 <= i < |chain| ensures Placed(node, act, chain + [c], view, i) {
      PlacedStays(node, act, chain, c, view, i);
    }
    assert (chain + [c])[..|chain|] == chain;
    assert Placed(node, act, chain + [c], view, |chain|);
    assert IncreasingHeights(chain + [c]) by { HeightsStayIncreasing(chain, c); }
  }

  lemma HeightsStayIncreasing(chain: seq<BlockCommit>, c: BlockCommit)
    requires IncreasingHeights(chain) && Extends(chain, c)
    ensures IncreasingHeights(chain + [c])
  {
  }

  lemma PlacedStays(node: Node, act: BlockHeight, chain: seq<BlockCommit>, c: BlockCommit, view: View, i: nat)
    requires i < |chain| && Placed(node, act, chain, view, i)
    ensures Placed(node, act, chain + [c], view, i)
  {
    hide CommitAt, Replay;
    assert (chain + [c])[..i] == chain[..i];
  }

  /** Following a view means holding the state of its clean replay, gaps or not. */
  lemma {:induction false} FollowsReplaysClean(node: Node, act: BlockHeight, chain: seq<BlockCommit>, view: View)
    requires Follows(node, act, chain, view) && chain != []
    ensures chain[|chain| - 1].height < |view|
    ensures Replay(chain) == CleanState(node, act, view, chain[|chain| - 1].height)
    decreases |chain|
  {
    hide Processed;
    var n := |chain| - 1;
    var front, last := chain[..n], chain[n];
    assert Placed(node, act, chain, view, n);
    FollowsPrefix(node, act, chain, view, n);
    if front == [] {
      EmptyReplay();
    } else {
      FollowsReplaysClean(node, act, front, view);
      assert front[|front| - 1] == chain[n - 1] && chain[n - 1].height < last.height;
    }
    if last.height <= FirstHeight(act) && front != [] {
      BelowActivation(node, act, view, front[|front| - 1].height);
    }
    if last.height < act {
      BelowActivation(node, act, view, last.height);
      EmptyCommitNoEffect(Replay(front), last.height, last.blockHash);
    }
  }

  lemma EmptyReplay()
    ensures Replay([]) == EMPTY
  {
  }

  lemma BelowActivation(node: Node, act: BlockHeight, view: View, h: BlockHeight)
    requires h < |view| && h < FirstHeight(act)
    ensures CleanState(node, act, view, h) == EMPTY
  {
  }

  lemma EmptyCommitNoEffect(w: State, h: BlockHeight, hash: Bytes32)
    ensures Apply(w, EmptyCommit(h, hash)) == w
  {
  }

  /** A flat database holding a chain that follows a view reads as that view's clean replay. */
  lemma DatabaseReplaysClean(root: State -> Bytes32, db: KeyValue.Db, node: Node, act: BlockHeight,
      chain: seq<BlockCommit>, view: View)
    requires RocksRollback.Holds(root, db, chain) && Follows(node, act, chain, view) && chain != []
    ensures chain[|chain| - 1].height < |view|
    ensures Refinement.ObserveRocks(db).state == CleanState(node, act, view, chain[|chain| - 1].height)
  {
    hide Follows, CleanState, RocksRollback.Holds;
    Refinement.HoldsObserved(root, db, chain);
    FollowsReplaysClean(node, act, chain, view);
  }

  // ---- Reorgs ----

  ghost predicate Agrees(chain: seq<BlockCommit>, view: View) {
    chain == [] || (chain[|chain| - 1].height < |view|
      && view[chain[|chain| - 1].height].hash == chain[|chain| - 1].blockHash)
  }

  /** What rolling back leaves: the longest prefix whose last block is canonical. */
  ghost function CanonicalPrefix(chain: seq<BlockCommit>, view: View): seq<BlockCommit> {
    if Agrees(chain, view) then chain else CanonicalPrefix(chain[..|chain| - 1], view)
  }

  /** Agreement on the last block is agreement on all of them, so the survivors follow the new view. */
  lemma FollowsSwitch(node: Node, act: BlockHeight, chain: seq<BlockCommit>, a: View, b: View)
    requires Follows(node, act, chain, a) && Linked(a, b) && Agrees(chain, b)
    ensures Follows(node, act, chain, b)
  {
    hide Processed;
    if chain != [] {
      var n := |chain| - 1;
      var top := chain[n].height;
      assert Placed(node, act, chain, a, n);
      CommitNamesBlock(node, act, Replay(chain[..n]), a, top);
      assert a[..top + 1] == b[..top + 1];
      forall i | 0 <= i < |chain| ensures Placed(node, act, chain, b, i) {
        assert Placed(node, act, chain, a, i);
        assert chain[i].height <= top;
        assert a[..top + 1][chain[i].height] == b[..top + 1][chain[i].height];
      }
    }
  }

  lemma {:induction false} CanonicalPrefixFollows(node: Node, act: BlockHeight, chain: seq<BlockCommit>, a: View,
      b: View)
    requires Follows(node, act, chain, a) && Linked(a, b)
    ensures CanonicalPrefix(chain, b) <= chain && Follows(node, act, CanonicalPrefix(chain, b), b)
    decreases |chain|
  {
    hide Follows;
    if Agrees(chain, b) {
      FollowsSwitch(node, act, chain, a, b);
    } else {
      FollowsPrefix(node, act, chain, a, |chain| - 1);
      CanonicalPrefixFollows(node, act, chain[..|chain| - 1], a, b);
    }
  }

  lemma DropLast(chain: seq<BlockCommit>, target: int)
    requires IncreasingHeights(chain) && chain != [] && target == chain[|chain| - 1].height - 1
    ensures Survivors(chain, target) == chain[..|chain| - 1]
  {
  }

  /** The `u32` subtraction in `handle_reorg`, which wraps at zero. */
  function WrappingPred(h: BlockHeight): BlockHeight {
    if h == 0 then U32_MODULUS - 1 else h - 1
  }

  /** At height 0 the wrapped target rolls nothing back: a genesis mismatch would never resolve. */
  lemma GenesisMismatchStuck(chain: seq<BlockCommit>)
    requires chain != [] && chain[|chain| - 1].height == 0
    ensures Survivors(chain, WrappingPred(0)) == chain
  {
  }

  lemma GenesisAgrees(node: Node, act: BlockHeight, chain: seq<BlockCommit>, a: View, b: View)
    requires Follows(node, act, chain, a) && Linked(a, b) && chain != [] && !Agrees(chain, b)
    ensures chain[|chain| - 1].height > 0
  {
    var n := |chain| - 1;
    assert Placed(node, act, chain, a, n);
    CommitNamesBlock(node, act, Replay(chain[..n]), a, chain[n].height);
  }

  // ---- A view that changes within a tick ----

  function IndexedHeight(chain: seq<BlockCommit>): Option<BlockHeight> {
    if chain == [] then None else Some(chain[|chain| - 1].height)
  }

  function NextHeight(chain: seq<BlockCommit>): nat {
    if chain == [] then 1 else chain[|chain| - 1].height + 1
  }

  /** A chain to which the catch-up loop adds the next block, without comparing its parent. */
  ghost function WithNext(node: Node, act: BlockHeight, chain: seq<BlockCommit>, b: View): seq<BlockCommit>
    requires NextHeight(chain) < |b|
  {
    chain + [CommitAt(node, act, Replay(chain), b, NextHeight(chain))]
  }

  /**
    * Indexing the next block from a view that has changed goes right exactly when the last stored block is
    * still canonical.
    */
  lemma MidTickSwitchIff(node: Node, act: BlockHeight, chain: seq<BlockCommit>, a: View, b: View)
    requires Follows(node, act, chain, a) && Linked(a, b) && NextHeight(chain) < |b|
    ensures Follows(node, act, WithNext(node, act, chain, b), b) <==> Agrees(chain, b)
  {
    hide CommitAt;
    if Agrees(chain, b) {
      FollowsSwitch(node, act, chain, a, b);
      FollowsExtends(node, act, chain, b, NextHeight(chain));
    } else if Follows(node, act, WithNext(node, act, chain, b), b) {
      FollowsPrefix(node, act, WithNext(node, act, chain, b), b, |chain|);
      assert WithNext(node, act, chain, b)[..|chain|] == chain;
      FollowsAgrees(node, act, chain, b);
    }
  }

  lemma FollowsAgrees(node: Node, act: BlockHeight, chain: seq<BlockCommit>, view: View)
    requires Follows(node, act, chain, view)
    ensures Agrees(chain, view)
  {
    if chain != [] {
      var n := |chain| - 1;
      assert Placed(node, act, chain, view, n);
      CommitNamesBlock(node, act, Replay(chain[..n]), view, chain[n].height);
    }
  }

  /**
    * If the last stored block is no longer canonical, the check against the view that the history was
    * continued from passes, although it follows no view linked with that one.
    */
  lemma MidTickSwitchUndetected(node: Node, act: BlockHeight, chain: seq<BlockCommit>, a: View, b: View, v: View)
    requires Follows(node, act, chain, a) && !Agrees(chain, b) && NextHeight(chain) < |b| && Linked(v, b)
    ensures var longer := WithNext(node, act, chain, b);
      Agrees(longer, b) && CanonicalPrefix(longer, b) == longer && !Follows(node, act, longer, v)
  {
    var h := NextHeight(chain);
    var longer := WithNext(node, act, chain, b);
    CommitNamesBlock(node, act, Replay(chain), b, h);
    hide CommitAt, Follows, Linked;
    if Follows(node, act, longer, v) {
      FollowsAgrees(node, act, longer, v);
      SharedBelow(v, b, h, h - 1);
      FollowsPrefix(node, act, longer, v, |chain|);
      assert longer[..|chain|] == chain;
      FollowsAgrees(node, act, chain, v);
    }
  }

  lemma SharedBelow(a: View, b: View, h: nat, k: nat)
    requires Linked(a, b) && k <= h < |a| && h < |b| && a[h].hash == b[h].hash
    ensures a[k] == b[k]
  {
    assert a[..h + 1][k] == b[..h + 1][k];
  }

  /** What it does follow is the splice of the two views. */
  lemma MidTickSwitchFollowsSplice(node: Node, act: BlockHeight, chain: seq<BlockCommit>, a: View, b: View)
    requires Follows(node, act, chain, a) && NextHeight(chain) < |b| && NextHeight(chain) <= |a|
    ensures Follows(node, act, WithNext(node, act, chain, b), a[..NextHeight(chain)] + b[NextHeight(chain)..])
  {
    var h := NextHeight(chain);
    var splice: View := a[..h] + b[h..];
    forall i | 0 <= i < |chain| ensures Placed(node, act, chain, splice, i) {
      assert Placed(node, act, chain, a, i);
      assert chain[i].height < h by { assert i < |chain| - 1 ==> chain[i].height < chain[|chain| - 1].height; }
    }
    hide Processed;
    FollowsExtends(node, act, chain, splice, h);
  }

  /** Later additions to a spliced history, each made from a view that still has the last block. */
  ghost predicate Regrown(node: Node, act: BlockHeight, chain: seq<BlockCommit>, b: View, chains: seq<seq<BlockCommit>>,
      views: seq<View>) {
    && |chains| == |views| > 0 && views[0] == b
    && NextHeight(chain) < |b| && chains[0] == WithNext(node, act, chain, b)
    && forall i :: 0 < i < |chains| ==>
      && Agrees(chains[i - 1], views[i]) && NextHeight(chains[i - 1]) < |views[i]|
      && chains[i] == WithNext(node, act, chains[i - 1], views[i])
  }

  ghost predicate AllLinked(views: seq<View>) {
    forall i, j :: 0 <= i < |views| && 0 <= j < |views| ==> Linked(views[i], views[j])
  }

  predicate HasBlock(view: View, h: nat, hash: Bytes32) {
    h < |view| && view[h].hash == hash
  }

  /** From the splice on, a regrown history consists of blocks of its latest view, the spliced one among them. */
  lemma {:induction false} RegrownNamed(node: Node, act: BlockHeight, chain: seq<BlockCommit>, b: View,
      chains: seq<seq<BlockCommit>>, views: seq<View>, i: nat)
    requires Regrown(node, act, chain, b, chains, views) && AllLinked(views) && i < |chains|
    ensures |chain| < |chains[i]| && chains[0] <= chains[i]
    ensures NextHeight(chains[i]) == NextHeight(chain) + |chains[i]| - |chain|
    ensures forall k :: |chain| <= k < |chains[i]| ==>
      && chains[i][k].height == NextHeight(chain) + k - |chain|
      && HasBlock(views[i], chains[i][k].height, chains[i][k].blockHash)
  {
    hide CommitAt;
    if i == 0 {
      CommitNamesBlock(node, act, Replay(chain), b, NextHeight(chain));
    } else {
      var before := chains[i - 1];
      RegrownNamed(node, act, chain, b, chains, views, i - 1);
      CommitNamesBlock(node, act, Replay(before), views[i], NextHeight(before));
      var top := before[|before| - 1].height;
      forall k | |chain| <= k < |before| ensures HasBlock(views[i], before[k].height, before[k].blockHash) {
        SharedBelow(views[i - 1], views[i], top, before[k].height);
      }
    }
  }

  /** As long as the views it grows from have its last block, every check passes and no linked view is followed. */
  lemma SpliceSurvives(node: Node, act: BlockHeight, chain: seq<BlockCommit>, a: View, b: View,
      chains: seq<seq<BlockCommit>>, views: seq<View>, i: nat, v: View)
    requires Follows(node, act, chain, a) && !Agrees(chain, b)
    requires Regrown(node, act, chain, b, chains, views) && AllLinked(views) && i < |chains| && Linked(v, b)
    ensures Agrees(chains[i], views[i]) && CanonicalPrefix(chains[i], views[i]) == chains[i]
    ensures !Follows(node, act, chains[i], v)
  {
    hide CommitAt, Follows, Linked;
    RegrownNamed(node, act, chain, b, chains, views, i);
    MidTickSwitchUndetected(node, act, chain, a, b, v);
    assert chains[i][..|chains[0]|] == chains[0];
    if Follows(node, act, chains[i], v) {
      FollowsPrefix(node, act, chains[i], v, |chains[0]|);
    }
  }

  /** What the reorg check against `c` keeps of a history that continues `chain` with blocks of a linked view. */
  lemma {:induction false} SpliceKept(chain: seq<BlockCommit>, later: seq<BlockCommit>, w: View, c: View, n: nat)
    requires chain < later && |chain| <= n <= |later| && Linked(w, c)
    requires forall k :: |chain| <= k < |later| ==>
      later[k].height == NextHeight(chain) + k - |chain| && HasBlock(w, later[k].height, later[k].blockHash)
    ensures var kept := CanonicalPrefix(later[..n], c);
      if n > |chain| && HasBlock(c, NextHeight(chain), later[|chain|].blockHash) then later[..|chain| + 1] <= kept
      else kept == CanonicalPrefix(chain, c)
    decreases n
  {
    hide Linked;
    if n == |chain| {
      assert later[..n] == chain;
    } else if Agrees(later[..n], c) {
      SharedBelow(w, c, later[n - 1].height, NextHeight(chain));
    } else {
      assert later[..n][..n - 1] == later[..n - 1];
      SpliceKept(chain, later, w, c, n - 1);
    }
  }

  /**
    * The reorg check of a later tick repairs a regrown history exactly when its view no longer has the
    * block at the splice: only then does what the check keeps follow that view.
    */
  lemma SpliceHealsIff(node: Node, act: BlockHeight, chain: seq<BlockCommit>, a: View, b: View,
      chains: seq<seq<BlockCommit>>, views: seq<View>, i: nat, c: View)
    requires Follows(node, act, chain, a) && !Agrees(chain, b) && Linked(a, c) && Linked(c, b)
    requires Regrown(node, act, chain, b, chains, views) && AllLinked(views) && i < |chains| && Linked(views[i], c)
    ensures var h := NextHeight(chain);
      Follows(node, act, CanonicalPrefix(chains[i], c), c) <==> !HasBlock(c, h, b[h].hash)
  {
    var h := NextHeight(chain);
    var later := chains[i];
    hide CommitAt, Follows, Linked, AllLinked;
    RegrownNamed(node, act, chain, b, chains, views, i);
    CommitNamesBlock(node, act, Replay(chain), b, h);
    hide Regrown, CanonicalPrefix, WithNext;
    assert later[|chain|] == chains[0][|chain|] && later[..|later|] == later;
    SpliceKept(chain, later, views[i], c, |later|);
    if HasBlock(c, h, b[h].hash) {
      var kept := CanonicalPrefix(later, c);
      MidTickSwitchUndetected(node, act, chain, a, b, c);
      assert kept[..|chains[0]|] == chains[0];
      if Follows(node, act, kept, c) {
        FollowsPrefix(node, act, kept, c, |chains[0]|);
      }
    } else {
      CanonicalPrefixFollows(node, act, chain, a, c);
    }
  }

  lemma LastRecord(root: State -> Bytes32, s: Contents, chain: seq<BlockCommit>)
    requires Holds(root, s, chain)
    ensures s.meta.height == if chain == [] then None else Some(chain[|chain| - 1].height)
    ensures s.meta.blockHash == if chain == [] then None else Some(chain[|chain| - 1].blockHash)
    ensures s.state == Replay(chain)
  {
  }
}
