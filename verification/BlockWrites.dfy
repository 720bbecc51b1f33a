/** What the successful calls of a block do to storage once their writes are committed together. */
module BlockWrites {
  import opened Options
  import opened ByteStrings
  import opened MapUndo
  import opened World
  import opened StateRoot
  import opened Runtime

  // ---- apply_write ----

  function Upserts(writes: seq<StorageWrite>): seq<(Slot, Bytes)> {
    if writes == [] then [] else
      var front, last := Upserts(writes[..|writes| - 1]), writes[|writes| - 1];
      if last.WriteSet? then front + [(Slot(last.contract, last.key), last.value)] else front
  }

  function Deletes(writes: seq<StorageWrite>): seq<Slot> {
    if writes == [] then [] else
      var front, last := Deletes(writes[..|writes| - 1]), writes[|writes| - 1];
      if last.WriteDelete? then front + [Slot(last.contract, last.key)] else front
  }

  function WithWrites(c: BlockCommit, writes: seq<StorageWrite>): BlockCommit {
    c.(upserts := c.upserts + Upserts(writes), deletes := c.deletes + Deletes(writes))
  }

  method ApplyWrites(c: BlockCommit, writes: seq<StorageWrite>) returns (c': BlockCommit)
    ensures c' == WithWrites(c, writes)
  {
    c' := c;
    for i := 0 to |writes|
      invariant c' == WithWrites(c, writes[..i])
    {
      assert writes[..i + 1][..i] == writes[..i];
      match writes[i] {
        case WriteSet(id, key, value) => c' := c'.(upserts := c'.upserts + [(Slot(id, key), value)]);
        case WriteDelete(id, key) => c' := c'.(deletes := c'.deletes + [Slot(id, key)]);
      }
    }
    assert writes[..|writes|] == writes;
  }

  lemma {:induction false} WritesConcat(a: seq<StorageWrite>, b: seq<StorageWrite>)
    ensures Upserts(a + b) == Upserts(a) + Upserts(b) && Deletes(a + b) == Deletes(a) + Deletes(b)
  {
    if b == [] {
      assert a + b == a;
    } else {
      assert (a + b)[..|a + b| - 1] == a + b[..|b| - 1];
      WritesConcat(a, b[..|b| - 1]);
    }
  }

  lemma {:induction false} LastPutConcat<K, V>(a: seq<(K, V)>, b: seq<(K, V)>, k: K)
    ensures LastPut(a + b, k) == if LastPut(b, k).Some? then LastPut(b, k) else LastPut(a, k)
  {
    if b == [] {
      assert a + b == a;
    } else {
      assert (a + b)[..|a + b| - 1] == a + b[..|b| - 1];
      LastPutConcat(a, b[..|b| - 1], k);
    }
  }

  // ---- One call ----

  predicate Sets(id: Bytes32, overlay: Overlay, slot: Slot) {
    slot.contract == id && slot.key in overlay && overlay[slot.key].Some?
  }

  predicate Removes(id: Bytes32, overlay: Overlay, slot: Slot) {
    slot.contract == id && slot.key in overlay && overlay[slot.key].None?
  }

  lemma {:induction false} WritesOverKeys(id: Bytes32, overlay: Overlay, keys: seq<Bytes>, slot: Slot)
    requires forall key :: key in keys ==> key in overlay
    ensures LastPut(Upserts(WritesOver(id, overlay, keys)), slot) ==
      if slot.key in keys && Sets(id, overlay, slot) then overlay[slot.key] else None
    ensures slot in Deletes(WritesOver(id, overlay, keys)) <==> slot.key in keys && Removes(id, overlay, slot)
  {
    if keys != [] {
      var front, last := keys[..|keys| - 1], keys[|keys| - 1];
      assert keys == front + [last];
      assert WritesOver(id, overlay, keys)[..|keys| - 1] == WritesOver(id, overlay, front);
      WritesOverKeys(id, overlay, front, slot);
      assert slot == Slot(slot.contract, slot.key);
    }
  }

  lemma SortedKeysMembers(s: set<Bytes>, key: Bytes)
    ensures key in SortedKeys(s) <==> key in s
  {
    var listed := SomeListing(s);
    SortSorts(listed);
    assert key in multiset(Sort(listed)) <==> key in multiset(listed);
  }

  lemma OverlayWrites(id: Bytes32, overlay: Overlay, slot: Slot)
    ensures LastPut(Upserts(Writes(id, overlay)), slot) == if Sets(id, overlay, slot) then overlay[slot.key] else None
    ensures slot in Deletes(Writes(id, overlay)) <==> Removes(id, overlay, slot)
  {
    hide SortedKeys;
    forall key ensures key in SortedKeys(overlay.Keys) <==> key in overlay {
      SortedKeysMembers(overlay.Keys, key);
    }
    WritesOverKeys(id, overlay, SortedKeys(overlay.Keys), slot);
  }

  // ---- Many calls: each reads the store as it was before the block ----

  /** A successful call: the contract it ran and the overlay it ended with. */
  datatype Effect = Effect(contract: Bytes32, overlay: Overlay)

  ghost function AllWrites(calls: seq<Effect>): seq<StorageWrite> {
    if calls == [] then [] else
      AllWrites(calls[..|calls| - 1]) + Writes(calls[|calls| - 1].contract, calls[|calls| - 1].overlay)
  }

  ghost predicate RemovedBySome(calls: seq<Effect>, slot: Slot) {
    exists e :: e in calls && Removes(e.contract, e.overlay, slot)
  }

  function LastSet(calls: seq<Effect>, slot: Slot): Option<Bytes> {
    if calls == [] then None else
      var last := calls[|calls| - 1];
      if Sets(last.contract, last.overlay, slot) then last.overlay[slot.key] else LastSet(calls[..|calls| - 1], slot)
  }

  lemma {:induction false} AllWritesAt(calls: seq<Effect>, slot: Slot)
    ensures LastPut(Upserts(AllWrites(calls)), slot) == LastSet(calls, slot)
    ensures slot in Deletes(AllWrites(calls)) <==> RemovedBySome(calls, slot)
  {
    hide Writes, Sets, Removes;
    if calls != [] {
      var front, last := calls[..|calls| - 1], calls[|calls| - 1];
      assert calls == front + [last];
      AllWritesAt(front, slot);
      OverlayWrites(last.contract, last.overlay, slot);
      WritesConcat(AllWrites(front), Writes(last.contract, last.overlay));
      LastPutConcat(Upserts(AllWrites(front)), Upserts(Writes(last.contract, last.overlay)), slot);
      OneEffect(last, slot);
    }
  }

  /** The store after a block whose commit holds the writes of `calls` and nothing else in storage. */
  ghost function AfterBlock(w: State, c: BlockCommit, calls: seq<Effect>): State {
    Apply(w, WithWrites(c.(upserts := [], deletes := []), AllWrites(calls)))
  }

  /** Absent if any call removed it, else the last value set, else as it was before the block. */
  ghost function Final(storage: map<Slot, Bytes>, calls: seq<Effect>, slot: Slot): Option<Bytes> {
    if RemovedBySome(calls, slot) then None
    else if LastSet(calls, slot).Some? then LastSet(calls, slot)
    else Lookup(storage, slot)
  }

  lemma SlotAfterCalls(w: State, c: BlockCommit, calls: seq<Effect>, slot: Slot)
    ensures Lookup(AfterBlock(w, c, calls).storage, slot) == Final(w.storage, calls, slot)
  {
    hide AllWrites, Upserts, Deletes, LastPut, LastSet, RemovedBySome, Apply;
    AllWritesAt(calls, slot);
    var commit := WithWrites(c.(upserts := [], deletes := []), AllWrites(calls));
    assert commit.upserts == Upserts(AllWrites(calls)) && commit.deletes == Deletes(AllWrites(calls));
    SlotAfterCommit(w, commit, slot);
  }

  lemma AllWritesOfOne(e: Effect)
    ensures AllWrites([e]) == Writes(e.contract, e.overlay)
  {
  }

  /** Committing one call's writes leaves every slot as the call last saw it. */
  lemma SlotAfterOneCall(w: State, c: BlockCommit, e: Effect, slot: Slot)
    ensures Lookup(AfterBlock(w, c, [e]).storage, slot) == Seen(w, e.contract, e.overlay, slot)
  {
    SlotAfterCalls(w, c, [e], slot);
    assert e in [e] && [e][..0] == [];
    assert LastSet([e], slot) == if Sets(e.contract, e.overlay, slot) then e.overlay[slot.key] else None;
  }

  // ---- A call as a transaction on the store itself ----

  datatype Transaction = Transaction(storage: map<Slot, Bytes>, result: CallResult)

  /** Runs the contract on the store in place and takes everything back unless it succeeds. */
  ghost function Directly(w: State, program: Program, ctx: CallContext): Transaction {
    var d := Run(DirectHost(ctx.contractId), program, ctx, Direct(w.storage, {}, []), [], ctx.fuelLimit);
    var result := Conclude(ctx, d.host.output, [], d.last);
    Transaction(if result.Success? then d.host.storage else w.storage, result)
  }

  function Committed(r: CallResult): seq<StorageWrite> {
    if r.Success? then r.writes else []
  }

  /** Same status, output and fuel. */
  predicate SameOutcome(a: CallResult, b: CallResult) {
    match a
    case Success(output, fuel, _) => b.Success? && b.output == output && b.fuelUsed == fuel
    case _ => a == b
  }

  /**
    * A block with one call: buffering in the overlay and committing the materialized writes ends like
    * running the contract on the store itself, and a call that fails changes nothing.
    */
  lemma CallRefinesDirect(engine: Engine, w: State, ctx: CallContext, c: BlockCommit, program: Program)
    requires ctx.depth <= MAX_CALL_DEPTH && ctx.contractId in w.contracts
    requires engine(w.contracts[ctx.contractId].wasm) == Dispatches(program)
    requires c.upserts == [] && c.deletes == []
    ensures var r, t := Executed(engine, w, ctx), Directly(w, program, ctx);
      SameOutcome(r, t.result) && Apply(w, WithWrites(c, Committed(r))).storage == t.storage
  {
    hide Run, Shows, Writes, Apply, WithWrites;
    var id := ctx.contractId;
    var o := Run(OverlayHost(w, id), program, ctx, Buffer(map[], []), [], ctx.fuelLimit);
    var d := Run(DirectHost(id), program, ctx, Direct(w.storage, {}, []), [], ctx.fuelLimit);
    OverlayRefinesDirect(w, program, ctx);
    assert o.host.output == d.host.output by { ShowsOutput(w, id, o.host, d.host); }
    OneCallStore(w, c, id, o.host, d.host);
    NothingWritten(w, c);
  }

  lemma ShowsOutput(w: State, id: Bytes32, b: Buffer, d: Direct)
    requires Shows(w, id, b, d)
    ensures b.output == d.output
  {
  }

  lemma OneCallStore(w: State, c: BlockCommit, id: Bytes32, b: Buffer, d: Direct)
    requires Shows(w, id, b, d) && c.upserts == [] && c.deletes == []
    ensures Apply(w, WithWrites(c, Writes(id, b.overlay))).storage == d.storage
  {
    hide Apply, WithWrites, Writes, Seen, AllWrites;
    var e := Effect(id, b.overlay);
    AllWritesOfOne(e);
    assert c.(upserts := [], deletes := []) == c;
    forall slot ensures Lookup(Apply(w, WithWrites(c, Writes(id, b.overlay))).storage, slot) ==
      Lookup(d.storage, slot) {
      SlotAfterOneCall(w, c, e, slot);
    }
    MapExtensionality(Apply(w, WithWrites(c, Writes(id, b.overlay))).storage, d.storage);
  }

  lemma NothingWritten(w: State, c: BlockCommit)
    requires c.upserts == [] && c.deletes == []
    ensures Apply(w, WithWrites(c, [])).storage == w.storage
  {
  }

  // ---- When a block of calls differs from its calls one after another ----

  function Overlaid(storage: map<Slot, Bytes>, e: Effect): map<Slot, Bytes> {
    (map slot | slot in storage && !Removes(e.contract, e.overlay, slot) :: storage[slot])
    + (map key | key in e.overlay && e.overlay[key].Some? :: Slot(e.contract, key) := e.overlay[key].value)
  }

  /** The effects applied to storage one call after another. */
  function InSequence(storage: map<Slot, Bytes>, calls: seq<Effect>): map<Slot, Bytes> {
    if calls == [] then storage else Overlaid(InSequence(storage, calls[..|calls| - 1]), calls[|calls| - 1])
  }

  /** The last call to write the slot set it, although an earlier one had removed it. */
  ghost predicate SetAgain(calls: seq<Effect>, slot: Slot) {
    exists i, j :: SetAfterRemoval(calls, i, j, slot)
  }

  ghost predicate SetAfterRemoval(calls: seq<Effect>, i: int, j: int, slot: Slot) {
    && 0 <= i < j < |calls| && Removes(calls[i].contract, calls[i].overlay, slot)
      && Sets(calls[j].contract, calls[j].overlay, slot)
    && forall k :: j < k < |calls| ==> !Removes(calls[k].contract, calls[k].overlay, slot)
  }

  lemma OverlaidAt(storage: map<Slot, Bytes>, e: Effect, slot: Slot)
    ensures Lookup(Overlaid(storage, e), slot) ==
      if Sets(e.contract, e.overlay, slot) then e.overlay[slot.key]
      else if Removes(e.contract, e.overlay, slot) then None
      else Lookup(storage, slot)
  {
  }

  /** What the calls in sequence leave in a slot: the effect of the last one that wrote it. */
  lemma {:induction false} InSequenceAt(storage: map<Slot, Bytes>, calls: seq<Effect>, slot: Slot)
    ensures SetAgain(calls, slot) ==> Lookup(InSequence(storage, calls), slot).Some?
    ensures !SetAgain(calls, slot) ==> Lookup(InSequence(storage, calls), slot) == Final(storage, calls, slot)
  {
    hide Sets, Removes, Overlaid;
    if calls != [] {
      var n := |calls| - 1;
      var front, last := calls[..n], calls[n];
      assert calls == front + [last];
      InSequenceAt(storage, front, slot);
      OverlaidAt(InSequence(storage, front), last, slot);
      OneEffect(last, slot);
      SetAgainStep(calls, slot);
    }
  }

  lemma OneEffect(e: Effect, slot: Slot)
    ensures !(Sets(e.contract, e.overlay, slot) && Removes(e.contract, e.overlay, slot))
    ensures Sets(e.contract, e.overlay, slot) ==> e.overlay[slot.key].Some?
  {
  }

  lemma SetAgainStep(calls: seq<Effect>, slot: Slot)
    requires calls != []
    ensures var n := |calls| - 1;
      SetAgain(calls, slot) <==>
        if Sets(calls[n].contract, calls[n].overlay, slot) then RemovedBySome(calls[..n], slot)
        else SetAgain(calls[..n], slot) && !Removes(calls[n].contract, calls[n].overlay, slot)
  {
    if SetAgain(calls, slot) {
      SetAgainBefore(calls, slot);
    }
    SetAgainAfter(calls, slot);
  }

  lemma SetAgainBefore(calls: seq<Effect>, slot: Slot)
    requires calls != [] && SetAgain(calls, slot)
    ensures var n := |calls| - 1;
      if Sets(calls[n].contract, calls[n].overlay, slot) then RemovedBySome(calls[..n], slot)
      else SetAgain(calls[..n], slot) && !Removes(calls[n].contract, calls[n].overlay, slot)
  {
    hide Sets, Removes;
    var front := calls[..|calls| - 1];
    var i, j :| SetAfterRemoval(calls, i, j, slot);
    assert front[i] == calls[i] && front[i] in front;
    if j < |front| {
      assert front[j] == calls[j];
      assert forall k :: j < k < |front| ==> front[k] == calls[k];
      assert SetAfterRemoval(front, i, j, slot);
    }
  }

  lemma SetAgainAfter(calls: seq<Effect>, slot: Slot)
    requires calls != []
    ensures var n := |calls| - 1;
      (if Sets(calls[n].contract, calls[n].overlay, slot) then RemovedBySome(calls[..n], slot)
       else SetAgain(calls[..n], slot) && !Removes(calls[n].contract, calls[n].overlay, slot))
      ==> SetAgain(calls, slot)
  {
    hide Sets, Removes;
    var front, last := calls[..|calls| - 1], calls[|calls| - 1];
    if Sets(last.contract, last.overlay, slot) {
      if RemovedBySome(front, slot) {
        var e :| e in front && Removes(e.contract, e.overlay, slot);
        var i :| 0 <= i < |front| && front[i] == e;
        assert calls[i] == e;
        assert SetAfterRemoval(calls, i, |front|, slot);
      }
    } else if SetAgain(front, slot) && !Removes(last.contract, last.overlay, slot) {
      var i, j :| SetAfterRemoval(front, i, j, slot);
      assert calls[i] == front[i] && calls[j] == front[j];
      assert forall k :: j < k < |front| ==> front[k] == calls[k];
      assert SetAfterRemoval(calls, i, j, slot);
    }
  }

  lemma SetAgainWasRemoved(calls: seq<Effect>, slot: Slot)
    requires SetAgain(calls, slot)
    ensures RemovedBySome(calls, slot)
  {
  }

  /**
    * A block's commit and its calls in sequence leave the same storage exactly when no slot that one
    * call removes is set again by a later call without being removed after that.
    */
  lemma BlockMatchesSequenceIff(w: State, c: BlockCommit, calls: seq<Effect>)
    ensures AfterBlock(w, c, calls).storage == InSequence(w.storage, calls) <==> forall slot :: !SetAgain(calls, slot)
  {
    hide AfterBlock, InSequence, SetAgain, RemovedBySome, LastSet;
    forall slot
      ensures Lookup(AfterBlock(w, c, calls).storage, slot) == Lookup(InSequence(w.storage, calls), slot) <==>
        !SetAgain(calls, slot)
    {
      SlotAfterCalls(w, c, calls, slot);
      InSequenceAt(w.storage, calls, slot);
      if SetAgain(calls, slot) {
        SetAgainWasRemoved(calls, slot);
      }
    }
    if forall slot :: !SetAgain(calls, slot) {
      MapExtensionality(AfterBlock(w, c, calls).storage, InSequence(w.storage, calls));
    }
  }

  /** Two calls on one key, a removal and then a set, end with the key absent. */
  lemma RemovalOutlivesLaterSet(w: State, c: BlockCommit, id: Bytes32, key: Bytes, value: Bytes)
    ensures var calls := [Effect(id, map[key := None]), Effect(id, map[key := Some(value)])];
      && Lookup(AfterBlock(w, c, calls).storage, Slot(id, key)) == None
      && Lookup(InSequence(w.storage, calls), Slot(id, key)).Some?
  {
    var calls := [Effect(id, map[key := None]), Effect(id, map[key := Some(value)])];
    var slot := Slot(id, key);
    assert calls[0] in calls && Removes(calls[0].contract, calls[0].overlay, slot);
    assert SetAfterRemoval(calls, 0, 1, slot);
    SlotAfterCalls(w, c, calls, slot);
    InSequenceAt(w.storage, calls, slot);
  }
}
