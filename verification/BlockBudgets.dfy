/** What every block's processing stays within, and what its commit is made of. */
module BlockBudgets {
  import opened Options
  import opened ByteStrings
  import opened World
  import opened StateRoot
  import opened Frames
  import opened Carrier
  import opened DeployTransaction
  import opened Runtime
  import opened BlockWrites
  import opened Indexer
  import RocksRollback

  function FuelSum(executions: seq<Execution>): nat {
    if executions == [] then 0 else FuelSum(executions[..|executions| - 1]) + executions[|executions| - 1].fuelUsed
  }

  function WasmBytes(deploys: seq<(Bytes32, Contract)>): nat {
    if deploys == [] then 0 else WasmBytes(deploys[..|deploys| - 1]) + |deploys[|deploys| - 1].1.wasm|
  }

  // ---- The invariant of a block ----

  ghost predicate FuelKept(p: Progress) {
    && FuelSum(p.executions) == p.fuelUsed <= MAX_FUEL_PER_BLOCK
    && forall e :: e in p.executions ==> e.fuelUsed <= MAX_FUEL_PER_CALL
  }

  ghost predicate BytesKept(p: Progress) {
    WasmBytes(p.commit.deploys) <= p.deployBytes && WasmBytes(p.commit.deploys) <= MAX_DEPLOY_BYTES_PER_BLOCK
  }

  /** Acts are the executions and deployments a block performs. */
  function Acts(p: Progress): nat {
    |p.executions| + |p.deployed|
  }

  ghost predicate ActsKept(p: Progress) {
    && Acts(p) <= p.messages && Acts(p) <= MAX_MESSAGES_PER_BLOCK
    && |p.commit.deploys| == |p.deployed|
    && |p.commit.upserts| + |p.commit.deletes| <= MAX_STORAGE_WRITES_PER_CALL * |p.executions|
  }

  /** Every deployed module hashes to its contract's code hash, passed validation, and is new to the store. */
  ghost predicate DeploysSound(node: Node, w: State, deploys: seq<(Bytes32, Contract)>) {
    forall i :: 0 <= i < |deploys| ==>
      var d := deploys[i];
      && node.code(d.1.wasm) == d.1.codeHash && node.valid(d.1.wasm)
      && 0 < |d.1.wasm| <= MAX_CODE_BYTES && d.0 !in w.contracts
  }

  ghost predicate WritesFit(c: BlockCommit) {
    && (forall i :: 0 <= i < |c.upserts| ==>
      |c.upserts[i].0.key| <= MAX_STORAGE_KEY_BYTES && |c.upserts[i].1| <= MAX_STORAGE_VALUE_BYTES)
    && (forall i :: 0 <= i < |c.deletes| ==> |c.deletes[i].key| <= MAX_STORAGE_KEY_BYTES)
  }

  ghost predicate Kept(node: Node, w: State, p: Progress) {
    && FuelKept(p) && BytesKept(p) && ActsKept(p)
    && DeploysSound(node, w, p.commit.deploys) && WritesFit(p.commit)
  }

  /** The invariant of a transaction begun at `start`. */
  ghost predicate TxKept(start: Progress, tp: TxProgress) {
    && tp.fuelUsed <= MAX_FUEL_PER_TX && start.fuelUsed + tp.fuelUsed == tp.block.fuelUsed
    && Acts(start) <= Acts(tp.block) <= Acts(start) + Min(tp.messages, MAX_MESSAGES_PER_TX)
    && start.executions <= tp.block.executions && start.commit.deploys <= tp.block.commit.deploys
  }

  // ---- A call ----

  ghost predicate CallWrites(id: Bytes32, r: CallResult) {
    r.Success? ==> exists overlay :: WithinLimits(Buffer(overlay, r.output)) && r.writes == Writes(id, overlay)
  }

  lemma ExecutedWrites(engine: Engine, w: State, ctx: CallContext)
    ensures CallWrites(ctx.contractId, Executed(engine, w, ctx))
  {
    hide Writes;
    if ctx.contractId in w.contracts && engine(w.contracts[ctx.contractId].wasm).Dispatches? {
      var program := engine(w.contracts[ctx.contractId].wasm).program;
      RunWithinLimits(w, ctx.contractId, program, ctx, Buffer(map[], []), [], ctx.fuelLimit);
    }
  }

  lemma {:induction false} ListingSize<K(!new)>(ks: seq<K>, s: set<K>)
    requires Lists(ks, s)
    ensures |ks| == |s|
  {
    if ks == [] {
      ListsNothing(ks, s);
    } else {
      RemoveListed(ks, 0, s);
      ListingSize(ks[..0] + ks[1..], s - {ks[0]});
      assert ks[0] in ks;
    }
  }

  lemma SortedKeysSize(s: set<Bytes>)
    ensures |SortedKeys(s)| == |s|
  {
    var listed := SomeListing(s);
    ListingSize(listed, s);
    SortSorts(listed);
    assert |multiset(Sort(listed))| == |Sort(listed)| && |multiset(listed)| == |listed|;
  }

  lemma {:induction false} WritesCount(writes: seq<StorageWrite>)
    ensures |Upserts(writes)| + |Deletes(writes)| == |writes|
  {
    if writes != [] {
      WritesCount(writes[..|writes| - 1]);
    }
  }

  predicate WriteFits(write: StorageWrite) {
    |write.key| <= MAX_STORAGE_KEY_BYTES && (write.WriteSet? ==> |write.value| <= MAX_STORAGE_VALUE_BYTES)
  }

  lemma {:induction false} WritesElements(writes: seq<StorageWrite>)
    requires forall i :: 0 <= i < |writes| ==> WriteFits(writes[i])
    ensures forall i :: 0 <= i < |Upserts(writes)| ==>
      |Upserts(writes)[i].0.key| <= MAX_STORAGE_KEY_BYTES && |Upserts(writes)[i].1| <= MAX_STORAGE_VALUE_BYTES
    ensures forall i :: 0 <= i < |Deletes(writes)| ==> |Deletes(writes)[i].key| <= MAX_STORAGE_KEY_BYTES
  {
    if writes != [] {
      WritesElements(writes[..|writes| - 1]);
      assert WriteFits(writes[|writes| - 1]);
    }
  }

  lemma OverlayWritesFit(id: Bytes32, b: Buffer)
    requires WithinLimits(b)
    ensures |Writes(id, b.overlay)| <= MAX_STORAGE_WRITES_PER_CALL
    ensures forall i :: 0 <= i < |Writes(id, b.overlay)| ==> WriteFits(Writes(id, b.overlay)[i])
  {
    hide SortedKeys;
    SortedKeysSize(b.overlay.Keys);
    assert |b.overlay| == |b.overlay.Keys|;
    var keys := SortedKeys(b.overlay.Keys);
    forall i | 0 <= i < |keys| ensures WriteFits(Writes(id, b.overlay)[i]) {
      SortedKeysMembers(b.overlay.Keys, keys[i]);
    }
  }

  /** A call adds at most its own writes, all within limits. */
  lemma CallCommitKept(c: BlockCommit, id: Bytes32, r: CallResult)
    requires WritesFit(c) && CallWrites(id, r)
    ensures var c' := WithWrites(c, Committed(r));
      && WritesFit(c') && c'.deploys == c.deploys
      && |c'.upserts| + |c'.deletes| <= |c.upserts| + |c.deletes| + MAX_STORAGE_WRITES_PER_CALL
  {
    hide Writes, WithinLimits;
    if r.Success? {
      var overlay :| WithinLimits(Buffer(overlay, r.output)) && r.writes == Writes(id, overlay);
      OverlayWritesFit(id, Buffer(overlay, r.output));
      WritesCount(r.writes);
      WritesElements(r.writes);
      hide Upserts, Deletes;
    }
  }

  lemma CallKept(node: Node, w: State, start: Progress, tp: TxProgress, tx: Tx, id: Bytes32, opcode: U16, input: Bytes)
    requires Kept(node, w, tp.block) && TxKept(start, tp)
    requires Acts(tp.block) < Min(tp.block.messages, MAX_MESSAGES_PER_BLOCK)
    requires Acts(tp.block) < Acts(start) + Min(tp.messages, MAX_MESSAGES_PER_TX)
    ensures var tp' := AfterCall(node, w, tp, tx, id, opcode, input); Kept(node, w, tp'.block) && TxKept(start, tp')
  {
    if FuelLimit(tp) > 0 {
      var ctx := ContextOf(tp, tx, id, opcode, input);
      var r := Executed(node.engine, w, ctx);
      FuelWithinLimit(node.engine, w, ctx);
      ExecutedWrites(node.engine, w, ctx);
      CallCommitKept(tp.block.commit, id, r);
      hide Executed, WithWrites, CallWrites, WritesFit, DeploysSound, WasmBytes;
      RecordedKept(node, w, start, tp, tx, id, opcode, r);
    }
  }

  lemma RecordedKept(node: Node, w: State, start: Progress, tp: TxProgress, tx: Tx, id: Bytes32, opcode: U16,
      r: CallResult)
    requires Kept(node, w, tp.block) && TxKept(start, tp) && FuelOf(r) <= FuelLimit(tp)
    requires Acts(tp.block) < Min(tp.block.messages, MAX_MESSAGES_PER_BLOCK)
    requires Acts(tp.block) < Acts(start) + Min(tp.messages, MAX_MESSAGES_PER_TX)
    requires var c' := WithWrites(tp.block.commit, Committed(r));
      && WritesFit(c') && c'.deploys == tp.block.commit.deploys
      && |c'.upserts| + |c'.deletes| <= |tp.block.commit.upserts| + |tp.block.commit.deletes|
        + MAX_STORAGE_WRITES_PER_CALL
    ensures var tp' := Recorded(tp, tx, id, opcode, r); Kept(node, w, tp'.block) && TxKept(start, tp')
  {
    hide WithWrites, WritesFit, DeploysSound, WasmBytes;
    var p, p' := tp.block, Recorded(tp, tx, id, opcode, r).block;
    assert p'.executions[..|p.executions|] == p.executions;
  }

  // ---- A deploy ----

  /** Reconstruction's length guarantee is what turns declared bytes into deployed bytes. */
  lemma DeployKept(node: Node, w: State, start: Progress, tp: TxProgress, tx: Tx, m: Message)
    requires m.Deploy? && Kept(node, w, tp.block) && TxKept(start, tp)
    requires Acts(tp.block) < Min(tp.block.messages, MAX_MESSAGES_PER_BLOCK)
    requires Acts(tp.block) < Acts(start) + Min(tp.messages, MAX_MESSAGES_PER_TX)
    requires var p := DeclaredDeploy(tp.block, m.codeLength); p.deployBytes <= MAX_DEPLOY_BYTES_PER_BLOCK
    ensures var tp' := tp.(block := AfterDeploy(node, w, DeclaredDeploy(tp.block, m.codeLength), tx, m));
      Kept(node, w, tp'.block) && TxKept(start, tp')
  {
    hide Reconstructed, Kept, TxKept;
    var p := DeclaredDeploy(tp.block, m.codeLength);
    CountersOnly(node, w, tp.block, p);
    assert TxKept(start, tp.(block := p)) by { TxCountersOnly(start, tp, p); }
    var r := Reconstructed(node.code, Collected(tx.inputs), m.chunkCount, m.codeLength, m.codeHash);
    if r.Ok? {
      ReconstructIff(node.code, Collected(tx.inputs), m.chunkCount, m.codeLength, m.codeHash, r.value);
      var id := node.derive(tx.txid, m.outputIndex, m.codeHash);
      if id !in w.contracts && node.valid(r.value) {
        assert WasmBytes(p.commit.deploys) + |r.value| <= p.deployBytes
          by { DeclaredRoom(node, w, tp.block, m.codeLength); }
        DeployAdded(node, w, start, tp.(block := p), id, m.codeHash, r.value);
      }
    }
  }

  lemma DeclaredRoom(node: Node, w: State, p: Progress, length: U32)
    requires Kept(node, w, p) && DeclaredDeploy(p, length).deployBytes <= MAX_DEPLOY_BYTES_PER_BLOCK
    ensures WasmBytes(p.commit.deploys) + length <= DeclaredDeploy(p, length).deployBytes
  {
  }

  lemma TxCountersOnly(start: Progress, tp: TxProgress, p: Progress)
    requires TxKept(start, tp)
    requires p == tp.block.(carrierBytes := p.carrierBytes, deployBytes := p.deployBytes)
    ensures TxKept(start, tp.(block := p))
  {
  }

  lemma DeployAdded(node: Node, w: State, start: Progress, tp: TxProgress, id: Bytes32, hash: Bytes32, wasm: Bytes)
    requires Kept(node, w, tp.block) && TxKept(start, tp)
    requires Acts(tp.block) < Min(tp.block.messages, MAX_MESSAGES_PER_BLOCK)
    requires Acts(tp.block) < Acts(start) + Min(tp.messages, MAX_MESSAGES_PER_TX)
    requires WasmBytes(tp.block.commit.deploys) + |wasm| <= tp.block.deployBytes <= MAX_DEPLOY_BYTES_PER_BLOCK
    requires node.code(wasm) == hash && node.valid(wasm) && 0 < |wasm| <= MAX_CODE_BYTES && id !in w.contracts
    ensures var p := tp.block;
      var p' := p.(commit := p.commit.(deploys := p.commit.deploys + [(id, Contract(hash, wasm))]),
        deployed := p.deployed + [id]);
      Kept(node, w, p') && TxKept(start, tp.(block := p'))
  {
    hide FuelSum;
    var deploys := tp.block.commit.deploys;
    var d := (id, Contract(hash, wasm));
    assert (deploys + [d])[..|deploys|] == deploys;
  }

  // ---- Outputs, transactions, blocks ----

  lemma DispatchedKept(node: Node, w: State, start: Progress, tp: TxProgress, tx: Tx, outIndex: U16, m: Message)
    requires Kept(node, w, tp.block) && TxKept(start, tp)
    requires Acts(tp.block) < Min(tp.block.messages, MAX_MESSAGES_PER_BLOCK)
    requires Acts(tp.block) < Acts(start) + Min(tp.messages, MAX_MESSAGES_PER_TX)
    ensures var tp' := Dispatched(node, w, tp, tx, outIndex, m); Kept(node, w, tp'.block) && TxKept(start, tp')
  {
    hide AfterCall, AfterDeploy, FuelKept, DeploysSound, WritesFit, Reconstructed, WasmBytes;
    match m {
      case Deploy(_, length, _, index) =>
        if index == outIndex && DeclaredDeploy(tp.block, length).deployBytes <= MAX_DEPLOY_BYTES_PER_BLOCK {
          DeployKept(node, w, start, tp, tx, m);
        }
        CountersOnly(node, w, tp.block, DeclaredDeploy(tp.block, length));
      case Call(id, opcode, input) => CallKept(node, w, start, tp, tx, id, opcode, input);
      case CallCarrier(id, opcode, _, length, _) =>
        var tp' := tp.(block := tp.block.(carrierBytes := SaturatingAdd64(tp.block.carrierBytes, length)));
        CountersOnly(node, w, tp.block, tp'.block);
        var r := Reconstructed(node.code, Collected(tx.inputs), m.carrierCount, m.inputLength, m.inputHash);
        if r.Ok? {
          CallKept(node, w, start, tp', tx, id, opcode, r.value);
        }
    }
  }

  lemma CountersOnly(node: Node, w: State, p: Progress, p': Progress)
    requires Kept(node, w, p) && p'.messages >= p.messages && p'.deployBytes >= p.deployBytes
    requires p' == p.(messages := p'.messages, carrierBytes := p'.carrierBytes, deployBytes := p'.deployBytes)
    ensures Kept(node, w, p')
  {
  }

  lemma OutputKept(node: Node, w: State, start: Progress, tp: TxProgress, tx: Tx, output: (U16, Bytes))
    requires Kept(node, w, tp.block) && TxKept(start, tp)
    ensures var tp' := AfterOutput(node, w, tp, tx, output); Kept(node, w, tp'.block) && TxKept(start, tp')
  {
    hide Dispatched, MessageIn, FuelKept, BytesKept, DeploysSound, WritesFit;
    if !tp.stopped && MessageIn(output.1).Some? {
      var counted := Counted(tp);
      CountedKept(node, w, start, tp);
      if !counted.stopped {
        RoomForOne(node, w, start, tp);
        DispatchedKept(node, w, start, counted, tx, output.0, MessageIn(output.1).value);
      }
    }
  }

  lemma CountedKept(node: Node, w: State, start: Progress, tp: TxProgress)
    requires Kept(node, w, tp.block) && TxKept(start, tp)
    ensures Kept(node, w, Counted(tp).block) && TxKept(start, Counted(tp))
  {
  }

  lemma RoomForOne(node: Node, w: State, start: Progress, tp: TxProgress)
    requires Kept(node, w, tp.block) && TxKept(start, tp) && !Counted(tp).stopped
    ensures Acts(tp.block) < Min(Counted(tp).block.messages, MAX_MESSAGES_PER_BLOCK)
    ensures Acts(tp.block) < Acts(start) + Min(Counted(tp).messages, MAX_MESSAGES_PER_TX)
  {
  }

  lemma {:induction false} OutputsKept(node: Node, w: State, start: Progress, tx: Tx, outputs: seq<(U16, Bytes)>)
    requires Kept(node, w, start)
    ensures var tp := AfterOutputs(node, w, TxProgress(start, 0, 0, false), tx, outputs);
      Kept(node, w, tp.block) && TxKept(start, tp)
  {
    hide Kept, AfterOutput;
    if outputs != [] {
      OutputsKept(node, w, start, tx, outputs[..|outputs| - 1]);
      OutputKept(node, w, start, AfterOutputs(node, w, TxProgress(start, 0, 0, false), tx, outputs[..|outputs| - 1]),
        tx, outputs[|outputs| - 1]);
    }
  }

  /** One transaction spends at most its fuel budget and performs at most sixteen acts. */
  lemma TransactionBudget(node: Node, w: State, p: Progress, tx: Tx)
    requires Kept(node, w, p)
    ensures var p' := AfterTransaction(node, w, p, tx);
      && Kept(node, w, p')
      && p.fuelUsed <= p'.fuelUsed <= p.fuelUsed + MAX_FUEL_PER_TX
      && Acts(p) <= Acts(p') <= Acts(p) + MAX_MESSAGES_PER_TX
      && p.executions <= p'.executions && p.commit.deploys <= p'.commit.deploys
  {
    hide Kept, AfterOutputs;
    OutputsKept(node, w, p, tx, tx.outputs);
  }

  lemma NothingYetKept(node: Node, w: State, block: Block)
    ensures Kept(node, w, NothingYet(block))
  {
  }

  lemma {:induction false} TransactionsKept(node: Node, w: State, p: Progress, txs: seq<Tx>)
    requires Kept(node, w, p)
    ensures Kept(node, w, AfterTransactions(node, w, p, txs))
  {
    hide Kept, AfterTransaction;
    if txs != [] {
      TransactionsKept(node, w, p, txs[..|txs| - 1]);
      TransactionBudget(node, w, AfterTransactions(node, w, p, txs[..|txs| - 1]), txs[|txs| - 1]);
    }
  }

  /**
    * For every block: the recorded fuel adds up to what was charged and stays within the block's cap, at
    * most 4096 acts are performed, and the modules deployed hold at most 4 MiB together; each of them
    * hashes to its declared code hash and is new.
    */
  lemma BlockBudget(node: Node, w: State, block: Block)
    ensures var p := Processed(node, w, block);
      && FuelSum(p.executions) == p.fuelUsed <= MAX_FUEL_PER_BLOCK
      && |p.executions| + |p.commit.deploys| <= MAX_MESSAGES_PER_BLOCK
      && WasmBytes(p.commit.deploys) <= MAX_DEPLOY_BYTES_PER_BLOCK
      && DeploysSound(node, w, p.commit.deploys)
  {
    hide AfterTransactions;
    NothingYetKept(node, w, block);
    TransactionsKept(node, w, NothingYet(block), block.transactions);
  }

  lemma {:induction false} HeightKept(node: Node, w: State, p: Progress, txs: seq<Tx>)
    ensures var c := AfterTransactions(node, w, p, txs).commit;
      c.height == p.commit.height && c.blockHash == p.commit.blockHash
  {
    hide AfterOutputs;
    if txs != [] {
      HeightKept(node, w, p, txs[..|txs| - 1]);
      HeightKeptByOutputs(node, w, TxProgress(AfterTransactions(node, w, p, txs[..|txs| - 1]), 0, 0, false),
        txs[|txs| - 1], txs[|txs| - 1].outputs);
    }
  }

  lemma {:induction false} HeightKeptByOutputs(node: Node, w: State, tp: TxProgress, tx: Tx, outputs: seq<(U16, Bytes)>)
    ensures var c := AfterOutputs(node, w, tp, tx, outputs).block.commit;
      c.height == tp.block.commit.height && c.blockHash == tp.block.commit.blockHash
  {
    hide Executed, Reconstructed, MessageIn;
    if outputs != [] {
      HeightKeptByOutputs(node, w, tp, tx, outputs[..|outputs| - 1]);
    }
  }

  /** Every commit a block produces names that block and is within the bounds both stores rely on. */
  lemma CommitsAreBounded(node: Node, activation: Option<BlockHeight>, w: State, block: Block, c: BlockCommit)
    requires CommitFor(node, activation, w, block) == Some(c)
    ensures c.height == block.height && c.blockHash == block.hash && RocksRollback.Bounded(c)
  {
    hide AfterTransactions, FuelKept;
    HeightKept(node, w, NothingYet(block), block.transactions);
    NothingYetKept(node, w, block);
    TransactionsKept(node, w, NothingYet(block), block.transactions);
  }
}
