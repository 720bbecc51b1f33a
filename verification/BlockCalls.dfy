/** The successful calls of a block, in order, and what its commit and its execution records take from them. */
module BlockCalls {
  import opened Options
  import opened ByteStrings
  import opened RecordLists
  import opened World
  import opened Frames
  import opened Carrier
  import opened DeployTransaction
  import opened Runtime
  import opened BlockWrites
  import opened Indexer

  /** A call that succeeded: the context it ran in, and what it ended with. */
  datatype Ran = Ran(ctx: CallContext, overlay: Overlay, output: Bytes, fuelUsed: nat)

  /** The overlay the contract leaves when it runs in `ctx` over the store `w`. */
  ghost function OverlayAfter(engine: Engine, w: State, ctx: CallContext): Overlay {
    if ctx.contractId in w.contracts && engine(w.contracts[ctx.contractId].wasm).Dispatches? then
      var program := engine(w.contracts[ctx.contractId].wasm).program;
      Run(OverlayHost(w, ctx.contractId), program, ctx, Buffer(map[], []), [], ctx.fuelLimit).host.overlay
    else map[]
  }

  /** `ran` is what executing its context over `w` really does. */
  ghost predicate Genuine(engine: Engine, w: State, ran: Ran) {
    && ran.overlay == OverlayAfter(engine, w, ran.ctx) && WithinLimits(Buffer(ran.overlay, ran.output))
    && Executed(engine, w, ran.ctx) == Success(ran.output, ran.fuelUsed, Writes(ran.ctx.contractId, ran.overlay))
  }

  // ---- The calls of a message, an output, a transaction, a block: in step with the processing ----

  ghost function CallIn(node: Node, w: State, ctx: CallContext): seq<Ran> {
    match Executed(node.engine, w, ctx)
    case Success(output, fuel, _) => [Ran(ctx, OverlayAfter(node.engine, w, ctx), output, fuel)]
    case _ => []
  }

  ghost function CallAt(node: Node, w: State, tp: TxProgress, tx: Tx, id: Bytes32, opcode: U16,
      input: Bytes): seq<Ran> {
    if FuelLimit(tp) == 0 then [] else CallIn(node, w, ContextOf(tp, tx, id, opcode, input))
  }

  ghost function CallsOfMessage(node: Node, w: State, tp: TxProgress, tx: Tx, m: Message): seq<Ran> {
    match m
    case Deploy(_, _, _, _) => []
    case Call(id, opcode, input) => CallAt(node, w, tp, tx, id, opcode, input)
    case CallCarrier(id, opcode, hash, length, count) =>
      var tp' := tp.(block := tp.block.(carrierBytes := SaturatingAdd64(tp.block.carrierBytes, length)));
      if tp'.block.carrierBytes > MAX_CARRIER_BYTES_PER_BLOCK then [] else
        match Reconstructed(node.code, Collected(tx.inputs), count, length, hash)
        case Err(_) => []
        case Ok(input) => CallAt(node, w, tp', tx, id, opcode, input)
  }

  ghost function CallsOfOutput(node: Node, w: State, tp: TxProgress, tx: Tx, output: (U16, Bytes)): seq<Ran> {
    if tp.stopped || MessageIn(output.1).None? || Counted(tp).stopped then []
    else CallsOfMessage(node, w, Counted(tp), tx, MessageIn(output.1).value)
  }

  ghost function CallsOfOutputs(node: Node, w: State, tp: TxProgress, tx: Tx, outputs: seq<(U16, Bytes)>): seq<Ran> {
    if outputs == [] then [] else
      var front, last := outputs[..|outputs| - 1], outputs[|outputs| - 1];
      CallsOfOutputs(node, w, tp, tx, front) + CallsOfOutput(node, w, AfterOutputs(node, w, tp, tx, front), tx, last)
  }

  ghost function CallsOfTransaction(node: Node, w: State, p: Progress, tx: Tx): seq<Ran> {
    CallsOfOutputs(node, w, TxProgress(p, 0, 0, false), tx, tx.outputs)
  }

  ghost function CallsOfTransactions(node: Node, w: State, p: Progress, txs: seq<Tx>): seq<Ran> {
    if txs == [] then [] else
      var front, last := txs[..|txs| - 1], txs[|txs| - 1];
      CallsOfTransactions(node, w, p, front) + CallsOfTransaction(node, w, AfterTransactions(node, w, p, front), last)
  }

  ghost function CallsOf(node: Node, w: State, block: Block): seq<Ran> {
    CallsOfTransactions(node, w, NothingYet(block), block.transactions)
  }

  // ---- What they leave in the commit and in the records ----

  function EffectsOf(calls: seq<Ran>): seq<Effect> {
    seq(|calls|, i requires 0 <= i < |calls| => Effect(calls[i].ctx.contractId, calls[i].overlay))
  }

  function RecordOf(ran: Ran): Execution {
    Execution(ran.ctx.txid, ran.ctx.contractId, ran.ctx.opcode, true, ran.fuelUsed, ran.output)
  }

  function Successes(executions: seq<Execution>): seq<Execution> {
    if executions == [] then [] else
      var front, last := Successes(executions[..|executions| - 1]), executions[|executions| - 1];
      if last.success then front + [last] else front
  }

  /** From `p` to `p'`: exactly the writes and the records of `calls`, each of which ran over `w` in this block. */
  ghost predicate Added(node: Node, w: State, p: Progress, calls: seq<Ran>, p': Progress) {
    && p'.commit.height == p.commit.height
    && p'.commit.upserts == p.commit.upserts + Upserts(AllWrites(EffectsOf(calls)))
    && p'.commit.deletes == p.commit.deletes + Deletes(AllWrites(EffectsOf(calls)))
    && Successes(p'.executions) == Successes(p.executions) + Mapped(RecordOf, calls)
    && forall ran :: ran in calls ==> Genuine(node.engine, w, ran) && ran.ctx.blockHeight == p.commit.height
  }

  lemma {:induction false} AllWritesConcat(a: seq<Effect>, b: seq<Effect>)
    ensures AllWrites(a + b) == AllWrites(a) + AllWrites(b)
  {
    hide Writes;
    if b == [] {
      assert a + b == a;
    } else {
      assert (a + b)[..|a + b| - 1] == a + b[..|b| - 1];
      AllWritesConcat(a, b[..|b| - 1]);
    }
  }

  lemma AddedNothing(node: Node, w: State, p: Progress, p': Progress)
    requires p'.commit.(deploys := p.commit.deploys) == p.commit && p'.executions == p.executions
    ensures Added(node, w, p, [], p')
  {
    assert EffectsOf([]) == [];
  }

  lemma AddedThen(node: Node, w: State, p: Progress, a: seq<Ran>, p': Progress, b: seq<Ran>, p'': Progress)
    requires Added(node, w, p, a, p') && Added(node, w, p', b, p'')
    ensures Added(node, w, p, a + b, p'')
  {
    hide Genuine, Upserts, Deletes, AllWrites, Successes;
    assert EffectsOf(a + b) == EffectsOf(a) + EffectsOf(b);
    AllWritesConcat(EffectsOf(a), EffectsOf(b));
    WritesConcat(AllWrites(EffectsOf(a)), AllWrites(EffectsOf(b)));
    assert Mapped(RecordOf, a + b) == Mapped(RecordOf, a) + Mapped(RecordOf, b);
  }

  // ---- Every step adds the calls it makes ----

  lemma SuccessIsGenuine(node: Node, w: State, ctx: CallContext)
    ensures forall ran :: ran in CallIn(node, w, ctx) ==> Genuine(node.engine, w, ran)
  {
    hide Writes;
    if ctx.contractId in w.contracts && node.engine(w.contracts[ctx.contractId].wasm).Dispatches? {
      var program := node.engine(w.contracts[ctx.contractId].wasm).program;
      RunWithinLimits(w, ctx.contractId, program, ctx, Buffer(map[], []), [], ctx.fuelLimit);
      hide Run, WithinLimits;
    }
  }

  lemma CallAdded(node: Node, w: State, tp: TxProgress, tx: Tx, id: Bytes32, opcode: U16, input: Bytes)
    ensures Added(node, w, tp.block, CallAt(node, w, tp, tx, id, opcode, input),
                  AfterCall(node, w, tp, tx, id, opcode, input).block)
  {
    if FuelLimit(tp) == 0 {
      AddedNothing(node, w, tp.block, tp.block);
    } else {
      var ctx := ContextOf(tp, tx, id, opcode, input);
      SuccessIsGenuine(node, w, ctx);
      hide OverlayAfter, Writes;
      RecordedAdded(node, w, tp, tx, id, opcode, input);
    }
  }

  lemma RecordedAdded(node: Node, w: State, tp: TxProgress, tx: Tx, id: Bytes32, opcode: U16, input: Bytes)
    requires var ctx := ContextOf(tp, tx, id, opcode, input);
      forall ran :: ran in CallIn(node, w, ctx) ==> Genuine(node.engine, w, ran)
    ensures var ctx := ContextOf(tp, tx, id, opcode, input);
      Added(node, w, tp.block, CallIn(node, w, ctx), Recorded(tp, tx, id, opcode, Executed(node.engine, w, ctx)).block)
  {
    var ctx := ContextOf(tp, tx, id, opcode, input);
    var calls, r := CallIn(node, w, ctx), Executed(node.engine, w, ctx);
    var p, p' := tp.block, Recorded(tp, tx, id, opcode, r).block;
    assert p'.executions[..|p.executions|] == p.executions;
    if r.Success? {
      hide Executed, OverlayAfter, Upserts, Deletes;
      OneSuccessAdded(node, w, p, calls[0], p');
    } else {
      assert EffectsOf(calls) == [];
      assert Mapped(RecordOf, calls) == [];
    }
  }

  lemma OneSuccessAdded(node: Node, w: State, p: Progress, ran: Ran, p': Progress)
    requires Genuine(node.engine, w, ran) && ran.ctx.blockHeight == p.commit.height
    requires p'.commit == WithWrites(p.commit, Writes(ran.ctx.contractId, ran.overlay))
    requires p'.executions == p.executions + [RecordOf(ran)]
    ensures Added(node, w, p, [ran], p')
  {
    hide Genuine, Writes;
    assert p'.executions[..|p.executions|] == p.executions;
    assert EffectsOf([ran]) == [Effect(ran.ctx.contractId, ran.overlay)];
    AllWritesOfOne(Effect(ran.ctx.contractId, ran.overlay));
    assert Mapped(RecordOf, [ran]) == [RecordOf(ran)];
  }

  lemma MessageAdded(node: Node, w: State, tp: TxProgress, tx: Tx, outIndex: U16, m: Message)
    ensures Added(node, w, tp.block, CallsOfMessage(node, w, tp, tx, m), Dispatched(node, w, tp, tx, outIndex, m).block)
  {
    hide Added, AfterCall, CallAt, Reconstructed;
    match m {
      case Deploy(_, _, _, _) => AddedNothing(node, w, tp.block, Dispatched(node, w, tp, tx, outIndex, m).block);
      case Call(id, opcode, input) => CallAdded(node, w, tp, tx, id, opcode, input);
      case CallCarrier(id, opcode, hash, length, count) =>
        var tp' := tp.(block := tp.block.(carrierBytes := SaturatingAdd64(tp.block.carrierBytes, length)));
        AddedNothing(node, w, tp.block, tp'.block);
        var r := Reconstructed(node.code, Collected(tx.inputs), count, length, hash);
        if tp'.block.carrierBytes <= MAX_CARRIER_BYTES_PER_BLOCK && r.Ok? {
          CallAdded(node, w, tp', tx, id, opcode, r.value);
          var calls := CallAt(node, w, tp', tx, id, opcode, r.value);
          AddedThen(node, w, tp.block, [], tp'.block, calls, AfterCall(node, w, tp', tx, id, opcode, r.value).block);
          assert [] + calls == calls;
        }
    }
  }

  lemma OutputAdded(node: Node, w: State, tp: TxProgress, tx: Tx, output: (U16, Bytes))
    ensures Added(node, w, tp.block, CallsOfOutput(node, w, tp, tx, output), AfterOutput(node, w, tp, tx, output).block)
  {
    hide Added, Dispatched, CallsOfMessage, MessageIn;
    AddedNothing(node, w, tp.block, tp.block);
    if !tp.stopped && MessageIn(output.1).Some? {
      var counted, m := Counted(tp), MessageIn(output.1).value;
      AddedNothing(node, w, tp.block, counted.block);
      if !counted.stopped {
        MessageAdded(node, w, counted, tx, output.0, m);
        var calls := CallsOfMessage(node, w, counted, tx, m);
        AddedThen(node, w, tp.block, [], counted.block, calls, Dispatched(node, w, counted, tx, output.0, m).block);
        assert [] + calls == calls;
      }
    }
  }

  lemma {:induction false} OutputsAdded(node: Node, w: State, tp: TxProgress, tx: Tx, outputs: seq<(U16, Bytes)>)
    ensures Added(node, w, tp.block, CallsOfOutputs(node, w, tp, tx, outputs),
      AfterOutputs(node, w, tp, tx, outputs).block)
  {
    hide Added, AfterOutput, CallsOfOutput;
    if outputs == [] {
      AddedNothing(node, w, tp.block, tp.block);
    } else {
      var front, last := outputs[..|outputs| - 1], outputs[|outputs| - 1];
      var mid := AfterOutputs(node, w, tp, tx, front);
      OutputsAdded(node, w, tp, tx, front);
      OutputAdded(node, w, mid, tx, last);
      AddedThen(node, w, tp.block, CallsOfOutputs(node, w, tp, tx, front), mid.block,
                CallsOfOutput(node, w, mid, tx, last), AfterOutput(node, w, mid, tx, last).block);
    }
  }

  lemma {:induction false} TransactionsAdded(node: Node, w: State, p: Progress, txs: seq<Tx>)
    ensures Added(node, w, p, CallsOfTransactions(node, w, p, txs), AfterTransactions(node, w, p, txs))
  {
    hide Added, AfterOutputs, CallsOfOutputs;
    if txs == [] {
      AddedNothing(node, w, p, p);
    } else {
      var front, last := txs[..|txs| - 1], txs[|txs| - 1];
      var mid := AfterTransactions(node, w, p, front);
      TransactionsAdded(node, w, p, front);
      OutputsAdded(node, w, TxProgress(mid, 0, 0, false), last, last.outputs);
      AddedThen(node, w, p, CallsOfTransactions(node, w, p, front), mid,
                CallsOfTransaction(node, w, mid, last), AfterTransaction(node, w, mid, last));
    }
  }

  /**
    * The successful calls of a block match its successful execution records one for one and in order,
    * each is what its context really does over the store before the block, and the block's upserts and
    * deletes are their writes and nothing else.
    */
  lemma CommitIsOfCalls(node: Node, w: State, block: Block)
    ensures var p, calls := Processed(node, w, block), CallsOf(node, w, block);
      && p.commit.upserts == Upserts(AllWrites(EffectsOf(calls)))
      && p.commit.deletes == Deletes(AllWrites(EffectsOf(calls)))
      && Successes(p.executions) == Mapped(RecordOf, calls)
      && forall ran :: ran in calls ==> Genuine(node.engine, w, ran) && ran.ctx.blockHeight == block.height
  {
    hide AfterTransactions, CallsOfTransactions, AllWrites, Upserts, Deletes, Genuine;
    TransactionsAdded(node, w, NothingYet(block), block.transactions);
  }

  /** So a slot ends as the block's own calls leave it: absent if one removed it, else last set, else as before. */
  lemma BlockStorage(node: Node, w: State, block: Block, slot: Slot)
    ensures Lookup(Apply(w, Processed(node, w, block).commit).storage, slot) ==
      Final(w.storage, EffectsOf(CallsOf(node, w, block)), slot)
  {
    hide Processed, CallsOf, Final, Upserts, Deletes, AllWrites, Apply;
    CommitIsOfCalls(node, w, block);
    BlockIsAfterCalls(node, w, block);
    SlotAfterCalls(w, Processed(node, w, block).commit, EffectsOf(CallsOf(node, w, block)), slot);
  }

  lemma BlockIsAfterCalls(node: Node, w: State, block: Block)
    ensures var c := Processed(node, w, block).commit;
      Apply(w, c) == AfterBlock(w, c, EffectsOf(CallsOf(node, w, block)))
  {
    hide Processed, CallsOf, Upserts, Deletes, AllWrites, Apply;
    CommitIsOfCalls(node, w, block);
    var c := Processed(node, w, block).commit;
    assert WithWrites(c.(upserts := [], deletes := []), AllWrites(EffectsOf(CallsOf(node, w, block)))) == c;
  }

  /**
    * A block's storage is that of its own calls one after another unless one of them sets again what an
    * earlier one removed.
    */
  lemma BlockIsSequentialIff(node: Node, w: State, block: Block)
    ensures var calls := EffectsOf(CallsOf(node, w, block));
      Apply(w, Processed(node, w, block).commit).storage == InSequence(w.storage, calls) <==>
        forall slot :: !SetAgain(calls, slot)
  {
    hide Processed, CallsOf, InSequence, SetAgain, Apply, AfterBlock;
    BlockIsAfterCalls(node, w, block);
    BlockMatchesSequenceIff(w, Processed(node, w, block).commit, EffectsOf(CallsOf(node, w, block)));
  }
}
