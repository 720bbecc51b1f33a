/** The transactions the builder makes, as the indexer processes them. */
module BuiltTransactions {
  import opened Options
  import opened ByteStrings
  import opened World
  import opened Scripts
  import opened Frames
  import opened Carrier
  import opened DeployTransaction
  import opened Fees
  import opened Runtime
  import opened Indexer
  import BlockWrites

  /** Outputs that carry no message, such as change. */
  ghost predicate Silent(outputs: seq<(U16, Bytes)>) {
    forall o :: o in outputs ==> MessageIn(o.1).None?
  }

  lemma ChangeIsSilent(script: Bytes)
    requires script != [] && script[0] != OP_RETURN
    ensures MessageIn(script).None?
  {
  }

  lemma {:induction false} SilentOutputs(node: Node, w: State, tp: TxProgress, tx: Tx, outputs: seq<(U16, Bytes)>)
    requires Silent(outputs)
    ensures AfterOutputs(node, w, tp, tx, outputs) == tp
  {
    hide Dispatched, MessageIn;
    if outputs != [] {
      assert outputs == outputs[..|outputs| - 1] + [outputs[|outputs| - 1]];
      SilentOutputs(node, w, tp, tx, outputs[..|outputs| - 1]);
    }
  }

  lemma {:induction false} OutputsInOrder(node: Node, w: State, tp: TxProgress, tx: Tx, a: seq<(U16, Bytes)>,
      b: seq<(U16, Bytes)>)
    ensures AfterOutputs(node, w, tp, tx, a + b) == AfterOutputs(node, w, AfterOutputs(node, w, tp, tx, a), tx, b)
  {
    hide AfterOutput;
    if b == [] {
      assert a + b == a;
    } else {
      assert (a + b)[..|a + b| - 1] == a + b[..|b| - 1];
      OutputsInOrder(node, w, tp, tx, a, b[..|b| - 1]);
    }
  }

  /** One message output, then silent ones. */
  ghost predicate CarriesMessage(tx: Tx, m: Message) {
    tx.outputs != [] && tx.outputs[0] == (0, OpReturnScript(Encode(m))) && Silent(tx.outputs[1..])
  }

  /** The one message of such a transaction is found, whatever it is, and nothing else is. */
  lemma MessageProcessed(node: Node, w: State, p: Progress, tx: Tx, m: Message)
    requires CarriesMessage(tx, m) && Admissible(m)
    ensures var start := Counted(TxProgress(p, 0, 0, false));
      AfterTransaction(node, w, p, tx) ==
        if p.messages < MAX_MESSAGES_PER_BLOCK then Dispatched(node, w, start, tx, 0, m).block else start.block
  {
    hide Dispatched, ParseOpReturn, Encode, ExtractOpReturnData, OpReturnScript, Admissible;
    var start := TxProgress(p, 0, 0, false);
    var first, rest := tx.outputs[..1], tx.outputs[1..];
    assert tx.outputs == first + rest && first == [tx.outputs[0]] && first[..0] == [];
    ScriptRoundTrip(m);
    OutputsInOrder(node, w, start, tx, first, rest);
    var counted := AfterOutputs(node, w, start, tx, first);
    assert counted == AfterOutput(node, w, AfterOutputs(node, w, start, tx, []), tx, first[0]);
    SilentOutputs(node, w, counted, tx, rest);
  }

  // ---- What the plans become once signed ----

  /** The outputs of a plan as the indexer numbers them. */
  function NumberedOutputs(plan: PreparedTx): seq<(U16, Bytes)> {
    seq(|plan.outputs|, i requires 0 <= i < |plan.outputs| => (i % U16_MODULUS, plan.outputs[i].script))
  }

  lemma PlanCarriesMessage(hash160: Bytes -> Bytes20, pubkey: Pubkey, plan: PreparedTx, tx: Tx,
      change: seq<SpendOutput>, m: Message)
    requires plan.outputs == [SpendOutput(0, OpReturnScript(Encode(m)))] + change
    requires forall o :: o in change ==> o.script == P2pkhScriptPubkey(hash160, pubkey)
    requires tx.outputs == NumberedOutputs(plan)
    ensures CarriesMessage(tx, m)
  {
    hide OpReturnScript, Encode, MessageIn;
    forall o | o in tx.outputs[1..] ensures MessageIn(o.1).None? {
      var i :| 0 <= i < |tx.outputs[1..]| && tx.outputs[1..][i] == o;
      assert o.1 == plan.outputs[i + 1].script && plan.outputs[i + 1] == change[i];
      ChangeIsSilent(o.1);
    }
  }

  function DeployMessageFor(code: Bytes -> Bytes32, wasm: Bytes): Message
    requires SplitChunks(wasm).Some?
  {
    SplitChunksIff(wasm);
    Deploy(code(wasm), |wasm|, |SplitChunks(wasm).value|, 0)
  }

  /** The plan the builder makes for a module, from prepared outputs. */
  function ModulePlan(hash160: Bytes -> Bytes20, pubkey: Pubkey, outpoints: seq<OutPoint>, values: seq<U64>,
      code: Bytes -> Bytes32, wasm: Bytes): Option<PreparedTx>
    requires SplitChunks(wasm).Some?
  {
    DeployPlan(hash160, pubkey, outpoints, values, SplitChunks(wasm).value, Encode(DeployMessageFor(code, wasm)))
  }

  lemma ModulePlanScripts(hash160: Bytes -> Bytes20, pubkey: Pubkey, outpoints: seq<OutPoint>, values: seq<U64>,
      code: Bytes -> Bytes32, wasm: Bytes, signatures: seq<Bytes>)
    requires SplitChunks(wasm).Some? && ModulePlan(hash160, pubkey, outpoints, values, code, wasm).Some?
    requires |signatures| == |SplitChunks(wasm).value|
    ensures var plan := ModulePlan(hash160, pubkey, outpoints, values, code, wasm).value;
      && |plan.inputs| == |signatures|
      && SignedScripts(plan, signatures) == CarrierScripts(SplitChunks(wasm).value, signatures, RedeemScript(pubkey))
  {
    hide DeployFee, Sum64, CarrierScript, SplitChunks;
  }

  lemma ModulePlanCarries(hash160: Bytes -> Bytes20, pubkey: Pubkey, outpoints: seq<OutPoint>, values: seq<U64>,
      code: Bytes -> Bytes32, wasm: Bytes, tx: Tx)
    requires SplitChunks(wasm).Some? && ModulePlan(hash160, pubkey, outpoints, values, code, wasm).Some?
    requires tx.outputs == NumberedOutputs(ModulePlan(hash160, pubkey, outpoints, values, code, wasm).value)
    ensures CarriesMessage(tx, DeployMessageFor(code, wasm))
  {
    hide DeployFee, Sum64, OpReturnScript, Encode, NumberedOutputs, CarrierInputs, SplitChunks;
    var plan := ModulePlan(hash160, pubkey, outpoints, values, code, wasm).value;
    var change := ChangeOutput(plan.change, P2pkhScriptPubkey(hash160, pubkey));
    PlanCarriesMessage(hash160, pubkey, plan, tx, change, DeployMessageFor(code, wasm));
  }

  lemma DeployDispatched(node: Node, w: State, tp: TxProgress, tx: Tx, wasm: Bytes)
    requires SplitChunks(wasm).Some?
    requires var m := DeployMessageFor(node.code, wasm);
      Reconstructed(node.code, Collected(tx.inputs), m.chunkCount, m.codeLength, m.codeHash) == Ok(wasm)
    ensures var id := node.derive(tx.txid, 0, node.code(wasm));
      var p, p' := tp.block, Dispatched(node, w, tp, tx, 0, DeployMessageFor(node.code, wasm)).block;
      var room := p.carrierBytes + |wasm| <= MAX_CARRIER_BYTES_PER_BLOCK
                  && p.deployBytes + |wasm| <= MAX_DEPLOY_BYTES_PER_BLOCK;
      && p'.executions == p.executions
      && p'.commit == if room && node.valid(wasm) && id !in w.contracts
                      then p.commit.(deploys := p.commit.deploys + [(id, Contract(node.code(wasm), wasm))])
                      else p.commit
  {
    hide SplitChunks, Reconstructed, Collected;
  }

  lemma CarriedDeployDeploys(node: Node, w: State, p: Progress, tx: Tx, wasm: Bytes, signatures: seq<Bytes>,
      redeem: Bytes, others: seq<Bytes>)
    requires SplitChunks(wasm).Some? && CarriesMessage(tx, DeployMessageFor(node.code, wasm))
    requires |signatures| == |SplitChunks(wasm).value| && Signatures(signatures) && Pushable(redeem)
    requires forall s :: s in others ==> ChunkIn(s).None?
    requires multiset(tx.inputs) == multiset(CarrierScripts(SplitChunks(wasm).value, signatures, redeem) + others)
    ensures var id := node.derive(tx.txid, 0, node.code(wasm));
      var p' := AfterTransaction(node, w, p, tx);
      var room := p.messages < MAX_MESSAGES_PER_BLOCK && p.carrierBytes + |wasm| <= MAX_CARRIER_BYTES_PER_BLOCK
                  && p.deployBytes + |wasm| <= MAX_DEPLOY_BYTES_PER_BLOCK;
      && p'.executions == p.executions
      && p'.commit == if room && node.valid(wasm) && id !in w.contracts
                      then p.commit.(deploys := p.commit.deploys + [(id, Contract(node.code(wasm), wasm))])
                      else p.commit
  {
    var m := DeployMessageFor(node.code, wasm);
    SplitChunksIff(wasm);
    assert Admissible(m);
    hide CarriesMessage, CarrierScripts, ChunkIn, Signatures, SplitChunks, Reconstructed, Admissible;
    MessageProcessed(node, w, p, tx, m);
    DeployRoundTrip(node.code, wasm, signatures, redeem, others, tx.inputs);
    hide AfterTransaction, Dispatched;
    DeployDispatched(node, w, Counted(TxProgress(p, 0, 0, false)), tx, wasm);
  }

  /**
    * From module bytes to contract: the signed DEPLOY plan of a module, under any signatures and with its
    * inputs in any order among inputs that carry nothing, deploys exactly that module when the block's
    * caps leave room, the module is valid and its contract is new, and otherwise changes no commit.
    */
  lemma BuiltDeployDeploys(node: Node, w: State, p: Progress, tx: Tx, hash160: Bytes -> Bytes20, pubkey: Pubkey,
      outpoints: seq<OutPoint>, values: seq<U64>, wasm: Bytes, signatures: seq<Bytes>, others: seq<Bytes>)
    requires SplitChunks(wasm).Some? && ModulePlan(hash160, pubkey, outpoints, values, node.code, wasm).Some?
    requires |signatures| == |SplitChunks(wasm).value| && Signatures(signatures)
    requires forall s :: s in others ==> ChunkIn(s).None?
    requires var plan := ModulePlan(hash160, pubkey, outpoints, values, node.code, wasm).value;
      && tx.outputs == NumberedOutputs(plan)
      && |plan.inputs| == |signatures| && multiset(tx.inputs) == multiset(SignedScripts(plan, signatures) + others)
    ensures var id := node.derive(tx.txid, 0, node.code(wasm));
      var p' := AfterTransaction(node, w, p, tx);
      var room := p.messages < MAX_MESSAGES_PER_BLOCK && p.carrierBytes + |wasm| <= MAX_CARRIER_BYTES_PER_BLOCK
                  && p.deployBytes + |wasm| <= MAX_DEPLOY_BYTES_PER_BLOCK;
      && p'.executions == p.executions
      && p'.commit == if room && node.valid(wasm) && id !in w.contracts
                      then p.commit.(deploys := p.commit.deploys + [(id, Contract(node.code(wasm), wasm))])
                      else p.commit
  {
    hide CarriesMessage, CarrierScripts, ChunkIn, Signatures, SplitChunks, ModulePlan, SignedScripts, NumberedOutputs,
      AfterTransaction;
    ModulePlanCarries(hash160, pubkey, outpoints, values, node.code, wasm, tx);
    ModulePlanScripts(hash160, pubkey, outpoints, values, node.code, wasm, signatures);
    CarriedDeployDeploys(node, w, p, tx, wasm, signatures, RedeemScript(pubkey), others);
  }

  /**
    * A signed inline CALL plan runs the contract, opcode and input it names, against the store before the
    * block, under what is left of the block's fuel, and leaves one record; without a message slot or fuel
    * it leaves nothing.
    */
  lemma BuiltCallExecutes(node: Node, w: State, p: Progress, tx: Tx, hash160: Bytes -> Bytes20, pubkey: Pubkey,
      outpoint: OutPoint, value: U64, id: Bytes32, opcode: U16, input: Bytes)
    requires |input| <= MAX_CALL_INLINE_BYTES
    requires CallPlan(hash160, pubkey, outpoint, value, Encode(Call(id, opcode, input))).Some?
    requires tx.outputs ==
      NumberedOutputs(CallPlan(hash160, pubkey, outpoint, value, Encode(Call(id, opcode, input))).value)
    ensures var limit := Min(MAX_FUEL_PER_CALL, SaturatingSub(MAX_FUEL_PER_BLOCK, p.fuelUsed));
      var r := Executed(node.engine, w, CallContext(id, tx.txid, p.commit.height, opcode, input, limit, 0));
      var output := if r.Success? then r.output else [];
      var p' := AfterTransaction(node, w, p, tx);
      if p.messages < MAX_MESSAGES_PER_BLOCK && p.fuelUsed < MAX_FUEL_PER_BLOCK then
        && p'.commit == BlockWrites.WithWrites(p.commit, BlockWrites.Committed(r))
        && p'.executions == p.executions + [Execution(tx.txid, id, opcode, r.Success?, FuelOf(r), output)]
      else
        p'.commit == p.commit && p'.executions == p.executions
  {
    var m := Call(id, opcode, input);
    var plan := CallPlan(hash160, pubkey, outpoint, value, Encode(m)).value;
    assert CarriesMessage(tx, m) by {
      hide OpReturnScript, Encode, NumberedOutputs, Zip317Fee, InputSize, OutputSize;
      var change := SpendOutput(plan.change, P2pkhScriptPubkey(hash160, pubkey));
      assert plan.outputs == [SpendOutput(0, OpReturnScript(Encode(m)))] + [change];
      PlanCarriesMessage(hash160, pubkey, plan, tx, [change], m);
    }
    hide CarriesMessage, Executed, BlockWrites.WithWrites, BlockWrites.Committed, CallPlan, NumberedOutputs;
    MessageProcessed(node, w, p, tx, m);
  }
}
