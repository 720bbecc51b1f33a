/** Block processing: from the outputs and inputs of a block's transactions to one commit. */
module Indexer {
  import opened Options
  import opened ByteStrings
  import opened World
  import opened Scripts
  import opened Frames
  import opened Carrier
  import opened DeployTransaction
  import opened Runtime
  import opened BlockWrites

  const MAX_FUEL_PER_CALL: U64 := 10_000_000
  const MAX_FUEL_PER_TX: U64 := 100_000_000
  const MAX_FUEL_PER_BLOCK: U64 := 1_000_000_000
  const MAX_MESSAGES_PER_TX: nat := 16
  const MAX_MESSAGES_PER_BLOCK: nat := 4096
  const MAX_CARRIER_BYTES_PER_BLOCK: U64 := 4 * 1024 * 1024
  const MAX_DEPLOY_BYTES_PER_BLOCK: U64 := 4 * 1024 * 1024

  /** A transaction's scriptSigs, and its output scripts with their indexes. */
  datatype Tx = Tx(txid: Bytes32, inputs: seq<Bytes>, outputs: seq<(U16, Bytes)>)
  datatype Block = Block(height: BlockHeight, hash: Bytes32, transactions: seq<Tx>)

  /** What block processing calls but does not define: the engine, module validation, hashing and id derivation. */
  datatype Node = Node(
    engine: Engine,
    valid: Bytes -> bool,
    code: Bytes -> Bytes32,
    derive: (Bytes32, U16, Bytes32) -> Bytes32)

  datatype Execution = Execution(txid: Bytes32, contractId: Bytes32, opcode: U16, success: bool, fuelUsed: nat,
      returnData: Bytes)

  /** The pending commit, the execution records and the block's counters. */
  datatype Progress = Progress(
    commit: BlockCommit,
    executions: seq<Execution>,
    deployed: seq<Bytes32>,
    fuelUsed: U64,
    messages: nat,
    carrierBytes: U64,
    deployBytes: U64)

  /** The same while one transaction is processed; `stopped` once it ran into a message cap. */
  datatype TxProgress = TxProgress(block: Progress, fuelUsed: U64, messages: nat, stopped: bool)

  function SaturatingAdd64(a: nat, b: nat): U64 {
    if a + b < U64_MODULUS then a + b else U64_MODULUS - 1
  }

  function Min(a: nat, b: nat): nat {
    if a <= b then a else b
  }

  function NothingYet(block: Block): Progress {
    Progress(BlockCommit(block.height, block.hash, [], [], []), [], [], 0, 0, 0, 0)
  }

  // ---- execute_call ----

  function FuelLimit(tp: TxProgress): U64 {
    var forTx := SaturatingSub(MAX_FUEL_PER_TX, tp.fuelUsed);
    var forBlock := SaturatingSub(MAX_FUEL_PER_BLOCK, tp.block.fuelUsed);
    Min(MAX_FUEL_PER_CALL, Min(forTx, forBlock))
  }

  function ContextOf(tp: TxProgress, tx: Tx, id: Bytes32, opcode: U16, input: Bytes): CallContext {
    CallContext(id, tx.txid, tp.block.commit.height, opcode, input, FuelLimit(tp), 0)
  }

  function Recorded(tp: TxProgress, tx: Tx, id: Bytes32, opcode: U16, r: CallResult): TxProgress {
    var p := tp.block;
    tp.(
      fuelUsed := SaturatingAdd64(tp.fuelUsed, FuelOf(r)),
      block := p.(
        commit := WithWrites(p.commit, Committed(r)),
        fuelUsed := SaturatingAdd64(p.fuelUsed, FuelOf(r)),
        executions := p.executions +
          [Execution(tx.txid, id, opcode, r.Success?, FuelOf(r), if r.Success? then r.output else [])]))
  }

  /** Every call reads `w`, the store as it was before the block. */
  ghost function AfterCall(node: Node, w: State, tp: TxProgress, tx: Tx, id: Bytes32, opcode: U16,
      input: Bytes): TxProgress {
    if FuelLimit(tp) == 0 then tp
    else Recorded(tp, tx, id, opcode, Executed(node.engine, w, ContextOf(tp, tx, id, opcode, input)))
  }

  // ---- handle_deploy, handle_call_carrier ----

  function AfterDeploy(node: Node, w: State, p: Progress, tx: Tx, m: Message): Progress
    requires m.Deploy?
  {
    match Reconstructed(node.code, Collected(tx.inputs), m.chunkCount, m.codeLength, m.codeHash)
    case Err(_) => p
    case Ok(wasm) =>
      var id := node.derive(tx.txid, m.outputIndex, m.codeHash);
      if id in w.contracts || !node.valid(wasm) then p else
        p.(
          commit := p.commit.(deploys := p.commit.deploys + [(id, Contract(m.codeHash, wasm))]),
          deployed := p.deployed + [id])
  }

  ghost function AfterCallCarrier(node: Node, w: State, tp: TxProgress, tx: Tx, m: Message): TxProgress
    requires m.CallCarrier?
  {
    match Reconstructed(node.code, Collected(tx.inputs), m.carrierCount, m.inputLength, m.inputHash)
    case Err(_) => tp
    case Ok(input) => AfterCall(node, w, tp, tx, m.contractId, m.opcode, input)
  }

  // ---- process_transaction ----

  function MessageIn(script: Bytes): Option<Message> {
    match ExtractOpReturnData(script)
    case None => None
    case Some(payload) =>
      match ParseOpReturn(payload)
      case Ok(m) => m
      case Err(_) => None
  }

  /** Bytes are counted as declared, before anything is reconstructed, and stay counted when the cap refuses them. */
  function DeclaredDeploy(p: Progress, length: U32): Progress {
    p.(carrierBytes := SaturatingAdd64(p.carrierBytes, length), deployBytes := SaturatingAdd64(p.deployBytes, length))
  }

  ghost function Dispatched(node: Node, w: State, tp: TxProgress, tx: Tx, outIndex: U16, m: Message): TxProgress {
    match m
    case Deploy(_, length, _, index) =>
      if index != outIndex then tp else
        var p := DeclaredDeploy(tp.block, length);
        if p.carrierBytes > MAX_CARRIER_BYTES_PER_BLOCK || p.deployBytes > MAX_DEPLOY_BYTES_PER_BLOCK
        then tp.(block := p)
        else tp.(block := AfterDeploy(node, w, p, tx, m))
    case Call(id, opcode, input) => AfterCall(node, w, tp, tx, id, opcode, input)
    case CallCarrier(_, _, _, length, _) =>
      var tp' := tp.(block := tp.block.(carrierBytes := SaturatingAdd64(tp.block.carrierBytes, length)));
      if tp'.block.carrierBytes > MAX_CARRIER_BYTES_PER_BLOCK then tp' else AfterCallCarrier(node, w, tp', tx, m)
  }

  function Counted(tp: TxProgress): TxProgress {
    var p := tp.block;
    TxProgress(p.(messages := p.messages + 1), tp.fuelUsed, tp.messages + 1,
               tp.messages + 1 > MAX_MESSAGES_PER_TX || p.messages + 1 > MAX_MESSAGES_PER_BLOCK)
  }

  ghost function AfterOutput(node: Node, w: State, tp: TxProgress, tx: Tx, output: (U16, Bytes)): TxProgress {
    if tp.stopped then tp else
      match MessageIn(output.1)
      case None => tp
      case Some(m) => if Counted(tp).stopped then Counted(tp) else Dispatched(node, w, Counted(tp), tx, output.0, m)
  }

  ghost function AfterOutputs(node: Node, w: State, tp: TxProgress, tx: Tx, outputs: seq<(U16, Bytes)>): TxProgress {
    if outputs == [] then tp
    else AfterOutput(node, w, AfterOutputs(node, w, tp, tx, outputs[..|outputs| - 1]), tx, outputs[|outputs| - 1])
  }

  ghost function AfterTransaction(node: Node, w: State, p: Progress, tx: Tx): Progress {
    AfterOutputs(node, w, TxProgress(p, 0, 0, false), tx, tx.outputs).block
  }

  ghost function AfterTransactions(node: Node, w: State, p: Progress, txs: seq<Tx>): Progress {
    if txs == [] then p
    else AfterTransaction(node, w, AfterTransactions(node, w, p, txs[..|txs| - 1]), txs[|txs| - 1])
  }

  ghost function Processed(node: Node, w: State, block: Block): Progress {
    AfterTransactions(node, w, NothingYet(block), block.transactions)
  }

  // ---- process_parsed_block and its fast path ----

  function EmptyCommit(height: BlockHeight, hash: Bytes32): BlockCommit {
    BlockCommit(height, hash, [], [], [])
  }

  /** What a block commits: nothing without an activation height, an empty commit below it. */
  ghost function CommitFor(node: Node, activation: Option<BlockHeight>, w: State, block: Block): Option<BlockCommit> {
    match activation
    case None => None
    case Some(h) =>
      if block.height < h then Some(EmptyCommit(block.height, block.hash))
      else Some(Processed(node, w, block).commit)
  }

  // ---- The same, step by step ----

  class BlockProcessor {
    const node: Node
    const w: State
    var commit: BlockCommit
    var executions: seq<Execution>
    var deployed: seq<Bytes32>
    var fuelUsed: U64
    var messages: nat
    var carrierBytes: U64
    var deployBytes: U64

    constructor (n: Node, before: State, block: Block)
      ensures node == n && w == before && Current() == NothingYet(block)
    {
      node, w := n, before;
      commit := BlockCommit(block.height, block.hash, [], [], []);
      executions, deployed, fuelUsed, messages, carrierBytes, deployBytes := [], [], 0, 0, 0, 0;
    }

    function Current(): Progress
      reads this
    {
      Progress(commit, executions, deployed, fuelUsed, messages, carrierBytes, deployBytes)
    }

    function During(txFuelUsed: U64, txMessages: nat): TxProgress
      reads this
    {
      TxProgress(Current(), txFuelUsed, txMessages, false)
    }

    method ExecuteCall(tx: Tx, txFuelUsed: U64, ghost txMessages: nat, id: Bytes32, opcode: U16,
        input: Bytes) returns (txFuelUsed': U64)
      modifies this
      ensures During(txFuelUsed', txMessages) ==
        AfterCall(node, w, old(During(txFuelUsed, txMessages)), tx, id, opcode, input)
    {
      hide Executed;
      var remainingTx := SaturatingSub(MAX_FUEL_PER_TX, txFuelUsed);
      var remainingBlock := SaturatingSub(MAX_FUEL_PER_BLOCK, fuelUsed);
      var fuelLimit := Min(MAX_FUEL_PER_CALL, Min(remainingTx, remainingBlock));
      if fuelLimit == 0 {
        return txFuelUsed;
      }
      var ctx := CallContext(id, tx.txid, commit.height, opcode, input, fuelLimit, 0);
      var r := Execute(node.engine, w, ctx);
      txFuelUsed' := SaturatingAdd64(txFuelUsed, FuelOf(r));
      fuelUsed := SaturatingAdd64(fuelUsed, FuelOf(r));
      commit := ApplyWrites(commit, Committed(r));
      var output := if r.Success? then r.output else [];
      executions := executions + [Execution(tx.txid, id, opcode, r.Success?, FuelOf(r), output)];
    }

    method HandleDeploy(tx: Tx, m: Message)
      requires m.Deploy?
      modifies this
      ensures Current() == AfterDeploy(node, w, old(Current()), tx, m)
    {
      hide Reconstructed;
      var chunks := CollectChunks(tx.inputs);
      var r := Reconstruct(node.code, chunks, m.chunkCount, m.codeLength, m.codeHash);
      match r {
        case Err(_) =>
        case Ok(wasm) =>
          var id := node.derive(tx.txid, m.outputIndex, m.codeHash);
          if id in w.contracts {
            return;
          }
          if !node.valid(wasm) {
            return;
          }
          commit := commit.(deploys := commit.deploys + [(id, Contract(m.codeHash, wasm))]);
          deployed := deployed + [id];
      }
    }

    method HandleCallCarrier(tx: Tx, txFuelUsed: U64, ghost txMessages: nat, m: Message) returns (txFuelUsed': U64)
      requires m.CallCarrier?
      modifies this
      ensures During(txFuelUsed', txMessages) == AfterCallCarrier(node, w, old(During(txFuelUsed, txMessages)), tx, m)
    {
      hide Reconstructed, AfterCall;
      var chunks := CollectChunks(tx.inputs);
      var r := Reconstruct(node.code, chunks, m.carrierCount, m.inputLength, m.inputHash);
      match r {
        case Err(_) => txFuelUsed' := txFuelUsed;
        case Ok(input) => txFuelUsed' := ExecuteCall(tx, txFuelUsed, txMessages, m.contractId, m.opcode, input);
      }
    }

    method Dispatch(tx: Tx, txFuelUsed: U64, ghost txMessages: nat, outIndex: U16,
        m: Message) returns (txFuelUsed': U64)
      modifies this
      ensures During(txFuelUsed', txMessages) ==
        Dispatched(node, w, old(During(txFuelUsed, txMessages)), tx, outIndex, m)
    {
      hide AfterDeploy, AfterCall, AfterCallCarrier;
      txFuelUsed' := txFuelUsed;
      match m {
        case Deploy(_, length, _, index) =>
          if index != outIndex {
            return;
          }
          carrierBytes := SaturatingAdd64(carrierBytes, length);
          deployBytes := SaturatingAdd64(deployBytes, length);
          if carrierBytes > MAX_CARRIER_BYTES_PER_BLOCK || deployBytes > MAX_DEPLOY_BYTES_PER_BLOCK {
            return;
          }
          HandleDeploy(tx, m);
        case Call(id, opcode, input) =>
          txFuelUsed' := ExecuteCall(tx, txFuelUsed, txMessages, id, opcode, input);
        case CallCarrier(_, _, _, length, _) =>
          carrierBytes := SaturatingAdd64(carrierBytes, length);
          if carrierBytes > MAX_CARRIER_BYTES_PER_BLOCK {
            return;
          }
          txFuelUsed' := HandleCallCarrier(tx, txFuelUsed, txMessages, m);
      }
    }

    method ProcessTransaction(tx: Tx)
      modifies this
      ensures Current() == AfterTransaction(node, w, old(Current()), tx)
    {
      hide Dispatched, MessageIn;
      ghost var start := TxProgress(Current(), 0, 0, false);
      var txFuelUsed: U64 := 0;
      var txMessages: nat := 0;
      for i := 0 to |tx.outputs|
        invariant During(txFuelUsed, txMessages) == AfterOutputs(node, w, start, tx, tx.outputs[..i])
      {
        assert tx.outputs[..i + 1][..i] == tx.outputs[..i];
        var m := FindMessage(tx.outputs[i].1);
        if m.Some? {
          txMessages := txMessages + 1;
          messages := messages + 1;
          if txMessages > MAX_MESSAGES_PER_TX || messages > MAX_MESSAGES_PER_BLOCK {
            StoppedStays(node, w, start, tx, tx.outputs, i + 1);
            return;
          }
          txFuelUsed := Dispatch(tx, txFuelUsed, txMessages, tx.outputs[i].0, m.value);
        }
      }
      assert tx.outputs[..|tx.outputs|] == tx.outputs;
    }

    method FindMessage(script: Bytes) returns (m: Option<Message>)
      ensures m == MessageIn(script)
    {
      var payload := ExtractOpReturnData(script);
      if payload.None? {
        return None;
      }
      var parsed := ParseOpReturn(payload.value);
      m := if parsed.Ok? then parsed.value else None;
    }

    method ProcessTransactions(txs: seq<Tx>)
      modifies this
      ensures Current() == AfterTransactions(node, w, old(Current()), txs)
    {
      hide AfterTransaction;
      for i := 0 to |txs|
        invariant Current() == AfterTransactions(node, w, old(Current()), txs[..i])
      {
        assert txs[..i + 1][..i] == txs[..i];
        ProcessTransaction(txs[i]);
      }
      assert txs[..|txs|] == txs;
    }
  }

  lemma {:induction false} StoppedStays(node: Node, w: State, tp: TxProgress, tx: Tx, outputs: seq<(U16, Bytes)>,
      n: nat)
    requires n <= |outputs| && AfterOutputs(node, w, tp, tx, outputs[..n]).stopped
    ensures AfterOutputs(node, w, tp, tx, outputs) == AfterOutputs(node, w, tp, tx, outputs[..n])
    decreases |outputs|
  {
    hide Dispatched, MessageIn;
    if n < |outputs| {
      var front := outputs[..|outputs| - 1];
      assert front[..n] == outputs[..n];
      StoppedStays(node, w, tp, tx, front, n);
    } else {
      assert outputs[..n] == outputs;
    }
  }
}
