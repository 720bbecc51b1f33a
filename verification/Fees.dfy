/** Sizes, ZIP 317 fees and value accounting of PREPARE, DEPLOY and CALL plans. */
module Fees {
  import opened Options
  import opened ByteStrings
  import opened RecordLists
  import opened Scripts
  import opened Carrier
  import opened DeployTransaction

  const MARGINAL_FEE: nat := 5000
  const GRACE_ACTIONS: nat := 2
  const STANDARD_INPUT_SIZE: nat := 150
  const STANDARD_OUTPUT_SIZE: nat := 34
  const MAX_SIGNATURE_LEN: nat := 73
  const REDEEM_SCRIPT_LEN: nat := 36
  const MAX_STANDARD_SCRIPTSIG_SIZE: nat := 1650

  const ZEROES20: Bytes := [0, 0, 0, 0, 0, 0, 0, 0, 0, 0, 0, 0, 0, 0, 0, 0, 0, 0, 0, 0]
  type Bytes20 = b: Bytes | |b| == 20 witness ZEROES20
  type Pubkey = b: Bytes | |b| == 33 witness [0] + ZEROES32

  // ---- Fees ----

  function Max(a: nat, b: nat): nat {
    if a >= b then a else b
  }

  function Zip317Fee(inputBytes: nat, outputBytes: nat): nat {
    var inActions := (inputBytes + STANDARD_INPUT_SIZE - 1) / STANDARD_INPUT_SIZE;
    var outActions := (outputBytes + STANDARD_OUTPUT_SIZE - 1) / STANDARD_OUTPUT_SIZE;
    MARGINAL_FEE * Max(Max(inActions, outActions), GRACE_ACTIONS)
  }

  lemma FeeMonotone(in1: nat, out1: nat, in2: nat, out2: nat)
    requires in1 <= in2 && out1 <= out2
    ensures Zip317Fee(in1, out1) <= Zip317Fee(in2, out2)
  {
  }

  /**
    * The fee is the marginal fee for each action, an action covering 150 input bytes or 34 output bytes,
    * and never below two.
    */
  lemma FeeCoversActions(inputBytes: nat, outputBytes: nat)
    ensures var actions := Zip317Fee(inputBytes, outputBytes) / MARGINAL_FEE;
      && Zip317Fee(inputBytes, outputBytes) == MARGINAL_FEE * actions && actions >= GRACE_ACTIONS
      && inputBytes <= STANDARD_INPUT_SIZE * actions && outputBytes <= STANDARD_OUTPUT_SIZE * actions
      && (actions > GRACE_ACTIONS ==>
            inputBytes > STANDARD_INPUT_SIZE * (actions - 1) || outputBytes > STANDARD_OUTPUT_SIZE * (actions - 1))
  {
  }

  // ---- Sizes ----

  function PushOverhead(len: nat): nat {
    if len <= 75 then 1 else if len <= 255 then 2 else 3
  }

  function SerializedScriptSize(len: nat): nat {
    (if len < 0xfd then 1 else if len <= 0xffff then 3 else 5) + len
  }

  function InputSize(scriptSigLen: nat): nat {
    36 + SerializedScriptSize(scriptSigLen) + 4
  }

  function OutputSize(scriptLen: nat): nat {
    8 + SerializedScriptSize(scriptLen)
  }

  const P2PKH_SCRIPT_SIG_LEN: nat := (1 + MAX_SIGNATURE_LEN) + (1 + 33)

  /** Bytes of the data pushes of a chunk of `n` bytes. */
  function DataPushes(n: nat): nat {
    if n == 0 then 0 else
      var part := if n <= MAX_PUSH_SIZE then n else MAX_PUSH_SIZE;
      PushOverhead(part) + part + DataPushes(n - part)
  }

  function CarrierLength(n: nat): nat {
    2 + DataPushes(n) + (1 + MAX_SIGNATURE_LEN) + (PushOverhead(REDEEM_SCRIPT_LEN) + REDEEM_SCRIPT_LEN)
  }

  method CarrierScriptSigLen(chunkLen: nat) returns (len: nat)
    ensures len == CarrierLength(chunkLen)
  {
    len := 2;
    var remaining: nat := chunkLen;
    while remaining > 0
      invariant len + DataPushes(remaining) == 2 + DataPushes(chunkLen)
      decreases remaining
    {
      var part := if remaining <= MAX_PUSH_SIZE then remaining else MAX_PUSH_SIZE;
      len := len + PushOverhead(part) + part;
      remaining := remaining - part;
    }
    len := len + 1 + MAX_SIGNATURE_LEN;
    len := len + PushOverhead(REDEEM_SCRIPT_LEN) + REDEEM_SCRIPT_LEN;
  }

  lemma PushLength(d: Bytes)
    ensures |PushData(d)| == PushOverhead(|d|) + |d|
  {
  }

  lemma {:induction false} PiecesLength(data: Bytes)
    ensures |EncodeMany(PushData, Pieces(data, MAX_PUSH_SIZE))| == DataPushes(|data|)
    decreases |data|
  {
    hide PushData;
    if data == [] {
    } else if |data| <= MAX_PUSH_SIZE {
      EncodeOne(PushData, data);
      PushLength(data);
      assert DataPushes(0) == 0;
    } else {
      var first, rest := data[..MAX_PUSH_SIZE], data[MAX_PUSH_SIZE..];
      PushLength(first);
      PiecesLength(rest);
      EncodeManyConcat(PushData, [first], Pieces(rest, MAX_PUSH_SIZE));
      EncodeOne(PushData, first);
    }
  }

  lemma CarrierScriptLength(index: Byte, data: Bytes, signature: Bytes, redeem: Bytes)
    ensures |CarrierScript(index, data, signature, redeem)| ==
      2 + DataPushes(|data|) + |PushData(signature)| + |PushData(redeem)|
  {
    var parts := Pieces(data, MAX_PUSH_SIZE);
    EncodeManyConcat(PushData, [[index]], parts);
    EncodeOne(PushData, [index]);
    PiecesLength(data);
    EncodeManySnoc(PushData, [[index]] + parts, signature);
    EncodeManySnoc(PushData, [[index]] + parts + [signature], redeem);
    assert CarrierPushes(index, data, signature, redeem) == [[index]] + parts + [signature] + [redeem];
  }

  /** The predicted carrier length is exact at the longest signature and above it by what a shorter one saves. */
  lemma PredictedLength(index: Byte, data: Bytes, signature: Bytes, redeem: Bytes)
    requires |signature| <= MAX_SIGNATURE_LEN && |redeem| == REDEEM_SCRIPT_LEN
    ensures |CarrierScript(index, data, signature, redeem)| + (MAX_SIGNATURE_LEN - |signature|) == CarrierLength(|data|)
  {
    CarrierScriptLength(index, data, signature, redeem);
  }

  lemma P2pkhLength(signature: Bytes, pubkey: Pubkey)
    requires |signature| <= MAX_SIGNATURE_LEN
    ensures |P2pkhScript(signature, pubkey)| + (MAX_SIGNATURE_LEN - |signature|) == P2PKH_SCRIPT_SIG_LEN
  {
    EncodeManySnoc(PushData, [signature], pubkey);
    EncodeOne(PushData, signature);
    assert [signature, pubkey] == [signature] + [pubkey];
  }

  function MaxStandardCarrierPayload(signatureLen: nat, redeemLen: nat): int {
    var remaining := MAX_STANDARD_SCRIPTSIG_SIZE - (2 + (1 + signatureLen) + (PushOverhead(redeemLen) + redeemLen));
    var pushes, leftover := remaining / (MAX_PUSH_SIZE + 3), remaining % (MAX_PUSH_SIZE + 3);
    pushes * MAX_PUSH_SIZE + (if leftover >= 3 then leftover - 3 else 0)
  }

  /**
    * A carrier fits the standard scriptSig size exactly up to the computed payload, which the frozen chunk
    * size respects.
    */
  lemma StandardIff(n: nat)
    ensures CarrierLength(n) <= MAX_STANDARD_SCRIPTSIG_SIZE <==>
      n <= MaxStandardCarrierPayload(MAX_SIGNATURE_LEN, REDEEM_SCRIPT_LEN)
    ensures MaxStandardCarrierPayload(MAX_SIGNATURE_LEN, REDEEM_SCRIPT_LEN) == 1528
    ensures CHUNK_PAYLOAD_SIZE <= 1528
  {
    assert MaxStandardCarrierPayload(MAX_SIGNATURE_LEN, REDEEM_SCRIPT_LEN) == 1528;
    if n <= 3 * MAX_PUSH_SIZE {
      ThreeParts(n);
    } else {
      DataPushesAtLeast(n);
    }
  }

  lemma ThreeParts(n: nat)
    requires n <= 3 * MAX_PUSH_SIZE
    ensures DataPushes(n) ==
      if n == 0 then 0
      else if n <= MAX_PUSH_SIZE then PushOverhead(n) + n
      else if n <= 2 * MAX_PUSH_SIZE then 523 + PushOverhead(n - 520) + n - 520
      else 1046 + PushOverhead(n - 1040) + n - 1040
  {
    if n > MAX_PUSH_SIZE {
      assert DataPushes(n) == 523 + DataPushes(n - 520);
      if n > 2 * MAX_PUSH_SIZE {
        assert DataPushes(n - 520) == 523 + DataPushes(n - 1040);
      }
    }
  }

  lemma {:induction false} DataPushesAtLeast(n: nat)
    ensures DataPushes(n) >= n
  {
    if n > 0 {
      DataPushesAtLeast(n - if n <= MAX_PUSH_SIZE then n else MAX_PUSH_SIZE);
    }
  }

  // ---- Plans ----

  type OutPoint = (Bytes32, U32)

  datatype SpendInput = SpendInput(outpoint: OutPoint, value: U64, kind: SpendKind)
  datatype SpendOutput = SpendOutput(value: U64, script: Bytes)
  datatype PreparedTx = PreparedTx(inputs: seq<SpendInput>, outputs: seq<SpendOutput>, fee: nat, change: U64,
      selectedValue: U64)

  function RedeemScript(pubkey: Pubkey): (r: Bytes)
    ensures |r| == REDEEM_SCRIPT_LEN
  {
    [0x21] + pubkey + [0xac, 0x61]
  }

  function P2pkhScriptPubkey(hash160: Bytes -> Bytes20, pubkey: Pubkey): (r: Bytes)
    ensures |r| == 25
  {
    [0x76, 0xa9, 0x14] + hash160(pubkey) + [0x88, 0xac]
  }

  function P2shScriptPubkey(hash160: Bytes -> Bytes20, redeem: Bytes): (r: Bytes)
    ensures |r| == 23
  {
    [0xa9, 0x14] + hash160(redeem) + [0x87]
  }

  function Sum(values: seq<nat>): nat {
    if values == [] then 0 else Sum(values[..|values| - 1]) + values[|values| - 1]
  }

  function Values(xs: seq<U64>): seq<nat> {
    xs
  }

  function InputValues(inputs: seq<SpendInput>): seq<nat> {
    seq(|inputs|, i requires 0 <= i < |inputs| => inputs[i].value)
  }

  function OutputValues(outputs: seq<SpendOutput>): seq<nat> {
    seq(|outputs|, i requires 0 <= i < |outputs| => outputs[i].value)
  }

  /** A 64-bit sum, which wraps. */
  function Sum64(xs: seq<U64>): U64 {
    Sum(Values(xs)) % U64_MODULUS
  }

  /** What a change output adds: nothing when there is no change. */
  function ChangeOutput(change: U64, script: Bytes): seq<SpendOutput> {
    if change > 0 then [SpendOutput(change, script)] else []
  }

  function FundingInputs(utxos: seq<(OutPoint, U64)>, pubkey: Pubkey): seq<SpendInput> {
    seq(|utxos|, i requires 0 <= i < |utxos| => SpendInput(utxos[i].0, utxos[i].1, P2pkh(pubkey)))
  }

  function CarrierInputs(outpoints: seq<OutPoint>, values: seq<U64>, chunks: seq<Bytes>, redeem: Bytes): seq<SpendInput>
    requires |outpoints| == |values| == |chunks|
  {
    seq(|chunks|, i requires 0 <= i < |chunks| =>
      SpendInput(outpoints[i], values[i], SpendKind.Carrier(i % 0x100, chunks[i], redeem)))
  }

  function CarrierOutputs(values: seq<U64>, script: Bytes): seq<SpendOutput> {
    seq(|values|, i requires 0 <= i < |values| => SpendOutput(values[i], script))
  }

  function Amounts(utxos: seq<(OutPoint, U64)>): seq<U64> {
    seq(|utxos|, i requires 0 <= i < |utxos| => utxos[i].1)
  }

  function PrepareFee(funding: nat, carriers: nat): nat {
    Zip317Fee(funding * InputSize(P2PKH_SCRIPT_SIG_LEN), carriers * OutputSize(23) + OutputSize(25))
  }

  function PreparePlan(hash160: Bytes -> Bytes20, pubkey: Pubkey, utxos: seq<(OutPoint, U64)>,
      carriers: seq<U64>): Option<PreparedTx> {
    if utxos == [] || carriers == [] then None else
      var carrierTotal, fundingTotal := Sum64(carriers), Sum64(Amounts(utxos));
      var fee := PrepareFee(|utxos|, |carriers|);
      if fundingTotal < carrierTotal || fundingTotal - carrierTotal < fee then None else
        var change := fundingTotal - carrierTotal - fee;
        Some(PreparedTx(
          FundingInputs(utxos, pubkey),
          CarrierOutputs(carriers, P2shScriptPubkey(hash160, RedeemScript(pubkey)))
            + ChangeOutput(change, P2pkhScriptPubkey(hash160, pubkey)),
          fee, change, fundingTotal))
  }

  function ChunkInputBytes(chunks: seq<Bytes>): nat {
    if chunks == [] then 0
    else ChunkInputBytes(chunks[..|chunks| - 1]) + InputSize(CarrierLength(|chunks[|chunks| - 1]|))
  }

  function DeployFee(chunks: seq<Bytes>, payload: Bytes): nat {
    Zip317Fee(ChunkInputBytes(chunks), OutputSize(|OpReturnScript(payload)|) + OutputSize(25))
  }

  function DeployPlan(hash160: Bytes -> Bytes20, pubkey: Pubkey, outpoints: seq<OutPoint>, values: seq<U64>,
      chunks: seq<Bytes>, payload: Bytes): Option<PreparedTx> {
    if |outpoints| != |chunks| || |outpoints| != |values| then None else
      var fee, total := DeployFee(chunks, payload), Sum64(values);
      if total < fee then None else
        var change := total - fee;
        Some(PreparedTx(
          CarrierInputs(outpoints, values, chunks, RedeemScript(pubkey)),
          [SpendOutput(0, OpReturnScript(payload))] + ChangeOutput(change, P2pkhScriptPubkey(hash160, pubkey)),
          fee, change, total))
  }

  function CallPlan(hash160: Bytes -> Bytes20, pubkey: Pubkey, outpoint: OutPoint, value: U64,
      payload: Bytes): Option<PreparedTx> {
    var fee := Zip317Fee(InputSize(P2PKH_SCRIPT_SIG_LEN), OutputSize(|OpReturnScript(payload)|) + OutputSize(25));
    if value < fee then None else
      Some(PreparedTx(
        [SpendInput(outpoint, value, P2pkh(pubkey))],
        [SpendOutput(0, OpReturnScript(payload)), SpendOutput(value - fee, P2pkhScriptPubkey(hash160, pubkey))],
        fee, value - fee, value))
  }

  // ---- The same plans, assembled step by step ----

  lemma WrapStep(a: nat, v: nat)
    ensures (a % U64_MODULUS + v) % U64_MODULUS == (a + v) % U64_MODULUS
  {
  }

  method AddUp(values: seq<U64>) returns (total: U64)
    ensures total == Sum64(values)
  {
    total := 0;
    for i := 0 to |values|
      invariant total == Sum(Values(values[..i])) % U64_MODULUS
    {
      assert values[..i + 1][..i] == values[..i];
      WrapStep(Sum(Values(values[..i])), values[i]);
      total := (total + values[i]) % U64_MODULUS;
    }
    assert values[..|values|] == values;
  }

  method BuildPreparePlan(hash160: Bytes -> Bytes20, pubkey: Pubkey, utxos: seq<(OutPoint, U64)>, carriers: seq<U64>)
    returns (r: Option<PreparedTx>)
    ensures r == PreparePlan(hash160, pubkey, utxos, carriers)
  {
    hide Zip317Fee, InputSize, OutputSize, Sum64;
    if utxos == [] || carriers == [] {
      return None;
    }
    var carrierScript := P2shScriptPubkey(hash160, RedeemScript(pubkey));
    var carrierTotal := AddUp(carriers);
    var fundingTotal := AddUp(Amounts(utxos));
    var inSize, outSize: nat := 0, 0;
    for i := 0 to |utxos|
      invariant inSize == i * InputSize(P2PKH_SCRIPT_SIG_LEN)
    {
      inSize := inSize + InputSize(P2PKH_SCRIPT_SIG_LEN);
    }
    for i := 0 to |carriers|
      invariant outSize == i * OutputSize(23)
    {
      outSize := outSize + OutputSize(|carrierScript|);
    }
    outSize := outSize + OutputSize(|P2pkhScriptPubkey(hash160, pubkey)|);
    var fee := Zip317Fee(inSize, outSize);
    if fundingTotal < carrierTotal || fundingTotal - carrierTotal < fee {
      return None;
    }
    var change := fundingTotal - carrierTotal - fee;
    var outputs: seq<SpendOutput> := [];
    for i := 0 to |carriers|
      invariant outputs == CarrierOutputs(carriers[..i], carrierScript)
    {
      outputs := outputs + [SpendOutput(carriers[i], carrierScript)];
    }
    assert carriers[..|carriers|] == carriers;
    if change > 0 {
      outputs := outputs + [SpendOutput(change, P2pkhScriptPubkey(hash160, pubkey))];
    }
    assert outputs == CarrierOutputs(carriers, carrierScript)
      + ChangeOutput(change, P2pkhScriptPubkey(hash160, pubkey));
    r := Some(PreparedTx(FundingInputs(utxos, pubkey), outputs, fee, change, fundingTotal));
  }

  method BuildDeployPlan(hash160: Bytes -> Bytes20, pubkey: Pubkey, outpoints: seq<OutPoint>, values: seq<U64>,
      chunks: seq<Bytes>, payload: Bytes)
    returns (r: Option<PreparedTx>)
    ensures r == DeployPlan(hash160, pubkey, outpoints, values, chunks, payload)
  {
    hide Zip317Fee, InputSize, OutputSize, Sum64, CarrierLength, OpReturnScript;
    if |outpoints| != |chunks| || |outpoints| != |values| {
      return None;
    }
    var redeem, script := RedeemScript(pubkey), OpReturnScript(payload);
    var inSize: nat := 0;
    for i := 0 to |chunks|
      invariant inSize == ChunkInputBytes(chunks[..i])
    {
      assert chunks[..i + 1][..i] == chunks[..i];
      var len := CarrierScriptSigLen(|chunks[i]|);
      inSize := inSize + InputSize(len);
    }
    assert chunks[..|chunks|] == chunks;
    var fee := Zip317Fee(inSize, OutputSize(|script|) + OutputSize(|P2pkhScriptPubkey(hash160, pubkey)|));
    var total := AddUp(values);
    if total < fee {
      return None;
    }
    var change := total - fee;
    var inputs: seq<SpendInput> := [];
    for i := 0 to |chunks|
      invariant inputs == CarrierInputs(outpoints[..i], values[..i], chunks[..i], redeem)
    {
      inputs := inputs + [SpendInput(outpoints[i], values[i], SpendKind.Carrier(i % 0x100, chunks[i], redeem))];
    }
    assert outpoints[..|chunks|] == outpoints && values[..|chunks|] == values;
    var outputs := [SpendOutput(0, script)];
    if change > 0 {
      outputs := outputs + [SpendOutput(change, P2pkhScriptPubkey(hash160, pubkey))];
    }
    assert outputs == [SpendOutput(0, script)] + ChangeOutput(change, P2pkhScriptPubkey(hash160, pubkey));
    r := Some(PreparedTx(inputs, outputs, fee, change, total));
  }

  // ---- Value is conserved ----

  ghost predicate Conserves(p: PreparedTx) {
    Sum(InputValues(p.inputs)) == Sum(OutputValues(p.outputs)) + p.fee
  }

  lemma {:induction false} SumConcat(a: seq<nat>, b: seq<nat>)
    ensures Sum(a + b) == Sum(a) + Sum(b)
  {
    if b == [] {
      assert a + b == a;
    } else {
      assert (a + b)[..|a + b| - 1] == a + b[..|b| - 1];
      SumConcat(a, b[..|b| - 1]);
    }
  }

  lemma SumOne(n: nat)
    ensures Sum([n]) == n
  {
  }

  lemma ChangeSum(change: U64, script: Bytes)
    ensures Sum(OutputValues(ChangeOutput(change, script))) == change
  {
  }

  lemma OutputsSum(front: seq<SpendOutput>, change: U64, script: Bytes)
    ensures Sum(OutputValues(front + ChangeOutput(change, script))) == Sum(OutputValues(front)) + change
  {
    assert OutputValues(front + ChangeOutput(change, script)) ==
      OutputValues(front) + OutputValues(ChangeOutput(change, script));
    SumConcat(OutputValues(front), OutputValues(ChangeOutput(change, script)));
    ChangeSum(change, script);
  }

  /**
    * A PREPARE plan conserves value exactly when the two 64-bit sums wrap equally often; neither does for
    * real amounts.
    */
  lemma PrepareConservesIff(hash160: Bytes -> Bytes20, pubkey: Pubkey, utxos: seq<(OutPoint, U64)>, carriers: seq<U64>)
    requires PreparePlan(hash160, pubkey, utxos, carriers).Some?
    ensures Conserves(PreparePlan(hash160, pubkey, utxos, carriers).value) <==>
      Sum(Values(Amounts(utxos))) / U64_MODULUS == Sum(Values(carriers)) / U64_MODULUS
  {
    var p := PreparePlan(hash160, pubkey, utxos, carriers).value;
    var script := P2shScriptPubkey(hash160, RedeemScript(pubkey));
    assert InputValues(p.inputs) == Values(Amounts(utxos));
    assert OutputValues(CarrierOutputs(carriers, script)) == Values(carriers);
    OutputsSum(CarrierOutputs(carriers, script), p.change, P2pkhScriptPubkey(hash160, pubkey));
  }

  lemma DeployConservesIff(hash160: Bytes -> Bytes20, pubkey: Pubkey, outpoints: seq<OutPoint>, values: seq<U64>,
      chunks: seq<Bytes>, payload: Bytes)
    requires DeployPlan(hash160, pubkey, outpoints, values, chunks, payload).Some?
    ensures Conserves(DeployPlan(hash160, pubkey, outpoints, values, chunks, payload).value) <==>
      Sum(Values(values)) < U64_MODULUS
  {
    hide DeployFee, OpReturnScript, Sum;
    var p := DeployPlan(hash160, pubkey, outpoints, values, chunks, payload).value;
    assert InputValues(p.inputs) == Values(values);
    var front := [SpendOutput(0, OpReturnScript(payload))];
    assert OutputValues(front) == [0];
    SumOne(0);
    OutputsSum(front, p.change, P2pkhScriptPubkey(hash160, pubkey));
  }

  lemma CallConserves(hash160: Bytes -> Bytes20, pubkey: Pubkey, outpoint: OutPoint, value: U64, payload: Bytes)
    requires CallPlan(hash160, pubkey, outpoint, value, payload).Some?
    ensures Conserves(CallPlan(hash160, pubkey, outpoint, value, payload).value)
  {
  }

  // ---- The fee covers what is finally signed ----

  function ScriptSigBytes(scripts: seq<Bytes>): nat {
    if scripts == [] then 0 else ScriptSigBytes(scripts[..|scripts| - 1]) + InputSize(|scripts[|scripts| - 1]|)
  }

  function OutputBytes(outputs: seq<SpendOutput>): nat {
    if outputs == [] then 0 else OutputBytes(outputs[..|outputs| - 1]) + OutputSize(|outputs[|outputs| - 1].script|)
  }

  /** The scriptSigs of the signed transaction, one signature per input. */
  function SignedScripts(p: PreparedTx, signatures: seq<Bytes>): seq<Bytes>
    requires |signatures| == |p.inputs|
  {
    seq(|p.inputs|, i requires 0 <= i < |p.inputs| => BuiltScript(p.inputs[i].kind, signatures[i]))
  }

  predicate ShortSignatures(signatures: seq<Bytes>) {
    forall s :: s in signatures ==> |s| <= MAX_SIGNATURE_LEN
  }

  ghost predicate FeeCovers(p: PreparedTx) {
    forall signatures: seq<Bytes> :: |signatures| == |p.inputs| && ShortSignatures(signatures) ==>
      p.fee >= Zip317Fee(ScriptSigBytes(SignedScripts(p, signatures)), OutputBytes(p.outputs))
  }

  lemma InputSizeMonotone(a: nat, b: nat)
    requires a <= b
    ensures InputSize(a) <= InputSize(b)
  {
  }

  lemma {:induction false} OutputBytesConcat(a: seq<SpendOutput>, b: seq<SpendOutput>)
    ensures OutputBytes(a + b) == OutputBytes(a) + OutputBytes(b)
  {
    if b == [] {
      assert a + b == a;
    } else {
      assert (a + b)[..|a + b| - 1] == a + b[..|b| - 1];
      OutputBytesConcat(a, b[..|b| - 1]);
    }
  }

  lemma OutputBytesOne(o: SpendOutput)
    ensures OutputBytes([o]) == OutputSize(|o.script|)
  {
  }

  lemma ChangeBytes(front: seq<SpendOutput>, change: U64, script: Bytes)
    ensures OutputBytes(front + ChangeOutput(change, script)) <= OutputBytes(front) + OutputSize(|script|)
  {
    OutputBytesConcat(front, ChangeOutput(change, script));
    OutputBytesOne(SpendOutput(change, script));
  }

  /** Every funding input takes at most its planned size. */
  lemma {:induction false} FundingBytes(scripts: seq<Bytes>)
    requires forall i :: 0 <= i < |scripts| ==> |scripts[i]| <= P2PKH_SCRIPT_SIG_LEN
    ensures ScriptSigBytes(scripts) <= |scripts| * InputSize(P2PKH_SCRIPT_SIG_LEN)
  {
    if scripts != [] {
      FundingBytes(scripts[..|scripts| - 1]);
      InputSizeMonotone(|scripts[|scripts| - 1]|, P2PKH_SCRIPT_SIG_LEN);
    }
  }

  lemma {:induction false} ChunkBytes(scripts: seq<Bytes>, chunks: seq<Bytes>)
    requires |scripts| == |chunks| && forall i :: 0 <= i < |scripts| ==> |scripts[i]| <= CarrierLength(|chunks[i]|)
    ensures ScriptSigBytes(scripts) <= ChunkInputBytes(chunks)
  {
    if scripts != [] {
      ChunkBytes(scripts[..|scripts| - 1], chunks[..|chunks| - 1]);
      InputSizeMonotone(|scripts[|scripts| - 1]|, CarrierLength(|chunks[|chunks| - 1]|));
    }
  }

  lemma {:induction false} CarrierOutputBytes(values: seq<U64>, script: Bytes)
    ensures OutputBytes(CarrierOutputs(values, script)) == |values| * OutputSize(|script|)
  {
    if values != [] {
      var front := values[..|values| - 1];
      assert CarrierOutputs(values, script)[..|values| - 1] == CarrierOutputs(front, script);
      CarrierOutputBytes(front, script);
    }
  }

  lemma FundingScriptsShort(p: PreparedTx, signatures: seq<Bytes>, pubkey: Pubkey)
    requires |signatures| == |p.inputs| && ShortSignatures(signatures)
    requires forall i :: 0 <= i < |p.inputs| ==> p.inputs[i].kind == P2pkh(pubkey)
    ensures ScriptSigBytes(SignedScripts(p, signatures)) <= |p.inputs| * InputSize(P2PKH_SCRIPT_SIG_LEN)
  {
    var scripts := SignedScripts(p, signatures);
    forall i | 0 <= i < |scripts| ensures |scripts[i]| <= P2PKH_SCRIPT_SIG_LEN {
      assert signatures[i] in signatures;
      P2pkhLength(signatures[i], pubkey);
    }
    FundingBytes(scripts);
  }

  lemma CoveredBy(p: PreparedTx, inBytes: nat, outBytes: nat)
    requires p.fee == Zip317Fee(inBytes, outBytes) && OutputBytes(p.outputs) <= outBytes
    requires forall signatures: seq<Bytes> :: |signatures| == |p.inputs| && ShortSignatures(signatures) ==>
      ScriptSigBytes(SignedScripts(p, signatures)) <= inBytes
    ensures FeeCovers(p)
  {
    hide Zip317Fee, SignedScripts, ScriptSigBytes, OutputBytes;
    forall signatures: seq<Bytes> | |signatures| == |p.inputs| && ShortSignatures(signatures)
      ensures p.fee >= Zip317Fee(ScriptSigBytes(SignedScripts(p, signatures)), OutputBytes(p.outputs))
    {
      FeeMonotone(ScriptSigBytes(SignedScripts(p, signatures)), OutputBytes(p.outputs), inBytes, outBytes);
    }
  }

  /** The planned fee covers the conventional fee of the signed transaction, whatever signatures it ends up with. */
  lemma PrepareFeeCovers(hash160: Bytes -> Bytes20, pubkey: Pubkey, utxos: seq<(OutPoint, U64)>, carriers: seq<U64>)
    requires PreparePlan(hash160, pubkey, utxos, carriers).Some?
    ensures FeeCovers(PreparePlan(hash160, pubkey, utxos, carriers).value)
  {
    hide Zip317Fee, InputSize, OutputSize, Sum64, SignedScripts, ShortSignatures;
    var p := PreparePlan(hash160, pubkey, utxos, carriers).value;
    var script := P2shScriptPubkey(hash160, RedeemScript(pubkey));
    CarrierOutputBytes(carriers, script);
    ChangeBytes(CarrierOutputs(carriers, script), p.change, P2pkhScriptPubkey(hash160, pubkey));
    forall signatures: seq<Bytes> | |signatures| == |p.inputs| && ShortSignatures(signatures)
      ensures ScriptSigBytes(SignedScripts(p, signatures)) <= |utxos| * InputSize(P2PKH_SCRIPT_SIG_LEN)
    {
      FundingScriptsShort(p, signatures, pubkey);
    }
    CoveredBy(p, |utxos| * InputSize(P2PKH_SCRIPT_SIG_LEN), |carriers| * OutputSize(23) + OutputSize(25));
  }

  lemma CarrierScriptsShort(p: PreparedTx, signatures: seq<Bytes>, chunks: seq<Bytes>, redeem: Bytes)
    requires |signatures| == |p.inputs| == |chunks| && ShortSignatures(signatures) && |redeem| == REDEEM_SCRIPT_LEN
    requires forall i :: 0 <= i < |chunks| ==> p.inputs[i].kind == SpendKind.Carrier(i % 0x100, chunks[i], redeem)
    ensures ScriptSigBytes(SignedScripts(p, signatures)) <= ChunkInputBytes(chunks)
  {
    hide CarrierLength, CarrierScript;
    var scripts := SignedScripts(p, signatures);
    forall i | 0 <= i < |scripts| ensures |scripts[i]| <= CarrierLength(|chunks[i]|) {
      assert signatures[i] in signatures;
      PredictedLength(i % 0x100, chunks[i], signatures[i], redeem);
    }
    ChunkBytes(scripts, chunks);
  }

  lemma DeployFeeCovers(hash160: Bytes -> Bytes20, pubkey: Pubkey, outpoints: seq<OutPoint>, values: seq<U64>,
      chunks: seq<Bytes>, payload: Bytes)
    requires DeployPlan(hash160, pubkey, outpoints, values, chunks, payload).Some?
    ensures FeeCovers(DeployPlan(hash160, pubkey, outpoints, values, chunks, payload).value)
  {
    hide Zip317Fee, OutputSize, Sum64, SignedScripts, ShortSignatures, ChunkInputBytes, OpReturnScript;
    var p := DeployPlan(hash160, pubkey, outpoints, values, chunks, payload).value;
    var message := SpendOutput(0, OpReturnScript(payload));
    ChangeBytes([message], p.change, P2pkhScriptPubkey(hash160, pubkey));
    OutputBytesOne(message);
    forall signatures: seq<Bytes> | |signatures| == |p.inputs| && ShortSignatures(signatures)
      ensures ScriptSigBytes(SignedScripts(p, signatures)) <= ChunkInputBytes(chunks)
    {
      CarrierScriptsShort(p, signatures, chunks, RedeemScript(pubkey));
    }
    CoveredBy(p, ChunkInputBytes(chunks), OutputSize(|OpReturnScript(payload)|) + OutputSize(25));
  }

  lemma CallFeeCovers(hash160: Bytes -> Bytes20, pubkey: Pubkey, outpoint: OutPoint, value: U64, payload: Bytes)
    requires CallPlan(hash160, pubkey, outpoint, value, payload).Some?
    ensures FeeCovers(CallPlan(hash160, pubkey, outpoint, value, payload).value)
  {
    hide Zip317Fee, OutputSize, InputSize, SignedScripts, ShortSignatures, OpReturnScript;
    var p := CallPlan(hash160, pubkey, outpoint, value, payload).value;
    var message := SpendOutput(0, OpReturnScript(payload));
    var change := SpendOutput(p.change, P2pkhScriptPubkey(hash160, pubkey));
    assert p.outputs == [message] + [change];
    OutputBytesConcat([message], [change]);
    OutputBytesOne(message);
    OutputBytesOne(change);
    forall signatures: seq<Bytes> | |signatures| == |p.inputs| && ShortSignatures(signatures)
      ensures ScriptSigBytes(SignedScripts(p, signatures)) <= InputSize(P2PKH_SCRIPT_SIG_LEN)
    {
      FundingScriptsShort(p, signatures, pubkey);
    }
    CoveredBy(p, InputSize(P2PKH_SCRIPT_SIG_LEN), OutputSize(|OpReturnScript(payload)|) + OutputSize(25));
  }

  // ---- The command line's carrier sizing ----

  const DEPLOY_CHANGE: nat := 50_000
  const PROBE_VALUE: U64 := 1_000_000_000

  function CarrierEach(fee: nat, n: nat): nat
    requires n > 0
  {
    (fee + DEPLOY_CHANGE + n - 1) / n
  }

  lemma RoundedUp(x: nat, n: nat)
    requires n > 0
    ensures x <= n * ((x + n - 1) / n) < x + n
  {
  }

  lemma {:induction false} SumOfEqual(n: nat, v: U64)
    ensures Sum(Values(seq(n, _ => v))) == n * v
  {
    if n > 0 {
      assert seq(n, _ => v)[..n - 1] == seq(n - 1, _ => v);
      SumOfEqual(n - 1, v);
    }
  }

  lemma {:induction false} ChunkInputBytesBound(chunks: seq<Bytes>)
    requires forall c :: c in chunks ==> |c| <= CHUNK_PAYLOAD_SIZE
    ensures ChunkInputBytes(chunks) <= |chunks| * 1565
  {
    if chunks != [] {
      var front, last := chunks[..|chunks| - 1], chunks[|chunks| - 1];
      assert chunks == front + [last];
      ChunkInputBytesBound(front);
      CarrierLengthBound(|last|);
    }
  }

  lemma CarrierLengthBound(n: nat)
    requires n <= CHUNK_PAYLOAD_SIZE
    ensures InputSize(CarrierLength(n)) <= 1565
  {
    ThreeParts(n);
  }

  lemma DeployFeeBound(chunks: seq<Bytes>, payload: Bytes)
    requires 1 <= |chunks| <= MAX_CHUNKS && |payload| <= 80
    requires forall c :: c in chunks ==> |c| <= CHUNK_PAYLOAD_SIZE
    ensures DeployFee(chunks, payload) <= PROBE_VALUE
  {
    ChunkInputBytesBound(chunks);
    PushLength(payload);
    assert OutputSize(|OpReturnScript(payload)|) <= 92;
    FeeMonotone(ChunkInputBytes(chunks), OutputSize(|OpReturnScript(payload)|) + OutputSize(25),
      MAX_CHUNKS * 1565, 92 + 34);
  }

  /**
    * The command line's sizing: the probe plan always succeeds and shows the fee of the real plan, and
    * carriers sized from it leave between 50,000 and 50,000 plus one zatoshi per carrier of change.
    */
  lemma SizedDeployLeavesChange(hash160: Bytes -> Bytes20, pubkey: Pubkey, outpoints: seq<OutPoint>,
      chunks: seq<Bytes>, payload: Bytes)
    requires |outpoints| == |chunks| && 1 <= |chunks| <= MAX_CHUNKS && |payload| <= 80
    requires forall c :: c in chunks ==> |c| <= CHUNK_PAYLOAD_SIZE
    ensures var n := |chunks|;
      var probe := DeployPlan(hash160, pubkey, outpoints, seq(n, _ => PROBE_VALUE), chunks, payload);
      && probe.Some?
      && var each := CarrierEach(probe.value.fee, n);
      && each < U64_MODULUS
      && var plan := DeployPlan(hash160, pubkey, outpoints, seq(n, _ => each), chunks, payload);
      && plan.Some? && plan.value.fee == probe.value.fee && DEPLOY_CHANGE <= plan.value.change < DEPLOY_CHANGE + n
  {
    hide DeployPlan, DeployFee, Sum;
    var n, fee := |chunks|, DeployFee(chunks, payload);
    DeployFeeBound(chunks, payload);
    SumOfEqual(n, PROBE_VALUE);
    assert n * PROBE_VALUE >= PROBE_VALUE && n * PROBE_VALUE < U64_MODULUS;
    PlanOfTotal(hash160, pubkey, outpoints, seq(n, _ => PROBE_VALUE), chunks, payload);
    RoundedUp(fee + DEPLOY_CHANGE, n);
    var each := CarrierEach(fee, n);
    EachSmall(each, n, fee);
    SumOfEqual(n, each);
    PlanOfTotal(hash160, pubkey, outpoints, seq(n, _ => each), chunks, payload);
  }

  lemma PlanOfTotal(hash160: Bytes -> Bytes20, pubkey: Pubkey, outpoints: seq<OutPoint>, values: seq<U64>,
      chunks: seq<Bytes>, payload: Bytes)
    requires |outpoints| == |values| == |chunks| && DeployFee(chunks, payload) <= Sum(Values(values)) < U64_MODULUS
    ensures var plan := DeployPlan(hash160, pubkey, outpoints, values, chunks, payload);
      plan.Some? && plan.value.fee == DeployFee(chunks, payload)
        && plan.value.change == Sum(Values(values)) - DeployFee(chunks, payload)
  {
    hide DeployFee, Sum;
  }

  lemma EachSmall(each: nat, n: nat, fee: nat)
    requires n >= 1 && n * each < fee + DEPLOY_CHANGE + n && fee <= PROBE_VALUE && n <= MAX_CHUNKS
    ensures each <= n * each < U64_MODULUS
  {
  }
}
