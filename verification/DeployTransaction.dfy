/** A DEPLOY from module bytes to scriptSigs and back: the builder, the wallet's own check and the indexer. */
module DeployTransaction {
  import opened Options
  import opened ByteStrings
  import opened RecordLists
  import opened Scripts
  import opened Frames
  import opened Carrier

  // ---- Building ----

  /** `carrier_input_count`; the length is cast to 32 bits before it is compared. */
  function CarrierInputCount(len: nat): Option<Byte> {
    if len == 0 || len % U32_MODULUS > MAX_CODE_BYTES then None else
      var n := (len + CHUNK_PAYLOAD_SIZE - 1) / CHUNK_PAYLOAD_SIZE;
      if n > MAX_CHUNKS then None else Some(n)
  }

  lemma CarrierInputCountIff(len: nat)
    ensures CarrierInputCount(len).Some? <==> 1 <= len <= MAX_CODE_BYTES
    ensures CarrierInputCount(len).Some? ==>
      CarrierInputCount(len).value * CHUNK_PAYLOAD_SIZE >= len > (CarrierInputCount(len).value - 1) * CHUNK_PAYLOAD_SIZE
  {
  }

  function SplitChunks(wasm: Bytes): Option<seq<Bytes>> {
    if CarrierInputCount(|wasm|).None? then None else Some(Pieces(wasm, CHUNK_PAYLOAD_SIZE))
  }

  /**
    * Splitting accepts exactly the module sizes the protocol admits, in at most 188 nonempty chunks that
    * join up again.
    */
  lemma SplitChunksIff(wasm: Bytes)
    ensures SplitChunks(wasm).Some? <==> 1 <= |wasm| <= MAX_CODE_BYTES
    ensures SplitChunks(wasm).Some? ==>
      var parts := SplitChunks(wasm).value;
      && Some(|parts|) == CarrierInputCount(|wasm|) && 1 <= |parts| <= MAX_CHUNKS
      && Flatten(parts) == wasm && (forall p :: p in parts ==> 0 < |p| <= CHUNK_PAYLOAD_SIZE)
  {
    CarrierInputCountIff(|wasm|);
    PiecesOf(wasm, CHUNK_PAYLOAD_SIZE);
  }

  /** The carrier scriptSigs of a deploy, one signature each. */
  function CarrierScripts(parts: seq<Bytes>, signatures: seq<Bytes>, redeem: Bytes): seq<Bytes>
    requires |signatures| == |parts|
  {
    seq(|parts|, i requires 0 <= i < |parts| => CarrierScript(i % 0x100, parts[i], signatures[i], redeem))
  }

  // ---- The indexer's collection over all inputs ----

  function Collected(scripts: seq<Bytes>): seq<Chunk> {
    if scripts == [] then [] else
      var front, chunk := Collected(scripts[..|scripts| - 1]), ChunkIn(scripts[|scripts| - 1]);
      if chunk.None? then front else front + [Chunk(chunk.value.0, chunk.value.1)]
  }

  method CollectChunks(scripts: seq<Bytes>) returns (chunks: seq<Chunk>)
    ensures chunks == Collected(scripts)
  {
    chunks := [];
    for i := 0 to |scripts|
      invariant chunks == Collected(scripts[..i])
    {
      assert scripts[..i + 1][..i] == scripts[..i];
      var chunk := ChunkFromScriptSig(scripts[i]);
      if chunk.Some? {
        chunks := chunks + [Chunk(chunk.value.0, chunk.value.1)];
      }
    }
    assert scripts[..|scripts|] == scripts;
  }

  lemma {:induction false} CollectedConcat(a: seq<Bytes>, b: seq<Bytes>)
    ensures Collected(a + b) == Collected(a) + Collected(b)
  {
    hide ChunkIn;
    if b == [] {
      assert a + b == a;
    } else {
      assert (a + b)[..|a + b| - 1] == a + b[..|b| - 1];
      CollectedConcat(a, b[..|b| - 1]);
    }
  }

  /** Reordering inputs reorders the chunks, nothing more. */
  lemma {:induction false} CollectedPermutes(a: seq<Bytes>, b: seq<Bytes>)
    requires multiset(a) == multiset(b)
    ensures multiset(Collected(a)) == multiset(Collected(b))
    decreases |a|
  {
    hide ChunkIn;
    if a == [] {
      assert |b| == |multiset(b)| == |multiset(a)| == 0;
    } else {
      var front, x := a[..|a| - 1], a[|a| - 1];
      assert a == front + [x];
      assert x in multiset(b);
      var i :| 0 <= i < |b| && b[i] == x;
      var before, after := b[..i], b[i + 1..];
      assert b == before + [x] + after;
      RemoveBoth(front, before, after, x);
      CollectedPermutes(front, before + after);
      CollectedConcat(front, [x]);
      CollectedConcat(before + [x], after);
      CollectedConcat(before, [x]);
      CollectedConcat(before, after);
    }
  }

  lemma RemoveBoth<T>(front: seq<T>, before: seq<T>, after: seq<T>, x: T)
    requires multiset(front + [x]) == multiset(before + [x] + after)
    ensures multiset(front) == multiset(before + after)
  {
    assert multiset(front) == multiset(front + [x]) - multiset{x};
    assert multiset(before + after) == multiset(before + [x] + after) - multiset{x};
  }

  lemma {:induction false} NothingCollected(scripts: seq<Bytes>)
    requires forall s :: s in scripts ==> ChunkIn(s).None?
    ensures Collected(scripts) == []
  {
    hide ChunkIn;
    if scripts != [] {
      var front := scripts[..|scripts| - 1];
      assert scripts == front + [scripts[|scripts| - 1]];
      NothingCollected(front);
    }
  }

  predicate Signatures(signatures: seq<Bytes>) {
    forall s :: s in signatures ==> Pushable(s)
  }

  lemma {:induction false} CarriersCollected(parts: seq<Bytes>, signatures: seq<Bytes>, redeem: Bytes, n: nat)
    requires n <= |parts| == |signatures| && Signatures(signatures) && Pushable(redeem)
    requires forall p :: p in parts ==> p != []
    ensures Collected(CarrierScripts(parts, signatures, redeem)[..n]) == Indexed(parts)[..n]
  {
    hide ChunkIn, CarrierScript;
    var scripts := CarrierScripts(parts, signatures, redeem);
    if n > 0 {
      assert scripts[..n][..n - 1] == scripts[..n - 1];
      CarriersCollected(parts, signatures, redeem, n - 1);
      assert signatures[n - 1] in signatures && parts[n - 1] in parts;
      ChunkRoundTrip((n - 1) % 0x100, parts[n - 1], signatures[n - 1], redeem);
    }
  }

  /**
    * Every admissible module survives the trip: split, written into carrier scriptSigs under any
    * signatures, mixed in any order with inputs that carry nothing, collected and reconstructed.
    */
  lemma DeployRoundTrip(code: Bytes -> Bytes32, wasm: Bytes, signatures: seq<Bytes>, redeem: Bytes,
      others: seq<Bytes>, inputs: seq<Bytes>)
    requires SplitChunks(wasm).Some?
    requires |signatures| == |SplitChunks(wasm).value| && Signatures(signatures) && Pushable(redeem)
    requires forall s :: s in others ==> ChunkIn(s).None?
    requires multiset(inputs) == multiset(CarrierScripts(SplitChunks(wasm).value, signatures, redeem) + others)
    ensures var n := |SplitChunks(wasm).value|;
      n <= MAX_CHUNKS && Reconstructed(code, Collected(inputs), n, |wasm|, code(wasm)) == Ok(wasm)
  {
    hide ChunkIn, Reconstructed, CarrierScripts;
    SplitChunksIff(wasm);
    var parts := SplitChunks(wasm).value;
    var carriers := CarrierScripts(parts, signatures, redeem);
    CarriersCollected(parts, signatures, redeem, |parts|);
    assert carriers[..|parts|] == carriers by { CarrierCount(parts, signatures, redeem); }
    assert Indexed(parts)[..|parts|] == Indexed(parts);
    CollectedConcat(carriers, others);
    NothingCollected(others);
    CollectedPermutes(inputs, carriers + others);
    assert Collected(carriers) + [] == Collected(carriers);
    assert Carries(Collected(inputs), parts);
    ReconstructIff(code, Collected(inputs), |parts|, |wasm|, code(wasm), wasm);
  }

  lemma CarrierCount(parts: seq<Bytes>, signatures: seq<Bytes>, redeem: Bytes)
    requires |signatures| == |parts|
    ensures |CarrierScripts(parts, signatures, redeem)| == |parts|
  {
  }

  // ---- The wallet's own check ----

  datatype SpendKind =
    | P2pkh(pubkey: Bytes)
    | Carrier(chunkIndex: Byte, chunkData: Bytes, redeemScript: Bytes)

  const DER_LEAD: Byte := 0x30

  predicate SignatureLike(sig: Bytes) {
    sig != [] && sig[0] == DER_LEAD
  }

  predicate InputVerified(script: Bytes, kind: SpendKind) {
    var pushes := Pushes(script);
    match kind
    case P2pkh(pubkey) => |pushes| == 2 && pushes[1] == pubkey && SignatureLike(pushes[0])
    case Carrier(index, data, redeem) =>
      && |pushes| >= 4 && pushes[0] == [index] && pushes[|pushes| - 1] == redeem
      && SignatureLike(pushes[|pushes| - 2]) && Flatten(pushes[1..|pushes| - 2]) == data
  }

  /** The chunks the plan means to carry, in input order. */
  function Planned(kinds: seq<SpendKind>): seq<Chunk> {
    if kinds == [] then [] else
      var front, last := Planned(kinds[..|kinds| - 1]), kinds[|kinds| - 1];
      if last.P2pkh? then front else front + [Chunk(last.chunkIndex, last.chunkData)]
  }

  /** The DEPLOY message of a plan's OP_RETURN payload, if the plan is a deploy. */
  datatype Request = DeployRequest(opReturn: Bytes) | OtherRequest

  predicate RequestVerified(code: Bytes -> Bytes32, request: Request, chunks: seq<Chunk>) {
    match request
    case OtherRequest => true
    case DeployRequest(payload) =>
      match ParseOpReturn(payload)
      case Err(_) => false
      case Ok(None) => false
      case Ok(Some(m)) => m.Deploy? && Reconstructed(code, chunks, m.chunkCount, m.codeLength, m.codeHash).Ok?
  }

  ghost predicate AllVerified(scripts: seq<Bytes>, kinds: seq<SpendKind>)
    requires |scripts| == |kinds|
  {
    forall i :: 0 <= i < |scripts| ==> InputVerified(scripts[i], kinds[i])
  }

  method VerifyInput(script: Bytes, kind: SpendKind) returns (ok: bool)
    ensures ok == InputVerified(script, kind)
  {
    var pushes := ParseScriptPushes(script);
    match kind {
      case P2pkh(pubkey) =>
        if |pushes| != 2 { return false; }
        if pushes[1] != pubkey { return false; }
        ok := SignatureLike(pushes[0]);
      case Carrier(index, data, redeem) =>
        if |pushes| < 4 { return false; }
        if pushes[0] != [index] { return false; }
        if pushes[|pushes| - 1] != redeem { return false; }
        if !SignatureLike(pushes[|pushes| - 2]) { return false; }
        var joined := Concatenate(pushes[1..|pushes| - 2]);
        ok := joined == data;
    }
  }

  /** `verify_script_sigs`; the caller has already compared the number of inputs. */
  method VerifyScriptSigs(code: Bytes -> Bytes32, scripts: seq<Bytes>, kinds: seq<SpendKind>,
      request: Request) returns (ok: bool)
    requires |scripts| == |kinds|
    ensures ok <==> AllVerified(scripts, kinds) && RequestVerified(code, request, Planned(kinds))
  {
    hide InputVerified, Reconstructed, ParseOpReturn;
    var finalChunks: seq<Chunk> := [];
    for i := 0 to |scripts|
      invariant finalChunks == Planned(kinds[..i])
      invariant forall j :: 0 <= j < i ==> InputVerified(scripts[j], kinds[j])
    {
      assert kinds[..i + 1][..i] == kinds[..i];
      var verified := VerifyInput(scripts[i], kinds[i]);
      if !verified {
        return false;
      }
      if kinds[i].Carrier? {
        finalChunks := finalChunks + [Chunk(kinds[i].chunkIndex, kinds[i].chunkData)];
      }
    }
    assert kinds[..|kinds|] == kinds;
    match request {
      case OtherRequest => ok := true;
      case DeployRequest(payload) =>
        var parsed := ParseOpReturn(payload);
        if parsed.Err? || parsed.value.None? || !parsed.value.value.Deploy? {
          return false;
        }
        var m := parsed.value.value;
        var r := Reconstruct(code, finalChunks, m.chunkCount, m.codeLength, m.codeHash);
        ok := r.Ok?;
    }
  }

  lemma {:induction false} VerifiedCollects(scripts: seq<Bytes>, kinds: seq<SpendKind>)
    requires |scripts| == |kinds| && AllVerified(scripts, kinds)
    ensures Collected(scripts) == Planned(kinds)
  {
    hide Pushes;
    if scripts != [] {
      var n := |scripts| - 1;
      VerifiedCollects(scripts[..n], kinds[..n]);
      assert InputVerified(scripts[n], kinds[n]);
    }
  }

  /**
    * If the wallet's check accepts, the indexer collects exactly the planned chunks, and a deploy
    * reconstructs to one and the same module for both, whatever the signatures hold.
    */
  lemma WalletAndIndexerAgree(code: Bytes -> Bytes32, scripts: seq<Bytes>, kinds: seq<SpendKind>, request: Request)
    requires |scripts| == |kinds| && AllVerified(scripts, kinds) && RequestVerified(code, request, Planned(kinds))
    ensures Collected(scripts) == Planned(kinds)
    ensures request.DeployRequest? ==>
      exists m: Message, wasm: Bytes ::
        && ParseOpReturn(request.opReturn) == Ok(Some(m)) && m.Deploy?
        && Reconstructed(code, Collected(scripts), m.chunkCount, m.codeLength, m.codeHash) == Ok(wasm)
        && |wasm| == m.codeLength && code(wasm) == m.codeHash
  {
    VerifiedCollects(scripts, kinds);
    if request.DeployRequest? {
      var m := ParseOpReturn(request.opReturn).value.value;
      var wasm := Reconstructed(code, Planned(kinds), m.chunkCount, m.codeLength, m.codeHash).value;
      hide Reconstructed, ParseOpReturn, InputVerified, Collected, Planned;
      ReconstructIff(code, Planned(kinds), m.chunkCount, m.codeLength, m.codeHash, wasm);
    }
  }

  // ---- What the check accepts, beyond what the builder writes ----

  function BuiltScript(kind: SpendKind, signature: Bytes): Bytes {
    match kind
    case P2pkh(pubkey) => P2pkhScript(signature, pubkey)
    case Carrier(index, data, redeem) => CarrierScript(index, data, signature, redeem)
  }

  predicate Spendable(kind: SpendKind) {
    match kind
    case P2pkh(pubkey) => Pushable(pubkey)
    case Carrier(_, _, redeem) => Pushable(redeem)
  }

  lemma NoPushes(tail: Bytes)
    requires tail != [] && tail[0] > 0x4e
    ensures Pushes(tail) == []
  {
  }

  /** The builder's own inputs pass exactly when the signature looks like one and no carrier is empty. */
  lemma BuiltInputVerifiedIff(kind: SpendKind, signature: Bytes)
    requires Spendable(kind) && Pushable(signature)
    ensures InputVerified(BuiltScript(kind, signature), kind) <==>
      SignatureLike(signature) && (kind.Carrier? ==> kind.chunkData != [])
  {
    BuiltPushes(kind, signature, []);
    assert BuiltScript(kind, signature) + [] == BuiltScript(kind, signature);
    NothingPushed();
    hide Pushes, BuiltScript, CarrierPushes, EncodeMany;
    if kind.Carrier? {
      assert forall s: seq<Bytes> :: s + [] == s;
      PushesShape(kind.chunkIndex, kind.chunkData, signature, kind.redeemScript);
    }
  }

  function BuiltParts(kind: SpendKind, signature: Bytes): seq<Bytes> {
    match kind
    case P2pkh(pubkey) => [signature, pubkey]
    case Carrier(index, data, redeem) => CarrierPushes(index, data, signature, redeem)
  }

  lemma BuiltPushes(kind: SpendKind, signature: Bytes, tail: Bytes)
    requires Spendable(kind) && Pushable(signature)
    ensures Pushes(BuiltScript(kind, signature) + tail) == BuiltParts(kind, signature) + Pushes(tail)
  {
    match kind {
      case P2pkh(pubkey) => PushesOfScript([signature, pubkey], tail);
      case Carrier(index, data, redeem) => CarrierPushesRead(index, data, signature, redeem, tail);
    }
  }

  lemma PushesShape(index: Byte, data: Bytes, signature: Bytes, redeem: Bytes)
    ensures var pushes := CarrierPushes(index, data, signature, redeem);
      && |pushes| >= 3 && pushes[0] == [index] && pushes[|pushes| - 1] == redeem && pushes[|pushes| - 2] == signature
      && pushes[1..|pushes| - 2] == Pieces(data, MAX_PUSH_SIZE)
      && (|pushes| >= 4 <==> data != []) && Flatten(pushes[1..|pushes| - 2]) == data
  {
    PiecesOf(data, MAX_PUSH_SIZE);
    var pushes := CarrierPushes(index, data, signature, redeem);
    assert pushes[1..|pushes| - 2] == Pieces(data, MAX_PUSH_SIZE);
  }

  /** The check reads pushes up to the first byte that is none, so it does not see what follows them. */
  lemma TrailingBytesUnseen(kind: SpendKind, signature: Bytes, tail: Bytes)
    requires Spendable(kind) && Pushable(signature) && tail != [] && tail[0] > 0x4e
    ensures InputVerified(BuiltScript(kind, signature) + tail, kind) <==>
      InputVerified(BuiltScript(kind, signature), kind)
  {
    BuiltPushes(kind, signature, tail);
    BuiltPushes(kind, signature, []);
    assert BuiltScript(kind, signature) + [] == BuiltScript(kind, signature);
    NoPushes(tail);
    NothingPushed();
  }

  lemma NothingPushed()
    ensures Pushes([]) == []
  {
  }

  // ---- When the check is as exact as its documentation says ----

  /** The push at the signature's place of an accepted script. */
  function SignaturePush(script: Bytes, kind: SpendKind): Bytes
    requires InputVerified(script, kind)
  {
    if kind.P2pkh? then Pushes(script)[0] else Pushes(script)[|Pushes(script)| - 2]
  }

  /** A signature too long for its push never comes back as the push at its place. */
  lemma LongSignatureLost(kind: SpendKind, signature: Bytes)
    requires Spendable(kind) && !Pushable(signature)
    ensures var pushes := Pushes(BuiltScript(kind, signature));
      kind.P2pkh? ==> |pushes| > 0 && pushes[0] != signature
    ensures var pushes := Pushes(BuiltScript(kind, signature));
      kind.Carrier? && |pushes| >= 2 && pushes[|pushes| - 1] == kind.redeemScript ==> pushes[|pushes| - 2] != signature
  {
    hide PushData, Pieces;
    match kind {
      case P2pkh(pubkey) =>
        assert P2pkhScript(signature, pubkey) == PushData(signature) + PushData(pubkey) by {
          EncodeManySnoc(PushData, [signature], pubkey);
          EncodeOne(PushData, signature);
        }
        PushInverts(signature, PushData(pubkey));
      case Carrier(index, data, redeem) =>
        var prefix := [[index]] + Pieces(data, MAX_PUSH_SIZE);
        assert CarrierPushes(index, data, signature, redeem) == prefix + [signature, redeem];
        EncodeManyConcat(PushData, prefix, [signature, redeem]);
        EncodeTwo(signature, redeem);
        PiecesOf(data, MAX_PUSH_SIZE);
        var tail := PushData(signature) + PushData(redeem);
        PushesOfScript(prefix, tail);
        PushInverts(signature, PushData(redeem));
        var k := |signature| % U16_MODULUS;
        var rest := signature[k..] + PushData(redeem);
        assert Pushes(tail) == [signature[..k]] + Pushes(rest);
        RestHoldsNoSignature(signature, redeem, k);
    }
  }

  lemma EncodeTwo(a: Bytes, b: Bytes)
    ensures EncodeMany(PushData, [a, b]) == PushData(a) + PushData(b)
  {
    hide PushData;
    assert [a, b] == [a] + [b];
    EncodeManySnoc(PushData, [a], b);
    EncodeOne(PushData, a);
  }

  /** What follows the cut is too short to hold the whole signature and the redeem script as pushes. */
  lemma RestHoldsNoSignature(signature: Bytes, redeem: Bytes, k: nat)
    requires !Pushable(signature) && k <= |signature|
    ensures var q := Pushes(signature[k..] + PushData(redeem));
      |q| >= 2 ==> !(q[|q| - 2] == signature && q[|q| - 1] == redeem)
  {
    hide Pushes, EncodeMany;
    var q := Pushes(signature[k..] + PushData(redeem));
    MinimalScript(signature[k..] + PushData(redeem));
    if |q| >= 2 && q[|q| - 2] == signature && q[|q| - 1] == redeem {
      assert q == q[..|q| - 2] + [signature, redeem];
      EncodeManyConcat(PushData, q[..|q| - 2], [signature, redeem]);
      EncodeTwo(signature, redeem);
    }
  }

  /**
    * An accepted script is byte for byte the one the builder writes with the signature it holds exactly
    * when it has that script's pushes and its length; otherwise it differs in its push opcodes, in where
    * the chunk is cut, or in bytes after the last push.
    */
  lemma ByteExactIff(script: Bytes, kind: SpendKind)
    requires Spendable(kind) && InputVerified(script, kind)
    ensures var built := BuiltScript(kind, SignaturePush(script, kind));
      script == built <==> Pushes(script) == Pushes(built) && |script| == |built|
  {
    var signature := SignaturePush(script, kind);
    var built := BuiltScript(kind, signature);
    if Pushable(signature) {
      assert Pushes(built) == BuiltParts(kind, signature) by {
        BuiltPushes(kind, signature, []);
        NothingPushed();
        assert built + [] == built && BuiltParts(kind, signature) + [] == BuiltParts(kind, signature);
      }
      assert built == EncodeMany(PushData, BuiltParts(kind, signature));
      hide Pushes, EncodeMany, BuiltParts, BuiltScript;
      MinimalScript(script);
    } else {
      LongSignatureLost(kind, signature);
    }
  }
}
