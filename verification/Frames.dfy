/** The ZALK message frames carried in OP_RETURN payloads. */
module Frames {
  import opened Options
  import opened ByteStrings
  import opened Scripts

  const MAGIC: Bytes := [0x5A, 0x41, 0x4C, 0x4B]
  const PROTOCOL_V0: Byte := 0
  const MSG_DEPLOY: Byte := 1
  const MSG_CALL: Byte := 2
  const MSG_CALL_CARRIER: Byte := 3

  const MAX_CODE_BYTES: nat := 262144
  const MAX_CALL_INLINE_BYTES: nat := 38
  const MAX_CALL_INPUT_BYTES: nat := 65536
  const MAX_CALL_CARRIER_CHUNKS: Byte := 47

  datatype Message =
    | Deploy(codeHash: Bytes32, codeLength: U32, chunkCount: Byte, outputIndex: U16)
    | Call(contractId: Bytes32, opcode: U16, input: Bytes)
    | CallCarrier(contractId: Bytes32, opcode: U16, inputHash: Bytes32, inputLength: U32, carrierCount: Byte)

  datatype ParseError =
    | UnknownVersion(version: Byte)
    | UnknownMessageType(kind: Byte)
    | Truncated
    | TrailingBytes
    | CodeLengthExceedsMax(length: U32)
    | InputLengthExceedsMax(length: U32)
    | CarrierInputLengthExceedsMax(length: U32)
    | InputLengthMismatch(declared: U16, actual: nat)
    | CarrierCountExceedsMax(count: Byte)

  function ParseDeploy(body: Bytes): Result<Message, ParseError> {
    if |body| < 39 then Err(Truncated)
    else if |body| > 39 then Err(TrailingBytes)
    else
      var length := FromBe4(body[32..36]);
      if length == 0 || length > MAX_CODE_BYTES then Err(CodeLengthExceedsMax(length))
      else if body[36] == 0 then Err(Truncated)
      else Ok(Deploy(body[..32], length, body[36], FromBe2(body[37..39])))
  }

  function ParseCall(body: Bytes): Result<Message, ParseError> {
    if |body| < 36 then Err(Truncated)
    else
      var length := FromBe2(body[34..36]);
      if length > MAX_CALL_INLINE_BYTES then Err(InputLengthExceedsMax(length))
      else if |body[36..]| != length then Err(InputLengthMismatch(length, |body[36..]|))
      else Ok(Call(body[..32], FromBe2(body[32..34]), body[36..]))
  }

  function ParseCallCarrier(body: Bytes): Result<Message, ParseError> {
    if |body| < 71 then Err(Truncated)
    else if |body| > 71 then Err(TrailingBytes)
    else
      var length := FromBe4(body[66..70]);
      if length == 0 || length > MAX_CALL_INPUT_BYTES then Err(CarrierInputLengthExceedsMax(length))
      else if body[70] == 0 || body[70] > MAX_CALL_CARRIER_CHUNKS then Err(CarrierCountExceedsMax(body[70]))
      else Ok(CallCarrier(body[..32], FromBe2(body[32..34]), body[34..66], length, body[70]))
  }

  function ParseBody(kind: Byte, body: Bytes): Result<Message, ParseError> {
    if kind == MSG_DEPLOY then ParseDeploy(body)
    else if kind == MSG_CALL then ParseCall(body)
    else if kind == MSG_CALL_CARRIER then ParseCallCarrier(body)
    else Err(UnknownMessageType(kind))
  }

  /** `Ok(None)` means the payload is not ours and is skipped silently. */
  function ParseOpReturn(payload: Bytes): Result<Option<Message>, ParseError> {
    var n := |payload|;
    if n == 0 then Ok(None)
    else if n < 6 then
      if payload[..if n < 4 then n else 4] == MAGIC[..if n < 4 then n else 4] then Err(Truncated) else Ok(None)
    else if payload[..4] != MAGIC then Ok(None)
    else if payload[4] != PROTOCOL_V0 then Err(UnknownVersion(payload[4]))
    else match ParseBody(payload[5], payload[6..])
      case Ok(m) => Ok(Some(m))
      case Err(e) => Err(e)
  }

  function KindOf(m: Message): Byte {
    match m
    case Deploy(_, _, _, _) => MSG_DEPLOY
    case Call(_, _, _) => MSG_CALL
    case CallCarrier(_, _, _, _, _) => MSG_CALL_CARRIER
  }

  function EncodeBody(m: Message): Bytes {
    match m
    case Deploy(hash, length, count, index) => hash + Be4(length) + [count] + Be2(index)
    case Call(id, opcode, input) => id + Be2(opcode) + Be2(|input|) + input
    case CallCarrier(id, opcode, hash, length, count) => id + Be2(opcode) + hash + Be4(length) + [count]
  }

  function Encode(m: Message): Bytes {
    MAGIC + [PROTOCOL_V0, KindOf(m)] + EncodeBody(m)
  }

  /** The messages the protocol admits. */
  predicate Admissible(m: Message) {
    match m
    case Deploy(_, length, count, _) => 0 < length <= MAX_CODE_BYTES && count > 0
    case Call(_, _, input) => |input| <= MAX_CALL_INLINE_BYTES
    case CallCarrier(_, _, _, length, count) =>
      0 < length <= MAX_CALL_INPUT_BYTES && 0 < count <= MAX_CALL_CARRIER_CHUNKS
  }

  // ---- Bodies ----

  lemma DeployBodyParses(m: Message)
    requires m.Deploy?
    ensures ParseBody(KindOf(m), EncodeBody(m)) == Ok(m) <==> Admissible(m)
  {
    var body := EncodeBody(m);
    assert body[..32] == m.codeHash && body[32..36] == Be4(m.codeLength);
    assert body[36] == m.chunkCount && body[37..39] == Be2(m.outputIndex);
    Be4RoundTrip(m.codeLength);
    Be2RoundTrip(m.outputIndex);
  }

  lemma CallBodyParses(m: Message)
    requires m.Call?
    ensures ParseBody(KindOf(m), EncodeBody(m)) == Ok(m) <==> Admissible(m)
  {
    var body := EncodeBody(m);
    assert body[..32] == m.contractId && body[32..34] == Be2(m.opcode);
    assert body[34..36] == Be2(|m.input|) && body[36..] == m.input;
    Be2RoundTrip(m.opcode);
    Be2RoundTrip(|m.input|);
  }

  lemma CallCarrierBodyParses(m: Message)
    requires m.CallCarrier?
    ensures ParseBody(KindOf(m), EncodeBody(m)) == Ok(m) <==> Admissible(m)
  {
    var body := EncodeBody(m);
    assert body[..32] == m.contractId && body[32..34] == Be2(m.opcode) && body[34..66] == m.inputHash;
    assert body[66..70] == Be4(m.inputLength) && body[70] == m.carrierCount;
    Be2RoundTrip(m.opcode);
    Be4RoundTrip(m.inputLength);
  }

  lemma DeployBodyCanonical(body: Bytes)
    requires ParseDeploy(body).Ok?
    ensures var m := ParseDeploy(body).value; m.Deploy? && Admissible(m) && EncodeBody(m) == body
  {
    Be4Inverse(body[32..36]);
    Be2Inverse(body[37..39]);
    assert body == body[..32] + body[32..36] + [body[36]] + body[37..39];
  }

  lemma CallBodyCanonical(body: Bytes)
    requires ParseCall(body).Ok?
    ensures var m := ParseCall(body).value; m.Call? && Admissible(m) && EncodeBody(m) == body
  {
    Be2Inverse(body[32..34]);
    Be2Inverse(body[34..36]);
    assert body == body[..32] + body[32..34] + body[34..36] + body[36..];
  }

  lemma CallCarrierBodyCanonical(body: Bytes)
    requires ParseCallCarrier(body).Ok?
    ensures var m := ParseCallCarrier(body).value; m.CallCarrier? && Admissible(m) && EncodeBody(m) == body
  {
    Be2Inverse(body[32..34]);
    Be4Inverse(body[66..70]);
    assert body == body[..32] + body[32..34] + body[34..66] + body[66..70] + [body[70]];
  }

  // ---- Frames ----

  /** A message parses back from its encoding exactly when the protocol admits it. */
  lemma ParseInvertsEncodeIff(m: Message)
    ensures ParseOpReturn(Encode(m)) == Ok(Some(m)) <==> Admissible(m)
  {
    hide ParseBody, EncodeBody;
    var payload := Encode(m);
    assert payload[..4] == MAGIC && payload[4] == PROTOCOL_V0 && payload[5] == KindOf(m)
      && payload[6..] == EncodeBody(m);
    match m {
      case Deploy(_, _, _, _) => DeployBodyParses(m);
      case Call(_, _, _) => CallBodyParses(m);
      case CallCarrier(_, _, _, _, _) => CallCarrierBodyParses(m);
    }
  }

  /** Every payload that yields a message is the encoding of that message. */
  lemma AcceptedIsCanonical(payload: Bytes, m: Message)
    requires ParseOpReturn(payload) == Ok(Some(m))
    ensures Admissible(m) && Encode(m) == payload
  {
    hide ParseDeploy, ParseCall, ParseCallCarrier, EncodeBody, Admissible;
    var body := payload[6..];
    assert payload == payload[..4] + [payload[4], payload[5]] + body;
    if payload[5] == MSG_DEPLOY {
      DeployBodyCanonical(body);
    } else if payload[5] == MSG_CALL {
      CallBodyCanonical(body);
    } else {
      CallCarrierBodyCanonical(body);
    }
  }

  /** So no two admissible messages share an encoding. */
  lemma EncodeInjective(a: Message, b: Message)
    requires Admissible(a) && Admissible(b) && Encode(a) == Encode(b)
    ensures a == b
  {
    ParseInvertsEncodeIff(a);
    ParseInvertsEncodeIff(b);
  }

  /**
    * The three verdicts: a payload is skipped exactly when it does not begin like the magic,
    * a message exactly when it encodes an admissible one, and a violation otherwise.
    */
  lemma Verdicts(payload: Bytes)
    ensures var n := if |payload| < 4 then |payload| else 4;
      ParseOpReturn(payload) == Ok(None) <==> payload == [] || payload[..n] != MAGIC[..n]
    ensures (exists m :: ParseOpReturn(payload) == Ok(Some(m))) <==> exists m :: Admissible(m) && Encode(m) == payload
  {
    hide ParseBody, Encode, Admissible;
    assert MAGIC[..4] == MAGIC;
    forall m | Admissible(m) && Encode(m) == payload ensures ParseOpReturn(payload) == Ok(Some(m)) {
      ParseInvertsEncodeIff(m);
    }
    if m :| ParseOpReturn(payload) == Ok(Some(m)) {
      AcceptedIsCanonical(payload, m);
    }
  }

  // ---- Frames inside scripts ----

  /** An admissible message fits the 80-byte relay limit and survives the trip through an output script. */
  lemma ScriptRoundTrip(m: Message)
    requires Admissible(m)
    ensures |Encode(m)| <= 80
    ensures var data := ExtractOpReturnData(OpReturnScript(Encode(m)));
      data.Some? && ParseOpReturn(data.value) == Ok(Some(m))
  {
    assert |Encode(m)| <= 80 by { hide ParseOpReturn; }
    OpReturnRoundTrip(Encode(m));
    ParseInvertsEncodeIff(m);
  }

  /** A script carrying a message is the canonical one exactly when it is as short as the canonical one. */
  lemma ScriptCanonicalIff(script: Bytes, m: Message)
    requires ExtractOpReturnData(script).Some? && ParseOpReturn(ExtractOpReturnData(script).value) == Ok(Some(m))
    ensures script == OpReturnScript(Encode(m)) <==> |script| == |OpReturnScript(Encode(m))|
  {
    var payload := ExtractOpReturnData(script).value;
    AcceptedIsCanonical(payload, m);
    assert 6 <= |payload| <= 80 by { hide ParseOpReturn; }
    hide ParseOpReturn, Encode, Admissible;
    PushOfLength(script[1..], payload);
  }

  lemma DirectPush(push: Bytes)
    requires push != [] && push[0] <= 0x4b && ParsePush(push).Some? && ParsePush(push).value.1 == []
    ensures push == [push[0]] + ParsePush(push).value.0
  {
    var op, rest := push[0], push[1..];
    assert rest == rest[..op] + rest[op..];
  }

  lemma OneByteLengthPush(push: Bytes)
    requires push != [] && push[0] == 0x4c && ParsePush(push).Some? && ParsePush(push).value.1 == []
    ensures push == [0x4c, |ParsePush(push).value.0|] + ParsePush(push).value.0
  {
    var rest := push[1..];
    assert rest == rest[..1] + rest[1..];
    assert rest[..1] == [rest[0]] && [rest[0]][1..] == [];
    assert FromLe([rest[0]]) == rest[0];
    assert rest[1..] == rest[1..][..rest[0]] + rest[1..][rest[0]..];
  }

  lemma PushOfLength(push: Bytes, payload: Bytes)
    requires ParsePush(push) == Some((payload, [])) && |payload| <= 80
    ensures push == PushData(payload) <==> |push| == |PushData(payload)|
  {
    if |push| == |PushData(payload)| {
      if push[0] <= 0x4b {
        DirectPush(push);
      } else if push[0] == 0x4c {
        OneByteLengthPush(push);
      }
    }
  }
}
