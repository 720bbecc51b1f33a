/** The serialized undo journal of RocksState: `encode_undo` and `decode_undo`. */
module UndoCodec {
  import opened Options
  import opened ByteStrings
  import opened RecordLists
  import opened World

  const MARKER: Bytes := [0xFF, 0xFF, 0xFF, 0xFE]
  const MARKER_COUNT: nat := 0xFFFF_FFFE

  // ---- Encoding. Length fields truncate, as the casts in the source do. ----

  function EncodePrev(prev: Option<Bytes>): Bytes {
    match prev
    case Some(v) => [0x01] + Blob32(v)
    case None => [0x00]
  }

  function EncodeReplaced(replaced: Option<Contract>): Bytes {
    match replaced
    case Some(c) => [0x01] + (c.codeHash + Blob32(c.wasm))
    case None => [0x00]
  }

  function EncodeOp(op: UndoOp): Bytes {
    match op
    case UndoSet(slot, prev) => [0x01] + (slot.contract + (Blob16(slot.key) + EncodePrev(prev)))
    case UndoDelete(slot, v) => [0x02] + (slot.contract + (Blob16(slot.key) + Blob32(v)))
    case UndoDeploy(id, replaced) => [0x03] + (id + EncodeReplaced(replaced))
  }

  function Encode(ops: seq<UndoOp>): Bytes {
    MARKER + (Be4(|ops|) + EncodeMany(EncodeOp, ops))
  }

  /** The journal format before the marker was introduced. */
  function EncodeLegacy(ops: seq<UndoOp>): Bytes {
    Be4(|ops|) + EncodeMany(EncodeOp, ops)
  }

  // ---- Decoding. `None` is a `break` out of the decoding loop. ----

  function ParsePrev(bytes: Bytes): Option<(Option<Bytes>, Bytes)> {
    var (flag, b0) :- Take(bytes, 1);
    if flag[0] != 0x01 then Some((None, b0)) else
      var (v, b1) :- ParseBlob32(b0);
      Some((Some(v), b1))
  }

  function ParseReplaced(bytes: Bytes): Option<(Option<Contract>, Bytes)> {
    var (flag, b0) :- Take(bytes, 1);
    if flag[0] != 0x01 then Some((None, b0)) else
      var (hash, b1) :- Take(b0, 32);
      var (wasm, b2) :- ParseBlob32(b1);
      Some((Some(Contract(hash, wasm)), b2))
  }

  function Translate(op: UndoOp): UndoOp {
    if op.UndoSet? && op.slot.key == [] && op.prev == None then UndoDeploy(op.slot.contract, None) else op
  }

  function ParseOp(bytes: Bytes, legacy: bool): Option<(UndoOp, Bytes)> {
    var (tag, b0) :- Take(bytes, 1);
    var (id, b1) :- Take(b0, 32);
    if tag[0] == 0x03 then
      var (replaced, b2) :- ParseReplaced(b1);
      Some((UndoDeploy(id, replaced), b2))
    else
      var (key, b2) :- ParseBlob16(b1);
      if tag[0] == 0x01 then
        var (prev, b3) :- ParsePrev(b2);
        var op := UndoSet(Slot(id, key), prev);
        Some((if legacy then Translate(op) else op, b3))
      else if tag[0] == 0x02 then
        var (v, b3) :- ParseBlob32(b2);
        Some((UndoDelete(Slot(id, key), v), b3))
      else None
  }

  function OpParser(legacy: bool): Parser<UndoOp> {
    bytes => ParseOp(bytes, legacy)
  }

  function DecodeOps(bytes: Bytes, parse: Parser<UndoOp>): seq<UndoOp> {
    if |bytes| < 4 then [] else ParseMany(parse, FromBe4(bytes[..4]), bytes[4..])
  }

  function Decode(bytes: Bytes): seq<UndoOp> {
    if |bytes| < 4 then []
    else if bytes[..4] == MARKER then DecodeOps(bytes[4..], OpParser(false))
    else DecodeOps(bytes, OpParser(true))
  }

  // ---- The bounds the journal's length fields can carry ----

  predicate InBounds(op: UndoOp) {
    match op
    case UndoSet(slot, prev) => |slot.key| < U16_MODULUS && (prev.Some? ==> |prev.value| < U32_MODULUS)
    case UndoDelete(slot, v) => |slot.key| < U16_MODULUS && |v| < U32_MODULUS
    case UndoDeploy(id, replaced) => replaced.Some? ==> |replaced.value.wasm| < U32_MODULUS
  }

  predicate AllInBounds(ops: seq<UndoOp>) {
    |ops| < U32_MODULUS && forall i :: 0 <= i < |ops| ==> InBounds(ops[i])
  }

  // ---- Round trip ----

  lemma ParsePrevInverts(prev: Option<Bytes>, tail: Bytes)
    requires prev.Some? ==> |prev.value| < U32_MODULUS
    ensures ParsePrev(EncodePrev(prev) + tail) == Some((prev, tail))
  {
    match prev
    case None => TakeExact([0x00], tail);
    case Some(v) =>
      assert EncodePrev(prev) + tail == [0x01] + (Blob32(v) + tail);
      TakeExact([0x01], Blob32(v) + tail);
      ParseBlob32Inverts(v, tail);
  }

  lemma ParseReplacedInverts(replaced: Option<Contract>, tail: Bytes)
    requires replaced.Some? ==> |replaced.value.wasm| < U32_MODULUS
    ensures ParseReplaced(EncodeReplaced(replaced) + tail) == Some((replaced, tail))
  {
    match replaced
    case None => TakeExact([0x00], tail);
    case Some(c) =>
      var rest := Blob32(c.wasm) + tail;
      assert EncodeReplaced(replaced) + tail == [0x01] + (c.codeHash + rest);
      TakeExact([0x01], c.codeHash + rest);
      TakeExact(c.codeHash, rest);
      ParseBlob32Inverts(c.wasm, tail);
  }

  /** Reading the tag, the contract id and the key of a storage operation. */
  lemma ParseKeyed(tag: Byte, slot: Slot, rest: Bytes)
    requires |slot.key| < U16_MODULUS
    ensures var b := [tag] + (slot.contract + (Blob16(slot.key) + rest));
      && Take(b, 1) == Some(([tag], slot.contract + (Blob16(slot.key) + rest)))
      && Take(slot.contract + (Blob16(slot.key) + rest), 32) == Some((slot.contract, Blob16(slot.key) + rest))
      && ParseBlob16(Blob16(slot.key) + rest) == Some((slot.key, rest))
  {
    TakeExact([tag], slot.contract + (Blob16(slot.key) + rest));
    TakeExact(slot.contract, Blob16(slot.key) + rest);
    ParseBlob16Inverts(slot.key, rest);
  }

  lemma ParseSetInverts(slot: Slot, prev: Option<Bytes>, tail: Bytes, legacy: bool)
    requires InBounds(UndoSet(slot, prev))
    ensures var op := UndoSet(slot, prev);
      ParseOp(EncodeOp(op) + tail, legacy) == Some((if legacy then Translate(op) else op, tail))
  {
    var op := UndoSet(slot, prev);
    var rest := EncodePrev(prev) + tail;
    assert EncodeOp(op) + tail == [0x01] + (slot.contract + (Blob16(slot.key) + rest));
    ParseKeyed(0x01, slot, rest);
    ParsePrevInverts(prev, tail);
  }

  lemma ParseDeleteInverts(slot: Slot, v: Bytes, tail: Bytes, legacy: bool)
    requires InBounds(UndoDelete(slot, v))
    ensures ParseOp(EncodeOp(UndoDelete(slot, v)) + tail, legacy) == Some((UndoDelete(slot, v), tail))
  {
    var rest := Blob32(v) + tail;
    assert EncodeOp(UndoDelete(slot, v)) + tail == [0x02] + (slot.contract + (Blob16(slot.key) + rest));
    ParseKeyed(0x02, slot, rest);
    ParseBlob32Inverts(v, tail);
  }

  lemma ParseDeployInverts(id: Bytes32, replaced: Option<Contract>, tail: Bytes, legacy: bool)
    requires InBounds(UndoDeploy(id, replaced))
    ensures ParseOp(EncodeOp(UndoDeploy(id, replaced)) + tail, legacy) == Some((UndoDeploy(id, replaced), tail))
  {
    var rest := EncodeReplaced(replaced) + tail;
    assert EncodeOp(UndoDeploy(id, replaced)) + tail == [0x03] + (id + rest);
    TakeExact([0x03], id + rest);
    TakeExact(id, rest);
    ParseReplacedInverts(replaced, tail);
  }

  lemma ParseOpInverts(op: UndoOp, tail: Bytes, legacy: bool)
    requires InBounds(op)
    ensures ParseOp(EncodeOp(op) + tail, legacy) == Some((if legacy then Translate(op) else op, tail))
  {
    match op
    case UndoSet(slot, prev) => ParseSetInverts(slot, prev, tail, legacy);
    case UndoDelete(slot, v) => ParseDeleteInverts(slot, v, tail, legacy);
    case UndoDeploy(id, replaced) => ParseDeployInverts(id, replaced, tail, legacy);
  }

  lemma DecodeOpsInverts(count: Bytes, ops: seq<UndoOp>, encode: UndoOp -> Bytes, parse: Parser<UndoOp>,
      f: UndoOp -> UndoOp)
    requires |count| == 4 && FromBe4(count) == |ops|
    requires forall i :: 0 <= i < |ops| ==> Reads(parse, encode(ops[i]), f(ops[i]))
    ensures DecodeOps(count + EncodeMany(encode, ops), parse) == Mapped(f, ops)
  {
    hide FromBe4;
    var body := EncodeMany(encode, ops);
    TakeExact(count, body);
    assert body + [] == body;
    ParseManyInverts(encode, parse, f, ops, []);
  }

  lemma OpsRead(ops: seq<UndoOp>, legacy: bool, f: UndoOp -> UndoOp)
    requires AllInBounds(ops)
    requires forall op :: f(op) == if legacy then Translate(op) else op
    ensures forall i :: 0 <= i < |ops| ==> Reads(OpParser(legacy), EncodeOp(ops[i]), f(ops[i]))
  {
    forall i | 0 <= i < |ops| ensures Reads(OpParser(legacy), EncodeOp(ops[i]), f(ops[i])) {
      var encoded := EncodeOp(ops[i]);
      forall tail ensures OpParser(legacy)(encoded + tail) == Some((f(ops[i]), tail)) {
        ParseOpInverts(ops[i], tail, legacy);
      }
    }
  }

  lemma DecodeInverts(ops: seq<UndoOp>)
    requires AllInBounds(ops)
    ensures Decode(Encode(ops)) == ops
  {
    hide Be4, FromBe4, ParseOp, EncodeOp;
    var same := (op: UndoOp) => op;
    assert Encode(ops)[..4] == MARKER && Encode(ops)[4..] == EncodeLegacy(ops);
    OpsRead(ops, false, same);
    Be4RoundTrip(|ops|);
    DecodeOpsInverts(Be4(|ops|), ops, EncodeOp, OpParser(false), same);
    assert Mapped(same, ops) == ops;
  }

  /** Everything the decoder returns is in bounds. */
  lemma ParsedOpInBounds(bytes: Bytes, legacy: bool)
    requires ParseOp(bytes, legacy).Some?
    ensures InBounds(ParseOp(bytes, legacy).value.0)
  {
  }

  lemma DecodedInBounds(bytes: Bytes, legacy: bool)
    ensures AllInBounds(DecodeOps(bytes, OpParser(legacy)))
  {
    if |bytes| >= 4 {
      var n := FromBe4(bytes[..4]);
      assert n < U32_MODULUS by { Be4Inverse(bytes[..4]); }
      forall b | OpParser(legacy)(b).Some? ensures InBounds(OpParser(legacy)(b).value.0) {
        ParsedOpInBounds(b, legacy);
      }
      ParseManyAll(OpParser(legacy), InBounds, n, bytes[4..]);
    }
  }

  /** The journal survives its encoding exactly when every length fits its field. */
  lemma RoundTripIffInBounds(ops: seq<UndoOp>)
    ensures Decode(Encode(ops)) == ops <==> AllInBounds(ops)
  {
    if AllInBounds(ops) {
      DecodeInverts(ops);
    }
    assert Encode(ops)[..4] == MARKER;
    DecodedInBounds(Encode(ops)[4..], false);
  }

  lemma NotMarker(n: nat)
    requires n < U32_MODULUS && n != MARKER_COUNT
    ensures Be4(n) != MARKER
  {
  }

  /** A marker-less journal decodes with its empty-key `Set`/`None` entries read as deploys. */
  lemma LegacyJournalsTranslate(ops: seq<UndoOp>)
    requires AllInBounds(ops) && |ops| != MARKER_COUNT
    ensures Decode(EncodeLegacy(ops)) == Mapped(Translate, ops)
  {
    hide Be4, FromBe4, ParseOp, EncodeOp;
    var n := Be4(|ops|);
    NotMarker(|ops|);
    assert EncodeLegacy(ops)[..4] == n;
    OpsRead(ops, true, Translate);
    Be4RoundTrip(|ops|);
    DecodeOpsInverts(n, ops, EncodeOp, OpParser(true), Translate);
  }

  // ---- Truncation ----

  lemma ParsePrevLocal(bytes: Bytes, tail: Bytes)
    requires ParsePrev(bytes).Some?
    ensures ParsePrev(bytes + tail) == Some((ParsePrev(bytes).value.0, ParsePrev(bytes).value.1 + tail))
  {
    TakeLocal(bytes, 1, tail);
    if bytes[0] == 0x01 {
      ParseBlob32Local(bytes[1..], tail);
    }
  }

  lemma ParseReplacedLocal(bytes: Bytes, tail: Bytes)
    requires ParseReplaced(bytes).Some?
    ensures ParseReplaced(bytes + tail) == Some((ParseReplaced(bytes).value.0, ParseReplaced(bytes).value.1 + tail))
  {
    TakeLocal(bytes, 1, tail);
    if bytes[0] == 0x01 {
      var b0 := bytes[1..];
      TakeLocal(b0, 32, tail);
      ParseBlob32Local(b0[32..], tail);
    }
  }

  lemma ParseOpLocal(bytes: Bytes, tail: Bytes, legacy: bool)
    requires ParseOp(bytes, legacy).Some?
    ensures ParseOp(bytes + tail, legacy) ==
      Some((ParseOp(bytes, legacy).value.0, ParseOp(bytes, legacy).value.1 + tail))
  {
    TakeLocal(bytes, 1, tail);
    var b0 := bytes[1..];
    TakeLocal(b0, 32, tail);
    var b1 := b0[32..];
    if bytes[0] == 0x03 {
      ParseReplacedLocal(b1, tail);
    } else {
      ParseBlob16Local(b1, tail);
      var b2 := ParseBlob16(b1).value.1;
      if bytes[0] == 0x01 {
        ParsePrevLocal(b2, tail);
      } else {
        ParseBlob32Local(b2, tail);
      }
    }
  }

  lemma OpParserLocal(legacy: bool)
    ensures Local(OpParser(legacy))
  {
    var parse := OpParser(legacy);
    forall bytes, tail | parse(bytes).Some?
      ensures parse(bytes + tail) == Some((parse(bytes).value.0, parse(bytes).value.1 + tail))
    {
      ParseOpLocal(bytes, tail, legacy);
    }
  }

  lemma DecodeOpsExtends(short: Bytes, tail: Bytes, parse: Parser<UndoOp>)
    requires Local(parse)
    ensures DecodeOps(short, parse) <= DecodeOps(short + tail, parse)
  {
    if |short| >= 4 {
      TakeExtends(short, 4, tail);
      ParseManyExtends(parse, FromBe4(short[..4]), short[4..], tail);
    }
  }

  /** Cutting any journal short, at any byte, only loses operations from its end. */
  lemma TruncationDecodesToPrefix(bytes: Bytes, cut: nat)
    requires cut <= |bytes|
    ensures Decode(bytes[..cut]) <= Decode(bytes)
  {
    var short, tail := bytes[..cut], bytes[cut..];
    if cut >= 4 {
      assert short[..4] == bytes[..4];
      OpParserLocal(true);
      OpParserLocal(false);
      assert bytes == short + tail && bytes[4..] == short[4..] + tail;
      DecodeOpsExtends(short, tail, OpParser(true));
      DecodeOpsExtends(short[4..], tail, OpParser(false));
    }
  }

  // ---- The loops of the source ----

  method EncodeUndo(ops: seq<UndoOp>) returns (out: Bytes)
    ensures out == Encode(ops)
  {
    out := MARKER;
    out := out + Be4(|ops|);
    out := WriteMany(EncodeOp, out, ops);
  }

  method DecodeUndo(input: Bytes) returns (ops: seq<UndoOp>)
    ensures ops == Decode(input)
  {
    ops := [];
    var bytes := input;
    if |bytes| < 4 {
      return;
    }
    var parse := OpParser(bytes[..4] != MARKER);
    if bytes[..4] == MARKER {
      bytes := bytes[4..];
      if |bytes| < 4 {
        return;
      }
    }
    ops := ReadMany(parse, FromBe4(bytes[..4]), bytes[4..]);
  }
}
