/** The plan commitment: a hash over a length-prefixed encoding that no two distinct plans share. */
module PlanCommitment {
  import opened Options
  import opened ByteStrings
  import opened RecordLists

  datatype PlanInput = PlanInput(pool: Byte, txid: Bytes32, outputIndex: U32, value: U64)
  datatype PlanAnchor = PlanAnchor(pool: Byte, height: U32, root: Bytes32)
  datatype PlanOutput = PlanOutput(value: U64, script: Bytes)
  datatype PlanChange = PlanChange(value: U64, pool: Byte, destination: Bytes)

  datatype Header = Header(
    networkId: Byte,
    protocolVersion: Byte,
    pool: Byte,
    tipHeight: U32,
    tipHash: Bytes32,
    targetHeight: U32,
    branchId: U32,
    txVersion: Byte,
    expiryHeight: U32)

  datatype Plan = Plan(
    header: Header,
    inputs: seq<PlanInput>,
    anchors: seq<PlanAnchor>,
    outputs: seq<PlanOutput>,
    change: Option<PlanChange>,
    fee: U64,
    payload: Bytes,
    kind: Byte)

  /** "ZALKANES_FUNDING_PLAN_V1" and a zero byte. */
  const DOMAIN: Bytes := [
    0x5A, 0x41, 0x4C, 0x4B, 0x41, 0x4E, 0x45, 0x53, 0x5F, 0x46, 0x55, 0x4E, 0x44, 0x49, 0x4E, 0x47,
    0x5F, 0x50, 0x4C, 0x41, 0x4E, 0x5F, 0x56, 0x31, 0x00]

  // ---- The encoding. Counts and lengths are cast to 16 bits. ----

  function EncodeHeader(h: Header): Bytes {
    [h.networkId] + [h.protocolVersion] + [h.pool] + Le(4, h.tipHeight) + h.tipHash
    + Le(4, h.targetHeight) + Le(4, h.branchId) + [h.txVersion] + Le(4, h.expiryHeight)
  }

  function EncodeBlob(b: Bytes): Bytes {
    Le(2, |b|) + b
  }

  function EncodeInput(i: PlanInput): Bytes {
    [i.pool] + i.txid + Le(4, i.outputIndex) + Le(8, i.value)
  }

  function EncodeAnchor(a: PlanAnchor): Bytes {
    [a.pool] + Le(4, a.height) + a.root
  }

  function EncodeOutput(o: PlanOutput): Bytes {
    Le(8, o.value) + EncodeBlob(o.script)
  }

  function EncodeList<T>(encode: T -> Bytes, xs: seq<T>): Bytes {
    Le(2, |xs|) + EncodeMany(encode, xs)
  }

  function EncodeChange(c: Option<PlanChange>): Bytes {
    match c
    case Some(change) => [1] + Le(8, change.value) + [change.pool] + EncodeBlob(change.destination)
    case None => [0]
  }

  function Preimage(p: Plan): Bytes {
    DOMAIN + EncodeHeader(p.header)
    + EncodeList(EncodeInput, p.inputs) + EncodeList(EncodeAnchor, p.anchors) + EncodeList(EncodeOutput, p.outputs)
    + EncodeChange(p.change) + Le(8, p.fee) + EncodeBlob(p.payload) + [p.kind]
  }

  method CommitPlan(sha256: Bytes -> Bytes32, p: Plan) returns (commitment: Bytes32)
    ensures commitment == sha256(Preimage(p))
  {
    hide EncodeHeader, EncodeInput, EncodeAnchor, EncodeOutput, Le;
    var buf := DOMAIN + EncodeHeader(p.header);
    var start := buf;
    buf := WriteMany(EncodeInput, buf + Le(2, |p.inputs|), p.inputs);
    assert buf == start + EncodeList(EncodeInput, p.inputs);
    start := buf;
    buf := WriteMany(EncodeAnchor, buf + Le(2, |p.anchors|), p.anchors);
    assert buf == start + EncodeList(EncodeAnchor, p.anchors);
    start := buf;
    buf := WriteMany(EncodeOutput, buf + Le(2, |p.outputs|), p.outputs);
    assert buf == start + EncodeList(EncodeOutput, p.outputs);
    start := buf;
    match p.change {
      case Some(change) =>
        buf := buf + [1];
        buf := buf + Le(8, change.value);
        buf := buf + [change.pool];
        buf := buf + Le(2, |change.destination|);
        buf := buf + change.destination;
      case None => buf := buf + [0];
    }
    assert buf == start + EncodeChange(p.change);
    buf := buf + Le(8, p.fee);
    start := buf;
    buf := buf + Le(2, |p.payload|);
    buf := buf + p.payload;
    assert buf == start + EncodeBlob(p.payload);
    buf := buf + [p.kind];
    commitment := sha256(buf);
  }

  // ---- Parsers ----

  function Then<A, B>(pa: Parser<A>, pb: Parser<B>): Parser<(A, B)> {
    bytes =>
      match pa(bytes)
      case None => None
      case Some((a, rest)) =>
        match pb(rest)
        case None => None
        case Some((b, after)) => Some(((a, b), after))
  }

  function Via<A, B>(pa: Parser<A>, f: A -> B): Parser<B> {
    bytes =>
      match pa(bytes)
      case None => None
      case Some((a, rest)) => Some((f(a), rest))
  }

  lemma ReadsThen<A, B>(pa: Parser<A>, pb: Parser<B>, ea: Bytes, eb: Bytes, a: A, b: B)
    requires Reads(pa, ea, a) && Reads(pb, eb, b)
    ensures Reads(Then(pa, pb), ea + eb, (a, b))
  {
    forall tail ensures Then(pa, pb)(ea + eb + tail) == Some(((a, b), tail)) {
      assert ea + eb + tail == ea + (eb + tail);
    }
  }

  lemma ReadsVia<A, B>(pa: Parser<A>, f: A -> B, ea: Bytes, a: A)
    requires Reads(pa, ea, a)
    ensures Reads(Via(pa, f), ea, f(a))
  {
  }

  function ByteParser(): Parser<Byte> {
    bytes => if bytes == [] then None else Some((bytes[0], bytes[1..]))
  }

  function Bytes32Parser(): Parser<Bytes32> {
    bytes => if |bytes| < 32 then None else Some((bytes[..32], bytes[32..]))
  }

  function DomainParser(): Parser<()> {
    bytes => if |bytes| < |DOMAIN| || bytes[..|DOMAIN|] != DOMAIN then None else Some(((), bytes[|DOMAIN|..]))
  }

  lemma {:induction false} FromLeBound(b: Bytes)
    ensures FromLe(b) < Pow256(|b|)
  {
    if b != [] {
      FromLeBound(b[1..]);
    }
  }

  lemma Widths()
    ensures Pow256(2) == U16_MODULUS && Pow256(4) == U32_MODULUS && Pow256(8) == U64_MODULUS
  {
  }

  function U16Of(b: Bytes): U16
    requires |b| == 2
  {
    FromLeBound(b);
    Widths();
    FromLe(b)
  }

  function U32Of(b: Bytes): U32
    requires |b| == 4
  {
    FromLeBound(b);
    Widths();
    FromLe(b)
  }

  function U64Of(b: Bytes): U64
    requires |b| == 8
  {
    FromLeBound(b);
    Widths();
    FromLe(b)
  }

  function U16Parser(): Parser<U16> {
    bytes => if |bytes| < 2 then None else Some((U16Of(bytes[..2]), bytes[2..]))
  }

  function U32Parser(): Parser<U32> {
    bytes => if |bytes| < 4 then None else Some((U32Of(bytes[..4]), bytes[4..]))
  }

  function U64Parser(): Parser<U64> {
    bytes => if |bytes| < 8 then None else Some((U64Of(bytes[..8]), bytes[8..]))
  }

  lemma ReadsByte(b: Byte)
    ensures Reads(ByteParser(), [b], b)
  {
  }

  lemma ReadsBytes32(b: Bytes32)
    ensures Reads(Bytes32Parser(), b, b)
  {
  }

  lemma ReadsDomain()
    ensures Reads(DomainParser(), DOMAIN, ())
  {
  }

  lemma ReadsU16(n: U16)
    ensures Reads(U16Parser(), Le(2, n), n)
  {
    hide Le, FromLe;
    Widths();
    LeRoundTrip(2, n);
    forall tail: Bytes ensures U16Parser()(Le(2, n) + tail) == Some((n, tail)) {
      TakeExact(Le(2, n), tail);
    }
  }

  lemma ReadsU32(n: U32)
    ensures Reads(U32Parser(), Le(4, n), n)
  {
    hide Le, FromLe;
    Widths();
    LeRoundTrip(4, n);
    forall tail: Bytes ensures U32Parser()(Le(4, n) + tail) == Some((n, tail)) {
      TakeExact(Le(4, n), tail);
    }
  }

  lemma ReadsU64(n: U64)
    ensures Reads(U64Parser(), Le(8, n), n)
  {
    hide Le, FromLe;
    Widths();
    LeRoundTrip(8, n);
    forall tail: Bytes ensures U64Parser()(Le(8, n) + tail) == Some((n, tail)) {
      TakeExact(Le(8, n), tail);
    }
  }

  function BlobParser(): Parser<Bytes> {
    bytes =>
      match U16Parser()(bytes)
      case None => None
      case Some((n, rest)) => Take(rest, n)
  }

  lemma ReadsBlob(b: Bytes)
    requires |b| < U16_MODULUS
    ensures Reads(BlobParser(), EncodeBlob(b), b)
  {
    hide U16Parser, Le, Reads;
    var n: U16 := |b|;
    ReadsU16(n);
    forall tail: Bytes ensures BlobParser()(EncodeBlob(b) + tail) == Some((b, tail)) {
      assert EncodeBlob(b) + tail == Le(2, n) + (b + tail);
      ReadsAt(U16Parser(), Le(2, n), n, b + tail);
      TakeExact(b, tail);
    }
    ReadsFromAll(BlobParser(), EncodeBlob(b), b);
  }

  function ListParser<T>(parse: Parser<T>): Parser<seq<T>> {
    bytes =>
      match U16Parser()(bytes)
      case None => None
      case Some((n, rest)) => ParseExactly(parse, n, rest)
  }

  lemma ReadsList<T>(encode: T -> Bytes, parse: Parser<T>, xs: seq<T>)
    requires |xs| < U16_MODULUS && forall i :: 0 <= i < |xs| ==> Reads(parse, encode(xs[i]), xs[i])
    ensures Reads(ListParser(parse), EncodeList(encode, xs), xs)
  {
    hide U16Parser, Le, Reads;
    var n: U16 := |xs|;
    ReadsU16(n);
    forall tail: Bytes ensures ListParser(parse)(EncodeList(encode, xs) + tail) == Some((xs, tail)) {
      assert EncodeList(encode, xs) + tail == Le(2, n) + (EncodeMany(encode, xs) + tail);
      ReadsAt(U16Parser(), Le(2, n), n, EncodeMany(encode, xs) + tail);
      ParseExactlyInverts(encode, parse, xs, tail);
    }
    ReadsFromAll(ListParser(parse), EncodeList(encode, xs), xs);
  }

  lemma ReadsAt<T>(parse: Parser<T>, encoded: Bytes, x: T, tail: Bytes)
    requires Reads(parse, encoded, x)
    ensures parse(encoded + tail) == Some((x, tail))
  {
  }

  lemma ReadsFromAll<T>(parse: Parser<T>, encoded: Bytes, x: T)
    requires forall tail: Bytes :: parse(encoded + tail) == Some((x, tail))
    ensures Reads(parse, encoded, x)
  {
  }

  // ---- Records ----

  function HeaderParser(): Parser<Header> {
    Via(
      Then(ByteParser(), Then(ByteParser(), Then(ByteParser(), Then(U32Parser(), Then(Bytes32Parser(),
        Then(U32Parser(), Then(U32Parser(), Then(ByteParser(), U32Parser())))))))),
      (t: (Byte, (Byte, (Byte, (U32, (Bytes32, (U32, (U32, (Byte, U32))))))))) =>
        Header(t.0, t.1.0, t.1.1.0, t.1.1.1.0, t.1.1.1.1.0, t.1.1.1.1.1.0, t.1.1.1.1.1.1.0, t.1.1.1.1.1.1.1.0,
          t.1.1.1.1.1.1.1.1))
  }

  function InputParser(): Parser<PlanInput> {
    Via(
      Then(ByteParser(), Then(Bytes32Parser(), Then(U32Parser(), U64Parser()))),
      (t: (Byte, (Bytes32, (U32, U64)))) => PlanInput(t.0, t.1.0, t.1.1.0, t.1.1.1))
  }

  function AnchorParser(): Parser<PlanAnchor> {
    Via(
      Then(ByteParser(), Then(U32Parser(), Bytes32Parser())),
      (t: (Byte, (U32, Bytes32))) => PlanAnchor(t.0, t.1.0, t.1.1))
  }

  function OutputParser(): Parser<PlanOutput> {
    Via(Then(U64Parser(), BlobParser()), (t: (U64, Bytes)) => PlanOutput(t.0, t.1))
  }

  function SomeChangeParser(): Parser<Option<PlanChange>> {
    Via(
      Then(U64Parser(), Then(ByteParser(), BlobParser())),
      (t: (U64, (Byte, Bytes))) => Some(PlanChange(t.0, t.1.0, t.1.1)))
  }

  /** The tag says whether a change record follows. */
  function ChangeParser(): Parser<Option<PlanChange>> {
    bytes =>
      if bytes == [] then None
      else if bytes[0] == 0 then Some((None, bytes[1..]))
      else if bytes[0] == 1 then SomeChangeParser()(bytes[1..])
      else None
  }

  function HeaderTail(h: Header): Bytes {
    h.tipHash + (Le(4, h.targetHeight) + (Le(4, h.branchId) + ([h.txVersion] + Le(4, h.expiryHeight))))
  }

  function HeaderTailValue(h: Header): (Bytes32, (U32, (U32, (Byte, U32)))) {
    (h.tipHash, (h.targetHeight, (h.branchId, (h.txVersion, h.expiryHeight))))
  }

  function HeaderTailParser(): Parser<(Bytes32, (U32, (U32, (Byte, U32))))> {
    Then(Bytes32Parser(), Then(U32Parser(), Then(U32Parser(), Then(ByteParser(), U32Parser()))))
  }

  lemma ReadsHeaderTail(h: Header)
    ensures Reads(HeaderTailParser(), HeaderTail(h), HeaderTailValue(h))
  {
    hide Reads, Then, ByteParser, U32Parser, Bytes32Parser, Le;
    ReadsBytes32(h.tipHash);
    ReadsU32(h.targetHeight);
    ReadsU32(h.branchId);
    ReadsByte(h.txVersion);
    ReadsU32(h.expiryHeight);
    var e8, v8 := [h.txVersion] + Le(4, h.expiryHeight), (h.txVersion, h.expiryHeight);
    var p8 := Then(ByteParser(), U32Parser());
    ReadsThen(ByteParser(), U32Parser(), [h.txVersion], Le(4, h.expiryHeight), h.txVersion, h.expiryHeight);
    var e7, p7, v7 := Le(4, h.branchId) + e8, Then(U32Parser(), p8), (h.branchId, v8);
    ReadsThen(U32Parser(), p8, Le(4, h.branchId), e8, h.branchId, v8);
    var e6, p6, v6 := Le(4, h.targetHeight) + e7, Then(U32Parser(), p7), (h.targetHeight, v7);
    ReadsThen(U32Parser(), p7, Le(4, h.targetHeight), e7, h.targetHeight, v7);
    ReadsThen(Bytes32Parser(), p6, h.tipHash, e6, h.tipHash, v6);
  }

  lemma ReadsHeader(h: Header)
    ensures Reads(HeaderParser(), EncodeHeader(h), h)
  {
    hide Reads, Then, ByteParser, U32Parser, Bytes32Parser, Le;
    ReadsByte(h.networkId);
    ReadsByte(h.protocolVersion);
    ReadsByte(h.pool);
    ReadsU32(h.tipHeight);
    var e5, p5, v5 := HeaderTail(h), HeaderTailParser(), HeaderTailValue(h);
    ReadsHeaderTail(h);
    var e4, p4, v4 := Le(4, h.tipHeight) + e5, Then(U32Parser(), p5), (h.tipHeight, v5);
    ReadsThen(U32Parser(), p5, Le(4, h.tipHeight), e5, h.tipHeight, v5);
    var e3, p3, v3 := [h.pool] + e4, Then(ByteParser(), p4), (h.pool, v4);
    ReadsThen(ByteParser(), p4, [h.pool], e4, h.pool, v4);
    var e2, p2, v2 := [h.protocolVersion] + e3, Then(ByteParser(), p3), (h.protocolVersion, v3);
    ReadsThen(ByteParser(), p3, [h.protocolVersion], e3, h.protocolVersion, v3);
    var e1, p1, v1 := [h.networkId] + e2, Then(ByteParser(), p2), (h.networkId, v2);
    ReadsThen(ByteParser(), p2, [h.networkId], e2, h.networkId, v2);
    assert EncodeHeader(h) == e1;
    ReadsVia(p1,
      (t: (Byte, (Byte, (Byte, (U32, (Bytes32, (U32, (U32, (Byte, U32))))))))) =>
        Header(t.0, t.1.0, t.1.1.0, t.1.1.1.0, t.1.1.1.1.0, t.1.1.1.1.1.0, t.1.1.1.1.1.1.0, t.1.1.1.1.1.1.1.0,
          t.1.1.1.1.1.1.1.1),
      e1, v1);
  }

  lemma ReadsInput(i: PlanInput)
    ensures Reads(InputParser(), EncodeInput(i), i)
  {
    hide Reads, Then, ByteParser, U32Parser, U64Parser, Bytes32Parser, Le;
    ReadsByte(i.pool);
    ReadsBytes32(i.txid);
    ReadsU32(i.outputIndex);
    ReadsU64(i.value);
    var e3, p3, v3 := Le(4, i.outputIndex) + Le(8, i.value), Then(U32Parser(), U64Parser()), (i.outputIndex, i.value);
    ReadsThen(U32Parser(), U64Parser(), Le(4, i.outputIndex), Le(8, i.value), i.outputIndex, i.value);
    var e2, p2, v2 := i.txid + e3, Then(Bytes32Parser(), p3), (i.txid, v3);
    ReadsThen(Bytes32Parser(), p3, i.txid, e3, i.txid, v3);
    var e1, p1, v1 := [i.pool] + e2, Then(ByteParser(), p2), (i.pool, v2);
    ReadsThen(ByteParser(), p2, [i.pool], e2, i.pool, v2);
    assert EncodeInput(i) == e1;
    ReadsVia(p1, (t: (Byte, (Bytes32, (U32, U64)))) => PlanInput(t.0, t.1.0, t.1.1.0, t.1.1.1), e1, v1);
  }

  lemma ReadsAnchor(a: PlanAnchor)
    ensures Reads(AnchorParser(), EncodeAnchor(a), a)
  {
    hide Reads, Then, ByteParser, U32Parser, Bytes32Parser, Le;
    ReadsByte(a.pool);
    ReadsU32(a.height);
    ReadsBytes32(a.root);
    var e2, p2, v2 := Le(4, a.height) + a.root, Then(U32Parser(), Bytes32Parser()), (a.height, a.root);
    ReadsThen(U32Parser(), Bytes32Parser(), Le(4, a.height), a.root, a.height, a.root);
    var e1, p1, v1 := [a.pool] + e2, Then(ByteParser(), p2), (a.pool, v2);
    ReadsThen(ByteParser(), p2, [a.pool], e2, a.pool, v2);
    assert EncodeAnchor(a) == e1;
    ReadsVia(p1, (t: (Byte, (U32, Bytes32))) => PlanAnchor(t.0, t.1.0, t.1.1), e1, v1);
  }

  lemma ReadsOutput(o: PlanOutput)
    requires |o.script| < U16_MODULUS
    ensures Reads(OutputParser(), EncodeOutput(o), o)
  {
    hide Reads, Then, U64Parser, BlobParser, Le, EncodeBlob;
    ReadsU64(o.value);
    ReadsBlob(o.script);
    ReadsThen(U64Parser(), BlobParser(), Le(8, o.value), EncodeBlob(o.script), o.value, o.script);
    ReadsVia(Then(U64Parser(), BlobParser()), (t: (U64, Bytes)) => PlanOutput(t.0, t.1),
      EncodeOutput(o), (o.value, o.script));
  }

  predicate ChangeFits(c: Option<PlanChange>) {
    c.Some? ==> |c.value.destination| < U16_MODULUS
  }

  lemma ReadsSomeChange(c: PlanChange)
    requires |c.destination| < U16_MODULUS
    ensures Reads(SomeChangeParser(), Le(8, c.value) + ([c.pool] + EncodeBlob(c.destination)), Some(c))
  {
    hide Reads, Then, U64Parser, ByteParser, BlobParser, Le, EncodeBlob;
    ReadsU64(c.value);
    ReadsByte(c.pool);
    ReadsBlob(c.destination);
    var e2, p2, v2 := [c.pool] + EncodeBlob(c.destination), Then(ByteParser(), BlobParser()), (c.pool, c.destination);
    ReadsThen(ByteParser(), BlobParser(), [c.pool], EncodeBlob(c.destination), c.pool, c.destination);
    ReadsThen(U64Parser(), p2, Le(8, c.value), e2, c.value, v2);
    ReadsVia(Then(U64Parser(), p2), (t: (U64, (Byte, Bytes))) => Some(PlanChange(t.0, t.1.0, t.1.1)),
      Le(8, c.value) + e2, (c.value, v2));
  }

  lemma ReadsChange(c: Option<PlanChange>)
    requires ChangeFits(c)
    ensures Reads(ChangeParser(), EncodeChange(c), c)
  {
    hide Reads, SomeChangeParser, Le, EncodeBlob;
    forall tail: Bytes ensures ChangeParser()(EncodeChange(c) + tail) == Some((c, tail)) {
      match c {
        case None => assert (EncodeChange(c) + tail)[1..] == tail;
        case Some(change) =>
          var body := Le(8, change.value) + ([change.pool] + EncodeBlob(change.destination));
          assert EncodeChange(c) + tail == [1] + (body + tail);
          ReadsSomeChange(change);
          ReadsAt(SomeChangeParser(), body, Some(change), tail);
      }
    }
    ReadsFromAll(ChangeParser(), EncodeChange(c), c);
  }

  // ---- Whole plans ----

  type Fields =
    ((), (Header, (seq<PlanInput>, (seq<PlanAnchor>, (seq<PlanOutput>, (Option<PlanChange>, (U64, (Bytes, Byte))))))))

  function FromFields(t: Fields): Plan {
    Plan(t.1.0, t.1.1.0, t.1.1.1.0, t.1.1.1.1.0, t.1.1.1.1.1.0, t.1.1.1.1.1.1.0, t.1.1.1.1.1.1.1.0, t.1.1.1.1.1.1.1.1)
  }

  function FieldsParser(): Parser<Fields> {
    Then(DomainParser(), Then(HeaderParser(), Then(ListParser(InputParser()), Then(ListParser(AnchorParser()),
      Then(ListParser(OutputParser()), Then(ChangeParser(), Then(U64Parser(), Then(BlobParser(), ByteParser()))))))))
  }

  /** Reads a preimage, all of it. */
  function ParsePreimage(bytes: Bytes): Option<Plan> {
    match FieldsParser()(bytes)
    case None => None
    case Some((fields, rest)) => if rest == [] then Some(FromFields(fields)) else None
  }

  /** Counts and byte lengths that fit their 16-bit prefixes. */
  predicate Fits(p: Plan) {
    && |p.inputs| < U16_MODULUS && |p.anchors| < U16_MODULUS && |p.outputs| < U16_MODULUS
    && (forall i :: 0 <= i < |p.outputs| ==> |p.outputs[i].script| < U16_MODULUS)
    && ChangeFits(p.change) && |p.payload| < U16_MODULUS
  }

  lemma ReadsLists(p: Plan)
    requires Fits(p)
    ensures Reads(ListParser(InputParser()), EncodeList(EncodeInput, p.inputs), p.inputs)
    ensures Reads(ListParser(AnchorParser()), EncodeList(EncodeAnchor, p.anchors), p.anchors)
    ensures Reads(ListParser(OutputParser()), EncodeList(EncodeOutput, p.outputs), p.outputs)
  {
    hide Reads, ListParser, EncodeList, InputParser, AnchorParser, OutputParser, EncodeInput, EncodeAnchor,
      EncodeOutput;
    forall i | 0 <= i < |p.inputs| ensures Reads(InputParser(), EncodeInput(p.inputs[i]), p.inputs[i]) {
      ReadsInput(p.inputs[i]);
    }
    ReadsList(EncodeInput, InputParser(), p.inputs);
    forall i | 0 <= i < |p.anchors| ensures Reads(AnchorParser(), EncodeAnchor(p.anchors[i]), p.anchors[i]) {
      ReadsAnchor(p.anchors[i]);
    }
    ReadsList(EncodeAnchor, AnchorParser(), p.anchors);
    forall i | 0 <= i < |p.outputs| ensures Reads(OutputParser(), EncodeOutput(p.outputs[i]), p.outputs[i]) {
      ReadsOutput(p.outputs[i]);
    }
    ReadsList(EncodeOutput, OutputParser(), p.outputs);
  }

  lemma ReadsPlan(p: Plan)
    requires Fits(p)
    ensures ParsePreimage(Preimage(p)) == Some(p)
  {
    hide Reads, Then, DomainParser, HeaderParser, ListParser, ChangeParser, U64Parser, BlobParser, ByteParser;
    hide InputParser, AnchorParser, OutputParser, EncodeHeader, EncodeList, EncodeChange, EncodeBlob, Le;
    ReadsDomain();
    ReadsHeader(p.header);
    ReadsLists(p);
    ReadsChange(p.change);
    ReadsU64(p.fee);
    ReadsBlob(p.payload);
    ReadsByte(p.kind);
    var e7, p7, v7 := EncodeBlob(p.payload) + [p.kind], Then(BlobParser(), ByteParser()), (p.payload, p.kind);
    ReadsThen(BlobParser(), ByteParser(), EncodeBlob(p.payload), [p.kind], p.payload, p.kind);
    var e6, p6, v6 := Le(8, p.fee) + e7, Then(U64Parser(), p7), (p.fee, v7);
    ReadsThen(U64Parser(), p7, Le(8, p.fee), e7, p.fee, v7);
    var e5, p5, v5 := EncodeChange(p.change) + e6, Then(ChangeParser(), p6), (p.change, v6);
    ReadsThen(ChangeParser(), p6, EncodeChange(p.change), e6, p.change, v6);
    var e4, p4, v4 := EncodeList(EncodeOutput, p.outputs) + e5, Then(ListParser(OutputParser()), p5), (p.outputs, v5);
    ReadsThen(ListParser(OutputParser()), p5, EncodeList(EncodeOutput, p.outputs), e5, p.outputs, v5);
    var e3, p3, v3 := EncodeList(EncodeAnchor, p.anchors) + e4, Then(ListParser(AnchorParser()), p4), (p.anchors, v4);
    ReadsThen(ListParser(AnchorParser()), p4, EncodeList(EncodeAnchor, p.anchors), e4, p.anchors, v4);
    var e2, p2, v2 := EncodeList(EncodeInput, p.inputs) + e3, Then(ListParser(InputParser()), p3), (p.inputs, v3);
    ReadsThen(ListParser(InputParser()), p3, EncodeList(EncodeInput, p.inputs), e3, p.inputs, v3);
    var e1, p1, v1 := EncodeHeader(p.header) + e2, Then(HeaderParser(), p2), (p.header, v2);
    ReadsThen(HeaderParser(), p2, EncodeHeader(p.header), e2, p.header, v2);
    ReadsThen(DomainParser(), p1, DOMAIN, e1, (), v1);
    assert Preimage(p) == DOMAIN + e1;
    ReadsAt(Then(DomainParser(), p1), DOMAIN + e1, ((), v1), []);
    assert DOMAIN + e1 + [] == DOMAIN + e1;
  }

  // ---- What parsing yields always fits ----

  lemma {:induction false} ParseExactlyAll<T>(parse: Parser<T>, good: T -> bool, n: nat, bytes: Bytes)
    requires forall b | parse(b).Some? :: good(parse(b).value.0)
    requires ParseExactly(parse, n, bytes).Some?
    ensures var xs := ParseExactly(parse, n, bytes).value.0; |xs| == n && forall i :: 0 <= i < n ==> good(xs[i])
  {
    if n != 0 {
      ParseExactlyAll(parse, good, n - 1, parse(bytes).value.1);
    }
  }

  lemma ListFits<T>(parse: Parser<T>, good: T -> bool, bytes: Bytes)
    requires forall b | parse(b).Some? :: good(parse(b).value.0)
    requires ListParser(parse)(bytes).Some?
    ensures var xs := ListParser(parse)(bytes).value.0; |xs| < U16_MODULUS && forall i :: 0 <= i < |xs| ==> good(xs[i])
  {
    hide U16Parser;
    var (n, rest) := U16Parser()(bytes).value;
    ParseExactlyAll(parse, good, n, rest);
  }

  lemma BlobFits(bytes: Bytes)
    requires BlobParser()(bytes).Some?
    ensures |BlobParser()(bytes).value.0| < U16_MODULUS
  {
    hide U16Parser;
    var (n, rest) := U16Parser()(bytes).value;
    assert n < U16_MODULUS;
  }

  lemma ChangeParsedFits(bytes: Bytes)
    requires ChangeParser()(bytes).Some?
    ensures ChangeFits(ChangeParser()(bytes).value.0)
  {
    hide U64Parser, ByteParser, BlobParser;
    if bytes[0] == 1 {
      assert ChangeParser()(bytes) == SomeChangeParser()(bytes[1..]);
      assert Then(U64Parser(), Then(ByteParser(), BlobParser()))(bytes[1..]).Some?;
      var r1 := U64Parser()(bytes[1..]).value.1;
      var r2 := ByteParser()(r1).value.1;
      BlobFits(r2);
    }
  }

  lemma ParsedFits(bytes: Bytes)
    requires ParsePreimage(bytes).Some?
    ensures Fits(ParsePreimage(bytes).value)
  {
    hide DomainParser, HeaderParser, ListParser, ChangeParser, U64Parser, BlobParser, ByteParser, InputParser,
      AnchorParser, OutputParser;
    var r0 := DomainParser()(bytes).value.1;
    var r1 := HeaderParser()(r0).value.1;
    var r2 := ListParser(InputParser())(r1).value.1;
    var r3 := ListParser(AnchorParser())(r2).value.1;
    var r4 := ListParser(OutputParser())(r3).value.1;
    var r5 := ChangeParser()(r4).value.1;
    var r6 := U64Parser()(r5).value.1;
    ListFits(InputParser(), _ => true, r1);
    ListFits(AnchorParser(), _ => true, r2);
    OutputsFit(r3);
    ChangeParsedFits(r4);
    BlobFits(r6);
  }

  lemma OutputsFit(bytes: Bytes)
    requires ListParser(OutputParser())(bytes).Some?
    ensures var xs := ListParser(OutputParser())(bytes).value.0;
      |xs| < U16_MODULUS && forall i :: 0 <= i < |xs| ==> |xs[i].script| < U16_MODULUS
  {
    hide U64Parser, BlobParser, ListParser;
    forall b | OutputParser()(b).Some? ensures |OutputParser()(b).value.0.script| < U16_MODULUS {
      BlobFits(U64Parser()(b).value.1);
    }
    ListFits(OutputParser(), (o: PlanOutput) => |o.script| < U16_MODULUS, bytes);
  }

  /** A plan reads back from its preimage exactly when its counts and lengths fit 16 bits. */
  lemma PreimageRoundTripIff(p: Plan)
    ensures ParsePreimage(Preimage(p)) == Some(p) <==> Fits(p)
  {
    hide ParsePreimage, Preimage, Fits;
    if Fits(p) {
      ReadsPlan(p);
    }
    if ParsePreimage(Preimage(p)) == Some(p) {
      ParsedFits(Preimage(p));
    }
  }

  /** Two plans that fit share a preimage only if every field, list element, pool tag and the optional change agree. */
  lemma PreimageInjective(a: Plan, b: Plan)
    requires Fits(a) && Fits(b) && Preimage(a) == Preimage(b)
    ensures a == b
  {
    hide ParsePreimage, Preimage, Fits;
    PreimageRoundTripIff(a);
    PreimageRoundTripIff(b);
  }

  /** The preimages of plans that fit, recognised by reading them. */
  predicate Canonical(bytes: Bytes) {
    ParsePreimage(bytes).Some? && Preimage(ParsePreimage(bytes).value) == bytes
  }

  ghost predicate Binding(sha256: Bytes -> Bytes32) {
    forall a: Plan, b: Plan :: Fits(a) && Fits(b) && sha256(Preimage(a)) == sha256(Preimage(b)) ==> a == b
  }

  ghost predicate KeepsApart(sha256: Bytes -> Bytes32) {
    forall x: Bytes, y: Bytes :: Canonical(x) && Canonical(y) && sha256(x) == sha256(y) ==> x == y
  }

  lemma CanonicalIff(bytes: Bytes)
    ensures Canonical(bytes) <==> exists p: Plan :: Fits(p) && Preimage(p) == bytes
  {
    hide ParsePreimage, Preimage, Fits;
    if Canonical(bytes) {
      ParsedFits(bytes);
    }
    if p: Plan :| Fits(p) && Preimage(p) == bytes {
      PreimageRoundTripIff(p);
    }
  }

  /**
    * The commitment binds every field of every plan that fits exactly when the hash keeps the encodings of
    * plans apart: the encoding itself adds no way to give two plans one commitment.
    */
  lemma CommitmentBindsIff(sha256: Bytes -> Bytes32)
    ensures Binding(sha256) <==> KeepsApart(sha256)
  {
    hide ParsePreimage, Preimage, Fits, Canonical;
    if KeepsApart(sha256) {
      forall a: Plan, b: Plan | Fits(a) && Fits(b) && sha256(Preimage(a)) == sha256(Preimage(b)) ensures a == b {
        CanonicalIff(Preimage(a));
        CanonicalIff(Preimage(b));
        PreimageInjective(a, b);
      }
    }
    if Binding(sha256) {
      forall x: Bytes, y: Bytes | Canonical(x) && Canonical(y) && sha256(x) == sha256(y) ensures x == y {
        CanonicalIff(x);
        CanonicalIff(y);
        var a: Plan :| Fits(a) && Preimage(a) == x;
        var b: Plan :| Fits(b) && Preimage(b) == y;
        assert a == b;
      }
    }
  }
}
