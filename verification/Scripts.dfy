/** Push-only scripts: what the transaction builder writes, what the indexer reads, and why they agree. */
module Scripts {
  import opened Options
  import opened ByteStrings
  import opened RecordLists

  const OP_RETURN: Byte := 0x6a
  /** The longest push a script may hold (Zcash's script element limit). */
  const MAX_PUSH_SIZE: nat := 520

  // ---- One push ----

  /** Writes lengths of 256 and more in two bytes, truncating like the builder's casts. */
  function PushData(d: Bytes): Bytes {
    var n := |d|;
    if n < 0x4c then [n] + d
    else if n <= 0xff then [0x4c, n] + d
    else [0x4d, n % 0x100, (n / 0x100) % 0x100] + d
  }

  /** The payload follows a little-endian length of `width` bytes. */
  function ParsePrefixed(script: Bytes, width: nat): (r: Option<(Bytes, Bytes)>)
    ensures r.Some? ==> |r.value.0| + |r.value.1| <= |script|
  {
    var (len, rest) :- Take(script, width);
    Take(rest, FromLe(len))
  }

  /** The payload of the first push, and what follows it. */
  function ParsePush(script: Bytes): (r: Option<(Bytes, Bytes)>)
    ensures r.Some? ==> |r.value.0| + |r.value.1| < |script|
  {
    if script == [] then None else
      var op, rest := script[0], script[1..];
      if op <= 0x4b then Take(rest, op)
      else if op == 0x4c then ParsePrefixed(rest, 1)
      else if op == 0x4d then ParsePrefixed(rest, 2)
      else if op == 0x4e then ParsePrefixed(rest, 4)
      else None
  }

  lemma ParsePrefixed1(n: Byte, rest: Bytes)
    ensures ParsePrefixed([n] + rest, 1) == Take(rest, n)
  {
    TakeExact([n], rest);
    assert [n][1..] == [];
    assert FromLe([n]) == n;
  }

  lemma ParsePrefixed2(a: Byte, b: Byte, rest: Bytes)
    ensures ParsePrefixed([a, b] + rest, 2) == Take(rest, a + 0x100 * b)
  {
    TakeExact([a, b], rest);
    assert [a, b][1..] == [b] && [b][1..] == [];
    assert FromLe([b]) == b;
  }

  /** Reading a written push gives back the data, cut at its length modulo 2^16. */
  lemma PushInverts(d: Bytes, tail: Bytes)
    ensures var n := |d| % U16_MODULUS;
      ParsePush(PushData(d) + tail) == Some((d[..n], d[n..] + tail))
  {
    hide ParsePrefixed, Take, FromLe;
    var n := |d|;
    var script := PushData(d) + tail;
    if n > 0xff {
      LongPushInverts(d, tail);
    } else {
      if n >= 0x4c {
        assert script[1..] == [n] + (d + tail);
        ParsePrefixed1(n, d + tail);
      } else {
        assert script[1..] == d + tail;
      }
      TakeExact(d, tail);
      assert n % U16_MODULUS == n;
      WholeTaken(d, tail);
    }
  }

  lemma WholeTaken(d: Bytes, tail: Bytes)
    ensures d[..|d|] == d && d[|d|..] + tail == tail
  {
  }

  lemma LongPushInverts(d: Bytes, tail: Bytes)
    requires |d| > 0xff
    ensures var n := |d| % U16_MODULUS;
      ParsePush(PushData(d) + tail) == Some((d[..n], d[n..] + tail))
  {
    hide ParsePrefixed, Take, FromLe;
    var n := |d|;
    var a, b := n % 0x100, (n / 0x100) % 0x100;
    assert (PushData(d) + tail)[1..] == [a, b] + (d + tail);
    ParsePrefixed2(a, b, d + tail);
    TwoByteLength(n);
    TakeExtends(d, n % U16_MODULUS, tail);
  }

  lemma TwoByteLength(n: nat)
    ensures n % 0x100 + 0x100 * ((n / 0x100) % 0x100) == n % U16_MODULUS
  {
    var q := n / 0x100;
    assert n == 0x100 * q + n % 0x100 && q == 0x100 * (q / 0x100) + q % 0x100;
    assert n == U16_MODULUS * (q / 0x100) + (0x100 * (q % 0x100) + n % 0x100);
  }

  /** A push survives the trip exactly when its length fits two bytes. */
  lemma PushRoundTripIff(d: Bytes, tail: Bytes)
    ensures ParsePush(PushData(d) + tail) == Some((d, tail)) <==> |d| < U16_MODULUS
  {
    PushInverts(d, tail);
    var n := |d| % U16_MODULUS;
    if |d| < U16_MODULUS {
      assert d[..n] == d && d[n..] + tail == tail;
    } else {
      assert |d[..n]| != |d|;
    }
  }

  // ---- Push-only scripts ----

  /** All pushes up to the first byte that is not one. */
  function Pushes(script: Bytes): seq<Bytes>
    decreases |script|
  {
    match ParsePush(script)
    case None => []
    case Some((payload, rest)) => [payload] + Pushes(rest)
  }

  method ParseScriptPushes(script: Bytes) returns (out: seq<Bytes>)
    ensures out == Pushes(script)
  {
    out := [];
    var cursor := script;
    while cursor != []
      invariant out + Pushes(cursor) == Pushes(script)
      decreases |cursor|
    {
      match ParsePush(cursor) {
        case None => break;
        case Some((payload, rest)) =>
          out := out + [payload];
          cursor := rest;
      }
    }
    assert Pushes(cursor) == [] && out + [] == out;
  }

  predicate Pushable(d: Bytes) {
    |d| < U16_MODULUS
  }

  /** A script of written pushes reads back as those pushes, followed by those of whatever follows. */
  lemma {:induction false} PushesOfScript(parts: seq<Bytes>, tail: Bytes)
    requires forall d :: d in parts ==> Pushable(d)
    ensures Pushes(EncodeMany(PushData, parts) + tail) == parts + Pushes(tail)
  {
    hide ParsePush, PushData;
    if parts == [] {
      assert EncodeMany(PushData, parts) + tail == tail;
    } else {
      var rest := EncodeMany(PushData, parts[1..]) + tail;
      assert parts[0] in parts && forall d :: d in parts[1..] ==> d in parts;
      assert EncodeMany(PushData, parts) + tail == PushData(parts[0]) + rest;
      PushRoundTripIff(parts[0], rest);
      PushesOfScript(parts[1..], tail);
      assert [parts[0]] + (parts[1..] + Pushes(tail)) == parts + Pushes(tail);
    }
  }

  lemma PushesOfWholeScript(parts: seq<Bytes>)
    requires forall d :: d in parts ==> Pushable(d)
    ensures Pushes(EncodeMany(PushData, parts)) == parts
  {
    PushesOfScript(parts, []);
    assert EncodeMany(PushData, parts) + [] == EncodeMany(PushData, parts);
  }

  // ---- Which scripts are written pushes ----

  /** No push is shorter than the written one of its payload, and only that one is as short. */
  lemma PushCost(script: Bytes)
    requires ParsePush(script).Some?
    ensures var (payload, rest) := ParsePush(script).value;
      && |script| >= |PushData(payload)| + |rest|
      && (script == PushData(payload) + rest <==> |script| == |PushData(payload)| + |rest|)
  {
    hide PushData;
    var op, after := script[0], script[1..];
    assert script == [op] + after;
    if op <= 0x4b {
      assert after == after[..op] + after[op..];
      ShortPush(after[..op]);
    } else if op == 0x4c {
      PrefixedPush(after, 1);
    } else if op == 0x4d {
      PrefixedPush(after, 2);
    } else {
      PrefixedPush(after, 4);
    }
  }

  lemma ShortPush(d: Bytes)
    requires |d| <= 0x4b
    ensures PushData(d) == [|d|] + d
  {
  }

  /** A push with a length prefix of `width` bytes. */
  lemma PrefixedPush(after: Bytes, width: nat)
    requires (width == 1 || width == 2 || width == 4) && ParsePrefixed(after, width).Some?
    ensures var (payload, rest) := ParsePrefixed(after, width).value;
      var script := [if width == 1 then 0x4c else if width == 2 then 0x4d else 0x4e] + after;
      && |script| >= |PushData(payload)| + |rest|
      && (script == PushData(payload) + rest <==> |script| == |PushData(payload)| + |rest|)
  {
    hide FromLe;
    var prefix, tail := after[..width], after[width..];
    var n := FromLe(prefix);
    assert after == prefix + (tail[..n] + tail[n..]);
    if width == 1 {
      assert prefix == [prefix[0]];
      OneByteNumber(prefix[0]);
    } else if width == 2 {
      assert prefix == [prefix[0], prefix[1]];
      TwoByteNumber(prefix[0], prefix[1]);
    } else {
      assert ([0x4e] + after)[0] == 0x4e;
      assert (PushData(tail[..n]) + tail[n..])[0] != 0x4e;
    }
  }

  lemma OneByteNumber(a: Byte)
    ensures FromLe([a]) == a
  {
    assert [a][1..] == [];
  }

  lemma TwoByteNumber(a: Byte, b: Byte)
    ensures FromLe([a, b]) == a + 0x100 * b
    ensures FromLe([a, b]) % 0x100 == a && (FromLe([a, b]) / 0x100) % 0x100 == b
  {
    assert [a, b][1..] == [b] && [b][1..] == [];
    assert FromLe([b]) == b;
  }

  /** A script is never shorter than its pushes written out, and only written pushes are as short. */
  lemma {:induction false} MinimalScript(script: Bytes)
    ensures |script| >= |EncodeMany(PushData, Pushes(script))|
    ensures script == EncodeMany(PushData, Pushes(script)) <==> |script| == |EncodeMany(PushData, Pushes(script))|
    decreases |script|
  {
    hide ParsePush, PushData;
    if ParsePush(script).Some? {
      var (payload, rest) := ParsePush(script).value;
      PushCost(script);
      MinimalScript(rest);
      assert Pushes(script) == [payload] + Pushes(rest);
      if |script| == |EncodeMany(PushData, Pushes(script))| {
        assert script == PushData(payload) + rest;
      }
    }
  }

  /** `slice::chunks`: pieces of `size` bytes, the last possibly shorter. */
  function Pieces(data: Bytes, size: nat): seq<Bytes>
    requires size > 0
    decreases |data|
  {
    if data == [] then []
    else if |data| <= size then [data]
    else [data[..size]] + Pieces(data[size..], size)
  }

  /** The pieces join up to the data, are never empty, and are as few as the size allows. */
  lemma PiecesOf(data: Bytes, size: nat)
    requires size > 0
    ensures Flatten(Pieces(data, size)) == data
    ensures forall p :: p in Pieces(data, size) ==> 0 < |p| <= size
    ensures |data| <= |Pieces(data, size)| * size < |data| + size
  {
    PiecesJoin(data, size);
    PiecesSizes(data, size);
    PiecesCount(data, size);
  }

  lemma {:induction false} PiecesJoin(data: Bytes, size: nat)
    requires size > 0
    ensures Flatten(Pieces(data, size)) == data
    decreases |data|
  {
    if data == [] {
    } else if |data| <= size {
      FlattenOne(data);
    } else {
      var first, rest := data[..size], data[size..];
      PiecesJoin(rest, size);
      FlattenCons(first, Pieces(rest, size));
      assert first + rest == data;
    }
  }

  lemma FlattenCons(first: Bytes, rest: seq<Bytes>)
    ensures Flatten([first] + rest) == first + Flatten(rest)
  {
    FlattenConcat([first], rest);
    FlattenOne(first);
  }

  lemma {:induction false} PiecesSizes(data: Bytes, size: nat)
    requires size > 0
    ensures forall p :: p in Pieces(data, size) ==> 0 < |p| <= size
    decreases |data|
  {
    if |data| > size {
      PiecesSizes(data[size..], size);
    }
  }

  lemma {:induction false} PiecesCount(data: Bytes, size: nat)
    requires size > 0
    ensures |data| <= |Pieces(data, size)| * size < |data| + size
    decreases |data|
  {
    if |data| > size {
      PiecesCount(data[size..], size);
      OneMore(|Pieces(data[size..], size)|, size);
    }
  }

  lemma OneMore(k: nat, size: nat)
    ensures (1 + k) * size == size + k * size
  {
  }

  lemma FlattenOne(b: Bytes)
    ensures Flatten([b]) == b
  {
  }

  // ---- The scripts of the protocol ----

  /** `OP_RETURN <push>`. */
  function OpReturnScript(payload: Bytes): Bytes {
    [OP_RETURN] + PushData(payload)
  }

  /** The data of an output that is OP_RETURN followed by nothing, or by exactly one push. */
  function ExtractOpReturnData(script: Bytes): Option<Bytes> {
    if script == [] || script[0] != OP_RETURN then None
    else if script[1..] == [] then Some([])
    else
      var (payload, rest) :- ParsePush(script[1..]);
      if rest == [] then Some(payload) else None
  }

  lemma OpReturnRoundTrip(payload: Bytes)
    ensures ExtractOpReturnData(OpReturnScript(payload)) == Some(payload) <==> |payload| < U16_MODULUS
  {
    assert OpReturnScript(payload)[1..] == PushData(payload) + [];
    PushInverts(payload, []);
    PushRoundTripIff(payload, []);
    var n := |payload| % U16_MODULUS;
    if |payload| >= U16_MODULUS {
      assert |payload[..n]| != |payload|;
    } else {
      assert payload[n..] + [] == [];
    }
  }

  /** `PUSH(index) PUSH(data part)* PUSH(signature) PUSH(redeem)`, as the list of its pushes. */
  function CarrierPushes(index: Byte, data: Bytes, signature: Bytes, redeem: Bytes): seq<Bytes> {
    [[index]] + Pieces(data, MAX_PUSH_SIZE) + [signature, redeem]
  }

  function CarrierScript(index: Byte, data: Bytes, signature: Bytes, redeem: Bytes): Bytes {
    EncodeMany(PushData, CarrierPushes(index, data, signature, redeem))
  }

  method CarrierScriptSig(index: Byte, data: Bytes, signature: Bytes, redeem: Bytes) returns (s: Bytes)
    ensures s == CarrierScript(index, data, signature, redeem)
  {
    var parts := Pieces(data, MAX_PUSH_SIZE);
    s := WriteMany(PushData, PushData([index]), parts);
    EncodeManyConcat(PushData, [[index]], parts);
    EncodeOne(PushData, [index]);
    EncodeManySnoc(PushData, [[index]] + parts, signature);
    EncodeManySnoc(PushData, [[index]] + parts + [signature], redeem);
    assert CarrierPushes(index, data, signature, redeem) == [[index]] + parts + [signature] + [redeem];
    s := s + PushData(signature);
    s := s + PushData(redeem);
  }

  lemma EncodeOne<T>(encode: T -> Bytes, x: T)
    ensures EncodeMany(encode, [x]) == encode(x)
  {
  }

  lemma {:induction false} EncodeManyConcat<T>(encode: T -> Bytes, xs: seq<T>, ys: seq<T>)
    ensures EncodeMany(encode, xs + ys) == EncodeMany(encode, xs) + EncodeMany(encode, ys)
  {
    if ys == [] {
      assert xs + ys == xs;
    } else {
      var front, y := ys[..|ys| - 1], ys[|ys| - 1];
      assert xs + ys == (xs + front) + [y] && ys == front + [y];
      EncodeManySnoc(encode, xs + front, y);
      EncodeManySnoc(encode, front, y);
      EncodeManyConcat(encode, xs, front);
    }
  }

  function P2pkhScript(signature: Bytes, pubkey: Bytes): Bytes {
    EncodeMany(PushData, [signature, pubkey])
  }

  /** The carrier chunk of a scriptSig: at least four pushes, of which the first is one byte. */
  function ChunkFromPushes(pushes: seq<Bytes>): Option<(Byte, Bytes)> {
    if |pushes| < 4 || |pushes[0]| != 1 then None
    else Some((pushes[0][0], Flatten(pushes[1..|pushes| - 2])))
  }

  function ChunkIn(script: Bytes): Option<(Byte, Bytes)> {
    ChunkFromPushes(Pushes(script))
  }

  method ChunkFromScriptSig(script: Bytes) returns (r: Option<(Byte, Bytes)>)
    ensures r == ChunkIn(script)
  {
    var pushes := ParseScriptPushes(script);
    if |pushes| < 4 {
      return None;
    }
    if |pushes[0]| != 1 {
      return None;
    }
    var parts := pushes[1..|pushes| - 2];
    var data := Concatenate(parts);
    r := Some((pushes[0][0], data));
  }

  method Concatenate(parts: seq<Bytes>) returns (data: Bytes)
    ensures data == Flatten(parts)
  {
    data := [];
    for i := 0 to |parts|
      invariant data == Flatten(parts[..i])
    {
      assert parts[..i + 1][..i] == parts[..i];
      data := data + parts[i];
    }
    assert parts[..|parts|] == parts;
  }

  lemma CarrierPushesRead(index: Byte, data: Bytes, signature: Bytes, redeem: Bytes, tail: Bytes)
    requires Pushable(signature) && Pushable(redeem)
    ensures Pushes(CarrierScript(index, data, signature, redeem)) == CarrierPushes(index, data, signature, redeem)
    ensures Pushes(CarrierScript(index, data, signature, redeem) + tail) ==
      CarrierPushes(index, data, signature, redeem) + Pushes(tail)
  {
    var parts := CarrierPushes(index, data, signature, redeem);
    PiecesOf(data, MAX_PUSH_SIZE);
    forall d | d in parts ensures Pushable(d) {
    }
    PushesOfWholeScript(parts);
    PushesOfScript(parts, tail);
  }

  /** The indexer reads back every carrier the builder writes, for any signature; a chunk with no data is not seen. */
  lemma ChunkRoundTrip(index: Byte, data: Bytes, signature: Bytes, redeem: Bytes)
    requires Pushable(signature) && Pushable(redeem)
    ensures ChunkIn(CarrierScript(index, data, signature, redeem)) == if data == [] then None else Some((index, data))
  {
    CarrierPushesRead(index, data, signature, redeem, []);
    var pushes := CarrierPushes(index, data, signature, redeem);
    PiecesOf(data, MAX_PUSH_SIZE);
    assert pushes[1..|pushes| - 2] == Pieces(data, MAX_PUSH_SIZE);
    assert data != [] ==> |Pieces(data, MAX_PUSH_SIZE)| > 0;
  }

  /** Funding inputs never look like carriers. */
  lemma P2pkhCarriesNothing(signature: Bytes, pubkey: Bytes)
    requires Pushable(signature) && Pushable(pubkey)
    ensures ChunkIn(P2pkhScript(signature, pubkey)) == None
  {
    PushesOfWholeScript([signature, pubkey]);
  }
}
