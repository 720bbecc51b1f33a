/** Splitting a module into carrier chunks, and putting it together again from any order of inputs. */
module Carrier {
  import opened Options
  import opened ByteStrings
  import opened Repeats
  import opened Frames

  const CHUNK_PAYLOAD_SIZE: nat := 1400
  const MAX_CHUNKS: nat := 188

  datatype Chunk = Chunk(index: Byte, data: Bytes)

  datatype CarrierError =
    | InvalidLength(length: U32)
    | WrongChunkCount(expected: Byte, got: Byte)
    | ChunkOutOfRange(index: Byte, count: Byte)
    | DuplicateChunk(index: Byte)
    | MissingChunk(index: Byte)
    | LengthMismatch(declared: U32, actual: U32)
    | HashMismatch

  type Slots = seq<Option<Bytes>>

  // ---- reconstruct ----

  /** Places every chunk in the slot of its index, in input order. */
  function Fill(chunks: seq<Chunk>, count: Byte): (r: Result<Slots, CarrierError>)
    ensures r.Ok? ==> |r.value| == count
  {
    if chunks == [] then Ok(seq(count, _ => None)) else
      match Fill(chunks[..|chunks| - 1], count)
      case Err(e) => Err(e)
      case Ok(slots) =>
        var c := chunks[|chunks| - 1];
        if c.index >= count then Err(ChunkOutOfRange(c.index, count))
        else if slots[c.index].Some? then Err(DuplicateChunk(c.index))
        else Ok(slots[c.index := Some(c.data)])
  }

  /** Joins the slots in order, or names the first empty one. */
  function Join(slots: Slots): Result<Bytes, CarrierError>
  {
    if slots == [] then Ok([]) else
      match Join(slots[..|slots| - 1])
      case Err(e) => Err(e)
      case Ok(front) =>
        if slots[|slots| - 1].None? then Err(MissingChunk((|slots| - 1) % 0x100))
        else Ok(front + slots[|slots| - 1].value)
  }

  function Reconstructed(code: Bytes -> Bytes32, chunks: seq<Chunk>, count: Byte, length: U32,
      hash: Bytes32): Result<Bytes, CarrierError> {
    if length == 0 || length > MAX_CODE_BYTES then Err(InvalidLength(length))
    else if |chunks| != count then Err(WrongChunkCount(count, |chunks| % 0x100))
    else match Fill(chunks, count)
      case Err(e) => Err(e)
      case Ok(slots) =>
        match Join(slots)
        case Err(e) => Err(e)
        case Ok(wasm) =>
          if |wasm| != length then Err(LengthMismatch(length, |wasm| % U32_MODULUS))
          else if code(wasm) != hash then Err(HashMismatch)
          else Ok(wasm)
  }

  method Reconstruct(code: Bytes -> Bytes32, chunks: seq<Chunk>, count: Byte, length: U32, hash: Bytes32)
    returns (r: Result<Bytes, CarrierError>)
    ensures r == Reconstructed(code, chunks, count, length, hash)
  {
    if length == 0 || length > MAX_CODE_BYTES {
      return Err(InvalidLength(length));
    }
    if |chunks| != count {
      return Err(WrongChunkCount(count, |chunks| % 0x100));
    }
    var indexed := new Option<Bytes>[count](_ => None);
    assert indexed[..] == seq(count, _ => None);
    var placed := Place(chunks, count, indexed);
    if placed.Some? {
      return Err(placed.value);
    }
    var joined := JoinSlots(indexed);
    if joined.Err? {
      return joined;
    }
    var wasm := joined.value;
    if |wasm| != length {
      return Err(LengthMismatch(length, |wasm| % U32_MODULUS));
    }
    if code(wasm) != hash {
      return Err(HashMismatch);
    }
    r := Ok(wasm);
  }

  /** The loop over the chunks; returns the error that stops it, if any. */
  method Place(chunks: seq<Chunk>, count: Byte, indexed: array<Option<Bytes>>) returns (failed: Option<CarrierError>)
    requires indexed[..] == seq(count, _ => None)
    modifies indexed
    ensures Fill(chunks, count) == if failed.Some? then Err(failed.value) else Ok(indexed[..])
  {
    for i := 0 to |chunks|
      invariant Fill(chunks[..i], count) == Ok(indexed[..])
    {
      assert chunks[..i + 1][..i] == chunks[..i];
      var c := chunks[i];
      if c.index >= count {
        FillFails(chunks, i + 1, count);
        return Some(ChunkOutOfRange(c.index, count));
      }
      if indexed[c.index].Some? {
        FillFails(chunks, i + 1, count);
        return Some(DuplicateChunk(c.index));
      }
      indexed[c.index] := Some(c.data);
    }
    assert chunks[..|chunks|] == chunks;
    failed := None;
  }

  /** The loop over the slots. */
  method JoinSlots(indexed: array<Option<Bytes>>) returns (r: Result<Bytes, CarrierError>)
    ensures r == Join(indexed[..])
  {
    var wasm: Bytes := [];
    for i := 0 to indexed.Length
      invariant Join(indexed[..i]) == Ok(wasm)
    {
      assert indexed[..i + 1][..i] == indexed[..i];
      if indexed[i].None? {
        assert indexed[..][..i + 1] == indexed[..i + 1];
        JoinFails(indexed[..], i + 1);
        return Err(MissingChunk(i % 0x100));
      }
      wasm := wasm + indexed[i].value;
    }
    assert indexed[..indexed.Length] == indexed[..];
    r := Ok(wasm);
  }

  lemma {:induction false} FillFails(chunks: seq<Chunk>, n: nat, count: Byte)
    requires n <= |chunks| && Fill(chunks[..n], count).Err?
    ensures Fill(chunks, count) == Fill(chunks[..n], count)
    decreases |chunks|
  {
    if n < |chunks| {
      var front := chunks[..|chunks| - 1];
      assert front[..n] == chunks[..n];
      FillFails(front, n, count);
    } else {
      assert chunks[..n] == chunks;
    }
  }

  lemma {:induction false} JoinFails(slots: Slots, n: nat)
    requires n <= |slots| && Join(slots[..n]).Err?
    ensures Join(slots) == Join(slots[..n])
    decreases |slots|
  {
    if n < |slots| {
      var front := slots[..|slots| - 1];
      assert front[..n] == slots[..n];
      JoinFails(front, n);
    } else {
      assert slots[..n] == slots;
    }
  }

  // ---- What reconstruction means ----

  /** `split`'s numbering: the position as a `u8`. */
  function Indexed(parts: seq<Bytes>): seq<Chunk> {
    seq(|parts|, i requires 0 <= i < |parts| => Chunk(i % 0x100, parts[i]))
  }

  predicate DistinctIndexes(chunks: seq<Chunk>) {
    forall i, j :: 0 <= i < j < |chunks| ==> chunks[i].index != chunks[j].index
  }

  predicate InRange(chunks: seq<Chunk>, count: Byte) {
    forall c :: c in chunks ==> c.index < count
  }

  /** Filling succeeds exactly when no index is repeated or too large, and then each slot holds its chunk. */
  lemma {:induction false} FillIff(chunks: seq<Chunk>, count: Byte)
    ensures Fill(chunks, count).Ok? <==> DistinctIndexes(chunks) && InRange(chunks, count)
    ensures Fill(chunks, count).Ok? ==>
      forall k: Byte, d :: k < count ==> (Fill(chunks, count).value[k] == Some(d) <==> Chunk(k, d) in chunks)
    decreases |chunks|
  {
    if chunks != [] {
      var front, c := chunks[..|chunks| - 1], chunks[|chunks| - 1];
      assert chunks == front + [c];
      FillIff(front, count);
      if Fill(front, count).Ok? {
        var slots := Fill(front, count).value;
        if c.index < count {
          assert slots[c.index].Some? ==> Chunk(c.index, slots[c.index].value) in front;
          assert slots[c.index].None? ==> forall b :: b in front ==> b.index != c.index by {
            forall b | b in front ensures slots[c.index].Some? || b.index != c.index {
              assert slots[b.index] == Some(b.data) by { assert b == Chunk(b.index, b.data); }
            }
          }
          if slots[c.index].Some? {
            var j :| 0 <= j < |front| && front[j] == Chunk(c.index, slots[c.index].value);
            assert chunks[j].index == chunks[|chunks| - 1].index;
          }
        }
      } else {
        SomeDuplicate(front, count);
      }
    }
  }

  lemma SomeDuplicate(front: seq<Chunk>, count: Byte)
    requires !(DistinctIndexes(front) && InRange(front, count))
    ensures forall c :: !(DistinctIndexes(front + [c]) && InRange(front + [c], count))
  {
    forall c ensures !(DistinctIndexes(front + [c]) && InRange(front + [c], count)) {
      var chunks := front + [c];
      if !InRange(front, count) {
        var b :| b in front && b.index >= count;
        assert b in chunks;
      } else {
        var i, j :| 0 <= i < j < |front| && front[i].index == front[j].index;
        assert chunks[i].index == chunks[j].index;
      }
    }
  }

  function IndexSet(chunks: seq<Chunk>): set<Byte> {
    set c | c in chunks :: c.index
  }

  lemma {:induction false} IndexSetSize(chunks: seq<Chunk>)
    requires DistinctIndexes(chunks)
    ensures |IndexSet(chunks)| == |chunks|
    decreases |chunks|
  {
    if chunks != [] {
      var front, c := chunks[..|chunks| - 1], chunks[|chunks| - 1];
      assert chunks == front + [c];
      IndexSetSize(front);
      assert IndexSet(chunks) == IndexSet(front) + {c.index};
      assert c.index !in IndexSet(front);
    } else {
      assert IndexSet(chunks) == {};
    }
  }

  function Below(count: Byte): set<Byte> {
    if count == 0 then {} else Below(count - 1) + {count - 1}
  }

  lemma {:induction false} BelowSize(count: Byte)
    ensures |Below(count)| == count && forall k: Byte :: k in Below(count) <==> k < count
  {
    if count > 0 {
      BelowSize(count - 1);
    }
  }

  /** Pigeonhole: as many distinct indexes as there are slots leave no slot empty. */
  lemma NoSlotMissing(chunks: seq<Chunk>, count: Byte)
    requires |chunks| == count && Fill(chunks, count).Ok?
    ensures forall k :: 0 <= k < count ==> Fill(chunks, count).value[k].Some?
  {
    FillIff(chunks, count);
    IndexSetSize(chunks);
    BelowSize(count);
    var all := Below(count);
    assert IndexSet(chunks) <= all;
    SubsetOfSameSize(IndexSet(chunks), all);
    forall k | 0 <= k < count ensures Fill(chunks, count).value[k].Some? {
      assert k in all;
      var c :| c in chunks && c.index == k;
      assert c == Chunk(k, c.data);
      assert Fill(chunks, count).value[k] == Some(c.data);
    }
  }

  lemma SubsetOfSameSize<T>(a: set<T>, b: set<T>)
    requires a <= b && |a| == |b|
    ensures a == b
  {
    assert b == a + (b - a);
  }

  lemma {:induction false} JoinFilled(slots: Slots, parts: seq<Bytes>)
    requires |slots| == |parts| && forall k :: 0 <= k < |slots| ==> slots[k] == Some(parts[k])
    ensures Join(slots) == Ok(Flatten(parts))
  {
    if slots != [] {
      JoinFilled(slots[..|slots| - 1], parts[..|parts| - 1]);
    }
  }

  lemma SameMembers<T>(a: seq<T>, b: seq<T>)
    requires forall i, j :: 0 <= i < j < |a| ==> a[i] != a[j]
    requires forall i, j :: 0 <= i < j < |b| ==> b[i] != b[j]
    requires forall x :: x in a <==> x in b
    ensures multiset(a) == multiset(b)
  {
    forall x ensures multiset(a)[x] == multiset(b)[x] {
      WithoutRepeats(a, x);
      WithoutRepeats(b, x);
    }
  }

  lemma IndexedParts(parts: seq<Bytes>)
    requires |parts| <= 255
    ensures |Indexed(parts)| == |parts|
    ensures forall k: Byte :: k < |parts| ==> Indexed(parts)[k] == Chunk(k, parts[k])
    ensures forall i, j :: 0 <= i < j < |parts| ==> Indexed(parts)[i] != Indexed(parts)[j]
    ensures forall c: Chunk :: c in Indexed(parts) <==> c.index < |parts| && parts[c.index] == c.data
  {
  }

  /** `parts` in index order are what `chunks` carry, in whatever order. */
  ghost predicate Carries(chunks: seq<Chunk>, parts: seq<Bytes>) {
    |parts| <= 255 && multiset(chunks) == multiset(Indexed(parts))
  }

  lemma CarriedFill(chunks: seq<Chunk>, parts: seq<Bytes>)
    requires Carries(chunks, parts)
    ensures |chunks| == |parts|
    ensures Fill(chunks, |parts|).Ok?
    ensures forall k :: 0 <= k < |parts| ==> Fill(chunks, |parts|).value[k] == Some(parts[k])
  {
    hide Indexed, Fill;
    IndexedParts(parts);
    var target := Indexed(parts);
    assert |chunks| == |multiset(chunks)| && |target| == |multiset(target)|;
    forall c ensures c in chunks <==> c in target {
      assert c in multiset(chunks) <==> c in multiset(target);
    }
    forall i, j | 0 <= i < j < |chunks| ensures chunks[i].index != chunks[j].index {
      if chunks[i].index == chunks[j].index {
        assert chunks[i] in target && chunks[j] in target;
        assert chunks[i] == chunks[j];
        RepeatCounts(chunks, i, j);
        WithoutRepeats(target, chunks[i]);
      }
    }
    FillIff(chunks, |parts|);
    forall k | 0 <= k < |parts| ensures Fill(chunks, |parts|).value[k] == Some(parts[k]) {
      assert Chunk(k, parts[k]) in target;
    }
  }

  lemma FilledCarries(chunks: seq<Chunk>, count: Byte) returns (parts: seq<Bytes>)
    requires |chunks| == count && Fill(chunks, count).Ok?
    ensures |parts| == count && Carries(chunks, parts)
    ensures Join(Fill(chunks, count).value) == Ok(Flatten(parts))
  {
    hide Indexed, Fill, Join;
    NoSlotMissing(chunks, count);
    var slots := Fill(chunks, count).value;
    parts := seq(count, k requires 0 <= k < count => slots[k].value);
    JoinFilled(slots, parts);
    FillIff(chunks, count);
    IndexedParts(parts);
    var target := Indexed(parts);
    forall c: Chunk ensures c in chunks <==> c in target {
      assert c == Chunk(c.index, c.data);
      if c.index < count {
        assert slots[c.index] == Some(parts[c.index]);
      }
    }
    SameMembers(chunks, target);
  }

  /**
    * Reconstruction returns `wasm` exactly when the chunks are, in some order, the indexed parts of
    * a byte string with the declared length and hash. The order of the inputs plays no part.
    */
  lemma ReconstructIff(code: Bytes -> Bytes32, chunks: seq<Chunk>, count: Byte, length: U32, hash: Bytes32, wasm: Bytes)
    ensures Reconstructed(code, chunks, count, length, hash) == Ok(wasm) <==>
      && 0 < |wasm| == length <= MAX_CODE_BYTES && code(wasm) == hash
      && exists parts :: |parts| == count && Carries(chunks, parts) && Flatten(parts) == wasm
  {
    hide Fill, Join;
    if |chunks| == count && Fill(chunks, count).Ok? {
      var parts := FilledCarries(chunks, count);
    }
    forall parts | |parts| == count && Carries(chunks, parts) && Flatten(parts) == wasm
      ensures |chunks| == count && Fill(chunks, count).Ok? && Join(Fill(chunks, count).value) == Ok(wasm)
    {
      CarriedFill(chunks, parts);
      JoinFilled(Fill(chunks, count).value, parts);
    }
  }

  /** The missing-chunk error cannot occur. */
  lemma NeverMissing(code: Bytes -> Bytes32, chunks: seq<Chunk>, count: Byte, length: U32, hash: Bytes32)
    ensures var r := Reconstructed(code, chunks, count, length, hash); r.Err? ==> !r.error.MissingChunk?
  {
    hide Join;
    if |chunks| == count && Fill(chunks, count).Ok? {
      var _ := FilledCarries(chunks, count);
    }
    FillNeverMissing(chunks, count);
  }

  lemma {:induction false} FillNeverMissing(chunks: seq<Chunk>, count: Byte)
    ensures Fill(chunks, count).Err? ==> !Fill(chunks, count).error.MissingChunk?
    decreases |chunks|
  {
    if chunks != [] {
      FillNeverMissing(chunks[..|chunks| - 1], count);
    }
  }

  lemma OrderPlaysNoPart(code: Bytes -> Bytes32, a: seq<Chunk>, b: seq<Chunk>, count: Byte, length: U32,
      hash: Bytes32, wasm: Bytes)
    requires multiset(a) == multiset(b) && Reconstructed(code, a, count, length, hash) == Ok(wasm)
    ensures Reconstructed(code, b, count, length, hash) == Ok(wasm)
  {
    hide Reconstructed;
    ReconstructIff(code, a, count, length, hash, wasm);
    ReconstructIff(code, b, count, length, hash, wasm);
    var parts :| |parts| == count && Carries(a, parts) && Flatten(parts) == wasm;
    assert Carries(b, parts);
  }
}
