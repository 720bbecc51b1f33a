// Shared vocabulary: options and results, bytes and fixed-width integers,
// and the two orders the node relies on (numeric heights, lexicographic keys).

module Options {
  datatype Option<+T> = None | Some(value: T) {
    predicate IsFailure() {
      None?
    }

    function PropagateFailure<U>(): Option<U>
      requires None?
    {
      None
    }

    function Extract(): T
      requires Some?
    {
      value
    }

    function GetOr(default: T): T {
      match this
      case Some(v) => v
      case None => default
    }
  }

  datatype Result<+T, +E> = Ok(value: T) | Err(error: E)

  function Lookup<K, V>(m: map<K, V>, k: K): Option<V> {
    if k in m then Some(m[k]) else None
  }
}

module ByteStrings {
  import opened Options

  type Byte = x: int | 0 <= x < 256
  type Bytes = seq<Byte>
  /** The 32-byte arrays of the source: contract ids, hashes, roots, txids. */
  type Bytes32 = b: Bytes | |b| == 32 witness ZEROES32

  const ZEROES32: Bytes := [
    0, 0, 0, 0, 0, 0, 0, 0, 0, 0, 0, 0, 0, 0, 0, 0, 0, 0, 0, 0, 0, 0, 0, 0, 0, 0, 0, 0, 0, 0, 0, 0]

  const U16_MODULUS: nat := 0x1_0000
  const U32_MODULUS: nat := 0x1_0000_0000
  const U64_MODULUS: nat := 0x1_0000_0000_0000_0000

  type U16 = n: nat | n < U16_MODULUS
  type U32 = n: nat | n < U32_MODULUS
  type U64 = n: nat | n < U64_MODULUS
  /** Block heights are `u32`. */
  type BlockHeight = h: nat | h < U32_MODULUS

  // ---- Fixed-width integers. Encoders truncate like an `as u16` / `as u32` cast. ----

  function Be2(n: nat): (r: Bytes)
    ensures |r| == 2
  {
    [(n / 0x100) % 0x100, n % 0x100]
  }

  function FromBe2(b: Bytes): nat
    requires |b| == 2
  {
    b[0] as int * 0x100 + b[1]
  }

  function Be4(n: nat): (r: Bytes)
    ensures |r| == 4
  {
    [(n / 0x100_0000) % 0x100, (n / 0x1_0000) % 0x100, (n / 0x100) % 0x100, n % 0x100]
  }

  function FromBe4(b: Bytes): nat
    requires |b| == 4
  {
    b[0] as int * 0x100_0000 + b[1] as int * 0x1_0000 + b[2] as int * 0x100 + b[3]
  }

  /** Little-endian integers of any width, truncating to that width. */
  function Le(width: nat, n: nat): (r: Bytes)
    ensures |r| == width
  {
    if width == 0 then [] else [n % 0x100] + Le(width - 1, n / 0x100)
  }

  function FromLe(b: Bytes): nat {
    if b == [] then 0 else b[0] + 0x100 * FromLe(b[1..])
  }

  function Pow256(width: nat): nat {
    if width == 0 then 1 else 0x100 * Pow256(width - 1)
  }

  lemma Be2RoundTrip(n: nat)
    ensures FromBe2(Be2(n)) == n % U16_MODULUS
  {
  }

  lemma Be4RoundTrip(n: nat)
    ensures FromBe4(Be4(n)) == n % U32_MODULUS
  {
    var high := n / 0x1_0000;
    Halves(n);
    TwoDigits(n);
    TwoDigits(high);
    assert high / 0x100 == n / 0x100_0000;
  }

  lemma TwoDigits(n: nat)
    ensures 0x100 * (n / 0x100 % 0x100) + n % 0x100 == n % 0x1_0000
  {
  }

  lemma Halves(n: nat)
    ensures 0x1_0000 * (n / 0x1_0000 % 0x1_0000) + n % 0x1_0000 == n % U32_MODULUS
  {
  }

  lemma Be2Inverse(b: Bytes)
    requires |b| == 2
    ensures FromBe2(b) < U16_MODULUS && Be2(FromBe2(b)) == b
  {
  }

  lemma Be4Inverse(b: Bytes)
    requires |b| == 4
    ensures FromBe4(b) < U32_MODULUS && Be4(FromBe4(b)) == b
  {
    var n := FromBe4(b);
    assert n / 0x100 == b[0] as int * 0x1_0000 + b[1] as int * 0x100 + b[2];
    assert n / 0x1_0000 == b[0] as int * 0x100 + b[1];
    assert n / 0x100_0000 == b[0];
  }

  lemma {:induction false} LeRoundTrip(width: nat, n: nat)
    requires n < Pow256(width)
    ensures FromLe(Le(width, n)) == n
  {
    if width > 0 {
      LeRoundTrip(width - 1, n / 0x100);
    }
  }

  /** Splits off the next `n` bytes of a cursor, if there are that many. */
  function Take(bytes: Bytes, n: nat): Option<(Bytes, Bytes)> {
    if |bytes| < n then None else Some((bytes[..n], bytes[n..]))
  }

  lemma TakeExtends(bytes: Bytes, n: nat, tail: Bytes)
    requires n <= |bytes|
    ensures (bytes + tail)[..n] == bytes[..n] && (bytes + tail)[n..] == bytes[n..] + tail
    ensures Take(bytes + tail, n) == Some((bytes[..n], bytes[n..] + tail))
  {
  }

  lemma TakeExact(a: Bytes, tail: Bytes)
    ensures Take(a + tail, |a|) == Some((a, tail))
  {
  }

  // ---- Length-prefixed byte strings ----

  function Blob16(b: Bytes): Bytes {
    Be2(|b|) + b
  }

  function Blob32(b: Bytes): Bytes {
    Be4(|b|) + b
  }

  function ParseBlob16(bytes: Bytes): Option<(Bytes, Bytes)> {
    var (len, rest) :- Take(bytes, 2);
    Take(rest, FromBe2(len))
  }

  function ParseBlob32(bytes: Bytes): Option<(Bytes, Bytes)> {
    var (len, rest) :- Take(bytes, 4);
    Take(rest, FromBe4(len))
  }

  lemma ParseBlob16Inverts(b: Bytes, tail: Bytes)
    requires |b| < U16_MODULUS
    ensures ParseBlob16(Blob16(b) + tail) == Some((b, tail))
  {
    var len := Be2(|b|);
    assert FromBe2(len) == |b| by { Be2RoundTrip(|b|); }
    assert Blob16(b) + tail == len + (b + tail);
    TakeExact(len, b + tail);
    TakeExact(b, tail);
  }

  lemma ParseBlob32Inverts(b: Bytes, tail: Bytes)
    requires |b| < U32_MODULUS
    ensures ParseBlob32(Blob32(b) + tail) == Some((b, tail))
  {
    var len := Be4(|b|);
    assert FromBe4(len) == |b| by { Be4RoundTrip(|b|); }
    assert Blob32(b) + tail == len + (b + tail);
    TakeExact(len, b + tail);
    TakeExact(b, tail);
  }

  lemma TakeLocal(bytes: Bytes, n: nat, tail: Bytes)
    requires Take(bytes, n).Some?
    ensures Take(bytes + tail, n) == Some((Take(bytes, n).value.0, Take(bytes, n).value.1 + tail))
  {
    TakeExtends(bytes, n, tail);
  }

  lemma ParseBlob16Local(bytes: Bytes, tail: Bytes)
    requires ParseBlob16(bytes).Some?
    ensures ParseBlob16(bytes + tail) == Some((ParseBlob16(bytes).value.0, ParseBlob16(bytes).value.1 + tail))
  {
    TakeLocal(bytes, 2, tail);
    TakeLocal(bytes[2..], FromBe2(bytes[..2]), tail);
  }

  lemma ParseBlob32Local(bytes: Bytes, tail: Bytes)
    requires ParseBlob32(bytes).Some?
    ensures ParseBlob32(bytes + tail) == Some((ParseBlob32(bytes).value.0, ParseBlob32(bytes).value.1 + tail))
  {
    TakeLocal(bytes, 4, tail);
    TakeLocal(bytes[4..], FromBe4(bytes[..4]), tail);
  }

  /** `Vec::concat`: the concatenation of a list of byte strings. */
  function Flatten(parts: seq<Bytes>): Bytes {
    if parts == [] then [] else Flatten(parts[..|parts| - 1]) + parts[|parts| - 1]
  }

  lemma {:induction false} FlattenConcat(a: seq<Bytes>, b: seq<Bytes>)
    ensures Flatten(a + b) == Flatten(a) + Flatten(b)
  {
    if b == [] {
      assert a + b == a;
    } else {
      FlattenConcat(a, b[..|b| - 1]);
      assert (a + b)[..|a + b| - 1] == a + b[..|b| - 1];
    }
  }
}

/** Lists of variable-length records, written one after another and read back one after another. */
module RecordLists {
  import opened Options
  import opened ByteStrings

  type Parser<!T> = Bytes -> Option<(T, Bytes)>

  function EncodeMany<T>(encode: T -> Bytes, xs: seq<T>): Bytes {
    if xs == [] then [] else encode(xs[0]) + EncodeMany(encode, xs[1..])
  }

  /** Reads up to `n` records, stopping at the first that does not parse. */
  function ParseMany<T>(parse: Parser<T>, n: nat, bytes: Bytes): seq<T> {
    if n == 0 then [] else
      match parse(bytes)
      case None => []
      case Some((x, rest)) => [x] + ParseMany(parse, n - 1, rest)
  }

  /** Reads exactly `n` records and returns what follows them. */
  function ParseExactly<T>(parse: Parser<T>, n: nat, bytes: Bytes): Option<(seq<T>, Bytes)> {
    if n == 0 then Some(([], bytes)) else
      var (x, rest) :- parse(bytes);
      var (xs, after) :- ParseExactly(parse, n - 1, rest);
      Some(([x] + xs, after))
  }

  ghost predicate Reads<T>(parse: Parser<T>, encoded: Bytes, x: T) {
    forall tail :: parse(encoded + tail) == Some((x, tail))
  }

  /** A parser that looks only at the bytes it consumes. */
  ghost predicate Local<T>(parse: Parser<T>) {
    forall bytes, tail | parse(bytes).Some? ::
      parse(bytes + tail) == Some((parse(bytes).value.0, parse(bytes).value.1 + tail))
  }

  function Mapped<T, U>(f: T -> U, xs: seq<T>): (ys: seq<U>)
    ensures |ys| == |xs| && forall i :: 0 <= i < |xs| ==> ys[i] == f(xs[i])
  {
    seq(|xs|, i requires 0 <= i < |xs| => f(xs[i]))
  }

  lemma {:induction false} ParseManyInverts<T>(encode: T -> Bytes, parse: Parser<T>, f: T -> T, xs: seq<T>, tail: Bytes)
    requires forall i :: 0 <= i < |xs| ==> Reads(parse, encode(xs[i]), f(xs[i]))
    ensures ParseMany(parse, |xs|, EncodeMany(encode, xs) + tail) == Mapped(f, xs)
  {
    if xs != [] {
      var rest := EncodeMany(encode, xs[1..]) + tail;
      assert EncodeMany(encode, xs) + tail == encode(xs[0]) + rest;
      assert Reads(parse, encode(xs[0]), f(xs[0]));
      ParseManyInverts(encode, parse, f, xs[1..], tail);
      assert Mapped(f, xs) == [f(xs[0])] + Mapped(f, xs[1..]);
    }
  }

  lemma {:induction false} ParseExactlyInverts<T>(encode: T -> Bytes, parse: Parser<T>, xs: seq<T>, tail: Bytes)
    requires forall i :: 0 <= i < |xs| ==> Reads(parse, encode(xs[i]), xs[i])
    ensures ParseExactly(parse, |xs|, EncodeMany(encode, xs) + tail) == Some((xs, tail))
  {
    if xs == [] {
      assert EncodeMany(encode, xs) + tail == tail;
    } else {
      var rest := EncodeMany(encode, xs[1..]) + tail;
      assert EncodeMany(encode, xs) + tail == encode(xs[0]) + rest;
      assert Reads(parse, encode(xs[0]), xs[0]);
      ParseExactlyInverts(encode, parse, xs[1..], tail);
      assert [xs[0]] + xs[1..] == xs;
    }
  }

  lemma {:induction false} ParseManyExtends<T>(parse: Parser<T>, n: nat, bytes: Bytes, tail: Bytes)
    requires Local(parse)
    ensures ParseMany(parse, n, bytes) <= ParseMany(parse, n, bytes + tail)
  {
    if n != 0 && parse(bytes).Some? {
      ParseManyExtends(parse, n - 1, parse(bytes).value.1, tail);
    }
  }

  lemma {:induction false} ParseManyAll<T>(parse: Parser<T>, good: T -> bool, n: nat, bytes: Bytes)
    requires forall b | parse(b).Some? :: good(parse(b).value.0)
    ensures |ParseMany(parse, n, bytes)| <= n
    ensures forall i :: 0 <= i < |ParseMany(parse, n, bytes)| ==> good(ParseMany(parse, n, bytes)[i])
  {
    if n != 0 && parse(bytes).Some? {
      ParseManyAll(parse, good, n - 1, parse(bytes).value.1);
    }
  }

  lemma {:induction false} EncodeManySnoc<T>(encode: T -> Bytes, xs: seq<T>, x: T)
    ensures EncodeMany(encode, xs + [x]) == EncodeMany(encode, xs) + encode(x)
  {
    if xs == [] {
      assert xs + [x] == [x];
    } else {
      assert (xs + [x])[1..] == xs[1..] + [x];
      EncodeManySnoc(encode, xs[1..], x);
    }
  }

  method WriteMany<T>(encode: T -> Bytes, header: Bytes, xs: seq<T>) returns (out: Bytes)
    ensures out == header + EncodeMany(encode, xs)
  {
    out := header;
    for i := 0 to |xs|
      invariant out == header + EncodeMany(encode, xs[..i])
    {
      assert xs[..i + 1] == xs[..i] + [xs[i]];
      EncodeManySnoc(encode, xs[..i], xs[i]);
      out := out + encode(xs[i]);
    }
    assert xs[..|xs|] == xs;
  }

  method ReadMany<T>(parse: Parser<T>, n: nat, bytes: Bytes) returns (xs: seq<T>)
    ensures xs == ParseMany(parse, n, bytes)
  {
    xs := [];
    var cursor := bytes;
    for i := 0 to n
      invariant xs + ParseMany(parse, n - i, cursor) == ParseMany(parse, n, bytes)
    {
      match parse(cursor) {
        case None => return;
        case Some((x, rest)) =>
          xs := xs + [x];
          cursor := rest;
      }
    }
  }
}

/** How often an element occurs in a sequence. */
module Repeats {
  lemma {:induction false} WithoutRepeats<T>(s: seq<T>, x: T)
    requires forall i, j :: 0 <= i < j < |s| ==> s[i] != s[j]
    ensures multiset(s)[x] == if x in s then 1 else 0
    decreases |s|
  {
    if s != [] {
      var front, last := s[..|s| - 1], s[|s| - 1];
      assert s == front + [last];
      WithoutRepeats(front, x);
    }
  }

  lemma {:induction false} RepeatCounts<T>(s: seq<T>, i: nat, j: nat)
    requires i < j < |s| && s[i] == s[j]
    ensures multiset(s)[s[i]] >= 2
  {
    assert s == s[..j] + s[j..];
    assert s[i] in s[..j] && s[i] == s[j] && s[j] in s[j..];
    assert multiset(s) == multiset(s[..j]) + multiset(s[j..]);
  }
}

/** Ascending listings of finite sets of heights. */
module Heights {
  import opened ByteStrings

  ghost function Max(s: set<BlockHeight>): (m: BlockHeight)
    requires s != {}
    ensures m in s && forall x :: x in s ==> x <= m
  {
    var x :| x in s;
    if s == {x} then x else
      assert s == {x} + (s - {x});
      var m := Max(s - {x});
      if m < x then x else m
  }

  ghost function Ascending(s: set<BlockHeight>): seq<BlockHeight> {
    if s == {} then [] else Ascending(s - {Max(s)}) + [Max(s)]
  }

  predicate Increasing(hs: seq<BlockHeight>) {
    forall i, j :: 0 <= i < j < |hs| ==> hs[i] < hs[j]
  }

  function ToSet(hs: seq<BlockHeight>): set<BlockHeight> {
    set h | h in hs
  }

  lemma {:induction false} AscendingLists(s: set<BlockHeight>)
    ensures Increasing(Ascending(s)) && ToSet(Ascending(s)) == s
  {
    if s != {} {
      var m := Max(s);
      AscendingLists(s - {m});
      var front := Ascending(s - {m});
      forall i | 0 <= i < |front| ensures front[i] < m {
        assert front[i] in ToSet(front);
      }
      assert ToSet(front + [m]) == ToSet(front) + {m};
    }
  }

  /** There is only one increasing listing of a set. */
  lemma {:induction false} IncreasingUnique(hs: seq<BlockHeight>)
    requires Increasing(hs)
    ensures Ascending(ToSet(hs)) == hs
    decreases |hs|
  {
    if hs == [] {
      assert ToSet(hs) == {};
    } else {
      var front, m := hs[..|hs| - 1], hs[|hs| - 1];
      assert hs == front + [m];
      IncreasingUnique(front);
      AscendingAppend(front, m);
    }
  }

  lemma AscendingAppend(front: seq<BlockHeight>, m: BlockHeight)
    requires Increasing(front + [m])
    ensures Ascending(ToSet(front + [m])) == Ascending(ToSet(front)) + [m]
  {
    LastIsMax(front, m);
  }

  /** The order rollback works in. */
  ghost function Descending(s: set<BlockHeight>): seq<BlockHeight> {
    if s == {} then [] else [Max(s)] + Descending(s - {Max(s)})
  }

  predicate Decreasing(hs: seq<BlockHeight>) {
    forall i, j :: 0 <= i < j < |hs| ==> hs[i] > hs[j]
  }

  lemma {:induction false} DecreasingUnique(hs: seq<BlockHeight>)
    requires Decreasing(hs)
    ensures Descending(ToSet(hs)) == hs
  {
    if hs == [] {
      assert ToSet(hs) == {};
    } else {
      var m, rest := hs[0], hs[1..];
      assert hs == [m] + rest;
      FirstIsMax(m, rest);
      DecreasingUnique(rest);
    }
  }

  lemma FirstIsMax(m: BlockHeight, rest: seq<BlockHeight>)
    requires Decreasing([m] + rest)
    ensures ToSet([m] + rest) != {}
    ensures Max(ToSet([m] + rest)) == m && ToSet([m] + rest) - {m} == ToSet(rest)
  {
    var hs := [m] + rest;
    assert hs[0] == m;
    assert m in ToSet(hs);
    forall h | h in ToSet(hs) ensures h <= m && (h != m ==> h in rest) {
      var i :| 0 <= i < |hs| && hs[i] == h;
      assert i > 0 ==> hs[0] > hs[i] && rest[i - 1] == h;
    }
    forall h | h in ToSet(rest) ensures h in hs && h != m {
      var i :| 0 <= i < |rest| && rest[i] == h;
      assert hs[i + 1] == h && hs[0] > hs[i + 1];
    }
  }

  lemma {:induction false} DescendingLists(s: set<BlockHeight>)
    ensures Decreasing(Descending(s)) && ToSet(Descending(s)) == s
  {
    if s != {} {
      var m := Max(s);
      DescendingLists(s - {m});
      OnTop(m, Descending(s - {m}));
      assert s - {m} + {m} == s;
    }
  }

  lemma OnTop(m: BlockHeight, rest: seq<BlockHeight>)
    requires Decreasing(rest) && forall h :: h in ToSet(rest) ==> h < m
    ensures Decreasing([m] + rest) && ToSet([m] + rest) == ToSet(rest) + {m}
  {
    forall i | 0 <= i < |rest| ensures rest[i] < m {
      assert rest[i] in ToSet(rest);
    }
  }

  /** Collecting heights and sorting them from the highest down. */
  method InsertDescending(hs: seq<BlockHeight>, h: BlockHeight) returns (r: seq<BlockHeight>)
    requires Decreasing(hs) && h !in ToSet(hs)
    ensures Decreasing(r) && ToSet(r) == ToSet(hs) + {h}
  {
    var p := 0;
    while p < |hs| && hs[p] > h
      invariant 0 <= p <= |hs|
      invariant forall i :: 0 <= i < p ==> hs[i] > h
    {
      p := p + 1;
    }
    assert p < |hs| ==> hs[p] in ToSet(hs);
    r := hs[..p] + ([h] + hs[p..]);
    InsertedSet(hs, p, h);
  }

  method SortDescending(s: set<BlockHeight>) returns (hs: seq<BlockHeight>)
    ensures hs == Descending(s)
  {
    hide Descending;
    hs := [];
    var pending := s;
    while pending != {}
      invariant pending <= s && Decreasing(hs) && ToSet(hs) == s - pending
      decreases pending
    {
      var h :| h in pending;
      hs := InsertDescending(hs, h);
      pending := pending - {h};
    }
    assert s - pending == s;
    DecreasingUnique(hs);
  }

  lemma InsertedSet(hs: seq<BlockHeight>, p: nat, h: BlockHeight)
    requires p <= |hs|
    ensures ToSet(hs[..p] + ([h] + hs[p..])) == ToSet(hs) + {h}
  {
  }

  lemma LastIsMax(front: seq<BlockHeight>, m: BlockHeight)
    requires Increasing(front + [m])
    ensures ToSet(front + [m]) != {}
    ensures Max(ToSet(front + [m])) == m && ToSet(front + [m]) - {m} == ToSet(front)
  {
    var hs := front + [m];
    assert hs[|front|] == m;
    assert m in ToSet(hs);
    forall h | h in ToSet(hs) ensures h <= m && (h != m ==> h in front) {
      var i :| 0 <= i < |hs| && hs[i] == h;
      assert i < |front| ==> hs[i] < hs[|front|] && front[i] == h;
    }
    forall h | h in ToSet(front) ensures h in hs && h != m {
      var i :| 0 <= i < |front| && front[i] == h;
      assert hs[i] == h && hs[i] < hs[|front|];
    }
  }
}

/** The lexicographic order on byte strings: RocksDB's key order, and the order of the leaf sort. */
module Lexicographic {
  import opened ByteStrings

  predicate Leq(a: Bytes, b: Bytes) {
    a == [] || (b != [] && (a[0] < b[0] || (a[0] == b[0] && Leq(a[1..], b[1..]))))
  }

  lemma {:induction false} Reflexive(a: Bytes)
    ensures Leq(a, a)
  {
    if a != [] {
      Reflexive(a[1..]);
    }
  }

  lemma {:induction false} Total(a: Bytes, b: Bytes)
    ensures Leq(a, b) || Leq(b, a)
  {
    if a != [] && b != [] {
      Total(a[1..], b[1..]);
    }
  }

  lemma {:induction false} Antisymmetric(a: Bytes, b: Bytes)
    requires Leq(a, b) && Leq(b, a)
    ensures a == b
  {
    if a != [] {
      Antisymmetric(a[1..], b[1..]);
      assert a == [a[0]] + a[1..] && b == [b[0]] + b[1..];
    }
  }

  lemma {:induction false} Transitive(a: Bytes, b: Bytes, c: Bytes)
    requires Leq(a, b) && Leq(b, c)
    ensures Leq(a, c)
  {
    if a != [] && a[0] == b[0] == c[0] {
      Transitive(a[1..], b[1..], c[1..]);
    }
  }

  predicate Sorted(s: seq<Bytes>) {
    forall i, j :: 0 <= i < j < |s| ==> Leq(s[i], s[j])
  }

  /** Big-endian integers sort numerically. */
  lemma Be4Order(m: nat, n: nat)
    requires m < n < U32_MODULUS
    ensures Leq(Be4(m), Be4(n)) && !Leq(Be4(n), Be4(m))
  {
    hide Be4, FromBe4, Leq;
    assert m % U32_MODULUS == m && n % U32_MODULUS == n;
    var a, b := Be4(m), Be4(n);
    Be4RoundTrip(m);
    Be4RoundTrip(n);
    var k := Be4FirstDifference(a, b);
    FirstDifference(a, b, k);
  }

  lemma Be4FirstDifference(a: Bytes, b: Bytes) returns (k: nat)
    requires |a| == |b| == 4 && FromBe4(a) < FromBe4(b)
    ensures k < 4 && a[k] < b[k] && forall i :: 0 <= i < k ==> a[i] == b[i]
  {
    k := if a[0] != b[0] then 0 else if a[1] != b[1] then 1 else if a[2] != b[2] then 2 else 3;
  }

  lemma {:induction false} FirstDifference(a: Bytes, b: Bytes, k: nat)
    requires k < |a| == |b| && a[k] < b[k]
    requires forall i :: 0 <= i < k ==> a[i] == b[i]
    ensures Leq(a, b) && !Leq(b, a)
  {
    if k > 0 {
      FirstDifference(a[1..], b[1..], k - 1);
    }
  }

  lemma {:induction false} CommonPrefix(p: Bytes, a: Bytes, b: Bytes)
    ensures Leq(p + a, p + b) <==> Leq(a, b)
  {
    if p == [] {
      assert p + a == a && p + b == b;
    } else {
      assert (p + a)[1..] == p[1..] + a && (p + b)[1..] == p[1..] + b;
      CommonPrefix(p[1..], a, b);
    }
  }
}
