/** The state root: a hash over the sorted leaves of contracts and storage. */
module StateRoot {
  import opened ByteStrings
  import opened World
  import opened RecordLists
  import opened Lexicographic

  /** The node's hash functions: personalised BLAKE2b for leaves and roots, SHA-256 for code. */
  datatype Hashes = Hashes(leaf: Bytes -> Bytes32, root: Bytes -> Bytes32, code: Bytes -> Bytes32)

  // ---- Sorting ----

  function InsertSorted(x: Bytes, s: seq<Bytes>): seq<Bytes> {
    if s == [] || Leq(x, s[0]) then [x] + s else [s[0]] + InsertSorted(x, s[1..])
  }

  function Sort(s: seq<Bytes>): seq<Bytes> {
    if s == [] then [] else InsertSorted(s[|s| - 1], Sort(s[..|s| - 1]))
  }

  lemma {:induction false} InsertSortedSorts(x: Bytes, s: seq<Bytes>)
    requires Sorted(s)
    ensures Sorted(InsertSorted(x, s)) && multiset(InsertSorted(x, s)) == multiset(s) + multiset{x}
  {
    if s == [] {
    } else if Leq(x, s[0]) {
      forall i | 0 <= i < |s| ensures Leq(x, s[i]) {
        if i > 0 { Transitive(x, s[0], s[i]); }
      }
    } else {
      Total(x, s[0]);
      var rest := InsertSorted(x, s[1..]);
      InsertSortedSorts(x, s[1..]);
      assert s == [s[0]] + s[1..];
      forall i | 0 <= i < |rest| ensures Leq(s[0], rest[i]) {
        InsertedMember(x, s[1..], i);
      }
    }
  }

  lemma InsertedMember(x: Bytes, s: seq<Bytes>, i: nat)
    requires i < |InsertSorted(x, s)|
    requires multiset(InsertSorted(x, s)) == multiset(s) + multiset{x}
    ensures InsertSorted(x, s)[i] == x || InsertSorted(x, s)[i] in s
  {
    assert InsertSorted(x, s)[i] in multiset(InsertSorted(x, s));
  }

  lemma {:induction false} SortSorts(s: seq<Bytes>)
    ensures Sorted(Sort(s)) && multiset(Sort(s)) == multiset(s)
  {
    if s != [] {
      SortSorts(s[..|s| - 1]);
      InsertSortedSorts(s[|s| - 1], Sort(s[..|s| - 1]));
      assert s == s[..|s| - 1] + [s[|s| - 1]];
    }
  }

  lemma SortedHead(a: seq<Bytes>, b: seq<Bytes>)
    requires Sorted(a) && Sorted(b) && multiset(a) == multiset(b) && a != []
    ensures b != [] && a[0] == b[0]
  {
    assert a[0] in multiset(b);
    assert b[0] in multiset(a);
    var i :| 0 <= i < |b| && b[i] == a[0];
    var j :| 0 <= j < |a| && a[j] == b[0];
    Reflexive(a[0]);
    Antisymmetric(a[0], b[0]);
  }

  /** A multiset has only one sorted listing. */
  lemma {:induction false} SortedUnique(a: seq<Bytes>, b: seq<Bytes>)
    requires Sorted(a) && Sorted(b) && multiset(a) == multiset(b)
    ensures a == b
  {
    if a == [] {
      assert |multiset(b)| == 0;
    } else {
      SortedHead(a, b);
      assert a == [a[0]] + a[1..] && b == [b[0]] + b[1..];
      assert multiset(a[1..]) == multiset(a) - multiset{a[0]};
      SortedUnique(a[1..], b[1..]);
    }
  }

  /** The sort in `root_from_leaves`, as an insertion sort over the leaf list. */
  method SortLeaves(leaves: seq<Bytes>) returns (sorted: seq<Bytes>)
    ensures Sorted(sorted) && multiset(sorted) == multiset(leaves)
    ensures sorted == Sort(leaves)
  {
    sorted := [];
    for i := 0 to |leaves|
      invariant sorted == Sort(leaves[..i])
    {
      sorted := InsertInto(leaves[i], sorted);
      assert leaves[..i + 1][..i] == leaves[..i];
    }
    assert leaves[..|leaves|] == leaves;
    SortSorts(leaves);
  }

  method InsertInto(x: Bytes, s: seq<Bytes>) returns (r: seq<Bytes>)
    ensures r == InsertSorted(x, s)
  {
    var p := 0;
    while p < |s| && !Leq(x, s[p])
      invariant 0 <= p <= |s|
      invariant InsertSorted(x, s) == s[..p] + InsertSorted(x, s[p..])
    {
      assert s[p..][1..] == s[p + 1..];
      p := p + 1;
    }
    r := s[..p] + ([x] + s[p..]);
  }

  function RootFromLeaves(h: Hashes, leaves: seq<Bytes>): Bytes32 {
    h.root(Flatten(Sort(leaves)))
  }

  /** The order in which a store lists its leaves does not matter. */
  lemma RootIgnoresOrder(h: Hashes, a: seq<Bytes>, b: seq<Bytes>)
    requires multiset(a) == multiset(b)
    ensures RootFromLeaves(h, a) == RootFromLeaves(h, b)
  {
    SortSorts(a);
    SortSorts(b);
    SortedUnique(Sort(a), Sort(b));
  }

  method ComputeRootFromLeaves(h: Hashes, leaves: seq<Bytes>) returns (root: Bytes32)
    ensures root == RootFromLeaves(h, leaves)
  {
    var sorted := SortLeaves(leaves);
    var input: Bytes := [];
    for i := 0 to |sorted|
      invariant input == Flatten(sorted[..i])
    {
      assert sorted[..i + 1][..i] == sorted[..i];
      input := input + sorted[i];
    }
    assert sorted[..|sorted|] == sorted;
    root := h.root(input);
  }

  // ---- Leaves ----

  function ContractLeaf(h: Hashes, id: Bytes32, c: Contract): Bytes32 {
    h.leaf(id + c.codeHash + Be4(|c.wasm|) + c.wasm)
  }

  function StorageLeaf(h: Hashes, slot: Slot, value: Bytes): Bytes32 {
    h.leaf(slot.contract + Be2(|slot.key|) + slot.key + Be4(|value|) + value)
  }

  function ContractLeafAt(h: Hashes, w: State): Bytes32 -> Bytes {
    id => if id in w.contracts then ContractLeaf(h, id, w.contracts[id]) else []
  }

  function StorageLeafAt(h: Hashes, w: State): Slot -> Bytes {
    slot => if slot in w.storage then StorageLeaf(h, slot, w.storage[slot]) else []
  }

  /** One visit of every key, in any order: what iterating a store yields. */
  ghost predicate Lists<K(!new)>(ks: seq<K>, s: set<K>) {
    (forall i, j :: 0 <= i < j < |ks| ==> ks[i] != ks[j]) && (forall k :: k in ks <==> k in s)
  }

  function LeavesInOrder(h: Hashes, w: State, ids: seq<Bytes32>, slots: seq<Slot>): seq<Bytes> {
    Mapped(ContractLeafAt(h, w), ids) + Mapped(StorageLeafAt(h, w), slots)
  }

  ghost function SomeListing<K(!new)>(s: set<K>): (ks: seq<K>)
    ensures Lists(ks, s)
  {
    if s == {} then [] else
      var k :| k in s;
      [k] + SomeListing(s - {k})
  }

  /** The state root as a function of the state maps alone. */
  ghost function Root(h: Hashes, w: State): Bytes32 {
    RootFromLeaves(h, LeavesInOrder(h, w, SomeListing(w.contracts.Keys), SomeListing(w.storage.Keys)))
  }

  lemma {:induction false} ListingsArePermutations<K(!new)>(f: K -> Bytes, a: seq<K>, b: seq<K>, s: set<K>)
    requires Lists(a, s) && Lists(b, s)
    ensures multiset(Mapped(f, a)) == multiset(Mapped(f, b))
    decreases |a|
  {
    if a == [] {
      ListsNothing(a, s);
      ListsNothing(b, s);
    } else {
      var i := Position(a, b, s);
      RemoveListed(a, 0, s);
      RemoveListed(b, i, s);
      ListingsArePermutations(f, a[..0] + a[1..], b[..i] + b[i + 1..], s - {a[0]});
      MappedRemoveAt(f, a, 0);
      MappedRemoveAt(f, b, i);
    }
  }

  lemma ListsNothing<K(!new)>(ks: seq<K>, s: set<K>)
    requires Lists(ks, s)
    ensures ks == [] <==> s == {}
  {
    if ks != [] {
      assert ks[0] in ks;
    }
    if s != {} {
      var k :| k in s;
      assert k in ks;
    }
  }

  lemma Position<K(!new)>(a: seq<K>, b: seq<K>, s: set<K>) returns (i: nat)
    requires Lists(a, s) && Lists(b, s) && a != []
    ensures i < |b| && b[i] == a[0]
  {
    assert a[0] in b;
    i :| 0 <= i < |b| && b[i] == a[0];
  }

  lemma RemoveListed<K(!new)>(ks: seq<K>, i: nat, s: set<K>)
    requires Lists(ks, s) && i < |ks|
    ensures Lists(ks[..i] + ks[i + 1..], s - {ks[i]})
  {
  }

  lemma MappedRemoveAt<K>(f: K -> Bytes, ks: seq<K>, i: nat)
    requires i < |ks|
    ensures multiset(Mapped(f, ks)) == multiset(Mapped(f, ks[..i] + ks[i + 1..])) + multiset{f(ks[i])}
  {
    var m := Mapped(f, ks);
    assert m == m[..i] + [m[i]] + m[i + 1..];
    assert Mapped(f, ks[..i] + ks[i + 1..]) == m[..i] + m[i + 1..];
  }

  /** Whatever order a store enumerates in, hashing its leaves gives `Root`. */
  lemma AnyEnumerationGivesRoot(h: Hashes, w: State, ids: seq<Bytes32>, slots: seq<Slot>)
    requires Lists(ids, w.contracts.Keys) && Lists(slots, w.storage.Keys)
    ensures RootFromLeaves(h, LeavesInOrder(h, w, ids, slots)) == Root(h, w)
  {
    var ids', slots' := SomeListing(w.contracts.Keys), SomeListing(w.storage.Keys);
    ListingsArePermutations(ContractLeafAt(h, w), ids, ids', w.contracts.Keys);
    ListingsArePermutations(StorageLeafAt(h, w), slots, slots', w.storage.Keys);
    RootIgnoresOrder(h, LeavesInOrder(h, w, ids, slots), LeavesInOrder(h, w, ids', slots'));
  }

  /** `collect_leaves` and the root over it, for a store holding `w`; keys are visited in arbitrary order. */
  method ComputeRoot(h: Hashes, w: State) returns (root: Bytes32)
    ensures root == Root(h, w)
  {
    var leaves: seq<Bytes> := [];
    ghost var ids: seq<Bytes32>, slots: seq<Slot> := [], [];
    var pending := w.contracts.Keys;
    while pending != {}
      invariant pending <= w.contracts.Keys
      invariant Lists(ids, w.contracts.Keys - pending)
      invariant leaves == Mapped(ContractLeafAt(h, w), ids)
      decreases pending
    {
      var id :| id in pending;
      leaves := leaves + [ContractLeaf(h, id, w.contracts[id])];
      ids := ids + [id];
      pending := pending - {id};
    }
    var contractLeaves := leaves;
    var waiting := w.storage.Keys;
    while waiting != {}
      invariant waiting <= w.storage.Keys
      invariant Lists(slots, w.storage.Keys - waiting)
      invariant leaves == contractLeaves + Mapped(StorageLeafAt(h, w), slots)
      decreases waiting
    {
      var slot :| slot in waiting;
      leaves := leaves + [StorageLeaf(h, slot, w.storage[slot])];
      slots := slots + [slot];
      waiting := waiting - {slot};
    }
    assert w.contracts.Keys - {} == w.contracts.Keys && w.storage.Keys - {} == w.storage.Keys;
    AnyEnumerationGivesRoot(h, w, ids, slots);
    root := ComputeRootFromLeaves(h, leaves);
  }

  /** The root a store would have after `c`, computed on a copy of its maps. */
  method ProjectedRoot(h: Hashes, w: State, c: BlockCommit) returns (root: Bytes32)
    ensures root == Root(h, Apply(w, c))
  {
    var contracts, storage := w.contracts, w.storage;
    for i := 0 to |c.deploys|
      invariant contracts == MapUndo.PutAll(w.contracts, c.deploys[..i])
    {
      assert c.deploys[..i + 1][..i] == c.deploys[..i];
      contracts := contracts[c.deploys[i].0 := c.deploys[i].1];
    }
    assert c.deploys[..|c.deploys|] == c.deploys;
    for i := 0 to |c.upserts|
      invariant storage == MapUndo.PutAll(w.storage, c.upserts[..i])
    {
      assert c.upserts[..i + 1][..i] == c.upserts[..i];
      storage := storage[c.upserts[i].0 := c.upserts[i].1];
    }
    assert c.upserts[..|c.upserts|] == c.upserts;
    var upserted := storage;
    for i := 0 to |c.deletes|
      invariant storage == MapUndo.RemoveAll(upserted, c.deletes[..i])
    {
      assert c.deletes[..i + 1][..i] == c.deletes[..i];
      storage := storage - {c.deletes[i]};
    }
    assert c.deletes[..|c.deletes|] == c.deletes;
    root := ComputeRoot(h, State(contracts, storage));
  }

  /** `Root` under fixed hash functions. */
  ghost function RootOf(h: Hashes): State -> Bytes32 {
    w => Root(h, w)
  }
}
