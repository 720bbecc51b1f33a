/** Contract calls: host functions over a write overlay, and the writes a successful call leaves behind. */
module Runtime {
  import opened Options
  import opened ByteStrings
  import opened RecordLists
  import opened World
  import opened StateRoot

  const MAX_STORAGE_KEY_BYTES: nat := 256
  const MAX_STORAGE_VALUE_BYTES: nat := 65536
  const MAX_STORAGE_WRITES_PER_CALL: nat := 256
  const MAX_RETURN_DATA_BYTES: nat := 65536
  const MAX_CALL_DEPTH: nat := 16

  datatype CallContext = CallContext(
    contractId: Bytes32,
    txid: Bytes32,
    blockHeight: BlockHeight,
    opcode: U16,
    input: Bytes,
    fuelLimit: U64,
    depth: U32)

  datatype HostCall =
    | StorageGet(key: Bytes)
    | StorageSet(key: Bytes, value: Bytes)
    | StorageDelete(key: Bytes)
    | OutputWrite(data: Bytes)

  /** `Refused` and `Missing` are the -1 of the host functions. */
  datatype Reply = Found(value: Bytes) | Missing | Done | Refused

  /** What a contract does next, and the fuel it has left when it stops. */
  datatype Move =
    | Host(call: HostCall)
    | Returned(code: int, fuelLeft: nat)
    | Trapped(fuelLeft: nat)
    | OutOfFuel(fuelLeft: nat)

  /** A contract is deterministic: what it does next depends on its context and the replies so far. */
  type Program = (CallContext, seq<Reply>) -> Move

  datatype Module = Unparsable | Uninstantiable(fuelLeft: nat) | NoDispatch | Dispatches(program: Program)

  /** The engine: what a module's bytes mean. */
  type Engine = Bytes -> Module

  datatype StorageWrite =
    | WriteSet(contract: Bytes32, key: Bytes, value: Bytes)
    | WriteDelete(contract: Bytes32, key: Bytes)

  datatype CallResult =
    | Success(output: Bytes, fuelUsed: nat, writes: seq<StorageWrite>)
    | Trap(fuelUsed: nat)
    | FuelExhausted(fuelUsed: nat)
    | InvalidModule
    | ContractNotFound

  function SaturatingSub(a: nat, b: nat): nat {
    if a >= b then a - b else 0
  }

  // ---- Running a contract against some host ----

  type HostOf<!H> = (H, HostCall) -> (H, Reply)

  datatype Halt<H> = Halt(host: H, replies: seq<Reply>, last: Move)

  /** Every host call costs fuel, so `steps` of them is the most a call can make. */
  function Run<H>(host: HostOf<H>, program: Program, ctx: CallContext, h: H, replies: seq<Reply>, steps: nat): Halt<H>
    decreases steps
  {
    if steps == 0 then Halt(h, replies, OutOfFuel(0)) else
      var next := program(ctx, replies);
      if next.Host? then
        var (h', reply) := host(h, next.call);
        Run(host, program, ctx, h', replies + [reply], steps - 1)
      else Halt(h, replies, next)
  }

  /** Hosts that answer alike from related states cannot be told apart by any contract. */
  lemma {:induction false} RunsAgree<G, H>(
    g: HostOf<G>, h: HostOf<H>, related: (G, H) -> bool,
    program: Program, ctx: CallContext, a: G, b: H, replies: seq<Reply>, steps: nat)
    requires related(a, b)
    requires forall x, y, call :: related(x, y) ==> g(x, call).1 == h(y, call).1 && related(g(x, call).0, h(y, call).0)
    ensures var p, q := Run(g, program, ctx, a, replies, steps), Run(h, program, ctx, b, replies, steps);
      related(p.host, q.host) && p.replies == q.replies && p.last == q.last
    decreases steps
  {
    if steps > 0 {
      var next := program(ctx, replies);
      if next.Host? {
        RunsAgree(g, h, related, program, ctx, g(a, next.call).0, h(b, next.call).0,
          replies + [g(a, next.call).1], steps - 1);
      }
    }
  }

  // ---- The overlay ----

  type Overlay = map<Bytes, Option<Bytes>>

  datatype Buffer = Buffer(overlay: Overlay, output: Bytes)

  function Answer(value: Option<Bytes>): Reply {
    match value
    case Some(v) => Found(v)
    case None => Missing
  }

  /** What a call sees in a slot: its own writes first, then the store as it was before the block. */
  function Seen(w: State, id: Bytes32, overlay: Overlay, slot: Slot): Option<Bytes> {
    if slot.contract == id && slot.key in overlay then overlay[slot.key] else Lookup(w.storage, slot)
  }

  predicate MayWrite(overlay: Overlay, key: Bytes) {
    |key| <= MAX_STORAGE_KEY_BYTES && (|overlay| < MAX_STORAGE_WRITES_PER_CALL || key in overlay)
  }

  function Buffered(w: State, id: Bytes32, b: Buffer, call: HostCall): (Buffer, Reply) {
    match call
    case StorageGet(key) => (b, Answer(Seen(w, id, b.overlay, Slot(id, key))))
    case StorageSet(key, value) =>
      if |value| <= MAX_STORAGE_VALUE_BYTES && MayWrite(b.overlay, key)
      then (b.(overlay := b.overlay[key := Some(value)]), Done) else (b, Refused)
    case StorageDelete(key) =>
      if MayWrite(b.overlay, key) then (b.(overlay := b.overlay[key := None]), Done) else (b, Refused)
    case OutputWrite(data) =>
      if |data| <= MAX_RETURN_DATA_BYTES then (b.(output := data), Done) else (b, Refused)
  }

  function OverlayHost(w: State, id: Bytes32): HostOf<Buffer> {
    (b, call) => Buffered(w, id, b, call)
  }

  // ---- The simple form: writing straight into the store ----

  datatype Direct = Direct(storage: map<Slot, Bytes>, touched: set<Bytes>, output: Bytes)

  predicate MayTouch(touched: set<Bytes>, key: Bytes) {
    |key| <= MAX_STORAGE_KEY_BYTES && (|touched| < MAX_STORAGE_WRITES_PER_CALL || key in touched)
  }

  function Mutated(id: Bytes32, d: Direct, call: HostCall): (Direct, Reply) {
    match call
    case StorageGet(key) => (d, Answer(Lookup(d.storage, Slot(id, key))))
    case StorageSet(key, value) =>
      if |value| <= MAX_STORAGE_VALUE_BYTES && MayTouch(d.touched, key)
      then (d.(storage := d.storage[Slot(id, key) := value], touched := d.touched + {key}), Done) else (d, Refused)
    case StorageDelete(key) =>
      if MayTouch(d.touched, key)
      then (d.(storage := d.storage - {Slot(id, key)}, touched := d.touched + {key}), Done) else (d, Refused)
    case OutputWrite(data) =>
      if |data| <= MAX_RETURN_DATA_BYTES then (d.(output := data), Done) else (d, Refused)
  }

  function DirectHost(id: Bytes32): HostOf<Direct> {
    (d, call) => Mutated(id, d, call)
  }

  ghost predicate Shows(w: State, id: Bytes32, b: Buffer, d: Direct) {
    && b.output == d.output && b.overlay.Keys == d.touched
    && forall slot :: Lookup(d.storage, slot) == Seen(w, id, b.overlay, slot)
  }

  lemma HostStep(w: State, id: Bytes32, b: Buffer, d: Direct, call: HostCall)
    requires Shows(w, id, b, d)
    ensures Buffered(w, id, b, call).1 == Mutated(id, d, call).1
    ensures Shows(w, id, Buffered(w, id, b, call).0, Mutated(id, d, call).0)
  {
    assert |b.overlay| == |b.overlay.Keys|;
    var b', d' := Buffered(w, id, b, call).0, Mutated(id, d, call).0;
    forall slot ensures Lookup(d'.storage, slot) == Seen(w, id, b'.overlay, slot) {
      assert slot == Slot(slot.contract, slot.key);
      assert Lookup(d.storage, slot) == Seen(w, id, b.overlay, slot);
    }
  }

  /** Any contract gets the same replies, and ends the same way, over the overlay and over the store itself. */
  lemma OverlayRefinesDirect(w: State, program: Program, ctx: CallContext)
    ensures var o := Run(OverlayHost(w, ctx.contractId), program, ctx, Buffer(map[], []), [], ctx.fuelLimit);
      var d := Run(DirectHost(ctx.contractId), program, ctx, Direct(w.storage, {}, []), [], ctx.fuelLimit);
      && o.replies == d.replies && o.last == d.last && Shows(w, ctx.contractId, o.host, d.host)
  {
    var id := ctx.contractId;
    var related := (b: Buffer, d: Direct) => Shows(w, id, b, d);
    forall b, d, call | Shows(w, id, b, d)
      ensures Buffered(w, id, b, call).1 == Mutated(id, d, call).1
      ensures Shows(w, id, Buffered(w, id, b, call).0, Mutated(id, d, call).0)
    {
      HostStep(w, id, b, d, call);
    }
    RunsAgree(OverlayHost(w, id), DirectHost(id), related, program, ctx, Buffer(map[], []), Direct(w.storage, {}, []),
      [], ctx.fuelLimit);
  }

  /** No overlay grows past its limits. */
  predicate WithinLimits(b: Buffer) {
    && |b.overlay| <= MAX_STORAGE_WRITES_PER_CALL && |b.output| <= MAX_RETURN_DATA_BYTES
    && forall key :: key in b.overlay ==>
         |key| <= MAX_STORAGE_KEY_BYTES && (b.overlay[key].Some? ==> |b.overlay[key].value| <= MAX_STORAGE_VALUE_BYTES)
  }

  lemma {:induction false} RunWithinLimits(w: State, id: Bytes32, program: Program, ctx: CallContext, b: Buffer,
      replies: seq<Reply>, steps: nat)
    requires WithinLimits(b)
    ensures WithinLimits(Run(OverlayHost(w, id), program, ctx, b, replies, steps).host)
    decreases steps
  {
    if steps > 0 {
      var next := program(ctx, replies);
      if next.Host? {
        var (b', reply) := Buffered(w, id, b, next.call);
        BufferedWithinLimits(w, id, b, next.call);
        RunWithinLimits(w, id, program, ctx, b', replies + [reply], steps - 1);
      }
    }
  }

  lemma BufferedWithinLimits(w: State, id: Bytes32, b: Buffer, call: HostCall)
    requires WithinLimits(b)
    ensures WithinLimits(Buffered(w, id, b, call).0)
  {
  }

  // ---- execute ----

  ghost function SortedKeys(s: set<Bytes>): seq<Bytes> {
    Sort(SomeListing(s))
  }

  function WriteOf(id: Bytes32, overlay: Overlay, key: Bytes): StorageWrite {
    if key in overlay && overlay[key].Some? then WriteSet(id, key, overlay[key].value) else WriteDelete(id, key)
  }

  function WritesOver(id: Bytes32, overlay: Overlay, keys: seq<Bytes>): seq<StorageWrite> {
    seq(|keys|, i requires 0 <= i < |keys| => WriteOf(id, overlay, keys[i]))
  }

  /** The overlay's entries in key order. */
  ghost function Writes(id: Bytes32, overlay: Overlay): seq<StorageWrite> {
    WritesOver(id, overlay, SortedKeys(overlay.Keys))
  }

  function FuelUsed(ctx: CallContext, left: nat): nat {
    SaturatingSub(ctx.fuelLimit, left)
  }

  function Conclude(ctx: CallContext, output: Bytes, writes: seq<StorageWrite>, last: Move): CallResult {
    match last
    case Returned(code, left) =>
      if code == 0 then Success(output, FuelUsed(ctx, left), writes)
      else Trap(FuelUsed(ctx, left))
    case Trapped(left) => Trap(FuelUsed(ctx, left))
    case OutOfFuel(left) => FuelExhausted(FuelUsed(ctx, left))
    case Host(_) => Trap(0)
  }

  ghost function Concluded(ctx: CallContext, b: Buffer, last: Move): CallResult {
    Conclude(ctx, b.output, Writes(ctx.contractId, b.overlay), last)
  }

  ghost function Executed(engine: Engine, w: State, ctx: CallContext): CallResult {
    if ctx.depth > MAX_CALL_DEPTH then Trap(0)
    else if ctx.contractId !in w.contracts then ContractNotFound
    else match engine(w.contracts[ctx.contractId].wasm)
      case Unparsable => InvalidModule
      case Uninstantiable(left) => Trap(FuelUsed(ctx, left))
      case NoDispatch => Trap(0)
      case Dispatches(program) =>
        var halt := Run(OverlayHost(w, ctx.contractId), program, ctx, Buffer(map[], []), [], ctx.fuelLimit);
        Concluded(ctx, halt.host, halt.last)
  }

  function FuelOf(r: CallResult): nat {
    match r
    case Success(_, fuel, _) => fuel
    case Trap(fuel) => fuel
    case FuelExhausted(fuel) => fuel
    case InvalidModule => 0
    case ContractNotFound => 0
  }

  lemma FuelWithinLimit(engine: Engine, w: State, ctx: CallContext)
    ensures FuelOf(Executed(engine, w, ctx)) <= ctx.fuelLimit
  {
  }

  /** The host side of one running call. The store underneath is read only. */
  class HostState {
    const contractId: Bytes32
    const base: State
    var overlay: Overlay
    var output: Bytes

    constructor (w: State, id: Bytes32)
      ensures base == w && contractId == id && Current() == Buffer(map[], [])
    {
      base, contractId, overlay, output := w, id, map[], [];
    }

    function Current(): Buffer
      reads this
    {
      Buffer(overlay, output)
    }

    method StorageGet(key: Bytes) returns (reply: Reply)
      ensures (Current(), reply) == Buffered(base, contractId, Current(), HostCall.StorageGet(key))
    {
      var value: Option<Bytes>;
      if key in overlay {
        value := overlay[key];
      } else {
        value := Lookup(base.storage, Slot(contractId, key));
      }
      reply := if value.Some? then Found(value.value) else Missing;
    }

    method StorageSet(key: Bytes, value: Bytes) returns (reply: Reply)
      modifies this
      ensures (Current(), reply) == Buffered(base, contractId, old(Current()), HostCall.StorageSet(key, value))
    {
      if |key| > MAX_STORAGE_KEY_BYTES {
        return Refused;
      }
      if |value| > MAX_STORAGE_VALUE_BYTES {
        return Refused;
      }
      if |overlay| >= MAX_STORAGE_WRITES_PER_CALL && key !in overlay {
        return Refused;
      }
      overlay := overlay[key := Some(value)];
      reply := Done;
    }

    method StorageDelete(key: Bytes) returns (reply: Reply)
      modifies this
      ensures (Current(), reply) == Buffered(base, contractId, old(Current()), HostCall.StorageDelete(key))
    {
      if |key| > MAX_STORAGE_KEY_BYTES {
        return Refused;
      }
      if |overlay| >= MAX_STORAGE_WRITES_PER_CALL && key !in overlay {
        return Refused;
      }
      overlay := overlay[key := None];
      reply := Done;
    }

    method OutputWrite(data: Bytes) returns (reply: Reply)
      modifies this
      ensures (Current(), reply) == Buffered(base, contractId, old(Current()), HostCall.OutputWrite(data))
    {
      if |data| > MAX_RETURN_DATA_BYTES {
        return Refused;
      }
      output := data;
      reply := Done;
    }

    method Serve(call: HostCall) returns (reply: Reply)
      modifies this
      ensures (Current(), reply) == Buffered(base, contractId, old(Current()), call)
    {
      match call {
        case StorageGet(key) => reply := StorageGet(key);
        case StorageSet(key, value) => reply := StorageSet(key, value);
        case StorageDelete(key) => reply := StorageDelete(key);
        case OutputWrite(data) => reply := OutputWrite(data);
      }
    }

    /** The overlay's keys, in key order. */
    method KeysInOrder() returns (keys: seq<Bytes>)
      ensures keys == SortedKeys(overlay.Keys)
      ensures forall key :: key in keys ==> key in overlay
    {
      hide Sort, SortedKeys;
      var listed: seq<Bytes> := [];
      var pending := overlay.Keys;
      while pending != {}
        invariant pending <= overlay.Keys
        invariant Lists(listed, overlay.Keys - pending)
        decreases pending
      {
        var key :| key in pending;
        listed := listed + [key];
        pending := pending - {key};
      }
      assert overlay.Keys - {} == overlay.Keys;
      keys := SortLeaves(listed);
      SortedKeysUnique(listed, overlay.Keys);
      forall key | key in keys ensures key in overlay {
        assert key in multiset(keys);
        KeysCovered(listed, overlay.Keys, key);
      }
    }

    /** Drains the overlay in key order. */
    method Materialize() returns (writes: seq<StorageWrite>)
      ensures writes == Writes(contractId, overlay)
    {
      hide SortedKeys;
      var keys := KeysInOrder();
      writes := [];
      for i := 0 to |keys|
        invariant writes == WritesOver(contractId, overlay, keys[..i])
      {
        assert keys[i] in keys;
        match overlay[keys[i]] {
          case Some(v) => writes := writes + [WriteSet(contractId, keys[i], v)];
          case None => writes := writes + [WriteDelete(contractId, keys[i])];
        }
      }
      assert keys[..|keys|] == keys;
    }
  }

  lemma KeysCovered(listed: seq<Bytes>, s: set<Bytes>, key: Bytes)
    requires Lists(listed, s) && key in multiset(Sort(listed))
    ensures key in s
  {
    SortSorts(listed);
    assert key in multiset(listed);
    assert key in listed;
  }

  lemma SortedKeysUnique(listed: seq<Bytes>, s: set<Bytes>)
    requires Lists(listed, s)
    ensures Sort(listed) == SortedKeys(s)
  {
    var other := SomeListing(s);
    ListingsArePermutations(k => k, listed, other, s);
    assert Mapped((k: Bytes) => k, listed) == listed && Mapped((k: Bytes) => k, other) == other;
    SortSorts(listed);
    SortSorts(other);
    SortedUnique(Sort(listed), Sort(other));
  }

  /** `execute`. */
  method Execute(engine: Engine, w: State, ctx: CallContext) returns (r: CallResult)
    ensures r == Executed(engine, w, ctx)
  {
    if ctx.depth > MAX_CALL_DEPTH {
      return Trap(0);
    }
    if ctx.contractId !in w.contracts {
      return ContractNotFound;
    }
    var loaded := engine(w.contracts[ctx.contractId].wasm);
    match loaded {
      case Unparsable => return InvalidModule;
      case Uninstantiable(left) => return Trap(FuelUsed(ctx, left));
      case NoDispatch => return Trap(0);
      case Dispatches(program) => r := Dispatch(w, program, ctx);
    }
  }

  method Dispatch(w: State, program: Program, ctx: CallContext) returns (r: CallResult)
    ensures var halt := Run(OverlayHost(w, ctx.contractId), program, ctx, Buffer(map[], []), [], ctx.fuelLimit);
      r == Concluded(ctx, halt.host, halt.last)
  {
    hide Buffered, Writes;
    var host := new HostState(w, ctx.contractId);
    ghost var served := OverlayHost(w, ctx.contractId);
    ghost var halt := Run(served, program, ctx, Buffer(map[], []), [], ctx.fuelLimit);
    var replies: seq<Reply> := [];
    var steps := ctx.fuelLimit;
    while steps > 0
      invariant host.base == w && host.contractId == ctx.contractId
      invariant Run(served, program, ctx, host.Current(), replies, steps) == halt
      decreases steps
    {
      var next := program(ctx, replies);
      if !next.Host? {
        var writes := host.Materialize();
        return Conclude(ctx, host.output, writes, next);
      }
      var reply := host.Serve(next.call);
      replies := replies + [reply];
      steps := steps - 1;
    }
    r := FuelExhausted(FuelUsed(ctx, 0));
  }
}
