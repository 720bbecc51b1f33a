# Zalkanes: a verified model of the state engine, indexer, carrier codec and wallet journal

This project models the parts of the Zalkanes node and wallet whose correctness spans several
components, and proves what each relies on the others for. Everything is stated for all inputs, all
runs or all reachable states.

- **State engine** (`Base`, `World`, `MemoryStore`, `KeyValue`, `RocksLayout`, `RocksCommit`,
  `RocksRollback`, `RocksStore`, `CrashRollback`, `UndoCodec`, `StateRoot`, `Refinement`). The in-memory
  store is a class over typed maps, the persistent one a class over a single byte-keyed map with
  atomic batches and serialized undo journals. Both keep a replay of the surviving commits over every
  run; the second refines the first; a rollback interrupted between any two durable writes can be rerun
  with the same target.
- **Contract calls and blocks** (`Runtime`, `BlockWrites`, `Indexer`, `BlockBudgets`, `BlockCalls`,
  `BuiltTransactions`). Host functions over a write overlay refine direct writes to the store; a block's
  commit is exactly the writes of its successful calls, which match its execution records one for one;
  fuel, message and byte budgets hold for every block; the plan the transaction builder makes for a
  module deploys exactly that module once signed.
- **Sync loop** (`ChainViews`, `Sync`, `InterruptedTick`, `DiskRuns`, `RocksSync`). Ticks against a chain
  source that may fail at any call and change between ticks; after every completed tick the store is the
  clean replay of the chain that tick saw. The same over the persistent store, and over every run in
  which ticks are also cut short between any two durable writes: there a reorg check that passes finds a
  history of its chain exactly when the database is not torn, and nothing goes wrong before that.
- **Scripts, frames and carrier** (`Scripts`, `Frames`, `Carrier`, `DeployTransaction`). Encoder,
  decoder and the wallet's own check agree on the same bytes, in any input order and under any signatures.
- **Wallet journal** (`Journal`, `Wallet`, `WalletSession`, `Recovery`, `RecoveryPasses`,
  `RecordedRuns`). Broadcast and
  recovery are lists of durable writes over two stores; a crash leaves the effect of a prefix. Releases
  are safe over every run, and the number of recovery passes that settle a table is determined.
- **Fees and commitments** (`Fees`, `PlanCommitment`). Value conservation, size prediction, ZIP 317
  (section "Fee calculation") coverage, and injectivity of the plan commitment's preimage.

Each step-by-step method is proved equal to a specification function, and the properties are proved of
those functions. Values the node gets from elsewhere are parameters: the hash functions, the WASM
engine (a deterministic function from a module's bytes, the call context and the replies so far to the
next host call or the end of the call), module validation, contract id derivation, the chain source's
answers, the transport's verdicts, the canonical tip and transaction statuses.

## Where the code decides

The model follows the code in each of these places, and the named lemmas state what holds.

- `startup_recover` is documented as converging and its second run as idle; two passes suffice in every
  run that records plans through `record_plan` (`RecordedRuns.TwoPassesSettleRuns`), but an arbitrary
  table may need three (`RecoveryPasses.TwoPassesNotEnough`), namely exactly when
  `RecoveryPasses.ThirdPassIff` says so of the table and locks before the first pass.
- Its comment says owners are collected from every row, terminal ones included; the code collects them
  from non-terminal rows, so preserved locks of a cancelled plan are reported as orphans
  (`WalletSession.OrphanIff`).
- `verify_script_sigs` is documented as comparing scriptSigs exactly; it compares their pushes, so bytes
  after the last push are not seen (`DeployTransaction.TrailingBytesUnseen`). An accepted script is the
  builder's byte for byte exactly when it has the pushes and the length of the builder's script
  (`DeployTransaction.ByteExactIff`).
- The comment on the chunk size gives 1466 for `max_standard_carrier_payload(73, 36)`; the function
  computes 1528 (`Fees.StandardIff`).
- A chunk with no data is never recognised in a scriptSig (`Scripts.ChunkRoundTrip`); splitting never makes one.
- The catch-up loop does not compare a block's parent with the block stored before it. If the view
  changes within a tick, the next block is right exactly when the last stored one is still canonical
  (`ChainViews.MidTickSwitchIff`); otherwise the history follows the splice of the two views
  (`ChainViews.MidTickSwitchFollowsSplice`) and no view linked with the new one, although the check
  against the new one passes (`ChainViews.MidTickSwitchUndetected`). It stays so while the history grows,
  as long as the views it grows from still have its last block (`ChainViews.SpliceSurvives`); a later
  reorg check repairs it exactly when its view no longer has the block at the splice
  (`ChainViews.SpliceHealsIff`).
- Without an activation height the catch-up loop makes no progress, however many rounds it runs
  (`Sync.RoundsWithoutActivation`).
- Plan totals are 64-bit sums that wrap in release builds; conservation is stated with its exact
  condition (`Fees.PrepareConservesIff`, `Fees.DeployConservesIff`). Amounts a network admits never wrap.
- `docs/threat-model/chain-reorg.md` speaks of a rollback cursor; the code has none. Rerunning an
  interrupted rollback with the same target is safe (`CrashRollback.RerunAfterCrash`), but `handle_reorg`
  reruns it only if the stored block is still not canonical. `InterruptedTick.InterruptedTickIff` says
  exactly when the next tick gets it right: always, unless the crash fell between the height batch and
  the first metadata write and the chain has switched back to the block that batch undid. Then the tick
  takes the block for indexed although its effects are gone (`InterruptedTick.TornTickWitness`), which
  only a later commit below activation makes good. In runs with any number of such crashes this is the
  only thing that can go wrong first (`DiskRuns.FirstFault`, `DiskRuns.GuardedRunIff`).
- `handle_reorg` rolls back to the stored height minus one, which wraps at height 0, so a mismatch there
  would keep the loop going for ever (`Sync.GenesisTurns`).

## Model

| member | source | states |
|---|---|---|
| World.SlotAfterCommit | crates/zalkanes-state/src/lib.rs:311-328 | After a commit a slot is absent if the commit deletes it, else holds its last upsert, else what it held before; repeated keys in all three lists included |
| World.MemoryUndoInverts | crates/zalkanes-state/src/lib.rs:303-406 | Walking MemoryState's undo list backwards takes any commit back exactly |
| World.RocksUndoInverts | crates/zalkanes-state/src/lib.rs:814-954 | RocksState's different undo list (deploys first, previous values from before the batch) takes back the same commit exactly |
| World.SurvivorsArePrefix | crates/zalkanes-state/src/lib.rs:351-358 | The commits left by a rollback are a prefix of the chain: those at or below the target and no others |
| MemoryStore.CommitHolds | crates/zalkanes-state/src/lib.rs:303-349 | Invariant over runs: a commit above the last height keeps state, history, metadata and undo keys equal to a replay of the surviving commits |
| MemoryStore.RollbackHolds | crates/zalkanes-state/src/lib.rs:351-407 | Invariant over runs: after a rollback all of them equal a replay from empty of exactly the commits at or below the target |
| MemoryStore.MemoryState.CommitBlock | crates/zalkanes-state/src/lib.rs:303-349 | The object ends as the specified store with one more surviving commit and returns the root of the replayed state |
| MemoryStore.MemoryState.WriteBlock | crates/zalkanes-state/src/lib.rs:303-336 | The three write loops leave the committed state and the running undo list |
| MemoryStore.MemoryState.RollbackTo | crates/zalkanes-state/src/lib.rs:351-407 | The object ends as the specified store after rollback, holding the surviving commits |
| MemoryStore.MemoryState.UndoOps | crates/zalkanes-state/src/lib.rs:362-394 | Walking one undo list from its end is the specified undo |
| MemoryStore.MemoryState.RetainUpTo | crates/zalkanes-state/src/lib.rs:395 | Filtering the history keeps the records up to the target, in order |
| RocksLayout.StorageKeyed | crates/zalkanes-state/src/lib.rs:431-437 | Storage keys can be read back from the flat key space and from nothing else |
| RocksLayout.ContractsKeyed | crates/zalkanes-state/src/lib.rs:439-444 | The same for contract keys |
| RocksLayout.HeightsKeyed | crates/zalkanes-state/src/lib.rs:446-458 | The same for height and journal keys |
| RocksLayout.TaggedWrites | crates/zalkanes-state/src/lib.rs:431-458 | Writes under one prefix leave the tables of all other prefixes as they were |
| RocksCommit.CommitViews | crates/zalkanes-state/src/lib.rs:814-888 | One batch takes every table of the flat map (contracts, storage, records, journals, metadata) to its value after the commit |
| RocksRollback.CommitHolds | crates/zalkanes-state/src/lib.rs:814-888 | Invariant over runs for the flat database: it reads as the replay of the surviving commits |
| RocksRollback.RollbackHolds | crates/zalkanes-state/src/lib.rs:920-987 | The same for rollback: one batch per height and the separate metadata writes leave a database that reads as the replay of the survivors |
| RocksRollback.HistoryIsRecords | crates/zalkanes-state/src/lib.rs:789-812 | Listing the height keys in order gives one record per surviving commit, with the root of the state after it |
| RocksRollback.JournalInBounds | crates/zalkanes-state/src/lib.rs:814-880 | Every journal a bounded commit writes is within what the undo encoding can represent |
| RocksStore.HeightKeysSortNumerically | crates/zalkanes-state/src/lib.rs:446-451 | Big-endian height keys sort in the database as the heights do |
| RocksStore.HeightHistory | crates/zalkanes-state/src/lib.rs:789-812 | The scan over the height keys returns the records in ascending height |
| RocksStore.LoadState | crates/zalkanes-state/src/lib.rs:715-767 | Scanning the contract and storage prefixes returns the state the database abstracts to |
| RocksStore.RocksState.BuildBatch | crates/zalkanes-state/src/lib.rs:814-907 | The batch built by the loops is the specified one, with deletes that see the commit's own upserts |
| RocksStore.RocksState.CommitBlock | crates/zalkanes-state/src/lib.rs:814-915 | Whatever the database holds, it ends as specified, the returned root is that of the new state and the post-commit mismatch error never occurs; a replay of the surviving commits stays one |
| RocksStore.RocksState.RollbackTo | crates/zalkanes-state/src/lib.rs:920-987 | Whatever the database holds, it ends as specified; a replay of the surviving commits becomes one of those at or below the target |
| RocksStore.RocksState.UndoHeight | crates/zalkanes-state/src/lib.rs:930-968 | One height is rolled back by the decoded journal reversed, plus the two key deletions, in one batch |
| RocksStore.RocksState.RestoreMetadata | crates/zalkanes-state/src/lib.rs:970-985 | The three separate metadata writes |
| CrashRollback.RerunAfterCrash | crates/zalkanes-state/src/lib.rs:920-987 | A rollback stopped between any two durable writes and rerun with the same target ends with the very map an uninterrupted one gives; for any contents of the database |
| CrashRollback.RollbackIdempotent | crates/zalkanes-state/src/lib.rs:920-987 | Running a rollback twice is running it once |
| KeyValue.RedoPrefix | crates/zalkanes-state/src/lib.rs:970-985 | Redoing a list of writes over any prefix of it is doing it once |
| Refinement.RocksRefinesMemory | crates/zalkanes-state/src/lib.rs:303-987 | Over every run of commits and rollbacks the two stores show the same contracts, storage, metadata, history and roots, both equal to a clean replay of the surviving commits |
| Refinement.JournalsMatchHistory | crates/zalkanes-state/src/lib.rs:303-987 | In both stores, at every point of every run, the undo journals are kept for exactly the recorded heights |
| StateRoot.SortLeaves | crates/zalkanes-state/src/lib.rs:162-163 | Sorting returns an ordered permutation of the leaves |
| StateRoot.RootIgnoresOrder | crates/zalkanes-state/src/lib.rs:162-175 | Permuting the leaves does not change the root |
| StateRoot.AnyEnumerationGivesRoot | crates/zalkanes-state/src/lib.rs:162-186 | Whatever order a store enumerates its maps in, the root is the same function of the maps |
| StateRoot.ComputeRoot | crates/zalkanes-state/src/lib.rs:162-186 | Collecting leaves in arbitrary order and hashing them gives that root |
| StateRoot.ProjectedRoot | crates/zalkanes-state/src/lib.rs:191-224 | The projected root is the root of the state after the commit |
| UndoCodec.EncodeUndo | crates/zalkanes-state/src/lib.rs:479-531 | The encoder's loop writes the specified bytes |
| UndoCodec.DecodeUndo | crates/zalkanes-state/src/lib.rs:533-661 | The decoder's loop reads the specified operations |
| UndoCodec.RoundTripIffInBounds | crates/zalkanes-state/src/lib.rs:479-661 | Decoding an encoded list gives it back exactly when keys are shorter than 2^16, values than 2^32 and there are fewer than 2^32 operations |
| UndoCodec.LegacyJournalsTranslate | crates/zalkanes-state/src/lib.rs:533-661 | A blob without the version marker decodes to the same operations with exactly its empty-key deletions of nothing turned into deploys |
| UndoCodec.TruncationDecodesToPrefix | crates/zalkanes-state/src/lib.rs:533-661 | Every truncation of an encoding decodes to a prefix of the operations |
| Scripts.PushRoundTripIff | crates/zalkanes-tx/src/lib.rs:170-191 | A written push reads back whole exactly when its data is shorter than 2^16 |
| Scripts.PushInverts | crates/zalkanes-carrier/src/lib.rs:158-200 | For data of any length: what is read is the data cut at its length modulo 2^16, and what follows |
| Scripts.ParseScriptPushes | crates/zalkanes-carrier/src/lib.rs:210-222 | The loop returns the pushes up to the first byte that is not one |
| Scripts.PushesOfScript | crates/zalkanes-carrier/src/lib.rs:210-222 | A script of written pushes reads back as those pushes, whatever follows |
| Scripts.PiecesOf | crates/zalkanes-tx/src/lib.rs:229-243 | Splitting joins up to the data, yields no empty piece, and as few pieces as the size allows |
| Scripts.OpReturnRoundTrip | crates/zalkanes-carrier/src/lib.rs:137-153 | The payload of an OP_RETURN script is extracted exactly when it is shorter than 2^16 |
| Scripts.CarrierScriptSig | crates/zalkanes-tx/src/lib.rs:229-243 | The loop writes the index, the data in pushes of at most 520 bytes, the signature and the redeem script |
| Scripts.ChunkFromScriptSig | crates/zalkanes-carrier/src/lib.rs:233-249 | The chunk read from a scriptSig: one-byte first push, everything up to the last two pushes joined |
| Scripts.ChunkRoundTrip | crates/zalkanes-carrier/src/lib.rs:233-249 | Every carrier scriptSig reads back as its index and data for any signature; a chunk without data is not seen |
| Scripts.MinimalScript | crates/zalkanes-carrier/src/lib.rs:158-222 | A script is at least as long as its pushes written anew, and is that writing exactly when it is as short |
| Scripts.P2pkhCarriesNothing | crates/zalkanes-tx/src/lib.rs:246-251 | A P2PKH scriptSig never reads as a carrier |
| Carrier.Reconstruct | crates/zalkanes-carrier/src/lib.rs:26-87 | The method over the slot array returns the specified bytes or error |
| Carrier.ReconstructIff | crates/zalkanes-carrier/src/lib.rs:26-87 | Reconstruction returns a module exactly when the chunks are, in some order, the numbered parts of a byte string of the declared length and hash |
| Carrier.NeverMissing | crates/zalkanes-carrier/src/lib.rs:40-66 | The missing-chunk error cannot occur (pigeonhole) |
| Carrier.OrderPlaysNoPart | crates/zalkanes-carrier/src/lib.rs:26-87 | Permuting the chunks does not change a successful result |
| DeployTransaction.CarrierInputCountIff | crates/zalkanes-tx/src/lib.rs:153-165 | Sizing accepts exactly 1 to 262144 bytes, the cast to 32 bits notwithstanding, and counts as many chunks as needed |
| DeployTransaction.SplitChunksIff | crates/zalkanes-tx/src/lib.rs:546-553 | Splitting accepts exactly those sizes, in at most 188 nonempty chunks of at most 1400 bytes that join up again |
| DeployTransaction.CollectChunks | crates/zalkanes-indexer/src/lib.rs:369-375 | The loop over a transaction's inputs collects the chunks in input order |
| DeployTransaction.CollectedPermutes | crates/zalkanes-indexer/src/lib.rs:369-375 | Permuting the inputs permutes the chunks, nothing more |
| DeployTransaction.DeployRoundTrip | crates/zalkanes-tx/src/lib.rs:229-243 | Every module of 1 to 262144 bytes, split, written into scriptSigs under any signatures, permuted among inputs that carry nothing, is reconstructed to the same bytes |
| DeployTransaction.VerifyScriptSigs | crates/zalkanes-wallet/src/plan.rs:735-809 | The wallet's check accepts exactly when every input has the planned pushes and a deploy's planned chunks reconstruct to its message |
| DeployTransaction.WalletAndIndexerAgree | crates/zalkanes-wallet/src/plan.rs:735-809 | If the check accepts, the indexer collects exactly the planned chunks, and a deploy reconstructs there too, to bytes of the declared length and hash |
| DeployTransaction.BuiltInputVerifiedIff | crates/zalkanes-wallet/src/plan.rs:735-787 | An input the builder writes passes exactly when its signature starts like a DER signature and its chunk is not empty |
| DeployTransaction.ByteExactIff | crates/zalkanes-wallet/src/plan.rs:720-787 | An accepted script is byte for byte the one the builder writes with the signature it holds exactly when it has that script's pushes and its length |
| DeployTransaction.TrailingBytesUnseen | crates/zalkanes-wallet/src/plan.rs:720-787 | A witness: the check does not see bytes after the last push, although its comment says the contents are compared exactly |
| Frames.ParseInvertsEncodeIff | crates/zalkanes-protocol/src/lib.rs:97-290 | A message parses back from its encoding exactly when it is within the protocol's limits |
| Frames.AcceptedIsCanonical | crates/zalkanes-protocol/src/lib.rs:97-290 | Every payload that yields a message is the encoding of that message |
| Frames.EncodeInjective | crates/zalkanes-protocol/src/lib.rs:252-290 | No two admissible messages share an encoding |
| Frames.Verdicts | crates/zalkanes-protocol/src/lib.rs:97-134 | Which payloads are skipped silently, which are messages and, by exclusion, which are violations |
| Frames.ScriptRoundTrip | crates/zalkanes-tx/src/lib.rs:218-223 | Every admissible message fits 80 bytes and survives its OP_RETURN script |
| Frames.ScriptCanonicalIff | crates/zalkanes-carrier/src/lib.rs:137-153 | A script that carries a message is the one the builder writes exactly when it is as short |
| Runtime.RunsAgree | crates/zalkanes-runtime/src/lib.rs:280-395 | Two hosts that answer alike from related states cannot be told apart by any contract |
| Runtime.OverlayRefinesDirect | crates/zalkanes-runtime/src/lib.rs:352-530 | Over the overlay every contract gets the replies, and ends the way, it would writing into the store directly; the overlay then shows exactly that storage |
| Runtime.RunWithinLimits | crates/zalkanes-runtime/src/lib.rs:450-560 | No call touches more than 256 keys, or buffers a key over 256, a value over 65536 or an output over 65536 bytes |
| Runtime.HostState.StorageGet | crates/zalkanes-runtime/src/lib.rs:400-447 | Reads consult the overlay, then the store |
| Runtime.HostState.StorageSet | crates/zalkanes-runtime/src/lib.rs:450-494 | A set is buffered unless the key, the value or the number of keys exceeds its limit |
| Runtime.HostState.StorageDelete | crates/zalkanes-runtime/src/lib.rs:496-529 | A delete is buffered under the same limits |
| Runtime.HostState.Materialize | crates/zalkanes-runtime/src/lib.rs:358-366 | Draining the overlay yields one write per touched key, in key order |
| Runtime.Execute | crates/zalkanes-runtime/src/lib.rs:280-395 | Executing a call gives the specified result, with writes only on success |
| Runtime.FuelWithinLimit | crates/zalkanes-runtime/src/lib.rs:312-394 | No result reports more fuel than the call's limit |
| BlockWrites.ApplyWrites | crates/zalkanes-indexer/src/lib.rs:568-573 | The loop over a call's writes appends its sets to the upserts and its deletions to the deletes |
| BlockWrites.CallRefinesDirect | crates/zalkanes-runtime/src/lib.rs:280-395 | A block with one call ends like running the contract on the store as a transaction: same status, output and fuel, same final storage; a failed call changes nothing |
| BlockWrites.SlotAfterCalls | crates/zalkanes-indexer/src/lib.rs:511-573 | With many calls a slot ends absent if any successful call removes it, else with the last value set, else as before the block |
| BlockWrites.BlockMatchesSequenceIff | crates/zalkanes-indexer/src/lib.rs:511-573 | The block's storage equals its calls' effects applied one after another exactly when no slot is set again after an earlier call removed it |
| BlockWrites.RemovalOutlivesLaterSet | crates/zalkanes-indexer/src/lib.rs:568-573 | Two calls on one key, a removal and then a set, end with the key absent |
| Indexer.BlockProcessor.ExecuteCall | crates/zalkanes-indexer/src/lib.rs:474-566 | The method accounts fuel, buffers writes and records the execution as specified |
| Indexer.BlockProcessor.HandleDeploy | crates/zalkanes-indexer/src/lib.rs:361-407 | A deploy is taken up exactly when its chunks reconstruct, its id is new and its module valid |
| Indexer.BlockProcessor.HandleCallCarrier | crates/zalkanes-indexer/src/lib.rs:431-471 | A carrier call executes exactly when its calldata reconstructs |
| Indexer.BlockProcessor.Dispatch | crates/zalkanes-indexer/src/lib.rs:307-355 | Declared bytes are counted before the caps are checked, and stay counted when a cap refuses |
| Indexer.BlockProcessor.ProcessTransaction | crates/zalkanes-indexer/src/lib.rs:271-359 | The loop over the outputs, with its message caps, is the specified fold |
| Indexer.BlockProcessor.ProcessTransactions | crates/zalkanes-indexer/src/lib.rs:239-249 | The loop over the transactions is the specified fold |
| BlockBudgets.TransactionBudget | crates/zalkanes-indexer/src/lib.rs:271-359 | A transaction charges at most 100 million fuel and performs at most 16 executions and deployments; what was recorded before stays |
| BlockBudgets.BlockBudget | crates/zalkanes-indexer/src/lib.rs:271-407 | For every block: recorded fuel adds up to what was charged, at most 10^9; at most 4096 executions and deployments; at most 4 MiB of deployed modules, each hashing to its code hash, valid and new |
| BlockBudgets.DeployKept | crates/zalkanes-carrier/src/lib.rs:69-75 | Reconstruction's length check is what turns the cap on declared bytes into one on deployed bytes |
| BlockBudgets.CommitsAreBounded | crates/zalkanes-indexer/src/lib.rs:178-269 | Every commit names its block and meets the length bounds both stores rely on |
| BlockCalls.CommitIsOfCalls | crates/zalkanes-indexer/src/lib.rs:271-573 | A block's upserts and deletes are exactly the writes of its successful calls, which match its successful execution records one for one and in order, each being what its context really runs to over the store before the block |
| BlockCalls.BlockStorage | crates/zalkanes-indexer/src/lib.rs:511-573 | After any block a slot is absent if one of those calls removed it, else holds the last value one set, else what it held |
| BlockCalls.BlockIsSequentialIff | crates/zalkanes-indexer/src/lib.rs:511-573 | A block's storage is that of its calls one after another exactly when no slot is set again after an earlier one of them removed it |
| BuiltTransactions.MessageProcessed | crates/zalkanes-indexer/src/lib.rs:271-305 | In a transaction with one message, in output 0, exactly that message is found and processed, or counted and refused when the block is full |
| BuiltTransactions.BuiltDeployDeploys | crates/zalkanes-tx/src/lib.rs:657-725 | From module bytes to contract: the plan built for a module, signed in any way and its inputs in any order, deploys exactly that module exactly when caps, validity and novelty allow |
| BuiltTransactions.BuiltCallExecutes | crates/zalkanes-tx/src/lib.rs:744-785 | A signed inline CALL plan runs the contract, opcode and input it names against the store before the block and leaves its writes and one record, exactly when a message slot and fuel are left |
| Sync.ReorgTurn | crates/zalkanes-indexer/src/sync.rs:409-439 | One turn on any store: done only if the stored block is canonical, a failure that changes nothing, or a rollback to the wrapped height below; it cannot but fail on a view shorter than the history |
| Sync.HandleReorg | crates/zalkanes-indexer/src/sync.rs:409-439 | Rolls back to the longest stored prefix whose last block is canonical, ends for every history (its length is the measure), and a failure leaves a part of the old history; it never succeeds on a view shorter than the history |
| Sync.FastForward | crates/zalkanes-indexer/src/sync.rs:306-340 | Below activation at most one commit is added, an empty block at the clamped target height |
| Sync.CatchUpRound | crates/zalkanes-indexer/src/sync.rs:342-396 | One round: done exactly above the tip; otherwise a failure that changes nothing or one more commit, for the next height of the view |
| Sync.CatchUp | crates/zalkanes-indexer/src/sync.rs:342-396 | The commits it adds are at consecutive heights, none above the tip; it ends at the tip, at a failure or at a stop |
| Sync.IndexBlock | crates/zalkanes-indexer/src/lib.rs:178-269 | Indexing a block appends the one commit its view determines |
| Sync.Tick | crates/zalkanes-indexer/src/sync.rs:290-404 | Whatever linked view was followed before, a completed tick reports the stored height, leaves the store following the current view, and adds to what the check kept just the fast-forward target and consecutive heights up to the tip, all unless stopped; a failed one leaves a part of the old history or one grown in the same way; in calm weather it completes exactly if the view is as long as the history |
| Sync.Run | crates/zalkanes-indexer/src/sync.rs:244-286 | Any number of ticks from an empty store, the chain changing between them and any call failing: each is such a step from the history the last one left, and the store holds the replay of the final one |
| Sync.RunConverges | crates/zalkanes-indexer/src/sync.rs:244-286 | Reorg convergence: after each completed tick of a run the replayed state is the clean replay of the chain as that tick saw it, up to the height it reports |
| Sync.RunFollowsSeen | crates/zalkanes-indexer/src/sync.rs:244-286 | At every point of a run, failed ticks included, the stored history follows one of the views already seen |
| ChainViews.FollowsReplaysClean | crates/zalkanes-indexer/src/sync.rs:290-439 | A store whose commits follow a view holds the clean replay of that view, fast-forward gaps included |
| ChainViews.FollowsSwitch | crates/zalkanes-indexer/src/sync.rs:409-439 | For hash-linked views, agreement on the last stored block makes the whole history follow the new view |
| ChainViews.CanonicalPrefixFollows | crates/zalkanes-indexer/src/sync.rs:409-439 | What a rollback leaves always follows the new view |
| ChainViews.DatabaseReplaysClean | crates/zalkanes-indexer/src/sync.rs:290-439 | The same convergence read from the flat database |
| Sync.GenesisTurns | crates/zalkanes-indexer/src/sync.rs:409-439 | A mismatch at height 0 would never resolve: after any number of turns of the loop the store is as it was and the loop has not ended |
| ChainViews.MidTickSwitchIff | crates/zalkanes-indexer/src/sync.rs:342-396 | If the view changes within a tick, the history continued with the new view's next block follows that view exactly when the last stored block is still canonical |
| ChainViews.MidTickSwitchFollowsSplice | crates/zalkanes-indexer/src/sync.rs:342-396 | Otherwise it follows the splice of the two views |
| ChainViews.MidTickSwitchUndetected | crates/zalkanes-indexer/src/sync.rs:342-396 | And it then follows no view linked with the new one, although the reorg check against the new one passes |
| ChainViews.SpliceSurvives | crates/zalkanes-indexer/src/sync.rs:342-439 | However much it grows from views that still have its last block, each of their checks passes and no view linked with the new one is followed |
| ChainViews.SpliceHealsIff | crates/zalkanes-indexer/src/sync.rs:342-439 | What a later reorg check keeps follows its view exactly when that view no longer has the block at the splice |
| Sync.RoundsWithoutActivation | crates/zalkanes-indexer/src/sync.rs:342-396 | Without an activation height any number of catch-up rounds leaves the store as it was and the loop unfinished |
| InterruptedTick.InterruptedRollback | crates/zalkanes-state/src/lib.rs:920-987 | The durable states of rolling back the last block: from the height batch on all tables are without it, while the metadata still names it until written |
| InterruptedTick.TickKeeps | crates/zalkanes-indexer/src/sync.rs:290-439 | A completed tick over a flat database that holds a history of a view leaves one that holds a history of the current view |
| InterruptedTick.SoundIsClean | crates/zalkanes-indexer/src/sync.rs:290-439 | A database that holds a history of a view reads as the clean replay of that view |
| InterruptedTick.TornTickIff | crates/zalkanes-indexer/src/sync.rs:409-439 | From the state between the height batch and the metadata, a completed tick ends right exactly when the view no longer has the undone block, or a commit below activation closes the gap |
| InterruptedTick.InterruptedTickIff | crates/zalkanes-indexer/src/sync.rs:409-439 | From every durable state of an interrupted rollback of the last block: the next completed tick leaves a history of its view exactly unless the crash fell in that state and the undone block is canonical again and no commit below activation closes the gap |
| InterruptedTick.TornTickWitness | crates/zalkanes-indexer/src/sync.rs:409-439 | The failing input: for any database at the tip of a view, the next tick on that view completes after that crash, changes nothing and leaves no history of any view |
| DiskRuns.TurnOnDisk | crates/zalkanes-indexer/src/sync.rs:409-439 | Wherever a turn of the reorg loop is cut short, from whatever earlier cut-short turns left, the tables hold a history of a seen view and the metadata names its last block, a height without record, or a hash of a greater height |
| DiskRuns.GuardedRunIff | crates/zalkanes-indexer/src/sync.rs:244-439 | Over every run of ticks cut short anywhere: if nothing was committed on a torn database, a reorg check that passes finds a history of its view, read as its clean replay, exactly when the database is not torn |
| DiskRuns.FirstFault | crates/zalkanes-indexer/src/sync.rs:244-439 | Whatever goes wrong in such a run is preceded by, or is, a reorg check that passed on a torn database |
| DiskRuns.WholeStepsDoNotTear | crates/zalkanes-indexer/src/sync.rs:244-439 | Only a rollback that is cut short tears a database |
| DiskRuns.WholeRunSound | crates/zalkanes-indexer/src/sync.rs:244-439 | In runs without a rollback cut short every reorg check that passes finds a history of its view |
| RocksSync.HandleReorg | crates/zalkanes-indexer/src/sync.rs:409-439 | Over the persistent store, from anything cut-short ticks leave: each turn is a whole rollback, the loop ends (recorded blocks, and one turn more for stale metadata, are the measure), and against a source that answers it succeeds exactly if the view reaches the stored height |
| RocksSync.CatchUp | crates/zalkanes-indexer/src/sync.rs:342-396 | On any database the loop is that of the specified tick, each write one committed block |
| RocksSync.Tick | crates/zalkanes-indexer/src/sync.rs:290-404 | The tick over the persistent store: its writes are whole steps of such runs, if it completes it is the specified tick of its view up to the tip unless stopped, and in calm weather it completes exactly if the view reaches the stored height |
| RocksSync.Run | crates/zalkanes-indexer/src/sync.rs:244-286 | Any number of ticks over a fresh persistent store: after each that completed the database holds a history of the view it saw |
| Journal.JournalStore.CreatePlan | crates/zalkanes-wallet/src/journal.rs:161-263 | Never overwrites: the same plan is a no-op, a different one under the same id a conflict |
| Journal.JournalStore.Transition | crates/zalkanes-wallet/src/journal.rs:274-308 | Moves the row, or refuses and changes nothing |
| Journal.JournalStore.NonTerminal | crates/zalkanes-wallet/src/journal.rs:348-365 | Lists the non-terminal rows in creation order |
| Journal.TransitionsClimb | crates/zalkanes-wallet/src/journal.rs:58-104 | Every legal move climbs a rank, so no row moves for ever; terminal stages are final |
| Wallet.ReleaseSafety | crates/zalkanes-wallet/src/broadcast.rs:94-276 | Over every run, with a crash between any two durable writes: each release concerns a terminal row that was never sent, or was rejected, or was seen absent past expiry and margin |
| Wallet.ReleasedNeverSent | crates/zalkanes-wallet/src/recovery.rs:158-283 | A cancelled plan is never sent at any later point of any run |
| Wallet.OpsDisciplined | crates/zalkanes-wallet/src/broadcast.rs:94-276 | Every operation moves the row before it sends, and to the matching terminal stage before it releases |
| WalletSession.BroadcastEffect | crates/zalkanes-wallet/src/broadcast.rs:94-161 | What a broadcast leaves: one send after row and txid were durable, a stage that claims no more than the verdict, locks kept unless the node rejected |
| WalletSession.Session.BroadcastVerified | crates/zalkanes-wallet/src/broadcast.rs:94-161 | A stale tip sends nothing; otherwise the stores end as the specified list of writes and the outcome names the verdict |
| WalletSession.Session.RecoverOne | crates/zalkanes-wallet/src/recovery.rs:158-283 | One row: the specified writes, each transition reported with the stage it left and each release reported |
| WalletSession.Session.ReconcileOne | crates/zalkanes-wallet/src/broadcast.rs:192-273 | One broadcast-phase row, likewise |
| WalletSession.Session.RecoverRows | crates/zalkanes-wallet/src/recovery.rs:158-283 | The loop over the rows, each as it was when the pass began |
| WalletSession.Session.ReconcileRows | crates/zalkanes-wallet/src/broadcast.rs:185-276 | The reconciler's loop, likewise |
| WalletSession.Session.StartupRecover | crates/zalkanes-wallet/src/recovery.rs:128-301 | A whole pass ends as specified; its report lists exactly the transitions and releases performed and the locks no non-terminal row accounts for |
| WalletSession.OrphanIff | crates/zalkanes-wallet/src/recovery.rs:137-146 | A lock is reported orphaned exactly when every row naming its owner is terminal, not only when there is no such row |
| Recovery.RecoverRowEffect | crates/zalkanes-wallet/src/recovery.rs:158-283 | Recovery's writes for a row are legal, leave the tabulated stage, and release locks exactly for proving rows and matched reservations: signed plans keep theirs |
| Recovery.ReconcileRowEffect | crates/zalkanes-wallet/src/broadcast.rs:192-273 | The reconciler's writes are legal, leave the tabulated stage, and release exactly when absent past expiry and margin |
| Recovery.ExecOverRows | crates/zalkanes-wallet/src/recovery.rs:158-283 | A pass changes every row by its own writes only, and frees exactly the owners they release |
| RecoveryPasses.PassNeverRefused | crates/zalkanes-wallet/src/recovery.rs:128-301 | On any table, a pass never attempts a transition the journal forbids, and what it leaves is given row by row |
| RecoveryPasses.PerformsIffChanges | crates/zalkanes-wallet/src/recovery.rs:128-301 | A pass performs a transition exactly when it changes some row |
| RecoveryPasses.ThirdPassIff | crates/zalkanes-wallet/src/recovery.rs:128-301 | The third pass moves exactly when the table before the first holds a row whose mismatched locks sit under the owner of another plan that the first pass will reserve and the second release, and the first frees neither's locks |
| RecoveryPasses.ThirdPassAfterFirst | crates/zalkanes-wallet/src/recovery.rs:128-301 | The same condition read from the table after the first pass |
| RecoveryPasses.TwoPassesSettleWellOwned | crates/zalkanes-wallet/src/recovery.rs:128-301 | On tables where no row's locks sit under another plan's owner, two passes suffice |
| RecordedRuns.RecordedIsWellOwned | crates/zalkanes-wallet/src/recovery.rs:40-75 | Tables whose rows have the lock owners `record_plan` writes are such tables |
| RecordedRuns.TwoPassesSettleRuns | crates/zalkanes-wallet/src/recovery.rs:40-301 | At every point of every run, crashes included, in which plans are recorded by `record_plan`, two recovery passes settle the table |
| RecoveryPasses.ThreePassesSettle | crates/zalkanes-wallet/src/recovery.rs:128-301 | On any table three passes suffice |
| RecoveryPasses.TwoPassesNotEnough | crates/zalkanes-wallet/src/recovery.rs:128-301 | A concrete table on which two passes do not |
| Fees.FeeCoversActions | crates/zalkanes-tx/src/lib.rs:55-66 | The fee is 5000 per action; the actions cover all bytes, are at least two and no more than needed |
| Fees.CarrierScriptSigLen | crates/zalkanes-tx/src/lib.rs:531-543 | The loop computes the predicted carrier length |
| Fees.PredictedLength | crates/zalkanes-tx/src/lib.rs:531-543 | The prediction exceeds the real scriptSig by exactly what a signature shorter than 73 bytes saves |
| Fees.P2pkhLength | crates/zalkanes-tx/src/lib.rs:526-528 | The same for P2PKH scriptSigs |
| Fees.StandardIff | crates/zalkanes-tx/src/lib.rs:117-145 | A carrier fits 1650 bytes exactly up to 1528 bytes of data, the value the function computes (its comment says 1466); chunks of 1400 fit |
| Fees.BuildPreparePlan | crates/zalkanes-tx/src/lib.rs:572-640 | The assembly loops produce the specified PREPARE plan |
| Fees.BuildDeployPlan | crates/zalkanes-tx/src/lib.rs:657-725 | The assembly loops produce the specified DEPLOY plan |
| Fees.PrepareConservesIff | crates/zalkanes-tx/src/lib.rs:572-640 | Inputs equal outputs plus fee exactly when the two 64-bit sums wrap equally often |
| Fees.DeployConservesIff | crates/zalkanes-tx/src/lib.rs:657-725 | Inputs equal outputs plus fee exactly when the carrier values sum below 2^64 |
| Fees.CallConserves | crates/zalkanes-tx/src/lib.rs:744-785 | Inputs equal outputs plus fee for every CALL plan |
| Fees.PrepareFeeCovers | crates/zalkanes-tx/src/lib.rs:572-640 | The planned fee covers the ZIP 317 fee of the signed transaction under any signatures |
| Fees.DeployFeeCovers | crates/zalkanes-tx/src/lib.rs:657-725 | The same for DEPLOY |
| Fees.CallFeeCovers | crates/zalkanes-tx/src/lib.rs:744-785 | The same for CALL |
| Fees.SizedDeployLeavesChange | crates/zalkanes-cli/src/main.rs:784-799 | The command line's probe always succeeds with the real fee, and its sizing leaves at least 50,000 and less than 50,000 plus one per carrier |
| PlanCommitment.CommitPlan | crates/zalkanes-wallet/src/plan.rs:107-178 | The appending loops hash the specified preimage |
| PlanCommitment.PreimageRoundTripIff | crates/zalkanes-wallet/src/plan.rs:107-178 | A plan reads back from its preimage exactly when its counts and lengths fit 16 bits |
| PlanCommitment.PreimageInjective | crates/zalkanes-wallet/src/plan.rs:107-178 | Two such plans share a preimage only if they agree in every field, element, pool tag and the optional change |
| PlanCommitment.CommitmentBindsIff | crates/zalkanes-wallet/src/plan.rs:107-178 | The commitment binds all plans that fit exactly when the hash keeps their encodings apart: the encoding adds no collision of its own |

## Left out

- RocksDB and SQLite internals and their I/O errors: a batch is atomic over a map, a row write atomic over a table.
- BLAKE2b, SHA-256, RIPEMD-160, secp256k1, ZIP 244, Orchard and Ironwood proofs: hashes are arbitrary functions, signatures arbitrary byte strings.
- WASM execution, module validation and pointer arithmetic in host functions: a contract is any deterministic strategy over host calls, each of which is taken to cost fuel, so a call makes at most as many as its fuel limit; `input_read` and `context_block_height` are part of the strategy.
- Execution records beyond transaction, contract, opcode, status, fuel and output: the before and after roots they also hold, and `save_executions`, are derived data that rollback does not touch.
- The logs, `IndexerHealth`, RPC readiness, privacy policy and funding pool strings: they add only easy members.
- `shielded.rs`, `sqlite.rs`, `chain_source.rs`, `keystore.rs`, the RPC clients, the sample contracts and the docs tooling.
- Parsing of raw Zcash blocks: a view gives each block's transactions by height, and a failed parse is one more failing call.
- The `u32` count of messages in a block is unbounded in the model; a block cannot hold 2^32 outputs.
- Collisions between contract and storage leaf preimages: nothing proved depends on their absence.
- Stages of a funding plan (`prove`, `sign`, `extract`) and the checks of `verify_extracted` other than on scriptSigs.
- Free-text error messages in journal rows are short constants, and the recovery report's lists of anomalies and preserved plans are not kept.
- Recovery.RecoverRowEffect: recorded and held inputs are compared as multisets, which is what sorting both lists and comparing them decides; the sort itself is not modelled.
- Sync.Tick: takes an activation height, since without one the catch-up loop only ends when stopped; `Sync.RoundsWithoutActivation` covers that case.
- Sync.Run: is stated for the in-memory store; `RocksSync.Run` is its counterpart for the persistent one, and `ChainViews.DatabaseReplaysClean` carries the conclusion over for the same chain of commits.
- InterruptedTick.InterruptedTickIff: supposes that a block hash names a block of one height, and that the interrupted rollback is of one block, as `handle_reorg` asks for; `DiskRuns` makes the first assumption too.
- RecordedRuns.TwoPassesSettleRuns: supposes that the hash behind `lock_owner_hex` gives different plan ids different, nonempty owners.
- RocksSync.Run: a tick that fails or completes; ticks cut short inside a write list are the steps of `DiskRuns.DiskRun`, over the values the methods are proved to write.
- BlockBudgets.TransactionBudget: counts executions and deployments, the observable effects of handled messages; messages refused later add nothing.
