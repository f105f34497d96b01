# drink sandbox, modelled in Dafny

drink runs a Substrate runtime inside a test process and needs no node. A *sandbox* owns one set of
test externalities:

- a committed storage **backend**;
- an **overlay** of pending writes and deletions, which every read consults first;
- a registry of **extensions**.

Every operation of the sandbox is a closure run against that storage through `execute_with`.
`dry_run` runs a closure and then restores the backend. Blocks are opened and closed by hand:

- `initialize_block(height, parent)` resets the event log, initializes the system pallet, runs the
  balances hook, stamps the wall-clock time, runs the timestamp and contracts hooks, and notes that
  initialization has finished;
- `finalize_block(height)` runs the pallets' finalization hooks in the reverse order and returns the
  hash of the finalized header;
- `build_block` finalizes the current block, advances the height (saturating at the `u32` maximum)
  and opens the next block on that hash. `build_blocks(n)` does this `n` times.

On top of this sit facades for system, balance, timestamp and contracts operations, plus
`decode_debug_buffer`, which splits a contract's debug output into non-empty lines.

## Model structure

| file | module | what it models |
|---|---|---|
| `wrappers.dfy` | `Wrappers` | `Option` and `Result` |
| `externalities.dfy` | `Externalities` | the test externalities as a class: backend `map`, overlay `map<K, Option<V>>`, extensions; `execute_with`, `as_backend`, `commit_all`, `register_extension` |
| `chain.dfy` | `Chain` | integer widths, hashes and accounts, the storage items the sandbox reads (block number, parent hash, events, free balances, timestamp) with their defaults, and the writes that set them |
| `runtime.dfy` | `Runtime` | calls, origins, dispatch and contract results; the pallets' behaviour as function fields of `Runtime`, and the laws the tests rely on (`MintLaw`, `TransferLaw`, `UploadLaw`) |
| `block_builder.dfy` | `BlockBuilder` | `BlockBuilder::initialize_block` / `finalize_block` as a list of lifecycle calls, specified by a fold and executed by a loop over the externalities |
| `sandbox_config.dfy` | `SandboxConfig` | the configuration: default hooks or the minimal runtime's delegation to `BlockBuilder` |
| `minimal.dfy` | `Minimal` | genesis, and the dry run with backup, commit and restore |
| `sandbox.dfy` | `Sandbox` | the `Sandbox` facade: `execute_with`, `dry_run`, `register_extension` |
| `runtime_api.dfy` | `RuntimeApi` | `build_block`, `build_blocks` |
| `system_api.dfy`, `balance_api.dfy`, `timestamp_api.dfy`, `contracts_api.dfy` | same names | the facades and `decode_debug_buffer` |
| `scenarios.dfy` | `Scenarios` | the repository's unit tests, as methods on fresh sandboxes |

### Modelling choices

- **Closures.** A closure is a function `ChainView -> (ChainView, R)`. It maps the storage it sees
  to the storage it leaves and to its value. `ExecuteWith` writes exactly the difference between
  those two storages into the overlay. It is proved that every later read then observes the new
  storage.
- **Pallets.** Their behaviour is opaque. Each pallet operation is a function field of `Runtime`:
  minting, dispatch, the `on_initialize`/`on_finalize` hooks, the system finalization hash, hashing
  and the three contract entry points.
  - A pallet hook can only change its own private storage (`PalletStorage(pallet, _)`). So it
    changes no item the sandbox reads, by construction.
  - Where a repository test asserts an effect of a pallet, for example "a successful mint raises
    the balance by the amount", the model states it as a law. The scenario that relies on the law
    takes it as a precondition.
- **Block lifecycle.**
  - `initialize_block` is the exact list of its seven calls, in source order (`InitializeHooks`).
  - `RunHooks` is the reference fold over such a list.
  - `ApplyHooks` runs the list against the externalities in a loop and is proved equal to the fold.
- **Wall clock.** The clock `initialize_block` reads is a parameter: `now` for one block, and
  `clock(i)` for block `i` of `build_blocks`. It is measured in seconds, as the source takes
  `as_secs()`.
- **Integer widths.**
  - Block numbers are `u32`. The increment in `build_block` saturates, and is written out.
  - Balances are `u128`; moments are `u64`.
- **Code hashes.** Decoding an `H256` takes the first 32 bytes and fails on fewer. This failure is
  the "Invalid code hash" abort of `instantiate_contract`, modelled as the outcome `Panicked`, which
  leaves the storage unchanged.

### What the code does at its edges

- `SandboxConfig::finalize_block` returns `Result<Hash, String>` (sandbox_config.rs:35-39), which
  suggests that it can fail. Both implementations return `Ok`: the default returns the default hash,
  and the minimal runtime returns `Ok` of the finalized header's hash (minimal.rs:36).
  - `build_block` passes that `Result` straight to `initialize_block`, which expects a hash
    (runtime_api.rs:13-15).
  - `FinalizeBlockOf` proves that the result is always `Ok`, and the model passes the `Ok` value on.
  - So `build_block` has no failure path.
- `build_block` is documented to "return the new height" (runtime_api.rs:9). With the default hooks
  nothing is written, so it returns one past the current height `h` while the stored height stays
  `h`. `build_blocks(n)` then returns `h + 1` for every `n > 0` (`RuntimeApi.BuildBlocks`).

## Model

| member | source | states |
|---|---|---|
| Externalities.Overlaid | drink/src/runtime/minimal.rs:74-76 | a read observes the overlay's pending change for a key if there is one, the backend's value otherwise |
| Externalities.Diff | drink/src/runtime/minimal.rs:74-76 | the pending changes hold exactly the keys whose reads differ between the two storages, each mapped to the value read afterwards |
| Externalities.OverlayDiff | drink/src/runtime/minimal.rs:74-76 | writing the difference to the closure's storage over any overlay makes every read observe exactly that storage |
| Externalities.DiffOfSame | drink/src/sandbox/system_api.rs:42-48 | a closure that only reads leaves no pending change |
| Externalities.RestoreWithoutCommitLeaks | drink/src/runtime/minimal.rs:83-91 | if the backend were restored without first committing, a pending write would still shadow the backup, which is why the dry run commits first |
| Externalities.TestExternalities.constructor | drink/src/runtime/minimal.rs:62 | new externalities read exactly their genesis storage, with nothing pending and no extension |
| Externalities.TestExternalities.Set | drink/src/runtime/minimal.rs:17-19 | a write stays pending and the view gains that key's value |
| Externalities.TestExternalities.Kill | drink/src/runtime/minimal.rs:16 | a deletion stays pending and the view loses that key |
| Externalities.TestExternalities.Write | drink/src/runtime/minimal.rs:18 | a batch of changes stays pending and the view is the old view overlaid with the batch |
| Externalities.TestExternalities.ExecuteWith | drink/src/runtime/minimal.rs:74-76 | the closure's value is returned, and every later read observes the storage the closure left |
| Externalities.TestExternalities.AsBackend | drink/src/runtime/minimal.rs:81 | the backup is the storage as read, pending changes included |
| Externalities.TestExternalities.CommitAll | drink/src/runtime/minimal.rs:87-88 | the pending changes are flushed into the backend, the overlay is emptied and no read changes |
| Externalities.TestExternalities.RegisterExtension | drink/src/runtime/minimal.rs:96-98 | the extension is registered under its type, replacing an earlier one of that type, and storage is untouched |
| Chain.SaturatingInc | drink/src/sandbox/runtime_api.rs:14 | one more than the height, or the `u32` maximum when already there |
| Chain.DecodeHash | drink/src/sandbox/contracts_api.rs:171-172 | decoding succeeds exactly when at least 32 bytes are given, and yields the first 32 |
| Chain.DecodeHashRoundTrip | drink/src/sandbox/contracts_api.rs:171-172 | an encoded hash, followed by anything, decodes to that hash |
| Chain.WithEventsReset | drink/src/sandbox/system_api.rs:50-52 | resetting events empties the log and leaves height, parent hash, timestamp and balances as they were |
| Chain.WithHeader | drink/src/runtime/minimal.rs:17 | system initialization sets the block number and parent hash and leaves events, timestamp and balances |
| Chain.WithTimestamp | drink/src/sandbox/timestamp_api.rs:32-34 | setting the timestamp changes only the timestamp among the items the sandbox reads |
| Chain.ApplyPalletChanges | drink/src/runtime/minimal.rs:18 | a pallet hook's writes leave every key outside pallet-private storage as it was |
| Chain.PalletChangesKeepObservables | drink/src/runtime/minimal.rs:18-26 | a pallet hook changes no block number, parent hash, event, timestamp or balance |
| BlockBuilder.HookOrder | drink/src/runtime/minimal.rs:12-37 | events are reset first and only then; every pallet hook follows system initialization at the block's height; the timestamp is set right before the timestamp hook; pallets initialize as balances, timestamp, contracts and finalize in exactly the reverse order |
| BlockBuilder.InitializePalletOrder | drink/src/runtime/minimal.rs:18-26 | `initialize_block` runs the initialization hooks of balances, timestamp, contracts in that order and no finalization hook |
| BlockBuilder.FinalizePalletOrder | drink/src/runtime/minimal.rs:33-35 | `finalize_block` runs the finalization hooks of contracts, timestamp, balances in that order |
| BlockBuilder.RunHook | drink/src/runtime/minimal.rs:16-27 | each lifecycle call changes only the item it writes (events, header, timestamp) and never a balance |
| BlockBuilder.RunHooks | drink/src/runtime/minimal.rs:12-28 | a sequence of calls never moves a balance and leaves each read item alone unless a call writing it is present |
| BlockBuilder.InitializeSetsHeader | drink/src/runtime/minimal.rs:12-28 | after `initialize_block(height, parent)` the block number is `height`, the parent hash `parent`, the event log empty, the timestamp the wall clock reading, balances unchanged |
| BlockBuilder.Finalize | drink/src/runtime/minimal.rs:30-37 | finalization returns `Ok` of the system's finalized hash and changes nothing the sandbox reads |
| BlockBuilder.ApplyHook | drink/src/runtime/minimal.rs:16-27 | one lifecycle call on the externalities leaves exactly the storage `RunHook` specifies |
| BlockBuilder.ApplyHooks | drink/src/runtime/minimal.rs:12-28 | running the calls one after another on the externalities leaves exactly the storage of the fold `RunHooks` |
| BlockBuilder.InitializeBlock | drink/src/runtime/minimal.rs:12-28 | `initialize_block` on the externalities leaves the storage `Initialize` specifies |
| BlockBuilder.FinalizeBlock | drink/src/runtime/minimal.rs:30-37 | `finalize_block` on the externalities returns and leaves what `Finalize` specifies |
| SandboxConfig.InitializeBlockOf | drink/src/sandbox/sandbox_config.rs:28-32 | the default hook changes nothing; the minimal runtime's sets height, parent, empty events and the time, keeping balances |
| SandboxConfig.FinalizeBlockOf | drink/src/sandbox/sandbox_config.rs:35-39 | finalization always succeeds and changes nothing read; the default returns the default hash, the minimal runtime's the system's finalized hash |
| SandboxConfig.InitializeBlock | drink/src/runtime/minimal.rs:100-105 | the configured `initialize_block` leaves the storage `InitializeBlockOf` specifies |
| SandboxConfig.FinalizeBlock | drink/src/runtime/minimal.rs:107-111 | the configured `finalize_block` returns and leaves what `FinalizeBlockOf` specifies |
| Minimal.GenesisStorage | drink/src/runtime/minimal.rs:53-60 | genesis storage funds the default actor with its balance and nobody else, with empty events, height 0 and time 0 |
| Minimal.GenesisState | drink/src/runtime/minimal.rs:50-68 | after genesis only the default actor holds funds and the log is empty; with the minimal hooks block 1 is open on the default parent hash at the wall clock time |
| Minimal.MinimalGenesis | drink/src/runtime/minimal.rs:261-264 | the minimal runtime's default actor is `[1u8; 32]`, funded with 10^15, and block 1 is open |
| Minimal.Genesis | drink/src/runtime/minimal.rs:62-66 | the externalities hold the genesis storage as backend, with block 1 initialized on top |
| Minimal.DryRun | drink/src/runtime/minimal.rs:78-94 | the action's value is returned, every read afterwards observes the storage from before the action, and nothing is left pending |
| Sandbox.Sandbox.constructor | drink/src/sandbox.rs:16-17 | a new sandbox reads the genesis storage of its configuration and has no extension |
| Sandbox.Sandbox.ExecuteWith | drink/src/sandbox.rs:23-25 | the closure's value is returned and its storage is kept |
| Sandbox.Sandbox.DryRun | drink/src/sandbox.rs:32-34 | the action's value is returned and the storage reads as before |
| Sandbox.Sandbox.RegisterExtension | drink/src/sandbox.rs:37-39 | the extension is registered under its type |
| RuntimeApi.BuildBlockOf | drink/src/sandbox/runtime_api.rs:10-18 | the returned height is one past the current one, saturating; with the minimal hooks the new block has that height, the finalized block's hash as parent, no events, the wall clock time and the same balances; with the default hooks storage is unchanged |
| RuntimeApi.BuildBlock | drink/src/sandbox/runtime_api.rs:10-18 | the closure `build_block` runs leaves the storage and returns the height `BuildBlockOf` specifies |
| RuntimeApi.BuildBlocks | drink/src/sandbox/runtime_api.rs:24-30 | `n` builds in sequence; with the minimal hooks the height advances by `n` (saturating) and is returned; with the default hooks storage is unchanged and one past the height is returned when `n > 0`; no balance moves |
| SystemApi.BlockNumber | drink/src/sandbox/system_api.rs:42-44 | returns the current block number and changes nothing |
| SystemApi.Events | drink/src/sandbox/system_api.rs:46-48 | returns the current block's events and changes nothing |
| SystemApi.ResetEvents | drink/src/sandbox/system_api.rs:50-52 | the event log is empty afterwards; height, timestamp and balances are unchanged |
| SystemApi.RuntimeCall | drink/src/sandbox/system_api.rs:54-60 | the call is dispatched from the origin and its effects kept; a successful transfer to another account credits the value and ends the log with a balances event |
| SystemApi.ResetEventsIdempotent | drink/src/sandbox/system_api.rs:50-52 | resetting twice is resetting once |
| BalanceApi.MintInto | drink/src/sandbox/balance_api.rs:17-23 | the mint's effects are kept; a successful mint raises the free balance by the amount |
| BalanceApi.FreeBalance | drink/src/sandbox/balance_api.rs:30-35 | returns the account's free balance and changes nothing |
| BalanceApi.MintsAdd | drink/src/sandbox/balance_api.rs:17-23 | two successful mints credit their sum |
| TimestampApi.GetTimestamp | drink/src/sandbox/timestamp_api.rs:29-31 | returns the current timestamp and changes nothing |
| TimestampApi.SetTimestamp | drink/src/sandbox/timestamp_api.rs:32-34 | the timestamp becomes the given moment; height, events and balances are unchanged |
| TimestampApi.LastSetWins | drink/src/sandbox/timestamp_api.rs:32-34 | a later set overrides an earlier one |
| ContractsApi.DeployContract | drink/src/sandbox/contracts_api.rs:120-147 | instantiates freshly uploaded code with debug output and event collection on, keeping the effects |
| ContractsApi.InstantiateOf | drink/src/sandbox/contracts_api.rs:149-180 | aborts with "Invalid code hash", changing nothing, exactly when fewer than 32 hash bytes are given; otherwise instantiates the code under the decoded hash |
| ContractsApi.InstantiateContract | drink/src/sandbox/contracts_api.rs:149-180 | `instantiate_contract` returns and leaves what `InstantiateOf` specifies |
| ContractsApi.UploadContract | drink/src/sandbox/contracts_api.rs:182-197 | uploads the code and keeps the effects; a successful upload reports the runtime hash of the code |
| ContractsApi.CallContract | drink/src/sandbox/contracts_api.rs:199-222 | calls the contract at the address from the origin with debug output and event collection on, keeping the effects |
| ContractsApi.Decode | drink/src/sandbox/contracts_api.rs:227 | every byte becomes the character with that code, one for one |
| ContractsApi.Split | drink/src/sandbox/contracts_api.rs:229 | splitting yields at least one piece and no piece contains the separator |
| ContractsApi.JoinSplit | drink/src/sandbox/contracts_api.rs:229 | rejoining the pieces of a split with the separator gives the text back |
| ContractsApi.SplitJoin | drink/src/sandbox/contracts_api.rs:229 | splitting pieces free of the separator, joined by it, gives the pieces back |
| ContractsApi.NonEmpty | drink/src/sandbox/contracts_api.rs:230 | a piece is kept exactly when it is a non-empty piece of the input; no more pieces are kept than there were |
| ContractsApi.NonEmptyAppend | drink/src/sandbox/contracts_api.rs:230 | filtering a list joined from two lists gives the two filtered lists joined, so the kept pieces keep the input's order |
| ContractsApi.ConcatSplit | drink/src/sandbox/contracts_api.rs:229 | the pieces of a split, laid end to end, are the text without its separators |
| ContractsApi.DecodeDebugBuffer | drink/src/sandbox/contracts_api.rs:226-232 | no line is empty and no line holds a newline |
| ContractsApi.DecodeDebugBufferContent | drink/src/sandbox/contracts_api.rs:226-232 | the lines, laid end to end, are the buffer without its newline bytes: nothing else is dropped and the order is kept |
| ContractsApi.DecodeDebugBufferEmpty | drink/src/sandbox/contracts_api.rs:226-232 | a buffer yields no line exactly when it holds nothing but newlines |
| ContractsApi.DecodeDebugBufferPieces | drink/src/sandbox/contracts_api.rs:226-232 | newline-free pieces joined by newlines, blank ones included, decode to exactly the non-empty pieces, in order |
| ContractsApi.DecodeDebugBufferLines | drink/src/sandbox/contracts_api.rs:226-232 | non-empty, newline-free lines joined by newlines decode to exactly those lines |
| ContractsApi.DecodeDebugBufferBlankLine | drink/src/sandbox/contracts_api.rs:226-232 | the buffer "ab", newline, newline, "a", newline, "b" decodes to "ab", "a", "b": the blank line is dropped and the order kept |
| Scenarios.DryRunWorks | drink/src/sandbox.rs:47-65 | a mint inside a dry run is seen by a read in the same dry run, raised by 100, and the balance afterwards is the genesis balance again |
| Scenarios.MintWorks | drink/src/sandbox/balance_api.rs:43-55 | the default actor starts at 10^15, and a successful mint of 100 raises it by 100 |
| Scenarios.MakeTransfer | drink/src/sandbox/system_api.rs:74-94 | a transfer signed by the default actor to another account; on success the recipient gains the value and the last event is a balances event |
| Scenarios.RuntimeCallWorks | drink/src/sandbox/system_api.rs:110-122 | the unfunded `[2u8; 32]` starts at 0 and holds 100 after a successful transfer of 100 |
| Scenarios.CurrentEvents | drink/src/sandbox/system_api.rs:124-140 | no events after genesis; after a successful transfer the log ends with a balances event |
| Scenarios.ResettingEvents | drink/src/sandbox/system_api.rs:142-155 | a transfer leaves events, resetting clears them, a second transfer leaves events again |
| Scenarios.TimestampRound | drink/src/sandbox/timestamp_api.rs:45-49 | before setting `t` the timestamp differs from it, after setting it equals it, and the next block is stamped with the clock reading |
| Scenarios.GettingAndSettingTimestamp | drink/src/sandbox/timestamp_api.rs:42-51 | for every `t` from 0 to 9 the timestamp differs from `t` before it is set and equals it after |
| Scenarios.CanUploadCode | drink/src/sandbox/contracts_api.rs:261-275 | a successful upload reports the runtime hash of the uploaded code |

## Left out

- Thread-local storage and `RefCell` borrowing. Each sandbox owns its externalities object. Re-entrant borrowing, which would panic, is not modelled.
- The wall clock. Each reading is a parameter. The "Time went backwards" panic cannot arise.
- Pallet internals (frame_system, pallet_balances, pallet_timestamp, pallet_contracts) are opaque functions. Only the effects the repository's tests assert are stated, as laws.
  - The contract tests `can_deploy_contract` and `can_call_contract` assert event contents that pallet_contracts produces, so they are not modelled.
- Genesis items that no sandbox operation reads are not modelled: the system pallet's block-hash entries and the balances pallet's total issuance. Only the default actor's balance is stored.
- System::initialize: of its effects, only the block number and parent hash are modelled. The digest, the execution phase and the extrinsic-index bookkeeping are left out. `note_finished_initialize` only changes the execution phase, so it is the identity here.
- System::finalize: its storage effects (removing per-block items) are not modelled. Only the hash it returns is modelled, as `Runtime.systemFinalize`.
- Weights, gas, fees and storage deposits are opaque parts of the pallets' results.
- The timestamp pallet's once-per-block `DidUpdate` flag and its check in `on_finalize` are not modelled. That hook is opaque and may only change the pallet's own storage.
- `get_metadata`, `default_actor` as a function, and `convert_account_to_origin`. They are configuration data or conversions handled by the runtime; the default actor is a field of `Config`.
- `commit_all` is taken never to fail. The model has no storage-root computation that could fail, so the "Failed to commit changes" panic cannot arise.
- Extensions are stored. The dry run does not roll them back, and neither does the source.
- Minimal.DryRun takes one closure. In the source, the action is any sequence of sandbox calls; the model composes them into one function of the storage.
- `Sandbox` is a struct over a configuration in `sandbox.rs`. The balance and block-building operations are methods of that struct (balance_api.rs:7, runtime_api.rs:8). The system, timestamp and contracts facades are blanket implementations for any type `T: Sandbox`, a trait with a `Runtime` type (system_api.rs:37, timestamp_api.rs:24, contracts_api.rs:115); that trait is not part of this model. The model has one `Sandbox` class with a `Config`, and every facade takes it.
- BlockBuilder.ApplyHooks: the seven calls of `initialize_block` run as a loop over their list rather than as seven statements. The list is the source's call order.
- RuntimeApi.BuildBlocks: the properties of `n` builds are proved by this method's loop invariants, not by lemmas about `BuildBlocksOf`.
- Panics other than the invalid code hash, such as `unwrap` on a failed mint in a scenario, are not modelled. The scenario returns the result, and its promise covers the case where the step succeeded.
