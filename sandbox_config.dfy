/**
 * `SandboxConfig`: what a sandbox is configured with. A configuration names its runtime, its
 * default actor and that actor's genesis balance, and supplies the two block hooks, either the
 * interface's defaults or, for the minimal runtime, a delegation to `BlockBuilder`.
 */
module SandboxConfig {
  import opened Wrappers
  import Externalities
  import opened Chain
  import opened Runtime
  import BlockBuilder

  /** Which block hooks a configuration provides. */
  datatype BlockHooks =
    | DefaultHooks   // the interface's default bodies
    | BuilderHooks   // `initialize_block` / `finalize_block` delegate to `BlockBuilder`

  datatype Config = Config(hooks: BlockHooks, runtime: Runtime, defaultActor: AccountId, defaultBalance: Balance)

  /** The configuration `create_minimal_runtime!` generates for a runtime. */
  function MinimalConfig(rt: Runtime): (c: Config)
  {
    Config(BuilderHooks, rt, DEFAULT_ACTOR, INITIAL_BALANCE)
  }

  /** The configuration's `initialize_block(height, parent)`, with the wall clock reading `now`:
      the default changes nothing, the minimal runtime's opens the block. */
  function InitializeBlockOf(c: Config, v: ChainView, height: BlockNumber, parent: Hash, now: Moment): (w: ChainView)
    ensures c.hooks.DefaultHooks? ==> w == v
    ensures c.hooks.BuilderHooks? ==>
      && EventsOf(w) == [] && BlockNumberOf(w) == height && ParentHashOf(w) == parent && TimestampOf(w) == now
      && forall who :: FreeBalanceOf(w, who) == FreeBalanceOf(v, who)
  {
    match c.hooks
    case DefaultHooks => v
    case BuilderHooks =>
      BlockBuilder.InitializeSetsHeader(c.runtime, v, height, parent, now);
      BlockBuilder.Initialize(c.runtime, v, height, parent, now)
  }

  /** The configuration's `finalize_block(height)`: it never fails and changes nothing the sandbox
      reads; the default reports the default hash, the minimal runtime's the finalized header's hash. */
  function FinalizeBlockOf(c: Config, v: ChainView, height: BlockNumber): (r: (ChainView, Result<Hash, string>))
    ensures r.1.Ok?
    ensures SameObservables(v, r.0)
    ensures c.hooks.DefaultHooks? ==> r == (v, Ok(DEFAULT_HASH))
    ensures c.hooks.BuilderHooks? ==> r.1 == Ok(c.runtime.systemFinalize(r.0))
  {
    match c.hooks
    case DefaultHooks => (v, Ok(DEFAULT_HASH))
    case BuilderHooks => BlockBuilder.Finalize(c.runtime, v, height)
  }

  /** `initialize_block` run against the live externalities. */
  method InitializeBlock(c: Config, ext: Externalities.TestExternalities<StorageKey, StorageValue>,
                         height: BlockNumber, parent: Hash, now: Moment)
    modifies ext`overlay
    ensures ext.View() == InitializeBlockOf(c, old(ext.View()), height, parent, now)
  {
    match c.hooks
    case DefaultHooks =>
    case BuilderHooks =>
      BlockBuilder.InitializeBlock(ext, c.runtime, height, parent, now);
  }

  /** `finalize_block` run against the live externalities. */
  method FinalizeBlock(c: Config, ext: Externalities.TestExternalities<StorageKey, StorageValue>, height: BlockNumber)
    returns (hash: Result<Hash, string>)
    modifies ext`overlay
    ensures (ext.View(), hash) == FinalizeBlockOf(c, old(ext.View()), height)
  {
    match c.hooks
    case DefaultHooks =>
      hash := Ok(DEFAULT_HASH);
    case BuilderHooks =>
      hash := BlockBuilder.FinalizeBlock(ext, c.runtime, height);
  }
}
