/**
 * The sandbox state `impl_sandbox_config!` generates for a runtime: the externalities built at
 * genesis, `execute_with`, the dry run that restores the storage backend afterwards, and the
 * extension registry.
 */
module Minimal {
  import Externalities
  import opened Chain
  import opened SandboxConfig

  /** A closure run against the chain storage: the storage it leaves and the value it returns. */
  type Action<R> = ChainView -> (ChainView, R)

  type Ext = Externalities.TestExternalities<StorageKey, StorageValue>

  /** The genesis storage: the balances genesis funds the default actor and nobody else. */
  function GenesisStorage(actor: AccountId, balance: Balance): (s: ChainView)
    ensures FreeBalanceOf(s, actor) == balance
    ensures forall who :: who != actor ==> FreeBalanceOf(s, who) == 0
    ensures EventsOf(s) == [] && BlockNumberOf(s) == 0 && TimestampOf(s) == 0
  {
    map[SystemAccount(actor) := BalanceValue(balance)]
  }

  /** The storage every read observes once genesis is done: block 1 opened on the genesis storage
      with the default parent hash, at wall clock reading `now`. */
  function GenesisView(c: Config, now: Moment): (w: ChainView)
  {
    InitializeBlockOf(c, GenesisStorage(c.defaultActor, c.defaultBalance), 1, DEFAULT_HASH, now)
  }

  /** After genesis only the default actor holds funds, exactly its configured balance, and the event
      log is empty; with the minimal runtime's hooks, block 1 is open on the default parent hash and
      the timestamp is the wall clock reading. The `DefaultHooks` clause is hypothetical: the
      generated configuration always installs the minimal runtime's hooks, and a hand-written
      configuration builds its own genesis; the clause says what this genesis gives with hooks that
      write nothing. */
  lemma GenesisState(c: Config, now: Moment)
    ensures var w := GenesisView(c, now);
      && FreeBalanceOf(w, c.defaultActor) == c.defaultBalance
      && (forall who :: who != c.defaultActor ==> FreeBalanceOf(w, who) == 0)
      && EventsOf(w) == []
      && (c.hooks.BuilderHooks? ==> BlockNumberOf(w) == 1 && ParentHashOf(w) == DEFAULT_HASH && TimestampOf(w) == now)
      && (c.hooks.DefaultHooks? ==> BlockNumberOf(w) == 0 && TimestampOf(w) == 0)
  {
  }

  /** The minimal runtime's genesis: the default actor `[1u8; 32]` holds 10^15 and block 1 is open. */
  lemma MinimalGenesis(rt: Runtime.Runtime, now: Moment)
    ensures var w := GenesisView(MinimalConfig(rt), now);
      && FreeBalanceOf(w, DEFAULT_ACTOR) == 1_000_000_000_000_000
      && (forall i :: 0 <= i < 32 ==> DEFAULT_ACTOR[i] == 1)
      && BlockNumberOf(w) == 1 && ParentHashOf(w) == DEFAULT_HASH
      && EventsOf(w) == []
  {
  }

  /** Builds the externalities: the genesis storage as the backend, then block 1 initialized inside
      `execute_with`, whose writes stay pending in the overlay. */
  method Genesis(c: Config, now: Moment) returns (ext: Ext)
    ensures fresh(ext)
    ensures ext.backend == GenesisStorage(c.defaultActor, c.defaultBalance)
    ensures ext.View() == GenesisView(c, now)
    ensures ext.extensions == map[]
  {
    ext := new Externalities.TestExternalities(GenesisStorage(c.defaultActor, c.defaultBalance));
    SandboxConfig.InitializeBlock(c, ext, 1, DEFAULT_HASH, now);
  }

  /** `dry_run`: back up the storage with pending changes applied, run the action, flush what it left
      pending, and put the backup back as the backend. Only the action's result survives. */
  method DryRun<R>(ext: Ext, action: Action<R>) returns (r: R)
    modifies ext`backend, ext`overlay
    ensures r == action(old(ext.View())).1
    ensures ext.View() == old(ext.View())
    ensures ext.backend == old(ext.View()) && ext.overlay == map[]
  {
    var backup := ext.AsBackend();
    r := ext.ExecuteWith(action);
    ext.CommitAll();
    ext.backend := backup;
    Externalities.LookupExtensional(ext.View(), backup);
  }
}
