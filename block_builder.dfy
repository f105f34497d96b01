/**
 * `BlockBuilder` of the minimal runtime: opening a block runs the system and pallet
 * initialization hooks in a fixed order, closing it runs the pallets' finalization
 * hooks in the reverse order and then system finalization, whose header hash it returns.
 */
module BlockBuilder {
  import opened Wrappers
  import Externalities
  import opened Chain
  import opened Runtime

  /** One side-effecting call made while opening or closing a block. */
  datatype Hook =
    | ResetEvents
    | SystemInitialize(height: BlockNumber, parent: Hash)
    | PalletHook(pallet: Pallet, phase: HookPhase, height: BlockNumber)
    | SetTimestamp(now: Moment)
    | NoteFinishedInitialize

  /** The calls of `initialize_block(height, parent)`, in order; `now` is the wall clock in seconds. */
  function InitializeHooks(height: BlockNumber, parent: Hash, now: Moment): (hooks: seq<Hook>)
  {
    [ ResetEvents,
      SystemInitialize(height, parent),
      PalletHook(Balances, OnInitialize, height),
      SetTimestamp(now),
      PalletHook(Timestamp, OnInitialize, height),
      PalletHook(Contracts, OnInitialize, height),
      NoteFinishedInitialize ]
  }

  /** The pallet calls of `finalize_block(height)`, in order. */
  function FinalizeHooks(height: BlockNumber): (hooks: seq<Hook>)
  {
    [ PalletHook(Contracts, OnFinalize, height),
      PalletHook(Timestamp, OnFinalize, height),
      PalletHook(Balances, OnFinalize, height) ]
  }

  /** The pallets whose `phase` hook a call sequence runs, in the order it runs them. */
  function PalletOrder(hooks: seq<Hook>, phase: HookPhase): (order: seq<Pallet>)
  {
    if hooks == [] then []
    else
      var first := if hooks[0].PalletHook? && hooks[0].phase == phase then [hooks[0].pallet] else [];
      first + PalletOrder(hooks[1..], phase)
  }

  function Reverse<T>(s: seq<T>): (r: seq<T>)
    ensures |r| == |s| && forall i :: 0 <= i < |s| ==> r[i] == s[|s| - 1 - i]
  {
    if s == [] then [] else Reverse(s[1..]) + [s[0]]
  }

  /** The order of the lifecycle calls: the event log is reset before anything else runs, the
      system is initialized before any pallet, the timestamp is set before the timestamp pallet's
      hook, pallets initialize as balances, timestamp, contracts and finalize in the exact reverse. */
  lemma HookOrder(height: BlockNumber, parent: Hash, now: Moment)
    ensures var init := InitializeHooks(height, parent, now);
      && init[0] == ResetEvents
      && (forall i :: 1 <= i < |init| ==> !init[i].ResetEvents?)
      && (forall i :: 0 <= i < |init| && init[i].PalletHook? ==> 1 < i && init[i].height == height)
      && init[3] == SetTimestamp(now) && init[4] == PalletHook(Timestamp, OnInitialize, height)
      && PalletOrder(init, OnInitialize) == [Balances, Timestamp, Contracts]
      && PalletOrder(init, OnFinalize) == []
      && PalletOrder(FinalizeHooks(height), OnFinalize) == Reverse(PalletOrder(init, OnInitialize))
  {
    InitializePalletOrder(height, parent, now, OnInitialize);
    InitializePalletOrder(height, parent, now, OnFinalize);
    FinalizePalletOrder(height);
  }

  /** `finalize_block` runs the finalization hooks of contracts, timestamp, balances in that order. */
  lemma FinalizePalletOrder(height: BlockNumber)
    ensures PalletOrder(FinalizeHooks(height), OnFinalize) == [Contracts, Timestamp, Balances]
  {
    var fin := FinalizeHooks(height);
    assert PalletOrder(fin[3..], OnFinalize) == [];
    assert PalletOrder(fin[2..], OnFinalize) == [Balances];
    assert PalletOrder(fin[1..], OnFinalize) == [Timestamp, Balances];
  }

  /** Which pallet hooks `initialize_block` runs: the three initialization hooks, no finalization hook. */
  lemma InitializePalletOrder(height: BlockNumber, parent: Hash, now: Moment, phase: HookPhase)
    ensures PalletOrder(InitializeHooks(height, parent, now), phase)
      == if phase == OnInitialize then [Balances, Timestamp, Contracts] else []
  {
    var init := InitializeHooks(height, parent, now);
    assert PalletOrder(init[7..], phase) == [];
    assert PalletOrder(init[6..], phase) == [];
    if phase == OnInitialize {
      assert PalletOrder(init[5..], phase) == [Contracts];
      assert PalletOrder(init[4..], phase) == [Timestamp, Contracts];
      assert PalletOrder(init[3..], phase) == [Timestamp, Contracts];
      assert PalletOrder(init[2..], phase) == [Balances, Timestamp, Contracts];
      assert PalletOrder(init[1..], phase) == [Balances, Timestamp, Contracts];
    } else {
      assert PalletOrder(init[5..], phase) == [];
      assert PalletOrder(init[4..], phase) == [];
      assert PalletOrder(init[3..], phase) == [];
      assert PalletOrder(init[2..], phase) == [];
      assert PalletOrder(init[1..], phase) == [];
    }
  }

  /** The storage after one lifecycle call: every item the sandbox reads keeps its value except
      the one that call writes, and no call touches an account balance. */
  function RunHook(rt: Runtime, v: ChainView, hook: Hook): (w: ChainView)
    ensures forall who :: FreeBalanceOf(w, who) == FreeBalanceOf(v, who)
    ensures EventsOf(w) == if hook.ResetEvents? then [] else EventsOf(v)
    ensures BlockNumberOf(w) == if hook.SystemInitialize? then hook.height else BlockNumberOf(v)
    ensures ParentHashOf(w) == if hook.SystemInitialize? then hook.parent else ParentHashOf(v)
    ensures TimestampOf(w) == if hook.SetTimestamp? then hook.now else TimestampOf(v)
  {
    match hook
    case ResetEvents => WithEventsReset(v)
    case SystemInitialize(height, parent) => WithHeader(v, height, parent)
    case PalletHook(pallet, phase, height) =>
      var raw := rt.palletHook(pallet, phase, height, v);
      PalletChangesKeepObservables(v, pallet, raw);
      ApplyPalletChanges(v, pallet, raw)
    case SetTimestamp(now) => WithTimestamp(v, now)
    case NoteFinishedInitialize => v
  }

  /** The storage after a sequence of lifecycle calls, run in order. */
  function RunHooks(rt: Runtime, v: ChainView, hooks: seq<Hook>): (w: ChainView)
    ensures forall who :: FreeBalanceOf(w, who) == FreeBalanceOf(v, who)
    ensures (forall i :: 0 <= i < |hooks| ==> !hooks[i].ResetEvents?) ==> EventsOf(w) == EventsOf(v)
    ensures (forall i :: 0 <= i < |hooks| ==> !hooks[i].SystemInitialize?) ==>
      BlockNumberOf(w) == BlockNumberOf(v) && ParentHashOf(w) == ParentHashOf(v)
    ensures (forall i :: 0 <= i < |hooks| ==> !hooks[i].SetTimestamp?) ==> TimestampOf(w) == TimestampOf(v)
    decreases |hooks|
  {
    if hooks == [] then v else RunHooks(rt, RunHook(rt, v, hooks[0]), hooks[1..])
  }

  /** The storage after `initialize_block(height, parent)`, the wall clock reading `now` seconds. */
  function Initialize(rt: Runtime, v: ChainView, height: BlockNumber, parent: Hash, now: Moment): (w: ChainView)
  {
    RunHooks(rt, v, InitializeHooks(height, parent, now))
  }

  /** Running one more call after a sequence is running the longer sequence. */
  lemma {:induction false} RunHooksSnoc(rt: Runtime, v: ChainView, hooks: seq<Hook>, hook: Hook)
    ensures RunHooks(rt, v, hooks + [hook]) == RunHook(rt, RunHooks(rt, v, hooks), hook)
    decreases |hooks|
  {
    if hooks != [] {
      assert (hooks + [hook])[1..] == hooks[1..] + [hook];
      RunHooksSnoc(rt, RunHook(rt, v, hooks[0]), hooks[1..], hook);
    }
  }

  /** Running the first `k` calls of a sequence and then call `k` is running its first `k + 1` calls. */
  lemma RunHooksStep(rt: Runtime, v: ChainView, hooks: seq<Hook>, k: nat)
    requires k < |hooks|
    ensures RunHooks(rt, v, hooks[..k + 1]) == RunHook(rt, RunHooks(rt, v, hooks[..k]), hooks[k])
  {
    var prefix := hooks[..k];
    assert prefix + [hooks[k]] == hooks[..k + 1];
    RunHooksSnoc(rt, v, prefix, hooks[k]);
  }

  /** After `initialize_block(height, parent)` the event log is empty, the block number is `height`,
      the parent hash is `parent`, the timestamp is the wall clock reading, and no balance has moved. */
  lemma InitializeSetsHeader(rt: Runtime, v: ChainView, height: BlockNumber, parent: Hash, now: Moment)
    ensures var w := Initialize(rt, v, height, parent, now);
      && EventsOf(w) == []
      && BlockNumberOf(w) == height
      && ParentHashOf(w) == parent
      && TimestampOf(w) == now
      && forall who :: FreeBalanceOf(w, who) == FreeBalanceOf(v, who)
  {
    var hooks := InitializeHooks(height, parent, now);
    var w := v;
    var k := 0;
    while k < |hooks|
      invariant 0 <= k <= |hooks|
      invariant w == RunHooks(rt, v, hooks[..k])
      invariant forall who :: FreeBalanceOf(w, who) == FreeBalanceOf(v, who)
      invariant k > 0 ==> EventsOf(w) == []
      invariant k > 1 ==> BlockNumberOf(w) == height && ParentHashOf(w) == parent
      invariant k > 3 ==> TimestampOf(w) == now
    {
      RunHooksSnoc(rt, v, hooks[..k], hooks[k]);
      assert hooks[..k + 1] == hooks[..k] + [hooks[k]];
      w := RunHook(rt, w, hooks[k]);
      k := k + 1;
    }
    assert hooks[..k] == hooks;
  }

  /** The storage after `finalize_block(height)`, and its result. */
  function Finalize(rt: Runtime, v: ChainView, height: BlockNumber): (r: (ChainView, Result<Hash, string>))
    ensures r.1 == Ok(rt.systemFinalize(r.0))
    ensures SameObservables(v, r.0)
  {
    var hooks := FinalizeHooks(height);
    var w := RunHooks(rt, v, hooks);
    (w, Ok(rt.systemFinalize(w)))
  }

  /** One lifecycle call, run against the live externalities. */
  method ApplyHook(ext: Externalities.TestExternalities<StorageKey, StorageValue>, rt: Runtime, hook: Hook)
    modifies ext`overlay
    ensures ext.View() == RunHook(rt, old(ext.View()), hook)
  {
    match hook
    case ResetEvents =>
      ext.Kill(SystemEvents);
    case SystemInitialize(height, parent) =>
      ext.Set(SystemNumber, NumberValue(height));
      ext.Set(SystemParentHash, HashValue(parent));
    case PalletHook(pallet, phase, height) =>
      var raw := rt.palletHook(pallet, phase, height, ext.View());
      ext.Write(PalletChanges(pallet, raw));
    case SetTimestamp(now) =>
      ext.Set(TimestampNow, MomentValue(now));
    case NoteFinishedInitialize =>
  }

  /** Runs lifecycle calls against the live externalities, one after another. */
  method ApplyHooks(ext: Externalities.TestExternalities<StorageKey, StorageValue>, rt: Runtime, hooks: seq<Hook>)
    modifies ext`overlay
    ensures ext.View() == RunHooks(rt, old(ext.View()), hooks)
  {
    ghost var v := ext.View();
    for k := 0 to |hooks|
      invariant ext.View() == RunHooks(rt, v, hooks[..k])
    {
      ApplyHook(ext, rt, hooks[k]);
      RunHooksStep(rt, v, hooks, k);
    }
    assert hooks[..|hooks|] == hooks;
  }

  /** `BlockBuilder::initialize_block`: the initialization calls in their fixed order. */
  method InitializeBlock(ext: Externalities.TestExternalities<StorageKey, StorageValue>, rt: Runtime,
                         height: BlockNumber, parent: Hash, now: Moment)
    modifies ext`overlay
    ensures ext.View() == Initialize(rt, old(ext.View()), height, parent, now)
  {
    ApplyHooks(ext, rt, InitializeHooks(height, parent, now));
  }

  /** `BlockBuilder::finalize_block`: the pallet finalization calls, then system finalization,
      whose header hash is the result. */
  method FinalizeBlock(ext: Externalities.TestExternalities<StorageKey, StorageValue>, rt: Runtime,
                       height: BlockNumber)
    returns (hash: Result<Hash, string>)
    modifies ext`overlay
    ensures (ext.View(), hash) == Finalize(rt, old(ext.View()), height)
  {
    ApplyHooks(ext, rt, FinalizeHooks(height));
    hash := Ok(rt.systemFinalize(ext.View()));
  }
}
