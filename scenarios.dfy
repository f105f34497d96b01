/**
 * The repository's own scenarios, each run on a fresh sandbox of the minimal runtime. A step the
 * scenario unwraps is returned instead, and what the scenario asserts is promised for the case
 * where that step succeeded; the pallets' behaviour enters through the laws each scenario requires of them.
 */
module Scenarios {
  import opened Wrappers
  import opened Chain
  import opened Runtime
  import opened SandboxConfig
  import Minimal
  import Sandbox
  import SystemApi
  import BalanceApi
  import TimestampApi
  import RuntimeApi
  import ContractsApi

  /** `dry_run_works`: a mint inside a dry run is visible to a read in the same dry run and
      gone afterwards. */
  method DryRunWorks(rt: Runtime, now: Moment)
    returns (balance: Balance, minted: Result<Balance, DispatchError>, dryRunBalance: Balance, balanceAfter: Balance)
    requires MintLaw(rt)
    ensures balance == INITIAL_BALANCE
    ensures minted.Ok? ==> dryRunBalance == balance + 100
    ensures balanceAfter == balance
  {
    var sandbox := new Sandbox.Sandbox(MinimalConfig(rt), now);
    Minimal.MinimalGenesis(rt, now);
    var actor := DEFAULT_ACTOR;
    balance := BalanceApi.FreeBalance(sandbox, actor);
    ghost var v := sandbox.View();
    var outcome := sandbox.DryRun(w => var (after, r) := rt.mint(actor, 100, w); (after, (r, FreeBalanceOf(after, actor))));
    minted := outcome.0;
    dryRunBalance := outcome.1;
    if minted.Ok? {
      assert MintSucceeds(rt, actor, 100, v);
    }
    balanceAfter := BalanceApi.FreeBalance(sandbox, actor);
  }

  /** `mint_works`: minting 100 into the default actor raises its free balance by 100. */
  method MintWorks(rt: Runtime, now: Moment) returns (balance: Balance, minted: Result<Balance, DispatchError>, balanceAfter: Balance)
    requires MintLaw(rt)
    ensures balance == INITIAL_BALANCE
    ensures minted.Ok? ==> balanceAfter == balance + 100
  {
    var sandbox := new Sandbox.Sandbox(MinimalConfig(rt), now);
    Minimal.MinimalGenesis(rt, now);
    balance := BalanceApi.FreeBalance(sandbox, DEFAULT_ACTOR);
    minted := BalanceApi.MintInto(sandbox, DEFAULT_ACTOR, 100);
    balanceAfter := BalanceApi.FreeBalance(sandbox, DEFAULT_ACTOR);
  }

  /** `make_transfer`: a transfer signed by the default actor to an account other than it. */
  method MakeTransfer(sandbox: Sandbox.Sandbox, dest: AccountId, value: Balance) returns (result: DispatchResult)
    requires dest != sandbox.config.defaultActor
    modifies sandbox.ext`overlay
    ensures (sandbox.View(), result)
      == sandbox.config.runtime.dispatch(BalancesTransferAllowDeath(dest, value), Signed(sandbox.config.defaultActor), old(sandbox.View()))
    ensures TransferLaw(sandbox.config.runtime) && result.Ok? ==>
      && FreeBalanceOf(sandbox.View(), dest) == FreeBalanceOf(old(sandbox.View()), dest) + value
      && EventsOf(sandbox.View()) != []
      && EventsOf(sandbox.View())[|EventsOf(sandbox.View())| - 1].event.pallet == Balances
  {
    result := SystemApi.RuntimeCall(sandbox, BalancesTransferAllowDeath(dest, value), Signed(sandbox.config.defaultActor));
  }

  /** `runtime_call_works`: a transfer of 100 to the unfunded account `[2u8; 32]` credits it with 100. */
  method RuntimeCallWorks(rt: Runtime, now: Moment) returns (balance: Balance, result: DispatchResult, balanceAfter: Balance)
    requires TransferLaw(rt)
    ensures balance == 0
    ensures result.Ok? ==> balanceAfter == balance + 100
  {
    var sandbox := new Sandbox.Sandbox(MinimalConfig(rt), now);
    var recipient := Filled32(2);
    assert Filled32(1)[0] != Filled32(2)[0];
    Minimal.GenesisState(MinimalConfig(rt), now);
    balance := BalanceApi.FreeBalance(sandbox, recipient);
    result := MakeTransfer(sandbox, recipient, 100);
    balanceAfter := BalanceApi.FreeBalance(sandbox, recipient);
  }

  /** `current_events`: no events right after genesis; after a transfer the last event is a
      balances event. */
  method CurrentEvents(rt: Runtime, now: Moment)
    returns (eventsBefore: seq<EventRecord>, result: DispatchResult, eventsAfter: seq<EventRecord>)
    requires TransferLaw(rt)
    ensures eventsBefore == []
    ensures result.Ok? ==> eventsAfter != [] && eventsAfter[|eventsAfter| - 1].event.pallet == Balances
  {
    var sandbox := new Sandbox.Sandbox(MinimalConfig(rt), now);
    assert Filled32(1)[0] != Filled32(2)[0];
    Minimal.MinimalGenesis(rt, now);
    eventsBefore := SystemApi.Events(sandbox);
    result := MakeTransfer(sandbox, Filled32(2), 1);
    eventsAfter := SystemApi.Events(sandbox);
  }

  /** `resetting_events`: a transfer leaves events, resetting clears them, and a second transfer
      leaves events again. */
  method ResettingEvents(rt: Runtime, now: Moment)
    returns (first: DispatchResult, eventsAfterFirst: seq<EventRecord>, eventsAfterReset: seq<EventRecord>,
             second: DispatchResult, eventsAfterSecond: seq<EventRecord>)
    requires TransferLaw(rt)
    ensures first.Ok? ==> eventsAfterFirst != []
    ensures eventsAfterReset == []
    ensures second.Ok? ==> eventsAfterSecond != []
  {
    var sandbox := new Sandbox.Sandbox(MinimalConfig(rt), now);
    var recipient := Filled32(3);
    assert Filled32(1)[0] != Filled32(3)[0];
    first := MakeTransfer(sandbox, recipient, 1);
    eventsAfterFirst := SystemApi.Events(sandbox);
    SystemApi.ResetEvents(sandbox);
    eventsAfterReset := SystemApi.Events(sandbox);
    second := MakeTransfer(sandbox, recipient, 1);
    eventsAfterSecond := SystemApi.Events(sandbox);
  }

  /** One round of `getting_and_setting_timestamp_works` on a sandbox with the minimal runtime's hooks:
      the timestamp read before setting `t` differs from it, the one read after equals it, and the
      block built afterwards stamps the wall clock reading. */
  method TimestampRound(sandbox: Sandbox.Sandbox, t: Moment, reading: Moment) returns (b: Moment, a: Moment)
    requires sandbox.config.hooks.BuilderHooks?
    requires t < 10 <= reading && TimestampOf(sandbox.View()) >= 10
    modifies sandbox.ext`overlay
    ensures b != t && a == t
    ensures TimestampOf(sandbox.View()) == reading
  {
    b := TimestampApi.GetTimestamp(sandbox);
    TimestampApi.SetTimestamp(sandbox, t);
    a := TimestampApi.GetTimestamp(sandbox);
    var _ := RuntimeApi.BuildBlock(sandbox, reading);
  }

  /** `getting_and_setting_timestamp_works`: for each of the timestamps 0 to 9, the current timestamp
      differs from it before it is set and equals it afterwards, with a block built between rounds.
      The wall clock readings at genesis and at each block are at least 10. */
  method GettingAndSettingTimestamp(rt: Runtime, now: Moment, clock: nat -> Moment)
    returns (before: seq<Moment>, after: seq<Moment>)
    requires now >= 10
    requires forall i :: clock(i) >= 10
    ensures |before| == 10 && |after| == 10
    ensures forall t :: 0 <= t < 10 ==> before[t] != t && after[t] == t
  {
    var sandbox := new Sandbox.Sandbox(MinimalConfig(rt), now);
    Minimal.GenesisState(MinimalConfig(rt), now);
    before, after := [], [];
    for t := 0 to 10
      invariant fresh(sandbox.ext) && sandbox.config.hooks.BuilderHooks?
      invariant |before| == t && |after| == t
      invariant forall i :: 0 <= i < t ==> before[i] != i && after[i] == i
      invariant TimestampOf(sandbox.View()) >= 10
    {
      var b, a := TimestampRound(sandbox, t, clock(t));
      before, after := before + [b], after + [a];
    }
  }

  /** `can_upload_code`: uploading code reports the runtime hash of that code. */
  method CanUploadCode(rt: Runtime, now: Moment, wasm: seq<bv8>) returns (hash: Hash, result: CodeUploadResult)
    requires UploadLaw(rt)
    ensures result.Ok? ==> result.value.codeHash == hash
  {
    var sandbox := new Sandbox.Sandbox(MinimalConfig(rt), now);
    hash := rt.hashing(wasm);
    result := ContractsApi.UploadContract(sandbox, wasm, DEFAULT_ACTOR, None, Enforced);
  }
}
