/**
 * The pallets the sandbox drives but does not implement: balances, call dispatch,
 * the pallet block hooks, system finalization, hashing and the contracts pallet.
 * Each enters the model as a function of the storage it is run against; the effects
 * the repository's tests rely on are stated as laws about those functions.
 */
module Runtime {
  import opened Wrappers
  import opened Chain

  /** The calling identity of a dispatched call. */
  datatype Origin = Root | Signed(who: AccountId) | Unsigned

  /** A dispatchable call: a balances transfer, or any other call in its encoded form. */
  datatype RuntimeCall =
    | BalancesTransferAllowDeath(dest: AccountId, value: Balance)
    | OtherCall(pallet: Pallet, encoded: seq<bv8>)

  datatype DispatchError =
    | BadOrigin
    | Module(pallet: Pallet, index: nat)
    | Arithmetic
    | Token
    | Other(message: string)

  /** `Weight`: two `u64` components. */
  datatype Weight = Weight(refTime: U64, proofSize: U64)

  datatype PostDispatchInfo = PostDispatchInfo(actualWeight: Option<Weight>, paysFee: bool)

  /** `DispatchResultWithInfo<PostDispatchInfo>`. */
  type DispatchResult = Result<PostDispatchInfo, DispatchError>

  datatype Determinism = Enforced | Relaxed

  /** What code a contract is instantiated from. */
  datatype Code = Upload(bytes: seq<bv8>) | Existing(hash: Hash)

  datatype DebugInfo = UnsafeDebug | SkipDebug
  datatype CollectEvents = UnsafeCollect | SkipCollect

  /** The arguments of `bare_instantiate`. */
  datatype InstantiateRequest = InstantiateRequest(
    origin: AccountId, value: Balance, gasLimit: Weight, storageDepositLimit: Option<Balance>,
    code: Code, data: seq<bv8>, salt: seq<bv8>, debug: DebugInfo, collect: CollectEvents)

  /** The arguments of `bare_call`. */
  datatype CallRequest = CallRequest(
    origin: AccountId, dest: AccountId, value: Balance, gasLimit: Weight, storageDepositLimit: Option<Balance>,
    data: seq<bv8>, debug: DebugInfo, collect: CollectEvents, determinism: Determinism)

  /** The arguments of `bare_upload_code`. */
  datatype UploadRequest = UploadRequest(
    origin: AccountId, code: seq<bv8>, storageDepositLimit: Option<Balance>, determinism: Determinism)

  /** What a contract entry point returned; `reverted` is the REVERT flag. */
  datatype ExecReturnValue = ExecReturnValue(reverted: bool, data: seq<bv8>)

  datatype InstantiateReturnValue = InstantiateReturnValue(result: ExecReturnValue, accountId: AccountId)

  /** The outcome of a contract execution: contract-level failure is data in `result`. */
  datatype ContractResult<R> = ContractResult(
    gasConsumed: Weight, gasRequired: Weight, debugMessage: seq<bv8>,
    result: Result<R, DispatchError>, events: Option<seq<EventRecord>>)

  type ContractInstantiateResult = ContractResult<InstantiateReturnValue>
  type ContractExecResult = ContractResult<ExecReturnValue>

  datatype CodeUploadReturnValue = CodeUploadReturnValue(codeHash: Hash, deposit: Balance)
  type CodeUploadResult = Result<CodeUploadReturnValue, DispatchError>

  /** Which block hook of a pallet runs. */
  datatype HookPhase = OnInitialize | OnFinalize

  /** The foreign behaviour of the configured pallets, each as a function of the storage it runs against. */
  datatype Runtime = Runtime(
    /** `pallet_balances::Pallet::mint_into`. */
    mint: (AccountId, Balance, ChainView) -> (ChainView, Result<Balance, DispatchError>),
    /** `RuntimeCall::dispatch`. */
    dispatch: (RuntimeCall, Origin, ChainView) -> (ChainView, DispatchResult),
    /** `on_initialize` / `on_finalize` of a pallet: changes to that pallet's own storage. */
    palletHook: (Pallet, HookPhase, BlockNumber, ChainView) -> RawChanges,
    /** `System::finalize().hash()`. */
    systemFinalize: ChainView -> Hash,
    /** The runtime's `Hashing::hash`. */
    hashing: seq<bv8> -> Hash,
    bareInstantiate: (InstantiateRequest, ChainView) -> (ChainView, ContractInstantiateResult),
    bareCall: (CallRequest, ChainView) -> (ChainView, ContractExecResult),
    bareUploadCode: (UploadRequest, ChainView) -> (ChainView, CodeUploadResult)
  )

  predicate MintSucceeds(rt: Runtime, who: AccountId, amount: Balance, v: ChainView)
  {
    rt.mint(who, amount, v).1.Ok?
  }

  /** A successful mint raises the account's free balance by exactly the amount minted. */
  ghost predicate MintLaw(rt: Runtime)
  {
    forall who, amount, v :: MintSucceeds(rt, who, amount, v) ==>
      FreeBalanceOf(rt.mint(who, amount, v).0, who) == FreeBalanceOf(v, who) + amount
  }

  predicate TransferSucceeds(rt: Runtime, src: AccountId, dest: AccountId, value: Balance, v: ChainView)
  {
    rt.dispatch(BalancesTransferAllowDeath(dest, value), Signed(src), v).1.Ok?
  }

  /** A successful transfer to another account raises the recipient's free balance by the value
      and leaves an event log whose last entry is a balances event. */
  ghost predicate TransferLaw(rt: Runtime)
  {
    forall src, dest, value, v :: src != dest && TransferSucceeds(rt, src, dest, value, v) ==>
      var after := rt.dispatch(BalancesTransferAllowDeath(dest, value), Signed(src), v).0;
      && FreeBalanceOf(after, dest) == FreeBalanceOf(v, dest) + value
      && EventsOf(after) != []
      && EventsOf(after)[|EventsOf(after)| - 1].event.pallet == Balances
  }

  /** A successful upload reports the runtime hash of the uploaded code as its code hash. */
  ghost predicate UploadLaw(rt: Runtime)
  {
    forall req, v :: rt.bareUploadCode(req, v).1.Ok? ==>
      rt.bareUploadCode(req, v).1.value.codeHash == rt.hashing(req.code)
  }
}
