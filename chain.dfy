/**
 * The chain state of the minimal runtime as the sandbox observes it: the fixed-width
 * integer types of its configuration, the storage items the model interprets, and
 * reads of those items with the default value a missing item reads as.
 */
module Chain {
  import opened Wrappers
  import Externalities

  const U32_MAX: nat := 0xFFFF_FFFF
  const U64_MAX: nat := 0xFFFF_FFFF_FFFF_FFFF
  const U128_MAX: nat := 0xFFFF_FFFF_FFFF_FFFF_FFFF_FFFF_FFFF_FFFF

  type U32 = n: nat | n <= U32_MAX
  type U64 = n: nat | n <= U64_MAX

  /** Block numbers are `u32` (the runtime's block type is `MockBlockU32`). */
  type BlockNumber = U32
  /** Balances are `u128`. */
  type Balance = n: nat | n <= U128_MAX
  /** Timestamps are `u64`. */
  type Moment = U64

  /** 32 copies of one byte. */
  function Filled32(b: bv8): (s: seq<bv8>)
    ensures |s| == 32 && forall i :: 0 <= i < 32 ==> s[i] == b
  {
    seq(32, _ => b)
  }

  type Bytes32 = s: seq<bv8> | |s| == 32 witness Filled32(0)
  /** `H256`. */
  type Hash = Bytes32
  /** `AccountId32`. */
  type AccountId = Bytes32

  /** `Hash::default()`: 32 zero bytes. */
  const DEFAULT_HASH: Hash := Filled32(0)
  /** The default actor of the minimal runtime, `AccountId32::new([1u8; 32])`. */
  const DEFAULT_ACTOR: AccountId := Filled32(1)
  /** The genesis balance of the default actor. */
  const INITIAL_BALANCE: Balance := 1_000_000_000_000_000

  /** `saturating_inc` on a `u32` block number. */
  function SaturatingInc(n: BlockNumber): (r: BlockNumber)
    ensures n < U32_MAX ==> r == n + 1
    ensures n == U32_MAX ==> r == n
  {
    if n < U32_MAX then n + 1 else n
  }

  /** Adding `k` to a block number, saturating at the `u32` maximum. */
  function SaturatingAdd(n: BlockNumber, k: nat): (r: BlockNumber)
  {
    if n + k <= U32_MAX then n + k else U32_MAX
  }

  /** `H256::decode`: reads the first 32 bytes of the input; fails on fewer. */
  function DecodeHash(bytes: seq<bv8>): (r: Option<Hash>)
    ensures r.Some? <==> |bytes| >= 32
    ensures r.Some? ==> r.value == bytes[..32]
  {
    if |bytes| < 32 then None else Some(bytes[..32])
  }

  /** Decoding a hash's own bytes, followed by anything, gives back the hash. */
  lemma DecodeHashRoundTrip(h: Hash, rest: seq<bv8>)
    ensures DecodeHash(h + rest) == Some(h)
  {
  }

  /** The pallets of the minimal runtime, in `construct_runtime!` order. */
  datatype Pallet = System | Balances | Timestamp | Contracts

  /** A runtime event, tagged with the pallet that deposited it; its payload is not interpreted. */
  datatype RuntimeEvent = RuntimeEvent(pallet: Pallet, payload: seq<bv8>)

  /** An entry of the per-block event log. */
  datatype EventRecord = EventRecord(event: RuntimeEvent, topics: seq<Hash>)

  /** The storage items the model interprets; anything else a pallet keeps is `PalletStorage`. */
  datatype StorageKey =
    | SystemNumber
    | SystemParentHash
    | SystemEvents
    | SystemAccount(who: AccountId)
    | TimestampNow
    | PalletStorage(pallet: Pallet, key: seq<bv8>)

  datatype StorageValue =
    | NumberValue(number: BlockNumber)
    | HashValue(hash: Hash)
    | EventsValue(records: seq<EventRecord>)
    | BalanceValue(free: Balance)
    | MomentValue(moment: Moment)
    | RawValue(bytes: seq<bv8>)

  /** The chain storage as every read observes it. */
  type ChainView = map<StorageKey, StorageValue>

  /** Changes a pallet makes to its own, uninterpreted storage. */
  type RawChanges = map<seq<bv8>, Option<seq<bv8>>>

  /** `System::block_number()`; 0 when never set. */
  function BlockNumberOf(v: ChainView): (height: BlockNumber)
  {
    if SystemNumber in v && v[SystemNumber].NumberValue? then v[SystemNumber].number else 0
  }

  /** `System::parent_hash()`; the default hash when never set. */
  function ParentHashOf(v: ChainView): (parent: Hash)
  {
    if SystemParentHash in v && v[SystemParentHash].HashValue? then v[SystemParentHash].hash else DEFAULT_HASH
  }

  /** `System::events()`; empty when never set. */
  function EventsOf(v: ChainView): (events: seq<EventRecord>)
  {
    if SystemEvents in v && v[SystemEvents].EventsValue? then v[SystemEvents].records else []
  }

  /** The free balance of an account; 0 for an unknown account. */
  function FreeBalanceOf(v: ChainView, who: AccountId): (free: Balance)
  {
    if SystemAccount(who) in v && v[SystemAccount(who)].BalanceValue? then v[SystemAccount(who)].free else 0
  }

  /** `Timestamp::get()`; 0 when never set. */
  function TimestampOf(v: ChainView): (now: Moment)
  {
    if TimestampNow in v && v[TimestampNow].MomentValue? then v[TimestampNow].moment else 0
  }

  /** Two views agree on every item the sandbox's read operations report. */
  ghost predicate SameObservables(v: ChainView, w: ChainView)
  {
    && BlockNumberOf(v) == BlockNumberOf(w)
    && ParentHashOf(v) == ParentHashOf(w)
    && EventsOf(v) == EventsOf(w)
    && TimestampOf(v) == TimestampOf(w)
    && (forall who :: FreeBalanceOf(v, who) == FreeBalanceOf(w, who))
  }

  /** `System::reset_events`: the event log is emptied; every other item read keeps its value. */
  function WithEventsReset(v: ChainView): (w: ChainView)
    ensures EventsOf(w) == []
    ensures BlockNumberOf(w) == BlockNumberOf(v) && ParentHashOf(w) == ParentHashOf(v)
    ensures TimestampOf(w) == TimestampOf(v)
    ensures forall who :: FreeBalanceOf(w, who) == FreeBalanceOf(v, who)
  {
    v - {SystemEvents}
  }

  /** The header items `System::initialize` writes: the block number and the parent hash. */
  function WithHeader(v: ChainView, height: BlockNumber, parent: Hash): (w: ChainView)
    ensures BlockNumberOf(w) == height && ParentHashOf(w) == parent
    ensures EventsOf(w) == EventsOf(v) && TimestampOf(w) == TimestampOf(v)
    ensures forall who :: FreeBalanceOf(w, who) == FreeBalanceOf(v, who)
  {
    v[SystemNumber := NumberValue(height)][SystemParentHash := HashValue(parent)]
  }

  /** `Timestamp::set_timestamp`: the stored time becomes `now`; every other item read keeps its value. */
  function WithTimestamp(v: ChainView, now: Moment): (w: ChainView)
    ensures TimestampOf(w) == now
    ensures BlockNumberOf(w) == BlockNumberOf(v) && ParentHashOf(w) == ParentHashOf(v)
    ensures EventsOf(w) == EventsOf(v)
    ensures forall who :: FreeBalanceOf(w, who) == FreeBalanceOf(v, who)
  {
    v[TimestampNow := MomentValue(now)]
  }

  /** The storage keys a pallet's raw changes touch. */
  function PalletChanges(pallet: Pallet, raw: RawChanges): (changes: Externalities.Changes<StorageKey, StorageValue>)
  {
    map rk | rk in raw :: PalletStorage(pallet, rk) := if raw[rk].Some? then Some(RawValue(raw[rk].value)) else None
  }

  /** Applies a pallet's changes to its own storage, leaving every other item as it was. */
  function ApplyPalletChanges(v: ChainView, pallet: Pallet, raw: RawChanges): (w: ChainView)
    ensures forall k: StorageKey :: !k.PalletStorage? ==> Externalities.Lookup(w, k) == Externalities.Lookup(v, k)
  {
    Externalities.Overlaid(v, PalletChanges(pallet, raw))
  }

  /** A pallet's changes to its own storage change nothing the sandbox's read operations report. */
  lemma PalletChangesKeepObservables(v: ChainView, pallet: Pallet, raw: RawChanges)
    ensures SameObservables(v, ApplyPalletChanges(v, pallet, raw))
  {
  }
}
