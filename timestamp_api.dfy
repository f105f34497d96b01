/**
 * The timestamp facade: reading and setting the timestamp of the current block, each run inside
 * `execute_with`.
 */
module TimestampApi {
  import opened Chain
  import Sandbox

  /** `get_timestamp`: reads the timestamp of the current block and changes nothing. */
  method GetTimestamp(sandbox: Sandbox.Sandbox) returns (now: Moment)
    modifies sandbox.ext`overlay
    ensures now == TimestampOf(old(sandbox.View()))
    ensures sandbox.View() == old(sandbox.View())
  {
    now := sandbox.ExecuteWith(v => (v, TimestampOf(v)));
  }

  /** `set_timestamp`: the timestamp becomes `now`; height, parent hash, events and balances stay. */
  method SetTimestamp(sandbox: Sandbox.Sandbox, now: Moment)
    modifies sandbox.ext`overlay
    ensures sandbox.View() == WithTimestamp(old(sandbox.View()), now)
    ensures TimestampOf(sandbox.View()) == now
    ensures BlockNumberOf(sandbox.View()) == BlockNumberOf(old(sandbox.View()))
    ensures EventsOf(sandbox.View()) == EventsOf(old(sandbox.View()))
    ensures forall who :: FreeBalanceOf(sandbox.View(), who) == FreeBalanceOf(old(sandbox.View()), who)
  {
    var _ := sandbox.ExecuteWith(v => (WithTimestamp(v, now), ()));
  }

  /** A later set overrides an earlier one: only the last timestamp set is observed. */
  lemma LastSetWins(v: ChainView, first: Moment, second: Moment)
    ensures WithTimestamp(WithTimestamp(v, first), second) == WithTimestamp(v, second)
  {
  }
}
