/**
 * The system facade: the chain height, the events of the current block, resetting them, and
 * dispatching a runtime call; each runs inside `execute_with`.
 */
module SystemApi {
  import Chain
  import Runtime
  import Sandbox

  /** `block_number`: reads the height of the chain and changes nothing. */
  method BlockNumber(sandbox: Sandbox.Sandbox) returns (height: Chain.BlockNumber)
    modifies sandbox.ext`overlay
    ensures height == Chain.BlockNumberOf(old(sandbox.View()))
    ensures sandbox.View() == old(sandbox.View())
  {
    height := sandbox.ExecuteWith(v => (v, Chain.BlockNumberOf(v)));
  }

  /** `events`: reads the events of the current block so far and changes nothing. */
  method Events(sandbox: Sandbox.Sandbox) returns (events: seq<Chain.EventRecord>)
    modifies sandbox.ext`overlay
    ensures events == Chain.EventsOf(old(sandbox.View()))
    ensures sandbox.View() == old(sandbox.View())
  {
    events := sandbox.ExecuteWith(v => (v, Chain.EventsOf(v)));
  }

  /** `reset_events`: empties the event log; the height, parent hash, timestamp and balances stay. */
  method ResetEvents(sandbox: Sandbox.Sandbox)
    modifies sandbox.ext`overlay
    ensures sandbox.View() == old(sandbox.View()) - {Chain.SystemEvents}
    ensures Chain.EventsOf(sandbox.View()) == []
    ensures Chain.BlockNumberOf(sandbox.View()) == Chain.BlockNumberOf(old(sandbox.View()))
    ensures Chain.TimestampOf(sandbox.View()) == Chain.TimestampOf(old(sandbox.View()))
    ensures forall who :: Chain.FreeBalanceOf(sandbox.View(), who) == Chain.FreeBalanceOf(old(sandbox.View()), who)
  {
    var _ := sandbox.ExecuteWith(v => (Chain.WithEventsReset(v), ()));
  }

  /** `runtime_call`: dispatches `call` from `origin` and keeps its effects. A successful balance
      transfer from a signed account to another credits the recipient with the value and ends the
      event log with a balances event. */
  method RuntimeCall(sandbox: Sandbox.Sandbox, call: Runtime.RuntimeCall, origin: Runtime.Origin)
    returns (result: Runtime.DispatchResult)
    modifies sandbox.ext`overlay
    ensures (sandbox.View(), result) == sandbox.config.runtime.dispatch(call, origin, old(sandbox.View()))
    ensures Runtime.TransferLaw(sandbox.config.runtime) && result.Ok? && call.BalancesTransferAllowDeath?
            && origin.Signed? && origin.who != call.dest ==>
      && Chain.FreeBalanceOf(sandbox.View(), call.dest) == Chain.FreeBalanceOf(old(sandbox.View()), call.dest) + call.value
      && Chain.EventsOf(sandbox.View()) != []
      && Chain.EventsOf(sandbox.View())[|Chain.EventsOf(sandbox.View())| - 1].event.pallet == Chain.Balances
  {
    var rt := sandbox.config.runtime;
    ghost var v := sandbox.View();
    result := sandbox.ExecuteWith(w => rt.dispatch(call, origin, w));
    if Runtime.TransferLaw(rt) && result.Ok? && call.BalancesTransferAllowDeath? && origin.Signed? && origin.who != call.dest {
      assert Runtime.TransferSucceeds(rt, origin.who, call.dest, call.value, v);
    }
  }

  /** Resetting the events twice is resetting them once. */
  lemma ResetEventsIdempotent(v: Chain.ChainView)
    ensures Chain.WithEventsReset(Chain.WithEventsReset(v)) == Chain.WithEventsReset(v)
  {
  }
}
