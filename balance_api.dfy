/**
 * The balance facade: minting into an account and reading an account's free balance, each run
 * inside `execute_with`.
 */
module BalanceApi {
  import opened Wrappers
  import opened Chain
  import opened Runtime
  import Sandbox

  /** `mint_into`: mints `amount` into `who` and keeps the effects; with a runtime whose mints credit
      exactly the amount minted, a successful mint raises the free balance by `amount`. */
  method MintInto(sandbox: Sandbox.Sandbox, who: AccountId, amount: Balance) returns (result: Result<Balance, DispatchError>)
    modifies sandbox.ext`overlay
    ensures (sandbox.View(), result) == sandbox.config.runtime.mint(who, amount, old(sandbox.View()))
    ensures MintLaw(sandbox.config.runtime) && result.Ok? ==>
      FreeBalanceOf(sandbox.View(), who) == FreeBalanceOf(old(sandbox.View()), who) + amount
  {
    var rt := sandbox.config.runtime;
    ghost var v := sandbox.View();
    result := sandbox.ExecuteWith(w => rt.mint(who, amount, w));
    if MintLaw(rt) && result.Ok? {
      assert MintSucceeds(rt, who, amount, v);
    }
  }

  /** `free_balance`: reads the free balance of `who` and changes nothing. */
  method FreeBalance(sandbox: Sandbox.Sandbox, who: AccountId) returns (balance: Balance)
    modifies sandbox.ext`overlay
    ensures balance == FreeBalanceOf(old(sandbox.View()), who)
    ensures sandbox.View() == old(sandbox.View())
  {
    balance := sandbox.ExecuteWith(v => (v, FreeBalanceOf(v, who)));
  }

  /** Two successful mints into one account credit it with their sum. */
  lemma MintsAdd(rt: Runtime, who: AccountId, x: Balance, y: Balance, v: ChainView)
    requires MintLaw(rt)
    requires MintSucceeds(rt, who, x, v)
    requires MintSucceeds(rt, who, y, rt.mint(who, x, v).0)
    ensures FreeBalanceOf(rt.mint(who, y, rt.mint(who, x, v).0).0, who) == FreeBalanceOf(v, who) + x + y
  {
  }
}
