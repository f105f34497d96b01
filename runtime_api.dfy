/**
 * Building empty blocks: close the current block, advance the height (saturating at the `u32`
 * maximum) and open the next block on the closed block's hash.
 */
module RuntimeApi {
  import opened Wrappers
  import opened Chain
  import opened SandboxConfig
  import Sandbox

  /** The storage after `build_block`, and the height it returns; `now` is the wall clock reading
      the new block's initialization takes. */
  function BuildBlockOf(c: Config, v: ChainView, now: Moment): (r: (ChainView, BlockNumber))
    ensures r.1 == SaturatingInc(BlockNumberOf(v))
    ensures c.hooks.DefaultHooks? ==> r.0 == v
    ensures c.hooks.BuilderHooks? ==>
      && BlockNumberOf(r.0) == r.1
      && ParentHashOf(r.0) == FinalizeBlockOf(c, v, BlockNumberOf(v)).1.value
      && EventsOf(r.0) == []
      && TimestampOf(r.0) == now
      && forall who :: FreeBalanceOf(r.0, who) == FreeBalanceOf(v, who)
  {
    var current := BlockNumberOf(v);
    var (finalized, hash) := FinalizeBlockOf(c, v, current);
    var next := SaturatingInc(current);
    (InitializeBlockOf(c, finalized, next, hash.value, now), next)
  }

  /** `build_block`: the closure it runs inside `execute_with`, against the sandbox's externalities. */
  method BuildBlock(sandbox: Sandbox.Sandbox, now: Moment) returns (height: BlockNumber)
    modifies sandbox.ext`overlay
    ensures (sandbox.View(), height) == BuildBlockOf(sandbox.config, old(sandbox.View()), now)
  {
    var currentBlock := BlockNumberOf(sandbox.View());
    var blockHash := SandboxConfig.FinalizeBlock(sandbox.config, sandbox.ext, currentBlock);
    currentBlock := SaturatingInc(currentBlock);
    SandboxConfig.InitializeBlock(sandbox.config, sandbox.ext, currentBlock, blockHash.value, now);
    height := currentBlock;
  }

  /** The storage after `n` calls of `build_block`, and the height the last call returned (`None`
      when there was none); call `i` (from 0) opens its block at wall clock reading `clock(i)`. */
  function BuildBlocksOf(c: Config, v: ChainView, n: nat, clock: nat -> Moment): (r: (ChainView, Option<BlockNumber>))
  {
    if n == 0 then (v, None)
    else
      var (w, height) := BuildBlockOf(c, BuildBlocksOf(c, v, n - 1, clock).0, clock(n - 1));
      (w, Some(height))
  }

  /** `build_blocks(n)`: `n` calls of `build_block` in sequence; the height the last one returned,
      or the current block number when `n` is 0. With the minimal runtime's hooks the height advances
      by `n`, saturating at the `u32` maximum; with the default hooks nothing is written and every
      call reports one past the unchanged height. No balance moves either way. */
  method BuildBlocks(sandbox: Sandbox.Sandbox, n: U32, clock: nat -> Moment) returns (height: BlockNumber)
    modifies sandbox.ext`overlay
    ensures var (w, last) := BuildBlocksOf(sandbox.config, old(sandbox.View()), n, clock);
      sandbox.View() == w && height == if last.Some? then last.value else BlockNumberOf(w)
    ensures sandbox.config.hooks.BuilderHooks? ==>
      height == SaturatingAdd(BlockNumberOf(old(sandbox.View())), n) && BlockNumberOf(sandbox.View()) == height
    ensures sandbox.config.hooks.DefaultHooks? ==>
      && sandbox.View() == old(sandbox.View())
      && height == if n == 0 then BlockNumberOf(old(sandbox.View())) else SaturatingInc(BlockNumberOf(old(sandbox.View())))
    ensures forall who :: FreeBalanceOf(sandbox.View(), who) == FreeBalanceOf(old(sandbox.View()), who)
  {
    ghost var v := sandbox.View();
    assert v == old(sandbox.View());
    ghost var c := sandbox.config;
    var lastBlock: Option<BlockNumber> := None;
    for i := 0 to n
      invariant (sandbox.View(), lastBlock) == BuildBlocksOf(c, v, i, clock)
      invariant c.hooks.BuilderHooks? ==> BlockNumberOf(sandbox.View()) == SaturatingAdd(BlockNumberOf(v), i)
      invariant c.hooks.BuilderHooks? && lastBlock.Some? ==> lastBlock.value == BlockNumberOf(sandbox.View())
      invariant c.hooks.DefaultHooks? ==> sandbox.View() == v
      invariant c.hooks.DefaultHooks? && lastBlock.Some? ==> lastBlock.value == SaturatingInc(BlockNumberOf(v))
      invariant forall who :: FreeBalanceOf(sandbox.View(), who) == FreeBalanceOf(v, who)
    {
      ghost var before := sandbox.View();
      var built := BuildBlock(sandbox, clock(i));
      BuildBlocksStep(c, v, i, clock, before, sandbox.View(), built);
      lastBlock := Some(built);
    }
    if lastBlock.Some? {
      height := lastBlock.value;
    } else {
      height := BlockNumberOf(sandbox.View());
    }
  }

  /** Building one more block after `i` is building `i + 1` blocks. */
  lemma BuildBlocksStep(c: Config, v: ChainView, i: nat, clock: nat -> Moment,
                        before: ChainView, after: ChainView, built: BlockNumber)
    requires before == BuildBlocksOf(c, v, i, clock).0
    requires (after, built) == BuildBlockOf(c, before, clock(i))
    ensures (after, Some(built)) == BuildBlocksOf(c, v, i + 1, clock)
  {
  }
}
