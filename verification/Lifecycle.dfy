/** Statuses and block arithmetic shared by the simulated delegators and
    validators: cmd/txsimulation/lifecycle/lifecycle.go. */
module Lifecycle {
  import opened Arith
  import opened Common

  datatype Status = Pending | Queued | Active | ExitSignalled | Withdrawn

  function Rank(s: Status): nat {
    match s
    case Pending => 0
    case Queued => 1
    case Active => 2
    case ExitSignalled => 3
    case Withdrawn => 4
  }

  datatype Receipt = Receipt(block: nat, reverted: bool)

  datatype Delay = Delay(epochs: nat, blocks: nat)

  datatype Config = Config(
    queueDelay: Delay, startBlock: nat, stakingPeriods: nat, withdrawDelay: Delay,
    epochLength: nat, cooldownPeriod: nat)

  /** uint32 arithmetic. */
  function Wrap(n: int): nat { n % U32 }

  function QueueBlock(c: Config): nat {
    Wrap(c.startBlock + c.queueDelay.blocks + c.queueDelay.epochs * c.epochLength)
  }

  /** A zero period length is a division by zero, unless the delegation never ends. */
  predicate ExitBlockPanics(c: Config, periodLength: nat) {
    c.stakingPeriods != U32_MAX && periodLength == 0
  }

  function MinExitBlock(c: Config, activatedBlock: nat, periodLength: nat): nat
    requires !ExitBlockPanics(c, periodLength)
  {
    if c.stakingPeriods == U32_MAX then U32_MAX
    else if U32_MAX / periodLength <= c.stakingPeriods then U32_MAX
    else Wrap(activatedBlock + Wrap(c.stakingPeriods * periodLength))
  }

  function MinWithdrawBlock(c: Config, exitBlock: nat): nat {
    Wrap(exitBlock + c.withdrawDelay.blocks + c.withdrawDelay.epochs * c.epochLength)
  }

  // ---------- the three blocks, written out ----------

  /** The block from which an exit may be signalled: the last uint32 when the staking never ends or its
      periods do not fit, the end of the last period otherwise. */
  ghost predicate ExitBlockIs(c: Config, activatedBlock: nat, periodLength: nat, block: nat) {
    if c.stakingPeriods == 4294967295 || (c.stakingPeriods + 1) * periodLength > 4294967295 then block == 4294967295
    else WrapsTo(activatedBlock + c.stakingPeriods * periodLength, block)
  }

  /** `block` is what a uint32 keeps of the sum: the sum itself if it fits. */
  ghost predicate WrapsTo(sum: nat, block: nat) {
    block < 4294967296 && (sum < 4294967296 ==> block == sum) && (sum - block) % 4294967296 == 0
  }

  lemma WrapIs(sum: nat)
    ensures WrapsTo(sum, Wrap(sum))
  {
    assert sum == (sum / U32) * U32 + Wrap(sum);
    ZeroRemainder(sum / U32);
  }

  lemma ZeroRemainder(q: nat)
    ensures (q * 4294967296) % 4294967296 == 0
  {
  }

  lemma FitsExactly(c: Config, periodLength: nat)
    requires periodLength > 0
    ensures U32_MAX / periodLength <= c.stakingPeriods <==> (c.stakingPeriods + 1) * periodLength > U32_MAX
  {
    var q, n := U32_MAX / periodLength, c.stakingPeriods + 1;
    DivBounds(U32_MAX, periodLength);
    if q < n { MulMono(periodLength, q + 1, n); } else { MulMono(periodLength, n, q); }
  }

  lemma MinExitBlockIs(c: Config, activatedBlock: nat, periodLength: nat)
    requires !ExitBlockPanics(c, periodLength)
    ensures ExitBlockIs(c, activatedBlock, periodLength, MinExitBlock(c, activatedBlock, periodLength))
  {
    if c.stakingPeriods != U32_MAX {
      FitsExactly(c, periodLength);
      if U32_MAX / periodLength > c.stakingPeriods {
        assert (c.stakingPeriods + 1) * periodLength == c.stakingPeriods * periodLength + periodLength;
        assert Wrap(c.stakingPeriods * periodLength) == c.stakingPeriods * periodLength;
        WrapIs(activatedBlock + c.stakingPeriods * periodLength);
      }
    }
  }

  lemma QueueBlockIs(c: Config)
    ensures WrapsTo(c.startBlock + c.queueDelay.blocks + c.queueDelay.epochs * c.epochLength, QueueBlock(c))
  {
    WrapIs(c.startBlock + c.queueDelay.blocks + c.queueDelay.epochs * c.epochLength);
  }

  lemma MinWithdrawBlockIs(c: Config, exitBlock: nat)
    ensures WrapsTo(exitBlock + c.withdrawDelay.blocks + c.withdrawDelay.epochs * c.epochLength,
                    MinWithdrawBlock(c, exitBlock))
  {
    WrapIs(exitBlock + c.withdrawDelay.blocks + c.withdrawDelay.epochs * c.epochLength);
  }

  lemma OneWrap(sum: nat, a: nat, b: nat)
    requires WrapsTo(sum, a) && WrapsTo(sum, b)
    ensures a == b
  {
    assert (sum - a) == ((sum - a) / 4294967296) * 4294967296;
    assert (sum - b) == ((sum - b) / 4294967296) * 4294967296;
  }

  lemma OneExitBlock(cfg: Config, activatedBlock: nat, periodLength: nat, a: nat, b: nat)
    requires ExitBlockIs(cfg, activatedBlock, periodLength, a) && ExitBlockIs(cfg, activatedBlock, periodLength, b)
    ensures a == b
  {
    if cfg.stakingPeriods != 4294967295 && (cfg.stakingPeriods + 1) * periodLength <= 4294967295 {
      OneWrap(activatedBlock + cfg.stakingPeriods * periodLength, a, b);
    }
  }
}
