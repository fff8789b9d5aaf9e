/** The `DelegatorLifecycle` object: its handlers change status, ids and the three
    transaction records in place, as `Delegators` says they do. */
module DelegatorLifecycle {
  import opened Common
  import opened Delegators
  import opened Lifecycle
  import opened Transactions

  class Transaction {
    var id: nat
    var receipt: Option<Receipt>
    var pollAttempts: nat

    constructor ()
      ensures Value() == FRESH
    {
      id, receipt, pollAttempts := 0, None, 0;
    }

    function Value(): Tx
      reads this
    {
      Tx(id, receipt, pollAttempts)
    }

    method Reset()
      modifies this
      ensures Value() == FRESH
    {
      id, receipt, pollAttempts := 0, None, 0;
    }

    method HandleReceiptError()
      modifies this
      ensures Value() == Transactions.HandleReceiptError(old(Value())).tx
    {
      if pollAttempts > EXPIRATION {
        Reset();
        return;
      }
      pollAttempts := pollAttempts + 1;
    }

    method SendOrPoll(net: Net, allows: bool) returns (r: Option<Receipt>)
      modifies this
      ensures var p := Transactions.SendOrPoll(old(Value()), net, allows);
              Value() == p.tx && r == p.receipt
    {
      r := None;
      if id == 0 {
        if net.send.Some? { id := net.send.value; }
        return;
      }
      if !net.poll.Mined? {
        HandleReceiptError();
        return;
      }
      if !net.poll.receipt.reverted || (allows && net.poll.revertAllowed) {
        return Some(net.poll.receipt);
      }
      Reset();
    }
  }

  class DelegatorLifecycle {
    const config: Config
    var status: Status
    var activatedBlock: nat
    var stakingPeriodLength: nat
    var id: Option<nat>
    var startPeriod: nat
    const queuedTx: Transaction
    const exitTx: Transaction
    const withdrawTx: Transaction

    ghost predicate Valid() {
      queuedTx != exitTx && queuedTx != withdrawTx && exitTx != withdrawTx
    }

    ghost function Footprint(): set<object> { {this, queuedTx, exitTx, withdrawTx} }

    function Value(): Delegator
      reads this, queuedTx, exitTx, withdrawTx
    {
      Delegator(status, activatedBlock, stakingPeriodLength, id, startPeriod,
                queuedTx.Value(), exitTx.Value(), withdrawTx.Value())
    }

    constructor (config: Config)
      ensures Valid() && fresh(Footprint()) && this.config == config && Value() == NEW
    {
      this.config := config;
      status, activatedBlock, stakingPeriodLength, id, startPeriod := Pending, 0, 0, None, 0;
      queuedTx := new Transaction();
      exitTx := new Transaction();
      withdrawTx := new Transaction();
    }

    method ProcessPendingState(block: nat, env: Env)
      requires Valid()
      modifies this, queuedTx
      ensures Value() == ProcessPending(config, old(Value()), block, env).d
    {
      if queuedTx.receipt.Some? || block < QueueBlock(config) { return; }
      if env.validator.None? { return; }
      var validator := env.validator.value;
      if validator.status == STATUS_EXIT || validator.exitBlock.Some? {
        status := Withdrawn;
        return;
      }
      stakingPeriodLength := validator.period;
      var receipt := queuedTx.SendOrPoll(env.net, true);
      if receipt.Some? {
        if receipt.value.reverted {
          status := Withdrawn;
          return;
        }
        if env.startPeriod.None? { return; }
        queuedTx.receipt := receipt;
        startPeriod := env.startPeriod.value;
        id := Some(env.delegationID);
        status := Queued;
      }
    }

    method ProcessQueuedState(env: Env)
      modifies this
      ensures Value() == ProcessQueued(old(Value()), env).d
    {
      if Rank(status) < Rank(Queued) || activatedBlock != 0 { return; }
      if env.validator.None? { return; }
      var validator := env.validator.value;
      var validatorCurrentPeriod := Wrap(validator.completeIterations - 1);
      if startPeriod >= validatorCurrentPeriod {
        status := Active;
        activatedBlock := Wrap(validator.startBlock + Wrap(startPeriod * stakingPeriodLength));
      }
    }

    /** `panics` is the division by a zero period length in MinExitBlock. */
    method ProcessActiveState(block: nat, env: Env) returns (panics: bool)
      requires Valid()
      modifies this, exitTx
      ensures Value() == ProcessActive(config, old(Value()), block, env).d
      ensures panics ==> Value() == old(Value())
    {
      panics := false;
      if status == ExitSignalled || exitTx.receipt.Some? { return; }
      if env.validator.None? { return; }
      if ExitBlockPanics(config, stakingPeriodLength) { return true; }
      if block < MinExitBlock(config, activatedBlock, stakingPeriodLength)
         && env.validator.value.status < STATUS_EXIT { return; }
      var receipt := exitTx.SendOrPoll(env.net, true);
      if receipt.Some? {
        status := ExitSignalled;
        exitTx.receipt := receipt;
      }
    }

    method ProcessExitedState(block: nat, env: Env)
      requires Valid()
      modifies this, withdrawTx
      ensures Value() == ProcessExited(config, old(Value()), block, env).d
    {
      if withdrawTx.receipt.Some? || !(exitTx.receipt.Some? && status == ExitSignalled) { return; }
      if block < MinWithdrawBlock(config, exitTx.receipt.value.block) { return; }
      var receipt := withdrawTx.SendOrPoll(env.net, false);
      if receipt.Some? {
        status := Withdrawn;
        withdrawTx.receipt := receipt;
      }
    }

    /** `Process` for the status it reads at the start; `giveBack` says whether the
        deferred cleanup unregisters the position. */
    method Process(block: nat, env: Env) returns (giveBack: bool)
      requires Valid()
      modifies Footprint()
      ensures Value() == Handle(config, old(Value()), old(status), block, env).d
      ensures giveBack <==> status == ExitSignalled || status == Withdrawn
    {
      match status {
        case Pending => ProcessPendingState(block, env);
        case Queued => ProcessQueuedState(env);
        case Active => var _ := ProcessActiveState(block, env);
        case ExitSignalled => ProcessExitedState(block, env);
        case Withdrawn =>
      }
      giveBack := status == ExitSignalled || status == Withdrawn;
    }
  }
}
