/** The `ValidatorLifecycle` object with its state and transaction managers, updated in
    place and proved against `Validators`. */
module ValidatorLifecycle {
  import opened Common
  import opened Lifecycle
  import opened Validators
  import P = Positions
  import M = PositionManager

  class TransactionManager {
    var queuedReceipt: Option<nat>
    var exitReceipt: Option<nat>
    var withdrawReceipt: Option<nat>

    constructor ()
      ensures queuedReceipt == exitReceipt == withdrawReceipt == None
    {
      queuedReceipt, exitReceipt, withdrawReceipt := None, None, None;
    }

    method QueueValidator(send: Send) returns (failed: bool)
      modifies this`queuedReceipt
      ensures failed <==> old(queuedReceipt).None? && !send.Confirmed?
      ensures queuedReceipt == if old(queuedReceipt).None? && send.Confirmed? then Some(send.block)
                else old(queuedReceipt)
    {
      if queuedReceipt.Some? { return false; }
      if !send.Confirmed? { return true; }
      queuedReceipt := Some(send.block);
      failed := false;
    }

    /** The receipt is stored before the error is looked at; with an error it is nil. */
    method SignalExit(send: Send) returns (failed: bool)
      modifies this`exitReceipt
      ensures failed <==> old(exitReceipt).None? && !send.Confirmed?
      ensures exitReceipt == if old(exitReceipt).None? && send.Confirmed? then Some(send.block) else old(exitReceipt)
    {
      if exitReceipt.Some? { return false; }
      exitReceipt := if send.Confirmed? then Some(send.block) else None;
      failed := !send.Confirmed?;
    }

    method WithdrawStake(send: Send) returns (failed: bool)
      modifies this`withdrawReceipt
      ensures failed <==> old(withdrawReceipt).None? && !send.Confirmed?
      ensures withdrawReceipt ==
                if old(withdrawReceipt).None? && send.Confirmed? then Some(send.block) else old(withdrawReceipt)
    {
      if withdrawReceipt.Some? { return false; }
      if !send.Confirmed? { return true; }
      withdrawReceipt := Some(send.block);
      failed := false;
    }
  }

  class StateManager {
    var status: Status
    var activatedBlock: nat
    var firstProcessed: bool

    constructor ()
      ensures status == Pending && activatedBlock == 0 && !firstProcessed
    {
      status, activatedBlock, firstProcessed := Pending, 0, false;
    }

    function With(tx: TransactionManager): Validator
      reads this, tx
    {
      Validator(status, activatedBlock, firstProcessed, tx.queuedReceipt, tx.exitReceipt, tx.withdrawReceipt)
    }

    method TransitionTo(newStatus: Status, newBlock: nat)
      modifies this
      ensures status == newStatus && firstProcessed == old(firstProcessed)
      ensures activatedBlock == if newBlock > 0 then newBlock else old(activatedBlock)
    {
      status := newStatus;
      if newBlock > 0 { activatedBlock := newBlock; }
    }

    method HandleExistingValidator(tx: TransactionManager, details: Option<Details>, receipt: Found)
      modifies this, tx`queuedReceipt
      ensures With(tx) == HandleExisting(old(With(tx)), details, receipt)
    {
      if details.None? { return; }
      activatedBlock := details.value.startBlock;
      status := Queued;
      if receipt.SearchFailed? { return; }
      tx.queuedReceipt := receipt.block;
    }

    method CheckExited(tx: TransactionManager, env: Env) returns (failed: bool)
      modifies this`status
      ensures Checked(With(tx), failed) == CheckAlreadyExited(old(With(tx)), env)
    {
      if env.exitCheck.None? { return true; }
      if env.exitCheck.value == Unknown {
        status := Withdrawn;
        return false;
      }
      if env.exitDetails.None? { return true; }
      if env.exitCheck.value == StakerExited || env.exitDetails.value.exitBlock < U32_MAX {
        status := Withdrawn;
        return false;
      }
      if env.exitReceipt.SearchFailed? { return true; }
      if env.exitReceipt.block.Some? { status := ExitSignalled; }
      failed := false;
    }

    method Refresh(tx: TransactionManager, env: Env) returns (failed: bool)
      modifies this, tx`queuedReceipt
      ensures Checked(With(tx), failed) == RefreshState(old(With(tx)), env)
    {
      if firstProcessed { return false; }
      firstProcessed := true;
      if env.first.None? { return true; }
      if env.first.value != Unknown {
        HandleExistingValidator(tx, env.firstDetails, env.firstReceipt);
      }
      if env.first.value == StakerActive {
        if env.activeDetails.None? { return true; }
        activatedBlock := env.activeDetails.value.startBlock;
        status := Active;
      }
      failed := false;
      if tx.queuedReceipt.Some? {
        failed := CheckExited(tx, env);
      }
    }
  }

  class ValidatorLifecycle {
    const settings: Settings
    const id: Address
    const stateManager: StateManager
    const txManager: TransactionManager
    const xnodes: M.PositionManager

    ghost function Footprint(): set<object> { {stateManager, txManager, xnodes} }

    function Value(): Validator
      reads stateManager, txManager
    {
      stateManager.With(txManager)
    }

    constructor (settings: Settings, id: Address, xnodes: M.PositionManager)
      ensures this.settings == settings && this.id == id && this.xnodes == xnodes
      ensures fresh(stateManager) && fresh(txManager) && Value() == NEW
    {
      this.settings, this.id, this.xnodes := settings, id, xnodes;
      stateManager := new StateManager();
      txManager := new TransactionManager();
    }

    method HandleDelegationRegistration(record: Option<Record>, allocation: P.Counts)
      requires P.IsAllocation(xnodes.positions, allocation)
      modifies xnodes
      ensures xnodes.Abstract() == Registration(old(xnodes.Abstract()), id, record, allocation)
    {
      if record.Some? && (record.value.status == StakerExited || record.value.offline) {
        xnodes.UnregisterValidator(id);
      }
      if record.Some? && record.value.status == StakerActive {
        xnodes.RegisterValidator(id, allocation);
      }
    }

    method ProcessPendingState(block: nat, env: Env) returns (ghost events: seq<Event>)
      modifies stateManager, txManager
      ensures Processed(Value(), events) == ProcessPending(settings, old(Value()), block, env)
    {
      events := [];
      if txManager.queuedReceipt.Some? || block < QueueBlock(settings.base) { return; }
      if env.pending.None? { return; }
      if env.pending.value != Unknown {
        stateManager.HandleExistingValidator(txManager, env.pendingDetails, env.pendingReceipt);
        return;
      }
      events := [QueueTx];
      var failed := txManager.QueueValidator(env.queue);
      if failed {
        if env.queue.AlreadyExists? {
          stateManager.HandleExistingValidator(txManager, env.pendingDetails, env.pendingReceipt);
        }
        return;
      }
      stateManager.TransitionTo(Queued, 0);
    }

    method ProcessQueuedState(env: Env)
      modifies stateManager
      ensures Value() == ProcessQueued(settings, old(Value()), env).v
    {
      if txManager.queuedReceipt.None? && settings.idIsZero { return; }
      if stateManager.activatedBlock != 0 { return; }
      if env.record.None? {
        var _ := stateManager.CheckExited(txManager, env);
        return;
      }
      if env.record.value.status == StakerActive {
        stateManager.TransitionTo(Active, env.record.value.startBlock);
      }
    }

    method ProcessActiveState(block: nat, env: Env) returns (ghost events: seq<Event>)
      modifies stateManager, txManager
      ensures Processed(Value(), events) == ProcessActive(settings, old(Value()), block, env)
    {
      events := [];
      if txManager.exitReceipt.Some? || stateManager.status == ExitSignalled { return; }
      if env.activeCount <= 1 { return; }
      if ExitBlockPanics(settings.base, settings.periodLength) { return; }
      if block < MinExitBlock(settings.base, stateManager.activatedBlock, settings.periodLength) { return; }
      events := [ExitTx];
      var failed := txManager.SignalExit(env.signal);
      if failed { return; }
      stateManager.TransitionTo(ExitSignalled, 0);
    }

    method ProcessExitSignalledState(block: nat, env: Env) returns (ghost events: seq<Event>)
      modifies stateManager, txManager
      ensures Processed(Value(), events) == ProcessExitSignalled(settings, old(Value()), block, env)
    {
      events := [];
      if txManager.withdrawReceipt.Some? { return; }
      if stateManager.status != ExitSignalled || txManager.exitReceipt.None? { return; }
      var exitBlock := txManager.exitReceipt.value;
      var minWithdrawBlock :=
        Wrap(MinWithdrawBlock(settings.base, exitBlock) + settings.periodLength + settings.base.cooldownPeriod);
      if stateManager.activatedBlock != 0 {
        minWithdrawBlock := Wrap(minWithdrawBlock + settings.base.cooldownPeriod);
      }
      if block < minWithdrawBlock { return; }
      events := [WithdrawTx(block)];
      var failed := txManager.WithdrawStake(env.withdraw);
      if failed { return; }
      stateManager.TransitionTo(Withdrawn, 0);
    }

    /** `listed` is the contract service's record when the allocator is told, `env.record`
        the one that the queued handler looks up again. */
    method Process(block: nat, env: Env, listed: Option<Record>, allocation: P.Counts)
        returns (ghost events: seq<Event>)
      requires P.IsAllocation(xnodes.positions, allocation)
      modifies Footprint()
      ensures Processed(Value(), events) == Validators.Process(settings, old(Value()), block, env)
      ensures xnodes.Abstract() ==
                if RefreshState(old(Value()), env).failed then old(xnodes.Abstract())
                else Registration(old(xnodes.Abstract()), id, listed, allocation)
    {
      events := [];
      var failed := stateManager.Refresh(txManager, env);
      if failed { return; }
      HandleDelegationRegistration(listed, allocation);
      match stateManager.status {
        case Pending => events := ProcessPendingState(block, env);
        case Queued => ProcessQueuedState(env);
        case Active => events := ProcessActiveState(block, env);
        case ExitSignalled => events := ProcessExitSignalledState(block, env);
        case Withdrawn =>
      }
    }
  }
}
