/** What each handler of a delegator does with its inputs, when it acts, and what it can ever reach:
    the other direction of the safety results in `Delegators`. */
module DelegatorCalls {
  import opened Common
  import opened Delegators
  import opened Lifecycle
  import opened Runs
  import opened Transactions

  // ---------- one handler, over its inputs ----------

  /** The queue transaction: sent and polled from the queue block on while the validator is available; its
      receipt brings the delegation id and the start period with it. */
  lemma QueueCall(cfg: Config, d: Delegator, block: nat, env: Env, from: nat, tx: Tx, receipt: Option<Receipt>)
    requires WrapsTo(cfg.startBlock + cfg.queueDelay.blocks + cfg.queueDelay.epochs * cfg.epochLength, from)
    requires Moves(d.queuedTx, env.net, true, tx, receipt)
    ensures var d' := Handle(cfg, d, Pending, block, env).d;
            if d.queuedTx.receipt.Some? || block < from || env.validator.None? then d' == d
            else if env.validator.value.status == 3 || env.validator.value.exitBlock.Some? then
              d' == d.(status := Withdrawn)
            else
              var polled := d.(stakingPeriodLength := env.validator.value.period, queuedTx := tx);
              if receipt.None? || (!receipt.value.reverted && env.startPeriod.None?) then d' == polled
              else if receipt.value.reverted then d' == polled.(status := Withdrawn)
              else d' == polled.(queuedTx := tx.(receipt := receipt), id := Some(env.delegationID),
                                 startPeriod := env.startPeriod.value, status := Queued)
  {
    hide SendOrPoll, QueueBlock;
    QueueBlockIs(cfg);
    SendOrPollMoves(d.queuedTx, env.net, true);
  }

  /** Activation: in the first handler that finds at most one completed iteration more than the start period
      (completed iterations less one wraps at zero), at the block where that period starts. */
  lemma ActivationCall(cfg: Config, d: Delegator, block: nat, env: Env, current: nat, length: nat, at: nat)
    requires env.validator.Some? && env.validator.value.completeIterations < 4294967296
    requires current == if env.validator.value.completeIterations == 0 then 4294967295
                        else env.validator.value.completeIterations - 1
    requires WrapsTo(d.startPeriod * d.stakingPeriodLength, length)
    requires WrapsTo(env.validator.value.startBlock + length, at)
    ensures var d' := Handle(cfg, d, Queued, block, env).d;
            if d.status != Pending && d.activatedBlock == 0 && d.startPeriod >= current
            then d' == d.(status := Active, activatedBlock := at)
            else d' == d
    ensures Handle(cfg, d, Queued, block, env.(validator := None)).d == d
  {
    WrapIs(d.startPeriod * d.stakingPeriodLength);
    WrapIs(env.validator.value.startBlock + length);
    OneWrap(d.startPeriod * d.stakingPeriodLength, length, Wrap(d.startPeriod * d.stakingPeriodLength));
    OneWrap(env.validator.value.startBlock + length, at, Wrap(env.validator.value.startBlock + length));
  }

  /** The exit transaction: sent and polled from the exit block on, or at once when the validator has exited. */
  lemma ExitCall(cfg: Config, d: Delegator, block: nat, env: Env, from: nat, tx: Tx, receipt: Option<Receipt>)
    requires cfg.stakingPeriods == 4294967295 || d.stakingPeriodLength > 0
    requires ExitBlockIs(cfg, d.activatedBlock, d.stakingPeriodLength, from)
    requires Moves(d.exitTx, env.net, true, tx, receipt)
    ensures var h := Handle(cfg, d, Active, block, env);
            if d.status == ExitSignalled || d.exitTx.receipt.Some? || env.validator.None?
               || (block < from && env.validator.value.status < 3) then h.d == d && h.exit == []
            else
              && (h.exit != [] <==> d.exitTx.id != 0 || env.net.send.Some?)
              && (receipt.None? ==> h.d == d.(exitTx := tx))
              && (receipt.Some? ==> h.d == d.(status := ExitSignalled, exitTx := tx.(receipt := receipt)))
  {
    hide MinExitBlock;
    MinExitBlockIs(cfg, d.activatedBlock, d.stakingPeriodLength);
    OneExitBlock(cfg, d.activatedBlock, d.stakingPeriodLength, from,
                 MinExitBlock(cfg, d.activatedBlock, d.stakingPeriodLength));
    SendOrPollMoves(d.exitTx, env.net, true);
  }

  /** The withdrawal: sent and polled once the delay after the exit receipt is over; mined without a revert it
      ends the delegation, and no revert is put up with. */
  lemma WithdrawCall(cfg: Config, d: Delegator, block: nat, env: Env, from: nat, tx: Tx, receipt: Option<Receipt>)
    requires d.exitTx.receipt.Some?
    requires WrapsTo(d.exitTx.receipt.value.block + cfg.withdrawDelay.blocks
                     + cfg.withdrawDelay.epochs * cfg.epochLength, from)
    requires Moves(d.withdrawTx, env.net, false, tx, receipt)
    ensures var h := Handle(cfg, d, ExitSignalled, block, env);
            if d.withdrawTx.receipt.Some? || d.status != ExitSignalled || block < from then h.d == d && h.withdraw == []
            else
              && (h.withdraw != [] <==> d.withdrawTx.id != 0 || env.net.send.Some?)
              && (receipt.None? ==> h.d == d.(withdrawTx := tx))
              && (receipt.Some? ==> h.d == d.(status := Withdrawn, withdrawTx := tx.(receipt := receipt)))
  {
    hide MinWithdrawBlock;
    MinWithdrawBlockIs(cfg, d.exitTx.receipt.value.block);
    OneWrap(d.exitTx.receipt.value.block + cfg.withdrawDelay.blocks + cfg.withdrawDelay.epochs * cfg.epochLength,
            from, MinWithdrawBlock(cfg, d.exitTx.receipt.value.block));
    SendOrPollMoves(d.withdrawTx, env.net, false);
  }

  // ---------- the identity of the delegation, in every run ----------

  /** The step that stores the queue receipt stores with it what the receipt and the chain say: the mined receipt,
      the delegation id, its start period and the validator's period, and the delegator is queued. */
  lemma QueueReceiptBringsIdentity(cfg: Config, actions: seq<Action>, k: nat)
    requires k < |actions|
    requires Run(cfg, START, actions[..k]).d.queuedTx.receipt.None?
    requires Run(cfg, START, actions[..k + 1]).d.queuedTx.receipt.Some?
    ensures var d := Run(cfg, START, actions[..k + 1]).d;
            && actions[k].RunHandler? && actions[k].read == Pending
            && var env := actions[k].env;
               && env.net.poll.Mined? && !env.net.poll.receipt.reverted
               && env.validator.Some? && env.startPeriod.Some?
               && d.queuedTx.receipt == Some(env.net.poll.receipt)
               && d.id == Some(env.delegationID) && d.startPeriod == env.startPeriod.value
               && d.stakingPeriodLength == env.validator.value.period && d.status == Queued
  {
    hide Handle;
    FoldNext(Stepper(cfg), START, actions, k);
    var d := Run(cfg, START, actions[..k]).d;
    if actions[k].RunHandler? { ReceiptBringsIdentity(cfg, d, actions[k].read, actions[k].block, actions[k].env); }
  }

  lemma ReceiptBringsIdentity(cfg: Config, d: Delegator, read: Status, block: nat, env: Env)
    requires d.queuedTx.receipt.None? && Handle(cfg, d, read, block, env).d.queuedTx.receipt.Some?
    ensures var d' := Handle(cfg, d, read, block, env).d;
            && read == Pending && env.net.poll.Mined? && !env.net.poll.receipt.reverted
            && env.validator.Some? && env.startPeriod.Some?
            && d'.queuedTx.receipt == Some(env.net.poll.receipt)
            && d'.id == Some(env.delegationID) && d'.startPeriod == env.startPeriod.value
            && d'.stakingPeriodLength == env.validator.value.period && d'.status == Queued
  {
    hide QueueBlock;
  }

  lemma HandleKeepsIdentity(cfg: Config, d: Delegator, read: Status, block: nat, env: Env)
    requires d.queuedTx.receipt.Some?
    ensures var d' := Handle(cfg, d, read, block, env).d;
            && d'.queuedTx == d.queuedTx && d'.id == d.id
            && d'.startPeriod == d.startPeriod && d'.stakingPeriodLength == d.stakingPeriodLength
  {
  }

  /** From then on id, start period and period length never change. */
  lemma {:induction false} IdentityStays(cfg: Config, actions: seq<Action>, j: nat, k: nat)
    requires j <= k <= |actions| && Run(cfg, START, actions[..j]).d.queuedTx.receipt.Some?
    ensures var d, d' := Run(cfg, START, actions[..j]).d, Run(cfg, START, actions[..k]).d;
            && d'.queuedTx == d.queuedTx && d'.id == d.id
            && d'.startPeriod == d.startPeriod && d'.stakingPeriodLength == d.stakingPeriodLength
  {
    hide Handle;
    if j < k {
      IdentityStays(cfg, actions, j, k - 1);
      FoldNext(Stepper(cfg), START, actions, k - 1);
      var s, a := Run(cfg, START, actions[..k - 1]), actions[k - 1];
      if a.RunHandler? { HandleKeepsIdentity(cfg, s.d, a.read, a.block, a.env); }
    }
  }

  // ---------- when an exit is attempted, in every run ----------

  /** In every run an active handler touches the network for the exit exactly if the exit has no receipt yet, the
      exit block has come or the validator has exited, and there is something to poll or the send is accepted. */
  lemma ExitsExactlyWhenDue(cfg: Config, actions: seq<Action>, block: nat, env: Env, from: nat)
    requires (Active, block) in Run(cfg, START, actions).inFlight && env.validator.Some?
    requires var d := Run(cfg, START, actions).d;
             && (cfg.stakingPeriods == 4294967295 || d.stakingPeriodLength > 0)
             && ExitBlockIs(cfg, d.activatedBlock, d.stakingPeriodLength, from)
    ensures var d := Run(cfg, START, actions).d;
            Handle(cfg, d, Active, block, env).exit != [] <==>
              && d.exitTx.receipt.None? && (block >= from || env.validator.value.status >= 3)
              && (d.exitTx.id != 0 || env.net.send.Some?)
  {
    hide Run, Handle, ReadAfter;
    var d := Run(cfg, START, actions).d;
    RunStored(cfg, actions);
    SendOrPollMoves(d.exitTx, env.net, true);
    var polled := SendOrPoll(d.exitTx, env.net, true);
    ExitCall(cfg, d, block, env, from, polled.tx, polled.receipt);
    ReadMeansQueued(d, Active);
  }

  lemma ReadMeansQueued(d: Delegator, read: Status)
    requires ReadAfter(d, read) && (read == Active || read == ExitSignalled)
    ensures d.queuedTx.receipt.Some?
  {
  }

  // ---------- what can ever happen ----------

  /** A number of handler calls with one status read, each with its own block and answers. */
  function Calls(cfg: Config, d: Delegator, read: Status, inputs: seq<(nat, Env)>): Delegator
    decreases |inputs|
  {
    if inputs == [] then d
    else
      var last := inputs[|inputs| - 1];
      Handle(cfg, Calls(cfg, d, read, inputs[..|inputs| - 1]), read, last.0, last.1).d
  }

  lemma TwoCalls(cfg: Config, d: Delegator, read: Status, a: (nat, Env), b: (nat, Env))
    ensures Calls(cfg, d, read, [a, b]) == Handle(cfg, Handle(cfg, d, read, a.0, a.1).d, read, b.0, b.1).d
  {
    assert [a, b][..1] == [a] && [a][..0] == [];
    assert Calls(cfg, d, read, [a]) == Handle(cfg, Calls(cfg, d, read, []), read, a.0, a.1).d;
  }

  /** When no single call changes anything, no number of them does. */
  lemma {:induction false} Stuck(cfg: Config, d: Delegator, read: Status, inputs: seq<(nat, Env)>)
    requires forall block: nat, env: Env :: Handle(cfg, d, read, block, env).d == d
    ensures Calls(cfg, d, read, inputs) == d
    decreases |inputs|
  {
    if inputs != [] { Stuck(cfg, d, read, inputs[..|inputs| - 1]); }
  }

  // A network that accepts every send and has mined everything, and a validator with one period of one block.
  const MINED := Net(Some(1), Mined(Receipt(0, false), false))
  const HELPFUL := Env(Some(Validation(2, None, 1, 1, 0)), MINED, 1, Some(1))

  /** An exit-signalled delegator can ever be withdrawn if and only if it has its exit receipt and no
      withdraw receipt yet. */
  lemma EverWithdrawnIff(cfg: Config, d: Delegator)
    requires d.status == ExitSignalled
    ensures (exists inputs :: Calls(cfg, d, ExitSignalled, inputs).status == Withdrawn) <==>
              d.exitTx.receipt.Some? && d.withdrawTx.receipt.None?
  {
    if d.exitTx.receipt.Some? && d.withdrawTx.receipt.None? {
      var call := (MinWithdrawBlock(cfg, d.exitTx.receipt.value.block), HELPFUL);
      TwoCalls(cfg, d, ExitSignalled, call, call);
    } else {
      forall inputs ensures Calls(cfg, d, ExitSignalled, inputs) == d { Stuck(cfg, d, ExitSignalled, inputs); }
    }
  }

  /** An active delegator can ever signal its exit if and only if it has no exit receipt yet and its
      exit check does not panic. */
  lemma EverExitsIff(cfg: Config, d: Delegator)
    requires d.status == Active
    ensures (exists inputs :: Calls(cfg, d, Active, inputs).status == ExitSignalled) <==>
              d.exitTx.receipt.None? && (cfg.stakingPeriods == 4294967295 || d.stakingPeriodLength > 0)
  {
    hide MinExitBlock;
    if d.exitTx.receipt.None? && (cfg.stakingPeriods == 4294967295 || d.stakingPeriodLength > 0) {
      var call := (MinExitBlock(cfg, d.activatedBlock, d.stakingPeriodLength), HELPFUL);
      TwoCalls(cfg, d, Active, call, call);
    } else {
      forall inputs ensures Calls(cfg, d, Active, inputs) == d { Stuck(cfg, d, Active, inputs); }
    }
  }

  /** A queued delegator can ever become active if and only if it has no activation block yet. */
  lemma EverActiveIff(cfg: Config, d: Delegator)
    requires d.status == Queued
    ensures (exists inputs :: Calls(cfg, d, Queued, inputs).status == Active) <==> d.activatedBlock == 0
  {
    if d.activatedBlock == 0 {
      TwoCalls(cfg, d, Queued, (0, HELPFUL), (0, HELPFUL.(validator := None)));
    } else {
      forall inputs ensures Calls(cfg, d, Queued, inputs) == d { Stuck(cfg, d, Queued, inputs); }
    }
  }

  /** A pending delegator can ever be queued if and only if it has no queue receipt yet. */
  lemma EverQueuedIff(cfg: Config, d: Delegator)
    requires d.status == Pending
    ensures (exists inputs :: Calls(cfg, d, Pending, inputs).status == Queued) <==> d.queuedTx.receipt.None?
  {
    hide QueueBlock;
    if d.queuedTx.receipt.None? {
      TwoCalls(cfg, d, Pending, (QueueBlock(cfg), HELPFUL), (QueueBlock(cfg), HELPFUL));
    } else {
      forall inputs ensures Calls(cfg, d, Pending, inputs) == d { Stuck(cfg, d, Pending, inputs); }
    }
  }
}
