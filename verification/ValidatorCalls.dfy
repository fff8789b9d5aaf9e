/** What each call of a validator does with its inputs, when it acts, and what it can ever reach:
    the other direction of the safety results in `Validators`. */
module ValidatorCalls {
  import opened Common
  import opened Lifecycle
  import opened Runs
  import opened Validators

  // ---------- one call, over its inputs ----------

  /** A validator that the chain knows is taken over as queued, with its start block and what the search for its
      queue receipt finds; a failed search keeps what was known. */
  ghost predicate Adopted(v: Validator, details: Option<Details>, receipt: Found, v': Validator) {
    if details.None? then v' == v
    else v' == v.(status := Queued, activatedBlock := details.value.startBlock,
                  queuedReceipt := if receipt.Found? then receipt.block else v.queuedReceipt)
  }

  /** Whether the validator has left already: unknown or past its exit means withdrawn, an exit receipt alone
      means exit signalled; a call that fails changes nothing and is reported. */
  ghost predicate Reconciled(v: Validator, env: Env, v': Validator, failed: bool) {
    if env.exitCheck.None? then v' == v && failed
    else if env.exitCheck.value == Unknown then v' == v.(status := Withdrawn) && !failed
    else if env.exitDetails.None? then v' == v && failed
    else if env.exitCheck.value == StakerExited || env.exitDetails.value.exitBlock < 4294967295 then
      v' == v.(status := Withdrawn) && !failed
    else if env.exitReceipt.SearchFailed? then v' == v && failed
    else v' == (if env.exitReceipt.block.Some? then v.(status := ExitSignalled) else v) && !failed
  }

  /** The first call looks at the chain before anything else. */
  lemma FirstLook(env: Env, adopted: Validator)
    requires Adopted(NEW.(firstProcessed := true), env.firstDetails, env.firstReceipt, adopted)
    ensures var c := RefreshState(NEW, env);
            var known := if env.first == Some(Unknown) then NEW.(firstProcessed := true) else adopted;
            var seen := if env.first == Some(StakerActive) && env.activeDetails.Some?
                        then known.(status := Active, activatedBlock := env.activeDetails.value.startBlock) else known;
            if env.first.None? then c == Checked(NEW.(firstProcessed := true), true)
            else if env.first.value == StakerActive && env.activeDetails.None? then c == Checked(known, true)
            else if seen.queuedReceipt.None? then c == Checked(seen, false)
            else Reconciled(seen, env, c.v, c.failed)
  {
  }

  /** If that look fails nothing else happens; otherwise the call goes on as any later one would. */
  lemma FirstCallGoesOn(s: Settings, v: Validator, block: nat, env: Env)
    requires !v.firstProcessed
    ensures var c := RefreshState(v, env);
            && c.v.firstProcessed
            && (c.failed ==> Process(s, v, block, env) == Processed(c.v, []))
            && (!c.failed ==> Process(s, v, block, env) == Process(s, c.v, block, env))
  {
    hide ProcessCurrent;
  }

  /** A pending validator: from the queue block on it is queued, unless the chain knows it already. */
  lemma PendingCall(s: Settings, v: Validator, block: nat, env: Env, from: nat)
    requires v.firstProcessed && v.status == Pending
    requires WrapsTo(s.base.startBlock + s.base.queueDelay.blocks + s.base.queueDelay.epochs * s.base.epochLength, from)
    ensures var p := Process(s, v, block, env);
            if v.queuedReceipt.Some? || block < from || env.pending.None? then p == Processed(v, [])
            else if env.pending.value != Unknown then
              p.events == [] && Adopted(v, env.pendingDetails, env.pendingReceipt, p.v)
            else
              && p.events == [QueueTx]
              && (env.queue.Confirmed? ==> p.v == v.(status := Queued, queuedReceipt := Some(env.queue.block)))
              && (env.queue.AlreadyExists? ==> Adopted(v, env.pendingDetails, env.pendingReceipt, p.v))
              && (env.queue.SendFailed? ==> p.v == v)
  {
    hide QueueBlock;
    QueueBlockIs(s.base);
    OneWrap(s.base.startBlock + s.base.queueDelay.blocks + s.base.queueDelay.epochs * s.base.epochLength,
              from, QueueBlock(s.base));
  }

  /** A queued validator: active as soon as its record says so, reconciled when there is no record. */
  lemma QueuedCall(s: Settings, v: Validator, block: nat, env: Env)
    requires v.firstProcessed && v.status == Queued
    ensures var p := Process(s, v, block, env);
            && p.events == []
            && (if v.activatedBlock != 0 || (v.queuedReceipt.None? && s.idIsZero) then p.v == v
                else if env.record.None? then exists failed :: Reconciled(v, env, p.v, failed)
                else if env.record.value.status == StakerActive then
                  p.v == v.(status := Active, activatedBlock := env.record.value.startBlock)
                else p.v == v)
  {
    assert Reconciled(v, env, CheckAlreadyExited(v, env).v, CheckAlreadyExited(v, env).failed);
  }

  /** An active validator: from its exit block on it signals its exit, unless it is the last one. */
  lemma ActiveCall(s: Settings, v: Validator, block: nat, env: Env, from: nat)
    requires v.firstProcessed && v.status == Active
    requires s.base.stakingPeriods == 4294967295 || s.periodLength > 0
    requires ExitBlockIs(s.base, v.activatedBlock, s.periodLength, from)
    ensures var p := Process(s, v, block, env);
            if v.exitReceipt.Some? || env.activeCount <= 1 || block < from then p == Processed(v, [])
            else if env.signal.Confirmed? then
              p == Processed(v.(status := ExitSignalled, exitReceipt := Some(env.signal.block)), [ExitTx])
            else p == Processed(v, [ExitTx])
  {
    hide MinExitBlock;
    MinExitBlockIs(s.base, v.activatedBlock, s.periodLength);
    OneExitBlock(s.base, v.activatedBlock, s.periodLength, from,
                 MinExitBlock(s.base, v.activatedBlock, s.periodLength));
  }

  /** A validator whose exit is signalled: once the whole wait is over it withdraws. */
  lemma WithdrawCall(s: Settings, v: Validator, block: nat, env: Env, from: nat)
    requires v.firstProcessed && v.status == ExitSignalled && v.exitReceipt.Some?
    requires WrapsTo(v.exitReceipt.value + s.base.withdrawDelay.blocks
                     + s.base.withdrawDelay.epochs * s.base.epochLength + s.periodLength + s.base.cooldownPeriod
                     + (if v.activatedBlock != 0 then s.base.cooldownPeriod else 0), from)
    ensures var p := Process(s, v, block, env);
            if v.withdrawReceipt.Some? || block < from then p == Processed(v, [])
            else if env.withdraw.Confirmed? then
              p == Processed(v.(status := Withdrawn, withdrawReceipt := Some(env.withdraw.block)), [WithdrawTx(block)])
            else p == Processed(v, [WithdrawTx(block)])
  {
    hide WithdrawBlock;
    WithdrawBlockWraps(s, v);
    WrapIs(FullWait(s, v));
    OneWrap(FullWait(s, v), from, WithdrawBlock(s, v));
  }

  /** Without a receipt for the exit, and after the withdrawal, nothing happens. */
  lemma RestingCall(s: Settings, v: Validator, block: nat, env: Env)
    requires v.firstProcessed && (v.status == Withdrawn || (v.status == ExitSignalled && v.exitReceipt.None?))
    ensures Process(s, v, block, env) == Processed(v, [])
  {
  }

  // ---------- in every run ----------

  /** A stored queue receipt means a status of at least queued, an exit receipt at least exit signalled,
      a withdraw receipt withdrawn. */
  lemma ReceiptsMeanStatus(s: Settings, inputs: seq<Input>)
    ensures var v := Run(s, inputs).v;
            && (v.queuedReceipt.Some? ==> v.status != Pending)
            && (v.exitReceipt.Some? ==> v.status == ExitSignalled || v.status == Withdrawn)
            && (v.withdrawReceipt.Some? ==> v.status == Withdrawn)
  {
    Validators.RunConsistent(s, inputs);
  }

  /** In every run a pending validator can still be queued: by one call at its queue block, unknown to the
      chain and confirmed in any block b, with its activation block unchanged. */
  lemma PendingCanBeQueued(s: Settings, inputs: seq<Input>, b: nat, env: Env, from: nat)
    requires Run(s, inputs).v.status == Pending && inputs != []
    requires WrapsTo(s.base.startBlock + s.base.queueDelay.blocks + s.base.queueDelay.epochs * s.base.epochLength, from)
    requires env.pending == Some(Unknown) && env.queue == Confirmed(b)
    ensures var v, v' := Run(s, inputs).v, Run(s, inputs + [Input(from, env)]).v;
            v' == v.(status := Queued, queuedReceipt := Some(b))
  {
    hide Process;
    var more := inputs + [Input(from, env)];
    assert more[..|more| - 1] == inputs;
    Validators.RunConsistent(s, inputs);
    AfterFirst(s, inputs);
    PendingCall(s, Run(s, inputs).v, from, env, from);
  }

  lemma AfterFirst(s: Settings, inputs: seq<Input>)
    requires inputs != []
    ensures Run(s, inputs).v.firstProcessed
  {
    ProcessedOnce(s, Run(s, inputs[..|inputs| - 1]).v, inputs[|inputs| - 1].block, inputs[|inputs| - 1].env);
  }

  lemma ProcessedOnce(s: Settings, v: Validator, block: nat, env: Env)
    ensures Process(s, v, block, env).v.firstProcessed
  {
    hide QueueBlock, MinExitBlock, WithdrawBlock, ExitBlockPanics;
  }

  /** An active validator can ever signal its exit if and only if it has no exit receipt and its exit
      check does not panic. */
  lemma ActiveExitsIff(s: Settings, v: Validator)
    requires v.firstProcessed && v.status == Active
    ensures (exists block: nat, env: Env :: Process(s, v, block, env).v.status == ExitSignalled) <==>
              v.exitReceipt.None? && (s.base.stakingPeriods == 4294967295 || s.periodLength > 0)
  {
    hide MinExitBlock;
    if v.exitReceipt.None? && (s.base.stakingPeriods == 4294967295 || s.periodLength > 0) {
      var block := MinExitBlock(s.base, v.activatedBlock, s.periodLength);
      assert Process(s, v, block, QUIET_ENV.(activeCount := 2, signal := Confirmed(0))).v.status == ExitSignalled;
    }
  }
}
