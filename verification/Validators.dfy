/** The validator state machine of cmd/txsimulation/validators: validator.go,
    state_manager.go and transaction_manager.go, with every answer of the chain
    an input. */
module Validators {
  import opened Common
  import opened Lifecycle
  import opened Runs
  import P = Positions

  // builtin.StakerStatus of a validator that the contract knows, or not.
  datatype ChainStatus = Unknown | StakerQueued | StakerActive | StakerExited

  datatype Details = Details(startBlock: nat, exitBlock: nat)

  // A search for a receipt: an error, or the block of the receipt if there is one.
  datatype Found = SearchFailed | Found(block: Option<nat>)

  datatype Send = Confirmed(block: nat) | SendFailed | AlreadyExists

  datatype Record = Record(status: ChainStatus, offline: bool, startBlock: nat)

  /** One answer per call site; None is an error of that call. */
  datatype Env = Env(
    first: Option<ChainStatus>, firstDetails: Option<Details>, firstReceipt: Found, activeDetails: Option<Details>,
    exitCheck: Option<ChainStatus>, exitDetails: Option<Details>, exitReceipt: Found,
    pending: Option<ChainStatus>, pendingDetails: Option<Details>, pendingReceipt: Found,
    record: Option<Record>, activeCount: nat, queue: Send, signal: Send, withdraw: Send)

  // Every call fails and nothing is known.
  const QUIET_ENV := Env(None, None, SearchFailed, None, None, None, SearchFailed, None, None, SearchFailed, None, 0,
                         SendFailed, SendFailed, SendFailed)

  datatype Settings = Settings(base: Config, periodLength: nat, idIsZero: bool)

  datatype Validator = Validator(
    status: Status, activatedBlock: nat, firstProcessed: bool,
    queuedReceipt: Option<nat>, exitReceipt: Option<nat>, withdrawReceipt: Option<nat>)

  const NEW := Validator(Pending, 0, false, None, None, None)

  // Transactions that were attempted.
  datatype Event = QueueTx | ExitTx | WithdrawTx(block: nat)

  function HandleExisting(v: Validator, details: Option<Details>, receipt: Found): Validator {
    if details.None? then v else
    var v1 := v.(activatedBlock := details.value.startBlock, status := Queued);
    if receipt.SearchFailed? then v1 else v1.(queuedReceipt := receipt.block)
  }

  /** The state and whether the caller gets an error. */
  datatype Checked = Checked(v: Validator, failed: bool)

  function CheckAlreadyExited(v: Validator, env: Env): Checked {
    if env.exitCheck.None? then Checked(v, true)
    else if env.exitCheck.value == Unknown then Checked(v.(status := Withdrawn), false)
    else if env.exitDetails.None? then Checked(v, true)
    else if env.exitCheck.value == StakerExited || env.exitDetails.value.exitBlock < U32_MAX
    then Checked(v.(status := Withdrawn), false)
    else if env.exitReceipt.SearchFailed? then Checked(v, true)
    else if env.exitReceipt.block.Some? then Checked(v.(status := ExitSignalled), false)
    else Checked(v, false)
  }

  function InitialCheck(v: Validator, env: Env): Checked {
    if env.first.None? then Checked(v, true) else
    var v1 := if env.first.value != Unknown then HandleExisting(v, env.firstDetails, env.firstReceipt) else v;
    if env.first.value == StakerActive && env.activeDetails.None? then Checked(v1, true) else
    var v2 := if env.first.value == StakerActive
              then v1.(activatedBlock := env.activeDetails.value.startBlock, status := Active) else v1;
    if v2.queuedReceipt.Some? then CheckAlreadyExited(v2, env) else Checked(v2, false)
  }

  function RefreshState(v: Validator, env: Env): Checked {
    if v.firstProcessed then Checked(v, false) else InitialCheck(v.(firstProcessed := true), env)
  }

  datatype Processed = Processed(v: Validator, events: seq<Event>)

  function TransitionTo(v: Validator, status: Status, activatedBlock: nat): Validator {
    v.(status := status, activatedBlock := if activatedBlock > 0 then activatedBlock else v.activatedBlock)
  }

  function ProcessPending(s: Settings, v: Validator, block: nat, env: Env): Processed {
    if v.queuedReceipt.Some? || block < QueueBlock(s.base) || env.pending.None? then Processed(v, [])
    else if env.pending.value != Unknown then Processed(HandleExisting(v, env.pendingDetails, env.pendingReceipt), [])
    else
      match env.queue
      case Confirmed(b) => Processed(TransitionTo(v.(queuedReceipt := Some(b)), Queued, 0), [QueueTx])
      case AlreadyExists => Processed(HandleExisting(v, env.pendingDetails, env.pendingReceipt), [QueueTx])
      case SendFailed => Processed(v, [QueueTx])
  }

  function ProcessQueued(s: Settings, v: Validator, env: Env): Processed {
    if (v.queuedReceipt.None? && s.idIsZero) || v.activatedBlock != 0 then Processed(v, [])
    else if env.record.None? then Processed(CheckAlreadyExited(v, env).v, [])
    else if env.record.value.status == StakerActive
    then Processed(TransitionTo(v, Active, env.record.value.startBlock), [])
    else Processed(v, [])
  }

  /** A panic in MinExitBlock ends the program: nothing more happens. */
  function ProcessActive(s: Settings, v: Validator, block: nat, env: Env): Processed {
    if v.exitReceipt.Some? || v.status == ExitSignalled || env.activeCount <= 1 then Processed(v, [])
    else if ExitBlockPanics(s.base, s.periodLength) then Processed(v, [])
    else if block < MinExitBlock(s.base, v.activatedBlock, s.periodLength) then Processed(v, [])
    else if env.signal.Confirmed? then
      Processed(TransitionTo(v.(exitReceipt := Some(env.signal.block)), ExitSignalled, 0), [ExitTx])
    else Processed(v, [ExitTx])
  }

  /** The uint32 sum of validator.go:260-266. */
  function WithdrawBlock(s: Settings, v: Validator): nat
    requires v.exitReceipt.Some?
  {
    var sum := Wrap(MinWithdrawBlock(s.base, v.exitReceipt.value) + s.periodLength + s.base.cooldownPeriod);
    if v.activatedBlock != 0 then Wrap(sum + s.base.cooldownPeriod) else sum
  }

  function ProcessExitSignalled(s: Settings, v: Validator, block: nat, env: Env): Processed {
    if v.withdrawReceipt.Some? || v.status != ExitSignalled || v.exitReceipt.None? then Processed(v, [])
    else if block < WithdrawBlock(s, v) then Processed(v, [])
    else if env.withdraw.Confirmed? then
      Processed(TransitionTo(v.(withdrawReceipt := Some(env.withdraw.block)), Withdrawn, 0), [WithdrawTx(block)])
    else Processed(v, [WithdrawTx(block)])
  }

  function ProcessCurrent(s: Settings, v: Validator, block: nat, env: Env): Processed {
    match v.status
    case Pending => ProcessPending(s, v, block, env)
    case Queued => ProcessQueued(s, v, env)
    case Active => ProcessActive(s, v, block, env)
    case ExitSignalled => ProcessExitSignalled(s, v, block, env)
    case Withdrawn => Processed(v, [])
  }

  /** `Process`, apart from what it tells the allocator. */
  function Process(s: Settings, v: Validator, block: nat, env: Env): Processed {
    var refreshed := RefreshState(v, env);
    if refreshed.failed then Processed(refreshed.v, []) else ProcessCurrent(s, refreshed.v, block, env)
  }

  // ---------- whole runs ----------

  datatype Input = Input(block: nat, env: Env)
  datatype Traced = Traced(v: Validator, log: seq<Event>)

  function Stepper(s: Settings): (Traced, Input) -> Traced {
    (t: Traced, i: Input) =>
      var p := Process(s, t.v, i.block, i.env);
      Traced(p.v, t.log + p.events)
  }

  function Run(s: Settings, inputs: seq<Input>): Traced { Fold(Stepper(s), Traced(NEW, []), inputs) }

  /** Before the first call nothing is known; later no receipt is ahead of the status. */
  predicate Consistent(v: Validator) {
    && (!v.firstProcessed ==> v == NEW)
    && (v.withdrawReceipt.Some? ==> v.status == Withdrawn)
    && (v.exitReceipt.Some? ==> Rank(v.status) >= Rank(ExitSignalled))
    && (v.queuedReceipt.Some? ==> Rank(v.status) >= Rank(Queued))
  }

  /** The sum a withdrawal waits for, without wrapping. */
  function FullWait(s: Settings, v: Validator): nat
    requires v.exitReceipt.Some?
  {
    v.exitReceipt.value + s.base.withdrawDelay.blocks + s.base.withdrawDelay.epochs * s.base.epochLength
    + s.periodLength + s.base.cooldownPeriod + (if v.activatedBlock != 0 then s.base.cooldownPeriod else 0)
  }

  lemma WrapAdds(a: nat, b: nat)
    ensures Wrap(Wrap(a) + b) == Wrap(a + b)
  {
    var q := a / U32;
    assert a == q * U32 + Wrap(a);
    assert a + b == Wrap(a) + b + q * U32;
    WrapShift(Wrap(a) + b, q);
  }

  lemma {:induction false} WrapShift(a: nat, q: nat)
    ensures Wrap(a + q * U32) == Wrap(a)
  {
    if q > 0 {
      WrapShift(a, q - 1);
      assert a + q * U32 == a + (q - 1) * U32 + U32;
    }
  }

  lemma WithdrawBlockWraps(s: Settings, v: Validator)
    requires v.exitReceipt.Some?
    ensures WithdrawBlock(s, v) == Wrap(FullWait(s, v))
  {
    var base := v.exitReceipt.value + s.base.withdrawDelay.blocks + s.base.withdrawDelay.epochs * s.base.epochLength;
    WrapAdds(base, s.periodLength + s.base.cooldownPeriod);
    WrapAdds(base + s.periodLength + s.base.cooldownPeriod, s.base.cooldownPeriod);
  }

  /** Reconciling with the chain never moves the status back, and happens once. */
  lemma RefreshForward(v: Validator, env: Env)
    requires Consistent(v)
    ensures var r := RefreshState(v, env).v;
            Consistent(r) && r.firstProcessed && Rank(v.status) <= Rank(r.status) && (v.firstProcessed ==> r == v)
    ensures var r := RefreshState(v, env).v;
            !v.firstProcessed ==> r.exitReceipt.None?
  {
  }

  lemma CurrentSafe(s: Settings, v: Validator, block: nat, env: Env)
    requires Consistent(v) && v.firstProcessed
    ensures var p := ProcessCurrent(s, v, block, env);
            && Consistent(p.v) && Rank(v.status) <= Rank(p.v.status)
            && (forall i | 0 <= i < |p.events| && p.events[i].WithdrawTx? ::
                  && v.status == ExitSignalled && v.exitReceipt.Some?
                  && p.events[i].block == block >= WithdrawBlock(s, v))
  {
    hide WithdrawBlock, QueueBlock, MinExitBlock, ExitBlockPanics;
  }

  /** One call never moves the status back, and submits a withdrawal only with the
      exit receipt at hand and the wrapped wait over. */
  lemma ProcessSafe(s: Settings, v: Validator, block: nat, env: Env)
    requires Consistent(v)
    ensures var p := Process(s, v, block, env);
            && Consistent(p.v) && Rank(v.status) <= Rank(p.v.status)
            && (forall i | 0 <= i < |p.events| && p.events[i].WithdrawTx? ::
                  && v.status == ExitSignalled && v.exitReceipt.Some?
                  && p.events[i].block == block >= WithdrawBlock(s, v))
  {
    hide WithdrawBlock, QueueBlock, MinExitBlock, ExitBlockPanics;
    RefreshForward(v, env);
    var v1 := RefreshState(v, env).v;
    CurrentSafe(s, v1, block, env);
  }

  lemma {:induction false} RunConsistent(s: Settings, inputs: seq<Input>)
    ensures Consistent(Run(s, inputs).v)
    decreases |inputs|
  {
    if inputs != [] {
      var i := inputs[|inputs| - 1];
      RunConsistent(s, inputs[..|inputs| - 1]);
      ProcessSafe(s, Run(s, inputs[..|inputs| - 1]).v, i.block, i.env);
    }
  }

  /** Over every run, reconciliation with an existing validator included, the status
      only moves forward. */
  lemma {:induction false} StatusMovesForward(s: Settings, inputs: seq<Input>, k: nat)
    requires k <= |inputs|
    ensures Rank(Run(s, inputs[..k]).v.status) <= Rank(Run(s, inputs).v.status)
    decreases |inputs|
  {
    if k == |inputs| {
      assert inputs[..k] == inputs;
    } else {
      var before := inputs[..|inputs| - 1];
      var i := inputs[|inputs| - 1];
      assert before[..k] == inputs[..k];
      StatusMovesForward(s, before, k);
      RunConsistent(s, before);
      ProcessSafe(s, Run(s, before).v, i.block, i.env);
    }
  }

  /** The withdrawals in the log of a run, with the state each was submitted in. */
  ghost predicate WithdrawalsInOrder(s: Settings, inputs: seq<Input>) {
    forall k | 0 <= k < |inputs| ::
      var v := Run(s, inputs[..k]).v;
      var events := Process(s, v, inputs[k].block, inputs[k].env).events;
      forall i | 0 <= i < |events| && events[i].WithdrawTx? ::
        && v.exitReceipt.Some? && events[i].block == inputs[k].block
        && (FullWait(s, v) < U32 ==> inputs[k].block >= FullWait(s, v))
  }

  /** Every withdrawal of every run is submitted with an exit receipt present and, when
      the block sums do not wrap, at or past the exit block plus withdraw delay,
      staking period and the applicable cooldowns. */
  lemma WithdrawalsWait(s: Settings, inputs: seq<Input>)
    ensures WithdrawalsInOrder(s, inputs)
  {
    forall k | 0 <= k < |inputs|
      ensures var v := Run(s, inputs[..k]).v;
              var events := Process(s, v, inputs[k].block, inputs[k].env).events;
              forall i | 0 <= i < |events| && events[i].WithdrawTx? ::
                && v.exitReceipt.Some? && events[i].block == inputs[k].block
                && (FullWait(s, v) < U32 ==> inputs[k].block >= FullWait(s, v))
    {
      var v := Run(s, inputs[..k]).v;
      RunConsistent(s, inputs[..k]);
      ProcessSafe(s, v, inputs[k].block, inputs[k].env);
      if v.exitReceipt.Some? { WithdrawBlockWraps(s, v); }
    }
  }

  /** For a validator that may withdraw, every submitted withdrawal has waited the full
      sum if and only if that sum does not wrap. */
  lemma WaitsInFullIff(s: Settings, v: Validator)
    requires v.firstProcessed && v.status == ExitSignalled && v.exitReceipt.Some? && v.withdrawReceipt.None?
    ensures (forall block: nat, env: Env | block < U32 ::
               Process(s, v, block, env).events != [] ==> block >= FullWait(s, v))
            <==> FullWait(s, v) < U32
  {
    WithdrawBlockWraps(s, v);
    if FullWait(s, v) >= U32 {
      assert Process(s, v, WithdrawBlock(s, v), QUIET_ENV).events == [WithdrawTx(WithdrawBlock(s, v))];
    }
  }

  /** When a transaction may be attempted in state v. */
  predicate Due(s: Settings, v: Validator, block: nat, env: Env, e: Event) {
    match e
    case QueueTx =>
      && v.status == Pending && v.queuedReceipt.None? && block >= QueueBlock(s.base) && env.pending == Some(Unknown)
    case ExitTx =>
      && v.status == Active && v.exitReceipt.None? && env.activeCount > 1 && !ExitBlockPanics(s.base, s.periodLength)
      && block >= MinExitBlock(s.base, v.activatedBlock, s.periodLength)
    case WithdrawTx(b) =>
      && v.status == ExitSignalled && v.exitReceipt.Some? && v.withdrawReceipt.None?
      && b == block >= WithdrawBlock(s, v)
  }

  /** In every state at most one transaction is attempted per call, and only when it is due: a validator
      that the chain knows is not queued again, the last active validator never signals its exit, and
      nothing is sent again once its receipt is there. */
  lemma EverySendIsDue(s: Settings, v: Validator, block: nat, env: Env)
    ensures var events := Process(s, v, block, env).events;
            |events| <= 1 && forall i | 0 <= i < |events| :: Due(s, RefreshState(v, env).v, block, env, events[i])
  {
    hide WithdrawBlock, QueueBlock, MinExitBlock, ExitBlockPanics, RefreshState;
  }

  /** Each transaction is confirmed at most once in a run, since its receipt stays. */
  lemma {:induction false} ReceiptsStay(s: Settings, inputs: seq<Input>, k: nat)
    requires k <= |inputs|
    ensures var v, v' := Run(s, inputs[..k]).v, Run(s, inputs).v;
            && (v.exitReceipt.Some? ==> v'.exitReceipt == v.exitReceipt)
            && (v.withdrawReceipt.Some? ==> v'.withdrawReceipt == v.withdrawReceipt)
    decreases |inputs|
  {
    if k == |inputs| {
      assert inputs[..k] == inputs;
    } else {
      var before, i := inputs[..|inputs| - 1], inputs[|inputs| - 1];
      assert before[..k] == inputs[..k];
      ReceiptsStay(s, before, k);
      ProcessKeepsReceipts(s, Run(s, before).v, i.block, i.env);
    }
  }

  lemma ProcessKeepsReceipts(s: Settings, v: Validator, block: nat, env: Env)
    ensures var v' := Process(s, v, block, env).v;
            && (v.exitReceipt.Some? ==> v'.exitReceipt == v.exitReceipt)
            && (v.withdrawReceipt.Some? ==> v'.withdrawReceipt == v.withdrawReceipt)
  {
    hide WithdrawBlock, QueueBlock, MinExitBlock, ExitBlockPanics;
  }

  // ---------- the activation block ----------

  lemma ProcessKeepsActivation(s: Settings, v: Validator, block: nat, env: Env)
    requires Consistent(v) && Rank(v.status) >= Rank(Active)
    ensures Process(s, v, block, env).v.activatedBlock == v.activatedBlock
  {
    hide WithdrawBlock, QueueBlock, MinExitBlock, ExitBlockPanics;
  }

  /** Later transitions pass block zero and leave the activation block alone: from the
      first active status of a run on it never changes. */
  lemma {:induction false} ActivationBlockStays(s: Settings, inputs: seq<Input>, k: nat)
    requires k <= |inputs| && Rank(Run(s, inputs[..k]).v.status) >= Rank(Active)
    ensures Run(s, inputs).v.activatedBlock == Run(s, inputs[..k]).v.activatedBlock
    decreases |inputs|
  {
    if k == |inputs| {
      assert inputs[..k] == inputs;
    } else {
      var before, i := inputs[..|inputs| - 1], inputs[|inputs| - 1];
      assert before[..k] == inputs[..k];
      ActivationBlockStays(s, before, k);
      RunConsistent(s, before);
      StatusMovesForward(s, before, k);
      ProcessKeepsActivation(s, Run(s, before).v, i.block, i.env);
    }
  }

  /** A queued validator can ever leave that status if and only if it has no activation block yet
      and is known by a receipt or an id. One that was adopted with its start block, because the first look at
      the chain had failed, stays queued for good. */
  lemma QueuedLeavesIff(s: Settings, v: Validator)
    requires v.firstProcessed && v.status == Queued
    ensures (exists block: nat, env: Env :: Process(s, v, block, env).v.status != Queued) <==>
              v.activatedBlock == 0 && (v.queuedReceipt.Some? || !s.idIsZero)
  {
    if v.activatedBlock == 0 && (v.queuedReceipt.Some? || !s.idIsZero) {
      var env := QUIET_ENV.(record := Some(Record(StakerActive, false, 1)));
      assert Process(s, v, 0, env).v.status == Active;
    }
  }

  /** Over runs: once adopted with a start block, a queued validator is the same after every further call. */
  lemma {:induction false} AdoptedStaysQueued(s: Settings, inputs: seq<Input>, k: nat)
    requires k <= |inputs|
    requires Run(s, inputs[..k]).v.status == Queued && Run(s, inputs[..k]).v.activatedBlock != 0
    ensures Run(s, inputs).v == Run(s, inputs[..k]).v
    decreases |inputs|
  {
    if k == |inputs| {
      assert inputs[..k] == inputs;
    } else {
      var before := inputs[..|inputs| - 1];
      assert before[..k] == inputs[..k];
      AdoptedStaysQueued(s, before, k);
      RunConsistent(s, before);
    }
  }

  /** It happens: the first call fails to see the chain, the second finds the validator active. */
  lemma AdoptionHappens(s: Settings)
    ensures var late := QUIET_ENV.(pending := Some(StakerActive), pendingDetails := Some(Details(5, U32_MAX)));
            var v := Run(s, [Input(QueueBlock(s.base), QUIET_ENV), Input(QueueBlock(s.base), late)]).v;
            v.status == Queued && v.activatedBlock == 5
  {
    hide QueueBlock;
    var late := QUIET_ENV.(pending := Some(StakerActive), pendingDetails := Some(Details(5, U32_MAX)));
    var inputs := [Input(QueueBlock(s.base), QUIET_ENV), Input(QueueBlock(s.base), late)];
    FoldNext(Stepper(s), Traced(NEW, []), inputs, 0);
    FoldNext(Stepper(s), Traced(NEW, []), inputs, 1);
    assert inputs[..2] == inputs;
    assert Run(s, inputs[..1]).v == NEW.(firstProcessed := true);
  }

  // ---------- waits that wrap, and exits without a receipt ----------

  // An active validator that is found and told to leave in the last block a uint32 can name.
  const LAST_EXIT_ENV := QUIET_ENV.(first := Some(StakerActive), activeDetails := Some(Details(5, U32_MAX)),
                                    activeCount := 2, signal := Confirmed(U32_MAX))

  /** The wrapped wait happens, whatever the other settings: this run signals its exit, and some
      later call withdraws before the full wait is over. */
  lemma EarlyWithdrawalHappens(s: Settings)
    requires s.periodLength > 0
    ensures var v := Run(s, [Input(U32_MAX, LAST_EXIT_ENV)]).v;
            && v.status == ExitSignalled && v.exitReceipt == Some(U32_MAX) && FullWait(s, v) >= U32
            && exists block: nat, env: Env ::
                 block < U32 && block < FullWait(s, v) && Process(s, v, block, env).events != []
  {
    var inputs := [Input(U32_MAX, LAST_EXIT_ENV)];
    FoldNext(Stepper(s), Traced(NEW, []), inputs, 0);
    assert inputs[..1] == inputs;
    var v := Run(s, inputs).v;
    LastExit(s);
    FullWaitCounts(s, v);
    WaitsInFullIff(s, v);
  }

  lemma LastExit(s: Settings)
    requires s.periodLength > 0
    ensures Process(s, NEW, U32_MAX, LAST_EXIT_ENV).v ==
              Validator(ExitSignalled, 5, true, None, Some(U32_MAX), None)
  {
  }

  lemma FullWaitCounts(s: Settings, v: Validator)
    requires v.exitReceipt.Some?
    ensures FullWait(s, v) >= v.exitReceipt.value + s.periodLength
  {
  }

  /** A validator with a signalled exit can ever be withdrawn if and only if its exit receipt is there.
      Reconciliation can set the status without it, since the receipt that it finds is not kept. */
  lemma ExitSignalledWithdrawsIff(s: Settings, v: Validator)
    requires v.firstProcessed && v.status == ExitSignalled && v.withdrawReceipt.None?
    ensures (exists block: nat, env: Env :: Process(s, v, block, env).v.status == Withdrawn) <==> v.exitReceipt.Some?
  {
    if v.exitReceipt.Some? {
      var env := QUIET_ENV.(withdraw := Confirmed(0));
      assert Process(s, v, WithdrawBlock(s, v), env).v.status == Withdrawn;
    }
  }

  /** Over runs: without its receipt a signalled exit is the end, the state never changes again. */
  lemma {:induction false} ExitWithoutReceiptStays(s: Settings, inputs: seq<Input>, k: nat)
    requires k <= |inputs|
    requires Run(s, inputs[..k]).v.status == ExitSignalled && Run(s, inputs[..k]).v.exitReceipt.None?
    ensures Run(s, inputs).v == Run(s, inputs[..k]).v
    decreases |inputs|
  {
    if k == |inputs| {
      assert inputs[..k] == inputs;
    } else {
      var before := inputs[..|inputs| - 1];
      assert before[..k] == inputs[..k];
      ExitWithoutReceiptStays(s, before, k);
      RunConsistent(s, before);
    }
  }

  // What the chain answers about a validator whose exit was signalled by an earlier run of the simulation.
  const RESTART_ENV := QUIET_ENV.(
    first := Some(StakerActive), firstDetails := Some(Details(5, U32_MAX)), firstReceipt := Found(Some(2)),
    activeDetails := Some(Details(5, U32_MAX)), exitCheck := Some(StakerActive),
    exitDetails := Some(Details(5, U32_MAX)), exitReceipt := Found(Some(9)))

  /** It happens on the first call. */
  lemma ExitWithoutReceiptHappens(s: Settings, block: nat)
    ensures var v := Run(s, [Input(block, RESTART_ENV)]).v;
            v.status == ExitSignalled && v.exitReceipt.None?
  {
    var inputs := [Input(block, RESTART_ENV)];
    FoldNext(Stepper(s), Traced(NEW, []), inputs, 0);
    assert inputs[..1] == inputs;
  }

  // ---------- what a validator tells the allocator ----------

  predicate LeavesAllocator(record: Option<Record>) {
    record.Some? && (record.value.status == StakerExited || record.value.offline)
  }

  predicate JoinsAllocator(record: Option<Record>) {
    record.Some? && record.value.status == StakerActive
  }

  /** handleDelegationRegistration: first out, then in. */
  function Registration(m: P.Manager, id: Address, record: Option<Record>, allocation: P.Counts): P.Manager {
    var m1 := if LeavesAllocator(record) then P.Step(m, P.UnregisterValidator(id)) else m;
    if JoinsAllocator(record) then P.Step(m1, P.Register(id, allocation)) else m1
  }

  /** Who is registered after the call: an active validator with its allocation, fresh if it was out or dropped for
      being offline; nobody that has exited or is offline without being active; everybody else as before. */
  lemma RegistrationDecides(m: P.Manager, id: Address, record: Option<Record>, allocation: P.Counts)
    requires P.IsAllocation(m.caps, allocation) && m.caps != map[]
    ensures var m' := Registration(m, id, record, allocation);
            var out := record.Some? && (record.value.status == StakerExited || record.value.offline);
            var active := record.Some? && record.value.status == StakerActive;
            && m'.caps == m.caps && m'.delegations == m.delegations
            && (id in m'.available <==> active || (id in m.available && !out))
            && (active && (id !in m.available || out) ==>
                  m'.available[id] == allocation && id in m'.original && m'.original[id] == allocation)
            && (!out && (!active || id in m.available) ==> m' == m)
            && forall u: Address | u != id :: u in m'.available <==> u in m.available
  {
    hide P.Step;
    var m1 := if LeavesAllocator(record) then P.Step(m, P.UnregisterValidator(id)) else m;
    P.UnregisterLeaves(m, id);
    P.RegisterEffect(m1, id, allocation);
    if id !in m1.available { P.RegisterStores(m1, id, allocation); }
  }

  lemma RegistrationConserves(m: P.Manager, id: Address, record: Option<Record>, allocation: P.Counts)
    requires P.Conserved(m)
    ensures P.Conserved(Registration(m, id, record, allocation))
  {
    hide P.Conserved, P.Step;
    P.StepConserves(m, P.UnregisterValidator(id));
    P.StepConserves(m, P.Register(id, allocation));
    P.StepConserves(P.Step(m, P.UnregisterValidator(id)), P.Register(id, allocation));
  }

  /** The registration half of the call keeps the allocator's discipline. */
  ghost predicate RegistersDisciplined(m: P.Manager, id: Address, record: Option<Record>, allocation: P.Counts) {
    JoinsAllocator(record) ==>
      var m1 := if LeavesAllocator(record) then P.Step(m, P.UnregisterValidator(id)) else m;
      P.Disciplined(m1, P.Register(id, allocation))
  }

  lemma AfterDrop(m: P.Manager, id: Address)
    ensures var m1 := P.Step(m, P.UnregisterValidator(id));
            m1.delegations == m.delegations && (m.caps != map[] ==> id !in m1.available)
  {
  }

  /** With delegations of the validator outstanding, the discipline is broken exactly by two
      kinds of call: an active validator that is offline is dropped and registered again at once, and an
      active validator that had left the allocator is registered again. An active online
      validator that is still registered changes nothing. */
  lemma RegistrationDisciplinedIff(m: P.Manager, id: Address, record: Option<Record>, allocation: P.Counts)
    requires P.IsAllocation(m.caps, allocation)
    ensures RegistersDisciplined(m, id, record, allocation) <==>
              || !JoinsAllocator(record) || m.caps == map[] || !P.Outstanding(m, id)
              || (id in m.available && !record.value.offline)
  {
    AfterDrop(m, id);
    var m1 := if LeavesAllocator(record) then P.Step(m, P.UnregisterValidator(id)) else m;
    if JoinsAllocator(record) && m.caps != map[] && id !in m1.available {
      assert P.Step(m1, P.Register(id, allocation)).available.Keys == m1.available.Keys + {id};
    }
  }
}
