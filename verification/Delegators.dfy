/** The delegator state machine of cmd/txsimulation/delegations/delegator.go and
    its behaviour when handlers run late: `Process` reads the status without
    the lock, then runs one handler under it. */
module Delegators {
  import opened Common
  import opened Lifecycle
  import opened Runs
  import opened Transactions

  const STATUS_EXIT := 3   // validation.StatusExit, the largest validation status

  datatype Validation = Validation(status: nat, exitBlock: Option<nat>, period: nat, completeIterations: nat,
      startBlock: nat)

  datatype Delegator = Delegator(
    status: Status, activatedBlock: nat, stakingPeriodLength: nat, id: Option<nat>, startPeriod: nat,
    queuedTx: Tx, exitTx: Tx, withdrawTx: Tx)

  const NEW := Delegator(Pending, 0, 0, None, 0, FRESH, FRESH, FRESH)

  // What the outside world answers during one handler call: the validator lookup,
  // the network, the id found in the queue receipt and its start period.
  datatype Env = Env(validator: Option<Validation>, net: Net, delegationID: nat, startPeriod: Option<nat>)

  /** The new state and the events of the three phases. */
  datatype Handled = Handled(d: Delegator, queued: seq<Event>, exit: seq<Event>, withdraw: seq<Event>)

  function Quiet(d: Delegator): Handled { Handled(d, [], [], []) }

  function ProcessPending(cfg: Config, d: Delegator, block: nat, env: Env): Handled {
    if d.queuedTx.receipt.Some? || block < QueueBlock(cfg) || env.validator.None? then Quiet(d) else
    var v := env.validator.value;
    if v.status == STATUS_EXIT || v.exitBlock.Some? then Quiet(d.(status := Withdrawn)) else
    var polled := SendOrPoll(d.queuedTx, env.net, true);
    var d1 := d.(stakingPeriodLength := v.period, queuedTx := polled.tx);
    if polled.receipt.None? then Handled(d1, polled.events, [], [])
    else if polled.receipt.value.reverted then Handled(d1.(status := Withdrawn), polled.events, [], [])
    else if env.startPeriod.None? then Handled(d1, polled.events, [], [])
    else Handled(d1.(queuedTx := polled.tx.(receipt := polled.receipt), startPeriod := env.startPeriod.value,
                     id := Some(env.delegationID), status := Queued),
                 polled.events, [], [])
  }

  function ActivationBlock(d: Delegator, v: Validation): nat {
    Wrap(v.startBlock + Wrap(d.startPeriod * d.stakingPeriodLength))
  }

  predicate Activates(d: Delegator, env: Env) {
    && Rank(d.status) >= Rank(Queued) && d.activatedBlock == 0 && env.validator.Some?
    && d.startPeriod >= Wrap(env.validator.value.completeIterations - 1)
  }

  function ProcessQueued(d: Delegator, env: Env): Handled {
    if !Activates(d, env) then Quiet(d)
    else Quiet(d.(status := Active, activatedBlock := ActivationBlock(d, env.validator.value)))
  }

  /** A panic (period length zero) ends the program: nothing more happens. */
  function ProcessActive(cfg: Config, d: Delegator, block: nat, env: Env): Handled {
    if d.status == ExitSignalled || d.exitTx.receipt.Some? || env.validator.None? then Quiet(d)
    else if ExitBlockPanics(cfg, d.stakingPeriodLength) then Quiet(d)
    else if block < MinExitBlock(cfg, d.activatedBlock, d.stakingPeriodLength)
        && env.validator.value.status < STATUS_EXIT
    then Quiet(d)
    else
      var polled := SendOrPoll(d.exitTx, env.net, true);
      if polled.receipt.None? then Handled(d.(exitTx := polled.tx), [], polled.events, [])
      else Handled(d.(status := ExitSignalled, exitTx := polled.tx.(receipt := polled.receipt)), [], polled.events, [])
  }

  predicate CanWithdraw(d: Delegator) { d.exitTx.receipt.Some? && d.status == ExitSignalled }

  function ProcessExited(cfg: Config, d: Delegator, block: nat, env: Env): Handled {
    if d.withdrawTx.receipt.Some? || !CanWithdraw(d) then Quiet(d)
    else if block < MinWithdrawBlock(cfg, d.exitTx.receipt.value.block) then Quiet(d)
    else
      var polled := SendOrPoll(d.withdrawTx, env.net, false);
      if polled.receipt.None? then Handled(d.(withdrawTx := polled.tx), [], [], polled.events)
      else Handled(d.(status := Withdrawn, withdrawTx := polled.tx.(receipt := polled.receipt)), [], [], polled.events)
  }

  /** The handler chosen for a status that was read earlier. */
  function Handle(cfg: Config, d: Delegator, read: Status, block: nat, env: Env): Handled {
    match read
    case Pending => ProcessPending(cfg, d, block, env)
    case Queued => ProcessQueued(d, env)
    case Active => ProcessActive(cfg, d, block, env)
    case ExitSignalled => ProcessExited(cfg, d, block, env)
    case Withdrawn => Quiet(d)
  }

  // ---------- the two-phase system ----------

  // A dispatch remembers the status it read; its handler runs any time later.
  datatype System = System(
    d: Delegator, inFlight: multiset<(Status, nat)>,
    queuedLog: seq<Event>, exitLog: seq<Event>, withdrawLog: seq<Event>)

  datatype Action = Dispatch(block: nat) | RunHandler(read: Status, block: nat, env: Env)

  const START := System(NEW, multiset{}, [], [], [])

  function Step(cfg: Config, s: System, a: Action): System {
    match a
    case Dispatch(block) => s.(inFlight := s.inFlight + multiset{(s.d.status, block)})
    case RunHandler(read, block, env) =>
      if (read, block) !in s.inFlight then s else
      var h := Handle(cfg, s.d, read, block, env);
      System(h.d, s.inFlight - multiset{(read, block)},
             s.queuedLog + h.queued, s.exitLog + h.exit, s.withdrawLog + h.withdraw)
  }

  function Stepper(cfg: Config): (System, Action) -> System {
    (s: System, a: Action) => Step(cfg, s, a)
  }

  function Run(cfg: Config, s: System, actions: seq<Action>): System {
    Fold(Stepper(cfg), s, actions)
  }

  /** Receipts and status agree. */
  predicate Consistent(d: Delegator) {
    if d.queuedTx.receipt.None? then
      && (d.status == Pending || d.status == Withdrawn) && d.activatedBlock == 0
      && d.exitTx == FRESH && d.withdrawTx == FRESH
    else
      && Rank(d.status) >= Rank(Queued)
      && (d.exitTx.receipt.Some? <==> Rank(d.status) >= Rank(ExitSignalled))
      && (d.withdrawTx.receipt.Some? <==> d.status == Withdrawn)
  }

  /** A read that can be acted on is never ahead of the status. */
  predicate ReadEarlier(d: Delegator, read: Status) {
    if d.queuedTx.receipt.None? then read == Pending || read == Withdrawn
    else read == Withdrawn || Rank(read) <= Rank(d.status)
  }

  ghost predicate EarlyReads(s: System) {
    forall r, b :: (r, b) in s.inFlight ==> ReadEarlier(s.d, r)
  }

  /** The status has not moved back and no stored receipt is gone. */
  predicate Forward(d: Delegator, d': Delegator) {
    && Rank(d.status) <= Rank(d'.status)
    && d'.queuedTx == d.queuedTx
    && (d.exitTx.receipt.Some? ==> d'.exitTx == d.exitTx)
    && (d.withdrawTx.receipt.Some? ==> d'.withdrawTx == d.withdrawTx)
    && (d.activatedBlock != 0 ==> d'.activatedBlock == d.activatedBlock)
  }

  /** A queued handler finds a delegation that is past its activation and still has no
      activation block, and activates it again. */
  predicate ActivatesLate(s: System, a: Action) {
    && a.RunHandler? && a.read == Queued && (a.read, a.block) in s.inFlight
    && Activates(s.d, a.env) && Rank(s.d.status) > Rank(Active)
  }

  /** None of the first k actions does so. */
  ghost predicate NoneLate(cfg: Config, actions: seq<Action>, k: nat)
    requires k <= |actions|
  {
    forall i | 0 <= i < k :: !ActivatesLate(Run(cfg, START, actions[..i]), actions[i])
  }

  lemma HandleConsistent(cfg: Config, d: Delegator, read: Status, block: nat, env: Env)
    requires Consistent(d)
    requires ReadEarlier(d, read)
    requires !(read == Queued && Activates(d, env) && Rank(d.status) > Rank(Active))
    ensures var d' := Handle(cfg, d, read, block, env).d;
            && Consistent(d')
            && (d.queuedTx.receipt.Some? ==> Forward(d, d'))
  {
  }

  lemma StepConsistent(cfg: Config, s: System, a: Action)
    requires Consistent(s.d) && EarlyReads(s) && !ActivatesLate(s, a)
    ensures var s' := Step(cfg, s, a);
            && Consistent(s'.d) && EarlyReads(s')
            && (s.d.queuedTx.receipt.Some? ==> Forward(s.d, s'.d))
  {
    if a.RunHandler? && (a.read, a.block) in s.inFlight {
      HandleConsistent(cfg, s.d, a.read, a.block, a.env);
    }
  }

  lemma {:induction false} RunConsistent(cfg: Config, actions: seq<Action>, k: nat)
    requires k <= |actions| && NoneLate(cfg, actions, k)
    ensures Consistent(Run(cfg, START, actions[..k]).d) && EarlyReads(Run(cfg, START, actions[..k]))
  {
    if k > 0 {
      RunConsistent(cfg, actions, k - 1);
      FoldNext(Stepper(cfg), START, actions, k - 1);
      StepConsistent(cfg, Run(cfg, START, actions[..k - 1]), actions[k - 1]);
    }
  }

  /** From every moment with a stored queue receipt to every later one. */
  ghost predicate AlwaysForward(cfg: Config, actions: seq<Action>) {
    forall j, k | 0 <= j <= k <= |actions| && Run(cfg, START, actions[..j]).d.queuedTx.receipt.Some? ::
      Forward(Run(cfg, START, actions[..j]).d, Run(cfg, START, actions[..k]).d)
  }

  lemma {:induction false} ForwardUpTo(cfg: Config, actions: seq<Action>, j: nat, k: nat)
    requires j <= k <= |actions| && NoneLate(cfg, actions, |actions|)
    requires Run(cfg, START, actions[..j]).d.queuedTx.receipt.Some?
    ensures Forward(Run(cfg, START, actions[..j]).d, Run(cfg, START, actions[..k]).d)
  {
    if j < k {
      ForwardUpTo(cfg, actions, j, k - 1);
      RunConsistent(cfg, actions, k - 1);
      FoldNext(Stepper(cfg), START, actions, k - 1);
      StepConsistent(cfg, Run(cfg, START, actions[..k - 1]), actions[k - 1]);
    }
  }

  /** A late activation would move the status back. */
  lemma ForwardStepIsNotLate(cfg: Config, s: System, a: Action)
    requires EarlyReads(s) && (s.d.queuedTx.receipt.Some? ==> Forward(s.d, Step(cfg, s, a).d))
    ensures !ActivatesLate(s, a)
  {
    if a.RunHandler? && (a.read, a.block) in s.inFlight { assert ReadEarlier(s.d, a.read); }
  }

  lemma NextState(cfg: Config, actions: seq<Action>, k: nat)
    requires k < |actions|
    ensures Run(cfg, START, actions[..k + 1]) == Step(cfg, Run(cfg, START, actions[..k]), actions[k])
  {
    FoldNext(Stepper(cfg), START, actions, k);
  }

  lemma {:induction false} ForwardIsNeverLate(cfg: Config, actions: seq<Action>, k: nat)
    requires k <= |actions| && AlwaysForward(cfg, actions)
    ensures NoneLate(cfg, actions, k)
  {
    hide Run, Forward, Step, ActivatesLate, Consistent, EarlyReads;
    if k > 0 {
      ForwardIsNeverLate(cfg, actions, k - 1);
      RunConsistent(cfg, actions, k - 1);
      NextState(cfg, actions, k - 1);
      var s := Run(cfg, START, actions[..k - 1]);
      assert s.d.queuedTx.receipt.Some? ==> Forward(s.d, Run(cfg, START, actions[..k]).d);
      ForwardStepIsNotLate(cfg, s, actions[k - 1]);
    }
  }

  /** Two-phase safety and its exact condition. From the queue receipt on, in any interleaving of late handlers,
      the status never moves back and no stored receipt or activation block changes if and only if no queued
      handler activates a delegation that is already past its activation. */
  lemma TwoPhaseSafetyIff(cfg: Config, actions: seq<Action>)
    ensures AlwaysForward(cfg, actions) <==> NoneLate(cfg, actions, |actions|)
  {
    hide Forward, Run, ActivatesLate;
    if NoneLate(cfg, actions, |actions|) {
      forall j, k | 0 <= j <= k <= |actions| && Run(cfg, START, actions[..j]).d.queuedTx.receipt.Some?
        ensures Forward(Run(cfg, START, actions[..j]).d, Run(cfg, START, actions[..k]).d)
      {
        ForwardUpTo(cfg, actions, j, k);
      }
    }
    if AlwaysForward(cfg, actions) { ForwardIsNeverLate(cfg, actions, |actions|); }
  }

  // ---------- non-zero activation blocks are enough ----------

  /** Wherever a queued handler activates the delegation, the block it computes is not zero. */
  predicate ActivatesNonZero(s: System, a: Action) {
    a.RunHandler? && a.read == Queued && (a.read, a.block) in s.inFlight && Activates(s.d, a.env) ==>
      ActivationBlock(s.d, a.env.validator.value) != 0
  }

  ghost predicate NonZeroRun(cfg: Config, actions: seq<Action>) {
    forall k | 0 <= k < |actions| :: ActivatesNonZero(Run(cfg, START, actions[..k]), actions[k])
  }

  /** An active or later status comes with an activation block once the queue receipt is there. */
  predicate Activated(d: Delegator) {
    d.queuedTx.receipt.Some? && Rank(d.status) >= Rank(Active) ==> d.activatedBlock != 0
  }

  lemma HandleActivated(cfg: Config, d: Delegator, read: Status, block: nat, env: Env)
    requires Consistent(d) && ReadEarlier(d, read) && Activated(d)
    requires read == Queued && Activates(d, env) ==> ActivationBlock(d, env.validator.value) != 0
    ensures Activated(Handle(cfg, d, read, block, env).d)
  {
  }

  lemma {:induction false} NonZeroIsNeverLate(cfg: Config, actions: seq<Action>, k: nat)
    requires NonZeroRun(cfg, actions) && k <= |actions|
    ensures NoneLate(cfg, actions, k) && Activated(Run(cfg, START, actions[..k]).d)
  {
    hide Step, ActivatesNonZero, ActivatesLate, Consistent, EarlyReads;
    if k > 0 {
      NonZeroIsNeverLate(cfg, actions, k - 1);
      RunConsistent(cfg, actions, k - 1);
      FoldNext(Stepper(cfg), START, actions, k - 1);
      assert ActivatesNonZero(Run(cfg, START, actions[..k - 1]), actions[k - 1]);
      NonZeroStep(cfg, Run(cfg, START, actions[..k - 1]), actions[k - 1]);
    }
  }

  lemma NonZeroStep(cfg: Config, s: System, a: Action)
    requires Consistent(s.d) && EarlyReads(s) && Activated(s.d) && ActivatesNonZero(s, a)
    ensures !ActivatesLate(s, a) && Activated(Step(cfg, s, a).d)
  {
    hide Handle, Activates, ActivationBlock, Consistent, Activated;
    if a.RunHandler? && (a.read, a.block) in s.inFlight {
      assert ReadEarlier(s.d, a.read);
      HandleActivated(cfg, s.d, a.read, a.block, a.env);
      ActivatedIsNotLate(s.d, a.read, a.env);
    }
  }

  lemma ActivatedIsNotLate(d: Delegator, read: Status, env: Env)
    requires ReadEarlier(d, read) && Activated(d)
    ensures !(read == Queued && Activates(d, env) && Rank(d.status) > Rank(Active))
  {
  }

  /** So a run whose activations all compute a non-zero block is safe. */
  lemma TwoPhaseSafety(cfg: Config, actions: seq<Action>)
    requires NonZeroRun(cfg, actions)
    ensures AlwaysForward(cfg, actions)
  {
    NonZeroIsNeverLate(cfg, actions, |actions|);
    TwoPhaseSafetyIff(cfg, actions);
  }

  // ---------- when transactions are sent ----------

  /** What holds in every run, late activations included. */
  predicate Stored(d: Delegator) {
    if d.queuedTx.receipt.None? then d.status == Pending || d.status == Withdrawn
    else Rank(d.status) >= Rank(Queued) && (Rank(d.status) >= Rank(ExitSignalled) ==> d.exitTx.receipt.Some?)
  }

  /** Only a delegation that has been active can have been read as active or exit signalled. */
  predicate ReadAfter(d: Delegator, read: Status) {
    if d.queuedTx.receipt.None? then read == Pending || read == Withdrawn
    else read == Active || read == ExitSignalled ==> Rank(d.status) >= Rank(Active)
  }

  lemma HandleStored(cfg: Config, d: Delegator, read: Status, block: nat, env: Env)
    requires Stored(d) && ReadAfter(d, read)
    ensures var d' := Handle(cfg, d, read, block, env).d;
            Stored(d') && forall r :: ReadAfter(d, r) ==> ReadAfter(d', r)
  {
  }

  lemma {:induction false} RunStored(cfg: Config, actions: seq<Action>)
    ensures var s := Run(cfg, START, actions);
            Stored(s.d) && forall r, b :: (r, b) in s.inFlight ==> ReadAfter(s.d, r)
    decreases |actions|
  {
    hide Handle;
    if actions != [] {
      var s, a := Run(cfg, START, actions[..|actions| - 1]), actions[|actions| - 1];
      RunStored(cfg, actions[..|actions| - 1]);
      if a.RunHandler? && (a.read, a.block) in s.inFlight {
        HandleStored(cfg, s.d, a.read, a.block, a.env);
      }
    }
  }

  /** The conditions under which a handler touches the network. */
  predicate Due(cfg: Config, d: Delegator, block: nat, env: Env, h: Handled) {
    && (h.queued != [] ==>
          && d.queuedTx.receipt.None? && block >= QueueBlock(cfg) && env.validator.Some?
          && env.validator.value.status != STATUS_EXIT && env.validator.value.exitBlock.None?)
    && (h.exit != [] ==>
          && d.queuedTx.receipt.Some? && d.status == Active && d.exitTx.receipt.None?
          && env.validator.Some? && !ExitBlockPanics(cfg, d.stakingPeriodLength)
          && (block >= MinExitBlock(cfg, d.activatedBlock, d.stakingPeriodLength)
              || env.validator.value.status >= STATUS_EXIT))
    && (h.withdraw != [] ==>
          && d.status == ExitSignalled && d.exitTx.receipt.Some? && d.withdrawTx.receipt.None?
          && block >= MinWithdrawBlock(cfg, d.exitTx.receipt.value.block))
  }

  /** In every run, however late a handler runs, it sends or polls only when its transaction is due in the state
      it then finds: a queue transaction for an available validator from the queue block on, an exit for an
      active delegation that may end, a withdrawal once the delay after the exit receipt is over. With non-zero
      activations an exit also finds an activation block. */
  lemma EverySendIsDue(cfg: Config, actions: seq<Action>, read: Status, block: nat, env: Env)
    requires (read, block) in Run(cfg, START, actions).inFlight
    ensures var d := Run(cfg, START, actions).d;
            var h := Handle(cfg, d, read, block, env);
            && Due(cfg, d, block, env, h)
            && (NonZeroRun(cfg, actions) && h.exit != [] ==> d.activatedBlock != 0)
  {
    hide Stored, Run, Handle, NonZeroRun, ReadAfter;
    RunStored(cfg, actions);
    HandleIsDue(cfg, Run(cfg, START, actions).d, read, block, env);
    if NonZeroRun(cfg, actions) {
      NonZeroIsNeverLate(cfg, actions, |actions|);
      assert actions[..|actions|] == actions;
    }
  }

  lemma HandleIsDue(cfg: Config, d: Delegator, read: Status, block: nat, env: Env)
    requires Stored(d) && ReadAfter(d, read)
    ensures Due(cfg, d, block, env, Handle(cfg, d, read, block, env))
  {
    hide QueueBlock, MinExitBlock, MinWithdrawBlock, ExitBlockPanics, SendOrPoll;
  }

  // ---------- a zero activation block leads to a late activation ----------

  /** Two reads of the queued status, then of the active one; the second queued
      handler runs after the exit has been signalled. */
  function LateQueuedRun(block: nat, env: Env): seq<Action> {
    [Dispatch(block), Dispatch(block), RunHandler(Queued, block, env),
     Dispatch(block), Dispatch(block), RunHandler(Active, block, env), RunHandler(Active, block, env),
     RunHandler(Queued, block, env)]
  }

  /** What the four late handlers do to the delegator. */
  lemma LateHandlers(cfg: Config, d: Delegator, block: nat, env: Env)
    requires d.status == Queued && Consistent(d) && d.queuedTx.receipt.Some?
    requires Activates(d, env) && ActivationBlock(d, env.validator.value) == 0
    requires env.validator.value.status >= STATUS_EXIT && !ExitBlockPanics(cfg, d.stakingPeriodLength)
    requires env.net.send.Some? && env.net.poll.Mined? && !env.net.poll.receipt.reverted
    ensures var d1 := Handle(cfg, d, Queued, block, env).d;
            var d2 := Handle(cfg, d1, Active, block, env).d;
            var d3 := Handle(cfg, d2, Active, block, env).d;
            && d1 == d.(status := Active) && d3.status == ExitSignalled
            && Handle(cfg, d3, Queued, block, env).d.status == Active
  {
    var d1 := Handle(cfg, d, Queued, block, env).d;
    var d2 := Handle(cfg, d1, Active, block, env).d;
    if d.exitTx.id == 0 {
      assert d2 == d1.(exitTx := d.exitTx.(id := env.net.send.value));
    }
  }

  /** Dispatch twice, then run one of the two handlers. */
  lemma TwoDispatches(cfg: Config, s: System, block: nat, env: Env)
    ensures var s' := Step(cfg, Step(cfg, Step(cfg, s, Dispatch(block)), Dispatch(block)),
                          RunHandler(s.d.status, block, env));
            && s'.d == Handle(cfg, s.d, s.d.status, block, env).d
            && s'.inFlight[(s.d.status, block)] >= 1
            && forall r | r in s.inFlight && r != (s.d.status, block) :: r in s'.inFlight
  {
  }

  lemma HandlerStep(cfg: Config, s: System, read: Status, block: nat, env: Env)
    requires (read, block) in s.inFlight
    ensures var s' := Step(cfg, s, RunHandler(read, block, env));
            && s'.d == Handle(cfg, s.d, read, block, env).d
            && forall r | r in s.inFlight && r != (read, block) :: r in s'.inFlight
  {
  }

  lemma LateSteps(cfg: Config, s: System, block: nat, env: Env, s3: System, s6: System)
    requires s.d.status == Queued && s3.d.status == Active
    requires s3 == Step(cfg, Step(cfg, Step(cfg, s, Dispatch(block)), Dispatch(block)), RunHandler(Queued, block, env))
    requires s6 == Step(cfg, Step(cfg, Step(cfg, s3, Dispatch(block)), Dispatch(block)), RunHandler(Active, block, env))
    ensures var s7 := Step(cfg, s6, RunHandler(Active, block, env));
            var s8 := Step(cfg, s7, RunHandler(Queued, block, env));
            && s6.d == Handle(cfg, s3.d, Active, block, env).d
            && s7.d == Handle(cfg, s6.d, Active, block, env).d
            && s8.d == Handle(cfg, s7.d, Queued, block, env).d
  {
    TwoDispatches(cfg, s, block, env);
    TwoDispatches(cfg, s3, block, env);
    assert (Queued, block) in s6.inFlight;
    HandlerStep(cfg, s6, Active, block, env);
    HandlerStep(cfg, Step(cfg, s6, RunHandler(Active, block, env)), Queued, block, env);
  }

  lemma LateQueuedGoesBack(cfg: Config, s: System, actions: seq<Action>, block: nat, env: Env)
    requires s.d.status == Queued && Consistent(s.d) && s.d.queuedTx.receipt.Some?
    requires Activates(s.d, env) && ActivationBlock(s.d, env.validator.value) == 0
    requires env.validator.value.status >= STATUS_EXIT && !ExitBlockPanics(cfg, s.d.stakingPeriodLength)
    requires env.net.send.Some? && env.net.poll.Mined? && !env.net.poll.receipt.reverted
    requires |actions| == 8
    requires actions[0] == actions[1] == actions[3] == actions[4] == Dispatch(block)
    requires actions[2] == actions[7] == RunHandler(Queued, block, env)
    requires actions[5] == actions[6] == RunHandler(Active, block, env)
    ensures Run(cfg, s, actions[..7]).d.status == ExitSignalled && Run(cfg, s, actions).d.status == Active
  {
    var t := Trace(Stepper(cfg), s, actions, 7);
    LateChain(cfg, block, env, s, t[1], t[2], t[3], t[4], t[5], t[6]);
  }

  lemma LateChain(cfg: Config, block: nat, env: Env, s: System, s1: System, s2: System, s3: System,
                  s4: System, s5: System, s6: System)
    requires s.d.status == Queued && Consistent(s.d) && s.d.queuedTx.receipt.Some?
    requires Activates(s.d, env) && ActivationBlock(s.d, env.validator.value) == 0
    requires env.validator.value.status >= STATUS_EXIT && !ExitBlockPanics(cfg, s.d.stakingPeriodLength)
    requires env.net.send.Some? && env.net.poll.Mined? && !env.net.poll.receipt.reverted
    requires s1 == Step(cfg, s, Dispatch(block)) && s2 == Step(cfg, s1, Dispatch(block))
    requires s3 == Step(cfg, s2, RunHandler(Queued, block, env))
    requires s4 == Step(cfg, s3, Dispatch(block)) && s5 == Step(cfg, s4, Dispatch(block))
    requires s6 == Step(cfg, s5, RunHandler(Active, block, env))
    ensures var s7 := Step(cfg, s6, RunHandler(Active, block, env));
            s7.d.status == ExitSignalled && Step(cfg, s7, RunHandler(Queued, block, env)).d.status == Active
  {
    LateOutcome(cfg, s, block, env, s3, s6);
  }

  lemma LateOutcome(cfg: Config, s: System, block: nat, env: Env, s3: System, s6: System)
    requires s.d.status == Queued && Consistent(s.d) && s.d.queuedTx.receipt.Some?
    requires Activates(s.d, env) && ActivationBlock(s.d, env.validator.value) == 0
    requires env.validator.value.status >= STATUS_EXIT && !ExitBlockPanics(cfg, s.d.stakingPeriodLength)
    requires env.net.send.Some? && env.net.poll.Mined? && !env.net.poll.receipt.reverted
    requires s3 == Step(cfg, Step(cfg, Step(cfg, s, Dispatch(block)), Dispatch(block)), RunHandler(Queued, block, env))
    requires s6 == Step(cfg, Step(cfg, Step(cfg, s3, Dispatch(block)), Dispatch(block)), RunHandler(Active, block, env))
    ensures var s7 := Step(cfg, s6, RunHandler(Active, block, env));
            s7.d.status == ExitSignalled && Step(cfg, s7, RunHandler(Queued, block, env)).d.status == Active
  {
    LateHandlers(cfg, s.d, block, env);
    TwoDispatches(cfg, s, block, env);
    LateSteps(cfg, s, block, env, s3, s6);
  }

  /** An activation that computes block zero leaves the guard of the queued handler
      open: wherever one can happen (and the exit check does not panic), some
      interleaving moves the status back from exit signalled to active. */
  lemma ZeroActivationGoesBack(cfg: Config, s: System, env: Env)
    requires s.d.status == Queued && Consistent(s.d) && s.d.queuedTx.receipt.Some?
    requires Activates(s.d, env) && ActivationBlock(s.d, env.validator.value) == 0
    requires !ExitBlockPanics(cfg, s.d.stakingPeriodLength)
    ensures exists actions: seq<Action>, k: nat ::
              && k <= |actions|
              && Run(cfg, s, actions[..k]).d.queuedTx.receipt.Some?
              && Rank(Run(cfg, s, actions[..k]).d.status) > Rank(Run(cfg, s, actions).d.status)
  {
    var late := env.(validator := Some(env.validator.value.(status := STATUS_EXIT)),
                     net := Net(Some(1), Mined(Receipt(0, false), false)));
    var actions := LateQueuedRun(0, late);
    LateQueuedGoesBack(cfg, s, actions, 0, late);
    KeepsQueueReceipt(cfg, s, actions, 7);
    assert Rank(Run(cfg, s, actions[..7]).d.status) > Rank(Run(cfg, s, actions).d.status);
  }

  // A validation that starts in the last block a uint32 can name, with periods of one block.
  const LAST_BLOCK_VALIDATION := Validation(2, None, 1, 1, U32_MAX)

  function WrappingEnv(block: nat): Env {
    Env(Some(LAST_BLOCK_VALIDATION), Net(Some(1), Mined(Receipt(block, false), false)), 1, Some(1))
  }

  /** Send, find the receipt, and be queued for period 1. */
  function QueueingRun(block: nat): seq<Action> {
    var queue := RunHandler(Pending, block, WrappingEnv(block));
    [Dispatch(block), queue, Dispatch(block), queue]
  }

  const SENT := NEW.(stakingPeriodLength := 1, queuedTx := Tx(1, None, 0))

  function QueuedAt(block: nat): Delegator {
    Delegator(Queued, 0, 1, Some(1), 1, Tx(1, Some(Receipt(block, false)), 0), FRESH, FRESH)
  }

  /** The first pending handler sends, the second finds the receipt. */
  lemma QueueingHandlers(cfg: Config)
    ensures var block := QueueBlock(cfg);
            && Handle(cfg, NEW, Pending, block, WrappingEnv(block)).d == SENT
            && Handle(cfg, SENT, Pending, block, WrappingEnv(block)).d == QueuedAt(block)
  {
  }

  lemma DispatchAndRun(cfg: Config, s: System, block: nat, env: Env)
    ensures Step(cfg, Step(cfg, s, Dispatch(block)), RunHandler(s.d.status, block, env)).d ==
              Handle(cfg, s.d, s.d.status, block, env).d
  {
  }

  /** From the start of every configuration a queued delegator can be reached whose activation block,
      4294967295 + 1 * 1, wraps to zero. */
  lemma ReachesZeroActivation(cfg: Config)
    ensures var block := QueueBlock(cfg);
            var d := Run(cfg, START, QueueingRun(block)).d;
            && d == QueuedAt(block)
            && Activates(d, WrappingEnv(block)) && ActivationBlock(d, LAST_BLOCK_VALIDATION) == 0
  {
    hide Step, Handle, QueueBlock;
    var block := QueueBlock(cfg);
    var t := Trace(Stepper(cfg), START, QueueingRun(block), 4);
    QueueingHandlers(cfg);
    DispatchAndRun(cfg, t[0], block, WrappingEnv(block));
    assert t[0 + 1] == Step(cfg, t[0], Dispatch(block));
    assert t[1 + 1] == Step(cfg, t[1], RunHandler(Pending, block, WrappingEnv(block)));
    DispatchAndRun(cfg, t[2], block, WrappingEnv(block));
    assert t[2 + 1] == Step(cfg, t[2], Dispatch(block));
    assert t[3 + 1] == Step(cfg, t[3], RunHandler(Pending, block, WrappingEnv(block)));
  }

  /** Without the hypothesis two-phase safety fails for every configuration: some run from the start stores
      the queue receipt and later moves the status back. */
  lemma SafetyNeedsNonZeroBlocks(cfg: Config)
    ensures exists actions: seq<Action>, k: nat ::
              && k <= |actions|
              && Run(cfg, START, actions[..k]).d.queuedTx.receipt.Some?
              && Rank(Run(cfg, START, actions[..k]).d.status) > Rank(Run(cfg, START, actions).d.status)
  {
    hide Run, Stepper;
    var block := QueueBlock(cfg);
    var before := QueueingRun(block);
    var s := Run(cfg, START, before);
    ReachesZeroActivation(cfg);
    ZeroActivationGoesBack(cfg, s, WrappingEnv(block));
    var more: seq<Action>, j: nat :| && j <= |more|
                                     && Run(cfg, s, more[..j]).d.queuedTx.receipt.Some?
                                     && Rank(Run(cfg, s, more[..j]).d.status) > Rank(Run(cfg, s, more).d.status);
    RunAppend(cfg, before, more);
    RunAppend(cfg, before, more[..j]);
    var actions, k := before + more, |before| + j;
    assert actions[..k] == before + more[..j];
    assert Rank(Run(cfg, START, actions[..k]).d.status) > Rank(Run(cfg, START, actions).d.status);
  }

  lemma RunAppend(cfg: Config, actions: seq<Action>, more: seq<Action>)
    ensures Run(cfg, START, actions + more) == Run(cfg, Run(cfg, START, actions), more)
  {
    FoldAppend(Stepper(cfg), START, actions, more);
  }

  lemma HandleKeepsQueueTx(cfg: Config, d: Delegator, read: Status, block: nat, env: Env)
    requires d.queuedTx.receipt.Some?
    ensures Handle(cfg, d, read, block, env).d.queuedTx == d.queuedTx
  {
  }

  lemma {:induction false} KeepsQueueReceipt(cfg: Config, s: System, actions: seq<Action>, k: nat)
    requires k <= |actions| && s.d.queuedTx.receipt.Some?
    ensures Run(cfg, s, actions[..k]).d.queuedTx == s.d.queuedTx
  {
    if k > 0 {
      KeepsQueueReceipt(cfg, s, actions, k - 1);
      FoldNext(Stepper(cfg), s, actions, k - 1);
      var a, t := actions[k - 1], Run(cfg, s, actions[..k - 1]);
      if a.RunHandler? { HandleKeepsQueueTx(cfg, t.d, a.read, a.block, a.env); }
    }
  }

  /** A pending handler that finds the delegation's transaction mined and the validator available. */
  predicate Reopens(cfg: Config, d: Delegator, read: Status, block: nat, env: Env) {
    && read == Pending && d.queuedTx.receipt.None? && block >= QueueBlock(cfg) && env.validator.Some?
    && env.validator.value.status != STATUS_EXIT && env.validator.value.exitBlock.None?
    && d.queuedTx.id != 0 && env.net.poll.Mined? && !env.net.poll.receipt.reverted && env.startPeriod.Some?
  }

  /** Before the queue receipt is stored the status can move back too: a delegator given up as withdrawn
      is queued again by a late pending handler exactly if its transaction is tracked and mined by then
      and the validator is available once more. */
  lemma LatePendingReopensIff(cfg: Config, d: Delegator, read: Status, block: nat, env: Env)
    requires Consistent(d) && d.status == Withdrawn && d.queuedTx.receipt.None? && ReadEarlier(d, read)
    ensures Handle(cfg, d, read, block, env).d.status != Withdrawn <==> Reopens(cfg, d, read, block, env)
    ensures Handle(cfg, d, read, block, env).d.status in {Withdrawn, Queued}
  {
    hide QueueBlock;
  }

  predicate Complete(d: Delegator) { d.status == ExitSignalled || d.status == Withdrawn }

  /** The handlers that take a final status back: a pending one that finds the mined transaction,
      and a queued one that activates. */
  predicate Undoes(cfg: Config, d: Delegator, read: Status, block: nat, env: Env) {
    Reopens(cfg, d, read, block, env) || (read == Queued && Activates(d, env))
  }

  /** Whatever was read and whenever, one more handler leaves a complete delegator complete
      if and only if it is none of these. */
  lemma CompleteUnlessUndone(cfg: Config, d: Delegator, read: Status, block: nat, env: Env)
    requires Complete(d)
    ensures Complete(Handle(cfg, d, read, block, env).d) <==> !Undoes(cfg, d, read, block, env)
  {
    hide QueueBlock, MinExitBlock, MinWithdrawBlock, ExitBlockPanics;
  }

  // ---------- the protocol of each phase, in every run ----------

  ghost predicate PhaseProtocol(tx: Tx, log: seq<Event>) {
    Protocol(tx.(receipt := None), log) && (tx.receipt.Some? ==> tx.id != 0)
  }

  /** A phase after a handler: untouched, or one send-or-poll and perhaps its receipt. */
  ghost predicate PhaseStep(tx: Tx, tx': Tx, events: seq<Event>, net: Net, allows: bool) {
    || (tx' == tx && events == [])
    || (var r := SendOrPoll(tx, net, allows);
        tx.receipt.None? && events == r.events
            && (tx' == r.tx || (r.receipt.Some? && tx' == r.tx.(receipt := r.receipt))))
  }

  lemma PhaseStepKeepsProtocol(tx: Tx, tx': Tx, log: seq<Event>, events: seq<Event>, net: Net, allows: bool)
    requires PhaseProtocol(tx, log) && PhaseStep(tx, tx', events, net, allows)
    ensures PhaseProtocol(tx', log + events)
  {
    if tx' == tx && events == [] {
      assert log + events == log;
    } else {
      assert tx.(receipt := None) == tx;
      SendOrPollKeepsProtocol(tx, log, net, allows);
      var r := SendOrPoll(tx, net, allows);
      assert tx'.(receipt := None) == r.tx;
    }
  }

  /** A handler does one send-or-poll on at most one phase, then may store its receipt. */
  lemma HandlePhases(cfg: Config, d: Delegator, read: Status, block: nat, env: Env)
    ensures var h := Handle(cfg, d, read, block, env);
            && PhaseStep(d.queuedTx, h.d.queuedTx, h.queued, env.net, true)
            && PhaseStep(d.exitTx, h.d.exitTx, h.exit, env.net, true)
            && PhaseStep(d.withdrawTx, h.d.withdrawTx, h.withdraw, env.net, false)
  {
  }

  /** At every moment of every run at most EXPIRATION + 2 polls of one transaction have failed. */
  lemma FailedPollsBounded(cfg: Config, actions: seq<Action>, k: nat)
    ensures var s := Run(cfg, START, actions);
            && (k <= |s.queuedLog| ==> Failures(s.queuedLog[..k]) <= EXPIRATION + 2)
            && (k <= |s.exitLog| ==> Failures(s.exitLog[..k]) <= EXPIRATION + 2)
            && (k <= |s.withdrawLog| ==> Failures(s.withdrawLog[..k]) <= EXPIRATION + 2)
  {
    var s := Run(cfg, START, actions);
    EveryRunFollowsProtocol(cfg, actions);
    if k <= |s.queuedLog| { FailuresBounded(s.queuedLog, k); }
    if k <= |s.exitLog| { FailuresBounded(s.exitLog, k); }
    if k <= |s.withdrawLog| { FailuresBounded(s.withdrawLog, k); }
  }

  /** In every run, late handlers included, each phase follows the protocol: one
      tracked id, a new one only after the old is forgotten, a zero id with zero
      attempts, and never more than EXPIRATION + 2 failed polls of one id. */
  lemma {:induction false} EveryRunFollowsProtocol(cfg: Config, actions: seq<Action>)
    ensures var s := Run(cfg, START, actions);
            && PhaseProtocol(s.d.queuedTx, s.queuedLog)
            && PhaseProtocol(s.d.exitTx, s.exitLog)
            && PhaseProtocol(s.d.withdrawTx, s.withdrawLog)
    decreases |actions|
  {
    if actions != [] {
      var s := Run(cfg, START, actions[..|actions| - 1]);
      var a := actions[|actions| - 1];
      EveryRunFollowsProtocol(cfg, actions[..|actions| - 1]);
      if a.RunHandler? && (a.read, a.block) in s.inFlight {
        var h := Handle(cfg, s.d, a.read, a.block, a.env);
        HandlePhases(cfg, s.d, a.read, a.block, a.env);
        PhaseStepKeepsProtocol(s.d.queuedTx, h.d.queuedTx, s.queuedLog, h.queued, a.env.net, true);
        PhaseStepKeepsProtocol(s.d.exitTx, h.d.exitTx, s.exitLog, h.exit, a.env.net, true);
        PhaseStepKeepsProtocol(s.d.withdrawTx, h.d.withdrawTx, s.withdrawLog, h.withdraw, a.env.net, false);
      }
    }
  }
}
