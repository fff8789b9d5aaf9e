# Hayabusa end-to-end suite: a verified model

This project models the stateful parts of the Hayabusa end-to-end test suite and
transaction simulator and proves what they keep, over all inputs, all runs and all
interleavings.

* **Stargate reward distribution** (`Stargate*.dfy`). Delegators join at a start period
  and leave by scheduling a weight reduction; rewards are paid lazily by a claim that
  rolls stored increments into cumulative weights. `StargateModel` gives each transaction
  as a step on the whole state, `StargateEager` the sums over active delegations that the
  contract never computes, `StargateInvariant` and `StargateTheorems` the results about
  all runs, `StargateExact` when lazy and eager settlement agree, `StargateAmounts` what
  each transaction moves and each period pays in terms of stakes and multipliers,
  `StargateStepBack` a run in which a late claim sets the populated marker back and lazy
  and eager differ, and `StargateContract` the contract itself with its mappings changed
  in place.
* **Position allocator** (`Positions`, `PositionManager`): four maps that stay consistent
  through registration, release and allocation in any order.
* **Delegators** (`Transactions`, `Delegators`, `DelegatorCalls`, `DelegatorLifecycle`,
  `DelegatorPositions`, `DelegatorDispatch`): a state machine that sends, polls, expires
  and resends transactions, with the status read outside the lock and the handler run
  later.
* **Validators** (`Validators`, `ValidatorCalls`, `ValidatorLifecycle`): reconciliation
  with the chain and the queue, exit and withdraw handlers, with the allocator they
  register at.
* **Staker ledger** (`StakerLedger`): `effectiveVET` against a balance that can receive
  forced VET, with receivers that call back in before a withdrawal has finished.
* **Cleanup** (`CleanupScan`, `Cleanup`): windows over delegation ids against a scan with
  buffers of 1000.
* **Smaller pieces**: the nested-floor reward (`Rewards`), the genesis storage encoder and
  decoder (`Genesis`), the port allocator (`Ports`).

`Common`, `Arith`, `Sums`, `Runs` and `Lifecycle` hold what the others share. An object whose
methods change it is a class here; its methods are proved against functions on values, and
the results about runs are stated for those functions. `dafny verify dfyconfig.toml` checks
everything.

## What is assumed of the surroundings

* The native staker (it is not part of this model): completed periods only grow; a new
  delegation has a fresh id, a start period of at least 1 and after the completed ones; its
  stake and multiplier are fixed; its exit is accepted at most once and only once it has
  started, and sets the end to the completed periods plus one (until then the end is the
  largest uint32); the reward of a completed period is fixed. An answer that breaks these
  rules is treated as a revert of the native call.
* The native ledger of `Staker.sol` pays back whole VET that it holds.
* Receipts, block numbers, validator records, random bytes, shuffles, map iteration orders
  and whether a port can be bound are inputs, quantified over.
* `thor.InitialCurveFactor` and `thor.NumberOfBlocksPerYear` are parameters of the reward.
* Poll expiry is 6 and `validation.StatusExit` is the largest validation status; a validator
  exists exactly if its status is not unknown.
* Addresses, ids and position names are numbers: they are only compared.

## What the proofs found about the code

The model follows the code. In the first entry the code contradicts its own comment; the
others are behaviours that no comment or document announces.

* `hayabusa/stargate/stargate.sol:152` says weights are rolled once per validator and period.
  Line 162 sets `populatedWeights` to the claimer's last period even if that is lower, so a
  period can be rolled twice (`StargateStepBack`). Solvency survives; shares are exact
  exactly when nothing is carried over twice (`StargateExact.PopulatedWeightsAreTrueIff`).
* `cmd/txsimulation/devnetcleanup/delegations.go:52` adds 1 in place to `previousCleaned`, so
  a run that fails between two successful ones leaves an id out
  (`Cleanup.RunsCoverOnceIff`).
* `cmd/txsimulation/validators/validator.go:130-138` drops and registers again an active
  validator that is offline, in one call, and registers one that comes back, with its
  delegations still outstanding in both cases (`Validators.RegistrationDisciplinedIff`);
  either breaks the allocator's counters (`Positions.CapacityLawIff`).
* `cmd/txsimulation/delegations/delegator.go:186` takes a zero `activatedBlock` for "not yet
  activated"; an activation that wraps to zero leaves that guard open, and a late handler
  can activate again (`Delegators.TwoPhaseSafetyIff`, `Delegators.SafetyNeedsNonZeroBlocks`).
* `cmd/txsimulation/delegations/delegator.go:161-174` can queue a delegator after its cleanup
  has given the position back (`DelegatorDispatch.QueuedWithoutPosition`).
* `cmd/txsimulation/validators/state_manager.go:94-95` adopts an existing validator as queued
  with its start block; `validator.go:193` then never looks at it again
  (`Validators.QueuedLeavesIff`, `Validators.AdoptionHappens`).
* `cmd/txsimulation/validators/state_manager.go:136-139` takes over a signalled exit without
  keeping its receipt; such a validator is never withdrawn
  (`Validators.ExitSignalledWithdrawsIff`, `Validators.ExitWithoutReceiptHappens`).
* The uint32 sum at `cmd/txsimulation/validators/validator.go:260-266` can wrap
  (`Validators.WaitsInFullIff`, `Validators.EarlyWithdrawalHappens`).

## Model

| member | source | states |
|---|---|---|
| `StargateTheorems.Solvency` | hayabusa/stargate/stargate.sol:50-175 | In every run, runs that set `populatedWeights` back included: what is paid out of a period of a validator, over all its delegations, never exceeds the delegator rewards of that period |
| `StargateTheorems.SubtractionNeverReverts` | hayabusa/stargate/stargate.sol:200-203 | In every run no claim reverts on the checked `previous + increase - reduction` |
| `StargateTheorems.GaplessPayments` | hayabusa/stargate/stargate.sol:124-170 | In every run the periods paid to a delegation are exactly start..`claims[id]` without gaps, within its own end and the completed periods, and what it received is the sum of those payments |
| `StargateTheorems.RevertsChangeNothing` | hayabusa/stargate/stargate.sol:50-106 | Supporting fact: a transaction that reverts leaves the whole state as it was; a claim that pays moves the books of its own delegation only, by the amount it reports |
| `StargateExact.PopulatedWeightsAreTrueIff` | hayabusa/stargate/stargate.sol:150-162 | The exact condition over whole runs: all populated slots of a validator equal the sums of the weights of the delegations with start <= p <= end if and only if no claim on that validator that went through carried weight over in periods it rolled a second time |
| `StargateExact.ForwardRunIsClean` | hayabusa/stargate/stargate.sol:150-162 | A run in which no claim ends below the populated marker satisfies that condition for every validator |
| `StargateExact.LazyRefinesEager` | hayabusa/stargate/stargate.sol:111-175 | In runs that meet the condition for its validator, a delegation has received exactly what settling every period at once over its true active weight would have paid, whoever populated the periods and however the claims were split |
| `StargateAmounts.PaymentsAreProportional` | hayabusa/stargate/stargate.sol:61-246 | In those runs each payment of a period is its reward times the delegation's weight over the summed weights of the delegations whose life covers the period, rounded down, with each weight given only by 100 q <= stake * multiplier < 100 q + 100 |
| `StargateAmounts.MultiplierCounts` | hayabusa/stargate/stargate.sol:61-61 | Two equal stakes with multipliers 100 and 200 weigh 300 together, and the second earns 600 of 900 |
| `StargateAmounts.JoinRaisesWeight` | hayabusa/stargate/stargate.sol:50-67 | A join goes through exactly if the sender has no delegation, sends something, the native staker may accept it and nothing overflows; it raises the slot of the start period, and no other, by the weight of stake and multiplier |
| `StargateAmounts.ExitRaisesReduction` | hayabusa/stargate/stargate.sol:71-87 | A scheduled exit goes through exactly if the delegation exists, has started, was not told to exit before and nothing overflows; it raises the reduction of the period after the last one, and no other, by that weight |
| `StargateAmounts.ClaimSettlesUpToLast` | hayabusa/stargate/stargate.sol:111-175 | A claim that pays settles every period up to the smaller of its end and the completed periods and moves the populated marker there |
| `StargateAmounts.ClaimGoesThroughIff` | hayabusa/stargate/stargate.sol:96-106 | A claim goes through exactly if its sum is positive and the transfer works; the refusals for no delegation, a zero sum and a failed transfer |
| `StargateAmounts.ClaimCases` | hayabusa/stargate/stargate.sol:121-144 | Exactly when a delegation is not active and when nothing is left to claim; otherwise only an overflow stands in the way |
| `StargateAmounts.RollFailsIff` | hayabusa/stargate/stargate.sol:151-155 | Rolling stops exactly at a slot whose sum overflows or whose reduction is larger |
| `StargateAmounts.SumFits` | hayabusa/stargate/stargate.sol:164-170 | A sum of shares that goes through fits 256 bits, and so does every product in it |
| `StargateAmounts.SumFailsFor` | hayabusa/stargate/stargate.sol:164-170 | It fails only because a product or the running sum does not fit |
| `StargateAmounts.PeriodIsAppended` | hayabusa/stargate/stargate.sol:215-227 | The environment: a completed period is appended to its validator's rewards |
| `StargateExact.UnpaidRemainder` | hayabusa/stargate/stargate.sol:231-246 | In those runs, once all active delegations have claimed a period, the unpaid rest is less than their number |
| `StargateTheorems.RunInv` | hayabusa/stargate/stargate.sol:50-175 | The invariant behind the results: stored weight is exact above the high-water mark and at least the active weight below it; stored rewards, claims, payments and receipts agree |
| `StargateExact.StepExactIff` | hayabusa/stargate/stargate.sol:50-175 | Step by step: a validator is exact afterwards if and only if it was before and the step carries nothing over for it |
| `StargateExact.ClaimNeverLowers` | hayabusa/stargate/stargate.sol:196-211 | No claim lowers a stored weight, so one that is too large stays too large |
| `StargateEager.Recurrence` | hayabusa/stargate/stargate.sol:200-203 | The eager sums obey the recurrence the contract rolls: active weight changes by who joins and who left, and nobody leaves who was not active |
| `StargateEager.SumsJoined` | hayabusa/stargate/stargate.sol:61-66 | How one new delegation changes the eager sums of every validator and period |
| `StargateEager.SumsLeft` | hayabusa/stargate/stargate.sol:80-85 | How the end of one delegation changes the eager sums of every validator and period |
| `StargateInvariant.RollCovers` | hayabusa/stargate/stargate.sol:150-155 | Rolling over slots, populated before or not, never underflows and leaves every slot at or above the active weight |
| `StargateInvariant.RollRecurrence` | hayabusa/stargate/stargate.sol:196-211 | Every rolled slot satisfies the recurrence; the early return for a zero weight loses nothing |
| `StargateInvariant.RollExact` | hayabusa/stargate/stargate.sol:150-155 | Rolling over slots not populated before gives the active weights exactly |
| `StargateInvariant.ShareAtMostEager` | hayabusa/stargate/stargate.sol:231-246 | A share divided by the stored weight is at most the eager share, and equal when the stored weight is true |
| `StargateAmounts.SlotArithmetic` | hayabusa/stargate/stargate.sol:200-203 | The checked arithmetic of one slot: exactly when it overflows or underflows |
| `StargateInvariant.SharesAddUp` | hayabusa/stargate/stargate.sol:164-170 | The third loop pays exactly the sum of the per-period entries, for any split of a period range |
| `StargateExact.KeepsExactIff` | hayabusa/stargate/stargate.sol:150-162 | For one claim from exact weights: the weights of its validator stay exact if and only if nothing is carried over in the periods it rolls a second time |
| `StargateStepBack.StepBackUnderpays` | hayabusa/stargate/stargate.sol:150-162 | A concrete run in which a late claim sets the marker back, a period is rolled twice, and the only active delegation gets half its reward |
| `StargateStepBack.StepBackCarries` | hayabusa/stargate/stargate.sol:150-162 | That run is neither forward nor free of carrying |
| `StargateContract.Stargate.AddDelegator` | hayabusa/stargate/stargate.sol:50-67 | The transaction on the mappings in place, revert cases in order, has the effect of the model step |
| `StargateContract.Stargate.DisableAutoRenew` | hayabusa/stargate/stargate.sol:71-87 | Same, for scheduling the reduction |
| `StargateContract.Stargate.ClaimRewards` | hayabusa/stargate/stargate.sol:96-106 | Same, for a claim; a zero total or a failed transfer restores the storage |
| `StargateContract.Stargate.GetClaimableRewards` | hayabusa/stargate/stargate.sol:111-175 | The three loops on the stored mappings, with every early return and checked overflow |
| `StargateContract.Stargate.UpdateStoredWeights` | hayabusa/stargate/stargate.sol:196-211 | One slot rolled in place |
| `StargateContract.Stargate.RollStoredWeights` | hayabusa/stargate/stargate.sol:150-155 | The first loop writes the rolled weights of all its periods, or stops at the first failure |
| `StargateContract.Stargate.RollStoredRewards` | hayabusa/stargate/stargate.sol:157-161 | The second loop stores the rewards of the periods with weight |
| `StargateContract.Stargate.SumStoredShares` | hayabusa/stargate/stargate.sol:164-170 | The third loop sums the shares of the claimed periods or overflows |
| `Positions.Conservation` | cmd/txsimulation/xnodes/position_manager.go:107-230 | After any calls in any order, `totalActive` of each position is what the registered validators have handed out, nothing available is negative, and both validator maps have the same keys |
| `Positions.CapacityLawIff` | cmd/txsimulation/xnodes/position_manager.go:71-177 | With fresh ids: at every moment of a run available stays within 0..original, `totalActive` counts the recorded delegations on registered validators and never passes `MainnetUsed`, and `Available()` is not negative, if and only if no registration takes effect while its validator has outstanding delegations |
| `Positions.CapacityLaw` | cmd/txsimulation/xnodes/position_manager.go:71-84 | The same law at the end of a run that meets the condition |
| `Positions.UndisciplinedMiscounts` | cmd/txsimulation/xnodes/position_manager.go:107-127 | A registration that breaks the condition leaves a position with more holders than its counter says |
| `Positions.StaleReleaseOverflows` | cmd/txsimulation/xnodes/position_manager.go:129-148 | Releasing such a holder then makes available larger than original |
| `Positions.ReturningValidatorBreaksCapacity` | cmd/txsimulation/xnodes/position_manager.go:129-177 | A concrete run that breaks the condition ends with more positions available than allotted and a negative counter |
| `Positions.StepConserves` | cmd/txsimulation/xnodes/position_manager.go:107-177 | Each call keeps the conservation law |
| `Positions.RegisterEffect` | cmd/txsimulation/xnodes/position_manager.go:107-127 | Supporting fact: a validator is registered with exactly its allocation, once, and no other is touched |
| `Positions.UnregisterEffect` | cmd/txsimulation/xnodes/position_manager.go:150-177 | Supporting fact: dropping a validator takes what it had handed out off each counter and keeps the delegations |
| `Positions.ReleaseEffect` | cmd/txsimulation/xnodes/position_manager.go:129-148 | Supporting fact: a release gives one position back to a validator that is still registered and forgets the holder in any case |
| `Positions.AllocateEffect` | cmd/txsimulation/xnodes/position_manager.go:206-226 | Supporting fact: an allocation takes one where there is one below the cap and names the holder |
| `Positions.StepCounts` | cmd/txsimulation/xnodes/position_manager.go:107-177 | Each call that meets the condition keeps holder counts and caps |
| `PositionManager.PositionManager.NewPosition` | cmd/txsimulation/xnodes/position_manager.go:179-230 | For every shuffle order: fails exactly when no registered validator has a positive count for a position below its cap, otherwise moves one unit from available to active and records the holder |
| `PositionManager.PositionManager.UnregisterDelegator` | cmd/txsimulation/xnodes/position_manager.go:129-148 | The maps in place follow the model step, for stale delegations too |
| `PositionManager.PositionManager.UnregisterValidator` | cmd/txsimulation/xnodes/position_manager.go:150-177 | Same, for dropping a validator |
| `PositionManager.PositionManager.RegisterValidator` | cmd/txsimulation/xnodes/position_manager.go:107-127 | Same, for registering one |
| `PositionManager.PositionManager.SubtractUsed` | cmd/txsimulation/xnodes/position_manager.go:169-173 | The loop over the validator's map subtracts what is in use, in whatever order the map is walked |
| `PositionManager.PositionManager.Available` | cmd/txsimulation/xnodes/position_manager.go:71-84 | The loop returns the total room below the caps in any order |
| `Delegators.TwoPhaseSafetyIff` | cmd/txsimulation/delegations/delegator.go:126-238 | For every run, with the status read unlocked and the handlers run later in any interleaving: from the queue receipt on the status never moves back and no stored receipt or activation block changes if and only if no queued handler activates a delegation that is already past its activation |
| `Delegators.TwoPhaseSafety` | cmd/txsimulation/delegations/delegator.go:126-238 | It holds in particular in every run whose activations all compute a non-zero block |
| `Delegators.ZeroActivationGoesBack` | cmd/txsimulation/delegations/delegator.go:186-188 | Wherever an activation of a queued delegator computes block zero and the exit check does not panic on a zero period length, some interleaving moves the status back from exit signalled to active |
| `Delegators.SafetyNeedsNonZeroBlocks` | cmd/txsimulation/delegations/delegator.go:309-319 | For every configuration some run from the start reaches an activation block that wraps to zero (4294967295 + 1 * 1), stores the queue receipt and later moves the status back |
| `Delegators.LatePendingReopensIff` | cmd/txsimulation/delegations/delegator.go:156-178 | Supporting fact: exactly when a late pending handler queues again a delegator that was given up as withdrawn |
| `Delegators.EverySendIsDue` | cmd/txsimulation/delegations/delegator.go:156-238 | In every run, however late a handler runs, it sends or polls only when its transaction is due in the state it finds; with non-zero activations an exit also finds an activation block |
| `DelegatorCalls.ExitsExactlyWhenDue` | cmd/txsimulation/delegations/delegator.go:199-219 | In every run an active handler acts on the exit exactly if there is no exit receipt, the validator has exited or the block has come that is `activatedBlock + stakingPeriods * period` (4294967295 for unlimited or saturated periods), and there is something to poll or the send is accepted |
| `DelegatorCalls.QueueReceiptBringsIdentity` | cmd/txsimulation/delegations/delegator.go:283-306 | Over runs: the step that stores the queue receipt stores the mined receipt, the delegation id and the start period that come with it and the validator's period, and the delegator is queued |
| `DelegatorCalls.IdentityStays` | cmd/txsimulation/delegations/delegator.go:283-306 | Over runs: from then on id, start period, period length and queue transaction never change |
| `DelegatorCalls.EverQueuedIff` | cmd/txsimulation/delegations/delegator.go:156-178 | A pending delegator can ever be queued if and only if it has no queue receipt |
| `DelegatorCalls.EverActiveIff` | cmd/txsimulation/delegations/delegator.go:181-196 | A queued delegator can ever become active if and only if it has no activation block |
| `DelegatorCalls.EverExitsIff` | cmd/txsimulation/delegations/delegator.go:199-219 | An active delegator can ever signal its exit if and only if it has no exit receipt and the exit check does not divide by a zero period |
| `DelegatorCalls.EverWithdrawnIff` | cmd/txsimulation/delegations/delegator.go:222-238 | An exit-signalled delegator can ever be withdrawn if and only if it has its exit receipt and no withdraw receipt |
| `DelegatorCalls.QueueCall` | cmd/txsimulation/delegations/delegator.go:156-306 | Everything one pending handler does, over its inputs |
| `DelegatorCalls.ActivationCall` | cmd/txsimulation/delegations/delegator.go:181-319 | Everything one queued handler does: it activates exactly when the start period is at least the completed iterations less one, at the wrapped block of that period |
| `DelegatorCalls.ExitCall` | cmd/txsimulation/delegations/delegator.go:199-345 | Everything one active handler does, with the exit block written out |
| `DelegatorCalls.WithdrawCall` | cmd/txsimulation/delegations/delegator.go:222-374 | Everything one exit-signalled handler does, with the delay written out: a mined withdrawal ends the delegation, no revert is put up with |
| `Lifecycle.MinExitBlockIs` | cmd/txsimulation/lifecycle/lifecycle.go:94-103 | The exit block as a sum of the activation block and all staking periods, and when it saturates |
| `Lifecycle.QueueBlockIs` | cmd/txsimulation/lifecycle/lifecycle.go:90-92 | The queue block as a sum |
| `Lifecycle.MinWithdrawBlockIs` | cmd/txsimulation/lifecycle/lifecycle.go:105-107 | The first withdraw block as a sum |
| `Delegators.EveryRunFollowsProtocol` | cmd/txsimulation/delegations/delegator.go:377-455 | In every run each phase tracks at most one transaction id, sends again only after forgetting it, and keeps zero attempts for a zero id |
| `Delegators.HandlePhases` | cmd/txsimulation/delegations/delegator.go:126-374 | Supporting fact: a handler does one send-or-poll on at most its own phase and stores a receipt only after it |
| `Transactions.SendOrPollKeepsProtocol` | cmd/txsimulation/delegations/delegator.go:377-455 | One send-or-poll keeps the protocol of its phase, whatever the network answers |
| `Transactions.SendOrPollMoves` | cmd/txsimulation/delegations/delegator.go:377-455 | Everything one send-or-poll does, over its inputs |
| `Transactions.ForgottenOnTheEighth` | cmd/txsimulation/delegations/delegator.go:416-424 | A transaction survives seven failed polls and is forgotten on the eighth |
| `Delegators.FailedPollsBounded` | cmd/txsimulation/delegations/delegator.go:416-424 | At every moment of every run, for each of the three phases, at most expiration + 2 polls of one id have failed |
| `DelegatorLifecycle.Transaction.SendOrPoll` | cmd/txsimulation/delegations/delegator.go:377-455 | Send, poll, expire and reset on the transaction record in place |
| `DelegatorLifecycle.Transaction.HandleReceiptError` | cmd/txsimulation/delegations/delegator.go:416-433 | Counting a failed poll or resetting the record |
| `DelegatorLifecycle.Transaction.Reset` | cmd/txsimulation/delegations/delegator.go:42-46 | The record is as new |
| `DelegatorLifecycle.DelegatorLifecycle.Process` | cmd/txsimulation/delegations/delegator.go:127-153 | The dispatch and its handler on the object in place; the cleanup gives the position back exactly in the two final statuses |
| `DelegatorLifecycle.DelegatorLifecycle.ProcessPendingState` | cmd/txsimulation/delegations/delegator.go:156-306 | The pending handler in place, partial updates on errors included |
| `DelegatorLifecycle.DelegatorLifecycle.ProcessQueuedState` | cmd/txsimulation/delegations/delegator.go:181-319 | The queued handler in place, uint32 activation block included |
| `DelegatorLifecycle.DelegatorLifecycle.ProcessActiveState` | cmd/txsimulation/delegations/delegator.go:199-345 | The active handler in place |
| `DelegatorLifecycle.DelegatorLifecycle.ProcessExitedState` | cmd/txsimulation/delegations/delegator.go:222-374 | The exit-signalled handler in place |
| `DelegatorPositions.PositionsReturnedOnce` | cmd/txsimulation/delegations/delegator.go:127-153 | Over every run of atomic `Process` steps a position handed out is given back at most once although the cleanup runs on every later block, is gone from the manager from the first `Process` that ends exit signalled or withdrawn, and is held until then |
| `DelegatorPositions.StepEffects` | cmd/txsimulation/delegations/delegator.go:127-153 | Supporting fact: what creating a delegator, processing it and a validator call do to both sides |
| `DelegatorDispatch.ReturnedAtMostOnce` | cmd/txsimulation/delegations/delegator.go:126-153 | With dispatches, handlers and cleanups run in any interleaving, the status read outside the lock by both, a position is given back at most once and the allocator stays balanced |
| `Delegators.CompleteUnlessUndone` | cmd/txsimulation/delegations/delegator.go:127-238 | A handler run on a delegator with a final status leaves it final if and only if it is neither a pending one that finds the mined transaction nor a queued one that activates |
| `DelegatorDispatch.HeldUntilCompleteIff` | cmd/txsimulation/delegations/delegator.go:126-188 | For every interleaving: each delegator keeps its position until it is complete if and only if no late handler takes back the final status of one whose position is already leaving |
| `DelegatorDispatch.OneCleanupOneRelease` | cmd/txsimulation/delegations/delegator.go:148-153 | Supporting fact: each cleanup that has read a final status calls the allocator once |
| `DelegatorDispatch.QueuedWithoutPosition` | cmd/txsimulation/delegations/delegator.go:148-178 | For every configuration some run ends with a queued delegator whose position is gone |
| `Validators.StatusMovesForward` | cmd/txsimulation/validators/validator.go:117-280 | Over every run, reconciliation with an existing validator included, the status only moves forward |
| `Validators.WithdrawalsWait` | cmd/txsimulation/validators/validator.go:250-280 | Every withdrawal of every run is submitted with an exit receipt present and, when the sums do not wrap, at or past exit block + withdraw delay + staking period + the applicable cooldowns |
| `Validators.WaitsInFullIff` | cmd/txsimulation/validators/validator.go:259-269 | A withdrawal waits the full sum if and only if that sum fits 32 bits |
| `Validators.EarlyWithdrawalHappens` | cmd/txsimulation/validators/validator.go:259-269 | For every setting with a positive staking period, a run whose wait wraps and after which some call withdraws too early |
| `Validators.EverySendIsDue` | cmd/txsimulation/validators/validator.go:155-280 | Supporting fact: at most one transaction per call and only when due: no queueing of a known validator, no exit of the last active one or before its minimum exit block, no second send after a receipt |
| `ValidatorCalls.ReceiptsMeanStatus` | cmd/txsimulation/validators/validator.go:155-280 | In every run a stored queue receipt means at least queued, an exit receipt at least exit signalled, a withdraw receipt withdrawn |
| `ValidatorCalls.PendingCanBeQueued` | cmd/txsimulation/validators/validator.go:155-187 | In every run a pending validator is queued by one call at its queue block, unknown to the chain and confirmed in block b, with receipt b and nothing else changed |
| `ValidatorCalls.ActiveExitsIff` | cmd/txsimulation/validators/validator.go:214-248 | An active validator can ever signal its exit if and only if it has no exit receipt and the exit check does not divide by a zero period |
| `ValidatorCalls.FirstLook` | cmd/txsimulation/validators/state_manager.go:54-85 | Everything the first look at the chain does |
| `ValidatorCalls.FirstCallGoesOn` | cmd/txsimulation/validators/validator.go:117-128 | A failed first look ends the call; otherwise it goes on as any later call |
| `ValidatorCalls.PendingCall` | cmd/txsimulation/validators/validator.go:155-187 | Everything one call on a pending validator does |
| `ValidatorCalls.QueuedCall` | cmd/txsimulation/validators/validator.go:189-212 | Everything one call on a queued validator does |
| `ValidatorCalls.ActiveCall` | cmd/txsimulation/validators/validator.go:214-248 | Everything one call on an active validator does, with the exit block written out |
| `ValidatorCalls.WithdrawCall` | cmd/txsimulation/validators/validator.go:250-280 | Everything one call on a validator with a signalled exit does, with the wait written out |
| `Validators.ReceiptsStay` | cmd/txsimulation/validators/transaction_manager.go:68-96 | Over every run an exit or withdraw receipt, once stored, stays |
| `Validators.RefreshForward` | cmd/txsimulation/validators/state_manager.go:38-85 | Supporting fact: the initial reconciliation happens once and never moves the status back |
| `Validators.RegistrationConserves` | cmd/txsimulation/validators/validator.go:130-138 | What a validator tells the allocator keeps the conservation law |
| `Validators.RegistrationDecides` | cmd/txsimulation/validators/validator.go:130-138 | Who is registered after the call, with which allocation |
| `Validators.RegistrationDisciplinedIff` | cmd/txsimulation/validators/validator.go:130-138 | For every record and allocator state: the call keeps the allocator's condition if and only if it registers nothing, no position is configured, the validator has no outstanding delegation, or it is still registered and online |
| `ValidatorLifecycle.ValidatorLifecycle.Process` | cmd/txsimulation/validators/validator.go:117-153 | The call on the composed objects: new validator state, transactions attempted, and the allocator's new state |
| `ValidatorLifecycle.ValidatorLifecycle.HandleDelegationRegistration` | cmd/txsimulation/validators/validator.go:130-138 | First out, then in, on the shared position manager |
| `ValidatorLifecycle.ValidatorLifecycle.ProcessPendingState` | cmd/txsimulation/validators/validator.go:155-187 | The pending handler in place |
| `ValidatorLifecycle.ValidatorLifecycle.ProcessQueuedState` | cmd/txsimulation/validators/validator.go:189-212 | The queued handler in place |
| `ValidatorLifecycle.ValidatorLifecycle.ProcessActiveState` | cmd/txsimulation/validators/validator.go:214-248 | The active handler in place |
| `ValidatorLifecycle.ValidatorLifecycle.ProcessExitSignalledState` | cmd/txsimulation/validators/validator.go:250-280 | The withdrawal handler in place with its uint32 sum |
| `ValidatorLifecycle.StateManager.Refresh` | cmd/txsimulation/validators/state_manager.go:38-85 | Reconciliation in place, error returns included |
| `ValidatorLifecycle.StateManager.HandleExistingValidator` | cmd/txsimulation/validators/state_manager.go:87-106 | Adopting an existing validator in place |
| `ValidatorLifecycle.StateManager.CheckExited` | cmd/txsimulation/validators/state_manager.go:108-142 | The exit check in place |
| `Validators.ActivationBlockStays` | cmd/txsimulation/validators/state_manager.go:47-52 | Over every run the activation block never changes from the first active status on, since later transitions pass zero |
| `Validators.QueuedLeavesIff` | cmd/txsimulation/validators/validator.go:189-212 | A queued validator can ever leave that status if and only if it has no activation block yet and is known by a receipt or an id |
| `Validators.AdoptedStaysQueued` | cmd/txsimulation/validators/state_manager.go:87-106 | Over every run, a queued validator adopted with its start block is the same after every further call |
| `Validators.AdoptionHappens` | cmd/txsimulation/validators/state_manager.go:87-106 | For every setting, a run of two calls that ends so |
| `Validators.ExitSignalledWithdrawsIff` | cmd/txsimulation/validators/validator.go:250-257 | A validator with a signalled exit can ever be withdrawn if and only if its exit receipt is there |
| `Validators.ExitWithoutReceiptStays` | cmd/txsimulation/validators/state_manager.go:130-139 | Over every run, a validator whose exit was reconciled without a receipt never changes again |
| `Validators.ExitWithoutReceiptHappens` | cmd/txsimulation/validators/state_manager.go:130-139 | For every setting and block, a first call that ends so |
| `ValidatorLifecycle.TransactionManager.QueueValidator` | cmd/txsimulation/validators/transaction_manager.go:50-66 | A queue receipt already there is kept; otherwise one is stored exactly on success |
| `ValidatorLifecycle.TransactionManager.SignalExit` | cmd/txsimulation/validators/transaction_manager.go:68-81 | An exit receipt already there is kept; otherwise one is stored exactly on success |
| `ValidatorLifecycle.TransactionManager.WithdrawStake` | cmd/txsimulation/validators/transaction_manager.go:83-96 | A withdraw receipt already there is kept; otherwise one is stored exactly on success |
| `StakerLedger.LedgerBalances` | cmd/txsimulation/contract/compiled/Staker.sol:47-153 | Over every run with reverts and re-entrant withdrawals the balance is `effectiveVET` plus the VET forced in, and `effectiveVET` is the native ledger's stake and a multiple of 1e18, at the end and in every state that outside code sees |
| `StakerLedger.EveryVetIsAccountedFor` | cmd/txsimulation/contract/compiled/Staker.sol:47-153 | After any run `effectiveVET` is what successful calls brought in less what they paid out, nested calls counting only if all calls around them succeed |
| `StakerLedger.WithdrawalsAreCovered` | cmd/txsimulation/contract/compiled/Staker.sol:89-96 | A withdrawal from a balanced state fails only if it is not allowed or the receiver rejects it |
| `StakerLedger.ReceiverSeesSettledLedger` | cmd/txsimulation/contract/compiled/Staker.sol:144-153 | Supporting fact: when the receiver of a payment gets control the stake has left all three books |
| `StakerLedger.PausesHold` | cmd/txsimulation/contract/compiled/Staker.sol:288-320 | Supporting fact: under the pause switches and for the wrong sender nothing changes; a stake is accepted exactly if it is a positive whole number of VET up to the supply and nothing is paused |
| `StakerLedger.DepositsDecided` | cmd/txsimulation/contract/compiled/Staker.sol:295-313 | Bit by bit of the switches: exactly which deposits go through, and that they move their amount in all three books |
| `StakerLedger.WithdrawalsDecided` | cmd/txsimulation/contract/compiled/Staker.sol:89-153 | The same for withdrawals |
| `StakerLedger.Staker.Withdraw` | cmd/txsimulation/contract/compiled/Staker.sol:89-153 | A withdrawal on the object in place, running the receiver's calls on it before it finishes |
| `StakerLedger.Staker.Receive` | cmd/txsimulation/contract/compiled/Staker.sol:47-128 | A payable call on the object in place |
| `StakerLedger.Staker.CallAll` | cmd/txsimulation/contract/compiled/Staker.sol:47-153 | A whole run of calls on the object in place, with the states that outside code sees |
| `CleanupScan.ScanIsFilter` | cmd/txsimulation/contract/GetValidators.sol:57-78 | A scan collects exactly the locked and exactly the withdrawable ids of its range, each in increasing order, none in both |
| `CleanupScan.ScanCollects` | cmd/txsimulation/contract/GetValidators.sol:68-77 | The two lists over the fields of the entries |
| `CleanupScan.ScanEnds` | cmd/txsimulation/contract/GetValidators.sol:58-64 | The scan stops at the first missing delegation, keeping what it has, and reverts at the first overflowing entry |
| `CleanupScan.ScanFits` | cmd/txsimulation/contract/GetValidators.sol:47-50 | The two lists together never have more entries than ids visited |
| `CleanupScan.ScanOutcome` | cmd/txsimulation/contract/GetValidators.sol:59-73 | Within contiguous ids a scan is never cut short and fails exactly on an overflowing entry |
| `CleanupScan.ScanSplits` | cmd/txsimulation/contract/GetValidators.sol:57-78 | Scanning a range in two pieces gives the lists of the whole range |
| `CleanupScan.AtMostAThousand` | cmd/txsimulation/contract/GetValidators.sol:52-55 | One fetch looks at the ids asked for, a thousand of them at most |
| `CleanupScan.GetLockedDelegators` | cmd/txsimulation/contract/GetValidators.sol:42-90 | The function with its two buffers of 1000: no slot is written out of range and the copies are the scan of at most 1000 ids |
| `Cleanup.Cleanup.SearchWindows` | cmd/txsimulation/devnetcleanup/delegations.go:58-72 | The windows compose with the bounded scan: every id from the start to the last is searched once and the appended lists are those of one scan of the whole range; with contiguous ids it succeeds exactly if every fetch gets through and no entry overflows |
| `Cleanup.Cleanup.Run` | cmd/txsimulation/devnetcleanup/delegations.go:30-87 | What each outcome searches, sends and leaves in `previousCleaned` |
| `Cleanup.Cleanup.ExitDelegations` | cmd/txsimulation/devnetcleanup/delegations.go:91-115 | One transaction per id, in order |
| `Cleanup.Cleanup.Groups` | cmd/txsimulation/devnetcleanup/delegations.go:92-100 | Groups of a hundred, none empty, that concatenate to the list |
| `Cleanup.PassesCoverOnce` | cmd/txsimulation/devnetcleanup/delegations.go:47-84 | Over any number of passes with no failure between two that succeed, no id is skipped and none searched twice |
| `Cleanup.RunsCoverOnceIff` | cmd/txsimulation/devnetcleanup/delegations.go:30-87 | From a fresh cleanup, for every sequence of runs given by the newest ids, chains and fetches they meet: each id from 1 to the last covered one is searched exactly once and in order if and only if no run fails to get through between two that do |
| `Cleanup.CoversOnceIff` | cmd/txsimulation/devnetcleanup/delegations.go:47-84 | The same from any resume point, for passes given by their outcomes |
| `Cleanup.FailureBetweenSkips` | cmd/txsimulation/devnetcleanup/delegations.go:51-53 | A failure between two successes leaves an id that no later pass searches |
| `Cleanup.FailedPassSkipsAnId` | cmd/txsimulation/devnetcleanup/delegations.go:51-53 | A concrete sequence of passes after which an id is never searched |
| `Rewards.RewardBounds` | hayabusa/rewards.go:8-24 | With C the curve factor, B blocks per year, T the stake, R the result: (R B)^2 <= C^2 10^18 T < ((R + 1) B + C 10^18)^2 |
| `Rewards.RewardMonotone` | hayabusa/rewards.go:8-24 | More stake never means a smaller reward |
| `Rewards.GetExpectedReward` | hayabusa/rewards.go:8-24 | The accumulators overwritten step by step compute that reward |
| `Genesis.KeyRoundTrip` | hayabusa/genesis.go:117-119 | Decoding the key of a name gives the name if and only if it has at most 32 bytes and does not start with NUL |
| `Genesis.HexTable` | cmd/txsimulation/devnet.go:306-307 | Sixteen digits, written in lower case and read in both |
| `Genesis.OnlyTheseDigits` | cmd/txsimulation/devnet.go:306-307 | Nothing else is read as a digit |
| `Genesis.HexEncodeDigits` | hayabusa/genesis.go:117-119 | Each byte is written as its high and its low digit, in order |
| `Genesis.HexDecodesIff` | cmd/txsimulation/devnet.go:307-310 | A key decodes exactly if it has an even number of digits and nothing else |
| `Genesis.PrefixIsOptional` | cmd/txsimulation/devnet.go:306-306 | The prefix of a storage key is optional |
| `Genesis.WordBytes` | hayabusa/genesis.go:117-119 | Short names are padded on the left, long ones lose their front |
| `Genesis.ValueRoundTrip` | hayabusa/genesis.go:107-115 | Every uint32 survives its storage word; zero gives the default |
| `Genesis.StorageValueIsNumber` | cmd/txsimulation/devnet.go:327-336 | Parsing any stored word gives its number if it fits 32 bits and an error otherwise |
| `Genesis.ProcessStorageValues` | cmd/txsimulation/devnet.go:304-325 | For every iteration order: fails exactly if an entry is malformed, otherwise takes the value of an entry with the name, or leaves the field |
| `Genesis.Apply` | hayabusa/config.go:56-62 | The two parameter entries written into the storage map |
| `Genesis.AppliedEntries` | hayabusa/config.go:56-62 | What is in the storage afterwards, entry by entry |
| `Genesis.ApplyReadsBack` | hayabusa/config.go:56-62 | Reading back what `Apply` wrote recovers max-block-proposers (3 for zero) in any iteration order and whatever else is stored under well-formed keys |
| `Ports.PortManager.NewPort` | hayabusa/port_manager.go:21-34 | Keeps the used ports the disjoint union of the lists of the ids; a new port is in 20000..32767, was not in use and goes to its id only |
| `Ports.PortManager.RemovePorts` | hayabusa/port_manager.go:36-49 | Keeps the union; frees exactly the ports of that id |
| `Ports.PortManager.RndPort` | hayabusa/port_manager.go:52-91 | Returns the first port that is unused and free when probed, in the order of the attempts and then of the sweep; panics only if the final sweep finds every port in range used or unavailable |
| `Ports.RandomPortIs` | hayabusa/port_manager.go:65-71 | The port that two random bytes stand for |
| `Ports.AppendKeeps` | hayabusa/port_manager.go:29-31 | Adding an unused port to one list keeps the disjoint union |
| `Ports.RemoveKeeps` | hayabusa/port_manager.go:45-48 | Dropping one list and its ports keeps the disjoint union |

## Left out

- `getClaimable`: taken as a simulated call whose state is discarded, which is how the tests use it. The function is public and not a view; sent as a transaction it would mark periods as claimed without paying.
- The VTHO token: a transfer succeeds or fails as the environment says; the contract's balance of it is not tracked.
- Gas, call depth, events and logging.
- `calculateEvenMax` and `calculateSkewedMax`: floating point; any positive allocation of configured positions stands for their result, so no bound relates the allocations of different validators.
- `StakeManager.ChangeStake`: an active validator that may not exit yet changes its stake; this moves neither its status nor its receipts.
- `decreaseStake`, `signalExit`, `signalDelegationExit` and `setBeneficiary` of `Staker.sol`: one call that moves no VET, without their own argument and sender checks. The views are left out.
- `getValidators`: fills arrays from the native queue, whose order the environment rules do not give.
- `EventHandler` paging, the cache of `contract.Service`, `Senders`, `TxSequence`, `Config.Validate`, key parsing, genesis accounts, node processes, HTTP and signing.
- Goroutine scheduling beyond the two phases of a dispatch, wall-clock waits, tickers and retries.
- A Go panic (a zero staking period length) ends the program; the model shows a call that changes nothing more.
- Wrap-around of delegation ids at 2^256 in the scan, where `firstID + 999` would revert.
- Memory orders of the unlocked status read: the value read is some value the status had when the dispatch was made.
- StargateExact.LazyRefinesEager: under the exact condition of `StargateExact.PopulatedWeightsAreTrueIff` for the validator; without it a payment may still happen to be eager, since shares are rounded down.
- StargateExact.UnpaidRemainder: under the same condition; a weight that is too large leaves more unpaid (`StargateStepBack.StepBackUnderpays`).
- Positions.CapacityLawIff: ids handed out are new, since they are random 32-byte hashes.
- Delegators.TwoPhaseSafetyIff: from the queue receipt on; before it a delegator given up as withdrawn can be queued again, exactly as `Delegators.LatePendingReopensIff` says.
- DelegatorPositions.PositionsReturnedOnce: for atomic `Process` steps; `DelegatorDispatch.ReturnedAtMostOnce` and `DelegatorDispatch.HeldUntilCompleteIff` say what holds when reads and handlers interleave.
- Cleanup.RunsCoverOnceIff: for newest ids that never go down; that a run succeeds exactly if it gets through is what `Cleanup.Cleanup.Run` promises for contiguous ids.
- PositionManager.PositionManager.NewPosition: the two lists that the Go code collects and shuffles are arguments with the right elements in any order.
- Genesis.ApplyReadsBack: for storage whose other keys are well formed, since the reader fails on a key that does not decode; the key of the delegator contract address is any other 32-byte word.
