/** The reward book of hayabusa/stargate/stargate.sol as a function of its calls.

    `Step` says what one transaction does to the state; a transaction that
    reverts leaves the state as it was. The native staker is the environment:
    only the rules listed in README.md are used of it. */
module StargateModel {
  import opened Common
  import opened Runs

  type Slots = map<(Address, nat), nat>   // mapping(address => mapping(uint32 => uint256))

  // ---------- the native staker ----------

  // `end` is U32_MAX until the exit has been signalled.
  datatype Delegation = Delegation(validator: Address, stake: nat, multiplier: nat, start: nat, end: nat)

  // `periodRewards[v][p - 1]` is what the delegators of v earned in the completed period p.
  datatype Chain = Chain(delegations: map<nat, Delegation>, periodRewards: map<Address, seq<nat>>)

  function Completed(c: Chain, v: Address): nat {
    if v in c.periodRewards then |c.periodRewards[v]| else 0
  }

  function PeriodReward(c: Chain, v: Address, p: nat): nat {
    if 1 <= p <= Completed(c, v) then c.periodRewards[v][p - 1] else 0
  }

  function Weight(d: Delegation): nat { (d.stake * d.multiplier) / 100 }

  predicate NativeAdds(c: Chain, v: Address, id: nat, start: nat) {
    id !in c.delegations && 1 <= start <= U32_MAX && start > Completed(c, v)
  }

  predicate NativeExits(c: Chain, id: nat) {
    && id in c.delegations
    && var d := c.delegations[id];
    && d.end == U32_MAX
    && d.start <= Completed(c, d.validator) + 1
  }

  // ---------- the contract's storage ----------

  datatype Store = Store(
    delegationIDs: map<Address, nat>,
    weights: Slots,
    populatedWeights: map<Address, nat>,
    reductions: Slots,
    claims: map<nat, nat>,
    rewards: Slots)

  function Slot(m: Slots, v: Address, p: nat): nat { if (v, p) in m then m[(v, p)] else 0 }

  /** What has been transferred: per delegation and period, and per delegation.
      `high` is the largest period ever populated. Nothing reads these three;
      they exist so that properties of whole runs can be stated. */
  datatype History = History(high: map<Address, nat>, paid: map<(nat, nat), nat>, received: map<nat, nat>)

  datatype State = State(chain: Chain, store: Store, past: History)

  const EMPTY_STORE := Store(map[], map[], map[], map[], map[], map[])
  const INITIAL := State(Chain(map[], map[]), EMPTY_STORE, History(map[], map[], map[]))

  // ---------- rolling weights and rewards forward ----------

  datatype Rolled = Rolled(weights: Slots) | Overflow | Underflow

  /** `_updateWeights`: checked previous + increase - reduction, skipped when zero. */
  function UpdateWeights(weights: Slots, reductions: Slots, v: Address, p: nat): Rolled
    requires p >= 1
  {
    var previous := Slot(weights, v, p - 1);
    var increase := Slot(weights, v, p);
    var reduction := Slot(reductions, v, p);
    if previous + increase > U256_MAX then Overflow
    else if previous + increase < reduction then Underflow
    else
      var newWeight := previous + increase - reduction;
      if newWeight == 0 then Rolled(weights) else Rolled(weights[(v, p) := newWeight])
  }

  function RollWeights(weights: Slots, reductions: Slots, v: Address, lo: nat, hi: nat): Rolled
    requires lo >= 1
    decreases hi
  {
    if hi < lo then Rolled(weights) else
      match RollWeights(weights, reductions, v, lo, hi - 1)
      case Rolled(w) => UpdateWeights(w, reductions, v, hi)
      case failed => failed
  }

  function UpdateRewards(c: Chain, weights: Slots, rewards: Slots, v: Address, p: nat): Slots {
    if Slot(weights, v, p) == 0 then rewards else rewards[(v, p) := PeriodReward(c, v, p)]
  }

  function RollRewards(c: Chain, weights: Slots, rewards: Slots, v: Address, lo: nat, hi: nat): Slots
    requires lo >= 1
    decreases hi
  {
    if hi < lo then rewards
    else UpdateRewards(c, weights, RollRewards(c, weights, rewards, v, lo, hi - 1), v, hi)
  }

  /** `_calculatePeriodRewards` before its overflow check. */
  function Share(weights: Slots, rewards: Slots, v: Address, p: nat, weight: nat): nat {
    var all := Slot(weights, v, p);
    if all == 0 then 0 else (Slot(rewards, v, p) * weight) / all
  }

  predicate ShareFits(weights: Slots, rewards: Slots, v: Address, p: nat, weight: nat) {
    Slot(weights, v, p) == 0 || Slot(rewards, v, p) * weight <= U256_MAX
  }

  datatype Summed = Total(amount: nat) | TooLarge

  function SumShares(weights: Slots, rewards: Slots, v: Address, weight: nat, lo: nat, hi: int): Summed
    decreases hi - lo + 1
  {
    if hi < lo then Total(0) else
      match SumShares(weights, rewards, v, weight, lo, hi - 1)
      case TooLarge => TooLarge
      case Total(t) =>
        if !ShareFits(weights, rewards, v, hi, weight) then TooLarge
        else
          var t' := t + Share(weights, rewards, v, hi, weight);
          if t' > U256_MAX then TooLarge else Total(t')
  }

  // ---------- claiming ----------

  datatype Why = NotDelegator | AlreadyDelegator | NoValue | NotActive | NativeRefused
               | ArithmeticOverflow | ArithmeticUnderflow | NothingToClaim | TransferFailed

  datatype Claimable =
    | Fails(why: Why)
    | Empty(first: nat, last: nat)
    | Payable(total: nat, first: nat, last: nat, store: Store)

  function FirstClaimable(st: Store, d: Delegation, id: nat): nat {
    if At(st.claims, id) == 0 then d.start else At(st.claims, id) + 1
  }

  function LastClaimable(c: Chain, d: Delegation): nat {
    if d.end < Completed(c, d.validator) then d.end else Completed(c, d.validator)
  }

  /** `_getClaimableRewards`, in the order the contract works. */
  function ClaimableRewards(c: Chain, st: Store, id: nat): Claimable {
    if id !in c.delegations then Fails(NotActive) else
    var d := c.delegations[id];
    if d.stake == 0 || d.validator == 0 then Fails(NotActive) else
    if At(st.claims, id) >= U32_MAX then Fails(ArithmeticOverflow) else
    var first := FirstClaimable(st, d, id);
    var last := LastClaimable(c, d);
    if d.stake * d.multiplier > U256_MAX then Fails(ArithmeticOverflow) else
    if last == 0 || first > last then Empty(first, last) else
    var before := At(st.populatedWeights, d.validator);
    if before >= U32_MAX || last >= U32_MAX then Fails(ArithmeticOverflow) else
    match RollWeights(st.weights, st.reductions, d.validator, before + 1, last)
    case Overflow => Fails(ArithmeticOverflow)
    case Underflow => Fails(ArithmeticUnderflow)
    case Rolled(weights) =>
      var rewards := RollRewards(c, weights, st.rewards, d.validator, before + 1, last);
      match SumShares(weights, rewards, d.validator, Weight(d), first, last)
      case TooLarge => Fails(ArithmeticOverflow)
      case Total(total) =>
        Payable(total, first, last,
                st.(claims := st.claims[id := last],
                    weights := weights,
                    rewards := rewards,
                    populatedWeights := st.populatedWeights[d.validator := last]))
  }

  // ---------- transactions ----------

  datatype Outcome = Reverted(why: Why) | Done(amount: nat)

  // What the environment answers is part of the action; an answer that breaks
  // the native staker's rules counts as a native revert.
  datatype Action =
    | AddDelegator(caller: Address, validator: Address, multiplier: nat, amount: nat, id: nat, start: nat)
    | DisableAutoRenew(caller: Address, accepted: bool)
    | ClaimRewards(caller: Address, transferOk: bool)
    | CompletePeriod(validator: Address, reward: nat)

  function Add(s: State, a: Action): (State, Outcome)
    requires a.AddDelegator?
  {
    if At(s.store.delegationIDs, a.caller) != 0 then (s, Reverted(AlreadyDelegator)) else
    if a.amount == 0 then (s, Reverted(NoValue)) else
    if !NativeAdds(s.chain, a.validator, a.id, a.start) then (s, Reverted(NativeRefused)) else
    if a.amount * a.multiplier > U256_MAX then (s, Reverted(ArithmeticOverflow)) else
    var d := Delegation(a.validator, a.amount, a.multiplier, a.start, U32_MAX);
    var increased := Slot(s.store.weights, a.validator, a.start) + Weight(d);
    if increased > U256_MAX then (s, Reverted(ArithmeticOverflow)) else
    (s.(chain := s.chain.(delegations := s.chain.delegations[a.id := d]),
        store := s.store.(delegationIDs := s.store.delegationIDs[a.caller := a.id],
                          weights := s.store.weights[(a.validator, a.start) := increased])),
     Done(a.id))
  }

  function Disable(s: State, a: Action): (State, Outcome)
    requires a.DisableAutoRenew?
  {
    var id := At(s.store.delegationIDs, a.caller);
    if id == 0 then (s, Reverted(NotDelegator)) else
    if id !in s.chain.delegations || s.chain.delegations[id].stake == 0 then (s, Reverted(NotActive)) else
    var d := s.chain.delegations[id];
    if d.stake * d.multiplier > U256_MAX then (s, Reverted(ArithmeticOverflow)) else
    if !a.accepted || !NativeExits(s.chain, id) then (s, Reverted(NativeRefused)) else
    var completed := Completed(s.chain, d.validator);
    if completed + 2 > U32_MAX then (s, Reverted(ArithmeticOverflow)) else
    var reduced := Slot(s.store.reductions, d.validator, completed + 2) + Weight(d);
    if reduced > U256_MAX then (s, Reverted(ArithmeticOverflow)) else
    (s.(chain := s.chain.(delegations := s.chain.delegations[id := d.(end := completed + 1)]),
        store := s.store.(reductions := s.store.reductions[(d.validator, completed + 2) := reduced])),
     Done(completed + 2))
  }

  function Recorded(past: History, d: Delegation, id: nat, c: Claimable): History
    requires c.Payable?
  {
    var high := At(past.high, d.validator);
    History(past.high[d.validator := if high < c.last then c.last else high],
            past.paid + map p: nat | c.first <= p <= c.last ::
              (id, p) := Share(c.store.weights, c.store.rewards, d.validator, p, Weight(d)),
            past.received[id := At(past.received, id) + c.total])
  }

  function Claim(s: State, a: Action): (State, Outcome)
    requires a.ClaimRewards?
  {
    var id := At(s.store.delegationIDs, a.caller);
    if id == 0 then (s, Reverted(NotDelegator)) else
    match ClaimableRewards(s.chain, s.store, id)
    case Fails(why) => (s, Reverted(why))
    case Empty(_, _) => (s, Reverted(NothingToClaim))
    case Payable(total, first, last, store) =>
      if total == 0 then (s, Reverted(NothingToClaim)) else
      if !a.transferOk then (s, Reverted(TransferFailed)) else
      (State(s.chain, store,
             Recorded(s.past, s.chain.delegations[id], id, ClaimableRewards(s.chain, s.store, id))),
       Done(total))
  }

  function Complete(c: Chain, v: Address, reward: nat): Chain {
    if Completed(c, v) >= U32_MAX then c
    else if v in c.periodRewards then c.(periodRewards := c.periodRewards[v := c.periodRewards[v] + [reward]])
    else c.(periodRewards := c.periodRewards[v := [reward]])
  }

  function Step(s: State, a: Action): State {
    match a
    case AddDelegator(_, _, _, _, _, _) => Add(s, a).0
    case DisableAutoRenew(_, _) => Disable(s, a).0
    case ClaimRewards(_, _) => Claim(s, a).0
    case CompletePeriod(v, reward) => s.(chain := Complete(s.chain, v, reward))
  }

  function Run(s: State, actions: seq<Action>): State {
    Fold(Step, s, actions)
  }
}
