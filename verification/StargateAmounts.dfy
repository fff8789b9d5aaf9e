/** What each transaction of the reward contract does to the books, and what a period pays,
    stated over stakes, multipliers and rewards alone. */
module StargateAmounts {
  import opened Arith
  import opened Common
  import opened Runs
  import opened StargateEager
  import opened StargateExact
  import opened StargateInvariant
  import opened StargateModel
  import opened StargateTheorems
  import opened Sums

  /** q is a hundredth of the stake times the multiplier, rounded down. */
  predicate IsWeight(q: nat, stake: nat, multiplier: nat) {
    100 * q <= stake * multiplier < 100 * q + 100
  }

  lemma OneWeight(q: nat, d: Delegation)
    requires IsWeight(q, d.stake, d.multiplier)
    ensures Weight(d) == q
  {
  }

  ghost predicate OnlySlot(before: Slots, after: Slots, v: Address, p: nat, more: int) {
    && Slot(after, v, p) == Slot(before, v, p) + more
    && forall u: Address, r: nat | u != v || r != p :: Slot(after, u, r) == Slot(before, u, r)
  }

  // ---------- joining and leaving ----------

  /** A join goes through exactly if the sender has no delegation, sends something, the native staker may
      accept it and nothing overflows; it raises the slot of the start period by the weight. */
  lemma JoinRaisesWeight(s: State, a: Action, q: nat)
    requires a.AddDelegator? && IsWeight(q, a.amount, a.multiplier)
    ensures Add(s, a).1.Done? <==>
              && At(s.store.delegationIDs, a.caller) == 0 && a.amount > 0
              && a.id !in s.chain.delegations && 1 <= a.start <= 4294967295
              && (a.validator in s.chain.periodRewards ==> a.start > |s.chain.periodRewards[a.validator]|)
              && a.amount * a.multiplier <= U256_MAX && Slot(s.store.weights, a.validator, a.start) + q <= U256_MAX
    ensures Add(s, a).1.Done? ==>
              var s' := Step(s, a);
              && Add(s, a).1 == Done(a.id)
              && OnlySlot(s.store.weights, s'.store.weights, a.validator, a.start, q)
              && s'.store == s.store.(weights := s'.store.weights,
                                      delegationIDs := s.store.delegationIDs[a.caller := a.id])
              && s'.chain == s.chain.(delegations := s.chain.delegations[
                   a.id := Delegation(a.validator, a.amount, a.multiplier, a.start, 4294967295)])
              && s'.past == s.past
  {
    OneWeight(q, Delegation(a.validator, a.amount, a.multiplier, a.start, U32_MAX));
  }

  /** A scheduled exit goes through exactly if the delegation is there, has started and has not been told to
      exit before; it raises the reduction of the period after its last one by the weight. */
  lemma ExitRaisesReduction(s: State, a: Action, id: nat, d: Delegation, completed: nat, q: nat)
    requires a.DisableAutoRenew? && id == At(s.store.delegationIDs, a.caller)
    requires id in s.chain.delegations && d == s.chain.delegations[id] && IsWeight(q, d.stake, d.multiplier)
    requires completed == if d.validator in s.chain.periodRewards then |s.chain.periodRewards[d.validator]| else 0
    ensures Disable(s, a).1.Done? <==>
              && id != 0 && d.stake > 0 && d.stake * d.multiplier <= U256_MAX && a.accepted
              && d.end == 4294967295 && d.start <= completed + 1 && completed + 2 <= 4294967295
              && Slot(s.store.reductions, d.validator, completed + 2) + q <= U256_MAX
    ensures Disable(s, a).1.Done? ==>
              var s' := Step(s, a);
              && Disable(s, a).1 == Done(completed + 2)
              && OnlySlot(s.store.reductions, s'.store.reductions, d.validator, completed + 2, q)
              && s'.store == s.store.(reductions := s'.store.reductions)
              && s'.chain == s.chain.(delegations := s.chain.delegations[id := d.(end := completed + 1)])
              && s'.past == s.past
  {
    OneWeight(q, d);
  }

  /** A completed period is appended to its validator's rewards, as long as a uint32 counts them. */
  lemma PeriodIsAppended(s: State, v: Address, reward: nat)
    ensures var before := if v in s.chain.periodRewards then s.chain.periodRewards[v] else [];
            var s' := Step(s, CompletePeriod(v, reward));
            && s'.store == s.store && s'.past == s.past && s'.chain.delegations == s.chain.delegations
            && (|before| < 4294967295 ==>
                  s'.chain.periodRewards == s.chain.periodRewards[v := before + [reward]])
            && (|before| >= 4294967295 ==> s' == s)
  {
    if v !in s.chain.periodRewards { assert [reward] == [] + [reward]; }
  }

  // ---------- claiming ----------

  /** The first and the last period that a claim of the delegation is about. */
  function First(s: State, id: nat): nat
    requires id in s.chain.delegations
  {
    if At(s.store.claims, id) == 0 then s.chain.delegations[id].start else At(s.store.claims, id) + 1
  }

  function Last(s: State, id: nat): nat
    requires id in s.chain.delegations
  {
    var d := s.chain.delegations[id];
    var completed := if d.validator in s.chain.periodRewards then |s.chain.periodRewards[d.validator]| else 0;
    if d.end < completed then d.end else completed
  }

  /** A claim that pays settles every period up to the last one that is over, moves the populated marker there
      and touches no other delegation, reduction or marker. */
  lemma ClaimSettlesUpToLast(s: State, a: Action)
    requires a.ClaimRewards? && Claim(s, a).1.Done?
    ensures var id := At(s.store.delegationIDs, a.caller);
            && id != 0 && id in s.chain.delegations && First(s, id) <= Last(s, id)
            && var s' := Step(s, a);
               var v := s.chain.delegations[id].validator;
               && s'.chain == s.chain
               && s'.store.claims == s.store.claims[id := Last(s, id)]
               && s'.store.populatedWeights == s.store.populatedWeights[v := Last(s, id)]
               && s'.store.reductions == s.store.reductions && s'.store.delegationIDs == s.store.delegationIDs
               && (forall p: nat | First(s, id) <= p <= Last(s, id) :: (id, p) in s'.past.paid)
               && s'.past.received == s.past.received[id := At(s.past.received, id) + Claim(s, a).1.amount]
  {
    hide ClaimableRewards, Recorded, Share, First, Last;
    var id := At(s.store.delegationIDs, a.caller);
    PayableIsDelegation(s.chain, s.store, id);
    PayableBooks(s, id);
    RecordedEntries(s.past, s.chain.delegations[id], id, ClaimableRewards(s.chain, s.store, id));
    RecordedSum(s.past, s.chain.delegations[id], id, ClaimableRewards(s.chain, s.store, id));
  }

  lemma RecordedSum(past: History, d: Delegation, id: nat, r: Claimable)
    requires r.Payable?
    ensures Recorded(past, d, id, r).received == past.received[id := At(past.received, id) + r.total]
  {
  }

  lemma PayableBooks(s: State, id: nat)
    requires id in s.chain.delegations && ClaimableRewards(s.chain, s.store, id).Payable?
    ensures var r := ClaimableRewards(s.chain, s.store, id);
            && r.first == First(s, id) && r.last == Last(s, id) && First(s, id) <= Last(s, id)
            && r.store.claims == s.store.claims[id := r.last]
            && r.store.populatedWeights == s.store.populatedWeights[s.chain.delegations[id].validator := r.last]
            && r.store.reductions == s.store.reductions && r.store.delegationIDs == s.store.delegationIDs
  {
    hide RollWeights, RollRewards, SumShares;
  }

  /** What the shares of the claimed periods come to. */
  ghost predicate AddsUpTo(s: State, a: Action, amount: nat)
    requires a.ClaimRewards?
  {
    var r := ClaimableRewards(s.chain, s.store, At(s.store.delegationIDs, a.caller));
    r.Payable? && r.total == amount
  }

  /** A claim goes through exactly if there is something to pay and the transfer works; every refusal names
      its reason. */
  lemma ClaimGoesThroughIff(s: State, a: Action)
    requires a.ClaimRewards?
    ensures Claim(s, a).1.Done? <==>
              At(s.store.delegationIDs, a.caller) != 0 && a.transferOk && exists t: nat :: t > 0 && AddsUpTo(s, a, t)
    ensures Claim(s, a).1.Done? ==> AddsUpTo(s, a, Claim(s, a).1.amount)
    ensures At(s.store.delegationIDs, a.caller) == 0 ==> Claim(s, a).1 == Reverted(NotDelegator)
    ensures At(s.store.delegationIDs, a.caller) != 0 && AddsUpTo(s, a, 0) ==> Claim(s, a).1 == Reverted(NothingToClaim)
    ensures !a.transferOk && At(s.store.delegationIDs, a.caller) != 0 &&
            (exists t: nat :: t > 0 && AddsUpTo(s, a, t)) ==>
              Claim(s, a).1 == Reverted(TransferFailed)
  {
    hide ClaimableRewards;
    var r := ClaimableRewards(s.chain, s.store, At(s.store.delegationIDs, a.caller));
    if r.Payable? && r.total > 0 { assert AddsUpTo(s, a, r.total); }
  }

  /** Every way a claim can turn out before its sum is known, over the delegation and the counters. */
  lemma ClaimCases(s: State, id: nat)
    requires id in s.chain.delegations
    ensures var d := s.chain.delegations[id];
            var r := ClaimableRewards(s.chain, s.store, id);
            var active := d.stake > 0 && d.validator != 0;
            var counts := At(s.store.claims, id) < 4294967295 && d.stake * d.multiplier <= U256_MAX;
            var left := Last(s, id) != 0 && First(s, id) <= Last(s, id);
            && (r == Fails(NotActive) <==> !active)
            && (r.Empty? <==> active && counts && !left)
            && (r.Empty? ==> r == Empty(First(s, id), Last(s, id)))
            && (r.Payable? ==>
                  && active && counts && left && r.first == First(s, id) && r.last == Last(s, id)
                  && At(s.store.populatedWeights, d.validator) < 4294967295 && Last(s, id) < 4294967295)
            && ((active && counts && left
                && At(s.store.populatedWeights, d.validator) < 4294967295 && Last(s, id) < 4294967295
                && RollWeights(s.store.weights, s.store.reductions, d.validator,
                               At(s.store.populatedWeights, d.validator) + 1, Last(s, id)).Rolled?
                && !r.Payable?) ==> TooMuch(s, id))
  {
    hide RollRewards, RollWeights, SumShares;
  }

  /** The loop over the claimed periods ends in an overflow. */
  ghost predicate TooMuch(s: State, id: nat)
    requires id in s.chain.delegations
  {
    var d := s.chain.delegations[id];
    var lo := At(s.store.populatedWeights, d.validator) + 1;
    var rolled := RollWeights(s.store.weights, s.store.reductions, d.validator, lo, Last(s, id));
    rolled.Rolled?
    && SumShares(rolled.weights, RollRewards(s.chain, rolled.weights, s.store.rewards, d.validator, lo, Last(s, id)),
                 d.validator, Weight(d), First(s, id), Last(s, id)).TooLarge?
  }

  /** The checked arithmetic of one slot: exactly when it overflows, underflows or goes through. */
  lemma SlotArithmetic(weights: Slots, reductions: Slots, v: Address, p: nat)
    requires p >= 1
    ensures var gross := Slot(weights, v, p - 1) + Slot(weights, v, p);
            var r := UpdateWeights(weights, reductions, v, p);
            && (r.Overflow? <==> gross > U256_MAX)
            && (r.Underflow? <==> gross <= U256_MAX && gross < Slot(reductions, v, p))
  {
  }

  /** A roll stops exactly at the first slot whose arithmetic fails. */
  lemma {:induction false} RollFailsIff(weights: Slots, reductions: Slots, v: Address, lo: nat, hi: nat)
    requires lo >= 1
    ensures !RollWeights(weights, reductions, v, lo, hi).Rolled? <==>
              exists p: nat :: lo <= p <= hi && RollStopsAt(weights, reductions, v, lo, p)
    decreases hi
  {
    hide UpdateWeights;
    if hi >= lo {
      RollFailsIff(weights, reductions, v, lo, hi - 1);
      if RollWeights(weights, reductions, v, lo, hi - 1).Rolled? {
        SlotArithmetic(RollWeights(weights, reductions, v, lo, hi - 1).weights, reductions, v, hi);
      }
      if RollWeights(weights, reductions, v, lo, hi - 1).Rolled?
         && !RollWeights(weights, reductions, v, lo, hi).Rolled? {
        assert RollStopsAt(weights, reductions, v, lo, hi);
      }
    }
  }

  ghost predicate RollStopsAt(weights: Slots, reductions: Slots, v: Address, lo: nat, p: nat)
    requires 1 <= lo <= p
  {
    var before := RollWeights(weights, reductions, v, lo, p - 1);
    before.Rolled?
    && var gross := Slot(before.weights, v, p - 1) + Slot(before.weights, v, p);
       gross > U256_MAX || gross < Slot(reductions, v, p)
  }

  /** A sum of shares that goes through fits, and so does every product in it. */
  lemma {:induction false} SumFits(w: Slots, r: Slots, v: Address, weight: nat, lo: nat, hi: int)
    ensures var sum := SumShares(w, r, v, weight, lo, hi);
            sum.Total? ==>
              && sum.amount <= U256_MAX
              && forall p: nat | lo <= p <= hi :: Slot(w, v, p) == 0 || Slot(r, v, p) * weight <= U256_MAX
    decreases hi - lo + 1
  {
    if hi >= lo { SumFits(w, r, v, weight, lo, hi - 1); }
  }

  /** It fails only because a product or the running sum does not fit. */
  lemma {:induction false} SumFailsFor(w: Slots, r: Slots, v: Address, weight: nat, lo: nat, hi: int)
    ensures SumShares(w, r, v, weight, lo, hi).TooLarge? ==>
              exists p: nat :: lo <= p <= hi && SumStopsAt(w, r, v, weight, lo, p)
    decreases hi - lo + 1
  {
    if hi >= lo {
      SumFailsFor(w, r, v, weight, lo, hi - 1);
      if SumShares(w, r, v, weight, lo, hi - 1).Total? && SumShares(w, r, v, weight, lo, hi).TooLarge? {
        assert SumStopsAt(w, r, v, weight, lo, hi);
      }
    }
  }

  ghost predicate SumStopsAt(w: Slots, r: Slots, v: Address, weight: nat, lo: nat, p: nat)
    requires lo <= p
  {
    var before := SumShares(w, r, v, weight, lo, p - 1);
    before.Total? && Slot(w, v, p) > 0
    && (Slot(r, v, p) * weight > U256_MAX || before.amount + (Slot(r, v, p) * weight) / Slot(w, v, p) > U256_MAX)
  }

  // ---------- what a period pays ----------

  /** The delegations of v whose life covers period p. */
  ghost function Covering(c: Chain, v: Address, p: nat): set<nat> {
    set id | id in c.delegations && c.delegations[id].validator == v
             && c.delegations[id].start <= p <= c.delegations[id].end
  }

  ghost predicate Weighs(c: Chain, q: nat -> int) {
    forall id | id in c.delegations ::
      q(id) >= 0 && IsWeight(q(id), c.delegations[id].stake, c.delegations[id].multiplier)
  }

  lemma TrueWeightIs(c: Chain, v: Address, p: nat, q: nat -> int)
    requires Weighs(c, q)
    ensures TrueWeight(c, v, p) == Sum(Covering(c, v, p), q)
  {
    var ids, some, f := c.delegations.Keys, Covering(c, v, p), ActiveWeight(c.delegations, v, p);
    SumSupport(ids, some, f);
    forall id | id in some ensures f(id) == q(id) {
      OneWeight(q(id), c.delegations[id]);
    }
    SumSame(some, f, q);
  }

  lemma ProportionalShare(r: nat, w: nat, all: nat, paid: nat)
    requires all > 0 && paid == (r * w) / all
    ensures paid * all <= r * w < paid * all + all
  {
    DivBounds(r * w, all);
  }

  /** In clean runs each payment is the reward of the period times the delegation's weight over the summed weights
      of the delegations whose life covers it, rounded down; all of it over stakes and multipliers. */
  lemma PaymentsAreProportional(actions: seq<Action>, id: nat, p: nat, q: nat -> int)
    requires id in Run(INITIAL, actions).chain.delegations
    requires CleanRun(actions, Run(INITIAL, actions).chain.delegations[id].validator)
    requires (id, p) in Run(INITIAL, actions).past.paid && Weighs(Run(INITIAL, actions).chain, q)
    ensures var s := Run(INITIAL, actions);
            var v := s.chain.delegations[id].validator;
            var all := Sum(Covering(s.chain, v, p), q);
            && v in s.chain.periodRewards && 1 <= p <= |s.chain.periodRewards[v]|
            && (all <= 0 ==> s.past.paid[(id, p)] == 0)
            && (all > 0 ==>
                  var paid := s.past.paid[(id, p)];
                  paid * all <= s.chain.periodRewards[v][p - 1] * q(id) < paid * all + all)
  {
    hide CleanRun, Run;
    var s := Run(INITIAL, actions);
    RunExactIff(actions, s.chain.delegations[id].validator);
    RunInv(actions);
    PaymentIs(s, id, p, q);
  }

  lemma PaymentIs(s: State, id: nat, p: nat, q: nat -> int)
    requires Inv(s) && id in s.chain.delegations && PaymentsExact(s, s.chain.delegations[id].validator)
    requires (id, p) in s.past.paid && Weighs(s.chain, q)
    ensures var v := s.chain.delegations[id].validator;
            var all := Sum(Covering(s.chain, v, p), q);
            && v in s.chain.periodRewards && 1 <= p <= |s.chain.periodRewards[v]|
            && (all <= 0 ==> s.past.paid[(id, p)] == 0)
            && (all > 0 ==>
                  var paid := s.past.paid[(id, p)];
                  paid * all <= s.chain.periodRewards[v][p - 1] * q(id) < paid * all + all)
  {
    hide WeightsOk, RewardsOk, PaidAtMostEager, ReceivedOk, Weighs, Covering, TrueWeight, Weight;
    var d, v := s.chain.delegations[id], s.chain.delegations[id].validator;
    var all := Sum(Covering(s.chain, v, p), q);
    assert PaidPeriod(s.chain, s.store.claims, id, p);
    HighIsCompleted(s.chain, BookOf(s.chain), s.store, s.past.high);
    assert At(s.store.claims, id) <= At(s.past.high, v) <= Completed(s.chain, v);
    TrueWeightIs(s.chain, v, p, q);
    BookAt(s.chain, v, p);
    WeighsOne(s.chain, q, id);
    assert s.past.paid[(id, p)] == EagerShare(s.chain, BookOf(s.chain), id, p);
    if all > 0 {
      ProportionalShare(PeriodReward(s.chain, v, p), Weight(d), all, s.past.paid[(id, p)]);
    }
  }

  lemma WeighsOne(c: Chain, q: nat -> int, id: nat)
    requires Weighs(c, q) && id in c.delegations
    ensures q(id) == Weight(c.delegations[id])
  {
    OneWeight(q(id), c.delegations[id]);
  }

  /** The case that tells a weight from a stake: two delegations of stake 100, one with multiplier 200, share a
      reward of 900 as 300 and 600. */
  lemma MultiplierCounts(q: nat -> int, c: Chain)
    requires c.delegations == map[1 := Delegation(7, 100, 100, 1, 4294967295),
                                  2 := Delegation(7, 100, 200, 1, 4294967295)]
    requires Weighs(c, q)
    ensures TrueWeight(c, 7, 1) == 300 && (900 * q(2)) / TrueWeight(c, 7, 1) == 600
  {
    TrueWeightIs(c, 7, 1, q);
    assert 1 in c.delegations && 2 in c.delegations;
    var both := Covering(c, 7, 1);
    assert both == {1, 2};
    SumRemove(both, 1, q);
    SumRemove(both - {1}, 2, q);
    assert both - {1} - {2} == {};
  }
}
