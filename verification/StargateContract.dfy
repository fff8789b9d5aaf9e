/** hayabusa/stargate/stargate.sol as an object whose mappings are updated in
    place. Every transaction is proved to have the effect that `StargateModel`
    gives it, so the results about runs are results about this object. */
module StargateContract {
  import opened Common
  import opened StargateModel

  class Stargate {
    var chain: Chain   // the native staker the contract calls

    var delegationIDs: map<Address, nat>
    var weights: Slots
    var populatedWeights: map<Address, nat>
    var reductions: Slots
    var claims: map<nat, nat>
    var rewards: Slots

    ghost var past: History

    function Storage(): Store
      reads this
    {
      Store(delegationIDs, weights, populatedWeights, reductions, claims, rewards)
    }

    ghost function Abstract(): State
      reads this
    {
      State(chain, Storage(), past)
    }

    constructor ()
      ensures Abstract() == INITIAL
    {
      chain := Chain(map[], map[]);
      delegationIDs, weights, populatedWeights, reductions, claims, rewards := map[], map[], map[], map[], map[], map[];
      past := History(map[], map[], map[]);
    }

    /** What the EVM does when a transaction reverts. */
    method Revert(c: Chain, st: Store)
      modifies this
      ensures chain == c && Storage() == st && past == old(past)
    {
      chain := c;
      delegationIDs, weights, populatedWeights := st.delegationIDs, st.weights, st.populatedWeights;
      reductions, claims, rewards := st.reductions, st.claims, st.rewards;
    }

    method AddDelegator(caller: Address, validator: Address, multiplier: nat, amount: nat, id: nat, start: nat)
      returns (o: Outcome)
      modifies this
      ensures (Abstract(), o) ==
                Add(old(Abstract()), Action.AddDelegator(caller, validator, multiplier, amount, id, start))
    {
      if At(delegationIDs, caller) != 0 { return Reverted(AlreadyDelegator); }
      if amount == 0 { return Reverted(NoValue); }
      if !NativeAdds(chain, validator, id, start) { return Reverted(NativeRefused); }
      var chain0, store0 := chain, Storage();
      var d := Delegation(validator, amount, multiplier, start, U32_MAX);
      chain := chain.(delegations := chain.delegations[id := d]);
      delegationIDs := delegationIDs[caller := id];
      if amount * multiplier > U256_MAX {
        Revert(chain0, store0);
        return Reverted(ArithmeticOverflow);
      }
      var weight := (amount * multiplier) / 100;
      if Slot(weights, validator, start) + weight > U256_MAX {
        Revert(chain0, store0);
        return Reverted(ArithmeticOverflow);
      }
      weights := weights[(validator, start) := Slot(weights, validator, start) + weight];
      o := Done(id);
    }

    method DisableAutoRenew(caller: Address, accepted: bool) returns (o: Outcome)
      modifies this
      ensures (Abstract(), o) == Disable(old(Abstract()), Action.DisableAutoRenew(caller, accepted))
    {
      var id := At(delegationIDs, caller);
      if id == 0 { return Reverted(NotDelegator); }
      if id !in chain.delegations || chain.delegations[id].stake == 0 { return Reverted(NotActive); }
      var d := chain.delegations[id];
      var validatorCompleted := Completed(chain, d.validator);
      if d.stake * d.multiplier > U256_MAX { return Reverted(ArithmeticOverflow); }
      var weight := (d.stake * d.multiplier) / 100;
      if !accepted || !NativeExits(chain, id) { return Reverted(NativeRefused); }
      var chain0, store0 := chain, Storage();
      chain := chain.(delegations := chain.delegations[id := d.(end := validatorCompleted + 1)]);
      if validatorCompleted + 2 > U32_MAX {
        Revert(chain0, store0);
        return Reverted(ArithmeticOverflow);
      }
      var reductionPeriod := validatorCompleted + 2;
      var reduced := Slot(reductions, d.validator, reductionPeriod) + weight;
      if reduced > U256_MAX {
        Revert(chain0, store0);
        return Reverted(ArithmeticOverflow);
      }
      reductions := reductions[(d.validator, reductionPeriod) := reduced];
      o := Done(reductionPeriod);
    }

    /** `_updateWeights` on the stored mapping. */
    method UpdateStoredWeights(v: Address, p: nat) returns (r: Rolled)
      requires p >= 1
      modifies this`weights
      ensures r == UpdateWeights(old(weights), reductions, v, p)
      ensures weights == if r.Rolled? then r.weights else old(weights)
    {
      var previous := Slot(weights, v, p - 1);
      var increase := Slot(weights, v, p);
      var reduction := Slot(reductions, v, p);
      if previous + increase > U256_MAX { return Overflow; }
      if previous + increase < reduction { return Underflow; }
      var newWeight := previous + increase - reduction;
      if newWeight != 0 {
        weights := weights[(v, p) := newWeight];
      }
      r := Rolled(weights);
    }

    /** The first loop of `_getClaimableRewards`. */
    method RollStoredWeights(v: Address, before: nat, last: nat) returns (r: Rolled)
      requires last < U32_MAX
      modifies this`weights
      ensures r == RollWeights(old(weights), reductions, v, before + 1, last)
      ensures r.Rolled? ==> weights == r.weights
    {
      r := Rolled(weights);
      var i := before + 1;
      while i <= last
        invariant i >= before + 1 && (i <= last + 1 || i == before + 1)
        invariant r.Rolled? && r == RollWeights(old(weights), reductions, v, before + 1, i - 1)
        invariant weights == r.weights
      {
        r := UpdateStoredWeights(v, i);
        if !r.Rolled? {
          StopsAt(old(weights), v, before + 1, i, last);
          return;
        }
        i := i + 1;
      }
    }

    lemma {:induction false} StopsAt(w: Slots, v: Address, lo: nat, i: nat, hi: nat)
      requires 1 <= lo <= i <= hi && !RollWeights(w, reductions, v, lo, i).Rolled?
      ensures RollWeights(w, reductions, v, lo, hi) == RollWeights(w, reductions, v, lo, i)
      decreases hi
    {
      if i < hi {
        StopsAt(w, v, lo, i, hi - 1);
      }
    }

    /** The second loop: fetch the rewards of the periods just rolled. */
    method RollStoredRewards(v: Address, before: nat, last: nat)
      requires last < U32_MAX
      modifies this`rewards
      ensures rewards == RollRewards(chain, weights, old(rewards), v, before + 1, last)
    {
      var i := before + 1;
      while i <= last
        invariant i >= before + 1 && (i <= last + 1 || i == before + 1)
        invariant rewards == RollRewards(chain, weights, old(rewards), v, before + 1, i - 1)
      {
        if Slot(weights, v, i) != 0 {
          rewards := rewards[(v, i) := PeriodReward(chain, v, i)];
        }
        i := i + 1;
      }
    }

    /** The third loop: add up the shares of the claimed periods. */
    method SumStoredShares(v: Address, weight: nat, first: nat, last: nat) returns (r: Summed)
      requires last < U32_MAX
      ensures r == SumShares(weights, rewards, v, weight, first, last)
    {
      var total: nat := 0;
      var p := first;
      while p <= last
        invariant p >= first && (p <= last + 1 || p == first)
        invariant SumShares(weights, rewards, v, weight, first, p - 1) == Total(total)
      {
        if !ShareFits(weights, rewards, v, p, weight) || total + Share(weights, rewards, v, p, weight) > U256_MAX {
          SumStopsAt(v, weight, first, p, last);
          return TooLarge;
        }
        total := total + Share(weights, rewards, v, p, weight);
        p := p + 1;
      }
      r := Total(total);
    }

    lemma {:induction false} SumStopsAt(v: Address, weight: nat, lo: nat, p: nat, hi: nat)
      requires lo <= p <= hi && SumShares(weights, rewards, v, weight, lo, p).TooLarge?
      ensures SumShares(weights, rewards, v, weight, lo, hi).TooLarge?
      decreases hi
    {
      if p < hi {
        SumStopsAt(v, weight, lo, p, hi - 1);
      }
    }

    /** `_getClaimableRewards`. When it fails the storage may be half updated:
        the transaction that called it reverts. */
    method GetClaimableRewards(id: nat) returns (r: Claimable)
      modifies this`weights, this`rewards, this`claims, this`populatedWeights
      ensures r == ClaimableRewards(chain, old(Storage()), id)
      ensures r.Payable? ==> Storage() == r.store
      ensures r.Empty? ==> Storage() == old(Storage())
    {
      hide RollWeights, RollRewards, SumShares, Weight;
      if id !in chain.delegations { return Fails(NotActive); }
      var d := chain.delegations[id];
      if d.stake == 0 || d.validator == 0 { return Fails(NotActive); }
      var first := At(claims, id);
      if first == 0 {
        first := d.start;
      } else {
        if first >= U32_MAX { return Fails(ArithmeticOverflow); }
        first := first + 1;
      }
      var last := Completed(chain, d.validator);
      if d.end < last { last := d.end; }
      if d.stake * d.multiplier > U256_MAX { return Fails(ArithmeticOverflow); }
      if last == 0 || first > last { return Empty(first, last); }
      var before := At(populatedWeights, d.validator);
      // the period counters are uint32: before + 1 or last + 1 would wrap
      if before >= U32_MAX || last >= U32_MAX { return Fails(ArithmeticOverflow); }
      claims := claims[id := last];
      var rolled := RollStoredWeights(d.validator, before, last);
      if rolled.Overflow? { return Fails(ArithmeticOverflow); }
      if rolled.Underflow? { return Fails(ArithmeticUnderflow); }
      RollStoredRewards(d.validator, before, last);
      populatedWeights := populatedWeights[d.validator := last];
      var sum := SumStoredShares(d.validator, Weight(d), first, last);
      if sum.TooLarge? { return Fails(ArithmeticOverflow); }
      r := Payable(sum.amount, first, last, Storage());
    }

    method ClaimRewards(caller: Address, transferOk: bool) returns (o: Outcome)
      modifies this
      ensures (Abstract(), o) == Claim(old(Abstract()), Action.ClaimRewards(caller, transferOk))
    {
      var id := At(delegationIDs, caller);
      if id == 0 { return Reverted(NotDelegator); }
      var chain0, store0 := chain, Storage();
      var r := GetClaimableRewards(id);
      if r.Fails? {
        Revert(chain0, store0);
        return Reverted(r.why);
      }
      if r.Empty? || r.total == 0 {
        Revert(chain0, store0);
        return Reverted(NothingToClaim);
      }
      if !transferOk {
        Revert(chain0, store0);
        return Reverted(TransferFailed);
      }
      past := Recorded(past, chain.delegations[id], id, r);
      o := Done(r.total);
    }

    /** The environment: a staking period of a validator ends. */
    method CompletePeriod(v: Address, reward: nat)
      modifies this`chain
      ensures Abstract() == Step(old(Abstract()), Action.CompletePeriod(v, reward))
    {
      chain := Complete(chain, v, reward);
    }
  }
}
