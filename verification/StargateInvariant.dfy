/** What every run of the reward contract keeps. */
module StargateInvariant {
  import opened Arith
  import opened Common
  import opened StargateEager
  import opened StargateModel

  // ---------- rolling forward ----------

  lemma UpdateAddsUp(weights: Slots, reductions: Slots, v: Address, p: nat)
    requires p >= 1 && Slot(reductions, v, p) <= Slot(weights, v, p - 1)
    ensures var r := UpdateWeights(weights, reductions, v, p);
            && !r.Underflow?
            && (r.Rolled? ==>
                  && Slot(r.weights, v, p) == Slot(weights, v, p - 1) + Slot(weights, v, p) - Slot(reductions, v, p)
                  && forall u: Address, q: nat | u != v || q != p :: Slot(r.weights, u, q) == Slot(weights, u, q))
  {
  }

  lemma BalancedAt(b: Book, v: Address, p: nat)
    requires Balanced(b) && p >= 1
    ensures b.active(v, p) == b.active(v, p - 1) + b.joining(v, p) - b.leaving(v, p)
    ensures 0 <= b.leaving(v, p) <= b.active(v, p - 1) && 0 <= b.joining(v, p) <= b.active(v, p)
  {
  }

  lemma {:induction false} RollFrame(weights: Slots, reductions: Slots, v: Address, lo: nat, hi: nat)
    requires 1 <= lo && RollWeights(weights, reductions, v, lo, hi).Rolled?
    ensures var w := RollWeights(weights, reductions, v, lo, hi).weights;
            forall u: Address, p: nat | u != v || p < lo || p > hi :: Slot(w, u, p) == Slot(weights, u, p)
    decreases hi
  {
    if hi >= lo {
      RollFrame(weights, reductions, v, lo, hi - 1);
    }
  }

  /** Slots lo..hi hold at least who joins, the slot before lo covers its active
      weight, and the reductions are those of the book. */
  ghost predicate Rollable(b: Book, weights: Slots, reductions: Slots, v: Address, lo: nat, hi: nat)
    requires 1 <= lo
  {
    && Slot(weights, v, lo - 1) >= b.active(v, lo - 1)
    && (forall p: nat | lo <= p <= hi :: Slot(weights, v, p) >= b.joining(v, p))
    && (forall p: nat | lo <= p <= hi :: Slot(reductions, v, p) == b.leaving(v, p))
  }

  /** The checked subtraction never reverts, and every rolled slot covers the
      weight active in it, whether or not it had been rolled before. */
  lemma {:induction false} RollCovers(b: Book, weights: Slots, reductions: Slots, v: Address, lo: nat, hi: nat)
    requires Balanced(b) && 1 <= lo && Rollable(b, weights, reductions, v, lo, hi)
    ensures var r := RollWeights(weights, reductions, v, lo, hi);
            !r.Underflow? && (r.Rolled? ==> forall p: nat | lo <= p <= hi :: Slot(r.weights, v, p) >= b.active(v, p))
    decreases hi
  {
    hide UpdateWeights, Slot, Balanced;
    if hi >= lo {
      RollCovers(b, weights, reductions, v, lo, hi - 1);
      var r := RollWeights(weights, reductions, v, lo, hi - 1);
      if r.Rolled? {
        RollFrame(weights, reductions, v, lo, hi - 1);
        BalancedAt(b, v, hi);
        UpdateAddsUp(r.weights, reductions, v, hi);
      }
    }
  }

  /** The early return for a zero weight loses nothing: the slot holds zero already. */
  lemma {:induction false} RollRecurrence(b: Book, weights: Slots, reductions: Slots, v: Address, lo: nat, hi: nat,
                                          p: nat)
    requires Balanced(b) && 1 <= lo <= p <= hi && Rollable(b, weights, reductions, v, lo, hi)
    requires RollWeights(weights, reductions, v, lo, hi).Rolled?
    ensures var w := RollWeights(weights, reductions, v, lo, hi).weights;
            Slot(w, v, p) == Slot(w, v, p - 1) + Slot(weights, v, p) - b.leaving(v, p)
    decreases hi
  {
    hide UpdateWeights, Slot, Balanced;
    var r := RollWeights(weights, reductions, v, lo, hi - 1);
    RollFrame(weights, reductions, v, lo, hi - 1);
    RollCovers(b, weights, reductions, v, lo, hi - 1);
    BalancedAt(b, v, hi);
    UpdateAddsUp(r.weights, reductions, v, hi);
    if p < hi {
      RollRecurrence(b, weights, reductions, v, lo, hi - 1, p);
    }
  }

  /** Rolling over slots that hold only who joins gives the active weights exactly. */
  lemma {:induction false} RollExact(b: Book, weights: Slots, reductions: Slots, v: Address, lo: nat, hi: nat, p: nat)
    requires Balanced(b) && 1 <= lo && lo - 1 <= p <= hi && Rollable(b, weights, reductions, v, lo, hi)
    requires Slot(weights, v, lo - 1) == b.active(v, lo - 1)
    requires forall q: nat | lo <= q <= hi :: Slot(weights, v, q) == b.joining(v, q)
    requires RollWeights(weights, reductions, v, lo, hi).Rolled?
    ensures Slot(RollWeights(weights, reductions, v, lo, hi).weights, v, p) == b.active(v, p)
    decreases p
  {
    if p < lo {
      RollFrame(weights, reductions, v, lo, hi);
    } else {
      RollExact(b, weights, reductions, v, lo, hi, p - 1);
      RollRecurrence(b, weights, reductions, v, lo, hi, p);
    }
  }

  lemma {:induction false} RollRewardsStores(c: Chain, weights: Slots, rewards: Slots, v: Address, lo: nat, hi: nat)
    requires 1 <= lo
    ensures var r := RollRewards(c, weights, rewards, v, lo, hi);
            && (forall p: nat | lo <= p <= hi && Slot(weights, v, p) != 0 :: Slot(r, v, p) == PeriodReward(c, v, p))
            && (forall u: Address, p: nat | u != v || p < lo || p > hi || Slot(weights, u, p) == 0 ::
                  Slot(r, u, p) == Slot(rewards, u, p))
    decreases hi
  {
    if hi >= lo {
      RollRewardsStores(c, weights, rewards, v, lo, hi - 1);
    }
  }

  // ---------- the invariant ----------

  ghost predicate WeightsOk(c: Chain, b: Book, st: Store, high: map<Address, nat>) {
    && (forall v: Address, p: nat | p <= U32_MAX :: Slot(st.reductions, v, p) == b.leaving(v, p))
    && (forall v: Address, p: nat | p > At(high, v) :: Slot(st.weights, v, p) == b.joining(v, p))
    && (forall v: Address, p: nat | p <= At(high, v) :: Slot(st.weights, v, p) >= b.active(v, p))
    && (forall v: Address :: At(st.populatedWeights, v) <= At(high, v) <= Completed(c, v))
  }

  ghost predicate RewardsOk(c: Chain, st: Store, high: map<Address, nat>) {
    forall v: Address, p: nat | 1 <= p <= At(high, v) ::
      Slot(st.weights, v, p) == 0 || Slot(st.rewards, v, p) == PeriodReward(c, v, p)
  }

  /** The last claimed period of a delegation lies in its own life and in what has been populated. */
  ghost predicate ClaimsOk(c: Chain, claims: map<nat, nat>, high: map<Address, nat>) {
    forall id: nat | At(claims, id) != 0 ::
      && id in c.delegations
      && c.delegations[id].start <= At(claims, id) <= c.delegations[id].end
      && At(claims, id) <= At(high, c.delegations[id].validator)
  }

  ghost predicate PaidPeriod(c: Chain, claims: map<nat, nat>, id: nat, p: nat) {
    id in c.delegations && c.delegations[id].start <= p <= At(claims, id)
  }

  /** What the delegation would get for period p if the period were settled at
      once over its active delegators. */
  ghost function EagerShare(c: Chain, b: Book, id: nat, p: nat): int
    requires id in c.delegations
  {
    var d := c.delegations[id];
    if b.active(d.validator, p) <= 0 then 0
    else (PeriodReward(c, d.validator, p) * Weight(d)) / b.active(d.validator, p)
  }

  /** The periods paid to a delegation are the gapless range from its start to its last claim. */
  ghost predicate PaidExactly(c: Chain, claims: map<nat, nat>, paid: map<(nat, nat), nat>) {
    forall id: nat, p: nat :: (id, p) in paid <==> PaidPeriod(c, claims, id, p)
  }

  ghost predicate PaidAtMostEager(c: Chain, b: Book, paid: map<(nat, nat), nat>) {
    forall id: nat, p: nat | (id, p) in paid ::
      id in c.delegations && paid[(id, p)] <= EagerShare(c, b, id, p)
  }

  ghost function PaidUpTo(paid: map<(nat, nat), nat>, id: nat, k: nat): nat {
    if k == 0 then 0 else PaidUpTo(paid, id, k - 1) + At(paid, (id, k))
  }

  ghost predicate ReceivedOk(claims: map<nat, nat>, past: History) {
    forall id: nat :: At(past.received, id) == PaidUpTo(past.paid, id, At(claims, id))
  }

  ghost predicate InvWith(s: State, b: Book) {
    && ChainOk(s.chain)
    && WeightsOk(s.chain, b, s.store, s.past.high)
    && RewardsOk(s.chain, s.store, s.past.high)
    && ClaimsOk(s.chain, s.store.claims, s.past.high)
    && PaidExactly(s.chain, s.store.claims, s.past.paid)
    && PaidAtMostEager(s.chain, b, s.past.paid)
    && ReceivedOk(s.store.claims, s.past)
  }

  ghost predicate Inv(s: State) {
    InvWith(s, BookOf(s.chain))
  }

  /** Every active delegation counts in the weight of its validator. */
  ghost predicate Counted(c: Chain, b: Book) {
    forall id: nat, p: nat | id in c.delegations && Active(c.delegations[id], c.delegations[id].validator, p) ::
      Weight(c.delegations[id]) <= b.active(c.delegations[id].validator, p)
  }

  // ---------- chain changes leave completed periods alone ----------

  ghost predicate SamePast(c: Chain, b: Book, c': Chain, b': Book) {
    && (forall v: Address :: Completed(c, v) <= Completed(c', v))
    && (forall v: Address, p: nat | p <= Completed(c, v) ::
          b'.active(v, p) == b.active(v, p) && PeriodReward(c', v, p) == PeriodReward(c, v, p))
    && (forall id | id in c.delegations ::
          && id in c'.delegations
          && c'.delegations[id] == c.delegations[id].(end := c'.delegations[id].end)
          && (c'.delegations[id].end == c.delegations[id].end
              || c'.delegations[id].end >= Completed(c, c.delegations[id].validator)))
  }

  lemma HighIsCompleted(c: Chain, b: Book, st: Store, high: map<Address, nat>)
    requires WeightsOk(c, b, st, high)
    ensures forall v: Address :: At(high, v) <= Completed(c, v)
  {
  }

  /** What speaks of claimed periods survives every change that keeps the past. */
  lemma PastKeepsClaims(c: Chain, b: Book, c': Chain, b': Book, st: Store, past: History)
    requires ChainOk(c) && ChainOk(c') && SamePast(c, b, c', b') && ClaimsOk(c, st.claims, past.high)
    requires forall v: Address :: At(past.high, v) <= Completed(c, v)
    requires PaidExactly(c, st.claims, past.paid) && PaidAtMostEager(c, b, past.paid)
    ensures ClaimsOk(c', st.claims, past.high)
    ensures PaidExactly(c', st.claims, past.paid) && PaidAtMostEager(c', b', past.paid)
  {
    hide PaidPeriod, EagerShare, SamePast, ChainOk, ClaimsOk;
    ClaimsKept(c, b, c', b', st.claims, past.high);
    forall id: nat, p: nat ensures (id, p) in past.paid <==> PaidPeriod(c', st.claims, id, p) {
      PaidPeriodKept(c, b, c', b', st.claims, past.high, id, p);
      assert (id, p) in past.paid <==> PaidPeriod(c, st.claims, id, p);
    }
    forall id: nat, p: nat | (id, p) in past.paid
      ensures id in c'.delegations && past.paid[(id, p)] <= EagerShare(c', b', id, p)
    {
      assert PaidPeriod(c, st.claims, id, p);
      PaidPeriodKept(c, b, c', b', st.claims, past.high, id, p);
    }
  }

  lemma ClaimsKept(c: Chain, b: Book, c': Chain, b': Book, claims: map<nat, nat>, high: map<Address, nat>)
    requires SamePast(c, b, c', b') && ClaimsOk(c, claims, high)
    requires forall v: Address :: At(high, v) <= Completed(c, v)
    ensures ClaimsOk(c', claims, high)
  {
    hide Completed;
    forall id: nat | At(claims, id) != 0
      ensures id in c'.delegations && c'.delegations[id].start <= At(claims, id) <= c'.delegations[id].end
      ensures At(claims, id) <= At(high, c'.delegations[id].validator)
    {
      assert id in c.delegations;
      assert At(high, c.delegations[id].validator) <= Completed(c, c.delegations[id].validator);
    }
  }

  lemma PaidPeriodKept(c: Chain, b: Book, c': Chain, b': Book, claims: map<nat, nat>, high: map<Address, nat>,
                       id: nat, p: nat)
    requires ChainOk(c) && ChainOk(c') && SamePast(c, b, c', b') && ClaimsOk(c, claims, high)
    requires forall v: Address :: At(high, v) <= Completed(c, v)
    ensures PaidPeriod(c', claims, id, p) <==> PaidPeriod(c, claims, id, p)
    ensures PaidPeriod(c, claims, id, p) ==>
              id in c.delegations && id in c'.delegations && EagerShare(c', b', id, p) == EagerShare(c, b, id, p)
  {
    if At(claims, id) != 0 {
      assert id in c.delegations && id in c'.delegations;
      assert At(claims, id) <= Completed(c, c.delegations[id].validator);
    } else if id in c.delegations {
      assert c.delegations[id].start >= 1;
    }
  }

  lemma CompleteKeepsPast(c: Chain, v: Address, reward: nat)
    requires ChainOk(c)
    ensures ChainOk(Complete(c, v, reward))
    ensures forall u: Address :: Completed(c, u) <= Completed(Complete(c, v, reward), u)
    ensures forall u: Address, p: nat | p <= Completed(c, u) ::
              PeriodReward(Complete(c, v, reward), u, p) == PeriodReward(c, u, p)
  {
    var c' := Complete(c, v, reward);
    forall u: Address ensures Completed(c, u) <= Completed(c', u) <= U32_MAX {
      assert Completed(c, u) <= U32_MAX;
    }
    forall u: Address, p: nat | p <= Completed(c, u) ensures PeriodReward(c', u, p) == PeriodReward(c, u, p) {
      assert Completed(c, u) <= Completed(c', u);
    }
  }

  lemma StepCompleteInv(s: State, b: Book, v: Address, reward: nat)
    requires InvWith(s, b)
    ensures InvWith(s.(chain := Complete(s.chain, v, reward)), b)
  {
    hide WeightsOk, RewardsOk, ClaimsOk, PaidExactly, PaidAtMostEager, ReceivedOk, ChainOk;
    CompleteKeepsPast(s.chain, v, reward);
    HighIsCompleted(s.chain, b, s.store, s.past.high);
    CompleteKeepsWeights(s.chain, b, s.store, s.past.high, Complete(s.chain, v, reward));
    PastKeepsClaims(s.chain, b, Complete(s.chain, v, reward), b, s.store, s.past);
  }

  lemma CompleteKeepsWeights(c: Chain, b: Book, st: Store, high: map<Address, nat>, c': Chain)
    requires WeightsOk(c, b, st, high) && RewardsOk(c, st, high)
    requires forall u: Address :: Completed(c, u) <= Completed(c', u)
    requires forall u: Address, p: nat | p <= Completed(c, u) :: PeriodReward(c', u, p) == PeriodReward(c, u, p)
    ensures WeightsOk(c', b, st, high) && RewardsOk(c', st, high)
  {
    hide PeriodReward, Slot, Completed;
  }

  /** Replacing or adding one delegation without touching completed periods. */
  lemma DelegationKeepsPast(c: Chain, b: Book, id: nat, d: Delegation, b': Book)
    requires ChainOk(c) && 1 <= d.start <= d.end <= U32_MAX
    requires forall u: Address, p: nat | p <= Completed(c, u) :: b'.active(u, p) == b.active(u, p)
    requires id in c.delegations ==>
               d == c.delegations[id].(end := d.end) && d.end >= Completed(c, d.validator)
    ensures var c' := c.(delegations := c.delegations[id := d]);
            ChainOk(c') && SamePast(c, b, c', b') && forall u: Address :: Completed(c', u) == Completed(c, u)
  {
    var c' := c.(delegations := c.delegations[id := d]);
    forall u: Address ensures Completed(c', u) == Completed(c, u) {}
    forall u: Address, p: nat ensures PeriodReward(c', u, p) == PeriodReward(c, u, p) {}
  }

  lemma JoinKeepsWeights(c: Chain, b: Book, st: Store, high: map<Address, nat>, st': Store, v: Address, start: nat,
                         w: nat, b': Book)
    requires WeightsOk(c, b, st, high) && Joined(b, b', v, start, w) && start > Completed(c, v)
    requires st' == st.(delegationIDs := st'.delegationIDs,
              weights := st.weights[(v, start) := Slot(st.weights, v, start) + w])
    ensures WeightsOk(c, b', st', high)
  {
  }

  lemma ChainSwap(c: Chain, c': Chain, b: Book, st: Store, st': Store, high: map<Address, nat>)
    requires WeightsOk(c, b, st', high) && RewardsOk(c, st, high)
    requires c'.periodRewards == c.periodRewards && st'.rewards == st.rewards
    requires forall v: Address, p: nat | p <= At(high, v) :: Slot(st'.weights, v, p) == Slot(st.weights, v, p)
    ensures WeightsOk(c', b, st', high) && RewardsOk(c', st', high)
  {
    forall v: Address ensures Completed(c', v) == Completed(c, v) {}
    forall v: Address, p: nat ensures PeriodReward(c', v, p) == PeriodReward(c, v, p) {}
  }

  lemma LeaveKeepsWeights(c: Chain, b: Book, st: Store, high: map<Address, nat>, st': Store, v: Address, w: nat,
                          b': Book)
    requires WeightsOk(c, b, st, high) && Left(b, b', v, Completed(c, v) + 1, w)
    requires st' == st.(reductions := st.reductions[(v, Completed(c, v) + 2) := Slot(st.reductions, v,
              Completed(c, v) + 2) + w])
    ensures WeightsOk(c, b', st', high)
  {
  }

  /** One delegation is added or its end moved, and one slot of the store with it. */
  lemma DelegationInv(s: State, b: Book, id: nat, d: Delegation, st': Store, b': Book)
    requires InvWith(s, b) && 1 <= d.start <= d.end <= U32_MAX
    requires forall u: Address, p: nat | p <= Completed(s.chain, u) :: b'.active(u, p) == b.active(u, p)
    requires id in s.chain.delegations ==>
               d == s.chain.delegations[id].(end := d.end) && d.end >= Completed(s.chain, d.validator)
    requires WeightsOk(s.chain, b', st', s.past.high)
    requires st'.rewards == s.store.rewards && st'.claims == s.store.claims
    requires forall v: Address, p: nat | p <= At(s.past.high, v) ::
              Slot(st'.weights, v, p) == Slot(s.store.weights, v, p)
    ensures InvWith(s.(chain := s.chain.(delegations := s.chain.delegations[id := d]), store := st'), b')
  {
    hide WeightsOk, RewardsOk, ClaimsOk, PaidExactly, PaidAtMostEager, ReceivedOk, ChainOk, SamePast;
    var c' := s.chain.(delegations := s.chain.delegations[id := d]);
    HighIsCompleted(s.chain, b, s.store, s.past.high);
    DelegationKeepsPast(s.chain, b, id, d, b');
    PastKeepsClaims(s.chain, b, c', b', s.store, s.past);
    ChainSwap(s.chain, c', b', s.store, st', s.past.high);
  }

  lemma StepAddInv(s: State, b: Book, a: Action, b': Book)
    requires InvWith(s, b) && a.AddDelegator? && Add(s, a).1.Done?
    requires Joined(b, b', a.validator, a.start,
              Weight(Delegation(a.validator, a.amount, a.multiplier, a.start, U32_MAX)))
    ensures InvWith(Add(s, a).0, b')
  {
    hide WeightsOk, RewardsOk, ClaimsOk, PaidExactly, PaidAtMostEager, ReceivedOk, ChainOk;
    var d := Delegation(a.validator, a.amount, a.multiplier, a.start, U32_MAX);
    AddInv(s, b, a.caller, a.id, d, Weight(d), b');
  }

  lemma AddInv(s: State, b: Book, caller: Address, id: nat, d: Delegation, w: nat, b': Book)
    requires InvWith(s, b) && NativeAdds(s.chain, d.validator, id, d.start) && d.end == U32_MAX
    requires Joined(b, b', d.validator, d.start, w)
    ensures var increased := Slot(s.store.weights, d.validator, d.start) + w;
            var st' := s.store.(delegationIDs := s.store.delegationIDs[caller := id],
                                weights := s.store.weights[(d.validator, d.start) := increased]);
            InvWith(s.(chain := s.chain.(delegations := s.chain.delegations[id := d]), store := st'), b')
  {
    hide WeightsOk, RewardsOk, ClaimsOk, PaidExactly, PaidAtMostEager, ReceivedOk, ChainOk;
    var increased := Slot(s.store.weights, d.validator, d.start) + w;
    var st' := s.store.(delegationIDs := s.store.delegationIDs[caller := id],
                        weights := s.store.weights[(d.validator, d.start) := increased]);
    JoinKeepsWeights(s.chain, b, s.store, s.past.high, st', d.validator, d.start, w, b');
    DelegationInv(s, b, id, d, st', b');
  }

  lemma StepDisableInv(s: State, b: Book, a: Action, b': Book)
    requires InvWith(s, b) && a.DisableAutoRenew? && Disable(s, a).1.Done?
    requires var d := s.chain.delegations[At(s.store.delegationIDs, a.caller)];
             Left(b, b', d.validator, Completed(s.chain, d.validator) + 1, Weight(d))
    ensures InvWith(Disable(s, a).0, b')
  {
    hide WeightsOk, RewardsOk, ClaimsOk, PaidExactly, PaidAtMostEager, ReceivedOk, ChainOk, Left;
    var id := At(s.store.delegationIDs, a.caller);
    DisableInv(s, b, id, Weight(s.chain.delegations[id]), b');
  }

  lemma DisableInv(s: State, b: Book, id: nat, w: nat, b': Book)
    requires InvWith(s, b) && NativeExits(s.chain, id)
    requires Completed(s.chain, s.chain.delegations[id].validator) + 2 <= U32_MAX
    requires Left(b, b', s.chain.delegations[id].validator, Completed(s.chain, s.chain.delegations[id].validator) + 1,
              w)
    ensures var d := s.chain.delegations[id];
            var k := Completed(s.chain, d.validator);
            var reduced := Slot(s.store.reductions, d.validator, k + 2) + w;
            var st' := s.store.(reductions := s.store.reductions[(d.validator, k + 2) := reduced]);
            InvWith(s.(chain := s.chain.(delegations := s.chain.delegations[id := d.(end := k + 1)]), store := st'), b')
  {
    hide WeightsOk, RewardsOk, ClaimsOk, PaidExactly, PaidAtMostEager, ReceivedOk;
    var d := s.chain.delegations[id];
    var k := Completed(s.chain, d.validator);
    var reduced := Slot(s.store.reductions, d.validator, k + 2) + w;
    var st' := s.store.(reductions := s.store.reductions[(d.validator, k + 2) := reduced]);
    LeaveKeepsWeights(s.chain, b, s.store, s.past.high, st', d.validator, w, b');
    DelegationInv(s, b, id, d.(end := k + 1), st', b');
  }

  // ---------- claims ----------

  /** Facts about a claim that goes through. */
  ghost predicate ClaimFacts(c: Chain, b: Book, st: Store, id: nat, r: Claimable)
    requires id in c.delegations
  {
    && r.Payable?
    && var d := c.delegations[id];
    && var v := d.validator;
    && r.first == FirstClaimable(st, d, id) && r.last == LastClaimable(c, d)
    && 1 <= r.first <= r.last < U32_MAX
    && (forall p: nat | At(st.populatedWeights, v) < p <= r.last :: Slot(r.store.weights, v, p) >= b.active(v, p))
    && (forall p: nat | At(st.populatedWeights, v) < p <= r.last ::
          Slot(r.store.weights, v, p) == 0 || Slot(r.store.rewards, v, p) == PeriodReward(c, v, p))
    && (forall u: Address, p: nat | u != v || p <= At(st.populatedWeights, v) || p > r.last ::
          Slot(r.store.weights, u, p) == Slot(st.weights, u, p)
              && Slot(r.store.rewards, u, p) == Slot(st.rewards, u, p))
    && r.store.claims == st.claims[id := r.last]
    && r.store.populatedWeights == st.populatedWeights[v := r.last]
    && r.store.reductions == st.reductions && r.store.delegationIDs == st.delegationIDs
    && SumShares(r.store.weights, r.store.rewards, v, Weight(d), r.first, r.last) == Total(r.total)
  }

  lemma ClaimRollable(c: Chain, b: Book, st: Store, high: map<Address, nat>, v: Address, last: nat)
    requires ChainOk(c) && Balanced(b) && WeightsOk(c, b, st, high) && last <= U32_MAX
    ensures Rollable(b, st.weights, st.reductions, v, At(st.populatedWeights, v) + 1, last)
  {
    forall p: nat | 1 <= p <= last ensures Slot(st.weights, v, p) >= b.joining(v, p) {
      if p <= At(high, v) { assert b.active(v, p) >= b.joining(v, p); }
    }
  }

  /** The weights a claim leaves are those rolled up to its last period. */
  lemma PayableRolls(c: Chain, st: Store, id: nat, r: Claimable)
    requires id in c.delegations && r == ClaimableRewards(c, st, id) && r.Payable?
    ensures var v := c.delegations[id].validator;
            var rolled := RollWeights(st.weights, st.reductions, v, At(st.populatedWeights, v) + 1, r.last);
            rolled.Rolled? && r.store.weights == rolled.weights && r.last < U32_MAX
  {
  }

  lemma ClaimRolls(c: Chain, b: Book, st: Store, high: map<Address, nat>, id: nat)
    requires ChainOk(c) && Balanced(b) && WeightsOk(c, b, st, high) && id in c.delegations
    requires ClaimableRewards(c, st, id).Payable?
    ensures ClaimFacts(c, b, st, id, ClaimableRewards(c, st, id))
  {
    var r := ClaimableRewards(c, st, id);
    var v := c.delegations[id].validator;
    var lo := At(st.populatedWeights, v) + 1;
    ClaimRollable(c, b, st, high, v, r.last);
    RollCovers(b, st.weights, st.reductions, v, lo, r.last);
    RollFrame(st.weights, st.reductions, v, lo, r.last);
    RollRewardsStores(c, r.store.weights, st.rewards, v, lo, r.last);
  }

  /** No claim ever fails on the checked subtraction. */
  lemma ClaimNeverUnderflows(c: Chain, b: Book, st: Store, high: map<Address, nat>, id: nat)
    requires ChainOk(c) && Balanced(b) && WeightsOk(c, b, st, high)
    ensures ClaimableRewards(c, st, id) != Fails(ArithmeticUnderflow)
  {
    hide RollWeights, RollRewards, SumShares, WeightsOk, Balanced, Rollable;
    if id in c.delegations {
      var d := c.delegations[id];
      if LastClaimable(c, d) < U32_MAX {
        ClaimRollable(c, b, st, high, d.validator, LastClaimable(c, d));
        RollCovers(b, st.weights, st.reductions, d.validator, At(st.populatedWeights, d.validator) + 1,
            LastClaimable(c, d));
      }
    }
  }

  /** Dividing by at least the active weight pays at most the eager share. */
  lemma ShareAtMostEager(c: Chain, b: Book, weights: Slots, rewards: Slots, id: nat, p: nat)
    requires id in c.delegations && Balanced(b)
    requires var v := c.delegations[id].validator;
             && Slot(weights, v, p) >= b.active(v, p)
             && (Slot(weights, v, p) == 0 || Slot(rewards, v, p) == PeriodReward(c, v, p))
             && (b.active(v, p) == 0 ==> Weight(c.delegations[id]) == 0)
    ensures var d := c.delegations[id];
            var share := Share(weights, rewards, d.validator, p, Weight(d));
            && share <= EagerShare(c, b, id, p)
            && (Slot(weights, d.validator, p) == b.active(d.validator, p) ==> share == EagerShare(c, b, id, p))
  {
    var d := c.delegations[id];
    var all, truth := Slot(weights, d.validator, p), b.active(d.validator, p);
    if truth > 0 {
      DivideByLess(PeriodReward(c, d.validator, p) * Weight(d), truth, all);
    }
  }

  /** The loop over periods adds up exactly the entries that it records. */
  lemma {:induction false} SharesAddUp(w: Slots, r: Slots, v: Address, weight: nat, lo: nat, hi: nat,
                                       total: nat, paid: map<(nat, nat), nat>, id: nat)
    requires 1 <= lo <= hi + 1 && SumShares(w, r, v, weight, lo, hi) == Total(total)
    requires forall p: nat | lo <= p <= hi :: At(paid, (id, p)) == Share(w, r, v, p, weight)
    ensures PaidUpTo(paid, id, hi) == PaidUpTo(paid, id, lo - 1) + total
    decreases hi
  {
    if hi >= lo {
      SharesAddUp(w, r, v, weight, lo, hi - 1, SumShares(w, r, v, weight, lo, hi - 1).amount, paid, id);
    }
  }

  lemma {:induction false} PaidUpToSame(paid: map<(nat, nat), nat>, paid': map<(nat, nat), nat>, id: nat, k: nat)
    requires forall p: nat | 1 <= p <= k :: At(paid', (id, p)) == At(paid, (id, p))
    ensures PaidUpTo(paid', id, k) == PaidUpTo(paid, id, k)
  {
    if k > 0 {
      PaidUpToSame(paid, paid', id, k - 1);
    }
  }

  lemma {:induction false} NothingPaid(paid: map<(nat, nat), nat>, id: nat, k: nat)
    requires forall p: nat | 1 <= p <= k :: (id, p) !in paid
    ensures PaidUpTo(paid, id, k) == 0
  {
    if k > 0 {
      NothingPaid(paid, id, k - 1);
    }
  }

  /** The entries a claim records, seen through `At`. */
  lemma RecordedEntries(past: History, d: Delegation, id: nat, r: Claimable)
    requires r.Payable?
    ensures var paid' := Recorded(past, d, id, r).paid;
            && (forall i: nat, p: nat ::
                (i, p) in paid' <==> (i, p) in past.paid || (i == id && r.first <= p <= r.last))
            && (forall i: nat, p: nat | !(i == id && r.first <= p <= r.last) ::
                At(paid', (i, p)) == At(past.paid, (i, p)))
            && (forall p: nat | r.first <= p <= r.last ::
                  At(paid', (id, p)) == Share(r.store.weights, r.store.rewards, d.validator, p, Weight(d)))
  {
  }

  lemma PaidPeriodAfter(c: Chain, claims: map<nat, nat>, high: map<Address, nat>, id: nat, first: nat, last: nat,
                        i: nat, p: nat)
    requires ClaimsOk(c, claims, high) && id in c.delegations && 1 <= first <= last
    requires first == (if At(claims, id) == 0 then c.delegations[id].start else At(claims, id) + 1)
    ensures PaidPeriod(c, claims[id := last], i, p) <==> PaidPeriod(c, claims, i, p) || (i == id && first <= p <= last)
  {
    if i == id && At(claims, id) != 0 {
      assert c.delegations[id].start <= At(claims, id);
    }
  }

  lemma ClaimPaidExactly(c: Chain, b: Book, st: Store, past: History, id: nat, r: Claimable)
    requires ClaimsOk(c, st.claims, past.high) && PaidExactly(c, st.claims, past.paid)
    requires id in c.delegations && ClaimFacts(c, b, st, id, r)
    ensures PaidExactly(c, r.store.claims, Recorded(past, c.delegations[id], id, r).paid)
  {
    hide PaidPeriod, ClaimsOk, Recorded, Slot, SumShares, Share, LastClaimable;
    var paid' := Recorded(past, c.delegations[id], id, r).paid;
    RecordedEntries(past, c.delegations[id], id, r);
    forall i: nat, p: nat ensures (i, p) in paid' <==> PaidPeriod(c, r.store.claims, i, p) {
      PaidPeriodAfter(c, st.claims, past.high, id, r.first, r.last, i, p);
      assert (i, p) in past.paid <==> PaidPeriod(c, st.claims, i, p);
    }
  }

  lemma ClaimPaidAtMostEager(c: Chain, b: Book, st: Store, past: History, id: nat, r: Claimable)
    requires ChainOk(c) && Balanced(b) && WeightsOk(c, b, st, past.high) && RewardsOk(c, st, past.high)
    requires PaidAtMostEager(c, b, past.paid)
    requires id in c.delegations && ClaimFacts(c, b, st, id, r)
    requires forall p: nat | r.first <= p <= r.last && b.active(c.delegations[id].validator, p) == 0 ::
               Weight(c.delegations[id]) == 0
    ensures PaidAtMostEager(c, b, Recorded(past, c.delegations[id], id, r).paid)
  {
    var paid' := Recorded(past, c.delegations[id], id, r).paid;
    RecordedEntries(past, c.delegations[id], id, r);
    forall i: nat, p: nat | (i, p) in paid'
      ensures i in c.delegations && paid'[(i, p)] <= EagerShare(c, b, i, p)
    {
      assert paid'[(i, p)] == At(paid', (i, p));
      if i == id && r.first <= p <= r.last {
        ShareAtMostEager(c, b, r.store.weights, r.store.rewards, id, p);
      } else {
        assert (i, p) in past.paid;
        assert paid'[(i, p)] == past.paid[(i, p)];
      }
    }
  }

  /** Claiming starts right after the last paid period. */
  lemma PaidBefore(c: Chain, claims: map<nat, nat>, past: History, id: nat, d: Delegation, first: nat)
    requires id in c.delegations && d == c.delegations[id] && PaidExactly(c, claims, past.paid)
    requires first == (if At(claims, id) == 0 then d.start else At(claims, id) + 1) && first >= 1
    requires At(past.received, id) == PaidUpTo(past.paid, id, At(claims, id))
    ensures PaidUpTo(past.paid, id, first - 1) == At(past.received, id)
  {
    if At(claims, id) == 0 {
      forall p: nat | 1 <= p <= first - 1 ensures (id, p) !in past.paid {
        assert !PaidPeriod(c, claims, id, p);
      }
      NothingPaid(past.paid, id, first - 1);
    }
  }

  lemma ClaimReceived(past: History, d: Delegation, id: nat, r: Claimable)
    requires r.Payable? && 1 <= r.first <= r.last
    requires SumShares(r.store.weights, r.store.rewards, d.validator, Weight(d), r.first, r.last) == Total(r.total)
    ensures PaidUpTo(Recorded(past, d, id, r).paid, id, r.last) == PaidUpTo(past.paid, id, r.first - 1) + r.total
  {
    var paid' := Recorded(past, d, id, r).paid;
    RecordedEntries(past, d, id, r);
    SharesAddUp(r.store.weights, r.store.rewards, d.validator, Weight(d), r.first, r.last, r.total, paid', id);
    PaidUpToSame(past.paid, paid', id, r.first - 1);
  }

  lemma ClaimReceivedSelf(c: Chain, b: Book, st: Store, past: History, id: nat, r: Claimable)
    requires PaidExactly(c, st.claims, past.paid)
    requires At(past.received, id) == PaidUpTo(past.paid, id, At(st.claims, id))
    requires id in c.delegations && ClaimFacts(c, b, st, id, r)
    ensures PaidUpTo(Recorded(past, c.delegations[id], id, r).paid, id, r.last) == At(past.received, id) + r.total
  {
    hide PaidExactly, PaidUpTo, Recorded, SumShares, Slot, LastClaimable;
    PaidBefore(c, st.claims, past, id, c.delegations[id], r.first);
    ClaimReceived(past, c.delegations[id], id, r);
  }

  lemma ClaimReceivedOther(past: History, d: Delegation, id: nat, r: Claimable, i: nat, k: nat)
    requires r.Payable? && i != id
    ensures PaidUpTo(Recorded(past, d, id, r).paid, i, k) == PaidUpTo(past.paid, i, k)
  {
    hide Recorded, PaidUpTo;
    RecordedEntries(past, d, id, r);
    PaidUpToSame(past.paid, Recorded(past, d, id, r).paid, i, k);
  }

  lemma ClaimReceivedOk(c: Chain, b: Book, st: Store, past: History, id: nat, r: Claimable)
    requires PaidExactly(c, st.claims, past.paid) && ReceivedOk(st.claims, past)
    requires id in c.delegations && ClaimFacts(c, b, st, id, r)
    ensures ReceivedOk(r.store.claims, Recorded(past, c.delegations[id], id, r))
  {
    hide PaidExactly, PaidUpTo, SumShares, Slot, LastClaimable, FirstClaimable, Share;
    var past' := Recorded(past, c.delegations[id], id, r);
    forall i: nat ensures At(past'.received, i) == PaidUpTo(past'.paid, i, At(r.store.claims, i)) {
      if i == id {
        ClaimReceivedSelf(c, b, st, past, id, r);
      } else {
        ClaimReceivedOther(past, c.delegations[id], id, r, i, At(st.claims, i));
      }
    }
  }

  /** `high'` is `high` raised to at least `last` for validator v. */
  ghost predicate Raised(high: map<Address, nat>, high': map<Address, nat>, v: Address, last: nat) {
    && At(high', v) == (if At(high, v) < last then last else At(high, v))
    && forall u: Address | u != v :: At(high', u) == At(high, u)
  }

  lemma HighAfter(past: History, d: Delegation, id: nat, r: Claimable)
    requires r.Payable?
    ensures Raised(past.high, Recorded(past, d, id, r).high, d.validator, r.last)
  {
  }

  lemma ClaimKeepsWeights(c: Chain, b: Book, st: Store, high: map<Address, nat>, high': map<Address, nat>, id: nat,
                          r: Claimable)
    requires WeightsOk(c, b, st, high) && id in c.delegations && ClaimFacts(c, b, st, id, r)
    requires Raised(high, high', c.delegations[id].validator, r.last)
    ensures WeightsOk(c, b, r.store, high')
  {
    hide Slot, SumShares, FirstClaimable;
    assert forall v: Address :: At(r.store.populatedWeights, v) <= At(high', v) <= Completed(c, v);
  }

  lemma ClaimKeepsRewards(c: Chain, b: Book, st: Store, high: map<Address, nat>, high': map<Address, nat>, id: nat,
                          r: Claimable)
    requires RewardsOk(c, st, high) && id in c.delegations && ClaimFacts(c, b, st, id, r)
    requires Raised(high, high', c.delegations[id].validator, r.last)
    requires At(st.populatedWeights, c.delegations[id].validator) <= At(high, c.delegations[id].validator)
    ensures RewardsOk(c, r.store, high')
  {
    hide Slot, SumShares, FirstClaimable, LastClaimable, PeriodReward;
  }

  lemma ClaimKeepsClaims(c: Chain, b: Book, st: Store, high: map<Address, nat>, high': map<Address, nat>, id: nat,
                         r: Claimable)
    requires ClaimsOk(c, st.claims, high) && id in c.delegations && ClaimFacts(c, b, st, id, r)
    requires Raised(high, high', c.delegations[id].validator, r.last)
    ensures ClaimsOk(c, r.store.claims, high')
  {
    hide Slot, SumShares, PeriodReward;
  }

  lemma ClaimWeightsOk(c: Chain, b: Book, st: Store, past: History, id: nat, r: Claimable)
    requires WeightsOk(c, b, st, past.high) && RewardsOk(c, st, past.high) && ClaimsOk(c, st.claims, past.high)
    requires id in c.delegations && ClaimFacts(c, b, st, id, r)
    ensures var high := Recorded(past, c.delegations[id], id, r).high;
            WeightsOk(c, b, r.store, high) && RewardsOk(c, r.store, high) && ClaimsOk(c, r.store.claims, high)
  {
    hide RewardsOk, ClaimsOk, Recorded;
    var high := Recorded(past, c.delegations[id], id, r).high;
    HighAfter(past, c.delegations[id], id, r);
    ClaimKeepsWeights(c, b, st, past.high, high, id, r);
    ClaimKeepsRewards(c, b, st, past.high, high, id, r);
    ClaimKeepsClaims(c, b, st, past.high, high, id, r);
  }

  lemma NoWeightUncounted(c: Chain, b: Book, st: Store, id: nat, r: Claimable)
    requires ChainOk(c) && Counted(c, b) && id in c.delegations && ClaimFacts(c, b, st, id, r)
    requires forall id: nat | At(st.claims, id) != 0 && id in c.delegations ::
              c.delegations[id].start <= At(st.claims, id)
    ensures forall p: nat | r.first <= p <= r.last && b.active(c.delegations[id].validator, p) == 0 ::
              Weight(c.delegations[id]) == 0
  {
    forall p: nat | r.first <= p <= r.last && b.active(c.delegations[id].validator, p) == 0
      ensures Weight(c.delegations[id]) == 0
    {
      assert Active(c.delegations[id], c.delegations[id].validator, p);
    }
  }

  lemma PayableIsDelegation(c: Chain, st: Store, id: nat)
    requires ClaimableRewards(c, st, id).Payable?
    ensures id in c.delegations
  {
  }

  lemma ClaimInv(s: State, b: Book, id: nat, r: Claimable)
    requires InvWith(s, b) && Balanced(b) && Counted(s.chain, b) && id in s.chain.delegations
    requires r == ClaimableRewards(s.chain, s.store, id) && r.Payable?
    ensures InvWith(State(s.chain, r.store, Recorded(s.past, s.chain.delegations[id], id, r)), b)
  {
    hide WeightsOk, RewardsOk, PaidExactly, PaidAtMostEager, ReceivedOk, ChainOk, Balanced, Counted,
         ClaimableRewards, Recorded, ClaimFacts;
    var c, st := s.chain, s.store;
    ClaimRolls(c, b, st, s.past.high, id);
    NoWeightUncounted(c, b, st, id, r);
    ClaimWeightsOk(c, b, st, s.past, id, r);
    ClaimPaidExactly(c, b, st, s.past, id, r);
    ClaimPaidAtMostEager(c, b, st, s.past, id, r);
    ClaimReceivedOk(c, b, st, s.past, id, r);
  }

  lemma StepClaimInv(s: State, b: Book, a: Action)
    requires InvWith(s, b) && Balanced(b) && a.ClaimRewards? && Claim(s, a).1.Done?
    requires Counted(s.chain, b)
    ensures InvWith(Claim(s, a).0, b)
  {
    hide ClaimableRewards, Recorded, Balanced, Counted, InvWith;
    var id := At(s.store.delegationIDs, a.caller);
    PayableIsDelegation(s.chain, s.store, id);
    ClaimInv(s, b, id, ClaimableRewards(s.chain, s.store, id));
  }
}
