/** When the lazily rolled weights and the payments are exact: for each validator,
    exactly in the runs whose claims roll nothing forward a second time. */
module StargateExact {
  import opened Arith
  import opened Common
  import opened Runs
  import opened StargateEager
  import opened StargateInvariant
  import opened StargateModel
  import opened StargateTheorems
  import opened Sums

  // ---------- one claim ----------

  /** Every slot populated so far holds the active weight; the marker may lag behind. */
  ghost predicate PopulatedExact(b: Book, st: Store, high: map<Address, nat>, v: Address) {
    forall p: nat | p <= At(high, v) :: Slot(st.weights, v, p) == b.active(v, p)
  }

  /** No weight is carried from one period into the next among those that a claim
      up to `last` rolls a second time. */
  ghost predicate NothingCarried(st: Store, high: map<Address, nat>, v: Address, last: nat) {
    forall p: nat | At(st.populatedWeights, v) < p <= last && p <= At(high, v) ::
      Slot(st.weights, v, p - 1) == Slot(st.reductions, v, p)
  }

  lemma {:induction false} RerollExact(c: Chain, b: Book, st: Store, high: map<Address, nat>, id: nat, r: Claimable,
                                       p: nat)
    requires ChainOk(c) && Balanced(b) && WeightsOk(c, b, st, high) && id in c.delegations
    requires PopulatedExact(b, st, high, c.delegations[id].validator)
    requires r == ClaimableRewards(c, st, id) && r.Payable? && p <= r.last
    requires NothingCarried(st, high, c.delegations[id].validator, r.last)
    ensures Slot(r.store.weights, c.delegations[id].validator, p) == b.active(c.delegations[id].validator, p)
  {
    hide ClaimableRewards, RollWeights, Slot, SumShares, FirstClaimable, LastClaimable, Balanced, ChainOk;
    var v := c.delegations[id].validator;
    PayableRolls(c, st, id, r);
    ClaimRolls(c, b, st, high, id);
    if p > At(st.populatedWeights, v) {
      RerollExact(c, b, st, high, id, r, p - 1);
      BalancedAt(b, v, p);
      ClaimRollable(c, b, st, high, v, r.last);
      RollRecurrence(b, st.weights, st.reductions, v, At(st.populatedWeights, v) + 1, r.last, p);
    }
  }

  lemma RerollCarries(c: Chain, b: Book, st: Store, high: map<Address, nat>, id: nat, r: Claimable, p: nat)
    requires ChainOk(c) && Balanced(b) && WeightsOk(c, b, st, high) && id in c.delegations
    requires PopulatedExact(b, st, high, c.delegations[id].validator)
    requires r == ClaimableRewards(c, st, id) && r.Payable?
    requires forall q: nat | q <= r.last ::
               Slot(r.store.weights, c.delegations[id].validator, q) == b.active(c.delegations[id].validator, q)
    requires At(st.populatedWeights, c.delegations[id].validator) < p <= r.last
              && p <= At(high, c.delegations[id].validator)
    ensures Slot(st.weights, c.delegations[id].validator, p - 1) == Slot(st.reductions, c.delegations[id].validator, p)
  {
    hide ClaimableRewards, RollWeights, Slot, SumShares, FirstClaimable, LastClaimable, Balanced, ChainOk;
    var v := c.delegations[id].validator;
    PayableRolls(c, st, id, r);
    ClaimRolls(c, b, st, high, id);
    ClaimRollable(c, b, st, high, v, r.last);
    RollRecurrence(b, st.weights, st.reductions, v, At(st.populatedWeights, v) + 1, r.last, p);
    assert Slot(r.store.weights, v, p) == b.active(v, p) == Slot(st.weights, v, p);
    assert Slot(r.store.weights, v, p - 1) == b.active(v, p - 1) == Slot(st.weights, v, p - 1);
  }

  lemma KeepsExactIff(c: Chain, b: Book, st: Store, high: map<Address, nat>, id: nat, r: Claimable)
    requires ChainOk(c) && Balanced(b) && WeightsOk(c, b, st, high) && id in c.delegations
    requires PopulatedExact(b, st, high, c.delegations[id].validator)
    requires r == ClaimableRewards(c, st, id) && r.Payable?
    ensures var v := c.delegations[id].validator;
            (forall p: nat | p <= r.last :: Slot(r.store.weights, v, p) == b.active(v, p))
            <==> NothingCarried(st, high, v, r.last)
  {
    var v := c.delegations[id].validator;
    if NothingCarried(st, high, v, r.last) {
      forall p: nat | p <= r.last ensures Slot(r.store.weights, v, p) == b.active(v, p) {
        RerollExact(c, b, st, high, id, r, p);
      }
    }
    if forall p: nat | p <= r.last :: Slot(r.store.weights, v, p) == b.active(v, p) {
      forall p: nat | At(st.populatedWeights, v) < p <= r.last && p <= At(high, v)
        ensures Slot(st.weights, v, p - 1) == Slot(st.reductions, v, p)
      {
        RerollCarries(c, b, st, high, id, r, p);
      }
    }
  }

  /** Rolling never lowers a slot, so a weight that is too large stays too large. */
  lemma ClaimNeverLowers(c: Chain, b: Book, st: Store, high: map<Address, nat>, id: nat, r: Claimable, p: nat)
    requires ChainOk(c) && Balanced(b) && WeightsOk(c, b, st, high) && id in c.delegations
    requires r == ClaimableRewards(c, st, id) && r.Payable?
    ensures Slot(r.store.weights, c.delegations[id].validator, p) >= Slot(st.weights, c.delegations[id].validator, p)
  {
    hide ClaimableRewards, RollWeights, Slot, SumShares, FirstClaimable, LastClaimable, Balanced, ChainOk, WeightsOk;
    var v := c.delegations[id].validator;
    var lo := At(st.populatedWeights, v) + 1;
    PayableRolls(c, st, id, r);
    ClaimRolls(c, b, st, high, id);
    if lo <= p <= r.last {
      ClaimRollable(c, b, st, high, v, r.last);
      RollCovers(b, st.weights, st.reductions, v, lo, r.last);
      RollFrame(st.weights, st.reductions, v, lo, r.last);
      RollRecurrence(b, st.weights, st.reductions, v, lo, r.last, p);
      BalancedAt(b, v, p);
    }
  }

  lemma ClaimNeverRepairs(c: Chain, b: Book, st: Store, high: map<Address, nat>, id: nat, r: Claimable,
                          high': map<Address, nat>)
    requires ChainOk(c) && Balanced(b) && WeightsOk(c, b, st, high) && id in c.delegations
    requires r == ClaimableRewards(c, st, id) && r.Payable?
    requires Raised(high, high', c.delegations[id].validator, r.last)
    requires PopulatedExact(b, r.store, high', c.delegations[id].validator)
    ensures PopulatedExact(b, st, high, c.delegations[id].validator)
  {
    hide ClaimableRewards, Slot, Balanced, ChainOk;
    var v := c.delegations[id].validator;
    forall p: nat | p <= At(high, v) ensures Slot(st.weights, v, p) == b.active(v, p) {
      ClaimNeverLowers(c, b, st, high, id, r, p);
      assert Slot(r.store.weights, v, p) == b.active(v, p);
    }
  }

  /** Above the last claimed period nothing is rolled. */
  lemma ExactUpToHigh(c: Chain, b: Book, st: Store, high: map<Address, nat>, id: nat, r: Claimable, high': map<Address,
                      nat>)
    requires ChainOk(c) && Balanced(b) && WeightsOk(c, b, st, high) && id in c.delegations
    requires r == ClaimableRewards(c, st, id) && r.Payable?
    requires Raised(high, high', c.delegations[id].validator, r.last)
    requires PopulatedExact(b, st, high, c.delegations[id].validator)
    ensures PopulatedExact(b, r.store, high', c.delegations[id].validator) <==>
              forall p: nat | p <= r.last ::
                Slot(r.store.weights, c.delegations[id].validator, p) == b.active(c.delegations[id].validator, p)
  {
    hide ClaimableRewards, Slot, Balanced, ChainOk, SumShares, FirstClaimable, LastClaimable;
    ClaimRolls(c, b, st, high, id);
  }

  /** A claim leaves a validator exact if and only if it was exact before and, for its own
      validator, nothing is carried over in the periods that are rolled again. */
  lemma ClaimExactIff(c: Chain, b: Book, st: Store, high: map<Address, nat>, id: nat, r: Claimable,
                      high': map<Address, nat>, v: Address)
    requires ChainOk(c) && Balanced(b) && WeightsOk(c, b, st, high) && id in c.delegations
    requires r == ClaimableRewards(c, st, id) && r.Payable?
    requires Raised(high, high', c.delegations[id].validator, r.last)
    ensures PopulatedExact(b, r.store, high', v) <==>
              PopulatedExact(b, st, high, v)
                  && (v == c.delegations[id].validator ==> NothingCarried(st, high, v, r.last))
  {
    hide ClaimableRewards, Slot, Balanced, ChainOk, WeightsOk, SumShares, FirstClaimable, LastClaimable, NothingCarried;
    if v != c.delegations[id].validator {
      ClaimRolls(c, b, st, high, id);
    } else {
      if PopulatedExact(b, r.store, high', v) { ClaimNeverRepairs(c, b, st, high, id, r, high'); }
      if PopulatedExact(b, st, high, v) {
        KeepsExactIff(c, b, st, high, id, r);
        ExactUpToHigh(c, b, st, high, id, r, high');
      }
    }
  }

  // ---------- payments ----------

  /** Each period paid to a delegation of v was paid as if it had been settled at once. */
  ghost predicate PaidEagerly(c: Chain, b: Book, paid: map<(nat, nat), nat>, v: Address) {
    forall id: nat, p: nat | (id, p) in paid && id in c.delegations && c.delegations[id].validator == v ::
      paid[(id, p)] == EagerShare(c, b, id, p)
  }

  lemma ClaimPaidEagerly(c: Chain, b: Book, st: Store, past: History, id: nat, r: Claimable, v: Address)
    requires ChainOk(c) && Balanced(b) && RewardsOk(c, st, past.high) && WeightsOk(c, b, st, past.high)
    requires PaidEagerly(c, b, past.paid, v)
    requires id in c.delegations && ClaimFacts(c, b, st, id, r)
    requires v == c.delegations[id].validator ==>
               forall p: nat | p <= r.last :: Slot(r.store.weights, v, p) == b.active(v, p)
    requires forall p: nat | r.first <= p <= r.last && b.active(c.delegations[id].validator, p) == 0 ::
               Weight(c.delegations[id]) == 0
    ensures PaidEagerly(c, b, Recorded(past, c.delegations[id], id, r).paid, v)
  {
    var paid' := Recorded(past, c.delegations[id], id, r).paid;
    RecordedEntries(past, c.delegations[id], id, r);
    forall i: nat, p: nat | (i, p) in paid' && i in c.delegations && c.delegations[i].validator == v
      ensures paid'[(i, p)] == EagerShare(c, b, i, p)
    {
      assert paid'[(i, p)] == At(paid', (i, p));
      if i == id && r.first <= p <= r.last {
        ShareAtMostEager(c, b, r.store.weights, r.store.rewards, id, p);
      } else {
        assert (i, p) in past.paid;
        assert paid'[(i, p)] == past.paid[(i, p)];
      }
    }
  }

  // ---------- one step ----------

  ghost predicate SlotsExact(s: State, v: Address) {
    PopulatedExact(BookOf(s.chain), s.store, s.past.high, v)
  }

  ghost predicate PaymentsExact(s: State, v: Address) {
    PaidEagerly(s.chain, BookOf(s.chain), s.past.paid, v)
  }

  /** If the action is a claim on v that goes through, it carries nothing over a second time. */
  ghost predicate CarriesNothing(s: State, a: Action, v: Address) {
    a.ClaimRewards? && Claim(s, a).1.Done? ==>
      var d := s.chain.delegations[At(s.store.delegationIDs, a.caller)];
      d.validator == v ==> NothingCarried(s.store, s.past.high, v, LastClaimable(s.chain, d))
  }

  /** A step that is no claim: the past of the chain and the populated slots stay. */
  lemma QuietBooks(s: State, b: Book, s': State, b': Book, v: Address)
    requires InvWith(s, b) && SamePast(s.chain, b, s'.chain, b') && s'.past == s.past
    requires forall p: nat | p <= At(s.past.high, v) :: Slot(s'.store.weights, v, p) == Slot(s.store.weights, v, p)
    ensures PopulatedExact(b', s'.store, s'.past.high, v) <==> PopulatedExact(b, s.store, s.past.high, v)
    ensures PaidEagerly(s.chain, b, s.past.paid, v) ==> PaidEagerly(s'.chain, b', s'.past.paid, v)
  {
    hide RewardsOk, PaidAtMostEager, ReceivedOk, Slot;
    assert At(s.past.high, v) <= Completed(s.chain, v);
    if PaidEagerly(s.chain, b, s.past.paid, v) {
      forall id: nat, p: nat | (id, p) in s.past.paid && id in s'.chain.delegations
          && s'.chain.delegations[id].validator == v
        ensures s.past.paid[(id, p)] == EagerShare(s'.chain, b', id, p)
      {
        assert PaidPeriod(s.chain, s.store.claims, id, p);
        assert p <= At(s.past.high, v);
      }
    }
  }

  /** What a step that is no claim leaves as it was. */
  ghost predicate Unmoved(s: State, s': State, v: Address) {
    && (SlotsExact(s', v) <==> SlotsExact(s, v))
    && (PaymentsExact(s, v) ==> PaymentsExact(s', v))
  }

  lemma AddUnmoved(s: State, a: Action, v: Address)
    requires Inv(s) && a.AddDelegator? && Add(s, a).1.Done?
    ensures Unmoved(s, Add(s, a).0, v)
  {
    hide WeightsOk, RewardsOk, ClaimsOk, PaidExactly, PaidAtMostEager, ReceivedOk, PopulatedExact, PaidEagerly,
         SamePast;
    var d := Delegation(a.validator, a.amount, a.multiplier, a.start, U32_MAX);
    var b, b' := BookOf(s.chain), BookOf(s.chain.(delegations := s.chain.delegations[a.id := d]));
    BookJoined(s.chain, a.id, d);
    HighIsCompleted(s.chain, b, s.store, s.past.high);
    DelegationKeepsPast(s.chain, b, a.id, d, b');
    QuietBooks(s, b, Add(s, a).0, b', v);
  }

  lemma DisableUnmoved(s: State, a: Action, v: Address)
    requires Inv(s) && a.DisableAutoRenew? && Disable(s, a).1.Done?
    ensures Unmoved(s, Disable(s, a).0, v)
  {
    hide WeightsOk, RewardsOk, ClaimsOk, PaidExactly, PaidAtMostEager, ReceivedOk, PopulatedExact, PaidEagerly,
         SamePast;
    var id := At(s.store.delegationIDs, a.caller);
    var d := s.chain.delegations[id];
    var d' := d.(end := Completed(s.chain, d.validator) + 1);
    var b, b' := BookOf(s.chain), BookOf(s.chain.(delegations := s.chain.delegations[id := d']));
    BookLeft(s.chain, id, d'.end);
    DelegationKeepsPast(s.chain, b, id, d', b');
    QuietBooks(s, b, Disable(s, a).0, b', v);
  }

  lemma CompleteUnmoved(s: State, u: Address, reward: nat, v: Address)
    requires Inv(s)
    ensures Unmoved(s, s.(chain := Complete(s.chain, u, reward)), v)
  {
    hide WeightsOk, RewardsOk, ClaimsOk, PaidExactly, PaidAtMostEager, ReceivedOk, PopulatedExact, PaidEagerly;
    var c' := Complete(s.chain, u, reward);
    SameDelegations(s.chain, c');
    CompleteKeepsPast(s.chain, u, reward);
    QuietBooks(s, BookOf(s.chain), s.(chain := c'), BookOf(c'), v);
  }

  lemma ClaimMoves(s: State, b: Book, id: nat, r: Claimable, v: Address)
    requires InvWith(s, b) && Balanced(b) && Counted(s.chain, b) && id in s.chain.delegations
    requires r == ClaimableRewards(s.chain, s.store, id) && r.Payable?
    ensures var past' := Recorded(s.past, s.chain.delegations[id], id, r);
            && (PopulatedExact(b, r.store, past'.high, v) <==>
                  && PopulatedExact(b, s.store, s.past.high, v)
                  && (v == s.chain.delegations[id].validator ==> NothingCarried(s.store, s.past.high, v, r.last)))
            && (PopulatedExact(b, r.store, past'.high, v) && PaidEagerly(s.chain, b, s.past.paid, v) ==>
                  PaidEagerly(s.chain, b, past'.paid, v))
  {
    hide WeightsOk, RewardsOk, PaidExactly, PaidAtMostEager, ReceivedOk, ChainOk, Balanced, Counted,
         ClaimableRewards, Recorded, SumShares, Slot, FirstClaimable, LastClaimable, NothingCarried, PaidEagerly;
    var d, past' := s.chain.delegations[id], Recorded(s.past, s.chain.delegations[id], id, r);
    ClaimRolls(s.chain, b, s.store, s.past.high, id);
    HighAfter(s.past, d, id, r);
    ClaimExactIff(s.chain, b, s.store, s.past.high, id, r, past'.high, v);
    NoWeightUncounted(s.chain, b, s.store, id, r);
    if PopulatedExact(b, r.store, past'.high, v) && PaidEagerly(s.chain, b, s.past.paid, v) {
      ClaimPaidEagerly(s.chain, b, s.store, s.past, id, r, v);
    }
  }

  lemma ClaimStepExactIff(s: State, a: Action, v: Address)
    requires Inv(s) && a.ClaimRewards? && Claim(s, a).1.Done?
    ensures SlotsExact(Claim(s, a).0, v) <==> SlotsExact(s, v) && CarriesNothing(s, a, v)
    ensures SlotsExact(Claim(s, a).0, v) && PaymentsExact(s, v) ==> PaymentsExact(Claim(s, a).0, v)
  {
    hide WeightsOk, RewardsOk, ClaimsOk, PaidExactly, PaidAtMostEager, ReceivedOk, ClaimableRewards, Recorded,
         Balanced, Counted, NothingCarried, PopulatedExact, PaidEagerly, LastClaimable;
    var id := At(s.store.delegationIDs, a.caller);
    var r := ClaimableRewards(s.chain, s.store, id);
    PayableIsDelegation(s.chain, s.store, id);
    PayableEnds(s.chain, s.store, id);
    BookBalanced(s.chain);
    ActiveWeightCounts(s.chain);
    ClaimMoves(s, BookOf(s.chain), id, r, v);
  }

  lemma PayableEnds(c: Chain, st: Store, id: nat)
    requires ClaimableRewards(c, st, id).Payable? && id in c.delegations
    ensures ClaimableRewards(c, st, id).last == LastClaimable(c, c.delegations[id])
  {
  }

  /** One step, in both directions: a validator is exact afterwards if and only if it was
      before and the step carries nothing over for it. */
  lemma StepExactIff(s: State, a: Action, v: Address)
    requires Inv(s)
    ensures SlotsExact(Step(s, a), v) <==> SlotsExact(s, v) && CarriesNothing(s, a, v)
    ensures SlotsExact(Step(s, a), v) && PaymentsExact(s, v) ==> PaymentsExact(Step(s, a), v)
  {
    hide Inv, SlotsExact, PaymentsExact, Complete;
    match a
    case AddDelegator(_, _, _, _, _, _) => if Add(s, a).1.Done? { AddUnmoved(s, a, v); }
    case DisableAutoRenew(_, _) => if Disable(s, a).1.Done? { DisableUnmoved(s, a, v); }
    case ClaimRewards(_, _) => if Claim(s, a).1.Done? { ClaimStepExactIff(s, a, v); }
    case CompletePeriod(u, reward) => CompleteUnmoved(s, u, reward, v);
  }

  // ---------- whole runs ----------

  /** Every claim on v that goes through in the run carries nothing over a second time. */
  ghost predicate CleanRun(actions: seq<Action>, v: Address) {
    forall k | 0 <= k < |actions| :: CarriesNothing(Run(INITIAL, actions[..k]), actions[k], v)
  }

  lemma CleanShorter(actions: seq<Action>, v: Address)
    requires actions != []
    ensures var before, a := actions[..|actions| - 1], actions[|actions| - 1];
            CleanRun(actions, v) <==> CleanRun(before, v) && CarriesNothing(Run(INITIAL, before), a, v)
  {
    hide CarriesNothing, Run;
    var before := actions[..|actions| - 1];
    assert forall k | 0 <= k < |before| :: before[..k] == actions[..k] && before[k] == actions[k];
    if CleanRun(actions, v) {
      forall k | 0 <= k < |before| ensures CarriesNothing(Run(INITIAL, before[..k]), before[k], v) {
        assert before[..k] == actions[..k];
      }
    }
    if CleanRun(before, v) && CarriesNothing(Run(INITIAL, before), actions[|actions| - 1], v) {
      forall k | 0 <= k < |actions| ensures CarriesNothing(Run(INITIAL, actions[..k]), actions[k], v) {
        if k < |before| { assert before[..k] == actions[..k]; }
      }
    }
  }

  lemma InitialExact(v: Address)
    ensures SlotsExact(INITIAL, v) && PaymentsExact(INITIAL, v)
  {
    BookAt(INITIAL.chain, v, 0);
  }

  lemma {:induction false} RunExactIff(actions: seq<Action>, v: Address)
    ensures SlotsExact(Run(INITIAL, actions), v) <==> CleanRun(actions, v)
    ensures CleanRun(actions, v) ==> PaymentsExact(Run(INITIAL, actions), v)
    decreases |actions|
  {
    hide Step, SlotsExact, PaymentsExact, Inv, CarriesNothing;
    if actions == [] {
      InitialExact(v);
    } else {
      var before := actions[..|actions| - 1];
      RunExactIff(before, v);
      RunInv(before);
      CleanShorter(actions, v);
      StepExactIff(Run(INITIAL, before), actions[|actions| - 1], v);
    }
  }

  /** The exact condition over whole runs: every slot of v populated so far holds the sum of the weights
      of the delegations active in it if and only if no claim on v carried weight over a second time. */
  lemma PopulatedWeightsAreTrueIff(actions: seq<Action>, v: Address)
    ensures var s := Run(INITIAL, actions);
            (forall p: nat | p <= At(s.past.high, v) :: Slot(s.store.weights, v, p) == TrueWeight(s.chain, v, p))
            <==> CleanRun(actions, v)
  {
    hide CleanRun, Run, TrueWeight, Slot;
    RunExactIff(actions, v);
    var s := Run(INITIAL, actions);
    forall p: nat ensures BookOf(s.chain).active(v, p) == TrueWeight(s.chain, v, p) { BookAt(s.chain, v, p); }
  }

  /** The claim, if it goes through, ends at or past the populated marker. */
  ghost predicate NoStepBack(s: State, a: Action) {
    a.ClaimRewards? && Claim(s, a).1.Done? ==>
      var d := s.chain.delegations[At(s.store.delegationIDs, a.caller)];
      LastClaimable(s.chain, d) >= At(s.store.populatedWeights, d.validator)
  }

  ghost predicate ForwardRun(actions: seq<Action>) {
    forall k | 0 <= k < |actions| :: NoStepBack(Run(INITIAL, actions[..k]), actions[k])
  }

  ghost predicate MarkersHigh(s: State) {
    forall v: Address :: At(s.store.populatedWeights, v) == At(s.past.high, v)
  }

  lemma StepKeepsMarkersHigh(s: State, a: Action)
    requires MarkersHigh(s) && NoStepBack(s, a)
    ensures MarkersHigh(Step(s, a))
  {
    hide LastClaimable, RollWeights, RollRewards, SumShares, Complete;
    if a.ClaimRewards? && Claim(s, a).1.Done? {
      var id := At(s.store.delegationIDs, a.caller);
      PayableIsDelegation(s.chain, s.store, id);
      PayableEnds(s.chain, s.store, id);
      HighAfter(s.past, s.chain.delegations[id], id, ClaimableRewards(s.chain, s.store, id));
    }
  }

  lemma {:induction false} ForwardKeepsMarkersHigh(actions: seq<Action>, k: nat)
    requires ForwardRun(actions) && k <= |actions|
    ensures MarkersHigh(Run(INITIAL, actions[..k]))
  {
    hide Step, NoStepBack;
    if k > 0 {
      ForwardKeepsMarkersHigh(actions, k - 1);
      FoldNext(Step, INITIAL, actions, k - 1);
      StepKeepsMarkersHigh(Run(INITIAL, actions[..k - 1]), actions[k - 1]);
    }
  }

  /** A run in which no claim steps the marker back rolls nothing twice, whatever the validator. */
  lemma ForwardRunIsClean(actions: seq<Action>, v: Address)
    requires ForwardRun(actions)
    ensures CleanRun(actions, v)
  {
    forall k | 0 <= k < |actions| ensures CarriesNothing(Run(INITIAL, actions[..k]), actions[k], v) {
      ForwardKeepsMarkersHigh(actions, k);
      assert NoStepBack(Run(INITIAL, actions[..k]), actions[k]);
      ForwardClaimIsClean(Run(INITIAL, actions[..k]), actions[k], v);
    }
  }

  lemma ForwardClaimIsClean(s: State, a: Action, v: Address)
    requires MarkersHigh(s) && NoStepBack(s, a)
    ensures CarriesNothing(s, a, v)
  {
    hide Claim, LastClaimable, Slot;
  }

  // ---------- lazy refines eager ----------

  /** What period p pays the delegation when the period is settled at once: its
      weight's share of the reward among all delegations active in p, rounded down. */
  ghost function Settlement(c: Chain, id: nat, p: nat): int
    requires id in c.delegations
  {
    var d := c.delegations[id];
    if p < d.start || TrueWeight(c, d.validator, p) <= 0 then 0
    else (PeriodReward(c, d.validator, p) * Weight(d)) / TrueWeight(c, d.validator, p)
  }

  /** Settling each period at once, up to period k. */
  ghost function Settled(c: Chain, id: nat, k: nat): int
    requires id in c.delegations
  {
    if k == 0 then 0 else Settled(c, id, k - 1) + Settlement(c, id, k)
  }

  lemma PaidOnePeriod(s: State, b: Book, id: nat, k: nat)
    requires InvWith(s, b) && id in s.chain.delegations
    requires PaidEagerly(s.chain, b, s.past.paid, s.chain.delegations[id].validator)
    requires 1 <= k <= At(s.store.claims, id)
    ensures At(s.past.paid, (id, k)) ==
              if k < s.chain.delegations[id].start then 0 else EagerShare(s.chain, b, id, k)
  {
    assert (id, k) in s.past.paid <==> PaidPeriod(s.chain, s.store.claims, id, k);
  }

  lemma {:induction false} PaidIsSettled(s: State, id: nat, k: nat)
    requires Inv(s) && id in s.chain.delegations && PaymentsExact(s, s.chain.delegations[id].validator)
    requires k <= At(s.store.claims, id)
    ensures PaidUpTo(s.past.paid, id, k) == Settled(s.chain, id, k)
  {
    hide InvWith, PaidEagerly;
    if k > 0 {
      PaidIsSettled(s, id, k - 1);
      PaidOnePeriod(s, BookOf(s.chain), id, k);
      BookAt(s.chain, s.chain.delegations[id].validator, k);
    }
  }

  /** Lazy refines eager: whoever populated the periods and however the claims
      were split, a delegation has received what settling every period at once
      over its active delegations would have given it. */
  lemma LazyRefinesEager(actions: seq<Action>, id: nat)
    requires id in Run(INITIAL, actions).chain.delegations
    requires CleanRun(actions, Run(INITIAL, actions).chain.delegations[id].validator)
    ensures var s := Run(INITIAL, actions);
            At(s.past.received, id) == Settled(s.chain, id, At(s.store.claims, id))
  {
    hide CleanRun, Run, PaymentsExact;
    var s := Run(INITIAL, actions);
    RunExactIff(actions, s.chain.delegations[id].validator);
    RunInv(actions);
    PaidIsSettled(s, id, At(s.store.claims, id));
  }

  // ---------- what rounding leaves behind ----------

  ghost function ActiveIds(c: Chain, v: Address, p: nat): set<nat> {
    set id | id in c.delegations && Active(c.delegations[id], v, p)
  }

  ghost predicate AllClaimed(s: State, v: Address, p: nat) {
    forall id | id in ActiveIds(s.chain, v, p) :: At(s.store.claims, id) >= p
  }

  lemma EagerShareAlmost(r: nat, w: nat, all: nat)
    requires all > 0
    ensures ((r * w) / all) * all + all > r * w
  {
    DivBounds(r * w, all);
  }

  lemma PaidAlmostShare(s: State, b: Book, v: Address, p: nat, id: nat)
    requires InvWith(s, b) && PaidEagerly(s.chain, b, s.past.paid, v) && b.active(v, p) > 0
    requires id in ActiveIds(s.chain, v, p) && At(s.store.claims, id) >= p
    ensures PaidFor(s, v, p)(id) * b.active(v, p) + b.active(v, p)
              > PeriodReward(s.chain, v, p) * ActiveWeight(s.chain.delegations, v, p)(id)
  {
    hide WeightsOk, RewardsOk, ClaimsOk, PaidAtMostEager, ReceivedOk, ChainOk, PeriodReward, Weight;
    assert PaidPeriod(s.chain, s.store.claims, id, p);
    EagerShareAlmost(PeriodReward(s.chain, v, p), Weight(s.chain.delegations[id]), b.active(v, p));
  }

  lemma RemainderState(s: State, v: Address, p: nat)
    requires Inv(s) && PaymentsExact(s, v) && AllClaimed(s, v, p) && TrueWeight(s.chain, v, p) > 0
    ensures 0 <= PeriodReward(s.chain, v, p) - TotalPaid(s, v, p) < |ActiveIds(s.chain, v, p)|
  {
    hide InvWith, PaidEagerly, TrueWeight, TotalPaid, PeriodReward, ActiveIds;
    SolventState(s, v, p);
    BookAt(s.chain, v, p);
    RemainderWith(s, BookOf(s.chain), v, p, ActiveIds(s.chain, v, p));
  }

  lemma RemainderWith(s: State, b: Book, v: Address, p: nat, some: set<nat>)
    requires InvWith(s, b) && PaidEagerly(s.chain, b, s.past.paid, v) && some == ActiveIds(s.chain, v, p)
    requires AllClaimed(s, v, p) && b.active(v, p) == TrueWeight(s.chain, v, p) > 0
    ensures PeriodReward(s.chain, v, p) - TotalPaid(s, v, p) < |some|
  {
    hide InvWith, TrueWeight, TotalPaid, PeriodReward, ActiveIds, PaidEagerly, PaidFor, ActiveWeight;
    var r, w := PeriodReward(s.chain, v, p), b.active(v, p);
    OnlyActiveMatter(s, b, v, p);
    forall id | id in some
      ensures PaidFor(s, v, p)(id) * w + w > r * ActiveWeight(s.chain.delegations, v, p)(id)
    {
      PaidAlmostShare(s, b, v, p, id);
    }
    SumOfRemainders(some, PaidFor(s, v, p), ActiveWeight(s.chain.delegations, v, p), r, w);
    RemainderArithmetic(TotalPaid(s, v, p), |some|, r, w);
  }

  lemma OnlyActiveMatter(s: State, b: Book, v: Address, p: nat)
    requires InvWith(s, b)
    ensures TotalPaid(s, v, p) == Sum(ActiveIds(s.chain, v, p), PaidFor(s, v, p))
    ensures TrueWeight(s.chain, v, p) == Sum(ActiveIds(s.chain, v, p), ActiveWeight(s.chain.delegations, v, p))
  {
    var ids, some := s.chain.delegations.Keys, ActiveIds(s.chain, v, p);
    SumSupport(ids, some, ActiveWeight(s.chain.delegations, v, p));
    forall id | id in ids - some ensures PaidFor(s, v, p)(id) == 0 {
      if (id, p) in s.past.paid { assert PaidPeriod(s.chain, s.store.claims, id, p); }
    }
    SumSupport(ids, some, PaidFor(s, v, p));
  }

  lemma RemainderArithmetic(paid: int, n: nat, r: nat, w: nat)
    requires w > 0 && paid * w + n * (w - 1) >= r * w && (n == 0 ==> w == 0)
    ensures r - paid < n
  {
    assert n * (w - 1) == n * w - n;
    assert (paid + n) * w == paid * w + n * w;
    CancelLt(w, r, paid + n);
  }

  /** Once everybody active has claimed a period, less than one unit per
      active delegator stays unpaid. */
  lemma UnpaidRemainder(actions: seq<Action>, v: Address, p: nat)
    requires CleanRun(actions, v)
    requires AllClaimed(Run(INITIAL, actions), v, p) && TrueWeight(Run(INITIAL, actions).chain, v, p) > 0
    ensures var s := Run(INITIAL, actions);
            0 <= PeriodReward(s.chain, v, p) - TotalPaid(s, v, p) < |ActiveIds(s.chain, v, p)|
  {
    hide CleanRun, Run, PaymentsExact, TrueWeight, TotalPaid, ActiveIds, AllClaimed;
    RunExactIff(actions, v);
    RunInv(actions);
    RemainderState(Run(INITIAL, actions), v, p);
  }
}
