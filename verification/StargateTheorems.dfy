/** The results about whole runs of the reward contract, for every sequence of
    transactions and every answer of the native staker within its rules. */
module StargateTheorems {
  import opened Arith
  import opened Common
  import opened StargateEager
  import opened StargateInvariant
  import opened StargateModel
  import opened Sums

  // ---------- every run keeps the invariant ----------

  lemma InitialInv()
    ensures Inv(INITIAL)
  {
    forall v: Address, p: nat
      ensures var b := BookOf(INITIAL.chain); b.active(v, p) == 0 && b.joining(v, p) == 0 && b.leaving(v, p) == 0
    {
      BookAt(INITIAL.chain, v, p);
    }
    InitialInvWith(BookOf(INITIAL.chain));
  }

  lemma InitialInvWith(b: Book)
    requires forall v: Address, p: nat :: b.active(v, p) == 0 && b.joining(v, p) == 0 && b.leaving(v, p) == 0
    ensures InvWith(INITIAL, b)
  {
  }

  lemma ActiveWeightCounts(c: Chain)
    ensures Counted(c, BookOf(c))
  {
    forall id: nat, p: nat | id in c.delegations && Active(c.delegations[id], c.delegations[id].validator, p)
      ensures Weight(c.delegations[id]) <= TrueWeight(c, c.delegations[id].validator, p)
    {
      var f := ActiveWeight(c.delegations, c.delegations[id].validator, p);
      SumNonNegative(c.delegations.Keys, f);
      assert f(id) == Weight(c.delegations[id]);
    }
  }

  lemma AddStepInv(s: State, a: Action)
    requires Inv(s) && a.AddDelegator? && Add(s, a).1.Done?
    ensures Inv(Add(s, a).0)
  {
    hide InvWith, Joined, Left;
    var d := Delegation(a.validator, a.amount, a.multiplier, a.start, U32_MAX);
    BookJoined(s.chain, a.id, d);
    StepAddInv(s, BookOf(s.chain), a, BookOf(s.chain.(delegations := s.chain.delegations[a.id := d])));
  }

  lemma DisableStepInv(s: State, a: Action)
    requires Inv(s) && a.DisableAutoRenew? && Disable(s, a).1.Done?
    ensures Inv(Disable(s, a).0)
  {
    hide InvWith, Joined, Left;
    var id := At(s.store.delegationIDs, a.caller);
    var d := s.chain.delegations[id];
    var last := Completed(s.chain, d.validator) + 1;
    BookLeft(s.chain, id, last);
    StepDisableInv(s, BookOf(s.chain), a, BookOf(s.chain.(delegations := s.chain.delegations[id := d.(end := last)])));
  }

  lemma ClaimStepInv(s: State, a: Action)
    requires Inv(s) && a.ClaimRewards? && Claim(s, a).1.Done?
    ensures Inv(Claim(s, a).0)
  {
    hide WeightsOk, RewardsOk, ClaimsOk, PaidExactly, PaidAtMostEager, ReceivedOk, ClaimableRewards, Recorded,
         Balanced, Counted;
    BookBalanced(s.chain);
    ActiveWeightCounts(s.chain);
    StepClaimInv(s, BookOf(s.chain), a);
  }

  lemma CompleteStepInv(s: State, v: Address, reward: nat)
    requires Inv(s)
    ensures Inv(s.(chain := Complete(s.chain, v, reward)))
  {
    hide InvWith, SameSums;
    SameDelegations(s.chain, Complete(s.chain, v, reward));
    CompleteBothBooks(s, BookOf(s.chain), v, reward, BookOf(Complete(s.chain, v, reward)));
  }

  lemma StepInv(s: State, a: Action)
    requires Inv(s)
    ensures Inv(Step(s, a))
  {
    hide Inv, Complete;
    match a
    case AddDelegator(_, _, _, _, _, _) => if Add(s, a).1.Done? { AddStepInv(s, a); }
    case DisableAutoRenew(_, _) => if Disable(s, a).1.Done? { DisableStepInv(s, a); }
    case ClaimRewards(_, _) => if Claim(s, a).1.Done? { ClaimStepInv(s, a); }
    case CompletePeriod(v, reward) => CompleteStepInv(s, v, reward);
  }

  lemma CompleteBothBooks(s: State, b: Book, v: Address, reward: nat, b': Book)
    requires InvWith(s, b) && SameSums(b, b')
    ensures InvWith(s.(chain := Complete(s.chain, v, reward)), b')
  {
    hide InvWith, SameSums, Complete;
    StepCompleteInv(s, b, v, reward);
    SameBook(s.(chain := Complete(s.chain, v, reward)), b, b');
  }

  ghost predicate SameSums(b: Book, b': Book) {
    forall v: Address, p: nat ::
      b'.active(v, p) == b.active(v, p) && b'.joining(v, p) == b.joining(v, p) && b'.leaving(v, p) == b.leaving(v, p)
  }

  lemma SameDelegations(c: Chain, c': Chain)
    requires c'.delegations == c.delegations
    ensures SameSums(BookOf(c), BookOf(c'))
  {
    forall v: Address, p: nat
      ensures var b, b' := BookOf(c), BookOf(c');
              b'.active(v, p) == b.active(v, p) && b'.joining(v, p) == b.joining(v, p)
                  && b'.leaving(v, p) == b.leaving(v, p)
    {
      BookAt(c, v, p);
      BookAt(c', v, p);
    }
  }

  lemma SameBook(s: State, b: Book, b': Book)
    requires InvWith(s, b) && SameSums(b, b')
    ensures InvWith(s, b')
  {
  }

  lemma {:induction false} RunInv(actions: seq<Action>)
    ensures Inv(Run(INITIAL, actions))
    decreases |actions|
  {
    if actions == [] {
      InitialInv();
    } else {
      RunInv(actions[..|actions| - 1]);
      StepInv(Run(INITIAL, actions[..|actions| - 1]), actions[|actions| - 1]);
    }
  }

  // ---------- solvency ----------

  /** What has been paid out of period p of v, over all its delegations. */
  ghost function PaidFor(s: State, v: Address, p: nat): nat -> int {
    (id: nat) => if id in s.chain.delegations && s.chain.delegations[id].validator == v then At(s.past.paid, (id, p))
        else 0
  }

  ghost function TotalPaid(s: State, v: Address, p: nat): int {
    Sum(s.chain.delegations.Keys, PaidFor(s, v, p))
  }

  lemma PaidWithinShare(s: State, b: Book, v: Address, p: nat, id: nat)
    requires InvWith(s, b) && id in s.chain.delegations
    ensures b.active(v, p) > 0 ==>
              PaidFor(s, v, p)(id) * b.active(v, p)
                <= PeriodReward(s.chain, v, p) * ActiveWeight(s.chain.delegations, v, p)(id)
    ensures b.active(v, p) <= 0 ==> PaidFor(s, v, p)(id) == 0
  {
    hide WeightsOk, RewardsOk, ReceivedOk, PeriodReward, Weight, Completed;
    var d := s.chain.delegations[id];
    if d.validator == v && (id, p) in s.past.paid {
      assert PaidPeriod(s.chain, s.store.claims, id, p);
      assert Active(d, v, p);
      EagerShareTimes(PeriodReward(s.chain, v, p), Weight(d), b.active(v, p), s.past.paid[(id, p)]);
    }
  }

  lemma EagerShareTimes(r: nat, w: nat, all: int, paid: nat)
    requires paid <= if all <= 0 then 0 else (r * w) / all
    ensures all > 0 ==> paid * all <= r * w
  {
    if all > 0 {
      DivBounds(r * w, all);
      MulMono(all, paid, (r * w) / all);
    }
  }

  lemma SolventState(s: State, v: Address, p: nat)
    requires Inv(s)
    ensures TotalPaid(s, v, p) <= PeriodReward(s.chain, v, p)
  {
    var ids := s.chain.delegations.Keys;
    var r, w := PeriodReward(s.chain, v, p), TrueWeight(s.chain, v, p);
    SumNonNegative(ids, ActiveWeight(s.chain.delegations, v, p));
    forall id | id in ids
      ensures w > 0 ==> PaidFor(s, v, p)(id) * w <= r * ActiveWeight(s.chain.delegations, v, p)(id)
      ensures w <= 0 ==> PaidFor(s, v, p)(id) == 0
    {
      PaidWithinShare(s, BookOf(s.chain), v, p, id);
    }
    if w > 0 {
      SumOfShares(ids, PaidFor(s, v, p), ActiveWeight(s.chain.delegations, v, p), r, w);
      CancelLe(w, TotalPaid(s, v, p), r);
    } else {
      SumSupport(ids, {}, PaidFor(s, v, p));
    }
  }

  /** Whatever the order of joins, exits and claims, and even when the populated
      marker moves backwards, the payouts of a period never exceed its reward. */
  lemma Solvency(actions: seq<Action>, v: Address, p: nat)
    ensures var s := Run(INITIAL, actions);
            TotalPaid(s, v, p) <= PeriodReward(s.chain, v, p)
  {
    RunInv(actions);
    SolventState(Run(INITIAL, actions), v, p);
  }

  /** In no run does a claim revert because a reduction exceeds the weight. */
  lemma SubtractionNeverReverts(actions: seq<Action>, id: nat)
    ensures var s := Run(INITIAL, actions);
            ClaimableRewards(s.chain, s.store, id) != Fails(ArithmeticUnderflow)
  {
    RunInv(actions);
    var s := Run(INITIAL, actions);
    BookBalanced(s.chain);
    ClaimNeverUnderflows(s.chain, BookOf(s.chain), s.store, s.past.high, id);
  }

  /** The periods paid to a delegation are exactly start..claims[id], none beyond its end or the
      validator's completed periods, and what was transferred is the sum of those payments. */
  lemma GaplessPayments(actions: seq<Action>, id: nat)
    ensures var s := Run(INITIAL, actions);
            var last := At(s.store.claims, id);
            && (forall p: nat :: (id, p) in s.past.paid <==>
                  id in s.chain.delegations && s.chain.delegations[id].start <= p <= last)
            && (last != 0 ==>
                  && id in s.chain.delegations
                  && s.chain.delegations[id].start <= last <= s.chain.delegations[id].end
                  && last <= Completed(s.chain, s.chain.delegations[id].validator))
            && At(s.past.received, id) == PaidUpTo(s.past.paid, id, last)
  {
    RunInv(actions);
    var s := Run(INITIAL, actions);
    forall p: nat ensures (id, p) in s.past.paid <==> PaidPeriod(s.chain, s.store.claims, id, p) {}
  }

  /** A transaction that reverts changes nothing; one that pays moves every book
      by the amount paid and touches no other delegation. */
  lemma RevertsChangeNothing(s: State, a: Action)
    ensures a.AddDelegator? && Add(s, a).1.Reverted? ==> Step(s, a) == s
    ensures a.DisableAutoRenew? && Disable(s, a).1.Reverted? ==> Step(s, a) == s
    ensures a.ClaimRewards? && Claim(s, a).1.Reverted? ==> Step(s, a) == s
    ensures a.ClaimRewards? && Claim(s, a).1.Done? ==>
              var id := At(s.store.delegationIDs, a.caller);
              && At(Step(s, a).past.received, id) == At(s.past.received, id) + Claim(s, a).1.amount
              && Claim(s, a).1.amount > 0
              && forall i: nat | i != id ::
                   && At(Step(s, a).past.received, i) == At(s.past.received, i)
                   && At(Step(s, a).store.claims, i) == At(s.store.claims, i)
  {
  }
}
