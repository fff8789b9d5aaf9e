/** What happens when a delegation that has ended claims after a later period was
    populated: `populatedWeights` is set back (stargate.sol:162) and the next
    claim rolls periods forward a second time. */
module StargateStepBack {
  import opened Common
  import opened Runs
  import opened StargateEager
  import opened StargateExact
  import opened StargateInvariant
  import opened StargateModel
  import opened StargateTheorems
  import opened Sums

  // ---------- a run in which it happens ----------

  // Two delegations of equal weight on validator 7; the second leaves after period 1
  // and claims only after the first has claimed period 2.
  const STEP_BACK_RUN: seq<Action> := [
    AddDelegator(11, 7, 100, 100, 1, 1),
    AddDelegator(12, 7, 100, 100, 2, 1),
    DisableAutoRenew(12, true),
    CompletePeriod(7, 1000),
    CompletePeriod(7, 1000),
    ClaimRewards(11, true),
    ClaimRewards(12, true),
    CompletePeriod(7, 1000),
    ClaimRewards(11, true)]

  const FIRST := Delegation(7, 100, 100, 1, U32_MAX)
  const SECOND := Delegation(7, 100, 100, 1, 1)

  /** The state after two completed periods, before any claim. */
  const BEFORE_CLAIMS := State(
    Chain(map[1 := FIRST, 2 := SECOND], map[7 := [1000, 1000]]),
    Store(map[11 := 1, 12 := 2], map[(7, 1) := 200], map[], map[(7, 2) := 100], map[], map[]),
    History(map[], map[], map[]))

  const NO_HISTORY := History(map[], map[], map[])
  const ONE_JOINED := State(Chain(map[1 := FIRST], map[]),
                            Store(map[11 := 1], map[(7, 1) := 100], map[], map[], map[], map[]), NO_HISTORY)
  const BOTH_JOINED := State(Chain(map[1 := FIRST, 2 := FIRST], map[]),
                             Store(map[11 := 1, 12 := 2], map[(7, 1) := 200], map[], map[], map[], map[]), NO_HISTORY)
  const EXIT_SIGNALLED := BEFORE_CLAIMS.(chain := Chain(map[1 := FIRST, 2 := SECOND], map[]))

  lemma Joins()
    ensures Step(INITIAL, AddDelegator(11, 7, 100, 100, 1, 1)) == ONE_JOINED
    ensures Step(ONE_JOINED, AddDelegator(12, 7, 100, 100, 2, 1)) == BOTH_JOINED
  {
  }

  lemma Exits()
    ensures Step(BOTH_JOINED, DisableAutoRenew(12, true)) == EXIT_SIGNALLED
  {
    assert BOTH_JOINED.chain.delegations[2 := SECOND] == map[1 := FIRST, 2 := SECOND];
  }

  lemma TwoPeriods()
    ensures Step(Step(EXIT_SIGNALLED, CompletePeriod(7, 1000)), CompletePeriod(7, 1000)) == BEFORE_CLAIMS
  {
    assert [1000] + [1000] == [1000, 1000];
  }

  // The reward book after the first, the second and the third claim.
  const BOOK_ONE := Store(map[11 := 1, 12 := 2], map[(7, 1) := 200, (7, 2) := 100], map[7 := 2],
                          map[(7, 2) := 100], map[1 := 2], map[(7, 1) := 1000, (7, 2) := 1000])
  const BOOK_TWO := Store(map[11 := 1, 12 := 2], map[(7, 1) := 200, (7, 2) := 100], map[7 := 1],
                          map[(7, 2) := 100], map[1 := 2, 2 := 1], map[(7, 1) := 1000, (7, 2) := 1000])
  const BOOK_THREE := Store(map[11 := 1, 12 := 2], map[(7, 1) := 200, (7, 2) := 200, (7, 3) := 200], map[7 := 3],
                            map[(7, 2) := 100], map[1 := 3, 2 := 1],
                                map[(7, 1) := 1000, (7, 2) := 1000, (7, 3) := 1000])
  const LATE_CHAIN := Chain(map[1 := FIRST, 2 := SECOND], map[7 := [1000, 1000, 1000]])

  ghost predicate AfterOne(s: State) {
    s.chain == BEFORE_CLAIMS.chain && s.store == BOOK_ONE && s.past.received == map[1 := 1500]
  }

  ghost predicate AfterTwo(s: State) {
    s.store == BOOK_TWO && s.past.received == map[1 := 1500, 2 := 500]
  }

  ghost predicate AfterThree(s: State) {
    s.chain == LATE_CHAIN && s.store == BOOK_THREE && s.past.received == map[1 := 2000, 2 := 500]
  }

  lemma ClaimPays(s: State, caller: Address, id: nat, r: Claimable)
    requires id == At(s.store.delegationIDs, caller) != 0 && id in s.chain.delegations
    requires r == ClaimableRewards(s.chain, s.store, id) && r.Payable? && r.total > 0
    ensures var s' := Step(s, ClaimRewards(caller, true));
            && s'.chain == s.chain && s'.store == r.store
            && s'.past.received == s.past.received[id := At(s.past.received, id) + r.total]
  {
  }

  /** A claim that goes through, from its parts. */
  lemma ClaimIs(c: Chain, st: Store, id: nat, d: Delegation, first: nat, last: nat, weights: Slots, rewards: Slots,
                total: nat, st': Store)
    requires id in c.delegations && d == c.delegations[id] && d.stake > 0 && d.validator > 0
              && d.stake * d.multiplier <= U256_MAX
    requires At(st.claims, id) < U32_MAX && At(st.populatedWeights, d.validator) < U32_MAX
    requires first == FirstClaimable(st, d, id) && last == LastClaimable(c, d) && 0 < first <= last < U32_MAX
    requires RollWeights(st.weights, st.reductions, d.validator, At(st.populatedWeights, d.validator) + 1, last) ==
              Rolled(weights)
    requires RollRewards(c, weights, st.rewards, d.validator, At(st.populatedWeights, d.validator) + 1, last) == rewards
    requires SumShares(weights, rewards, d.validator, Weight(d), first, last) == Total(total)
    requires st' == Store(st.delegationIDs, weights, st.populatedWeights[d.validator := last], st.reductions,
                          st.claims[id := last], rewards)
    ensures ClaimableRewards(c, st, id) == Payable(total, first, last, st')
  {
  }

  lemma FirstClaim(s: State)
    requires s == BEFORE_CLAIMS
    ensures AfterOne(Step(s, ClaimRewards(11, true)))
  {
    hide Step, ClaimableRewards, Share;
    FirstClaimableIs();
    ClaimPays(s, 11, 1, Payable(1500, 1, 2, BOOK_ONE));
  }

  lemma FirstClaimableIs()
    ensures ClaimableRewards(BEFORE_CLAIMS.chain, BEFORE_CLAIMS.store, 1) == Payable(1500, 1, 2, BOOK_ONE)
  {
    var c, st := BEFORE_CLAIMS.chain, BEFORE_CLAIMS.store;
    var w0, w, r := st.weights, BOOK_ONE.weights, BOOK_ONE.rewards;
    assert RollWeights(w0, st.reductions, 7, 1, 0) == Rolled(w0);
    assert RollWeights(w0, st.reductions, 7, 1, 1) == Rolled(w0);
    assert RollWeights(w0, st.reductions, 7, 1, 2) == Rolled(w);
    assert RollRewards(c, w, map[], 7, 1, 0) == map[];
    assert RollRewards(c, w, map[], 7, 1, 1) == map[(7, 1) := 1000];
    assert RollRewards(c, w, map[], 7, 1, 2) == r;
    assert SumShares(w, r, 7, 100, 1, 0) == Total(0);
    assert SumShares(w, r, 7, 100, 1, 1) == Total(500);
    assert SumShares(w, r, 7, 100, 1, 2) == Total(1500);
  }

  /** The delegation that has ended claims period 1 and sets the marker back from 2 to 1. */
  lemma SecondClaim(s: State)
    requires AfterOne(s)
    ensures AfterTwo(Step(s, ClaimRewards(12, true))) && Step(s, ClaimRewards(12, true)).chain == s.chain
  {
    hide Step, ClaimableRewards, Share;
    SecondClaimable();
    ClaimPays(s, 12, 2, Payable(500, 1, 1, BOOK_TWO));
  }

  lemma SecondClaimable()
    ensures ClaimableRewards(BEFORE_CLAIMS.chain, BOOK_ONE, 2) == Payable(500, 1, 1, BOOK_TWO)
  {
    hide PeriodReward;
    var w, r := BOOK_ONE.weights, BOOK_ONE.rewards;
    assert RollWeights(w, BOOK_ONE.reductions, 7, 3, 1) == Rolled(w);
    assert RollRewards(BEFORE_CLAIMS.chain, w, r, 7, 3, 1) == r;
    assert SumShares(w, r, 7, 100, 1, 0) == Total(0);
    assert SumShares(w, r, 7, 100, 1, 1) == Total(500);
    assert BOOK_ONE.claims[2 := 1] == BOOK_TWO.claims;
    assert BOOK_ONE.populatedWeights[7 := 1] == BOOK_TWO.populatedWeights;
  }

  /** The next claim rolls period 2 again and doubles what it holds. */
  lemma ThirdClaim(s: State)
    requires AfterTwo(s) && s.chain == LATE_CHAIN
    ensures AfterThree(Step(s, ClaimRewards(11, true)))
  {
    hide Step, ClaimableRewards, Share;
    ThirdClaimable();
    ThirdReceived();
    ClaimPays(s, 11, 1, Payable(500, 3, 3, BOOK_THREE));
  }

  lemma ThirdReceived()
    ensures At(BOOK_TWO.delegationIDs, 11) == 1 && 1 in LATE_CHAIN.delegations
    ensures At(map[1 := 1500, 2 := 500], 1) == 1500
    ensures map[1 := 1500, 2 := 500][1 := 2000] == map[1 := 2000, 2 := 500]
  {
  }

  lemma ThirdClaimable()
    ensures ClaimableRewards(LATE_CHAIN, BOOK_TWO, 1) == Payable(500, 3, 3, BOOK_THREE)
  {
    hide ClaimableRewards, RollWeights, RollRewards, SumShares, At, Completed, LastClaimable, FirstClaimable;
    ThirdWeights();
    ThirdRewards();
    ThirdMarks();
    ThirdPeriods();
    ClaimIs(LATE_CHAIN, BOOK_TWO, 1, FIRST, 3, 3, BOOK_THREE.weights, BOOK_THREE.rewards, 500, BOOK_THREE);
  }

  lemma ThirdMarks()
    ensures BOOK_TWO.claims[1 := 3] == BOOK_THREE.claims
    ensures BOOK_TWO.populatedWeights[7 := 3] == BOOK_THREE.populatedWeights
  {
  }

  lemma ThirdPeriods()
    ensures At(BOOK_TWO.claims, 1) == 2 && At(BOOK_TWO.populatedWeights, 7) == 1
    ensures FirstClaimable(BOOK_TWO, FIRST, 1) == 3 && LastClaimable(LATE_CHAIN, FIRST) == 3
  {
  }

  lemma ThirdWeights()
    ensures RollWeights(BOOK_TWO.weights, BOOK_TWO.reductions, 7, 2, 3) == Rolled(BOOK_THREE.weights)
  {
    var w0 := BOOK_TWO.weights;
    assert RollWeights(w0, BOOK_TWO.reductions, 7, 2, 1) == Rolled(w0);
    assert RollWeights(w0, BOOK_TWO.reductions, 7, 2, 2) == Rolled(w0[(7, 2) := 200]);
  }

  lemma ThirdRewards()
    ensures RollRewards(LATE_CHAIN, BOOK_THREE.weights, BOOK_TWO.rewards, 7, 2, 3) == BOOK_THREE.rewards
    ensures SumShares(BOOK_THREE.weights, BOOK_THREE.rewards, 7, 100, 3, 3) == Total(500)
  {
    var w, r := BOOK_THREE.weights, BOOK_THREE.rewards;
    assert RollRewards(LATE_CHAIN, w, BOOK_TWO.rewards, 7, 2, 1) == BOOK_TWO.rewards;
    assert RollRewards(LATE_CHAIN, w, BOOK_TWO.rewards, 7, 2, 2) == BOOK_TWO.rewards;
    assert SumShares(w, r, 7, 100, 3, 2) == Total(0);
  }

  lemma ThirdPeriod(s: State)
    requires AfterTwo(s) && s.chain == BEFORE_CLAIMS.chain
    ensures AfterTwo(Step(s, CompletePeriod(7, 1000))) && Step(s, CompletePeriod(7, 1000)).chain == LATE_CHAIN
  {
    assert [1000, 1000] + [1000] == [1000, 1000, 1000];
  }

  lemma FirstSteps(s1: State, s2: State, s3: State, s4: State, s5: State)
    requires s1 == Step(INITIAL, AddDelegator(11, 7, 100, 100, 1, 1))
    requires s2 == Step(s1, AddDelegator(12, 7, 100, 100, 2, 1))
    requires s3 == Step(s2, DisableAutoRenew(12, true))
    requires s4 == Step(s3, CompletePeriod(7, 1000)) && s5 == Step(s4, CompletePeriod(7, 1000))
    ensures s5 == BEFORE_CLAIMS
  {
    Joins();
    Exits();
    TwoPeriods();
  }

  lemma FirstHalf(t: seq<State>)
    requires |t| == 10 && t[0] == INITIAL
    requires forall i | 0 <= i < 5 :: t[i + 1] == Step(t[i], STEP_BACK_RUN[i])
    ensures t[5] == BEFORE_CLAIMS
  {
    hide Step;
    assert t[0 + 1] == Step(t[0], STEP_BACK_RUN[0]);
    assert t[1 + 1] == Step(t[1], STEP_BACK_RUN[1]);
    assert t[2 + 1] == Step(t[2], STEP_BACK_RUN[2]);
    assert t[3 + 1] == Step(t[3], STEP_BACK_RUN[3]);
    assert t[4 + 1] == Step(t[4], STEP_BACK_RUN[4]);
    FirstSteps(t[1], t[2], t[3], t[4], t[5]);
  }

  lemma StepBackRunEnds()
    ensures AfterThree(Run(INITIAL, STEP_BACK_RUN))
  {
    var t := Trace(Step, INITIAL, STEP_BACK_RUN, 9);
    FirstHalf(t);
    FirstClaim(t[5]);
    assert t[5 + 1] == Step(t[5], STEP_BACK_RUN[5]);
    SecondClaim(t[6]);
    assert t[6 + 1] == Step(t[6], STEP_BACK_RUN[6]);
    ThirdPeriod(t[7]);
    assert t[7 + 1] == Step(t[7], STEP_BACK_RUN[7]);
    ThirdClaim(t[8]);
  }

  lemma OnlyFirstActive(c: Chain)
    requires c.delegations == map[1 := FIRST, 2 := SECOND]
    ensures TrueWeight(c, 7, 3) == 100
  {
    var f := ActiveWeight(c.delegations, 7, 3);
    var first: set<nat> := {1};
    SumSupport(c.delegations.Keys, first, f);
    SumRemove(first, 1, f);
    assert first - {1} == {};
  }

  lemma PopulatedIsHigh(s: State, v: Address)
    requires Inv(s)
    ensures At(s.store.populatedWeights, v) <= At(s.past.high, v)
  {
  }

  /** At the end of this run period 3 holds twice the active weight, and the one active
      delegation is paid half its reward. */
  lemma StepBackUnderpays()
    ensures var s := Run(INITIAL, STEP_BACK_RUN);
            && Slot(s.store.weights, 7, 3) == 200 && TrueWeight(s.chain, 7, 3) == 100
            && PeriodReward(s.chain, 7, 3) == 1000
            && At(s.past.received, 1) == 500 + 1000 + 500
            && At(s.store.populatedWeights, 7) == 3
  {
    hide Run;
    StepBackRunEnds();
    OnlyFirstActive(Run(INITIAL, STEP_BACK_RUN).chain);
  }

  /** So the run is neither clean nor forward. */
  lemma StepBackCarries()
    ensures !CleanRun(STEP_BACK_RUN, 7) && !ForwardRun(STEP_BACK_RUN)
  {
    hide Run, CleanRun, ForwardRun, TrueWeight, Slot, Inv, At;
    StepBackUnderpays();
    RunInv(STEP_BACK_RUN);
    PopulatedIsHigh(Run(INITIAL, STEP_BACK_RUN), 7);
    PopulatedWeightsAreTrueIff(STEP_BACK_RUN, 7);
    if ForwardRun(STEP_BACK_RUN) { ForwardRunIsClean(STEP_BACK_RUN, 7); }
  }
}
