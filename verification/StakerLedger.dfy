/** The VET ledger of cmd/txsimulation/contract/compiled/Staker.sol with receivers
    that call back into it: a call is a tree, since paying out hands control to
    the receiver before the paying call has finished. */
module StakerLedger {
  import opened Common

  const VET: nat := 1_000_000_000_000_000_000
  const MAX_SUPPLY: nat := 100_000_000_000 * VET

  /** `native` is the stake the native ledger holds; `forced` is VET that reached
      the address without a call (a block reward or a self-destructing contract). */
  datatype Ledger = Ledger(balance: nat, effectiveVET: nat, native: nat, forced: nat)

  const EMPTY := Ledger(0, 0, 0, 0)

  // Chain parameters a call reads: the pause switches and the delegator contract.
  datatype Params = Params(switches: nat, delegatorContract: Address)

  predicate DelegatorPaused(p: Params) { p.switches % 2 == 1 }
  predicate StakerPaused(p: Params) { (p.switches / 2) % 2 == 1 }

  datatype Call =
    // addValidation, increaseStake: value travels with the call
    | Stake(value: nat, nativeOk: bool, params: Params)
    // addDelegation
    | Delegate(sender: Address, value: nat, nativeOk: bool, params: Params)
    // withdrawStake: the native ledger answers with `stake` (None: it reverts), then the
    // receiver makes the calls in `inner` and accepts or rejects the payment
    | WithdrawStake(stake: Option<nat>, inner: seq<Call>, accepts: bool, params: Params)
    // withdrawDelegation
    | WithdrawDelegation(sender: Address, stake: Option<nat>, inner: seq<Call>, accepts: bool, params: Params)
    // setBeneficiary, decreaseStake, signalExit, signalDelegationExit: no VET moves
    | Manage(nativeOk: bool, params: Params)
    // VET sent to the contract by a plain transfer or an unknown call
    | Transfer(value: nat)
    // VET forced into the balance
    | Force(value: nat)

  predicate StakeAllowed(amount: nat) {
    amount > 0 && amount % VET == 0 && amount <= MAX_SUPPLY
  }

  /** The native ledger pays back whole VET that it holds; any other answer is a revert. */
  predicate NativePays(s: Ledger, stake: Option<nat>) {
    stake.Some? && stake.value <= s.native && stake.value % VET == 0
  }

  predicate MayWithdraw(s: Ledger, c: Call) {
    match c
    case WithdrawStake(stake, _, _, p) => !StakerPaused(p) && NativePays(s, stake)
    case WithdrawDelegation(sender, stake, _, _, p) =>
      sender == p.delegatorContract && !StakerPaused(p) && !DelegatorPaused(p) && NativePays(s, stake)
    case _ => false
  }

  predicate MayStake(s: Ledger, c: Call) {
    match c
    case Stake(value, nativeOk, p) => StakeAllowed(value) && !StakerPaused(p) && nativeOk
    case Delegate(sender, value, nativeOk, p) =>
      sender == p.delegatorContract && StakeAllowed(value) && !StakerPaused(p) && !DelegatorPaused(p) && nativeOk
    case _ => false
  }

  function Deposited(s: Ledger, value: nat): Ledger {
    s.(balance := s.balance + value, effectiveVET := s.effectiveVET + value, native := s.native + value)
  }

  /** The state in which the receiver of a withdrawal gets control. */
  function PaidOut(s: Ledger, stake: nat): Ledger
    requires stake <= s.effectiveVET && stake <= s.balance && stake <= s.native
  {
    s.(balance := s.balance - stake, effectiveVET := s.effectiveVET - stake, native := s.native - stake)
  }

  datatype Why = NotAllowed | Arithmetic | NoFunds | Rejected

  /** `seen` lists the states in which code outside the contract had control. */
  datatype Result = Reverted(why: Why, seen: seq<Ledger>) | Done(after: Ledger, seen: seq<Ledger>)

  function After(s: Ledger, r: Result): Ledger { if r.Done? then r.after else s }

  /** One call. A revert restores the state before it, the effects of nested calls included. */
  function Exec(s: Ledger, c: Call): Result
    decreases c, 1
  {
    match c
    case Stake(_, _, _) => ExecStake(s, c)
    case Delegate(_, _, _, _) => ExecStake(s, c)
    case WithdrawStake(_, _, _, _) => ExecWithdraw(s, c)
    case WithdrawDelegation(_, _, _, _, _) => ExecWithdraw(s, c)
    case Manage(nativeOk, p) => if nativeOk && !StakerPaused(p) then Done(s, []) else Reverted(NotAllowed, [])
    case Transfer(_) => Reverted(NotAllowed, [])
    case Force(value) => Done(s.(balance := s.balance + value, forced := s.forced + value), [])
  }

  function ExecStake(s: Ledger, c: Call): Result
    requires c.Stake? || c.Delegate?
  {
    if !MayStake(s, c) then Reverted(NotAllowed, [])
    else if s.effectiveVET + c.value > U256_MAX then Reverted(Arithmetic, [])
    else Done(Deposited(s, c.value), [])
  }

  function ExecWithdraw(s: Ledger, c: Call): Result
    requires c.WithdrawStake? || c.WithdrawDelegation?
    decreases c, 0
  {
    if !MayWithdraw(s, c) then Reverted(NotAllowed, [])
    else if c.stake.value > s.effectiveVET then Reverted(Arithmetic, [])
    else if c.stake.value > s.balance then Reverted(NoFunds, [])
    else
      var paid := PaidOut(s, c.stake.value);
      var run := ExecAll(paid, c.inner);
      if c.accepts then Done(run.0, [paid] + run.1) else Reverted(Rejected, [paid] + run.1)
  }

  /** Calls one after the other, whatever becomes of each; outside code has control in between. */
  function ExecAll(s: Ledger, calls: seq<Call>): (Ledger, seq<Ledger>)
    decreases calls
  {
    if calls == [] then (s, []) else
    var r := Exec(s, calls[0]);
    var next := After(s, r);
    var rest := ExecAll(next, calls[1..]);
    (rest.0, r.seen + [next] + rest.1)
  }

  // ---------- the ledger balances ----------

  ghost predicate Balanced(s: Ledger) {
    && s.balance == s.effectiveVET + s.forced
    && s.effectiveVET == s.native
    && s.effectiveVET % VET == 0
  }

  ghost predicate AllBalanced(seen: seq<Ledger>) {
    forall i | 0 <= i < |seen| :: Balanced(seen[i])
  }

  lemma WholeVet(a: nat, b: nat)
    requires a % VET == 0 && b % VET == 0
    ensures (a + b) % VET == 0 && (b <= a ==> (a - b) % VET == 0)
  {
    var x, y := a / VET, b / VET;
    assert a + b == (x + y) * VET;
    assert a - b == (x - y) * VET;
  }

  /** A call keeps the ledger balanced, at its end and in every state in which
      code outside the contract gets control on the way, however deep it re-enters. */
  lemma {:induction false} ExecBalanced(s: Ledger, c: Call)
    requires Balanced(s)
    ensures Balanced(After(s, Exec(s, c))) && AllBalanced(Exec(s, c).seen)
    decreases c, 1
  {
    match c
    case Stake(value, _, _) => if MayStake(s, c) { WholeVet(s.effectiveVET, value); }
    case Delegate(_, value, _, _) => if MayStake(s, c) { WholeVet(s.effectiveVET, value); }
    case WithdrawStake(_, _, _, _) => WithdrawBalanced(s, c);
    case WithdrawDelegation(_, _, _, _, _) => WithdrawBalanced(s, c);
    case _ =>
  }

  lemma {:induction false} WithdrawBalanced(s: Ledger, c: Call)
    requires c.WithdrawStake? || c.WithdrawDelegation?
    requires Balanced(s)
    ensures Balanced(After(s, ExecWithdraw(s, c))) && AllBalanced(ExecWithdraw(s, c).seen)
    decreases c, 0
  {
    if MayWithdraw(s, c) {
      WholeVet(s.effectiveVET, c.stake.value);
      var paid := PaidOut(s, c.stake.value);
      ExecAllBalanced(paid, c.inner);
    }
  }

  lemma {:induction false} ExecAllBalanced(s: Ledger, calls: seq<Call>)
    requires Balanced(s)
    ensures Balanced(ExecAll(s, calls).0) && AllBalanced(ExecAll(s, calls).1)
    decreases calls
  {
    if calls != [] {
      ExecBalanced(s, calls[0]);
      ExecAllBalanced(After(s, Exec(s, calls[0])), calls[1..]);
    }
  }

  /** In every run from an empty contract: the balance is the effective VET plus what
      was forced in, and the effective VET is the native ledger's stake in whole VET. */
  lemma LedgerBalances(calls: seq<Call>)
    ensures Balanced(ExecAll(EMPTY, calls).0) && AllBalanced(ExecAll(EMPTY, calls).1)
  {
    ExecAllBalanced(EMPTY, calls);
  }

  /** The VET that went in with the calls that succeeded, less what was paid out: the
      effects of nested calls count only if every call around them succeeds. */
  ghost function NetStake(s: Ledger, c: Call): int
    decreases c, 1
  {
    match c
    case Stake(value, _, _) => if ExecStake(s, c).Done? then value else 0
    case Delegate(_, value, _, _) => if ExecStake(s, c).Done? then value else 0
    case WithdrawStake(stake, inner, _, _) =>
      if ExecWithdraw(s, c).Done? then NetStakeAll(PaidOut(s, stake.value), inner) - stake.value else 0
    case WithdrawDelegation(_, stake, inner, _, _) =>
      if ExecWithdraw(s, c).Done? then NetStakeAll(PaidOut(s, stake.value), inner) - stake.value else 0
    case _ => 0
  }

  ghost function NetStakeAll(s: Ledger, calls: seq<Call>): int
    decreases calls
  {
    if calls == [] then 0
    else NetStake(s, calls[0]) + NetStakeAll(After(s, Exec(s, calls[0])), calls[1..])
  }

  lemma {:induction false} ExecMovesNetStake(s: Ledger, c: Call)
    ensures After(s, Exec(s, c)).effectiveVET == s.effectiveVET + NetStake(s, c)
    decreases c, 1
  {
    match c
    case WithdrawStake(stake, inner, _, _) =>
      if ExecWithdraw(s, c).Done? { ExecAllMovesNetStake(PaidOut(s, stake.value), inner); }
    case WithdrawDelegation(_, stake, inner, _, _) =>
      if ExecWithdraw(s, c).Done? { ExecAllMovesNetStake(PaidOut(s, stake.value), inner); }
    case _ =>
  }

  lemma {:induction false} ExecAllMovesNetStake(s: Ledger, calls: seq<Call>)
    ensures ExecAll(s, calls).0.effectiveVET == s.effectiveVET + NetStakeAll(s, calls)
    decreases calls
  {
    if calls != [] {
      ExecMovesNetStake(s, calls[0]);
      ExecAllMovesNetStake(After(s, Exec(s, calls[0])), calls[1..]);
    }
  }

  /** Nothing is lost or made on the way: after any run the balance is what successful
      calls brought in less what they paid out, and what was forced in. */
  lemma EveryVetIsAccountedFor(calls: seq<Call>)
    ensures var s := ExecAll(EMPTY, calls).0;
            && s.effectiveVET == NetStakeAll(EMPTY, calls)
            && s.balance == NetStakeAll(EMPTY, calls) + s.forced
  {
    LedgerBalances(calls);
    ExecAllMovesNetStake(EMPTY, calls);
  }

  /** From a balanced state a withdrawal fails only because it is not allowed or the
      receiver rejects it: the subtraction never underflows and the money is there. */
  lemma WithdrawalsAreCovered(s: Ledger, c: Call)
    requires Balanced(s) && (c.WithdrawStake? || c.WithdrawDelegation?)
    ensures Exec(s, c).Reverted? <==> !MayWithdraw(s, c) || !c.accepts
    ensures Exec(s, c).Reverted? && MayWithdraw(s, c) ==> Exec(s, c).why == Rejected
  {
  }

  /** The state the receiver sees is already settled: calling back in cannot
      withdraw against a balance that still counts the stake just paid. */
  lemma ReceiverSeesSettledLedger(s: Ledger, c: Call)
    requires Balanced(s) && (c.WithdrawStake? || c.WithdrawDelegation?) && MayWithdraw(s, c)
    ensures Exec(s, c).seen != []
    ensures var first := Exec(s, c).seen[0];
            && first.effectiveVET == s.effectiveVET - c.stake.value
            && first.balance == s.balance - c.stake.value && first.native == s.native - c.stake.value
  {
  }

  // ---------- who can do what when paused ----------

  /** With the staker switch on nothing but forced VET changes the ledger; with the
      delegator switch on no delegation does, while stakes still move. */
  lemma PausesHold(s: Ledger, c: Call)
    ensures !c.Transfer? && !c.Force? && StakerPaused(c.params) ==> After(s, Exec(s, c)) == s
    ensures (c.Delegate? || c.WithdrawDelegation?) && DelegatorPaused(c.params) ==> After(s, Exec(s, c)) == s
    ensures (c.Delegate? || c.WithdrawDelegation?) && c.sender != c.params.delegatorContract ==>
              After(s, Exec(s, c)) == s
    ensures c.Stake? && s.effectiveVET + c.value <= U256_MAX ==>
              (Exec(s, c).Done? <==> StakeAllowed(c.value) && !StakerPaused(c.params) && c.nativeOk)
    ensures c.Delegate? && s.effectiveVET + c.value <= U256_MAX ==>
              (Exec(s, c).Done? <==>
                 && c.sender == c.params.delegatorContract && StakeAllowed(c.value)
                 && !StakerPaused(c.params) && !DelegatorPaused(c.params) && c.nativeOk)
    ensures c.Transfer? ==> After(s, Exec(s, c)) == s
  {
  }

  /** A stake that `checkStake` lets through: a positive whole number of VET up to a hundred billion. */
  predicate WholeStake(value: nat) {
    0 < value <= 100_000_000_000_000_000_000_000_000_000 && value % 1_000_000_000_000_000_000 == 0
  }

  /** The switches bit by bit. */
  function Switches(k: nat, staker: bool, delegator: bool, contract: Address): Params {
    Params(4 * k + (if staker then 2 else 0) + (if delegator then 1 else 0), contract)
  }

  lemma Bits(k: nat, staker: bool, delegator: bool, contract: Address)
    ensures var p := Switches(k, staker, delegator, contract);
            (StakerPaused(p) <==> staker) && (DelegatorPaused(p) <==> delegator) && p.delegatorContract == contract
  {
    TwoBits(k, if staker then 1 else 0, if delegator then 1 else 0);
  }

  lemma TwoBits(k: nat, high: nat, low: nat)
    requires high < 2 && low < 2
    ensures (4 * k + 2 * high + low) % 2 == low && ((4 * k + 2 * high + low) / 2) % 2 == high
  {
    assert (4 * k + 2 * high + low) / 2 == 2 * k + high;
  }

  /** The second bit pauses everything, the first the delegations only, the others do nothing. A deposit that
      goes through moves exactly its amount in all three books. */
  lemma DepositsDecided(s: Ledger, k: nat, staker: bool, delegator: bool, contract: Address, value: nat)
    ensures var p := Switches(k, staker, delegator, contract);
            var fits := WholeStake(value) && s.effectiveVET + value <= U256_MAX;
            var more := Done(Ledger(s.balance + value, s.effectiveVET + value, s.native + value, s.forced), []);
            && (if !staker && fits then Exec(s, Stake(value, true, p)) == more
                else Exec(s, Stake(value, true, p)).Reverted?)
            && (if !staker && !delegator && fits then Exec(s, Delegate(contract, value, true, p)) == more
                else Exec(s, Delegate(contract, value, true, p)).Reverted?)
            && (Exec(s, Manage(true, p)).Done? <==> !staker)
  {
    hide StakerPaused, DelegatorPaused, Switches;
    Bits(k, staker, delegator, contract);
  }

  /** The same bits for a withdrawal whose receiver does nothing: one that goes through takes exactly its
      amount out of all three books. */
  lemma WithdrawalsDecided(s: Ledger, k: nat, staker: bool, delegator: bool, contract: Address, value: nat)
    ensures var p := Switches(k, staker, delegator, contract);
            var covered := value <= s.native && value <= s.effectiveVET && value <= s.balance
                           && value % 1_000_000_000_000_000_000 == 0;
            var stake, delegation := Exec(s, WithdrawStake(Some(value), [], true, p)),
                                     Exec(s, WithdrawDelegation(contract, Some(value), [], true, p));
            && (stake.Done? <==> !staker && covered)
            && (delegation.Done? <==> !staker && !delegator && covered)
            && (stake.Done? ==>
                  stake.after == Ledger(s.balance - value, s.effectiveVET - value, s.native - value, s.forced))
            && (delegation.Done? ==>
                  delegation.after == Ledger(s.balance - value, s.effectiveVET - value, s.native - value, s.forced))
  {
    hide StakerPaused, DelegatorPaused, Switches;
    var p := Switches(k, staker, delegator, contract);
    Bits(k, staker, delegator, contract);
    NothingInside(s, WithdrawStake(Some(value), [], true, p));
    NothingInside(s, WithdrawDelegation(contract, Some(value), [], true, p));
  }

  lemma NothingInside(s: Ledger, c: Call)
    requires (c.WithdrawStake? || c.WithdrawDelegation?) && c.inner == [] && c.accepts
    ensures Exec(s, c).Done? <==> MayWithdraw(s, c) && c.stake.value <= s.effectiveVET && c.stake.value <= s.balance
    ensures Exec(s, c).Done? ==> Exec(s, c).after == PaidOut(s, c.stake.value)
  {
    hide StakerPaused, DelegatorPaused;
    assert Exec(s, c) == ExecWithdraw(s, c);
    if MayWithdraw(s, c) && c.stake.value <= s.effectiveVET && c.stake.value <= s.balance {
      var paid := PaidOut(s, c.stake.value);
      assert ExecAll(paid, c.inner) == (paid, []);
    }
  }

  // ---------- the contract object ----------

  /** The contract with its storage slot and its balance, changed in place. A call that
      reverts puts back what it found; a withdrawal runs the receiver's calls on this
      same object before it is finished. */
  class Staker {
    var balance: nat
    var effectiveVET: nat
    var native: nat          // the native ledger's outstanding stake
    ghost var forced: nat

    ghost function Abstract(): Ledger
      reads this
    {
      Ledger(balance, effectiveVET, native, forced)
    }

    constructor ()
      ensures Abstract() == EMPTY
    {
      balance, effectiveVET, native, forced := 0, 0, 0, 0;
    }

    method Receive(c: Call) returns (ok: bool)
      requires c.Stake? || c.Delegate?
      modifies this
      ensures Abstract() == After(old(Abstract()), ExecStake(old(Abstract()), c))
      ensures ok == ExecStake(old(Abstract()), c).Done?
    {
      var value := c.value;
      if !StakeAllowed(value) || StakerPaused(c.params) || !c.nativeOk { return false; }
      if c.Delegate? && (c.sender != c.params.delegatorContract || DelegatorPaused(c.params)) { return false; }
      if effectiveVET + value > U256_MAX { return false; }
      balance := balance + value;
      effectiveVET := effectiveVET + value;
      native := native + value;
      ok := true;
    }

    method Withdraw(c: Call) returns (ok: bool, ghost seen: seq<Ledger>)
      requires c.WithdrawStake? || c.WithdrawDelegation?
      modifies this
      ensures Abstract() == After(old(Abstract()), ExecWithdraw(old(Abstract()), c))
      ensures ok == ExecWithdraw(old(Abstract()), c).Done? && seen == ExecWithdraw(old(Abstract()), c).seen
      decreases c, 0
    {
      seen := [];
      if StakerPaused(c.params) { return false, []; }
      if c.WithdrawDelegation?
          && (c.sender != c.params.delegatorContract || DelegatorPaused(c.params)) { return false, []; }
      if c.stake.None? || c.stake.value > native || c.stake.value % VET != 0 { return false, []; }
      var stake := c.stake.value;
      var balance0, effectiveVET0, native0 := balance, effectiveVET, native;
      ghost var forced0 := forced;
      if stake > effectiveVET { return false, []; }
      native := native - stake;
      effectiveVET := effectiveVET - stake;
      if stake > balance {
        native, effectiveVET := native0, effectiveVET0;
        return false, [];
      }
      balance := balance - stake;
      seen := [Abstract()];
      ghost var more := CallAll(c.inner);
      seen := seen + more;
      if !c.accepts {
        balance, effectiveVET, native, forced := balance0, effectiveVET0, native0, forced0;
        return false, seen;
      }
      ok := true;
    }

    method Call(c: Call) returns (ok: bool, ghost seen: seq<Ledger>)
      modifies this
      ensures Abstract() == After(old(Abstract()), Exec(old(Abstract()), c))
      ensures ok == Exec(old(Abstract()), c).Done? && seen == Exec(old(Abstract()), c).seen
      decreases c, 1
    {
      seen := [];
      match c {
        case Stake(_, _, _) => ok := Receive(c);
        case Delegate(_, _, _, _) => ok := Receive(c);
        case WithdrawStake(_, _, _, _) => ok, seen := Withdraw(c);
        case WithdrawDelegation(_, _, _, _, _) => ok, seen := Withdraw(c);
        case Manage(nativeOk, p) => ok := nativeOk && !StakerPaused(p);
        case Transfer(_) => ok := false;
        case Force(value) =>
          balance, forced := balance + value, forced + value;
          ok := true;
      }
    }

    method CallAll(calls: seq<Call>) returns (ghost seen: seq<Ledger>)
      modifies this
      ensures (Abstract(), seen) == ExecAll(old(Abstract()), calls)
      decreases calls
    {
      seen := [];
      if |calls| > 0 {
        ghost var first, rest;
        var ok;
        ok, first := Call(calls[0]);
        ghost var next := Abstract();
        rest := CallAll(calls[1..]);
        seen := first + [next] + rest;
      }
    }
  }
}
