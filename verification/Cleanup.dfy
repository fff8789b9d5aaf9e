/** The cleanup of cmd/txsimulation/devnetcleanup/delegations.go: windows over the
    delegation ids, the point where the next run resumes, and the sends in groups. */
module Cleanup {
  import opened CleanupScan
  import opened Common

  // The newest DelegationAdded event: the query fails, there is none, or it names the last id.
  datatype LastEvent = QueryFailed | NoEvents | LastID(id: nat)

  datatype Outcome = Ok | Error

  /** What a run did: its result, the ids a successful one searched, and the transactions it sent. */
  datatype Report = Report(outcome: Outcome, searched: seq<nat>, exits: seq<nat>, withdrawals: seq<nat>)

  /** The id a run starts from. */
  function Resume(previousCleaned: Option<nat>): nat {
    if previousCleaned.None? then 1 else previousCleaned.value + 1
  }

  function Flatten(groups: seq<seq<nat>>): seq<nat> {
    if groups == [] then [] else Flatten(groups[..|groups| - 1]) + groups[|groups| - 1]
  }

  /** How many windows of at most 1000 ids lie between the two ids. */
  function Windows(from: nat, lastID: nat): nat { if lastID < from then 0 else (lastID - from) / 1000 + 1 }

  /** Every fetch of the search gets through, and no id in it makes the scan revert. */
  ghost predicate GetsThrough(from: nat, lastID: nat, chain: Chain, rpc: nat -> bool) {
    && (forall k | 0 <= k < Windows(from, lastID) :: rpc(k))
    && (forall id | from <= id <= lastID :: !Overflows(chain, id))
  }

  class Cleanup {
    var previousCleaned: Option<nat>

    constructor ()
      ensures previousCleaned == None
    {
      previousCleaned := None;
    }

    /** The window loop; `rpc(k)` is whether the k-th fetch gets through. */
    method SearchWindows(from: nat, lastID: nat, chain: Chain, rpc: nat -> bool)
      returns (ok: bool, locked: seq<nat>, withdrawable: seq<nat>, searched: seq<nat>)
      requires from >= 1
      ensures ok ==> searched == Ids(from, lastID)
      ensures ok && Contiguous(chain) && lastID <= |chain| ==>
                ScanRange(chain, from, lastID) == Scan(locked, withdrawable, Going)
      ensures !ok ==> from <= lastID
      ensures Contiguous(chain) && lastID <= |chain| ==> (ok <==> GetsThrough(from, lastID, chain, rpc))
    {
      locked, withdrawable, searched := [], [], [];
      var currentID := from;
      var k := 0;
      while currentID <= lastID
        invariant from <= currentID && (currentID <= lastID + 1 || currentID == from)
        invariant searched == Ids(from, currentID - 1)
        invariant Contiguous(chain) && lastID <= |chain| ==>
                    ScanRange(chain, from, currentID - 1) == Scan(locked, withdrawable, Going)
        invariant currentID == from + 1000 * k || (currentID == lastID + 1 && k == Windows(from, lastID))
        invariant forall j | 0 <= j < k :: rpc(j)
        invariant Contiguous(chain) && lastID <= |chain| ==> forall id | from <= id < currentID :: !Overflows(chain, id)
        decreases lastID + 1 - currentID
      {
        var end := currentID + 999;
        if end > lastID { end := lastID; }
        assert k <= (lastID - from) / 1000;
        if Contiguous(chain) && lastID <= |chain| { ScanOutcome(chain, currentID, end); }
        if !rpc(k) { return false, locked, withdrawable, searched; }
        var fetched := GetLockedDelegators(chain, currentID, end);
        if fetched.FetchFailed? { return false, locked, withdrawable, searched; }
        if Contiguous(chain) && lastID <= |chain| { ScanSplits(chain, from, currentID - 1, end); }
        IdsSplit(from, currentID - 1, end);
        locked := locked + fetched.locked;
        withdrawable := withdrawable + fetched.withdrawable;
        searched := searched + Ids(currentID, end);
        currentID := end + 1;
        k := k + 1;
      }
      ok := true;
    }

    /** A successful run searches every id from its resume point to the last exactly
        once, in order, and sends one transaction for each id of the two lists that a
        single scan of that range gives. A failed fetch leaves the marker one higher
        than it was: `previousCleaned.Add(previousCleaned, 1)` has overwritten it. */
    method Run(enabled: bool, event: LastEvent, chain: Chain, rpc: nat -> bool) returns (r: Report)
      modifies this
      ensures !enabled || !event.LastID? ==>
                previousCleaned == old(previousCleaned) && r.searched == [] && r.exits == [] && r.withdrawals == []
      ensures !enabled || event.NoEvents? ==> r.outcome == Ok
      ensures enabled && event.QueryFailed? ==> r.outcome == Error
      ensures enabled && event.LastID? ==>
                previousCleaned == MarkerAfter(old(previousCleaned), Pass(event.id, r.outcome == Ok))
      ensures enabled && event.LastID? && r.outcome == Ok ==>
                && r.searched == Ids(Resume(old(previousCleaned)), event.id)
                && (Contiguous(chain) && event.id <= |chain| ==>
                      var s := ScanRange(chain, Resume(old(previousCleaned)), event.id);
                      s.phase == Going && r.exits == s.locked && r.withdrawals == s.withdrawable)
      ensures enabled && event.LastID? && r.outcome == Error ==>
                r.exits == [] && r.withdrawals == [] && Resume(old(previousCleaned)) <= event.id
      ensures enabled && event.LastID? && Contiguous(chain) && event.id <= |chain| ==>
                (r.outcome == Ok <==> GetsThrough(Resume(old(previousCleaned)), event.id, chain, rpc))
    {
      if !enabled { return Report(Ok, [], [], []); }
      if event.QueryFailed? { return Report(Error, [], [], []); }
      if event.NoEvents? { return Report(Ok, [], [], []); }
      var currentID := 1;
      var lastID := event.id;
      if previousCleaned.Some? {
        // big.Int.Add stores the sum in its receiver
        previousCleaned := Some(previousCleaned.value + 1);
        currentID := previousCleaned.value;
      }
      var ok, locked, withdrawable, searched := SearchWindows(currentID, lastID, chain, rpc);
      if !ok { return Report(Error, [], [], []); }
      var exits, withdrawals: seq<nat> := [], [];
      if |locked| > 0 { exits := ExitDelegations(locked); }
      if |withdrawable| > 0 { withdrawals := ExitDelegations(withdrawable); }
      previousCleaned := Some(lastID);
      r := Report(Ok, searched, exits, withdrawals);
    }

    /** `exitDelegations`: groups of at most a hundred, none empty, one transaction per id. */
    method ExitDelegations(delegations: seq<nat>) returns (sent: seq<nat>)
      ensures sent == delegations
    {
      var groups := Groups(delegations);
      sent := [];
      for g := 0 to |groups|
        invariant sent == Flatten(groups[..g])
      {
        var ids := groups[g];
        ghost var before := sent;
        for j := 0 to |ids|
          invariant sent == before + ids[..j]
        {
          sent := sent + [ids[j]];
        }
        assert ids[..|ids|] == ids;
        assert groups[..g + 1][..g] == groups[..g];
      }
      assert groups[..|groups|] == groups;
    }

    method Groups(delegations: seq<nat>) returns (groups: seq<seq<nat>>)
      ensures Flatten(groups) == delegations
      ensures forall g | 0 <= g < |groups| :: 1 <= |groups[g]| <= 100
      ensures forall g | 0 <= g < |groups| - 1 :: |groups[g]| == 100
    {
      groups := [];
      var i := 0;
      while i < |delegations|
        invariant i >= 0 && (i <= |delegations| || i < |delegations| + 100)
        invariant Flatten(groups) == delegations[..if i <= |delegations| then i else |delegations|]
        invariant forall g | 0 <= g < |groups| :: 1 <= |groups[g]| <= 100
        invariant i <= |delegations| ==> forall g | 0 <= g < |groups| :: |groups[g]| == 100
        invariant forall g | 0 <= g < |groups| - 1 :: |groups[g]| == 100
      {
        var end := i + 100;
        if end > |delegations| { end := |delegations|; }
        ghost var before := groups;
        groups := groups + [delegations[i..end]];
        assert groups[..|groups| - 1] == before;
        assert delegations[..i] + delegations[i..end] == delegations[..end];
        i := i + 100;
      }
      assert delegations[..|delegations|] == delegations;
    }
  }

  // ---------- successive runs ----------

  /** One enabled run that found a last id, and whether its fetches succeeded. */
  datatype Pass = Pass(last: nat, ok: bool)

  function MarkerAfter(previousCleaned: Option<nat>, p: Pass): Option<nat> {
    if p.ok then Some(p.last)
    else if previousCleaned.None? then None else Some(previousCleaned.value + 1)
  }

  /** The ids that successful passes search, one pass after the other. */
  function SearchedBy(previousCleaned: Option<nat>, passes: seq<Pass>): seq<nat>
    decreases |passes|
  {
    if passes == [] then [] else
    var p := passes[0];
    (if p.ok then Ids(Resume(previousCleaned), p.last) else [])
    + SearchedBy(MarkerAfter(previousCleaned, p), passes[1..])
  }

  /** The newest id never goes down, and a fetch can only fail when there is something to search. */
  predicate Plausible(previousCleaned: Option<nat>, newest: nat, passes: seq<Pass>)
    decreases |passes|
  {
    passes == [] ||
    (passes[0].last >= newest && (!passes[0].ok ==> Resume(previousCleaned) <= passes[0].last)
     && Plausible(MarkerAfter(previousCleaned, passes[0]), passes[0].last, passes[1..]))
  }

  function CoveredAfter(covered: nat, p: Pass): nat { if p.ok then p.last else covered }

  function LastCovered(covered: nat, passes: seq<Pass>): nat
    decreases |passes|
  {
    if passes == [] then covered else LastCovered(CoveredAfter(covered, passes[0]), passes[1..])
  }

  predicate AtMarker(previousCleaned: Option<nat>, covered: nat) {
    Resume(previousCleaned) == covered + 1
  }

  /** An id behind the resume point is never searched again. */
  lemma {:induction false} BehindStaysUnsearched(previousCleaned: Option<nat>, newest: nat, passes: seq<Pass>, id: nat)
    requires Plausible(previousCleaned, newest, passes) && id < Resume(previousCleaned) && id <= newest
    ensures id !in SearchedBy(previousCleaned, passes)
    decreases |passes|
  {
    if passes != [] {
      var p := passes[0];
      IdsAre(Resume(previousCleaned), p.last);
      BehindStaysUnsearched(MarkerAfter(previousCleaned, p), p.last, passes[1..], id);
    }
  }

  ghost predicate Succeeds(passes: seq<Pass>) { exists i :: 0 <= i < |passes| && passes[i].ok }

  lemma SucceedsNow(passes: seq<Pass>)
    requires passes != []
    ensures Succeeds(passes) <==> passes[0].ok || Succeeds(passes[1..])
  {
    if i :| 0 <= i < |passes| && passes[i].ok && i > 0 { assert passes[1..][i - 1].ok; }
    if i :| 0 <= i < |passes[1..]| && passes[1..][i].ok { assert passes[i + 1].ok; }
  }

  /** When a pass succeeds, everything up to the newest id before counts as covered from then on. */
  lemma {:induction false} CoversNewest(previousCleaned: Option<nat>, covered: nat, newest: nat, passes: seq<Pass>)
    requires covered >= newest || Succeeds(passes)
    requires Plausible(previousCleaned, newest, passes)
    ensures LastCovered(covered, passes) >= newest
    decreases |passes|
  {
    if passes != [] {
      var p := passes[0];
      SucceedsNow(passes);
      if p.ok {
        CoversNewest(MarkerAfter(previousCleaned, p), p.last, p.last, passes[1..]);
      } else if Succeeds(passes[1..]) {
        CoversNewest(MarkerAfter(previousCleaned, p), covered, p.last, passes[1..]);
      } else {
        NothingSearched(MarkerAfter(previousCleaned, p), covered, passes[1..]);
      }
    }
  }

  lemma {:induction false} NothingSearched(previousCleaned: Option<nat>, covered: nat, passes: seq<Pass>)
    requires !Succeeds(passes)
    ensures SearchedBy(previousCleaned, passes) == [] && LastCovered(covered, passes) == covered
    decreases |passes|
  {
    if passes != [] {
      SucceedsNow(passes);
      NothingSearched(MarkerAfter(previousCleaned, passes[0]), covered, passes[1..]);
    }
  }

  /** No pass fails between two that succeed. */
  ghost predicate NoFailureBetween(previousCleaned: Option<nat>, passes: seq<Pass>)
    decreases |passes|
  {
    passes == [] ||
    ((previousCleaned.Some? && !passes[0].ok ==> !Succeeds(passes[1..]))
     && NoFailureBetween(MarkerAfter(previousCleaned, passes[0]), passes[1..]))
  }

  /** Passes that never fail between successes search each id once, in order. */
  lemma {:induction false} PassesCoverOnce(previousCleaned: Option<nat>, covered: nat, newest: nat, passes: seq<Pass>)
    requires AtMarker(previousCleaned, covered) && covered <= newest && Plausible(previousCleaned, newest, passes)
    requires NoFailureBetween(previousCleaned, passes)
    ensures LastCovered(covered, passes) >= covered
    ensures SearchedBy(previousCleaned, passes) == Ids(covered + 1, LastCovered(covered, passes))
    decreases |passes|
  {
    if passes != [] {
      var p, rest := passes[0], passes[1..];
      if previousCleaned.Some? && !p.ok {
        NothingSearched(MarkerAfter(previousCleaned, p), covered, rest);
      } else {
        var covered' := CoveredAfter(covered, p);
        PassesCoverOnce(MarkerAfter(previousCleaned, p), covered', p.last, rest);
        IdsSplit(covered + 1, covered', LastCovered(covered', rest));
      }
    }
  }

  /** A failure between two successes leaves out the id right behind what had been searched. */
  lemma {:induction false} FailureBetweenSkips(previousCleaned: Option<nat>, covered: nat, newest: nat,
                                             passes: seq<Pass>)
    requires AtMarker(previousCleaned, covered) && covered <= newest && Plausible(previousCleaned, newest, passes)
    requires !NoFailureBetween(previousCleaned, passes)
    ensures exists id :: covered < id <= LastCovered(covered, passes) && id !in SearchedBy(previousCleaned, passes)
    decreases |passes|
  {
    var p, rest := passes[0], passes[1..];
    var marker := MarkerAfter(previousCleaned, p);
    if previousCleaned.Some? && !p.ok {
      LaterFailuresToo(marker, rest);
      BehindStaysUnsearched(marker, p.last, rest, covered + 1);
      CoversNewest(marker, covered, p.last, rest);
      assert covered + 1 !in SearchedBy(previousCleaned, passes);
    } else {
      FailureBetweenSkips(marker, CoveredAfter(covered, p), p.last, rest);
      var id :| CoveredAfter(covered, p) < id <= LastCovered(CoveredAfter(covered, p), rest)
                && id !in SearchedBy(marker, rest);
      IdsAre(Resume(previousCleaned), p.last);
      assert id !in SearchedBy(previousCleaned, passes);
    }
  }

  /** Passes none of which succeeds have no failure between successes. */
  lemma {:induction false} LaterFailuresToo(previousCleaned: Option<nat>, passes: seq<Pass>)
    ensures !Succeeds(passes) ==> NoFailureBetween(previousCleaned, passes)
    decreases |passes|
  {
    if passes != [] {
      SucceedsNow(passes);
      LaterFailuresToo(MarkerAfter(previousCleaned, passes[0]), passes[1..]);
    }
  }

  /** The exact condition. Each id from the first to the last covered one is searched exactly
      once and in order if and only if no pass fails between two that succeed. */
  lemma CoversOnceIff(previousCleaned: Option<nat>, covered: nat, passes: seq<Pass>)
    requires AtMarker(previousCleaned, covered) && Plausible(previousCleaned, covered, passes)
    ensures SearchedBy(previousCleaned, passes) == Ids(covered + 1, LastCovered(covered, passes))
            <==> NoFailureBetween(previousCleaned, passes)
  {
    if NoFailureBetween(previousCleaned, passes) {
      PassesCoverOnce(previousCleaned, covered, covered, passes);
    } else {
      FailureBetweenSkips(previousCleaned, covered, covered, passes);
      IdsAre(covered + 1, LastCovered(covered, passes));
    }
  }

  // ---------- successive runs, by their inputs ----------

  /** What one enabled run meets: the newest id, the chain during its scan, and which fetches get through. */
  datatype Attempt = Attempt(last: nat, chain: Chain, rpc: nat -> bool)

  /** Whether each run succeeds follows from what it meets and where it resumes, as `Run` promises. */
  ghost function PassesOf(previousCleaned: Option<nat>, attempts: seq<Attempt>): seq<Pass>
    decreases |attempts|
  {
    if attempts == [] then [] else
    var a := attempts[0];
    var p := Pass(a.last, GetsThrough(Resume(previousCleaned), a.last, a.chain, a.rpc));
    [p] + PassesOf(MarkerAfter(previousCleaned, p), attempts[1..])
  }

  /** The newest id never goes down. */
  predicate Growing(newest: nat, attempts: seq<Attempt>)
    decreases |attempts|
  {
    attempts == [] || (attempts[0].last >= newest && Growing(attempts[0].last, attempts[1..]))
  }

  /** A run with nothing to search cannot fail. */
  lemma {:induction false} AttemptsArePlausible(previousCleaned: Option<nat>, newest: nat, attempts: seq<Attempt>)
    requires Growing(newest, attempts)
    ensures Plausible(previousCleaned, newest, PassesOf(previousCleaned, attempts))
    decreases |attempts|
  {
    if attempts != [] {
      var p := PassesOf(previousCleaned, attempts)[0];
      AttemptsArePlausible(MarkerAfter(previousCleaned, p), p.last, attempts[1..]);
      assert PassesOf(previousCleaned, attempts)[1..] == PassesOf(MarkerAfter(previousCleaned, p), attempts[1..]);
    }
  }

  /** From a fresh cleanup, for every sequence of runs: each id from 1 on is searched exactly once
      and in order if and only if no run fails to get through between two that do. */
  lemma RunsCoverOnceIff(attempts: seq<Attempt>)
    requires Growing(0, attempts)
    ensures var passes := PassesOf(None, attempts);
            SearchedBy(None, passes) == Ids(1, LastCovered(0, passes)) <==> NoFailureBetween(None, passes)
  {
    AttemptsArePlausible(None, 0, attempts);
    CoversOnceIff(None, 0, PassesOf(None, attempts));
  }

  /** Three passes over ids 1..30, the second of which fails: id 11 is never searched. */
  lemma FailedPassSkipsAnId()
    ensures var passes := [Pass(10, true), Pass(20, false), Pass(30, true)];
            Plausible(None, 0, passes) && SearchedBy(None, passes) == Ids(1, 10) + Ids(12, 30)
    ensures 11 !in Ids(1, 10) + Ids(12, 30)
  {
    var passes := [Pass(10, true), Pass(20, false), Pass(30, true)];
    assert passes[1..] == [Pass(20, false), Pass(30, true)];
    assert passes[1..][1..] == [Pass(30, true)];
    assert passes[1..][1..][1..] == [];
    IdsAre(1, 10);
    IdsAre(12, 30);
  }

  lemma {:induction false} IdsAre(lo: nat, hi: int)
    ensures forall id :: id in Ids(lo, hi) <==> lo <= id <= hi
    decreases hi - lo + 1
  {
    if hi >= lo {
      IdsAre(lo, hi - 1);
    }
  }
}
