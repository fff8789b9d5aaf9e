/** The bounded scan of delegations in cmd/txsimulation/contract/GetValidators.sol
    and what it means: two ordered, disjoint filters of a range of ids. */
module CleanupScan {
  import opened Common

  const WINDOW: nat := 1000

  /** What the staker says about one delegation; validator 0 means there is none. */
  datatype Entry = Entry(validator: nat, stake: nat, isLocked: bool, start: nat, end: nat, completed: nat)

  // Delegation ids count from 1.
  type Chain = seq<Entry>

  function Lookup(chain: Chain, id: nat): Entry {
    if 1 <= id <= |chain| then chain[id - 1] else Entry(0, 0, false, 0, 0, 0)
  }

  predicate Contiguous(chain: Chain) {
    forall i | 0 <= i < |chain| :: chain[i].validator != 0
  }

  predicate IsLocked(chain: Chain, id: nat) {
    Lookup(chain, id).stake != 0 && Lookup(chain, id).isLocked
  }

  predicate IsWithdrawable(chain: Chain, id: nat) {
    var e := Lookup(chain, id);
    e.stake != 0 && !e.isLocked && (e.start > e.completed + 1 || e.end <= e.completed)
  }

  /** `completedPeriods + 1` is a checked uint32 sum, evaluated for unlocked stakes only. */
  predicate Overflows(chain: Chain, id: nat) {
    var e := Lookup(chain, id);
    e.stake != 0 && !e.isLocked && e.completed + 1 > U32_MAX
  }

  datatype Phase = Going | Stopped | Failed

  datatype Scan = Scan(locked: seq<nat>, withdrawable: seq<nat>, phase: Phase)

  function ScanOne(chain: Chain, s: Scan, id: nat): Scan {
    if s.phase != Going then s
    else if Lookup(chain, id).validator == 0 then s.(phase := Stopped)
    else if Overflows(chain, id) then s.(phase := Failed)
    else if IsLocked(chain, id) then s.(locked := s.locked + [id])
    else if IsWithdrawable(chain, id) then s.(withdrawable := s.withdrawable + [id])
    else s
  }

  function ScanRange(chain: Chain, lo: nat, hi: int): Scan
    decreases hi - lo + 1
  {
    if hi < lo then Scan([], [], Going) else ScanOne(chain, ScanRange(chain, lo, hi - 1), hi)
  }

  /** The ids lo..hi in order. */
  function Ids(lo: nat, hi: int): seq<nat>
    decreases hi - lo + 1
  {
    if hi < lo then [] else Ids(lo, hi - 1) + [hi]
  }

  ghost predicate Increasing(s: seq<nat>, lo: nat, hi: int) {
    && (forall i | 0 <= i < |s| :: lo <= s[i] <= hi)
    && (forall i, j | 0 <= i < j < |s| :: s[i] < s[j])
  }

  lemma NotBoth(chain: Chain, id: nat)
    ensures !(IsLocked(chain, id) && IsWithdrawable(chain, id))
  {
  }

  lemma StaysIncreasing(s: seq<nat>, lo: nat, hi: nat)
    requires lo <= hi && Increasing(s, lo, hi - 1)
    ensures Increasing(s, lo, hi) && Increasing(s + [hi], lo, hi)
  {
  }

  lemma NothingIncreasing(lo: nat, hi: int)
    ensures Increasing([], lo, hi)
  {
  }

  lemma {:induction false} ScanSorted(chain: Chain, lo: nat, hi: int)
    requires ScanRange(chain, lo, hi).phase == Going
    ensures var s := ScanRange(chain, lo, hi); Increasing(s.locked, lo, hi) && Increasing(s.withdrawable, lo, hi)
    decreases hi - lo + 1
  {
    hide IsLocked, IsWithdrawable, Overflows, Lookup, Increasing;
    if hi >= lo {
      ScanSorted(chain, lo, hi - 1);
      StaysIncreasing(ScanRange(chain, lo, hi - 1).locked, lo, hi);
      StaysIncreasing(ScanRange(chain, lo, hi - 1).withdrawable, lo, hi);
    } else {
      NothingIncreasing(lo, hi);
    }
  }

  lemma {:induction false} ScanMembers(chain: Chain, lo: nat, hi: int, id: nat)
    requires ScanRange(chain, lo, hi).phase == Going
    ensures id in ScanRange(chain, lo, hi).locked <==> lo <= id <= hi && IsLocked(chain, id)
    ensures id in ScanRange(chain, lo, hi).withdrawable <==> lo <= id <= hi && IsWithdrawable(chain, id)
    decreases hi - lo + 1
  {
    if hi >= lo {
      ScanMembers(chain, lo, hi - 1, id);
    }
  }

  /** A scan that runs through collects exactly the locked and exactly the withdrawable
      ids of its range, each list in increasing order, with no id in both, and
      never more of them than the range has ids. */
  lemma {:induction false} ScanIsFilter(chain: Chain, lo: nat, hi: int)
    requires ScanRange(chain, lo, hi).phase == Going
    ensures var s := ScanRange(chain, lo, hi);
            && Increasing(s.locked, lo, hi) && Increasing(s.withdrawable, lo, hi)
            && (forall id :: id in s.locked <==> lo <= id <= hi && IsLocked(chain, id))
            && (forall id :: id in s.withdrawable <==> lo <= id <= hi && IsWithdrawable(chain, id))
            && (forall id :: !(id in s.locked && id in s.withdrawable))
  {
    hide IsLocked, IsWithdrawable, ScanRange, Increasing;
    ScanSorted(chain, lo, hi);
    forall id: nat
      ensures id in ScanRange(chain, lo, hi).locked <==> lo <= id <= hi && IsLocked(chain, id)
      ensures id in ScanRange(chain, lo, hi).withdrawable <==> lo <= id <= hi && IsWithdrawable(chain, id)
      ensures !(id in ScanRange(chain, lo, hi).locked && id in ScanRange(chain, lo, hi).withdrawable)
    {
      ScanMembers(chain, lo, hi, id);
      NotBoth(chain, id);
    }
  }

  /** The two lists over the fields of the entries. */
  lemma ScanCollects(chain: Chain, lo: nat, hi: int, id: nat)
    requires 1 <= lo <= id <= hi && id <= |chain| && ScanRange(chain, lo, hi).phase == Going
    ensures var e := chain[id - 1];
            && (id in ScanRange(chain, lo, hi).locked <==> e.stake != 0 && e.isLocked)
            && (id in ScanRange(chain, lo, hi).withdrawable <==>
                  e.stake != 0 && !e.isLocked && (e.start > e.completed + 1 || e.end <= e.completed))
  {
    ScanMembers(chain, lo, hi, id);
  }

  /** At the first id without a delegation the scan stops and keeps what it has; at the first unlocked stake
      whose completed periods are at their maximum it reverts. */
  lemma ScanEnds(chain: Chain, lo: nat, gap: nat, hi: int)
    requires 1 <= lo <= gap <= hi && ScanRange(chain, lo, gap - 1).phase == Going
    ensures gap > |chain| || chain[gap - 1].validator == 0 ==>
              ScanRange(chain, lo, hi) == ScanRange(chain, lo, gap - 1).(phase := Stopped)
    ensures gap <= |chain| && chain[gap - 1].validator != 0 ==>
              var e := chain[gap - 1];
              if e.stake != 0 && !e.isLocked && e.completed >= 4294967295 then ScanRange(chain, lo, hi).phase == Failed
              else ScanRange(chain, lo, gap).phase == Going
  {
    if ScanRange(chain, lo, gap).phase != Going { StopsForGood(chain, lo, gap, hi); }
  }

  /** However the scan ends, the two lists together fit the ids visited. */
  lemma {:induction false} ScanFits(chain: Chain, lo: nat, hi: int)
    requires hi >= lo - 1
    ensures |ScanRange(chain, lo, hi).locked| + |ScanRange(chain, lo, hi).withdrawable| <= hi - lo + 1
    decreases hi - lo + 1
  {
    if hi >= lo {
      ScanFits(chain, lo, hi - 1);
    }
  }

  /** With contiguous ids a scan within them is never cut short, and it fails
      exactly on an overflowing entry. */
  lemma {:induction false} ScanOutcome(chain: Chain, lo: nat, hi: int)
    requires Contiguous(chain) && 1 <= lo && hi <= |chain|
    ensures var s := ScanRange(chain, lo, hi);
            && s.phase != Stopped
            && (s.phase == Failed <==> exists id :: lo <= id <= hi && Overflows(chain, id))
    decreases hi - lo + 1
  {
    if hi >= lo {
      ScanOutcome(chain, lo, hi - 1);
      if Overflows(chain, hi) { assert lo <= hi <= hi && Overflows(chain, hi); }
    }
  }

  lemma {:induction false} StopsForGood(chain: Chain, lo: nat, mid: int, hi: int)
    requires lo - 1 <= mid <= hi && ScanRange(chain, lo, mid).phase != Going
    ensures ScanRange(chain, lo, hi) == ScanRange(chain, lo, mid)
    decreases hi - mid
  {
    if mid < hi {
      StopsForGood(chain, lo, mid, hi - 1);
    }
  }

  /** Scanning a range in two pieces gives the two lists of the whole range. */
  lemma {:induction false} ScanSplits(chain: Chain, lo: nat, mid: nat, hi: int)
    requires lo <= mid + 1 && mid <= hi
    requires ScanRange(chain, lo, mid).phase == Going
    ensures var a, b, c := ScanRange(chain, lo, mid), ScanRange(chain, mid + 1, hi), ScanRange(chain, lo, hi);
            && c.phase == b.phase
            && c.locked == a.locked + b.locked && c.withdrawable == a.withdrawable + b.withdrawable
    decreases hi - mid
  {
    if mid < hi {
      ScanSplits(chain, lo, mid, hi - 1);
    }
  }

  lemma {:induction false} IdsSplit(lo: nat, mid: nat, hi: int)
    requires lo <= mid + 1 && mid <= hi
    ensures Ids(lo, mid) + Ids(mid + 1, hi) == Ids(lo, hi)
    decreases hi - mid
  {
    if mid < hi {
      IdsSplit(lo, mid, hi - 1);
    }
  }

  // ---------- the view function with its fixed buffers ----------

  datatype Fetched = FetchFailed | Fetched(locked: seq<nat>, withdrawable: seq<nat>)

  function LastScanned(firstID: nat, maxID: nat): nat {
    if maxID > firstID + 999 then firstID + 999 else maxID
  }

  function Fetch(chain: Chain, firstID: nat, maxID: nat): Fetched {
    var s := ScanRange(chain, firstID, LastScanned(firstID, maxID));
    if s.phase == Failed then FetchFailed else Fetched(s.locked, s.withdrawable)
  }

  /** One fetch looks at the ids asked for, a thousand of them at most. */
  lemma AtMostAThousand(chain: Chain, firstID: nat, maxID: nat, last: nat)
    requires maxID <= firstID + 999 ==> last == maxID
    requires maxID > firstID + 999 ==> last == firstID + 999
    ensures var s := ScanRange(chain, firstID, last);
            Fetch(chain, firstID, maxID) == if s.phase.Failed? then FetchFailed else Fetched(s.locked, s.withdrawable)
  {
  }

  method Copy(buffer: array<nat>, count: nat) returns (copy: seq<nat>)
    requires count <= buffer.Length
    ensures copy == buffer[..count]
  {
    var a := new nat[count];
    for j := 0 to count
      invariant forall k | 0 <= k < j :: a[k] == buffer[k]
    {
      a[j] := buffer[j];
    }
    copy := a[..];
  }

  /** `getLockedDelegators`: the buffers of 1000 never overflow. */
  method GetLockedDelegators(chain: Chain, firstID: nat, maxID: nat) returns (r: Fetched)
    ensures r == Fetch(chain, firstID, maxID)
  {
    var tmpLocked := new nat[WINDOW];
    var tmpWithdrawable := new nat[WINDOW];
    var lockedCount, withdrawableCount := 0, 0;
    var end := maxID;
    if end > firstID + 999 { end := firstID + 999; }
    var i := firstID;
    while i <= end
      invariant firstID <= i && (i <= end + 1 || i == firstID)
      invariant lockedCount + withdrawableCount <= i - firstID <= WINDOW
      invariant ScanRange(chain, firstID, i - 1) ==
                Scan(tmpLocked[..lockedCount], tmpWithdrawable[..withdrawableCount], Going)
    {
      var e := Lookup(chain, i);
      if e.validator == 0 {
        StopsForGood(chain, firstID, i, end);
        break;
      }
      if e.stake == 0 {
        i := i + 1;
        continue;
      }
      if e.isLocked {
        tmpLocked[lockedCount] := i;
        lockedCount := lockedCount + 1;
      } else {
        if e.completed + 1 > U32_MAX {
          StopsForGood(chain, firstID, i, end);
          return FetchFailed;
        }
        if e.start > e.completed + 1 || e.end <= e.completed {
          tmpWithdrawable[withdrawableCount] := i;
          withdrawableCount := withdrawableCount + 1;
        }
      }
      i := i + 1;
    }
    var locked := Copy(tmpLocked, lockedCount);
    var withdrawable := Copy(tmpWithdrawable, withdrawableCount);
    r := Fetched(locked, withdrawable);
  }
}
