/** The `PositionManager` object: the maps of position_manager.go changed in
    place by its methods, each proved against `Positions`. */
module PositionManager {
  import opened Common
  import opened Positions
  import opened Sums

  class PositionManager {
    const positions: map<Name, nat>
    var validatorAvailable: map<Address, Counts>
    var validatorOriginal: map<Address, Counts>
    var totalActive: Counts
    var delegations: map<Id, Held>

    ghost function Abstract(): Manager
      reads this
    {
      Manager(positions, validatorAvailable, validatorOriginal, totalActive, delegations)
    }

    constructor (positions: map<Name, nat>)
      ensures Abstract() == Fresh(positions)
    {
      this.positions := positions;
      validatorAvailable, validatorOriginal, totalActive, delegations := map[], map[], map[], map[];
    }

    method RegisterValidator(v: Address, allocation: Counts)
      requires IsAllocation(positions, allocation)
      modifies this
      ensures Abstract() == Step(old(Abstract()), Register(v, allocation))
    {
      if |positions| == 0 { return; }
      if v in validatorAvailable { return; }
      validatorAvailable := validatorAvailable[v := allocation];
      validatorOriginal := validatorOriginal[v := allocation];
    }

    method UnregisterDelegator(id: Id)
      modifies this
      ensures Abstract() == Step(old(Abstract()), Action.UnregisterDelegator(id))
    {
      if id !in delegations { return; }
      var Held(p, v) := delegations[id];
      if v !in validatorAvailable {
        delegations := delegations - {id};
        return;
      }
      var current := validatorAvailable[v];
      validatorAvailable := validatorAvailable[v := current[p := Count(current, p) + 1]];
      totalActive := totalActive[p := Count(totalActive, p) - 1];
      delegations := delegations - {id};
    }

    method UnregisterValidator(v: Address)
      modifies this
      ensures Abstract() == Step(old(Abstract()), Action.UnregisterValidator(v))
    {
      if |positions| == 0 { return; }
      if v !in validatorAvailable { return; }
      if v !in validatorOriginal {
        validatorAvailable := validatorAvailable - {v};
        return;
      }
      SubtractUsed(validatorAvailable[v], validatorOriginal[v]);
      validatorAvailable := validatorAvailable - {v};
      validatorOriginal := validatorOriginal - {v};
    }

    /** The loop over the validator's map, in whatever order the runtime picks. */
    method SubtractUsed(current: Counts, original: Counts)
      modifies this`totalActive
      ensures totalActive == Subtracted(old(totalActive), current, original)
    {
      var rest := current.Keys;
      ghost var done: set<Name> := {};
      while rest != {}
        invariant rest !! done && rest + done == current.Keys
        invariant totalActive.Keys == old(totalActive).Keys + done
        invariant forall p | p in totalActive ::
                    totalActive[p] == Count(old(totalActive), p)
                        - (if p in done then Count(original, p) - current[p] else 0)
        decreases rest
      {
        ghost var some := SomeMember(rest);
        var p :| p in rest;
        var used := Count(original, p) - current[p];
        totalActive := totalActive[p := Count(totalActive, p) - used];
        rest := rest - {p};
        done := done + {p};
      }
    }

    /** The names that are still below their cap when the search starts. */
    ghost predicate Open(p: Name)
      reads this
    {
      p in positions && Count(totalActive, p) < positions[p]
    }

    /** The search, for any order in which the two lists come out of the shuffles.
        It fails exactly when nothing can be taken; otherwise it moves one unit. */
    method NewPosition(validators: seq<Address>, open: seq<Name>, id: Id) returns (found: bool, v: Address, p: Name)
      requires forall u :: u in validators <==> u in validatorAvailable
      requires forall q :: q in open <==> Open(q)
      modifies this
      ensures found <==> exists u, q :: CanTake(old(Abstract()), u, q)
      ensures found ==> CanTake(old(Abstract()), v, p) && Abstract() == Take(old(Abstract()), id, v, p)
      ensures found ==> Abstract() == Step(old(Abstract()), Action.NewPosition(id, v, p))
      ensures !found ==> Abstract() == old(Abstract())
    {
      v, p := 0, 0;
      if |positions| == 0 { return false, 0, 0; }
      var i := 0;
      while i < |validators|
        invariant 0 <= i <= |validators|
        invariant forall k, q | 0 <= k < i :: !CanTake(Abstract(), validators[k], q)
      {
        var j := 0;
        while j < |open|
          invariant 0 <= j <= |open|
          invariant forall l | 0 <= l < j :: !CanTake(Abstract(), validators[i], open[l])
        {
          assert open[j] in open && validators[i] in validators;
          var count := Count(validatorAvailable[validators[i]], open[j]);
          if count > 0 && Count(totalActive, open[j]) < positions[open[j]] {
            v, p := validators[i], open[j];
            assert CanTake(Abstract(), v, p);
            validatorAvailable := validatorAvailable[v := validatorAvailable[v][p := count - 1]];
            totalActive := totalActive[p := Count(totalActive, p) + 1];
            delegations := delegations[id := Held(p, v)];
            return true, v, p;
          }
          j := j + 1;
        }
        forall q ensures !CanTake(Abstract(), validators[i], q) {
          assert q in open <==> Open(q);
        }
        i := i + 1;
      }
      forall u, q ensures !CanTake(Abstract(), u, q) {
        assert u in validators <==> u in validatorAvailable;
      }
      found := false;
    }

    /** What is left below the caps, summed in any order. */
    method Available() returns (available: int)
      ensures available == Sum(positions.Keys, Room(Abstract()))
    {
      available := 0;
      var rest := positions.Keys;
      while rest != {}
        invariant rest <= positions.Keys
        invariant available + Sum(rest, Room(Abstract())) == Sum(positions.Keys, Room(Abstract()))
        decreases rest
      {
        var p :| p in rest;
        SumRemove(rest, p, Room(Abstract()));
        available := available + positions[p] - Count(totalActive, p);
        rest := rest - {p};
      }
    }
  }
}
