/** The position allocator of cmd/txsimulation/xnodes/position_manager.go:
    which position is free at which validator, who holds one, and what the
    counters say about it after any sequence of calls. */
module Positions {
  import opened Common
  import opened Runs
  import opened Sums

  type Id = nat
  type Name = int   // position names are only compared
  type Counts = map<Name, int>

  datatype Held = Held(position: Name, validator: Address)

  // `caps` is MainnetUsed of each configured position.
  datatype Manager = Manager(
    caps: map<Name, nat>,
    available: map<Address, Counts>,
    original: map<Address, Counts>,
    totalActive: Counts,
    delegations: map<Id, Held>)

  /** A Go map read: zero for a missing key. */
  function Count(m: Counts, p: Name): int { if p in m then m[p] else 0 }

  function Fresh(caps: map<Name, nat>): Manager { Manager(caps, map[], map[], map[], map[]) }

  /** What makeValidatorsAvailablePositions returns: positive shares of configured positions. */
  predicate IsAllocation(caps: map<Name, nat>, a: Counts) {
    forall p | p in a :: p in caps && caps[p] > 0 && a[p] > 0
  }

  datatype Action =
    | Register(validator: Address, allocation: Counts)
    | UnregisterDelegator(id: Id)
    | UnregisterValidator(validator: Address)
    | NewPosition(id: Id, validator: Address, position: Name)

  /** A position that the search may take: registered validator, some left there, below the cap. */
  predicate CanTake(m: Manager, v: Address, p: Name) {
    && v in m.available && Count(m.available[v], p) > 0
    && p in m.caps && Count(m.totalActive, p) < m.caps[p]
  }

  function Take(m: Manager, id: Id, v: Address, p: Name): Manager
    requires v in m.available
  {
    m.(available := m.available[v := m.available[v][p := Count(m.available[v], p) - 1]],
       totalActive := m.totalActive[p := Count(m.totalActive, p) + 1],
       delegations := m.delegations[id := Held(p, v)])
  }

  function GiveBack(m: Manager, id: Id): Manager {
    if id !in m.delegations then m else
    var Held(p, v) := m.delegations[id];
    if v !in m.available then m.(delegations := m.delegations - {id})
    else m.(available := m.available[v := m.available[v][p := Count(m.available[v], p) + 1]],
            totalActive := m.totalActive[p := Count(m.totalActive, p) - 1],
            delegations := m.delegations - {id})
  }

  /** The counters after the positions in use at one validator are subtracted. */
  function Subtracted(total: Counts, current: Counts, original: Counts): Counts {
    map p | p in total.Keys + current.Keys ::
      Count(total, p) - (if p in current then Count(original, p) - current[p] else 0)
  }

  function DropValidator(m: Manager, v: Address): Manager {
    if m.caps == map[] || v !in m.available then m
    else if v !in m.original then m.(available := m.available - {v})
    else m.(available := m.available - {v}, original := m.original - {v},
            totalActive := Subtracted(m.totalActive, m.available[v], m.original[v]))
  }

  function Add(m: Manager, v: Address, allocation: Counts): Manager {
    if m.caps == map[] || v in m.available then m
    else m.(available := m.available[v := allocation], original := m.original[v := allocation])
  }

  /** Answers outside what the code can produce have no effect. */
  function Step(m: Manager, a: Action): Manager {
    match a
    case Register(v, allocation) => if IsAllocation(m.caps, allocation) then Add(m, v, allocation) else m
    case UnregisterDelegator(id) => GiveBack(m, id)
    case UnregisterValidator(v) => DropValidator(m, v)
    case NewPosition(id, v, p) => if CanTake(m, v, p) then Take(m, id, v, p) else m
  }

  function Run(m: Manager, actions: seq<Action>): Manager {
    Fold(Step, m, actions)
  }

  // ---------- one call, position by position ----------

  /** A validator is registered with exactly its allocation, once. */
  lemma RegisterEffect(m: Manager, v: Address, allocation: Counts)
    requires IsAllocation(m.caps, allocation)
    ensures var m' := Step(m, Register(v, allocation));
            && m'.totalActive == m.totalActive && m'.delegations == m.delegations && m'.caps == m.caps
            && (m.caps == map[] || v in m.available ==> m' == m)
            && (m.caps != map[] && v !in m.available ==>
                  && v in m'.available && v in m'.original
                  && forall p :: Count(m'.available[v], p) == Count(allocation, p) == Count(m'.original[v], p))
            && (forall u | u != v :: (u in m'.available <==> u in m.available)
                                     && (u in m.available ==> m'.available[u] == m.available[u]))
  {
  }

  lemma RegisterStores(m: Manager, v: Address, allocation: Counts)
    requires IsAllocation(m.caps, allocation) && m.caps != map[] && v !in m.available
    ensures var m' := Step(m, Register(v, allocation));
            v in m'.available && m'.available[v] == allocation && v in m'.original && m'.original[v] == allocation
  {
  }

  lemma UnregisterLeaves(m: Manager, v: Address)
    requires m.caps != map[]
    ensures var m' := Step(m, UnregisterValidator(v));
            && v !in m'.available && m'.delegations == m.delegations && m'.caps == m.caps
            && (v !in m.available ==> m' == m)
            && forall u | u != v :: u in m'.available <==> u in m.available
  {
  }

  /** Dropping a validator takes what it had handed out off the counters and forgets it; the
      delegations stay. */
  lemma UnregisterEffect(m: Manager, v: Address)
    requires m.caps != map[] && v in m.available && v in m.original && m.original[v].Keys <= m.available[v].Keys
    ensures var m' := Step(m, UnregisterValidator(v));
            && v !in m'.available && v !in m'.original && m'.delegations == m.delegations && m'.caps == m.caps
            && (forall p :: Count(m'.totalActive, p) ==
                              Count(m.totalActive, p) - (Count(m.original[v], p) - Count(m.available[v], p)))
            && (forall u | u != v :: (u in m'.available <==> u in m.available)
                                     && (u in m.available ==> m'.available[u] == m.available[u]))
  {
  }

  /** A release gives the holder's position back to its validator, if that is still registered, and forgets
      the holder in any case. */
  lemma ReleaseEffect(m: Manager, id: Id, v: Address, p: Name)
    requires id in m.delegations && m.delegations[id] == Held(p, v)
    ensures var m' := Step(m, UnregisterDelegator(id));
            var one := if v in m.available then 1 else 0;
            && m'.delegations == m.delegations - {id} && m'.original == m.original && m'.caps == m.caps
            && m'.available.Keys == m.available.Keys
            && (forall q :: Count(m'.totalActive, q) == Count(m.totalActive, q) - if q == p then one else 0)
            && (forall u, q | u in m.available ::
                  Count(m'.available[u], q) == Count(m.available[u], q) + if u == v && q == p then 1 else 0)
  {
  }

  /** An allocation takes one from the validator, where there is one and the cap allows it, and names the holder. */
  lemma AllocateEffect(m: Manager, id: Id, v: Address, p: Name)
    ensures var m' := Step(m, NewPosition(id, v, p));
            var free := && v in m.available && Count(m.available[v], p) > 0
                        && p in m.caps && Count(m.totalActive, p) < m.caps[p];
            var one := if free then 1 else 0;
            && m'.original == m.original && m'.caps == m.caps && m'.available.Keys == m.available.Keys
            && m'.delegations == (if free then m.delegations[id := Held(p, v)] else m.delegations)
            && (forall q :: Count(m'.totalActive, q) == Count(m.totalActive, q) + if q == p then one else 0)
            && (forall u, q | u in m.available ::
                  Count(m'.available[u], q) == Count(m.available[u], q) - if u == v && q == p then one else 0)
  {
  }

  // ---------- conservation, in every run ----------

  ghost function InUse(m: Manager, p: Name): Address -> int {
    (v: Address) => if v in m.available && v in m.original then Count(m.original[v], p) - Count(m.available[v], p)
        else 0
  }

  ghost predicate Shape(m: Manager) {
    && m.available.Keys == m.original.Keys
    && (forall v | v in m.available :: m.original[v].Keys <= m.available[v].Keys <= m.caps.Keys)
    && (forall v, p | v in m.available && p in m.available[v] :: m.available[v][p] >= 0)
    && (forall id | id in m.delegations :: m.delegations[id].position in m.caps)
  }

  ghost predicate Conserved(m: Manager) {
    && Shape(m)
    && forall p :: Count(m.totalActive, p) == Sum(m.available.Keys, InUse(m, p))
  }

  lemma TakeMovesOne(m: Manager, id: Id, v: Address, p: Name, q: Name)
    requires Shape(m) && CanTake(m, v, p)
    ensures var m' := Take(m, id, v, p);
            var one := if q == p then 1 else 0;
            && Count(m'.totalActive, q) == Count(m.totalActive, q) + one
            && InUse(m', q)(v) == InUse(m, q)(v) + one
            && forall u | u != v :: InUse(m', q)(u) == InUse(m, q)(u)
  {
  }

  lemma TakeShape(m: Manager, id: Id, v: Address, p: Name)
    requires Shape(m) && CanTake(m, v, p)
    ensures Shape(Take(m, id, v, p)) && Take(m, id, v, p).available.Keys == m.available.Keys
  {
  }

  lemma TakeConserves(m: Manager, id: Id, v: Address, p: Name)
    requires Conserved(m) && CanTake(m, v, p)
    ensures Conserved(Take(m, id, v, p))
  {
    hide Shape, InUse, Take, Count;
    var m' := Take(m, id, v, p);
    TakeShape(m, id, v, p);
    forall q ensures Count(m'.totalActive, q) == Sum(m'.available.Keys, InUse(m', q)) {
      TakeMovesOne(m, id, v, p, q);
      SumShift(m.available.Keys, v, InUse(m, q), InUse(m', q), if q == p then 1 else 0);
    }
  }

  lemma GiveBackMovesOne(m: Manager, id: Id, q: Name)
    requires Shape(m) && id in m.delegations && m.delegations[id].validator in m.available
    ensures var m' := GiveBack(m, id);
            var one := if q == m.delegations[id].position then 1 else 0;
            && Count(m'.totalActive, q) == Count(m.totalActive, q) - one
            && InUse(m', q)(m.delegations[id].validator) == InUse(m, q)(m.delegations[id].validator) - one
            && forall u | u != m.delegations[id].validator :: InUse(m', q)(u) == InUse(m, q)(u)
  {
  }

  lemma GiveBackForgets(m: Manager, id: Id)
    ensures GiveBack(m, id).delegations == m.delegations - {id}
  {
  }

  lemma GiveBackShape(m: Manager, id: Id)
    requires Shape(m)
    ensures Shape(GiveBack(m, id)) && GiveBack(m, id).available.Keys == m.available.Keys
  {
  }

  lemma GiveBackMovesNothing(m: Manager, id: Id, q: Name)
    requires id !in m.delegations || m.delegations[id].validator !in m.available
    ensures Count(GiveBack(m, id).totalActive, q) == Count(m.totalActive, q)
    ensures forall u :: InUse(GiveBack(m, id), q)(u) == InUse(m, q)(u)
  {
  }

  lemma GiveBackMovesAt(m: Manager, id: Id, u: Address, q: Name)
    ensures var m' := GiveBack(m, id);
            && m'.available.Keys == m.available.Keys && m'.original == m.original && m'.caps == m.caps
            && Count(m'.totalActive, q) <= Count(m.totalActive, q)
            && (u in m.available ==>
                  Count(m'.available[u], q) ==
                    Count(m.available[u], q) + if id in m.delegations && m.delegations[id] == Held(q, u) then 1 else 0)
  {
  }

  lemma GiveBackConserves(m: Manager, id: Id)
    requires Conserved(m)
    ensures Conserved(GiveBack(m, id))
  {
    hide Shape, InUse, GiveBack, Count;
    var m' := GiveBack(m, id);
    GiveBackShape(m, id);
    forall q ensures Count(m'.totalActive, q) == Sum(m'.available.Keys, InUse(m', q)) {
      if id in m.delegations && m.delegations[id].validator in m.available {
        var Held(p, v) := m.delegations[id];
        GiveBackMovesOne(m, id, q);
        SumShift(m.available.Keys, v, InUse(m, q), InUse(m', q), if q == p then -1 else 0);
      } else {
        GiveBackMovesNothing(m, id, q);
        SumSame(m.available.Keys, InUse(m, q), InUse(m', q));
      }
    }
  }

  lemma DropCounters(m: Manager, v: Address, q: Name)
    requires Shape(m) && DropValidator(m, v) != m
    ensures var m' := DropValidator(m, v);
            && Count(m'.totalActive, q) == Count(m.totalActive, q) - InUse(m, q)(v)
            && m'.available.Keys == m.available.Keys - {v}
            && forall u | u in m'.available :: InUse(m', q)(u) == InUse(m, q)(u)
  {
  }

  lemma DropTotal(m: Manager, v: Address, q: Name)
    requires Conserved(m) && DropValidator(m, v) != m
    ensures var m' := DropValidator(m, v);
            Count(m'.totalActive, q) == Sum(m'.available.Keys, InUse(m', q))
  {
    DropCounters(m, v, q);
    SumRemove(m.available.Keys, v, InUse(m, q));
    SumSame(m.available.Keys - {v}, InUse(DropValidator(m, v), q), InUse(m, q));
  }

  lemma DropConserves(m: Manager, v: Address)
    requires Conserved(m)
    ensures Conserved(DropValidator(m, v))
  {
    if DropValidator(m, v) != m {
      forall q { DropTotal(m, v, q); }
    }
  }

  lemma AddMovesNothing(m: Manager, v: Address, allocation: Counts, q: Name)
    requires Shape(m) && v !in m.available
    ensures var m' := Add(m, v, allocation);
            && Count(m'.totalActive, q) == Count(m.totalActive, q)
            && InUse(m', q)(v) == 0
            && forall u | u in m.available :: InUse(m', q)(u) == InUse(m, q)(u)
  {
  }

  lemma AddShape(m: Manager, v: Address, allocation: Counts)
    requires Shape(m) && IsAllocation(m.caps, allocation)
    ensures Shape(Add(m, v, allocation))
  {
    var m' := Add(m, v, allocation);
    forall p | p in allocation.Keys ensures p in m.caps.Keys { assert p in allocation; }
    forall u | u in m'.available ensures m'.original[u].Keys <= m'.available[u].Keys <= m'.caps.Keys {
      if u in m.available { assert m'.available[u] == m.available[u]; }
    }
  }

  lemma AddTotal(m: Manager, v: Address, allocation: Counts, q: Name)
    requires Conserved(m)
    ensures var m' := Add(m, v, allocation);
            Count(m'.totalActive, q) == Sum(m'.available.Keys, InUse(m', q))
  {
    hide Shape, InUse, Count;
    if m.caps != map[] && v !in m.available {
      var m' := Add(m, v, allocation);
      assert m'.available.Keys == m.available.Keys + {v};
      AddMovesNothing(m, v, allocation, q);
      SumExtend(m.available.Keys, v, InUse(m, q), InUse(m', q), 0);
    }
  }

  lemma AddConserves(m: Manager, v: Address, allocation: Counts)
    requires Conserved(m) && IsAllocation(m.caps, allocation)
    ensures Conserved(Add(m, v, allocation))
  {
    hide Shape, InUse, Add, IsAllocation, Count;
    AddShape(m, v, allocation);
    forall q ensures var m' := Add(m, v, allocation); Count(m'.totalActive, q) == Sum(m'.available.Keys, InUse(m', q)) {
      AddTotal(m, v, allocation, q);
    }
  }

  lemma StepConserves(m: Manager, a: Action)
    requires Conserved(m)
    ensures Conserved(Step(m, a))
  {
    match a
    case Register(v, allocation) => if IsAllocation(m.caps, allocation) { AddConserves(m, v, allocation); }
    case UnregisterDelegator(id) => GiveBackConserves(m, id);
    case UnregisterValidator(v) => DropConserves(m, v);
    case NewPosition(id, v, p) => if CanTake(m, v, p) { TakeConserves(m, id, v, p); }
  }

  lemma ValidatorStepKeepsHolders(m: Manager, a: Action)
    requires a.Register? || a.UnregisterValidator?
    ensures Step(m, a).delegations == m.delegations
  {
  }

  /** After any calls in any order, delegations of validators long gone and
      re-registrations included, `totalActive` is what the registered
      validators have handed out; nothing available is negative and the two
      maps list the same validators. */
  lemma {:induction false} Conservation(caps: map<Name, nat>, actions: seq<Action>)
    ensures Conserved(Run(Fresh(caps), actions))
    decreases |actions|
  {
    if actions == [] {
      assert forall p: Name :: Sum(Fresh(caps).available.Keys, InUse(Fresh(caps), p)) == 0;
    } else {
      Conservation(caps, actions[..|actions| - 1]);
      StepConserves(Run(Fresh(caps), actions[..|actions| - 1]), actions[|actions| - 1]);
    }
  }

  // ---------- counting and capacity, under the discipline ----------

  ghost predicate Outstanding(m: Manager, v: Address) {
    exists id :: id in m.delegations && m.delegations[id].validator == v
  }

  /** A registration that takes effect finds no outstanding delegation of its validator. */
  ghost predicate Disciplined(m: Manager, a: Action) {
    a.Register? && Step(m, a) != m ==> !Outstanding(m, a.validator)
  }

  ghost predicate DisciplinedRun(m: Manager, actions: seq<Action>) {
    forall k | 0 <= k < |actions| :: Disciplined(Run(m, actions[..k]), actions[k])
  }

  /** The ids handed out are new: they are random 32-byte hashes. */
  ghost predicate FreshIds(m: Manager, actions: seq<Action>) {
    forall k | 0 <= k < |actions| && actions[k].NewPosition? :: actions[k].id !in Run(m, actions[..k]).delegations
  }

  /** Both predicates on one action fewer. */
  lemma Shorter(m: Manager, actions: seq<Action>)
    requires actions != [] && FreshIds(m, actions)
    ensures var before := actions[..|actions| - 1];
            && FreshIds(m, before)
            && (DisciplinedRun(m, actions) <==>
                  DisciplinedRun(m, before) && Disciplined(Run(m, before), actions[|actions| - 1]))
  {
    var before := actions[..|actions| - 1];
    assert forall k | 0 <= k < |before| :: before[..k] == actions[..k] && before[k] == actions[k];
    if DisciplinedRun(m, actions) {
      forall k | 0 <= k < |before| ensures Disciplined(Run(m, before[..k]), before[k]) {
        assert before[..k] == actions[..k];
      }
    }
    if DisciplinedRun(m, before) && Disciplined(Run(m, before), actions[|actions| - 1]) {
      forall k | 0 <= k < |actions| ensures Disciplined(Run(m, actions[..k]), actions[k]) {
        if k < |before| { assert before[..k] == actions[..k]; }
      }
    }
  }

  ghost function Holding(ds: map<Id, Held>, h: Held): set<Id> {
    set id | id in ds && ds[id] == h
  }

  ghost function HoldersAt(m: Manager, v: Address, p: Name): set<Id> {
    Holding(m.delegations, Held(p, v))
  }

  /** The recorded delegations of p on registered validators. */
  ghost function Holders(m: Manager, p: Name): set<Id> {
    set id | id in m.delegations && m.delegations[id].position == p && m.delegations[id].validator in m.available
  }

  ghost predicate HoldersCounted(m: Manager) {
    forall v, p | v in m.available && v in m.original ::
      Count(m.original[v], p) - Count(m.available[v], p) == |HoldersAt(m, v, p)|
  }

  ghost predicate UnderCaps(m: Manager) {
    forall p | p in m.caps :: Count(m.totalActive, p) <= m.caps[p]
  }

  ghost predicate Counted(m: Manager) {
    Shape(m) && HoldersCounted(m) && UnderCaps(m)
  }

  lemma HoldingAdded(ds: map<Id, Held>, id: Id, held: Held, h: Held)
    requires id !in ds
    ensures |Holding(ds[id := held], h)| == |Holding(ds, h)| + if h == held then 1 else 0
  {
    assert Holding(ds[id := held], h) == if h == held then Holding(ds, h) + {id} else Holding(ds, h);
  }

  lemma HoldingRemoved(ds: map<Id, Held>, id: Id, h: Held)
    ensures |Holding(ds - {id}, h)| == |Holding(ds, h)| - if id in ds && ds[id] == h then 1 else 0
  {
    assert Holding(ds - {id}, h) == Holding(ds, h) - {id};
  }

  lemma TakeCounts(m: Manager, id: Id, v: Address, p: Name)
    requires Counted(m) && CanTake(m, v, p) && id !in m.delegations
    ensures HoldersCounted(Take(m, id, v, p)) && UnderCaps(Take(m, id, v, p))
  {
    hide Holding;
    forall u, q
      ensures |HoldersAt(Take(m, id, v, p), u, q)| == |HoldersAt(m, u, q)| + if u == v && q == p then 1 else 0
    {
      HoldingAdded(m.delegations, id, Held(p, v), Held(q, u));
    }
  }

  lemma GiveBackCounts(m: Manager, id: Id)
    requires Counted(m)
    ensures HoldersCounted(GiveBack(m, id)) && UnderCaps(GiveBack(m, id))
  {
    hide Holding, GiveBack, Shape, Count;
    var m' := GiveBack(m, id);
    GiveBackForgets(m, id);
    forall u, q | u in m'.available && u in m'.original
      ensures Count(m'.original[u], q) - Count(m'.available[u], q) == |HoldersAt(m', u, q)|
    {
      GiveBackMovesAt(m, id, u, q);
      HoldingRemoved(m.delegations, id, Held(q, u));
      assert Count(m.original[u], q) - Count(m.available[u], q) == |HoldersAt(m, u, q)|;
    }
    forall p | p in m'.caps ensures Count(m'.totalActive, p) <= m'.caps[p] {
      GiveBackMovesAt(m, id, 0, p);
    }
  }

  lemma DropCounts(m: Manager, v: Address)
    requires Counted(m)
    ensures HoldersCounted(DropValidator(m, v)) && UnderCaps(DropValidator(m, v))
  {
    var m' := DropValidator(m, v);
    forall u, q ensures HoldersAt(m', u, q) == HoldersAt(m, u, q) {}
    if m' != m {
      forall p | p in m'.caps ensures Count(m'.totalActive, p) <= m'.caps[p] {
        assert Count(m.original[v], p) - Count(m.available[v], p) == |HoldersAt(m, v, p)|;
      }
    }
  }

  lemma AddCounts(m: Manager, v: Address, allocation: Counts)
    requires Counted(m) && IsAllocation(m.caps, allocation) && Disciplined(m, Register(v, allocation))
    ensures HoldersCounted(Add(m, v, allocation)) && UnderCaps(Add(m, v, allocation))
  {
    var m' := Add(m, v, allocation);
    forall u, q ensures HoldersAt(m', u, q) == HoldersAt(m, u, q) {}
    if m' != m {
      forall q ensures HoldersAt(m', v, q) == {} {}
    }
  }

  lemma StepCounts(m: Manager, a: Action)
    requires Counted(m) && Disciplined(m, a) && (a.NewPosition? ==> a.id !in m.delegations)
    ensures HoldersCounted(Step(m, a)) && UnderCaps(Step(m, a))
  {
    match a
    case Register(v, allocation) => if IsAllocation(m.caps, allocation) { AddCounts(m, v, allocation); }
    case UnregisterDelegator(id) => GiveBackCounts(m, id);
    case UnregisterValidator(v) => DropCounts(m, v);
    case NewPosition(id, v, p) => if CanTake(m, v, p) { TakeCounts(m, id, v, p); }
  }

  lemma {:induction false} RunCounts(caps: map<Name, nat>, actions: seq<Action>)
    requires FreshIds(Fresh(caps), actions) && DisciplinedRun(Fresh(caps), actions)
    ensures Counted(Run(Fresh(caps), actions))
    decreases |actions|
  {
    Conservation(caps, actions);
    if actions != [] {
      Shorter(Fresh(caps), actions);
      RunCounts(caps, actions[..|actions| - 1]);
      StepCounts(Run(Fresh(caps), actions[..|actions| - 1]), actions[|actions| - 1]);
    }
  }

  /** The holders of p over a set of validators, counted validator by validator. */
  ghost function HoldersIn(m: Manager, p: Name, vs: set<Address>): set<Id> {
    set id | id in m.delegations && m.delegations[id].position == p && m.delegations[id].validator in vs
  }

  lemma DisjointSizes(a: set<Id>, b: set<Id>)
    requires a !! b
    ensures |a + b| == |a| + |b|
  {
  }

  lemma {:induction false} HoldersAddUp(m: Manager, p: Name, vs: set<Address>, inUse: Address -> int)
    requires forall v | v in vs :: inUse(v) == |HoldersAt(m, v, p)|
    ensures Sum(vs, inUse) == |HoldersIn(m, p, vs)|
    decreases vs
  {
    if vs == {} {
      assert HoldersIn(m, p, vs) == {};
    } else {
      var v :| v in vs;
      SumRemove(vs, v, inUse);
      HoldersAddUp(m, p, vs - {v}, inUse);
      DisjointSizes(HoldersIn(m, p, vs - {v}), HoldersAt(m, v, p));
      assert HoldersIn(m, p, vs) == HoldersIn(m, p, vs - {v}) + HoldersAt(m, v, p);
    }
  }

  ghost function Room(m: Manager): Name -> int {
    (p: Name) => if p in m.caps then m.caps[p] - Count(m.totalActive, p) else 0
  }

  /** `totalActive` counts the recorded delegations on registered validators. */
  ghost predicate CountsHolders(m: Manager) {
    forall p :: Count(m.totalActive, p) == |Holders(m, p)|
  }

  /** Each validator's free count stays between zero and its allocation, `totalActive`
      counts the recorded delegations and never passes the cap, and so `Available()`
      is never negative. */
  ghost predicate WithinCapacity(m: Manager) {
    && (forall v, p | v in m.available ::
          v in m.original && 0 <= Count(m.available[v], p) <= Count(m.original[v], p))
    && CountsHolders(m)
    && UnderCaps(m)
    && Sum(m.caps.Keys, Room(m)) >= 0
  }

  lemma CapacityLaw(caps: map<Name, nat>, actions: seq<Action>)
    requires FreshIds(Fresh(caps), actions) && DisciplinedRun(Fresh(caps), actions)
    ensures WithinCapacity(Run(Fresh(caps), actions))
  {
    RunCounts(caps, actions);
    Conservation(caps, actions);
    var m := Run(Fresh(caps), actions);
    forall p ensures Count(m.totalActive, p) == |Holders(m, p)| {
      HoldersAddUp(m, p, m.available.Keys, InUse(m, p));
      assert HoldersIn(m, p, m.available.Keys) == Holders(m, p);
    }
    SumNonNegative(m.caps.Keys, Room(m));
  }

  /** A registration that takes effect while a delegation of its validator is open
      brings a holder back that the counter does not know. */
  lemma UndisciplinedMiscounts(m: Manager, v: Address, allocation: Counts, id: Id)
    requires CountsHolders(m) && Step(m, Register(v, allocation)) != m
    requires id in m.delegations && m.delegations[id].validator == v
    ensures var p := m.delegations[id].position;
            var m' := Step(m, Register(v, allocation));
            Count(m'.totalActive, p) < |Holders(m', p)|
  {
    var p := m.delegations[id].position;
    var m' := Step(m, Register(v, allocation));
    Larger(Holders(m, p) + {id}, Holders(m', p));
  }

  lemma Larger(a: set<Id>, b: set<Id>)
    requires a <= b
    ensures |a| <= |b|
  {
    assert b == a + (b - a);
    DisjointSizes(a, b - a);
  }

  lemma CountsOnlyIfDisciplined(m: Manager, a: Action)
    requires CountsHolders(m) && CountsHolders(Step(m, a))
    ensures Disciplined(m, a)
  {
    if a.Register? && Step(m, a) != m && Outstanding(m, a.validator) {
      var id :| id in m.delegations && m.delegations[id].validator == a.validator;
      UndisciplinedMiscounts(m, a.validator, a.allocation, id);
      assert false;
    }
  }

  ghost predicate AlwaysWithinCapacity(caps: map<Name, nat>, actions: seq<Action>) {
    forall k | 0 <= k <= |actions| :: WithinCapacity(Run(Fresh(caps), actions[..k]))
  }

  lemma PrefixOf(m: Manager, actions: seq<Action>, k: nat)
    requires k <= |actions| && FreshIds(m, actions)
    ensures FreshIds(m, actions[..k])
    ensures DisciplinedRun(m, actions) ==> DisciplinedRun(m, actions[..k])
  {
    forall i | 0 <= i < k
      ensures actions[..k][i] == actions[i] && actions[..k][..i] == actions[..i]
    {
    }
  }

  /** The exact condition. With fresh ids, the capacity law holds at every moment of a run if and only if
      no registration takes effect while its validator has outstanding delegations. */
  lemma {:induction false} CapacityLawIff(caps: map<Name, nat>, actions: seq<Action>)
    requires FreshIds(Fresh(caps), actions)
    ensures AlwaysWithinCapacity(caps, actions) <==> DisciplinedRun(Fresh(caps), actions)
  {
    var m := Fresh(caps);
    if DisciplinedRun(m, actions) {
      forall k | 0 <= k <= |actions| ensures WithinCapacity(Run(m, actions[..k])) {
        PrefixOf(m, actions, k);
        CapacityLaw(caps, actions[..k]);
      }
    }
    if AlwaysWithinCapacity(caps, actions) {
      forall k | 0 <= k < |actions| ensures Disciplined(Run(m, actions[..k]), actions[k]) {
        FoldNext(Step, m, actions, k);
        assert WithinCapacity(Run(m, actions[..k])) && WithinCapacity(Run(m, actions[..k + 1]));
        CountsOnlyIfDisciplined(Run(m, actions[..k]), actions[k]);
      }
    }
  }

  /** After such a registration, releasing one of the old holders gives the validator
      more free positions than it was allotted, and the counter goes down for a
      position it never counted. */
  lemma StaleReleaseOverflows(m: Manager, v: Address, allocation: Counts, id: Id)
    requires Step(m, Register(v, allocation)) != m
    requires id in m.delegations && m.delegations[id].validator == v
    ensures var p := m.delegations[id].position;
            var m' := Step(Step(m, Register(v, allocation)), UnregisterDelegator(id));
            && Count(m'.available[v], p) == Count(m'.original[v], p) + 1
            && Count(m'.totalActive, p) == Count(m.totalActive, p) - 1
  {
  }

  const SHARE: Counts := map[3 := 1]
  const CAPS: map<Name, nat> := map[3 := 1]
  const RETURNING: seq<Action> :=
    [Register(7, SHARE), NewPosition(5, 7, 3), UnregisterValidator(7), Register(7, SHARE), UnregisterDelegator(5)]
  const TAKEN := Manager(CAPS, map[7 := map[3 := 0]], map[7 := SHARE], map[3 := 1], map[5 := Held(3, 7)])
  const GONE := Manager(CAPS, map[], map[], map[3 := 0], map[5 := Held(3, 7)])
  const BACK := Manager(CAPS, map[7 := SHARE], map[7 := SHARE], map[3 := 0], map[5 := Held(3, 7)])

  lemma ReturningRun()
    ensures Run(Fresh(CAPS), RETURNING[..2]) == TAKEN
    ensures Step(TAKEN, UnregisterValidator(7)) == GONE
    ensures Step(GONE, Register(7, SHARE)) == BACK
  {
    FoldNext(Step, Fresh(CAPS), RETURNING, 0);
    FoldNext(Step, Fresh(CAPS), RETURNING, 1);
    var m1 := Fresh(CAPS).(available := map[7 := SHARE], original := map[7 := SHARE]);
    assert Step(Fresh(CAPS), Register(7, SHARE)) == m1;
    assert SHARE[3 := 0] == map[3 := 0];
    assert m1.available[7 := map[3 := 0]] == map[7 := map[3 := 0]];
    assert Take(m1, 5, 7, 3) == TAKEN;
    var m := DropValidator(TAKEN, 7);
    assert m.available == map[] && m.original == map[];
    assert Subtracted(TAKEN.totalActive, TAKEN.available[7], TAKEN.original[7]) == map[3 := 0];
  }

  /** Without the discipline the capacity law fails: a validator that comes back
      while an old delegation of it is open ends with more free positions than
      it was allotted, and the counter of its position is negative. */
  lemma ReturningValidatorBreaksCapacity()
    ensures var m := Run(Fresh(CAPS), RETURNING);
            && 7 in m.available && Count(m.available[7], 3) == 2
            && 7 in m.original && Count(m.original[7], 3) == 1
            && Count(m.totalActive, 3) == -1
  {
    ReturningRun();
    FoldNext(Step, Fresh(CAPS), RETURNING, 2);
    FoldNext(Step, Fresh(CAPS), RETURNING, 3);
    FoldNext(Step, Fresh(CAPS), RETURNING, 4);
    assert RETURNING[..5] == RETURNING;
  }
}
