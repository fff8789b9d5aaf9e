/** Delegators and the allocator when handlers and cleanups run late: `Process` reads
    the status without the lock, its deferred cleanup reads it again without the lock,
    and anything may happen in between. */
module DelegatorDispatch {
  import opened Common
  import opened Delegators
  import opened Lifecycle
  import opened Runs
  import opened Transactions
  import P = Positions

  // `releasing` holds the cleanups that have read a final status and have yet to call the allocator.
  datatype Simulation = Simulation(
    positions: P.Manager,
    systems: map<P.Id, System>,            // by PositionID
    releasing: multiset<P.Id>,
    givenBack: map<P.Id, nat>)             // how often a cleanup found the position

  datatype Event =
    | Create(id: P.Id, validator: Address, position: P.Name)
    | Lifecycle(id: P.Id, action: Action)  // a dispatch or a handler of that delegator
    | ReadForCleanup(id: P.Id)
    | Release(id: P.Id)
    | Allocator(call: P.Action)

  function Begin(caps: map<P.Name, nat>): Simulation { Simulation(P.Fresh(caps), map[], multiset{}, map[]) }

  function Released(s: Simulation, id: P.Id): Simulation {
    s.(positions := P.GiveBack(s.positions, id),
       releasing := s.releasing - multiset{id},
       givenBack := if id in s.positions.delegations then s.givenBack[id := At(s.givenBack, id) + 1] else s.givenBack)
  }

  function Next(cfg: Config, s: Simulation, e: Event): Simulation {
    match e
    case Create(id, v, p) =>
      if id in s.systems || !P.CanTake(s.positions, v, p) then s
      else s.(positions := P.Take(s.positions, id, v, p), systems := s.systems[id := START])
    case Lifecycle(id, a) =>
      if id !in s.systems then s else s.(systems := s.systems[id := Step(cfg, s.systems[id], a)])
    case ReadForCleanup(id) =>
      if id in s.systems && Complete(s.systems[id].d) then s.(releasing := s.releasing + multiset{id}) else s
    case Release(id) => if id in s.releasing then Released(s, id) else s
    case Allocator(a) =>
      if a.Register? || a.UnregisterValidator? then s.(positions := P.Step(s.positions, a)) else s
  }

  function Follow(cfg: Config): (Simulation, Event) -> Simulation {
    (s: Simulation, e: Event) => Next(cfg, s, e)
  }

  function Play(cfg: Config, s: Simulation, events: seq<Event>): Simulation { Fold(Follow(cfg), s, events) }

  /** Each cleanup that has read a final status calls the allocator once. */
  lemma OneCleanupOneRelease(cfg: Config, s: Simulation, id: P.Id)
    requires id in s.systems && Complete(s.systems[id].d)
    ensures Next(cfg, s, ReadForCleanup(id)).releasing[id] == s.releasing[id] + 1
    ensures s.releasing[id] > 0 ==>
              && Next(cfg, s, Release(id)).releasing[id] == s.releasing[id] - 1
              && Next(cfg, s, Release(id)).positions == P.Step(s.positions, P.UnregisterDelegator(id))
  {
    hide P.GiveBack;
  }

  // ---------- given back at most once, in every run ----------

  /** Each position handed out is either held or has been given back exactly once. */
  ghost predicate HeldOrReturned(s: Simulation) {
    && P.Conserved(s.positions)
    && (forall id :: id in s.positions.delegations ==> id in s.systems)
    && (forall id :: id in s.releasing ==> id in s.systems)
    && (forall id :: At(s.givenBack, id) == if id in s.systems && id !in s.positions.delegations then 1 else 0)
  }

  lemma CreateReturns(cfg: Config, s: Simulation, e: Event)
    requires HeldOrReturned(s) && e.Create?
    ensures HeldOrReturned(Next(cfg, s, e))
  {
    hide P.Conserved;
    if e.id !in s.systems && P.CanTake(s.positions, e.validator, e.position) {
      P.TakeConserves(s.positions, e.id, e.validator, e.position);
    }
  }

  lemma ReleaseReturns(cfg: Config, s: Simulation, e: Event)
    requires HeldOrReturned(s) && e.Release?
    ensures HeldOrReturned(Next(cfg, s, e))
  {
    hide P.Conserved, P.GiveBack;
    P.GiveBackConserves(s.positions, e.id);
    P.GiveBackForgets(s.positions, e.id);
  }

  lemma AllocatorReturns(cfg: Config, s: Simulation, e: Event)
    requires HeldOrReturned(s) && e.Allocator?
    ensures HeldOrReturned(Next(cfg, s, e))
  {
    hide P.Conserved, P.Step;
    if e.call.Register? || e.call.UnregisterValidator? {
      P.StepConserves(s.positions, e.call);
      P.ValidatorStepKeepsHolders(s.positions, e.call);
    }
  }

  lemma LifecycleReturns(cfg: Config, s: Simulation, e: Event)
    requires HeldOrReturned(s) && (e.Lifecycle? || e.ReadForCleanup?)
    ensures HeldOrReturned(Next(cfg, s, e))
  {
    hide P.Conserved, Step;
  }

  lemma NextReturns(cfg: Config, s: Simulation, e: Event)
    requires HeldOrReturned(s)
    ensures HeldOrReturned(Next(cfg, s, e))
  {
    hide HeldOrReturned, Next;
    match e
    case Create(_, _, _) => CreateReturns(cfg, s, e);
    case Lifecycle(_, _) => LifecycleReturns(cfg, s, e);
    case ReadForCleanup(_) => LifecycleReturns(cfg, s, e);
    case Release(_) => ReleaseReturns(cfg, s, e);
    case Allocator(_) => AllocatorReturns(cfg, s, e);
  }

  /** However late handlers and cleanups run, and however many cleanups read a final
      status, a position is given back at most once and the allocator stays balanced. */
  lemma {:induction false} ReturnedAtMostOnce(cfg: Config, caps: map<P.Name, nat>, events: seq<Event>)
    ensures HeldOrReturned(Play(cfg, Begin(caps), events))
    decreases |events|
  {
    hide P.Conserved, Next;
    if events == [] {
      P.Conservation(caps, []);
    } else {
      ReturnedAtMostOnce(cfg, caps, events[..|events| - 1]);
      NextReturns(cfg, Play(cfg, Begin(caps), events[..|events| - 1]), events[|events| - 1]);
    }
  }

  // ---------- held until complete, and when not ----------

  /** The position is back, or a cleanup is on its way to give it back. */
  predicate Leaving(s: Simulation, id: P.Id) { id !in s.positions.delegations || id in s.releasing }

  ghost predicate HeldUntilComplete(s: Simulation) {
    forall id | id in s.systems :: Leaving(s, id) ==> Complete(s.systems[id].d)
  }

  /** A late handler takes back the final status of a delegator whose position is leaving. */
  predicate UndoesLeaving(cfg: Config, s: Simulation, e: Event) {
    && e.Lifecycle? && e.id in s.systems && Leaving(s, e.id) && e.action.RunHandler?
    && (e.action.read, e.action.block) in s.systems[e.id].inFlight
    && Undoes(cfg, s.systems[e.id].d, e.action.read, e.action.block, e.action.env)
  }

  lemma HandlerHolds(cfg: Config, s: Simulation, e: Event)
    requires HeldUntilComplete(s) && e.Lifecycle?
    ensures HeldUntilComplete(Next(cfg, s, e)) <==> !UndoesLeaving(cfg, s, e)
  {
    hide Handle, Undoes, Complete;
    if e.id in s.systems && e.action.RunHandler? && (e.action.read, e.action.block) in s.systems[e.id].inFlight {
      var sys := s.systems[e.id];
      if Leaving(s, e.id) { CompleteUnlessUndone(cfg, sys.d, e.action.read, e.action.block, e.action.env); }
      assert Next(cfg, s, e).systems[e.id].d == Handle(cfg, sys.d, e.action.read, e.action.block, e.action.env).d;
    }
    var s' := Next(cfg, s, e);
    assert forall id | id in s.systems && id != e.id :: s'.systems[id] == s.systems[id];
    assert forall id :: Leaving(s', id) <==> Leaving(s, id);
  }

  lemma OthersHold(cfg: Config, s: Simulation, e: Event)
    requires HeldOrReturned(s) && HeldUntilComplete(s) && !e.Lifecycle?
    ensures HeldUntilComplete(Next(cfg, s, e))
  {
    hide Next, HeldUntilComplete, HeldOrReturned;
    if e.Create? { CreateHolds(cfg, s, e); } else if e.ReadForCleanup? { ReadHolds(cfg, s, e); }
    else { AllocatorHolds(cfg, s, e); }
  }

  lemma CreateHolds(cfg: Config, s: Simulation, e: Event)
    requires HeldOrReturned(s) && HeldUntilComplete(s) && e.Create?
    ensures HeldUntilComplete(Next(cfg, s, e))
  {
    hide P.Conserved, P.CanTake, Complete;
  }

  lemma ReadHolds(cfg: Config, s: Simulation, e: Event)
    requires HeldUntilComplete(s) && e.ReadForCleanup?
    ensures HeldUntilComplete(Next(cfg, s, e))
  {
    hide Complete;
  }

  lemma AllocatorHolds(cfg: Config, s: Simulation, e: Event)
    requires HeldUntilComplete(s) && (e.Release? || e.Allocator?)
    ensures HeldUntilComplete(Next(cfg, s, e))
  {
    hide P.GiveBack, P.Step, Complete;
    if e.Release? {
      P.GiveBackForgets(s.positions, e.id);
    } else if e.call.Register? || e.call.UnregisterValidator? {
      P.ValidatorStepKeepsHolders(s.positions, e.call);
    }
  }

  ghost predicate AlwaysHeld(cfg: Config, caps: map<P.Name, nat>, events: seq<Event>) {
    forall k | 0 <= k <= |events| :: HeldUntilComplete(Play(cfg, Begin(caps), events[..k]))
  }

  ghost predicate NeverUndone(cfg: Config, caps: map<P.Name, nat>, events: seq<Event>) {
    forall k | 0 <= k < |events| :: !UndoesLeaving(cfg, Play(cfg, Begin(caps), events[..k]), events[k])
  }

  lemma OneMoreEvent(cfg: Config, caps: map<P.Name, nat>, events: seq<Event>, k: nat)
    requires k < |events| && HeldUntilComplete(Play(cfg, Begin(caps), events[..k]))
    ensures HeldUntilComplete(Play(cfg, Begin(caps), events[..k + 1]))
            <==> !UndoesLeaving(cfg, Play(cfg, Begin(caps), events[..k]), events[k])
  {
    hide Next, HeldUntilComplete, HeldOrReturned;
    var s := Play(cfg, Begin(caps), events[..k]);
    FoldNext(Follow(cfg), Begin(caps), events, k);
    ReturnedAtMostOnce(cfg, caps, events[..k]);
    if events[k].Lifecycle? { HandlerHolds(cfg, s, events[k]); } else { OthersHold(cfg, s, events[k]); }
  }

  lemma {:induction false} HeldAfter(cfg: Config, caps: map<P.Name, nat>, events: seq<Event>, k: nat)
    requires NeverUndone(cfg, caps, events) && k <= |events|
    ensures HeldUntilComplete(Play(cfg, Begin(caps), events[..k]))
  {
    if k > 0 {
      HeldAfter(cfg, caps, events, k - 1);
      OneMoreEvent(cfg, caps, events, k - 1);
    }
  }

  /** The exact condition, for every interleaving: each delegator keeps its position until it is complete if and
      only if no late handler takes back the final status of one whose position is already leaving. */
  lemma HeldUntilCompleteIff(cfg: Config, caps: map<P.Name, nat>, events: seq<Event>)
    ensures AlwaysHeld(cfg, caps, events) <==> NeverUndone(cfg, caps, events)
  {
    hide HeldUntilComplete, UndoesLeaving, Play;
    if AlwaysHeld(cfg, caps, events) {
      forall k | 0 <= k < |events| ensures !UndoesLeaving(cfg, Play(cfg, Begin(caps), events[..k]), events[k]) {
        OneMoreEvent(cfg, caps, events, k);
      }
    }
    if NeverUndone(cfg, caps, events) {
      forall k | 0 <= k <= |events| ensures HeldUntilComplete(Play(cfg, Begin(caps), events[..k])) {
        HeldAfter(cfg, caps, events, k);
      }
    }
  }

  // ---------- a run in which a queued delegator has lost its position ----------

  function OpenEnv(block: nat): Env {
    Env(Some(Validation(2, None, 1, 2, 10)), Net(Some(1), Mined(Receipt(block, false), false)), 1, Some(1))
  }

  function GoneEnv(block: nat): Env {
    OpenEnv(block).(validator := Some(Validation(STATUS_EXIT, None, 1, 2, 10)))
  }

  // Three dispatches read pending. The first handler sends, the second finds the validator gone, the cleanup
  // gives the position back, and the third finds the transaction mined and the validator there again.
  function LosingRun(block: nat): seq<Event> {
    [Allocator(P.Register(7, P.SHARE)), Create(5, 7, 3),
     Lifecycle(5, Dispatch(block)), Lifecycle(5, Dispatch(block)), Lifecycle(5, Dispatch(block)),
     Lifecycle(5, RunHandler(Pending, block, OpenEnv(block))),
     Lifecycle(5, RunHandler(Pending, block, GoneEnv(block))),
     ReadForCleanup(5), Release(5),
     Lifecycle(5, RunHandler(Pending, block, OpenEnv(block)))]
  }

  const SENT_ONCE := NEW.(stakingPeriodLength := 1, queuedTx := Tx(1, None, 0))

  lemma LosingHandlers(cfg: Config)
    ensures var block := QueueBlock(cfg);
            && Handle(cfg, NEW, Pending, block, OpenEnv(block)).d == SENT_ONCE
            && Handle(cfg, SENT_ONCE, Pending, block, GoneEnv(block)).d == SENT_ONCE.(status := Withdrawn)
            && Handle(cfg, SENT_ONCE.(status := Withdrawn), Pending, block, OpenEnv(block)).d.status == Queued
  {
  }

  /** The first two events give delegator 5 a position. */
  lemma LosingStart(cfg: Config, s1: Simulation, s2: Simulation)
    requires s1 == Next(cfg, Begin(P.CAPS), Allocator(P.Register(7, P.SHARE)))
    requires s2 == Next(cfg, s1, Create(5, 7, 3))
    ensures s2.systems == map[5 := START] && s2.releasing == multiset{} && 5 in s2.positions.delegations
  {
  }

  lemma ThreeDispatches(cfg: Config, block: nat, s: Simulation, s1: Simulation, s2: Simulation, s3: Simulation)
    requires 5 in s.systems && s.systems[5] == START
    requires s1 == Next(cfg, s, Lifecycle(5, Dispatch(block))) && s2 == Next(cfg, s1, Lifecycle(5, Dispatch(block)))
    requires s3 == Next(cfg, s2, Lifecycle(5, Dispatch(block)))
    ensures 5 in s3.systems && s3.systems[5].d == NEW && s3.systems[5].inFlight[(Pending, block)] == 3
  {
  }

  /** One pending handler of delegator 5. */
  lemma PendingHandler(cfg: Config, block: nat, env: Env, s: Simulation, s1: Simulation)
    requires 5 in s.systems && s.systems[5].inFlight[(Pending, block)] > 0
    requires s1 == Next(cfg, s, Lifecycle(5, RunHandler(Pending, block, env)))
    ensures 5 in s1.systems && s1.systems[5].d == Handle(cfg, s.systems[5].d, Pending, block, env).d
    ensures s1.systems[5].inFlight[(Pending, block)] == s.systems[5].inFlight[(Pending, block)] - 1
    ensures s1.positions == s.positions
  {
    hide Handle;
  }

  /** A cleanup that reads a final status and gives the position back. */
  lemma CleanupGivesBack(cfg: Config, s: Simulation, s1: Simulation, s2: Simulation)
    requires 5 in s.systems && Complete(s.systems[5].d)
    requires s1 == Next(cfg, s, ReadForCleanup(5)) && s2 == Next(cfg, s1, Release(5))
    ensures s2.systems == s.systems && 5 !in s2.positions.delegations
  {
    hide P.GiveBack;
    P.GiveBackForgets(s1.positions, 5);
  }

  /** In every configuration some run ends with a queued delegator whose position is already gone. */
  lemma QueuedWithoutPosition(cfg: Config)
    ensures var s := Play(cfg, Begin(P.CAPS), LosingRun(QueueBlock(cfg)));
            5 in s.systems && s.systems[5].d.status == Queued && 5 !in s.positions.delegations
  {
    hide Next, Handle, QueueBlock, Complete;
    var block := QueueBlock(cfg);
    var t := Trace(Follow(cfg), Begin(P.CAPS), LosingRun(block), 10);
    LosingHandlers(cfg);
    assert t[0 + 1] == Next(cfg, t[0], LosingRun(block)[0]) && t[1 + 1] == Next(cfg, t[1], LosingRun(block)[1]);
    LosingStart(cfg, t[1], t[2]);
    assert t[2 + 1] == Next(cfg, t[2], LosingRun(block)[2]) && t[3 + 1] == Next(cfg, t[3], LosingRun(block)[3]);
    assert t[4 + 1] == Next(cfg, t[4], LosingRun(block)[4]);
    ThreeDispatches(cfg, block, t[2], t[3], t[4], t[5]);
    assert t[5 + 1] == Next(cfg, t[5], LosingRun(block)[5]) && t[6 + 1] == Next(cfg, t[6], LosingRun(block)[6]);
    PendingHandler(cfg, block, OpenEnv(block), t[5], t[6]);
    PendingHandler(cfg, block, GoneEnv(block), t[6], t[7]);
    assert t[7 + 1] == Next(cfg, t[7], LosingRun(block)[7]) && t[8 + 1] == Next(cfg, t[8], LosingRun(block)[8]);
    WithdrawnIsComplete(t[7].systems[5].d);
    CleanupGivesBack(cfg, t[7], t[8], t[9]);
    assert t[9 + 1] == Next(cfg, t[9], LosingRun(block)[9]);
    PendingHandler(cfg, block, OpenEnv(block), t[9], t[10]);
  }

  lemma WithdrawnIsComplete(d: Delegator)
    requires d.status == Withdrawn
    ensures Complete(d)
  {
  }
}
