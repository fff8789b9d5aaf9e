/** Delegators and the allocator together: every delegator holds the position
    that was handed out for it, `Process` runs atomically, and its deferred
    cleanup gives the position back. */
module DelegatorPositions {
  import opened Common
  import opened Delegators
  import opened Lifecycle
  import opened Runs
  import P = Positions

  datatype Simulation = Simulation(
    positions: P.Manager,
    delegators: map<P.Id, Delegator>,      // by PositionID
    givenBack: map<P.Id, nat>)             // how often the cleanup found the position

  datatype Action =
    | Create(id: P.Id, validator: Address, position: P.Name)
    | Process(id: P.Id, block: nat, env: Env)
    | Allocator(action: P.Action)

  function Start(caps: map<P.Name, nat>): Simulation { Simulation(P.Fresh(caps), map[], map[]) }

  function Cleanup(s: Simulation, id: P.Id): Simulation {
    s.(positions := P.GiveBack(s.positions, id),
       givenBack := if id in s.positions.delegations then s.givenBack[id := At(s.givenBack, id) + 1] else s.givenBack)
  }

  /** The hub asks for a position and builds a delegator with it; ids are random and new.
      Only validators come and go through the allocator otherwise. */
  function Step(cfg: Config, s: Simulation, a: Action): Simulation {
    match a
    case Create(id, v, p) =>
      if id in s.delegators || !P.CanTake(s.positions, v, p) then s
      else s.(positions := P.Take(s.positions, id, v, p), delegators := s.delegators[id := NEW])
    case Process(id, block, env) =>
      if id !in s.delegators then s else
      var d := Handle(cfg, s.delegators[id], s.delegators[id].status, block, env).d;
      var s' := s.(delegators := s.delegators[id := d]);
      if Complete(d) then Cleanup(s', id) else s'
    case Allocator(action) =>
      if action.Register? || action.UnregisterValidator? then s.(positions := P.Step(s.positions, action)) else s
  }

  function Stepper(cfg: Config): (Simulation, Action) -> Simulation {
    (s: Simulation, a: Action) => Step(cfg, s, a)
  }

  function Run(cfg: Config, s: Simulation, actions: seq<Action>): Simulation {
    Fold(Stepper(cfg), s, actions)
  }

  /** A position is held exactly until its delegator completes, and given back once. */
  ghost predicate Accounted(s: Simulation) {
    && P.Conserved(s.positions)
    && (forall id :: id in s.positions.delegations <==> id in s.delegators && !Complete(s.delegators[id]))
    && (forall id :: At(s.givenBack, id) == if id in s.delegators && Complete(s.delegators[id]) then 1 else 0)
  }

  /** What the three kinds of action do: a free position is handed out to a new pending delegator, a known one
      runs the handler of its own status, and only validators come and go otherwise. */
  lemma StepEffects(cfg: Config, s: Simulation, a: Action)
    ensures a.Create? && a.id !in s.delegators && P.CanTake(s.positions, a.validator, a.position) ==>
              && Step(cfg, s, a).delegators == s.delegators[a.id := NEW]
              && Step(cfg, s, a).positions == P.Step(s.positions, P.NewPosition(a.id, a.validator, a.position))
    ensures a.Process? && a.id in s.delegators ==>
              var d := s.delegators[a.id];
              var d' := Handle(cfg, d, d.status, a.block, a.env).d;
              && Step(cfg, s, a).delegators == s.delegators[a.id := d']
              && Step(cfg, s, a).positions ==
                   if d'.status == ExitSignalled || d'.status == Withdrawn
                   then P.Step(s.positions, P.UnregisterDelegator(a.id)) else s.positions
    ensures a.Allocator? && (a.action.Register? || a.action.UnregisterValidator?) ==>
              Step(cfg, s, a) == s.(positions := P.Step(s.positions, a.action))
  {
    hide P.Take, P.GiveBack, P.Add, P.DropValidator, P.CanTake, Handle;
  }

  /** Completing is final for an atomic `Process`. */
  lemma CompleteStays(cfg: Config, d: Delegator, block: nat, env: Env)
    requires Complete(d)
    ensures Complete(Handle(cfg, d, d.status, block, env).d)
  {
  }

  lemma CreateAccounted(cfg: Config, s: Simulation, a: Action)
    requires Accounted(s) && a.Create?
    ensures Accounted(Step(cfg, s, a))
  {
    hide P.Conserved, Handle;
    if a.id !in s.delegators && P.CanTake(s.positions, a.validator, a.position) {
      P.TakeConserves(s.positions, a.id, a.validator, a.position);
    }
  }

  lemma ProcessAccounted(cfg: Config, s: Simulation, a: Action)
    requires Accounted(s) && a.Process?
    ensures Accounted(Step(cfg, s, a))
  {
    hide P.Conserved, P.GiveBack, Handle;
    P.GiveBackConserves(s.positions, a.id);
    P.GiveBackForgets(s.positions, a.id);
    if a.id in s.delegators && Complete(s.delegators[a.id]) {
      CompleteStays(cfg, s.delegators[a.id], a.block, a.env);
    }
  }

  lemma AllocatorAccounted(cfg: Config, s: Simulation, a: Action)
    requires Accounted(s) && a.Allocator?
    ensures Accounted(Step(cfg, s, a))
  {
    hide P.Conserved, P.Step;
    if a.action.Register? || a.action.UnregisterValidator? {
      P.StepConserves(s.positions, a.action);
      P.ValidatorStepKeepsHolders(s.positions, a.action);
    }
  }

  lemma StepAccounted(cfg: Config, s: Simulation, a: Action)
    requires Accounted(s)
    ensures Accounted(Step(cfg, s, a))
  {
    hide Accounted, Step;
    match a
    case Create(_, _, _) => CreateAccounted(cfg, s, a);
    case Process(_, _, _) => ProcessAccounted(cfg, s, a);
    case Allocator(_) => AllocatorAccounted(cfg, s, a);
  }

  /** Over every run a position is given back at most once, however often the cleanup
      runs, it is gone from the manager from the first `Process` that ends exit
      signalled or withdrawn, and before that it is held. */
  lemma {:induction false} PositionsReturnedOnce(cfg: Config, caps: map<P.Name, nat>, actions: seq<Action>)
    ensures Accounted(Run(cfg, Start(caps), actions))
    decreases |actions|
  {
    if actions == [] {
      P.Conservation(caps, []);
    } else {
      PositionsReturnedOnce(cfg, caps, actions[..|actions| - 1]);
      StepAccounted(cfg, Run(cfg, Start(caps), actions[..|actions| - 1]), actions[|actions| - 1]);
    }
  }
}
