/** Slots and money over whole runs: the lifecycle refines the optimistic counter and conserves every unit. */
module Conservation {
  import opened Sequences
  import opened Costs
  import opened Calls
  import opened Lifecycle
  import OC = OptimisticCounter

  // ---- The slot counter ----

  function PhaseOf(stage: Stage): OC.Phase {
    match stage
    case Deducted => OC.Waiting
    case OverLimit => OC.OverLimit
    case Placing | Live | Charged => OC.Granted
    case Unplaced | Refunded | Released | Merged | Settled => OC.Finished
  }

  /** The counter protocol inside a state. */
  function Slots(s: State): OC.Counter {
    OC.Counter(s.slots, seq(|s.calls|, i requires 0 <= i < |s.calls| => PhaseOf(s.calls[i].stage)))
  }

  /** The counter step a lifecycle step performs, if it touches the counter at all. */
  function CounterStep(step: Step): Option<OC.Step> {
    match step
    case PreDeduct(_, _) => Some(OC.Arrive)
    case AcquireSlot(i) => Some(OC.Increment(i))
    case UndoSlot(i) => Some(OC.Undo(i))
    case PlacementFails(i) => Some(OC.Release(i))
    case ReleaseSlot(i, _) => Some(OC.Release(i))
    case _ => None
  }

  /** The phase a call's own step leaves it in. */
  lemma PhaseMoves(c: Call, step: Step, room: bool)
    requires OnceGuards(c) && CallEnabled(c, step)
    ensures var after := PhaseOf(CallAfter(c, step, room).stage);
            match step
            case AcquireSlot(_) => PhaseOf(c.stage) == OC.Waiting && after == if room then OC.Granted else OC.OverLimit
            case UndoSlot(_) => PhaseOf(c.stage) == OC.OverLimit && after == OC.Finished
            case PlacementFails(_) => PhaseOf(c.stage) == OC.Granted && after == OC.Finished
            case ReleaseSlot(_, _) => PhaseOf(c.stage) == OC.Granted && after == OC.Finished
            case _ => after == PhaseOf(c.stage)
  {
    hide Measured, SettledCost, React;
    if Calling(step) {
      CallerStands(c, step);
      EffectOn(c, step);
      CallingShows(c, step, room);
      hide OnceGuards, CallAfter, Effect, At;
    }
  }

  /** Every step of the lifecycle is a step of the counter protocol or leaves it alone. */
  lemma StepRefinesCounter(cfg: Config, s: State, step: Step)
    requires AllSound(s) && Enabled(cfg, s, step)
    ensures var next := Slots(Apply(cfg, s, step));
            match CounterStep(step)
            case Some(cs) => OC.Enabled(Slots(s), cs) && next == OC.Apply(cfg.maxConcurrent, Slots(s), cs)
            case None => next == Slots(s)
  {
    hide CallAfter, CallEnabled, NewCall, PreDeductAmount, Credit, PhaseOf, OnceGuards, MapGuards, Counted;
    match step
    case PreDeduct(aRate, bRate) =>
      assert PhaseOf(NewAttempt(aRate, bRate).stage) == OC.Waiting by { FreshWaits(aRate, bRate); }
    case Topup(_) | Deduct(_) =>
    case _ => PhaseMoves(s.calls[step.i], step, s.slots + 1 <= cfg.maxConcurrent);
  }

  lemma FreshWaits(aRate: int, bRate: int)
    ensures PhaseOf(NewAttempt(aRate, bRate).stage) == OC.Waiting
  {
  }

  /** Over every interleaving the slot counter is exactly grants held plus undos outstanding. */
  lemma {:induction false} RunKeepsSlots(cfg: Config, s: State, steps: seq<Step>)
    requires AllSound(s) && OC.Accounted(cfg.maxConcurrent, Slots(s)) && Possible(cfg, s, steps)
    ensures OC.Accounted(cfg.maxConcurrent, Slots(Run(cfg, s, steps)))
    decreases |steps|
  {
    hide Apply, Enabled, Slots, AllSound, OC.Accounted, OC.Apply, OC.Enabled;
    if steps != [] {
      ApplyKeepsSound(cfg, s, steps[0]);
      StepKeepsSlots(cfg, s, steps[0]);
      RunKeepsSlots(cfg, Apply(cfg, s, steps[0]), steps[1..]);
    }
  }

  lemma StepKeepsSlots(cfg: Config, s: State, step: Step)
    requires AllSound(s) && OC.Accounted(cfg.maxConcurrent, Slots(s)) && Enabled(cfg, s, step)
    ensures OC.Accounted(cfg.maxConcurrent, Slots(Apply(cfg, s, step)))
  {
    hide Apply, Enabled, Slots, AllSound, OC.Accounted, OC.Apply, OC.Enabled;
    StepRefinesCounter(cfg, s, step);
    if CounterStep(step).Some? {
      OC.ApplyKeepsAccounted(cfg.maxConcurrent, Slots(s), CounterStep(step).value);
    }
  }

  // ---- Money ----

  /** What of a call's money is off the balance: its open hold, or its cost once it is billed. */
  function Stake(c: Call): int {
    if Billed(c.stage) then c.cost else c.record.preDeductAmount
  }

  /** No money appears or disappears. */
  ghost predicate Balanced(cfg: Config, s: State) {
    s.balance + Sum(s.calls, Stake) == cfg.opening + s.topups - s.deductions
  }

  lemma StakeMoves(c: Call, step: Step, room: bool)
    requires Sound(c) && CallEnabled(c, step)
    ensures Stake(CallAfter(c, step, room)) == Stake(c) - Credit(c, CallAfter(c, step, room), step)
  {
    hide Measured, SettledCost;
    if Calling(step) {
      CallerStands(c, step);
      CallingShows(c, step, room);
      hide OnceGuards, MapGuards, CallAfter, At;
    } else if step.RunnerTakes? {
      hide React, Sound;
      ReactionFrame(c.goroutine.runner, c.record, step.input, step.now);
    } else if step.Refund? {
      RefundCostsNothing(c);
    }
  }

  lemma RefundCostsNothing(c: Call)
    requires Sound(c) && c.stage.Unplaced?
    ensures c.cost == 0
  {
  }

  lemma ApplyKeepsBalanced(cfg: Config, s: State, step: Step)
    requires AllSound(s) && Balanced(cfg, s) && Enabled(cfg, s, step)
    ensures Balanced(cfg, Apply(cfg, s, step))
  {
    hide Sound, CallAfter, CallEnabled, Credit, Sum;
    match step
    case PreDeduct(aRate, bRate) => SumAppend(s.calls, NewAttempt(aRate, bRate), Stake);
    case Topup(_) | Deduct(_) =>
    case _ =>
      hide Stake;
      var c := s.calls[step.i];
      var after := CallAfter(c, step, s.slots + 1 <= cfg.maxConcurrent);
      StakeMoves(c, step, s.slots + 1 <= cfg.maxConcurrent);
      SumUpdate(s.calls, step.i, after, Stake);
  }

  lemma {:induction false} RunKeepsBalanced(cfg: Config, s: State, steps: seq<Step>)
    requires AllSound(s) && Balanced(cfg, s) && Possible(cfg, s, steps)
    ensures Balanced(cfg, Run(cfg, s, steps))
    decreases |steps|
  {
    hide Apply, Enabled, AllSound, Balanced;
    if steps != [] {
      ApplyKeepsSound(cfg, s, steps[0]);
      ApplyKeepsBalanced(cfg, s, steps[0]);
      RunKeepsBalanced(cfg, Apply(cfg, s, steps[0]), steps[1..]);
    }
  }

  /**
    In every reachable sub-step state: balance plus open holds plus settled costs is what came
    in, the slot counter is grants plus outstanding undos, and grants stay within the limit.
   */
  lemma EverythingAccountedFor(cfg: Config, steps: seq<Step>)
    requires Possible(cfg, Initial(cfg), steps)
    ensures var s := Run(cfg, Initial(cfg), steps);
            && s.balance + Sum(s.calls, Stake) == cfg.opening + s.topups - s.deductions
            && s.slots == OC.Held(Slots(s)) + OC.Pending(Slots(s))
            && 0 <= OC.Held(Slots(s)) <= cfg.maxConcurrent
  {
    hide Possible, Run;
    assert AllSound(Initial(cfg));
    RunKeepsSlots(cfg, Initial(cfg), steps);
    RunKeepsBalanced(cfg, Initial(cfg), steps);
    OC.UnitsSplit(Slots(Run(cfg, Initial(cfg), steps)));
  }

  /** In a reachable state, releasing a slot never meets the floor at zero. */
  lemma ReleaseNeverFloors(cfg: Config, steps: seq<Step>, step: Step)
    requires Possible(cfg, Initial(cfg), steps)
    requires step.PlacementFails? || step.ReleaseSlot?
    requires Enabled(cfg, Run(cfg, Initial(cfg), steps), step)
    ensures var s := Run(cfg, Initial(cfg), steps);
            s.slots >= 1 && Apply(cfg, s, step).slots == s.slots - 1
  {
    hide Possible, Run;
    RunKeepsSlots(cfg, Initial(cfg), steps);
    RunKeepsSound(cfg, Initial(cfg), steps);
    var s := Run(cfg, Initial(cfg), steps);
    StepRefinesCounter(cfg, s, step);
    OC.FloorUnreachable(cfg.maxConcurrent, Slots(s), step.i);
  }

  predicate Done(c: Call) { c.stage.Refunded? || c.stage.Settled? }

  /**
    When every attempt has ended, no slot is left behind and the balance differs from what came
    in by the settled costs alone: a failed InitiateCallback has no net effect on either.
   */
  lemma QuiescentState(cfg: Config, steps: seq<Step>)
    requires Possible(cfg, Initial(cfg), steps)
    requires forall c :: c in Run(cfg, Initial(cfg), steps).calls ==> Done(c)
    ensures var s := Run(cfg, Initial(cfg), steps);
            && s.slots == 0
            && s.balance + Sum(s.calls, CostIfSettled) == cfg.opening + s.topups - s.deductions
  {
    hide Possible, Run;
    var s := Run(cfg, Initial(cfg), steps);
    EverythingAccountedFor(cfg, steps);
    RunKeepsSound(cfg, Initial(cfg), steps);
    forall i | 0 <= i < |s.calls| ensures Done(s.calls[i]) && Stake(s.calls[i]) == CostIfSettled(s.calls[i]) {
      assert s.calls[i] in s.calls && Sound(s.calls[i]);
    }
    SumAllZero(Slots(s).requests, OC.Grants);
    SumAllZero(Slots(s).requests, OC.Undos);
    SumCongruent(s.calls, s.calls, Stake, CostIfSettled);
  }

  function CostIfSettled(c: Call): int { if c.stage.Settled? then c.cost else 0 }
}
