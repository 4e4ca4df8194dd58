/** How far below its credit limit an account can fall. */
module Overdraft {
  import opened Sequences
  import opened Numbers
  import opened Costs
  import opened Calls
  import opened Lifecycle
  import opened Conservation
  import OC = OptimisticCounter

  /** Combined rates of at most maxRate per minute, legs of at most maxSec seconds. */
  datatype Terms = Terms(maxRate: nat, maxSec: nat)

  /** An attempt whose hold is open. */
  function Open(c: Call): int { if Billed(c.stage) then 0 else 1 }

  /** An InitiateCallback in flight that holds money but no slot. */
  function Slotless(c: Call): int { if c.stage.Deducted? || c.stage.OverLimit? || c.stage.Unplaced? then 1 else 0 }

  function SlotHolder(c: Call): int { OC.Grants(PhaseOf(c.stage)) }

  function InFlight(s: State): int { Sum(s.calls, Slotless) }

  predicate RatesWithin(t: Terms, aRate: int, bRate: int) {
    aRate >= 0 && bRate >= 0 && aRate + bRate <= t.maxRate
  }

  ghost predicate AllRatesWithin(t: Terms, s: State) {
    forall i :: 0 <= i < |s.calls| ==> RatesWithin(t, s.calls[i].record.aLegRate, s.calls[i].record.bLegRate)
  }

  /** A settlement of this call bills both legs within the terms. */
  predicate ChargeWithin(t: Terms, c: Call, step: Step) {
    step.Charge? ==>
      var m := Measured(c.record, step.final, step.now, step.thresholdSec);
      ASeconds(m) <= t.maxSec && BSeconds(m) <= t.maxSec
  }

  /** A step within the terms: rates and billed legs bounded. */
  predicate StepWithin(t: Terms, s: State, step: Step) {
    match step
    case PreDeduct(aRate, bRate) => RatesWithin(t, aRate, bRate)
    case Charge(i, _, _, _, _) => i < |s.calls| ==> ChargeWithin(t, s.calls[i], step)
    case _ => true
  }

  /** A run within the terms with at most k initiations in flight in each of its states. */
  predicate RunWithin(t: Terms, k: nat, cfg: Config, s: State, steps: seq<Step>)
    requires Possible(cfg, s, steps)
    decreases |steps|
  {
    && InFlight(s) <= k
    && (steps != [] ==> StepWithin(t, s, steps[0]) && RunWithin(t, k, cfg, Apply(cfg, s, steps[0]), steps[1..]))
  }

  /** Deductions aside, each open hold may still overrun once; those of the x already closed have. */
  ghost predicate Covered(t: Terms, x: int, cfg: Config, s: State) {
    && s.deductions >= 0
    && s.balance + s.deductions >= -cfg.creditLimit - (x - Sum(s.calls, Open)) * Overrun(t.maxRate, t.maxSec)
  }

  lemma OverrunNonNegative(t: Terms)
    ensures Overrun(t.maxRate, t.maxSec) >= 0
  {
    MulMonotone(t.maxRate, 0, Max(0, CeilDiv(t.maxSec, 60) - PRE_DEDUCT_MINUTES));
  }

  /** Open holds belong to slot holders or to initiations in flight. */
  lemma OpenHoldsBounded(cfg: Config, s: State)
    requires OC.Accounted(cfg.maxConcurrent, Slots(s))
    ensures 0 <= Sum(s.calls, Open) <= cfg.maxConcurrent + InFlight(s)
  {
    SumNonNegative(s.calls, Open);
    SumMonotone(s.calls, Open, HolderOrSlotless);
    SumAdd(s.calls, SlotHolder, Slotless, HolderOrSlotless);
    SumCongruent(s.calls, Slots(s).requests, SlotHolder, OC.Grants);
  }

  function HolderOrSlotless(c: Call): int { SlotHolder(c) + Slotless(c) }

  /** The arithmetic of one closing hold. */
  lemma OneFewerOpen(x: int, open: int, e: int)
    ensures (x - (open - 1)) * e == (x - open) * e + e
  {
  }

  lemma SettlementOverrun(t: Terms, c: Call, step: Step)
    requires Sound(c) && CallEnabled(c, step) && (step.Charge? || step.Refund?)
    requires RatesWithin(t, c.record.aLegRate, c.record.bLegRate)
    requires ChargeWithin(t, c, step)
    ensures Credit(c, CallAfter(c, step, true), step) >= -Overrun(t.maxRate, t.maxSec)
  {
    hide Overrun, ClassifyWastage, CallCost, PreDeductAmount;
    OverrunNonNegative(t);
    if step.Charge? {
      var after := CallAfter(c, step, true);
      assert ASeconds(after.record) >= 0 && BSeconds(after.record) >= 0;
      CostOverHold(ASeconds(after.record), BSeconds(after.record), c.record.aLegRate, c.record.bLegRate,
                   t.maxRate, t.maxSec);
    } else {
      HoldNonNegative(c.record.aLegRate, c.record.bLegRate);
    }
  }

  lemma HoldNonNegative(aRate: int, bRate: int)
    requires aRate >= 0 && bRate >= 0
    ensures PreDeductAmount(aRate, bRate) >= 0
  {
  }

  lemma OpenMoves(c: Call, step: Step, room: bool)
    requires Sound(c) && CallEnabled(c, step)
    ensures Open(CallAfter(c, step, room)) == Open(c) - (if step.Charge? || step.Refund? then 1 else 0)
  {
    hide Measured, SettledCost, React;
    if Calling(step) {
      CallerStands(c, step);
      EffectOn(c, step);
      CallingShows(c, step, room);
      hide OnceGuards, CallAfter, Effect, At;
    }
  }

  lemma RatesStay(t: Terms, c: Call, step: Step, room: bool)
    requires CallEnabled(c, step)
    ensures CallAfter(c, step, room).record.aLegRate == c.record.aLegRate
    ensures CallAfter(c, step, room).record.bLegRate == c.record.bLegRate
  {
    hide SettledCost, React, ClassifyWastage;
    if Calling(step) {
      CallingShows(c, step, room);
      hide CallAfter, At;
    } else if step.RunnerTakes? {
      ReactionFrame(c.goroutine.runner, c.record, step.input, step.now);
    }
  }

  lemma ApplyKeepsRates(t: Terms, cfg: Config, s: State, step: Step)
    requires AllRatesWithin(t, s) && Enabled(cfg, s, step) && StepWithin(t, s, step)
    ensures AllRatesWithin(t, Apply(cfg, s, step))
  {
    hide CallAfter, CallEnabled, Credit;
    if !step.PreDeduct? && !step.Topup? && !step.Deduct? {
      RatesStay(t, s.calls[step.i], step, s.slots + 1 <= cfg.maxConcurrent);
    }
  }

  /** Admission leaves the balance within the credit limit, whatever is open. */
  lemma AdmissionCovers(t: Terms, x: int, cfg: Config, s: State, step: Step)
    requires step.PreDeduct? && Enabled(cfg, s, step) && s.deductions >= 0
    requires Sum(Apply(cfg, s, step).calls, Open) <= x
    ensures Covered(t, x, cfg, Apply(cfg, s, step))
  {
    hide Sum, Overrun, PreDeductAmount;
    OverrunNonNegative(t);
    MulMonotone(Overrun(t.maxRate, t.maxSec), 0, x - Sum(Apply(cfg, s, step).calls, Open));
  }

  /** What a step of one call does to the balance and to the number of open holds. */
  lemma CallStepEffect(t: Terms, cfg: Config, s: State, step: Step)
    requires AllSound(s) && AllRatesWithin(t, s)
    requires Enabled(cfg, s, step) && StepWithin(t, s, step)
    requires !step.PreDeduct? && !step.Topup? && !step.Deduct?
    ensures var pays := step.Charge? || step.Refund?;
            && Sum(Apply(cfg, s, step).calls, Open) == Sum(s.calls, Open) - (if pays then 1 else 0)
            && Apply(cfg, s, step).balance - s.balance >= (if pays then -Overrun(t.maxRate, t.maxSec) else 0)
            && Apply(cfg, s, step).deductions == s.deductions
  {
    hide Sound;
    assert Sound(s.calls[step.i]);
    hide Sum, CallAfter, Overrun, Measured, AllSound, AllRatesWithin, StepWithin, Open, Credit, CallEnabled;
    var c := s.calls[step.i];
    var room := s.slots + 1 <= cfg.maxConcurrent;
    var after := CallAfter(c, step, room);
    OpenMoves(c, step, room);
    SumUpdate(s.calls, step.i, after, Open);
    if step.Charge? || step.Refund? {
      SettlementCreditAt(t, s, step, room);
    } else {
      NoCredit(c, after, step);
    }
  }

  /** A step of one call closes its hold exactly when it pays out, losing at most one overrun. */
  lemma CallStepCovers(t: Terms, x: int, cfg: Config, s: State, step: Step)
    requires AllSound(s) && AllRatesWithin(t, s) && Covered(t, x, cfg, s)
    requires Enabled(cfg, s, step) && StepWithin(t, s, step)
    requires !step.PreDeduct? && !step.Topup? && !step.Deduct?
    ensures Covered(t, x, cfg, Apply(cfg, s, step))
  {
    hide Sum, Overrun, AllSound, AllRatesWithin, StepWithin, Open, Enabled, Apply;
    CallStepEffect(t, cfg, s, step);
    OneFewerOpen(x, Sum(s.calls, Open), Overrun(t.maxRate, t.maxSec));
  }

  lemma ApplyKeepsCovered(t: Terms, x: int, cfg: Config, s: State, step: Step)
    requires AllSound(s) && AllRatesWithin(t, s) && Covered(t, x, cfg, s)
    requires Enabled(cfg, s, step) && StepWithin(t, s, step)
    requires Sum(Apply(cfg, s, step).calls, Open) <= x
    ensures Covered(t, x, cfg, Apply(cfg, s, step))
  {
    if step.PreDeduct? {
      AdmissionCovers(t, x, cfg, s, step);
    } else if !step.Topup? && !step.Deduct? {
      hide Covered;
      CallStepCovers(t, x, cfg, s, step);
    }
  }

  lemma NoCredit(c: Call, after: Call, step: Step)
    requires !step.Charge? && !step.Refund?
    ensures Credit(c, after, step) == 0
  {
  }

  lemma SettlementCreditAt(t: Terms, s: State, step: Step, room: bool)
    requires AllSound(s) && AllRatesWithin(t, s) && StepWithin(t, s, step)
    requires step.Charge? || step.Refund?
    requires step.i < |s.calls| && CallEnabled(s.calls[step.i], step)
    ensures Credit(s.calls[step.i], CallAfter(s.calls[step.i], step, room), step) >= -Overrun(t.maxRate, t.maxSec)
  {
    hide Sound, Overrun, Credit, Measured;
    SettlementOverrun(t, s.calls[step.i], step);
  }

  lemma {:induction false} RunKeepsCovered(t: Terms, k: nat, cfg: Config, s: State, steps: seq<Step>)
    requires Possible(cfg, s, steps) && RunWithin(t, k, cfg, s, steps)
    requires AllSound(s) && AllRatesWithin(t, s) && OC.Accounted(cfg.maxConcurrent, Slots(s))
    requires Covered(t, cfg.maxConcurrent + k, cfg, s)
    ensures Covered(t, cfg.maxConcurrent + k, cfg, Run(cfg, s, steps))
    decreases |steps|
  {
    hide AllSound, AllRatesWithin, OC.Accounted, Covered, Apply, Enabled, StepWithin, Slots, Open;
    if steps != [] {
      var next := Apply(cfg, s, steps[0]);
      ApplyKeepsSound(cfg, s, steps[0]);
      ApplyKeepsRates(t, cfg, s, steps[0]);
      StepKeepsSlots(cfg, s, steps[0]);
      OpenHoldsBounded(cfg, next);
      ApplyKeepsCovered(t, cfg.maxConcurrent + k, cfg, s, steps[0]);
      RunKeepsCovered(t, k, cfg, next, steps[1..]);
    }
  }

  /**
    The overdraft bound: however initiations, calls, settlements, top-ups and admin deductions
    interleave, with at most k initiations in flight the balance, deductions put back, never falls
    more than N + k overruns below -C.
   */
  lemma OverdraftBound(t: Terms, k: nat, cfg: Config, steps: seq<Step>)
    requires cfg.opening >= -cfg.creditLimit
    requires Possible(cfg, Initial(cfg), steps) && RunWithin(t, k, cfg, Initial(cfg), steps)
    ensures var end := Run(cfg, Initial(cfg), steps);
            end.balance + end.deductions
            >= -cfg.creditLimit - (cfg.maxConcurrent + k) * (t.maxRate * Max(0, CeilDiv(t.maxSec, 60) - 30))
  {
    hide Possible, RunWithin, Run;
    var e := Overrun(t.maxRate, t.maxSec);
    var end := Run(cfg, Initial(cfg), steps);
    OverrunNonNegative(t);
    MulMonotone(e, 0, cfg.maxConcurrent + k);
    RunKeepsCovered(t, k, cfg, Initial(cfg), steps);
    SumNonNegative(end.calls, Open);
    MulMonotone(e, cfg.maxConcurrent + k - Sum(end.calls, Open), cfg.maxConcurrent + k);
  }
}
