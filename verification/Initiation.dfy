/**
  InitiateCallback as one uninterrupted step: what its compensations amount to, and the
  tighter overdraft bound that holds when initiations do not interleave.
 */
module Initiation {
  import opened Sequences
  import opened Numbers
  import opened Costs
  import opened Calls
  import opened Lifecycle
  import opened Conservation
  import opened Overdraft
  import OC = OptimisticCounter

  /** The saga's accesses once money was held: placed says whether gateways and insert succeed. */
  function Saga(cfg: Config, s: State, aRate: int, bRate: int, placed: bool): seq<Step> {
    var i := |s.calls|;
    [PreDeduct(aRate, bRate), AcquireSlot(i)]
    + (if s.slots >= cfg.maxConcurrent then [UndoSlot(i), Refund(i)]
       else if placed then [Store(i)]
       else [PlacementFails(i), Refund(i)])
  }

  lemma RunFirst(cfg: Config, s: State, step: Step, rest: seq<Step>)
    requires Enabled(cfg, s, step) && Possible(cfg, Apply(cfg, s, step), rest)
    ensures Possible(cfg, s, [step] + rest)
    ensures Run(cfg, s, [step] + rest) == Run(cfg, Apply(cfg, s, step), rest)
  {
    hide Enabled, Apply;
    assert ([step] + rest)[1..] == rest;
  }

  /** The attempt a saga leaves behind. */
  function Outcome(cfg: Config, s: State, aRate: int, bRate: int, placed: bool): Call {
    var attempt := NewAttempt(aRate, bRate);
    if s.slots >= cfg.maxConcurrent then attempt.(stage := Refunded, finalizes := 1)
    else if placed then attempt.(stage := Live, inMap := true, granted := true)
    else attempt.(stage := Refunded, granted := true, finalizes := 1, releases := 1)
  }

  /** The state after an uninterrupted saga: a live call with hold and slot, or nothing but its trace. */
  function Initiated(cfg: Config, s: State, aRate: int, bRate: int, placed: bool): State {
    var live := s.slots < cfg.maxConcurrent && placed;
    State(s.balance - (if live then PreDeductAmount(aRate, bRate) else 0), s.slots + (if live then 1 else 0),
          s.calls + [Outcome(cfg, s, aRate, bRate, placed)], s.topups, s.deductions)
  }

  lemma OneStep(cfg: Config, s: State, step: Step)
    requires s.calls != [] && Enabled(cfg, s, step)
    requires !step.PreDeduct? && !step.Topup? && !step.Deduct? && step.i == |s.calls| - 1
    ensures var c := s.calls[|s.calls| - 1];
            var after := CallAfter(c, step, s.slots + 1 <= cfg.maxConcurrent);
            Apply(cfg, s, step) == State(s.balance + Credit(c, after, step), s.slots + SlotChange(s.slots, step),
                                         s.calls[..|s.calls| - 1] + [after], s.topups, s.deductions)
  {
    hide CallAfter, Credit, CallEnabled;
    var last := |s.calls| - 1;
    var after := CallAfter(s.calls[last], step, s.slots + 1 <= cfg.maxConcurrent);
    assert s.calls[last := after] == s.calls[..last] + [after];
  }

  /** The saga's first two accesses: the hold, and the increment with or without a grant. */
  lemma SagaBegins(cfg: Config, s: State, aRate: int, bRate: int) returns (s1: State, s2: State)
    requires Enabled(cfg, s, PreDeduct(aRate, bRate))
    ensures s1 == Apply(cfg, s, PreDeduct(aRate, bRate))
    ensures Enabled(cfg, s1, AcquireSlot(|s.calls|)) && s2 == Apply(cfg, s1, AcquireSlot(|s.calls|))
    ensures var attempt := NewAttempt(aRate, bRate);
            s2 == State(s.balance - PreDeductAmount(aRate, bRate), s.slots + 1,
                        s.calls + [if s.slots >= cfg.maxConcurrent then attempt.(stage := OverLimit)
                                   else attempt.(stage := Placing, granted := true)], s.topups, s.deductions)
  {
    hide PreDeductAmount;
    s1 := Apply(cfg, s, PreDeduct(aRate, bRate));
    s2 := Apply(cfg, s1, AcquireSlot(|s.calls|));
    OneStep(cfg, s1, AcquireSlot(|s.calls|));
    assert s1.calls[..|s.calls|] == s.calls;
  }

  /**
    Either the call is live with its hold and slot taken, or the saga has undone itself: balance
    and slots are what they were before it began.
   */
  lemma SagaEffect(cfg: Config, s: State, aRate: int, bRate: int, placed: bool)
    requires Enabled(cfg, s, PreDeduct(aRate, bRate)) && s.slots >= 0
    ensures Possible(cfg, s, Saga(cfg, s, aRate, bRate, placed))
    ensures Run(cfg, s, Saga(cfg, s, aRate, bRate, placed)) == Initiated(cfg, s, aRate, bRate, placed)
  {
    var i := |s.calls|;
    var s1, s2 := SagaBegins(cfg, s, aRate, bRate);
    assert s2.calls[..i] == s.calls;
    hide PreDeductAmount, React, Measured, SettledCost, Moved, At;
    if s.slots >= cfg.maxConcurrent {
      OneStep(cfg, s2, UndoSlot(i));
      TwoMore(cfg, s2, UndoSlot(i), Refund(i));
      FourSteps(cfg, s, PreDeduct(aRate, bRate), AcquireSlot(i), [UndoSlot(i), Refund(i)]);
    } else if placed {
      OneStep(cfg, s2, Store(i));
      RunFirst(cfg, s2, Store(i), []);
      FourSteps(cfg, s, PreDeduct(aRate, bRate), AcquireSlot(i), [Store(i)]);
    } else {
      OneStep(cfg, s2, PlacementFails(i));
      TwoMore(cfg, s2, PlacementFails(i), Refund(i));
      FourSteps(cfg, s, PreDeduct(aRate, bRate), AcquireSlot(i), [PlacementFails(i), Refund(i)]);
    }
  }

  lemma TwoMore(cfg: Config, s: State, a: Step, b: Step)
    requires s.calls != [] && Enabled(cfg, s, a) && Enabled(cfg, Apply(cfg, s, a), b)
    requires b.Refund? && b.i == |s.calls| - 1
    requires |Apply(cfg, s, a).calls| == |s.calls|
    ensures Possible(cfg, s, [a, b])
    ensures var m := Apply(cfg, s, a);
            var c := m.calls[|m.calls| - 1];
            Run(cfg, s, [a, b])
            == State(m.balance + c.record.preDeductAmount - c.cost, m.slots,
                     m.calls[..|m.calls| - 1] + [c.(stage := Refunded, finalizes := c.finalizes + 1)],
                     m.topups, m.deductions)
  {
    var m := Apply(cfg, s, a);
    OneStep(cfg, m, b);
    hide Apply, Enabled;
    RunFirst(cfg, m, b, []);
    RunFirst(cfg, s, a, [b]);
    assert [a] + [b] == [a, b] && [b] + [] == [b];
  }

  lemma FourSteps(cfg: Config, s: State, a: Step, b: Step, rest: seq<Step>)
    requires Enabled(cfg, s, a) && Enabled(cfg, Apply(cfg, s, a), b)
    requires Possible(cfg, Apply(cfg, Apply(cfg, s, a), b), rest)
    ensures Possible(cfg, s, [a, b] + rest)
    ensures Run(cfg, s, [a, b] + rest) == Run(cfg, Apply(cfg, Apply(cfg, s, a), b), rest)
  {
    hide Apply, Enabled;
    RunFirst(cfg, Apply(cfg, s, a), b, rest);
    RunFirst(cfg, s, a, [b] + rest);
    assert [a] + ([b] + rest) == [a, b] + rest;
  }

  // ---- Runs in which every initiation is one step ----

  datatype Move =
    | Initiate(aRate: int, bRate: int, placed: bool)
    | Other(step: Step)

  predicate PartOfSaga(step: Step) {
    step.PreDeduct? || step.AcquireSlot? || step.UndoSlot? || step.PlacementFails? || step.Refund? || step.Store?
  }

  /** Moves within the terms; an initiation the funds do not cover is refused and changes nothing. */
  predicate Allowed(t: Terms, cfg: Config, s: State, move: Move) {
    match move
    case Initiate(aRate, bRate, _) => RatesWithin(t, aRate, bRate)
    case Other(step) => !PartOfSaga(step) && Enabled(cfg, s, step) && StepWithin(t, s, step)
  }

  function Perform(t: Terms, cfg: Config, s: State, move: Move): State
    requires Allowed(t, cfg, s, move)
  {
    match move
    case Initiate(aRate, bRate, placed) =>
      if Enabled(cfg, s, PreDeduct(aRate, bRate)) then Initiated(cfg, s, aRate, bRate, placed) else s
    case Other(step) => Apply(cfg, s, step)
  }

  /** No initiation is in flight and each open hold can still overrun once. */
  ghost predicate Steady(t: Terms, cfg: Config, s: State) {
    && AllSound(s) && AllRatesWithin(t, s)
    && OC.Accounted(cfg.maxConcurrent, Slots(s))
    && InFlight(s) == 0
    && Covered(t, cfg.maxConcurrent, cfg, s)
  }

  lemma SteadySlots(t: Terms, cfg: Config, s: State)
    requires Steady(t, cfg, s)
    ensures s.slots >= 0
  {
    OC.UnitsSplit(Slots(s));
  }

  lemma SagaKeepsSteady(t: Terms, cfg: Config, s: State, aRate: int, bRate: int, placed: bool)
    requires Steady(t, cfg, s)
    requires RatesWithin(t, aRate, bRate) && Enabled(cfg, s, PreDeduct(aRate, bRate))
    ensures Steady(t, cfg, Initiated(cfg, s, aRate, bRate, placed))
  {
    SteadySlots(t, cfg, s);
    hide Possible, Run, OC.Accounted, Saga, Sound, PreDeductAmount, Overrun, Slots, Sum;
    SagaEffect(cfg, s, aRate, bRate, placed);
    var saga := Saga(cfg, s, aRate, bRate, placed);
    var next := Run(cfg, s, saga);
    var last := Outcome(cfg, s, aRate, bRate, placed);
    RunKeepsSound(cfg, s, saga);
    RunKeepsSlots(cfg, s, saga);
    SumAppend(s.calls, last, Slotless);
    SumAppend(s.calls, last, Open);
    OpenHoldsBounded(cfg, next);
    OverrunNonNegative(t);
    MulMonotone(Overrun(t.maxRate, t.maxSec), 0, cfg.maxConcurrent - Sum(next.calls, Open));
  }

  lemma OtherKeepsInFlight(cfg: Config, s: State, step: Step)
    requires AllSound(s) && Enabled(cfg, s, step) && !PartOfSaga(step)
    ensures InFlight(Apply(cfg, s, step)) == InFlight(s)
  {
    hide Sum, CallAfter, CallEnabled, Slotless, Sound;
    if !step.Topup? && !step.Deduct? {
      var c, room := s.calls[step.i], s.slots + 1 <= cfg.maxConcurrent;
      OtherKeepsSlotless(c, step, room);
      SumUpdate(s.calls, step.i, CallAfter(c, step, room), Slotless);
    }
  }

  lemma OtherKeepsSlotless(c: Call, step: Step, room: bool)
    requires Sound(c) && CallEnabled(c, step) && !PartOfSaga(step)
    ensures Slotless(CallAfter(c, step, room)) == Slotless(c)
  {
    hide React, Measured, SettledCost;
    if Calling(step) {
      CallerStands(c, step);
      EffectOn(c, step);
      CallingShows(c, step, room);
      hide OnceGuards, CallAfter, Effect, At;
    }
  }

  lemma MoveKeepsSteady(t: Terms, cfg: Config, s: State, move: Move)
    requires Steady(t, cfg, s) && Allowed(t, cfg, s, move)
    ensures Steady(t, cfg, Perform(t, cfg, s, move))
  {
    match move
    case Initiate(aRate, bRate, placed) =>
      hide Steady, Enabled;
      if Enabled(cfg, s, PreDeduct(aRate, bRate)) {
        SagaKeepsSteady(t, cfg, s, aRate, bRate, placed);
      }
    case Other(step) =>
      hide AllSound, AllRatesWithin, OC.Accounted, Covered, Apply, Enabled, StepWithin, Slots, Open;
      ApplyKeepsSound(cfg, s, step);
      ApplyKeepsRates(t, cfg, s, step);
      StepKeepsSlots(cfg, s, step);
      OtherKeepsInFlight(cfg, s, step);
      OpenHoldsBounded(cfg, Apply(cfg, s, step));
      ApplyKeepsCovered(t, cfg.maxConcurrent, cfg, s, step);
  }

  predicate Moves(t: Terms, cfg: Config, s: State, moves: seq<Move>)
    decreases |moves|
  {
    moves == [] || (Allowed(t, cfg, s, moves[0]) && Moves(t, cfg, Perform(t, cfg, s, moves[0]), moves[1..]))
  }

  function PerformAll(t: Terms, cfg: Config, s: State, moves: seq<Move>): State
    requires Moves(t, cfg, s, moves)
    decreases |moves|
  {
    if moves == [] then s else PerformAll(t, cfg, Perform(t, cfg, s, moves[0]), moves[1..])
  }

  lemma {:induction false} MovesKeepSteady(t: Terms, cfg: Config, s: State, moves: seq<Move>)
    requires Steady(t, cfg, s) && Moves(t, cfg, s, moves)
    ensures Steady(t, cfg, PerformAll(t, cfg, s, moves))
    decreases |moves|
  {
    hide Steady, Perform, Allowed;
    if moves != [] {
      MoveKeepsSteady(t, cfg, s, moves[0]);
      MovesKeepSteady(t, cfg, Perform(t, cfg, s, moves[0]), moves[1..]);
    }
  }

  lemma InitiallySteady(t: Terms, cfg: Config)
    requires cfg.opening >= -cfg.creditLimit
    ensures Steady(t, cfg, Initial(cfg))
  {
    OverrunNonNegative(t);
    MulMonotone(Overrun(t.maxRate, t.maxSec), 0, cfg.maxConcurrent);
  }

  /** With initiations as single steps the balance, deductions put back, stays within N overruns of the limit. */
  lemma AtomicOverdraftBound(t: Terms, cfg: Config, moves: seq<Move>)
    requires cfg.opening >= -cfg.creditLimit
    requires Moves(t, cfg, Initial(cfg), moves)
    ensures var end := PerformAll(t, cfg, Initial(cfg), moves);
            end.balance + end.deductions
            >= -cfg.creditLimit - cfg.maxConcurrent * (t.maxRate * Max(0, CeilDiv(t.maxSec, 60) - 30))
  {
    hide Moves, PerformAll;
    InitiallySteady(t, cfg);
    MovesKeepSteady(t, cfg, Initial(cfg), moves);
    var end := PerformAll(t, cfg, Initial(cfg), moves);
    var e := Overrun(t.maxRate, t.maxSec);
    OverrunNonNegative(t);
    SumNonNegative(end.calls, Open);
    MulMonotone(e, cfg.maxConcurrent - Sum(end.calls, Open), cfg.maxConcurrent);
  }
}
