/**
  The exact worst case when initiations interleave. Without a slot or without an initiation in
  flight nothing can be charged; otherwise all N + k holds can overrun, and some run makes them.
 */
module OverdraftSharp {
  import opened Sequences
  import opened Numbers
  import opened Costs
  import opened Calls
  import opened Lifecycle
  import opened Conservation
  import opened CallRuns
  import opened Overdraft
  import opened Initiation
  import opened OverdraftTight
  import OC = OptimisticCounter

  /** How many holds can overrun at once. */
  function Exposure(maxConcurrent: nat, k: nat): nat {
    if maxConcurrent == 0 || k == 0 then 0 else maxConcurrent + k
  }

  // ---- No slot, or nothing in flight ----

  lemma {:induction false} NothingInitiated(t: Terms, cfg: Config, s: State, steps: seq<Step>)
    requires s.calls == [] && Possible(cfg, s, steps) && RunWithin(t, 0, cfg, s, steps)
    ensures Run(cfg, s, steps).balance + Run(cfg, s, steps).deductions >= s.balance + s.deductions
    decreases |steps|
  {
    hide Sum, CallAfter, CallEnabled;
    if steps != [] {
      var next := Apply(cfg, s, steps[0]);
      if steps[0].PreDeduct? {
        OneInFlight(next, steps[0].aRate, steps[0].bRate);
        assert false;
      }
      NothingInitiated(t, cfg, next, steps[1..]);
    }
  }

  lemma OneInFlight(s: State, aRate: int, bRate: int)
    requires s.calls == [NewAttempt(aRate, bRate)]
    ensures InFlight(s) == 1
  {
    assert s.calls == [] + [NewAttempt(aRate, bRate)];
    SumAppend([], NewAttempt(aRate, bRate), Slotless);
    assert Sum([], Slotless) == 0;
  }

  /** Without slots every attempt is on its way to a refund. */
  predicate Refusing(c: Call) {
    c.stage.Deducted? || c.stage.OverLimit? || c.stage.Unplaced? || c.stage.Refunded?
  }

  ghost predicate AllRefusing(s: State) { forall i :: 0 <= i < |s.calls| ==> Refusing(s.calls[i]) }

  /** Deductions aside, the balance respects the credit limit. */
  predicate Solvent(cfg: Config, s: State) { s.deductions >= 0 && s.balance + s.deductions >= -cfg.creditLimit }

  lemma RefusingStep(t: Terms, c: Call, step: Step)
    requires Sound(c) && Refusing(c) && CallEnabled(c, step)
    requires RatesWithin(t, c.record.aLegRate, c.record.bLegRate)
    ensures Refusing(CallAfter(c, step, false)) && Credit(c, CallAfter(c, step, false), step) >= 0
  {
    hide OnceGuards, Measured, SettledCost, React, PreDeductAmount;
    HoldNonNegative(c.record.aLegRate, c.record.bLegRate);
    assert !Calling(step);
  }

  lemma ApplyKeepsRefusing(t: Terms, cfg: Config, s: State, step: Step)
    requires cfg.maxConcurrent == 0 && AllSound(s) && AllRatesWithin(t, s) && OC.Accounted(0, Slots(s))
    requires AllRefusing(s) && Solvent(cfg, s)
    requires Enabled(cfg, s, step) && StepWithin(t, s, step)
    ensures AllRefusing(Apply(cfg, s, step)) && Solvent(cfg, Apply(cfg, s, step))
  {
    hide CallAfter, CallEnabled, Sound, Credit, PreDeductAmount, RatesWithin, ChargeWithin, Slots, OC.Accounted;
    SlotsNonNegative(s);
    if !step.PreDeduct? && !step.Topup? && !step.Deduct? {
      RefusingStep(t, s.calls[step.i], step);
      hide AllSound, AllRatesWithin, Refusing, SlotChange;
    }
  }

  lemma SlotsNonNegative(s: State)
    requires OC.Accounted(0, Slots(s))
    ensures s.slots >= 0
  {
    OC.UnitsSplit(Slots(s));
  }

  lemma {:induction false} RunKeepsRefusing(t: Terms, k: nat, cfg: Config, s: State, steps: seq<Step>)
    requires cfg.maxConcurrent == 0 && AllSound(s) && AllRatesWithin(t, s) && OC.Accounted(0, Slots(s))
    requires AllRefusing(s) && Solvent(cfg, s)
    requires Possible(cfg, s, steps) && RunWithin(t, k, cfg, s, steps)
    ensures Solvent(cfg, Run(cfg, s, steps))
    decreases |steps|
  {
    hide AllSound, AllRatesWithin, OC.Accounted, AllRefusing, Apply, Enabled, StepWithin, Slots, InFlight;
    if steps != [] {
      ApplyKeepsSound(cfg, s, steps[0]);
      ApplyKeepsRates(t, cfg, s, steps[0]);
      StepKeepsSlots(cfg, s, steps[0]);
      ApplyKeepsRefusing(t, cfg, s, steps[0]);
      RunKeepsRefusing(t, k, cfg, Apply(cfg, s, steps[0]), steps[1..]);
    }
  }

  /** The overdraft bound without slack, for every number of slots and of initiations in flight. */
  lemma SharpOverdraftBound(t: Terms, k: nat, cfg: Config, steps: seq<Step>)
    requires cfg.opening >= -cfg.creditLimit
    requires Possible(cfg, Initial(cfg), steps) && RunWithin(t, k, cfg, Initial(cfg), steps)
    ensures var end := Run(cfg, Initial(cfg), steps);
            end.balance + end.deductions
            >= -cfg.creditLimit - Exposure(cfg.maxConcurrent, k) * (t.maxRate * Max(0, CeilDiv(t.maxSec, 60) - 30))
  {
    hide Possible, RunWithin, Run;
    if k == 0 {
      NothingInitiated(t, cfg, Initial(cfg), steps);
    } else if cfg.maxConcurrent == 0 {
      RunKeepsRefusing(t, k, cfg, Initial(cfg), steps);
    } else {
      OverdraftBound(t, k, cfg, steps);
    }
  }

  // ---- A run that reaches it ----

  lemma {:induction false} RunsConcat(t: Terms, k: nat, cfg: Config, s: State, first: seq<Step>, second: seq<Step>)
    requires Possible(cfg, s, first) && RunWithin(t, k, cfg, s, first)
    requires var mid := Run(cfg, s, first);
             Possible(cfg, mid, second) && RunWithin(t, k, cfg, mid, second)
    ensures Possible(cfg, s, first + second) && RunWithin(t, k, cfg, s, first + second)
    ensures Run(cfg, s, first + second) == Run(cfg, Run(cfg, s, first), second)
    decreases |first|
  {
    hide Apply, Enabled, StepWithin, InFlight;
    if first == [] {
      assert first + second == second;
    } else {
      assert (first + second)[1..] == first[1..] + second;
      RunsConcat(t, k, cfg, Apply(cfg, s, first[0]), first[1..], second);
    }
  }

  lemma OneWithin(t: Terms, k: nat, cfg: Config, s: State, step: Step)
    requires Enabled(cfg, s, step) && StepWithin(t, s, step)
    requires InFlight(s) <= k && InFlight(Apply(cfg, s, step)) <= k
    ensures Possible(cfg, s, [step]) && RunWithin(t, k, cfg, s, [step]) && Run(cfg, s, [step]) == Apply(cfg, s, step)
  {
    hide Apply, Enabled, StepWithin, InFlight;
    assert Possible(cfg, Apply(cfg, s, step), []);
    assert RunWithin(t, k, cfg, Apply(cfg, s, step), []);
  }

  /** What one call does alone stays within the terms, whatever is in flight. */
  lemma {:induction false} AloneWithin(t: Terms, k: nat, cfg: Config, s: State, i: nat, steps: seq<Step>)
    requires AllSound(s) && InFlight(s) <= k
    requires i < |s.calls| && CallPossible(s.calls[i], i, steps) && CallWithin(t, s.calls[i], steps)
    requires forall step :: step in steps ==> !PartOfSaga(step)
    ensures Possible(cfg, s, steps) && RunWithin(t, k, cfg, s, steps) && Run(cfg, s, steps) == Alone(s, i, steps)
    ensures InFlight(Alone(s, i, steps)) == InFlight(s)
    decreases |steps|
  {
    hide CallAfter, CallEnabled, Credit, SlotChange, ChargeWithin, Apply, Enabled, Sound, InFlight;
    if steps == [] {
      assert s.calls[i := s.calls[i]] == s.calls;
    } else {
      assert steps[0] in steps;
      OwnStep(cfg, s, i, steps[0]);
      ApplyKeepsSound(cfg, s, steps[0]);
      OtherKeepsInFlight(cfg, s, steps[0]);
      AloneWithin(t, k, cfg, Apply(cfg, s, steps[0]), i, steps[1..]);
    }
  }

  /** An attempt holding nothing but money at the maximal rate. */
  function Held(rate: int): Call { NewAttempt(0, rate) }

  lemma HoldOne(t: Terms, k: nat, cfg: Config, s: State)
    requires s.balance + cfg.creditLimit >= 30 * t.maxRate && InFlight(s) + 1 <= k
    ensures var step := PreDeduct(0, t.maxRate);
            var next := s.(balance := s.balance - 30 * t.maxRate, calls := s.calls + [Held(t.maxRate)]);
            && Possible(cfg, s, [step]) && RunWithin(t, k, cfg, s, [step]) && Run(cfg, s, [step]) == next
            && InFlight(next) == InFlight(s) + 1
  {
    assert PreDeductAmount(0, t.maxRate) == 30 * t.maxRate;
    SumAppend(s.calls, Held(t.maxRate), Slotless);
    OneWithin(t, k, cfg, s, PreDeduct(0, t.maxRate));
  }

  /** A held attempt gets a slot and goes live. */
  lemma PlaceOne(t: Terms, k: nat, cfg: Config, s: State, i: nat)
    requires i < |s.calls| && s.calls[i] == Held(t.maxRate) && s.slots < cfg.maxConcurrent && InFlight(s) <= k
    ensures var steps := [AcquireSlot(i), Store(i)];
            var next := s.(slots := s.slots + 1, calls := s.calls[i := Launched(t.maxRate)]);
            && Possible(cfg, s, steps) && RunWithin(t, k, cfg, s, steps) && Run(cfg, s, steps) == next
            && InFlight(next) == InFlight(s) - 1
  {
    var mid := s.(slots := s.slots + 1, calls := s.calls[i := Held(t.maxRate).(stage := Placing, granted := true)]);
    var next := s.(slots := s.slots + 1, calls := s.calls[i := Launched(t.maxRate)]);
    SumUpdate(s.calls, i, mid.calls[i], Slotless);
    SumUpdate(s.calls, i, next.calls[i], Slotless);
    assert Apply(cfg, s, AcquireSlot(i)) == mid;
    assert mid.calls[i := Launched(t.maxRate)] == next.calls;
    assert Apply(cfg, mid, Store(i)) == next;
    hide Apply, Held, Launched, Sum;
    OneWithin(t, k, cfg, s, AcquireSlot(i));
    OneWithin(t, k, cfg, mid, Store(i));
    RunsConcat(t, k, cfg, s, [AcquireSlot(i)], [Store(i)]);
    assert [AcquireSlot(i)] + [Store(i)] == [AcquireSlot(i), Store(i)];
  }

  /** Where the run stands: n live calls of full rate, m holds behind them, money for the rest. */
  ghost predicate Standing(t: Terms, cfg: Config, s: State, n: nat, m: nat, funds: int) {
    && AllSound(s) && s.slots == n && InFlight(s) == m && |s.calls| == n + m && s.deductions == 0
    && (forall i :: 0 <= i < n ==> s.calls[i] == Launched(t.maxRate))
    && (forall i :: n <= i < n + m ==> s.calls[i] == Held(t.maxRate))
    && s.balance + cfg.creditLimit == funds * (30 * t.maxRate)
  }

  /** One more launch. */
  lemma LaunchOne(t: Terms, k: nat, cfg: Config, s: State, n: nat, spare: nat) returns (steps: seq<Step>)
    requires k >= 1 && n < cfg.maxConcurrent && Standing(t, cfg, s, n, 0, spare + 1)
    ensures Possible(cfg, s, steps) && RunWithin(t, k, cfg, s, steps)
    ensures Standing(t, cfg, Run(cfg, s, steps), n + 1, 0, spare)
  {
    hide Possible, RunWithin, Run, Launched, Held, InFlight, Sound;
    Distributes(spare, 30 * t.maxRate);
    MulMonotone(30 * t.maxRate, 0, spare);
    HoldOne(t, k, cfg, s);
    var held := Run(cfg, s, [PreDeduct(0, t.maxRate)]);
    PlaceOne(t, k, cfg, held, n);
    steps := [PreDeduct(0, t.maxRate)] + [AcquireSlot(n), Store(n)];
    RunsConcat(t, k, cfg, s, [PreDeduct(0, t.maxRate)], [AcquireSlot(n), Store(n)]);
    RunKeepsSound(cfg, s, steps);
  }

  lemma {:induction false} LaunchAll(t: Terms, k: nat, cfg: Config, n: nat, spare: nat) returns (steps: seq<Step>)
    requires k >= 1 && n <= cfg.maxConcurrent
    requires cfg.opening + cfg.creditLimit == (n + spare) * (30 * t.maxRate)
    ensures Possible(cfg, Initial(cfg), steps) && RunWithin(t, k, cfg, Initial(cfg), steps)
    ensures Standing(t, cfg, Run(cfg, Initial(cfg), steps), n, 0, spare)
  {
    if n == 0 {
      steps := [];
      assert InFlight(Initial(cfg)) == 0;
    } else {
      hide Possible, RunWithin, Run, Standing;
      var front := LaunchAll(t, k, cfg, n - 1, spare + 1);
      var launch := LaunchOne(t, k, cfg, Run(cfg, Initial(cfg), front), n - 1, spare);
      RunsConcat(t, k, cfg, Initial(cfg), front, launch);
      steps := front + launch;
    }
  }

  /** One more hold. */
  lemma HoldNext(t: Terms, k: nat, cfg: Config, s: State, n: nat, m: nat, spare: nat) returns (steps: seq<Step>)
    requires m < k && Standing(t, cfg, s, n, m, spare + 1)
    ensures Possible(cfg, s, steps) && RunWithin(t, k, cfg, s, steps)
    ensures Standing(t, cfg, Run(cfg, s, steps), n, m + 1, spare)
  {
    hide Possible, RunWithin, Run, Launched, Held, InFlight, Sound;
    Distributes(spare, 30 * t.maxRate);
    MulMonotone(30 * t.maxRate, 0, spare);
    HoldOne(t, k, cfg, s);
    steps := [PreDeduct(0, t.maxRate)];
    RunKeepsSound(cfg, s, steps);
  }

  lemma {:induction false} HoldAll(t: Terms, k: nat, cfg: Config, s: State, n: nat, m: nat, spare: nat)
    returns (steps: seq<Step>)
    requires m <= k && Standing(t, cfg, s, n, 0, m + spare)
    ensures Possible(cfg, s, steps) && RunWithin(t, k, cfg, s, steps)
    ensures Standing(t, cfg, Run(cfg, s, steps), n, m, spare)
    decreases m
  {
    if m == 0 {
      steps := [];
    } else {
      hide Possible, RunWithin, Run, Standing;
      var front := HoldAll(t, k, cfg, s, n, m - 1, spare + 1);
      var hold := HoldNext(t, k, cfg, Run(cfg, s, front), n, m - 1, spare);
      RunsConcat(t, k, cfg, s, front, hold);
      steps := front + hold;
    }
  }

  /** One live call overruns and gives its slot back; nobody else notices. */
  lemma OverrunOne(t: Terms, k: nat, cfg: Config, s: State, i: nat)
    requires AllSound(s) && InFlight(s) <= k && i < |s.calls| && s.calls[i] == Launched(t.maxRate)
    requires CeilDiv(t.maxSec, 60) >= 30 && s.slots >= 1
    ensures var steps := Script(i, t.maxSec);
            && Possible(cfg, s, steps) && RunWithin(t, k, cfg, s, steps)
            && var next := Run(cfg, s, steps);
               && AllSound(next) && InFlight(next) == InFlight(s) && |next.calls| == |s.calls|
               && next.slots == s.slots - 1 && next.balance == s.balance - Overrun(t.maxRate, t.maxSec)
               && next.deductions == s.deductions
               && forall j :: 0 <= j < |s.calls| && j != i ==> next.calls[j] == s.calls[j]
  {
    hide Script, CallPossible, CallWithin, Credits, CallRun, SlotsAfter;
    hide Possible, RunWithin, Run, Launched, InFlight, Sound, Overrun;
    ScriptOverruns(t, i);
    AloneWithin(t, k, cfg, s, i, Script(i, t.maxSec));
    RunKeepsSound(cfg, s, Script(i, t.maxSec));
  }

  lemma {:induction false} OverrunLive(t: Terms, k: nat, cfg: Config, s: State, n: nat) returns (steps: seq<Step>)
    requires AllSound(s) && InFlight(s) <= k && n <= |s.calls| && s.slots == n && CeilDiv(t.maxSec, 60) >= 30
    requires forall i :: 0 <= i < n ==> s.calls[i] == Launched(t.maxRate)
    ensures Possible(cfg, s, steps) && RunWithin(t, k, cfg, s, steps)
    ensures var next := Run(cfg, s, steps);
            && AllSound(next) && InFlight(next) == InFlight(s) && |next.calls| == |s.calls| && next.slots == 0
            && next.balance == s.balance - n * Overrun(t.maxRate, t.maxSec) && next.deductions == s.deductions
            && forall j :: n <= j < |s.calls| ==> next.calls[j] == s.calls[j]
    decreases n
  {
    if n == 0 {
      steps := [];
    } else {
      hide Possible, RunWithin, Run, Launched, InFlight, AllSound, Overrun, Script;
      OverrunOne(t, k, cfg, s, n - 1);
      var next := Run(cfg, s, Script(n - 1, t.maxSec));
      var rest := OverrunLive(t, k, cfg, next, n - 1);
      RunsConcat(t, k, cfg, s, Script(n - 1, t.maxSec), rest);
      OneLess(n, Overrun(t.maxRate, t.maxSec));
      steps := Script(n - 1, t.maxSec) + rest;
    }
  }

  /** A held attempt goes live, overruns and leaves. */
  lemma OverrunHeldOne(t: Terms, k: nat, cfg: Config, s: State, i: nat) returns (steps: seq<Step>)
    requires cfg.maxConcurrent >= 1 && AllSound(s) && InFlight(s) <= k && s.slots == 0
    requires CeilDiv(t.maxSec, 60) >= 30 && i < |s.calls| && s.calls[i] == Held(t.maxRate)
    ensures Possible(cfg, s, steps) && RunWithin(t, k, cfg, s, steps)
    ensures var next := Run(cfg, s, steps);
            && AllSound(next) && InFlight(next) <= k && |next.calls| == |s.calls| && next.slots == 0
            && next.balance == s.balance - Overrun(t.maxRate, t.maxSec) && next.deductions == s.deductions
            && forall j :: 0 <= j < |s.calls| && j != i ==> next.calls[j] == s.calls[j]
  {
    hide Possible, RunWithin, Run, Launched, Held, InFlight, AllSound, Overrun, Script;
    var place, script := [AcquireSlot(i), Store(i)], Script(i, t.maxSec);
    PlaceOne(t, k, cfg, s, i);
    RunKeepsSound(cfg, s, place);
    OverrunOne(t, k, cfg, Run(cfg, s, place), i);
    RunsConcat(t, k, cfg, s, place, script);
    steps := place + script;
  }

  /** With the slots free again the holds behind go live one by one and overrun too. */
  lemma {:induction false} OverrunHeld(t: Terms, k: nat, cfg: Config, s: State, n: nat, m: nat)
    returns (steps: seq<Step>)
    requires cfg.maxConcurrent >= 1 && AllSound(s) && InFlight(s) <= k && s.slots == 0 && n + m <= |s.calls|
    requires CeilDiv(t.maxSec, 60) >= 30
    requires forall i :: n <= i < n + m ==> s.calls[i] == Held(t.maxRate)
    ensures Possible(cfg, s, steps) && RunWithin(t, k, cfg, s, steps)
    ensures Run(cfg, s, steps).balance == s.balance - m * Overrun(t.maxRate, t.maxSec)
    ensures Run(cfg, s, steps).deductions == s.deductions
    decreases m
  {
    if m == 0 {
      steps := [];
    } else {
      hide Possible, RunWithin, Run, Held, InFlight, AllSound, Overrun;
      var one := OverrunHeldOne(t, k, cfg, s, n + m - 1);
      var rest := OverrunHeld(t, k, cfg, Run(cfg, s, one), n, m - 1);
      RunsConcat(t, k, cfg, s, one, rest);
      OneLess(m, Overrun(t.maxRate, t.maxSec));
      steps := one + rest;
    }
  }

  /** Everything live and everything held overruns. */
  lemma OverrunAll(t: Terms, k: nat, cfg: Config, s: State) returns (steps: seq<Step>)
    requires cfg.maxConcurrent >= 1 && CeilDiv(t.maxSec, 60) >= 30
    requires Standing(t, cfg, s, cfg.maxConcurrent, k, 0)
    ensures Possible(cfg, s, steps) && RunWithin(t, k, cfg, s, steps)
    ensures Run(cfg, s, steps).balance == -cfg.creditLimit - (cfg.maxConcurrent + k) * Overrun(t.maxRate, t.maxSec)
    ensures Run(cfg, s, steps).deductions == 0
  {
    hide Possible, RunWithin, Run, InFlight, Launched, Held, Sound, Overrun;
    var n, e := cfg.maxConcurrent, Overrun(t.maxRate, t.maxSec);
    var live := OverrunLive(t, k, cfg, s, n);
    var held := OverrunHeld(t, k, cfg, Run(cfg, s, live), n, k);
    RunsConcat(t, k, cfg, s, live, held);
    assert n * e + k * e == (n + k) * e;
    steps := live + held;
  }

  lemma ReachExposed(t: Terms, k: nat, cfg: Config) returns (steps: seq<Step>)
    requires cfg.maxConcurrent >= 1 && k >= 1
    requires cfg.opening + cfg.creditLimit == (cfg.maxConcurrent + k) * (30 * t.maxRate)
    ensures Possible(cfg, Initial(cfg), steps) && RunWithin(t, k, cfg, Initial(cfg), steps)
    ensures Run(cfg, Initial(cfg), steps).balance
            == -cfg.creditLimit - (cfg.maxConcurrent + k) * Overrun(t.maxRate, t.maxSec)
    ensures Run(cfg, Initial(cfg), steps).deductions == 0
  {
    hide Possible, RunWithin, Run, Standing;
    var n, start := cfg.maxConcurrent, Initial(cfg);
    var launches := LaunchAll(t, k, cfg, n, k);
    var holds := HoldAll(t, k, cfg, Run(cfg, start, launches), n, k, 0);
    RunsConcat(t, k, cfg, start, launches, holds);
    steps := launches + holds;
    if CeilDiv(t.maxSec, 60) >= 30 {
      hide Overrun;
      var overruns := OverrunAll(t, k, cfg, Run(cfg, start, steps));
      RunsConcat(t, k, cfg, start, steps, overruns);
      steps := steps + overruns;
    } else {
      SpentStanding(t, k, cfg, Run(cfg, start, steps));
      assert Overrun(t.maxRate, t.maxSec) == 0;
    }
  }

  lemma SpentStanding(t: Terms, k: nat, cfg: Config, s: State)
    requires Standing(t, cfg, s, cfg.maxConcurrent, k, 0)
    ensures s.balance == -cfg.creditLimit && s.deductions == 0
  {
  }

  /** For all rates, durations, slots and initiations in flight some run reaches the sharp bound exactly. */
  lemma SharpBoundIsReached(t: Terms, k: nat, cfg: Config) returns (steps: seq<Step>)
    requires cfg.opening == Exposure(cfg.maxConcurrent, k) * (30 * t.maxRate) - cfg.creditLimit
    ensures cfg.opening >= -cfg.creditLimit
    ensures Possible(cfg, Initial(cfg), steps) && RunWithin(t, k, cfg, Initial(cfg), steps)
    ensures Run(cfg, Initial(cfg), steps).balance
            == -cfg.creditLimit - Exposure(cfg.maxConcurrent, k) * (t.maxRate * Max(0, CeilDiv(t.maxSec, 60) - 30))
    ensures Run(cfg, Initial(cfg), steps).deductions == 0
  {
    MulMonotone(30 * t.maxRate, 0, Exposure(cfg.maxConcurrent, k));
    if cfg.maxConcurrent == 0 || k == 0 {
      steps := [];
      assert InFlight(Initial(cfg)) == 0;
    } else {
      hide Possible, RunWithin, Run;
      steps := ReachExposed(t, k, cfg);
    }
  }
}
