/** Several steps of one call in a row: what they do to the whole state follows from the call alone. */
module CallRuns {
  import opened Calls
  import opened Lifecycle

  /** A step of one call whose effect on it does not depend on the slot counter. */
  predicate Own(step: Step, i: nat) {
    Concerns(step, i) && !step.AcquireSlot?
  }

  predicate CallPossible(c: Call, i: nat, steps: seq<Step>)
    decreases |steps|
  {
    steps == [] ||
    (Own(steps[0], i) && CallEnabled(c, steps[0]) && CallPossible(CallAfter(c, steps[0], true), i, steps[1..]))
  }

  function CallRun(c: Call, steps: seq<Step>): Call
    decreases |steps|
  {
    if steps == [] then c else CallRun(CallAfter(c, steps[0], true), steps[1..])
  }

  /** What the steps pay into the balance. */
  function Credits(c: Call, steps: seq<Step>): int
    decreases |steps|
  {
    if steps == [] then 0
    else
      var after := CallAfter(c, steps[0], true);
      Credit(c, after, steps[0]) + Credits(after, steps[1..])
  }

  function SlotsAfter(slots: int, steps: seq<Step>): int
    decreases |steps|
  {
    if steps == [] then slots else SlotsAfter(slots + SlotChange(slots, steps[0]), steps[1..])
  }

  /** The state once call i has run these steps and nothing else has moved. */
  function Alone(s: State, i: nat, steps: seq<Step>): State
    requires i < |s.calls|
  {
    State(s.balance + Credits(s.calls[i], steps), SlotsAfter(s.slots, steps),
          s.calls[i := CallRun(s.calls[i], steps)], s.topups, s.deductions)
  }

  lemma OwnStep(cfg: Config, s: State, i: nat, step: Step)
    requires i < |s.calls| && Own(step, i) && CallEnabled(s.calls[i], step)
    ensures Enabled(cfg, s, step)
    ensures var after := CallAfter(s.calls[i], step, true);
            Apply(cfg, s, step) == State(s.balance + Credit(s.calls[i], after, step),
                                             s.slots + SlotChange(s.slots, step),
                                         s.calls[i := after], s.topups, s.deductions)
  {
    hide CallEnabled, Credit, SlotChange;
    RoomIsIrrelevant(s.calls[i], step, s.slots + 1 <= cfg.maxConcurrent);
    hide CallAfter;
  }

  lemma RoomIsIrrelevant(c: Call, step: Step, room: bool)
    requires !step.AcquireSlot?
    ensures CallAfter(c, step, room) == CallAfter(c, step, true)
  {
    hide Taken, Moved, At, Measured, SettledCost;
  }

  lemma {:induction false} RunAlone(cfg: Config, s: State, i: nat, steps: seq<Step>)
    requires i < |s.calls| && CallPossible(s.calls[i], i, steps)
    ensures Possible(cfg, s, steps) && Run(cfg, s, steps) == Alone(s, i, steps)
    decreases |steps|
  {
    hide CallEnabled, CallAfter, Credit, SlotChange, Apply, Enabled;
    if steps == [] {
      assert s.calls[i := s.calls[i]] == s.calls;
    } else {
      OwnStep(cfg, s, i, steps[0]);
      RunAlone(cfg, Apply(cfg, s, steps[0]), i, steps[1..]);
    }
  }

  /** One step further back. */
  lemma Unfold(c: Call, i: nat, steps: seq<Step>, after: Call)
    requires steps != [] && Own(steps[0], i) && CallEnabled(c, steps[0])
    requires CallAfter(c, steps[0], true) == after && CallPossible(after, i, steps[1..])
    ensures CallPossible(c, i, steps)
    ensures CallRun(c, steps) == CallRun(after, steps[1..])
    ensures Credits(c, steps) == Credit(c, after, steps[0]) + Credits(after, steps[1..])
  {
    hide CallAfter, CallEnabled, Credit;
  }

  lemma {:induction false} CallRunsConcat(c: Call, i: nat, first: seq<Step>, second: seq<Step>)
    requires CallPossible(c, i, first) && CallPossible(CallRun(c, first), i, second)
    ensures CallPossible(c, i, first + second)
    ensures CallRun(c, first + second) == CallRun(CallRun(c, first), second)
    ensures Credits(c, first + second) == Credits(c, first) + Credits(CallRun(c, first), second)
    decreases |first|
  {
    hide CallAfter, CallEnabled, Credit;
    if first == [] {
      assert first + second == second;
    } else {
      assert (first + second)[1..] == first[1..] + second;
      CallRunsConcat(CallAfter(c, first[0], true), i, first[1..], second);
    }
  }
}
