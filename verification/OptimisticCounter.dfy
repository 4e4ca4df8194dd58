/**
  A shared counter that requests increment before they look at the limit and decrement
  again when they find themselves past it, with those two accesses as separate steps.
  AcquireSlot and CheckDailyLimit both follow this protocol; only slots are released.
 */
module OptimisticCounter {
  import opened Sequences
  import opened Numbers

  /** Where a request stands; OverLimit has incremented and still has to undo it. */
  datatype Phase = Waiting | OverLimit | Granted | Finished | FailedOpen

  datatype Counter = Counter(value: int, requests: seq<Phase>)

  datatype Step =
    | Arrive
    | Increment(i: nat)
    | Undo(i: nat)
    | Release(i: nat)
    | FailOpen(i: nat)

  function Grants(p: Phase): int { if p.Granted? then 1 else 0 }

  function Undos(p: Phase): int { if p.OverLimit? then 1 else 0 }

  function Units(p: Phase): int { Grants(p) + Undos(p) }

  function Held(c: Counter): int { Sum(c.requests, Grants) }

  function Pending(c: Counter): int { Sum(c.requests, Undos) }

  predicate Enabled(c: Counter, step: Step) {
    match step
    case Arrive => true
    case Increment(i) => i < |c.requests| && c.requests[i].Waiting?
    case Undo(i) => i < |c.requests| && c.requests[i].OverLimit?
    case Release(i) => i < |c.requests| && c.requests[i].Granted?
    case FailOpen(i) => i < |c.requests| && c.requests[i].Waiting?
  }

  function Apply(limit: nat, c: Counter, step: Step): Counter
    requires Enabled(c, step)
  {
    match step
    case Arrive => c.(requests := c.requests + [Waiting])
    case Increment(i) =>
      var newVal := c.value + 1;
      Counter(newVal, c.requests[i := if newVal > limit then OverLimit else Granted])
    case Undo(i) => Counter(c.value - 1, c.requests[i := Finished])
    case Release(i) => Counter(Max(0, c.value - 1), c.requests[i := Finished])
    case FailOpen(i) => c.(requests := c.requests[i := FailedOpen])
  }

  /** The counter is the grants held plus the increments not yet undone, and grants respect the limit. */
  ghost predicate Accounted(limit: nat, c: Counter) {
    && c.value == Sum(c.requests, Units)
    && Held(c) <= limit
  }

  lemma {:induction false} UnitsSplit(c: Counter)
    ensures Sum(c.requests, Units) == Held(c) + Pending(c)
    ensures Held(c) >= 0 && Pending(c) >= 0
  {
    SumAdd(c.requests, Grants, Undos, Units);
    SumNonNegative(c.requests, Grants);
    SumNonNegative(c.requests, Undos);
  }

  lemma Reassigned(requests: seq<Phase>, i: nat, p: Phase)
    requires i < |requests|
    ensures Sum(requests[i := p], Grants) == Sum(requests, Grants) - Grants(requests[i]) + Grants(p)
    ensures Sum(requests[i := p], Undos) == Sum(requests, Undos) - Undos(requests[i]) + Undos(p)
    ensures Sum(requests[i := p], Units) == Sum(requests, Units) - Units(requests[i]) + Units(p)
  {
    SumUpdate(requests, i, p, Grants);
    SumUpdate(requests, i, p, Undos);
    SumUpdate(requests, i, p, Units);
  }

  /** A holder accounts for at least one unit of the counter. */
  lemma HolderCounts(limit: nat, c: Counter, i: nat)
    requires Accounted(limit, c) && i < |c.requests|
    ensures c.value >= Units(c.requests[i])
  {
    SumAtLeast(c.requests, i, Units);
  }

  lemma ApplyKeepsAccounted(limit: nat, c: Counter, step: Step)
    requires Accounted(limit, c) && Enabled(c, step)
    ensures Accounted(limit, Apply(limit, c, step))
  {
    hide Sum;
    UnitsSplit(c);
    match step
    case Arrive =>
      SumAppend(c.requests, Waiting, Grants);
      SumAppend(c.requests, Waiting, Units);
    case Increment(i) =>
      Reassigned(c.requests, i, if c.value + 1 > limit then OverLimit else Granted);
    case Undo(i) =>
      Reassigned(c.requests, i, Finished);
    case Release(i) =>
      HolderCounts(limit, c, i);
      Reassigned(c.requests, i, Finished);
    case FailOpen(i) =>
      Reassigned(c.requests, i, FailedOpen);
  }

  /** A run in which every step was possible. */
  predicate Possible(limit: nat, c: Counter, steps: seq<Step>)
    decreases |steps|
  {
    steps == [] || (Enabled(c, steps[0]) && Possible(limit, Apply(limit, c, steps[0]), steps[1..]))
  }

  function Run(limit: nat, c: Counter, steps: seq<Step>): Counter
    requires Possible(limit, c, steps)
    decreases |steps|
  {
    if steps == [] then c else Run(limit, Apply(limit, c, steps[0]), steps[1..])
  }

  /** Over every interleaving the counter is accounted for and never grants past the limit. */
  lemma {:induction false} RunKeepsAccounted(limit: nat, c: Counter, steps: seq<Step>)
    requires Accounted(limit, c) && Possible(limit, c, steps)
    ensures Accounted(limit, Run(limit, c, steps))
    decreases |steps|
  {
    hide Accounted, Apply;
    if steps != [] {
      ApplyKeepsAccounted(limit, c, steps[0]);
      RunKeepsAccounted(limit, Apply(limit, c, steps[0]), steps[1..]);
    }
  }

  /**
    A request is granted exactly when held and undo-pending units together leave room. So a
    refusal can be spurious while an undo is outstanding, but a grant never is.
   */
  lemma GrantedIffRoom(limit: nat, c: Counter, i: nat)
    requires Accounted(limit, c) && Enabled(c, Increment(i))
    ensures Apply(limit, c, Increment(i)).requests[i].Granted? <==> Held(c) + Pending(c) < limit
  {
    UnitsSplit(c);
  }

  /** A refusal with nobody holding anything: the other refused request has not undone yet. */
  lemma SpuriousRefusal() returns (steps: seq<Step>)
    ensures Possible(1, Counter(0, []), steps)
    ensures var c := Run(1, Counter(0, []), steps);
            Held(c) == 0 && Enabled(c, Increment(2)) && Apply(1, c, Increment(2)).requests[2].OverLimit?
  {
    hide Possible, Run, Sum;
    var c0 := Counter(0, []);
    var c1 := Counter(0, [Waiting]);
    var c2 := Counter(0, [Waiting, Waiting]);
    var c3 := Counter(0, [Waiting, Waiting, Waiting]);
    var c4 := Counter(1, [Granted, Waiting, Waiting]);
    var c5 := Counter(2, [Granted, OverLimit, Waiting]);
    var c6 := Counter(1, [Finished, OverLimit, Waiting]);
    steps := [];
    RunNothing(c6);
    steps := RunBackwards(c5, Release(0), c6, c6, steps);
    steps := RunBackwards(c4, Increment(1), c5, c6, steps);
    steps := RunBackwards(c3, Increment(0), c4, c6, steps);
    steps := RunBackwards(c2, Arrive, c3, c6, steps);
    steps := RunBackwards(c1, Arrive, c2, c6, steps);
    steps := RunBackwards(c0, Arrive, c1, c6, steps);
    SumAllZero(c6.requests, Grants);
  }

  lemma RunNothing(c: Counter)
    ensures Possible(1, c, []) && Run(1, c, []) == c
  {
  }

  lemma RunBackwards(c: Counter, step: Step, next: Counter, end: Counter, rest: seq<Step>) returns (steps: seq<Step>)
    requires Enabled(c, step) && Apply(1, c, step) == next
    requires Possible(1, next, rest) && Run(1, next, rest) == end
    ensures Possible(1, c, steps) && Run(1, c, steps) == end
  {
    steps := [step] + rest;
    assert steps[1..] == rest;
  }

  /** Only holders release, so ReleaseSlot's floor at zero is never what determines the counter. */
  lemma FloorUnreachable(limit: nat, c: Counter, i: nat)
    requires Accounted(limit, c) && Enabled(c, Release(i))
    ensures c.value >= 1 && Apply(limit, c, Release(i)).value == c.value - 1
  {
    HolderCounts(limit, c, i);
  }

  // ---- The daily limit: the same protocol, nothing is ever released ----

  predicate NoReleases(steps: seq<Step>) { forall s :: s in steps ==> !s.Release? }

  /** Without releases grants only accumulate: a day grants at most the limit, and what fails open comes on top. */
  lemma {:induction false} DailyGrants(limit: nat, c: Counter, steps: seq<Step>)
    requires Accounted(limit, c) && Possible(limit, c, steps) && NoReleases(steps)
    ensures Held(c) <= Held(Run(limit, c, steps)) <= limit
    ensures forall i :: 0 <= i < |c.requests| && c.requests[i].Granted? ==>
              i < |Run(limit, c, steps).requests| && Run(limit, c, steps).requests[i].Granted?
    decreases |steps|
  {
    if steps != [] {
      hide Sum;
      assert steps[0] in steps;
      ApplyKeepsAccounted(limit, c, steps[0]);
      GrantsStay(limit, c, steps[0]);
      DailyGrants(limit, Apply(limit, c, steps[0]), steps[1..]);
    }
  }

  lemma GrantsStay(limit: nat, c: Counter, step: Step)
    requires Enabled(c, step) && !step.Release?
    ensures Held(c) <= Held(Apply(limit, c, step))
    ensures forall i :: 0 <= i < |c.requests| && c.requests[i].Granted? ==>
              i < |Apply(limit, c, step).requests| && Apply(limit, c, step).requests[i].Granted?
  {
    match step
    case Arrive => SumAppend(c.requests, Waiting, Grants);
    case Increment(i) => Reassigned(c.requests, i, if c.value + 1 > limit then OverLimit else Granted);
    case Undo(i) => Reassigned(c.requests, i, Finished);
    case FailOpen(i) => Reassigned(c.requests, i, FailedOpen);
  }

  // ---- CheckDailyLimit as code ----

  datatype DailyResult = Allowed(currentCount: int) | Exceeded

  /** One user's counter for one day. */
  class DailyCounter {
    var count: int

    constructor ()
      ensures count == 0
    {
      count := 0;
    }

    /** Uninterrupted, a check admits exactly while the count is below the limit; cache errors fail open. */
    method CheckDailyLimit(dailyLimit: int, cacheUp: bool) returns (r: DailyResult)
      modifies this
      ensures !cacheUp ==> r == Allowed(-1) && count == old(count)
      ensures cacheUp ==> (r.Allowed? <==> old(count) < dailyLimit)
      ensures cacheUp && r.Allowed? ==> r.currentCount == count == old(count) + 1
      ensures r.Exceeded? ==> count == old(count)
    {
      if !cacheUp {
        return Allowed(-1);
      }
      count := count + 1;
      var seen := count;
      if seen > dailyLimit {
        count := count - 1;
        return Exceeded;
      }
      return Allowed(seen);
    }
  }
}
