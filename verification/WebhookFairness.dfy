/** How long a due delivery can wait behind others when a poll takes at most fifty rows. */
module WebhookFairness {
  import opened Numbers
  import opened Webhooks

  /** The other retrying deliveries scheduled no later than i. */
  ghost function Ahead(s: State, i: nat): set<nat>
    requires i < |s.rows|
  {
    set j: nat | j < |s.rows| && j != i && s.rows[j].status.Retrying? && s.rows[j].nextRetryAt <= s.rows[i].nextRetryAt
  }

  function Polls(steps: seq<Step>): nat {
    if steps == [] then 0 else (if steps[0].Poll? then 1 else 0) + Polls(steps[1..])
  }

  /** Outside the failing rows every row a poll picks is looked up and published. */
  predicate SendsOutside(steps: seq<Step>, failing: set<nat>) {
    forall k :: 0 <= k < |steps| && steps[k].Poll? ==> BatchSentOutside(steps[k].batch, steps[k].sent, failing)
  }

  predicate BatchSentOutside(batch: seq<nat>, sent: set<nat>, failing: set<nat>) {
    forall id :: id in batch && id !in failing ==> id in sent
  }

  /** Some poll of the run picks and republishes i. */
  predicate Republishes(steps: seq<Step>, i: nat) {
    exists k :: 0 <= k < |steps| && steps[k].Poll? && i in steps[k].batch && i in steps[k].sent
  }

  function BatchSet(batch: seq<nat>): set<nat> { set j | j in batch }

  lemma {:induction false} DistinctCount(batch: seq<nat>)
    requires forall k, l :: 0 <= k < l < |batch| ==> batch[k] != batch[l]
    ensures |BatchSet(batch)| == |batch|
  {
    if batch != [] {
      var last := |batch| - 1;
      DistinctCount(batch[..last]);
      assert BatchSet(batch) == BatchSet(batch[..last]) + {batch[last]};
    } else {
      assert BatchSet(batch) == {};
    }
  }

  lemma SubsetCount(a: set<nat>, b: set<nat>)
    requires a <= b
    ensures |a| <= |b|
  {
    assert b == a + (b - a);
  }

  /** A due delivery that no batch takes sees the whole batch come from ahead of it, and the sent part leave. */
  lemma PollPassesOver(s: State, batch: seq<nat>, sent: set<nat>, failing: set<nat>, i: nat)
    requires Due(s, i) && DueBatch(s, batch) && i !in batch && BatchSentOutside(batch, sent, failing)
    ensures var next := Republished(s, batch, sent);
            && i < |next.rows| && next.rows[i] == s.rows[i] && next.now == s.now
            && Ahead(next, i) <= Ahead(s, i)
            && |Ahead(next, i) - failing| + 50 - |failing * Ahead(s, i)| <= |Ahead(s, i) - failing|
  {
    hide Republished;
    var next := Republished(s, batch, sent);
    var picked := BatchSet(batch);
    RepublishedRows(s, batch, sent, i);
    DistinctCount(batch);
    forall j | j in picked ensures j in Ahead(s, i) {
      var k :| 0 <= k < |batch| && batch[k] == j;
      assert Due(s, batch[k]);
    }
    forall j | j in Ahead(next, i) ensures j in Ahead(s, i) && (j in failing || j !in picked) {
      RepublishedRows(s, batch, sent, j);
    }
    SubsetCount(picked * failing, failing * Ahead(s, i));
    assert picked == (picked * failing) + (picked - failing);
    SubsetCount(Ahead(next, i) - failing, (Ahead(s, i) - failing) - (picked - failing));
  }

  /** No other step disturbs a due delivery or schedules anything ahead of it. */
  lemma OthersStayBehind(s: State, step: Step, i: nat)
    requires Inv(s) && Enabled(s, step) && !step.Poll? && Due(s, i)
    ensures var next := Apply(s, step);
            Due(next, i) && next.rows[i] == s.rows[i] && Ahead(next, i) <= Ahead(s, i)
  {
    assert Good(s.rows[i], s.queue[i], s.now);
    if step.Deliver? {
      assert Good(s.rows[step.id], s.queue[step.id], s.now);
      AttemptsAreLater(s.rows[step.id], step.accepted, step.recorded, s.now);
    }
  }

  lemma AttemptsAreLater(row: Delivery, accepted: bool, recorded: bool, now: int)
    ensures Attempted(row, accepted, recorded, now).status.Retrying?
            ==> Attempted(row, accepted, recorded, now).nextRetryAt > now
  {
  }

  /** One step that does not republish i. */
  lemma OneTurn(s: State, step: Step, failing: set<nat>, i: nat)
    requires Inv(s) && Enabled(s, step) && Due(s, i)
    requires step.Poll? ==> i !in step.batch && BatchSentOutside(step.batch, step.sent, failing)
    ensures var next := Apply(s, step);
            && Due(next, i) && |failing * Ahead(next, i)| <= |failing * Ahead(s, i)|
            && |Ahead(next, i) - failing| + (if step.Poll? then 50 - |failing * Ahead(s, i)| else 0)
               <= |Ahead(s, i) - failing|
  {
    var next := Apply(s, step);
    if step.Poll? {
      PollPassesOver(s, step.batch, step.sent, failing, i);
    } else {
      OthersStayBehind(s, step, i);
    }
    hide Inv, Enabled, Apply, Ahead;
    SubsetCount(failing * Ahead(next, i), failing * Ahead(s, i));
    if !step.Poll? {
      SubsetCount(Ahead(next, i) - failing, Ahead(s, i) - failing);
    }
  }

  /** While i is passed over, at every poll the batch leaves the queue ahead of it but for the failing rows. */
  lemma {:induction false} PassedOver(s: State, steps: seq<Step>, failing: set<nat>, i: nat)
    requires Inv(s) && Possible(s, steps) && SendsOutside(steps, failing) && Due(s, i)
    requires !Republishes(steps, i) && i !in failing
    ensures (50 - |failing * Ahead(s, i)|) * Polls(steps) <= |Ahead(s, i) - failing|
    decreases |steps|
  {
    hide Inv, Enabled, Apply, Ahead, Republishes, SendsOutside;
    if steps != [] {
      var next := Apply(s, steps[0]);
      TailSteps(steps, failing, i);
      ApplyKeepsInv(s, steps[0]);
      OneTurn(s, steps[0], failing, i);
      PassedOver(next, steps[1..], failing, i);
      MorePolls(50 - |failing * Ahead(s, i)|, 50 - |failing * Ahead(next, i)|, Polls(steps[1..]));
    }
  }

  lemma MorePolls(before: int, slack: int, polls: nat)
    requires before <= slack
    ensures before * polls <= slack * polls
    ensures before * (polls + 1) == before * polls + before
  {
    MulMonotone(polls, before, slack);
  }

  lemma PollsEnough(slack: int, rest: nat, polls: nat)
    requires slack > 0 && polls >= Quotient(rest, slack) + 1
    ensures slack * polls > rest
  {
    MulMonotone(slack, rest / slack + 1, polls);
  }

  lemma TailSteps(steps: seq<Step>, failing: set<nat>, i: nat)
    requires steps != [] && SendsOutside(steps, failing) && !Republishes(steps, i)
    ensures SendsOutside(steps[1..], failing) && !Republishes(steps[1..], i)
    ensures steps[0].Poll? && i !in failing ==> i !in steps[0].batch
    ensures steps[0].Poll? ==> BatchSentOutside(steps[0].batch, steps[0].sent, failing)
  {
    assert forall k :: 0 <= k < |steps| - 1 ==> steps[1..][k] == steps[k + 1];
  }

  /** With r others scheduled no later than i, f of them failing: floor((r-f)/(50-f)) + 1. */
  ghost function PollsNeeded(s: State, failing: set<nat>, i: nat): nat
    requires i < |s.rows| && |failing * Ahead(s, i)| < 50
  {
    Quotient(|Ahead(s, i) - failing|, 50 - |failing * Ahead(s, i)|) + 1
  }

  /**
    Poll fairness: whatever else happens in between, a due delivery with r others scheduled no
    later, f < 50 of which may keep failing, is republished by the time floor((r-f)/(50-f)) + 1
    polls have run; with no failures that is floor(r/50) + 1.
   */
  lemma PollFairness(s: State, steps: seq<Step>, failing: set<nat>, i: nat)
    requires Inv(s) && Possible(s, steps) && SendsOutside(steps, failing) && Due(s, i) && i !in failing
    requires |failing * Ahead(s, i)| < 50
    ensures Polls(steps) >= PollsNeeded(s, failing, i) ==> Republishes(steps, i)
  {
    hide Inv, Possible, SendsOutside, Ahead, Republishes, Polls;
    if Polls(steps) >= PollsNeeded(s, failing, i) && !Republishes(steps, i) {
      PollsEnough(50 - |failing * Ahead(s, i)|, |Ahead(s, i) - failing|, Polls(steps));
      PassedOver(s, steps, failing, i);
      assert false;
    }
  }

  // ---- Fifty failing rows ahead and the bound is gone ----

  /** The polls publish exactly the rows outside this set. */
  predicate OnlyFails(steps: seq<Step>, failing: set<nat>) {
    forall k :: 0 <= k < |steps| && steps[k].Poll? ==>
      forall id :: id in steps[k].batch ==> (id in steps[k].sent <==> id !in failing)
  }

  /** However a run goes that fails these rows only, n polls are enough for i. */
  ghost predicate Served(s: State, failing: set<nat>, i: nat, n: nat) {
    forall steps: seq<Step> ::
      Possible(s, steps) && OnlyFails(steps, failing) && Polls(steps) >= n ==> Republishes(steps, i)
  }

  /** batch takes the earliest due rows other than i, none of them later than i. */
  ghost predicate Earliest(s: State, batch: seq<nat>, i: nat)
    requires i < |s.rows|
  {
    && (forall k :: 0 <= k < |batch| ==>
          Due(s, batch[k]) && batch[k] != i && s.rows[batch[k]].nextRetryAt <= s.rows[i].nextRetryAt)
    && (forall k, l :: 0 <= k < l < |batch| ==>
          batch[k] != batch[l] && s.rows[batch[k]].nextRetryAt <= s.rows[batch[l]].nextRetryAt)
    && (forall j: nat, k :: Due(s, j) && j !in batch && j != i && 0 <= k < |batch| ==>
          s.rows[batch[k]].nextRetryAt <= s.rows[j].nextRetryAt)
  }

  lemma {:induction false} FirstDue(s: State, rows: set<nat>) returns (m: nat)
    requires rows != {} && forall j :: j in rows ==> j < |s.rows|
    ensures m in rows && forall j :: j in rows ==> s.rows[m].nextRetryAt <= s.rows[j].nextRetryAt
    decreases |rows|
  {
    m :| m in rows;
    var rest := rows - {m};
    assert forall j :: j in rows ==> j == m || j in rest;
    if rest != {} {
      var other := FirstDue(s, rest);
      if s.rows[other].nextRetryAt < s.rows[m].nextRetryAt {
        m := other;
      }
    }
  }

  lemma SomethingLeft(ahead: set<nat>, front: seq<nat>) returns (b: nat)
    requires |front| < |ahead| && forall k, l :: 0 <= k < l < |front| ==> front[k] != front[l]
    ensures b in ahead && b !in front
  {
    DistinctCount(front);
    if ahead <= BatchSet(front) {
      SubsetCount(ahead, BatchSet(front));
      assert false;
    }
    b :| b in ahead && b !in BatchSet(front);
  }

  /** Enough due rows ahead of i fill a batch that leaves i out, ties included. */
  lemma {:induction false} BatchWithout(s: State, i: nat, ahead: set<nat>, n: nat) returns (batch: seq<nat>)
    requires Due(s, i) && ahead <= Ahead(s, i) && n <= |ahead|
    ensures |batch| == n && Earliest(s, batch, i)
    decreases n
  {
    if n == 0 {
      batch := [];
    } else {
      var front := BatchWithout(s, i, ahead, n - 1);
      var b := SomethingLeft(ahead, front);
      assert b in Ahead(s, i);
      hide Ahead;
      var rest := set j: nat | j < |s.rows| && Due(s, j) && j !in front && j != i;
      assert b in rest;
      var m := FirstDue(s, rest);
      batch := front + [m];
    }
  }

  /** A poll that takes such a batch leaves i and every failing row where they are. */
  lemma StarvingPoll(s: State, failing: set<nat>, i: nat) returns (step: Step)
    requires Due(s, i) && i !in failing && |failing * Ahead(s, i)| >= 50
    ensures step.Poll? && Enabled(s, step) && i !in step.batch && OnlyFails([step], failing)
    ensures var next := Apply(s, step);
            Due(next, i) && |failing * Ahead(next, i)| >= 50
  {
    var batch := BatchWithout(s, i, failing * Ahead(s, i), 50);
    var sent := BatchSet(batch) - failing;
    step := Poll(batch, sent);
    hide Republished;
    RepublishedRows(s, batch, sent, i);
    forall j: nat | j < |s.rows| && (j in failing || j == i) ensures Apply(s, step).rows[j] == s.rows[j] {
      RepublishedRows(s, batch, sent, j);
    }
    forall j | j in failing * Ahead(s, i) ensures j in failing * Ahead(Apply(s, step), i) {
      assert Apply(s, step).rows[j] == s.rows[j];
    }
    SubsetCount(failing * Ahead(s, i), failing * Ahead(Apply(s, step), i));
  }

  lemma {:induction false} StarvingRun(s: State, failing: set<nat>, i: nat, n: nat) returns (steps: seq<Step>)
    requires Due(s, i) && i !in failing && |failing * Ahead(s, i)| >= 50
    ensures Possible(s, steps) && OnlyFails(steps, failing) && Polls(steps) == n && !Republishes(steps, i)
    decreases n
  {
    steps := [];
    if n > 0 {
      var step := StarvingPoll(s, failing, i);
      hide Ahead, Enabled, Apply;
      var rest := StarvingRun(Apply(s, step), failing, i, n - 1);
      steps := [step] + rest;
      assert steps[1..] == rest;
      assert [step][0] == step;
      forall k | 0 <= k < |steps| ensures if k == 0 then steps[k] == step else steps[k] == rest[k - 1] {}
    }
  }

  /**
    The exact threshold: when a set of rows keeps failing, a bound on the polls before a due
    delivery is republished exists if and only if fewer than fifty of them are scheduled no later.
   */
  lemma FairnessThreshold(s: State, failing: set<nat>, i: nat)
    requires Inv(s) && Due(s, i) && i !in failing
    ensures (exists n: nat :: Served(s, failing, i, n)) <==> |failing * Ahead(s, i)| < 50
  {
    assert i < |s.rows|;
    hide Inv, Ahead, Due, Served;
    if |failing * Ahead(s, i)| < 50 {
      var n := FewFailures(s, failing, i);
    } else {
      forall n: nat ensures !Served(s, failing, i, n) {
        ManyFailures(s, failing, i, n);
      }
    }
  }

  lemma FewFailures(s: State, failing: set<nat>, i: nat) returns (n: nat)
    requires Inv(s) && Due(s, i) && i !in failing && |failing * Ahead(s, i)| < 50
    ensures Served(s, failing, i, n)
  {
    n := PollsNeeded(s, failing, i);
    hide PollsNeeded, Inv, Ahead, Republishes, Polls;
    forall steps: seq<Step> | Possible(s, steps) && OnlyFails(steps, failing) && Polls(steps) >= n
      ensures Republishes(steps, i)
    {
      assert SendsOutside(steps, failing);
      hide Inv, Possible, Ahead, Republishes, Polls, Due, PollsNeeded;
      PollFairness(s, steps, failing, i);
    }
  }

  lemma ManyFailures(s: State, failing: set<nat>, i: nat, n: nat)
    requires Due(s, i) && i !in failing && |failing * Ahead(s, i)| >= 50
    ensures !Served(s, failing, i, n)
  {
    hide Possible, Ahead, Republishes, Polls, Due, OnlyFails;
    var steps := StarvingRun(s, failing, i, n);
  }

  // ---- Head-of-line blocking in every run ----

  /** Fifty due rows, all scheduled before i, whose lookup or publish never succeeds. */
  ghost predicate Blocked(s: State, blockers: set<nat>, i: nat) {
    && Due(s, i) && |blockers| >= POLL_LIMIT
    && forall b :: b in blockers ==> Due(s, b) && s.rows[b].nextRetryAt < s.rows[i].nextRetryAt
  }

  predicate NeverSent(steps: seq<Step>, blockers: set<nat>) {
    forall k :: 0 <= k < |steps| && steps[k].Poll? ==> steps[k].sent !! blockers
  }

  lemma BlockersFillTheBatch(s: State, blockers: set<nat>, batch: seq<nat>, i: nat)
    requires Blocked(s, blockers, i) && DueBatch(s, batch)
    ensures i !in batch
  {
    if i in batch {
      var k :| 0 <= k < |batch| && batch[k] == i;
      forall b | b in blockers ensures b in BatchSet(batch) - {i} {
        assert Due(s, b);
      }
      SubsetCount(blockers, BatchSet(batch) - {i});
      DistinctCount(batch);
    }
  }

  lemma StepKeepsBlocked(s: State, step: Step, blockers: set<nat>, i: nat)
    requires Inv(s) && Enabled(s, step) && Blocked(s, blockers, i)
    requires step.Poll? ==> step.sent !! blockers
    ensures Blocked(Apply(s, step), blockers, i)
  {
    forall b | b in blockers || b == i
      ensures Due(Apply(s, step), b) && Apply(s, step).rows[b] == s.rows[b]
    {
      assert Due(s, b);
      if step.Poll? {
        hide Republished;
        BlockersFillTheBatch(s, blockers, step.batch, i);
        RepublishedRows(s, step.batch, step.sent, b);
      } else {
        OthersStayBehind(s, step, b);
      }
    }
  }

  /** Head-of-line blocking: fifty rows that keep failing their lookup starve every later row for ever. */
  lemma {:induction false} FailingLookupsStarve(s: State, steps: seq<Step>, blockers: set<nat>, i: nat)
    requires Inv(s) && Possible(s, steps) && Blocked(s, blockers, i) && NeverSent(steps, blockers)
    ensures !Republishes(steps, i)
    decreases |steps|
  {
    if steps != [] {
      ApplyKeepsInv(s, steps[0]);
      StepKeepsBlocked(s, steps[0], blockers, i);
      if steps[0].Poll? {
        BlockersFillTheBatch(s, blockers, steps[0].batch, i);
      }
      assert forall k :: 0 <= k < |steps| - 1 ==> steps[1..][k] == steps[k + 1];
      FailingLookupsStarve(Apply(s, steps[0]), steps[1..], blockers, i);
      assert forall k :: 1 <= k < |steps| ==> steps[k] == steps[1..][k - 1];
    }
  }

  // ---- Such a state is reached ----

  /** A delivery whose first attempt failed at this time. */
  function Retry(at: int): Delivery {
    Delivery(Retrying, 1, 0, at + 30, at, [at], 1, false)
  }

  lemma Prepend(s: State, step: Step, rest: seq<Step>)
    requires Enabled(s, step) && Possible(Apply(s, step), rest)
    ensures Possible(s, [step] + rest) && Run(s, [step] + rest) == Run(Apply(s, step), rest)
  {
    hide Enabled, Apply;
    assert ([step] + rest)[1..] == rest;
  }

  lemma {:induction false} RunsConcat(s: State, first: seq<Step>, second: seq<Step>)
    requires Possible(s, first) && Possible(Run(s, first), second)
    ensures Possible(s, first + second) && Run(s, first + second) == Run(Run(s, first), second)
    decreases |first|
  {
    hide Enabled, Apply;
    if first == [] {
      assert first + second == second;
    } else {
      assert (first + second)[1..] == first[1..] + second;
      RunsConcat(Apply(s, first[0]), first[1..], second);
    }
  }

  lemma CreateAndFail(s: State) returns (steps: seq<Step>)
    requires s.queue == multiset{}
    ensures Possible(s, steps) && Run(s, steps) == s.(rows := s.rows + [Retry(s.now)])
  {
    var made := Apply(s, Create(true));
    var fail := Deliver(|s.rows|, false, true);
    var end := Apply(made, fail);
    assert Attempted(NewDelivery(s.now, true), false, true, s.now) == Retry(s.now);
    assert end.rows == s.rows + [Retry(s.now)];
    assert Enabled(s, Create(true)) && Enabled(made, fail);
    hide Enabled, Apply;
    assert Possible(end, []) && Run(end, []) == end;
    Prepend(made, fail, []);
    Prepend(s, Create(true), [fail] + []);
    steps := [Create(true)] + ([fail] + []);
  }

  lemma {:induction false} FailMany(n: nat) returns (steps: seq<Step>)
    ensures Possible(EMPTY, steps) && Run(EMPTY, steps) == State(seq(n, _ => Retry(0)), multiset{}, 0)
  {
    if n == 0 {
      steps := [];
    } else {
      hide Possible, Run, Retry;
      var front := FailMany(n - 1);
      var last := CreateAndFail(Run(EMPTY, front));
      RunsConcat(EMPTY, front, last);
      assert seq(n, _ => Retry(0)) == seq(n - 1, _ => Retry(0)) + [Retry(0)];
      steps := front + last;
    }
  }

  lemma Wait(s: State, seconds: nat)
    ensures Possible(s, [Tick(seconds)]) && Run(s, [Tick(seconds)]) == s.(now := s.now + seconds)
  {
    assert Possible(Apply(s, Tick(seconds)), []);
    Prepend(s, Tick(seconds), []);
    assert [Tick(seconds)] + [] == [Tick(seconds)];
  }

  /** Fifty deliveries that fail at once and one that fails a second later: the last can be starved. */
  lemma BlockedIsReached() returns (steps: seq<Step>, blockers: set<nat>, i: nat)
    ensures Possible(EMPTY, steps) && Blocked(Run(EMPTY, steps), blockers, i)
  {
    hide Possible, Run;
    var fifty := FailMany(50);
    var s := Run(EMPTY, fifty);
    Wait(s, 1);
    var one := CreateAndFail(s.(now := 1));
    var t := s.(now := 1, rows := s.rows + [Retry(1)]);
    Wait(t, 30);
    RunsConcat(s.(now := 1), one, [Tick(30)]);
    RunsConcat(s, [Tick(1)], one + [Tick(30)]);
    RunsConcat(EMPTY, fifty, [Tick(1)] + (one + [Tick(30)]));
    steps := fifty + ([Tick(1)] + (one + [Tick(30)]));
    i := 50;
    var order := seq(50, k requires 0 <= k < 50 => k);
    DistinctCount(order);
    blockers := BatchSet(order);
    assert forall b: nat :: b in blockers ==> b < 50;
    var end := t.(now := 31);
    assert forall b: nat :: b < 50 ==> end.rows[b] == Retry(0);
  }
}
