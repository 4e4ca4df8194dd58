/**
  Webhook deliveries: rows in the database, messages in the topic and the polling cron, with
  delivery, poll and dead-letter retry each atomic. No delivery is lost, attempts are bounded
  and spaced. Times are seconds.
 */
module Webhooks {

  const RETRY_INTERVALS: seq<int> := [30, 60, 300, 900, 3600]
  const MAX_ATTEMPTS := 6
  const POLL_LIMIT := 50

  /** retryIntervalForAttempt; 0 sends the delivery to the dead-letter queue. */
  function RetryInterval(attempt: int): int {
    if attempt < 1 || attempt > |RETRY_INTERVALS| then 0 else RETRY_INTERVALS[attempt - 1]
  }

  datatype Status = Pending | Delivering | Delivered | Retrying | DeadLetter

  /**
    A row of webhook_deliveries. Beside the columns it remembers the times of the attempts
    since the last reset (epoch), all attempts ever made, and whether it was stranded: the publish
    after its creation or reset failed, or the outcome of an attempt could not be recorded.
   */
  datatype Delivery = Delivery(status: Status, attemptCount: nat, dlqRetryCount: nat,
                               nextRetryAt: int, lastAttemptAt: int,
                               epoch: seq<int>, total: nat, stranded: bool)

  datatype State = State(rows: seq<Delivery>, queue: multiset<nat>, now: int)

  datatype Step =
    | Create(published: bool)
    | Deliver(id: nat, accepted: bool, recorded: bool)
    | Poll(batch: seq<nat>, sent: set<nat>)
    | RetryDlq(id: nat, published: bool)
    | Tick(seconds: nat)

  // ---- The operations ----

  function NewDelivery(now: int, published: bool): Delivery {
    Delivery(Pending, 0, 0, now, 0, [], 0, !published)
  }

  function Failed(row: Delivery, now: int): Delivery {
    var interval := RetryInterval(row.attemptCount);
    if interval > 0 then row.(status := Retrying, nextRetryAt := now + interval) else row.(status := DeadLetter)
  }

  function Counted(row: Delivery, now: int): Delivery {
    row.(status := Delivering, attemptCount := row.attemptCount + 1, lastAttemptAt := now,
         epoch := row.epoch + [now], total := row.total + 1)
  }

  /** When the lookup of the attempt count or the update fails, the row stays in delivering. */
  function Outcome(counted: Delivery, accepted: bool, recorded: bool, now: int): Delivery {
    if !recorded then counted.(stranded := true)
    else if accepted then counted.(status := Delivered)
    else Failed(counted, now)
  }

  /** DeliverWebhook: count the attempt, then record its outcome. */
  function Attempted(row: Delivery, accepted: bool, recorded: bool, now: int): Delivery {
    Outcome(Counted(row, now), accepted, recorded, now)
  }

  function Reset(row: Delivery, now: int, published: bool): Delivery {
    row.(status := Pending, attemptCount := 0, dlqRetryCount := row.dlqRetryCount + 1, nextRetryAt := now,
         epoch := [], stranded := !published)
  }

  function Send(queue: multiset<nat>, id: nat, published: bool): multiset<nat> {
    if published then queue + multiset{id} else queue
  }

  /** Poll republishes the batch row by row; a failed lookup or publish skips its row. */
  function Republished(s: State, batch: seq<nat>, sent: set<nat>): State {
    if batch == [] then s
    else
      var before, id := Republished(s, batch[..|batch| - 1], sent), batch[|batch| - 1];
      if id in sent && id < |before.rows| then
        before.(rows := before.rows[id := before.rows[id].(status := Pending)], queue := before.queue + multiset{id})
      else before
  }

  predicate Due(s: State, i: nat) {
    i < |s.rows| && s.rows[i].status.Retrying? && s.rows[i].nextRetryAt <= s.now
  }

  /** What the poll query may return: the fifty earliest due rows, ties in any order. */
  ghost predicate DueBatch(s: State, batch: seq<nat>) {
    && |batch| <= POLL_LIMIT
    && (forall k :: 0 <= k < |batch| ==> Due(s, batch[k]))
    && (forall k, l :: 0 <= k < l < |batch| ==>
          batch[k] != batch[l] && s.rows[batch[k]].nextRetryAt <= s.rows[batch[l]].nextRetryAt)
    && (forall i: nat :: Due(s, i) && i !in batch ==>
          |batch| == POLL_LIMIT &&
          forall k :: 0 <= k < |batch| ==> s.rows[batch[k]].nextRetryAt <= s.rows[i].nextRetryAt)
  }

  ghost predicate Enabled(s: State, step: Step) {
    match step
    case Create(_) => true
    case Deliver(id, _, _) => id < |s.rows| && id in s.queue
    case Poll(batch, _) => DueBatch(s, batch)
    case RetryDlq(id, _) => id < |s.rows| && s.rows[id].status.DeadLetter?
    case Tick(_) => true
  }

  function Apply(s: State, step: Step): State {
    match step
    case Create(published) =>
      s.(rows := s.rows + [NewDelivery(s.now, published)], queue := Send(s.queue, |s.rows|, published))
    case Deliver(id, accepted, recorded) =>
      if id < |s.rows| then
        s.(rows := s.rows[id := Attempted(s.rows[id], accepted, recorded, s.now)], queue := s.queue - multiset{id})
      else s
    case Poll(batch, sent) => Republished(s, batch, sent)
    case RetryDlq(id, published) =>
      if id < |s.rows| then
        s.(rows := s.rows[id := Reset(s.rows[id], s.now, published)], queue := Send(s.queue, id, published))
      else s
    case Tick(seconds) => s.(now := s.now + seconds)
  }

  ghost predicate Possible(s: State, steps: seq<Step>)
    decreases |steps|
  {
    steps == [] || (Enabled(s, steps[0]) && Possible(Apply(s, steps[0]), steps[1..]))
  }

  function Run(s: State, steps: seq<Step>): State
    decreases |steps|
  {
    if steps == [] then s else Run(Apply(s, steps[0]), steps[1..])
  }

  const EMPTY := State([], multiset{}, 0)

  // ---- The invariant of a delivery ----

  /** Attempt j+1 of an epoch came no earlier than its interval after attempt j. */
  predicate Spaced(epoch: seq<int>) {
    forall j :: 0 <= j < |epoch| - 1 ==> epoch[j + 1] >= epoch[j] + RetryInterval(j + 1)
  }

  /** Exactly one of: awaiting its one message, scheduled, delivered, dead, or stranded without a message. */
  predicate Placed(row: Delivery, messages: nat) {
    match row.status
    case Pending => row.attemptCount <= 5 && messages == if row.stranded then 0 else 1
    case Delivering => messages == 0 && row.stranded && 1 <= row.attemptCount <= MAX_ATTEMPTS
    case Delivered => messages == 0 && !row.stranded && 1 <= row.attemptCount <= MAX_ATTEMPTS
    case Retrying => messages == 0 && !row.stranded && 1 <= row.attemptCount <= 5
                     && row.nextRetryAt == row.lastAttemptAt + RetryInterval(row.attemptCount)
    case DeadLetter => messages == 0 && !row.stranded && row.attemptCount == MAX_ATTEMPTS
  }

  /** The attempt history agrees with the counters and the clock. */
  predicate Chronicled(row: Delivery, now: int) {
    && row.total == MAX_ATTEMPTS * row.dlqRetryCount + row.attemptCount
    && |row.epoch| == row.attemptCount
    && Spaced(row.epoch)
    && (row.attemptCount > 0 ==>
          row.epoch[row.attemptCount - 1] == row.lastAttemptAt <= now)
    && (row.status.Pending? && row.attemptCount > 0 ==> row.lastAttemptAt + RetryInterval(row.attemptCount) <= now)
  }

  predicate Good(row: Delivery, messages: nat, now: int) {
    Placed(row, messages) && Chronicled(row, now)
  }

  ghost predicate Inv(s: State) {
    && (forall i :: 0 <= i < |s.rows| ==> Good(s.rows[i], s.queue[i], s.now))
    && (forall id: nat :: id in s.queue ==> id < |s.rows|)
  }

  lemma AttemptKeepsGood(row: Delivery, accepted: bool, recorded: bool, now: int)
    requires Good(row, 1, now)
    ensures Good(Attempted(row, accepted, recorded, now), 0, now)
  {
    var next := Attempted(row, accepted, recorded, now);
    forall j | 0 <= j < |next.epoch| - 1
      ensures next.epoch[j + 1] >= next.epoch[j] + RetryInterval(j + 1)
    {
      if j < |row.epoch| - 1 {
        assert row.epoch[j + 1] >= row.epoch[j] + RetryInterval(j + 1);
      }
    }
  }

  lemma TimePasses(row: Delivery, messages: nat, now: int, later: int)
    requires Good(row, messages, now) && now <= later
    ensures Good(row, messages, later)
  {
  }

  lemma PollKeepsGood(row: Delivery, now: int)
    requires Good(row, 0, now) && row.status.Retrying? && row.nextRetryAt <= now
    ensures Good(row.(status := Pending), 1, now)
  {
  }

  lemma ResetKeepsGood(row: Delivery, now: int, published: bool)
    requires Good(row, 0, now) && row.status.DeadLetter?
    ensures Good(Reset(row, now, published), if published then 1 else 0, now)
  {
  }

  /** Republishing turns exactly the sent rows of the batch pending and gives each one message. */
  lemma {:induction false} RepublishedRows(s: State, batch: seq<nat>, sent: set<nat>, i: nat)
    requires forall k :: 0 <= k < |batch| ==> batch[k] < |s.rows|
    requires forall k, l :: 0 <= k < l < |batch| ==> batch[k] != batch[l]
    ensures var r := Republished(s, batch, sent);
            && |r.rows| == |s.rows| && r.now == s.now
            && (i < |s.rows| ==>
                  r.rows[i] == if i in batch && i in sent then s.rows[i].(status := Pending) else s.rows[i])
            && r.queue[i] == s.queue[i] + if i in batch && i in sent then 1 else 0
  {
    if batch != [] {
      var last := |batch| - 1;
      RepublishedRows(s, batch[..last], sent, i);
      RepublishedRows(s, batch[..last], sent, batch[last]);
      assert batch[last] !in batch[..last];
      assert i in batch <==> i in batch[..last] || i == batch[last];
    }
  }

  lemma BatchIsDue(s: State, batch: seq<nat>, i: nat)
    requires DueBatch(s, batch)
    ensures i in batch ==> Due(s, i)
  {
  }

  lemma PollKeepsInv(s: State, batch: seq<nat>, sent: set<nat>)
    requires Inv(s) && DueBatch(s, batch)
    ensures Inv(Republished(s, batch, sent))
  {
    hide Republished, Good;
    var r := Republished(s, batch, sent);
    forall i: nat
      ensures i < |r.rows| ==> Good(r.rows[i], r.queue[i], r.now)
      ensures i in r.queue ==> i < |r.rows|
    {
      RepublishedRows(s, batch, sent, i);
      BatchIsDue(s, batch, i);
      if i < |s.rows| && i in batch && i in sent {
        RetryingHasNoMessage(s.rows[i], s.queue[i], s.now);
        PollKeepsGood(s.rows[i], s.now);
      }
    }
  }

  lemma RetryingHasNoMessage(row: Delivery, messages: nat, now: int)
    requires Good(row, messages, now)
    ensures row.status.Retrying? || row.status.DeadLetter? || row.status.Delivered? ==> messages == 0
    ensures messages <= 1
    ensures messages == 1 ==> row.status.Pending?
  {
  }

  /** Rewriting one row and its message count keeps the invariant if that row stays good. */
  lemma RowKeepsInv(s: State, id: nat, row: Delivery, queue: multiset<nat>)
    requires Inv(s) && id < |s.rows|
    requires queue == s.queue[id := queue[id]] && Good(row, queue[id], s.now)
    ensures Inv(s.(rows := s.rows[id := row], queue := queue))
  {
    hide Good;
    forall j: nat | j in queue ensures j < |s.rows| {
      assert j == id || j in s.queue;
    }
  }

  lemma ApplyKeepsInv(s: State, step: Step)
    requires Inv(s) && Enabled(s, step)
    ensures Inv(Apply(s, step))
  {
    hide Good, Attempted, Reset, Republished, DueBatch;
    match step
    case Create(published) =>
      CreateKeepsInv(s, published);
    case Deliver(id, accepted, recorded) =>
      RetryingHasNoMessage(s.rows[id], s.queue[id], s.now);
      AttemptKeepsGood(s.rows[id], accepted, recorded, s.now);
      RowKeepsInv(s, id, Attempted(s.rows[id], accepted, recorded, s.now), s.queue - multiset{id});
    case Poll(batch, sent) => PollKeepsInv(s, batch, sent);
    case RetryDlq(id, published) =>
      RetryingHasNoMessage(s.rows[id], s.queue[id], s.now);
      ResetKeepsGood(s.rows[id], s.now, published);
      RowKeepsInv(s, id, Reset(s.rows[id], s.now, published), Send(s.queue, id, published));
    case Tick(seconds) =>
      forall i | 0 <= i < |s.rows| ensures Good(s.rows[i], s.queue[i], s.now + seconds) {
        TimePasses(s.rows[i], s.queue[i], s.now, s.now + seconds);
      }
  }

  lemma CreateKeepsInv(s: State, published: bool)
    requires Inv(s)
    ensures Inv(Apply(s, Create(published)))
  {
    hide Good;
    NewIsGood(s.now, published);
    assert s.queue[|s.rows|] == 0;
    var next := Apply(s, Create(published));
    forall i | 0 <= i < |next.rows| ensures Good(next.rows[i], next.queue[i], next.now) {
      if i < |s.rows| {
        assert next.rows[i] == s.rows[i] && next.queue[i] == s.queue[i];
      }
    }
  }

  lemma NewIsGood(now: int, published: bool)
    ensures Good(NewDelivery(now, published), if published then 1 else 0, now)
  {
  }

  lemma {:induction false} RunKeepsInv(s: State, steps: seq<Step>)
    requires Inv(s) && Possible(s, steps)
    ensures Inv(Run(s, steps))
    decreases |steps|
  {
    hide Inv, Enabled, Apply;
    if steps != [] {
      ApplyKeepsInv(s, steps[0]);
      RunKeepsInv(Apply(s, steps[0]), steps[1..]);
    }
  }

  // ---- What an attempt leaves, in the end's own terms ----

  /** The schedule: after failed attempt n the next one is this many seconds away. */
  predicate ScheduledAfter(row: Delivery, now: int) {
    && row.status.Retrying?
    && row.nextRetryAt == now + (if row.attemptCount == 1 then 30
                                 else if row.attemptCount == 2 then 60
                                 else if row.attemptCount == 3 then 300
                                 else if row.attemptCount == 4 then 900 else 3600)
  }

  /** Delivered on a stored 2xx; retrying or, the sixth time, dead on a stored refusal; otherwise in delivering. */
  predicate AttemptOutcome(before: Delivery, after: Delivery, accepted: bool, recorded: bool, now: int) {
    && after.attemptCount == before.attemptCount + 1 && after.lastAttemptAt == now
    && after.dlqRetryCount == before.dlqRetryCount && after.total == before.total + 1
    && (after.status.Delivered? <==> accepted && recorded)
    && (!recorded ==> after.status.Delivering?)
    && (!accepted && recorded ==>
          if after.attemptCount <= 5 then ScheduledAfter(after, now) else after.status.DeadLetter?)
  }

  lemma AttemptLeaves(row: Delivery, accepted: bool, recorded: bool, now: int)
    ensures var after := Attempted(row, accepted, recorded, now);
            && after == Outcome(Counted(row, now), accepted, recorded, now)
            && AttemptOutcome(row, after, accepted, recorded, now)
            && (after.status.Delivered? <==> accepted && recorded)
            && (!accepted && recorded ==> after.status.Retrying? || after.status.DeadLetter?)
  {
  }

  function IsDelivered(s: State, id: nat): bool { id < |s.rows| && s.rows[id].status.Delivered? }

  /** The last attempt at a delivery in a run: whether the customer accepted and whether that was recorded. */
  function LastAttempt(steps: seq<Step>, id: nat): (last: seq<(bool, bool)>)
    ensures |last| <= 1
  {
    if steps == [] then []
    else if LastAttempt(steps[1..], id) != [] then LastAttempt(steps[1..], id)
    else if steps[0].Deliver? && steps[0].id == id then [(steps[0].accepted, steps[0].recorded)]
    else []
  }

  lemma StepDelivers(s: State, step: Step, id: nat)
    requires Inv(s) && Enabled(s, step)
    ensures IsDelivered(Apply(s, step), id)
            <==> if step.Deliver? && step.id == id then step.accepted && step.recorded else IsDelivered(s, id)
  {
    if step.Deliver? {
      AttemptLeaves(s.rows[step.id], step.accepted, step.recorded, s.now);
      hide Attempted;
    } else if step.Poll? {
      hide Republished, Inv;
      RepublishedRows(s, step.batch, step.sent, id);
      BatchIsDue(s, step.batch, id);
    }
  }

  lemma {:induction false} RunDelivers(s: State, steps: seq<Step>, id: nat)
    requires Inv(s) && Possible(s, steps)
    ensures IsDelivered(Run(s, steps), id)
            <==> if LastAttempt(steps, id) == [] then IsDelivered(s, id) else LastAttempt(steps, id) == [(true, true)]
    decreases |steps|
  {
    hide Inv, Enabled, Apply, IsDelivered;
    if steps != [] {
      ApplyKeepsInv(s, steps[0]);
      StepDelivers(s, steps[0], id);
      RunDelivers(Apply(s, steps[0]), steps[1..], id);
    }
  }

  /** A delivery is marked delivered exactly when its last attempt was accepted and recorded. */
  lemma DeliveredIffAccepted(steps: seq<Step>, id: nat)
    requires Possible(EMPTY, steps) && id < |Run(EMPTY, steps).rows|
    ensures Run(EMPTY, steps).rows[id].status.Delivered? <==> LastAttempt(steps, id) == [(true, true)]
  {
    hide Possible, Run, LastAttempt;
    RunDelivers(EMPTY, steps, id);
  }

  // ---- Main results ----

  /** Attempts are bounded by resets, and every row is placed in exactly one state. */
  lemma NothingLost(steps: seq<Step>, i: nat)
    requires Possible(EMPTY, steps) && i < |Run(EMPTY, steps).rows|
    ensures var s := Run(EMPTY, steps);
            var row := s.rows[i];
            && Placed(row, s.queue[i])
            && row.total <= 6 * (1 + row.dlqRetryCount)
            && (!row.stranded ==>
                  (row.status.Pending? && s.queue[i] == 1) || row.status.Retrying?
                  || row.status.Delivered? || row.status.DeadLetter?)
  {
    hide Possible, Run;
    RunKeepsInv(EMPTY, steps);
    assert Good(Run(EMPTY, steps).rows[i], Run(EMPTY, steps).queue[i], Run(EMPTY, steps).now);
  }

  /** Summing the schedule: a dead delivery spent at least 4890 seconds on its six attempts. */
  lemma SlowToDie(steps: seq<Step>, i: nat)
    requires Possible(EMPTY, steps) && i < |Run(EMPTY, steps).rows|
    requires Run(EMPTY, steps).rows[i].status.DeadLetter?
    ensures var row := Run(EMPTY, steps).rows[i];
            && |row.epoch| == 6 && row.epoch[5] == row.lastAttemptAt
            && row.epoch[1] - row.epoch[0] >= 30 && row.epoch[2] - row.epoch[1] >= 60
            && row.epoch[3] - row.epoch[2] >= 300 && row.epoch[4] - row.epoch[3] >= 900
            && row.epoch[5] - row.epoch[4] >= 3600
            && row.lastAttemptAt - row.epoch[0] >= 4890
  {
    hide Possible, Run;
    RunKeepsInv(EMPTY, steps);
    var row := Run(EMPTY, steps).rows[i];
    assert Good(row, Run(EMPTY, steps).queue[i], Run(EMPTY, steps).now);
    var e := row.epoch;
    assert e[1] >= e[0] + RetryInterval(1) && e[2] >= e[1] + RetryInterval(2) && e[3] >= e[2] + RetryInterval(3);
    assert e[4] >= e[3] + RetryInterval(4) && e[5] >= e[4] + RetryInterval(5);
  }

  /** The step loses its delivery: a failed publish of a new or reset one, or an outcome not recorded. */
  predicate Loses(step: Step) {
    match step
    case Create(published) => !published
    case RetryDlq(_, published) => !published
    case Deliver(_, _, recorded) => !recorded
    case _ => false
  }

  ghost predicate AnyStranded(s: State) { exists i :: 0 <= i < |s.rows| && s.rows[i].stranded }

  lemma StepStrands(s: State, step: Step)
    requires Inv(s) && Enabled(s, step)
    ensures AnyStranded(Apply(s, step)) <==> AnyStranded(s) || Loses(step)
  {
    hide Inv, Enabled;
    var next := Apply(s, step);
    if AnyStranded(s) {
      var i :| 0 <= i < |s.rows| && s.rows[i].stranded;
      StrandedStays(s, step, i);
    } else if Loses(step) {
      LoserStrands(s, step);
    } else {
      forall i | 0 <= i < |next.rows| ensures !next.rows[i].stranded {
        StrandedOnlyBy(s, step, i);
      }
    }
  }

  lemma LoserStrands(s: State, step: Step)
    requires Enabled(s, step) && Loses(step)
    ensures AnyStranded(Apply(s, step))
  {
    var i := if step.Create? then |s.rows| else step.id;
    assert Apply(s, step).rows[i].stranded;
  }

  lemma StrandedOnlyBy(s: State, step: Step, i: nat)
    requires Inv(s) && Enabled(s, step) && !Loses(step) && i < |Apply(s, step).rows|
    ensures Apply(s, step).rows[i].stranded ==> i < |s.rows| && s.rows[i].stranded
  {
    if step.Poll? {
      hide Republished, Inv;
      RepublishedRows(s, step.batch, step.sent, i);
    }
  }

  predicate LosesNothing(steps: seq<Step>) { forall k :: 0 <= k < |steps| ==> !Loses(steps[k]) }

  /** A delivery is stranded exactly when some step of the run lost one. */
  lemma {:induction false} StrandedIff(s: State, steps: seq<Step>)
    requires Inv(s) && Possible(s, steps)
    ensures AnyStranded(Run(s, steps)) <==> AnyStranded(s) || !LosesNothing(steps)
    decreases |steps|
  {
    hide Inv, Enabled, Apply, AnyStranded, Loses;
    if steps != [] {
      StepStrands(s, steps[0]);
      ApplyKeepsInv(s, steps[0]);
      StrandedIff(Apply(s, steps[0]), steps[1..]);
      assert LosesNothing(steps) <==> !Loses(steps[0]) && LosesNothing(steps[1..]) by {
        assert forall k :: 0 <= k < |steps| - 1 ==> steps[1..][k] == steps[k + 1];
      }
    }
  }

  lemma StrandedStays(s: State, step: Step, i: nat)
    requires Inv(s) && Enabled(s, step) && i < |s.rows| && s.rows[i].stranded
    ensures i < |Apply(s, step).rows| && Apply(s, step).rows[i] == s.rows[i]
  {
    assert Good(s.rows[i], s.queue[i], s.now);
    if step.Poll? {
      hide Republished, Inv;
      RepublishedRows(s, step.batch, step.sent, i);
      BatchIsDue(s, step.batch, i);
    }
  }

  /** A stranded delivery is never touched again: no message, no poll, no dead-letter retry. */
  lemma {:induction false} StrandedForever(s: State, steps: seq<Step>, i: nat)
    requires Inv(s) && Possible(s, steps) && i < |s.rows| && s.rows[i].stranded
    ensures i < |Run(s, steps).rows| && Run(s, steps).rows[i] == s.rows[i]
    decreases |steps|
  {
    hide Inv, Enabled, Apply;
    if steps != [] {
      ApplyKeepsInv(s, steps[0]);
      StrandedStays(s, steps[0], i);
      StrandedForever(Apply(s, steps[0]), steps[1..], i);
    }
  }

  /** One of the four places a delivery can be without being lost. */
  predicate Kept(row: Delivery, messages: nat) {
    match row.status
    case Pending => messages == 1 && row.attemptCount <= 5
    case Retrying => messages == 0 && 1 <= row.attemptCount <= 5 && row.nextRetryAt > row.lastAttemptAt
    case Delivered => messages == 0
    case DeadLetter => messages == 0 && row.attemptCount == MAX_ATTEMPTS
    case Delivering => false
  }

  ghost predicate NoneLost(s: State) { forall i :: 0 <= i < |s.rows| ==> Kept(s.rows[i], s.queue[i]) }

  /**
    No delivery is lost, each being in exactly one of the four places, if and only if every
    publish of a new or reset delivery succeeded and every attempt's outcome was recorded.
   */
  lemma NoLostDelivery(steps: seq<Step>)
    requires Possible(EMPTY, steps)
    ensures NoneLost(Run(EMPTY, steps)) <==> LosesNothing(steps)
  {
    hide Possible, Run, LosesNothing;
    StrandedIff(EMPTY, steps);
    RunKeepsInv(EMPTY, steps);
    var s := Run(EMPTY, steps);
    forall i | 0 <= i < |s.rows| ensures Kept(s.rows[i], s.queue[i]) <==> !s.rows[i].stranded {
      assert Good(s.rows[i], s.queue[i], s.now);
    }
  }

  /** Two runs that lose their only delivery: its first publish fails, or the lookup after its first attempt. */
  lemma LostAtCreation()
    ensures var steps := [Create(false)];
            Possible(EMPTY, steps) && !NoneLost(Run(EMPTY, steps))
  {
    assert !Kept(Run(EMPTY, [Create(false)]).rows[0], 0);
  }

  lemma LostAtAttempt()
    ensures var steps := [Create(true), Deliver(0, false, false)];
            Possible(EMPTY, steps) && !NoneLost(Run(EMPTY, steps))
  {
    var s1 := Apply(EMPTY, Create(true));
    var lost := [Deliver(0, false, false)];
    assert [Create(true), Deliver(0, false, false)][1..] == lost;
    assert lost[1..] == [];
    assert Possible(s1, lost);
    var end := Run(s1, lost);
    assert end == Apply(s1, lost[0]) && end.rows[0].status.Delivering?;
    assert !Kept(end.rows[0], end.queue[0]);
  }
}
