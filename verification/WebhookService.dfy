/** The webhook endpoints as code over the delivery table, the topic and the clock. */
module WebhookService {
  import opened Webhooks

  datatype RetryResult = Requeued | NotFound | NotInDLQ | PublishFailed

  predicate AllIn(batch: seq<nat>, sent: set<nat>) { forall id :: id in batch ==> id in sent }

  lemma RepublishNothing(s: State, batch: seq<nat>, sent: set<nat>)
    ensures Republished(s, batch[..0], sent) == s && AllIn(batch[..0], sent)
  {
  }

  /** One turn of the polling loop. */
  lemma RepublishStep(s: State, batch: seq<nat>, sent: set<nat>, k: nat)
    requires k < |batch| && DueBatch(s, batch)
    ensures batch[k] < |s.rows|
    ensures AllIn(batch[..k + 1], sent) <==> AllIn(batch[..k], sent) && batch[k] in sent
    ensures var before := Republished(s, batch[..k], sent);
            Republished(s, batch[..k + 1], sent)
            == if batch[k] in sent && batch[k] < |before.rows| then
                 before.(rows := before.rows[batch[k] := before.rows[batch[k]].(status := Pending)],
                         queue := before.queue + multiset{batch[k]})
               else before
  {
    assert batch[..k + 1][..k] == batch[..k];
    assert Due(s, batch[k]);
    assert forall j :: j in batch[..k + 1] <==> j in batch[..k] || j == batch[k];
  }

  /** An attempt at a row with its message leaves it kept exactly when the outcome is recorded. */
  lemma AttemptPlaces(row: Delivery, messages: nat, accepted: bool, recorded: bool, now: int)
    requires Good(row, messages, now) && messages > 0
    ensures messages == 1
    ensures var next := Attempted(row, accepted, recorded, now);
            && (Kept(next, 0) <==> recorded)
            && (next.status.DeadLetter? ==> row.attemptCount == MAX_ATTEMPTS - 1)
  {
    AttemptKeepsGood(row, accepted, recorded, now);
  }

  /** The state after an attempt: one row rewritten, its one message gone. */
  lemma AttemptShows(s: State, id: nat, accepted: bool, recorded: bool)
    requires Inv(s) && id < |s.rows| && id in s.queue
    ensures var row := Attempted(s.rows[id], accepted, recorded, s.now);
            && row == Outcome(Counted(s.rows[id], s.now), accepted, recorded, s.now)
            && Apply(s, Deliver(id, accepted, recorded)) == State(s.rows[id := row], s.queue - multiset{id}, s.now)
            && AttemptOutcome(s.rows[id], row, accepted, recorded, s.now)
            && (row.status.Delivered? <==> accepted && recorded)
            && (!accepted && recorded ==> row.status.Retrying? || row.status.DeadLetter?)
            && (Kept(row, 0) <==> recorded)
            && (row.status.DeadLetter? ==> s.rows[id].attemptCount == MAX_ATTEMPTS - 1)
    ensures s.queue[id] == 1
    ensures Inv(Apply(s, Deliver(id, accepted, recorded)))
  {
    ApplyKeepsInv(s, Deliver(id, accepted, recorded));
    AttemptPlaces(s.rows[id], s.queue[id], accepted, recorded, s.now);
    AttemptLeaves(s.rows[id], accepted, recorded, s.now);
    hide Good, Kept, Attempted, Outcome, Counted, AttemptOutcome;
  }

  lemma ResetPlaces(row: Delivery, messages: nat, published: bool, now: int)
    requires Good(row, messages, now) && row.status.DeadLetter?
    ensures messages == 0
    ensures Kept(Reset(row, now, published), if published then 1 else 0) <==> published
  {
  }

  /** What a poll does to one row and its messages. */
  ghost predicate RowPolled(before: State, after: State, batch: seq<nat>, sent: set<nat>, i: nat) {
    && |after.rows| == |before.rows|
    && (i < |before.rows| ==>
          after.rows[i] == if i in batch && i in sent then before.rows[i].(status := Pending) else before.rows[i])
    && after.queue[i] == before.queue[i] + (if i in batch && i in sent then 1 else 0)
  }

  lemma BatchRows(s: State, batch: seq<nat>)
    requires DueBatch(s, batch)
    ensures |batch| <= 50
    ensures forall k :: 0 <= k < |batch| ==> batch[k] < |s.rows|
    ensures forall k, l :: 0 <= k < l < |batch| ==> batch[k] != batch[l]
  {
  }

  class Service {
    var rows: seq<Delivery>
    var queue: multiset<nat>
    var now: int

    constructor ()
      ensures Valid() && View() == EMPTY
    {
      rows, queue, now := [], multiset{}, 0;
    }

    function View(): State
      reads this
    {
      State(rows, queue, now)
    }

    /** Every row in its one place, with history, counters and message count in agreement. */
    ghost predicate Valid()
      reads this
    {
      Inv(View())
    }

    /** Insert a pending row, then publish its message. */
    method CreateAndPublishWebhook(publishOk: bool) returns (id: nat, ok: bool)
      requires Valid()
      modifies this`rows, this`queue
      ensures Valid() && id == |old(rows)| && ok == publishOk
      ensures View() == Apply(old(View()), Create(publishOk))
      ensures rows[..id] == old(rows) && (Kept(rows[id], queue[id]) <==> ok)
      ensures rows[id].status.Pending? && rows[id].attemptCount == rows[id].dlqRetryCount == 0
      ensures queue == if publishOk then old(queue) + multiset{id} else old(queue)
    {
      ApplyKeepsInv(View(), Create(publishOk));
      assert queue[|rows|] == 0;
      hide Inv;
      id := |rows|;
      rows := rows + [NewDelivery(now, publishOk)];
      if !publishOk {
        return id, false;
      }
      queue := queue + multiset{id};
      return id, true;
    }

    /**
      Take a message and post it; accepted says whether the customer answered with a 2xx, countFound
      and stored whether the attempt count could be read back and the outcome written.
     */
    method DeliverWebhook(id: nat, accepted: bool, countFound: bool, stored: bool)
      requires Valid() && id < |rows| && id in queue
      modifies this`rows, this`queue
      ensures Valid()
      ensures View() == Apply(old(View()), Deliver(id, accepted, stored && (accepted || countFound)))
      ensures queue == old(queue) - multiset{id} && queue[id] == 0 && rows == old(rows)[id := rows[id]]
      ensures rows[id].status.Delivered? <==> accepted && stored
      ensures !accepted && countFound && stored ==> rows[id].status.Retrying? || rows[id].status.DeadLetter?
      ensures AttemptOutcome(old(rows[id]), rows[id], accepted, stored && (accepted || countFound), now)
      ensures Kept(rows[id], queue[id]) <==> stored && (accepted || countFound)
      ensures rows[id].status.DeadLetter? ==> old(rows[id]).attemptCount == 5
    {
      ghost var before, recorded := View(), stored && (accepted || countFound);
      AttemptShows(before, id, accepted, recorded);
      hide Inv, Kept, Enabled, Apply, Attempted, AttemptOutcome;
      queue := queue - multiset{id};
      var row := rows[id];
      rows := rows[id := row.(status := Delivering, attemptCount := row.attemptCount + 1, lastAttemptAt := now,
                              epoch := row.epoch + [now], total := row.total + 1)];
      assert rows[id] == Counted(row, now);
      hide Counted, Outcome;
      RecordOutcome(id, accepted, countFound, stored);
      assert rows == before.rows[id := Attempted(row, accepted, recorded, now)];
    }

    /** What follows the HTTP response. */
    method RecordOutcome(id: nat, accepted: bool, countFound: bool, stored: bool)
      requires id < |rows|
      modifies this`rows
      ensures rows == old(rows)[id := Outcome(old(rows)[id], accepted, stored && (accepted || countFound), now)]
      ensures accepted && stored ==> rows[id].status.Delivered?
      ensures !(accepted && stored) && !old(rows)[id].status.Delivered? ==> !rows[id].status.Delivered?
    {
      hide Failed;
      if accepted {
        if stored {
          rows := rows[id := rows[id].(status := Delivered)];
        }
      } else {
        HandleDeliveryFailure(id, countFound, stored);
      }
      if !(stored && (accepted || countFound)) {
        rows := rows[id := rows[id].(stranded := true)];
      }
    }

    /** Schedule the retry of this attempt, or give up; an unreadable count leaves the row as it is. */
    method HandleDeliveryFailure(id: nat, countFound: bool, stored: bool)
      requires id < |rows|
      modifies this`rows
      ensures rows == old(rows)[id := if countFound && stored then Failed(old(rows)[id], now) else old(rows)[id]]
      ensures countFound && stored ==>
                if 1 <= rows[id].attemptCount <= 5 then ScheduledAfter(rows[id], now) else rows[id].status.DeadLetter?
    {
      if !countFound {
        return;
      }
      var attemptCount := rows[id].attemptCount;
      var interval := RetryInterval(attemptCount);
      if stored {
        if interval > 0 {
          rows := rows[id := rows[id].(status := Retrying, nextRetryAt := now + interval)];
        } else {
          rows := rows[id := rows[id].(status := DeadLetter)];
        }
      }
    }

    /** Republish what the query returned, skipping rows whose lookup or publish fails. */
    method PollRetries(batch: seq<nat>, secretFound: set<nat>, publishOk: set<nat>) returns (count: nat)
      requires Valid() && DueBatch(View(), batch)
      modifies this`rows, this`queue
      ensures Valid()
      ensures View() == Apply(old(View()), Poll(batch, secretFound * publishOk))
      ensures forall i: nat :: RowPolled(old(View()), View(), batch, secretFound * publishOk, i)
      ensures count <= |batch| <= 50 && (count == |batch| <==> AllIn(batch, secretFound * publishOk))
    {
      ghost var start := View();
      hide Republished, DueBatch, Due, Inv;
      count := 0;
      ghost var sent := secretFound * publishOk;
      RepublishNothing(start, batch, sent);
      for k := 0 to |batch|
        invariant |rows| == |start.rows|
        invariant View() == Republished(start, batch[..k], sent)
        invariant count <= k && (count == k <==> AllIn(batch[..k], sent))
      {
        var id := batch[k];
        RepublishStep(start, batch, sent, k);
        if id !in secretFound {
          continue;
        }
        if id !in publishOk {
          continue;
        }
        queue := queue + multiset{id};
        rows := rows[id := rows[id].(status := Pending)];
        count := count + 1;
      }
      assert batch[..|batch|] == batch;
      ApplyKeepsInv(start, Poll(batch, sent));
      BatchRows(start, batch);
      forall i: nat ensures RowPolled(start, View(), batch, sent, i) {
        RepublishedRows(start, batch, sent, i);
      }
    }

    /** Reset a dead delivery and publish it again. */
    method RetryDLQ(id: nat, publishOk: bool) returns (r: RetryResult)
      requires Valid()
      modifies this`rows, this`queue
      ensures Valid()
      ensures r == Requeued || r == PublishFailed ==> id < |rows| && (Kept(rows[id], queue[id]) <==> r == Requeued)
      ensures r == NotFound <==> id >= |old(rows)|
      ensures r == NotInDLQ <==> id < |old(rows)| && !old(rows)[id].status.DeadLetter?
      ensures r == NotFound || r == NotInDLQ ==> View() == old(View())
      ensures r == Requeued || r == PublishFailed ==>
                View() == Apply(old(View()), RetryDlq(id, publishOk)) && (r == Requeued <==> publishOk)
      ensures r == Requeued || r == PublishFailed ==>
                && rows == old(rows)[id := rows[id]] && rows[id].status.Pending? && rows[id].attemptCount == 0
                && rows[id].dlqRetryCount == old(rows)[id].dlqRetryCount + 1 && rows[id].nextRetryAt == now
                && queue == if publishOk then old(queue) + multiset{id} else old(queue)
    {
      if id >= |rows| {
        return NotFound;
      }
      if rows[id].status != DeadLetter {
        return NotInDLQ;
      }
      ApplyKeepsInv(View(), RetryDlq(id, publishOk));
      ResetPlaces(rows[id], queue[id], publishOk, now);
      hide Inv, Good, Kept, Enabled;
      var row := rows[id];
      rows := rows[id := row.(status := Pending, attemptCount := 0, dlqRetryCount := row.dlqRetryCount + 1,
                              nextRetryAt := now, epoch := [], stranded := !publishOk)];
      assert rows[id] == Reset(row, now, publishOk);
      if !publishOk {
        return PublishFailed;
      }
      queue := queue + multiset{id};
      return Requeued;
    }
  }
}
