/**
  The callback service as an object: InitiateCallback with its compensations, runCall as the
  loop it is, finalizeCall under its once, and the FreeSWITCH disconnect handler. Each method
  runs uninterrupted here; Lifecycle interleaves the same transitions.
 */
module CallbackService {
  import opened Sequences
  import opened Numbers
  import opened Costs
  import opened Calls
  import opened CallOutcomes
  import opened Accounts
  import L = Lifecycle
  import I = Initiation
  import R = CallRuns

  /** The record finalizeCall persists. */
  function Closed(call: CallbackCall, final: Status, now: int, thresholdSec: int): CallbackCall {
    var m := Measured(call, final, now, thresholdSec);
    m.(aLegCost := LegCost(ASeconds(m), m.aLegRate, A_BLOCK),
       bLegCost := LegCost(BSeconds(m), m.bLegRate, B_BLOCK),
       totalCost := SettledCost(m),
       recording := if PublishesMerge(m) then Merging else m.recording)
  }

  predicate PublishesMerge(call: CallbackCall) { call.bridgeAt.Some? && call.recording.Recording? }

  function SettlementOp(id: int, call: CallbackCall, final: Status, now: int, thresholdSec: int): LedgerOp {
    var m := Measured(call, final, now, thresholdSec);
    LedgerOp.Finalize(id, ASeconds(m), BSeconds(m), m.aLegRate, m.bLegRate, m.preDeductAmount)
  }

  /** Everything a settlement writes to. */
  datatype Books = Books(ledger: Ledger, slots: int, merges: seq<int>, persisted: map<int, CallbackCall>)

  /** The books after one call's settlement, given its record before. */
  function Settle(b: Books, id: int, record: CallbackCall, final: Status, now: int, thresholdSec: int): Books {
    Books(Book(b.ledger, SettlementOp(id, record, final, now, thresholdSec)), Max(0, b.slots - 1),
          b.merges + (if PublishesMerge(record) then [id] else []),
          b.persisted[id := Closed(record, final, now, thresholdSec)])
  }

  /** What the disconnect handler makes of a record before it is settled. */
  function Blamed(record: CallbackCall): CallbackCall { record.(failureReason := Some(FsConnectionLost)) }

  /** The books after the disconnect handler has settled these calls in this order. */
  function LoseAll(b: Books, records: map<int, CallbackCall>, order: seq<int>, now: int, thresholdSec: int): Books
    requires forall id :: id in order ==> id in records
  {
    if order == [] then b
    else
      var last := order[|order| - 1];
      Settle(LoseAll(b, records, order[..|order| - 1], now, thresholdSec),
             last, Blamed(records[last]), Failed, now, thresholdSec)
  }

  /** What settling one call does to the books, in amounts and fields. */
  ghost predicate SettledBooks(b: Books, after: Books, id: int, record: CallbackCall, final: Status,
                               now: int, thresholdSec: int) {
    && id in after.persisted && after.persisted == b.persisted[id := after.persisted[id]]
    && RightlyClosed(record, after.persisted[id], final, now, thresholdSec)
    && var back := record.preDeductAmount - after.persisted[id].totalCost;
       var balance := b.ledger.balance + back;
       && after.ledger == Ledger(balance, b.ledger.creditLimit, b.ledger.rows +
                                 [if back > 0 then Transaction(Refunded, back, balance, Some(id))
                                  else Transaction(Finalized, -back, balance, Some(id))])
       && after.slots == (if b.slots > 0 then b.slots - 1 else 0)
       && after.merges == b.merges + (if record.bridgeAt.Some? && record.recording == Recording then [id] else [])
  }

  lemma LastsByElapsed(recorded: int, since: Option<int>, until: Option<int>, now: int)
    ensures Lasts(SetDuration(recorded, since, until, now), recorded, since, until, now)
  {
  }

  lemma WastedRightly(record: CallbackCall, final: Status, now: int, thresholdSec: int)
    ensures WastedAs(record, Measured(record, final, now, thresholdSec), thresholdSec)
  {
    hide CalculateCost, SetDuration;
  }

  /** Closing a record keeps its terms, stamps and end, and sets status, durations, costs and waste. */
  lemma ClosedRightly(record: CallbackCall, final: Status, now: int, thresholdSec: int)
    ensures RightlyClosed(record, Closed(record, final, now, thresholdSec), final, now, thresholdSec)
  {
    var m := Measured(record, final, now, thresholdSec);
    LastsByElapsed(record.aDurationMs, record.aAnswerAt, record.aHangupAt, now);
    LastsByElapsed(record.bDurationMs, record.bAnswerAt, record.bHangupAt, now);
    LastsByElapsed(record.bridgeDurationMs, record.bridgeAt, record.bridgeEndAt, now);
    WastedRightly(record, final, now, thresholdSec);
    LegCostByBlock(ASeconds(m), m.aLegRate, A_BLOCK);
    LegCostByBlock(BSeconds(m), m.bLegRate, B_BLOCK);
    hide Lasts, SetDuration, ClassifyWastage, LegCost;
  }

  lemma SettledRightly(b: Books, id: int, record: CallbackCall, final: Status, now: int, thresholdSec: int)
    requires b.slots >= 0
    ensures SettledBooks(b, Settle(b, id, record, final, now, thresholdSec), id, record, final, now, thresholdSec)
    ensures Settle(b, id, record, final, now, thresholdSec).persisted[id].status == final
  {
    ClosedRightly(record, final, now, thresholdSec);
    hide RightlyClosed, LegCost, SetDuration, ClassifyWastage;
  }

  /** The record of a call nothing has happened to: thirty minutes held, no stamp, no end. */
  predicate JustCreated(call: CallbackCall, aRate: int, bRate: int) {
    && call.status == Initiating && call.aLegRate == aRate && call.bLegRate == bRate
    && call.preDeductAmount == 30 * (aRate + bRate)
    && call.aDialAt.None? && call.aAnswerAt.None? && call.aHangupAt.None?
    && call.bDialAt.None? && call.bAnswerAt.None? && call.bHangupAt.None?
    && call.bridgeAt.None? && call.bridgeEndAt.None? && call.recording == NotRecorded
    && call.hangupBy.None? && call.failureReason.None? && call.wastage.None? && call.wastageDurationMs.None?
    && call.aDurationMs == call.bDurationMs == call.bridgeDurationMs == 0
  }

  class ActiveCall {
    const callId: int
    var call: CallbackCall
    var eventCh: seq<CallEvent>
    var finalized: bool

    constructor (id: int, record: CallbackCall)
      ensures callId == id && call == record && eventCh == [] && !finalized
    {
      callId, call, eventCh, finalized := id, record, [], false;
    }
  }

  datatype InitiateResult =
    | Initiated
    | InsufficientBalance
    | ConcurrencyLimitExceeded
    | NoALegGateway
    | NoBLegGateway
    | InsertFailed

  class Service {
    const account: Account
    var activeCalls: map<int, ActiveCall>
    var merges: seq<int>
    var persisted: map<int, CallbackCall>

    constructor (account: Account)
      requires account.concurrentSlots >= 0
      ensures Valid() && this.account == account && activeCalls == map[]
    {
      this.account := account;
      activeCalls, merges, persisted := map[], [], map[];
    }

    ghost predicate Valid()
      reads this, account, activeCalls.Values
    {
      && account.concurrentSlots >= 0
      && (forall id :: id in activeCalls ==> activeCalls[id].callId == id && !activeCalls[id].finalized)
    }

    ghost function TheBooks(): Books
      reads this, account
    {
      Books(account.View(), account.concurrentSlots, merges, persisted)
    }

    ghost function Records(): map<int, CallbackCall>
      reads this, activeCalls.Values
    {
      map id | id in activeCalls :: activeCalls[id].call
    }

    /** Everything from the pre-deduction on; the gateway picks and the insert are inputs. */
    method InitiateCallback(callId: int, aRate: int, bRate: int, maxConcurrent: nat,
                            aLegFound: bool, bLegFound: bool, inserted: bool)
      returns (r: InitiateResult)
      requires Valid() && callId !in activeCalls
      modifies this, account
      ensures Valid() && merges == old(merges) && persisted == old(persisted)
      ensures var held := Book(old(account.View()), LedgerOp.PreDeduct(callId, aRate, bRate));
              account.View() == if r == InsufficientBalance || r.Initiated? then held
                                else Book(held, LedgerOp.Finalize(callId, 0, 0, aRate, bRate,
                                                         PreDeductAmount(aRate, bRate)))
      ensures r == (if !Admits(old(account.View()), LedgerOp.PreDeduct(callId, aRate, bRate)) then InsufficientBalance
                    else if old(account.concurrentSlots) >= maxConcurrent then ConcurrencyLimitExceeded
                    else if !aLegFound then NoALegGateway
                    else if !bLegFound then NoBLegGateway
                    else if !inserted then InsertFailed
                    else Initiated)
      ensures var placed := aLegFound && bLegFound && inserted;
              var before := L.State(old(account.balance), old(account.concurrentSlots), [], 0, 0);
              var cfg := L.Config(account.creditLimit, maxConcurrent, 0);
              var admitted := Admits(old(account.View()), LedgerOp.PreDeduct(callId, aRate, bRate));
              admitted ==>
                && account.balance == I.Initiated(cfg, before, aRate, bRate, placed).balance
                && account.concurrentSlots == I.Initiated(cfg, before, aRate, bRate, placed).slots
      ensures r == InsufficientBalance <==> old(account.balance) + account.creditLimit < 30 * (aRate + bRate)
      ensures !r.Initiated? ==>
                && account.balance == old(account.balance)
                && account.concurrentSlots == old(account.concurrentSlots)
                && activeCalls == old(activeCalls)
                && Sum(account.transactions, Signed) == Sum(old(account.transactions), Signed)
      ensures r.Initiated? ==>
                && callId in activeCalls && fresh(activeCalls[callId])
                && activeCalls == old(activeCalls)[callId := activeCalls[callId]]
                && activeCalls[callId].call == NewCall(aRate, bRate, PreDeductAmount(aRate, bRate))
                && JustCreated(activeCalls[callId].call, aRate, bRate)
                && account.balance == old(account.balance) - 30 * (aRate + bRate)
                && account.concurrentSlots == old(account.concurrentSlots) + 1
                && account.balance >= -account.creditLimit && account.concurrentSlots <= maxConcurrent
    {
      hide Sum, I.Outcome;
      var amount := account.PreDeduct(callId, aRate, bRate);
      if amount.None? {
        return InsufficientBalance;
      }
      ghost var held := account.transactions;
      SumAppend(old(account.transactions), held[|old(account.transactions)|], Signed);
      var slot := account.AcquireSlot(maxConcurrent);
      if slot.None? {
        RefundHold(callId, aRate, bRate, amount.value);
        return ConcurrencyLimitExceeded;
      }
      if !aLegFound {
        Compensate(callId, aRate, bRate, amount.value);
        return NoALegGateway;
      }
      if !bLegFound {
        Compensate(callId, aRate, bRate, amount.value);
        return NoBLegGateway;
      }
      if !inserted {
        Compensate(callId, aRate, bRate, amount.value);
        return InsertFailed;
      }
      var ac := new ActiveCall(callId, NewCall(aRate, bRate, amount.value));
      activeCalls := activeCalls[callId := ac];
      return Initiated;
    }

    /** What every failure after the slot was granted does: release it, then refund. */
    method Compensate(callId: int, aRate: int, bRate: int, amount: int)
      modifies account`balance, account`transactions, account`concurrentSlots
      ensures account.View() == Book(old(account.View()), LedgerOp.Finalize(callId, 0, 0, aRate, bRate, amount))
      ensures account.concurrentSlots == Max(0, old(account.concurrentSlots) - 1)
      ensures account.balance == old(account.balance) + amount
      ensures Sum(account.transactions, Signed) == Sum(old(account.transactions), Signed) + amount
    {
      account.ReleaseSlot();
      RefundHold(callId, aRate, bRate, amount);
    }

    /** The Finalize of a call that never was: no duration, so the whole hold comes back. */
    method RefundHold(callId: int, aRate: int, bRate: int, amount: int)
      modifies account`balance, account`transactions
      ensures account.View() == Book(old(account.View()), LedgerOp.Finalize(callId, 0, 0, aRate, bRate, amount))
      ensures account.balance == old(account.balance) + amount
      ensures Sum(account.transactions, Signed) == Sum(old(account.transactions), Signed) + amount
    {
      var _ := account.Finalize(callId, 0, 0, aRate, bRate, amount);
      SumAppend(old(account.transactions), account.transactions[|old(account.transactions)|], Signed);
    }

    /** finalizeCall: nothing unless the call is active and not yet finalized. */
    method FinalizeCall(callId: int, final: Status, now: int, thresholdSec: int)
      requires Valid()
      modifies this, account, if callId in activeCalls then {activeCalls[callId]} else {}
      ensures Valid()
      ensures callId !in old(activeCalls) ==> activeCalls == old(activeCalls) && TheBooks() == old(TheBooks())
      ensures callId in old(activeCalls) ==>
                var ac := old(activeCalls[callId]);
                && ac.finalized && activeCalls == old(activeCalls) - {callId}
                && ac.call == Closed(old(ac.call), final, now, thresholdSec)
                && TheBooks() == Settle(old(TheBooks()), callId, old(ac.call), final, now, thresholdSec)
      ensures callId in old(activeCalls) ==>
                && persisted[callId].status == final
                && SettledBooks(old(TheBooks()), TheBooks(), callId, old(activeCalls[callId].call),
                                final, now, thresholdSec)
    {
      hide Measured, CallCost, SettledBooks, Book, ASeconds, BSeconds, LegCost;
      if callId !in activeCalls {
        return;
      }
      var ac := activeCalls[callId];
      if ac.finalized {
        return;
      }
      SettledRightly(TheBooks(), callId, ac.call, final, now, thresholdSec);
      ac.finalized := true;
      ghost var start := ac.call;
      ac.call := Measure(ac.call, final, now, thresholdSec);
      var resp := account.Finalize(callId, ASeconds(ac.call), BSeconds(ac.call), ac.call.aLegRate, ac.call.bLegRate,
                                   ac.call.preDeductAmount);
      ac.call := ac.call.(aLegCost := resp.aLegCost, bLegCost := resp.bLegCost, totalCost := resp.totalCost);
      account.ReleaseSlot();
      MeasuredKeepsBridge(start, final, now, thresholdSec);
      if ac.call.bridgeAt.Some? && ac.call.recording.Recording? {
        ac.call := ac.call.(recording := Merging);
        merges := merges + [callId];
      }
      persisted := persisted[callId := ac.call];
      activeCalls := activeCalls - {callId};
    }

    /** The measuring part of finalizeCall, field by field. */
    static method Measure(call: CallbackCall, final: Status, now: int, thresholdSec: int) returns (m: CallbackCall)
      ensures m == Measured(call, final, now, thresholdSec)
    {
      m := call;
      if m.aAnswerAt.Some? {
        var ms := Duration(m.aAnswerAt.value, m.aHangupAt, now);
        m := m.(aDurationMs := ms);
      }
      if m.bAnswerAt.Some? {
        var ms := Duration(m.bAnswerAt.value, m.bHangupAt, now);
        m := m.(bDurationMs := ms);
      }
      if m.bridgeAt.Some? {
        var ms := Duration(m.bridgeAt.value, m.bridgeEndAt, now);
        m := m.(bridgeDurationMs := ms);
      }
      var wastage := ClassifyWastage(m, thresholdSec);
      if wastage.Some? {
        var ms := m.aDurationMs;
        if wastage.value.0 == BridgeBrokenEarly {
          ms := m.bridgeDurationMs;
        }
        m := m.(wastageDurationMs := Some(ms));
      }
      m := m.(wastage := wastage, status := final);
    }

    static method Duration(since: int, until: Option<int>, now: int) returns (ms: int)
      ensures ms == Elapsed(Some(since), until, now)
    {
      var end := now;
      if until.Some? {
        end := until.value;
      }
      ms := TruncDiv(end - since, MILLISECOND);
      if ms < 0 {
        ms := 0;
      }
    }

    /** Event routing: a full buffer drops the event, an unknown call makes it an orphan. */
    method OnEvent(callId: int, event: CallEvent)
      requires Valid()
      modifies activeCalls.Values
      ensures Valid()
      ensures forall id :: id in activeCalls ==>
                && activeCalls[id].call == old(activeCalls[id].call)
                && activeCalls[id].eventCh
                   == if id == callId && |old(activeCalls[id].eventCh)| < 10
                      then old(activeCalls[id].eventCh) + [event] else old(activeCalls[id].eventCh)
    {
      if callId in activeCalls {
        var ac := activeCalls[callId];
        if |ac.eventCh| < L.EVENT_BUFFER {
          ac.eventCh := ac.eventCh + [event];
        }
      }
    }

    /**
      runCall on everything its blocking operations will yield. It stops where the script ends,
      or finalizes: then the record is the reaction to the whole script, closed, and the call is
      gone from activeCalls.
     */
    method RunCall(callId: int, script: seq<(Input, int)>, clock: int, thresholdSec: int)
      returns (runner: Runner, commands: seq<Command>)
      requires Valid() && callId in activeCalls && WellFormed(script)
      modifies this, account, activeCalls[callId]
      ensures Valid()
      ensures var ac := old(activeCalls[callId]);
              var r := ReactAll(old(ac.call), script);
              && runner == r.runner && commands == r.commands
              && (!runner.Finalizing? ==>
                    ac.call == r.call && activeCalls == old(activeCalls) && TheBooks() == old(TheBooks()))
              && (runner.Finalizing? ==>
                    && ac.call == Closed(r.call, runner.final, clock, thresholdSec)
                    && activeCalls == old(activeCalls) - {callId}
                    && TheBooks() == Settle(old(TheBooks()), callId, r.call, runner.final, clock, thresholdSec))
      ensures runner.Finalizing? <==> HasEnd(script)
      ensures runner.Finalizing? ==>
                && callId in persisted && persisted[callId].status == runner.final
                && (persisted[callId].status == Finished <==> Finishes(script))
                && (persisted[callId].status == Failed <==> !Finishes(script))
                && forall k :: EndsAt(script, k) ==>
                     EndedRecord(old(activeCalls[callId].call), script, k, persisted[callId])
    {
      var ac := activeCalls[callId];
      var record: CallbackCall;
      ScriptOutcome(ac.call, script);
      hide Ended, EndedRecord, WaitsOnB, HasEnd, Finishes, EndsAt, OnBLeg, WellFormed, Settle, Closed, ReactAll;
      hide RightlyClosed;
      ghost var start := ac.call;
      runner, record, commands := Drive(ac.call, script);
      ac.call := record;
      if runner.Finalizing? {
        FinalizeCall(callId, runner.final, clock, thresholdSec);
        EndIsClosed(start, script, persisted[callId], clock, thresholdSec);
      }
    }

    /** The body of runCall up to the finalizeCall of whichever branch it leaves by. */
    static method Drive(start: CallbackCall, script: seq<(Input, int)>)
      returns (runner: Runner, call: CallbackCall, commands: seq<Command>)
      requires WellFormed(script)
      ensures Reaction(runner, call, commands) == ReactAll(start, script)
    {
      hide OnLaterEvent, OnFirstEvent;
      call := start;
      if |script| == 0 {
        return Originating, call, [];
      }
      // 1. A-leg originate
      Extends(start, script, 0);
      if !script[0].0.accepted {
        call := call.(failureReason := Some(AOriginateFailed));
        FinalizingAbsorbs(start, script, 1);
        return Finalizing(Failed), call, [];
      }
      call := call.(aDialAt := Some(script[0].1), status := ADialing);
      if |script| == 1 {
        assert script[..1] == script;
        return AwaitingA, call, [];
      }
      // 2. and 3. The first A-leg event, then the B leg
      Extends(start, script, 1);
      runner, call, commands := FirstSelect(call, script[1].0, script[1].1);
      if runner.Finalizing? {
        FinalizingAbsorbs(start, script, 2);
        return;
      }
      // 4. B-leg events until one ends the call
      var bridged := false;
      var k := 2;
      while k < |script|
        invariant 2 <= k <= |script|
        invariant runner == AwaitingB(bridged)
        invariant ReactAll(start, script[..k]) == Reaction(runner, call, commands)
      {
        Extends(start, script, k);
        var more: seq<Command>;
        runner, call, more := LaterSelect(call, bridged, script[k].0, script[k].1);
        commands := commands + more;
        k := k + 1;
        if runner.Finalizing? {
          FinalizingAbsorbs(start, script, k);
          return;
        }
        bridged := runner.bridged;
      }
      assert script[..k] == script;
    }

    /** The first select of runCall and the B-leg originate behind it. */
    static method FirstSelect(start: CallbackCall, input: Input, now: int)
      returns (runner: Runner, call: CallbackCall, commands: seq<Command>)
      requires !input.OriginateA?
      ensures Reaction(runner, call, commands) == React(AwaitingA, start, input, now)
      ensures runner.Finalizing? || runner == AwaitingB(false)
    {
      call := start;
      match input
      case Event(e, originates) =>
        if e.name.ChannelAnswer? && e.leg == A {
          call := call.(aAnswerAt := Some(e.timestamp), status := AConnected);
        } else if e.name.ChannelHangup? {
          call := call.(aHangupAt := Some(e.timestamp), failureReason := Some(AHangup(e.hangupCause)));
          return Finalizing(Failed), call, [];
        }
        if !originates {
          call := call.(aHangupAt := Some(now), failureReason := Some(BOriginateFailed));
          return Finalizing(Failed), call, [HangUp(A)];
        }
        call := call.(bDialAt := Some(now), status := BDialing);
        return AwaitingB(false), call, [];
      case Timer =>
        call := call.(failureReason := Some(AParkTimeout));
        return Finalizing(Failed), call, [HangUp(A)];
      case Cancelled =>
        call := call.(failureReason := Some(ForceHangup));
        return Finalizing(Failed), call, [HangUp(A)];
    }

    /** One turn of runCall's loop. */
    static method LaterSelect(start: CallbackCall, wasBridged: bool, input: Input, now: int)
      returns (runner: Runner, call: CallbackCall, commands: seq<Command>)
      requires !input.OriginateA?
      ensures Reaction(runner, call, commands) == React(AwaitingB(wasBridged), start, input, now)
      ensures runner.Finalizing? || runner.AwaitingB?
    {
      call := start;
      var bridged := wasBridged;
      match input
      case Event(e, bridges) =>
        if e.name.ChannelAnswer? && e.leg == B {
          call := call.(bAnswerAt := Some(e.timestamp), status := BConnected);
          if !bridges {
            call := call.(failureReason := Some(BridgeFailed));
            return Finalizing(Failed), call, [BridgeLegs, HangUp(A), HangUp(B)];
          }
          return AwaitingB(bridged), call, [BridgeLegs];
        } else if e.name.ChannelBridge? {
          call := call.(bridgeAt := Some(e.timestamp), status := Bridged);
          bridged := true;
          call := call.(recording := Recording);
          return AwaitingB(bridged), call, [StartRecording];
        } else if e.name.ChannelHangup? {
          if e.leg == A {
            call := call.(aHangupAt := Some(e.timestamp));
          } else {
            call := call.(bHangupAt := Some(e.timestamp));
          }
          if bridged {
            call := call.(bridgeEndAt := Some(e.timestamp));
            return Finalizing(Finished), call, [StopRecording];
          }
          call := call.(aHangupAt := Some(now));
          return Finalizing(Failed), call, [HangUp(A)];
        }
        return AwaitingB(bridged), call, [];
      case Timer =>
        call := call.(hangupBy := Some(System));
        commands := [HangUp(A), HangUp(B)];
        if bridged {
          commands := commands + [StopRecording];
        }
        return Finalizing(Finished), call, commands;
      case Cancelled =>
        call := call.(failureReason := Some(ForceHangup));
        commands := [HangUp(A), HangUp(B)];
        if bridged {
          commands := commands + [StopRecording];
        }
        return Finalizing(Failed), call, commands;
    }

    /** One turn of the disconnect handler's Range. */
    method LoseCall(callId: int, now: int, thresholdSec: int)
      requires Valid() && callId in activeCalls
      modifies this, account, activeCalls[callId]
      ensures Valid() && activeCalls == old(activeCalls) - {callId}
      ensures TheBooks() == Settle(old(TheBooks()), callId,
                                    Blamed(old(activeCalls[callId].call)), Failed, now, thresholdSec)
    {
      hide Settle;
      var ac := activeCalls[callId];
      ac.call := ac.call.(failureReason := Some(FsConnectionLost));
      FinalizeCall(callId, Failed, now, thresholdSec);
    }

    static method AnyOf(ids: set<int>) returns (id: int)
      requires ids != {}
      ensures id in ids
    {
      if !exists id :: id in ids {
        assert false;
      }
      id :| id in ids;
    }

    /** The disconnect handler: every active call fails with fs_connection_lost and is settled, in some order. */
    method OnDisconnect(now: int, thresholdSec: int) returns (ghost order: seq<int>)
      requires Valid()
      modifies this, account, activeCalls.Values
      ensures Valid() && activeCalls == map[] && Enumerates(order, old(activeCalls.Keys))
      ensures TheBooks() == LoseAll(old(TheBooks()), old(Records()), order, now, thresholdSec)
      ensures AllLost(old(Records()), persisted, now, thresholdSec)
    {
      hide Settle, LoseAll, Enumerates, AllLost, SettledBooks;
      ghost var ranged, start, records := activeCalls, TheBooks(), Records();
      var left := activeCalls.Keys;
      order := [];
      NoneLostYet(start, records, now, thresholdSec);
      assert ranged.Keys - left == {};
      while left != {}
        invariant Valid() && activeCalls.Keys == left <= ranged.Keys
        invariant forall id :: id in left ==> activeCalls[id] == ranged[id] && activeCalls[id].call == records[id]
        invariant Enumerates(order, ranged.Keys - left) && forall id :: id in order ==> id in records
        invariant TheBooks() == LoseAll(start, records, order, now, thresholdSec)
        decreases left
      {
        var id := AnyOf(left);
        OneMoreLost(start, records, order, ranged.Keys - left, id, now, thresholdSec);
        LoseCall(id, now, thresholdSec);
        order := order + [id];
        assert ranged.Keys - left + {id} == ranged.Keys - (left - {id});
        left := left - {id};
      }
      assert ranged.Keys - left == ranged.Keys;
      EveryRecordLost(start, records, order, ranged.Keys, now, thresholdSec);
    }
  }

  lemma NoneLostYet(b: Books, records: map<int, CallbackCall>, now: int, thresholdSec: int)
    ensures LoseAll(b, records, [], now, thresholdSec) == b && Enumerates([], {})
  {
  }

  lemma OneMoreLost(b: Books, records: map<int, CallbackCall>, order: seq<int>, lost: set<int>, id: int,
                    now: int, thresholdSec: int)
    requires Enumerates(order, lost) && id !in lost && id in records && forall x :: x in order ==> x in records
    ensures Enumerates(order + [id], lost + {id}) && forall x :: x in order + [id] ==> x in records
    ensures LoseAll(b, records, order + [id], now, thresholdSec)
            == Settle(LoseAll(b, records, order, now, thresholdSec), id, Blamed(records[id]), Failed, now, thresholdSec)
  {
    EnumerationGrows(order, lost, id);
    assert (order + [id])[..|order|] == order;
  }

  // ---- A disconnect settles the same whatever the order ----

  /** What the loss of a call returns to the balance: its hold minus its cost. */
  function Return(record: CallbackCall, now: int, thresholdSec: int): int {
    record.preDeductAmount - SettledCost(Measured(Blamed(record), Failed, now, thresholdSec))
  }

  function ReturnOf(records: map<int, CallbackCall>, now: int, thresholdSec: int): int -> int {
    id => if id in records then Return(records[id], now, thresholdSec) else 0
  }

  lemma {:induction false} LossesPay(b: Books, records: map<int, CallbackCall>, order: seq<int>,
                                     now: int, thresholdSec: int)
    requires forall id :: id in order ==> id in records
    ensures LoseAll(b, records, order, now, thresholdSec).ledger.balance
            == b.ledger.balance + Sum(order, ReturnOf(records, now, thresholdSec))
  {
    hide SettlementOp, Book, Closed, PublishesMerge, Return;
    if order != [] {
      var front, last := order[..|order| - 1], order[|order| - 1];
      LossesPay(b, records, front, now, thresholdSec);
      LossPays(LoseAll(b, records, front, now, thresholdSec).ledger, last, records[last], now, thresholdSec);
    }
  }

  lemma LossPays(l: Ledger, id: int, record: CallbackCall, now: int, thresholdSec: int)
    ensures Book(l, SettlementOp(id, Blamed(record), Failed, now, thresholdSec)).balance
            == l.balance + Return(record, now, thresholdSec)
  {
    hide ClassifyWastage, LegCost, SetDuration;
  }

  lemma {:induction false} LossesRelease(b: Books, records: map<int, CallbackCall>, order: seq<int>,
                                         now: int, thresholdSec: int)
    requires b.slots >= 0 && forall id :: id in order ==> id in records
    ensures LoseAll(b, records, order, now, thresholdSec).slots == Max(0, b.slots - |order|)
  {
    hide SettlementOp, Book, Closed, PublishesMerge;
    if order != [] {
      LossesRelease(b, records, order[..|order| - 1], now, thresholdSec);
    }
  }

  /** How often a call's merge is among those published. */
  function Merges(b: Books, id: int): nat { multiset(b.merges)[id] }

  lemma SettleMerges(b: Books, last: int, record: CallbackCall, id: int, now: int, thresholdSec: int)
    ensures Merges(Settle(b, last, Blamed(record), Failed, now, thresholdSec), id)
            == Merges(b, id) + if id == last && PublishesMerge(record) then 1 else 0
  {
    hide SettlementOp, Book, Closed;
    var next := Settle(b, last, Blamed(record), Failed, now, thresholdSec);
    assert multiset(next.merges) == multiset(b.merges) + multiset(if PublishesMerge(record) then [last] else []);
  }

  lemma {:induction false} LossesMerge(b: Books, records: map<int, CallbackCall>, order: seq<int>,
                                       ids: set<int>, id: int,
                                       now: int, thresholdSec: int)
    requires Enumerates(order, ids) && ids <= records.Keys
    ensures Merges(LoseAll(b, records, order, now, thresholdSec), id)
            == Merges(b, id) + if id in ids && PublishesMerge(records[id]) then 1 else 0
    decreases |order|
  {
    hide Settle, PublishesMerge, Merges;
    if order != [] {
      var front, last := order[..|order| - 1], order[|order| - 1];
      EnumerationShrinks(order, ids);
      LossesMerge(b, records, front, ids - {last}, id, now, thresholdSec);
      SettleMerges(LoseAll(b, records, front, now, thresholdSec), last, records[last], id, now, thresholdSec);
    }
  }

  lemma {:induction false} LossesPersist(b: Books, records: map<int, CallbackCall>, order: seq<int>,
                                         ids: set<int>, id: int,
                                         now: int, thresholdSec: int)
    requires Enumerates(order, ids) && ids <= records.Keys
    ensures var end := LoseAll(b, records, order, now, thresholdSec).persisted;
            && (id in end <==> id in b.persisted || id in ids)
            && (id in ids ==> end[id] == Closed(Blamed(records[id]), Failed, now, thresholdSec))
            && (id in end && id !in ids ==> end[id] == b.persisted[id])
    decreases |order|
  {
    hide SettlementOp, Book, Closed, PublishesMerge;
    if order != [] {
      var front, last := order[..|order| - 1], order[|order| - 1];
      EnumerationShrinks(order, ids);
      LossesPersist(b, records, front, ids - {last}, id, now, thresholdSec);
    }
  }

  /** Every one of these records has failed with the connection and is closed. */
  ghost predicate AllLost(records: map<int, CallbackCall>, persisted: map<int, CallbackCall>,
                          now: int, thresholdSec: int) {
    forall id :: id in records ==>
      && id in persisted && persisted[id].status == Failed && persisted[id].failureReason == Some(FsConnectionLost)
      && RightlyClosed(records[id].(failureReason := Some(FsConnectionLost)), persisted[id], Failed, now, thresholdSec)
  }

  lemma EveryRecordLost(b: Books, records: map<int, CallbackCall>, order: seq<int>, ids: set<int>,
                        now: int, thresholdSec: int)
    requires Enumerates(order, ids) && ids <= records.Keys && forall id :: id in records ==> id in ids
    ensures AllLost(records, LoseAll(b, records, order, now, thresholdSec).persisted, now, thresholdSec)
  {
    hide LoseAll, Closed, Lasts, WastedAs, BilledByBlock;
    forall id | id in records
      ensures var end := LoseAll(b, records, order, now, thresholdSec).persisted;
              && id in end && end[id].status == Failed && end[id].failureReason == Some(FsConnectionLost)
              && RightlyClosed(Blamed(records[id]), end[id], Failed, now, thresholdSec)
    {
      LossesPersist(b, records, order, ids, id, now, thresholdSec);
      ClosedRightly(Blamed(records[id]), Failed, now, thresholdSec);
    }
  }

  /** What one call contributes to the outcome of a disconnect, settled or not. */
  ghost predicate LostExactly(b: Books, end: Books, records: map<int, CallbackCall>, id: int,
                              now: int, thresholdSec: int) {
    && Merges(end, id) == Merges(b, id) + (if id in records && PublishesMerge(records[id]) then 1 else 0)
    && (id in end.persisted <==> id in b.persisted || id in records)
    && (id in end.persisted ==>
          end.persisted[id] == if id in records then Closed(Blamed(records[id]), Failed, now, thresholdSec)
                                 else b.persisted[id])
  }

  /** The outcome of a disconnect: every hold is traded for its cost, every slot freed, every record closed. */
  lemma DisconnectOutcome(b: Books, records: map<int, CallbackCall>, order: seq<int>, now: int, thresholdSec: int)
    requires Enumerates(order, records.Keys) && b.slots >= 0
    ensures var end := LoseAll(b, records, order, now, thresholdSec);
            && end.ledger.balance == b.ledger.balance + Sum(order, ReturnOf(records, now, thresholdSec))
            && end.slots == Max(0, b.slots - |records|)
            && forall id :: LostExactly(b, end, records, id, now, thresholdSec)
  {
    hide LoseAll, Closed, Merges, ReturnOf, PublishesMerge;
    LossesPay(b, records, order, now, thresholdSec);
    LossesRelease(b, records, order, now, thresholdSec);
    EnumerationLength(order, records.Keys);
    forall id ensures LostExactly(b, LoseAll(b, records, order, now, thresholdSec), records, id, now, thresholdSec) {
      LossesMerge(b, records, order, records.Keys, id, now, thresholdSec);
      LossesPersist(b, records, order, records.Keys, id, now, thresholdSec);
    }
  }

  /** Two outcomes agree on one call's merge and on its record. */
  ghost predicate SameEntry(x: Books, y: Books, id: int) {
    && Merges(x, id) == Merges(y, id)
    && (id in x.persisted <==> id in y.persisted)
    && (id in x.persisted ==> x.persisted[id] == y.persisted[id])
  }

  /** In whatever order the map is ranged over, balance, slots, merges and records come out the same. */
  lemma DisconnectOrderIsIrrelevant(b: Books, records: map<int, CallbackCall>, xs: seq<int>, ys: seq<int>,
                                    now: int, thresholdSec: int)
    requires Enumerates(xs, records.Keys) && Enumerates(ys, records.Keys) && b.slots >= 0
    ensures var x, y := LoseAll(b, records, xs, now, thresholdSec), LoseAll(b, records, ys, now, thresholdSec);
            x.ledger.balance == y.ledger.balance && x.slots == y.slots && forall id :: SameEntry(x, y, id)
  {
    hide LoseAll, Closed, PublishesMerge, ReturnOf;
    DisconnectOutcome(b, records, xs, now, thresholdSec);
    DisconnectOutcome(b, records, ys, now, thresholdSec);
    SumOfEnumeration(xs, ys, records.Keys, ReturnOf(records, now, thresholdSec));
    var x, y := LoseAll(b, records, xs, now, thresholdSec), LoseAll(b, records, ys, now, thresholdSec);
    forall id ensures SameEntry(x, y, id) {
      assert LostExactly(b, x, records, id, now, thresholdSec) && LostExactly(b, y, records, id, now, thresholdSec);
    }
  }

  lemma MeasuredKeepsBridge(call: CallbackCall, final: Status, now: int, thresholdSec: int)
    ensures var m := Measured(call, final, now, thresholdSec);
            m.bridgeAt == call.bridgeAt && m.recording == call.recording
  {
  }

  // ---- The methods against the interleaved model ----

  /** The sub-steps of one caller's finalizeCall when nothing comes between them. */
  function Settlement(i: nat, who: L.Who, final: Status, now: int, thresholdSec: int): seq<L.Step> {
    [L.Lookup(i, who), L.Enter(i, who), L.Charge(i, who, final, now, thresholdSec), L.ReleaseSlot(i, who),
     L.DecideMerge(i, who), L.Delete(i, who), L.Leave(i, who)]
  }

  /** The call after them, wherever its caller and goroutine stand, given how its record was measured. */
  function SettledCall(c: L.Call, who: L.Who, m: CallbackCall, after: L.Call): L.Call {
    var publishes := PublishesMerge(m);
    c.(stage := L.Settled, inMap := false, once := L.Done, byRunner := who.RunCall?, cost := SettledCost(m),
       record := if publishes then m.(recording := Merging) else m,
       finalizes := c.finalizes + 1, releases := c.releases + 1,
       merges := c.merges + (if publishes then 1 else 0), bridgesAtMerge := c.bridges,
       goroutine := after.goroutine, passes := after.passes)
  }

  /** Up to the charge: the caller is in the function, the money settled. */
  lemma ToCharged(c: L.Call, i: nat, who: L.Who, now: int, thresholdSec: int)
    returns (c1: L.Call, c2: L.Call, c3: L.Call)
    requires L.At(c, who) == L.AtLookup && c.inMap && c.once.Idle?
    ensures var steps := Settlement(i, who, L.FinalOf(c, who), now, thresholdSec);
            var m := Measured(c.record, L.FinalOf(c, who), now, thresholdSec);
            && L.CallEnabled(c, steps[0]) && L.CallAfter(c, steps[0], true) == c1
            && L.CallEnabled(c1, steps[1]) && L.CallAfter(c1, steps[1], true) == c2
            && L.CallEnabled(c2, steps[2]) && L.CallAfter(c2, steps[2], true) == c3
            && c1.record == c.record && c2.record == c.record
            && L.At(c3, who) == L.Inside(L.ToRelease)
            && c3 == c.(stage := L.Charged, once := L.Busy(who), byRunner := who.RunCall?, record := m,
                        cost := SettledCost(m), finalizes := c.finalizes + 1,
                        goroutine := c3.goroutine, passes := c3.passes)
  {
    hide Measured, SettledCost, L.At, L.CallAfter, L.FinalOf;
    var steps := Settlement(i, who, L.FinalOf(c, who), now, thresholdSec);
    c1 := L.CallAfter(c, steps[0], true);
    L.CallingShows(c, steps[0], true);
    c2 := L.CallAfter(c1, steps[1], true);
    L.CallingShows(c1, steps[1], true);
    c3 := L.CallAfter(c2, steps[2], true);
    L.CallingShows(c2, steps[2], true);
  }

  /** From there on: slot, merge, map and once. */
  lemma ToReturned(c3: L.Call, i: nat, who: L.Who, steps: seq<L.Step>)
    returns (c4: L.Call, c5: L.Call, c6: L.Call, c7: L.Call)
    requires L.At(c3, who) == L.Inside(L.ToRelease)
    requires steps == [L.ReleaseSlot(i, who), L.DecideMerge(i, who), L.Delete(i, who), L.Leave(i, who)]
    ensures L.CallEnabled(c3, steps[0]) && L.CallAfter(c3, steps[0], true) == c4
    ensures L.CallEnabled(c4, steps[1]) && L.CallAfter(c4, steps[1], true) == c5
    ensures L.CallEnabled(c5, steps[2]) && L.CallAfter(c5, steps[2], true) == c6
    ensures L.CallEnabled(c6, steps[3]) && L.CallAfter(c6, steps[3], true) == c7
    ensures var publishes := PublishesMerge(c3.record);
            c7 == c3.(stage := L.Settled, inMap := false, once := L.Done, releases := c3.releases + 1,
                      record := if publishes then c3.record.(recording := Merging) else c3.record,
                      merges := c3.merges + (if publishes then 1 else 0), bridgesAtMerge := c3.bridges,
                      goroutine := c7.goroutine, passes := c7.passes)
    ensures who.RunCall? ==> c7.goroutine.Exited?
  {
    hide L.At, L.CallAfter;
    c4 := L.CallAfter(c3, steps[0], true);
    L.CallingShows(c3, steps[0], true);
    c5 := L.CallAfter(c4, steps[1], true);
    L.CallingShows(c4, steps[1], true);
    c6 := L.CallAfter(c5, steps[2], true);
    L.CallingShows(c5, steps[2], true);
    c7 := L.CallAfter(c6, steps[3], true);
    L.CallingShows(c6, steps[3], true);
  }

  lemma ChargingSteps(c: L.Call, i: nat, who: L.Who, now: int, thresholdSec: int) returns (c3: L.Call)
    requires L.At(c, who) == L.AtLookup && c.inMap && c.once.Idle?
    ensures var steps := Settlement(i, who, L.FinalOf(c, who), now, thresholdSec)[..3];
            var m := Measured(c.record, L.FinalOf(c, who), now, thresholdSec);
            && R.CallPossible(c, i, steps) && R.CallRun(c, steps) == c3
            && R.Credits(c, steps) == c.record.preDeductAmount - SettledCost(m)
            && L.At(c3, who) == L.Inside(L.ToRelease)
            && c3 == c.(stage := L.Charged, once := L.Busy(who), byRunner := who.RunCall?, record := m,
                        cost := SettledCost(m), finalizes := c.finalizes + 1,
                        goroutine := c3.goroutine, passes := c3.passes)
  {
    hide Measured, SettledCost, L.At, L.CallAfter, L.CallEnabled, L.FinalOf;
    var steps := Settlement(i, who, L.FinalOf(c, who), now, thresholdSec)[..3];
    var c1, c2;
    c1, c2, c3 := ToCharged(c, i, who, now, thresholdSec);
    R.Unfold(c2, i, steps[2..], c3);
    R.Unfold(c1, i, steps[1..], c2);
    R.Unfold(c, i, steps, c1);
  }

  lemma ReturningSteps(c3: L.Call, i: nat, who: L.Who, steps: seq<L.Step>) returns (c7: L.Call)
    requires L.At(c3, who) == L.Inside(L.ToRelease)
    requires steps == [L.ReleaseSlot(i, who), L.DecideMerge(i, who), L.Delete(i, who), L.Leave(i, who)]
    ensures R.CallPossible(c3, i, steps) && R.CallRun(c3, steps) == c7 && R.Credits(c3, steps) == 0
    ensures var publishes := PublishesMerge(c3.record);
            c7 == c3.(stage := L.Settled, inMap := false, once := L.Done, releases := c3.releases + 1,
                      record := if publishes then c3.record.(recording := Merging) else c3.record,
                      merges := c3.merges + (if publishes then 1 else 0), bridgesAtMerge := c3.bridges,
                      goroutine := c7.goroutine, passes := c7.passes)
    ensures who.RunCall? ==> c7.goroutine.Exited?
  {
    hide L.At, L.CallAfter, L.CallEnabled, PublishesMerge;
    var c4, c5, c6;
    c4, c5, c6, c7 := ToReturned(c3, i, who, steps);
    R.Unfold(c6, i, steps[3..], c7);
    R.Unfold(c5, i, steps[2..], c6);
    R.Unfold(c4, i, steps[1..], c5);
    R.Unfold(c3, i, steps, c4);
  }

  lemma SettlementOfCall(c: L.Call, i: nat, who: L.Who, now: int, thresholdSec: int)
    requires L.At(c, who) == L.AtLookup && c.inMap && c.once.Idle? && c.cost == 0
    ensures var final := L.FinalOf(c, who);
            var m := Measured(c.record, final, now, thresholdSec);
            var steps := Settlement(i, who, final, now, thresholdSec);
            && R.CallPossible(c, i, steps)
            && R.CallRun(c, steps) == SettledCall(c, who, m, R.CallRun(c, steps))
            && (who.RunCall? ==> R.CallRun(c, steps).goroutine.Exited?)
            && R.Credits(c, steps) == c.record.preDeductAmount - SettledCost(m)
  {
    hide Measured, SettledCost, L.At, L.FinalOf, R.CallPossible, R.CallRun, R.Credits;
    var steps := Settlement(i, who, L.FinalOf(c, who), now, thresholdSec);
    var c3 := ChargingSteps(c, i, who, now, thresholdSec);
    var c7 := ReturningSteps(c3, i, who, steps[3..]);
    R.CallRunsConcat(c, i, steps[..3], steps[3..]);
    assert steps[..3] + steps[3..] == steps;
  }

  lemma SettlementMoney(record: CallbackCall, i: nat, final: Status, now: int, thresholdSec: int, l: Ledger)
    ensures var m := Measured(record, final, now, thresholdSec);
            && m.aLegRate == record.aLegRate && m.bLegRate == record.bLegRate
            && m.preDeductAmount == record.preDeductAmount
            && Book(l, SettlementOp(i, record, final, now, thresholdSec)).balance
               == l.balance + record.preDeductAmount - SettledCost(m)
            && Closed(record, final, now, thresholdSec)
               == m.(aLegCost := LegCost(ASeconds(m), record.aLegRate, A_BLOCK),
                     bLegCost := LegCost(BSeconds(m), record.bLegRate, B_BLOCK),
                     totalCost := SettledCost(m), recording := if PublishesMerge(m) then Merging else m.recording)
  {
    hide ClassifyWastage, LegCost, SetDuration;
  }

  /**
    FinalizeCall is the interleavable steps of one caller run together, whether runCall or a
    disconnect pass: the same money, slot, merge and record, and the call gone from the active ones.
   */
  lemma FinalizeIsTheSteps(cfg: L.Config, s: L.State, i: nat, who: L.Who, now: int, thresholdSec: int, l: Ledger)
    requires i < |s.calls| && L.Sound(s.calls[i]) && l.balance == s.balance
    requires s.calls[i].stage.Live? && s.calls[i].once.Idle? && L.At(s.calls[i], who) == L.AtLookup
    ensures L.Possible(cfg, s, Settlement(i, who, L.FinalOf(s.calls[i], who), now, thresholdSec))
    ensures var c, final := s.calls[i], L.FinalOf(s.calls[i], who);
            var end := L.Run(cfg, s, Settlement(i, who, final, now, thresholdSec));
            && end.balance == Book(l, SettlementOp(i, c.record, final, now, thresholdSec)).balance
            && end.slots == Max(0, s.slots - 1)
            && |end.calls| == |s.calls| && end.calls == s.calls[i := end.calls[i]]
            && end.calls[i].stage.Settled? && !end.calls[i].inMap && end.calls[i].once.Done?
            && end.calls[i].merges == c.merges + (if PublishesMerge(c.record) then 1 else 0)
            && Closed(c.record, final, now, thresholdSec)
               == end.calls[i].record.(aLegCost := LegCost(ASeconds(end.calls[i].record), c.record.aLegRate, A_BLOCK),
                                       bLegCost := LegCost(BSeconds(end.calls[i].record), c.record.bLegRate, B_BLOCK),
                                       totalCost := end.calls[i].cost)
  {
    var c, final := s.calls[i], L.FinalOf(s.calls[i], who);
    var steps := Settlement(i, who, final, now, thresholdSec);
    assert c.inMap && c.cost == 0;
    hide Measured, LegCost, SettledCost, Closed, SettlementOp, Book, L.Run, L.Possible;
    hide R.CallPossible, R.CallRun, R.Credits;
    hide L.OnceGuards, L.MapGuards, L.Counted;
    MeasuredKeepsBridge(c.record, final, now, thresholdSec);
    SettlementOfCall(c, i, who, now, thresholdSec);
    SettlementMoney(c.record, i, final, now, thresholdSec, l);
    SettlementSlots(s.slots, i, who, final, now, thresholdSec);
    R.RunAlone(cfg, s, i, steps);
  }

  lemma SettlementSlots(slots: int, i: nat, who: L.Who, final: Status, now: int, thresholdSec: int)
    ensures R.SlotsAfter(slots, Settlement(i, who, final, now, thresholdSec)) == Max(0, slots - 1)
  {
    var steps := Settlement(i, who, final, now, thresholdSec);
    var after := Max(0, slots - 1);
    assert R.SlotsAfter(after, steps[7..]) == after;
    assert R.SlotsAfter(after, steps[6..]) == R.SlotsAfter(after, steps[7..]);
    assert R.SlotsAfter(after, steps[5..]) == R.SlotsAfter(after, steps[6..]);
    assert R.SlotsAfter(after, steps[4..]) == R.SlotsAfter(after, steps[5..]);
    assert R.SlotsAfter(slots, steps[3..]) == R.SlotsAfter(after, steps[4..]);
    assert R.SlotsAfter(slots, steps[2..]) == R.SlotsAfter(slots, steps[3..]);
    assert R.SlotsAfter(slots, steps[1..]) == R.SlotsAfter(slots, steps[2..]);
  }
}
