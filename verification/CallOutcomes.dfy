/**
  How a call ends, told from its inputs alone: what the record holds while B is waited for, which
  input ends the call, and what record, status and commands that leaves. Then what closing may change.
 */
module CallOutcomes {
  import opened Sequences
  import opened Costs
  import opened Calls

  predicate IsHangup(input: Input) { input.Event? && input.event.name.ChannelHangup? }

  predicate IsBridge(input: Input) { input.Event? && input.event.name.ChannelBridge? }

  predicate IsAnswer(input: Input, leg: Leg) {
    input.Event? && input.event.name.ChannelAnswer? && input.event.leg == leg
  }

  /** What ends a call that waits for B or is bridged. */
  predicate EndsCall(input: Input) {
    input.Timer? || input.Cancelled? || IsHangup(input) || (IsAnswer(input, B) && !input.accepted)
  }

  /** A was originated, its first event was no hang-up, and B was originated. */
  predicate ReachesB(script: seq<(Input, int)>) {
    && |script| >= 2 && script[0].0 == OriginateA(true)
    && script[1].0.Event? && !IsHangup(script[1].0) && script[1].0.accepted
  }

  /** After the first k inputs the call is on its B leg. */
  predicate OnBLeg(script: seq<(Input, int)>, k: nat) {
    2 <= k <= |script| && ReachesB(script) && forall j :: 2 <= j < k ==> !EndsCall(script[j].0)
  }

  predicate BridgedBefore(script: seq<(Input, int)>, k: nat)
    requires k <= |script|
  {
    exists j :: 2 <= j < k && IsBridge(script[j].0)
  }

  /** The input that ends the call. */
  predicate EndsAt(script: seq<(Input, int)>, k: nat) {
    && k < |script|
    && if k == 0 then script[0].0 == OriginateA(false)
       else if k == 1 then script[0].0 == OriginateA(true) && !ReachesB(script)
       else OnBLeg(script, k) && EndsCall(script[k].0)
  }

  /** The only two ways to finish: the maximum duration on the B leg, or a hang-up while bridged. */
  predicate FinishesAt(script: seq<(Input, int)>, k: nat) {
    && k < |script| && OnBLeg(script, k)
    && (script[k].0.Timer? || (IsHangup(script[k].0) && BridgedBefore(script, k)))
  }

  // ---- On the B leg ----

  /** The time of the last bridge, or B answer, among the first k inputs. */
  function LastStamp(script: seq<(Input, int)>, k: nat, bridging: bool, initial: Option<int>): Option<int>
    requires k <= |script|
  {
    if k <= 2 then initial
    else
      var input := script[k - 1].0;
      if (if bridging then IsBridge(input) else IsAnswer(input, B)) then Some(input.event.timestamp)
      else LastStamp(script, k - 1, bridging, initial)
  }

  function StatusOnB(script: seq<(Input, int)>, k: nat): Status
    requires k <= |script|
  {
    if k <= 2 then BDialing
    else if IsBridge(script[k - 1].0) then Bridged
    else if IsAnswer(script[k - 1].0, B) then BConnected
    else StatusOnB(script, k - 1)
  }

  /** Every answer of B asks for the bridge, every bridge starts the recording. */
  function CommandsOnB(script: seq<(Input, int)>, k: nat): seq<Command>
    requires k <= |script|
  {
    if k <= 2 then []
    else
      CommandsOnB(script, k - 1) +
      (if IsBridge(script[k - 1].0) then [StartRecording]
       else if IsAnswer(script[k - 1].0, B) then [BridgeLegs] else [])
  }

  predicate SameTerms(x: CallbackCall, y: CallbackCall) {
    x.aLegRate == y.aLegRate && x.bLegRate == y.bLegRate && x.preDeductAmount == y.preDeductAmount
  }

  predicate SameEnd(x: CallbackCall, y: CallbackCall) {
    && x.aHangupAt == y.aHangupAt && x.bHangupAt == y.bHangupAt && x.bridgeEndAt == y.bridgeEndAt
    && x.failureReason == y.failureReason && x.hangupBy == y.hangupBy
  }

  predicate SameStamps(x: CallbackCall, y: CallbackCall) {
    && x.aDialAt == y.aDialAt && x.aAnswerAt == y.aAnswerAt && x.bDialAt == y.bDialAt && x.bAnswerAt == y.bAnswerAt
    && x.bridgeAt == y.bridgeAt
  }

  /** The call after k inputs that left it on its B leg. */
  predicate WaitsOnB(start: CallbackCall, script: seq<(Input, int)>, k: nat, r: Reaction)
    requires OnBLeg(script, k)
  {
    && r.runner == AwaitingB(BridgedBefore(script, k))
    && r.call.aDialAt == Some(script[0].1) && r.call.bDialAt == Some(script[1].1)
    && r.call.aAnswerAt == (if IsAnswer(script[1].0, A) then Some(script[1].0.event.timestamp) else start.aAnswerAt)
    && r.call.bAnswerAt == LastStamp(script, k, false, start.bAnswerAt)
    && r.call.bridgeAt == LastStamp(script, k, true, start.bridgeAt)
    && r.call.status == StatusOnB(script, k)
    && r.call.recording == (if BridgedBefore(script, k) then Recording else start.recording)
    && SameTerms(start, r.call) && SameEnd(start, r.call)
    && r.commands == CommandsOnB(script, k)
  }

  lemma FirstWaitsOnB(start: CallbackCall, script: seq<(Input, int)>)
    requires ReachesB(script)
    ensures WaitsOnB(start, script, 2, ReactAll(start, script[..2]))
  {
    hide OnLaterEvent;
    Extends(start, script, 0);
    Extends(start, script, 1);
    assert ReactAll(start, script[..0]) == Reaction(Originating, start, []);
    hide ReactAll;
    assert script[..0 + 1] == script[..1] && script[..1 + 1] == script[..2];
  }

  /** One more input on the B leg. */
  lemma StillWaitsOnB(start: CallbackCall, script: seq<(Input, int)>, k: nat, before: Reaction)
    requires k < |script| && OnBLeg(script, k) && OnBLeg(script, k + 1) && !script[k].0.OriginateA?
    requires WaitsOnB(start, script, k, before)
    ensures var r := React(before.runner, before.call, script[k].0, script[k].1);
            WaitsOnB(start, script, k + 1, r.(commands := before.commands + r.commands))
  {
    hide OnFirstEvent, ReachesB;
    assert !EndsCall(script[k].0);
    assert BridgedBefore(script, k + 1) <==> BridgedBefore(script, k) || IsBridge(script[k].0);
    hide BridgedBefore, OnBLeg;
  }

  lemma {:induction false} WaitingOnB(start: CallbackCall, script: seq<(Input, int)>, k: nat)
    requires WellFormed(script) && OnBLeg(script, k)
    ensures WaitsOnB(start, script, k, ReactAll(start, script[..k]))
  {
    hide ReactAll, React, WaitsOnB;
    if k == 2 {
      FirstWaitsOnB(start, script);
    } else {
      WaitingOnB(start, script, k - 1);
      Extends(start, script, k - 1);
      StillWaitsOnB(start, script, k - 1, ReactAll(start, script[..k - 1]));
    }
  }

  // ---- The end ----

  /** Stamps, reason and party of a call that input k ended. */
  predicate EndedRecord(start: CallbackCall, script: seq<(Input, int)>, k: nat, call: CallbackCall)
    requires EndsAt(script, k)
  {
    var (input, now) := script[k];
    && call.aDialAt == (if k == 0 then start.aDialAt else Some(script[0].1))
    && call.aAnswerAt
       == (if k >= 1 && IsAnswer(script[1].0, A) then Some(script[1].0.event.timestamp) else start.aAnswerAt)
    && call.bDialAt == (if k >= 2 then Some(script[1].1) else start.bDialAt)
    && call.bAnswerAt == LastStamp(script, k + 1, false, start.bAnswerAt)
    && call.bridgeAt == LastStamp(script, k + 1, true, start.bridgeAt)
    && call.aHangupAt
       == (if k == 0 || !input.Event? then start.aHangupAt
           else if k == 1 then Some(if IsHangup(input) then input.event.timestamp else now)
           else if !IsHangup(input) then start.aHangupAt
           else if !BridgedBefore(script, k) then Some(now)
           else if input.event.leg == A then Some(input.event.timestamp) else start.aHangupAt)
    && call.bHangupAt
       == (if k >= 2 && IsHangup(input) && input.event.leg == B then Some(input.event.timestamp) else start.bHangupAt)
    && call.bridgeEndAt
       == (if IsHangup(input) && BridgedBefore(script, k) then Some(input.event.timestamp) else start.bridgeEndAt)
    && call.hangupBy == (if k >= 2 && input.Timer? then Some(System) else start.hangupBy)
    && call.failureReason
       == (if k == 0 then Some(AOriginateFailed)
           else if input.Cancelled? then Some(ForceHangup)
           else if k == 1 && input.Timer? then Some(AParkTimeout)
           else if k == 1 && IsHangup(input) then Some(AHangup(input.event.hangupCause))
           else if k == 1 then Some(BOriginateFailed)
           else if IsAnswer(input, B) then Some(BridgeFailed) else start.failureReason)
    && SameTerms(start, call)
  }

  /** What is sent to FreeSWITCH when input k ends the call. */
  function LastCommands(script: seq<(Input, int)>, k: nat): seq<Command>
    requires EndsAt(script, k)
  {
    var input, bridged := script[k].0, BridgedBefore(script, k);
    if k == 0 then []
    else if k == 1 then if IsHangup(input) then [] else [HangUp(A)]
    else if IsAnswer(input, B) then [BridgeLegs, HangUp(A), HangUp(B)]
    else if IsHangup(input) then if bridged then [StopRecording] else [HangUp(A)]
    else [HangUp(A), HangUp(B)] + if bridged then [StopRecording] else []
  }

  /** The call as input k has ended it. */
  predicate Ended(start: CallbackCall, script: seq<(Input, int)>, k: nat, r: Reaction)
    requires EndsAt(script, k)
  {
    && r.runner == Finalizing(if FinishesAt(script, k) then Finished else Failed)
    && EndedRecord(start, script, k, r.call)
    && r.call.recording == (if BridgedBefore(script, k) then Recording else start.recording)
    && r.commands == CommandsOnB(script, k) + LastCommands(script, k)
  }

  lemma EndsEarly(start: CallbackCall, script: seq<(Input, int)>, k: nat)
    requires WellFormed(script) && EndsAt(script, k) && k < 2
    ensures Ended(start, script, k, ReactAll(start, script[..k + 1]))
  {
    hide OnLaterEvent;
    assert ReactAll(start, script[..0]) == Reaction(Originating, start, []);
    Extends(start, script, 0);
    if k == 1 {
      Extends(start, script, 1);
    }
    hide ReactAll, OnBLeg, EndsCall, StatusOnB;
    assert !BridgedBefore(script, k) && !FinishesAt(script, k);
    hide BridgedBefore, FinishesAt;
    assert script[..0 + 1] == script[..1];
  }

  /** The last input is no bridge; it is an answer of B only if that answer's bridge failed. */
  lemma LastStampAtEnd(script: seq<(Input, int)>, k: nat, initial: Option<int>)
    requires 2 <= k < |script| && EndsAt(script, k)
    ensures var input := script[k].0;
            && LastStamp(script, k + 1, true, initial) == LastStamp(script, k, true, initial)
            && LastStamp(script, k + 1, false, initial)
               == if IsAnswer(input, B) then Some(input.event.timestamp) else LastStamp(script, k, false, initial)
  {
  }

  lemma EndsOnB(start: CallbackCall, script: seq<(Input, int)>, k: nat, before: Reaction)
    requires EndsAt(script, k) && k >= 2 && WaitsOnB(start, script, k, before)
    ensures var r := React(before.runner, before.call, script[k].0, script[k].1);
            Ended(start, script, k, r.(commands := before.commands + r.commands))
  {
    LastStampAtEnd(script, k, start.bAnswerAt);
    LastStampAtEnd(script, k, start.bridgeAt);
    hide OnFirstEvent, BridgedBefore, StatusOnB, CommandsOnB, LastStamp, ReachesB;
    assert OnBLeg(script, k) && EndsCall(script[k].0);
    hide OnBLeg;
    var r := React(before.runner, before.call, script[k].0, script[k].1);
    assert EndedRecord(start, script, k, r.call);
    hide EndedRecord, SameTerms, SameEnd;
  }

  lemma EndsThere(start: CallbackCall, script: seq<(Input, int)>, k: nat)
    requires WellFormed(script) && EndsAt(script, k)
    ensures ReactAll(start, script) == ReactAll(start, script[..k + 1])
    ensures Ended(start, script, k, ReactAll(start, script))
  {
    hide ReactAll, React, EndedRecord, LastCommands, WaitsOnB;
    if k < 2 {
      EndsEarly(start, script, k);
    } else {
      WaitingOnB(start, script, k);
      Extends(start, script, k);
      EndsOnB(start, script, k, ReactAll(start, script[..k]));
    }
    FinalizingAbsorbs(start, script, k + 1);
  }

  ghost predicate HasEnd(script: seq<(Input, int)>) { exists k :: EndsAt(script, k) }

  ghost predicate Finishes(script: seq<(Input, int)>) { exists k :: FinishesAt(script, k) }

  /** The call goes on until something ends it. */
  lemma {:induction false} OnBOrEnded(script: seq<(Input, int)>, k: nat)
    requires ReachesB(script) && 2 <= k <= |script|
    ensures OnBLeg(script, k) || HasEnd(script)
  {
    if k > 2 {
      OnBOrEnded(script, k - 1);
      assert EndsAt(script, k - 1) || !OnBLeg(script, k - 1) || !EndsCall(script[k - 1].0);
    }
  }

  lemma NotEnded(start: CallbackCall, script: seq<(Input, int)>)
    requires WellFormed(script) && !HasEnd(script)
    ensures !ReactAll(start, script).runner.Finalizing?
  {
    assert !EndsAt(script, 0) && !EndsAt(script, 1);
    assert script[..|script|] == script;
    if |script| == 1 {
      Extends(start, script, 0);
    } else if |script| > 1 {
      hide ReactAll, React;
      OnBOrEnded(script, |script|);
      WaitingOnB(start, script, |script|);
    }
  }

  /**
    The whole of runCall told from the script: it is inside finalizeCall exactly when some input has
    ended the call; that input alone decides status, reason, hang-up stamps and last commands.
   */
  lemma ScriptOutcome(start: CallbackCall, script: seq<(Input, int)>)
    requires WellFormed(script)
    ensures var r := ReactAll(start, script);
            && (r.runner.Finalizing? <==> HasEnd(script))
            && (forall k :: EndsAt(script, k) ==> Ended(start, script, k, r))
            && (OnBLeg(script, |script|) ==> WaitsOnB(start, script, |script|, r))
            && (r.runner == Finalizing(Finished) <==> Finishes(script))
            && (r.runner.Finalizing? ==> r.runner.final == Finished || r.runner.final == Failed)
  {
    hide ReactAll, EndedRecord, LastCommands, WaitsOnB, EndsAt, FinishesAt;
    var r := ReactAll(start, script);
    forall k | EndsAt(script, k) ensures Ended(start, script, k, r) {
      EndsThere(start, script, k);
    }
    forall k | FinishesAt(script, k) ensures EndsAt(script, k) {
      FinishingEnds(script, k);
    }
    if !HasEnd(script) {
      NotEnded(start, script);
    }
    if OnBLeg(script, |script|) {
      WaitingOnB(start, script, |script|);
      assert script[..|script|] == script;
    }
  }

  lemma FinishingEnds(script: seq<(Input, int)>, k: nat)
    requires FinishesAt(script, k)
    ensures EndsAt(script, k)
  {
  }

  /**
    A hang-up of leg X while bridged stamps X with the event's time and leaves the other leg alone;
    before the bridge B gets the event's time if it hung up, and A the clock.
   */
  lemma HangupStamps(start: CallbackCall, script: seq<(Input, int)>, k: nat)
    requires WellFormed(script) && k < |script| && OnBLeg(script, k) && IsHangup(script[k].0)
    ensures var call := ReactAll(start, script).call;
            var (input, now) := script[k];
            var ts := input.event.timestamp;
            && (BridgedBefore(script, k) && input.event.leg == A ==>
                  call.aHangupAt == Some(ts) && call.bHangupAt == start.bHangupAt)
            && (BridgedBefore(script, k) && input.event.leg == B ==>
                  call.bHangupAt == Some(ts) && call.aHangupAt == start.aHangupAt)
            && (BridgedBefore(script, k) ==> call.bridgeEndAt == Some(ts))
            && (!BridgedBefore(script, k) ==> call.aHangupAt == Some(now) && call.bridgeEndAt == start.bridgeEndAt)
            && (!BridgedBefore(script, k) ==>
                  call.bHangupAt == if input.event.leg == B then Some(ts) else start.bHangupAt)
  {
    assert EndsAt(script, k);
    EndsThere(start, script, k);
    hide ReactAll, LastStamp, BridgedBefore, FinishesAt, LastCommands, CommandsOnB;
  }

  // ---- Closing ----

  /** A duration in milliseconds, from answer to hang-up or now, never negative. */
  predicate Lasts(ms: int, recorded: int, since: Option<int>, until: Option<int>, now: int) {
    if since.None? then ms == recorded
    else
      var elapsed := (if until.Some? then until.value else now) - since.value;
      if elapsed < 0 then ms == 0 else ms * 1_000_000 <= elapsed < ms * 1_000_000 + 1_000_000
  }

  /** Which waste a call is, if any, and how long that lasted. */
  predicate WastedAs(before: CallbackCall, after: CallbackCall, thresholdSec: int) {
    var bFailed := before.aAnswerAt.Some? && before.bAnswerAt.None?;
    && (bFailed <==> after.wastage.Some? && after.wastage.value.0 == AConnectedBFailed)
    && (after.wastage.Some? && after.wastage.value.0 == BridgeBrokenEarly ==>
          before.bridgeAt.Some? && before.bridgeEndAt.Some?)
    && (!bFailed && before.bridgeAt.Some? && before.bridgeEndAt.Some? && thresholdSec > 0 ==>
          (after.wastage.Some? <==> before.bridgeEndAt.value - before.bridgeAt.value < thresholdSec * 1_000_000_000))
    && after.wastageDurationMs
       == (if bFailed then Some(after.aDurationMs)
           else if after.wastage.Some? then Some(after.bridgeDurationMs) else before.wastageDurationMs)
  }

  function WholeSeconds(ms: int): int { if ms < 1000 then 0 else ms / 1000 }

  /** What finalizeCall may change of a record, and to what. */
  predicate RightlyClosed(before: CallbackCall, after: CallbackCall, final: Status, now: int, thresholdSec: int) {
    && after.status == final
    && SameTerms(before, after) && SameStamps(before, after) && SameEnd(before, after)
    && Lasts(after.aDurationMs, before.aDurationMs, before.aAnswerAt, before.aHangupAt, now)
    && Lasts(after.bDurationMs, before.bDurationMs, before.bAnswerAt, before.bHangupAt, now)
    && Lasts(after.bridgeDurationMs, before.bridgeDurationMs, before.bridgeAt, before.bridgeEndAt, now)
    && BilledByBlock(after.aLegCost, WholeSeconds(after.aDurationMs), before.aLegRate, 6)
    && BilledByBlock(after.bLegCost, WholeSeconds(after.bDurationMs), before.bLegRate, 60)
    && after.totalCost == after.aLegCost + after.bLegCost
    && after.recording == (if before.bridgeAt.Some? && before.recording == Recording then Merging else before.recording)
    && WastedAs(before, after, thresholdSec)
  }

  lemma ClosingKeepsTheEnd(start: CallbackCall, script: seq<(Input, int)>, k: nat,
                           before: CallbackCall, after: CallbackCall, final: Status, now: int, thresholdSec: int)
    requires EndsAt(script, k) && EndedRecord(start, script, k, before)
    requires RightlyClosed(before, after, final, now, thresholdSec)
    ensures EndedRecord(start, script, k, after)
  {
    hide EndsAt, BridgedBefore, LastStamp, Lasts, WastedAs, BilledByBlock;
  }

  /** What ended the call is still on the record once it is closed, and the status says how it ended. */
  lemma EndIsClosed(start: CallbackCall, script: seq<(Input, int)>, closed: CallbackCall, now: int, thresholdSec: int)
    requires WellFormed(script) && ReactAll(start, script).runner.Finalizing?
    requires var r := ReactAll(start, script);
             RightlyClosed(r.call, closed, r.runner.final, now, thresholdSec)
    ensures closed.status == Finished <==> Finishes(script)
    ensures closed.status == Failed <==> !Finishes(script)
    ensures forall k :: EndsAt(script, k) ==> EndedRecord(start, script, k, closed)
  {
    ScriptOutcome(start, script);
    var r := ReactAll(start, script);
    assert closed.status == r.runner.final;
    hide ReactAll, EndedRecord, RightlyClosed, EndsAt, Finishes, FinishesAt, LastCommands;
    forall k | EndsAt(script, k) ensures EndedRecord(start, script, k, closed) {
      assert Ended(start, script, k, r);
      ClosingKeepsTheEnd(start, script, k, r.call, closed, r.runner.final, now, thresholdSec);
    }
  }
}
