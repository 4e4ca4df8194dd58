/**
  One call: its record, how runCall reacts to whatever its select yields, and what
  finalizeCall computes from the record. Times are nanoseconds.
 */
module Calls {
  import opened Sequences
  import opened Numbers
  import opened Costs

  const MILLISECOND := 1_000_000
  const SECOND := 1_000_000_000

  datatype Status = Initiating | ADialing | AConnected | BDialing | BConnected | Bridged | Finished | Failed

  datatype Leg = A | B

  datatype EventName = ChannelAnswer | ChannelBridge | ChannelHangup

  /** A FreeSWITCH channel event routed to the call. */
  datatype CallEvent = CallEvent(name: EventName, leg: Leg, timestamp: int, hangupCause: string)

  datatype RecordingStatus = NotRecorded | Recording | Merging

  datatype WastageType = AConnectedBFailed | BridgeBrokenEarly

  datatype Reason =
    | AOriginateFailed | AHangup(cause: string) | AParkTimeout | BOriginateFailed | BridgeFailed
    | ForceHangup | FsConnectionLost | ServiceShutdown

  datatype Party = System | Admin | Client

  /** The call record, as runCall and finalizeCall fill it in. */
  datatype CallbackCall = CallbackCall(
    status: Status, aLegRate: int, bLegRate: int, preDeductAmount: int,
    aDialAt: Option<int>, aAnswerAt: Option<int>, aHangupAt: Option<int>,
    bDialAt: Option<int>, bAnswerAt: Option<int>, bHangupAt: Option<int>,
    bridgeAt: Option<int>, bridgeEndAt: Option<int>,
    aDurationMs: int, bDurationMs: int, bridgeDurationMs: int,
    aLegCost: int, bLegCost: int, totalCost: int,
    recording: RecordingStatus, wastage: Option<(WastageType, int)>, wastageDurationMs: Option<int>,
    hangupBy: Option<Party>, failureReason: Option<Reason>)

  function NewCall(aRate: int, bRate: int, preDeduct: int): CallbackCall {
    CallbackCall(Initiating, aRate, bRate, preDeduct, None, None, None, None, None, None, None, None,
                 0, 0, 0, 0, 0, 0, NotRecorded, None, None, None, None)
  }

  // ---- runCall as a reaction to one input at a time ----

  /** What runCall is waiting for; Finalizing means it is inside finalizeCall with this status. */
  datatype Runner =
    | Originating
    | AwaitingA
    | AwaitingB(bridged: bool)
    | Finalizing(final: Status)

  /**
    What the next blocking operation of runCall yields. For an event, accepted is the outcome
    of the FreeSWITCH command its handling issues: originate B, or bridge.
   */
  datatype Input =
    | OriginateA(accepted: bool)
    | Event(event: CallEvent, accepted: bool)
    | Timer
    | Cancelled

  /** Commands sent to FreeSWITCH. */
  datatype Command = HangUp(leg: Leg) | BridgeLegs | StartRecording | StopRecording

  datatype Reaction = Reaction(runner: Runner, call: CallbackCall, commands: seq<Command>)

  /** Handling the first event on the A leg, then originating B. */
  function OnFirstEvent(call: CallbackCall, e: CallEvent, originatesB: bool, now: int): Reaction {
    if e.name.ChannelHangup? then
      Reaction(Finalizing(Failed),
               call.(aHangupAt := Some(e.timestamp), failureReason := Some(AHangup(e.hangupCause))), [])
    else
      var answered := if e.name.ChannelAnswer? && e.leg == A
                      then call.(aAnswerAt := Some(e.timestamp), status := AConnected) else call;
      if originatesB then
        Reaction(AwaitingB(false), answered.(bDialAt := Some(now), status := BDialing), [])
      else
        Reaction(Finalizing(Failed),
                 answered.(aHangupAt := Some(now), failureReason := Some(BOriginateFailed)), [HangUp(A)])
  }

  /** Handling an event while waiting on the B leg. */
  function OnLaterEvent(call: CallbackCall, bridged: bool, e: CallEvent, bridges: bool, now: int): Reaction {
    if e.name.ChannelAnswer? && e.leg == B then
      var answered := call.(bAnswerAt := Some(e.timestamp), status := BConnected);
      if bridges then Reaction(AwaitingB(bridged), answered, [BridgeLegs])
      else Reaction(Finalizing(Failed), answered.(failureReason := Some(BridgeFailed)),
                    [BridgeLegs, HangUp(A), HangUp(B)])
    else if e.name.ChannelBridge? then
      Reaction(AwaitingB(true), call.(bridgeAt := Some(e.timestamp), status := Bridged, recording := Recording),
               [StartRecording])
    else if e.name.ChannelHangup? then
      var hung := if e.leg == A then call.(aHangupAt := Some(e.timestamp)) else call.(bHangupAt := Some(e.timestamp));
      if bridged then
        Reaction(Finalizing(Finished), hung.(bridgeEndAt := Some(e.timestamp)), [StopRecording])
      else
        Reaction(Finalizing(Failed), hung.(aHangupAt := Some(now)), [HangUp(A)])
    else
      Reaction(AwaitingB(bridged), call, [])
  }

  /** runCall's next move; inputs it is not waiting for leave it where it is. */
  function React(runner: Runner, call: CallbackCall, input: Input, now: int): Reaction {
    match runner
    case Originating =>
      if !input.OriginateA? then Reaction(runner, call, [])
      else if input.accepted then Reaction(AwaitingA, call.(aDialAt := Some(now), status := ADialing), [])
      else Reaction(Finalizing(Failed), call.(failureReason := Some(AOriginateFailed)), [])
    case AwaitingA =>
      (match input
       case OriginateA(_) => Reaction(runner, call, [])
       case Event(e, accepted) => OnFirstEvent(call, e, accepted, now)
       case Timer => Reaction(Finalizing(Failed), call.(failureReason := Some(AParkTimeout)), [HangUp(A)])
       case Cancelled => Reaction(Finalizing(Failed), call.(failureReason := Some(ForceHangup)), [HangUp(A)]))
    case AwaitingB(bridged) =>
      var hangUpAll := if bridged then [HangUp(A), HangUp(B), StopRecording] else [HangUp(A), HangUp(B)];
      (match input
       case OriginateA(_) => Reaction(runner, call, [])
       case Event(e, accepted) => OnLaterEvent(call, bridged, e, accepted, now)
       case Timer => Reaction(Finalizing(Finished), call.(hangupBy := Some(System)), hangUpAll)
       case Cancelled => Reaction(Finalizing(Failed), call.(failureReason := Some(ForceHangup)), hangUpAll))
    case Finalizing(_) => Reaction(runner, call, [])
  }

  /** Folding a whole script of inputs, each with the clock reading of its handling. */
  function ReactAll(start: CallbackCall, script: seq<(Input, int)>): Reaction {
    if script == [] then Reaction(Originating, start, [])
    else
      var before := ReactAll(start, script[..|script| - 1]);
      var (input, now) := script[|script| - 1];
      var r := React(before.runner, before.call, input, now);
      r.(commands := before.commands + r.commands)
  }

  /** What a script of inputs may look like: the originate comes first and only first. */
  predicate WellFormed(script: seq<(Input, int)>) {
    && (script != [] ==> script[0].0.OriginateA?)
    && forall k :: 1 <= k < |script| ==> !script[k].0.OriginateA?
  }

  lemma FinalizingReacts(r: Reaction, input: Input, now: int)
    requires r.runner.Finalizing?
    ensures React(r.runner, r.call, input, now) == Reaction(r.runner, r.call, [])
    ensures r.(commands := r.commands + []) == r
  {
    assert r.commands + [] == r.commands;
  }

  /** Once runCall has left its loop no later input matters. */
  lemma {:induction false} FinalizingAbsorbs(start: CallbackCall, script: seq<(Input, int)>, k: nat)
    requires k <= |script| && ReactAll(start, script[..k]).runner.Finalizing?
    ensures ReactAll(start, script) == ReactAll(start, script[..k])
    decreases |script|
  {
    hide React;
    if k == |script| {
      assert script[..k] == script;
    } else {
      var last := |script| - 1;
      assert script[..last][..k] == script[..k];
      FinalizingAbsorbs(start, script[..last], k);
      var r := ReactAll(start, script[..last]);
      FinalizingReacts(r, script[last].0, script[last].1);
    }
  }

  // ---- What every script guarantees ----

  /** How a stop of the recording is owed and paid. */
  ghost predicate Coherent(runner: Runner, call: CallbackCall, commands: seq<Command>) {
    && (call.bridgeAt.Some? <==> StartRecording in commands)
    && (call.recording == if call.bridgeAt.Some? then Recording else NotRecorded)
    && (call.bridgeEndAt.Some? ==> call.bridgeAt.Some? && runner == Finalizing(Finished))
    && (call.failureReason.Some? ==> runner == Finalizing(Failed))
    && match runner
       case Originating => commands == []
       case AwaitingA => commands == []
       case AwaitingB(bridged) => (bridged <==> call.bridgeAt.Some?) && StopRecording !in commands
       case Finalizing(final) =>
         && (final == Finished || final == Failed)
         && multiset(commands)[StopRecording]
            == if call.bridgeAt.Some? && call.failureReason != Some(BridgeFailed) then 1 else 0
  }

  /** Commands before the B leg is up are none, so what follows is all there is. */
  lemma EarlyReactKeepsCoherent(runner: Runner, call: CallbackCall, input: Input, now: int)
    requires runner.Originating? || runner.AwaitingA?
    requires Coherent(runner, call, [])
    ensures var r := React(runner, call, input, now);
            Coherent(r.runner, r.call, r.commands)
  {
  }

  /** What a reaction on the B leg may add: at most one stop, and a start exactly when it bridges. */
  ghost predicate LateCommands(bridged: bool, call: CallbackCall, r: Reaction) {
    && (StartRecording in r.commands ==> r.call.bridgeAt.Some?)
    && (r.call.bridgeAt.Some? ==> call.bridgeAt.Some? || StartRecording in r.commands)
    && (call.bridgeAt.Some? ==> r.call.bridgeAt.Some?)
    && (r.call.recording == if r.call.bridgeAt.Some? then Recording else NotRecorded)
    && (r.call.bridgeEndAt.Some? ==> r.call.bridgeAt.Some? && r.runner == Finalizing(Finished))
    && (r.call.failureReason.Some? ==> r.runner == Finalizing(Failed))
    && (r.runner.AwaitingB? ==> r.runner.bridged == r.call.bridgeAt.Some? && StopRecording !in r.commands)
    && !r.runner.Originating? && !r.runner.AwaitingA?
    && (r.runner.Finalizing? ==>
          && (r.runner.final == Finished || r.runner.final == Failed)
          && multiset(r.commands)[StopRecording]
             == if r.call.bridgeAt.Some? && r.call.failureReason != Some(BridgeFailed) then 1 else 0)
  }

  lemma LateReact(bridged: bool, call: CallbackCall, input: Input, now: int)
    requires bridged <==> call.bridgeAt.Some?
    requires call.failureReason.None? && call.bridgeEndAt.None?
    requires call.recording == if call.bridgeAt.Some? then Recording else NotRecorded
    ensures LateCommands(bridged, call, React(AwaitingB(bridged), call, input, now))
  {
    hide OnLaterEvent, OnFirstEvent;
    match input
    case OriginateA(_) =>
    case Event(e, accepted) =>
      hide LateCommands;
      LaterEvent(bridged, call, e, accepted, now);
    case Timer => EndsBy(bridged, call, Finished, call.(hangupBy := Some(System)));
    case Cancelled => EndsBy(bridged, call, Failed, call.(failureReason := Some(ForceHangup)));
  }

  /** Both timeout and cancellation hang up both legs and stop a running recording. */
  lemma EndsBy(bridged: bool, call: CallbackCall, final: Status, after: CallbackCall)
    requires final == Finished || final == Failed
    requires bridged <==> call.bridgeAt.Some?
    requires after.bridgeAt == call.bridgeAt && after.recording == call.recording && after.bridgeEndAt.None?
    requires after.failureReason == if final == Failed then Some(ForceHangup) else None
    requires call.recording == if call.bridgeAt.Some? then Recording else NotRecorded
    ensures LateCommands(bridged, call,
              Reaction(Finalizing(final), after,
                       if bridged then [HangUp(A), HangUp(B), StopRecording] else [HangUp(A), HangUp(B)]))
  {
  }

  lemma LaterEvent(bridged: bool, call: CallbackCall, e: CallEvent, accepted: bool, now: int)
    requires bridged <==> call.bridgeAt.Some?
    requires call.failureReason.None? && call.bridgeEndAt.None?
    requires call.recording == if call.bridgeAt.Some? then Recording else NotRecorded
    ensures LateCommands(bridged, call, OnLaterEvent(call, bridged, e, accepted, now))
  {
    assert multiset([BridgeLegs, HangUp(A), HangUp(B)])[StopRecording] == 0;
    assert multiset([StopRecording])[StopRecording] == 1;
    assert multiset([HangUp(A)])[StopRecording] == 0;
    if e.name.ChannelAnswer? && e.leg == B {
    } else if e.name.ChannelBridge? {
    } else if e.name.ChannelHangup? {
    }
  }

  lemma LateReactKeepsCoherent(bridged: bool, call: CallbackCall, commands: seq<Command>, r: Reaction)
    requires Coherent(AwaitingB(bridged), call, commands) && LateCommands(bridged, call, r)
    ensures Coherent(r.runner, r.call, commands + r.commands)
  {
    hide React;
    assert multiset(commands)[StopRecording] == 0;
    assert multiset(commands + r.commands) == multiset(commands) + multiset(r.commands);
  }

  lemma ReactKeepsCoherent(runner: Runner, call: CallbackCall, commands: seq<Command>, input: Input, now: int)
    requires Coherent(runner, call, commands)
    ensures var r := React(runner, call, input, now);
            Coherent(r.runner, r.call, commands + r.commands)
  {
    hide OnFirstEvent, OnLaterEvent, LateCommands;
    var r := React(runner, call, input, now);
    match runner
    case Originating | AwaitingA =>
      EarlyReactKeepsCoherent(runner, call, input, now);
      assert commands + r.commands == r.commands;
    case AwaitingB(bridged) =>
      LateReact(bridged, call, input, now);
      LateReactKeepsCoherent(bridged, call, commands, r);
    case Finalizing(_) => assert commands + r.commands == commands;
  }

  // ---- The one exit that does not stop the recording ----

  /** B answers, and the bridge command that this triggers fails. */
  predicate RefusedAnswer(input: Input) {
    input.Event? && input.event.name.ChannelAnswer? && input.event.leg == B && !input.accepted
  }

  /** The k-th input is such an answer and finds the legs bridged already. */
  predicate RefusedWhileBridged(start: CallbackCall, script: seq<(Input, int)>, k: nat)
    requires k < |script|
  {
    ReactAll(start, script[..k]).runner == AwaitingB(true) && RefusedAnswer(script[k].0)
  }

  ghost predicate SkipsStop(start: CallbackCall, script: seq<(Input, int)>) {
    exists k :: 0 <= k < |script| && RefusedWhileBridged(start, script, k)
  }

  /** Bridged, and ended by a failed bridge command. */
  predicate Unstopped(call: CallbackCall) { call.bridgeAt.Some? && call.failureReason == Some(BridgeFailed) }

  lemma ReactSkips(runner: Runner, call: CallbackCall, commands: seq<Command>, input: Input, now: int)
    requires Coherent(runner, call, commands)
    ensures Unstopped(React(runner, call, input, now).call)
            <==> Unstopped(call) || (runner == AwaitingB(true) && RefusedAnswer(input))
  {
  }

  lemma SkipsStopGrows(start: CallbackCall, script: seq<(Input, int)>)
    requires script != []
    ensures var last := |script| - 1;
            SkipsStop(start, script) <==> SkipsStop(start, script[..last]) || RefusedWhileBridged(start, script, last)
  {
    hide ReactAll;
    var front := script[..|script| - 1];
    forall k | 0 <= k < |front|
      ensures RefusedWhileBridged(start, front, k) <==> RefusedWhileBridged(start, script, k)
    {
      assert front[..k] == script[..k];
    }
  }

  lemma {:induction false} ScriptIsCoherent(aRate: int, bRate: int, preDeduct: int, script: seq<(Input, int)>)
    ensures var start := NewCall(aRate, bRate, preDeduct);
            var r := ReactAll(start, script);
            Coherent(r.runner, r.call, r.commands) && (Unstopped(r.call) <==> SkipsStop(start, script))
  {
    hide React, Coherent, SkipsStop, Unstopped;
    var start := NewCall(aRate, bRate, preDeduct);
    if script == [] {
      NothingYet(start);
    } else {
      var front, last := script[..|script| - 1], script[|script| - 1];
      ScriptIsCoherent(aRate, bRate, preDeduct, front);
      var before := ReactAll(start, front);
      ReactKeepsCoherent(before.runner, before.call, before.commands, last.0, last.1);
      ReactSkips(before.runner, before.call, before.commands, last.0, last.1);
      SkipsStopGrows(start, script);
    }
  }

  lemma NothingYet(start: CallbackCall)
    requires start.bridgeAt.None? && start.bridgeEndAt.None?
             && start.failureReason.None? && start.recording.NotRecorded?
    ensures Coherent(Originating, start, []) && !Unstopped(start) && !SkipsStop(start, [])
  {
  }

  /**
    On every exit of runCall the recording of a bridged call has been stopped exactly once before
    finalization, except on one: it is left running if and only if some B answer arrived while
    the legs were bridged and the bridge command it triggered failed.
   */
  lemma RecordingStoppedOnce(aRate: int, bRate: int, preDeduct: int, script: seq<(Input, int)>)
    ensures var start := NewCall(aRate, bRate, preDeduct);
            var r := ReactAll(start, script);
            && (r.call.bridgeAt.Some? <==> StartRecording in r.commands)
            && (SkipsStop(start, script) ==> r.runner == Finalizing(Failed) && r.call.bridgeAt.Some?)
            && (r.runner.Finalizing? ==>
                  multiset(r.commands)[StopRecording]
                  == if r.call.bridgeAt.Some? && !SkipsStop(start, script) then 1 else 0)
            && (!r.runner.Finalizing? ==> StopRecording !in r.commands)
  {
    ScriptIsCoherent(aRate, bRate, preDeduct, script);
    hide ReactAll, SkipsStop;
  }

  /** Such a script: B answers twice around the bridge, the second time in vain. */
  lemma LeftRecording(aRate: int, bRate: int, preDeduct: int) returns (script: seq<(Input, int)>)
    ensures var start := NewCall(aRate, bRate, preDeduct);
            var r := ReactAll(start, script);
            SkipsStop(start, script) && r.call.bridgeAt.Some? &&
            r.runner == Finalizing(Failed) && StopRecording !in r.commands
  {
    var start := NewCall(aRate, bRate, preDeduct);
    var answered := CallEvent(ChannelAnswer, B, 0, "");
    script := [(OriginateA(true), 0), (Event(CallEvent(ChannelAnswer, A, 0, ""), true), 0), (Event(answered, true), 0),
               (Event(CallEvent(ChannelBridge, A, 0, ""), true), 0), (Event(answered, false), 0)];
    hide React;
    Extends(start, script, 0);
    Extends(start, script, 1);
    Extends(start, script, 2);
    Extends(start, script, 3);
    Extends(start, script, 4);
    hide ReactAll;
    assert script[..0] == [] && script[..5] == script;
    BridgedSoFar(start, script);
    assert RefusedWhileBridged(start, script, 4);
    RecordingStoppedOnce(aRate, bRate, preDeduct, script);
  }

  lemma BridgedSoFar(start: CallbackCall, script: seq<(Input, int)>)
    requires |script| == 5
    requires ReactAll(start, script[..0]).runner == Originating
    requires forall k :: 0 <= k < 4 ==>
               var before := ReactAll(start, script[..k]);
               ReactAll(start, script[..k + 1]).runner
               == React(before.runner, before.call, script[k].0, script[k].1).runner
    requires script[0].0 == OriginateA(true)
    requires script[1].0.Event? && script[1].0.accepted
             && script[1].0.event.name.ChannelAnswer? && script[1].0.event.leg == A
    requires script[2].0.Event? && script[2].0.accepted
             && script[2].0.event.name.ChannelAnswer? && script[2].0.event.leg == B
    requires script[3].0.Event? && script[3].0.event.name.ChannelBridge?
    ensures ReactAll(start, script[..4]).runner == AwaitingB(true)
  {
    hide ReactAll;
    assert ReactAll(start, script[..0 + 1]).runner == AwaitingA;
    assert ReactAll(start, script[..1 + 1]).runner == AwaitingB(false);
    assert ReactAll(start, script[..2 + 1]).runner == AwaitingB(false);
    assert ReactAll(start, script[..3 + 1]).runner == AwaitingB(true);
  }

  /** Reacting to one more input of a script. */
  lemma Extends(start: CallbackCall, script: seq<(Input, int)>, k: nat)
    requires k < |script|
    ensures var before := ReactAll(start, script[..k]);
            var r := React(before.runner, before.call, script[k].0, script[k].1);
            ReactAll(start, script[..k + 1]) == r.(commands := before.commands + r.commands)
  {
    assert script[..k + 1][..k] == script[..k];
  }

  // ---- finalizeCall: durations and wastage ----

  function Elapsed(since: Option<int>, until: Option<int>, now: int): int {
    if since.None? then 0
    else Max(0, TruncDiv((if until.Some? then until.value else now) - since.value, MILLISECOND))
  }

  function SetDuration(recorded: int, since: Option<int>, until: Option<int>, now: int): int {
    if since.None? then recorded else Elapsed(since, until, now)
  }

  /** classifyWastage. */
  function ClassifyWastage(call: CallbackCall, thresholdSec: int): Option<(WastageType, int)> {
    if call.aAnswerAt.Some? && call.bAnswerAt.None? then
      if call.aHangupAt.Some? then
        var durationSec := TruncDiv(call.aHangupAt.value - call.aAnswerAt.value, SECOND);
        Some((AConnectedBFailed, CalculateCost(Max(1, durationSec), call.aLegRate, A_BLOCK)))
      else
        Some((AConnectedBFailed, 0))
    else if call.bridgeAt.Some? && call.bridgeEndAt.Some? then
      var bridgeSec := TruncDiv(call.bridgeEndAt.value - call.bridgeAt.value, SECOND);
      if bridgeSec < thresholdSec then
        Some((BridgeBrokenEarly, CalculateCost(bridgeSec, call.aLegRate, A_BLOCK)
                                 + CalculateCost(bridgeSec, call.bLegRate, B_BLOCK)))
      else None
    else None
  }

  /** The record as finalizeCall leaves it just before it settles money and slot. */
  function Measured(call: CallbackCall, final: Status, now: int, thresholdSec: int): CallbackCall {
    var aMs := SetDuration(call.aDurationMs, call.aAnswerAt, call.aHangupAt, now);
    var bridgeMs := SetDuration(call.bridgeDurationMs, call.bridgeAt, call.bridgeEndAt, now);
    var wastage := ClassifyWastage(call, thresholdSec);
    call.(aDurationMs := aMs,
          bDurationMs := SetDuration(call.bDurationMs, call.bAnswerAt, call.bHangupAt, now),
          bridgeDurationMs := bridgeMs,
          wastage := wastage,
          wastageDurationMs := if wastage.None? then call.wastageDurationMs
                               else if wastage.value.0 == BridgeBrokenEarly then Some(bridgeMs) else Some(aMs),
          status := final)
  }

  /** Billed seconds of each leg. */
  function ASeconds(call: CallbackCall): int { TruncDiv(call.aDurationMs, 1000) }

  function BSeconds(call: CallbackCall): int { TruncDiv(call.bDurationMs, 1000) }

  function SettledCost(call: CallbackCall): int {
    CallCost(ASeconds(call), BSeconds(call), call.aLegRate, call.bLegRate)
  }

  /** Rounding to milliseconds and then to seconds is rounding to seconds. */
  lemma NestedFloors(x: int)
    requires x >= 0
    ensures TruncDiv(TruncDiv(x, MILLISECOND), 1000) == TruncDiv(x, SECOND)
  {
  }

  /** The seconds billed for a leg, straight from its time stamps. */
  lemma BilledSeconds(since: int, until: Option<int>, now: int)
    ensures TruncDiv(Elapsed(Some(since), until, now), 1000)
            == Max(0, TruncDiv((if until.Some? then until.value else now) - since, SECOND))
  {
    var x := (if until.Some? then until.value else now) - since;
    if x >= 0 {
      NestedFloors(x);
    }
  }
}
