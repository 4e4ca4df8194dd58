/**
  What classifyWastage records against what Finalize bills: exact conditions on the record, and
  what they come to for the scripts of inputs that produce it.
 */
module Wastage {
  import opened Sequences
  import opened Numbers
  import opened Costs
  import opened Calls

  /** No leg has been measured yet: finalizeCall alone does that. */
  predicate Unmeasured(call: CallbackCall) { call.aDurationMs == 0 && call.bDurationMs == 0 }

  lemma ReactDoesNotMeasure(runner: Runner, call: CallbackCall, input: Input, now: int)
    ensures var r := React(runner, call, input, now);
            && r.call.aDurationMs == call.aDurationMs && r.call.bDurationMs == call.bDurationMs
            && r.call.aLegRate == call.aLegRate && r.call.bLegRate == call.bLegRate
  {
  }

  lemma {:induction false} ScriptsDoNotMeasure(start: CallbackCall, script: seq<(Input, int)>)
    requires Unmeasured(start)
    ensures var call := ReactAll(start, script).call;
            Unmeasured(call) && call.aLegRate == start.aLegRate && call.bLegRate == start.bLegRate
  {
    hide React;
    if script != [] {
      var last := |script| - 1;
      ScriptsDoNotMeasure(start, script[..last]);
      var before := ReactAll(start, script[..last]);
      ReactDoesNotMeasure(before.runner, before.call, script[last].0, script[last].1);
    }
  }

  /** The recorded waste, nothing if there is none. */
  function Waste(m: CallbackCall): int { if m.wastage.Some? then m.wastage.value.1 else 0 }

  // ---- A answered, B never did ----

  /** A leg of this length is billed nothing when its blocks come to less than a tenth of a fen-minute. */
  lemma FreeLeg(d: int, rate: int)
    requires rate >= 0
    ensures LegCost(d, rate, A_BLOCK) == 0 <==> d <= 0 || CeilDiv(d, A_BLOCK) * rate < 10
    ensures LegCost(d, rate, A_BLOCK) >= 0
  {
    if d > 0 {
      var n := CeilDiv(d, A_BLOCK);
      BlocksCover(d, A_BLOCK);
      ProductsMonotone(0, n, rate);
      assert n * A_BLOCK * rate == 6 * (n * rate);
    }
  }

  /** Waste and bill agree: A hung up after a second or for free, or never hung up and is billed nothing. */
  predicate FailedBFair(call: CallbackCall, now: int)
    requires call.aAnswerAt.Some?
  {
    var since := call.aAnswerAt.value;
    if call.aHangupAt.Some? then call.aHangupAt.value - since >= SECOND || call.aLegRate < 10
    else now - since < SECOND || CeilDiv(TruncDiv(now - since, SECOND), A_BLOCK) * call.aLegRate < 10
  }

  /**
    The waste of a call whose A leg answered and whose B leg did not equals its bill exactly when:
    A hung up and stayed a full second or a first block is free; or A never hung up, in which case
    no waste is recorded, and the time up to settlement is billed nothing.
   */
  lemma FailedBWasteIsTheBill(call: CallbackCall, final: Status, now: int, thresholdSec: int)
    requires call.aAnswerAt.Some? && call.bAnswerAt.None? && Unmeasured(call)
    requires call.aLegRate >= 0
    ensures var m := Measured(call, final, now, thresholdSec);
            && m.wastage.Some? && m.wastage.value.0 == AConnectedBFailed
            && (Waste(m) == SettledCost(m) <==> FailedBFair(call, now))
  {
    var since := call.aAnswerAt.value;
    BilledSeconds(since, call.aHangupAt, now);
    if call.aHangupAt.Some? {
      var d := TruncDiv(call.aHangupAt.value - since, SECOND);
      FormulasAgree(call.aLegRate, A_BLOCK);
      assert LegCost(Max(1, d), call.aLegRate, A_BLOCK) == CalculateCost(Max(1, d), call.aLegRate, A_BLOCK);
      assert LegCost(1, call.aLegRate, A_BLOCK) == TruncDiv(6 * call.aLegRate, 60);
    } else {
      FreeLeg(Max(0, TruncDiv(now - since, SECOND)), call.aLegRate);
    }
  }

  /** The same for whatever script of inputs produced the call, settled by runCall or by a disconnect. */
  lemma FailedBOfScript(aRate: nat, bRate: int, preDeduct: int, script: seq<(Input, int)>,
                        final: Status, clock: int, thresholdSec: int)
    requires var call := ReactAll(NewCall(aRate, bRate, preDeduct), script).call;
             call.aAnswerAt.Some? && call.bAnswerAt.None?
    ensures var call := ReactAll(NewCall(aRate, bRate, preDeduct), script).call;
            var m := Measured(call, final, clock, thresholdSec);
            Waste(m) == SettledCost(m) <==> FailedBFair(call, clock)
  {
    var start := NewCall(aRate, bRate, preDeduct);
    ScriptsDoNotMeasure(start, script);
    hide ReactAll, Measured, SettledCost, FailedBFair;
    FailedBWasteIsTheBill(ReactAll(start, script).call, final, clock, thresholdSec);
  }

  /** Cancelled a hundred seconds after A answered: no waste, a bill of 102. */
  lemma CancelledWasteIsNotTheBill() returns (script: seq<(Input, int)>)
    ensures var r := ReactAll(NewCall(60, 0, 1800), script);
            var m := Measured(r.call, Failed, 100 * SECOND, 10);
            && r.runner == Finalizing(Failed) && r.call.aAnswerAt == Some(0)
            && m.wastage == Some((AConnectedBFailed, 0)) && SettledCost(m) == 102
  {
    var start := NewCall(60, 0, 1800);
    script := [(OriginateA(true), 0), (Event(CallEvent(ChannelAnswer, A, 0, ""), true), 0), (Cancelled, 100 * SECOND)];
    assert script[..0] == [] && script[..3] == script && ReactAll(start, []) == Reaction(Originating, start, []);
    Extends(start, script, 0);
    Extends(start, script, 1);
    Extends(start, script, 2);
    hide ReactAll;
    assert ReactAll(start, script[..1]).runner == AwaitingA;
    assert ReactAll(start, script[..2]).runner == AwaitingB(false);
    var call := ReactAll(start, script).call;
    assert call.aAnswerAt == Some(0) && call.aHangupAt.None? && call.bAnswerAt.None?;
    var m := Measured(call, Failed, 100 * SECOND, 10);
    assert ASeconds(m) == 100 && BSeconds(m) == 0;
  }

  // ---- The bridge broke early ----

  /** classifyWastage's second case. */
  predicate BrokenEarly(call: CallbackCall, thresholdSec: int) {
    && (call.aAnswerAt.Some? ==> call.bAnswerAt.Some?)
    && call.bridgeAt.Some? && call.bridgeEndAt.Some?
    && BridgeSeconds(call) < thresholdSec
  }

  function BridgeSeconds(call: CallbackCall): int
    requires call.bridgeAt.Some? && call.bridgeEndAt.Some?
  {
    TruncDiv(call.bridgeEndAt.value - call.bridgeAt.value, SECOND)
  }

  predicate WithinBill(call: CallbackCall, final: Status, now: int, thresholdSec: int) {
    var m := Measured(call, final, now, thresholdSec);
    Waste(m) <= SettledCost(m)
  }

  function Rated(call: CallbackCall, aRate: int, bRate: int): CallbackCall {
    call.(aLegRate := aRate, bLegRate := bRate)
  }

  /** Whatever the tariff, the waste of this call stays within its bill. */
  ghost predicate WithinEveryBill(call: CallbackCall, final: Status, now: int, thresholdSec: int) {
    forall aRate: nat, bRate: nat :: WithinBill(Rated(call, aRate, bRate), final, now, thresholdSec)
  }

  /** Each leg is billed at least the blocks of the bridge. */
  predicate BlocksCovered(bridgeSec: int, aSec: int, bSec: int) {
    CeilDiv(bridgeSec, A_BLOCK) <= CeilDiv(aSec, A_BLOCK) && CeilDiv(bridgeSec, B_BLOCK) <= CeilDiv(bSec, B_BLOCK)
  }

  /** Waste and bill of one leg at these rates. */
  lemma RatedCosts(call: CallbackCall, final: Status, now: int, thresholdSec: int, aRate: int, bRate: int)
    requires BrokenEarly(call, thresholdSec)
    ensures var m := Measured(call, final, now, thresholdSec);
            var rated := Measured(Rated(call, aRate, bRate), final, now, thresholdSec);
            && rated.wastage.Some? && rated.wastage.value.0 == BridgeBrokenEarly
            && Waste(rated) == CalculateCost(BridgeSeconds(call), aRate, A_BLOCK)
                               + CalculateCost(BridgeSeconds(call), bRate, B_BLOCK)
            && SettledCost(rated) == LegCost(ASeconds(m), aRate, A_BLOCK) + LegCost(BSeconds(m), bRate, B_BLOCK)
  {
    hide CalculateCost, LegCost, SetDuration;
  }

  /** At ten fen a minute an A block costs one fen, at one fen a minute a B block does. */
  lemma UnitRates(d: int)
    ensures LegCost(d, 10, A_BLOCK) == Max(0, CeilDiv(d, A_BLOCK))
    ensures LegCost(d, 1, B_BLOCK) == Max(0, CeilDiv(d, B_BLOCK))
    ensures LegCost(d, 0, A_BLOCK) == 0 && LegCost(d, 0, B_BLOCK) == 0
  {
    if d > 0 {
      BlocksCover(d, A_BLOCK);
      BlocksCover(d, B_BLOCK);
    }
  }

  lemma LegCostsFollowBlocks(d: int, e: int, rate: int, block: int)
    requires block > 0 && rate >= 0 && e >= 0 && CeilDiv(d, block) <= CeilDiv(e, block)
    ensures 0 <= LegCost(d, rate, block) <= LegCost(e, rate, block)
  {
    CostMonotone(d, Max(d, e), rate, block);
    if d > 0 {
      BlocksCover(d, block);
      assert e != 0;
      ProductsMonotone(CeilDiv(d, block), CeilDiv(e, block), block);
      ProductsMonotone(0, CeilDiv(d, block) * block, rate);
      ProductsMonotone(CeilDiv(d, block) * block, CeilDiv(e, block) * block, rate);
    } else {
      CostMonotone(0, e, rate, block);
    }
  }

  lemma AgreeAt(d: int, rate: int, block: int)
    requires block > 0 && rate >= 0
    ensures CalculateCost(d, rate, block) == LegCost(d, rate, block)
  {
    FormulasAgree(rate, block);
  }

  /** Measured seconds and blocks are never negative. */
  lemma MeasuredBlocks(call: CallbackCall, final: Status, now: int, thresholdSec: int)
    requires Unmeasured(call)
    ensures var m := Measured(call, final, now, thresholdSec);
            && ASeconds(m) >= 0 && BSeconds(m) >= 0
            && CeilDiv(ASeconds(m), A_BLOCK) >= 0 && CeilDiv(BSeconds(m), B_BLOCK) >= 0
  {
    hide ClassifyWastage;
  }

  /**
    The waste of a call whose bridge broke early stays within its bill at every tariff exactly
    when the billed blocks of each leg are at least those of the bridge.
   */
  lemma EarlyBreakWithinBill(call: CallbackCall, final: Status, now: int, thresholdSec: int)
    requires Unmeasured(call) && BrokenEarly(call, thresholdSec)
    ensures var m := Measured(call, final, now, thresholdSec);
            WithinEveryBill(call, final, now, thresholdSec)
            <==> BlocksCovered(BridgeSeconds(call), ASeconds(m), BSeconds(m))
  {
    var m, d := Measured(call, final, now, thresholdSec), BridgeSeconds(call);
    MeasuredBlocks(call, final, now, thresholdSec);
    hide Measured, SettledCost, Waste, LegCost, CalculateCost, CeilDiv, BridgeSeconds;
    if BlocksCovered(d, ASeconds(m), BSeconds(m)) {
      forall aRate: nat, bRate: nat ensures WithinBill(Rated(call, aRate, bRate), final, now, thresholdSec) {
        RatedCosts(call, final, now, thresholdSec, aRate, bRate);
        AgreeAt(d, aRate, A_BLOCK);
        AgreeAt(d, bRate, B_BLOCK);
        LegCostsFollowBlocks(d, ASeconds(m), aRate, A_BLOCK);
        LegCostsFollowBlocks(d, BSeconds(m), bRate, B_BLOCK);
      }
    } else {
      UnitRates(d);
      UnitRates(ASeconds(m));
      UnitRates(BSeconds(m));
      AgreeAt(d, 10, A_BLOCK);
      AgreeAt(d, 0, A_BLOCK);
      AgreeAt(d, 1, B_BLOCK);
      AgreeAt(d, 0, B_BLOCK);
      RatedCosts(call, final, now, thresholdSec, 10, 0);
      RatedCosts(call, final, now, thresholdSec, 0, 1);
      assert !(WithinBill(Rated(call, 10, 0), final, now, thresholdSec)
               && WithinBill(Rated(call, 0, 1), final, now, thresholdSec));
    }
  }

  /** A and the bridge come in the order things happened, and both legs outlast the bridge. */
  predicate Ordered(call: CallbackCall, now: int) {
    && call.aAnswerAt.Some? && call.bAnswerAt.Some? && call.bridgeAt.Some? && call.bridgeEndAt.Some?
    && call.aAnswerAt.value <= call.bridgeAt.value <= call.bridgeEndAt.value
    && call.bridgeEndAt.value <= (if call.aHangupAt.Some? then call.aHangupAt.value else now)
    && call.bridgeEndAt.value <= (if call.bHangupAt.Some? then call.bHangupAt.value else now)
  }

  lemma LongerIsMoreBlocks(d: int, e: int, block: int)
    requires block > 0 && 0 <= d <= e
    ensures CeilDiv(d, block) <= CeilDiv(e, block)
  {
    if d > 0 {
      BlocksMonotone(d, e, block);
    } else if e > 0 {
      BlocksCover(e, block);
      assert CeilDiv(0, block) == 0;
    }
  }

  /** In order, B's blocks alone decide; and they suffice when B's last answer came before the bridge. */
  lemma OrderedEarlyBreak(call: CallbackCall, final: Status, now: int, thresholdSec: int)
    requires Unmeasured(call) && BrokenEarly(call, thresholdSec) && Ordered(call, now)
    ensures var m := Measured(call, final, now, thresholdSec);
            && (WithinEveryBill(call, final, now, thresholdSec)
                <==> CeilDiv(BridgeSeconds(call), B_BLOCK) <= CeilDiv(BSeconds(m), B_BLOCK))
            && (call.bAnswerAt.value <= call.bridgeAt.value ==> WithinEveryBill(call, final, now, thresholdSec))
  {
    EarlyBreakWithinBill(call, final, now, thresholdSec);
    hide WithinEveryBill;
    BilledSeconds(call.aAnswerAt.value, call.aHangupAt, now);
    BilledSeconds(call.bAnswerAt.value, call.bHangupAt, now);
    var m, d := Measured(call, final, now, thresholdSec), BridgeSeconds(call);
    assert 0 <= d <= ASeconds(m);
    LongerIsMoreBlocks(d, ASeconds(m), A_BLOCK);
    if call.bAnswerAt.value <= call.bridgeAt.value {
      assert d <= BSeconds(m);
      LongerIsMoreBlocks(d, BSeconds(m), B_BLOCK);
    }
  }

  // ---- Scripts whose events come in order ----

  /** Events carry time stamps in the order they are handled, none later than the settlement. */
  predicate Chronological(script: seq<(Input, int)>, clock: int) {
    && (forall j, k :: 0 <= j < k < |script| && script[j].0.Event? && script[k].0.Event? ==>
          script[j].0.event.timestamp <= script[k].0.event.timestamp)
    && (forall k :: 0 <= k < |script| && script[k].0.Event? ==> script[k].0.event.timestamp <= clock)
  }

  predicate AnswersB(input: Input) { input.Event? && input.event.name.ChannelAnswer? && input.event.leg == B }

  predicate Bridges(input: Input) { input.Event? && input.event.name.ChannelBridge? }

  /** What runCall is waiting for when it gets the k-th input. */
  function RunnerAt(start: CallbackCall, script: seq<(Input, int)>, k: nat): Runner
    requires k <= |script|
  {
    ReactAll(start, script[..k]).runner
  }

  predicate BridgedAt(start: CallbackCall, script: seq<(Input, int)>, k: nat)
    requires k < |script|
  {
    RunnerAt(start, script, k).AwaitingB? && Bridges(script[k].0)
  }

  /** The k-th input is an answer of B after the bridge. */
  predicate LateAt(start: CallbackCall, script: seq<(Input, int)>, k: nat)
    requires k < |script|
  {
    RunnerAt(start, script, k) == AwaitingB(true) && AnswersB(script[k].0)
  }

  /** B answers once more after the last bridge. */
  ghost predicate LateAnswer(start: CallbackCall, script: seq<(Input, int)>) {
    exists k :: 0 <= k < |script| && LateAt(start, script, k)
                && forall j :: k < j < |script| ==> !BridgedAt(start, script, j)
  }

  lemma LateAnswerGrows(start: CallbackCall, script: seq<(Input, int)>)
    requires script != []
    ensures var last := |script| - 1;
            LateAnswer(start, script)
            <==> LateAt(start, script, last) || (LateAnswer(start, script[..last]) && !BridgedAt(start, script, last))
  {
    hide ReactAll;
    var last := |script| - 1;
    var front := script[..last];
    forall k | 0 <= k < last
      ensures LateAt(start, front, k) <==> LateAt(start, script, k)
      ensures BridgedAt(start, front, k) <==> BridgedAt(start, script, k)
    {
      assert front[..k] == script[..k];
    }
    if LateAnswer(start, front) && !BridgedAt(start, script, last) {
      var k :| 0 <= k < last && LateAt(start, front, k) && forall j :: k < j < last ==> !BridgedAt(start, front, j);
      assert LateAt(start, script, k);
    }
  }

  predicate NoLater(stamp: Option<int>, t: int) { stamp.Some? ==> stamp.value <= t }

  predicate InOrder(first: Option<int>, second: Option<int>) {
    first.Some? && second.Some? ==> first.value <= second.value
  }

  /** The stamps a call bears while or after runCall has handled events up to time t. */
  predicate Stamped(call: CallbackCall, runner: Runner, t: int) {
    && NoLater(call.aAnswerAt, t) && NoLater(call.bAnswerAt, t)
    && NoLater(call.bridgeAt, t) && NoLater(call.bridgeEndAt, t)
    && InOrder(call.aAnswerAt, call.bridgeAt) && InOrder(call.bridgeAt, call.bridgeEndAt)
    && InOrder(call.bridgeEndAt, call.aHangupAt) && InOrder(call.bridgeEndAt, call.bHangupAt)
    && (call.bridgeEndAt.Some? ==> call.bridgeAt.Some? && runner.Finalizing?)
    && (!runner.Finalizing? ==> call.aHangupAt.None? && call.bHangupAt.None?)
    && (runner.Originating? || runner.AwaitingA? ==>
          call.aAnswerAt.None? && call.bAnswerAt.None? && call.bridgeAt.None?)
    && (runner.AwaitingB? ==> (runner.bridged <==> call.bridgeAt.Some?))
  }

  lemma ReactStamps(runner: Runner, call: CallbackCall, input: Input, now: int, t: int)
    requires Stamped(call, runner, t) && (input.Event? ==> t <= input.event.timestamp)
    ensures var r := React(runner, call, input, now);
            Stamped(r.call, r.runner, if input.Event? then input.event.timestamp else t)
  {
    hide OnFirstEvent, OnLaterEvent;
    match runner
    case Originating =>
    case AwaitingA =>
      if input.Event? {
        FirstEventStamps(call, input.event, input.accepted, now, t);
        hide Stamped;
      }
    case AwaitingB(bridged) =>
      if input.Event? {
        LaterEventStamps(call, bridged, input.event, input.accepted, now, t);
        hide Stamped;
      }
    case Finalizing(_) =>
  }

  lemma FirstEventStamps(call: CallbackCall, e: CallEvent, originates: bool, now: int, t: int)
    requires Stamped(call, AwaitingA, t) && t <= e.timestamp
    ensures var r := OnFirstEvent(call, e, originates, now);
            Stamped(r.call, r.runner, e.timestamp)
  {
  }

  lemma LaterEventStamps(call: CallbackCall, bridged: bool, e: CallEvent, bridges: bool, now: int, t: int)
    requires Stamped(call, AwaitingB(bridged), t) && t <= e.timestamp
    ensures var r := OnLaterEvent(call, bridged, e, bridges, now);
            Stamped(r.call, r.runner, e.timestamp)
  {
  }

  /** What one input does to B's answer and the bridge. */
  lemma ReactAnswers(runner: Runner, call: CallbackCall, input: Input, now: int)
    ensures var r := React(runner, call, input, now);
            && r.call.bAnswerAt == (if runner.AwaitingB? && AnswersB(input)
                                   then Some(input.event.timestamp) else call.bAnswerAt)
            && r.call.bridgeAt == (if runner.AwaitingB? && Bridges(input)
                                   then Some(input.event.timestamp) else call.bridgeAt)
  {
  }

  /** Whether B's answer follows the bridge is whether the script has a late answer. */
  ghost predicate AnswerPlaced(call: CallbackCall, late: bool) {
    if late then call.bAnswerAt.Some? && call.bridgeAt.Some? && call.bridgeAt.value <= call.bAnswerAt.value
    else InOrder(call.bAnswerAt, call.bridgeAt)
  }

  lemma {:induction false} ScriptStamps(start: CallbackCall, script: seq<(Input, int)>, t: int)
    requires Chronological(script, t) && Stamped(start, Originating, t)
    ensures var r := ReactAll(start, script);
            Stamped(r.call, r.runner, t) && AnswerPlaced(r.call, LateAnswer(start, script))
  {
    hide React, LateAnswer;
    if script == [] {
      NoAnswerYet(start);
    } else {
      var last := |script| - 1;
      var front, input, now := script[..last], script[last].0, script[last].1;
      var seen := if input.Event? then input.event.timestamp else t;
      StartStamps(start, t, seen);
      ScriptStamps(start, front, seen);
      var before := ReactAll(start, front);
      ReactStamps(before.runner, before.call, input, now, seen);
      ReactAnswers(before.runner, before.call, input, now);
      LateAnswerGrows(start, script);
    }
  }

  lemma StartStamps(start: CallbackCall, t: int, seen: int)
    requires Stamped(start, Originating, t)
    ensures Stamped(start, Originating, seen)
  {
  }

  lemma NoAnswerYet(start: CallbackCall)
    requires start.bAnswerAt.None?
    ensures AnswerPlaced(start, LateAnswer(start, []))
  {
  }

  /**
    When both legs answered, events came in order and B did not answer again after the last
    bridge, the waste of a bridge broken early stays within the bill at every tariff.
   */
  lemma EarlyBreakOfScript(aRate: nat, bRate: nat, preDeduct: int, script: seq<(Input, int)>,
                           final: Status, clock: int, thresholdSec: int)
    requires Chronological(script, clock) && !LateAnswer(NewCall(aRate, bRate, preDeduct), script)
    requires var call := ReactAll(NewCall(aRate, bRate, preDeduct), script).call;
             call.aAnswerAt.Some? && call.bAnswerAt.Some?
    ensures var call := ReactAll(NewCall(aRate, bRate, preDeduct), script).call;
            var m := Measured(call, final, clock, thresholdSec);
            && (m.wastage.Some? <==> BrokenEarly(call, thresholdSec))
            && (m.wastage.Some? ==> m.wastage.value.0 == BridgeBrokenEarly && Waste(m) <= SettledCost(m))
  {
    var start := NewCall(aRate, bRate, preDeduct);
    var call := ReactAll(start, script).call;
    ScriptStamps(start, script, clock);
    ScriptsDoNotMeasure(start, script);
    hide ReactAll, LateAnswer, SetDuration;
    if BrokenEarly(call, thresholdSec) {
      OrderedEarlyBreak(call, final, clock, thresholdSec);
      assert Rated(call, aRate, bRate) == call;
      assert WithinBill(Rated(call, aRate, bRate), final, clock, thresholdSec);
    }
  }

  lemma Follows(start: CallbackCall, script: seq<(Input, int)>, k: nat,
                runner: Runner, call: CallbackCall, next: Reaction)
    requires k < |script| && RunnerAt(start, script, k) == runner && ReactAll(start, script[..k]).call == call
    requires React(runner, call, script[k].0, script[k].1) == next
    ensures RunnerAt(start, script, k + 1) == next.runner && ReactAll(start, script[..k + 1]).call == next.call
  {
    Extends(start, script, k);
  }

  const HALF := 500 * MILLISECOND

  const A_ANSWER := Event(CallEvent(ChannelAnswer, A, 0, ""), true)
  const B_ANSWER := Event(CallEvent(ChannelAnswer, B, 0, ""), true)
  const BRIDGE := Event(CallEvent(ChannelBridge, A, 0, ""), true)
  const LATE_ANSWER := Event(CallEvent(ChannelAnswer, B, 11 * HALF, ""), true)
  const B_HANGUP := Event(CallEvent(ChannelHangup, B, 12 * HALF, ""), true)

  /** B answers again half a second before it hangs up. */
  const LATE_SCRIPT: seq<(Input, int)> :=
    [(OriginateA(true), 0), (A_ANSWER, 0), (B_ANSWER, 0), (BRIDGE, 0), (LATE_ANSWER, 0), (B_HANGUP, 0)]

  lemma UntilBridged(start: CallbackCall) returns (call: CallbackCall)
    requires start.recording == NotRecorded
    ensures RunnerAt(start, LATE_SCRIPT, 4) == AwaitingB(true) && ReactAll(start, LATE_SCRIPT[..4]).call == call
    ensures call == start.(aDialAt := Some(0), aAnswerAt := Some(0), bDialAt := Some(0), bAnswerAt := Some(0),
                           bridgeAt := Some(0), status := Bridged, recording := Recording)
  {
    assert LATE_SCRIPT[..0] == [] && ReactAll(start, []) == Reaction(Originating, start, []);
    hide ReactAll;
    var c1 := start.(aDialAt := Some(0), status := ADialing);
    var c2 := c1.(aAnswerAt := Some(0), bDialAt := Some(0), status := BDialing);
    var c3 := c2.(bAnswerAt := Some(0), status := BConnected);
    call := c3.(bridgeAt := Some(0), status := Bridged, recording := Recording);
    Follows(start, LATE_SCRIPT, 0, Originating, start, Reaction(AwaitingA, c1, []));
    Follows(start, LATE_SCRIPT, 1, AwaitingA, c1, Reaction(AwaitingB(false), c2, []));
    Follows(start, LATE_SCRIPT, 2, AwaitingB(false), c2, Reaction(AwaitingB(false), c3, [BridgeLegs]));
    Follows(start, LATE_SCRIPT, 3, AwaitingB(false), c3, Reaction(AwaitingB(true), call, [StartRecording]));
  }

  /** A bridge of six seconds against half a second billed. */
  lemma LateMoney(call: CallbackCall, thresholdSec: int)
    requires call.aLegRate == 0 && call.bLegRate == 60 && Unmeasured(call) && thresholdSec > 6
    requires call.aAnswerAt == Some(0) && call.bAnswerAt == Some(11 * HALF) && call.aHangupAt.None?
    requires call.bridgeAt == Some(0) && call.bHangupAt == call.bridgeEndAt == Some(12 * HALF)
    ensures var m := Measured(call, Finished, 12 * HALF, thresholdSec);
            m.wastage == Some((BridgeBrokenEarly, 60)) && SettledCost(m) == 0
  {
    var m := Measured(call, Finished, 12 * HALF, thresholdSec);
    assert ASeconds(m) == 6 && BSeconds(m) == 0;
  }

  /** On that script nothing is billed, and 60 is recorded as waste. */
  lemma LateAnswerOutrunsTheBill()
    ensures Chronological(LATE_SCRIPT, 12 * HALF) && LateAnswer(NewCall(0, 60, 1800), LATE_SCRIPT)
    ensures var r := ReactAll(NewCall(0, 60, 1800), LATE_SCRIPT);
            var m := Measured(r.call, Finished, 12 * HALF, 10);
            && r.runner == Finalizing(Finished) && r.call.aAnswerAt.Some? && r.call.bAnswerAt.Some?
            && m.wastage == Some((BridgeBrokenEarly, 60)) && SettledCost(m) == 0
  {
    var start := NewCall(0, 60, 1800);
    var c4 := UntilBridged(start);
    var c5 := c4.(bAnswerAt := Some(11 * HALF), status := BConnected);
    var c6 := c5.(bHangupAt := Some(12 * HALF), bridgeEndAt := Some(12 * HALF));
    assert LATE_SCRIPT[..6] == LATE_SCRIPT;
    hide ReactAll, Measured, SettledCost;
    Follows(start, LATE_SCRIPT, 4, AwaitingB(true), c4, Reaction(AwaitingB(true), c5, [BridgeLegs]));
    Follows(start, LATE_SCRIPT, 5, AwaitingB(true), c5, Reaction(Finalizing(Finished), c6, [StopRecording]));
    assert LateAt(start, LATE_SCRIPT, 4);
    hide React;
    LateMoney(c6, 10);
  }
}
