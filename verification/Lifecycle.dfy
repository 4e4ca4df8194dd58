/**
  One customer's calls, money and concurrency slots under arbitrary interleaving: the saga of
  InitiateCallback, the runCall goroutines, event delivery, cancellation, any number of passes of
  the FreeSWITCH disconnect handler, and finalizeCall entered by all of them through the lookup
  in activeCalls and the sync.Once, each shared access one step.
 */
module Lifecycle {
  import opened Sequences
  import opened Numbers
  import opened Costs
  import opened Calls

  const EVENT_BUFFER := 10

  /** How far a call attempt has come. Settlement leaves its progress here but never consults it. */
  datatype Stage =
    | Deducted    // balance held, slot not yet requested
    | OverLimit   // counter incremented past the limit, undo outstanding
    | Placing     // slot granted; picking gateways and storing the call
    | Unplaced    // no slot any more, the hold still to be refunded
    | Refunded    // InitiateCallback has returned its error
    | Live        // stored in activeCalls
    | Charged     // money settled
    | Released    // slot released
    | Merged      // merge decided
    | Settled     // removed from activeCalls

  /** What the function handed to the once does next. */
  datatype Body = ToCharge | ToRelease | ToMerge | ToDelete | ToLeave

  /** Where a caller of finalizeCall stands: before its Load, before its Do, in the function, or back. */
  datatype Caller = Absent | AtLookup | AtOnce | Inside(next: Body) | Returned

  /** runCall, or the n-th pass of the disconnect handler over this call. */
  datatype Who = RunCall | Handler(pass: nat)

  /** A sync.Once: while the first caller is in the function every other Do blocks. */
  datatype Once = Idle | Busy(who: Who) | Done

  datatype Goroutine = NotStarted | Starting | Running(runner: Runner) | Closing(final: Status, caller: Caller) | Exited

  /**
    A call attempt. The counts say how often each settlement effect happened; bridges counts the
    bridge events runCall handled, bridgesAtMerge those it had handled when the merge was decided.
   */
  datatype Call = Call(stage: Stage, goroutine: Goroutine, inMap: bool, once: Once, passes: seq<Caller>,
                       record: CallbackCall, events: seq<CallEvent>,
                       cancelled: bool, granted: bool, byRunner: bool, cost: int,
                       finalizes: nat, releases: nat, merges: nat, bridges: nat, bridgesAtMerge: nat)

  datatype Config = Config(creditLimit: int, maxConcurrent: nat, opening: int)

  datatype State = State(balance: int, slots: int, calls: seq<Call>, topups: int, deductions: int)

  datatype Step =
    | PreDeduct(aRate: int, bRate: int)
    | AcquireSlot(i: nat)
    | UndoSlot(i: nat)
    | PlacementFails(i: nat)
    | Refund(i: nat)
    | Store(i: nat)
    | Spawn(i: nat)
    | RunnerLoads(i: nat)
    | RunnerTakes(i: nat, input: Input, now: int)
    | Deliver(i: nat, event: CallEvent)
    | Cancel(i: nat, initiator: Option<Party>)
    | Range(i: nat)
    | Lookup(i: nat, who: Who)
    | Enter(i: nat, who: Who)
    | Resume(i: nat, who: Who)
    | Charge(i: nat, who: Who, final: Status, now: int, thresholdSec: int)
    | ReleaseSlot(i: nat, who: Who)
    | DecideMerge(i: nat, who: Who)
    | Delete(i: nat, who: Who)
    | Leave(i: nat, who: Who)
    | Topup(amount: int)
    | Deduct(amount: int)

  function Initial(cfg: Config): State { State(cfg.opening, 0, [], 0, 0) }

  /** Where a caller stands; Absent if it has not called. */
  function At(c: Call, who: Who): Caller {
    match who
    case RunCall => if c.goroutine.Closing? then c.goroutine.caller else Absent
    case Handler(p) => if p < |c.passes| then c.passes[p] else Absent
  }

  /** A caller moves on; runCall returns as soon as its finalizeCall does. */
  function Moved(c: Call, who: Who, to: Caller): Call {
    match who
    case RunCall =>
      if !c.goroutine.Closing? then c
      else c.(goroutine := if to.Returned? then Exited else Closing(c.goroutine.final, to))
    case Handler(p) => if p < |c.passes| then c.(passes := c.passes[p := to]) else c
  }

  /** The status a caller settles with. */
  function FinalOf(c: Call, who: Who): Status {
    if who.RunCall? && c.goroutine.Closing? then c.goroutine.final else Failed
  }

  predicate Waits(r: Runner) { r.AwaitingA? || r.AwaitingB? }

  /** What runCall's blocking operation may yield in this state. */
  predicate Offered(c: Call, input: Input) {
    && c.goroutine.Running?
    && match input
       case OriginateA(_) => c.goroutine.runner.Originating?
       case Event(e, _) => Waits(c.goroutine.runner) && c.events != [] && c.events[0] == e
       case Timer => Waits(c.goroutine.runner)
       case Cancelled => Waits(c.goroutine.runner) && c.cancelled
  }

  predicate Concerns(step: Step, i: nat) {
    !step.PreDeduct? && !step.Topup? && !step.Deduct? && step.i == i
  }

  predicate Enabled(cfg: Config, s: State, step: Step) {
    match step
    case PreDeduct(aRate, bRate) => s.balance + cfg.creditLimit >= PreDeductAmount(aRate, bRate)
    case Topup(amount) => amount > 0
    case Deduct(amount) => amount > 0
    case _ => step.i < |s.calls| && CallEnabled(s.calls[step.i], step)
  }

  predicate CallEnabled(c: Call, step: Step) {
    match step
    case AcquireSlot(_) => c.stage.Deducted?
    case UndoSlot(_) => c.stage.OverLimit?
    case PlacementFails(_) => c.stage.Placing?
    case Refund(_) => c.stage.Unplaced?
    case Store(_) => c.stage.Placing?
    case Spawn(_) => c.goroutine.NotStarted? && !Unlaunched(c.stage)
    case RunnerLoads(_) => c.goroutine.Starting?
    case RunnerTakes(_, input, _) => Offered(c, input)
    case Deliver(_, _) => true
    case Cancel(_, _) => c.inMap
    case Range(_) => c.inMap
    case Lookup(_, who) => At(c, who).AtLookup?
    case Enter(_, who) => At(c, who).AtOnce? && c.once.Idle?
    case Resume(_, who) => At(c, who).AtOnce? && c.once.Done?
    case Charge(_, who, final, _, _) => At(c, who) == Inside(ToCharge) && final == FinalOf(c, who)
    case ReleaseSlot(_, who) => At(c, who) == Inside(ToRelease)
    case DecideMerge(_, who) => At(c, who) == Inside(ToMerge)
    case Delete(_, who) => At(c, who) == Inside(ToDelete)
    case Leave(_, who) => At(c, who) == Inside(ToLeave)
    case _ => false
  }

  function NewAttempt(aRate: int, bRate: int): Call {
    Call(Deducted, NotStarted, false, Idle, [], NewCall(aRate, bRate, PreDeductAmount(aRate, bRate)),
         [], false, false, false, 0, 0, 0, 0, 0, 0)
  }

  /** The call after a step that concerns it; room says whether the counter admits an increment. */
  function CallAfter(c: Call, step: Step, room: bool): Call {
    match step
    case AcquireSlot(_) => if room then c.(stage := Placing, granted := true) else c.(stage := OverLimit)
    case UndoSlot(_) => c.(stage := Unplaced)
    case PlacementFails(_) => c.(stage := Unplaced, releases := c.releases + 1)
    case Refund(_) => c.(stage := Refunded, finalizes := c.finalizes + 1)
    case Store(_) => c.(stage := Live, inMap := true)
    case Spawn(_) => c.(goroutine := Starting)
    case RunnerLoads(_) => c.(goroutine := if c.inMap then Running(Originating) else Exited)
    case RunnerTakes(_, input, now) => if c.goroutine.Running? then Taken(c, input, now) else c
    case Deliver(_, event) =>
      if c.inMap && |c.events| < EVENT_BUFFER then c.(events := c.events + [event]) else c
    case Cancel(_, who) =>
      c.(cancelled := true,
         record := if who.Some? then c.record.(hangupBy := who) else c.record.(failureReason := Some(ServiceShutdown)))
    case Range(_) => c.(passes := c.passes + [AtLookup], record := c.record.(failureReason := Some(FsConnectionLost)))
    case _ => if Calling(step) then Moved(Effect(c, step), step.who, Destination(c, step)) else c
  }

  /** The steps inside finalizeCall. */
  predicate Calling(step: Step) {
    step.Lookup? || step.Enter? || step.Resume? || step.Charge? ||
    step.ReleaseSlot? || step.DecideMerge? || step.Delete? || step.Leave?
  }

  /** What a step inside finalizeCall does besides moving its caller. */
  function Effect(c: Call, step: Step): Call {
    match step
    case Enter(_, who) => c.(once := Busy(who))
    case Charge(_, who, final, now, thresholdSec) =>
      var measured := Measured(c.record, final, now, thresholdSec);
      c.(stage := Charged, byRunner := who.RunCall?, record := measured, cost := SettledCost(measured),
         finalizes := c.finalizes + 1)
    case ReleaseSlot(_, _) => c.(stage := Released, releases := c.releases + 1)
    case DecideMerge(_, _) =>
      var publishes := c.record.bridgeAt.Some? && c.record.recording.Recording?;
      c.(stage := Merged, merges := c.merges + (if publishes then 1 else 0), bridgesAtMerge := c.bridges,
         record := if publishes then c.record.(recording := Merging) else c.record)
    case Delete(_, _) => c.(stage := Settled, inMap := false)
    case Leave(_, _) => c.(once := Done)
    case _ => c
  }

  /** Where it moves its caller: a missed Load, a passed Do and the end of the function all return. */
  function Destination(c: Call, step: Step): Caller {
    match step
    case Lookup(_, _) => if c.inMap then AtOnce else Returned
    case Enter(_, _) => Inside(ToCharge)
    case Charge(_, _, _, _, _) => Inside(ToRelease)
    case ReleaseSlot(_, _) => Inside(ToMerge)
    case DecideMerge(_, _) => Inside(ToDelete)
    case Delete(_, _) => Inside(ToLeave)
    case _ => Returned
  }

  /** runCall handles one input, going on to finalizeCall when that ends it; a bridge event counts on the B leg. */
  function Taken(c: Call, input: Input, now: int): Call
    requires c.goroutine.Running?
  {
    var r := React(c.goroutine.runner, c.record, input, now);
    var bridge := input.Event? && input.event.name.ChannelBridge? && c.goroutine.runner.AwaitingB?;
    c.(goroutine := if r.runner.Finalizing? then Closing(r.runner.final, AtLookup) else Running(r.runner),
       record := r.call,
       events := if input.Event? && c.events != [] then c.events[1..] else c.events,
       bridges := c.bridges + if bridge then 1 else 0)
  }

  function Apply(cfg: Config, s: State, step: Step): State
    requires Enabled(cfg, s, step)
  {
    match step
    case PreDeduct(aRate, bRate) =>
      s.(balance := s.balance - PreDeductAmount(aRate, bRate), calls := s.calls + [NewAttempt(aRate, bRate)])
    case Topup(amount) => s.(balance := s.balance + amount, topups := s.topups + amount)
    case Deduct(amount) => s.(balance := s.balance - amount, deductions := s.deductions + amount)
    case _ =>
      var c := s.calls[step.i];
      var after := CallAfter(c, step, s.slots + 1 <= cfg.maxConcurrent);
      State(s.balance + Credit(c, after, step), s.slots + SlotChange(s.slots, step),
            s.calls[step.i := after], s.topups, s.deductions)
  }

  /** What Finalize gives back (or takes): the hold minus the actual cost. */
  function Credit(c: Call, after: Call, step: Step): int {
    if step.Refund? || step.Charge? then c.record.preDeductAmount - after.cost else 0
  }

  function SlotChange(slots: int, step: Step): int {
    if step.AcquireSlot? then 1
    else if step.UndoSlot? then -1
    else if step.PlacementFails? || step.ReleaseSlot? then Max(0, slots - 1) - slots
    else 0
  }

  predicate Possible(cfg: Config, s: State, steps: seq<Step>)
    decreases |steps|
  {
    steps == [] || (Enabled(cfg, s, steps[0]) && Possible(cfg, Apply(cfg, s, steps[0]), steps[1..]))
  }

  function Run(cfg: Config, s: State, steps: seq<Step>): State
    requires Possible(cfg, s, steps)
    decreases |steps|
  {
    if steps == [] then s else Run(cfg, Apply(cfg, s, steps[0]), steps[1..])
  }

  // ---- The once, the map and their callers ----

  predicate Billed(stage: Stage) {
    stage.Refunded? || stage.Charged? || stage.Released? || stage.Merged? || stage.Settled?
  }

  predicate SlotGone(stage: Stage) {
    stage.Unplaced? || stage.Refunded? || stage.Released? || stage.Merged? || stage.Settled?
  }

  predicate MergeDecided(stage: Stage) { stage.Merged? || stage.Settled? }

  predicate Unlaunched(stage: Stage) {
    stage.Deducted? || stage.OverLimit? || stage.Placing? || stage.Unplaced? || stage.Refunded?
  }

  /** What has been settled when a caller in the function is about to take this step. */
  function Before(next: Body): Stage {
    match next
    case ToCharge => Live
    case ToRelease => Charged
    case ToMerge => Released
    case ToDelete => Merged
    case ToLeave => Settled
  }

  /** Nobody is in the function but the caller the once is busy with, and progress is where that caller is. */
  ghost predicate OnceGuards(c: Call) {
    && (forall w: Who :: At(c, w).Inside? ==> c.once == Busy(w) && c.stage == Before(At(c, w).next))
    && (c.once.Busy? ==> At(c, c.once.who).Inside?)
    && (c.once.Idle? ==> Unlaunched(c.stage) || c.stage.Live?)
    && (c.once.Done? ==> c.stage.Settled?)
  }

  /** The call is in activeCalls from Store to Delete, and whoever is back from finalizeCall left it settled. */
  ghost predicate MapGuards(c: Call) {
    && (c.inMap <==> !Unlaunched(c.stage) && !c.stage.Settled?)
    && (Unlaunched(c.stage) ==> c.goroutine.NotStarted? && c.passes == [] && c.once.Idle?)
    && (c.goroutine.Exited? ==> c.stage.Settled?)
    && (c.goroutine.Running? ==> !c.goroutine.runner.Finalizing?)
    && (c.goroutine.Closing? ==> !c.goroutine.caller.Absent? && !c.goroutine.caller.Returned?)
    && (forall p :: 0 <= p < |c.passes| && c.passes[p].Returned? ==> c.stage.Settled?)
  }

  /** Moving a caller shows at that caller alone, and changes nothing else of the call. */
  lemma MovedAt(c: Call, who: Who, to: Caller)
    requires !At(c, who).Absent?
    ensures forall w: Who :: w != who ==> At(Moved(c, who, to), w) == At(c, w)
    ensures At(Moved(c, who, to), who) == (if who.RunCall? && to.Returned? then Absent else to)
    ensures var next := Moved(c, who, to);
            next == c.(goroutine := next.goroutine, passes := next.passes)
  {
  }

  lemma EffectOn(c: Call, step: Step)
    requires Calling(step)
    ensures var e, to := Effect(c, step), Destination(c, step);
            && e.goroutine == c.goroutine && e.passes == c.passes
            && e.once == (if step.Enter? then Busy(step.who) else if step.Leave? then Done else c.once)
            && e.stage == (if to.Inside? && !step.Enter? then Before(to.next) else c.stage)
            && e.inMap == (c.inMap && !step.Delete?)
  {
    hide Measured, SettledCost;
  }

  /** Who is in the function, and what is settled, when a caller takes its next step. */
  lemma CallerStands(c: Call, step: Step)
    requires OnceGuards(c) && Calling(step) && CallEnabled(c, step)
    ensures !At(c, step.who).Absent? && !At(c, step.who).Returned?
    ensures At(c, step.who).Inside? <==> !step.Lookup? && !step.Enter? && !step.Resume?
    ensures At(c, step.who).Inside? ==> c.once == Busy(step.who) && c.stage == Before(At(c, step.who).next)
    ensures step.Enter? ==> c.once.Idle? && At(c, step.who).AtOnce?
    ensures step.Resume? ==> c.stage.Settled?
  {
  }

  /** The step as a whole. */
  lemma CallingShows(c: Call, step: Step, room: bool)
    requires Calling(step) && !At(c, step.who).Absent?
    ensures var next, e, to := CallAfter(c, step, room), Effect(c, step), Destination(c, step);
            && next == e.(goroutine := next.goroutine, passes := next.passes)
            && At(next, step.who) == (if step.who.RunCall? && to.Returned? then Absent else to)
            && (to.Returned? && step.who.RunCall? ==> next.goroutine.Exited?)
            && (!to.Returned? ==> FinalOf(next, step.who) == FinalOf(c, step.who))
  {
    EffectOn(c, step);
    hide Effect, Destination;
    MovedAt(Effect(c, step), step.who, Destination(c, step));
  }

  /** Mutual exclusion is kept when only an idle once is entered and only its holder moves on or leaves. */
  lemma OnceIsKept(c: Call, next: Call, who: Who, to: Caller, enters: bool, leaves: bool)
    requires OnceGuards(c)
    requires forall w: Who :: w != who ==> At(next, w) == At(c, w)
    requires if to.Inside? then At(next, who) == to else !At(next, who).Inside?
    requires next.once == if enters then Busy(who) else if leaves then Done else c.once
    requires next.stage == if to.Inside? && !enters then Before(to.next) else c.stage
    requires enters ==> c.once.Idle? && c.stage.Live? && to == Inside(ToCharge)
    requires leaves ==> At(c, who) == Inside(ToLeave) && !to.Inside?
    requires !enters && !leaves ==> (to.Inside? <==> At(c, who).Inside?)
    ensures OnceGuards(next)
  {
    hide At;
    assert At(c, who).Inside? ==> c.once == Busy(who);
    forall w: Who | At(next, w).Inside? ensures next.once == Busy(w) && next.stage == Before(At(next, w).next) {
      if w != who {
        assert At(c, w).Inside?;
      }
    }
  }

  lemma CallingKeepsOnce(c: Call, step: Step, room: bool)
    requires OnceGuards(c) && MapGuards(c) && Calling(step) && CallEnabled(c, step)
    ensures OnceGuards(CallAfter(c, step, room))
  {
    CallerStands(c, step);
    EffectOn(c, step);
    assert step.Enter? ==> !Unlaunched(c.stage);
    hide MapGuards, Effect, Moved;
    var e, to := Effect(c, step), Destination(c, step);
    MovedAt(e, step.who, to);
    assert forall w: Who :: At(e, w) == At(c, w);
    assert step.Enter? ==> c.stage.Live?;
    hide OnceGuards;
    OnceIsKept(c, CallAfter(c, step, room), step.who, to, step.Enter?, step.Leave?);
  }

  lemma MovedKeepsMap(c: Call, who: Who, to: Caller)
    requires MapGuards(c) && !At(c, who).Absent? && !to.Absent? && (to.Returned? ==> c.stage.Settled?)
    ensures MapGuards(Moved(c, who, to))
  {
  }

  lemma CallingKeepsMap(c: Call, step: Step, room: bool)
    requires OnceGuards(c) && MapGuards(c) && Calling(step) && CallEnabled(c, step)
    ensures MapGuards(CallAfter(c, step, room))
  {
    CallerStands(c, step);
    EffectOn(c, step);
    assert !Unlaunched(c.stage);
    hide OnceGuards, Moved, Effect;
    MovedKeepsMap(Effect(c, step), step.who, Destination(c, step));
  }

  lemma OthersKeepGuards(c: Call, step: Step, room: bool)
    requires OnceGuards(c) && MapGuards(c) && !Calling(step) && CallEnabled(c, step)
    ensures OnceGuards(CallAfter(c, step, room)) && MapGuards(CallAfter(c, step, room))
  {
    hide React, Measured, SettledCost;
    var next := CallAfter(c, step, room);
    forall w: Who ensures At(next, w).Inside? ==> At(c, w) == At(next, w) {}
    forall w: Who ensures At(c, w).Inside? ==> At(c, w) == At(next, w) {}
  }

  // ---- Each call: settled at most once, and left settled by whoever called ----

  /** What always holds of a call. */
  ghost predicate Sound(c: Call) {
    OnceGuards(c) && MapGuards(c) && Counted(c)
  }

  ghost predicate Counted(c: Call) {
    && c.finalizes == (if Billed(c.stage) then 1 else 0)
    && c.releases == (if c.granted && SlotGone(c.stage) then 1 else 0)
    && (c.stage.Deducted? || c.stage.OverLimit? ==> !c.granted)
    && (c.granted || c.stage.Deducted? || c.stage.OverLimit? || c.stage.Unplaced? || c.stage.Refunded?)
    && (Unlaunched(c.stage) || c.stage.Live? ==> c.cost == 0 && !c.byRunner)
    && (c.goroutine.NotStarted? || c.goroutine.Starting? ==> c.bridges == 0)
    && (c.goroutine.Running? && !c.goroutine.runner.AwaitingB? ==> c.bridges == 0)
    && |c.events| <= EVENT_BUFFER
    && Tracked(c)
    && c.merges == (if MergeDecided(c.stage) && c.bridgesAtMerge > 0 then 1 else 0)
    && c.bridgesAtMerge <= c.bridges
    && (c.byRunner ==>
          && (c.goroutine.Exited? || c.goroutine.Closing?)
          && (MergeDecided(c.stage) ==> c.bridgesAtMerge == c.bridges))
    && c.record.preDeductAmount == PreDeductAmount(c.record.aLegRate, c.record.bLegRate)
    && c.record.aDurationMs >= 0 && c.record.bDurationMs >= 0
  }

  /** The record knows about bridge events, and nothing but the merge decision takes the recording over. */
  ghost predicate Tracked(c: Call) {
    && (c.record.bridgeAt.Some? <==> c.bridges > 0)
    && (!MergeDecided(c.stage) ==> (c.record.recording.Recording? <==> c.bridges > 0))
  }

  /** Reactions leave the billing terms alone and touch the bridge fields on bridge events only. */
  lemma ReactionFrame(runner: Runner, call: CallbackCall, input: Input, now: int)
    ensures var r := React(runner, call, input, now);
            && r.call.aLegRate == call.aLegRate && r.call.bLegRate == call.bLegRate
            && r.call.preDeductAmount == call.preDeductAmount
            && r.call.aDurationMs == call.aDurationMs && r.call.bDurationMs == call.bDurationMs
            && (if input.Event? && input.event.name.ChannelBridge? && runner.AwaitingB?
                then r.call.bridgeAt.Some? && r.call.recording.Recording?
                else r.call.bridgeAt == call.bridgeAt && r.call.recording == call.recording)
            && (r.runner.Originating? || r.runner.AwaitingA? ==> runner.Originating? || runner.AwaitingA?)
            && (runner.Finalizing? ==> r.runner == runner)
  {
  }

  lemma TakenIsCounted(c: Call, input: Input, now: int)
    requires MapGuards(c) && Counted(c) && Offered(c, input)
    ensures Counted(Taken(c, input, now))
  {
    hide React;
    ReactionFrame(c.goroutine.runner, c.record, input, now);
  }

  lemma EffectIsCounted(c: Call, step: Step)
    requires Sound(c) && Calling(step) && CallEnabled(c, step)
    ensures Counted(Effect(c, step))
  {
    CallerStands(c, step);
    hide ClassifyWastage, SettledCost, OnceGuards;
  }

  lemma MovedIsCounted(c: Call, who: Who, to: Caller)
    requires Counted(c)
    ensures Counted(Moved(c, who, to))
  {
    hide PreDeductAmount;
  }

  lemma CallingIsCounted(c: Call, step: Step, room: bool)
    requires Sound(c) && Calling(step) && CallEnabled(c, step)
    ensures Counted(CallAfter(c, step, room))
  {
    hide Counted, Sound, Effect, Moved, CallEnabled;
    EffectIsCounted(c, step);
    MovedIsCounted(Effect(c, step), step.who, Destination(c, step));
  }

  lemma OthersAreCounted(c: Call, step: Step, room: bool)
    requires Sound(c) && !Calling(step) && CallEnabled(c, step)
    ensures Counted(CallAfter(c, step, room))
  {
    hide Taken, Measured, SettledCost, OnceGuards;
    if step.RunnerTakes? {
      TakenIsCounted(c, step.input, step.now);
    }
  }

  lemma StepIsSound(c: Call, step: Step, room: bool)
    requires Sound(c) && CallEnabled(c, step)
    ensures Sound(CallAfter(c, step, room))
  {
    hide CallAfter, CallEnabled, OnceGuards, MapGuards, Counted;
    if Calling(step) {
      CallingKeepsOnce(c, step, room);
      CallingKeepsMap(c, step, room);
      CallingIsCounted(c, step, room);
    } else {
      OthersKeepGuards(c, step, room);
      OthersAreCounted(c, step, room);
    }
  }

  ghost predicate AllSound(s: State) {
    forall i :: 0 <= i < |s.calls| ==> Sound(s.calls[i])
  }

  lemma ApplyKeepsSound(cfg: Config, s: State, step: Step)
    requires AllSound(s) && Enabled(cfg, s, step)
    ensures AllSound(Apply(cfg, s, step))
  {
    hide CallAfter, CallEnabled, Sound, NewAttempt, Credit, SlotChange;
    match step
    case PreDeduct(aRate, bRate) => NewIsSound(aRate, bRate);
    case Topup(_) | Deduct(_) =>
    case _ => StepIsSound(s.calls[step.i], step, s.slots + 1 <= cfg.maxConcurrent);
  }

  lemma NewIsSound(aRate: int, bRate: int)
    ensures Sound(NewAttempt(aRate, bRate))
  {
  }

  lemma {:induction false} RunKeepsSound(cfg: Config, s: State, steps: seq<Step>)
    requires AllSound(s) && Possible(cfg, s, steps)
    ensures AllSound(Run(cfg, s, steps))
    decreases |steps|
  {
    hide AllSound, Apply, Enabled;
    if steps != [] {
      ApplyKeepsSound(cfg, s, steps[0]);
      RunKeepsSound(cfg, Apply(cfg, s, steps[0]), steps[1..]);
    }
  }

  /**
    Exactly-once settlement over every interleaving of runCall with any number of passes of the
    disconnect handler: at most one caller is in the function, at most one Finalize, one
    ReleaseSlot and one merge happen, and neither runCall nor a pass is back from finalizeCall
    before all of it is done and the call is out of activeCalls.
   */
  lemma SettledExactlyOnce(cfg: Config, steps: seq<Step>, i: nat)
    requires Possible(cfg, Initial(cfg), steps)
    requires i < |Run(cfg, Initial(cfg), steps).calls|
    ensures var c := Run(cfg, Initial(cfg), steps).calls[i];
            && (forall v: Who, w: Who :: At(c, v).Inside? && At(c, w).Inside? ==> v == w)
            && c.finalizes <= 1 && c.releases <= 1 && c.merges <= 1
            && (c.goroutine.Exited? || (exists p :: 0 <= p < |c.passes| && c.passes[p].Returned?) ==> c.stage.Settled?)
            && (c.stage.Settled? ==> c.finalizes == 1 && c.releases == 1 && !c.inMap)
            && (c.stage.Refunded? ==> c.finalizes == 1 && c.releases == (if c.granted then 1 else 0) && c.merges == 0)
            && (MergeDecided(c.stage) ==> (c.merges == 1 <==> c.bridgesAtMerge > 0))
            && (MergeDecided(c.stage) && c.byRunner ==> (c.merges == 1 <==> c.bridges > 0))
            && |c.events| <= EVENT_BUFFER
  {
    hide Possible, Run;
    RunKeepsSound(cfg, Initial(cfg), steps);
  }

  // ---- Nothing ever gets stuck ----

  /** The attempt is over: refused, or settled with its goroutine gone. */
  predicate Ended(c: Call) { c.stage.Refunded? || c.goroutine.Exited? }

  /** Steps the call is at most away from its end if it takes them itself. */
  ghost function Distance(c: Call): nat {
    match c.stage
    case Refunded => 0
    case Unplaced => 1
    case OverLimit => 2
    case Placing => 13
    case Deducted => 14
    case _ => OnceDistance(c) + GoroutineDistance(c.goroutine)
  }

  function OnceDistance(c: Call): nat {
    match c.once
    case Idle => 6
    case Busy(who) =>
      (match At(c, who)
       case Inside(ToCharge) => 5
       case Inside(ToRelease) => 4
       case Inside(ToMerge) => 3
       case Inside(ToDelete) => 2
       case _ => 1)
    case Done => 0
  }

  function GoroutineDistance(g: Goroutine): nat {
    match g
    case NotStarted => 6
    case Starting => 5
    case Running(Originating) => 4
    case Running(_) => 3
    case Closing(_, AtLookup) => 2
    case Closing(_, AtOnce) => 1
    case Closing(_, _) => 0
    case Exited => 0
  }

  /** The next step of the caller in the function. */
  function BodyStep(c: Call, i: nat, who: Who): Step {
    match At(c, who)
    case Inside(ToCharge) => Charge(i, who, FinalOf(c, who), 0, 0)
    case Inside(ToRelease) => ReleaseSlot(i, who)
    case Inside(ToMerge) => DecideMerge(i, who)
    case Inside(ToDelete) => Delete(i, who)
    case _ => Leave(i, who)
  }

  /** The next step of a launched call's goroutine: timers stand in for events that never come. */
  function GoroutineStep(c: Call, i: nat): Step {
    match c.goroutine
    case NotStarted => Spawn(i)
    case Starting => RunnerLoads(i)
    case Running(Originating) => RunnerTakes(i, OriginateA(true), 0)
    case Running(_) => RunnerTakes(i, Timer, 0)
    case Closing(_, AtLookup) => Lookup(i, RunCall)
    case Closing(_, _) => if c.once.Idle? then Enter(i, RunCall) else Resume(i, RunCall)
    case Exited => Resume(i, RunCall)
  }

  /** A step that brings the call closer: whoever is in the function goes first, since the others may wait for it. */
  function NextOwnStep(c: Call, i: nat): Step {
    match c.stage
    case Deducted => AcquireSlot(i)
    case OverLimit => UndoSlot(i)
    case Placing => Store(i)
    case Unplaced | Refunded => Refund(i)
    case _ => if c.once.Busy? then BodyStep(c, i, c.once.who) else GoroutineStep(c, i)
  }

  lemma BodyApproaches(c: Call, i: nat, room: bool)
    requires OnceGuards(c) && MapGuards(c) && c.once.Busy?
    ensures var step := BodyStep(c, i, c.once.who);
            && Concerns(step, i) && CallEnabled(c, step)
            && Distance(CallAfter(c, step, room)) < Distance(c)
  {
    hide Measured, SettledCost;
    var who := c.once.who;
    assert At(c, who).Inside? && c.stage == Before(At(c, who).next);
  }

  lemma GoroutineApproaches(c: Call, i: nat, room: bool)
    requires OnceGuards(c) && MapGuards(c) && !c.once.Busy? && !Unlaunched(c.stage) && !c.goroutine.Exited?
    ensures var step := GoroutineStep(c, i);
            && Concerns(step, i) && CallEnabled(c, step)
            && Distance(CallAfter(c, step, room)) < Distance(c)
  {
    hide Measured, SettledCost;
    assert !At(c, RunCall).Inside?;
  }

  lemma OwnStepApproaches(c: Call, i: nat, room: bool)
    requires Sound(c) && !Ended(c)
    ensures var step := NextOwnStep(c, i);
            && Concerns(step, i) && CallEnabled(c, step)
            && Distance(CallAfter(c, step, room)) < Distance(c)
  {
    hide Measured, SettledCost, BodyStep, GoroutineStep, OnceGuards, Counted;
    if !Unlaunched(c.stage) {
      hide CallAfter, CallEnabled, Distance;
      if c.once.Busy? {
        BodyApproaches(c, i, room);
      } else {
        GoroutineApproaches(c, i, room);
      }
    }
  }

  lemma ApplyOwn(cfg: Config, s: State, step: Step, i: nat)
    requires i < |s.calls| && Concerns(step, i) && CallEnabled(s.calls[i], step)
    ensures Enabled(cfg, s, step)
    ensures Apply(cfg, s, step).calls == s.calls[i := CallAfter(s.calls[i], step, s.slots + 1 <= cfg.maxConcurrent)]
  {
    hide CallAfter, CallEnabled, Credit;
  }

  /**
    No interleaving can wedge a call: from every sound state each attempt can run to its end in
    at most fourteen steps of its own, whatever events were dropped and whoever is settling it.
   */
  lemma {:induction false} NeverWedged(cfg: Config, s: State, i: nat) returns (steps: seq<Step>)
    requires AllSound(s) && i < |s.calls|
    ensures |steps| <= Distance(s.calls[i]) <= 14
    ensures Possible(cfg, s, steps) && i < |Run(cfg, s, steps).calls|
    ensures Ended(Run(cfg, s, steps).calls[i])
    ensures Run(cfg, s, steps).calls[i].stage.Refunded? || Run(cfg, s, steps).calls[i].stage.Settled?
    decreases Distance(s.calls[i])
  {
    hide CallAfter, CallEnabled, Apply, Enabled, NextOwnStep, Sound;
    var c := s.calls[i];
    if Ended(c) {
      steps := [];
      SoundEnd(c);
    } else {
      var step := NextOwnStep(c, i);
      OwnStepApproaches(c, i, s.slots + 1 <= cfg.maxConcurrent);
      ApplyOwn(cfg, s, step, i);
      ApplyKeepsSound(cfg, s, step);
      var rest := NeverWedged(cfg, Apply(cfg, s, step), i);
      steps := [step] + rest;
      assert steps[1..] == rest;
    }
  }

  lemma SoundEnd(c: Call)
    requires Sound(c) && Ended(c)
    ensures c.stage.Refunded? || c.stage.Settled?
  {
  }
}
