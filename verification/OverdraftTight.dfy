/** Both overdraft bounds are the best possible: for every choice of parameters some run reaches them. */
module OverdraftTight {
  import opened Sequences
  import opened Numbers
  import opened Costs
  import opened Calls
  import opened Lifecycle
  import opened CallRuns
  import opened Overdraft
  import opened Initiation

  // ---- One call from its launch to a full overrun ----

  const BANSWER := CallEvent(ChannelAnswer, B, 0, "")

  /** A call just launched, all of whose rate is on the B leg. */
  function Launched(rate: int): Call {
    NewAttempt(0, rate).(stage := Live, inMap := true, granted := true)
  }

  /** From launched to B answered: an early B event starts the B leg, a second one answers it. */
  function Answering(i: nat): seq<Step> {
    [Spawn(i), RunnerLoads(i), RunnerTakes(i, OriginateA(true), 0), Deliver(i, BANSWER),
     RunnerTakes(i, Event(BANSWER, true), 0), Deliver(i, BANSWER), RunnerTakes(i, Event(BANSWER, true), 0)]
  }

  /** A disconnect maxSec seconds later settles money and slot. */
  function Losing(i: nat, maxSec: nat): seq<Step> {
    [Range(i), Lookup(i, Handler(0)), Enter(i, Handler(0)), Charge(i, Handler(0), Failed, maxSec * SECOND, 0),
     ReleaseSlot(i, Handler(0))]
  }

  function Script(i: nat, maxSec: nat): seq<Step> { Answering(i) + Losing(i, maxSec) }

  function Answered(rate: int): Call {
    var c := Launched(rate);
    c.(goroutine := Running(AwaitingB(false)),
       record := c.record.(aDialAt := Some(0), bDialAt := Some(0), bAnswerAt := Some(0), status := BConnected))
  }

  predicate CallWithin(t: Terms, c: Call, steps: seq<Step>)
    decreases |steps|
  {
    steps == [] || (ChargeWithin(t, c, steps[0]) && CallWithin(t, CallAfter(c, steps[0], true), steps[1..]))
  }

  lemma LosingOverruns(t: Terms, i: nat)
    requires CeilDiv(t.maxSec, 60) >= 30
    ensures CallPossible(Answered(t.maxRate), i, Losing(i, t.maxSec))
            && CallWithin(t, Answered(t.maxRate), Losing(i, t.maxSec))
    ensures Credits(Answered(t.maxRate), Losing(i, t.maxSec)) == -Overrun(t.maxRate, t.maxSec)
  {
    hide PreDeductAmount, Overrun, Measured, SettledCost;
    var c0, steps := Answered(t.maxRate), Losing(i, t.maxSec);
    var lost := c0.record.(failureReason := Some(FsConnectionLost));
    var m := Measured(lost, Failed, t.maxSec * SECOND, 0);
    var c1 := c0.(passes := [AtLookup], record := lost);
    var c2 := c1.(passes := [AtOnce]);
    var c3 := c2.(passes := [Inside(ToCharge)], once := Busy(Handler(0)));
    var c4 := c3.(stage := Charged, byRunner := false, record := m, cost := SettledCost(m), finalizes := 1,
                  passes := [Inside(ToRelease)]);
    OverrunCharged(t, lost);
    CallWithinSteps(t, c0, c1, c2, c3, c4, steps);
    Unfold(c4, i, steps[4..], CallAfter(c4, steps[4], true));
    Unfold(c3, i, steps[3..], c4);
    Unfold(c2, i, steps[2..], c3);
    Unfold(c1, i, steps[1..], c2);
    Unfold(c0, i, steps, c1);
  }

  lemma CallWithinSteps(t: Terms, c0: Call, c1: Call, c2: Call, c3: Call, c4: Call, steps: seq<Step>)
    requires |steps| == 5 && forall k :: 0 <= k < 5 ==> ChargeWithin(t, [c0, c1, c2, c3, c4][k], steps[k])
    requires CallAfter(c0, steps[0], true) == c1 && CallAfter(c1, steps[1], true) == c2
    requires CallAfter(c2, steps[2], true) == c3 && CallAfter(c3, steps[3], true) == c4
    ensures CallWithin(t, c0, steps)
  {
    hide CallAfter, ChargeWithin;
    assert CallWithin(t, CallAfter(c4, steps[4], true), steps[5..]);
    assert CallWithin(t, c4, steps[4..]);
    assert CallWithin(t, c3, steps[3..]);
    assert CallWithin(t, c2, steps[2..]);
    assert CallWithin(t, c1, steps[1..]);
  }

  lemma OverrunCharged(t: Terms, record: CallbackCall)
    requires CeilDiv(t.maxSec, 60) >= 30
    requires record.aAnswerAt.None? && record.bAnswerAt == Some(0) && record.bHangupAt.None? && record.aDurationMs == 0
    requires record.aLegRate == 0 && record.bLegRate == t.maxRate
    ensures var m := Measured(record, Failed, t.maxSec * SECOND, 0);
            && ASeconds(m) == 0 && BSeconds(m) == t.maxSec
            && PreDeductAmount(0, t.maxRate) - SettledCost(m) == -Overrun(t.maxRate, t.maxSec)
  {
    var m := Measured(record, Failed, t.maxSec * SECOND, 0);
    assert m.bDurationMs == t.maxSec * 1000 && m.aDurationMs == 0;
    BLegIsWholeMinutes(t.maxSec, t.maxRate);
    var minutes := CeilDiv(t.maxSec, 60);
    assert t.maxRate * (minutes - 30) == minutes * t.maxRate - 30 * t.maxRate;
  }

  /** A dialed, the call waiting for its first event. */
  function Dialing(rate: int): Call {
    var c := Launched(rate);
    c.(goroutine := Running(AwaitingA), record := c.record.(aDialAt := Some(0), status := ADialing))
  }

  lemma LaunchDials(rate: int, i: nat)
    ensures var steps := Answering(i)[..3];
            && CallPossible(Launched(rate), i, steps) && CallRun(Launched(rate), steps) == Dialing(rate)
            && Credits(Launched(rate), steps) == 0
  {
    hide PreDeductAmount;
    var c0, steps := Launched(rate), Answering(i)[..3];
    var c1 := c0.(goroutine := Starting);
    var c2 := c0.(goroutine := Running(Originating));
    Unfold(c2, i, steps[2..], Dialing(rate));
    Unfold(c1, i, steps[1..], c2);
    Unfold(c0, i, steps, c1);
  }

  lemma DialAnswers(rate: int, i: nat)
    ensures var steps := Answering(i)[3..];
            && CallPossible(Dialing(rate), i, steps) && CallRun(Dialing(rate), steps) == Answered(rate)
            && Credits(Dialing(rate), steps) == 0
  {
    hide PreDeductAmount;
    var c3, steps := Dialing(rate), Answering(i)[3..];
    var c4 := c3.(events := [BANSWER]);
    var c5 := c3.(goroutine := Running(AwaitingB(false)), record := c3.record.(bDialAt := Some(0), status := BDialing));
    var c6 := c5.(events := [BANSWER]);
    Unfold(c6, i, steps[3..], Answered(rate));
    Unfold(c5, i, steps[2..], c6);
    Unfold(c4, i, steps[1..], c5);
    Unfold(c3, i, steps, c4);
  }

  lemma AnsweringAnswers(rate: int, i: nat)
    ensures CallPossible(Launched(rate), i, Answering(i)) && CallRun(Launched(rate), Answering(i)) == Answered(rate)
    ensures Credits(Launched(rate), Answering(i)) == 0
  {
    hide CallPossible, CallRun, Credits, Launched, Dialing, Answered;
    LaunchDials(rate, i);
    DialAnswers(rate, i);
    CallRunsConcat(Launched(rate), i, Answering(i)[..3], Answering(i)[3..]);
    assert Answering(i)[..3] + Answering(i)[3..] == Answering(i);
  }

  lemma {:induction false} QuietWithin(t: Terms, c: Call, quiet: seq<Step>, rest: seq<Step>)
    requires forall step :: step in quiet ==> !step.Charge?
    requires CallWithin(t, CallRun(c, quiet), rest)
    ensures CallWithin(t, c, quiet + rest)
    decreases |quiet|
  {
    hide CallAfter;
    if quiet == [] {
      assert quiet + rest == rest;
    } else {
      assert (quiet + rest)[1..] == quiet[1..] + rest;
      QuietWithin(t, CallAfter(c, quiet[0], true), quiet[1..], rest);
    }
  }

  /** The whole way of one call: it costs one overrun beyond its hold and gives its slot back. */
  lemma ScriptOverruns(t: Terms, i: nat)
    requires CeilDiv(t.maxSec, 60) >= 30
    ensures var c, steps := Launched(t.maxRate), Script(i, t.maxSec);
            && CallPossible(c, i, steps) && CallWithin(t, c, steps)
            && Credits(c, steps) == -Overrun(t.maxRate, t.maxSec)
    ensures forall step :: step in Script(i, t.maxSec) ==> !PartOfSaga(step)
    ensures forall slots :: SlotsAfter(slots, Script(i, t.maxSec)) == Max(0, slots - 1)
  {
    hide CallPossible, CallWithin, CallRun, Credits, Launched, Answered, SlotsAfter;
    AnsweringAnswers(t.maxRate, i);
    LosingOverruns(t, i);
    CallRunsConcat(Launched(t.maxRate), i, Answering(i), Losing(i, t.maxSec));
    QuietWithin(t, Launched(t.maxRate), Answering(i), Losing(i, t.maxSec));
    forall slots ensures SlotsAfter(slots, Script(i, t.maxSec)) == Max(0, slots - 1) {
      ScriptSlots(slots, i, t.maxSec);
    }
  }

  lemma {:induction false} QuietSlots(slots: int, quiet: seq<Step>, rest: seq<Step>)
    requires forall step :: step in quiet ==> SlotChange(slots, step) == 0
    ensures SlotsAfter(slots, quiet + rest) == SlotsAfter(slots, rest)
    decreases |quiet|
  {
    if quiet == [] {
      assert quiet + rest == rest;
    } else {
      assert (quiet + rest)[1..] == quiet[1..] + rest;
      assert quiet[0] in quiet;
      QuietSlots(slots, quiet[1..], rest);
    }
  }

  lemma ScriptSlots(slots: int, i: nat, maxSec: nat)
    ensures SlotsAfter(slots, Script(i, maxSec)) == Max(0, slots - 1)
  {
    var quiet, last := Answering(i) + Losing(i, maxSec)[..4], Losing(i, maxSec)[4..];
    assert Script(i, maxSec) == quiet + last;
    QuietSlots(slots, quiet, last);
    assert SlotsAfter(Max(0, slots - 1), last[1..]) == Max(0, slots - 1);
  }

  // ---- Initiations as single moves ----

  lemma {:induction false} MovesConcat(t: Terms, cfg: Config, s: State, first: seq<Move>, second: seq<Move>)
    requires Moves(t, cfg, s, first) && Moves(t, cfg, PerformAll(t, cfg, s, first), second)
    ensures Moves(t, cfg, s, first + second)
    ensures PerformAll(t, cfg, s, first + second) == PerformAll(t, cfg, PerformAll(t, cfg, s, first), second)
    decreases |first|
  {
    hide Allowed, Perform;
    if first == [] {
      assert first + second == second;
    } else {
      assert (first + second)[1..] == first[1..] + second;
      MovesConcat(t, cfg, Perform(t, cfg, s, first[0]), first[1..], second);
    }
  }

  function AsMoves(steps: seq<Step>): seq<Move> {
    seq(|steps|, k requires 0 <= k < |steps| => Other(steps[k]))
  }

  lemma {:induction false} MovesAlone(t: Terms, cfg: Config, s: State, i: nat, steps: seq<Step>)
    requires i < |s.calls| && CallPossible(s.calls[i], i, steps) && CallWithin(t, s.calls[i], steps)
    requires forall step :: step in steps ==> !PartOfSaga(step)
    ensures Moves(t, cfg, s, AsMoves(steps))
    ensures PerformAll(t, cfg, s, AsMoves(steps)) == Alone(s, i, steps)
    decreases |steps|
  {
    hide CallAfter, CallEnabled, Credit, SlotChange, ChargeWithin, Apply, Enabled;
    if steps == [] {
      assert s.calls[i := s.calls[i]] == s.calls;
    } else {
      assert steps[0] in steps;
      OwnStep(cfg, s, i, steps[0]);
      MovesAlone(t, cfg, Apply(cfg, s, steps[0]), i, steps[1..]);
      assert AsMoves(steps)[1..] == AsMoves(steps[1..]);
    }
  }

  lemma LaunchMove(t: Terms, cfg: Config, s: State)
    requires s.slots < cfg.maxConcurrent && s.balance + cfg.creditLimit >= 30 * t.maxRate
    ensures Moves(t, cfg, s, [Initiate(0, t.maxRate, true)])
    ensures PerformAll(t, cfg, s, [Initiate(0, t.maxRate, true)])
            == s.(balance := s.balance - 30 * t.maxRate, slots := s.slots + 1, calls := s.calls + [Launched(t.maxRate)])
  {
    var move := Initiate(0, t.maxRate, true);
    assert PreDeductAmount(0, t.maxRate) == 30 * t.maxRate;
    assert Moves(t, cfg, Perform(t, cfg, s, move), []);
  }

  /** n calls launched one after another spend the balance down to the credit limit. */
  lemma {:induction false} LaunchMany(t: Terms, cfg: Config, n: nat) returns (moves: seq<Move>)
    requires n <= cfg.maxConcurrent
    requires cfg.opening == cfg.maxConcurrent * (30 * t.maxRate) - cfg.creditLimit
    ensures Moves(t, cfg, Initial(cfg), moves)
    ensures PerformAll(t, cfg, Initial(cfg), moves)
            == State(cfg.opening - n * (30 * t.maxRate), n, seq(n, _ => Launched(t.maxRate)), 0, 0)
  {
    hide Launched, Allowed, Perform;
    if n == 0 {
      moves := [];
    } else {
      hide Moves, PerformAll;
      var front := LaunchMany(t, cfg, n - 1);
      var s := PerformAll(t, cfg, Initial(cfg), front);
      Distributes(n - 1, 30 * t.maxRate);
      MulMonotone(30 * t.maxRate, n, cfg.maxConcurrent);
      LaunchMove(t, cfg, s);
      assert seq(n, _ => Launched(t.maxRate)) == s.calls + [Launched(t.maxRate)];
      MovesConcat(t, cfg, Initial(cfg), front, [Initiate(0, t.maxRate, true)]);
      moves := front + [Initiate(0, t.maxRate, true)];
    }
  }

  lemma Distributes(n: int, x: int)
    ensures (n + 1) * x == n * x + x
  {
  }

  lemma OneLess(n: int, x: int)
    ensures n * x == (n - 1) * x + x
  {
  }

  lemma {:induction false} SettleMany(t: Terms, cfg: Config, s: State, n: nat) returns (moves: seq<Move>)
    requires n <= |s.calls| && CeilDiv(t.maxSec, 60) >= 30
    requires forall i :: 0 <= i < n ==> s.calls[i] == Launched(t.maxRate)
    ensures Moves(t, cfg, s, moves)
    ensures PerformAll(t, cfg, s, moves).balance == s.balance - n * Overrun(t.maxRate, t.maxSec)
    ensures PerformAll(t, cfg, s, moves).deductions == s.deductions
    decreases n
  {
    if n == 0 {
      moves := [];
    } else {
      hide Launched, Allowed, Perform, Overrun, Moves, PerformAll;
      hide Script, CallPossible, CallWithin, Credits, CallRun, SlotsAfter;
      var script := Script(n - 1, t.maxSec);
      ScriptOverruns(t, n - 1);
      MovesAlone(t, cfg, s, n - 1, script);
      var next := Alone(s, n - 1, script);
      var rest := SettleMany(t, cfg, next, n - 1);
      MovesConcat(t, cfg, s, AsMoves(script), rest);
      Distributes(n - 1, Overrun(t.maxRate, t.maxSec));
      moves := AsMoves(script) + rest;
    }
  }

  /** For all rates, durations, limits and credit there is an account whose balance reaches the bound exactly. */
  lemma BoundIsReached(t: Terms, cfg: Config) returns (moves: seq<Move>)
    requires cfg.opening == cfg.maxConcurrent * (30 * t.maxRate) - cfg.creditLimit
    ensures cfg.opening >= -cfg.creditLimit
    ensures Moves(t, cfg, Initial(cfg), moves)
    ensures PerformAll(t, cfg, Initial(cfg), moves).balance
            == -cfg.creditLimit - cfg.maxConcurrent * (t.maxRate * Max(0, CeilDiv(t.maxSec, 60) - 30))
    ensures PerformAll(t, cfg, Initial(cfg), moves).deductions == 0
  {
    hide Moves, PerformAll, Launched, Allowed, Perform;
    MulMonotone(cfg.maxConcurrent, 0, 30 * t.maxRate);
    var launches := LaunchMany(t, cfg, cfg.maxConcurrent);
    moves := launches;
    if CeilDiv(t.maxSec, 60) >= 30 {
      var full := PerformAll(t, cfg, Initial(cfg), launches);
      var settlements := SettleMany(t, cfg, full, cfg.maxConcurrent);
      MovesConcat(t, cfg, Initial(cfg), launches, settlements);
      moves := launches + settlements;
    }
  }
}
