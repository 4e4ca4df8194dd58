/**
  The routing service as an object: the gateways table it owns and the heap-allocated
  weighted gateways it hands out picks from. Every method realises one operation of Registry.
 */
module RoutingService {
  import opened Sequences
  import opened RoundRobin
  import opened Registry

  /** The in-memory entry of one A-leg gateway. */
  class WeightedGateway {
    const id: int
    const name: string
    const sipAddress: string
    const weight: int
    const enabled: bool
    var currentWeight: int
    var healthy: bool

    constructor (row: Row)
      ensures Snapshot() == FromRow(row)
      ensures id == row.id && name == row.name && sipAddress == row.sipAddress && weight == row.weight
      ensures enabled == row.enabled && healthy == row.healthy && currentWeight == 0
    {
      id, name, sipAddress, weight, enabled := row.id, row.name, row.sipAddress, row.weight, row.enabled;
      currentWeight, healthy := 0, row.healthy;
    }

    function Snapshot(): Gateway
      reads this
    {
      Gateway(id, name, sipAddress, weight, currentWeight, healthy, enabled)
    }
  }

  /** What the pool's objects currently say. */
  ghost function Snapshots(gateways: seq<WeightedGateway>): (pool: Pool)
    reads gateways
    ensures |pool| == |gateways|
    ensures forall i :: 0 <= i < |gateways| ==> pool[i] == gateways[i].Snapshot()
  {
    seq(|gateways|, i requires 0 <= i < |gateways| reads gateways => gateways[i].Snapshot())
  }

  datatype PickALegResponse = PickALegResponse(gatewayId: int, name: string, sipAddress: string)

  /** The enabled rows, in id order. */
  function EnabledRows(table: seq<Row>): seq<Row> {
    if table == [] then []
    else
      var front, row := EnabledRows(table[..|table| - 1]), table[|table| - 1];
      if row.enabled then front + [row] else front
  }

  /** The probes one health check amounts to; a row whose update failed is skipped. */
  function HealthOps(rows: seq<Row>, reachable: int -> bool, stored: int -> bool): seq<Op> {
    if rows == [] then []
    else
      var front, row := HealthOps(rows[..|rows| - 1], reachable, stored), rows[|rows| - 1];
      if stored(row.id) then front + [Probe(row.id, reachable(row.id))] else front
  }

  /** at lists the positions of exactly the enabled rows, in table order. */
  ghost predicate EnabledAt(table: seq<Row>, at: seq<nat>) {
    && (forall m :: 0 <= m < |at| ==> at[m] < |table| && table[at[m]].enabled)
    && (forall m, n :: 0 <= m < n < |at| ==> at[m] < at[n])
    && (forall i: nat :: i < |table| && table[i].enabled ==> i in at)
  }

  /** A probed row records the outcome if that could be stored. */
  predicate CheckedRow(before: Row, after: Row, reachable: int -> bool, stored: int -> bool) {
    if stored(before.id) then Records(before, after, reachable(before.id)) else after == before
  }

  /** What a health check leaves: every enabled row probed, every other as it was. */
  ghost predicate Checked(before: seq<Row>, after: seq<Row>, reachable: int -> bool, stored: int -> bool) {
    && |after| == |before|
    && forall i :: 0 <= i < |before| ==>
         if before[i].enabled then CheckedRow(before[i], after[i], reachable, stored) else after[i] == before[i]
  }

  /** The same when only the first k listed rows have been probed. */
  ghost predicate Reached(before: seq<Row>, now: seq<Row>, at: seq<nat>, k: nat,
                          reachable: int -> bool, stored: int -> bool) {
    && |now| == |before| && k <= |at|
    && forall i: nat :: i < |before| ==>
         if i in at[..k] then CheckedRow(before[i], now[i], reachable, stored) else now[i] == before[i]
  }

  lemma ReachedNothing(table: seq<Row>, at: seq<nat>, reachable: int -> bool, stored: int -> bool)
    ensures Reached(table, table, at, 0, reachable, stored)
  {
  }

  lemma ReachedRow(before: seq<Row>, now: seq<Row>, at: seq<nat>, k: nat, reachable: int -> bool, stored: int -> bool)
    requires Reached(before, now, at, k, reachable, stored) && EnabledAt(before, at) && k < |at|
    ensures at[k] < |before| == |now| && now[at[k]] == before[at[k]]
  {
  }

  lemma ReachedNext(before: seq<Row>, now: seq<Row>, next: seq<Row>, at: seq<nat>, k: nat,
                    reachable: int -> bool, stored: int -> bool)
    requires Reached(before, now, at, k, reachable, stored) && EnabledAt(before, at) && k < |at|
    requires at[k] < |next| == |now| && next == now[at[k] := next[at[k]]]
    requires CheckedRow(now[at[k]], next[at[k]], reachable, stored)
    ensures Reached(before, next, at, k + 1, reachable, stored)
  {
    hide CheckedRow;
    ReachedRow(before, now, at, k, reachable, stored);
    assert at[..k + 1] == at[..k] + [at[k]];
  }

  lemma ReachedAll(before: seq<Row>, after: seq<Row>, at: seq<nat>, reachable: int -> bool, stored: int -> bool)
    requires Reached(before, after, at, |at|, reachable, stored) && EnabledAt(before, at)
    ensures Checked(before, after, reachable, stored)
  {
    hide CheckedRow;
    assert at[..|at|] == at;
    forall i: nat | i < |before| ensures before[i].enabled <==> i in at {}
  }

  class Service {
    var gateways: seq<Row>
    var nextId: int
    var aLegGateways: seq<WeightedGateway>

    ghost function View(): State
      reads this, aLegGateways
    {
      State(gateways, nextId, Snapshots(aLegGateways))
    }

    ghost predicate Valid()
      reads this, aLegGateways
    {
      && (forall i, j :: 0 <= i < j < |aLegGateways| ==> aLegGateways[i] != aLegGateways[j])
      && Consistent(View())
    }

    constructor (table: seq<Row>, next: int)
      requires OrderedIds(table, next)
      ensures Valid() && fresh(aLegGateways)
      ensures View() == State(table, next, Load(table))
    {
      gateways, nextId, aLegGateways := table, next, [];
      new;
      LoadALegGateways();
      LoadSumsToZero(table);
    }

    /** Replace the pool by freshly allocated entries for the A-leg rows. */
    method LoadALegGateways()
      modifies this`aLegGateways
      ensures fresh(aLegGateways)
      ensures forall i, j :: 0 <= i < j < |aLegGateways| ==> aLegGateways[i] != aLegGateways[j]
      ensures Snapshots(aLegGateways) == Load(gateways) && Mirrors(Snapshots(aLegGateways), gateways)
    {
      hide Mirrors;
      var loaded: seq<WeightedGateway> := [];
      for i := 0 to |gateways|
        invariant fresh(loaded)
        invariant forall i, j :: 0 <= i < j < |loaded| ==> loaded[i] != loaded[j]
        invariant Snapshots(loaded) == Load(gateways[..i])
      {
        assert gateways[..i + 1][..i] == gateways[..i];
        if gateways[i].gatewayType == A_LEG {
          var gw := new WeightedGateway(gateways[i]);
          loaded := loaded + [gw];
        }
      }
      assert gateways[..|gateways|] == gateways;
      LoadMirrors(gateways);
      aLegGateways := loaded;
    }

    /** Smooth weighted round-robin over the healthy and enabled entries. */
    method PickALeg() returns (r: Option<PickALegResponse>)
      requires Valid()
      modifies aLegGateways
      ensures Valid()
      ensures View() == Apply(old(View()), Op.PickALeg)
      ensures r.Some? <==> HasCandidate(old(View().pool))
      ensures r.Some? ==>
                var g := old(View().pool)[Chosen(old(View().pool))];
                r.value == PickALegResponse(g.id, g.name, g.sipAddress)
      ensures r.Some? ==> PickedAt(old(View().pool), View().pool, Chosen(old(View().pool)))
      ensures r.Some? <==> AnyPickable(gateways)
      ensures r.Some? ==> PickableAs(gateways, r.value.gatewayId, r.value.name, r.value.sipAddress)
    {
      hide Consistent, SetHealthy, Load, Best, TotalWeight, BumpAll, IsBest, Positions, Pick, AnyPickable, PickableAs;
      hide PickedAt;
      ghost var pool := View().pool;
      PickedRow(View());
      assert Apply(View(), Op.PickALeg) == View().(pool := Pick(pool)) by {
        if !HasCandidate(pool) {
          PickNothing(pool);
        }
      }
      assert HasCandidate(pool) ==> PickedAt(pool, Pick(pool), Chosen(pool)) by {
        if HasCandidate(pool) {
          PickTakesFirstLargest(pool);
        }
      }
      hide Apply;
      ApplyKeepsConsistent(View(), Op.PickALeg);
      var candidates, totalWeight, at := CollectCandidates();
      NoPositions(pool, at);
      if |candidates| == 0 {
        PickNothing(pool);
        return None;
      }
      var best, b := RaiseAndChoose(candidates, at);
      LowerBest(pool, b);
      best.currentWeight := best.currentWeight - totalWeight;
      assert Snapshots(aLegGateways) == Pick(pool);
      r := Some(PickALegResponse(best.id, best.name, best.sipAddress));
    }

    /** The first loop of PickALeg: the candidates, where they sit, and their total weight. */
    method CollectCandidates() returns (candidates: seq<WeightedGateway>, totalWeight: int, ghost at: seq<nat>)
      ensures Positions(Snapshots(aLegGateways), at) && |at| == |candidates|
      ensures forall k :: 0 <= k < |at| ==> candidates[k] == aLegGateways[at[k]]
      ensures totalWeight == TotalWeight(Snapshots(aLegGateways))
    {
      hide Positions, TotalWeight;
      ghost var pool := Snapshots(aLegGateways);
      candidates, totalWeight, at := [], 0, [];
      NothingCollected(pool);
      for i := 0 to |aLegGateways|
        invariant |at| == |candidates|
        invariant Positions(pool[..i], at)
        invariant forall k :: 0 <= k < |at| ==> at[k] < i && candidates[k] == aLegGateways[at[k]]
        invariant totalWeight == TotalWeight(pool[..i])
      {
        var gw := aLegGateways[i];
        CollectStep(pool, i, at);
        if gw.healthy && gw.enabled {
          candidates := candidates + [gw];
          totalWeight := totalWeight + gw.weight;
          at := at + [i];
        }
      }
      assert pool[..|aLegGateways|] == pool;
    }

    /** The second loop of PickALeg: raise every candidate, remembering the first largest. */
    method RaiseAndChoose(candidates: seq<WeightedGateway>, ghost at: seq<nat>)
      returns (best: WeightedGateway, ghost b: nat)
      requires forall i, j :: 0 <= i < j < |aLegGateways| ==> aLegGateways[i] != aLegGateways[j]
      requires Positions(Snapshots(aLegGateways), at) && |at| == |candidates| > 0
      requires forall k :: 0 <= k < |at| ==> candidates[k] == aLegGateways[at[k]]
      modifies aLegGateways
      ensures Snapshots(aLegGateways) == BumpAll(old(Snapshots(aLegGateways)))
      ensures IsBest(Snapshots(aLegGateways), b) && best == aLegGateways[b]
    {
      hide BestSoFar, Candidate, IsBest, Positions, Reach, Partly, BumpAll;
      ghost var pool := Snapshots(aLegGateways);
      ghost var raised := BumpAll(pool);
      BestStart(pool, raised, at);
      best := candidates[0];
      b := at[0];
      for k := 0 to |candidates|
        invariant Snapshots(aLegGateways) == Partly(pool, raised, Reach(pool, at, k))
        invariant BestSoFar(pool, raised, at, k, b) && b < |pool| && best == aLegGateways[b]
      {
        BestStep(pool, raised, at, k, b);
        best, b := RaiseOne(k == 0, candidates[k], best, at[k], b);
      }
      BestEnd(pool, raised, at, b);
    }

    /** One turn of that loop: raise a candidate and compare it with the best so far. */
    method RaiseOne(first: bool, gw: WeightedGateway, best: WeightedGateway, ghost i: nat, ghost b: nat)
      returns (r: WeightedGateway, ghost c: nat)
      requires forall i, j :: 0 <= i < j < |aLegGateways| ==> aLegGateways[i] != aLegGateways[j]
      requires i < |aLegGateways| && aLegGateways[i] == gw && b < |aLegGateways| && aLegGateways[b] == best
      modifies gw
      ensures var g := old(Snapshots(aLegGateways)[i]);
              Snapshots(aLegGateways)
              == old(Snapshots(aLegGateways))[i := g.(currentWeight := g.currentWeight + g.weight)]
      ensures c == if first || Snapshots(aLegGateways)[i].currentWeight
                         > Snapshots(aLegGateways)[b].currentWeight then i else b
      ensures r == aLegGateways[c]
    {
      gw.currentWeight := gw.currentWeight + gw.weight;
      if first || gw.currentWeight > best.currentWeight {
        return gw, i;
      }
      return best, b;
    }

    /** The inner loop of both health checks: give the entry with this id its flag. */
    method SetPoolHealth(id: int, healthy: bool)
      requires forall i, j :: 0 <= i < j < |aLegGateways| ==> aLegGateways[i] != aLegGateways[j]
      modifies aLegGateways
      ensures Snapshots(aLegGateways) == SetHealthy(old(Snapshots(aLegGateways)), id, healthy)
    {
      hide SetHealthy;
      ghost var pool := Snapshots(aLegGateways);
      for i := 0 to |aLegGateways|
        invariant Snapshots(aLegGateways) == pool
        invariant forall j :: 0 <= j < i ==> pool[j].id != id
      {
        if aLegGateways[i].id == id {
          SetHealthyFound(pool, id, healthy, i);
          aLegGateways[i].healthy := healthy;
          assert Snapshots(aLegGateways) == pool[i := pool[i].(healthy := healthy)];
          return;
        }
      }
      SetHealthyAbsent(pool, id, healthy);
    }

    /** The part of a probe that follows the TCP check, for one gateway as it was read. */
    method RecordProbe(i: nat, reachable: bool)
      requires Valid() && i < |gateways|
      modifies this`gateways, aLegGateways
      ensures Valid() && aLegGateways == old(aLegGateways)
      ensures View() == Apply(old(View()), Probe(old(gateways[i].id), reachable))
      ensures gateways == old(gateways)[i := gateways[i]] && Records(old(gateways)[i], gateways[i], reachable)
    {
      hide Consistent, SetHealthy, Load;
      var gw := gateways[i];
      ghost var op := Probe(gw.id, reachable);
      FindOwn(View(), i);
      ApplyKeepsConsistent(View(), op);
      var newFailures: int;
      var healthy: bool;
      if reachable {
        newFailures := 0;
        healthy := true;
      } else {
        newFailures := gw.failures + 1;
        healthy := newFailures < gw.maxFailures;
      }
      gateways := gateways[i := gw.(healthy := healthy, failures := newFailures)];
      if gw.gatewayType == A_LEG {
        SetPoolHealth(gw.id, healthy);
      }
    }

    /** ManualHealthCheck; reachable is the outcome of the TCP check. */
    method ManualHealthCheck(id: int, reachable: bool) returns (found: bool)
      requires Valid()
      modifies this`gateways, aLegGateways
      ensures Valid() && aLegGateways == old(aLegGateways)
      ensures found <==> Accepts(old(View()), Probe(id, reachable))
      ensures View() == Apply(old(View()), Probe(id, reachable))
      ensures ProbeOutcome(old(gateways), gateways, id, reachable, found)
    {
      hide Consistent, SetHealthy, Load, ProbeOutcome;
      ProbeWrites(View(), id, reachable);
      var i := Find(gateways, id);
      if i.None? {
        return false;
      }
      RecordProbe(i.value, reachable);
      return true;
    }

    /** RunHealthCheck: probe every enabled gateway, in id order. */
    method RunHealthCheck(reachable: int -> bool, stored: int -> bool)
      requires Valid()
      modifies this`gateways, aLegGateways
      ensures Valid() && aLegGateways == old(aLegGateways)
      ensures View() == Run(old(View()), HealthOps(EnabledRows(old(gateways)), reachable, stored))
      ensures Checked(old(gateways), gateways, reachable, stored)
    {
      hide Apply, Consistent, SetHealthy, Load, EnabledRows, EnabledAt, Records, Checked, Reached;
      var rows, at := ReadEnabled();
      ghost var start := View();
      ReachedNothing(start.table, at, reachable, stored);
      for k := 0 to |rows|
        invariant Valid() && aLegGateways == old(aLegGateways) && |gateways| == |start.table|
        invariant View() == Run(start, HealthOps(rows[..k], reachable, stored))
        invariant Reached(start.table, gateways, at, k, reachable, stored)
      {
        assert rows[..k + 1][..k] == rows[..k];
        ghost var ops := HealthOps(rows[..k], reachable, stored);
        ghost var before := gateways;
        ReachedRow(start.table, gateways, at, k, reachable, stored);
        if stored(rows[k].id) {
          RecordProbe(at[k], reachable(rows[k].id));
          var op := Probe(rows[k].id, reachable(rows[k].id));
          assert (ops + [op])[..|ops|] == ops;
        }
        ReachedNext(start.table, before, gateways, at, k, reachable, stored);
      }
      assert rows[..|rows|] == rows;
      ReachedAll(start.table, gateways, at, reachable, stored);
    }

    /** The enabled rows, in id order. */
    method ReadEnabled() returns (rows: seq<Row>, at: seq<nat>)
      ensures rows == EnabledRows(gateways) && |at| == |rows|
      ensures forall m :: 0 <= m < |rows| ==> at[m] < |gateways| && gateways[at[m]] == rows[m]
      ensures EnabledAt(gateways, at)
    {
      rows, at := [], [];
      for i := 0 to |gateways|
        invariant rows == EnabledRows(gateways[..i]) && |at| == |rows|
        invariant forall m :: 0 <= m < |rows| ==> at[m] < i && gateways[at[m]] == rows[m]
        invariant EnabledAt(gateways[..i], at)
      {
        assert gateways[..i + 1][..i] == gateways[..i];
        if gateways[i].enabled {
          rows, at := rows + [gateways[i]], at + [i];
        }
      }
      assert gateways[..|gateways|] == gateways;
    }

    method CreateGateway(op: Op) returns (ok: bool)
      requires Valid() && op.Create?
      modifies this
      ensures Valid() && (aLegGateways == old(aLegGateways) || fresh(aLegGateways))
      ensures ok <==> Accepts(old(View()), op)
      ensures View() == Apply(old(View()), op)
      ensures CreateOutcome(old(gateways), old(nextId), gateways, op, ok)
    {
      hide Consistent, SetHealthy, Load, Find, Mirrors, CreateOutcome;
      CreateWrites(View(), op);
      ApplyKeepsConsistent(View(), op);
      if op.gatewayType != A_LEG && op.gatewayType != B_LEG {
        return false;
      }
      var weight := op.weight;
      if weight < 1 {
        weight := 1;
      }
      var maxFail := DEFAULT_MAX_FAILURES;
      if op.maxFailures.Some? {
        maxFail := op.maxFailures.value;
      }
      var id := nextId;
      nextId := nextId + 1;
      if !ValidFailover(gateways, op.failover, id) {
        return false;
      }
      gateways := gateways +
        [Row(id, op.name, op.gatewayType, op.sipAddress, weight, true, true, op.failover, 0, maxFail)];
      if op.gatewayType == A_LEG {
        LoadALegGateways();
      }
      return true;
    }

    method UpdateGateway(op: Op) returns (ok: bool)
      requires Valid() && op.Update?
      modifies this
      ensures Valid() && (aLegGateways == old(aLegGateways) || fresh(aLegGateways))
      ensures ok <==> Accepts(old(View()), op)
      ensures View() == Apply(old(View()), op)
      ensures UpdateOutcome(old(gateways), gateways, op, ok)
    {
      hide Consistent, SetHealthy, Load, Find, UpdatedRow, Mirrors, UpdateOutcome;
      UpdateWrites(View(), op);
      ApplyKeepsConsistent(View(), op);
      UpdateKeepsType(gateways, op);
      var i := Find(gateways, op.id);
      if i.None? || !ValidFailover(gateways, op.newFailover, op.id) {
        return false;
      }
      gateways := gateways[i.value := UpdatedRow(gateways[i.value], op)];
      if gateways[i.value].gatewayType == A_LEG {
        LoadALegGateways();
      }
      return true;
    }

    method ToggleGateway(id: int, enabled: bool) returns (ok: bool)
      requires Valid()
      modifies this
      ensures Valid() && (aLegGateways == old(aLegGateways) || fresh(aLegGateways))
      ensures ok <==> Accepts(old(View()), Toggle(id, enabled))
      ensures View() == Apply(old(View()), Toggle(id, enabled))
      ensures ToggleOutcome(old(gateways), gateways, id, enabled, ok)
    {
      hide Consistent, SetHealthy, Load, Find, Mirrors, ToggleOutcome;
      ToggleWrites(View(), id, enabled);
      ApplyKeepsConsistent(View(), Toggle(id, enabled));
      var i := Find(gateways, id);
      if i.None? {
        return false;
      }
      gateways := gateways[i.value := gateways[i.value].(enabled := enabled)];
      if gateways[i.value].gatewayType == A_LEG {
        LoadALegGateways();
      }
      return true;
    }
  }

  lemma NoPositions(pool: Pool, at: seq<nat>)
    requires Positions(pool, at)
    ensures |at| > 0 <==> HasCandidate(pool)
  {
    if |at| > 0 {
      assert Candidate(pool[at[0]]);
    }
  }

  lemma PickNothing(pool: Pool)
    requires !HasCandidate(pool)
    ensures Pick(pool) == pool
  {
  }

  lemma NothingCollected(pool: Pool)
    ensures Positions(pool[..0], []) && TotalWeight(pool[..0]) == 0
  {
  }

  /** One more entry of the pool: its position and weight count exactly when it is a candidate. */
  lemma CollectStep(pool: Pool, i: nat, at: seq<nat>)
    requires i < |pool| && Positions(pool[..i], at)
    ensures Positions(pool[..i + 1], if pool[i].healthy && pool[i].enabled then at + [i] else at)
    ensures TotalWeight(pool[..i + 1])
            == TotalWeight(pool[..i]) + if pool[i].healthy && pool[i].enabled then pool[i].weight else 0
  {
    hide Positions, Sum;
    assert pool[..i + 1] == pool[..i] + [pool[i]];
    SumAppend(pool[..i], pool[i], CandidateWeight);
    PositionsGrow(pool[..i], pool[i], at);
  }

  lemma PositionsGrow(front: Pool, last: Gateway, at: seq<nat>)
    requires Positions(front, at)
    ensures Positions(front + [last], if Candidate(last) then at + [|front|] else at)
  {
    var found := if Candidate(last) then at + [|front|] else at;
    forall j | 0 <= j < |front + [last]| && Candidate((front + [last])[j]) ensures j in found {
      if j == |front| {
        assert found[|at|] == j;
      } else {
        assert front[j] == (front + [last])[j];
      }
    }
  }

  /** Lowering the chosen entry of the raised pool completes the pick. */
  lemma LowerBest(pool: Pool, b: nat)
    requires HasCandidate(pool) && IsBest(BumpAll(pool), b)
    ensures b == Chosen(pool) && b < |pool|
    ensures BumpAll(pool)[b].id == pool[b].id && BumpAll(pool)[b].name == pool[b].name
    ensures BumpAll(pool)[b].sipAddress == pool[b].sipAddress
    ensures var g := BumpAll(pool)[b];
            Pick(pool) == BumpAll(pool)[b := g.(currentWeight := g.currentWeight - TotalWeight(pool))]
  {
    BumpKeepsCandidates(pool);
    BestIsUnique(BumpAll(pool), b, Chosen(pool));
  }

  lemma UpdateKeepsType(table: seq<Row>, op: Op)
    requires op.Update?
    ensures forall row: Row :: UpdatedRow(row, op).gatewayType == row.gatewayType
  {
  }

  lemma FindOwn(s: State, i: nat)
    requires Consistent(s) && i < |s.table|
    ensures Find(s.table, s.table[i].id) == Some(i)
  {
  }

  /** at lists exactly the candidate positions of pool, in increasing order. */
  ghost predicate Positions(pool: Pool, at: seq<nat>) {
    && (forall k :: 0 <= k < |at| ==> at[k] < |pool| && Candidate(pool[at[k]]))
    && (forall k, l :: 0 <= k < l < |at| ==> at[k] < at[l])
    && (forall j :: 0 <= j < |pool| && Candidate(pool[j]) ==> j in at)
  }

  /** How much of the pool the first k raises have dealt with. */
  ghost function Reach(pool: Pool, at: seq<nat>, k: nat): (r: nat)
    requires Positions(pool, at) && k <= |at|
    ensures r <= |pool|
  {
    if k < |at| then at[k] else |pool|
  }

  /** b is where the scan stands after k candidates: the first of the largest, or simply the first. */
  ghost predicate BestSoFar(pool: Pool, raised: Pool, at: seq<nat>, k: nat, b: nat)
    requires Positions(pool, at) && k <= |at| && |raised| == |pool|
  {
    && b < |pool| && Candidate(pool[b])
    && (k == 0 ==> |at| > 0 && b == at[0])
    && (k > 0 ==>
          && b < Reach(pool, at, k)
          && forall j :: 0 <= j < Reach(pool, at, k) && Candidate(pool[j]) ==>
               && raised[j].currentWeight <= raised[b].currentWeight
               && (j < b ==> raised[j].currentWeight < raised[b].currentWeight))
  }

  /** The pool once everything before reach has been raised. */
  ghost function Partly(pool: Pool, raised: Pool, reach: nat): (r: Pool)
    requires |raised| == |pool| && reach <= |pool|
    ensures |r| == |pool|
  {
    raised[..reach] + pool[reach..]
  }

  lemma BestStart(pool: Pool, raised: Pool, at: seq<nat>)
    requires Positions(pool, at) && |at| > 0 && raised == BumpAll(pool)
    ensures at[0] < |pool| && BestSoFar(pool, raised, at, 0, at[0])
    ensures Partly(pool, raised, Reach(pool, at, 0)) == pool
  {
    ReachSteps(pool, at, 0);
  }

  /** One candidate: how the pool, the comparison and the choice come out. */
  lemma BestStep(pool: Pool, raised: Pool, at: seq<nat>, k: nat, b: nat)
    requires Positions(pool, at) && k < |at| && raised == BumpAll(pool)
    requires BestSoFar(pool, raised, at, k, b)
    ensures at[k] < |pool| && b < |pool|
    ensures var before, after := Partly(pool, raised, Reach(pool, at, k)), Partly(pool, raised, Reach(pool, at, k + 1));
            && before[at[k]] == pool[at[k]]
            && after == before[at[k] := pool[at[k]].(currentWeight := pool[at[k]].currentWeight + pool[at[k]].weight)]
            && after[at[k]] == raised[at[k]]
            && (k > 0 ==> after[b] == raised[b])
    ensures BestSoFar(pool, raised, at, k + 1,
              if k == 0 || raised[at[k]].currentWeight > raised[b].currentWeight then at[k] else b)
  {
    ReachSteps(pool, at, k);
  }

  lemma BestEnd(pool: Pool, raised: Pool, at: seq<nat>, b: nat)
    requires Positions(pool, at) && |at| > 0 && raised == BumpAll(pool)
    requires BestSoFar(pool, raised, at, |at|, b)
    ensures Partly(pool, raised, Reach(pool, at, |at|)) == raised
    ensures IsBest(raised, b)
  {
  }

  /** Between two raised positions there is no candidate. */
  lemma ReachSteps(pool: Pool, at: seq<nat>, k: nat)
    requires Positions(pool, at) && k < |at|
    ensures Reach(pool, at, k) == at[k] < Reach(pool, at, k + 1)
    ensures forall j :: at[k] < j < Reach(pool, at, k + 1) ==> !Candidate(pool[j])
    ensures k == 0 ==> forall j :: 0 <= j < at[0] ==> !Candidate(pool[j])
  {
    forall j | 0 <= j < |pool| && Candidate(pool[j])
      ensures exists m :: 0 <= m < |at| && at[m] == j
    {
      assert j in at;
    }
  }
}
