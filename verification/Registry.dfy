/**
  The gateway table and the in-memory A-leg pool beside it, as one value that every
  routing operation maps to the next: agreement of the two, conservation of current
  weights, and what a gateway's health flag says about its probes.
 */
module Registry {
  import opened Sequences
  import opened Numbers
  import opened RoundRobin

  const A_LEG := "a_leg"
  const B_LEG := "b_leg"
  const DEFAULT_MAX_FAILURES := 3

  /** A row of the gateways table. */
  datatype Row = Row(id: int, name: string, gatewayType: string, sipAddress: string, weight: int,
                     healthy: bool, enabled: bool, failover: Option<int>,
                     failures: int, maxFailures: int)

  /** The rows in id order, the next serial id, and the A-leg pool. */
  datatype State = State(table: seq<Row>, nextId: int, pool: Pool)

  datatype Op =
    | Create(name: string, gatewayType: string, sipAddress: string, weight: int,
             failover: Option<int>, maxFailures: Option<int>)
    | Update(id: int, newName: Option<string>, newAddress: Option<string>, newWeight: Option<int>,
             newFailover: Option<int>, newMaxFailures: Option<int>)
    | Toggle(id: int, enabled: bool)
    | Probe(id: int, reachable: bool)
    | PickALeg

  /** Serial ids: strictly increasing in table order and all below the next one. */
  predicate OrderedIds(table: seq<Row>, nextId: int) {
    && (forall i, j :: 0 <= i < j < |table| ==> table[i].id < table[j].id)
    && (forall i :: 0 <= i < |table| ==> table[i].id < nextId)
  }

  /** The position of a row, by primary key. */
  function Find(table: seq<Row>, id: int): (r: Option<nat>)
    ensures r.Some? ==> r.value < |table| && table[r.value].id == id
    ensures r.None? ==> forall i :: 0 <= i < |table| ==> table[i].id != id
  {
    if table == [] then None
    else if table[|table| - 1].id == id then Some(|table| - 1)
    else Find(table[..|table| - 1], id)
  }

  // ---- Loading the pool ----

  function FromRow(row: Row): Gateway {
    Gateway(row.id, row.name, row.sipAddress, row.weight, 0, row.healthy, row.enabled)
  }

  /** The id-ordered A-leg projection of the table, every current weight zero. */
  function Load(table: seq<Row>): Pool {
    if table == [] then []
    else
      var front, row := Load(table[..|table| - 1]), table[|table| - 1];
      if row.gatewayType == A_LEG then front + [FromRow(row)] else front
  }

  // ---- Health ----

  /** A row after one probe. */
  function Probed(row: Row, reachable: bool): Row {
    if reachable then row.(failures := 0, healthy := true)
    else row.(failures := row.failures + 1, healthy := row.failures + 1 < row.maxFailures)
  }

  /** The pool after the first entry with this id has been given a health flag. */
  function SetHealthy(pool: Pool, id: int, healthy: bool): (r: Pool)
    ensures |r| == |pool|
  {
    if pool == [] then []
    else if pool[0].id == id then [pool[0].(healthy := healthy)] + pool[1..]
    else [pool[0]] + SetHealthy(pool[1..], id, healthy)
  }

  // ---- Operations ----

  predicate ValidFailover(table: seq<Row>, failover: Option<int>, self: int) {
    failover.Some? ==> failover.value == self || Find(table, failover.value).Some?
  }

  function GetOr<T>(o: Option<T>, default: T): T { if o.Some? then o.value else default }

  function OrElse<T>(o: Option<T>, default: Option<T>): Option<T> { if o.Some? then o else default }

  /** Write a table back, reloading the pool when an A-leg row was touched. */
  function Reloaded(s: State, table: seq<Row>, gatewayType: string): State {
    s.(table := table, pool := if gatewayType == A_LEG then Load(table) else s.pool)
  }

  function CreatedRow(s: State, op: Op): Row
    requires op.Create?
  {
    Row(s.nextId, op.name, op.gatewayType, op.sipAddress, Max(op.weight, 1), true, true, op.failover,
        0, GetOr(op.maxFailures, DEFAULT_MAX_FAILURES))
  }

  function UpdatedRow(row: Row, op: Op): Row
    requires op.Update?
  {
    row.(name := GetOr(op.newName, row.name), sipAddress := GetOr(op.newAddress, row.sipAddress),
         weight := GetOr(op.newWeight, row.weight), failover := OrElse(op.newFailover, row.failover),
         maxFailures := GetOr(op.newMaxFailures, row.maxFailures))
  }

  /** Does the operation go through, or does it return an error? */
  predicate Accepts(s: State, op: Op) {
    match op
    case Create(_, gatewayType, _, _, failover, _) =>
      (gatewayType == A_LEG || gatewayType == B_LEG) && ValidFailover(s.table, failover, s.nextId)
    case Update(id, _, _, _, failover, _) => Find(s.table, id).Some? && ValidFailover(s.table, failover, id)
    case Toggle(id, _) => Find(s.table, id).Some?
    case Probe(id, _) => Find(s.table, id).Some?
    case PickALeg => HasCandidate(s.pool)
  }

  function Apply(s: State, op: Op): State {
    if !Accepts(s, op) then
      if op.Create? && (op.gatewayType == A_LEG || op.gatewayType == B_LEG) then s.(nextId := s.nextId + 1) else s
    else
      match op
      case Create(_, gatewayType, _, _, _, _) =>
        Reloaded(s.(nextId := s.nextId + 1), s.table + [CreatedRow(s, op)], gatewayType)
      case Update(id, _, _, _, _, _) =>
        var i := Find(s.table, id).value;
        Reloaded(s, s.table[i := UpdatedRow(s.table[i], op)], s.table[i].gatewayType)
      case Toggle(id, enabled) =>
        var i := Find(s.table, id).value;
        Reloaded(s, s.table[i := s.table[i].(enabled := enabled)], s.table[i].gatewayType)
      case Probe(id, reachable) =>
        var i := Find(s.table, id).value;
        var row := Probed(s.table[i], reachable);
        s.(table := s.table[i := row],
           pool := if row.gatewayType == A_LEG then SetHealthy(s.pool, id, row.healthy) else s.pool)
      case PickALeg => s.(pool := Pick(s.pool))
  }

  function Run(s: State, ops: seq<Op>): State {
    if ops == [] then s else Apply(Run(s, ops[..|ops| - 1]), ops[|ops| - 1])
  }

  // ---- What each write does to the table, field by field ----

  ghost predicate Known(table: seq<Row>, id: int) { exists i :: 0 <= i < |table| && table[i].id == id }

  /** What an insert stores. */
  predicate Inserts(row: Row, op: Op, id: int)
    requires op.Create?
  {
    && row.id == id && row.name == op.name && row.gatewayType == op.gatewayType && row.sipAddress == op.sipAddress
    && row.weight == (if op.weight < 1 then 1 else op.weight)
    && row.healthy && row.enabled && row.failover == op.failover && row.failures == 0
    && row.maxFailures == (if op.maxFailures.Some? then op.maxFailures.value else 3)
  }

  /** What an update changes, COALESCE by COALESCE. */
  predicate Rewrites(before: Row, after: Row, op: Op)
    requires op.Update?
  {
    && after == before.(name := after.name, sipAddress := after.sipAddress, weight := after.weight,
                        failover := after.failover, maxFailures := after.maxFailures)
    && (if op.newName.Some? then Some(after.name) == op.newName else after.name == before.name)
    && (if op.newAddress.Some? then Some(after.sipAddress) == op.newAddress else after.sipAddress == before.sipAddress)
    && (if op.newWeight.Some? then Some(after.weight) == op.newWeight else after.weight == before.weight)
    && after.failover == (if op.newFailover.Some? then op.newFailover else before.failover)
    && (if op.newMaxFailures.Some? then Some(after.maxFailures) == op.newMaxFailures
        else after.maxFailures == before.maxFailures)
  }

  /** What a probe changes. */
  predicate Records(before: Row, after: Row, reachable: bool) {
    && after == before.(healthy := after.healthy, failures := after.failures)
    && after.failures == (if reachable then 0 else before.failures + 1)
    && (after.healthy <==> reachable || before.failures + 1 < before.maxFailures)
  }

  /** A failover id the foreign key admits. */
  ghost predicate AdmitsFailover(table: seq<Row>, failover: Option<int>, self: int) {
    failover.Some? ==> failover.value == self || Known(table, failover.value)
  }

  /** An insert appends its row and nothing else; a refused one leaves the table alone. */
  ghost predicate CreateOutcome(before: seq<Row>, nextId: int, after: seq<Row>, op: Op, ok: bool)
    requires op.Create?
  {
    && (ok <==> (op.gatewayType == "a_leg" || op.gatewayType == "b_leg") && AdmitsFailover(before, op.failover, nextId))
    && if ok then |after| == |before| + 1 && after[..|before|] == before && Inserts(after[|before|], op, nextId)
       else after == before
  }

  /** Everything but the row with this id stays. */
  ghost predicate OthersStay(before: seq<Row>, after: seq<Row>, id: int) {
    |after| == |before| && forall i :: 0 <= i < |before| && before[i].id != id ==> after[i] == before[i]
  }

  ghost predicate UpdateOutcome(before: seq<Row>, after: seq<Row>, op: Op, ok: bool)
    requires op.Update?
  {
    && (ok <==> Known(before, op.id) && AdmitsFailover(before, op.newFailover, op.id))
    && OthersStay(before, after, op.id)
    && forall i :: 0 <= i < |before| && before[i].id == op.id ==>
         if ok then Rewrites(before[i], after[i], op) else after[i] == before[i]
  }

  ghost predicate ToggleOutcome(before: seq<Row>, after: seq<Row>, id: int, enabled: bool, ok: bool) {
    && (ok <==> Known(before, id)) && OthersStay(before, after, id)
    && forall i :: 0 <= i < |before| && before[i].id == id ==> after[i] == before[i].(enabled := enabled)
  }

  ghost predicate ProbeOutcome(before: seq<Row>, after: seq<Row>, id: int, reachable: bool, ok: bool) {
    && (ok <==> Known(before, id)) && OthersStay(before, after, id)
    && forall i :: 0 <= i < |before| && before[i].id == id ==> Records(before[i], after[i], reachable)
  }

  lemma CreateWrites(s: State, op: Op)
    requires op.Create?
    ensures CreateOutcome(s.table, s.nextId, Apply(s, op).table, op, Accepts(s, op))
  {
    hide Load, Find;
  }

  lemma UpdateWrites(s: State, op: Op)
    requires op.Update? && Consistent(s)
    ensures UpdateOutcome(s.table, Apply(s, op).table, op, Accepts(s, op))
  {
    hide Load, Find;
  }

  lemma ToggleWrites(s: State, id: int, enabled: bool)
    requires Consistent(s)
    ensures ToggleOutcome(s.table, Apply(s, Toggle(id, enabled)).table, id, enabled, Accepts(s, Toggle(id, enabled)))
  {
    hide Load, Find;
  }

  lemma ProbeWrites(s: State, id: int, reachable: bool)
    requires Consistent(s)
    ensures ProbeOutcome(s.table, Apply(s, Probe(id, reachable)).table, id, reachable, Accepts(s, Probe(id, reachable)))
  {
    hide Load, Find, SetHealthy;
  }

  // ---- The pool always mirrors the table and its weights always cancel ----

  /** The pool is the table's A-leg projection up to current weights, which sum to zero. */
  ghost predicate Consistent(s: State) {
    && OrderedIds(s.table, s.nextId)
    && SameMembers(s.pool, Load(s.table))
    && Sum(s.pool, CurrentWeight) == 0
  }

  lemma {:induction false} LoadIsZeroed(table: seq<Row>)
    ensures forall i :: 0 <= i < |Load(table)| ==> Load(table)[i].currentWeight == 0
  {
    if table != [] {
      LoadIsZeroed(table[..|table| - 1]);
    }
  }

  lemma LoadSumsToZero(table: seq<Row>)
    ensures Sum(Load(table), CurrentWeight) == 0
  {
    LoadIsZeroed(table);
    SumAllZero(Load(table), CurrentWeight);
  }

  lemma {:induction false} SetHealthyAbsent(pool: Pool, id: int, healthy: bool)
    requires forall i :: 0 <= i < |pool| ==> pool[i].id != id
    ensures SetHealthy(pool, id, healthy) == pool
  {
    if pool != [] {
      SetHealthyAbsent(pool[1..], id, healthy);
    }
  }

  lemma {:induction false} SetHealthyFound(pool: Pool, id: int, healthy: bool, i: nat)
    requires i < |pool| && pool[i].id == id
    requires forall j :: 0 <= j < i ==> pool[j].id != id
    ensures SetHealthy(pool, id, healthy) == pool[i := pool[i].(healthy := healthy)]
  {
    if i > 0 {
      SetHealthyFound(pool[1..], id, healthy, i - 1);
    }
  }

  /** Pointwise meaning of SetHealthy when the id occurs at most once. */
  lemma {:induction false} SetHealthyAt(pool: Pool, id: int, healthy: bool, k: nat)
    requires k < |pool|
    requires forall i, j :: 0 <= i < j < |pool| ==> pool[i].id != pool[j].id
    ensures SetHealthy(pool, id, healthy)[k] == if pool[k].id == id then pool[k].(healthy := healthy) else pool[k]
  {
    if pool[0].id != id && k > 0 {
      SetHealthyAt(pool[1..], id, healthy, k - 1);
    }
  }

  lemma {:induction false} SetHealthySum(pool: Pool, id: int, healthy: bool)
    ensures Sum(SetHealthy(pool, id, healthy), CurrentWeight) == Sum(pool, CurrentWeight)
  {
    SetHealthyKeepsWeights(pool, id, healthy);
    SumCongruent(SetHealthy(pool, id, healthy), pool, CurrentWeight, CurrentWeight);
  }

  lemma {:induction false} SetHealthyKeepsWeights(pool: Pool, id: int, healthy: bool)
    ensures forall k :: 0 <= k < |pool| ==>
              SetHealthy(pool, id, healthy)[k].(healthy := pool[k].healthy) == pool[k]
  {
    if pool != [] && pool[0].id != id {
      SetHealthyKeepsWeights(pool[1..], id, healthy);
      assert forall k :: 1 <= k < |pool| ==> pool[k] == pool[1..][k - 1];
    }
  }

  lemma {:induction false} LoadedIdsIncrease(table: seq<Row>, nextId: int)
    requires OrderedIds(table, nextId)
    ensures forall i, j :: 0 <= i < j < |Load(table)| ==> Load(table)[i].id < Load(table)[j].id
    ensures forall i :: 0 <= i < |Load(table)| ==> Load(table)[i].id < nextId
  {
    if table != [] {
      var front, row := table[..|table| - 1], table[|table| - 1];
      LoadedIdsIncrease(front, row.id);
    }
  }

  /** Changing one row's health in the table and in the loaded pool agree. */
  lemma {:induction false} LoadOfProbed(table: seq<Row>, nextId: int, i: nat, row: Row)
    requires i < |table| && OrderedIds(table, nextId)
    requires row == table[i].(healthy := row.healthy, failures := row.failures)
    ensures Load(table[i := row])
            == if row.gatewayType == A_LEG then SetHealthy(Load(table), row.id, row.healthy) else Load(table)
  {
    hide SetHealthy;
    var last := |table| - 1;
    var front := table[..last];
    if i == last {
      assert table[i := row][..last] == front;
      LoadedIdsIncrease(front, row.id);
      SetHealthyAbsent(Load(front), row.id, row.healthy);
      if row.gatewayType == A_LEG {
        SetHealthyAppend(Load(front), FromRow(table[i]), row.id, row.healthy);
      }
    } else {
      assert table[i := row][..last] == front[i := row];
      LoadOfProbed(front, table[last].id, i, row);
      if row.gatewayType == A_LEG && table[last].gatewayType == A_LEG {
        SetHealthyAppendOther(Load(front), FromRow(table[last]), row.id, row.healthy);
      }
    }
  }

  lemma {:induction false} SetHealthyAppend(pool: Pool, g: Gateway, id: int, healthy: bool)
    requires g.id == id && forall i :: 0 <= i < |pool| ==> pool[i].id != id
    ensures SetHealthy(pool + [g], id, healthy) == pool + [g.(healthy := healthy)]
  {
    if pool != [] {
      assert (pool + [g])[1..] == pool[1..] + [g];
      SetHealthyAppend(pool[1..], g, id, healthy);
    }
  }

  lemma {:induction false} SetHealthyAppendOther(pool: Pool, g: Gateway, id: int, healthy: bool)
    requires g.id != id
    ensures SetHealthy(pool + [g], id, healthy) == SetHealthy(pool, id, healthy) + [g]
  {
    if pool != [] && pool[0].id != id {
      assert (pool + [g])[1..] == pool[1..] + [g];
      SetHealthyAppendOther(pool[1..], g, id, healthy);
    } else if pool != [] {
      assert (pool + [g])[1..] == pool[1..] + [g];
    }
  }

  lemma ReloadIsConsistent(s: State, table: seq<Row>, gatewayType: string)
    requires Consistent(s) && OrderedIds(table, s.nextId)
    requires gatewayType != A_LEG ==> Load(table) == Load(s.table)
    ensures Consistent(Reloaded(s, table, gatewayType))
  {
    LoadSumsToZero(table);
  }

  /** Rewriting a row that is no A-leg does not show in the projection. */
  lemma {:induction false} LoadIgnoresOthers(table: seq<Row>, i: nat, row: Row)
    requires i < |table| && table[i].gatewayType != A_LEG && row.gatewayType != A_LEG
    ensures Load(table[i := row]) == Load(table)
  {
    var last := |table| - 1;
    if i == last {
      assert table[i := row][..last] == table[..last];
    } else {
      assert table[i := row][..last] == table[..last][i := row];
      LoadIgnoresOthers(table[..last], i, row);
    }
  }

  lemma RewriteIsConsistent(s: State, i: nat, row: Row)
    requires Consistent(s) && i < |s.table|
    requires row.id == s.table[i].id && row.gatewayType == s.table[i].gatewayType
    ensures Consistent(Reloaded(s, s.table[i := row], row.gatewayType))
  {
    if row.gatewayType != A_LEG {
      LoadIgnoresOthers(s.table, i, row);
    }
    ReloadIsConsistent(s, s.table[i := row], row.gatewayType);
  }

  lemma ProbeIsConsistent(s: State, i: nat, reachable: bool)
    requires Consistent(s) && i < |s.table|
    ensures var row := Probed(s.table[i], reachable);
            Consistent(s.(table := s.table[i := row],
                          pool := if row.gatewayType == A_LEG then SetHealthy(s.pool, row.id, row.healthy) else s.pool))
  {
    var row := Probed(s.table[i], reachable);
    LoadOfProbed(s.table, s.nextId, i, row);
    if row.gatewayType == A_LEG {
      var loaded := Load(s.table);
      LoadedIdsIncrease(s.table, s.nextId);
      SetHealthySum(s.pool, row.id, row.healthy);
      forall k | 0 <= k < |s.pool|
        ensures SetHealthy(s.pool, row.id, row.healthy)[k]
                == SetHealthy(loaded, row.id, row.healthy)[k].
                    (currentWeight := SetHealthy(s.pool, row.id, row.healthy)[k].currentWeight)
      {
        SetHealthyAt(loaded, row.id, row.healthy, k);
        SetHealthyAt(s.pool, row.id, row.healthy, k);
      }
    }
  }

  lemma CreateIsConsistent(s: State, op: Op)
    requires Consistent(s) && op.Create? && Accepts(s, op)
    ensures Consistent(Apply(s, op))
  {
    hide Pick, SetHealthy, Find;
    var table := s.table + [CreatedRow(s, op)];
    assert table[..|s.table|] == s.table;
    ReloadIsConsistent(s.(nextId := s.nextId + 1), table, op.gatewayType);
  }

  lemma PickIsConsistent(s: State)
    requires Consistent(s)
    ensures Consistent(s.(pool := Pick(s.pool)))
  {
    hide Load, Sum;
    PickKeepsMembers(s.pool);
    PickConserves(s.pool);
  }

  lemma ApplyKeepsConsistent(s: State, op: Op)
    requires Consistent(s)
    ensures Consistent(Apply(s, op))
  {
    hide Load, Pick, SetHealthy, Sum, SameMembers;
    if Accepts(s, op) {
      match op
      case Create(_, _, _, _, _, _) => CreateIsConsistent(s, op);
      case Update(id, _, _, _, _, _) =>
        var i := Find(s.table, id).value;
        RewriteIsConsistent(s, i, UpdatedRow(s.table[i], op));
      case Toggle(id, enabled) =>
        var i := Find(s.table, id).value;
        RewriteIsConsistent(s, i, s.table[i].(enabled := enabled));
      case Probe(id, reachable) =>
        ProbeIsConsistent(s, Find(s.table, id).value, reachable);
      case PickALeg => PickIsConsistent(s);
    }
  }

  /** Whatever operations run, the pool mirrors the table and its current weights sum to zero. */
  lemma {:induction false} RunKeepsConsistent(s: State, ops: seq<Op>)
    requires Consistent(s)
    ensures Consistent(Run(s, ops))
  {
    hide Apply, Consistent;
    if ops != [] {
      RunKeepsConsistent(s, ops[..|ops| - 1]);
      ApplyKeepsConsistent(Run(s, ops[..|ops| - 1]), ops[|ops| - 1]);
    }
  }

  // ---- What the pool holds, row by row ----

  /** The in-memory entry of this A-leg row, whatever its current weight. */
  predicate Mirrored(g: Gateway, row: Row) {
    && row.gatewayType == "a_leg"
    && g.id == row.id && g.name == row.name && g.sipAddress == row.sipAddress && g.weight == row.weight
    && g.healthy == row.healthy && g.enabled == row.enabled
  }

  ghost predicate HasRow(g: Gateway, table: seq<Row>) { exists i :: 0 <= i < |table| && Mirrored(g, table[i]) }

  ghost predicate HasEntry(row: Row, pool: Pool) { exists e :: 0 <= e < |pool| && Mirrored(pool[e], row) }

  /** Every entry is that of an A-leg row, and every A-leg row has one. */
  ghost predicate Mirrors(pool: Pool, table: seq<Row>) {
    && (forall e :: 0 <= e < |pool| ==> HasRow(pool[e], table))
    && (forall i :: 0 <= i < |table| && table[i].gatewayType == "a_leg" ==> HasEntry(table[i], pool))
  }

  lemma RowStays(g: Gateway, front: seq<Row>, table: seq<Row>)
    requires HasRow(g, front) && |front| <= |table| && table[..|front|] == front
    ensures HasRow(g, table)
  {
    var i :| 0 <= i < |front| && Mirrored(g, front[i]);
    assert table[i] == front[i];
  }

  lemma EntryStays(row: Row, before: Pool, pool: Pool)
    requires HasEntry(row, before) && |before| <= |pool| && pool[..|before|] == before
    ensures HasEntry(row, pool)
  {
    var e :| 0 <= e < |before| && Mirrored(before[e], row);
    assert pool[e] == before[e];
  }

  lemma RowAt(g: Gateway, table: seq<Row>, i: nat)
    requires i < |table| && Mirrored(g, table[i])
    ensures HasRow(g, table)
  {
  }

  lemma EntryAt(row: Row, pool: Pool, e: nat)
    requires e < |pool| && Mirrored(pool[e], row)
    ensures HasEntry(row, pool)
  {
  }

  lemma MirrorsStay(pool: Pool, front: seq<Row>, row: Row)
    requires Mirrors(pool, front) && row.gatewayType != "a_leg"
    ensures Mirrors(pool, front + [row])
  {
    hide HasRow, HasEntry;
    var table := front + [row];
    assert table[..|front|] == front;
    forall e | 0 <= e < |pool| ensures HasRow(pool[e], table) {
      RowStays(pool[e], front, table);
    }
    forall i | 0 <= i < |table| && table[i].gatewayType == "a_leg" ensures HasEntry(table[i], pool) {
      assert table[i] == front[i];
    }
  }

  lemma MirrorsGrow(pool: Pool, front: seq<Row>, g: Gateway, row: Row)
    requires Mirrors(pool, front) && Mirrored(g, row)
    ensures Mirrors(pool + [g], front + [row])
  {
    hide HasRow, HasEntry, Mirrored;
    var table, more := front + [row], pool + [g];
    assert table[..|front|] == front && more[..|pool|] == pool;
    RowAt(g, table, |front|);
    EntryAt(row, more, |pool|);
    forall e | 0 <= e < |more| ensures HasRow(more[e], table) {
      if e < |pool| {
        RowStays(pool[e], front, table);
      }
    }
    forall i | 0 <= i < |table| && table[i].gatewayType == "a_leg" ensures HasEntry(table[i], more) {
      if i < |front| {
        EntryStays(front[i], pool, more);
      }
    }
  }

  lemma {:induction false} LoadMirrors(table: seq<Row>)
    ensures Mirrors(Load(table), table)
  {
    if table != [] {
      hide Mirrors;
      var front, row := table[..|table| - 1], table[|table| - 1];
      LoadMirrors(front);
      assert table == front + [row];
      if row.gatewayType == A_LEG {
        MirrorsGrow(Load(front), front, FromRow(row), row);
      } else {
        MirrorsStay(Load(front), front, row);
      }
    }
  }

  lemma SameMemberRow(g: Gateway, loaded: Gateway, table: seq<Row>)
    requires g == loaded.(currentWeight := g.currentWeight) && HasRow(loaded, table)
    ensures HasRow(g, table)
  {
    var i :| 0 <= i < |table| && Mirrored(loaded, table[i]);
    assert Mirrored(g, table[i]);
  }

  lemma SameMemberEntry(row: Row, pool: Pool, loaded: Pool)
    requires SameMembers(pool, loaded) && HasEntry(row, loaded)
    ensures HasEntry(row, pool)
  {
    var e :| 0 <= e < |loaded| && Mirrored(loaded[e], row);
    assert Mirrored(pool[e], row);
  }

  lemma ConsistentMirrors(s: State)
    requires Consistent(s)
    ensures Mirrors(s.pool, s.table)
    ensures forall d, e :: 0 <= d < e < |s.pool| ==> s.pool[d].id < s.pool[e].id
  {
    hide HasRow, HasEntry, Load;
    LoadMirrors(s.table);
    LoadedIdsIncrease(s.table, s.nextId);
    var loaded := Load(s.table);
    forall e | 0 <= e < |s.pool| ensures HasRow(s.pool[e], s.table) {
      SameMemberRow(s.pool[e], loaded[e], s.table);
    }
    forall i | 0 <= i < |s.table| && s.table[i].gatewayType == "a_leg" ensures HasEntry(s.table[i], s.pool) {
      SameMemberEntry(s.table[i], s.pool, loaded);
    }
  }

  /** Over every run of operations the pool mirrors the A-leg rows field by field, in id order. */
  lemma RunKeepsMirrors(s: State, ops: seq<Op>)
    requires Consistent(s)
    ensures var t := Run(s, ops);
            Mirrors(t.pool, t.table) && forall d, e :: 0 <= d < e < |t.pool| ==> t.pool[d].id < t.pool[e].id
  {
    RunKeepsConsistent(s, ops);
    ConsistentMirrors(Run(s, ops));
  }

  /** Some A-leg row is healthy and enabled. */
  ghost predicate AnyPickable(table: seq<Row>) {
    exists i :: 0 <= i < |table| && table[i].gatewayType == "a_leg" && table[i].healthy && table[i].enabled
  }

  /** One that is has this id, name and address. */
  ghost predicate PickableAs(table: seq<Row>, id: int, name: string, sipAddress: string) {
    exists i :: 0 <= i < |table| && table[i].gatewayType == "a_leg" && table[i].healthy && table[i].enabled
                && table[i].id == id && table[i].name == name && table[i].sipAddress == sipAddress
  }

  lemma EntryIsPickable(g: Gateway, table: seq<Row>)
    requires HasRow(g, table) && Candidate(g)
    ensures AnyPickable(table) && PickableAs(table, g.id, g.name, g.sipAddress)
  {
    var i :| 0 <= i < |table| && Mirrored(g, table[i]);
    assert table[i].gatewayType == "a_leg";
  }

  lemma RowIsCandidate(row: Row, pool: Pool)
    requires HasEntry(row, pool) && row.healthy && row.enabled
    ensures HasCandidate(pool)
  {
    var e :| 0 <= e < |pool| && Mirrored(pool[e], row);
    assert Candidate(pool[e]);
  }

  /** A pick answers with the id, name and address of a pickable row, and fails when there is none. */
  lemma PickedRow(s: State)
    requires Consistent(s)
    ensures HasCandidate(s.pool) <==> AnyPickable(s.table)
    ensures HasCandidate(s.pool) ==>
              var g := s.pool[Chosen(s.pool)];
              PickableAs(s.table, g.id, g.name, g.sipAddress)
  {
    ConsistentMirrors(s);
    hide Consistent, HasRow, HasEntry, PickableAs, Chosen;
    if HasCandidate(s.pool) {
      EntryIsPickable(s.pool[Chosen(s.pool)], s.table);
    }
    if i :| 0 <= i < |s.table| && s.table[i].gatewayType == "a_leg" && s.table[i].healthy && s.table[i].enabled {
      RowIsCandidate(s.table[i], s.pool);
    }
  }

  // ---- What the health flag says ----

  /** The outcomes of a gateway's probes in a run, oldest first. */
  function ProbesOf(ops: seq<Op>, id: int): seq<bool> {
    if ops == [] then []
    else
      var front, op := ProbesOf(ops[..|ops| - 1], id), ops[|ops| - 1];
      if op.Probe? && op.id == id then front + [op.reachable] else front
  }

  /** The last m probes all failed, and there were that many. */
  predicate LastFailed(probes: seq<bool>, m: nat) {
    m <= |probes| && forall i :: |probes| - m <= i < |probes| ==> !probes[i]
  }

  /** The length of the failing streak a history ends in. */
  function Streak(probes: seq<bool>): (n: nat)
    ensures forall m: nat :: LastFailed(probes, m) <==> m <= n
  {
    if probes == [] || probes[|probes| - 1] then 0
    else
      var front := probes[..|probes| - 1];
      var n := Streak(front) + 1;
      assert forall m: nat :: m > 0 ==> (LastFailed(probes, m) <==> LastFailed(front, m - 1)) by {
        forall m: nat | m > 0 ensures LastFailed(probes, m) <==> LastFailed(front, m - 1) {
          StreakExtends(probes, m);
        }
      }
      n
  }

  lemma StreakExtends(probes: seq<bool>, m: nat)
    requires probes != [] && !probes[|probes| - 1] && m > 0
    ensures LastFailed(probes, m) <==> LastFailed(probes[..|probes| - 1], m - 1)
  {
    var last := |probes| - 1;
    assert forall i :: 0 <= i < last ==> probes[..last][i] == probes[i];
  }

  /** A row as its probes left it: its counter is the streak, its flag compares it with the limit then in force. */
  predicate Tracks(row: Row, probes: seq<bool>, limit: int) {
    && row.failures == Streak(probes)
    && (row.healthy <==> Streak(probes) < Max(1, limit))
  }

  /** The failure limit of row i when it was last probed; the initial one if it never was. */
  function LimitAtLastProbe(s: State, ops: seq<Op>, i: nat): int
    requires i < |s.table|
  {
    if ops == [] then s.table[i].maxFailures
    else
      var front, op := ops[..|ops| - 1], ops[|ops| - 1];
      var t := Run(s, front).table;
      if op.Probe? && op.id == s.table[i].id && i < |t| then t[i].maxFailures else LimitAtLastProbe(s, front, i)
  }

  lemma ProbedTracks(row: Row, probes: seq<bool>, reachable: bool)
    requires row.failures == Streak(probes)
    ensures Tracks(Probed(row, reachable), probes + [reachable], row.maxFailures)
  {
    assert (probes + [reachable])[..|probes|] == probes;
  }

  /** Where a row ends up after one operation, and how that bears on its health. */
  lemma ApplyKeepsTrack(s: State, op: Op, i: nat, probes: seq<bool>, limit: int)
    requires OrderedIds(s.table, s.nextId) && i < |s.table|
    requires Tracks(s.table[i], probes, limit)
    ensures var t := Apply(s, op).table;
            var id := s.table[i].id;
            var probed := op.Probe? && op.id == id;
            && i < |t| && t[i].id == id
            && Tracks(t[i], if probed then probes + [op.reachable] else probes,
                      if probed then s.table[i].maxFailures else limit)
            && (!(op.Update? && op.id == id && op.newMaxFailures.Some?) ==> t[i].maxFailures == s.table[i].maxFailures)
  {
    hide Load, Pick, SetHealthy, Streak;
    if op.Probe? && op.id == s.table[i].id {
      ProbedTracks(s.table[i], probes, op.reachable);
      assert Find(s.table, op.id) == Some(i);
    }
  }

  lemma ApplyKeepsOrder(s: State, op: Op)
    requires OrderedIds(s.table, s.nextId)
    ensures OrderedIds(Apply(s, op).table, Apply(s, op).nextId)
  {
    hide Load, Pick, SetHealthy;
  }

  /**
    In every run a gateway that started healthy with no failures is unhealthy exactly when its
    last m probes, cron or manual, all failed, m being its failure limit at the last of them. A
    limit below 1 acts as 1; changing the limit shows only at the next probe.
   */
  lemma {:induction false} UnhealthyIffLastProbesFailed(s: State, ops: seq<Op>, i: nat)
    requires OrderedIds(s.table, s.nextId) && i < |s.table|
    requires s.table[i].healthy && s.table[i].failures == 0
    ensures var t := Run(s, ops).table;
            var id := s.table[i].id;
            var limit := LimitAtLastProbe(s, ops, i);
            && i < |t| && t[i].id == id
            && Tracks(t[i], ProbesOf(ops, id), limit)
            && (!t[i].healthy <==> LastFailed(ProbesOf(ops, id), Max(1, limit)))
            && OrderedIds(t, Run(s, ops).nextId)
  {
    hide Apply;
    if ops != [] {
      var front, op := ops[..|ops| - 1], ops[|ops| - 1];
      UnhealthyIffLastProbesFailed(s, front, i);
      ApplyKeepsTrack(Run(s, front), op, i, ProbesOf(front, s.table[i].id), LimitAtLastProbe(s, front, i));
      ApplyKeepsOrder(Run(s, front), op);
    }
  }

  /** A run that leaves one gateway's failure limit alone. */
  predicate LimitUntouched(ops: seq<Op>, id: int) {
    forall i :: 0 <= i < |ops| && ops[i].Update? && ops[i].id == id ==> ops[i].newMaxFailures.None?
  }

  /** When no update touches the limit it is the initial one throughout. */
  lemma {:induction false} UntouchedLimit(s: State, ops: seq<Op>, i: nat)
    requires OrderedIds(s.table, s.nextId) && i < |s.table|
    requires s.table[i].healthy && s.table[i].failures == 0 && LimitUntouched(ops, s.table[i].id)
    ensures var t := Run(s, ops).table;
            i < |t| && t[i].maxFailures == LimitAtLastProbe(s, ops, i) == s.table[i].maxFailures
  {
    hide Apply, Tracks;
    if ops != [] {
      var front, op := ops[..|ops| - 1], ops[|ops| - 1];
      UntouchedLimit(s, front, i);
      UnhealthyIffLastProbesFailed(s, front, i);
      ApplyKeepsTrack(Run(s, front), op, i, ProbesOf(front, s.table[i].id), LimitAtLastProbe(s, front, i));
      assert ops[|ops| - 1] == op;
    }
  }
}
