/**
  The smooth weighted round-robin of PickALeg as a function on the pool, and what any
  number of picks guarantees: a closed form, quotas, exact periodicity and recovery.
 */
module RoundRobin {
  import opened Sequences
  import opened Numbers

  /** The in-memory record of one A-leg gateway. */
  datatype Gateway = Gateway(id: int, name: string, sipAddress: string, weight: int,
                             currentWeight: int, healthy: bool, enabled: bool)

  type Pool = seq<Gateway>

  predicate Candidate(g: Gateway) { g.healthy && g.enabled }

  function CandidateWeight(g: Gateway): int { if Candidate(g) then g.weight else 0 }

  function CandidateCurrent(g: Gateway): int { if Candidate(g) then g.currentWeight else 0 }

  function CandidateUnit(g: Gateway): int { if Candidate(g) then 1 else 0 }

  function CurrentWeight(g: Gateway): int { g.currentWeight }

  /** W, n and S: total weight, number and accumulated weight of the candidates. */
  function TotalWeight(pool: Pool): int { Sum(pool, CandidateWeight) }

  function CandidateCount(pool: Pool): int { Sum(pool, CandidateUnit) }

  function CurrentSum(pool: Pool): int { Sum(pool, CandidateCurrent) }

  predicate HasCandidate(pool: Pool) { exists i :: 0 <= i < |pool| && Candidate(pool[i]) }

  predicate NonNegativeWeights(pool: Pool) {
    forall i :: 0 <= i < |pool| && Candidate(pool[i]) ==> pool[i].weight >= 0
  }

  predicate Zeroed(pool: Pool) {
    forall i :: 0 <= i < |pool| && Candidate(pool[i]) ==> pool[i].currentWeight == 0
  }

  // ---- One pick ----

  function Bump(g: Gateway): Gateway {
    if Candidate(g) then g.(currentWeight := g.currentWeight + g.weight) else g
  }

  function BumpAll(pool: Pool): (r: Pool)
    ensures |r| == |pool|
    ensures forall i :: 0 <= i < |pool| ==> r[i] == Bump(pool[i])
  {
    seq(|pool|, i requires 0 <= i < |pool| => Bump(pool[i]))
  }

  /** b is the first candidate among those of largest current weight. */
  predicate IsBest(pool: Pool, b: int) {
    && 0 <= b < |pool| && Candidate(pool[b])
    && (forall j :: 0 <= j < |pool| && Candidate(pool[j]) ==> pool[j].currentWeight <= pool[b].currentWeight)
    && (forall j :: 0 <= j < b && Candidate(pool[j]) ==> pool[j].currentWeight < pool[b].currentWeight)
  }

  /** The position PickALeg settles on once every candidate has been raised. */
  function Best(pool: Pool): (b: nat)
    requires HasCandidate(pool)
    ensures IsBest(pool, b)
  {
    var last := |pool| - 1;
    var front := pool[..last];
    if HasCandidate(front) then
      var b := Best(front);
      assert forall j :: 0 <= j < last ==> front[j] == pool[j];
      if Candidate(pool[last]) && pool[last].currentWeight > pool[b].currentWeight then last else b
    else
      assert forall j :: 0 <= j < last ==> front[j] == pool[j];
      last
  }

  lemma BestIsUnique(pool: Pool, b: int, c: int)
    requires IsBest(pool, b) && IsBest(pool, c)
    ensures b == c
  {
  }

  lemma BumpKeepsCandidates(pool: Pool)
    ensures HasCandidate(BumpAll(pool)) <==> HasCandidate(pool)
  {
    if HasCandidate(pool) {
      var i :| 0 <= i < |pool| && Candidate(pool[i]);
      assert Candidate(BumpAll(pool)[i]);
    }
  }

  /** The position chosen by one pick. */
  function Chosen(pool: Pool): (b: nat)
    requires HasCandidate(pool)
    ensures b < |pool| && Candidate(pool[b])
  {
    BumpKeepsCandidates(pool);
    Best(BumpAll(pool))
  }

  /** The pool after one pick; without a candidate nothing changes. */
  function Pick(pool: Pool): (r: Pool)
    ensures |r| == |pool|
  {
    if HasCandidate(pool) then
      var b := Chosen(pool);
      var raised := BumpAll(pool);
      raised[b := raised[b].(currentWeight := raised[b].currentWeight - TotalWeight(pool))]
    else
      pool
  }

  /**
    Every candidate gained its weight; c, the first with the largest result, then lost the total.
    Gateways that are unhealthy or disabled are as before.
   */
  ghost predicate PickedAt(before: Pool, after: Pool, c: nat) {
    && c < |before| == |after| && before[c].healthy && before[c].enabled
    && (forall j :: 0 <= j < |before| && before[j].healthy && before[j].enabled ==>
          var raised, best := before[j].currentWeight + before[j].weight, before[c].currentWeight + before[c].weight;
          && (if j < c then raised < best else raised <= best)
          && after[j] == before[j].(currentWeight := if j == c then raised - TotalWeight(before) else raised))
    && (forall j :: 0 <= j < |before| && !(before[j].healthy && before[j].enabled) ==> after[j] == before[j])
  }

  lemma PickTakesFirstLargest(pool: Pool)
    requires HasCandidate(pool)
    ensures PickedAt(pool, Pick(pool), Chosen(pool))
  {
    BumpKeepsCandidates(pool);
    assert IsBest(BumpAll(pool), Chosen(pool));
    hide HasCandidate, Best, TotalWeight;
    forall j | 0 <= j < |pool| && pool[j].healthy && pool[j].enabled
      ensures var c := Chosen(pool);
              BumpAll(pool)[j].currentWeight <= BumpAll(pool)[c].currentWeight &&
              (j < c ==> BumpAll(pool)[j].currentWeight < BumpAll(pool)[c].currentWeight)
    {
      assert Candidate(BumpAll(pool)[j]);
    }
  }

  // ---- Runs of picks ----

  function After(pool: Pool, k: nat): (r: Pool)
    ensures |r| == |pool|
  {
    if k == 0 then pool else Pick(After(pool, k - 1))
  }

  /** How often each position was chosen by the first k picks. */
  function Counts(pool: Pool, k: nat): (c: seq<int>)
    ensures |c| == |pool|
  {
    if k == 0 then seq(|pool|, _ => 0)
    else
      var before := After(pool, k - 1);
      var c := Counts(pool, k - 1);
      if HasCandidate(before) then c[Chosen(before) := c[Chosen(before)] + 1] else c
  }

  /** Two pools that differ in current weights only. */
  predicate SameMembers(p: Pool, q: Pool) {
    && |p| == |q|
    && forall i :: 0 <= i < |p| ==> p[i] == q[i].(currentWeight := p[i].currentWeight)
  }

  lemma PickKeepsMembers(pool: Pool)
    ensures SameMembers(Pick(pool), pool)
  {
  }

  lemma {:induction false} RunKeepsMembers(pool: Pool, k: nat)
    ensures SameMembers(After(pool, k), pool)
  {
    if k > 0 {
      RunKeepsMembers(pool, k - 1);
      PickKeepsMembers(After(pool, k - 1));
    }
  }

  lemma SameMembersSameTotals(p: Pool, q: Pool)
    requires SameMembers(p, q)
    ensures TotalWeight(p) == TotalWeight(q) && CandidateCount(p) == CandidateCount(q)
    ensures HasCandidate(p) <==> HasCandidate(q)
    ensures NonNegativeWeights(p) <==> NonNegativeWeights(q)
  {
    SumCongruent(p, q, CandidateWeight, CandidateWeight);
    SumCongruent(p, q, CandidateUnit, CandidateUnit);
    forall i | 0 <= i < |p| ensures Candidate(p[i]) <==> Candidate(q[i]) {}
  }

  /** A pick moves weight around among the candidates and never creates any. */
  lemma PickConserves(pool: Pool)
    ensures CurrentSum(Pick(pool)) == CurrentSum(pool)
    ensures Sum(Pick(pool), CurrentWeight) == Sum(pool, CurrentWeight)
  {
    hide Chosen, Sum, TotalWeight;
    if HasCandidate(pool) {
      var raised := BumpAll(pool);
      var b := Chosen(pool);
      var lowered := raised[b].(currentWeight := raised[b].currentWeight - TotalWeight(pool));
      BumpedSums(pool);
      SumUpdate(raised, b, lowered, CandidateCurrent);
      SumUpdate(raised, b, lowered, CurrentWeight);
    }
  }

  lemma {:induction false} BumpedSums(pool: Pool)
    ensures Sum(BumpAll(pool), CandidateCurrent) == CurrentSum(pool) + TotalWeight(pool)
    ensures Sum(BumpAll(pool), CurrentWeight) == Sum(pool, CurrentWeight) + TotalWeight(pool)
  {
    if pool != [] {
      var last := |pool| - 1;
      BumpedSums(pool[..last]);
      assert BumpAll(pool)[..last] == BumpAll(pool[..last]);
    }
  }

  lemma {:induction false} RunConserves(pool: Pool, k: nat)
    ensures CurrentSum(After(pool, k)) == CurrentSum(pool)
  {
    if k > 0 {
      RunConserves(pool, k - 1);
      PickConserves(After(pool, k - 1));
    }
  }

  /** What one pick does to position i. */
  lemma PickMoves(pool: Pool, i: nat)
    requires i < |pool|
    ensures !Candidate(pool[i]) ==> Pick(pool)[i] == pool[i]
    ensures Candidate(pool[i]) ==>
              Pick(pool)[i].currentWeight == pool[i].currentWeight + pool[i].weight
                                             - (if i == Chosen(pool) then TotalWeight(pool) else 0)
  {
  }

  lemma CountsStep(pool: Pool, k: nat, i: nat)
    requires i < |pool| && HasCandidate(After(pool, k))
    ensures Counts(pool, k + 1)[i] == Counts(pool, k)[i] + (if i == Chosen(After(pool, k)) then 1 else 0)
  {
  }

  /** After k picks, CurrentWeight_i has moved by k*w_i - W*n_i. */
  lemma {:induction false} ClosedForm(pool: Pool, k: nat, i: nat)
    requires i < |pool| && Candidate(pool[i])
    ensures After(pool, k)[i].currentWeight
            == pool[i].currentWeight + k * pool[i].weight - TotalWeight(pool) * Counts(pool, k)[i]
  {
    hide Pick, Chosen;
    var w, W := pool[i].weight, TotalWeight(pool);
    if k > 0 {
      ClosedForm(pool, k - 1, i);
      RunKeepsMembers(pool, k - 1);
      var before := After(pool, k - 1);
      SameMembersSameTotals(before, pool);
      PickMoves(before, i);
      CountsStep(pool, k - 1, i);
      var hit := if i == Chosen(before) then 1 else 0;
      ClosedFormStep(pool[i].currentWeight, k - 1, w, W, Counts(pool, k - 1)[i], hit);
    } else {
      assert W * 0 == 0;
    }
  }

  lemma ClosedFormStep(start: int, k: int, w: int, W: int, n: int, hit: int)
    requires hit == 0 || hit == 1
    ensures start + k * w - W * n + w - (if hit == 1 then W else 0) == start + (k + 1) * w - W * (n + hit)
  {
  }

  /** A pool member that cannot be chosen is left alone and never counted. */
  lemma {:induction false} BystandersUntouched(pool: Pool, k: nat, i: nat)
    requires i < |pool| && !Candidate(pool[i])
    ensures After(pool, k)[i] == pool[i] && Counts(pool, k)[i] == 0
  {
    if k > 0 {
      BystandersUntouched(pool, k - 1, i);
      PickMoves(After(pool, k - 1), i);
    }
  }

  /** Every pick is counted exactly once. */
  lemma {:induction false} CountsTotal(pool: Pool, k: nat)
    requires HasCandidate(pool)
    ensures Sum(Counts(pool, k), Identity) == k
  {
    hide Pick, Chosen;
    if k == 0 {
      SumAllZero(Counts(pool, 0), Identity);
    } else {
      CountsTotal(pool, k - 1);
      RunKeepsMembers(pool, k - 1);
      SameMembersSameTotals(After(pool, k - 1), pool);
      var c, b := Counts(pool, k - 1), Chosen(After(pool, k - 1));
      SumUpdate(c, b, c[b] + 1, Identity);
      assert Counts(pool, k) == c[b := c[b] + 1];
    }
  }

  lemma {:induction false} CountsNonNegative(pool: Pool, k: nat, i: nat)
    requires i < |pool|
    ensures Counts(pool, k)[i] >= 0
  {
    if k > 0 {
      CountsNonNegative(pool, k - 1, i);
    }
  }

  function Identity(x: int): int { x }

  // ---- A lower bound that every pick keeps ----

  /** low is at most every candidate's current weight, and no pick can undercut it. */
  predicate Floor(pool: Pool, low: int) {
    && (forall i :: 0 <= i < |pool| && Candidate(pool[i]) ==> pool[i].currentWeight >= low)
    && CandidateCount(pool) * (low + TotalWeight(pool)) < CurrentSum(pool) + TotalWeight(pool) + CandidateCount(pool)
  }

  /** A sum of candidates bounded above by high. */
  lemma {:induction false} SumAtMost(pool: Pool, high: int)
    requires forall i :: 0 <= i < |pool| && Candidate(pool[i]) ==> pool[i].currentWeight <= high
    ensures CurrentSum(pool) <= CandidateCount(pool) * high
  {
    if pool != [] {
      var last := |pool| - 1;
      SumAtMost(pool[..last], high);
      var n := CandidateCount(pool[..last]);
      assert (n + 1) * high == n * high + high;
    }
  }

  /** All candidates but i are at least low, so i is bounded above. */
  lemma {:induction false} OthersBoundOne(pool: Pool, i: nat, low: int)
    requires i < |pool| && Candidate(pool[i])
    requires forall j :: 0 <= j < |pool| && Candidate(pool[j]) ==> pool[j].currentWeight >= low
    ensures pool[i].currentWeight <= CurrentSum(pool) - (CandidateCount(pool) - 1) * low
  {
    var last := |pool| - 1;
    var front := pool[..last];
    var n := CandidateCount(front);
    assert (n + 1) * low == n * low + low;
    assert (n - 1) * low == n * low - low;
    SumAtLeastLow(front, low);
    if i < last {
      OthersBoundOne(front, i, low);
    }
  }

  lemma {:induction false} SumAtLeastLow(pool: Pool, low: int)
    requires forall j :: 0 <= j < |pool| && Candidate(pool[j]) ==> pool[j].currentWeight >= low
    ensures CurrentSum(pool) >= CandidateCount(pool) * low
  {
    if pool != [] {
      var last := |pool| - 1;
      SumAtLeastLow(pool[..last], low);
      var n := CandidateCount(pool[..last]);
      assert (n + 1) * low == n * low + low;
    }
  }

  /** The largest of n numbers is at least the rounded-up average. */
  lemma AverageBelowMax(n: int, top: int, bound: int, sum: int)
    requires n >= 0 && sum <= n * top && n * bound < sum + n
    ensures top >= bound
  {
    if top < bound {
      MulMonotone(n, top, bound - 1);
    }
  }

  /** The chosen gateway was raised to at least the average, so it ends at low or above. */
  lemma ChosenStaysAboveFloor(pool: Pool, low: int)
    requires Floor(pool, low) && HasCandidate(pool)
    ensures Bump(pool[Chosen(pool)]).currentWeight >= low + TotalWeight(pool)
  {
    var raised := BumpAll(pool);
    var b := Chosen(pool);
    var top := raised[b].currentWeight;
    BumpKeepsCandidates(pool);
    BumpedSums(pool);
    SumCongruent(raised, pool, CandidateUnit, CandidateUnit);
    SumAtMost(raised, top);
    CountNonNegative(pool);
    AverageBelowMax(CandidateCount(pool), top, low + TotalWeight(pool), CurrentSum(raised));
  }

  lemma {:induction false} CountNonNegative(pool: Pool)
    ensures CandidateCount(pool) >= 0
  {
    SumNonNegative(pool, CandidateUnit);
  }

  lemma PickKeepsFloor(pool: Pool, low: int)
    requires Floor(pool, low) && NonNegativeWeights(pool)
    ensures Floor(Pick(pool), low)
  {
    PickKeepsMembers(pool);
    SameMembersSameTotals(Pick(pool), pool);
    PickConserves(pool);
    if HasCandidate(pool) {
      ChosenStaysAboveFloor(pool, low);
      forall i | 0 <= i < |pool| && Candidate(Pick(pool)[i])
        ensures Pick(pool)[i].currentWeight >= low
      {
        PickMoves(pool, i);
      }
    }
  }

  lemma {:induction false} RunKeepsFloor(pool: Pool, low: int, k: nat)
    requires Floor(pool, low) && NonNegativeWeights(pool)
    ensures Floor(After(pool, k), low)
  {
    hide Pick, Chosen, Floor;
    if k > 0 {
      RunKeepsFloor(pool, low, k - 1);
      RunKeepsMembers(pool, k - 1);
      SameMembersSameTotals(After(pool, k - 1), pool);
      PickKeepsFloor(After(pool, k - 1), low);
    }
  }

  // ---- Main results ----

  function MinCurrent(pool: Pool): (m: int)
    requires HasCandidate(pool)
    ensures forall i :: 0 <= i < |pool| && Candidate(pool[i]) ==> m <= pool[i].currentWeight
  {
    var last := |pool| - 1;
    var front := pool[..last];
    assert forall j :: 0 <= j < last ==> front[j] == pool[j];
    if !HasCandidate(front) then pool[last].currentWeight
    else if Candidate(pool[last]) then Min(MinCurrent(front), pool[last].currentWeight)
    else MinCurrent(front)
  }

  lemma {:induction false} CandidatesCounted(pool: Pool)
    ensures HasCandidate(pool) ==> CandidateCount(pool) >= 1
  {
    if HasCandidate(pool) {
      var i :| 0 <= i < |pool| && Candidate(pool[i]);
      SumAtLeast(pool, i, CandidateUnit);
    }
  }

  /** A floor for any start, whatever weights a change of membership left behind. */
  ghost function StartFloor(pool: Pool): (low: int)
    requires HasCandidate(pool)
    ensures Floor(pool, low)
  {
    CandidatesCounted(pool);
    var n, W := CandidateCount(pool), TotalWeight(pool);
    var share := Ceiling(CurrentSum(pool) + W, n);
    var low := Min(MinCurrent(pool), share - W);
    assert n * (low + W) <= n * share by { MulMonotone(n, low + W, share); }
    low
  }

  /** How far apart current weights can ever be; it depends on the start only. */
  ghost function Spread(pool: Pool): int
    requires HasCandidate(pool)
  {
    CurrentSum(pool) - CandidateCount(pool) * StartFloor(pool)
  }

  /** Every candidate's current weight stays between the floor and what the others leave it. */
  lemma RunWithinFloor(pool: Pool, low: int, k: nat, i: nat)
    requires i < |pool| && Candidate(pool[i])
    requires Floor(pool, low) && NonNegativeWeights(pool)
    ensures low <= After(pool, k)[i].currentWeight <= CurrentSum(pool) - (CandidateCount(pool) - 1) * low
  {
    hide Pick, Chosen;
    RunKeepsFloor(pool, low, k);
    RunKeepsMembers(pool, k);
    SameMembersSameTotals(After(pool, k), pool);
    RunConserves(pool, k);
    OthersBoundOne(After(pool, k), i, low);
  }

  /** From any start, picks stay within a constant of the fair share for ever. */
  lemma BoundedUnfairness(pool: Pool, k: nat, i: nat)
    requires i < |pool| && Candidate(pool[i]) && NonNegativeWeights(pool)
    ensures HasCandidate(pool)
    ensures -Spread(pool) <= TotalWeight(pool) * Counts(pool, k)[i] - k * pool[i].weight <= Spread(pool)
  {
    hide Pick, Chosen;
    assert HasCandidate(pool);
    var low, n := StartFloor(pool), CandidateCount(pool);
    ClosedForm(pool, k, i);
    RunWithinFloor(pool, low, k, i);
    RunWithinFloor(pool, low, 0, i);
    assert (n - 1) * low == n * low - low;
  }

  lemma ZeroedSum(pool: Pool)
    requires Zeroed(pool)
    ensures CurrentSum(pool) == 0
  {
    SumAtMost(pool, 0);
    SumAtLeastLow(pool, 0);
  }

  lemma FreshFloor(pool: Pool)
    requires Zeroed(pool) && HasCandidate(pool) && TotalWeight(pool) >= 1
    ensures Floor(pool, 1 - TotalWeight(pool)) && CurrentSum(pool) == 0
  {
    ZeroedSum(pool);
    CandidatesCounted(pool);
  }

  /** From a fresh load current weights are the running deficit and stay bounded. */
  lemma PrefixQuota(pool: Pool, k: nat, i: nat)
    requires i < |pool| && Candidate(pool[i])
    requires Zeroed(pool) && NonNegativeWeights(pool) && TotalWeight(pool) >= 1
    ensures var W, n := TotalWeight(pool), CandidateCount(pool);
            var current := After(pool, k)[i].currentWeight;
            && current == k * pool[i].weight - W * Counts(pool, k)[i]
            && 1 - W <= current <= (n - 1) * (W - 1)
  {
    hide Pick, Chosen, TotalWeight, CandidateCount, CurrentSum, Floor;
    var W, n := TotalWeight(pool), CandidateCount(pool);
    assert HasCandidate(pool);
    FreshFloor(pool);
    RunWithinFloor(pool, 1 - W, k, i);
    ClosedForm(pool, k, i);
    NegatedProduct(n - 1, W - 1);
  }

  lemma NegatedProduct(a: int, b: int)
    ensures a * -b == -(a * b)
  {
  }

  /** No prefix of a run gives a gateway more than its rounded-up share of the picks. */
  lemma UpperQuota(pool: Pool, k: nat, i: nat)
    requires i < |pool| && Candidate(pool[i])
    requires Zeroed(pool) && NonNegativeWeights(pool) && TotalWeight(pool) >= 1
    ensures Counts(pool, k)[i] <= Ceiling(k * pool[i].weight, TotalWeight(pool))
  {
    hide Pick, Chosen, After;
    PrefixQuota(pool, k, i);
    CeilingBound(Counts(pool, k)[i], k * pool[i].weight, TotalWeight(pool));
  }

  /** Picks compose: k picks after m are the picks m+1 to m+k. */
  lemma {:induction false} RunsCompose(pool: Pool, m: nat, k: nat)
    ensures After(pool, m + k) == After(After(pool, m), k)
    ensures forall i :: 0 <= i < |pool| ==>
              Counts(pool, m + k)[i] == Counts(pool, m)[i] + Counts(After(pool, m), k)[i]
  {
    hide Pick, Chosen;
    if k > 0 {
      RunsCompose(pool, m, k - 1);
      assert m + k - 1 == m + (k - 1);
    }
  }

  predicate SharesMet(pool: Pool, counts: seq<int>)
    requires |counts| == |pool|
  {
    forall i :: 0 <= i < |pool| && Candidate(pool[i]) ==> counts[i] == pool[i].weight
  }

  /** Counts that reach every share and add up to the total weight are the shares. */
  lemma {:induction false} SharesPinned(pool: Pool, counts: seq<int>)
    requires |counts| == |pool|
    requires forall i :: 0 <= i < |pool| ==> counts[i] <= CandidateWeight(pool[i])
    requires Sum(counts, Identity) >= TotalWeight(pool)
    ensures forall i :: 0 <= i < |pool| ==> counts[i] == CandidateWeight(pool[i])
  {
    if pool != [] {
      var last := |pool| - 1;
      CountsBelowShares(pool[..last], counts[..last]);
      SharesPinned(pool[..last], counts[..last]);
      assert forall i :: 0 <= i < last ==> pool[..last][i] == pool[i] && counts[..last][i] == counts[i];
    }
  }

  lemma {:induction false} CountsBelowShares(pool: Pool, counts: seq<int>)
    requires |counts| == |pool|
    requires forall i :: 0 <= i < |pool| ==> counts[i] <= CandidateWeight(pool[i])
    ensures Sum(counts, Identity) <= TotalWeight(pool)
  {
    if pool != [] {
      var last := |pool| - 1;
      assert forall i :: 0 <= i < last ==> pool[..last][i] == pool[i] && counts[..last][i] == counts[i];
      CountsBelowShares(pool[..last], counts[..last]);
    }
  }

  /** Within one period nobody exceeds its weight. */
  lemma PeriodUpperBound(pool: Pool, i: nat)
    requires i < |pool| && Zeroed(pool) && NonNegativeWeights(pool) && TotalWeight(pool) >= 1
    ensures Counts(pool, TotalWeight(pool))[i] <= CandidateWeight(pool[i])
  {
    hide Pick, Chosen;
    var W := TotalWeight(pool);
    if Candidate(pool[i]) {
      UpperQuota(pool, W, i);
      CeilingExact(pool[i].weight, W);
    } else {
      BystandersUntouched(pool, W, i);
    }
  }

  lemma WeightlessPool(pool: Pool)
    requires NonNegativeWeights(pool) && TotalWeight(pool) == 0
    ensures forall i :: 0 <= i < |pool| ==> CandidateWeight(pool[i]) == 0
  {
    forall i | 0 <= i < |pool| ensures CandidateWeight(pool[i]) == 0 {
      assert forall g :: g in pool ==> CandidateWeight(g) >= 0;
      SumAtLeast(pool, i, CandidateWeight);
    }
  }

  /** W picks from a fresh load choose each gateway exactly as often as its weight says. */
  lemma ExactPeriod(pool: Pool)
    requires Zeroed(pool) && NonNegativeWeights(pool)
    ensures TotalWeight(pool) >= 0
    ensures SharesMet(pool, Counts(pool, TotalWeight(pool)))
    ensures After(pool, TotalWeight(pool)) == pool
  {
    hide Pick, Chosen;
    var W := TotalWeight(pool);
    assert forall g :: g in pool ==> CandidateWeight(g) >= 0;
    SumNonNegative(pool, CandidateWeight);
    if W == 0 {
      WeightlessPool(pool);
    } else {
      forall i | 0 <= i < |pool| ensures Counts(pool, W)[i] <= CandidateWeight(pool[i]) {
        PeriodUpperBound(pool, i);
      }
      WeightNeedsCandidate(pool);
      CountsTotal(pool, W);
      SharesPinned(pool, Counts(pool, W));
      forall i | 0 <= i < |pool| ensures After(pool, W)[i] == pool[i] {
        PeriodRestores(pool, i);
      }
    }
  }

  lemma {:induction false} WeightNeedsCandidate(pool: Pool)
    ensures TotalWeight(pool) != 0 ==> HasCandidate(pool)
  {
    if pool != [] {
      var last := |pool| - 1;
      WeightNeedsCandidate(pool[..last]);
      if HasCandidate(pool[..last]) {
        var i :| 0 <= i < last && Candidate(pool[..last][i]);
        assert Candidate(pool[i]);
      }
    }
  }

  lemma PeriodRestores(pool: Pool, i: nat)
    requires i < |pool| && Zeroed(pool) && TotalWeight(pool) >= 0
    requires Counts(pool, TotalWeight(pool))[i] == CandidateWeight(pool[i])
    ensures After(pool, TotalWeight(pool))[i] == pool[i]
  {
    hide Pick, Chosen;
    var W := TotalWeight(pool);
    RunKeepsMembers(pool, W);
    if Candidate(pool[i]) {
      ClosedForm(pool, W, i);
    } else {
      BystandersUntouched(pool, W, i);
    }
  }

  /** Every window of W consecutive picks holds exactly Weight picks of each gateway. */
  lemma EveryWindowIsFair(pool: Pool, k: nat, i: nat)
    requires i < |pool| && Candidate(pool[i])
    requires Zeroed(pool) && NonNegativeWeights(pool)
    ensures TotalWeight(pool) >= 0
    ensures Counts(pool, k + TotalWeight(pool))[i] - Counts(pool, k)[i] == pool[i].weight
    ensures After(pool, k + TotalWeight(pool)) == After(pool, k)
  {
    hide Pick, Chosen;
    ExactPeriod(pool);
    RunsCompose(pool, TotalWeight(pool), k);
    assert k + TotalWeight(pool) == TotalWeight(pool) + k;
  }

  /**
    UpdateGateway accepts any weight. Exact shares over one period hold precisely when
    no candidate carries a negative one.
   */
  lemma ExactPeriodCondition(pool: Pool)
    requires Zeroed(pool) && TotalWeight(pool) >= 0
    ensures SharesMet(pool, Counts(pool, TotalWeight(pool))) <==> NonNegativeWeights(pool)
  {
    hide Pick, Chosen;
    var W := TotalWeight(pool);
    if NonNegativeWeights(pool) {
      ExactPeriod(pool);
    } else {
      var i :| 0 <= i < |pool| && Candidate(pool[i]) && pool[i].weight < 0;
      CountsNonNegative(pool, W, i);
    }
  }

  // ---- When picks stay fair at all, whatever the weights ----

  /** How far the picks of i are ahead of its share after k of them, in units of the total weight. */
  function Lead(pool: Pool, k: nat, i: nat): int
    requires i < |pool|
  {
    TotalWeight(pool) * Counts(pool, k)[i] - k * pool[i].weight
  }

  /** Over every prefix the picks of each candidate stay this close to its share. */
  ghost predicate StaysWithin(pool: Pool, bound: nat) {
    forall k: nat, i :: 0 <= i < |pool| && Candidate(pool[i]) ==>
      0 - bound <= Lead(pool, k, i) <= bound
  }

  /** The first pick's choice carries the whole weight and no other candidate any. */
  predicate WinnerTakesAll(pool: Pool)
    requires HasCandidate(pool)
  {
    forall i :: 0 <= i < |pool| && Candidate(pool[i]) ==>
      pool[i].weight == if i == Chosen(pool) then TotalWeight(pool) else 0
  }

  /** A candidate of negative weight has picks that outgrow its share, unless the total is negative too. */
  lemma NegativeWeightDrifts(pool: Pool, bound: nat, i: nat)
    requires i < |pool| && Candidate(pool[i]) && pool[i].weight < 0 && TotalWeight(pool) >= 0
    ensures Lead(pool, bound + 1, i) > bound
  {
    CountsNonNegative(pool, bound + 1, i);
    MulMonotone(TotalWeight(pool), 0, Counts(pool, bound + 1)[i]);
    MulMonotone(bound + 1, pool[i].weight, -1);
  }

  /** Under a negative total a candidate of positive weight lags ever further behind its share. */
  lemma PositiveWeightLags(pool: Pool, bound: nat, i: nat)
    requires i < |pool| && Candidate(pool[i]) && pool[i].weight > 0 && TotalWeight(pool) < 0
    ensures Lead(pool, bound + 1, i) < 0 - bound
  {
    CountsNonNegative(pool, bound + 1, i);
    MulMonotone(Counts(pool, bound + 1)[i], TotalWeight(pool), 0);
    MulMonotone(bound + 1, 1, pool[i].weight);
  }

  predicate NoPositiveWeights(pool: Pool) {
    forall i :: 0 <= i < |pool| && Candidate(pool[i]) ==> pool[i].weight <= 0
  }

  /** Without positive weights the total is at most each single weight. */
  lemma {:induction false} TotalBelowEach(pool: Pool, i: nat)
    requires NoPositiveWeights(pool)
    ensures TotalWeight(pool) <= 0
    ensures i < |pool| ==> TotalWeight(pool) <= CandidateWeight(pool[i])
  {
    if pool != [] {
      var last := |pool| - 1;
      assert forall j :: 0 <= j < last ==> pool[..last][j] == pool[j];
      TotalBelowEach(pool[..last], i);
    }
  }

  /** Subtracting a negative total raises the winner above the rest, so it wins again. */
  lemma WinnerWinsAgain(pool: Pool)
    requires HasCandidate(pool) && NoPositiveWeights(pool)
    ensures HasCandidate(Pick(pool)) && Chosen(Pick(pool)) == Chosen(pool)
  {
    var b, raised, again := Chosen(pool), BumpAll(pool), BumpAll(Pick(pool));
    PickKeepsMembers(pool);
    BumpKeepsCandidates(pool);
    TotalBelowEach(pool, b);
    assert Candidate(Pick(pool)[b]);
    assert IsBest(raised, b);
    forall j | 0 <= j < |pool| && Candidate(pool[j])
      ensures j != b ==> again[j].currentWeight <= raised[j].currentWeight
      ensures again[b].currentWeight >= raised[b].currentWeight
    {
      PickMoves(pool, j);
      PickMoves(pool, b);
      assert Pick(pool)[j].weight == pool[j].weight;
    }
    assert IsBest(again, b);
    BumpKeepsCandidates(Pick(pool));
    BestIsUnique(again, b, Chosen(Pick(pool)));
  }

  /** Without positive weights the first choice is chosen for ever. */
  lemma {:induction false} OneWinner(pool: Pool, k: nat, i: nat)
    requires HasCandidate(pool) && NoPositiveWeights(pool) && i < |pool|
    ensures Counts(pool, k)[i] == if i == Chosen(pool) then k else 0
    ensures HasCandidate(After(pool, k)) && Chosen(After(pool, k)) == Chosen(pool)
  {
    hide Pick, Chosen;
    if k > 0 {
      OneWinner(pool, k - 1, i);
      var before := After(pool, k - 1);
      RunKeepsMembers(pool, k - 1);
      assert NoPositiveWeights(before);
      WinnerWinsAgain(before);
      CountsStep(pool, k - 1, i);
    }
  }

  lemma TotalBelowZero(pool: Pool)
    requires HasCandidate(pool) && TotalWeight(pool) < 0 && WinnerTakesAll(pool)
    ensures NoPositiveWeights(pool)
  {
  }

  lemma WinnerStaysFair(pool: Pool)
    requires HasCandidate(pool) && TotalWeight(pool) < 0 && WinnerTakesAll(pool)
    ensures StaysWithin(pool, 0)
  {
    TotalBelowZero(pool);
    hide Pick, Chosen, TotalWeight;
    forall k: nat, i | 0 <= i < |pool| && Candidate(pool[i])
      ensures Lead(pool, k, i) == 0
    {
      OneWinner(pool, k, i);
      EvenShare(TotalWeight(pool), k);
    }
  }

  lemma EvenShare(weight: int, k: nat)
    ensures weight * k - k * weight == 0 && weight * 0 - k * 0 == 0
  {
  }

  /** A winner that does not carry the whole weight drifts away from its share. */
  lemma WinnerDrifts(pool: Pool, bound: nat)
    requires HasCandidate(pool) && NoPositiveWeights(pool) && pool[Chosen(pool)].weight != TotalWeight(pool)
    ensures Lead(pool, bound + 1, Chosen(pool)) < 0 - bound
  {
    hide Pick, Chosen, TotalWeight;
    var b, k := Chosen(pool), bound + 1;
    OneWinner(pool, k, b);
    TotalBelowEach(pool, b);
    WinnerLead(TotalWeight(pool), pool[b].weight, k);
  }

  lemma WinnerLead(total: int, weight: int, k: nat)
    requires total < weight && k > 0
    ensures total * k - k * weight <= 0 - k
  {
    MulMonotone(k, total - weight, -1);
    assert k * (total - weight) == total * k - k * weight;
  }

  /** A winner that carries the whole of a total without positive weights leaves the others none. */
  lemma WholeWeight(pool: Pool, b: nat)
    requires NoPositiveWeights(pool) && b < |pool| && Candidate(pool[b]) && pool[b].weight == TotalWeight(pool)
    ensures forall i :: 0 <= i < |pool| && i != b && Candidate(pool[i]) ==> pool[i].weight == 0
  {
    var rest := pool[b := pool[b].(weight := 0)];
    SumUpdate(pool, b, rest[b], CandidateWeight);
    forall i | 0 <= i < |pool| && i != b && Candidate(pool[i]) ensures pool[i].weight == 0 {
      TotalBelowEach(rest, i);
      assert rest[i] == pool[i];
    }
  }

  /**
    Unfairness stays bounded if and only if no candidate weight is negative or, under a negative
    total, the first choice carries all of it: then it is chosen for ever, which is its share.
   */
  lemma FairExactlyWhen(pool: Pool)
    ensures (exists bound: nat :: StaysWithin(pool, bound))
            <==> if TotalWeight(pool) >= 0 then NonNegativeWeights(pool) else HasCandidate(pool) && WinnerTakesAll(pool)
  {
    WeightNeedsCandidate(pool);
    hide Pick, Chosen, StaysWithin, TotalWeight;
    if TotalWeight(pool) >= 0 {
      if NonNegativeWeights(pool) {
        FairWithSpread(pool);
      } else {
        forall bound: nat ensures !StaysWithin(pool, bound) {
          NegativeIsUnfair(pool, bound);
        }
      }
    } else if WinnerTakesAll(pool) {
      WinnerStaysFair(pool);
    } else {
      forall bound: nat ensures !StaysWithin(pool, bound) {
        OtherwiseUnfair(pool, bound);
      }
    }
  }

  lemma FairWithSpread(pool: Pool)
    requires NonNegativeWeights(pool)
    ensures exists bound: nat :: StaysWithin(pool, bound)
  {
    hide Pick, Chosen, Spread, TotalWeight;
    var bound: nat := if HasCandidate(pool) then Max(0, Spread(pool)) else 0;
    forall k: nat, i | 0 <= i < |pool| && Candidate(pool[i]) ensures 0 - bound <= Lead(pool, k, i) <= bound {
      BoundedUnfairness(pool, k, i);
    }
    assert StaysWithin(pool, bound);
  }

  lemma NegativeIsUnfair(pool: Pool, bound: nat)
    requires TotalWeight(pool) >= 0 && !NonNegativeWeights(pool)
    ensures !StaysWithin(pool, bound)
  {
    hide Pick, Chosen, TotalWeight, Lead;
    var i :| 0 <= i < |pool| && Candidate(pool[i]) && pool[i].weight < 0;
    NegativeWeightDrifts(pool, bound, i);
  }

  lemma OtherwiseUnfair(pool: Pool, bound: nat)
    requires HasCandidate(pool) && TotalWeight(pool) < 0 && !WinnerTakesAll(pool)
    ensures !StaysWithin(pool, bound)
  {
    hide Pick, TotalWeight, Lead;
    if NoPositiveWeights(pool) {
      if pool[Chosen(pool)].weight == TotalWeight(pool) {
        WholeWeight(pool, Chosen(pool));
        assert false;
      }
      WinnerDrifts(pool, bound);
    } else {
      hide Chosen;
      var i :| 0 <= i < |pool| && Candidate(pool[i]) && pool[i].weight > 0;
      PositiveWeightLags(pool, bound, i);
    }
  }

  /** A sole candidate gets exactly its share, whatever its weight and whatever it starts from. */
  lemma SoleCandidateIsFair(pool: Pool, b: nat, k: nat)
    requires b < |pool| && Candidate(pool[b]) && forall i :: 0 <= i < |pool| && Candidate(pool[i]) ==> i == b
    ensures Counts(pool, k)[b] == k && TotalWeight(pool) == pool[b].weight
  {
    hide Pick, Chosen;
    forall i | 0 <= i < |pool| && i != b ensures Counts(pool, k)[i] == 0 {
      BystandersUntouched(pool, k, i);
    }
    CountsTotal(pool, k);
    OnlyOne(Counts(pool, k), b);
    var weights := seq(|pool|, i requires 0 <= i < |pool| => CandidateWeight(pool[i]));
    SumCongruent(pool, weights, CandidateWeight, Identity);
    OnlyOne(weights, b);
  }

  lemma OnlyOne(xs: seq<int>, b: nat)
    requires b < |xs| && forall i :: 0 <= i < |xs| && i != b ==> xs[i] == 0
    ensures Sum(xs, Identity) == xs[b]
  {
    var none := xs[b := 0];
    SumUpdate(xs, b, 0, Identity);
    SumAllZero(none, Identity);
  }
}
