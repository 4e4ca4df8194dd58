/**
  B-leg selection: the failover pointers of the gateway table as chains, the bounded
  search along them, and how far that search has to go.
 */
module Failover {
  import opened Sequences
  import opened Registry

  predicate Available(row: Row) { row.healthy && row.enabled }

  /** The first at most h gateways reached from an id; a dangling id or a null ends the chain. */
  function Chain(table: seq<Row>, from: Option<int>, h: nat): (c: seq<Row>)
    ensures |c| <= h
    decreases h
  {
    if h == 0 || from.None? || Find(table, from.value).None? then []
    else
      var row := table[Find(table, from.value).value];
      [row] + Chain(table, row.failover, h - 1)
  }

  function FirstAvailable(rows: seq<Row>): (r: Option<Row>)
    ensures r.Some? <==> exists i :: 0 <= i < |rows| && Available(rows[i])
    ensures r.Some? ==> exists i :: 0 <= i < |rows| && rows[i] == r.value && Available(rows[i])
                                    && forall j :: 0 <= j < i ==> !Available(rows[j])
  {
    if rows == [] then None
    else if Available(rows[0]) then Some(rows[0])
    else
      var r := FirstAvailable(rows[1..]);
      assert forall i :: 1 <= i < |rows| ==> rows[i] == rows[1..][i - 1];
      r
  }

  lemma ChainStep(table: seq<Row>, from: Option<int>, h: nat)
    ensures h == 0 || from.None? || Find(table, from.value).None? ==> FirstAvailable(Chain(table, from, h)).None?
    ensures h > 0 && from.Some? && Find(table, from.value).Some? ==>
              var row := table[Find(table, from.value).value];
              FirstAvailable(Chain(table, from, h))
              == if Available(row) then Some(row) else FirstAvailable(Chain(table, row.failover, h - 1))
  {
    if h > 0 && from.Some? && Find(table, from.value).Some? {
      var row := table[Find(table, from.value).value];
      assert Chain(table, from, h)[1..] == Chain(table, row.failover, h - 1);
    }
  }

  // ---- How many hops are enough ----

  /** One failover step. */
  function Next(table: seq<Row>, at: Option<int>): Option<int> {
    if at.None? || Find(table, at.value).None? then None else table[Find(table, at.value).value].failover
  }

  function Hops(table: seq<Row>, from: Option<int>, k: nat): Option<int> {
    if k == 0 then from else Next(table, Hops(table, from, k - 1))
  }

  /** The k-th gateway on the chain, if the chain gets that far. */
  function Node(table: seq<Row>, from: Option<int>, k: nat): Option<Row> {
    var at := Hops(table, from, k);
    if at.None? || Find(table, at.value).None? then None else Some(table[Find(table, at.value).value])
  }

  /** The chain starts at the gateway with the given id, and each next one has the id its failover names. */
  lemma NodesFollowPointers(table: seq<Row>, from: Option<int>, k: nat)
    ensures Node(table, from, 0).Some? <==> from.Some? && exists i :: 0 <= i < |table| && table[i].id == from.value
    ensures Node(table, from, 0).Some? ==> Node(table, from, 0).value.id == from.value
    ensures Node(table, from, k + 1).Some? ==>
              && Node(table, from, k).Some?
              && Node(table, from, k).value.failover == Some(Node(table, from, k + 1).value.id)
    ensures Node(table, from, k).Some? && Node(table, from, k + 1).None? ==>
              var next := Node(table, from, k).value.failover;
              next.Some? ==> forall i :: 0 <= i < |table| ==> table[i].id != next.value
  {
  }

  lemma {:induction false} HopsCompose(table: seq<Row>, from: Option<int>, a: nat, b: nat)
    ensures Hops(table, from, a + b) == Hops(table, Hops(table, from, a), b)
  {
    if b > 0 {
      HopsCompose(table, from, a, b - 1);
      assert a + b - 1 == a + (b - 1);
    }
  }

  /** The chain lists the nodes in hop order, without gaps. */
  lemma {:induction false} ChainNodes(table: seq<Row>, from: Option<int>, h: nat, k: nat)
    requires k < h
    ensures k < |Chain(table, from, h)| <==> Node(table, from, k).Some?
    ensures k < |Chain(table, from, h)| ==> Node(table, from, k) == Some(Chain(table, from, h)[k])
    decreases k
  {
    if k > 0 {
      HopsCompose(table, from, 1, k - 1);
      assert Hops(table, from, 1) == Next(table, Hops(table, from, 0));
      if from.Some? && Find(table, from.value).Some? {
        ChainNodes(table, Next(table, from), h - 1, k - 1);
      } else {
        NothingPastTheEnd(table, k - 1);
      }
    }
  }

  lemma {:induction false} NothingPastTheEnd(table: seq<Row>, k: nat)
    ensures Hops(table, None, k).None?
  {
    if k > 0 {
      NothingPastTheEnd(table, k - 1);
    }
  }

  lemma {:induction false} EarlierNodesExist(table: seq<Row>, from: Option<int>, j: nat, k: nat)
    requires j <= k && Node(table, from, k).Some?
    ensures Node(table, from, j).Some?
  {
    if j < k {
      EarlierNodesExist(table, from, j, k - 1);
    }
  }

  /** None of the first h gateways on the chain is both healthy and enabled. */
  predicate NoneUpBefore(table: seq<Row>, from: Option<int>, h: nat) {
    forall k :: 0 <= k < h && Node(table, from, k).Some? ==>
      !(Node(table, from, k).value.healthy && Node(table, from, k).value.enabled)
  }

  /** What the first available gateway of a bounded chain is, node by node. */
  lemma SearchFindsNode(table: seq<Row>, from: Option<int>, h: nat)
    ensures var r := FirstAvailable(Chain(table, from, h));
            && (r.Some? ==> r.value in table && r.value.healthy && r.value.enabled)
            && (r.Some? ==> exists k :: 0 <= k < h && Node(table, from, k) == r && NoneUpBefore(table, from, k))
            && (r.None? ==> NoneUpBefore(table, from, h))
  {
    hide Chain, Node, FirstAvailable;
    var c := Chain(table, from, h);
    forall k | 0 <= k < h
      ensures k < |c| <==> Node(table, from, k).Some?
      ensures k < |c| ==> Node(table, from, k) == Some(c[k])
    {
      ChainNodes(table, from, h, k);
    }
    var r := FirstAvailable(c);
    if r.Some? {
      var i :| 0 <= i < |c| && c[i] == r.value && Available(c[i]) && forall j :: 0 <= j < i ==> !Available(c[j]);
      NodeIsRow(table, from, i);
      assert Node(table, from, i) == r && NoneUpBefore(table, from, i);
    }
  }

  lemma NodeIsRow(table: seq<Row>, from: Option<int>, k: nat)
    ensures Node(table, from, k).Some? ==> Node(table, from, k).value in table
  {
  }

  /** followFailover: walk the pointers, at most maxHops of them. */
  method FollowFailover(table: seq<Row>, start: Option<int>, maxHops: nat) returns (r: Option<Row>)
    ensures r == FirstAvailable(Chain(table, start, maxHops))
    ensures r.Some? ==> r.value in table && r.value.healthy && r.value.enabled
    ensures r.Some? ==> exists h :: 0 <= h < maxHops && Node(table, start, h) == r && NoneUpBefore(table, start, h)
    ensures r.None? ==> NoneUpBefore(table, start, maxHops)
  {
    SearchFindsNode(table, start, maxHops);
    hide Chain, FirstAvailable, Find, Node;
    var failoverID := start;
    var hops := 0;
    while hops < maxHops && failoverID.Some?
      invariant hops <= maxHops
      invariant FirstAvailable(Chain(table, start, maxHops)) == FirstAvailable(Chain(table, failoverID, maxHops - hops))
    {
      ChainStep(table, failoverID, maxHops - hops);
      var found := Find(table, failoverID.value);
      if found.None? {
        return None;
      }
      var row := table[found.value];
      if row.healthy && row.enabled {
        return Some(row);
      }
      failoverID := row.failover;
      hops := hops + 1;
    }
    ChainStep(table, failoverID, maxHops - hops);
    return None;
  }

  ghost function Ids(table: seq<Row>): set<int> { set i | 0 <= i < |table| :: table[i].id }

  lemma {:induction false} FewIds(table: seq<Row>)
    ensures |Ids(table)| <= |table|
  {
    if table == [] {
      assert Ids(table) == {};
    } else {
      var last := |table| - 1;
      FewIds(table[..last]);
      assert Ids(table) == Ids(table[..last]) + {table[last].id} by {
        assert forall i :: 0 <= i < last ==> table[..last][i] == table[i];
      }
    }
  }

  /** More nodes than rows means some gateway is visited twice. */
  lemma ChainRepeats(table: seq<Row>, from: Option<int>) returns (i: nat, j: nat)
    requires Node(table, from, |table|).Some?
    ensures i < j <= |table| && Hops(table, from, i) == Hops(table, from, j)
  {
    var n := |table|;
    forall m | 0 <= m <= n ensures Node(table, from, m).Some? {
      EarlierNodesExist(table, from, m, n);
    }
    var visited := seq(n + 1, m requires 0 <= m <= n && Node(table, from, m).Some? => Hops(table, from, m).value);
    forall x | x in visited ensures x in Ids(table) {
      var m :| 0 <= m <= n && visited[m] == x;
      assert Node(table, from, m).Some?;
    }
    FewIds(table);
    Pigeonhole(visited, Ids(table));
    i, j :| 0 <= i < j < |visited| && visited[i] == visited[j];
    assert Node(table, from, i).Some? && Node(table, from, j).Some?;
  }

  /** Whatever gateway a chain ever reaches, it reaches within as many hops as there are gateways. */
  lemma {:induction false} ReachedEarly(table: seq<Row>, from: Option<int>, k: nat) returns (e: nat)
    requires Node(table, from, k).Some?
    ensures e < |table| && Node(table, from, e) == Node(table, from, k)
    decreases k
  {
    if k < |table| {
      e := k;
    } else {
      EarlierNodesExist(table, from, |table|, k);
      var i, j := ChainRepeats(table, from);
      HopsCompose(table, from, i, k - j);
      HopsCompose(table, from, j, k - j);
      assert i + (k - j) < k && j + (k - j) == k;
      e := ReachedEarly(table, from, i + (k - j));
    }
  }

  /**
    With at least as many hops as gateways the search is complete even on cyclic pointers:
    it succeeds exactly when some chain of any length contains an available gateway.
   */
  lemma SearchIsComplete(table: seq<Row>, from: Option<int>, h: nat)
    requires h >= |table|
    ensures FirstAvailable(Chain(table, from, h)).Some?
            <==> exists k: nat :: Node(table, from, k).Some? && Available(Node(table, from, k).value)
  {
    var c := Chain(table, from, h);
    if i :| 0 <= i < |c| && Available(c[i]) {
      ChainNodes(table, from, h, i);
      assert Available(Node(table, from, i).value);
    }
    if k: nat :| Node(table, from, k).Some? && Available(Node(table, from, k).value) {
      var e := ReachedEarly(table, from, k);
      ChainNodes(table, from, h, e);
      assert Available(c[e]);
    }
  }

  // ---- PickBLeg ----

  const MAX_HOPS := 3
  const PREFIX_LENGTH := 3

  /** A row of gateway_prefixes. */
  datatype PrefixRow = PrefixRow(gatewayId: int, prefix: string, priority: int)

  datatype Selection =
    | Selected(gateway: Row)
    | NumberTooShort
    | PrefixNotFound
    | NoHealthyGateway

  /** What the prefix query may return: the enabled gateways of that prefix by priority, ties in any order. */
  ghost predicate QueryResult(table: seq<Row>, prefixes: seq<PrefixRow>, prefix: string, rows: seq<(Row, int)>) {
    && (forall i, j :: 0 <= i < j < |rows| ==> rows[i].1 <= rows[j].1)
    && (forall r :: r in rows <==>
          && r.0 in table && r.0.enabled
          && PrefixRow(r.0.id, prefix, r.1) in prefixes)
  }

  /** Every gateway PickBLeg looks at, in the order it does. */
  function SearchOrder(table: seq<Row>, rows: seq<(Row, int)>): seq<Row> {
    if rows == [] then []
    else [rows[0].0] + Chain(table, rows[0].0.failover, MAX_HOPS) + SearchOrder(table, rows[1..])
  }

  lemma {:induction false} FirstAvailableConcat(xs: seq<Row>, ys: seq<Row>)
    ensures FirstAvailable(xs + ys)
            == if FirstAvailable(xs).Some? then FirstAvailable(xs) else FirstAvailable(ys)
  {
    if xs == [] {
      assert xs + ys == ys;
    } else if !Available(xs[0]) {
      assert (xs + ys)[1..] == xs[1..] + ys;
      FirstAvailableConcat(xs[1..], ys);
    }
  }

  /** One row's contribution: itself, or the first available within its failover hops. */
  lemma RowContribution(table: seq<Row>, rows: seq<(Row, int)>)
    requires rows != [] && rows[0].0.enabled
    ensures var row := rows[0].0;
            var hops := FirstAvailable(Chain(table, row.failover, MAX_HOPS));
            FirstAvailable(SearchOrder(table, rows))
            == if row.healthy then Some(row)
               else if hops.Some? then hops
               else FirstAvailable(SearchOrder(table, rows[1..]))
  {
    var row := rows[0].0;
    var chain, rest := Chain(table, row.failover, MAX_HOPS), SearchOrder(table, rows[1..]);
    FirstAvailableConcat([row] + chain, rest);
    FirstAvailableConcat([row], chain);
  }

  /** The row and the three gateways its failover pointers lead to are all unhealthy or disabled. */
  predicate Exhausted(table: seq<Row>, row: Row) {
    !(row.healthy && row.enabled) && NoneUpBefore(table, row.failover, 3)
  }

  /** row answers for itself when it is up, otherwise one of its three failover gateways does. */
  ghost predicate AnsweredBy(table: seq<Row>, row: Row, gateway: Row) {
    if row.healthy && row.enabled then gateway == row
    else exists h :: 0 <= h < 3 && Node(table, row.failover, h) == Some(gateway) && NoneUpBefore(table, row.failover, h)
  }

  /** PickBLeg: the first available gateway in (priority row, hop) order, three hops a row. */
  method PickBLeg(table: seq<Row>, prefixes: seq<PrefixRow>, calledNumber: string, rows: seq<(Row, int)>)
    returns (r: Selection)
    requires |calledNumber| >= 3 ==> QueryResult(table, prefixes, calledNumber[..3], rows)
    ensures r == NumberTooShort <==> |calledNumber| < 3
    ensures |calledNumber| >= 3 ==>
              && (r.Selected? <==> FirstAvailable(SearchOrder(table, rows)).Some?)
              && (r.Selected? ==> FirstAvailable(SearchOrder(table, rows)) == Some(r.gateway))
              && (r.Selected? ==> r.gateway in table && r.gateway.healthy && r.gateway.enabled)
              && (r.Selected? ==> exists i :: 0 <= i < |rows| && AnsweredBy(table, rows[i].0, r.gateway)
                                              && forall j :: 0 <= j < i ==> Exhausted(table, rows[j].0))
              && (r == NoHealthyGateway <==> rows != [] && forall i :: 0 <= i < |rows| ==> Exhausted(table, rows[i].0))
              && (r == PrefixNotFound <==>
                    forall i, p :: 0 <= i < |table| && table[i].enabled ==>
                      PrefixRow(table[i].id, calledNumber[..3], p) !in prefixes)
  {
    if |calledNumber| < PREFIX_LENGTH {
      return NumberTooShort;
    }
    var matched := false;
    var i := 0;
    while i < |rows|
      invariant i <= |rows|
      invariant matched <==> i > 0
      invariant FirstAvailable(SearchOrder(table, rows)) == FirstAvailable(SearchOrder(table, rows[i..]))
      invariant forall j :: 0 <= j < i ==> Exhausted(table, rows[j].0)
    {
      matched := true;
      var row := rows[i].0;
      assert rows[i] in rows;
      assert rows[i..][0] == rows[i] && rows[i..][1..] == rows[i + 1..];
      RowContribution(table, rows[i..]);
      if row.healthy {
        return Selected(row);
      }
      var resp := FollowFailover(table, row.failover, MAX_HOPS);
      if resp.Some? {
        return Selected(resp.value);
      }
      i := i + 1;
    }
    assert rows[i..] == [] && FirstAvailable(SearchOrder(table, rows)).None?;
    if !matched {
      forall j, p | 0 <= j < |table| && table[j].enabled
        ensures PrefixRow(table[j].id, calledNumber[..PREFIX_LENGTH], p) !in prefixes
      {
        var r := (table[j], p);
        assert r !in rows && r.0 in table;
      }
      return PrefixNotFound;
    }
    assert rows[0] in rows;
    var k :| 0 <= k < |table| && table[k] == rows[0].0;
    assert PrefixRow(table[k].id, calledNumber[..PREFIX_LENGTH], rows[0].1) in prefixes;
    return NoHealthyGateway;
  }
}
