/**
  The WebSocket hub: per-user and admin indexes over connected clients, bounded send buffers,
  and what each client gets to see.
 */
module Hub {
  import opened Sequences

  const SEND_BUFFER := 256

  /** A call status event, addressed to the admins and to one user. */
  datatype StatusEvent = StatusEvent(userID: string, callId: int, status: string)

  /**
    A connection. buffer is its send channel; received is what writePump took from it, offered
    every event addressed to it while registered, overflowed whether one met a full buffer.
   */
  datatype Client = Client(userID: string, isAdmin: bool, joined: bool, registered: bool, closes: nat,
                           buffer: seq<StatusEvent>, received: seq<StatusEvent>,
                           offered: seq<StatusEvent>, overflowed: bool)

  function NewClient(userID: string, isAdmin: bool): Client {
    Client(userID, isAdmin, false, false, 0, [], [], [], false)
  }

  /** Who an event is for, by the flat set of registered clients. */
  predicate Addressed(c: Client, e: StatusEvent) {
    c.registered && (c.isAdmin || c.userID == e.userID)
  }

  // ---- One client, step by step ----

  function Registered(c: Client): Client { c.(joined := true, registered := true) }

  function Unregistered(c: Client): Client {
    if c.registered then c.(registered := false, closes := c.closes + 1) else c
  }

  /** The non-blocking send of a broadcast. */
  function Offer(c: Client, e: StatusEvent): Client {
    if |c.buffer| < SEND_BUFFER then c.(buffer := c.buffer + [e], offered := c.offered + [e])
    else c.(offered := c.offered + [e], overflowed := true)
  }

  function Drained(c: Client): Client {
    if c.buffer == [] then c else c.(buffer := c.buffer[1..], received := c.received + [c.buffer[0]])
  }

  // ---- All clients ----

  datatype Step =
    | Connect(userID: string, isAdmin: bool)
    | Register(i: nat)
    | Unregister(i: nat)
    | Broadcast(event: StatusEvent)
    | Drain(i: nat)

  /** Each client registers at most once; it may be unregistered any number of times. */
  predicate Enabled(conns: seq<Client>, step: Step) {
    match step
    case Connect(_, _) => true
    case Register(i) => i < |conns| && !conns[i].joined
    case Unregister(i) => i < |conns|
    case Broadcast(_) => true
    case Drain(i) => i < |conns|
  }

  function BroadcastTo(conns: seq<Client>, e: StatusEvent): (r: seq<Client>)
    ensures |r| == |conns|
    ensures forall i :: 0 <= i < |conns| ==> r[i] == if Addressed(conns[i], e) then Offer(conns[i], e) else conns[i]
  {
    seq(|conns|, i requires 0 <= i < |conns| => if Addressed(conns[i], e) then Offer(conns[i], e) else conns[i])
  }

  /** A registered admin, or client of the event's user, is sent the event unless 256 are waiting already. */
  predicate ReachedBy(before: Client, after: Client, e: StatusEvent) {
    if before.registered && (before.isAdmin || before.userID == e.userID) then
      && after == before.(buffer := after.buffer, offered := before.offered + [e], overflowed := after.overflowed)
      && after.buffer == (if |before.buffer| < 256 then before.buffer + [e] else before.buffer)
      && after.overflowed == (before.overflowed || |before.buffer| >= 256)
    else after == before
  }

  lemma BroadcastReaches(conns: seq<Client>, e: StatusEvent)
    ensures forall i :: 0 <= i < |conns| ==> ReachedBy(conns[i], BroadcastTo(conns, e)[i], e)
  {
  }

  function Apply(conns: seq<Client>, step: Step): seq<Client>
    requires Enabled(conns, step)
  {
    match step
    case Connect(userID, isAdmin) => conns + [NewClient(userID, isAdmin)]
    case Register(i) => conns[i := Registered(conns[i])]
    case Unregister(i) => conns[i := Unregistered(conns[i])]
    case Broadcast(e) => BroadcastTo(conns, e)
    case Drain(i) => conns[i := Drained(conns[i])]
  }

  predicate Possible(conns: seq<Client>, steps: seq<Step>)
    decreases |steps|
  {
    steps == [] || (Enabled(conns, steps[0]) && Possible(Apply(conns, steps[0]), steps[1..]))
  }

  function Run(conns: seq<Client>, steps: seq<Step>): seq<Client>
    requires Possible(conns, steps)
    decreases |steps|
  {
    if steps == [] then conns else Run(Apply(conns, steps[0]), steps[1..])
  }

  /** xs is ys with some elements left out. */
  predicate Subsequence<T(==)>(xs: seq<T>, ys: seq<T>) {
    if xs == [] then true
    else if ys == [] then false
    else
      (xs[|xs| - 1] == ys[|ys| - 1] && Subsequence(xs[..|xs| - 1], ys[..|ys| - 1]))
      || Subsequence(xs, ys[..|ys| - 1])
  }

  lemma SubsequenceGrows<T>(xs: seq<T>, ys: seq<T>, y: T)
    requires Subsequence(xs, ys)
    ensures Subsequence(xs, ys + [y]) && Subsequence(xs + [y], ys + [y])
  {
    assert (ys + [y])[..|ys|] == ys && (xs + [y])[..|xs|] == xs;
  }

  /** What was put on a client's channel, in order. */
  function Sent(c: Client): seq<StatusEvent> { c.received + c.buffer }

  /** A client's channel is closed at most once, after registration, and carries its events in order. */
  predicate Orderly(c: Client) {
    && c.closes == (if c.joined && !c.registered then 1 else 0)
    && (c.registered ==> c.joined)
    && |c.buffer| <= SEND_BUFFER
    && Subsequence(Sent(c), c.offered)
    && (if c.overflowed then |Sent(c)| < |c.offered| else Sent(c) == c.offered)
  }

  lemma OfferIsOrderly(c: Client, e: StatusEvent)
    requires Orderly(c)
    ensures Orderly(Offer(c, e))
  {
    SubsequenceGrows(Sent(c), c.offered, e);
    hide Subsequence;
    if |c.buffer| < SEND_BUFFER {
      assert Sent(Offer(c, e)) == Sent(c) + [e];
    }
  }

  lemma DrainIsOrderly(c: Client)
    requires Orderly(c)
    ensures Orderly(Drained(c)) && Sent(Drained(c)) == Sent(c)
  {
    if c.buffer != [] {
      assert c.received + [c.buffer[0]] + c.buffer[1..] == c.received + c.buffer;
    }
  }

  lemma ApplyKeepsOrderly(conns: seq<Client>, step: Step)
    requires Enabled(conns, step)
    requires forall i :: 0 <= i < |conns| ==> Orderly(conns[i])
    ensures forall i :: 0 <= i < |Apply(conns, step)| ==> Orderly(Apply(conns, step)[i])
  {
    hide Offer, Drained;
    match step
    case Connect(_, _) =>
    case Register(i) =>
    case Unregister(i) =>
    case Broadcast(e) =>
      hide Orderly;
      forall i | 0 <= i < |conns| ensures Orderly(BroadcastTo(conns, e)[i]) {
        OfferIsOrderly(conns[i], e);
      }
    case Drain(i) =>
      hide Orderly;
      DrainIsOrderly(conns[i]);
  }

  lemma {:induction false} ClientsStayOrderly(conns: seq<Client>, steps: seq<Step>)
    requires Possible(conns, steps)
    requires forall i :: 0 <= i < |conns| ==> Orderly(conns[i])
    ensures forall i :: 0 <= i < |Run(conns, steps)| ==> Orderly(Run(conns, steps)[i])
    decreases |steps|
  {
    hide Orderly, Apply, Enabled;
    if steps != [] {
      ApplyKeepsOrderly(conns, steps[0]);
      ClientsStayOrderly(Apply(conns, steps[0]), steps[1..]);
    }
  }

  // ---- What each client gets of a run's broadcasts ----

  /** The step is a broadcast that reaches connection i, registered at that moment. */
  predicate Reaches(conns: seq<Client>, step: Step, i: nat) {
    step.Broadcast? && i < |conns| && Addressed(conns[i], step.event)
  }

  /** The run's broadcasts addressed to connection i while it was registered, in order. */
  function Heard(conns: seq<Client>, steps: seq<Step>, i: nat): seq<StatusEvent>
    requires Possible(conns, steps)
    decreases |steps|
  {
    if steps == [] then []
    else (if Reaches(conns, steps[0], i) then [steps[0].event] else []) + Heard(Apply(conns, steps[0]), steps[1..], i)
  }

  /** One of them met a full buffer. */
  predicate MetFull(conns: seq<Client>, steps: seq<Step>, i: nat)
    requires Possible(conns, steps)
    decreases |steps|
  {
    steps != [] &&
    ((Reaches(conns, steps[0], i) && |conns[i].buffer| >= SEND_BUFFER) ||
     MetFull(Apply(conns, steps[0]), steps[1..], i))
  }

  function OfferedTo(conns: seq<Client>, i: nat): seq<StatusEvent> { if i < |conns| then conns[i].offered else [] }

  predicate OverflowedAt(conns: seq<Client>, i: nat) { i < |conns| && conns[i].overflowed }

  lemma StepHeard(conns: seq<Client>, step: Step, i: nat)
    requires Enabled(conns, step)
    ensures OfferedTo(Apply(conns, step), i)
            == OfferedTo(conns, i) + (if Reaches(conns, step, i) then [step.event] else [])
    ensures OverflowedAt(Apply(conns, step), i)
            <==> OverflowedAt(conns, i) || (Reaches(conns, step, i) && |conns[i].buffer| >= SEND_BUFFER)
  {
  }

  lemma {:induction false} RunHeard(conns: seq<Client>, steps: seq<Step>, i: nat)
    requires Possible(conns, steps)
    ensures OfferedTo(Run(conns, steps), i) == OfferedTo(conns, i) + Heard(conns, steps, i)
    ensures OverflowedAt(Run(conns, steps), i) <==> OverflowedAt(conns, i) || MetFull(conns, steps, i)
    decreases |steps|
  {
    hide Apply, Enabled, OfferedTo, OverflowedAt, Reaches;
    if steps != [] {
      StepHeard(conns, steps[0], i);
      RunHeard(Apply(conns, steps[0]), steps[1..], i);
    }
  }

  /**
    Over every run: no channel is closed twice, and what a client was sent is an in-order
    subsequence of the broadcasts addressed to it while it was registered, all of them if and
    only if none met a full buffer.
   */
  lemma ClientsGetTheirEvents(steps: seq<Step>, i: nat)
    requires Possible([], steps) && i < |Run([], steps)|
    ensures var c := Run([], steps)[i];
            && Subsequence(Sent(c), Heard([], steps, i))
            && (Sent(c) == Heard([], steps, i) <==> !MetFull([], steps, i))
            && c.closes == (if c.joined && !c.registered then 1 else 0)
            && |c.buffer| <= SEND_BUFFER
  {
    hide Possible, Run, Heard, MetFull, Subsequence;
    ClientsStayOrderly([], steps);
    RunHeard([], steps, i);
    assert [] + Heard([], steps, i) == Heard([], steps, i);
    assert Orderly(Run([], steps)[i]);
  }

  // ---- The hub with its indexes ----

  predicate InBucket(clients: map<string, set<nat>>, u: string, i: nat) {
    u in clients && i in clients[u]
  }

  predicate IsAdmin(conns: seq<Client>, i: nat) {
    i < |conns| && conns[i].registered && conns[i].isAdmin
  }

  predicate IsUser(conns: seq<Client>, u: string, i: nat) {
    i < |conns| && conns[i].registered && !conns[i].isAdmin && conns[i].userID == u
  }

  /** Both indexes are the filter of the registered clients, and no bucket is empty. */
  ghost predicate Indexes(clients: map<string, set<nat>>, adminConns: set<nat>, conns: seq<Client>) {
    && (forall i: nat :: i in adminConns <==> IsAdmin(conns, i))
    && (forall u: string, i: nat :: InBucket(clients, u, i) <==> IsUser(conns, u, i))
    && (forall u :: u in clients ==> clients[u] != {})
  }

  /** Being in the right index is the same as being registered. */
  lemma IndexedIffRegistered(clients: map<string, set<nat>>, adminConns: set<nat>, conns: seq<Client>, i: nat)
    requires Indexes(clients, adminConns, conns) && i < |conns|
    ensures conns[i].registered <==> if conns[i].isAdmin then i in adminConns else InBucket(clients, conns[i].userID, i)
  {
    assert IsAdmin(conns, i) <==> i in adminConns;
    assert InBucket(clients, conns[i].userID, i) <==> IsUser(conns, conns[i].userID, i);
  }

  /** Everyone an index names is registered. */
  lemma IndexedAreRegistered(clients: map<string, set<nat>>, adminConns: set<nat>, conns: seq<Client>, u: string)
    requires Indexes(clients, adminConns, conns)
    ensures forall i: nat :: i in adminConns ==> i < |conns| && conns[i].registered && conns[i].isAdmin
    ensures u in clients ==> forall i: nat :: i in clients[u] ==>
              i < |conns| && conns[i].registered && !conns[i].isAdmin && conns[i].userID == u
  {
    forall i: nat | i in adminConns ensures IsAdmin(conns, i) {}
    if u in clients {
      forall i: nat | i in clients[u] ensures IsUser(conns, u, i) {
        assert InBucket(clients, u, i);
      }
    }
  }

  lemma AddressedIffIndexed(clients: map<string, set<nat>>, adminConns: set<nat>, conns: seq<Client>,
                            i: nat, e: StatusEvent)
    requires Indexes(clients, adminConns, conns) && i < |conns|
    ensures Addressed(conns[i], e) <==> i in adminConns || InBucket(clients, e.userID, i)
    ensures !(i in adminConns && InBucket(clients, e.userID, i))
  {
    assert IsAdmin(conns, i) <==> i in adminConns;
    assert InBucket(clients, e.userID, i) <==> IsUser(conns, e.userID, i);
  }

  /** The indexes depend on who is registered as what, not on the traffic. */
  lemma TrafficKeepsIndexes(clients: map<string, set<nat>>, adminConns: set<nat>, conns: seq<Client>,
                            after: seq<Client>)
    requires Indexes(clients, adminConns, conns) && |after| >= |conns|
    requires forall i :: 0 <= i < |after| ==>
               if i < |conns| then
                 && after[i].registered == conns[i].registered && after[i].isAdmin == conns[i].isAdmin
                 && after[i].userID == conns[i].userID
               else !after[i].registered
    ensures Indexes(clients, adminConns, after)
  {
    forall i: nat ensures IsAdmin(after, i) <==> IsAdmin(conns, i) {}
    forall u: string, i: nat ensures IsUser(after, u, i) <==> IsUser(conns, u, i) {}
  }

  /** Adding to or removing from the index a client belongs to follows its registration. */
  lemma MembershipKeepsIndexes(clients: map<string, set<nat>>, adminConns: set<nat>, conns: seq<Client>,
                               i: nat, c: Client, newClients: map<string, set<nat>>, newAdmins: set<nat>)
    requires Indexes(clients, adminConns, conns) && i < |conns|
    requires c.isAdmin == conns[i].isAdmin && c.userID == conns[i].userID
    requires newAdmins == if !c.isAdmin then adminConns else if c.registered then adminConns + {i} else adminConns - {i}
    requires forall u: string, j: nat :: InBucket(newClients, u, j) <==>
               if j == i && u == c.userID && !c.isAdmin then c.registered else InBucket(clients, u, j)
    requires forall u :: u in newClients ==> newClients[u] != {}
    ensures Indexes(newClients, newAdmins, conns[i := c])
  {
    var after := conns[i := c];
    forall j: nat ensures j in newAdmins <==> IsAdmin(after, j) {
      assert j in adminConns <==> IsAdmin(conns, j);
    }
    forall u: string, j: nat ensures InBucket(newClients, u, j) <==> IsUser(after, u, j) {
      assert InBucket(clients, u, j) <==> IsUser(conns, u, j);
    }
  }

  lemma OfferKeepsIdentity(c: Client, e: StatusEvent)
    ensures Offer(c, e).registered == c.registered && Offer(c, e).isAdmin == c.isAdmin && Offer(c, e).userID == c.userID
  {
  }

  class WsHub {
    var clients: map<string, set<nat>>
    var adminConns: set<nat>
    var conns: seq<Client>

    constructor ()
      ensures Valid() && conns == []
    {
      clients, adminConns, conns := map[], {}, [];
    }

    ghost predicate Valid()
      reads this
    {
      (forall i :: 0 <= i < |conns| ==> Orderly(conns[i])) && Indexes(clients, adminConns, conns)
    }

    method OnConnect(userID: string, isAdmin: bool) returns (i: nat)
      requires Valid()
      modifies this`conns
      ensures Valid() && i == |old(conns)| && conns == Apply(old(conns), Connect(userID, isAdmin))
      ensures conns == old(conns) + [conns[i]]
      ensures conns[i].userID == userID && conns[i].isAdmin == isAdmin
      ensures !conns[i].joined && !conns[i].registered && conns[i].closes == 0 && conns[i].buffer == []
    {
      hide Orderly;
      ApplyKeepsOrderly(conns, Connect(userID, isAdmin));
      i := |conns|;
      conns := conns + [NewClient(userID, isAdmin)];
      assert conns == Apply(old(conns), Connect(userID, isAdmin));
      TrafficKeepsIndexes(clients, adminConns, old(conns), conns);
    }

    method OnRegister(i: nat)
      requires Valid() && i < |conns| && !conns[i].joined
      modifies this
      ensures Valid() && conns == Apply(old(conns), Register(i))
      ensures conns == old(conns)[i := old(conns)[i].(joined := true, registered := true)]
    {
      hide Orderly;
      ApplyKeepsOrderly(conns, Register(i));
      var client := conns[i];
      if client.isAdmin {
        adminConns := adminConns + {i};
      } else {
        if client.userID !in clients {
          clients := clients[client.userID := {}];
        }
        clients := clients[client.userID := clients[client.userID] + {i}];
      }
      conns := conns[i := Registered(client)];
      assert conns == Apply(old(conns), Register(i));
      MembershipKeepsIndexes(old(clients), old(adminConns), old(conns), i, Registered(client), clients, adminConns);
    }

    /** Only a client found in its index is removed, and only then is its channel closed. */
    method OnUnregister(i: nat) returns (closed: bool)
      requires Valid() && i < |conns|
      modifies this
      ensures Valid() && conns == Apply(old(conns), Unregister(i))
      ensures closed <==> old(conns)[i].registered
      ensures closed ==> old(conns)[i].closes == 0 && conns[i].closes == 1
      ensures !conns[i].registered && conns == old(conns)[i := conns[i]]
      ensures conns[i].buffer == old(conns)[i].buffer
    {
      ApplyKeepsOrderly(conns, Unregister(i));
      var client := conns[i];
      assert Orderly(client);
      IndexedIffRegistered(clients, adminConns, conns, i);
      hide Orderly;
      closed := false;
      if client.isAdmin {
        if i in adminConns {
          adminConns := adminConns - {i};
          closed := true;
        }
      } else if client.userID in clients {
        var bucket := clients[client.userID];
        if i in bucket {
          bucket := bucket - {i};
          closed := true;
          clients := clients[client.userID := bucket];
          if bucket == {} {
            assert old(clients)[client.userID] <= bucket + {i};
            clients := clients - {client.userID};
          }
        }
      }
      if closed {
        conns := conns[i := client.(registered := false, closes := client.closes + 1)];
        MembershipKeepsIndexes(old(clients), old(adminConns), old(conns), i, conns[i], clients, adminConns);
      } else {
        assert conns[i := conns[i]] == conns;
      }
    }

    /** A broadcast reaches exactly the registered clients it is addressed to, each once. */
    method OnBroadcast(event: StatusEvent)
      requires Valid()
      modifies this`conns
      ensures Valid() && conns == Apply(old(conns), Broadcast(event))
      ensures |conns| == |old(conns)|
      ensures forall i :: 0 <= i < |conns| ==> ReachedBy(old(conns)[i], conns[i], event)
    {
      hide Offer, Orderly, Indexes, ReachedBy;
      ghost var before := conns;
      IndexedAreRegistered(clients, adminConns, before, event.userID);
      forall i: nat | i < |before| ensures Addressed(before[i], event)
          <==> i in adminConns || InBucket(clients, event.userID, i)
      {
        AddressedIffIndexed(clients, adminConns, before, i, event);
      }
      forall i: nat | i < |before| ensures Offer(before[i], event).registered == before[i].registered
          && Offer(before[i], event).isAdmin == before[i].isAdmin && Offer(before[i], event).userID == before[i].userID
      {
        OfferKeepsIdentity(before[i], event);
      }
      SendToEach(adminConns, event);
      if event.userID in clients {
        SendToEach(clients[event.userID], event);
      }
      assert conns == BroadcastTo(before, event);
      ApplyKeepsOrderly(before, Broadcast(event));
      assert conns == Apply(before, Broadcast(event));
      TrafficKeepsIndexes(clients, adminConns, before, conns);
      BroadcastReaches(before, event);
    }

    /** The non-blocking send to every member of one set, in any order; none of them is closed. */
    method SendToEach(targets: set<nat>, event: StatusEvent)
      requires forall i: nat :: i in targets ==> i < |conns| && conns[i].registered
      modifies this`conns
      ensures |conns| == |old(conns)|
      ensures forall i :: 0 <= i < |conns| ==>
                conns[i] == if i in targets then Offer(old(conns)[i], event) else old(conns)[i]
    {
      var rest := targets;
      while rest != {}
        invariant rest <= targets && |conns| == |old(conns)|
        invariant forall i :: 0 <= i < |conns| ==>
                    conns[i] == if i in targets - rest then Offer(old(conns)[i], event) else old(conns)[i]
      {
        var i :| i in rest;
        var client := conns[i];
        assert client.registered;
        if |client.buffer| < SEND_BUFFER {
          client := client.(buffer := client.buffer + [event]);
        } else {
          client := client.(overflowed := true);
        }
        conns := conns[i := client.(offered := client.offered + [event])];
        rest := rest - {i};
      }
    }

    /** writePump takes the next message, if there is one. */
    method TakeMessage(i: nat) returns (message: Option<StatusEvent>)
      requires Valid() && i < |conns|
      modifies this`conns
      ensures Valid() && conns == Apply(old(conns), Drain(i))
      ensures message == if old(conns)[i].buffer == [] then None else Some(old(conns)[i].buffer[0])
      ensures conns == old(conns)[i := conns[i]]
      ensures if message.None? then conns[i] == old(conns)[i]
              else conns[i].buffer == old(conns)[i].buffer[1..] &&
                   conns[i].received == old(conns)[i].received + [message.value]
    {
      hide Orderly;
      var client := conns[i];
      ghost var before := conns;
      ApplyKeepsOrderly(before, Drain(i));
      if client.buffer == [] {
        assert conns[i := conns[i]] == conns;
        return None;
      }
      conns := conns[i := client.(buffer := client.buffer[1..], received := client.received + [client.buffer[0]])];
      assert conns == Apply(before, Drain(i));
      TrafficKeepsIndexes(clients, adminConns, before, conns);
      return Some(client.buffer[0]);
    }
  }
}
