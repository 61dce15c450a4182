/** The messages a stream publishes to its subscribers. */
module Messages {
  import opened Wrappers

  datatype ServerMessage =
    | Reading(bucketId: nat, tsCloseNs: nat, tradesInBucket: nat, vpin: Option<real>, vpinCdf: Option<real>)
    | Heartbeat(tsNs: nat)
    | Error(message: string)
}

/**
 One stream: a single publisher that records and sends every message, and any number of connections that
 subscribe, read the last recorded message and forward what they receive. Every step is one atomic action;
 a run is any interleaving of them. Messages are numbered in the order their publication begins.

 The order of the two halves of a publication and of the two halves of a subscription is a parameter, so
 that what depends on it can be said.
 */
module StreamProtocol {
  import opened Wrappers
  import opened VolumeClock
  import opened Messages

  datatype Order = Order(recordFirst: bool, subscribeFirst: bool)

  /** The service records before it sends, and subscribes before it reads the snapshot. */
  const SERVICE: Order := Order(true, true)

  datatype Event = Forwarded(index: nat) | Lagged(missed: nat)

  /** A connection. `snapshot` is how many messages had been recorded when it read the last one;
      `sending` holds while the snapshot is being written, under the read lock. */
  datatype Connection = Connection(
    subscribed: bool, snapshot: Option<nat>, sending: bool, start: nat, next: nat, events: seq<Event>)

  const ACCEPTED: Connection := Connection(false, None, false, 0, 0, [])

  /** `recorded` messages have been stored in the last-message cell, `sent` have entered the channel. */
  datatype System = System(log: seq<ServerMessage>, recorded: nat, sent: nat, connections: map<nat, Connection>)

  const INIT: System := System([], 0, 0, map[])

  datatype Step =
    | Begin(msg: ServerMessage)
    | Finish
    | Accept(id: nat)
    | Subscribe(id: nat)
    | ReadSnapshot(id: nat)
    | WriteSnapshot(id: nat)
    | Receive(id: nat)

  predicate NobodyReading(s: System) {
    forall id <- s.connections :: !s.connections[id].sending
  }

  predicate Idle(s: System) {
    s.recorded == s.sent == |s.log|
  }

  predicate Enabled(s: System, step: Step, order: Order) {
    match step
    case Begin(_) => Idle(s) && (order.recordFirst ==> NobodyReading(s))
    case Finish => !Idle(s) && (!order.recordFirst ==> NobodyReading(s))
    case Accept(id) => id !in s.connections
    case Subscribe(id) =>
      && id in s.connections
      && var c := s.connections[id];
         !c.subscribed && !c.sending && (!order.subscribeFirst ==> c.snapshot.Some?)
    case ReadSnapshot(id) =>
      && id in s.connections
      && var c := s.connections[id];
         c.snapshot.None? && (order.subscribeFirst ==> c.subscribed)
    case WriteSnapshot(id) => id in s.connections && s.connections[id].sending
    case Receive(id) =>
      && id in s.connections
      && var c := s.connections[id];
         c.subscribed && c.snapshot.Some? && !c.sending && c.next < s.sent
  }

  /** One receive from a channel that keeps the last `capacity` messages: the next one, or word of how
      many were overwritten. */
  function Received(c: Connection, sent: nat, capacity: nat): Connection {
    if sent > c.next + capacity then
      c.(next := sent - capacity, events := c.events + [Lagged(sent - capacity - c.next)])
    else c.(next := c.next + 1, events := c.events + [Forwarded(c.next)])
  }

  function Next(s: System, step: Step, order: Order, capacity: nat): System
    requires Enabled(s, step, order)
  {
    match step
    case Begin(msg) =>
      if order.recordFirst then s.(log := s.log + [msg], recorded := s.recorded + 1)
      else s.(log := s.log + [msg], sent := s.sent + 1)
    case Finish =>
      if order.recordFirst then s.(sent := s.sent + 1) else s.(recorded := s.recorded + 1)
    case Accept(id) => s.(connections := s.connections[id := ACCEPTED])
    case Subscribe(id) =>
      var c := s.connections[id];
      s.(connections := s.connections[id := c.(subscribed := true, start := s.sent, next := s.sent)])
    case ReadSnapshot(id) =>
      var c := s.connections[id];
      s.(connections := s.connections[id := c.(snapshot := Some(s.recorded), sending := s.recorded > 0)])
    case WriteSnapshot(id) =>
      s.(connections := s.connections[id := s.connections[id].(sending := false)])
    case Receive(id) =>
      s.(connections := s.connections[id := Received(s.connections[id], s.sent, capacity)])
  }

  /** The state a run ends in, if every step of it was possible. */
  function Execute(steps: seq<Step>, order: Order, capacity: nat): Option<System> {
    if steps == [] then Some(INIT)
    else
      match Execute(steps[..|steps| - 1], order, capacity)
      case None => None
      case Some(s) =>
        var step := steps[|steps| - 1];
        if Enabled(s, step, order) then Some(Next(s, step, order, capacity)) else None
  }

  // ---- What every run keeps

  /** The events lead from `start` to `next`: each forwarded message is the next one, each lag skips
      exactly as many as it says. */
  ghost predicate Paced(events: seq<Event>, start: nat, next: nat) {
    if events == [] then start == next
    else
      var front := events[..|events| - 1];
      match events[|events| - 1]
      case Forwarded(i) => i + 1 == next && Paced(front, start, i)
      case Lagged(n) => 0 < n <= next && Paced(front, start, next - n)
  }

  ghost predicate ConnectionOk(c: Connection, s: System) {
    && (!c.subscribed ==> c.events == [])
    && (c.subscribed ==> Paced(c.events, c.start, c.next) && c.start <= c.next <= s.sent)
    && (c.snapshot.Some? ==> c.subscribed && c.start <= c.snapshot.value <= s.recorded)
    && (c.sending ==> c.snapshot == Some(s.recorded))
  }

  ghost predicate SystemOk(s: System) {
    && s.sent <= s.recorded <= s.sent + 1 && s.recorded == |s.log|
    && forall id <- s.connections :: ConnectionOk(s.connections[id], s)
  }

  lemma PacedSnoc(events: seq<Event>, e: Event, start: nat, next: nat)
    requires Paced(events, start, next)
    ensures e == Forwarded(next) ==> Paced(events + [e], start, next + 1)
    ensures e.Lagged? && e.missed > 0 ==> Paced(events + [e], start, next + e.missed)
  {
    assert (events + [e])[..|events|] == events;
  }

  lemma ReceivedPaced(c: Connection, sent: nat, capacity: nat)
    requires Paced(c.events, c.start, c.next) && c.start <= c.next < sent
    ensures var c' := Received(c, sent, capacity);
            Paced(c'.events, c'.start, c'.next) && c'.start <= c'.next <= sent
  {
    PacedSnoc(c.events, Last(Received(c, sent, capacity).events), c.start, c.next);
    hide Paced;
  }

  lemma StepKeepsConnectionOk(s: System, step: Step, capacity: nat, id: nat)
    requires SystemOk(s) && Enabled(s, step, SERVICE) && id in Next(s, step, SERVICE, capacity).connections
    ensures ConnectionOk(Next(s, step, SERVICE, capacity).connections[id], Next(s, step, SERVICE, capacity))
  {
    if id in s.connections {
      var c := s.connections[id];
      assert ConnectionOk(c, s);
      if step == Receive(id) {
        ReceivedPaced(c, s.sent, capacity);
      }
      hide Received;
    }
  }

  lemma StepKeepsOk(s: System, step: Step, capacity: nat)
    requires SystemOk(s) && Enabled(s, step, SERVICE)
    ensures SystemOk(Next(s, step, SERVICE, capacity))
  {
    var s' := Next(s, step, SERVICE, capacity);
    assert s'.sent <= s'.recorded <= s'.sent + 1 && s'.recorded == |s'.log|;
    hide Next, ConnectionOk, Enabled;
    forall id | id in s'.connections
      ensures ConnectionOk(s'.connections[id], s')
    {
      StepKeepsConnectionOk(s, step, capacity, id);
    }
  }

  lemma {:induction false} RunsStayOk(steps: seq<Step>, capacity: nat)
    ensures Execute(steps, SERVICE, capacity).Some? ==> SystemOk(Execute(steps, SERVICE, capacity).value)
  {
    if steps != [] {
      var front := steps[..|steps| - 1];
      RunsStayOk(front, capacity);
      if Execute(steps, SERVICE, capacity).Some? {
        StepKeepsOk(Execute(front, SERVICE, capacity).value, steps[|steps| - 1], capacity);
      }
    }
  }

  /** A connection's starting point is what had been sent when it subscribed, and its snapshot what had been
      recorded when it read it; neither changes later in the run. */
  lemma {:induction false} PointsAreKept(steps: seq<Step>, k: nat, id: nat, capacity: nat)
    requires Execute(steps, SERVICE, capacity).Some? && k < |steps|
    ensures Execute(steps[..k], SERVICE, capacity).Some?
    ensures var s, before := Execute(steps, SERVICE, capacity).value, Execute(steps[..k], SERVICE, capacity).value;
            && (steps[k] == Subscribe(id) ==>
                  id in s.connections && s.connections[id].subscribed && s.connections[id].start == before.sent)
            && (steps[k] == ReadSnapshot(id) ==>
                  id in s.connections && s.connections[id].snapshot == Some(before.recorded))
    decreases |steps|
  {
    var front := steps[..|steps| - 1];
    if k == |steps| - 1 {
      assert steps[..k] == front;
    } else {
      PointsAreKept(front, k, id, capacity);
      assert front[..k] == steps[..k];
    }
  }

  // ---- Catching up

  ghost predicate NeverLagged(c: Connection) {
    forall i :: 0 <= i < |c.events| ==> c.events[i].Forwarded?
  }

  /** Message `i` reached the client, as the snapshot or forwarded. */
  ghost predicate Delivered(c: Connection, i: nat) {
    c.snapshot == Some(i + 1) || Forwarded(i) in c.events
  }

  /** Nothing between the snapshot and the connection's position is missing. */
  ghost predicate NoHole(c: Connection)
    requires c.snapshot.Some?
  {
    forall i: nat :: c.snapshot.value <= i + 1 && i < c.next ==> Delivered(c, i)
  }

  lemma {:induction false} LagFreeEvents(events: seq<Event>, start: nat, next: nat)
    requires Paced(events, start, next) && forall i :: 0 <= i < |events| ==> events[i].Forwarded?
    ensures next == start + |events|
    ensures forall i :: 0 <= i < |events| ==> events[i] == Forwarded(start + i)
  {
    if events != [] {
      LagFreeEvents(events[..|events| - 1], start, next - 1);
    }
  }

  /** Forwarded from the subscription point on, in order and once each; the snapshot no older than the
      message just before that point; nothing missing. So the snapshot alone can be seen twice. */
  ghost predicate CaughtUp(c: Connection)
    requires c.snapshot.Some?
  {
    && |c.events| == c.next - c.start
    && (forall i :: 0 <= i < |c.events| ==> c.events[i] == Forwarded(c.start + i))
    && c.start <= c.snapshot.value
    && NoHole(c)
  }

  lemma ConnectionCaughtUp(c: Connection, s: System)
    requires ConnectionOk(c, s) && c.subscribed && c.snapshot.Some? && NeverLagged(c)
    ensures CaughtUp(c)
  {
    LagFreeEvents(c.events, c.start, c.next);
    hide Paced;
    forall i: nat | c.snapshot.value <= i + 1 && i < c.next
      ensures Delivered(c, i)
    {
      if c.start <= i {
        assert c.events[i - c.start] == Forwarded(i);
      }
    }
  }

  /** In every run, every connection that never lagged is caught up. */
  lemma CatchUpHasNoHole(steps: seq<Step>, capacity: nat, id: nat)
    requires Execute(steps, SERVICE, capacity).Some?
    requires id in Execute(steps, SERVICE, capacity).value.connections
    ensures var c := Execute(steps, SERVICE, capacity).value.connections[id];
            c.subscribed && c.snapshot.Some? && NeverLagged(c) ==> CaughtUp(c)
  {
    RunsStayOk(steps, capacity);
    hide Execute, ConnectionOk, CaughtUp, NeverLagged;
    var s := Execute(steps, SERVICE, capacity).value;
    var c := s.connections[id];
    if c.subscribed && c.snapshot.Some? && NeverLagged(c) {
      ConnectionCaughtUp(c, s);
    }
  }

  /** In every run, a snapshot being written is still the last recorded message, and no step that is then
      possible records another: the read guard is held until the write ends. */
  lemma SnapshotHoldsRecorder(steps: seq<Step>, capacity: nat, id: nat)
    requires Execute(steps, SERVICE, capacity).Some?
    requires var s := Execute(steps, SERVICE, capacity).value;
             id in s.connections && s.connections[id].sending
    ensures var s := Execute(steps, SERVICE, capacity).value;
            && s.connections[id].snapshot == Some(s.recorded)
            && forall step :: Enabled(s, step, SERVICE) ==> Next(s, step, SERVICE, capacity).recorded == s.recorded
  {
    RunsStayOk(steps, capacity);
    hide Execute;
    var s := Execute(steps, SERVICE, capacity).value;
    assert ConnectionOk(s.connections[id], s);
  }

  // ---- The order is what it depends on

  /** Under this order no run leaves a lag-free connection with a hole. */
  ghost predicate SafeOrder(order: Order, capacity: nat) {
    forall steps: seq<Step>, id: nat ::
      NoHoleAfter(Execute(steps, order, capacity), id)
  }

  ghost predicate NoHoleAfter(end: Option<System>, id: nat) {
    end.Some? && id in end.value.connections ==>
      var c := end.value.connections[id];
      c.subscribed && c.snapshot.Some? && NeverLagged(c) ==> NoHole(c)
  }

  /** A run extended by one possible step. */
  lemma Extended(steps: seq<Step>, step: Step, order: Order, capacity: nat, s: System)
    requires Execute(steps, order, capacity) == Some(s) && Enabled(s, step, order)
    ensures Execute(steps + [step], order, capacity) == Some(Next(s, step, order, capacity))
  {
    assert (steps + [step])[..|steps|] == steps;
  }

  lemma NothingRun(order: Order, capacity: nat)
    ensures Execute([], order, capacity) == Some(INIT)
  {
  }

  function Only(c: Connection): map<nat, Connection> {
    map[0 := c]
  }

  lemma OnlyUpdated(c: Connection, c': Connection)
    ensures Only(c)[0 := c'] == Only(c')
  {
  }

  /** A connection that starts after message 0 and whose snapshot was taken before it. */
  const LOSER: Connection := Connection(true, Some(0), false, 1, 1, [])

  lemma LoserHasHole()
    ensures NeverLagged(LOSER) && !NoHole(LOSER)
  {
    assert !Delivered(LOSER, 0);
  }

  /** Snapshot read first: a message published before the subscription is in neither path. */
  lemma SnapshotFirstLoses(recordFirst: bool, capacity: nat)
    ensures !SafeOrder(Order(recordFirst, false), capacity)
  {
    var order := Order(recordFirst, false);
    var msg := Heartbeat(0);
    var early := ACCEPTED.(snapshot := Some(0));
    OnlyUpdated(ACCEPTED, early);
    OnlyUpdated(early, LOSER);
    var accepted := System([], 0, 0, Only(ACCEPTED));
    var read := accepted.(connections := Only(early));
    var halfway := if recordFirst then System([msg], 1, 0, Only(early)) else System([msg], 0, 1, Only(early));
    var published := System([msg], 1, 1, Only(early));
    var r1 := [] + [Accept(0)];
    Extended([], Accept(0), order, capacity, INIT);
    assert Execute(r1, order, capacity) == Some(accepted);
    hide Execute;
    var r2 := r1 + [ReadSnapshot(0)];
    Extended(r1, ReadSnapshot(0), order, capacity, accepted);
    var r3 := r2 + [Begin(msg)];
    assert [] + [msg] == [msg];
    Extended(r2, Begin(msg), order, capacity, read);
    var r4 := r3 + [Finish];
    Extended(r3, Finish, order, capacity, halfway);
    var r5 := r4 + [Subscribe(0)];
    Extended(r4, Subscribe(0), order, capacity, published);
    LoserHasHole();
    assert !NoHoleAfter(Execute(r5, order, capacity), 0);
  }

  /** Sent first: a subscriber arriving between the send and the record misses the message in both paths. */
  lemma SendFirstLoses(capacity: nat)
    ensures !SafeOrder(Order(false, true), capacity)
  {
    var order := Order(false, true);
    var msg := Heartbeat(0);
    var late := LOSER.(snapshot := None);
    OnlyUpdated(ACCEPTED, late);
    OnlyUpdated(late, LOSER);
    var accepted := System([], 0, 0, Only(ACCEPTED));
    var sent := System([msg], 0, 1, Only(ACCEPTED));
    var subscribed := System([msg], 0, 1, Only(late));
    var r1 := [] + [Accept(0)];
    Extended([], Accept(0), order, capacity, INIT);
    assert Execute(r1, order, capacity) == Some(accepted);
    hide Execute;
    var r2 := r1 + [Begin(msg)];
    assert [] + [msg] == [msg];
    Extended(r1, Begin(msg), order, capacity, accepted);
    var r3 := r2 + [Subscribe(0)];
    Extended(r2, Subscribe(0), order, capacity, sent);
    var r4 := r3 + [ReadSnapshot(0)];
    Extended(r3, ReadSnapshot(0), order, capacity, subscribed);
    LoserHasHole();
    assert !NoHoleAfter(Execute(r4, order, capacity), 0);
  }

  /** Record-then-send together with subscribe-then-read is the one order that loses nothing. */
  lemma OnlyTheServiceOrderIsSafe(order: Order, capacity: nat)
    ensures SafeOrder(order, capacity) <==> order == SERVICE
  {
    if order == SERVICE {
      forall steps: seq<Step>, id: nat
        ensures NoHoleAfter(Execute(steps, order, capacity), id)
      {
        var end := Execute(steps, order, capacity);
        if end.Some? && id in end.value.connections {
          CatchUpHasNoHole(steps, capacity, id);
        }
      }
    } else if !order.subscribeFirst {
      SnapshotFirstLoses(order.recordFirst, capacity);
    } else {
      SendFirstLoses(capacity);
    }
  }

  // ---- Bucket ids on the wire

  function CountReadings(log: seq<ServerMessage>): (n: nat)
    ensures n <= |log|
  {
    if log == [] then 0
    else CountReadings(log[..|log| - 1]) + if log[|log| - 1].Reading? then 1 else 0
  }

  /** The readings of a log carry the ids 0, 1, 2, ... */
  ghost predicate NumberedReadings(log: seq<ServerMessage>) {
    forall i :: 0 <= i < |log| && log[i].Reading? ==> log[i].bucketId == CountReadings(log[..i])
  }

  lemma {:induction false} CountBetween(log: seq<ServerMessage>, u: nat, v: nat)
    requires u <= v <= |log|
    ensures CountReadings(log[..u]) <= CountReadings(log[..v]) <= CountReadings(log[..u]) + (v - u)
  {
    if u < v {
      CountBetween(log, u, v - 1);
      assert log[..v][..v - 1] == log[..v - 1];
    }
  }

  /** Messages reported missed by a stretch of events. */
  function Missed(events: seq<Event>): nat {
    if events == [] then 0
    else
      var front := events[..|events| - 1];
      match events[|events| - 1]
      case Forwarded(_) => Missed(front)
      case Lagged(n) => Missed(front) + n
  }

  /** Readings forwarded by a stretch of events. */
  function ForwardedReadings(events: seq<Event>, log: seq<ServerMessage>): nat {
    if events == [] then 0
    else
      var front := events[..|events| - 1];
      match events[|events| - 1]
      case Forwarded(i) =>
        ForwardedReadings(front, log) + if i < |log| && log[i].Reading? then 1 else 0
      case Lagged(_) => ForwardedReadings(front, log)
  }

  lemma {:induction false} ReadingsPassed(events: seq<Event>, u: nat, v: nat, log: seq<ServerMessage>)
    requires Paced(events, u, v) && v <= |log|
    ensures u <= v
    ensures ForwardedReadings(events, log) + CountReadings(log[..u]) <= CountReadings(log[..v])
    ensures CountReadings(log[..v]) <= CountReadings(log[..u]) + ForwardedReadings(events, log) + Missed(events)
  {
    if events != [] {
      var front := events[..|events| - 1];
      match events[|events| - 1]
      case Forwarded(i) =>
        ReadingsPassed(front, u, i, log);
        assert log[..v][..i] == log[..i];
      case Lagged(n) =>
        ReadingsPassed(front, u, v - n, log);
        CountBetween(log, v - n, v);
    }
  }

  lemma {:induction false} PacedAround(events: seq<Event>, start: nat, next: nat, p: nat)
    requires Paced(events, start, next) && p < |events| && events[p].Forwarded?
    ensures Paced(events[..p], start, events[p].index)
    ensures Paced(events[p + 1..], events[p].index + 1, next)
    decreases |events|
  {
    var front := events[..|events| - 1];
    if p == |events| - 1 {
      assert events[p + 1..] == [];
    } else {
      var before := match events[|events| - 1] case Forwarded(i) => i case Lagged(n) => next - n;
      PacedAround(front, start, before, p);
      assert front[..p] == events[..p];
      var tail := events[p + 1..];
      assert tail[..|tail| - 1] == front[p + 1..];
    }
  }

  /** The stretch of events between two forwarded messages leads from one to the other. */
  lemma PacedBetween(events: seq<Event>, start: nat, next: nat, p: nat, q: nat)
    requires Paced(events, start, next) && p < q < |events| && events[p].Forwarded? && events[q].Forwarded?
    ensures Paced(events[p + 1..q], events[p].index + 1, events[q].index)
    ensures events[q].index < next
  {
    PacedAround(events, start, next, q);
    PacedAround(events[..q], start, events[q].index, p);
    assert events[..q][p + 1..] == events[p + 1..q];
    PacedBounds(events[q + 1..], events[q].index + 1, next);
  }

  lemma {:induction false} PacedBounds(events: seq<Event>, start: nat, next: nat)
    requires Paced(events, start, next)
    ensures start <= next
  {
    if events != [] {
      match events[|events| - 1]
      case Forwarded(i) => PacedBounds(events[..|events| - 1], start, i);
      case Lagged(n) => PacedBounds(events[..|events| - 1], start, next - n);
    }
  }

  /** Two readings have increasing ids, further apart than the next by no more than what was seen of the
      readings in between: those forwarded and the messages reported missed. */
  ghost predicate IdsAdvance(log: seq<ServerMessage>, i: nat, j: nat, between: seq<Event>) {
    && i < j < |log|
    && (log[i].Reading? && log[j].Reading? ==>
          && log[i].bucketId < log[j].bucketId
          && log[j].bucketId - log[i].bucketId <= 1 + ForwardedReadings(between, log) + Missed(between))
  }

  lemma IdsAcross(between: seq<Event>, i: nat, j: nat, log: seq<ServerMessage>)
    requires Paced(between, i + 1, j) && j < |log| && NumberedReadings(log)
    ensures IdsAdvance(log, i, j, between)
  {
    ReadingsPassed(between, i + 1, j, log);
    assert log[..i + 1][..i] == log[..i];
  }

  /** Any two readings forwarded on one connection have strictly increasing ids, and any ids skipped
      between them are covered by lag reports. */
  lemma ForwardedIdsIncrease(c: Connection, log: seq<ServerMessage>, p: nat, q: nat)
    requires Paced(c.events, c.start, c.next) && c.next <= |log| && NumberedReadings(log)
    requires p < q < |c.events| && c.events[p].Forwarded? && c.events[q].Forwarded?
    ensures IdsAdvance(log, c.events[p].index, c.events[q].index, c.events[p + 1..q])
  {
    PacedBetween(c.events, c.start, c.next, p, q);
    hide Paced, NumberedReadings, IdsAdvance;
    IdsAcross(c.events[p + 1..q], c.events[p].index, c.events[q].index, log);
  }
}
