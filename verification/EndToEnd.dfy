/** From the trades a worker is fed to the state a client shows. */
module EndToEnd {
  import opened Wrappers
  import opened VolumeClock
  import opened Numerics
  import opened VpinBatch
  import opened Messages
  import opened StreamProtocol
  import opened Feed
  import Server
  import Client

  // ---- What a session shows

  /** The state after a session's messages, if no check found silence. */
  function Shown(msgs: seq<ServerMessage>): Client.ToxicityState {
    if msgs == [] then Client.Connecting
    else Client.Handled(Shown(msgs[..|msgs| - 1]), msgs[|msgs| - 1])
  }

  lemma ShownSnoc(msgs: seq<ServerMessage>, msg: ServerMessage)
    ensures Shown(msgs + [msg]) == Client.Handled(Shown(msgs), msg)
  {
    assert (msgs + [msg])[..|msgs|] == msgs;
  }

  /** The messages of the session that the run is in. */
  function SessionMessages(run: seq<Client.TimedEvent>): seq<ServerMessage> {
    if run == [] || Client.IsBoundary(run[|run| - 1]) then []
    else
      var e := run[|run| - 1];
      SessionMessages(run[..|run| - 1]) + if e.what.Text? then ToSeq(e.what.content) else []
  }

  /** No check of the current session found silence. */
  ghost predicate NeverSilent(run: seq<Client.TimedEvent>, cfg: Client.ClientConfig) {
    run == [] || Client.IsBoundary(run[|run| - 1])
    || (!Client.StaleTick(run, |run| - 1, cfg) && NeverSilent(run[..|run| - 1], cfg))
  }

  /** In a session without silence the state is a function of the session's messages alone: nothing of
      earlier sessions, and nothing malformed, leaves a trace. */
  lemma {:induction false} SessionShows(run: seq<Client.TimedEvent>, cfg: Client.ClientConfig)
    requires Client.Execute(run, cfg).Some? && Client.Execute(run, cfg).value.phase.InSession?
    requires NeverSilent(run, cfg)
    ensures Client.Execute(run, cfg).value.state == Shown(SessionMessages(run))
  {
    var front, e := run[..|run| - 1], run[|run| - 1];
    Client.RunsKeepPhase(front, cfg);
    Client.RunsKeepTiming(front, cfg);
    if !Client.IsBoundary(e) {
      SessionShows(front, cfg);
      hide Client.Handled, Client.TimingOk;
      if e.what.Text? && e.what.content.Some? {
        ShownSnoc(SessionMessages(front), e.what.content.value);
      } else {
        assert SessionMessages(front) + [] == SessionMessages(front);
      }
    }
  }

  // ---- The latest reading of a log

  /** How many messages there were up to the latest reading; 0 if there is none. */
  function UpToLatest(log: seq<ServerMessage>): (k: nat)
    ensures k <= |log|
    ensures k > 0 ==> log[k - 1].Reading?
    ensures forall i :: k <= i < |log| ==> !log[i].Reading?
  {
    if log == [] then 0
    else if log[|log| - 1].Reading? then |log|
    else UpToLatest(log[..|log| - 1])
  }

  function Latest(log: seq<ServerMessage>): (r: Option<ServerMessage>) {
    var k := UpToLatest(log);
    if k == 0 then None else Some(log[k - 1])
  }

  /** What a reading shows as. */
  function StateOf(r: ServerMessage): Client.ToxicityState
    requires r.Reading?
  {
    if r.vpin.Some? then Client.Live(r.vpin.value, r.vpinCdf, r.tradesInBucket)
    else Client.Warming(r.tradesInBucket)
  }

  /** A session shows its latest reading, whatever came after it. */
  lemma {:induction false} ShowsLatestOfSession(msgs: seq<ServerMessage>)
    ensures Latest(msgs).Some? ==> Shown(msgs) == StateOf(Latest(msgs).value)
    ensures Latest(msgs).None? ==> Shown(msgs) in {Client.Connecting, Client.Warming(0)}
  {
    if msgs != [] {
      ShowsLatestOfSession(msgs[..|msgs| - 1]);
    }
  }

  /** The latest reading is where readings stop. */
  lemma LatestAt(log: seq<ServerMessage>, k: nat)
    requires k <= |log| && (k > 0 ==> log[k - 1].Reading?)
    requires forall i :: k <= i < |log| ==> !log[i].Reading?
    ensures UpToLatest(log) == k
  {
  }

  lemma LatestOfSuffix(log: seq<ServerMessage>, from: nat)
    requires from <= |log|
    ensures Latest(log[from..]) == if UpToLatest(log) <= from then None else Latest(log)
  {
    var k := UpToLatest(log);
    hide UpToLatest;
    LatestAt(log[from..], if k <= from then 0 else k - from);
  }

  lemma LatestAfterFirst(first: ServerMessage, rest: seq<ServerMessage>)
    ensures Latest([first] + rest)
         == if Latest(rest).Some? then Latest(rest) else if first.Reading? then Some(first) else None
  {
    var k := UpToLatest(rest);
    hide UpToLatest;
    LatestAt([first] + rest, if k > 0 then k + 1 else if first.Reading? then 1 else 0);
  }

  lemma SessionShowsLatest(run: seq<Client.TimedEvent>, cfg: Client.ClientConfig)
    requires Client.Execute(run, cfg).Some? && Client.Execute(run, cfg).value.phase.InSession?
    requires NeverSilent(run, cfg)
    ensures var latest, state := Latest(SessionMessages(run)), Client.Execute(run, cfg).value.state;
            && (latest.Some? ==> latest.value.Reading? && state == StateOf(latest.value))
            && (latest.None? ==> state in {Client.Connecting, Client.Warming(0)})
  {
    SessionShows(run, cfg);
    ShowsLatestOfSession(SessionMessages(run));
    hide Client.Execute, NeverSilent, SessionMessages, Shown;
  }

  // ---- What a connection delivers

  /** What a connection puts on the wire: the snapshot, then the forwarded messages. */
  function Wire(c: Connection, log: seq<ServerMessage>): seq<ServerMessage>
    requires c.snapshot.Some?
  {
    (if 0 < c.snapshot.value <= |log| then [log[c.snapshot.value - 1]] else [])
    + Server.MessagesOf(c.events, log)
  }

  /** Where the messages forwarded without a further lag begin. */
  function Landed(events: seq<Event>, next: nat): nat {
    if events == [] then next
    else
      match events[|events| - 1]
      case Lagged(_) => next
      case Forwarded(i) => Landed(events[..|events| - 1], i)
  }

  /** From here on the client has everything: the first message it got, or the first after the last lag. */
  ghost function Earliest(c: Connection): nat
    requires c.snapshot.Some?
  {
    if NeverLagged(c) && 0 < c.snapshot.value <= c.start then c.snapshot.value - 1 else Landed(c.events, c.next)
  }

  lemma {:induction false} LandsAtStart(events: seq<Event>, start: nat, next: nat)
    requires Paced(events, start, next) && forall i :: 0 <= i < |events| ==> events[i].Forwarded?
    ensures Landed(events, next) == start
  {
    if events != [] {
      LandsAtStart(events[..|events| - 1], start, next - 1);
    }
  }

  /** How many messages of the log there were up to the latest reading forwarded; 0 if none was. */
  function LastForwarded(events: seq<Event>, log: seq<ServerMessage>): (k: nat)
    ensures k > 0 ==> k <= |log| && log[k - 1].Reading?
  {
    if events == [] then 0
    else
      var e := events[|events| - 1];
      if e.Forwarded? && e.index < |log| && log[e.index].Reading? then e.index + 1
      else LastForwarded(events[..|events| - 1], log)
  }

  lemma LatestSnoc(log: seq<ServerMessage>, msg: ServerMessage)
    ensures Latest(log + [msg]) == if msg.Reading? then Some(msg) else Latest(log)
    ensures UpToLatest(log + [msg]) == if msg.Reading? then |log| + 1 else UpToLatest(log)
  {
    var k := UpToLatest(log);
    hide UpToLatest;
    LatestAt(log + [msg], if msg.Reading? then |log| + 1 else k);
  }

  lemma {:induction false} LatestForwarded(events: seq<Event>, log: seq<ServerMessage>)
    ensures var k := LastForwarded(events, log);
            Latest(Server.MessagesOf(events, log)) == if k == 0 then None else Some(log[k - 1])
  {
    if events != [] {
      var front, e := events[..|events| - 1], events[|events| - 1];
      hide Latest, UpToLatest, Server.MessagesOf;
      LatestForwarded(front, log);
      var msgs := Server.MessagesOf(front, log);
      assert events == front + [e];
      Server.MessagesSnoc(front, e, log);
      if e.Forwarded? && e.index < |log| {
        LatestSnoc(msgs, log[e.index]);
      } else {
        assert msgs + [] == msgs;
      }
    } else {
      assert Server.MessagesOf(events, log) == [];
    }
  }

  /** The latest reading on the wire, as a position of the log: the latest one forwarded, or else the
      snapshot. */
  function LatestSeen(c: Connection, log: seq<ServerMessage>): (k: nat)
    requires c.snapshot.Some?
    ensures k > 0 ==> k <= |log| && log[k - 1].Reading?
  {
    var k := LastForwarded(c.events, log);
    if k > 0 then k
    else if 0 < c.snapshot.value <= |log| && log[c.snapshot.value - 1].Reading? then c.snapshot.value
    else 0
  }

  lemma LatestOnWire(c: Connection, log: seq<ServerMessage>)
    requires c.snapshot.Some?
    ensures var k := LatestSeen(c, log);
            Latest(Wire(c, log)) == if k == 0 then None else Some(log[k - 1])
  {
    var forwarded := Server.MessagesOf(c.events, log);
    LatestForwarded(c.events, log);
    hide Latest, UpToLatest, Server.MessagesOf, LastForwarded;
    if 0 < c.snapshot.value <= |log| {
      LatestAfterFirst(log[c.snapshot.value - 1], forwarded);
    } else {
      assert [] + forwarded == forwarded;
    }
  }

  /** A reading at or past the point where the last lag landed has been forwarded, and is the latest seen. */
  lemma {:induction false} PastTheLag(events: seq<Event>, start: nat, next: nat, log: seq<ServerMessage>)
    requires Paced(events, start, next) && next <= |log|
    ensures UpToLatest(log[..next]) > Landed(events, next) ==> LastForwarded(events, log) == UpToLatest(log[..next])
  {
    if events != [] && events[|events| - 1].Forwarded? {
      PastTheLag(events[..|events| - 1], start, next - 1, log);
      assert log[..next] == log[..next - 1] + [log[next - 1]];
      hide UpToLatest;
      LatestSnoc(log[..next - 1], log[next - 1]);
    } else if events == [] {
      assert UpToLatest(log[..next]) <= next;
    }
  }

  lemma {:induction false} ForwardedBelow(events: seq<Event>, start: nat, next: nat, i: nat)
    requires Paced(events, start, next) && Forwarded(i) in events
    ensures i < next
  {
    var front, e := events[..|events| - 1], events[|events| - 1];
    if e != Forwarded(i) {
      assert Forwarded(i) in front;
      match e
      case Forwarded(j) => ForwardedBelow(front, start, j, i);
      case Lagged(n) => ForwardedBelow(front, start, next - n, i);
    }
  }

  /** The latest reading forwarded is one of those forwarded, and the latest of the log if that was. */
  lemma {:induction false} LastForwardedIs(events: seq<Event>, start: nat, next: nat, log: seq<ServerMessage>)
    requires Paced(events, start, next) && next <= |log|
    ensures var j := LastForwarded(events, log); j > 0 ==> Forwarded(j - 1) in events
    ensures var k := UpToLatest(log); k > 0 && Forwarded(k - 1) in events ==> LastForwarded(events, log) == k
  {
    var k := UpToLatest(log);
    hide UpToLatest;
    if events != [] {
      var front, e := events[..|events| - 1], events[|events| - 1];
      var before := match e case Forwarded(i) => i case Lagged(n) => next - n;
      LastForwardedIs(front, start, before, log);
      if k > 0 && Forwarded(k - 1) in front {
        ForwardedBelow(front, start, before, k - 1);
      }
      assert events == front + [e];
    }
  }

  /** The latest reading of the log has been seen iff it was forwarded, or was the snapshot and no reading was
      forwarded at all. */
  ghost predicate SeenIffDelivered(c: Connection, log: seq<ServerMessage>)
    requires c.snapshot.Some?
  {
    var k := UpToLatest(log);
    k > 0 ==>
      (LatestSeen(c, log) == k <==>
         Forwarded(k - 1) in c.events || (c.snapshot.value == k && LastForwarded(c.events, log) == 0))
  }

  lemma SeesLatestExactly(c: Connection, log: seq<ServerMessage>)
    requires c.snapshot.Some? && Paced(c.events, c.start, c.next) && c.next <= |log|
    ensures SeenIffDelivered(c, log)
  {
    hide LastForwarded, Paced, UpToLatest;
    LastForwardedIs(c.events, c.start, c.next, log);
  }

  /** At any moment of any run, lagged or not. */
  lemma RunSeesLatestExactly(steps: seq<Step>, capacity: nat, id: nat)
    requires Execute(steps, SERVICE, capacity).Some?
    requires var s := Execute(steps, SERVICE, capacity).value;
             id in s.connections && s.connections[id].subscribed && s.connections[id].snapshot.Some?
    ensures var s := Execute(steps, SERVICE, capacity).value; SeenIffDelivered(s.connections[id], s.log)
  {
    RunsStayOk(steps, capacity);
    var s := Execute(steps, SERVICE, capacity).value;
    hide Execute;
    var c := s.connections[id];
    assert ConnectionOk(c, s);
    hide Paced, SeenIffDelivered;
    SeesLatestExactly(c, s.log);
  }

  /** Repeating a message of a log in front of it changes nothing about its latest reading. */
  lemma RepeatInFront(log: seq<ServerMessage>, k: nat)
    requires k < |log|
    ensures Latest([log[k]] + log) == Latest(log)
  {
    LatestAfterFirst(log[k], log);
  }

  /** A snapshot in front of the messages from `start` on. */
  lemma SnapshotInFront(log: seq<ServerMessage>, start: nat, v: nat)
    requires start <= v <= |log|
    ensures Latest((if v > 0 then [log[v - 1]] else []) + log[start..])
         == Latest(log[if 0 < v <= start then v - 1 else start..])
  {
    var rest := log[start..];
    hide UpToLatest, Latest;
    if v == 0 {
      assert [] + rest == rest;
    } else if v == start {
      assert log[start - 1..] == [log[start - 1]] + rest;
    } else {
      assert rest[v - 1 - start] == log[v - 1];
      RepeatInFront(rest, v - 1 - start);
    }
  }

  lemma LagFreeWire(c: Connection, log: seq<ServerMessage>)
    requires c.snapshot.Some? && c.start <= c.snapshot.value <= c.next == |log|
    requires Paced(c.events, c.start, c.next) && NeverLagged(c)
    ensures Wire(c, log) == (if c.snapshot.value > 0 then [log[c.snapshot.value - 1]] else []) + log[c.start..]
  {
    Server.LagFreeMessages(c.events, c.start, c.next, log);
    hide Paced, NeverLagged, Server.MessagesOf;
    assert log[c.start..c.next] == log[c.start..];
  }

  lemma LagFreeEarliest(c: Connection)
    requires c.snapshot.Some? && Paced(c.events, c.start, c.next) && NeverLagged(c)
    ensures Earliest(c) == if 0 < c.snapshot.value <= c.start then c.snapshot.value - 1 else c.start
  {
    LandsAtStart(c.events, c.start, c.next);
    hide Paced, Landed;
  }

  /** The wire has the latest reading from its earliest message on, even when the snapshot runs ahead of
      the first forwarded messages. */
  lemma WireHasLatest(c: Connection, log: seq<ServerMessage>)
    requires c.snapshot.Some? && c.start <= c.snapshot.value <= c.next == |log|
    requires Paced(c.events, c.start, c.next) && NeverLagged(c)
    ensures Earliest(c) <= |log| && Latest(Wire(c, log)) == Latest(log[Earliest(c)..])
  {
    hide Paced, NeverLagged, Latest, Wire, Earliest;
    LagFreeWire(c, log);
    LagFreeEarliest(c);
    SnapshotInFront(log, c.start, c.snapshot.value);
  }

  /** Everything published has been recorded and sent, and this connection has received all it will. */
  ghost predicate UpToDate(s: System, id: nat) {
    && Idle(s) && id in s.connections
    && var c := s.connections[id];
       c.subscribed && c.snapshot.Some? && !c.sending && c.next == s.sent
  }

  /** The client is in a session that was never silent, and has read everything the connection sent. */
  ghost predicate HasRead(s: System, id: nat, run: seq<Client.TimedEvent>, cfg: Client.ClientConfig) {
    && UpToDate(s, id)
    && Client.Execute(run, cfg).Some? && Client.Execute(run, cfg).value.phase.InSession?
    && NeverSilent(run, cfg)
    && SessionMessages(run) == Wire(s.connections[id], s.log)
  }

  lemma UpToDateShape(steps: seq<Step>, capacity: nat, id: nat)
    requires Execute(steps, SERVICE, capacity).Some? && UpToDate(Execute(steps, SERVICE, capacity).value, id)
    ensures var s := Execute(steps, SERVICE, capacity).value;
            var c := s.connections[id];
            && id in s.connections && c.snapshot.Some? && c.start <= c.snapshot.value <= c.next == |s.log|
            && Paced(c.events, c.start, c.next)
  {
    RunsStayOk(steps, capacity);
    var s := Execute(steps, SERVICE, capacity).value;
    hide Execute;
    var c := s.connections[id];
    assert ConnectionOk(c, s);
  }

  /** An up-to-date connection has seen the latest reading of the log if that is not older than `Earliest`;
      without a lag, otherwise it has seen none. */
  lemma SeenByUpToDate(c: Connection, log: seq<ServerMessage>)
    requires c.snapshot.Some? && c.start <= c.snapshot.value <= c.next == |log|
    requires Paced(c.events, c.start, c.next)
    ensures UpToLatest(log) > Earliest(c) ==> Latest(Wire(c, log)) == Latest(log)
    ensures UpToLatest(log) <= Earliest(c) && NeverLagged(c) ==> Latest(Wire(c, log)) == None
  {
    if NeverLagged(c) {
      PacedBounds(c.events, c.start, c.next);
      LandsAtStart(c.events, c.start, c.next);
      WireHasLatest(c, log);
      hide Wire, UpToLatest, Paced, Landed;
      LatestOfSuffix(log, Earliest(c));
    } else {
      PastTheLag(c.events, c.start, c.next, log);
      assert log[..c.next] == log;
      LatestOnWire(c, log);
      hide Wire, Paced, Landed, LastForwarded;
    }
  }

  /** In every run, an up-to-date client whose session was never silent shows the latest reading ever
      published if that is not older than the first message it got or, after a lag, the first message past
      the last one. Without a lag it otherwise shows no reading at all. */
  lemma ClientShowsLatest(
    steps: seq<Step>, capacity: nat, id: nat, run: seq<Client.TimedEvent>, cfg: Client.ClientConfig)
    requires Execute(steps, SERVICE, capacity).Some?
    requires HasRead(Execute(steps, SERVICE, capacity).value, id, run, cfg)
    ensures var s := Execute(steps, SERVICE, capacity).value;
            var c := s.connections[id];
            var state := Client.Execute(run, cfg).value.state;
            && (UpToLatest(s.log) > Earliest(c) ==> state == StateOf(s.log[UpToLatest(s.log) - 1]))
            && (UpToLatest(s.log) <= Earliest(c) && NeverLagged(c) ==> state in {Client.Connecting, Client.Warming(0)})
  {
    hide Execute, Client.Execute, NeverSilent, SessionMessages, Shown, Server.MessagesOf, Paced,
         Earliest, NeverLagged, Wire, UpToLatest, StateOf, UpToDate;
    UpToDateShape(steps, capacity, id);
    var s := Execute(steps, SERVICE, capacity).value;
    SeenByUpToDate(s.connections[id], s.log);
    SessionShowsLatest(run, cfg);
  }

  /** At any moment, lagged or not, a session that was never silent shows the latest reading on its wire:
      the latest forwarded, or else the snapshot. */
  lemma ClientShowsLatestSeen(
    c: Connection, log: seq<ServerMessage>, run: seq<Client.TimedEvent>, cfg: Client.ClientConfig)
    requires c.snapshot.Some? && SessionMessages(run) == Wire(c, log) && NeverSilent(run, cfg)
    requires Client.Execute(run, cfg).Some? && Client.Execute(run, cfg).value.phase.InSession?
    ensures var k, state := LatestSeen(c, log), Client.Execute(run, cfg).value.state;
            if k > 0 then state == StateOf(log[k - 1]) else state in {Client.Connecting, Client.Warming(0)}
  {
    hide Client.Execute, NeverSilent, SessionMessages, Wire, UpToLatest, LatestSeen;
    SessionShowsLatest(run, cfg);
    LatestOnWire(c, log);
  }

  /** A whole publication. */
  lemma PublishedOnce(steps: seq<Step>, msg: ServerMessage, capacity: nat, s: System)
    requires Execute(steps, SERVICE, capacity) == Some(s) && Idle(s) && NobodyReading(s)
    ensures Execute(steps + [Begin(msg)] + [Finish], SERVICE, capacity)
         == Some(System(s.log + [msg], |s.log| + 1, |s.log| + 1, s.connections))
  {
    Extended(steps, Begin(msg), SERVICE, capacity, s);
    hide Execute;
    var halfway := s.(log := s.log + [msg], recorded := |s.log| + 1);
    Extended(steps + [Begin(msg)], Finish, SERVICE, capacity, halfway);
  }

  ghost predicate ShowsOlder(s: System, id: nat) {
    && UpToDate(s, id)
    && Latest(Wire(s.connections[id], s.log)).Some? && Latest(Wire(s.connections[id], s.log)) != Latest(s.log)
  }

  /** A client that subscribed at the start and got the first message. */
  lemma FirstReceived(msg: ServerMessage) returns (steps: seq<Step>)
    ensures Execute(steps, SERVICE, 1)
         == Some(System([msg], 1, 1, Only(Connection(true, Some(0), false, 0, 1, [Forwarded(0)]))))
  {
    hide Execute;
    var listening := ACCEPTED.(subscribed := true);
    var ready := listening.(snapshot := Some(0));
    var first := ready.(next := 1, events := [Forwarded(0)]);
    OnlyUpdated(ACCEPTED, listening);
    OnlyUpdated(listening, ready);
    OnlyUpdated(ready, first);
    assert [] + [msg] == [msg] && [] + [Forwarded(0)] == [Forwarded(0)];
    var s1 := [] + [Accept(0)];
    NothingRun(SERVICE, 1);
    Extended([], Accept(0), SERVICE, 1, INIT);
    assert Execute(s1, SERVICE, 1) == Some(System([], 0, 0, Only(ACCEPTED)));
    var s3 := s1 + [Subscribe(0)] + [ReadSnapshot(0)];
    Extended(s1, Subscribe(0), SERVICE, 1, System([], 0, 0, Only(ACCEPTED)));
    Extended(s1 + [Subscribe(0)], ReadSnapshot(0), SERVICE, 1, System([], 0, 0, Only(listening)));
    PublishedOnce(s3, msg, 1, System([], 0, 0, Only(ready)));
    var s5 := s3 + [Begin(msg)] + [Finish];
    Extended(s5, Receive(0), SERVICE, 1, System([msg], 1, 1, Only(ready)));
    steps := s5 + [Receive(0)];
  }

  /** Then two more are published before it receives again, one more than the channel keeps. */
  lemma SecondMissed(r0: ServerMessage, r1: ServerMessage, beat: ServerMessage) returns (steps: seq<Step>)
    ensures var c := Connection(true, Some(0), false, 0, 3, [Forwarded(0), Lagged(1), Forwarded(2)]);
            Execute(steps, SERVICE, 1) == Some(System([r0, r1, beat], 3, 3, Only(c)))
  {
    var first := Connection(true, Some(0), false, 0, 1, [Forwarded(0)]);
    var lagged := first.(next := 2, events := [Forwarded(0), Lagged(1)]);
    var last := first.(next := 3, events := [Forwarded(0), Lagged(1), Forwarded(2)]);
    var log := [r0, r1, beat];
    OnlyUpdated(first, lagged);
    OnlyUpdated(lagged, last);
    assert [r0] + [r1] == [r0, r1] && [r0, r1] + [beat] == log;
    assert [Forwarded(0)] + [Lagged(1)] == lagged.events && lagged.events + [Forwarded(2)] == last.events;
    var s6 := FirstReceived(r0);
    hide Execute;
    PublishedOnce(s6, r1, 1, System([r0], 1, 1, Only(first)));
    var s8 := s6 + [Begin(r1)] + [Finish];
    PublishedOnce(s8, beat, 1, System([r0, r1], 2, 2, Only(first)));
    var s10 := s8 + [Begin(beat)] + [Finish];
    Extended(s10, Receive(0), SERVICE, 1, System(log, 3, 3, Only(first)));
    Extended(s10 + [Receive(0)], Receive(0), SERVICE, 1, System(log, 3, 3, Only(lagged)));
    steps := s10 + [Receive(0)] + [Receive(0)];
  }

  /** The condition is needed: after a lag, a reading older than the latest can be left standing although
      everything sent has been received. */
  lemma LagLeavesOlderReading()
    ensures exists steps: seq<Step>, capacity: nat ::
              Execute(steps, SERVICE, capacity).Some? && ShowsOlder(Execute(steps, SERVICE, capacity).value, 0)
  {
    var r0, r1, beat := Reading(0, 0, 1, Some(0.1), None), Reading(1, 1, 1, Some(0.9), None), Heartbeat(2);
    var steps := SecondMissed(r0, r1, beat);
    hide Execute;
    var s := Execute(steps, SERVICE, 1).value;
    OlderSeen(s.connections[0], s.log);
    hide Latest, Wire;
    assert ShowsOlder(s, 0);
  }

  lemma OlderSeen(c: Connection, log: seq<ServerMessage>)
    requires c.snapshot == Some(0) && c.events == [Forwarded(0), Lagged(1), Forwarded(2)]
    requires |log| == 3 && log[0].Reading? && log[1].Reading? && !log[2].Reading?
    ensures Latest(Wire(c, log)) == Some(log[0]) && Latest(log) == Some(log[1])
  {
    LatestAt(log, 2);
    LatestOnWire(c, log);
    hide Latest, Wire;
    assert c.events[..2] == [Forwarded(0), Lagged(1)] && c.events[..2][..1] == [Forwarded(0)];
    assert LastForwarded(c.events, log) == LastForwarded(c.events[..2], log) == LastForwarded(c.events[..2][..1], log);
  }

  // ---- The server's session in a run of the protocol

  /** What the session loop of connection `id` finds ready in a run, receive by receive. */
  function Observation(steps: seq<Step>, capacity: nat, id: nat): seq<Server.Poll> {
    if steps == [] then []
    else
      var before := Execute(steps[..|steps| - 1], SERVICE, capacity);
      Observation(steps[..|steps| - 1], capacity, id)
      + if steps[|steps| - 1] == Receive(id) && before.Some? then [Server.ChannelHolds(before.value.sent)] else []
  }

  /** What the session observes of its stream in a system it has subscribed to and read the snapshot of. */
  function ObservedIn(s: System, c: Connection, polls: seq<Server.Poll>): Server.Observed
    requires c.snapshot.Some?
  {
    var snapshot := if 0 < c.snapshot.value <= |s.log| then Some(s.log[c.snapshot.value - 1]) else None;
    Server.Observed(c.start, snapshot, s.log, polls)
  }

  /** The polls lead a receiver to where the connection is. */
  ghost predicate Follows(polls: seq<Server.Poll>, s: System, id: nat, capacity: nat) {
    && (forall i :: 0 <= i < |polls| ==> polls[i].ChannelHolds? && polls[i].sent <= s.sent)
    && (id in s.connections && s.connections[id].subscribed ==>
          var c, p := s.connections[id], Server.Position(polls, s.connections[id].start, capacity);
          p.next == c.next && p.events == c.events)
    && (!(id in s.connections && s.connections[id].subscribed) ==> polls == [])
  }

  lemma FollowsStep(polls: seq<Server.Poll>, s: System, step: Step, id: nat, capacity: nat)
    requires SystemOk(s) && Enabled(s, step, SERVICE) && Follows(polls, s, id, capacity)
    ensures Follows(polls + (if step == Receive(id) then [Server.ChannelHolds(s.sent)] else []),
                    Next(s, step, SERVICE, capacity), id, capacity)
  {
    hide Paced, Server.Position, Received;
    if step == Receive(id) {
      FollowsReceive(polls, s, id, capacity);
    } else {
      assert id in s.connections ==> ConnectionOk(s.connections[id], s);
      FollowsNothing(s.sent, capacity);
      assert polls + [] == polls;
    }
  }

  lemma FollowsNothing(start: nat, capacity: nat)
    ensures var p := Server.Position([], start, capacity); p.next == start && p.events == []
  {
  }

  lemma FollowsReceive(polls: seq<Server.Poll>, s: System, id: nat, capacity: nat)
    requires Enabled(s, Receive(id), SERVICE) && Follows(polls, s, id, capacity)
    ensures Follows(polls + [Server.ChannelHolds(s.sent)], Next(s, Receive(id), SERVICE, capacity), id, capacity)
  {
    var c, poll := s.connections[id], Server.ChannelHolds(s.sent);
    var p := Server.Position(polls, c.start, capacity);
    assert (polls + [poll])[..|polls|] == polls;
    assert Server.Position(polls + [poll], c.start, capacity) == Server.Polled(p, poll, capacity);
    hide Server.Position;
    assert Next(s, Receive(id), SERVICE, capacity).connections[id] == Received(c, s.sent, capacity);
  }

  lemma {:induction false} ObservationFollows(steps: seq<Step>, capacity: nat, id: nat)
    requires Execute(steps, SERVICE, capacity).Some?
    ensures Follows(Observation(steps, capacity, id), Execute(steps, SERVICE, capacity).value, id, capacity)
  {
    if steps != [] {
      var front := steps[..|steps| - 1];
      ObservationFollows(front, capacity, id);
      RunsStayOk(front, capacity);
      hide Follows, SystemOk;
      FollowsStep(Observation(front, capacity, id), Execute(front, SERVICE, capacity).value,
                  steps[|steps| - 1], id, capacity);
    }
  }

  lemma {:induction false} DueSize(seen: Server.Observed, k: nat, capacity: nat)
    requires k <= |seen.polls|
    ensures |Server.Due(seen, k, capacity)| <= k + 1
  {
    if k > 0 {
      DueSize(seen, k - 1, capacity);
      Server.PolledSnoc(seen, k - 1, capacity);
      hide Server.Due;
    } else {
      assert seen.polls[..0] == [];
    }
  }

  /** The session loop, given what a connection of any run finds ready and a socket that lasts, puts on the
      wire exactly what that connection delivers, and ends up where it is. */
  lemma SessionOfARun(
    steps: seq<Step>, capacity: nat, id: nat, turns: nat, life: nat, wire: seq<Server.Frame>, end: Server.End,
    at: Connection)
    requires Execute(steps, SERVICE, capacity).Some? && life > |steps|
    requires var s := Execute(steps, SERVICE, capacity).value;
             && id in s.connections && s.connections[id].subscribed && s.connections[id].snapshot.Some?
             && Server.Served(ObservedIn(s, s.connections[id], Observation(steps, capacity, id)),
                              turns, capacity, life, wire, end, at)
    ensures var s := Execute(steps, SERVICE, capacity).value;
            var c := s.connections[id];
            && ObservedIn(s, c, Observation(steps, capacity, id)).Consistent()
            && end == Server.StillOpen && Server.TextsOf(wire) == Wire(c, s.log)
            && at.next == c.next && at.events == c.events
  {
    var s := Execute(steps, SERVICE, capacity).value;
    var c, polls := s.connections[id], Observation(steps, capacity, id);
    var seen := ObservedIn(s, c, polls);
    ObservationFollows(steps, capacity, id);
    ObservationSize(steps, capacity, id);
    RunsStayOk(steps, capacity);
    hide Execute, Observation;
    assert ConnectionOk(c, s);
    hide Paced, Server.Position, Server.Due;
    DueSize(seen, turns, capacity);
    assert turns == |polls|;
    assert polls[..|polls|] == polls;
    Server.DueTexts(seen, turns, capacity);
    hide Server.MessagesOf, Server.TextsOf, Server.PongsOf;
    assert wire == Server.Due(seen, turns, capacity);
  }

  lemma {:induction false} ObservationSize(steps: seq<Step>, capacity: nat, id: nat)
    ensures |Observation(steps, capacity, id)| <= |steps|
  {
    if steps != [] {
      ObservationSize(steps[..|steps| - 1], capacity, id);
      hide Execute;
    }
  }

  // ---- From the tape

  /** The latest reading a worker published is the last reading of the tape it was fed. */
  lemma LatestPublished(inbox: seq<FeedEvent>, cfg: EngineConfig, m: Maths)
    requires cfg.Valid()
    ensures var rs := TapeReadings(TradesOf(inbox), cfg, m);
            var latest := Latest(Published(inbox, cfg, m));
            && (latest.None? <==> rs == [])
            && (latest.Some? ==> latest.value.Reading? && Carries(latest.value, rs[|rs| - 1]))
  {
    PublishesEveryReading(inbox, cfg, m);
    hide Published, TapeReadings, TradesOf;
    LatestIsLastReading(Published(inbox, cfg, m));
  }

  lemma {:induction false} LatestIsLastReading(log: seq<ServerMessage>)
    ensures var rs := ReadingsOf(log);
            Latest(log) == if rs == [] then None else Some(rs[|rs| - 1])
  {
    if log != [] {
      LatestIsLastReading(log[..|log| - 1]);
    }
  }

  /** From trades to screen: with everything delivered and no silence, a client that subscribed before the
      last bucket closed, or whose snapshot was that bucket's reading, shows exactly the estimate that the
      whole-tape definition gives for the trades the worker was fed. */
  lemma TradesToScreen(
    inbox: seq<FeedEvent>, ecfg: EngineConfig, m: Maths,
    steps: seq<Step>, capacity: nat, id: nat, run: seq<Client.TimedEvent>, cfg: Client.ClientConfig)
    requires ecfg.Valid()
    requires Execute(steps, SERVICE, capacity).Some?
    requires HasRead(Execute(steps, SERVICE, capacity).value, id, run, cfg)
    ensures var s := Execute(steps, SERVICE, capacity).value;
            var rs := TapeReadings(TradesOf(inbox), ecfg, m);
            s.log == Published(inbox, ecfg, m) && UpToLatest(s.log) > Earliest(s.connections[id]) ==>
              && rs != []
              && var r := rs[|rs| - 1];
                 Client.Execute(run, cfg).value.state ==
                   if r.vpin.Some? then Client.Live(r.vpin.value, r.vpinCdf, r.tradesInBucket)
                   else Client.Warming(r.tradesInBucket)
  {
    hide Execute, Client.Execute, NeverSilent, SessionMessages, UpToLatest, TapeReadings, TradesOf, Published,
         EngineConfig.Valid;
    ClientShowsLatest(steps, capacity, id, run, cfg);
    LatestPublished(inbox, ecfg, m);
    hide HasRead;
  }

  /** In every run of a stream fed by a worker, at any moment, the readings forwarded on any connection
      carry strictly increasing bucket ids, and lag reports cover every id skipped. */
  lemma WireIdsIncrease(
    inbox: seq<FeedEvent>, cfg: EngineConfig, m: Maths, steps: seq<Step>, capacity: nat, id: nat, p: nat, q: nat)
    requires cfg.Valid() && m.Valid() && Execute(steps, SERVICE, capacity).Some?
    requires Execute(steps, SERVICE, capacity).value.log <= Published(inbox, cfg, m)
    requires id in Execute(steps, SERVICE, capacity).value.connections
    requires var c := Execute(steps, SERVICE, capacity).value.connections[id];
             p < q < |c.events| && c.events[p].Forwarded? && c.events[q].Forwarded?
    ensures var s := Execute(steps, SERVICE, capacity).value;
            var c := s.connections[id];
            IdsAdvance(s.log, c.events[p].index, c.events[q].index, c.events[p + 1..q])
  {
    PublishedIdsConsecutive(inbox, cfg, m);
    RunsStayOk(steps, capacity);
    var s := Execute(steps, SERVICE, capacity).value;
    var c := s.connections[id];
    hide Execute, Published, TapeReadings, CountReadings;
    assert ConnectionOk(c, s);
    NumberedPrefix(s.log, Published(inbox, cfg, m));
    hide Paced, NumberedReadings, IdsAdvance;
    ForwardedIdsIncrease(c, s.log, p, q);
  }

  lemma NumberedPrefix(log: seq<ServerMessage>, longer: seq<ServerMessage>)
    requires log <= longer && NumberedReadings(longer)
    ensures NumberedReadings(log)
  {
    hide CountReadings;
    forall i | 0 <= i < |log| && log[i].Reading?
      ensures log[i].bucketId == CountReadings(log[..i])
    {
      assert log[..i] == longer[..i];
      assert log[i] == longer[i];
    }
  }
}
