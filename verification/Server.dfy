/** One subscriber's session, from its subscribe request to its end. */
module Server {
  import opened Wrappers
  import opened Seqs
  import opened VolumeClock
  import opened TapeFormat
  import opened Messages
  import opened StreamProtocol

  /** What the client sends first. */
  datatype Opening = Request(key: string) | BadJson | NotText

  /** What the session loop finds ready: the channel holding more than was read, or a client frame. */
  datatype Poll =
    | ChannelHolds(sent: nat)
    | ChannelClosed
    | Ping(payload: seq<Byte>)
    | ClientLeft
    | ReadError
    | OtherFrame

  datatype Frame = Text(msg: ServerMessage) | Pong(payload: seq<Byte>)

  datatype End = Finished | StillOpen | JsonError | NoSubscribeRequest | UnknownStream(key: string) | WebSocketError

  /** What a session observes of a stream: the channel position when it subscribed, the last message when
      it read the snapshot, the messages of the channel, and what each turn of its loop found ready. */
  datatype Observed = Observed(start: nat, snapshot: Option<ServerMessage>, log: seq<ServerMessage>, polls: seq<Poll>)
  {
    ghost predicate Consistent() {
      && start <= |log|
      && (forall i :: 0 <= i < |polls| && polls[i].ChannelHolds? ==> polls[i].sent <= |log|)
    }
  }

  /** The server's end of the socket. It breaks after some number of frames. */
  class Socket {
    const life: nat
    var wire: seq<Frame>

    constructor (life: nat)
      ensures this.life == life && wire == []
    {
      this.life, wire := life, [];
    }

    method Send(f: Frame) returns (ok: bool)
      modifies this
      ensures wire == if ok then old(wire) + [f] else old(wire)
      ensures ok <==> |old(wire)| < life
      ensures ok ==> TextsOf(wire) == TextsOf(old(wire)) + (if f.Text? then [f.msg] else [])
      ensures ok ==> PongsOf(wire) == PongsOf(old(wire)) + (if f.Pong? then [f.payload] else [])
    {
      WireSnoc(wire, f);
      hide TextsOf, PongsOf;
      ok := |wire| < life;
      if ok {
        wire := wire + [f];
      }
    }
  }

  /** A position in a broadcast channel that keeps the last `capacity` messages. */
  class Receiver {
    const capacity: nat
    var next: nat
    ghost const start: nat
    ghost var events: seq<Event>

    /** The receiver as the protocol's connection. */
    ghost function View(): Connection
      reads this
    {
      Listening(start).(next := next, events := events)
    }

    ghost predicate Valid()
      reads this
    {
      Paced(events, start, next)
    }

    constructor (start: nat, capacity: nat)
      ensures Valid() && View() == Listening(start) && this.start == start && this.capacity == capacity
    {
      this.capacity, this.start, next, events := capacity, start, start, [];
    }

    method Recv(sent: nat) returns (e: Event)
      requires Valid() && next < sent
      modifies this
      ensures Valid() && events == old(events) + [e] && old(next) < next <= sent
      ensures match e case Forwarded(i) => i == old(next) && next == i + 1 && i + capacity >= sent
                      case Lagged(n) => n == next - old(next) && next + capacity == sent
      ensures View() == Received(old(View()), sent, capacity)
    {
      if sent > next + capacity {
        e := Lagged(sent - capacity - next);
        next := sent - capacity;
      } else {
        e := Forwarded(next);
        next := next + 1;
      }
      PacedSnoc(events, e, start, old(next));
      hide Paced;
      events := events + [e];
    }
  }

  function TextsOf(wire: seq<Frame>): (texts: seq<ServerMessage>)
    ensures |texts| <= |wire|
  {
    if wire == [] then []
    else TextsOf(wire[..|wire| - 1]) + if wire[|wire| - 1].Text? then [wire[|wire| - 1].msg] else []
  }

  function PongsOf(wire: seq<Frame>): seq<seq<Byte>> {
    if wire == [] then []
    else PongsOf(wire[..|wire| - 1]) + if wire[|wire| - 1].Pong? then [wire[|wire| - 1].payload] else []
  }

  lemma WireSnoc(wire: seq<Frame>, f: Frame)
    ensures TextsOf(wire + [f]) == TextsOf(wire) + if f.Text? then [f.msg] else []
    ensures PongsOf(wire + [f]) == PongsOf(wire) + if f.Pong? then [f.payload] else []
  {
    assert (wire + [f])[..|wire|] == wire;
  }

  function PingsOf(polls: seq<Poll>): seq<seq<Byte>> {
    if polls == [] then []
    else PingsOf(polls[..|polls| - 1]) + if polls[|polls| - 1].Ping? then [polls[|polls| - 1].payload] else []
  }

  lemma PingsSnoc(polls: seq<Poll>, p: Poll)
    ensures PingsOf(polls + [p]) == PingsOf(polls) + if p.Ping? then [p.payload] else []
  {
    assert (polls + [p])[..|polls|] == polls;
  }

  /** The messages a stretch of events forwards. */
  function MessagesOf(events: seq<Event>, log: seq<ServerMessage>): seq<ServerMessage> {
    if events == [] then []
    else
      var e := events[|events| - 1];
      MessagesOf(events[..|events| - 1], log) + if e.Forwarded? && e.index < |log| then [log[e.index]] else []
  }

  lemma MessagesSnoc(events: seq<Event>, e: Event, log: seq<ServerMessage>)
    ensures MessagesOf(events + [e], log)
         == MessagesOf(events, log) + if e.Forwarded? && e.index < |log| then [log[e.index]] else []
  {
    assert (events + [e])[..|events|] == events;
  }

  /** A session without lag forwards a contiguous stretch of the channel. */
  lemma {:induction false} LagFreeMessages(events: seq<Event>, start: nat, next: nat, log: seq<ServerMessage>)
    requires Paced(events, start, next) && next <= |log|
    requires forall i :: 0 <= i < |events| ==> events[i].Forwarded?
    ensures start <= next && MessagesOf(events, log) == log[start..next]
  {
    if events != [] {
      LagFreeMessages(events[..|events| - 1], start, next - 1, log);
      assert log[start..next] == log[start..next - 1] + [log[next - 1]];
    }
  }

  // ---- What a session must do, poll by poll

  /** A connection that has just subscribed. */
  function Listening(start: nat): Connection {
    ACCEPTED.(subscribed := true, start := start, next := start)
  }

  /** What one poll does to a connection's position. */
  function Polled(c: Connection, poll: Poll, capacity: nat): Connection {
    if poll.ChannelHolds? && c.next < poll.sent then Received(c, poll.sent, capacity) else c
  }

  /** Where the polls leave a connection that subscribed at `start`. */
  function Position(polls: seq<Poll>, start: nat, capacity: nat): Connection {
    if polls == [] then Listening(start)
    else Polled(Position(polls[..|polls| - 1], start, capacity), polls[|polls| - 1], capacity)
  }

  /** The frames one poll calls for: a message that was received, an answer to a ping. A lag calls for none. */
  function Reply(c: Connection, poll: Poll, log: seq<ServerMessage>, capacity: nat): (frames: seq<Frame>)
    ensures |frames| <= 1
  {
    match poll
    case ChannelHolds(sent) =>
      if c.next < sent <= c.next + capacity && c.next < |log| then [Text(log[c.next])] else []
    case Ping(payload) => [Pong(payload)]
    case _ => []
  }

  function FramesOf(polls: seq<Poll>, start: nat, log: seq<ServerMessage>, capacity: nat): seq<Frame> {
    if polls == [] then []
    else
      var front, poll := polls[..|polls| - 1], polls[|polls| - 1];
      FramesOf(front, start, log, capacity) + Reply(Position(front, start, capacity), poll, log, capacity)
  }

  function SnapshotFrames(snapshot: Option<ServerMessage>): seq<Frame> {
    if snapshot.Some? then [Text(snapshot.value)] else []
  }

  /** Everything due once the first `k` polls have been dealt with. */
  function Due(seen: Observed, k: nat, capacity: nat): seq<Frame>
    requires k <= |seen.polls|
  {
    SnapshotFrames(seen.snapshot) + FramesOf(seen.polls[..k], seen.start, seen.log, capacity)
  }

  predicate IsTerminal(poll: Poll) {
    poll.ChannelClosed? || poll.ClientLeft? || poll.ReadError?
  }

  /** A reason to stop after `k` polls: no more of them, one that ends the session, or a socket that broke. */
  predicate StopsAt(seen: Observed, k: nat, capacity: nat, life: nat) {
    k <= |seen.polls|
    && (k == |seen.polls| || IsTerminal(seen.polls[k]) || |Due(seen, k, capacity)| > life)
  }

  /** The session stops after `k` polls and not before. */
  ghost predicate EndsAt(seen: Observed, k: nat, capacity: nat, life: nat) {
    StopsAt(seen, k, capacity, life) && forall j :: 0 <= j < k ==> !StopsAt(seen, j, capacity, life)
  }

  function EndOf(seen: Observed, k: nat, capacity: nat, life: nat): End
    requires k <= |seen.polls|
  {
    if |Due(seen, k, capacity)| > life then WebSocketError
    else if k == |seen.polls| then StillOpen
    else if seen.polls[k].ReadError? then WebSocketError
    else Finished
  }

  /** What of it a socket that breaks after `life` frames carries. */
  function Carried(frames: seq<Frame>, life: nat): seq<Frame> {
    if |frames| <= life then frames else frames[..life]
  }

  /** The session went exactly as it must. */
  ghost predicate Served(seen: Observed, k: nat, capacity: nat, life: nat, wire: seq<Frame>, end: End, c: Connection) {
    && EndsAt(seen, k, capacity, life)
    && wire == Carried(Due(seen, k, capacity), life)
    && end == EndOf(seen, k, capacity, life)
    && c == Position(seen.polls[..k], seen.start, capacity)
  }

  lemma NothingPolled(start: nat, capacity: nat)
    ensures Position([], start, capacity) == Listening(start) && Listening(start).next == start
  {
  }

  lemma PolledSnoc(seen: Observed, k: nat, capacity: nat)
    requires k < |seen.polls|
    ensures var c := Position(seen.polls[..k], seen.start, capacity);
            && Position(seen.polls[..k + 1], seen.start, capacity) == Polled(c, seen.polls[k], capacity)
            && Due(seen, k + 1, capacity) == Due(seen, k, capacity) + Reply(c, seen.polls[k], seen.log, capacity)
  {
    assert seen.polls[..k + 1][..k] == seen.polls[..k];
    hide Reply, Polled;
  }

  // ---- What that amounts to

  /** Only a broken socket leaves anything unsent, and then just the last frame. */
  lemma {:induction false} AtMostOneUnsent(seen: Observed, k: nat, capacity: nat, life: nat)
    requires EndsAt(seen, k, capacity, life)
    ensures |Due(seen, k, capacity)| <= life + 1
    ensures EndOf(seen, k, capacity, life) != WebSocketError ==> |Due(seen, k, capacity)| <= life
    ensures |Carried(Due(seen, k, capacity), life)| + 1 >= |Due(seen, k, capacity)|
  {
    if k > 0 {
      PolledSnoc(seen, k - 1, capacity);
      assert !StopsAt(seen, k - 1, capacity, life);
      hide Due, Reply, Position;
    }
  }

  /** The session finishes iff a close from either side is the first terminal poll and the socket carried
      everything due until then. */
  lemma FinishesExactly(seen: Observed, k: nat, capacity: nat, life: nat)
    requires EndsAt(seen, k, capacity, life)
    ensures EndOf(seen, k, capacity, life) == Finished <==>
            exists t :: 0 <= t < |seen.polls| && IsFirstTerminal(seen.polls, t)
                        && !seen.polls[t].ReadError? && |Due(seen, t, capacity)| <= life
  {
    if k < |seen.polls| && IsTerminal(seen.polls[k]) {
      forall j | 0 <= j < k
        ensures !IsTerminal(seen.polls[j])
      {
        assert !StopsAt(seen, j, capacity, life);
      }
      assert IsFirstTerminal(seen.polls, k);
    }
    forall t | 0 <= t < |seen.polls| && IsFirstTerminal(seen.polls, t) && |Due(seen, t, capacity)| <= life
      ensures k <= t && (k == t || |Due(seen, k, capacity)| > life)
    {
      assert StopsAt(seen, t, capacity, life);
    }
    forall t | 0 <= t < |seen.polls| && IsFirstTerminal(seen.polls, t) && |Due(seen, t, capacity)| <= life
      ensures |Due(seen, k, capacity)| <= life
    {
      DueGrows(seen, k, t, capacity);
    }
    hide Due;
  }

  predicate IsFirstTerminal(polls: seq<Poll>, t: nat)
    requires t < |polls|
  {
    && (polls[t].ChannelClosed? || polls[t].ClientLeft? || polls[t].ReadError?)
    && forall j :: 0 <= j < t ==> !polls[j].ChannelClosed? && !polls[j].ClientLeft? && !polls[j].ReadError?
  }

  /** How the other sessions end: with a socket error if a read error is the first terminal event or the socket
      broke before, and not at all iff there is no terminal event and everything due was carried. */
  lemma OtherEndsExactly(seen: Observed, k: nat, capacity: nat, life: nat)
    requires EndsAt(seen, k, capacity, life)
    ensures EndOf(seen, k, capacity, life) == WebSocketError <==>
            || |Due(seen, k, capacity)| > life
            || exists t :: 0 <= t < |seen.polls| && IsFirstTerminal(seen.polls, t) && seen.polls[t].ReadError?
    ensures EndOf(seen, k, capacity, life) == StillOpen <==>
            && k == |seen.polls| && |Due(seen, k, capacity)| <= life
            && forall t :: 0 <= t < |seen.polls| ==> !IsFirstTerminal(seen.polls, t)
    ensures EndOf(seen, k, capacity, life) in {WebSocketError, StillOpen, Finished}
  {
    hide Due;
    forall j | 0 <= j < k
      ensures !IsTerminal(seen.polls[j])
    {
      assert !StopsAt(seen, j, capacity, life);
    }
    if k < |seen.polls| && IsTerminal(seen.polls[k]) {
      assert IsFirstTerminal(seen.polls, k);
    }
  }

  lemma {:induction false} DueGrows(seen: Observed, j: nat, k: nat, capacity: nat)
    requires j <= k <= |seen.polls|
    ensures |Due(seen, j, capacity)| <= |Due(seen, k, capacity)|
  {
    if j < k {
      PolledSnoc(seen, k - 1, capacity);
      DueGrows(seen, j, k - 1, capacity);
    }
  }

  /** What is due are the snapshot and the messages forwarded, in channel order, and an answer to each ping. */
  lemma {:induction false} DueTexts(seen: Observed, k: nat, capacity: nat)
    requires k <= |seen.polls|
    ensures TextsOf(Due(seen, k, capacity))
         == ToSeq(seen.snapshot) + MessagesOf(Position(seen.polls[..k], seen.start, capacity).events, seen.log)
    ensures PongsOf(Due(seen, k, capacity)) == PingsOf(seen.polls[..k])
  {
    hide Due, Position, TextsOf, PongsOf, PingsOf, MessagesOf, Reply, Polled;
    if k == 0 {
      FirstDue(seen, capacity);
    } else {
      var c, poll := Position(seen.polls[..k - 1], seen.start, capacity), seen.polls[k - 1];
      DueTexts(seen, k - 1, capacity);
      PolledSnoc(seen, k - 1, capacity);
      OnePollMore(seen.polls, k - 1);
      ReplyTexts(Due(seen, k - 1, capacity), c, poll, seen.log, capacity);
      Associates(ToSeq(seen.snapshot), MessagesOf(c.events, seen.log), TextsOf(Reply(c, poll, seen.log, capacity)));
    }
  }

  lemma FirstDue(seen: Observed, capacity: nat)
    ensures TextsOf(Due(seen, 0, capacity))
         == ToSeq(seen.snapshot) + MessagesOf(Position(seen.polls[..0], seen.start, capacity).events, seen.log)
    ensures PongsOf(Due(seen, 0, capacity)) == PingsOf(seen.polls[..0])
  {
    assert seen.polls[..0] == [];
    SnapshotTexts(seen.snapshot);
  }

  lemma OnePollMore(polls: seq<Poll>, k: nat)
    requires k < |polls|
    ensures PingsOf(polls[..k + 1]) == PingsOf(polls[..k]) + if polls[k].Ping? then [polls[k].payload] else []
  {
    assert polls[..k + 1] == polls[..k] + [polls[k]];
    PingsSnoc(polls[..k], polls[k]);
  }

  lemma SnapshotTexts(snapshot: Option<ServerMessage>)
    ensures TextsOf(SnapshotFrames(snapshot)) == ToSeq(snapshot) && PongsOf(SnapshotFrames(snapshot)) == []
    ensures SnapshotFrames(snapshot) + [] == SnapshotFrames(snapshot) && ToSeq(snapshot) + [] == ToSeq(snapshot)
  {
    if snapshot.Some? {
      WireSnoc([], Text(snapshot.value));
      assert [] + [Text(snapshot.value)] == [Text(snapshot.value)];
    }
  }

  /** A received message goes out as text, and nothing else does. */
  lemma ReceivedTexts(c: Connection, sent: nat, log: seq<ServerMessage>, capacity: nat)
    ensures var frames := Reply(c, ChannelHolds(sent), log, capacity);
            && MessagesOf(Polled(c, ChannelHolds(sent), capacity).events, log)
               == MessagesOf(c.events, log) + (if frames == [] then [] else [frames[0].msg])
            && (frames != [] ==> frames == [Text(frames[0].msg)])
  {
    if c.next < sent {
      MessagesSnoc(c.events, Last(Received(c, sent, capacity).events), log);
    }
    hide MessagesOf;
  }

  /** One more poll, in texts and in pongs. */
  lemma ReplyTexts(due: seq<Frame>, c: Connection, poll: Poll, log: seq<ServerMessage>, capacity: nat)
    ensures var reply := Reply(c, poll, log, capacity);
            && MessagesOf(Polled(c, poll, capacity).events, log) == MessagesOf(c.events, log) + TextsOf(reply)
            && TextsOf(due + reply) == TextsOf(due) + TextsOf(reply)
            && PongsOf(due + reply) == PongsOf(due) + (if poll.Ping? then [poll.payload] else [])
  {
    var reply := Reply(c, poll, log, capacity);
    PlainPoll(c, poll, log, capacity);
    if poll.ChannelHolds? {
      ReceivedTexts(c, poll.sent, log, capacity);
    } else if !poll.Ping? {
      assert reply == [];
    }
    hide MessagesOf, Reply, Polled;
    if reply == [] {
      Unextended(due);
      Unextended(MessagesOf(c.events, log));
    } else {
      OneFrame(due, reply[0]);
      assert reply == [reply[0]];
      hide TextsOf, PongsOf;
      Unextended(MessagesOf(c.events, log));
    }
  }

  lemma OneFrame(due: seq<Frame>, f: Frame)
    ensures TextsOf([f]) == (if f.Text? then [f.msg] else [])
    ensures TextsOf(due + [f]) == TextsOf(due) + TextsOf([f])
    ensures PongsOf(due + [f]) == PongsOf(due) + (if f.Pong? then [f.payload] else [])
  {
    WireSnoc(due, f);
    WireSnoc([], f);
    assert [] + [f] == [f];
  }

  // ---- The session itself

  /** Subscribes, sends the snapshot, then forwards until either side ends the session. */
  method HandleConnection(opening: Opening, registry: map<string, Observed>, capacity: nat, socket: Socket)
    returns (end: End, receiver: Receiver?, ghost turns: nat)
    requires forall key <- registry :: registry[key].Consistent()
    requires socket.wire == []
    modifies socket
    ensures receiver != null <==> opening.Request? && opening.key in registry
    ensures opening.BadJson? ==> end == JsonError && socket.wire == []
    ensures opening.NotText? ==> end == NoSubscribeRequest && socket.wire == []
    ensures opening.Request? && opening.key !in registry ==>
              && end == (if socket.life > 0 then UnknownStream(opening.key) else WebSocketError)
              && socket.wire == if socket.life > 0 then [Text(Error("unknown stream: " + opening.key))] else []
    ensures opening.Request? && opening.key in registry ==>
              && fresh(receiver) && receiver.Valid()
              && Served(registry[opening.key], turns, capacity, socket.life, socket.wire, end, receiver.View())
  {
    receiver, turns := null, 0;
    match opening
    case BadJson => return JsonError, null, 0;
    case NotText => return NoSubscribeRequest, null, 0;
    case Request(key) =>
      if key !in registry {
        var ok := socket.Send(Text(UnknownStreamMessage(key)));
        return if ok then UnknownStream(key) else WebSocketError, null, 0;
      }
      var seen := registry[key];
      receiver := new Receiver(seen.start, capacity);
      assert seen.polls[..0] == [];
      if seen.snapshot.Some? {
        var ok := socket.Send(Text(seen.snapshot.value));
        if !ok {
          return WebSocketError, receiver, 0;
        }
      }
      end, turns := Forward(seen, receiver, socket);
  }

  /** Receives from the channel if it holds more, and sends on what was received; a lag is passed over. */
  method ForwardNext(log: seq<ServerMessage>, sent: nat, receiver: Receiver, socket: Socket) returns (ok: bool)
    requires receiver.Valid() && receiver.next <= |log| && sent <= |log|
    modifies receiver, socket
    ensures receiver.Valid() && receiver.next <= |log|
    ensures receiver.View() == Polled(old(receiver.View()), ChannelHolds(sent), receiver.capacity)
    ensures var reply := Reply(old(receiver.View()), ChannelHolds(sent), log, receiver.capacity);
            && (ok <==> |old(socket.wire)| + |reply| <= socket.life || reply == [])
            && socket.wire == if ok then old(socket.wire) + reply else old(socket.wire)
  {
    hide Paced, TextsOf, PongsOf;
    if receiver.next >= sent {
      return true;
    }
    var e := receiver.Recv(sent);
    if e.Lagged? {
      return true;
    }
    ok := socket.Send(Text(log[e.index]));
  }

  /** One turn of the session loop: what it is to stop with, if it stops. */
  method Turn(seen: Observed, i: nat, receiver: Receiver, socket: Socket) returns (stop: Option<End>)
    requires seen.Consistent() && i < |seen.polls| && receiver.Valid() && receiver.next <= |seen.log|
    requires receiver.View() == Position(seen.polls[..i], seen.start, receiver.capacity)
    requires socket.wire == Due(seen, i, receiver.capacity) && |socket.wire| <= socket.life
    modifies receiver, socket
    ensures receiver.Valid() && receiver.next <= |seen.log|
    ensures IsTerminal(seen.polls[i]) ==>
              && stop == Some(EndOf(seen, i, receiver.capacity, socket.life))
              && socket.wire == old(socket.wire) && receiver.View() == old(receiver.View())
    ensures !IsTerminal(seen.polls[i]) ==>
              var due := Due(seen, i + 1, receiver.capacity);
              && receiver.View() == Position(seen.polls[..i + 1], seen.start, receiver.capacity)
              && socket.wire == Carried(due, socket.life)
              && stop == if |due| > socket.life then Some(WebSocketError) else None
  {
    hide Paced, TextsOf, PongsOf, Reply, Polled, Due, Position, Listening;
    var poll := seen.polls[i];
    PolledSnoc(seen, i, receiver.capacity);
    PlainPoll(receiver.View(), poll, seen.log, receiver.capacity);
    match poll {
      case ChannelHolds(sent) =>
        var ok := ForwardNext(seen.log, sent, receiver, socket);
        stop := if ok then None else Some(WebSocketError);
      case Ping(payload) =>
        var ok := socket.Send(Pong(payload));
        stop := if ok then None else Some(WebSocketError);
      case ChannelClosed | ClientLeft => stop := Some(Finished);
      case ReadError => stop := Some(WebSocketError);
      case OtherFrame =>
        Unextended(socket.wire);
        stop := None;
    }
  }

  /** The session loop. */
  method Forward(seen: Observed, receiver: Receiver, socket: Socket) returns (end: End, ghost turns: nat)
    requires seen.Consistent() && receiver.Valid() && receiver.View() == Listening(seen.start)
    requires socket.wire == Due(seen, 0, receiver.capacity) && |socket.wire| <= socket.life
    modifies receiver, socket
    ensures receiver.Valid()
    ensures Served(seen, turns, receiver.capacity, socket.life, socket.wire, end, receiver.View())
  {
    hide Paced, Due, Position, Listening, IsTerminal, TextsOf, PongsOf;
    ghost var capacity, life := receiver.capacity, socket.life;
    NothingPolled(seen.start, capacity);
    assert seen.polls[..0] == [];
    for i := 0 to |seen.polls|
      invariant receiver.Valid() && receiver.next <= |seen.log|
      invariant receiver.View() == Position(seen.polls[..i], seen.start, capacity)
      invariant socket.wire == Due(seen, i, capacity) && |socket.wire| <= life
      invariant forall j :: 0 <= j < i ==> !StopsAt(seen, j, capacity, life)
    {
      var stop := Turn(seen, i, receiver, socket);
      if stop.Some? {
        return stop.value, if IsTerminal(seen.polls[i]) then i else i + 1;
      }
    }
    return StillOpen, |seen.polls|;
  }

  /** Polls other than the channel's leave the position alone. */
  lemma PlainPoll(c: Connection, poll: Poll, log: seq<ServerMessage>, capacity: nat)
    ensures !poll.ChannelHolds? ==> Polled(c, poll, capacity) == c
    ensures poll.Ping? ==> Reply(c, poll, log, capacity) == [Pong(poll.payload)]
    ensures poll.OtherFrame? ==> Reply(c, poll, log, capacity) == []
    ensures |Reply(c, poll, log, capacity)| <= 1
  {
  }

  function UnknownStreamMessage(key: string): ServerMessage {
    Error("unknown stream: " + key)
  }
}
