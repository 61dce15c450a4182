/** What one worker publishes, as a function of everything it was fed. */
module Feed {
  import opened Wrappers
  import opened VolumeClock
  import opened Numerics
  import opened VpinBatch
  import opened VpinProperties
  import opened TapeFormat
  import opened Messages
  import opened StreamProtocol
  import Fixed8

  /** What wakes a worker: its heartbeat timer, or a trade. */
  datatype FeedEvent = Beat(tsNs: nat) | Arrived(trade: NormalizedTrade)

  /** Prices and quantities are scaled by 10^8 on the wire. */
  function ToTrade(t: NormalizedTrade): (trade: Trade)
    ensures trade.ts == t.tsExchangeNs
    ensures trade.price * 100000000.0 == t.price as real && trade.volume * 100000000.0 == t.qty as real
  {
    Trade(t.price as real / 100000000.0, t.qty as real / 100000000.0, t.tsExchangeNs)
  }

  /** A price or quantity quoted as a decimal reaches the estimator as exactly that decimal, and the time it
      gets is the exchange's. */
  lemma QuotedExactly(quote: string, i: string, f: string, t: NormalizedTrade)
    requires Fixed8.Denotes(Fixed8.Trim(quote), i, f)
    ensures Fixed8.AllDigits(i + f) && Fixed8.Pow10(|f|) > 0
    ensures var decimal := Fixed8.Value(i + f) as real / Fixed8.Pow10(|f|) as real;
            && (Fixed8.ParseFixed8(quote) == Ok(t.price) ==> ToTrade(t).price == decimal)
            && (Fixed8.ParseFixed8(quote) == Ok(t.qty) ==> ToTrade(t).volume == decimal)
    ensures ToTrade(t).ts == t.tsExchangeNs
  {
    hide Fixed8.ParseFixed8, Fixed8.Trim, Fixed8.Value, Fixed8.Pow10, Fixed8.Scaled;
    Fixed8.DenotedParses(quote, i, f);
    Fixed8.UnscaledExactly(i, f);
  }

  function TradesOf(inbox: seq<FeedEvent>): (tape: seq<Trade>) {
    if inbox == [] then []
    else
      var e := inbox[|inbox| - 1];
      TradesOf(inbox[..|inbox| - 1]) + if e.Arrived? then [ToTrade(e.trade)] else []
  }

  /** A message has a reading's fields, each in its place. */
  predicate Carries(msg: ServerMessage, r: VpinReading)
    requires msg.Reading?
  {
    && msg.bucketId == r.bucketId && msg.tsCloseNs == r.tsClose && msg.tradesInBucket == r.tradesInBucket
    && msg.vpin == r.vpin && msg.vpinCdf == r.vpinCdf
  }

  /** The wire form of a reading; the confidence interval is not sent. */
  function ToMessage(r: VpinReading): (msg: ServerMessage)
    ensures msg.Reading? && Carries(msg, r)
  {
    Reading(r.bucketId, r.tsClose, r.tradesInBucket, r.vpin, r.vpinCdf)
  }

  function ToMessages(rs: seq<VpinReading>): (msgs: seq<ServerMessage>)
    ensures |msgs| == |rs|
    ensures forall i :: 0 <= i < |rs| ==> msgs[i] == ToMessage(rs[i])
  {
    seq(|rs|, i requires 0 <= i < |rs| => ToMessage(rs[i]))
  }

  /** The readings a tape gains with one more trade. */
  function NewReadings(tape: seq<Trade>, t: Trade, cfg: EngineConfig, m: Maths): seq<VpinReading>
    requires cfg.Valid()
  {
    var before, after := TapeReadings(tape, cfg, m), TapeReadings(tape + [t], cfg, m);
    if |before| <= |after| then after[|before|..] else []
  }

  /** What one event makes a worker publish, given the trades before it. */
  function Answer(tape: seq<Trade>, e: FeedEvent, cfg: EngineConfig, m: Maths): seq<ServerMessage>
    requires cfg.Valid()
  {
    match e
    case Beat(ts) => [Heartbeat(ts)]
    case Arrived(t) => ToMessages(NewReadings(tape, ToTrade(t), cfg, m))
  }

  /** Everything a worker publishes, in order. */
  function Published(inbox: seq<FeedEvent>, cfg: EngineConfig, m: Maths): (log: seq<ServerMessage>)
    requires cfg.Valid()
  {
    if inbox == [] then []
    else
      var front := inbox[..|inbox| - 1];
      Published(front, cfg, m) + Answer(TradesOf(front), inbox[|inbox| - 1], cfg, m)
  }

  lemma FeedSnoc(inbox: seq<FeedEvent>, e: FeedEvent, cfg: EngineConfig, m: Maths)
    requires cfg.Valid()
    ensures TradesOf(inbox + [e]) == TradesOf(inbox) + if e.Arrived? then [ToTrade(e.trade)] else []
    ensures Published(inbox + [e], cfg, m) == Published(inbox, cfg, m) + Answer(TradesOf(inbox), e, cfg, m)
  {
    hide Answer;
    assert (inbox + [e])[..|inbox|] == inbox;
  }

  function ReadingsOf(log: seq<ServerMessage>): (rs: seq<ServerMessage>)
    ensures |rs| == CountReadings(log)
    ensures forall i :: 0 <= i < |rs| ==> rs[i].Reading?
  {
    if log == [] then []
    else ReadingsOf(log[..|log| - 1]) + if log[|log| - 1].Reading? then [log[|log| - 1]] else []
  }

  function HeartbeatsOf(log: seq<ServerMessage>): seq<nat> {
    if log == [] then []
    else HeartbeatsOf(log[..|log| - 1]) + if log[|log| - 1].Heartbeat? then [log[|log| - 1].tsNs] else []
  }

  function BeatsOf(inbox: seq<FeedEvent>): seq<nat> {
    if inbox == [] then []
    else BeatsOf(inbox[..|inbox| - 1]) + if inbox[|inbox| - 1].Beat? then [inbox[|inbox| - 1].tsNs] else []
  }

  lemma BeatsSnoc(inbox: seq<FeedEvent>, e: FeedEvent)
    ensures BeatsOf(inbox + [e]) == BeatsOf(inbox) + if e.Beat? then [e.tsNs] else []
  {
    assert (inbox + [e])[..|inbox|] == inbox;
  }

  lemma {:induction false} ReadingsAppended(log: seq<ServerMessage>, more: seq<ServerMessage>)
    requires forall i :: 0 <= i < |more| ==> more[i].Reading?
    ensures ReadingsOf(log + more) == ReadingsOf(log) + more
    ensures HeartbeatsOf(log + more) == HeartbeatsOf(log)
  {
    if more == [] {
      assert log + more == log;
    } else {
      assert (log + more)[..|log + more| - 1] == log + more[..|more| - 1];
      ReadingsAppended(log, more[..|more| - 1]);
    }
  }

  lemma HeartbeatAppended(log: seq<ServerMessage>, ts: nat)
    ensures ReadingsOf(log + [Heartbeat(ts)]) == ReadingsOf(log)
    ensures HeartbeatsOf(log + [Heartbeat(ts)]) == HeartbeatsOf(log) + [ts]
  {
    assert (log + [Heartbeat(ts)])[..|log|] == log;
  }

  lemma MessagesGrow(rs: seq<VpinReading>, rs': seq<VpinReading>)
    requires rs <= rs'
    ensures ToMessages(rs') == ToMessages(rs) + ToMessages(rs'[|rs|..])
  {
  }

  lemma TradeAnswered(log: seq<ServerMessage>, tape: seq<Trade>, t: NormalizedTrade, cfg: EngineConfig, m: Maths)
    requires cfg.Valid() && ReadingsOf(log) == ToMessages(TapeReadings(tape, cfg, m))
    ensures var log' := log + Answer(tape, Arrived(t), cfg, m);
            ReadingsOf(log') == ToMessages(TapeReadings(tape + [ToTrade(t)], cfg, m))
            && HeartbeatsOf(log') == HeartbeatsOf(log)
  {
    hide TapeReadings, ReadingsOf, ToMessage, HeartbeatsOf, CountReadings;
    ReadingsOnlyGrow(tape, [ToTrade(t)], cfg, m);
    MessagesGrow(TapeReadings(tape, cfg, m), TapeReadings(tape + [ToTrade(t)], cfg, m));
    ReadingsAppended(log, Answer(tape, Arrived(t), cfg, m));
  }

  lemma NothingFed(cfg: EngineConfig, m: Maths)
    requires cfg.Valid()
    ensures Published([], cfg, m) == [] && TradesOf([]) == [] && TapeReadings([], cfg, m) == []
  {
    assert Buckets([], cfg.bucketVolume) == [];
    hide TapeReadings;
  }

  /** A worker publishes the readings of the tape it was fed, one each and in order, and its heartbeats. */
  lemma {:induction false} PublishesEveryReading(inbox: seq<FeedEvent>, cfg: EngineConfig, m: Maths)
    requires cfg.Valid()
    ensures ReadingsOf(Published(inbox, cfg, m)) == ToMessages(TapeReadings(TradesOf(inbox), cfg, m))
    ensures HeartbeatsOf(Published(inbox, cfg, m)) == BeatsOf(inbox)
  {
    hide TapeReadings, ToMessages, NewReadings, ToTrade;
    if inbox == [] {
      NothingFed(cfg, m);
    } else {
      hide ReadingsOf, HeartbeatsOf, CountReadings, Published, TradesOf, BeatsOf;
      var front, e := inbox[..|inbox| - 1], inbox[|inbox| - 1];
      PublishesEveryReading(front, cfg, m);
      assert inbox == front + [e];
      FeedSnoc(front, e, cfg, m);
      BeatsSnoc(front, e);
      if e.Beat? {
        HeartbeatAppended(Published(front, cfg, m), e.tsNs);
        assert TradesOf(front) + [] == TradesOf(front);
      } else {
        TradeAnswered(Published(front, cfg, m), TradesOf(front), e.trade, cfg, m);
        hide Answer;
        assert e == Arrived(e.trade);
        assert BeatsOf(front) + [] == BeatsOf(front);
      }
    }
  }

  /** The i-th reading published has the fields of the tape's i-th reading, each in its place. */
  lemma PublishedFields(inbox: seq<FeedEvent>, cfg: EngineConfig, m: Maths, i: nat)
    requires cfg.Valid() && i < |TapeReadings(TradesOf(inbox), cfg, m)|
    ensures |ReadingsOf(Published(inbox, cfg, m))| == |TapeReadings(TradesOf(inbox), cfg, m)|
    ensures var msg, r := ReadingsOf(Published(inbox, cfg, m))[i], TapeReadings(TradesOf(inbox), cfg, m)[i];
            && msg.Reading?
            && msg.bucketId == r.bucketId && msg.tsCloseNs == r.tsClose && msg.tradesInBucket == r.tradesInBucket
            && msg.vpin == r.vpin && msg.vpinCdf == r.vpinCdf
  {
    PublishesEveryReading(inbox, cfg, m);
    hide Published, TapeReadings, ReadingsOf, TradesOf, ToMessage;
  }

  /** The k-th reading of a log is at the position that has k readings before it. */
  lemma {:induction false} ReadingsInPlace(log: seq<ServerMessage>, i: nat)
    requires i < |log| && log[i].Reading?
    ensures CountReadings(log[..i]) < CountReadings(log)
    ensures ReadingsOf(log)[CountReadings(log[..i])] == log[i]
    decreases |log|
  {
    if i < |log| - 1 {
      var front := log[..|log| - 1];
      ReadingsInPlace(front, i);
      assert front[..i] == log[..i];
    }
  }

  /** Published readings carry the bucket ids 0, 1, 2, ... */
  lemma PublishedIdsConsecutive(inbox: seq<FeedEvent>, cfg: EngineConfig, m: Maths)
    requires cfg.Valid() && m.Valid()
    ensures NumberedReadings(Published(inbox, cfg, m))
    ensures CountReadings(Published(inbox, cfg, m)) == |TapeReadings(TradesOf(inbox), cfg, m)|
  {
    var log := Published(inbox, cfg, m);
    PublishesEveryReading(inbox, cfg, m);
    hide Published, TapeReadings, CountReadings, ReadingsOf, UnitReading;
    forall i | 0 <= i < |log| && log[i].Reading?
      ensures log[i].bucketId == CountReadings(log[..i])
    {
      ReadingsInPlace(log, i);
      ReadingsWithinUnit(TradesOf(inbox), CountReadings(log[..i]), cfg, m);
    }
  }
}

/** The worker of one stream, and the entry it publishes to. */
module Worker {
  import opened Wrappers
  import opened VpinErrors
  import opened VolumeClock
  import opened Numerics
  import opened VpinBatch
  import opened VpinEngine
  import opened TapeFormat
  import opened Messages
  import opened StreamProtocol
  import opened Feed

  /** What a publication does to the shared state, one atomic action at a time. */
  datatype Action = Recorded(msg: ServerMessage) | Sent(msg: ServerMessage)

  /** Every message recorded, then sent, before the next one is touched. */
  function TraceOf(log: seq<ServerMessage>): seq<Action> {
    if log == [] then []
    else
      var msg := log[|log| - 1];
      TraceOf(log[..|log| - 1]) + [Recorded(msg), Sent(msg)]
  }

  lemma TraceSnoc(log: seq<ServerMessage>, msg: ServerMessage)
    ensures TraceOf(log + [msg]) == TraceOf(log) + [Recorded(msg), Sent(msg)]
  {
    assert (log + [msg])[..|log|] == log;
  }

  /** The protocol step an action is. */
  function StepOf(a: Action): Step {
    match a
    case Recorded(msg) => Begin(msg)
    case Sent(_) => Finish
  }

  function StepsOf(trace: seq<Action>): (steps: seq<Step>)
    ensures |steps| == |trace|
  {
    seq(|trace|, i requires 0 <= i < |trace| => StepOf(trace[i]))
  }

  /** A worker's actions are a run of the protocol in the service's order, and leave its log published. */
  lemma {:induction false} TraceIsARun(log: seq<ServerMessage>, capacity: nat)
    ensures Execute(StepsOf(TraceOf(log)), SERVICE, capacity) == Some(System(log, |log|, |log|, map[]))
  {
    if log == [] {
      assert StepsOf([]) == [];
    } else {
      var front, msg := log[..|log| - 1], log[|log| - 1];
      var steps, s := StepsOf(TraceOf(front)), System(front, |front|, |front|, map[]);
      TraceIsARun(front, capacity);
      assert log == front + [msg];
      assert StepsOf(TraceOf(log)) == steps + [Begin(msg)] + [Finish];
      hide Execute, TraceOf, StepsOf;
      Extended(steps, Begin(msg), SERVICE, capacity, s);
      Extended(steps + [Begin(msg)], Finish, SERVICE, capacity, System(log, |log|, |front|, map[]));
    }
  }

  class StreamEntry {
    var lastMessage: Option<ServerMessage>
    /** Everything that entered the broadcast channel. */
    var sent: seq<ServerMessage>
    var workerAlive: bool
    var tradesProcessed: nat
    var readingsEmitted: nat
    var lastTradeTs: Option<nat>
    var lastHeartbeatTs: Option<nat>
    ghost var trace: seq<Action>

    constructor ()
      ensures HasPublished([], []) && HasCounted([]) && !workerAlive
    {
      lastMessage, sent, workerAlive := None, [], false;
      tradesProcessed, readingsEmitted, lastTradeTs, lastHeartbeatTs := 0, 0, None, None;
      trace := [];
    }

    /** Channel, snapshot and publication counters after `log` was published. */
    ghost predicate HasPublished(log: seq<ServerMessage>, beats: seq<nat>)
      reads this`sent, this`lastMessage, this`readingsEmitted, this`lastHeartbeatTs, this`trace
    {
      && sent == log && trace == TraceOf(log)
      && lastMessage == (if log == [] then None else Some(log[|log| - 1]))
      && readingsEmitted == CountReadings(log)
      && lastHeartbeatTs == (if beats == [] then None else Some(beats[|beats| - 1]))
    }

    ghost predicate HasCounted(tape: seq<Trade>)
      reads this`tradesProcessed, this`lastTradeTs
    {
      && tradesProcessed == |tape|
      && lastTradeTs == (if tape == [] then None else Some(tape[|tape| - 1].ts))
    }

    /** The entry after a worker was fed `inbox`: channel, snapshot and counters agree. */
    ghost predicate Reflects(inbox: seq<FeedEvent>, cfg: EngineConfig, m: Maths)
      requires cfg.Valid()
      reads this`sent, this`lastMessage, this`readingsEmitted, this`lastHeartbeatTs, this`trace
      reads this`tradesProcessed, this`lastTradeTs
    {
      HasPublished(Published(inbox, cfg, m), BeatsOf(inbox)) && HasCounted(TradesOf(inbox))
    }

    method Record(msg: ServerMessage)
      modifies this`lastMessage, this`trace
      ensures lastMessage == Some(msg) && trace == old(trace) + [Recorded(msg)]
    {
      lastMessage := Some(msg);
      trace := trace + [Recorded(msg)];
    }

    method Send(msg: ServerMessage)
      modifies this`sent, this`trace
      ensures sent == old(sent) + [msg] && trace == old(trace) + [Sent(msg)]
    {
      sent := sent + [msg];
      trace := trace + [Sent(msg)];
    }

    /** Records first, then sends. */
    method Publish(msg: ServerMessage)
      modifies this`lastMessage, this`sent, this`trace
      ensures lastMessage == Some(msg) && sent == old(sent) + [msg]
      ensures trace == old(trace) + [Recorded(msg), Sent(msg)]
    {
      Record(msg);
      Send(msg);
    }

    method PublishHeartbeat(ts: nat, ghost log: seq<ServerMessage>, ghost beats: seq<nat>)
      requires HasPublished(log, beats)
      modifies this`lastMessage, this`sent, this`trace, this`lastHeartbeatTs
      ensures HasPublished(log + [Heartbeat(ts)], beats + [ts])
    {
      CountSnoc(sent, Heartbeat(ts));
      TraceSnoc(sent, Heartbeat(ts));
      hide CountReadings, TraceOf;
      Publish(Heartbeat(ts));
      lastHeartbeatTs := Some(ts);
    }

    method CountTrade(t: Trade, ghost tape: seq<Trade>)
      requires HasCounted(tape)
      modifies this`tradesProcessed, this`lastTradeTs
      ensures HasCounted(tape + [t])
    {
      tradesProcessed := tradesProcessed + 1;
      lastTradeTs := Some(t.ts);
    }

    /** Publishes a reading and counts it. */
    method PublishReading(reading: VpinReading, ghost log: seq<ServerMessage>, ghost beats: seq<nat>)
      requires HasPublished(log, beats)
      modifies this`lastMessage, this`sent, this`trace, this`readingsEmitted
      ensures HasPublished(log + [ToMessage(reading)], beats)
    {
      CountSnoc(sent, ToMessage(reading));
      TraceSnoc(sent, ToMessage(reading));
      hide CountReadings, TraceOf;
      Publish(ToMessage(reading));
      readingsEmitted := readingsEmitted + 1;
    }
  }

  lemma CountSnoc(log: seq<ServerMessage>, msg: ServerMessage)
    ensures CountReadings(log + [msg]) == CountReadings(log) + if msg.Reading? then 1 else 0
  {
    assert (log + [msg])[..|log|] == log;
  }

  /** What an entry holds after `inbox`, field by field. */
  lemma EntryExactly(entry: StreamEntry, inbox: seq<FeedEvent>, cfg: EngineConfig, m: Maths)
    requires cfg.Valid() && entry.Reflects(inbox, cfg, m)
    ensures entry.sent == Published(inbox, cfg, m)
    ensures entry.lastMessage == if entry.sent == [] then None else Some(entry.sent[|entry.sent| - 1])
    ensures entry.readingsEmitted == |ReadingsOf(entry.sent)| && entry.tradesProcessed == |TradesOf(inbox)|
    ensures var trades, beats := TradesOf(inbox), BeatsOf(inbox);
            && entry.lastTradeTs == (if trades == [] then None else Some(trades[|trades| - 1].ts))
            && entry.lastHeartbeatTs == (if beats == [] then None else Some(beats[|beats| - 1]))
  {
    hide Published, TradesOf, BeatsOf, CountReadings, ReadingsOf;
  }

  method OnHeartbeat(entry: StreamEntry, ts: nat, ghost inbox: seq<FeedEvent>, ghost cfg: EngineConfig, ghost m: Maths)
    requires cfg.Valid() && entry.Reflects(inbox, cfg, m)
    modifies entry
    ensures entry.Reflects(inbox + [Beat(ts)], cfg, m) && entry.workerAlive == old(entry.workerAlive)
  {
    FeedSnoc(inbox, Beat(ts), cfg, m);
    BeatsSnoc(inbox, Beat(ts));
    assert TradesOf(inbox) + [] == TradesOf(inbox);
    hide Published, TradesOf, BeatsOf, CountReadings, EngineConfig.Valid;
    entry.PublishHeartbeat(ts, Published(inbox, cfg, m), BeatsOf(inbox));
  }

  lemma AppendedOnly<T>(front: seq<T>, tail: seq<T>)
    ensures front <= front + tail && (front + tail)[|front|..] == tail
  {
  }

  lemma OneMessage(reading: Option<VpinReading>)
    ensures ToMessages(ToSeq(reading)) == if reading.None? then [] else [ToMessage(reading.value)]
  {
  }

  /** What one trade publishes, given the reading it produced. */
  lemma PublishedByTrade(
    inbox: seq<FeedEvent>, t: NormalizedTrade, reading: Option<VpinReading>, cfg: EngineConfig, m: Maths)
    requires cfg.Valid()
    requires TapeReadings(TradesOf(inbox) + [ToTrade(t)], cfg, m)
          == TapeReadings(TradesOf(inbox), cfg, m) + ToSeq(reading)
    ensures Published(inbox + [Arrived(t)], cfg, m)
         == Published(inbox, cfg, m) + if reading.None? then [] else [ToMessage(reading.value)]
  {
    FeedSnoc(inbox, Arrived(t), cfg, m);
    hide TapeReadings, TradesOf, Published, ToMessage, ToTrade;
    AppendedOnly(TapeReadings(TradesOf(inbox), cfg, m), ToSeq(reading));
    hide ToMessages;
    OneMessage(reading);
  }

  method OnTrade(entry: StreamEntry, engine: Engine, t: NormalizedTrade, ghost inbox: seq<FeedEvent>)
    requires engine.Valid() && entry !in engine.Repr() && engine.Tape() == TradesOf(inbox)
    requires engine.cfg.Valid() && entry.Reflects(inbox, engine.cfg, engine.maths)
    modifies entry, engine.Repr()
    ensures engine.Valid() && engine.Tape() == TradesOf(inbox + [Arrived(t)])
    ensures entry.Reflects(inbox + [Arrived(t)], engine.cfg, engine.maths)
    ensures entry.workerAlive == old(entry.workerAlive)
  {
    hide Published, TradesOf, BeatsOf, TapeReadings, ToMessage, ToTrade, Closing, StreamEntry.HasPublished,
         StreamEntry.HasCounted, Engine.Valid, Engine.PartsValid, Engine.Tracks, EngineConfig.Valid;
    ghost var cfg, m := engine.cfg, engine.maths;
    FeedSnoc(inbox, Arrived(t), cfg, m);
    BeatsSnoc(inbox, Arrived(t));
    assert BeatsOf(inbox) + [] == BeatsOf(inbox);
    entry.CountTrade(ToTrade(t), TradesOf(inbox));
    var reading := engine.PushTrade(ToTrade(t));
    PublishedByTrade(inbox, t, reading, cfg, m);
    assert Published(inbox, cfg, m) + [] == Published(inbox, cfg, m);
    if reading.Some? {
      entry.PublishReading(reading.value, Published(inbox, cfg, m), BeatsOf(inbox));
    }
  }

  /** A worker's whole life on a fresh entry: it builds its engine, handles its inbox in order and marks
      itself dead when the trade channel closes. A rejected configuration is the only failure. */
  method Run(cfg: EngineConfig, maths: Maths, inbox: seq<FeedEvent>, entry: StreamEntry)
    returns (r: Result<Engine, VpinError>)
    requires entry.HasPublished([], []) && entry.HasCounted([])
    modifies entry
    ensures r.Ok? <==> cfg.Valid()
    ensures r.Ok? ==> entry.Reflects(inbox, cfg, maths) && !entry.workerAlive
    ensures r.Err? ==> entry.HasPublished([], []) && r.error == ConfigError(cfg)
  {
    hide Published, TradesOf, BeatsOf, ConfigError, StreamEntry.Reflects,
         Engine.Valid, Engine.PartsValid, Engine.Tracks, EngineConfig.Valid;
    r := Engine.New(cfg, maths);
    if r.Err? {
      return;
    }
    var engine := r.value;
    entry.workerAlive := true;
    assert inbox[..0] == [];
    NothingFed(cfg, maths);
    StartsEmpty(entry, cfg, maths);
    for i := 0 to |inbox|
      invariant engine.Valid() && fresh(engine.Repr()) && engine.cfg == cfg && engine.maths == maths
      invariant engine.Tape() == TradesOf(inbox[..i])
      invariant entry.Reflects(inbox[..i], cfg, maths) && entry.workerAlive
    {
      assert inbox[..i + 1] == inbox[..i] + [inbox[i]];
      if inbox[i].Beat? {
        BeatAddsNoTrade(inbox[..i], inbox[i]);
        OnHeartbeat(entry, inbox[i].tsNs, inbox[..i], cfg, maths);
      } else {
        OnTrade(entry, engine, inbox[i].trade, inbox[..i]);
      }
    }
    assert inbox[..|inbox|] == inbox;
    entry.workerAlive := false;
  }

  lemma BeatAddsNoTrade(inbox: seq<FeedEvent>, e: FeedEvent)
    requires e.Beat?
    ensures TradesOf(inbox + [e]) == TradesOf(inbox)
  {
    assert (inbox + [e])[..|inbox|] == inbox;
  }

  lemma StartsEmpty(entry: StreamEntry, cfg: EngineConfig, m: Maths)
    requires cfg.Valid() && entry.HasPublished([], []) && entry.HasCounted([])
    ensures entry.Reflects([], cfg, m)
  {
    NothingFed(cfg, m);
  }
}
