/** The subscriber's side: one state a caller can read at any time, kept by a loop that reconnects forever. */
module Client {
  import opened Wrappers
  import opened Powers
  import opened Messages

  datatype ToxicityState =
    | Connecting
    | Warming(tradesInBucket: nat)
    | Live(vpin: real, vpinCdf: Option<real>, tradesInBucket: nat)
    | Stale

  /** Durations and times are in nanoseconds. */
  datatype ClientConfig = ClientConfig(staleAfter: nat, backoffBase: nat, backoffMax: nat)
  {
    /** Staleness is checked twice per threshold, at most once a millisecond. */
    function Period(): (p: nat)
      ensures p >= 1000000
    {
      if staleAfter / 2 > 1000000 then staleAfter / 2 else 1000000
    }

    /** How old a state other than Stale can be. */
    function Bound(): nat {
      staleAfter + Period()
    }
  }

  // ---- Backoff

  function Min(a: nat, b: nat): nat {
    if a < b then a else b
  }

  function Delay(attempt: nat, cfg: ClientConfig): nat {
    Min(cfg.backoffBase * Pow2(Min(attempt, 20)), cfg.backoffMax)
  }

  lemma Scales(k: nat, x: nat, y: nat)
    requires x <= y
    ensures k * x <= k * y
  {
  }

  /** Delays never shrink, never exceed the maximum, and stop growing at the twentieth doubling, so the
      plateau is the smaller of the maximum and 2^20 times the base. */
  lemma DelaysGrowToPlateau(a: nat, b: nat, cfg: ClientConfig)
    requires a <= b
    ensures Delay(a, cfg) <= Delay(b, cfg) <= cfg.backoffMax
    ensures a >= 20 ==> Delay(a, cfg) == Min(cfg.backoffBase * Pow2(20), cfg.backoffMax)
  {
    Pow2Monotone(Min(a, 20), Min(b, 20));
    Scales(cfg.backoffBase, Pow2(Min(a, 20)), Pow2(Min(b, 20)));
    hide Pow2;
  }

  /** The first delay is the base; each later one doubles the one before until the maximum or the plateau. */
  lemma DelaysDouble(attempt: nat, cfg: ClientConfig)
    ensures Delay(0, cfg) == Min(cfg.backoffBase, cfg.backoffMax)
    ensures attempt < 20 ==> Delay(attempt + 1, cfg) == Min(2 * Delay(attempt, cfg), cfg.backoffMax)
  {
    assert cfg.backoffBase * Pow2(0) == cfg.backoffBase;
    if attempt < 20 {
      assert cfg.backoffBase * Pow2(attempt + 1) == 2 * (cfg.backoffBase * Pow2(attempt));
    }
  }

  class ExponentialBackoff {
    const cfg: ClientConfig
    var attempt: nat

    constructor (cfg: ClientConfig)
      ensures this.cfg == cfg && attempt == 0
    {
      this.cfg, attempt := cfg, 0;
    }

    method Reset()
      modifies this
      ensures attempt == 0
    {
      attempt := 0;
    }

    method NextDelay() returns (d: nat)
      modifies this
      ensures d == Delay(old(attempt), cfg) && attempt == old(attempt) + 1
    {
      d := Delay(attempt, cfg);
      attempt := attempt + 1;
    }
  }

  // ---- The machine

  datatype Happening =
    | Connected
    | DialFailed
    | SubscribeFailed
    | Tick
    | Text(content: Option<ServerMessage>)
    | OtherFrame
    | SessionEnded
    | Redial

  datatype TimedEvent = TimedEvent(at: nat, what: Happening)

  datatype Phase = Dialing | InSession | Sleeping

  datatype ClientView = ClientView(
    phase: Phase, state: ToxicityState, now: nat, lastMsgAt: nat, nextTick: nat, wakeAt: nat, attempt: nat)

  const START: ClientView := ClientView(Dialing, Connecting, 0, 0, 0, 0, 0)

  /** What a decoded message does to the state. */
  function Handled(s: ToxicityState, msg: ServerMessage): ToxicityState {
    match msg
    case Reading(_, _, trades, Some(v), cdf) => Live(v, cdf, trades)
    case Reading(_, _, trades, None, _) => Warming(trades)
    case Heartbeat(_) => if s.Stale? || s.Connecting? then Warming(0) else s
    case Error(_) => s
  }

  /** Handlers take no time and the check fires when due: in a session, nothing happens later than the
      next check. Whatever else is due at the same instant may go first. */
  predicate Possible(v: ClientView, e: TimedEvent) {
    && v.now <= e.at
    && match e.what
       case Connected | DialFailed | SubscribeFailed => v.phase.Dialing?
       case Tick => v.phase.InSession? && e.at == v.nextTick
       case Text(_) | OtherFrame | SessionEnded => v.phase.InSession? && e.at <= v.nextTick
       case Redial => v.phase.Sleeping? && v.wakeAt <= e.at
  }

  function GivesUp(v: ClientView, attempt: nat, cfg: ClientConfig): ClientView {
    v.(phase := Sleeping, state := Stale, wakeAt := v.now + Delay(attempt, cfg), attempt := attempt + 1)
  }

  function Next(before: ClientView, e: TimedEvent, cfg: ClientConfig): ClientView
    requires Possible(before, e)
  {
    var v := before.(now := e.at);
    match e.what
    case Connected => v.(phase := InSession, lastMsgAt := e.at, nextTick := e.at + cfg.Period(), attempt := 0)
    case DialFailed => GivesUp(v, v.attempt, cfg)
    case SubscribeFailed => GivesUp(v, 0, cfg)
    case Tick =>
      v.(nextTick := e.at + cfg.Period(), state := if e.at - v.lastMsgAt > cfg.staleAfter then Stale else v.state)
    case Text(content) =>
      v.(lastMsgAt := e.at, state := if content.Some? then Handled(v.state, content.value) else v.state)
    case OtherFrame => v
    case SessionEnded => GivesUp(v, v.attempt, cfg)
    case Redial => v.(phase := Dialing, state := Connecting)
  }

  function Execute(run: seq<TimedEvent>, cfg: ClientConfig): Option<ClientView> {
    if run == [] then Some(START)
    else
      match Execute(run[..|run| - 1], cfg)
      case None => None
      case Some(v) =>
        var e := run[|run| - 1];
        if Possible(v, e) then Some(Next(v, e, cfg)) else None
  }

  lemma Extended(run: seq<TimedEvent>, e: TimedEvent, cfg: ClientConfig, v: ClientView)
    requires Execute(run, cfg) == Some(v)
    ensures Execute(run + [e], cfg) == if Possible(v, e) then Some(Next(v, e, cfg)) else None
  {
    assert (run + [e])[..|run|] == run;
  }

  class ToxicityClient {
    const cfg: ClientConfig
    const backoff: ExponentialBackoff
    var phase: Phase
    var state: ToxicityState
    var now: nat
    var lastMsgAt: nat
    var nextTick: nat
    var wakeAt: nat
    ghost var run: seq<TimedEvent>

    ghost function View(): ClientView
      reads this, backoff
    {
      ClientView(phase, state, now, lastMsgAt, nextTick, wakeAt, backoff.attempt)
    }

    ghost predicate Valid()
      reads this, backoff
    {
      backoff.cfg == cfg && Execute(run, cfg) == Some(View())
    }

    constructor (cfg: ClientConfig)
      ensures Valid() && fresh(backoff) && this.cfg == cfg && run == [] && state == Connecting
    {
      this.cfg := cfg;
      backoff := new ExponentialBackoff(cfg);
      phase, state, now, lastMsgAt, nextTick, wakeAt, run := Dialing, Connecting, 0, 0, 0, 0, [];
    }

    method HandleMessage(msg: ServerMessage)
      modifies this`state
      ensures state == Handled(old(state), msg)
    {
      match msg
      case Reading(_, _, trades, vpin, cdf) =>
        state := match vpin case Some(v) => Live(v, cdf, trades) case None => Warming(trades);
      case Heartbeat(_) =>
        if state.Stale? || state.Connecting? {
          state := Warming(0);
        }
      case Error(_) =>
    }

    /** The session is over or never began: stale until the next attempt. */
    method EndSession()
      requires backoff.cfg == cfg
      modifies this, backoff
      ensures View() == GivesUp(old(View()), old(backoff.attempt), cfg) && run == old(run)
    {
      state := Stale;
      var delay := backoff.NextDelay();
      wakeAt := now + delay;
      phase := Sleeping;
    }

    /** One arm of the connection loop. */
    method Handle(e: TimedEvent)
      requires backoff.cfg == cfg && Possible(View(), e)
      modifies this, backoff
      ensures View() == Next(old(View()), e, cfg) && run == old(run)
    {
      hide Handled, Delay, ClientConfig.Period;
      now := e.at;
      match e.what {
        case Connected =>
          backoff.Reset();
          phase, lastMsgAt, nextTick := InSession, e.at, e.at + cfg.Period();
        case DialFailed =>
          EndSession();
        case SubscribeFailed =>
          backoff.Reset();
          EndSession();
        case Tick =>
          nextTick := e.at + cfg.Period();
          if e.at - lastMsgAt > cfg.staleAfter {
            state := Stale;
          }
        case Text(content) =>
          lastMsgAt := e.at;
          if content.Some? {
            HandleMessage(content.value);
          }
        case OtherFrame =>
        case SessionEnded =>
          EndSession();
        case Redial =>
          phase, state := Dialing, Connecting;
      }
    }

    /** One turn of the connection loop, recorded. */
    method On(e: TimedEvent)
      requires Valid() && Possible(View(), e)
      modifies this, backoff
      ensures Valid() && run == old(run) + [e]
      ensures View() == Next(old(View()), e, cfg)
    {
      Extended(run, e, cfg, View());
      hide Execute, Possible, Next;
      Handle(e);
      run := run + [e];
    }
  }

  // ---- How long it waits

  /** Attempts that failed, and sessions that ended, since the last handshake. */
  function FailuresSince(run: seq<TimedEvent>): nat {
    if run == [] then 0
    else
      match run[|run| - 1].what
      case Connected => 0
      case SubscribeFailed => 1
      case DialFailed | SessionEnded => FailuresSince(run[..|run| - 1]) + 1
      case _ => FailuresSince(run[..|run| - 1])
  }

  /** When the loop last gave up. */
  function LastGaveUp(run: seq<TimedEvent>): nat {
    if run == [] then 0
    else
      var e := run[|run| - 1];
      if e.what.SessionEnded? || e.what.DialFailed? || e.what.SubscribeFailed? then e.at
      else LastGaveUp(run[..|run| - 1])
  }

  /** In every run the wait after giving up is the delay for the failures in a row: a handshake starts over,
      even one whose session ends at once. */
  lemma {:induction false} WaitsForBackoff(run: seq<TimedEvent>, cfg: ClientConfig)
    requires Execute(run, cfg).Some?
    ensures var v := Execute(run, cfg).value;
            && v.attempt == FailuresSince(run)
            && (v.phase.Sleeping? ==>
                  FailuresSince(run) > 0 && v.wakeAt == LastGaveUp(run) + Delay(FailuresSince(run) - 1, cfg))
  {
    if run != [] {
      WaitsForBackoff(run[..|run| - 1], cfg);
      hide Delay, Handled, ClientConfig.Period;
    }
  }

  /** It redials no earlier than that wait is over. */
  lemma RedialsAfterWait(run: seq<TimedEvent>, e: TimedEvent, cfg: ClientConfig)
    requires Execute(run, cfg).Some? && e.what.Redial? && Execute(run + [e], cfg).Some?
    ensures FailuresSince(run) > 0 && e.at >= LastGaveUp(run) + Delay(FailuresSince(run) - 1, cfg)
  {
    Extended(run, e, cfg, Execute(run, cfg).value);
    WaitsForBackoff(run, cfg);
    hide Execute, Delay, FailuresSince, LastGaveUp;
  }

  // ---- How old a state can be

  /** When the current or latest session last heard text, or began. */
  function LastHeard(run: seq<TimedEvent>): nat {
    if run == [] then 0
    else
      var e := run[|run| - 1];
      if e.what.Text? || e.what.Connected? then e.at else LastHeard(run[..|run| - 1])
  }

  ghost predicate TimingOk(v: ClientView, cfg: ClientConfig) {
    v.phase.InSession? ==>
      && v.lastMsgAt <= v.now <= v.nextTick <= v.now + cfg.Period()
      && (v.state != Stale ==> v.nextTick <= v.lastMsgAt + cfg.staleAfter + cfg.Period())
  }

  lemma NextKeepsTiming(v: ClientView, e: TimedEvent, cfg: ClientConfig)
    requires TimingOk(v, cfg) && Possible(v, e)
    ensures TimingOk(Next(v, e, cfg), cfg)
  {
    hide Delay;
  }

  lemma {:induction false} RunsKeepTiming(run: seq<TimedEvent>, cfg: ClientConfig)
    requires Execute(run, cfg).Some?
    ensures TimingOk(Execute(run, cfg).value, cfg)
    ensures Execute(run, cfg).value.lastMsgAt == LastHeard(run)
  {
    if run != [] {
      RunsKeepTiming(run[..|run| - 1], cfg);
      NextKeepsTiming(Execute(run[..|run| - 1], cfg).value, run[|run| - 1], cfg);
      hide TimingOk, Delay, Handled;
    }
  }

  /** At any moment of any session, a state other than Stale is at most the threshold plus one check
      period older than the last text frame (or the connect). */
  lemma StalenessBound(run: seq<TimedEvent>, at: nat, cfg: ClientConfig)
    requires Execute(run, cfg).Some?
    requires var v := Execute(run, cfg).value; v.phase.InSession? && v.now <= at <= v.nextTick
    ensures Execute(run, cfg).value.state != Stale ==>
              at - LastHeard(run)
              <= cfg.staleAfter + (if cfg.staleAfter / 2 > 1000000 then cfg.staleAfter / 2 else 1000000)
  {
    RunsKeepTiming(run, cfg);
    hide Execute, LastHeard;
  }

  /** The bound in full. */
  lemma BoundInFull(cfg: ClientConfig)
    ensures cfg.Bound() == cfg.staleAfter + (if cfg.staleAfter / 2 > 1000000 then cfg.staleAfter / 2 else 1000000)
  {
  }

  /** `i` is the latest event that is text or a connect. */
  ghost predicate LatestHeard(run: seq<TimedEvent>, i: nat) {
    && i < |run| && (run[i].what.Text? || run[i].what.Connected?)
    && forall j :: i < j < |run| ==> !run[j].what.Text? && !run[j].what.Connected?
  }

  lemma {:induction false} LastHeardExactly(run: seq<TimedEvent>, i: nat)
    requires LatestHeard(run, i)
    ensures LastHeard(run) == run[i].at
    decreases |run|
  {
    if i < |run| - 1 {
      LastHeardExactly(run[..|run| - 1], i);
    }
  }

  // ---- When it checks

  /** When the current or latest session began. */
  function SessionStart(run: seq<TimedEvent>): nat {
    if run == [] then 0
    else if run[|run| - 1].what.Connected? then run[|run| - 1].at
    else SessionStart(run[..|run| - 1])
  }

  /** How many checks there have been since. */
  function ChecksSince(run: seq<TimedEvent>): nat {
    if run == [] || run[|run| - 1].what.Connected? then 0
    else ChecksSince(run[..|run| - 1]) + if run[|run| - 1].what.Tick? then 1 else 0
  }

  lemma OneCheckMore(k: nat, p: nat)
    ensures (k + 1) * p == k * p + p
  {
  }

  /** The checks of a session happen at the connect plus one, two, three, ... periods of half the threshold,
      but at least a millisecond, and none is ever overdue. */
  lemma {:induction false} ChecksOnSchedule(run: seq<TimedEvent>, cfg: ClientConfig, period: nat)
    requires Execute(run, cfg).Some? && Execute(run, cfg).value.phase.InSession?
    requires period == if cfg.staleAfter / 2 > 1000000 then cfg.staleAfter / 2 else 1000000
    ensures var v := Execute(run, cfg).value;
            && run != [] && v.now <= v.nextTick == SessionStart(run) + (ChecksSince(run) + 1) * period
            && (run[|run| - 1].what.Tick? ==> run[|run| - 1].at == SessionStart(run) + ChecksSince(run) * period)
  {
    assert period == cfg.Period();
    RunsKeepTiming(run, cfg);
    var front, e := run[..|run| - 1], run[|run| - 1];
    hide TimingOk, Handled, Delay, ClientConfig.Period;
    if e.what.Connected? {
      assert (0 + 1) * period == period;
    } else {
      ChecksOnSchedule(front, cfg, period);
      OneCheckMore(ChecksSince(run), period);
    }
  }

  // ---- The bound is reached

  /** At time `at` of the run a state other than Stale is shown, and it is `age` old. */
  predicate ShownAtAge(run: seq<TimedEvent>, at: nat, age: nat, cfg: ClientConfig) {
    && Execute(run, cfg).Some?
    && var v := Execute(run, cfg).value;
       && v.phase.InSession? && v.now <= at <= v.nextTick && v.state != Stale
       && at - LastHeard(run) == age
  }

  function Times(k: nat, p: nat): nat {
    if k == 0 then 0 else p + Times(k - 1, p)
  }

  predicate IsReading(e: TimedEvent) {
    e.what.Text? && e.what.content.Some? && e.what.content.value.Reading?
  }

  predicate IsHeartbeat(e: TimedEvent) {
    e.what.Text? && e.what.content.Some? && e.what.content.value.Heartbeat?
  }

  /** What decodes to a reading or a heartbeat. */
  predicate IsGood(content: Option<ServerMessage>) {
    content.Some? && !content.value.Error?
  }

  /** No text frame but readings, heartbeats and `content`. */
  ghost predicate TextsAreGoodOr(run: seq<TimedEvent>, content: Option<ServerMessage>) {
    forall i :: 0 <= i < |run| && run[i].what.Text? ==> IsGood(run[i].what.content) || run[i].what.content == content
  }

  /** When the current or latest session last decoded a reading or a heartbeat, or began. */
  function LastGood(run: seq<TimedEvent>): nat {
    if run == [] then 0
    else
      var e := run[|run| - 1];
      if IsReading(e) || IsHeartbeat(e) || e.what.Connected? then e.at else LastGood(run[..|run| - 1])
  }

  /** `k` more checks of a silent session, the last one with the silence just at the threshold. */
  lemma {:induction false} TickAlong(run: seq<TimedEvent>, v: ClientView, k: nat, cfg: ClientConfig)
    returns (longer: seq<TimedEvent>)
    requires Execute(run, cfg) == Some(v) && v.phase.InSession? && v.state != Stale && v.now <= v.nextTick
    requires v.nextTick + Times(k, cfg.Period()) == v.lastMsgAt + cfg.Bound()
    ensures ShownAtAge(longer, v.lastMsgAt + cfg.Bound(), cfg.Bound(), cfg)
    ensures Execute(longer, cfg).value.state == v.state && LastGood(longer) == LastGood(run)
    ensures forall content :: TextsAreGoodOr(run, content) ==> TextsAreGoodOr(longer, content)
    decreases k
  {
    if k == 0 {
      RunsKeepTiming(run, cfg);
      longer := run;
    } else {
      var e := TimedEvent(v.nextTick, Tick);
      Extended(run, e, cfg, v);
      assert (run + [e])[..|run|] == run;
      longer := TickAlong(run + [e], Next(v, e, cfg), k - 1, cfg);
    }
  }

  /** How many checks, and how long after the connect, lead to a silence just at the threshold. */
  lemma Aim(cfg: ClientConfig) returns (k: nat, heard: nat)
    ensures Times(k, cfg.Period()) == heard + cfg.staleAfter && 0 < heard <= cfg.Period()
  {
    var s, p := cfg.staleAfter, cfg.Period();
    k := if s < p then 1 else if s < 2 * p then 2 else if s < 3 * p then 3 else 4;
    assert Times(0, p) == 0 && Times(1, p) == p && Times(2, p) == 2 * p && Times(3, p) == 3 * p && Times(4, p) == 4 * p;
    heard := Times(k, p) - s;
  }

  /** The bound is reached under every configuration: text can arrive so that a later check finds the
      silence exactly at the threshold, and the next check is a whole period away. */
  lemma StalenessBoundReached(cfg: ClientConfig, bound: nat)
    requires bound == cfg.staleAfter + (if cfg.staleAfter / 2 > 1000000 then cfg.staleAfter / 2 else 1000000)
    ensures exists run: seq<TimedEvent>, at: nat :: ShownAtAge(run, at, bound, cfg)
  {
    assert bound == cfg.Bound();
    var k, heard := Aim(cfg);
    hide Times, ClientConfig.Period;
    var v1 := ClientView(InSession, Connecting, 0, 0, cfg.Period(), 0, 0);
    var v2 := v1.(state := Warming(0), now := heard, lastMsgAt := heard);
    var connect, text := TimedEvent(0, Connected), TimedEvent(heard, Text(Some(Heartbeat(0))));
    Extended([], connect, cfg, START);
    assert Execute([] + [connect], cfg) == Some(v1);
    Extended([] + [connect], text, cfg, v1);
    hide Execute;
    var run := TickAlong([] + [connect] + [text], v2, k, cfg);
  }

  /** A score is shown though neither a reading nor a heartbeat was decoded for longer than the bound. */
  predicate ScoreOutlivesFeed(run: seq<TimedEvent>, at: nat, cfg: ClientConfig) {
    ShownAtAge(run, at, cfg.Bound(), cfg) && Execute(run, cfg).value.state.Live? && at - LastGood(run) > cfg.Bound()
  }

  /** The bound counts text of any kind. Under every configuration a frame that is malformed or an error
      lets a score stand past the bound with neither a reading nor a heartbeat. */
  lemma OtherTextStretchesBound(content: Option<ServerMessage>, cfg: ClientConfig)
    requires !IsGood(content)
    ensures exists run: seq<TimedEvent>, at: nat ::
              ScoreOutlivesFeed(run, at, cfg) && TextsAreGoodOr(run, content)
  {
    var k, heard := Aim(cfg);
    hide Times, ClientConfig.Period;
    var v1 := ClientView(InSession, Connecting, 0, 0, cfg.Period(), 0, 0);
    var v2 := v1.(state := Live(0.5, None, 1));
    var v3 := v2.(now := heard, lastMsgAt := heard);
    var connect, other := TimedEvent(0, Connected), TimedEvent(heard, Text(content));
    var reading := TimedEvent(0, Text(Some(Reading(0, 0, 1, Some(0.5), None))));
    var r1 := [] + [connect];
    var r2 := r1 + [reading];
    var r3 := r2 + [other];
    Extended([], connect, cfg, START);
    assert Execute(r1, cfg) == Some(v1);
    Extended(r1, reading, cfg, v1);
    Extended(r2, other, cfg, v2);
    assert r3[..2] == r2;
    assert LastGood(r3) == LastGood(r2) == 0;
    assert TextsAreGoodOr(r3, content);
    hide Execute, LastGood, TextsAreGoodOr;
    var run := TickAlong(r3, v3, k, cfg);
    assert ScoreOutlivesFeed(run, heard + cfg.Bound(), cfg);
  }

  /** `at` is a moment of a session that the run leads to. */
  predicate SessionMoment(run: seq<TimedEvent>, at: nat, cfg: ClientConfig) {
    && Execute(run, cfg).Some?
    && var v := Execute(run, cfg).value; v.phase.InSession? && v.now <= at <= v.nextTick
  }

  /** The documented meaning of Stale: in every run with such texts, at every moment of every session, a
      state other than Stale has a reading or a heartbeat (or the connect) behind it within the bound. */
  ghost predicate StaleAsDocumented(content: Option<ServerMessage>, cfg: ClientConfig) {
    forall run: seq<TimedEvent>, at: nat ::
      SessionMoment(run, at, cfg) && TextsAreGoodOr(run, content) && Execute(run, cfg).value.state != Stale ==>
        at - LastGood(run) <= cfg.Bound()
  }

  lemma {:induction false} GoodTextIsHeard(run: seq<TimedEvent>, content: Option<ServerMessage>)
    requires IsGood(content) && TextsAreGoodOr(run, content)
    ensures LastGood(run) == LastHeard(run)
  {
    if run != [] {
      var e := run[|run| - 1];
      assert e.what.Text? ==> IsGood(e.what.content);
      GoodTextIsHeard(run[..|run| - 1], content);
    }
  }

  /** The documented meaning holds exactly as long as every text frame decodes to a reading or a heartbeat:
      one further kind of frame, of whatever content, makes it false under every configuration. */
  lemma StaleAsDocumentedExactly(content: Option<ServerMessage>, cfg: ClientConfig)
    ensures StaleAsDocumented(content, cfg) <==> IsGood(content)
  {
    if IsGood(content) {
      forall run: seq<TimedEvent>, at: nat | SessionMoment(run, at, cfg) && TextsAreGoodOr(run, content)
        ensures Execute(run, cfg).value.state != Stale ==> at - LastGood(run) <= cfg.Bound()
      {
        StalenessBound(run, at, cfg);
        GoodTextIsHeard(run, content);
      }
    } else {
      OtherTextStretchesBound(content, cfg);
      hide Execute, LastGood, LastHeard;
      var run: seq<TimedEvent>, at: nat :| ScoreOutlivesFeed(run, at, cfg) && TextsAreGoodOr(run, content);
      assert SessionMoment(run, at, cfg);
    }
  }

  lemma {:induction false} GoodIsHeard(run: seq<TimedEvent>, cfg: ClientConfig)
    requires Execute(run, cfg).Some?
    ensures LastGood(run) <= LastHeard(run)
  {
    if run != [] {
      GoodIsHeard(run[..|run| - 1], cfg);
      RunsKeepTiming(run[..|run| - 1], cfg);
      hide Delay, Handled, ClientConfig.Period;
    }
  }

  /** Conversely, Stale within a session is never shown early: no reading or heartbeat has been decoded for
      longer than the threshold. */
  lemma {:induction false} StaleOnlyWhenSilent(run: seq<TimedEvent>, at: nat, cfg: ClientConfig)
    requires SessionMoment(run, at, cfg) && Execute(run, cfg).value.state == Stale
    ensures at - LastGood(run) > cfg.staleAfter
  {
    var front, e := run[..|run| - 1], run[|run| - 1];
    RunsKeepTiming(front, cfg);
    RunsKeepPhase(front, cfg);
    GoodIsHeard(front, cfg);
    hide Delay, ClientConfig.Period;
    var v := Execute(front, cfg).value;
    if v.phase.InSession? && v.state == Stale && !e.what.Connected? {
      StaleOnlyWhenSilent(front, v.now, cfg);
    }
  }

  /** No text since the session began. */
  predicate HeardNothing(run: seq<TimedEvent>) {
    run != []
    && var e := run[|run| - 1];
       e.what.Connected? || ((e.what.Tick? || e.what.OtherFrame?) && HeardNothing(run[..|run| - 1]))
  }

  /** The documented meaning of Connecting within a session: no text since it began. */
  ghost predicate ConnectingAsDocumented(content: Option<ServerMessage>, cfg: ClientConfig) {
    forall run: seq<TimedEvent>, at: nat ::
      SessionMoment(run, at, cfg) && TextsAreGoodOr(run, content) && Execute(run, cfg).value.state == Connecting ==>
        HeardNothing(run)
  }

  lemma {:induction false} ConnectingIsQuiet(run: seq<TimedEvent>, content: Option<ServerMessage>, cfg: ClientConfig)
    requires IsGood(content) && TextsAreGoodOr(run, content)
    requires Execute(run, cfg).Some?
    requires var v := Execute(run, cfg).value; v.phase.InSession? && v.state == Connecting
    ensures HeardNothing(run)
  {
    var front, e := run[..|run| - 1], run[|run| - 1];
    assert e.what.Text? ==> IsGood(e.what.content);
    if !e.what.Connected? {
      ConnectingIsQuiet(front, content, cfg);
    }
  }

  /** That, too, holds exactly as long as every text frame decodes to a reading or a heartbeat. */
  lemma ConnectingAsDocumentedExactly(content: Option<ServerMessage>, cfg: ClientConfig)
    ensures ConnectingAsDocumented(content, cfg) <==> IsGood(content)
  {
    if IsGood(content) {
      forall run: seq<TimedEvent>, at: nat |
        SessionMoment(run, at, cfg) && TextsAreGoodOr(run, content) && Execute(run, cfg).value.state == Connecting
        ensures HeardNothing(run)
      {
        ConnectingIsQuiet(run, content, cfg);
      }
    } else {
      var connect, other := TimedEvent(0, Connected), TimedEvent(0, Text(content));
      var v := ClientView(InSession, Connecting, 0, 0, cfg.Period(), 0, 0);
      var run := [] + [connect] + [other];
      Extended([], connect, cfg, START);
      assert Execute([] + [connect], cfg) == Some(v);
      Extended([] + [connect], other, cfg, v);
      assert SessionMoment(run, 0, cfg) && TextsAreGoodOr(run, content) && !HeardNothing(run);
    }
  }

  // ---- What a state means

  /** A check that found the session silent for longer than the threshold. */
  predicate StaleTick(run: seq<TimedEvent>, i: nat, cfg: ClientConfig)
    requires i < |run|
  {
    run[i].what.Tick? && run[i].at - LastHeard(run[..i]) > cfg.staleAfter
  }

  /** Connecting, giving up and redialing. */
  predicate IsBoundary(e: TimedEvent) {
    !e.what.Tick? && !e.what.Text? && !e.what.OtherFrame?
  }

  /** Only these events set the state outright. */
  predicate Decides(run: seq<TimedEvent>, i: nat, cfg: ClientConfig)
    requires i < |run|
  {
    IsReading(run[i]) || StaleTick(run, i, cfg) || IsBoundary(run[i])
  }

  /** The state set by a deciding event. */
  function Verdict(e: TimedEvent): ToxicityState {
    match e.what
    case Text(Some(Reading(_, _, trades, Some(v), cdf))) => Live(v, cdf, trades)
    case Text(Some(Reading(_, _, trades, None, _))) => Warming(trades)
    case Connected | Redial => Connecting
    case _ => Stale
  }

  /** Event `i` decided the state, and no later one did. */
  ghost predicate DecidedBy(run: seq<TimedEvent>, i: nat, cfg: ClientConfig) {
    i < |run| && Decides(run, i, cfg) && NothingDecidedSince(run, i + 1, cfg)
  }

  ghost predicate NothingDecidedSince(run: seq<TimedEvent>, from: nat, cfg: ClientConfig) {
    forall j :: from <= j < |run| ==> !Decides(run, j, cfg)
  }

  ghost predicate HeartbeatSince(run: seq<TimedEvent>, from: nat) {
    exists j :: from <= j < |run| && IsHeartbeat(run[j])
  }

  /** A verdict, softened by heartbeats heard since: they only show that something is there. */
  ghost function Softened(s: ToxicityState, run: seq<TimedEvent>, from: nat): ToxicityState {
    if (s.Stale? || s.Connecting?) && HeartbeatSince(run, from) then Warming(0) else s
  }

  /** How many events there were up to the one that decided the state; 0 if none has yet. */
  function Decided(run: seq<TimedEvent>, cfg: ClientConfig): (d: nat)
    ensures d <= |run|
  {
    if run == [] then 0
    else if Decides(run, |run| - 1, cfg) then |run|
    else Decided(run[..|run| - 1], cfg)
  }

  function VerdictAt(run: seq<TimedEvent>, d: nat): ToxicityState
    requires d <= |run|
  {
    if d == 0 then Connecting else Verdict(run[d - 1])
  }

  lemma {:induction false} DecidedIsLatest(run: seq<TimedEvent>, cfg: ClientConfig)
    ensures var d := Decided(run, cfg); NothingDecidedSince(run, d, cfg) && (d > 0 ==> DecidedBy(run, d - 1, cfg))
  {
    if run != [] {
      var front := run[..|run| - 1];
      DecidedIsLatest(front, cfg);
      forall j | 0 <= j < |front|
        ensures Decides(run, j, cfg) == Decides(front, j, cfg)
      {
        assert run[..j] == front[..j];
      }
    }
  }

  ghost predicate PhaseOk(v: ClientView) {
    (v.phase.Dialing? ==> v.state == Connecting) && (v.phase.Sleeping? ==> v.state == Stale)
  }

  lemma {:induction false} RunsKeepPhase(run: seq<TimedEvent>, cfg: ClientConfig)
    requires Execute(run, cfg).Some?
    ensures PhaseOk(Execute(run, cfg).value)
  {
    if run != [] {
      RunsKeepPhase(run[..|run| - 1], cfg);
      hide Handled, Delay;
    }
  }

  lemma HeartbeatSnoc(run: seq<TimedEvent>, e: TimedEvent, from: nat)
    requires from <= |run|
    ensures HeartbeatSince(run + [e], from) <==> HeartbeatSince(run, from) || IsHeartbeat(e)
  {
    if HeartbeatSince(run, from) {
      var j :| from <= j < |run| && IsHeartbeat(run[j]);
      assert IsHeartbeat((run + [e])[j]);
    }
    if IsHeartbeat(e) {
      assert IsHeartbeat((run + [e])[|run|]);
    }
  }

  /** One step, seen as a verdict or as a softening. */
  lemma StepExplained(run: seq<TimedEvent>, e: TimedEvent, v: ClientView, cfg: ClientConfig)
    requires PhaseOk(v) && v.lastMsgAt == LastHeard(run) && Possible(v, e)
    ensures var s' := Next(v, e, cfg).state;
            if Decides(run + [e], |run|, cfg) then s' == Verdict(e)
            else if IsHeartbeat(e) && (v.state.Stale? || v.state.Connecting?) then s' == Warming(0)
            else s' == v.state
  {
    assert (run + [e])[..|run|] == run;
    hide Delay, LastHeard;
  }

  /** After every run the state is the verdict of the latest deciding event (a reading, a check that found
      silence, a connect, a failure or a redial), softened by heartbeats since. */
  lemma {:induction false} StateExplained(run: seq<TimedEvent>, cfg: ClientConfig)
    requires Execute(run, cfg).Some?
    ensures var d := Decided(run, cfg);
            Execute(run, cfg).value.state == Softened(VerdictAt(run, d), run, d)
  {
    if run != [] {
      var front, e := run[..|run| - 1], run[|run| - 1];
      StateExplained(front, cfg);
      RunsKeepPhase(front, cfg);
      RunsKeepTiming(front, cfg);
      assert run == front + [e];
      hide PhaseOk, TimingOk, Possible, Next, Verdict, Decides, IsHeartbeat, LastHeard, HeartbeatSince;
      StepExplained(front, e, Execute(front, cfg).value, cfg);
      HeartbeatSnoc(front, e, Decided(front, cfg));
      NoneSinceEnd(run);
    }
  }

  lemma NoneSinceEnd(run: seq<TimedEvent>)
    ensures !HeartbeatSince(run, |run|)
  {
  }

  /** The client shows a score iff the latest deciding event is a reading of the current session that
      carried exactly that score: no check has found silence since, and the session has not ended. */
  lemma LiveExactly(run: seq<TimedEvent>, score: real, cdf: Option<real>, trades: nat, cfg: ClientConfig)
    requires Execute(run, cfg).Some?
    ensures Execute(run, cfg).value.state == Live(score, cdf, trades) <==>
            exists i: nat :: DecidedBy(run, i, cfg) && Carries(run[i], score, cdf, trades)
  {
    StateExplained(run, cfg);
    DecidedIsLatest(run, cfg);
    var d := Decided(run, cfg);
    hide Execute, Decided, HeartbeatSince;
    if Execute(run, cfg).value.state == Live(score, cdf, trades) {
      assert DecidedBy(run, d - 1, cfg) && Carries(run[d - 1], score, cdf, trades);
    }
    forall i: nat | DecidedBy(run, i, cfg) && Carries(run[i], score, cdf, trades)
      ensures Execute(run, cfg).value.state == Live(score, cdf, trades)
    {
      DecidedOnce(run, i, d, cfg);
    }
  }

  /** Warming{t} is shown iff the latest deciding event is a reading without a score over t trades, or t is 0
      and a heartbeat was heard since a connect, a redial, a failure or a silent check decided (or since the
      start). */
  lemma WarmingExactly(run: seq<TimedEvent>, trades: nat, cfg: ClientConfig)
    requires Execute(run, cfg).Some?
    ensures Execute(run, cfg).value.state == Warming(trades) <==>
            || (exists i: nat :: DecidedBy(run, i, cfg) && IsUnscored(run[i], trades))
            || (trades == 0 && exists d: nat :: d <= |run| && SoftenedSince(run, d, cfg))
  {
    StateExplained(run, cfg);
    DecidedIsLatest(run, cfg);
    var d := Decided(run, cfg);
    hide Execute, Decided, HeartbeatSince;
    if Execute(run, cfg).value.state == Warming(trades) {
      if d > 0 && IsReading(run[d - 1]) {
        assert DecidedBy(run, d - 1, cfg) && IsUnscored(run[d - 1], trades);
      } else {
        assert SoftenedSince(run, d, cfg);
      }
    }
    forall i: nat | DecidedBy(run, i, cfg) && IsUnscored(run[i], trades)
      ensures Execute(run, cfg).value.state == Warming(trades)
    {
      DecidedOnce(run, i, d, cfg);
    }
    forall d': nat | d' <= |run| && SoftenedSince(run, d', cfg)
      ensures Execute(run, cfg).value.state == Warming(0)
    {
      if d' > 0 {
        DecidedOnce(run, d' - 1, d, cfg);
      }
    }
  }

  predicate IsUnscored(e: TimedEvent, trades: nat) {
    IsReading(e) && e.what.content.value.vpin.None? && e.what.content.value.tradesInBucket == trades
  }

  /** The latest deciding event, the d-th, is not a reading (or there is none), and a heartbeat came after it. */
  ghost predicate SoftenedSince(run: seq<TimedEvent>, d: nat, cfg: ClientConfig)
    requires d <= |run|
  {
    && NothingDecidedSince(run, d, cfg) && HeartbeatSince(run, d)
    && (d > 0 ==> DecidedBy(run, d - 1, cfg) && !IsReading(run[d - 1]))
  }

  predicate Carries(e: TimedEvent, score: real, cdf: Option<real>, trades: nat) {
    && IsReading(e)
    && var r := e.what.content.value;
       r.vpin == Some(score) && r.vpinCdf == cdf && r.tradesInBucket == trades
  }

  lemma DecidedOnce(run: seq<TimedEvent>, i: nat, d: nat, cfg: ClientConfig)
    requires DecidedBy(run, i, cfg) && d <= |run| && NothingDecidedSince(run, d, cfg)
    requires d > 0 ==> DecidedBy(run, d - 1, cfg)
    ensures d == i + 1
  {
    hide Decides;
  }

  /** No reading survives a reconnect: right after connecting, redialing or giving up no score is shown. */
  lemma BoundariesShowNoScore(run: seq<TimedEvent>, cfg: ClientConfig)
    requires Execute(run, cfg).Some? && run != [] && IsBoundary(run[|run| - 1])
    ensures var s := Execute(run, cfg).value.state; s == Connecting || s == Stale
  {
    RunsKeepPhase(run[..|run| - 1], cfg);
    hide Delay;
  }
}
