/** Calibration: the statistics of one configuration over a tape. */
module Calibration {
  import opened Wrappers
  import opened VpinErrors
  import opened RealSeqs
  import opened Numerics
  import opened RollingWindows
  import opened VolumeClock
  import opened Bootstrap
  import opened VpinBatch
  import opened VpinEngine
  import opened VpinProperties
  import opened ReadingValues
  import opened Judging

  // ---- How often bulk classification is right

  /** A statistic of nothing is None, where the program has NaN. */
  datatype BvcStats = BvcStats(accuracy: Option<real>, meanAbsError: Option<real>, compared: nat)

  predicate IsRight(j: Judgement) {
    (j.called > 0.5) == (j.actual > 0.5)
  }

  function CountRight(js: seq<Judgement>): (n: nat)
    ensures n <= |js|
  {
    if js == [] then 0 else CountRight(js[..|js| - 1]) + if IsRight(Last(js)) then 1 else 0
  }

  function Errors(js: seq<Judgement>): (es: seq<real>)
    ensures |es| == |js|
  {
    seq(|js|, i requires 0 <= i < |js| => Abs(js[i].called - js[i].actual))
  }

  function Tally(js: seq<Judgement>): BvcStats {
    if js == [] then BvcStats(None, None, 0)
    else BvcStats(Some(CountRight(js) as real / |js| as real), Some(Sum(Errors(js)) / |js| as real), |js|)
  }

  function BvcResult(tape: seq<MarkedTrade>, bucketVolume: real, sigmaWindow: nat, m: Maths)
    : Result<BvcStats, VpinError>
  {
    if !(bucketVolume > 0.0) then Err(InvalidBucketVolume(bucketVolume))
    else if sigmaWindow < 2 then Err(InvalidWindow(sigmaWindow, 2))
    else Ok(Tally(TapeJudged(tape, bucketVolume, sigmaWindow, m)))
  }

  lemma TallySnoc(js: seq<Judgement>, j: Judgement)
    ensures CountRight(js + [j]) == CountRight(js) + if IsRight(j) then 1 else 0
    ensures Errors(js + [j]) == Errors(js) + [Abs(j.called - j.actual)]
  {
    assert (js + [j])[..|js|] == js;
  }

  lemma {:induction false} RightOnes(js: seq<Judgement>)
    ensures CountRight(js) == |set i | 0 <= i < |js| && (js[i].called > 0.5 <==> js[i].actual > 0.5)|
  {
    var right := set i | 0 <= i < |js| && (js[i].called > 0.5 <==> js[i].actual > 0.5);
    if js == [] {
      assert right == {};
    } else {
      var front, last := js[..|js| - 1], Last(js);
      RightOnes(front);
      var before := set i | 0 <= i < |front| && (front[i].called > 0.5 <==> front[i].actual > 0.5);
      assert right == before + if IsRight(last) then {|js| - 1} else {};
    }
  }

  /** The distances between called and actual shares. */
  lemma ErrorsExactly(js: seq<Judgement>, i: nat)
    requires i < |js|
    ensures |Errors(js)| == |js|
    ensures Errors(js)[i] == if js[i].called >= js[i].actual then js[i].called - js[i].actual
                             else js[i].actual - js[i].called
  {
  }

  /** Accuracy times the number compared is how many calls fell on the same side of one half as the truth; mean
      error times it is the sum of the distances. Without any there is neither. */
  lemma TallyExactly(js: seq<Judgement>)
    ensures var t := Tally(js);
            && t.compared == |js|
            && (js == [] ==> t.accuracy == None && t.meanAbsError == None)
            && (js != [] ==>
                  && t.accuracy.Some? && t.meanAbsError.Some?
                  && t.accuracy.value * |js| as real
                     == |set i | 0 <= i < |js| && (js[i].called > 0.5 <==> js[i].actual > 0.5)| as real
                  && t.meanAbsError.value * |js| as real == Sum(Errors(js)))
  {
    RightOnes(js);
    hide CountRight, Sum, Errors;
    if js != [] {
      QuotientBack(CountRight(js) as real, |js| as real);
      QuotientBack(Sum(Errors(js)), |js| as real);
    }
  }

  lemma {:induction false} ErrorsWithinUnit(js: seq<Judgement>)
    requires Shares(js)
    ensures 0.0 <= Sum(Errors(js)) <= |js| as real
  {
    if js != [] {
      var front := js[..|js| - 1];
      ErrorsWithinUnit(front);
      assert js == front + [Last(js)];
      TallySnoc(front, Last(js));
      SumSnoc(Errors(front), Abs(Last(js).called - Last(js).actual));
      hide Sum, Errors;
    }
  }

  lemma Fraction(x: real, n: real)
    requires n > 0.0 && 0.0 <= x <= n
    ensures 0.0 <= x / n <= 1.0
  {
  }

  /** Accuracy and mean error are fractions whenever anything was compared. */
  lemma TallyWithinUnit(js: seq<Judgement>)
    requires Shares(js) && js != []
    ensures var t := Tally(js);
            && t.accuracy.Some? && 0.0 <= t.accuracy.value <= 1.0
            && t.meanAbsError.Some? && 0.0 <= t.meanAbsError.value <= 1.0
  {
    ErrorsWithinUnit(js);
    Fraction(CountRight(js) as real, |js| as real);
    Fraction(Sum(Errors(js)), |js| as real);
    hide CountRight, Sum, Errors, Shares;
  }

  /** On every tape of non-negative volumes. */
  lemma TapeTallyWithinUnit(tape: seq<MarkedTrade>, bucketVolume: real, sigmaWindow: nat, m: Maths)
    requires bucketVolume > 0.0 && sigmaWindow >= 2 && NoNegativeVolume(tape) && IsCdf(m.phi)
    ensures var js := TapeJudged(tape, bucketVolume, sigmaWindow, m);
            var t := Tally(js);
            && (t.compared > 0 <==> t.accuracy.Some?) && (t.accuracy.Some? <==> t.meanAbsError.Some?)
            && (t.accuracy.Some? ==> 0.0 <= t.accuracy.value <= 1.0 && 0.0 <= t.meanAbsError.value <= 1.0)
  {
    TapeMeasured(tape, bucketVolume);
    PartsSign(tape, bucketVolume);
    var js := TapeJudged(tape, bucketVolume, sigmaWindow, m);
    JudgedShares(Buckets(Unmarked(tape), bucketVolume), Cut(tape, bucketVolume).closed, sigmaWindow, m);
    assert Shares(js);
    hide TapeJudged, Shares;
    if js != [] {
      TallyWithinUnit(js);
    }
  }

  /** What one more trade does to the judgements. */
  lemma TapeJudgedSnoc(tape: seq<MarkedTrade>, t: MarkedTrade, bucketVolume: real, sigmaWindow: nat, m: Maths)
    requires bucketVolume > 0.0 && sigmaWindow >= 2
    ensures var closed := Closing(Unmarked(tape), t.trade, bucketVolume);
            var open := Cut(tape, bucketVolume).open + [t];
            var bs := Buckets(Unmarked(tape), bucketVolume);
            var js := TapeJudged(tape, bucketVolume, sigmaWindow, m);
            var js' := TapeJudged(tape + [t], bucketVolume, sigmaWindow, m);
            && Unmarked(tape + [t]) == Unmarked(tape) + [t.trade]
            && Deltas(Buckets(Unmarked(tape) + [t.trade], bucketVolume))
               == Deltas(bs) + (if closed.Some? then [closed.value.deltaP] else [])
            && (closed.None? ==> Cut(tape + [t], bucketVolume).open == open && js' == js)
            && (closed.Some? ==>
                  && Cut(tape + [t], bucketVolume).open == []
                  && closed.value.volume > 0.0 && Bought(open) + Sold(open) == closed.value.volume
                  && js' == js + ToSeq(Judge(SigmaOf(Deltas(bs), sigmaWindow, m.root), closed.value,
                                             Bought(open), Sold(open), m.phi)))
  {
    UnmarkedSnoc(tape, t);
    CutSnoc(tape, t, bucketVolume);
    BucketsStep(Unmarked(tape), t.trade, bucketVolume);
    TapeMeasured(tape, bucketVolume);
    TapeMeasured(tape + [t], bucketVolume);
    var closed := Closing(Unmarked(tape), t.trade, bucketVolume);
    var p := Cut(tape, bucketVolume);
    hide Unmarked, Cut, Buckets, Closing, Judge, SigmaOf, Deltas, Bought, Sold;
    var bs := Buckets(Unmarked(tape), bucketVolume);
    assert Deltas(bs) + [] == Deltas(bs);
    if closed.Some? {
      ClassifiedSnoc(bs, closed.value, sigmaWindow, m);
      var part := p.open + [t];
      assert Measured((bs + [closed.value])[|bs|], (p.closed + [part])[|bs|]);
      hide Measured;
      JudgedSnoc(bs, closed.value, p.closed, part, sigmaWindow, m);
    }
  }

  /** The running counts of a pass. */
  class Scores {
    var right: nat
    var compared: nat
    var errors: seq<real>

    ghost predicate Counts(js: seq<Judgement>)
      reads this
    {
      right == CountRight(js) && compared == |js| && errors == Errors(js)
    }

    constructor ()
      ensures Counts([])
    {
      right, compared, errors := 0, 0, [];
    }

    method Add(j: Judgement, ghost js: seq<Judgement>)
      requires Counts(js)
      modifies this
      ensures Counts(js + [j])
    {
      TallySnoc(js, j);
      hide CountRight, Errors;
      if IsRight(j) {
        right := right + 1;
      }
      errors := errors + [Abs(j.called - j.actual)];
      compared := compared + 1;
    }

    method Stats(ghost js: seq<Judgement>) returns (stats: BvcStats)
      requires Counts(js)
      ensures stats == Tally(js)
    {
      var accuracy := if compared > 0 then Some(right as real / compared as real) else None;
      var meanAbsError := if errors == [] then None else Some(Sum(errors) / |errors| as real);
      return BvcStats(accuracy, meanAbsError, compared);
    }
  }

  /** Repeats the estimator's pipeline on a tape whose sides are known. */
  method BvcAccuracyStats(tape: seq<MarkedTrade>, bucketVolume: real, sigmaWindow: nat, m: Maths)
    returns (r: Result<BvcStats, VpinError>)
    ensures r == BvcResult(tape, bucketVolume, sigmaWindow, m)
  {
    hide Unmarked, Buckets, Cut, Judge, SigmaOf, Deltas, Bought, Sold, Greedy, TapeJudged, Tally, Closing, Volume,
         LastN, Scores.Counts;
    var made := VolumeBucketer.New(bucketVolume);
    if made.Err? {
      return Err(made.error);
    }
    var bucketer := made.value;
    var warmed := RollingSigma.New(sigmaWindow, m.root);
    if warmed.Err? {
      return Err(warmed.error);
    }
    var sigma := warmed.value;
    var scores := new Scores();
    var bought, sold := 0.0, 0.0;
    ghost var js: seq<Judgement> := [];
    assert tape[..0] == [];
    EmptyTape(bucketVolume, sigmaWindow, m);
    for i := 0 to |tape|
      invariant bucketer.Valid() && fresh(bucketer) && bucketer.targetVolume == bucketVolume
      invariant sigma.Valid() && fresh(sigma) && sigma.window == sigmaWindow && sigma.root == m.root
      invariant bucketer.history == Unmarked(tape[..i])
      invariant sigma.history == Deltas(Buckets(Unmarked(tape[..i]), bucketVolume))
      invariant bought == Bought(Cut(tape[..i], bucketVolume).open)
      invariant sold == Sold(Cut(tape[..i], bucketVolume).open)
      invariant js == TapeJudged(tape[..i], bucketVolume, sigmaWindow, m)
      invariant fresh(scores) && scores.Counts(js)
    {
      var t := tape[i];
      assert tape[..i + 1] == tape[..i] + [t];
      if t.takerBuys {
        bought := bought + t.trade.volume;
      } else {
        sold := sold + t.trade.volume;
      }
      SidesSnoc(Cut(tape[..i], bucketVolume).open, t);
      TapeJudgedSnoc(tape[..i], t, bucketVolume, sigmaWindow, m);
      var closed := bucketer.Push(t.trade);
      if closed.Some? {
        var judged := Judge(sigma.current, closed.value, bought, sold, m.phi);
        if judged.Some? {
          scores.Add(judged.value, js);
        }
        assert js + [] == js;
        js := js + ToSeq(judged);
        var _ := sigma.Push(closed.value.deltaP);
        bought, sold := 0.0, 0.0;
      }
    }
    assert tape[..|tape|] == tape;
    var stats := scores.Stats(js);
    return Ok(stats);
  }

  lemma EmptyTape(bucketVolume: real, sigmaWindow: nat, m: Maths)
    requires bucketVolume > 0.0 && sigmaWindow >= 2
    ensures Unmarked([]) == [] && Deltas(Buckets([], bucketVolume)) == []
    ensures Cut([], bucketVolume).open == [] && Bought([]) == 0.0 && Sold([]) == 0.0
    ensures TapeJudged([], bucketVolume, sigmaWindow, m) == []
  {
    assert Unmarked([]) == [] && Buckets([], bucketVolume) == [] && Deltas([]) == [];
  }

  // ---- What the estimator's readings look like

  function ClosesIn(rs: seq<VpinReading>): (closes: seq<nat>)
    ensures |closes| == |rs|
  {
    seq(|rs|, i requires 0 <= i < |rs| => rs[i].tsClose)
  }

  lemma ReadingsSeenSnoc(rs: seq<VpinReading>, r: VpinReading)
    ensures VpinsIn(rs + [r]) == VpinsIn(rs) + ToSeq(r.vpin)
    ensures ClosesIn(rs + [r]) == ClosesIn(rs) + [r.tsClose]
  {
    assert (rs + [r])[..|rs|] == rs;
  }

  function MinOf(values: seq<real>): real
    requires values != []
  {
    if |values| == 1 then values[0]
    else var m := MinOf(values[..|values| - 1]); if Last(values) < m then Last(values) else m
  }

  function MaxOf(values: seq<real>): real
    requires values != []
  {
    if |values| == 1 then values[0]
    else var m := MaxOf(values[..|values| - 1]); if Last(values) > m then Last(values) else m
  }

  datatype Summary = Summary(mean: real, min: real, max: real, stddev: real)

  function Summarize(values: seq<real>, m: Maths): Option<Summary> {
    if values == [] then None
    else Some(Summary(Mean(values), MinOf(values), MaxOf(values),
                      if |values| > 1 then m.root(SampleVariance(values)) else 0.0))
  }

  lemma {:induction false} ExtremesAndSum(values: seq<real>)
    requires values != []
    ensures forall i :: 0 <= i < |values| ==> MinOf(values) <= values[i] <= MaxOf(values)
    ensures MinOf(values) in values && MaxOf(values) in values
    ensures Product(MinOf(values), |values| as real) <= Sum(values) <= Product(MaxOf(values), |values| as real)
  {
    var front := values[..|values| - 1];
    assert values == front + [Last(values)];
    if front == [] {
      assert Sum(front) == 0.0;
    } else {
      ExtremesAndSum(front);
      var n := |front| as real;
      ProductGrows(MinOf(values), MinOf(front), n);
      ProductGrows(MaxOf(front), MaxOf(values), n);
      ProductSum(MinOf(values), n, 1.0);
      ProductSum(MaxOf(values), n, 1.0);
    }
  }

  lemma ProductGrows(a: real, b: real, n: real)
    requires a <= b && n >= 0.0
    ensures Product(a, n) <= Product(b, n)
  {
    ProductSign(b - a, n);
    assert (b - a) * n == b * n - a * n;
  }

  /** A summary's mean lies between its extremes, which are attained; the deviation is never negative and
      vanishes exactly for equal values. */
  lemma SummaryOrdered(values: seq<real>, m: Maths)
    requires values != [] && IsRoot(m.root)
    ensures var s := Summarize(values, m).value;
            && s.min <= s.mean <= s.max && s.min in values && s.max in values
            && (forall i :: 0 <= i < |values| ==> s.min <= values[i] <= s.max)
            && s.stddev >= 0.0 && (s.stddev == 0.0 <==> AllEqual(values))
  {
    ExtremesAndSum(values);
    MeanBetween(Sum(values), |values| as real, MinOf(values), MaxOf(values));
    if |values| > 1 {
      VarianceZeroIffConstant(values);
    }
    hide SampleVariance, Sum, MinOf, MaxOf;
  }

  /** A summary's mean times the count is the sum; its deviation is the root of the sample variance, and zero
      for a single value. */
  lemma SummaryExactly(values: seq<real>, m: Maths)
    ensures Summarize(values, m).None? <==> values == []
    ensures values != [] ==>
              var s := Summarize(values, m).value;
              && s.mean * |values| as real == Sum(values)
              && s.stddev == if |values| == 1 then 0.0 else m.root(SampleVariance(values))
  {
    if values != [] {
      MeanExactly(values);
    }
    hide SampleVariance, Sum, Mean, MinOf, MaxOf;
  }

  lemma MeanBetween(sum: real, n: real, lo: real, hi: real)
    requires n > 0.0 && Product(lo, n) <= sum <= Product(hi, n)
    ensures lo <= sum / n <= hi
  {
    QuotientBounds(sum, n, lo, hi);
  }

  /** The gap between consecutive closes in milliseconds, on average; timestamps that run backwards count
      as no time at all. */
  function MeanIntervalMs(closes: seq<nat>): Option<real> {
    if |closes| < 2 then None
    else
      var first, last := closes[0], closes[|closes| - 1];
      var span := if last < first then 0 else last - first;
      Some(span as real / (|closes| - 1) as real / 1000000.0)
  }

  /** The gaps between consecutive closes, added up. */
  function TotalGap(closes: seq<nat>): int {
    if |closes| < 2 then 0
    else TotalGap(closes[..|closes| - 1]) + (closes[|closes| - 1] as int - closes[|closes| - 2] as int)
  }

  lemma {:induction false} GapsTelescope(closes: seq<nat>)
    requires closes != []
    ensures TotalGap(closes) == closes[|closes| - 1] as int - closes[0] as int
  {
    if |closes| > 1 {
      GapsTelescope(closes[..|closes| - 1]);
    }
  }

  /** While time does not run backwards over the whole tape, that is the mean gap between consecutive closes. */
  lemma MeanIntervalIsMeanGap(closes: seq<nat>)
    requires |closes| >= 2 && closes[0] <= closes[|closes| - 1]
    ensures MeanIntervalMs(closes) == Some(TotalGap(closes) as real / (|closes| - 1) as real / 1000000.0)
  {
    GapsTelescope(closes);
  }

  /** There is none for fewer than two closes, and none is counted for a last close before the first. */
  lemma MeanIntervalOtherwise(closes: seq<nat>)
    ensures MeanIntervalMs(closes).None? <==> |closes| < 2
    ensures |closes| >= 2 && closes[|closes| - 1] < closes[0] ==> MeanIntervalMs(closes) == Some(0.0)
  {
  }

  datatype Stats = Stats(
    cfg: EngineConfig, totalBuckets: nat, nonWarmupReadings: nat, vpin: Option<Summary>,
    avgBucketIntervalMs: Option<real>, bvc: BvcStats, pValue: Option<real>)

  function StatsFrom(readings: seq<VpinReading>, cfg: EngineConfig, bvc: BvcStats, m: Maths): Stats {
    Stats(cfg, |readings|, |VpinsIn(readings)|, Summarize(VpinsIn(readings), m),
          MeanIntervalMs(ClosesIn(readings)), bvc, None)
  }

  function BucketCloses(bs: seq<ClosedBucket>): (closes: seq<nat>)
    ensures |closes| == |bs|
    ensures forall i :: 0 <= i < |bs| ==> closes[i] == bs[i].tsClose
  {
    seq(|bs|, i requires 0 <= i < |bs| => bs[i].tsClose)
  }

  /** A configuration's statistics, in terms of its buckets and readings: one bucket per reading, the VPINs
      counted and summarised, and the mean interval of the buckets' closes. */
  ghost predicate Describes(stats: Stats, tape: seq<Trade>, cfg: EngineConfig, bvc: BvcStats, m: Maths)
    requires cfg.Valid()
  {
    var vpins, bs := VpinsIn(TapeReadings(tape, cfg, m)), Buckets(tape, cfg.bucketVolume);
    && stats.cfg == cfg && stats.bvc == bvc && stats.pValue == None
    && stats.totalBuckets == |bs| && stats.nonWarmupReadings == |vpins| && stats.vpin == Summarize(vpins, m)
    && stats.avgBucketIntervalMs == MeanIntervalMs(BucketCloses(bs))
  }

  lemma StatsExactly(tape: seq<Trade>, cfg: EngineConfig, bvc: BvcStats, m: Maths)
    requires cfg.Valid()
    ensures Describes(StatsFrom(TapeReadings(tape, cfg, m), cfg, bvc, m), tape, cfg, bvc, m)
  {
    var rs, bs := TapeReadings(tape, cfg, m), Buckets(tape, cfg.bucketVolume);
    hide TapeReadings, Buckets, VpinsIn, Summarize, MeanIntervalMs;
    forall i | 0 <= i < |rs|
      ensures |rs| == |bs| && ClosesIn(rs)[i] == bs[i].tsClose
    {
      ReadingCarriesBucket(tape, i, cfg, m);
    }
    assert ClosesIn(rs) == BucketCloses(bs);
  }

  /** Runs the estimator over the tape and summarises its readings. */
  method CalibrateOne(tape: seq<MarkedTrade>, cfg: EngineConfig, bvc: BvcStats, m: Maths)
    returns (r: Result<Stats, VpinError>)
    ensures r.Ok? <==> cfg.Valid()
    ensures r.Ok? ==> r.value == StatsFrom(TapeReadings(Unmarked(tape), cfg, m), cfg, bvc, m)
    ensures r.Err? ==> r.error == ConfigError(cfg)
  {
    hide EngineConfig.Valid, Engine.Valid, Engine.PartsValid, Engine.Tracks, TapeReadings, Unmarked, VpinsIn,
         ClosesIn, Summarize, ConfigError, Closing, MeanIntervalMs;
    var made := Engine.New(cfg, m);
    if made.Err? {
      return Err(made.error);
    }
    var engine := made.value;
    var totalBuckets, vpins, closes := 0, [], [];
    assert tape[..0] == [];
    NothingRead(cfg, m);
    for i := 0 to |tape|
      invariant engine.Valid() && fresh(engine.Repr()) && engine.cfg == cfg && engine.maths == m
      invariant engine.Tape() == Unmarked(tape[..i])
      invariant totalBuckets == |TapeReadings(engine.Tape(), cfg, m)|
      invariant vpins == VpinsIn(TapeReadings(engine.Tape(), cfg, m))
      invariant closes == ClosesIn(TapeReadings(engine.Tape(), cfg, m))
    {
      assert tape[..i + 1] == tape[..i] + [tape[i]];
      UnmarkedSnoc(tape[..i], tape[i]);
      ghost var before := TapeReadings(engine.Tape(), cfg, m);
      var reading := engine.PushTrade(tape[i].trade);
      assert before + [] == before;
      if reading.Some? {
        ReadingsSeenSnoc(before, reading.value);
        totalBuckets := totalBuckets + 1;
        closes := closes + [reading.value.tsClose];
        if reading.value.vpin.Some? {
          vpins := vpins + [reading.value.vpin.value];
        }
        assert vpins + [] == vpins;
      }
    }
    assert tape[..|tape|] == tape;
    return Ok(Stats(cfg, totalBuckets, |vpins|, Summarize(vpins, m), MeanIntervalMs(closes), bvc, None));
  }

  lemma NothingRead(cfg: EngineConfig, m: Maths)
    requires cfg.Valid()
    ensures Unmarked([]) == [] && TapeReadings([], cfg, m) == [] && VpinsIn([]) == [] && ClosesIn([]) == []
  {
    assert Unmarked([]) == [] && Buckets([], cfg.bucketVolume) == [];
    hide TapeReadings;
  }

  // ---- Lockstep

  /** The two passes stay in step on every tape: the judged buckets are the classified ones with the same
      call, and for every VPIN window the readings past warm-up number max(0, compared - window + 1). */
  lemma Lockstep(tape: seq<MarkedTrade>, cfg: EngineConfig, m: Maths)
    requires cfg.Valid()
    ensures var js := TapeJudged(tape, cfg.bucketVolume, cfg.sigmaWindow, m);
            var slots := Slots(TapeClassified(Unmarked(tape), cfg, m));
            && |js| == |slots|
            && (forall i :: 0 <= i < |js| ==> slots[i].volume > 0.0 && SameCall(slots[i], js[i]))
            && |VpinsIn(TapeReadings(Unmarked(tape), cfg, m))| == Excess(|js| + 1, cfg.vpinWindow)
  {
    var trades := Unmarked(tape);
    var bs, cs := Buckets(trades, cfg.bucketVolume), TapeClassified(trades, cfg, m);
    TapeMeasured(tape, cfg.bucketVolume);
    JudgesWhatIsClassified(bs, Cut(tape, cfg.bucketVolume).closed, cfg.sigmaWindow, m);
    TapeSlotsPositive(trades, cfg, m);
    hide Buckets, Classified, Judged, SameCall, PositiveSlots, Readings, Slots, Vpins, VpinsIn;
    VpinsInReadings(bs, cs, cfg);
    VpinCount(cs, cfg);
  }
}
