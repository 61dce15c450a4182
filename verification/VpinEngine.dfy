/**
 VPIN as a function of the closed buckets of a whole tape, in two stages: first every bucket is classified
 (or not), then the readings follow from the classifications. Every definition here looks at a finished
 list; nothing is kept from one bucket to the next.
 */
module VpinBatch {
  import opened Wrappers
  import opened RealSeqs
  import opened Numerics
  import opened RollingWindows
  import opened VolumeClock
  import opened Bvc
  import opened Bootstrap

  datatype EngineConfig = EngineConfig(
    bucketVolume: real, sigmaWindow: nat, vpinWindow: nat,
    cdfWindow: Option<nat>, interval: Option<IntervalConfig>)
  {
    predicate Valid() {
      && vpinWindow >= 1
      && (interval.Some? ==> interval.value.Valid())
      && bucketVolume > 0.0
      && sigmaWindow >= 2
      && (cdfWindow.Some? ==> cdfWindow.value >= 2)
    }
  }

  datatype VpinReading = VpinReading(
    bucketId: nat, tsClose: nat, tradesInBucket: nat,
    vpin: Option<real>, vpinCdf: Option<real>, ci: Option<Interval>)

  // ---- Stage 1: classification

  function Deltas(bs: seq<ClosedBucket>): (ds: seq<real>)
    ensures |ds| == |bs|
  {
    seq(|bs|, i requires 0 <= i < |bs| => bs[i].deltaP)
  }

  /** The last bucket classified with the sigma of the buckets strictly before it. */
  function LastSlot(bs: seq<ClosedBucket>, sigmaWindow: nat, m: Maths): Option<Slot>
    requires sigmaWindow >= 2 && bs != []
  {
    var b := Last(bs);
    match SigmaOf(Deltas(bs[..|bs| - 1]), sigmaWindow, m.root)
    case None => None
    case Some(sigma) =>
      match Imbalance(b.deltaP, sigma, b.volume, m.phi)
      case None => None
      case Some(imbalance) => Some(Slot(imbalance, b.volume))
  }

  /** One entry per bucket: its slot, or none when it could not be classified. */
  function Classified(bs: seq<ClosedBucket>, sigmaWindow: nat, m: Maths): (cs: seq<Option<Slot>>)
    requires sigmaWindow >= 2
    ensures |cs| == |bs|
  {
    seq(|bs|, k requires 0 <= k < |bs| => LastSlot(bs[..k + 1], sigmaWindow, m))
  }

  lemma ClassifiedSnoc(bs: seq<ClosedBucket>, b: ClosedBucket, sigmaWindow: nat, m: Maths)
    requires sigmaWindow >= 2
    ensures Classified(bs + [b], sigmaWindow, m)
         == Classified(bs, sigmaWindow, m) + [LastSlot(bs + [b], sigmaWindow, m)]
    ensures Deltas(bs + [b]) == Deltas(bs) + [b.deltaP]
  {
    hide LastSlot;
    assert (bs + [b])[..|bs| + 1] == bs + [b];
    forall k | 0 <= k < |bs|
      ensures Classified(bs + [b], sigmaWindow, m)[k] == Classified(bs, sigmaWindow, m)[k]
    {
      assert (bs + [b])[..k + 1] == bs[..k + 1];
    }
  }

  // ---- Stage 2: readings from classifications

  predicate PositiveSlots(cs: seq<Option<Slot>>) {
    forall i :: 0 <= i < |cs| ==> cs[i].Some? ==> cs[i].value.volume > 0.0
  }

  lemma PositivePrefix(cs: seq<Option<Slot>>, k: nat)
    requires k <= |cs| && PositiveSlots(cs)
    ensures PositiveSlots(cs[..k])
  {
  }

  /** The slots of the classified buckets, oldest first. */
  function Slots(cs: seq<Option<Slot>>): seq<Slot> {
    if cs == [] then [] else Slots(cs[..|cs| - 1]) + ToSeq(cs[|cs| - 1])
  }

  lemma {:induction false} SlotsPositive(cs: seq<Option<Slot>>)
    requires PositiveSlots(cs)
    ensures PositiveVolumes(Slots(cs))
  {
    if cs != [] {
      SlotsPositive(cs[..|cs| - 1]);
    }
  }

  /** The last n classified buckets. */
  function Window(cs: seq<Option<Slot>>, cfg: EngineConfig): (w: seq<Slot>)
    requires PositiveSlots(cs)
    ensures PositiveVolumes(w)
  {
    SlotsPositive(cs);
    LastN(Slots(cs), cfg.vpinWindow)
  }

  /** VPIN at the last bucket, if it was classified: the ratio of sums over the last n classified buckets. */
  function VpinAfter(cs: seq<Option<Slot>>, cfg: EngineConfig): Option<real>
    requires cfg.Valid() && cs != [] && PositiveSlots(cs)
  {
    if cs[|cs| - 1].None? || |Slots(cs)| < cfg.vpinWindow then None
    else Some(Ratio(Window(cs, cfg)))
  }

  /** All VPIN values, oldest first. */
  function Vpins(cs: seq<Option<Slot>>, cfg: EngineConfig): seq<real>
    requires cfg.Valid() && PositiveSlots(cs)
  {
    if cs == [] then [] else Vpins(cs[..|cs| - 1], cfg) + ToSeq(VpinAfter(cs, cfg))
  }

  function RankAfter(cs: seq<Option<Slot>>, cfg: EngineConfig): Option<real>
    requires cfg.Valid() && cs != [] && PositiveSlots(cs)
  {
    if VpinAfter(cs, cfg).None? || cfg.cdfWindow.None? then None
    else RankOf(Vpins(cs, cfg), cfg.cdfWindow.value)
  }

  /** Draws of the generator consumed once `vpins` intervals have been computed. */
  function DrawsAfter(vpins: nat, cfg: EngineConfig): nat {
    if cfg.interval.None? then 0 else vpins * (cfg.interval.value.samples * cfg.vpinWindow)
  }

  lemma DrawsNext(vpins: nat, cfg: EngineConfig)
    ensures DrawsAfter(0, cfg) == 0
    ensures cfg.interval.Some? ==>
              DrawsAfter(vpins + 1, cfg) == DrawsAfter(vpins, cfg) + cfg.interval.value.samples * cfg.vpinWindow
  {
  }

  function IntervalAfter(cs: seq<Option<Slot>>, cfg: EngineConfig): Option<Interval>
    requires cfg.Valid() && cs != [] && PositiveSlots(cs)
  {
    if VpinAfter(cs, cfg).None? || cfg.interval.None? then None
    else
      var draws := DrawsAfter(|Vpins(cs[..|cs| - 1], cfg)|, cfg);
      Some(ConfidenceInterval(Window(cs, cfg), cfg.interval.value, draws))
  }

  function ReadingAfter(b: ClosedBucket, cs: seq<Option<Slot>>, cfg: EngineConfig): VpinReading
    requires cfg.Valid() && cs != [] && PositiveSlots(cs)
  {
    VpinReading(b.bucketId, b.tsClose, b.tradeCount,
                VpinAfter(cs, cfg), RankAfter(cs, cfg), IntervalAfter(cs, cfg))
  }

  /** One reading per bucket; the reading of bucket k depends on the classifications of buckets 0..k only. */
  function Readings(bs: seq<ClosedBucket>, cs: seq<Option<Slot>>, cfg: EngineConfig): (rs: seq<VpinReading>)
    requires cfg.Valid() && PositiveSlots(cs) && |cs| == |bs|
    ensures |rs| == |bs|
  {
    seq(|bs|, k requires 0 <= k < |bs| => ReadingAfter(bs[k], cs[..k + 1], cfg))
  }

  lemma {:induction false} VpinsSnoc(cs: seq<Option<Slot>>, c: Option<Slot>, cfg: EngineConfig)
    requires cfg.Valid() && PositiveSlots(cs) && PositiveSlots(cs + [c])
    ensures Slots(cs + [c]) == Slots(cs) + ToSeq(c)
    ensures Vpins(cs + [c], cfg) == Vpins(cs, cfg) + ToSeq(VpinAfter(cs + [c], cfg))
  {
    assert (cs + [c])[..|cs|] == cs;
  }

  lemma ReadingsSnoc(
    bs: seq<ClosedBucket>, b: ClosedBucket, cs: seq<Option<Slot>>, c: Option<Slot>, cfg: EngineConfig)
    requires cfg.Valid() && |cs| == |bs| && PositiveSlots(cs) && PositiveSlots(cs + [c])
    ensures Readings(bs + [b], cs + [c], cfg) == Readings(bs, cs, cfg) + [ReadingAfter(b, cs + [c], cfg)]
  {
    hide ReadingAfter;
    assert (cs + [c])[..|bs| + 1] == cs + [c];
    forall k | 0 <= k < |bs|
      ensures Readings(bs + [b], cs + [c], cfg)[k] == Readings(bs, cs, cfg)[k]
    {
      assert (cs + [c])[..k + 1] == cs[..k + 1];
    }
  }

  // ---- Both stages on a tape

  /** The classifications of a tape's buckets. */
  function TapeClassified(tape: seq<Trade>, cfg: EngineConfig, m: Maths): (cs: seq<Option<Slot>>)
    requires cfg.Valid()
    ensures |cs| == |Buckets(tape, cfg.bucketVolume)|
  {
    Classified(Buckets(tape, cfg.bucketVolume), cfg.sigmaWindow, m)
  }

  /** Slots have positive volume, because every bucket reaches the target. */
  lemma TapeSlotsPositive(tape: seq<Trade>, cfg: EngineConfig, m: Maths)
    requires cfg.Valid()
    ensures PositiveSlots(TapeClassified(tape, cfg, m))
  {
    BucketShape(tape, cfg.bucketVolume);
    hide Buckets, SigmaOf, Imbalance;
  }

  /** Every reading of a tape. */
  function TapeReadings(tape: seq<Trade>, cfg: EngineConfig, m: Maths): (rs: seq<VpinReading>)
    requires cfg.Valid()
    ensures |rs| == |Buckets(tape, cfg.bucketVolume)|
  {
    TapeSlotsPositive(tape, cfg, m);
    Readings(Buckets(tape, cfg.bucketVolume), TapeClassified(tape, cfg, m), cfg)
  }

  lemma SameBucketsSameReadings(tape: seq<Trade>, tape': seq<Trade>, cfg: EngineConfig, m: Maths)
    requires cfg.Valid() && Buckets(tape, cfg.bucketVolume) == Buckets(tape', cfg.bucketVolume)
    ensures TapeClassified(tape, cfg, m) == TapeClassified(tape', cfg, m)
    ensures TapeReadings(tape', cfg, m) == TapeReadings(tape, cfg, m) + []
  {
  }

  /** What a trade that closes a bucket adds to the histories of a tape. */
  lemma BucketFacts(tape: seq<Trade>, t: Trade, cfg: EngineConfig, m: Maths)
    requires cfg.Valid() && Closing(tape, t, cfg.bucketVolume).Some?
    ensures var b := Closing(tape, t, cfg.bucketVolume).value;
            var bs, bs' := Buckets(tape, cfg.bucketVolume), Buckets(tape + [t], cfg.bucketVolume);
            var cs, cs' := TapeClassified(tape, cfg, m), TapeClassified(tape + [t], cfg, m);
            var c := LastSlot(bs', cfg.sigmaWindow, m);
            && bs' == bs + [b] && cs' == cs + [c] && Deltas(bs') == Deltas(bs) + [b.deltaP]
            && PositiveSlots(cs) && PositiveSlots(cs')
            && TapeReadings(tape + [t], cfg, m) == TapeReadings(tape, cfg, m) + [ReadingAfter(b, cs', cfg)]
            && Last(bs') == b && bs'[..|bs|] == bs && cs'[..|cs|] == cs
  {
    var b := Closing(tape, t, cfg.bucketVolume).value;
    var bs := Buckets(tape, cfg.bucketVolume);
    var cs := TapeClassified(tape, cfg, m);
    BucketsStep(tape, t, cfg.bucketVolume);
    hide Buckets, Closing, LastSlot, ReadingAfter;
    ClassifiedSnoc(bs, b, cfg.sigmaWindow, m);
    TapeSlotsPositive(tape, cfg, m);
    TapeSlotsPositive(tape + [t], cfg, m);
    hide Classified, PositiveSlots, Readings;
    ReadingsSnoc(bs, b, cs, LastSlot(bs + [b], cfg.sigmaWindow, m), cfg);
  }
}

/** The streaming estimator: one trade in, at most one reading out. */
module VpinEngine {
  import opened Wrappers
  import opened VpinErrors
  import opened RealSeqs
  import opened Numerics
  import opened RollingWindows
  import opened VolumeClock
  import opened Bvc
  import opened SplitMix
  import opened Bootstrap
  import opened VpinBatch

  /** The error `Engine.New` reports for a rejected configuration: the first check that fails. */
  function ConfigError(cfg: EngineConfig): VpinError
    requires !cfg.Valid()
  {
    if cfg.vpinWindow < 1 then InvalidWindow(cfg.vpinWindow, 1)
    else if cfg.interval.Some? && !(0.0 < cfg.interval.value.level < 1.0) then
      InvalidConfidenceLevel(cfg.interval.value.level)
    else if cfg.interval.Some? && cfg.interval.value.samples < 2 then
      InvalidBootstrapSamples(cfg.interval.value.samples, 2)
    else if !(cfg.bucketVolume > 0.0) then InvalidBucketVolume(cfg.bucketVolume)
    else if cfg.sigmaWindow < 2 then InvalidWindow(cfg.sigmaWindow, 2)
    else InvalidWindow(cfg.cdfWindow.value, 2)
  }

  /** What a configuration must satisfy, and the error for each way not to, in the order of the checks. */
  lemma ConfigErrorExactly(cfg: EngineConfig)
    ensures cfg.Valid() <==>
              && cfg.vpinWindow >= 1
              && (cfg.interval.Some? ==> 0.0 < cfg.interval.value.level < 1.0 && cfg.interval.value.samples >= 2)
              && cfg.bucketVolume > 0.0 && cfg.sigmaWindow >= 2
              && (cfg.cdfWindow.Some? ==> cfg.cdfWindow.value >= 2)
    ensures cfg.vpinWindow < 1 ==> ConfigError(cfg) == InvalidWindow(cfg.vpinWindow, 1)
    ensures cfg.vpinWindow >= 1 && cfg.interval.Some? ==>
              var ci := cfg.interval.value;
              && (!(0.0 < ci.level < 1.0) ==> ConfigError(cfg) == InvalidConfidenceLevel(ci.level))
              && (0.0 < ci.level < 1.0 && ci.samples < 2 ==> ConfigError(cfg) == InvalidBootstrapSamples(ci.samples, 2))
    ensures cfg.vpinWindow >= 1
            && (cfg.interval.Some? ==> 0.0 < cfg.interval.value.level < 1.0 && cfg.interval.value.samples >= 2) ==>
              && (cfg.bucketVolume <= 0.0 ==> ConfigError(cfg) == InvalidBucketVolume(cfg.bucketVolume))
              && (cfg.bucketVolume > 0.0 && cfg.sigmaWindow < 2 ==>
                    ConfigError(cfg) == InvalidWindow(cfg.sigmaWindow, 2))
              && (cfg.bucketVolume > 0.0 && cfg.sigmaWindow >= 2 && cfg.cdfWindow.Some? && cfg.cdfWindow.value < 2 ==>
                    ConfigError(cfg) == InvalidWindow(cfg.cdfWindow.value, 2))
  {
  }

  lemma NothingClassified(cfg: EngineConfig, m: Maths)
    requires cfg.Valid()
    ensures Deltas(Buckets([], cfg.bucketVolume)) == [] && TapeClassified([], cfg, m) == []
    ensures PositiveSlots([]) && Slots([]) == [] && LastN<Slot>([], cfg.vpinWindow) == [] && Vpins([], cfg) == []
    ensures DrawsAfter(0, cfg) == 0
  {
    assert Buckets([], cfg.bucketVolume) == [] && Deltas([]) == [];
    DrawsNext(0, cfg);
  }

  class Engine {
    const cfg: EngineConfig
    const maths: Maths
    const bucketer: VolumeBucketer
    const sigma: RollingSigma
    const cdf: EmpiricalCdf?
    const rng: SplitMix64?
    var imbalances: seq<Slot>

    ghost function Repr(): set<object> {
      {this, bucketer, sigma} + (if cdf == null then {} else {cdf}) + (if rng == null then {} else {rng})
    }

    /** The trades pushed so far. */
    ghost function Tape(): seq<Trade>
      reads bucketer
    {
      bucketer.history
    }

    /** Every part that looks at classifications is a function of them. */
    ghost predicate Tracks(cs: seq<Option<Slot>>)
      requires cfg.Valid() && PositiveSlots(cs)
      reads Repr()
    {
      && imbalances == LastN(Slots(cs), cfg.vpinWindow)
      && (cdf != null ==> cdf.history == Vpins(cs, cfg))
      && (rng != null ==> rng.draws == DrawsAfter(|Vpins(cs, cfg)|, cfg))
    }

    ghost predicate PartsValid()
      reads Repr()
    {
      && cfg.Valid()
      && bucketer.Valid() && bucketer.targetVolume == cfg.bucketVolume
      && sigma.Valid() && sigma.window == cfg.sigmaWindow && sigma.root == maths.root
      && (cdf != null <==> cfg.cdfWindow.Some?)
      && (cdf != null ==> cdf.Valid() && cdf.window == cfg.cdfWindow.value)
      && (rng != null <==> cfg.interval.Some?)
      && (rng != null ==> rng.Valid() && rng.seed == cfg.interval.value.seed)
    }

    ghost predicate Valid()
      reads Repr()
    {
      && PartsValid()
      && sigma.history == Deltas(Buckets(Tape(), cfg.bucketVolume))
      && PositiveSlots(TapeClassified(Tape(), cfg, maths))
      && Tracks(TapeClassified(Tape(), cfg, maths))
    }

    constructor (cfg: EngineConfig, maths: Maths)
      requires cfg.Valid()
      ensures Valid() && fresh(Repr()) && Tape() == [] && this.cfg == cfg && this.maths == maths
    {
      hide DrawsAfter, Buckets, TapeClassified, Deltas, Greedy, SigmaOf, Advance, RankOf, VpinAfter, Slots, Vpins,
           LastN, PositiveSlots, VolumeBucketer.Valid, VolumeBucketer.Tracks, RollingSigma.Valid, EmpiricalCdf.Valid,
           SplitMix64.Valid, IntervalConfig.Valid;
      this.cfg, this.maths := cfg, maths;
      bucketer := new VolumeBucketer(cfg.bucketVolume);
      sigma := new RollingSigma(cfg.sigmaWindow, maths.root);
      imbalances := [];
      if cfg.cdfWindow.Some? {
        cdf := new EmpiricalCdf(cfg.cdfWindow.value);
      } else {
        cdf := null;
      }
      if cfg.interval.Some? {
        rng := new SplitMix64(cfg.interval.value.seed);
      } else {
        rng := null;
      }
      new;
      NothingClassified(cfg, maths);
    }

    static method New(cfg: EngineConfig, maths: Maths) returns (r: Result<Engine, VpinError>)
      ensures r.Ok? <==> cfg.Valid()
      ensures r.Ok? ==> fresh(r.value) && fresh(r.value.Repr()) && r.value.Valid() && r.value.Tape() == []
                        && r.value.cfg == cfg && r.value.maths == maths
      ensures r.Err? ==> r.error == ConfigError(cfg)
    {
      if !cfg.Valid() {
        return Err(ConfigError(cfg));
      }
      var e := new Engine(cfg, maths);
      return Ok(e);
    }

    /** Classifies the bucket just closed, given the sigma before it, and moves the imbalance window. */
    method UpdateVpin(
      closed: ClosedBucket, sigmaBefore: Option<real>, ghost cs: seq<Option<Slot>>, ghost c: Option<Slot>)
      returns (vpin: Option<real>)
      requires cfg.Valid() && PositiveSlots(cs) && PositiveSlots(cs + [c])
      requires imbalances == LastN(Slots(cs), cfg.vpinWindow)
      requires c == if sigmaBefore.None? then None else
                 var i := Imbalance(closed.deltaP, sigmaBefore.value, closed.volume, maths.phi);
                 if i.None? then None else Some(Slot(i.value, closed.volume))
      modifies this
      ensures imbalances == LastN(Slots(cs + [c]), cfg.vpinWindow)
      ensures vpin == VpinAfter(cs + [c], cfg)
      ensures vpin.Some? ==> imbalances == Window(cs + [c], cfg) && |imbalances| == cfg.vpinWindow
      ensures vpin.Some? ==> IsRatio(imbalances, vpin.value)
    {
      hide IsRatio, Slots, Imbalance, Ratio;
      VpinsSnoc(cs, c, cfg);
      assert Slots(cs) + [] == Slots(cs);
      if sigmaBefore.None? {
        return None;
      }
      var imbalance := Imbalance(closed.deltaP, sigmaBefore.value, closed.volume, maths.phi);
      if imbalance.None? {
        return None;
      }
      LastNSnoc(Slots(cs), cfg.vpinWindow, c.value);
      if |imbalances| == cfg.vpinWindow {
        imbalances := imbalances[1..];
      }
      imbalances := imbalances + [Slot(imbalance.value, closed.volume)];
      hide LastN;
      if |imbalances| < cfg.vpinWindow {
        return None;
      }
      assert imbalances == Window(cs + [c], cfg);
      hide Window;
      RatioExactly(imbalances);
      return Some(Ratio(imbalances));
    }

    /** Ranks a new VPIN and bootstraps its interval, where configured. */
    method RankAndInterval(vpin: Option<real>, ghost cs: seq<Option<Slot>>, ghost c: Option<Slot>)
      returns (rank: Option<real>, ci: Option<Interval>)
      requires PartsValid() && PositiveSlots(cs) && PositiveSlots(cs + [c])
      requires vpin == VpinAfter(cs + [c], cfg)
      requires vpin.Some? ==> imbalances == Window(cs + [c], cfg) && |imbalances| == cfg.vpinWindow
      requires cdf != null ==> cdf.history == Vpins(cs, cfg)
      requires rng != null ==> rng.draws == DrawsAfter(|Vpins(cs, cfg)|, cfg)
      modifies Repr() - {this, bucketer, sigma}
      ensures PartsValid()
      ensures cdf != null ==> cdf.history == Vpins(cs + [c], cfg)
      ensures rng != null ==> rng.draws == DrawsAfter(|Vpins(cs + [c], cfg)|, cfg)
      ensures rank == RankAfter(cs + [c], cfg) && ci == IntervalAfter(cs + [c], cfg)
      ensures vpin.Some? && cdf != null ==> IsRank(cdf.history, cdf.window, rank)
    {
      hide IsRank;
      hide Greedy, Volume, SigmaOf, Slots, Vpins, VpinAfter, Window, RankOf, LastN, DrawsAfter, Advance,
           ConfidenceInterval, PositiveSlots, PositiveVolumes;
      VpinsSnoc(cs, c, cfg);
      DrawsNext(|Vpins(cs, cfg)|, cfg);
      assert Vpins(cs, cfg) + [] == Vpins(cs, cfg);
      assert (cs + [c])[..|cs|] == cs;
      rank, ci := None, None;
      if vpin.Some? && cdf != null {
        rank := cdf.Push(vpin.value);
      }
      if vpin.Some? && rng != null {
        var interval := BootstrapCi(imbalances, cfg.interval.value, rng);
        ci := Some(interval);
      }
    }

    method PushTrade(t: Trade) returns (reading: Option<VpinReading>)
      requires Valid()
      modifies Repr()
      ensures Valid() && Tape() == old(Tape()) + [t]
      ensures TapeReadings(Tape(), cfg, maths) == TapeReadings(old(Tape()), cfg, maths) + ToSeq(reading)
      ensures reading.Some? <==> Closing(old(Tape()), t, cfg.bucketVolume).Some?
      ensures reading.Some? && reading.value.vpin.Some? ==>
                && |imbalances| == cfg.vpinWindow && IsRatio(imbalances, reading.value.vpin.value)
                && (cdf != null ==> IsRank(cdf.history, cdf.window, reading.value.vpinCdf))
    {
      hide IsRatio, IsRank;
      hide Buckets, Greedy, Volume, Closing, Deltas, SigmaOf, Slots, Vpins, VpinAfter, Window, RankOf,
           LastN, DrawsAfter, Advance, ConfidenceInterval, PositiveSlots, PositiveVolumes, TapeReadings,
           TapeClassified, Imbalance;
      ghost var tape := Tape();
      ghost var cs := TapeClassified(tape, cfg, maths);
      var closed := bucketer.Push(t);
      if closed.None? {
        BucketsStep(tape, t, cfg.bucketVolume);
        SameBucketsSameReadings(tape, Tape(), cfg, maths);
        return None;
      }
      BucketFacts(tape, t, cfg, maths);
      ghost var cs' := TapeClassified(Tape(), cfg, maths);

      var sigmaBefore := sigma.current;
      var vpin := UpdateVpin(closed.value, sigmaBefore, cs, cs'[|cs|]);
      var _ := sigma.Push(closed.value.deltaP);

      var rank, ci := RankAndInterval(vpin, cs'[..|cs|], cs'[|cs|]);
      reading := Some(VpinReading(closed.value.bucketId, closed.value.tsClose, closed.value.tradeCount,
                                  vpin, rank, ci));
    }
  }
}
