/**
 The value of every field of every reading, said of the tape's buckets, slots and readings themselves rather
 than by the functions that compute it.
 */
module ReadingValues {
  import opened Wrappers
  import opened RealSeqs
  import opened Numerics
  import opened RollingWindows
  import opened VolumeClock
  import opened Bvc
  import opened SplitMix
  import opened Percentiles
  import opened Bootstrap
  import opened VpinBatch
  import opened VpinProperties

  // ---- Buckets and slots

  /** A bucket's fields, from its segment of the greedy partition and the one before. */
  lemma BucketExactly(tape: seq<Trade>, target: real, j: nat)
    requires j < |Buckets(tape, target)|
    ensures |Greedy(tape, target).closed| == |Buckets(tape, target)| && tape != []
    ensures var closed, b := Greedy(tape, target).closed, Buckets(tape, target)[j];
            && closed[j] != [] && (j > 0 ==> closed[j - 1] != [])
            && b.bucketId == j && b.volume == Volume(closed[j]) && b.tradeCount == |closed[j]|
            && b.lastPrice == Last(closed[j]).price && b.tsClose == Last(closed[j]).ts
            && b.deltaP == b.lastPrice - if j == 0 then tape[0].price else Last(closed[j - 1]).price
  {
    hide Greedy, Volume;
  }

  lemma DeltasAre(bs: seq<ClosedBucket>, i: nat)
    requires i < |bs|
    ensures |Deltas(bs)| == |bs| && Deltas(bs)[i] == bs[i].deltaP
  {
  }

  /** The slot of bucket k: none before w buckets or without a positive deviation of the w changes before it;
      else its volume, and how far apart the two sides of its split are. */
  lemma SlotExactly(bs: seq<ClosedBucket>, k: nat, w: nat, m: Maths)
    requires w >= 2 && k < |bs|
    ensures |Classified(bs, w, m)| == |bs|
    ensures k < w ==> Classified(bs, w, m)[k] == None
    ensures k >= w ==>
              var b, sigma := bs[k], m.root(SampleVariance(Deltas(bs)[k - w..k]));
              var slot := Classified(bs, w, m)[k];
              && (slot.Some? <==> sigma > 0.0)
              && (slot.Some? ==>
                    var buy := b.volume * m.phi(b.deltaP / sigma);
                    slot.value == Slot(Abs(buy - (b.volume - buy)), b.volume))
  {
    var seen, b := bs[..k + 1], bs[k];
    hide SigmaOf, Deltas, SampleVariance;
    assert seen[..k] == bs[..k] && Last(seen) == b;
    SigmaBefore(bs, k, w, m.root);
    if k >= w {
      var sigma := m.root(SampleVariance(Deltas(bs)[k - w..k]));
      ClassifyExactly(b.deltaP, sigma, b.volume, m.phi);
      hide Classify;
    }
  }

  // ---- VPIN

  /** `v` times the volumes of the last n slots is their imbalances, there being so many. */
  ghost predicate IsVpin(slots: seq<Slot>, n: nat, v: real) {
    |slots| >= n && v * SumVolume(slots[|slots| - n..]) == SumImbalance(slots[|slots| - n..])
  }

  lemma RatioIs(w: seq<Slot>, v: real)
    requires w != [] && PositiveVolumes(w)
    ensures SumVolume(w) > 0.0
    ensures Ratio(w) == v <==> v * SumVolume(w) == SumImbalance(w)
  {
    assert SumVolume(w) > 0.0;
    hide SumVolume, SumImbalance, PositiveVolumes;
    QuotientIs(v, SumImbalance(w), SumVolume(w));
  }

  lemma LastAsSlice<T>(s: seq<T>, n: nat)
    requires n <= |s|
    ensures LastN(s, n) == s[|s| - n..]
  {
    if |s| == n {
      assert s[0..] == s;
    }
  }

  lemma VpinAfterExactly(cs: seq<Option<Slot>>, cfg: EngineConfig, v: real)
    requires cfg.Valid() && cs != [] && PositiveSlots(cs)
    ensures VpinAfter(cs, cfg) == Some(v) <==> Last(cs).Some? && IsVpin(Slots(cs), cfg.vpinWindow, v)
  {
    hide Slots, Ratio, PositiveSlots, PositiveVolumes, SumVolume, SumImbalance;
    if |Slots(cs)| >= cfg.vpinWindow {
      LastAsSlice(Slots(cs), cfg.vpinWindow);
      RatioIs(Window(cs, cfg), v);
    }
    hide LastN;
  }

  /** Over every tape: reading k has VPIN v iff bucket k has a slot, at least n buckets up to it have one, and v
      times the volumes of the last n slots is their imbalances. */
  lemma VpinExactly(tape: seq<Trade>, k: nat, cfg: EngineConfig, m: Maths, v: real)
    requires cfg.Valid() && k < |TapeReadings(tape, cfg, m)|
    ensures var cs := TapeClassified(tape, cfg, m);
            TapeReadings(tape, cfg, m)[k].vpin == Some(v) <==>
              cs[k].Some? && IsVpin(Slots(cs[..k + 1]), cfg.vpinWindow, v)
  {
    var cs := TapeClassified(tape, cfg, m);
    TapeSlotsPositive(tape, cfg, m);
    PositivePrefix(cs, k + 1);
    hide Buckets, TapeClassified, Slots, VpinAfter, PositiveSlots, RankAfter, IntervalAfter, IsVpin;
    VpinAfterExactly(cs[..k + 1], cfg, v);
  }

  // ---- Rank

  /** The VPINs of a run of readings, oldest first. */
  function VpinsIn(rs: seq<VpinReading>): seq<real> {
    if rs == [] then [] else VpinsIn(rs[..|rs| - 1]) + ToSeq(Last(rs).vpin)
  }

  lemma VpinsInSnoc(rs: seq<VpinReading>, r: VpinReading)
    ensures VpinsIn([]) == []
    ensures VpinsIn(rs + [r]) == VpinsIn(rs) + if r.vpin.Some? then [r.vpin.value] else []
  {
    assert (rs + [r])[..|rs|] == rs;
  }

  lemma {:induction false} VpinsInReadings(bs: seq<ClosedBucket>, cs: seq<Option<Slot>>, cfg: EngineConfig)
    requires cfg.Valid() && PositiveSlots(cs) && |cs| == |bs|
    ensures VpinsIn(Readings(bs, cs, cfg)) == Vpins(cs, cfg)
  {
    if cs != [] {
      var bs', b := bs[..|bs| - 1], Last(bs);
      var cs', c := cs[..|cs| - 1], Last(cs);
      assert bs == bs' + [b] && cs == cs' + [c];
      PositivePrefix(cs, |cs'|);
      VpinsInReadings(bs', cs', cfg);
      hide PositiveSlots, VpinAfter, RankAfter, IntervalAfter, Readings;
      ReadingsSnoc(bs', b, cs', c, cfg);
      VpinsInSnoc(Readings(bs', cs', cfg), ReadingAfter(b, cs, cfg));
    }
  }

  lemma ReadingsPrefix(bs: seq<ClosedBucket>, cs: seq<Option<Slot>>, cfg: EngineConfig, k: nat)
    requires cfg.Valid() && PositiveSlots(cs) && |cs| == |bs| && k <= |bs|
    ensures PositiveSlots(cs[..k]) && Readings(bs, cs, cfg)[..k] == Readings(bs[..k], cs[..k], cfg)
  {
    PositivePrefix(cs, k);
    hide ReadingAfter, PositiveSlots;
    forall i | 0 <= i < k
      ensures Readings(bs, cs, cfg)[i] == Readings(bs[..k], cs[..k], cfg)[i]
    {
      assert cs[..k][..i + 1] == cs[..i + 1];
    }
  }

  /** The VPINs of a tape's first k readings. */
  lemma VpinsOfPrefix(tape: seq<Trade>, k: nat, cfg: EngineConfig, m: Maths)
    requires cfg.Valid() && k <= |TapeReadings(tape, cfg, m)|
    ensures PositiveSlots(TapeClassified(tape, cfg, m)[..k])
    ensures VpinsIn(TapeReadings(tape, cfg, m)[..k]) == Vpins(TapeClassified(tape, cfg, m)[..k], cfg)
  {
    var bs, cs := Buckets(tape, cfg.bucketVolume), TapeClassified(tape, cfg, m);
    TapeSlotsPositive(tape, cfg, m);
    hide Buckets, TapeClassified, Readings, PositiveSlots, Vpins, VpinsIn;
    ReadingsPrefix(bs, cs, cfg, k);
    VpinsInReadings(bs[..k], cs[..k], cfg);
  }

  /** Over every tape: a reading has no rank unless ranking is configured and it has a VPIN; then its rank is
      the share of the last c VPINs so far that do not exceed its own, once there are so many. */
  lemma RankOnTapeExactly(tape: seq<Trade>, k: nat, cfg: EngineConfig, m: Maths)
    requires cfg.Valid() && k < |TapeReadings(tape, cfg, m)|
    ensures var rs := TapeReadings(tape, cfg, m);
            if cfg.cdfWindow.None? || rs[k].vpin.None? then rs[k].vpinCdf == None
            else IsRank(VpinsIn(rs[..k + 1]), cfg.cdfWindow.value, rs[k].vpinCdf)
  {
    var cs := TapeClassified(tape, cfg, m);
    TapeSlotsPositive(tape, cfg, m);
    VpinsOfPrefix(tape, k + 1, cfg, m);
    hide Buckets, TapeClassified, VpinsIn, Vpins, VpinAfter, PositiveSlots, RankOf, IntervalAfter, IsRank;
    if cfg.cdfWindow.Some? {
      RankInFull(Vpins(cs[..k + 1], cfg), cfg.cdfWindow.value);
    }
  }

  // ---- Interval and the rest

  /** `ci` is the interval of the last n slots, after the draws of `earlier` intervals. */
  ghost predicate IsInterval(slots: seq<Slot>, n: nat, icfg: IntervalConfig, earlier: nat, ci: Interval) {
    && icfg.Valid() && 0 < n <= |slots| && PositiveVolumes(slots[|slots| - n..])
    && ci == ConfidenceInterval(slots[|slots| - n..], icfg, earlier * (icfg.samples * n))
  }

  lemma IntervalAfterExactly(cs: seq<Option<Slot>>, cfg: EngineConfig)
    requires cfg.Valid() && cs != [] && PositiveSlots(cs) && PositiveSlots(cs[..|cs| - 1])
    ensures var ci := IntervalAfter(cs, cfg);
            && (ci.Some? <==> cfg.interval.Some? && VpinAfter(cs, cfg).Some?)
            && (ci.Some? ==>
                  IsInterval(Slots(cs), cfg.vpinWindow, cfg.interval.value, |Vpins(cs[..|cs| - 1], cfg)|, ci.value))
  {
    hide Slots, Ratio, PositiveSlots, PositiveVolumes, Vpins, ConfidenceInterval, IntervalConfig.Valid;
    if VpinAfter(cs, cfg).Some? {
      LastAsSlice(Slots(cs), cfg.vpinWindow);
    }
    hide LastN;
  }

  /** Over every tape: a reading has an interval iff intervals are configured and it has a VPIN; it is that of
      the last n slots, resampled from where the draws of the earlier VPINs ended. */
  lemma IntervalOnTapeExactly(tape: seq<Trade>, k: nat, cfg: EngineConfig, m: Maths)
    requires cfg.Valid() && k < |TapeReadings(tape, cfg, m)|
    ensures var rs, slots := TapeReadings(tape, cfg, m), Slots(TapeClassified(tape, cfg, m)[..k + 1]);
            && (rs[k].ci.Some? <==> cfg.interval.Some? && rs[k].vpin.Some?)
            && (rs[k].ci.Some? ==>
                  IsInterval(slots, cfg.vpinWindow, cfg.interval.value, |VpinsIn(rs[..k])|, rs[k].ci.value))
  {
    var cs := TapeClassified(tape, cfg, m);
    var seen := cs[..k + 1];
    TapeSlotsPositive(tape, cfg, m);
    VpinsOfPrefix(tape, k, cfg, m);
    PositivePrefix(cs, k + 1);
    assert seen[..k] == cs[..k];
    hide Buckets, TapeClassified, VpinsIn, Vpins, VpinAfter, PositiveSlots, RankAfter, IntervalAfter, Slots, IsInterval;
    IntervalAfterExactly(seen, cfg);
  }

  /** Over every tape a reading carries its bucket's id, close time and trade count. */
  lemma ReadingCarriesBucket(tape: seq<Trade>, k: nat, cfg: EngineConfig, m: Maths)
    requires cfg.Valid() && k < |TapeReadings(tape, cfg, m)|
    ensures |TapeReadings(tape, cfg, m)| == |Buckets(tape, cfg.bucketVolume)|
    ensures var r, b := TapeReadings(tape, cfg, m)[k], Buckets(tape, cfg.bucketVolume)[k];
            && r.bucketId == b.bucketId == k && r.tsClose == b.tsClose && r.tradesInBucket == b.tradeCount
  {
    BucketShape(tape, cfg.bucketVolume);
    hide Buckets, TapeClassified, VpinAfter, RankAfter, IntervalAfter;
  }
}
