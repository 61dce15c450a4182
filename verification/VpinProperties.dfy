/** What the estimator's readings mean, over every tape and every configuration. */
module VpinProperties {
  import opened Wrappers
  import opened RealSeqs
  import opened Numerics
  import opened RollingWindows
  import opened VolumeClock
  import opened Bvc
  import opened SplitMix
  import opened Bootstrap
  import opened VpinBatch
  import opened VpinEngine

  // ---- Which buckets are classified

  /** The w price changes before bucket k's own exist and are all equal. */
  ghost predicate ConstantBefore(bs: seq<ClosedBucket>, k: nat, w: nat)
    requires k <= |bs|
  {
    k >= w && AllEqual(Deltas(bs)[k - w..k])
  }

  /** Sigma before bucket k is the deviation of exactly the w changes before its own. */
  lemma SigmaBefore(bs: seq<ClosedBucket>, k: nat, w: nat, root: real -> real)
    requires w >= 2 && k <= |bs|
    ensures SigmaOf(Deltas(bs[..k]), w, root)
         == if k < w then None else Some(root(SampleVariance(Deltas(bs)[k - w..k])))
  {
    if k >= w {
      assert LastN(Deltas(bs[..k]), w) == Deltas(bs)[k - w..k];
    }
  }

  /** A bucket is classified iff the sigma of the buckets before it exists and is positive. */
  lemma ClassifiedBySigma(bs: seq<ClosedBucket>, k: nat, w: nat, m: Maths)
    requires w >= 2 && k < |bs|
    ensures var sigma := SigmaOf(Deltas(bs[..k]), w, m.root);
            Classified(bs, w, m)[k].Some? <==> sigma.Some? && sigma.value > 0.0
  {
    var seen, sigma := bs[..k + 1], SigmaOf(Deltas(bs[..k]), w, m.root);
    assert seen[..k] == bs[..k] && Last(seen) == bs[k];
    hide SigmaOf, Deltas, Imbalance;
    if sigma.Some? {
      ImbalanceDefined(bs[k].deltaP, sigma.value, bs[k].volume, m.phi);
    }
  }

  lemma RootZeroIffConstant(recent: seq<real>, root: real -> real)
    requires |recent| >= 2 && IsRoot(root)
    ensures root(SampleVariance(recent)) > 0.0 <==> !AllEqual(recent)
  {
    VarianceZeroIffConstant(recent);
    hide SampleVariance, AllEqual;
  }

  /** A bucket is classified iff w buckets precede it and their changes are not all equal. */
  lemma ClassifiedExactly(bs: seq<ClosedBucket>, k: nat, w: nat, m: Maths)
    requires w >= 2 && m.Valid() && k < |bs|
    ensures Classified(bs, w, m)[k].Some? <==> k >= w && !ConstantBefore(bs, k, w)
  {
    hide Classified, SampleVariance, SigmaOf, AllEqual, Deltas;
    ClassifiedBySigma(bs, k, w, m);
    SigmaBefore(bs, k, w, m.root);
    if k >= w {
      RootZeroIffConstant(Deltas(bs)[k - w..k], m.root);
    }
  }

  /** No window of w successive price changes is constant. */
  ghost predicate NoConstantWindow(bs: seq<ClosedBucket>, w: nat) {
    forall k :: 0 <= k < |bs| ==> !ConstantBefore(bs, k, w)
  }

  function Excess(a: int, b: int): nat {
    if a <= b then 0 else a - b
  }

  lemma {:induction false} SlotCount(cs: seq<Option<Slot>>, w: nat)
    requires forall k :: 0 <= k < |cs| ==> (cs[k].Some? <==> k >= w)
    ensures |Slots(cs)| == Excess(|cs|, w)
  {
    if cs != [] {
      SlotCount(cs[..|cs| - 1], w);
    }
  }

  /** A VPIN for each classified bucket from the n-th on, whatever the classifications. */
  lemma {:induction false} VpinCount(cs: seq<Option<Slot>>, cfg: EngineConfig)
    requires cfg.Valid() && PositiveSlots(cs)
    ensures |Vpins(cs, cfg)| == Excess(|Slots(cs)| + 1, cfg.vpinWindow)
  {
    if cs != [] {
      hide Ratio, Window, PositiveSlots;
      PositivePrefix(cs, |cs| - 1);
      VpinCount(cs[..|cs| - 1], cfg);
    }
  }

  /** When exactly the first w buckets are unclassified. */
  lemma WarmupOf(b: ClosedBucket, cs: seq<Option<Slot>>, cfg: EngineConfig)
    requires cfg.Valid() && cs != [] && PositiveSlots(cs)
    requires forall i :: 0 <= i < |cs| ==> (cs[i].Some? <==> i >= cfg.sigmaWindow)
    ensures var r := ReadingAfter(b, cs, cfg);
            && (r.vpin.Some? <==> |cs| >= cfg.sigmaWindow + cfg.vpinWindow)
            && (r.vpinCdf.Some? <==>
                  cfg.cdfWindow.Some? && |cs| >= cfg.sigmaWindow + cfg.vpinWindow + cfg.cdfWindow.value - 1)
            && (r.ci.Some? <==> cfg.interval.Some? && |cs| >= cfg.sigmaWindow + cfg.vpinWindow)
  {
    SlotCount(cs, cfg.sigmaWindow);
    VpinCount(cs, cfg);
    hide Slots, Vpins, Window, Ratio, ConfidenceInterval, CountLe, LastN, PositiveSlots;
  }

  /** Without a degenerate window the first VPIN comes with bucket w + n - 1 and the first rank with
      bucket w + n + c - 2 (counting from 0), and none is missing afterwards. */
  lemma WarmupEndsExactly(tape: seq<Trade>, k: nat, cfg: EngineConfig, m: Maths)
    requires cfg.Valid() && m.Valid() && k < |TapeReadings(tape, cfg, m)|
    requires NoConstantWindow(Buckets(tape, cfg.bucketVolume), cfg.sigmaWindow)
    ensures var r := TapeReadings(tape, cfg, m)[k];
            && (r.vpin.Some? <==> k >= cfg.sigmaWindow + cfg.vpinWindow - 1)
            && (r.vpinCdf.Some? <==>
                  cfg.cdfWindow.Some? && k >= cfg.sigmaWindow + cfg.vpinWindow + cfg.cdfWindow.value - 2)
            && (r.ci.Some? <==> cfg.interval.Some? && k >= cfg.sigmaWindow + cfg.vpinWindow - 1)
  {
    var bs := Buckets(tape, cfg.bucketVolume);
    var cs := TapeClassified(tape, cfg, m);
    TapeSlotsPositive(tape, cfg, m);
    forall i | 0 <= i < |cs|
      ensures cs[i].Some? <==> i >= cfg.sigmaWindow
    {
      ClassifiedExactly(bs, i, cfg.sigmaWindow, m);
    }
    hide Buckets, TapeClassified, PositiveSlots, NoConstantWindow, ReadingAfter;
    PositivePrefix(cs, k + 1);
    WarmupOf(bs[k], cs[..k + 1], cfg);
  }

  // ---- A VPIN can be missing again

  lemma VpinAfterExists(cs: seq<Option<Slot>>, cfg: EngineConfig)
    requires cfg.Valid() && cs != [] && PositiveSlots(cs)
    ensures VpinAfter(cs, cfg).Some? <==> Last(cs).Some? && |Slots(cs)| >= cfg.vpinWindow
  {
    hide Slots, Ratio, Window, PositiveSlots;
  }

  lemma VpinOfReading(tape: seq<Trade>, k: nat, cfg: EngineConfig, m: Maths)
    requires cfg.Valid() && k < |TapeReadings(tape, cfg, m)|
    ensures TapeReadings(tape, cfg, m)[k].vpin.Some? <==>
              TapeClassified(tape, cfg, m)[k].Some?
              && |Slots(TapeClassified(tape, cfg, m)[..k + 1])| >= cfg.vpinWindow
  {
    var cs := TapeClassified(tape, cfg, m);
    TapeSlotsPositive(tape, cfg, m);
    PositivePrefix(cs, k + 1);
    hide Buckets, TapeClassified, Slots, VpinAfter, PositiveSlots, RankAfter, IntervalAfter;
    VpinAfterExists(cs[..k + 1], cfg);
  }

  /** Reading k has a VPIN iff w buckets precede it, their changes are not all equal, and bucket k is at
      least the n-th classified one. */
  lemma VpinPresentExactly(tape: seq<Trade>, k: nat, cfg: EngineConfig, m: Maths)
    requires cfg.Valid() && m.Valid() && k < |TapeReadings(tape, cfg, m)|
    ensures TapeReadings(tape, cfg, m)[k].vpin.Some? <==>
              && k >= cfg.sigmaWindow
              && !ConstantBefore(Buckets(tape, cfg.bucketVolume), k, cfg.sigmaWindow)
              && |Slots(TapeClassified(tape, cfg, m)[..k + 1])| >= cfg.vpinWindow
  {
    VpinOfReading(tape, k, cfg, m);
    hide TapeReadings, Buckets, Slots, Classified, ConstantBefore;
    ClassifiedExactly(Buckets(tape, cfg.bucketVolume), k, cfg.sigmaWindow, m);
  }

  lemma RankAfterExists(cs: seq<Option<Slot>>, cfg: EngineConfig)
    requires cfg.Valid() && cs != [] && PositiveSlots(cs)
    ensures RankAfter(cs, cfg).Some? <==>
              && cfg.cdfWindow.Some? && VpinAfter(cs, cfg).Some?
              && |Slots(cs)| >= cfg.vpinWindow + cfg.cdfWindow.value - 1
  {
    hide Slots, Vpins, VpinAfter, CountLe, LastN, PositiveSlots;
    VpinCount(cs, cfg);
  }

  /** On any tape, flat stretches or not, reading k has a rank iff ranking is configured, it has a VPIN, and
      bucket k is at least the (n + c - 1)-th classified one: ranks warm up c - 1 classified buckets longer. */
  lemma RankPresentExactly(tape: seq<Trade>, k: nat, cfg: EngineConfig, m: Maths)
    requires cfg.Valid() && k < |TapeReadings(tape, cfg, m)|
    ensures TapeReadings(tape, cfg, m)[k].vpinCdf.Some? <==>
              && cfg.cdfWindow.Some? && TapeReadings(tape, cfg, m)[k].vpin.Some?
              && |Slots(TapeClassified(tape, cfg, m)[..k + 1])| >= cfg.vpinWindow + cfg.cdfWindow.value - 1
  {
    var cs := TapeClassified(tape, cfg, m);
    TapeSlotsPositive(tape, cfg, m);
    PositivePrefix(cs, k + 1);
    hide Buckets, TapeClassified, Slots, VpinAfter, PositiveSlots, RankAfter, IntervalAfter;
    RankAfterExists(cs[..k + 1], cfg);
  }

  /** Reading k has a VPIN and, though ranking is configured, no rank. */
  ghost predicate UnrankedAt(tape: seq<Trade>, k: nat, cfg: EngineConfig, m: Maths) {
    && cfg.Valid() && cfg.cdfWindow.Some? && k < |TapeReadings(tape, cfg, m)|
    && TapeReadings(tape, cfg, m)[k].vpin.Some? && TapeReadings(tape, cfg, m)[k].vpinCdf.None?
  }

  /** Price of the trade before the j-th, or of the first. */
  function PriceBefore(tape: seq<Trade>, j: nat): real
    requires j < |tape|
  {
    if j == 0 then tape[0].price else tape[j - 1].price
  }

  /** What holds when every trade alone reaches the target: each closes a bucket of its own. */
  ghost predicate OneEach(tape: seq<Trade>, bs: seq<ClosedBucket>) {
    |bs| == |tape| && forall j :: 0 <= j < |tape| ==> bs[j].deltaP == tape[j].price - PriceBefore(tape, j)
  }

  lemma OneEachSnoc(tape: seq<Trade>, t: Trade, bs: seq<ClosedBucket>, b: ClosedBucket)
    requires OneEach(tape, bs)
    requires b.deltaP == t.price - if tape == [] then t.price else Last(tape).price
    ensures OneEach(tape + [t], bs + [b])
  {
    forall j | 0 <= j < |tape| + 1
      ensures (bs + [b])[j].deltaP == (tape + [t])[j].price - PriceBefore(tape + [t], j)
    {
      if j < |tape| {
        assert bs[j].deltaP == tape[j].price - PriceBefore(tape, j);
      }
    }
  }

  lemma {:induction false} EveryTradeCloses(tape: seq<Trade>, target: real)
    requires target > 0.0 && forall j :: 0 <= j < |tape| ==> tape[j].volume >= target
    ensures OneEach(tape, Buckets(tape, target)) && Volume(Greedy(tape, target).open) == 0.0
    ensures tape != [] ==> ReferencePrice(tape, Greedy(tape, target).closed) == Last(tape).price
  {
    if tape != [] {
      var front, t := tape[..|tape| - 1], Last(tape);
      assert tape == front + [t];
      hide Greedy, Buckets, Volume, ReferencePrice, OneEach;
      EveryTradeCloses(front, target);
      OneMoreCloses(front, t, target);
    }
  }

  lemma OneMoreCloses(tape: seq<Trade>, t: Trade, target: real)
    requires t.volume >= target && OneEach(tape, Buckets(tape, target)) && Volume(Greedy(tape, target).open) == 0.0
    requires tape != [] ==> ReferencePrice(tape, Greedy(tape, target).closed) == Last(tape).price
    ensures OneEach(tape + [t], Buckets(tape + [t], target)) && Volume(Greedy(tape + [t], target).open) == 0.0
    ensures ReferencePrice(tape + [t], Greedy(tape + [t], target).closed) == t.price
  {
    hide Greedy, Buckets, Volume, ReferencePrice, Closing, OneEach;
    PushFacts(tape, t, target);
    BucketsStep(tape, t, target);
    OneEachSnoc(tape, t, Buckets(tape, target), Closing(tape, t, target).value);
  }

  function UnitTrades(prices: seq<real>): (tape: seq<Trade>)
    ensures |tape| == |prices|
    ensures forall i :: 0 <= i < |prices| ==> tape[i] == Trade(prices[i], 1.0, 0)
  {
    seq(|prices|, i requires 0 <= i < |prices| => Trade(prices[i], 1.0, 0))
  }

  lemma MoveThenFlat(bs: seq<ClosedBucket>, tape: seq<Trade>)
    requires tape == Example() && OneEach(tape, bs)
    ensures forall k :: 0 <= k < 5 ==> (ConstantBefore(bs, k, 2) <==> k == 4)
  {
    hide UnitTrades;
    assert bs[0].deltaP == 0.0 && bs[1].deltaP == 1.0 && bs[2].deltaP == 0.0 && bs[3].deltaP == 0.0;
    var first, early, late := Deltas(bs)[0..2], Deltas(bs)[1..3], Deltas(bs)[2..4];
    assert first[0] != first[1] && early[0] != early[1] && late[0] == late[1];
  }

  function Example(): seq<Trade> {
    UnitTrades([10.0, 11.0, 11.0, 11.0, 11.0])
  }

  /** Its third and fourth buckets are classified, and no others. */
  lemma ExampleClassified(cfg: EngineConfig, m: Maths)
    requires cfg.Valid() && cfg.bucketVolume == 1.0 && cfg.sigmaWindow == 2 && m.Valid()
    ensures |TapeReadings(Example(), cfg, m)| == 5 == |TapeClassified(Example(), cfg, m)|
    ensures forall i :: 0 <= i < 5 ==> (TapeClassified(Example(), cfg, m)[i].Some? <==> 2 <= i < 4)
  {
    var bs := Buckets(Example(), 1.0);
    EveryTradeCloses(Example(), 1.0);
    MoveThenFlat(bs, Example());
    assert |bs| == 5;
    hide Buckets, Example, Greedy, TapeReadings, ReferencePrice, Volume, Classified, OneEach, Deltas, ConstantBefore;
    forall i | 0 <= i < 5
      ensures TapeClassified(Example(), cfg, m)[i].Some? <==> 2 <= i < 4
    {
      ClassifiedExactly(bs, i, 2, m);
    }
  }

  lemma ExampleSlots(cs: seq<Option<Slot>>)
    requires |cs| == 5 && forall i :: 0 <= i < 5 ==> (cs[i].Some? <==> 2 <= i < 4)
    ensures |Slots(cs[..3])| == 1 && |Slots(cs[..4])| == 2
  {
    SlotCount(cs[..3], 2);
    SlotCount(cs[..4], 2);
  }

  /** So a VPIN once present need not stay: after one price move and a flat stretch, the bucket whose
      preceding window is flat has none. */
  lemma VpinCanVanish(m: Maths)
    requires m.Valid()
    ensures exists tape: seq<Trade>, cfg: EngineConfig :: VanishesAt(tape, 3, cfg, m)
  {
    var cfg := EngineConfig(1.0, 2, 1, None, None);
    hide TapeReadings, TapeClassified, Example, Slots, Buckets;
    ExampleClassified(cfg, m);
    ExampleSlots(TapeClassified(Example(), cfg, m));
    VpinOfReading(Example(), 3, cfg, m);
    VpinOfReading(Example(), 4, cfg, m);
    assert VanishesAt(Example(), 3, cfg, m);
  }

  lemma ExampleUnranked(cfg: EngineConfig, m: Maths)
    requires cfg.Valid() && m.Valid() && cfg.cdfWindow == Some(2)
    requires cfg.bucketVolume == 1.0 && cfg.sigmaWindow == 2 && cfg.vpinWindow == 1
    ensures UnrankedAt(Example(), 2, cfg, m)
  {
    hide TapeReadings, TapeClassified, Example, Slots, Buckets, EngineConfig.Valid;
    ExampleClassified(cfg, m);
    ExampleSlots(TapeClassified(Example(), cfg, m));
    hide Maths.Valid;
    VpinOfReading(Example(), 2, cfg, m);
    RankPresentExactly(Example(), 2, cfg, m);
  }

  /** And VPIN and rank do not warm up together: after one price move the first VPIN has no rank. */
  lemma FirstVpinUnranked(m: Maths)
    requires m.Valid()
    ensures exists tape: seq<Trade>, cfg: EngineConfig :: UnrankedAt(tape, 2, cfg, m)
  {
    ExampleUnranked(EngineConfig(1.0, 2, 1, Some(2), None), m);
  }

  /** Reading k has a VPIN and the next one does not. */
  ghost predicate VanishesAt(tape: seq<Trade>, k: nat, cfg: EngineConfig, m: Maths) {
    && cfg.Valid() && k + 1 < |TapeReadings(tape, cfg, m)|
    && TapeReadings(tape, cfg, m)[k].vpin.Some? && TapeReadings(tape, cfg, m)[k + 1].vpin.None?
  }

  // ---- Causality

  /** A reading, once given, is the same on every longer tape. */
  lemma {:induction false} ReadingsOnlyGrow(tape: seq<Trade>, more: seq<Trade>, cfg: EngineConfig, m: Maths)
    requires cfg.Valid()
    ensures TapeReadings(tape, cfg, m) <= TapeReadings(tape + more, cfg, m)
  {
    if more == [] {
      assert tape + more == tape;
    } else {
      var front, t := more[..|more| - 1], more[|more| - 1];
      ReadingsOnlyGrow(tape, front, cfg, m);
      assert tape + more == (tape + front) + [t];
      hide Buckets, Closing, TapeReadings, TapeClassified;
      BucketsStep(tape + front, t, cfg.bucketVolume);
      if Closing(tape + front, t, cfg.bucketVolume).Some? {
        BucketFacts(tape + front, t, cfg, m);
      } else {
        SameBucketsSameReadings(tape + front, tape + more, cfg, m);
      }
    }
  }

  // ---- Bounds

  /** No classified bucket's imbalance exceeds its volume. */
  lemma SlotWithinUnit(bs: seq<ClosedBucket>, w: nat, m: Maths)
    requires w >= 2 && m.Valid() && bs != [] && Last(bs).volume > 0.0
    ensures var c := LastSlot(bs, w, m);
            c.Some? ==> c.value.volume > 0.0 && 0.0 <= c.value.imbalance / c.value.volume <= 1.0
  {
    var sigma := SigmaOf(Deltas(bs[..|bs| - 1]), w, m.root);
    hide SigmaOf;
    if sigma.Some? && sigma.value > 0.0 {
      var b := Last(bs);
      ImbalanceWithinVolume(b.deltaP, sigma.value, b.volume, m.phi);
      hide Imbalance;
      QuotientBounds(Imbalance(b.deltaP, sigma.value, b.volume, m.phi).value, b.volume, 0.0, 1.0);
    }
  }

  lemma TapeSlotsWithinUnit(tape: seq<Trade>, cfg: EngineConfig, m: Maths)
    requires cfg.Valid() && m.Valid()
    ensures PositiveSlots(TapeClassified(tape, cfg, m)) && SlotsWithin(TapeClassified(tape, cfg, m), 0.0, 1.0)
  {
    BucketShape(tape, cfg.bucketVolume);
    TapeSlotsPositive(tape, cfg, m);
    var bs, cs := Buckets(tape, cfg.bucketVolume), TapeClassified(tape, cfg, m);
    hide Buckets, LastSlot;
    forall i | 0 <= i < |cs|
      ensures cs[i].Some? ==> 0.0 <= cs[i].value.imbalance / cs[i].value.volume <= 1.0
    {
      SlotWithinUnit(bs[..i + 1], cfg.sigmaWindow, m);
    }
  }

  /** Every classified bucket's own ratio lies in [lo, hi]. */
  ghost predicate SlotsWithin(cs: seq<Option<Slot>>, lo: real, hi: real)
    requires PositiveSlots(cs)
  {
    forall i :: 0 <= i < |cs| && cs[i].Some? ==> lo <= cs[i].value.imbalance / cs[i].value.volume <= hi
  }

  lemma {:induction false} SlotsWithinRatios(cs: seq<Option<Slot>>, lo: real, hi: real)
    requires PositiveSlots(cs) && SlotsWithin(cs, lo, hi)
    ensures PositiveVolumes(Slots(cs)) && RatiosWithin(Slots(cs), lo, hi)
  {
    SlotsPositive(cs);
    if cs != [] {
      SlotsWithinRatios(cs[..|cs| - 1], lo, hi);
    }
  }

  /** VPIN and both interval ends lie between the least and the greatest bucket ratio of the window,
      however far bucket volumes overshoot the target. */
  lemma ReadingWithinWindowRatios(cs: seq<Option<Slot>>, cfg: EngineConfig, lo: real, hi: real)
    requires cfg.Valid() && cs != [] && PositiveSlots(cs) && VpinAfter(cs, cfg).Some?
    requires RatiosWithin(Window(cs, cfg), lo, hi)
    ensures lo <= VpinAfter(cs, cfg).value <= hi
    ensures cfg.interval.Some? ==>
              var ci := IntervalAfter(cs, cfg);
              ci.Some? && lo <= ci.value.low <= ci.value.high <= hi
  {
    assert |Window(cs, cfg)| == cfg.vpinWindow;
    hide Slots, Ratio, RatiosWithin, ConfidenceInterval, Vpins, Window, PositiveSlots, PositiveVolumes;
    PositivePrefix(cs, |cs| - 1);
    var w := Window(cs, cfg);
    MediantBound(w, lo, hi);
    if cfg.interval.Some? {
      IntervalWithin(w, cfg.interval.value, DrawsAfter(|Vpins(cs[..|cs| - 1], cfg)|, cfg), lo, hi);
    }
  }

  lemma WindowWithin(cs: seq<Option<Slot>>, cfg: EngineConfig, lo: real, hi: real)
    requires PositiveSlots(cs) && SlotsWithin(cs, lo, hi)
    ensures RatiosWithin(Window(cs, cfg), lo, hi)
  {
    SlotsWithinRatios(cs, lo, hi);
    hide Slots, PositiveSlots, SlotsWithin;
  }

  lemma ReadingWithinUnit(b: ClosedBucket, cs: seq<Option<Slot>>, cfg: EngineConfig)
    requires cfg.Valid() && cs != [] && PositiveSlots(cs) && SlotsWithin(cs, 0.0, 1.0)
    ensures UnitReading(ReadingAfter(b, cs, cfg), cfg)
  {
    WindowWithin(cs, cfg, 0.0, 1.0);
    hide Vpins, VpinAfter, Window, RatiosWithin, RankOf, ConfidenceInterval, PositiveSlots, SlotsWithin, DrawsAfter;
    if VpinAfter(cs, cfg).Some? {
      ReadingWithinWindowRatios(cs, cfg, 0.0, 1.0);
      if cfg.cdfWindow.Some? {
        RankRange(Vpins(cs, cfg), cfg.cdfWindow.value);
      }
    }
  }

  /** VPIN, rank and interval in [0, 1], the interval present with VPIN and in order. */
  ghost predicate UnitReading(r: VpinReading, cfg: EngineConfig) {
    && (r.vpin.Some? ==> 0.0 <= r.vpin.value <= 1.0)
    && (r.vpinCdf.Some? ==> 0.0 < r.vpinCdf.value <= 1.0)
    && (r.ci.Some? <==> r.vpin.Some? && cfg.interval.Some?)
    && (r.ci.Some? ==> 0.0 <= r.ci.value.low <= r.ci.value.high <= 1.0)
  }

  /** Every reading of every tape lies in the unit range, and readings are numbered from 0. */
  lemma ReadingsWithinUnit(tape: seq<Trade>, k: nat, cfg: EngineConfig, m: Maths)
    requires cfg.Valid() && m.Valid() && k < |TapeReadings(tape, cfg, m)|
    ensures TapeReadings(tape, cfg, m)[k].bucketId == k
    ensures UnitReading(TapeReadings(tape, cfg, m)[k], cfg)
  {
    var bs, cs := Buckets(tape, cfg.bucketVolume), TapeClassified(tape, cfg, m);
    BucketShape(tape, cfg.bucketVolume);
    TapeSlotsWithinUnit(tape, cfg, m);
    PositivePrefix(cs, k + 1);
    assert SlotsWithin(cs[..k + 1], 0.0, 1.0);
    hide Buckets, TapeClassified, VpinAfter, RankAfter, IntervalAfter, PositiveSlots, SlotsWithin, UnitReading;
    ReadingWithinUnit(bs[k], cs[..k + 1], cfg);
  }

  // ---- Two confidence levels on one tape

  /** The two configurations differ in nothing but the confidence level, and `narrow` has the lower one. */
  ghost predicate OnlyLevelDiffers(narrow: EngineConfig, wide: EngineConfig) {
    && narrow.Valid() && wide.Valid()
    && narrow.interval.Some? && wide.interval.Some?
    && wide == narrow.(interval := wide.interval)
    && wide.interval.value == narrow.interval.value.(level := wide.interval.value.level)
    && narrow.interval.value.level <= wide.interval.value.level
  }

  lemma {:induction false} VpinsIgnoreLevel(cs: seq<Option<Slot>>, narrow: EngineConfig, wide: EngineConfig)
    requires OnlyLevelDiffers(narrow, wide) && PositiveSlots(cs)
    ensures Vpins(cs, narrow) == Vpins(cs, wide)
  {
    if cs != [] {
      hide PositiveSlots, LastN;
      PositivePrefix(cs, |cs| - 1);
      VpinsIgnoreLevel(cs[..|cs| - 1], narrow, wide);
    }
  }

  /** At every reading of a run the higher confidence level's interval contains the lower one's,
      and everything else in the readings is identical. */
  lemma IntervalsNestOverRuns(
    tape: seq<Trade>, k: nat, narrow: EngineConfig, wide: EngineConfig, m: Maths)
    requires OnlyLevelDiffers(narrow, wide) && k < |TapeReadings(tape, narrow, m)|
    ensures |TapeReadings(tape, wide, m)| == |TapeReadings(tape, narrow, m)|
    ensures var inner, outer := TapeReadings(tape, narrow, m)[k], TapeReadings(tape, wide, m)[k];
            && inner == outer.(ci := inner.ci)
            && (inner.ci.Some? <==> outer.ci.Some?)
            && (inner.ci.Some? ==>
                  outer.ci.value.low <= inner.ci.value.low
                  <= inner.ci.value.high <= outer.ci.value.high)
  {
    var bs := Buckets(tape, narrow.bucketVolume);
    var cs := TapeClassified(tape, narrow, m);
    var seen := cs[..k + 1];
    TapeSlotsPositive(tape, narrow, m);
    assert cs == TapeClassified(tape, wide, m);
    assert seen[..k] == cs[..k];
    hide Buckets, TapeClassified, Vpins, Ratio, ConfidenceInterval, LastN, CountLe, PositiveSlots;
    PositivePrefix(cs, k + 1);
    PositivePrefix(cs, k);
    VpinsIgnoreLevel(seen, narrow, wide);
    VpinsIgnoreLevel(seen[..k], narrow, wide);
    assert TapeReadings(tape, narrow, m)[k] == ReadingAfter(bs[k], seen, narrow);
    assert TapeReadings(tape, wide, m)[k] == ReadingAfter(bs[k], seen, wide);
    assert Window(seen, narrow) == Window(seen, wide);
    if VpinAfter(seen, narrow).Some? {
      WindowSize(seen, narrow);
      hide Window, VpinAfter;
      IntervalsNest(Window(seen, narrow), narrow.interval.value, wide.interval.value,
                    DrawsAfter(|Vpins(seen[..k], narrow)|, narrow));
    }
  }

  lemma WindowSize(cs: seq<Option<Slot>>, cfg: EngineConfig)
    requires cfg.Valid() && cs != [] && PositiveSlots(cs) && VpinAfter(cs, cfg).Some?
    ensures |Window(cs, cfg)| == cfg.vpinWindow
  {
    hide Slots, Ratio, PositiveSlots;
  }

  /** Two engines that saw the same trades and differ only in confidence level hold the same window
      and the same generator state: seed + readings * samples * n * gamma modulo 2^64. */
  lemma TwinEngines(narrow: Engine, wide: Engine)
    requires narrow.Valid() && wide.Valid() && narrow.Tape() == wide.Tape()
    requires OnlyLevelDiffers(narrow.cfg, wide.cfg) && narrow.maths == wide.maths
    ensures narrow.imbalances == wide.imbalances
    ensures narrow.rng.state == wide.rng.state
    ensures PositiveSlots(TapeClassified(narrow.Tape(), narrow.cfg, narrow.maths))
    ensures var icfg := narrow.cfg.interval.value;
            var vpins := |Vpins(TapeClassified(narrow.Tape(), narrow.cfg, narrow.maths), narrow.cfg)|;
            narrow.rng.state == Offset(icfg.seed, Word(vpins * (icfg.samples * narrow.cfg.vpinWindow)))
  {
    var cs := TapeClassified(narrow.Tape(), narrow.cfg, narrow.maths);
    assert cs == TapeClassified(wide.Tape(), wide.cfg, wide.maths);
    hide Buckets, TapeClassified, Slots, Vpins, Advance, Offset, Word, Greedy, SigmaOf, Deltas, LastN, PositiveSlots;
    VpinsIgnoreLevel(cs, narrow.cfg, wide.cfg);
    AdvanceClosedForm(narrow.rng.seed, narrow.rng.draws);
    AdvanceClosedForm(wide.rng.seed, wide.rng.draws);
  }
}
