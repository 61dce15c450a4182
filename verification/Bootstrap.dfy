/** Interpolated percentiles of a sorted sequence. */
module Percentiles {
  import opened Numerics

  ghost predicate Sorted(s: seq<real>) {
    forall i, j :: 0 <= i <= j < |s| ==> s[i] <= s[j]
  }

  function Insert(x: real, s: seq<real>): seq<real> {
    if s == [] || x <= s[0] then [x] + s else [s[0]] + Insert(x, s[1..])
  }

  function SortReals(s: seq<real>): seq<real> {
    if s == [] then [] else Insert(s[|s| - 1], SortReals(s[..|s| - 1]))
  }

  lemma {:induction false} InsertKeepsElements(x: real, s: seq<real>)
    ensures multiset(Insert(x, s)) == multiset(s) + multiset{x}
  {
    if s != [] && x > s[0] {
      InsertKeepsElements(x, s[1..]);
      assert s == [s[0]] + s[1..];
    }
  }

  lemma PrependSorted(a: real, s: seq<real>)
    requires Sorted(s) && forall i :: 0 <= i < |s| ==> a <= s[i]
    ensures Sorted([a] + s)
  {
  }

  lemma {:induction false} InsertSorted(x: real, s: seq<real>)
    requires Sorted(s)
    ensures Sorted(Insert(x, s))
  {
    if s == [] || x <= s[0] {
      PrependSorted(x, s);
    } else {
      var rest := Insert(x, s[1..]);
      InsertSorted(x, s[1..]);
      InsertKeepsElements(x, s[1..]);
      forall i | 0 <= i < |rest|
        ensures s[0] <= rest[i]
      {
        assert rest[i] in multiset(rest);
        assert rest[i] == x || rest[i] in s[1..];
      }
      PrependSorted(s[0], rest);
    }
  }

  /** Sorting orders the elements and keeps exactly the elements. */
  lemma {:induction false} SortSorts(s: seq<real>)
    ensures Sorted(SortReals(s)) && multiset(SortReals(s)) == multiset(s) && |SortReals(s)| == |s|
  {
    if s != [] {
      var front, x := s[..|s| - 1], s[|s| - 1];
      SortSorts(front);
      InsertSorted(x, SortReals(front));
      InsertKeepsElements(x, SortReals(front));
      assert s == front + [x];
      assert |SortReals(s)| == |multiset(SortReals(s))|;
    }
  }

  function Ceil(x: real): int {
    -((-x).Floor)
  }

  /** The value at a fractional rank: an element, or the line between its two neighbours. */
  function AtRank(s: seq<real>, rank: real): real
    requires 0.0 <= rank <= (|s| - 1) as real
  {
    var lo := rank.Floor;
    var hi := Ceil(rank);
    if lo == hi then s[lo]
    else
      var fraction := rank - lo as real;
      s[lo] * (1.0 - fraction) + s[hi] * fraction
  }

  /** The fractional rank of a percentile among n elements. */
  function RankAt(n: nat, p: real): real
    requires n >= 1
  {
    Product(p, (n - 1) as real)
  }

  /** A percentile's rank never leaves the sequence. */
  lemma RankInRange(n: nat, p: real)
    requires n >= 1 && 0.0 <= p <= 1.0
    ensures 0.0 <= RankAt(n, p) <= (n - 1) as real
  {
    var last := (n - 1) as real;
    ProductSign(p, last);
    ProductSign(1.0 - p, last);
    assert (1.0 - p) * last == last - p * last;
  }

  lemma RankMonotone(n: nat, p: real, q: real)
    requires n >= 1 && p <= q
    ensures RankAt(n, p) <= RankAt(n, q)
  {
    var last := (n - 1) as real;
    ProductSign(q - p, last);
    assert (q - p) * last == q * last - p * last;
  }

  function Percentile(s: seq<real>, p: real): real
    requires s != [] && 0.0 <= p <= 1.0
  {
    if |s| == 1 then s[0]
    else
      RankInRange(|s|, p);
      AtRank(s, RankAt(|s|, p))
  }

  lemma FloorAndCeil(x: real, lo: int, f: real)
    requires x == lo as real + f && 0.0 <= f < 1.0
    ensures x.Floor == lo && Ceil(x) == if f == 0.0 then lo else lo + 1
  {
  }

  /** The percentile at rank lo + f of n elements, counted from 0 to n - 1: element lo when f is zero, else the
      point f of the way from element lo to the next. */
  lemma PercentileExactly(s: seq<real>, p: real, lo: nat, f: real)
    requires s != [] && 0.0 <= p <= 1.0 && 0.0 <= f < 1.0 && p * (|s| - 1) as real == lo as real + f
    ensures lo < |s| && (f > 0.0 ==> lo + 1 < |s|)
    ensures Percentile(s, p) == if f == 0.0 then s[lo] else s[lo] + f * (s[lo + 1] - s[lo])
  {
    var rank := RankAt(|s|, p);
    assert rank == lo as real + f;
    RankInRange(|s|, p);
    hide RankAt;
    FloorAndCeil(rank, lo, f);
    if f > 0.0 {
      hide Ceil;
      var a, b := s[lo], s[lo + 1];
      assert a * (1.0 - f) + b * f == a + f * (b - a);
    }
  }

  lemma Interpolation(a: real, b: real, f: real)
    requires a <= b && 0.0 <= f <= 1.0
    ensures a <= a * (1.0 - f) + b * f <= b
  {
    ProductSign(b - a, f);
    ProductSign(b - a, 1.0 - f);
    assert a * (1.0 - f) + b * f == a + (b - a) * f;
    assert a * (1.0 - f) + b * f == b - (b - a) * (1.0 - f);
  }

  lemma InterpolationMonotone(a: real, b: real, f: real, g: real)
    requires a <= b && f <= g
    ensures a * (1.0 - f) + b * f <= a * (1.0 - g) + b * g
  {
    ProductSign(b - a, g - f);
    assert (a * (1.0 - g) + b * g) - (a * (1.0 - f) + b * f) == (b - a) * (g - f);
  }

  /** The value at a rank lies between the elements at its floor and its ceiling. */
  lemma AtRankBetween(s: seq<real>, rank: real)
    requires Sorted(s) && 0.0 <= rank <= (|s| - 1) as real
    ensures 0 <= rank.Floor <= Ceil(rank) < |s| && Ceil(rank) <= rank.Floor + 1
    ensures s[rank.Floor] <= AtRank(s, rank) <= s[Ceil(rank)]
  {
    var lo, hi := rank.Floor, Ceil(rank);
    if lo != hi {
      Interpolation(s[lo], s[hi], rank - lo as real);
    }
  }

  lemma AtRankMonotone(s: seq<real>, r: real, q: real)
    requires Sorted(s) && 0.0 <= r <= q <= (|s| - 1) as real
    ensures AtRank(s, r) <= AtRank(s, q)
  {
    AtRankBetween(s, r);
    AtRankBetween(s, q);
    if r.Floor == q.Floor && Ceil(r) == Ceil(q) && r.Floor != Ceil(r) {
      InterpolationMonotone(s[r.Floor], s[Ceil(r)], r - r.Floor as real, q - r.Floor as real);
    } else {
      assert Ceil(r) <= q.Floor;
    }
  }

  /** Percentiles of a sorted sequence are monotone in p, inside a segment and across segments. */
  lemma PercentileMonotone(s: seq<real>, p: real, q: real)
    requires Sorted(s) && s != [] && 0.0 <= p <= q <= 1.0
    ensures Percentile(s, p) <= Percentile(s, q)
  {
    if |s| > 1 {
      hide RankAt, AtRank, Sorted;
      RankInRange(|s|, p);
      RankInRange(|s|, q);
      RankMonotone(|s|, p, q);
      AtRankMonotone(s, RankAt(|s|, p), RankAt(|s|, q));
    }
  }

  /** No percentile leaves the range of its elements. */
  lemma PercentileWithin(s: seq<real>, p: real, lo: real, hi: real)
    requires Sorted(s) && s != [] && 0.0 <= p <= 1.0
    requires forall i :: 0 <= i < |s| ==> lo <= s[i] <= hi
    ensures lo <= Percentile(s, p) <= hi
  {
    if |s| > 1 {
      hide RankAt, AtRank, Sorted;
      RankInRange(|s|, p);
      AtRankBetween(s, RankAt(|s|, p));
    }
  }
}

/** The percentile bootstrap around a ratio of sums. */
module Bootstrap {
  import opened Numerics
  import opened SplitMix
  import opened Percentiles

  /** One classified bucket: its order imbalance and its realized volume. */
  datatype Slot = Slot(imbalance: real, volume: real)

  predicate PositiveVolumes(w: seq<Slot>) {
    forall i :: 0 <= i < |w| ==> w[i].volume > 0.0
  }

  function SumImbalance(w: seq<Slot>): real {
    if w == [] then 0.0 else SumImbalance(w[..|w| - 1]) + w[|w| - 1].imbalance
  }

  function SumVolume(w: seq<Slot>): (v: real)
    ensures PositiveVolumes(w) && w != [] ==> v > 0.0
  {
    if w == [] then 0.0
    else
      assert PositiveVolumes(w) ==> PositiveVolumes(w[..|w| - 1]);
      SumVolume(w[..|w| - 1]) + w[|w| - 1].volume
  }

  function Ratio(w: seq<Slot>): real
    requires w != [] && PositiveVolumes(w)
  {
    SumImbalance(w) / SumVolume(w)
  }

  /** The resample that starts at draw number `draw` of the generator seeded with `seed`. */
  function Resample(w: seq<Slot>, seed: bv64, draw: nat): (r: seq<Slot>)
    requires w != []
    ensures |r| == |w|
    ensures forall i :: 0 <= i < |r| ==> r[i] in w && r[i] == w[IndexAt(seed, draw + i, |w|)]
    ensures PositiveVolumes(w) ==> PositiveVolumes(r)
  {
    var r := seq(|w|, i requires 0 <= i < |w| => w[IndexAt(seed, draw + i, |w|)]);
    assert forall i :: 0 <= i < |r| ==> r[i] == w[IndexAt(seed, draw + i, |w|)];
    assert forall i :: 0 <= i < |r| ==> r[i] in w;
    r
  }

  function Samples(w: seq<Slot>, count: nat, seed: bv64, draw: nat): (r: seq<real>)
    requires w != [] && PositiveVolumes(w)
    ensures |r| == count
  {
    if count == 0 then []
    else Samples(w, count - 1, seed, draw) + [Ratio(Resample(w, seed, draw + (count - 1) * |w|))]
  }

  datatype Interval = Interval(low: real, high: real)

  datatype IntervalConfig = IntervalConfig(level: real, samples: nat, seed: bv64) {
    predicate Valid() {
      0.0 < level < 1.0 && samples >= 2
    }
  }

  function ConfidenceInterval(w: seq<Slot>, cfg: IntervalConfig, draw: nat): Interval
    requires w != [] && PositiveVolumes(w) && cfg.Valid()
  {
    var samples := Samples(w, cfg.samples, cfg.seed, draw);
    SortSorts(samples);
    var sorted := SortReals(samples);
    var alpha := 1.0 - cfg.level;
    Interval(Percentile(sorted, alpha / 2.0), Percentile(sorted, 1.0 - alpha / 2.0))
  }

  lemma SumsEmpty()
    ensures SumImbalance([]) == 0.0 == SumVolume([])
  {
  }

  lemma SumsSnoc(w: seq<Slot>, s: Slot)
    ensures SumImbalance(w + [s]) == SumImbalance(w) + s.imbalance
    ensures SumVolume(w + [s]) == SumVolume(w) + s.volume
  {
    assert (w + [s])[..|w|] == w;
  }

  method BootstrapCi(w: seq<Slot>, cfg: IntervalConfig, rng: SplitMix64) returns (ci: Interval)
    requires w != [] && PositiveVolumes(w) && cfg.Valid()
    requires rng.Valid() && rng.seed == cfg.seed
    modifies rng
    ensures rng.Valid() && rng.seed == cfg.seed && rng.draws == old(rng.draws) + cfg.samples * |w|
    ensures ci == ConfidenceInterval(w, cfg, old(rng.draws))
  {
    hide Advance, IndexAt, Resample, SortReals, Percentile, SumImbalance, SumVolume;
    SumsEmpty();
    var n := |w|;
    ghost var start := rng.draws;
    var samples: seq<real> := [];
    for b := 0 to cfg.samples
      invariant rng.Valid() && rng.seed == cfg.seed && rng.draws == start + b * n
      invariant samples == Samples(w, b, cfg.seed, start)
    {
      ghost var resample := Resample(w, cfg.seed, start + b * n);
      var imbSum, volSum := 0.0, 0.0;
      assert resample[..0] == [];
      for i := 0 to n
        invariant rng.Valid() && rng.seed == cfg.seed && rng.draws == start + b * n + i
        invariant imbSum == SumImbalance(resample[..i]) && volSum == SumVolume(resample[..i])
      {
        var k := rng.NextIndex(n);
        imbSum := imbSum + w[k].imbalance;
        volSum := volSum + w[k].volume;
        assert resample[..i + 1] == resample[..i] + [w[k]];
        SumsSnoc(resample[..i], w[k]);
      }
      assert resample[..n] == resample;
      samples := samples + [imbSum / volSum];
    }
    SortSorts(samples);
    var sorted := SortReals(samples);
    var alpha := 1.0 - cfg.level;
    var low := Percentile(sorted, alpha / 2.0);
    var high := Percentile(sorted, 1.0 - alpha / 2.0);
    ci := Interval(low, high);
  }

  // ---- What an interval is made of

  /** `v` times the volumes is the imbalances, and there is volume. */
  ghost predicate IsRatio(w: seq<Slot>, v: real) {
    SumVolume(w) > 0.0 && v * SumVolume(w) == SumImbalance(w)
  }

  lemma RatioExactly(w: seq<Slot>)
    requires w != [] && PositiveVolumes(w)
    ensures IsRatio(w, Ratio(w))
  {
    hide SumImbalance;
    assert SumVolume(w) > 0.0;
    hide SumVolume;
  }

  /** A resample's slots are drawn by successive outputs of the generator, each modulo n. */
  lemma ResampleExactly(w: seq<Slot>, seed: bv64, draw: nat, i: nat)
    requires i < |w|
    ensures |Resample(w, seed, draw)| == |w|
    ensures Resample(w, seed, draw)[i] == w[(Mix(Advance(seed, draw + i + 1)) as int) % |w|]
  {
    hide Mix, Advance;
  }

  /** Sample `b` is the ratio of the resample made of the b-th n draws. */
  lemma {:induction false} SampleIs(w: seq<Slot>, count: nat, seed: bv64, draw: nat, b: nat)
    requires w != [] && PositiveVolumes(w) && b < count
    ensures Samples(w, count, seed, draw)[b] == Ratio(Resample(w, seed, draw + b * |w|))
  {
    hide Ratio, Resample;
    if b < count - 1 {
      SampleIs(w, count - 1, seed, draw, b);
    }
  }

  /** An interval runs from the (1 - level) / 2 to the (1 + level) / 2 percentile of the sorted samples. */
  lemma IntervalTails(w: seq<Slot>, cfg: IntervalConfig, draw: nat)
    requires w != [] && PositiveVolumes(w) && cfg.Valid()
    ensures var samples := Samples(w, cfg.samples, cfg.seed, draw);
            var sorted := SortReals(samples);
            && |sorted| == cfg.samples && multiset(sorted) == multiset(samples) && Sorted(sorted)
            && ConfidenceInterval(w, cfg, draw)
               == Interval(Percentile(sorted, (1.0 - cfg.level) / 2.0), Percentile(sorted, (1.0 + cfg.level) / 2.0))
  {
    hide Samples, SortReals, Percentile, Sorted, PositiveVolumes;
    SortSorts(Samples(w, cfg.samples, cfg.seed, draw));
    assert 1.0 - (1.0 - cfg.level) / 2.0 == (1.0 + cfg.level) / 2.0;
  }

  // ---- The mediant bound

  /** Every bucket's own ratio lies in [lo, hi]. */
  ghost predicate RatiosWithin(w: seq<Slot>, lo: real, hi: real)
    requires PositiveVolumes(w)
  {
    forall i :: 0 <= i < |w| ==> lo <= w[i].imbalance / w[i].volume <= hi
  }

  lemma QuotientBounds(x: real, v: real, lo: real, hi: real)
    requires v > 0.0
    ensures lo <= x / v <= hi <==> Product(lo, v) <= x <= Product(hi, v)
  {
    var q := x / v;
    assert x == q * v;
    if lo <= q { ProductSign(q - lo, v); } else { ProductPositive(lo - q, v); }
    if q <= hi { ProductSign(hi - q, v); } else { ProductPositive(q - hi, v); }
    assert (q - lo) * v == q * v - lo * v;
    assert (lo - q) * v == lo * v - q * v;
    assert (hi - q) * v == hi * v - q * v;
    assert (q - hi) * v == q * v - hi * v;
  }

  lemma {:induction false} SumsWithin(w: seq<Slot>, lo: real, hi: real)
    requires PositiveVolumes(w) && RatiosWithin(w, lo, hi)
    ensures Product(lo, SumVolume(w)) <= SumImbalance(w) <= Product(hi, SumVolume(w))
  {
    hide Product;
    ProductSum(lo, 0.0, 0.0);
    ProductSum(hi, 0.0, 0.0);
    if w != [] {
      var front, s := w[..|w| - 1], w[|w| - 1];
      SumsWithin(front, lo, hi);
      QuotientBounds(s.imbalance, s.volume, lo, hi);
      ProductSum(lo, SumVolume(front), s.volume);
      ProductSum(hi, SumVolume(front), s.volume);
    }
  }

  /** A ratio of sums lies between the least and the greatest of the buckets' own ratios. */
  lemma MediantBound(w: seq<Slot>, lo: real, hi: real)
    requires w != [] && PositiveVolumes(w) && RatiosWithin(w, lo, hi)
    ensures lo <= Ratio(w) <= hi
  {
    SumsWithin(w, lo, hi);
    QuotientBounds(SumImbalance(w), SumVolume(w), lo, hi);
  }

  lemma {:induction false} SamplesWithin(w: seq<Slot>, count: nat, seed: bv64, draw: nat, lo: real, hi: real)
    requires w != [] && PositiveVolumes(w) && RatiosWithin(w, lo, hi)
    ensures forall i :: 0 <= i < count ==> lo <= Samples(w, count, seed, draw)[i] <= hi
  {
    if count > 0 {
      SamplesWithin(w, count - 1, seed, draw, lo, hi);
      var r := Resample(w, seed, draw + (count - 1) * |w|);
      forall i | 0 <= i < |r|
        ensures lo <= r[i].imbalance / r[i].volume <= hi
      {
        assert r[i] in w;
      }
      MediantBound(r, lo, hi);
    }
  }

  /** Both ends of the interval stay between the least and greatest bucket ratio of the window, in order. */
  lemma IntervalWithin(w: seq<Slot>, cfg: IntervalConfig, draw: nat, lo: real, hi: real)
    requires w != [] && PositiveVolumes(w) && cfg.Valid() && RatiosWithin(w, lo, hi)
    ensures var ci := ConfidenceInterval(w, cfg, draw); lo <= ci.low <= ci.high <= hi
  {
    hide Samples, SortReals, Percentile;
    var samples := Samples(w, cfg.samples, cfg.seed, draw);
    var sorted := SortReals(samples);
    SortSorts(samples);
    SamplesWithin(w, cfg.samples, cfg.seed, draw, lo, hi);
    forall i | 0 <= i < |sorted|
      ensures lo <= sorted[i] <= hi
    {
      assert sorted[i] in multiset(sorted);
      assert sorted[i] in samples;
    }
    var alpha := 1.0 - cfg.level;
    PercentileWithin(sorted, alpha / 2.0, lo, hi);
    PercentileWithin(sorted, 1.0 - alpha / 2.0, lo, hi);
    PercentileMonotone(sorted, alpha / 2.0, 1.0 - alpha / 2.0);
  }

  /** From the same draws, a higher confidence level yields an interval that contains the lower one. */
  lemma IntervalsNest(w: seq<Slot>, narrow: IntervalConfig, wide: IntervalConfig, draw: nat)
    requires w != [] && PositiveVolumes(w) && narrow.Valid() && wide.Valid()
    requires wide == narrow.(level := wide.level) && narrow.level <= wide.level
    ensures var inner, outer := ConfidenceInterval(w, narrow, draw), ConfidenceInterval(w, wide, draw);
            outer.low <= inner.low <= inner.high <= outer.high
  {
    hide Samples, SortReals, Percentile;
    var sorted := SortReals(Samples(w, narrow.samples, narrow.seed, draw));
    SortSorts(Samples(w, narrow.samples, narrow.seed, draw));
    var a, b := (1.0 - narrow.level) / 2.0, (1.0 - wide.level) / 2.0;
    PercentileMonotone(sorted, b, a);
    PercentileMonotone(sorted, a, 1.0 - a);
    PercentileMonotone(sorted, 1.0 - a, 1.0 - b);
  }
}
