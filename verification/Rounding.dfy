/**
 VPIN with every operation rounded: the bound [0, 1] does not rest on exact arithmetic. The rounding is
 arbitrary, as long as it is monotone, leaves what it produces alone, knows 0 and 1, and treats both signs
 alike. Round-to-nearest of a floating-point format is one such rounding while nothing overflows.
 */
module Rounding {
  import opened Wrappers
  import opened Numerics
  import opened Bvc
  import opened Bootstrap

  ghost predicate IsRounding(rnd: real -> real) {
    && (forall x, y :: x <= y ==> rnd(x) <= rnd(y))
    && (forall x :: rnd(rnd(x)) == rnd(x))
    && (forall x :: rnd(-x) == -rnd(x))
    && rnd(0.0) == 0.0 && rnd(1.0) == 1.0
  }

  predicate Representable(x: real, rnd: real -> real) {
    rnd(x) == x
  }

  /** What is between two representable bounds stays there when rounded. */
  lemma RoundsBetween(lo: real, x: real, hi: real, rnd: real -> real)
    requires IsRounding(rnd) && Representable(lo, rnd) && Representable(hi, rnd) && lo <= x <= hi
    ensures lo <= rnd(x) <= hi && Representable(rnd(x), rnd)
  {
  }

  /** The imbalance of one bucket whose buyers' share is `fraction`. */
  function RoundedImbalance(volume: real, fraction: real, rnd: real -> real): real {
    var buy := rnd(volume * fraction);
    var sell := rnd(volume - buy);
    Abs(rnd(buy - sell))
  }

  lemma RoundedImbalanceBound(volume: real, fraction: real, rnd: real -> real)
    requires IsRounding(rnd) && Representable(volume, rnd) && volume >= 0.0 && 0.0 <= fraction <= 1.0
    ensures 0.0 <= RoundedImbalance(volume, fraction, rnd) <= volume
    ensures Representable(RoundedImbalance(volume, fraction, rnd), rnd)
  {
    ProductSign(volume, fraction);
    ProductSign(volume, 1.0 - fraction);
    assert volume - volume * fraction == volume * (1.0 - fraction);
    var buy := rnd(volume * fraction);
    RoundsBetween(0.0, volume * fraction, volume, rnd);
    RoundsBetween(0.0, volume - buy, volume, rnd);
    var sell := rnd(volume - buy);
    assert Representable(-volume, rnd);
    RoundsBetween(-volume, buy - sell, volume, rnd);
  }

  /** One bucket of a window: its volume and the buyers' share it was given. */
  datatype Share = Share(volume: real, fraction: real)

  function RoundedImbalances(w: seq<Share>, rnd: real -> real): real {
    if w == [] then 0.0
    else rnd(RoundedImbalances(w[..|w| - 1], rnd) + RoundedImbalance(w[|w| - 1].volume, w[|w| - 1].fraction, rnd))
  }

  function RoundedVolumes(w: seq<Share>, rnd: real -> real): real {
    if w == [] then 0.0
    else rnd(RoundedVolumes(w[..|w| - 1], rnd) + w[|w| - 1].volume)
  }

  ghost predicate ProperShares(w: seq<Share>, rnd: real -> real) {
    forall i :: 0 <= i < |w| ==>
      Representable(w[i].volume, rnd) && w[i].volume > 0.0 && 0.0 <= w[i].fraction <= 1.0
  }

  /** The accumulated imbalance never overtakes the accumulated volume, however both are rounded. */
  lemma {:induction false} RoundedSumsOrdered(w: seq<Share>, rnd: real -> real)
    requires IsRounding(rnd) && ProperShares(w, rnd)
    ensures 0.0 <= RoundedImbalances(w, rnd) <= RoundedVolumes(w, rnd)
    ensures w != [] ==> RoundedVolumes(w, rnd) >= w[|w| - 1].volume
  {
    if w != [] {
      var s := w[|w| - 1];
      RoundedSumsOrdered(w[..|w| - 1], rnd);
      RoundedImbalanceBound(s.volume, s.fraction, rnd);
      hide RoundedImbalance;
    }
  }

  function RoundedVpin(w: seq<Share>, rnd: real -> real): real
    requires RoundedVolumes(w, rnd) != 0.0
  {
    rnd(RoundedImbalances(w, rnd) / RoundedVolumes(w, rnd))
  }

  /** The rounded VPIN is defined and lies in [0, 1] for every window of buckets. */
  lemma RoundedVpinBound(w: seq<Share>, rnd: real -> real)
    requires IsRounding(rnd) && w != [] && ProperShares(w, rnd)
    ensures RoundedVolumes(w, rnd) > 0.0 && 0.0 <= RoundedVpin(w, rnd) <= 1.0
  {
    RoundedSumsOrdered(w, rnd);
    hide RoundedImbalances, RoundedVolumes;
    var x, v := RoundedImbalances(w, rnd), RoundedVolumes(w, rnd);
    assert v > 0.0;
    QuotientBounds(x, v, 0.0, 1.0);
    RoundsBetween(0.0, x / v, 1.0, rnd);
  }

  // ---- Without rounding it is the VPIN of the exact model

  function SlotOf(s: Share): Slot {
    var split := SplitBy(s.volume, s.fraction);
    Slot(Abs(split.buy - split.sell), s.volume)
  }

  function SlotsOf(w: seq<Share>): (slots: seq<Slot>)
    ensures |slots| == |w|
    ensures forall i :: 0 <= i < |w| ==> slots[i] == SlotOf(w[i])
  {
    seq(|w|, i requires 0 <= i < |w| => SlotOf(w[i]))
  }

  /** An exact slot carries the imbalance that classification finds. */
  lemma SlotOfClassified(deltaP: real, sigma: real, volume: real, phi: real -> real)
    requires sigma > 0.0
    ensures Imbalance(deltaP, sigma, volume, phi) == Some(SlotOf(Share(volume, phi(deltaP / sigma))).imbalance)
  {
    hide SplitBy;
  }

  lemma ExactImbalance(s: Share, rnd: real -> real)
    requires forall x :: rnd(x) == x
    ensures RoundedImbalance(s.volume, s.fraction, rnd) == SlotOf(s).imbalance
  {
    var buy := s.volume * s.fraction;
    var sell := s.volume - buy;
    assert rnd(buy) == buy && rnd(sell) == sell && rnd(buy - sell) == buy - sell;
  }

  lemma SlotsOfSnoc(w: seq<Share>, s: Share)
    ensures SlotsOf(w + [s]) == SlotsOf(w) + [SlotOf(s)]
  {
    hide SlotOf;
  }

  lemma {:induction false} ExactSums(w: seq<Share>, rnd: real -> real)
    requires forall x :: rnd(x) == x
    ensures RoundedImbalances(w, rnd) == SumImbalance(SlotsOf(w))
    ensures RoundedVolumes(w, rnd) == SumVolume(SlotsOf(w))
  {
    if w != [] {
      var front, s := w[..|w| - 1], w[|w| - 1];
      hide RoundedImbalance, SumImbalance, SumVolume, SlotsOf;
      ExactSums(front, rnd);
      assert w == front + [s];
      SlotsOfSnoc(front, s);
      SumsSnoc(SlotsOf(front), SlotOf(s));
      ExactImbalance(s, rnd);
    }
  }

  lemma ExactVpin(w: seq<Share>, rnd: real -> real)
    requires (forall x :: rnd(x) == x) && w != [] && ProperShares(w, rnd)
    ensures PositiveVolumes(SlotsOf(w)) && RoundedVolumes(w, rnd) != 0.0
    ensures RoundedVpin(w, rnd) == Ratio(SlotsOf(w))
  {
    ExactSums(w, rnd);
    hide RoundedImbalances, RoundedVolumes, SumImbalance;
  }
}
