/**
 The calibrator's own pass over a tape: it repeats the estimator's pipeline one level down, so that each
 bucket's bulk classification can be held against the sides the trades really took.
 */
module Judging {
  import opened Wrappers
  import opened Numerics
  import opened RollingWindows
  import opened VolumeClock
  import opened Bvc
  import opened Bootstrap
  import opened VpinBatch
  import opened VpinProperties

  /** A trade whose taker side is known. */
  datatype MarkedTrade = Marked(trade: Trade, takerBuys: bool)

  function Unmarked(tape: seq<MarkedTrade>): (trades: seq<Trade>)
    ensures |trades| == |tape|
  {
    seq(|tape|, i requires 0 <= i < |tape| => tape[i].trade)
  }

  function Bought(segment: seq<MarkedTrade>): real {
    if segment == [] then 0.0
    else Bought(segment[..|segment| - 1]) + if Last(segment).takerBuys then Last(segment).trade.volume else 0.0
  }

  function Sold(segment: seq<MarkedTrade>): real {
    if segment == [] then 0.0
    else Sold(segment[..|segment| - 1]) + if Last(segment).takerBuys then 0.0 else Last(segment).trade.volume
  }

  lemma UnmarkedSnoc(tape: seq<MarkedTrade>, t: MarkedTrade)
    ensures Unmarked(tape + [t]) == Unmarked(tape) + [t.trade]
  {
  }

  lemma SidesSnoc(segment: seq<MarkedTrade>, t: MarkedTrade)
    ensures Bought(segment + [t]) == Bought(segment) + if t.takerBuys then t.trade.volume else 0.0
    ensures Sold(segment + [t]) == Sold(segment) + if t.takerBuys then 0.0 else t.trade.volume
  {
    assert (segment + [t])[..|segment|] == segment;
  }

  /** Both sides together are the whole volume. */
  lemma {:induction false} SidesExhaustVolume(segment: seq<MarkedTrade>)
    ensures Bought(segment) + Sold(segment) == Volume(Unmarked(segment))
  {
    if segment != [] {
      var front, t := segment[..|segment| - 1], Last(segment);
      SidesExhaustVolume(front);
      assert segment == front + [t];
      UnmarkedSnoc(front, t);
      VolumeSnoc(Unmarked(front), t.trade);
    }
  }

  // ---- The same buckets, with sides

  datatype MarkedPartition = MarkedPartition(closed: seq<seq<MarkedTrade>>, open: seq<MarkedTrade>)

  function Cut(tape: seq<MarkedTrade>, target: real): MarkedPartition {
    if tape == [] then MarkedPartition([], [])
    else
      var p := Cut(tape[..|tape| - 1], target);
      var open := p.open + [Last(tape)];
      if Volume(Unmarked(open)) < target then MarkedPartition(p.closed, open)
      else MarkedPartition(p.closed + [open], [])
  }

  function UnmarkedAll(parts: seq<seq<MarkedTrade>>): (r: seq<seq<Trade>>)
    ensures |r| == |parts|
  {
    seq(|parts|, i requires 0 <= i < |parts| => Unmarked(parts[i]))
  }

  lemma UnmarkedAllSnoc(parts: seq<seq<MarkedTrade>>, part: seq<MarkedTrade>)
    ensures UnmarkedAll(parts + [part]) == UnmarkedAll(parts) + [Unmarked(part)]
  {
    hide Unmarked;
  }

  /** The marked buckets are the volume clock's buckets. */
  lemma {:induction false} CutIsGreedy(tape: seq<MarkedTrade>, target: real)
    ensures Greedy(Unmarked(tape), target)
         == Partition(UnmarkedAll(Cut(tape, target).closed), Unmarked(Cut(tape, target).open))
  {
    if tape == [] {
      assert Unmarked([]) == [] && UnmarkedAll([]) == [];
    } else {
      var front, t := tape[..|tape| - 1], Last(tape);
      CutIsGreedy(front, target);
      assert tape == front + [t];
      UnmarkedSnoc(front, t);
      GreedySnoc(Unmarked(front), t.trade, target);
      var p := Cut(front, target);
      UnmarkedSnoc(p.open, t);
      UnmarkedAllSnoc(p.closed, p.open + [t]);
      assert Unmarked([]) == [];
      hide Greedy, Volume, Unmarked, UnmarkedAll;
    }
  }

  lemma CutSnoc(tape: seq<MarkedTrade>, t: MarkedTrade, target: real)
    ensures var p, open := Cut(tape, target), Cut(tape, target).open + [t];
            Cut(tape + [t], target) ==
              if Closing(Unmarked(tape), t.trade, target).None? then MarkedPartition(p.closed, open)
              else MarkedPartition(p.closed + [open], [])
  {
    assert (tape + [t])[..|tape|] == tape;
    CutIsGreedy(tape, target);
    UnmarkedSnoc(Cut(tape, target).open, t);
    hide Greedy, Volume;
  }

  // ---- Judging one bucket

  /** A bucket and its trades: it has volume, all of it bought or sold. */
  predicate Measured(b: ClosedBucket, segment: seq<MarkedTrade>) {
    b.volume > 0.0 && Bought(segment) + Sold(segment) == b.volume
  }

  predicate AllMeasured(bs: seq<ClosedBucket>, parts: seq<seq<MarkedTrade>>) {
    |bs| == |parts| && forall k :: 0 <= k < |bs| ==> Measured(bs[k], parts[k])
  }

  /** What bulk classification called, and what really was, as buyers' shares of the volume. */
  datatype Judgement = Judgement(called: real, actual: real)

  function Judge(sigma: Option<real>, b: ClosedBucket, bought: real, sold: real, phi: real -> real): Option<Judgement>
    requires b.volume > 0.0 && bought + sold == b.volume
  {
    if sigma.None? then None
    else
      match Classify(b.deltaP, sigma.value, b.volume, phi)
      case None => None
      case Some(split) => Some(Judgement(split.buy / b.volume, bought / (bought + sold)))
  }

  /** The judgements of all buckets that could be classified, oldest first. */
  function Judged(bs: seq<ClosedBucket>, parts: seq<seq<MarkedTrade>>, sigmaWindow: nat, m: Maths): seq<Judgement>
    requires sigmaWindow >= 2 && AllMeasured(bs, parts)
  {
    if bs == [] then []
    else
      var before, part := bs[..|bs| - 1], Last(parts);
      Judged(before, parts[..|bs| - 1], sigmaWindow, m)
      + ToSeq(Judge(SigmaOf(Deltas(before), sigmaWindow, m.root), Last(bs), Bought(part), Sold(part), m.phi))
  }

  lemma JudgedSnoc(
    bs: seq<ClosedBucket>, b: ClosedBucket, parts: seq<seq<MarkedTrade>>, part: seq<MarkedTrade>,
    sigmaWindow: nat, m: Maths)
    requires sigmaWindow >= 2 && AllMeasured(bs, parts) && Measured(b, part)
    ensures AllMeasured(bs + [b], parts + [part])
    ensures Judged(bs + [b], parts + [part], sigmaWindow, m)
         == Judged(bs, parts, sigmaWindow, m)
            + ToSeq(Judge(SigmaOf(Deltas(bs), sigmaWindow, m.root), b, Bought(part), Sold(part), m.phi))
  {
    hide Measured, Judge, SigmaOf, Deltas;
    assert (bs + [b])[..|bs|] == bs && (parts + [part])[..|bs|] == parts;
  }

  /** Every bucket of a tape is measured by its own trades. */
  lemma TapeMeasured(tape: seq<MarkedTrade>, target: real)
    requires target > 0.0
    ensures AllMeasured(Buckets(Unmarked(tape), target), Cut(tape, target).closed)
  {
    var parts := Cut(tape, target).closed;
    CutIsGreedy(tape, target);
    BucketShape(Unmarked(tape), target);
    forall k | 0 <= k < |parts|
      ensures Measured(Buckets(Unmarked(tape), target)[k], parts[k])
    {
      SidesExhaustVolume(parts[k]);
    }
  }

  function TapeJudged(tape: seq<MarkedTrade>, target: real, sigmaWindow: nat, m: Maths): seq<Judgement>
    requires target > 0.0 && sigmaWindow >= 2
  {
    TapeMeasured(tape, target);
    Judged(Buckets(Unmarked(tape), target), Cut(tape, target).closed, sigmaWindow, m)
  }

  // ---- In step with the estimator

  /** The same bucket seen twice: the estimator keeps how far the called share is from one half. */
  ghost predicate SameCall(slot: Slot, j: Judgement)
    requires slot.volume > 0.0
  {
    slot.imbalance / slot.volume == Abs(2.0 * j.called - 1.0)
  }

  lemma ScaledAbs(buy: real, volume: real)
    requires volume > 0.0
    ensures Abs(buy - (volume - buy)) / volume == Abs(2.0 * (buy / volume) - 1.0)
  {
    var x := 2.0 * (buy / volume) - 1.0;
    assert buy - (volume - buy) == x * volume;
    if x >= 0.0 {
      ProductSign(x, volume);
    } else {
      ProductSign(-x, volume);
      assert (-x) * volume == -(x * volume);
    }
    assert Abs(buy - (volume - buy)) == Abs(x) * volume;
  }

  lemma JudgedWithSlot(bs: seq<ClosedBucket>, bought: real, sold: real, sigmaWindow: nat, m: Maths)
    requires sigmaWindow >= 2 && bs != [] && Last(bs).volume > 0.0 && bought + sold == Last(bs).volume
    ensures var slot := LastSlot(bs, sigmaWindow, m);
            var judgement := Judge(SigmaOf(Deltas(bs[..|bs| - 1]), sigmaWindow, m.root), Last(bs), bought, sold, m.phi);
            && (slot.Some? <==> judgement.Some?)
            && (slot.Some? ==> slot.value.volume > 0.0 && SameCall(slot.value, judgement.value))
  {
    var b := Last(bs);
    var sigma := SigmaOf(Deltas(bs[..|bs| - 1]), sigmaWindow, m.root);
    hide SigmaOf, Deltas;
    if sigma.Some? {
      var split := Classify(b.deltaP, sigma.value, b.volume, m.phi);
      hide BuyFraction;
      if split.Some? {
        ScaledAbs(split.value.buy, b.volume);
      }
    }
  }

  /** On every list of buckets, the judged buckets are exactly those the estimator classifies, in the same
      order and with the same call. */
  lemma {:induction false} JudgesWhatIsClassified(
    bs: seq<ClosedBucket>, parts: seq<seq<MarkedTrade>>, sigmaWindow: nat, m: Maths)
    requires sigmaWindow >= 2 && AllMeasured(bs, parts)
    ensures var js, slots := Judged(bs, parts, sigmaWindow, m), Slots(Classified(bs, sigmaWindow, m));
            && |js| == |slots|
            && forall i :: 0 <= i < |js| ==> slots[i].volume > 0.0 && SameCall(slots[i], js[i])
  {
    if bs != [] {
      var before, b, part := bs[..|bs| - 1], Last(bs), Last(parts);
      JudgesWhatIsClassified(before, parts[..|bs| - 1], sigmaWindow, m);
      assert Measured(b, part);
      assert bs == before + [b];
      JudgedWithSlot(bs, Bought(part), Sold(part), sigmaWindow, m);
      hide LastSlot, Judge, SigmaOf, Measured, SameCall, Deltas;
      ClassifiedSnoc(before, b, sigmaWindow, m);
      hide Classified;
      var cs := Classified(before, sigmaWindow, m);
      var c := LastSlot(bs, sigmaWindow, m);
      assert (cs + [c])[..|cs|] == cs;
    }
  }

  /** Shares lie between 0 and 1 when no trade has negative volume. */
  predicate Shares(js: seq<Judgement>) {
    forall i :: 0 <= i < |js| ==> 0.0 <= js[i].called <= 1.0 && 0.0 <= js[i].actual <= 1.0
  }

  predicate NoNegativeVolume(tape: seq<MarkedTrade>) {
    forall i :: 0 <= i < |tape| ==> tape[i].trade.volume >= 0.0
  }

  lemma {:induction false} SidesSign(segment: seq<MarkedTrade>)
    requires NoNegativeVolume(segment)
    ensures Bought(segment) >= 0.0 && Sold(segment) >= 0.0
  {
    if segment != [] {
      SidesSign(segment[..|segment| - 1]);
    }
  }

  lemma {:induction false} PartsSign(tape: seq<MarkedTrade>, target: real)
    requires NoNegativeVolume(tape)
    ensures forall k :: 0 <= k < |Cut(tape, target).closed| ==> NoNegativeVolume(Cut(tape, target).closed[k])
    ensures NoNegativeVolume(Cut(tape, target).open)
  {
    if tape != [] {
      PartsSign(tape[..|tape| - 1], target);
    }
  }

  lemma JudgementShares(sigma: Option<real>, b: ClosedBucket, bought: real, sold: real, phi: real -> real)
    requires b.volume > 0.0 && bought + sold == b.volume && bought >= 0.0 && sold >= 0.0 && IsCdf(phi)
    ensures var j := Judge(sigma, b, bought, sold, phi);
            j.Some? ==> 0.0 <= j.value.called <= 1.0 && 0.0 <= j.value.actual <= 1.0
  {
    QuotientBounds(bought, b.volume, 0.0, 1.0);
    if sigma.Some? && sigma.value > 0.0 {
      ImbalanceWithinVolume(b.deltaP, sigma.value, b.volume, phi);
      var buy := Classify(b.deltaP, sigma.value, b.volume, phi).value.buy;
      hide Classify, Imbalance;
      QuotientBounds(buy, b.volume, 0.0, 1.0);
    }
  }

  lemma {:induction false} JudgedShares(
    bs: seq<ClosedBucket>, parts: seq<seq<MarkedTrade>>, sigmaWindow: nat, m: Maths)
    requires sigmaWindow >= 2 && AllMeasured(bs, parts) && IsCdf(m.phi)
    requires forall k :: 0 <= k < |parts| ==> NoNegativeVolume(parts[k])
    ensures Shares(Judged(bs, parts, sigmaWindow, m))
  {
    if bs != [] {
      var before, b, part := bs[..|bs| - 1], Last(bs), Last(parts);
      JudgedShares(before, parts[..|bs| - 1], sigmaWindow, m);
      assert Measured(b, part) && NoNegativeVolume(part);
      SidesSign(part);
      hide SigmaOf, Deltas, Judge, NoNegativeVolume, IsCdf;
      JudgementShares(SigmaOf(Deltas(before), sigmaWindow, m.root), b, Bought(part), Sold(part), m.phi);
    }
  }

  // ---- The value of a judgement

  lemma ShareBack(volume: real, share: real)
    requires volume > 0.0
    ensures (volume * share) / volume == share
  {
  }

  /** A bucket is judged iff it has a positive sigma: called is Phi of its standardised price change, actual the
      part of its volume that takers bought. */
  lemma JudgeExactly(sigma: Option<real>, b: ClosedBucket, bought: real, sold: real, phi: real -> real)
    requires b.volume > 0.0 && bought + sold == b.volume
    ensures var j := Judge(sigma, b, bought, sold, phi);
            && (j.Some? <==> sigma.Some? && sigma.value > 0.0)
            && (j.Some? ==>
                  j.value.called == phi(b.deltaP / sigma.value) && j.value.actual == bought / b.volume)
  {
    if sigma.Some? {
      ClassifyExactly(b.deltaP, sigma.value, b.volume, phi);
      hide Classify;
      if sigma.value > 0.0 {
        ShareBack(b.volume, phi(b.deltaP / sigma.value));
      }
    }
  }

  lemma MeasuredPrefix(bs: seq<ClosedBucket>, parts: seq<seq<MarkedTrade>>, k: nat)
    requires AllMeasured(bs, parts) && k <= |bs|
    ensures AllMeasured(bs[..k], parts[..k])
  {
    hide Measured;
  }

  lemma {:induction false} JudgedPrefix(
    bs: seq<ClosedBucket>, parts: seq<seq<MarkedTrade>>, k: nat, sigmaWindow: nat, m: Maths)
    requires sigmaWindow >= 2 && AllMeasured(bs, parts) && k <= |bs|
    ensures AllMeasured(bs[..k], parts[..k])
    ensures Judged(bs[..k], parts[..k], sigmaWindow, m) <= Judged(bs, parts, sigmaWindow, m)
    decreases |bs|
  {
    MeasuredPrefix(bs, parts, k);
    hide AllMeasured, Judge, SigmaOf, Deltas;
    if k == |bs| {
      assert bs[..k] == bs && parts[..k] == parts;
    } else {
      var n := |bs| - 1;
      MeasuredPrefix(bs, parts, n);
      JudgedPrefix(bs[..n], parts[..n], k, sigmaWindow, m);
      assert bs[..n][..k] == bs[..k] && parts[..n][..k] == parts[..k];
    }
  }

  /** The deviation is positive. */
  ghost predicate IsSpread(recent: seq<real>, m: Maths) {
    |recent| >= 2 && m.root(SampleVariance(recent)) > 0.0
  }

  /** Called is Phi of the bucket's price change over the deviation of the changes before it; actual is its
      taker-bought volume over its volume. */
  ghost predicate IsJudgement(j: Judgement, b: ClosedBucket, part: seq<MarkedTrade>, recent: seq<real>, m: Maths) {
    && IsSpread(recent, m) && b.volume > 0.0
    && j.called == m.phi(b.deltaP / m.root(SampleVariance(recent)))
    && j.actual == Bought(part) / b.volume
  }

  /** Judgement number `at` is that. */
  ghost predicate JudgedAt(
    js: seq<Judgement>, at: nat, b: ClosedBucket, part: seq<MarkedTrade>, recent: seq<real>, m: Maths)
  {
    at < |js| && IsJudgement(js[at], b, part, recent, m)
  }

  lemma KeptInLonger(
    js: seq<Judgement>, longer: seq<Judgement>, at: nat, b: ClosedBucket, part: seq<MarkedTrade>, recent: seq<real>,
    m: Maths)
    requires js <= longer && JudgedAt(js, at, b, part, recent, m)
    ensures JudgedAt(longer, at, b, part, recent, m)
  {
    hide IsJudgement;
  }

  lemma LastJudgement(
    before: seq<ClosedBucket>, b: ClosedBucket, parts: seq<seq<MarkedTrade>>, part: seq<MarkedTrade>,
    recent: seq<real>, w: nat, m: Maths)
    requires w >= 2 && AllMeasured(before, parts) && Measured(b, part)
    requires |recent| >= 2 && SigmaOf(Deltas(before), w, m.root) == Some(m.root(SampleVariance(recent)))
    requires m.root(SampleVariance(recent)) > 0.0
    ensures AllMeasured(before + [b], parts + [part])
    ensures var js, js' := Judged(before, parts, w, m), Judged(before + [b], parts + [part], w, m);
            |js'| == |js| + 1 && IsJudgement(js'[|js|], b, part, recent, m)
  {
    JudgedSnoc(before, b, parts, part, w, m);
    hide Judged, SigmaOf, Deltas, SampleVariance, AllMeasured, Judge, Bought, Sold;
    JudgeExactly(SigmaOf(Deltas(before), w, m.root), b, Bought(part), Sold(part), m.phi);
  }

  /** How many buckets before the k-th are classified. */
  function ClassifiedBefore(bs: seq<ClosedBucket>, k: nat, w: nat, m: Maths): nat
    requires w >= 2 && k <= |bs|
  {
    |Slots(Classified(bs[..k], w, m))|
  }

  lemma JudgementAt(bs: seq<ClosedBucket>, parts: seq<seq<MarkedTrade>>, k: nat, w: nat, m: Maths)
    requires w >= 2 && AllMeasured(bs, parts) && |parts| == |bs| && k < |bs| && k >= w
    requires IsSpread(Deltas(bs)[k - w..k], m)
    ensures AllMeasured(bs[..k + 1], parts[..k + 1])
    ensures JudgedAt(Judged(bs[..k + 1], parts[..k + 1], w, m), ClassifiedBefore(bs, k, w, m),
                     bs[k], parts[k], Deltas(bs)[k - w..k], m)
  {
    assert Measured(bs[k], parts[k]);
    hide Judged, SigmaOf, Deltas, SampleVariance, AllMeasured, Measured, IsJudgement, ClassifiedBefore;
    MeasuredPrefix(bs, parts, k);
    SigmaBefore(bs, k, w, m.root);
    JudgedCount(bs, parts, k, w, m);
    OneMore(bs, k);
    OneMore(parts, k);
    LastJudgement(bs[..k], bs[k], parts[..k], parts[k], Deltas(bs)[k - w..k], w, m);
  }

  lemma OneMore<T>(s: seq<T>, k: nat)
    requires k < |s|
    ensures s[..k + 1] == s[..k] + [s[k]]
  {
  }

  lemma JudgedCount(bs: seq<ClosedBucket>, parts: seq<seq<MarkedTrade>>, k: nat, w: nat, m: Maths)
    requires w >= 2 && |parts| == |bs| && k <= |bs| && AllMeasured(bs[..k], parts[..k])
    ensures |Judged(bs[..k], parts[..k], w, m)| == ClassifiedBefore(bs, k, w, m)
  {
    JudgesWhatIsClassified(bs[..k], parts[..k], w, m);
  }

  lemma SpreadBefore(bs: seq<ClosedBucket>, k: nat, w: nat, m: Maths)
    requires w >= 2 && k < |bs| && Classified(bs, w, m)[k].Some?
    ensures k >= w && IsSpread(Deltas(bs)[k - w..k], m)
  {
    hide Classified, SigmaOf, Deltas, SampleVariance;
    ClassifiedBySigma(bs, k, w, m);
    SigmaBefore(bs, k, w, m.root);
  }

  lemma SameLength(bs: seq<ClosedBucket>, parts: seq<seq<MarkedTrade>>)
    requires AllMeasured(bs, parts)
    ensures |parts| == |bs|
  {
  }

  /** Every classified bucket has its judgement, in its place: where there are as many as buckets classified
      before it. */
  lemma JudgementExactly(bs: seq<ClosedBucket>, parts: seq<seq<MarkedTrade>>, k: nat, w: nat, m: Maths)
    requires w >= 2 && AllMeasured(bs, parts) && k < |bs| && Classified(bs, w, m)[k].Some?
    ensures k >= w
    ensures JudgedAt(Judged(bs, parts, w, m), ClassifiedBefore(bs, k, w, m), bs[k], parts[k], Deltas(bs)[k - w..k], m)
  {
    hide Classified, Judged, IsSpread, AllMeasured, JudgedAt, ClassifiedBefore, Deltas, Slots;
    SpreadBefore(bs, k, w, m);
    SameLength(bs, parts);
    JudgementAt(bs, parts, k, w, m);
    JudgedPrefix(bs, parts, k + 1, w, m);
    KeptInLonger(Judged(bs[..k + 1], parts[..k + 1], w, m), Judged(bs, parts, w, m), ClassifiedBefore(bs, k, w, m),
                 bs[k], parts[k], Deltas(bs)[k - w..k], m);
  }

  /** On every tape. */
  lemma TapeJudgementExactly(tape: seq<MarkedTrade>, target: real, k: nat, w: nat, m: Maths)
    requires target > 0.0 && w >= 2 && k < |Buckets(Unmarked(tape), target)|
    ensures |Cut(tape, target).closed| == |Buckets(Unmarked(tape), target)|
    ensures var js, bs := TapeJudged(tape, target, w, m), Buckets(Unmarked(tape), target);
            Classified(bs, w, m)[k].Some? ==>
              && k >= w
              && JudgedAt(js, ClassifiedBefore(bs, k, w, m), bs[k], Cut(tape, target).closed[k],
                          Deltas(bs)[k - w..k], m)
  {
    TapeMeasured(tape, target);
    hide Buckets, Cut, Classified, Judged, Deltas, JudgedAt, ClassifiedBefore, Measured;
    if Classified(Buckets(Unmarked(tape), target), w, m)[k].Some? {
      JudgementExactly(Buckets(Unmarked(tape), target), Cut(tape, target).closed, k, w, m);
    }
  }
}
