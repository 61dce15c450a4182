/** Bulk volume classification of one closed bucket. */
module Bvc {
  import opened Wrappers
  import opened Numerics

  function BuyFraction(deltaP: real, sigma: real, phi: real -> real): Option<real> {
    if !(sigma > 0.0) then None else Some(phi(deltaP / sigma))
  }

  datatype Split = Split(buy: real, sell: real)

  function SplitBy(volume: real, fraction: real): Split {
    var buy := volume * fraction;
    Split(buy, volume - buy)
  }

  function Classify(deltaP: real, sigma: real, volume: real, phi: real -> real): Option<Split> {
    match BuyFraction(deltaP, sigma, phi)
    case None => None
    case Some(fraction) => Some(SplitBy(volume, fraction))
  }

  function Imbalance(deltaP: real, sigma: real, volume: real, phi: real -> real): Option<real> {
    match Classify(deltaP, sigma, volume, phi)
    case None => None
    case Some(split) => Some(Abs(split.buy - split.sell))
  }

  lemma SplitInFull(volume: real, fraction: real)
    ensures SplitBy(volume, fraction).buy == volume * fraction
    ensures SplitBy(volume, fraction).sell == volume - volume * fraction
  {
  }

  /** The buyers' side of a split is Phi of the standardised price change times the volume; the sellers get
      the rest. There is no split without a positive sigma. */
  lemma ClassifyExactly(deltaP: real, sigma: real, volume: real, phi: real -> real)
    ensures var split := Classify(deltaP, sigma, volume, phi);
            && (split.Some? <==> sigma > 0.0)
            && (split.Some? ==>
                  && split.value.buy == volume * phi(deltaP / sigma)
                  && split.value.sell == volume - split.value.buy)
  {
    if sigma > 0.0 {
      SplitInFull(volume, phi(deltaP / sigma));
      hide SplitBy;
    }
  }

  lemma ImbalanceDefined(deltaP: real, sigma: real, volume: real, phi: real -> real)
    ensures Imbalance(deltaP, sigma, volume, phi).Some? <==> sigma > 0.0
  {
  }

  /** A split exhausts the volume with two non-negative sides, so the imbalance never exceeds the volume;
      it exists exactly for a strictly positive sigma. */
  lemma ImbalanceWithinVolume(deltaP: real, sigma: real, volume: real, phi: real -> real)
    requires volume >= 0.0 && IsCdf(phi)
    ensures Imbalance(deltaP, sigma, volume, phi).Some? <==> sigma > 0.0
    ensures sigma > 0.0 ==>
              var split := Classify(deltaP, sigma, volume, phi).value;
              && split.buy >= 0.0 && split.sell >= 0.0 && split.buy + split.sell == volume
              && 0.0 <= Imbalance(deltaP, sigma, volume, phi).value <= volume
  {
    if sigma > 0.0 {
      var fraction := phi(deltaP / sigma);
      ProductSign(volume, fraction);
      ProductSign(volume, 1.0 - fraction);
      assert volume - volume * fraction == volume * (1.0 - fraction);
    }
  }
}
