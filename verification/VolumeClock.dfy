/**
 The volume clock: a tape of trades is cut into buckets that close on accumulated volume.
 `Greedy` cuts a whole tape, `VolumeBucketer` is the machine that does it one trade at a time.
 */
module VolumeClock {
  import opened Wrappers
  import opened VpinErrors

  datatype Trade = Trade(price: real, volume: real, ts: nat)

  datatype ClosedBucket = ClosedBucket(
    bucketId: nat, deltaP: real, volume: real, lastPrice: real, tradeCount: nat, tsClose: nat)

  function Volume(segment: seq<Trade>): real {
    if segment == [] then 0.0 else Volume(segment[..|segment| - 1]) + segment[|segment| - 1].volume
  }

  function Flatten<T>(parts: seq<seq<T>>): seq<T> {
    if parts == [] then [] else parts[0] + Flatten(parts[1..])
  }

  datatype Partition = Partition(closed: seq<seq<Trade>>, open: seq<Trade>)

  predicate NonEmptyParts(closed: seq<seq<Trade>>) {
    forall i :: 0 <= i < |closed| ==> closed[i] != []
  }

  /** One trade joins the open segment and closes it when the target is reached. */
  function Extend(p: Partition, t: Trade, target: real): (r: Partition)
    ensures NonEmptyParts(p.closed) ==> NonEmptyParts(r.closed)
  {
    var open := p.open + [t];
    if Volume(open) < target then Partition(p.closed, open) else Partition(p.closed + [open], [])
  }

  /** The whole tape cut trade by trade. */
  function Greedy(tape: seq<Trade>, target: real): (p: Partition)
    ensures NonEmptyParts(p.closed)
    ensures tape == [] ==> p.closed == []
  {
    if tape == [] then Partition([], [])
    else Extend(Greedy(tape[..|tape| - 1], target), tape[|tape| - 1], target)
  }

  lemma GreedySnoc(tape: seq<Trade>, t: Trade, target: real)
    ensures Greedy(tape + [t], target) == Extend(Greedy(tape, target), t, target)
  {
    assert (tape + [t])[..|tape|] == tape;
  }

  /** `segment` reaches the target, and only with its last trade. */
  ghost predicate ReachesOnlyAtEnd(segment: seq<Trade>, target: real) {
    && segment != []
    && Volume(segment) >= target
    && StaysBelow(segment[..|segment| - 1], target)
  }

  ghost predicate StaysBelow(segment: seq<Trade>, target: real) {
    forall k :: 0 <= k <= |segment| ==> Volume(segment[..k]) < target
  }

  /** What it means to be the greedy partition, said without the machine. */
  ghost predicate IsGreedy(tape: seq<Trade>, target: real, p: Partition) {
    && Flatten(p.closed) + p.open == tape
    && (forall i :: 0 <= i < |p.closed| ==> ReachesOnlyAtEnd(p.closed[i], target))
    && StaysBelow(p.open, target)
  }

  lemma {:induction false} FlattenSnoc<T>(parts: seq<seq<T>>, last: seq<T>)
    ensures Flatten(parts + [last]) == Flatten(parts) + last
  {
    if parts == [] {
      assert [last][1..] == [];
    } else {
      assert (parts + [last])[1..] == parts[1..] + [last];
      FlattenSnoc(parts[1..], last);
    }
  }

  lemma StaysBelowSnoc(open: seq<Trade>, t: Trade, target: real)
    requires StaysBelow(open, target) && Volume(open + [t]) < target
    ensures StaysBelow(open + [t], target)
  {
    forall k | 0 <= k <= |open| + 1
      ensures Volume((open + [t])[..k]) < target
    {
      assert (open + [t])[..k] == if k <= |open| then open[..k] else open + [t];
    }
  }

  lemma ExtendIsGreedy(tape: seq<Trade>, t: Trade, target: real, p: Partition)
    requires target > 0.0 && IsGreedy(tape, target, p)
    ensures IsGreedy(tape + [t], target, Extend(p, t, target))
  {
    var open := p.open + [t];
    if Volume(open) < target {
      StaysBelowSnoc(p.open, t, target);
      assert Flatten(p.closed) + open == tape + [t];
    } else {
      FlattenSnoc(p.closed, open);
      assert open[..|open| - 1] == p.open;
      assert Flatten(p.closed + [open]) + [] == tape + [t];
    }
  }

  lemma {:induction false} GreedyIsGreedy(tape: seq<Trade>, target: real)
    requires target > 0.0
    ensures IsGreedy(tape, target, Greedy(tape, target))
  {
    if tape != [] {
      var tape', t := tape[..|tape| - 1], tape[|tape| - 1];
      assert tape == tape' + [t];
      GreedyIsGreedy(tape', target);
      ExtendIsGreedy(tape', t, target, Greedy(tape', target));
    }
  }

  lemma EarlierPrefixBelow(tape: seq<Trade>, target: real, i: nat, j: nat)
    requires i < j <= |tape| && ReachesOnlyAtEnd(tape[..j], target)
    ensures Volume(tape[..i]) < target
  {
    assert tape[..j][..j - 1][..i] == tape[..i];
  }

  /** The greedy partition of a tape is unique. */
  lemma {:induction false} GreedyUnique(tape: seq<Trade>, target: real, p: Partition, q: Partition)
    requires IsGreedy(tape, target, p) && IsGreedy(tape, target, q)
    ensures p == q
    decreases |p.closed|
  {
    if p.closed == [] && q.closed == [] {
      assert p.open == tape == q.open;
    } else if p.closed == [] {
      assert p.open == tape;
      ClosingPrefix(tape, target, q);
    } else if q.closed == [] {
      assert q.open == tape;
      ClosingPrefix(tape, target, p);
    } else {
      var i, j := |p.closed[0]|, |q.closed[0]|;
      assert p.closed[0] == tape[..i] && q.closed[0] == tape[..j];
      if i < j { EarlierPrefixBelow(tape, target, i, j); }
      if j < i { EarlierPrefixBelow(tape, target, j, i); }
      var p', q' := Partition(p.closed[1..], p.open), Partition(q.closed[1..], q.open);
      assert Flatten(p'.closed) + p'.open == tape[i..];
      assert Flatten(q'.closed) + q'.open == tape[i..];
      GreedyUnique(tape[i..], target, p', q');
      assert p.closed == [p.closed[0]] + p'.closed;
      assert q.closed == [q.closed[0]] + q'.closed;
    }
  }

  lemma ClosingPrefix(tape: seq<Trade>, target: real, q: Partition)
    requires IsGreedy(tape, target, q) && q.closed != []
    ensures !StaysBelow(tape, target)
  {
    var j := |q.closed[0]|;
    assert q.closed[0] == tape[..j];
  }

  // ---- The closed buckets of a tape

  function Last<T>(s: seq<T>): T
    requires s != []
  {
    s[|s| - 1]
  }

  /** Price the next bucket's change is measured from: the previous close, or the first trade of the tape. */
  function ReferencePrice(tape: seq<Trade>, closed: seq<seq<Trade>>): real
    requires tape != [] && NonEmptyParts(closed)
  {
    if closed == [] then tape[0].price else Last(closed[|closed| - 1]).price
  }

  function BucketAt(tape: seq<Trade>, closed: seq<seq<Trade>>, j: nat): ClosedBucket
    requires tape != [] && j < |closed| && NonEmptyParts(closed)
  {
    var seg := closed[j];
    ClosedBucket(j, Last(seg).price - ReferencePrice(tape, closed[..j]), Volume(seg),
                 Last(seg).price, |seg|, Last(seg).ts)
  }

  /** Every bucket closed by a tape, as a function of the tape alone. */
  function Buckets(tape: seq<Trade>, target: real): (bs: seq<ClosedBucket>)
    ensures |bs| == |Greedy(tape, target).closed|
  {
    var closed := Greedy(tape, target).closed;
    seq(|closed|, j requires 0 <= j < |closed| => BucketAt(tape, closed, j))
  }

  /** The bucket trade `t` closes after `tape`, if it closes one. */
  function Closing(tape: seq<Trade>, t: Trade, target: real): Option<ClosedBucket> {
    var p := Greedy(tape, target);
    var open := p.open + [t];
    if Volume(open) < target then None
    else Some(ClosedBucket(|p.closed|, t.price - ReferencePrice(tape + [t], p.closed),
                           Volume(open), t.price, |open|, t.ts))
  }

  function ToSeq<T>(o: Option<T>): seq<T> {
    if o.Some? then [o.value] else []
  }

  /** One more trade closes at most one bucket and disturbs no earlier one. */
  lemma BucketsSnoc(tape: seq<Trade>, t: Trade, target: real)
    ensures Buckets(tape + [t], target) == Buckets(tape, target) + ToSeq(Closing(tape, t, target))
  {
    hide Greedy, Volume;
    GreedySnoc(tape, t, target);
    var before := Greedy(tape, target).closed;
    var after := Greedy(tape + [t], target).closed;
    assert after[..|before|] == before;
    forall j | 0 <= j < |before|
      ensures Buckets(tape + [t], target)[j] == Buckets(tape, target)[j]
    {
      assert after[..j] == before[..j];
    }
  }

  lemma VolumeSnoc(segment: seq<Trade>, t: Trade)
    ensures Volume(segment + [t]) == Volume(segment) + t.volume
  {
    assert (segment + [t])[..|segment|] == segment;
  }

  lemma VolumeOfNothing()
    ensures Volume([]) == 0.0
  {
  }

  function TotalVolume(bs: seq<ClosedBucket>): real {
    if bs == [] then 0.0 else TotalVolume(bs[..|bs| - 1]) + Last(bs).volume
  }

  function TotalTrades(bs: seq<ClosedBucket>): nat {
    if bs == [] then 0 else TotalTrades(bs[..|bs| - 1]) + Last(bs).tradeCount
  }

  function TotalDelta(bs: seq<ClosedBucket>): real {
    if bs == [] then 0.0 else TotalDelta(bs[..|bs| - 1]) + Last(bs).deltaP
  }

  /** One pushed trade, field by field. */
  lemma PushFacts(tape: seq<Trade>, t: Trade, target: real)
    ensures var p := Greedy(tape, target);
            var p' := Greedy(tape + [t], target);
            var volume := Volume(p.open) + t.volume;
            var reference := if tape == [] then t.price else ReferencePrice(tape, p.closed);
            if volume < target then
              && |p'.closed| == |p.closed| && |p'.open| == |p.open| + 1 && Volume(p'.open) == volume
              && ReferencePrice(tape + [t], p'.closed) == reference
              && Closing(tape, t, target) == None
            else
              && |p'.closed| == |p.closed| + 1 && p'.open == [] && Volume(p'.open) == 0.0
              && ReferencePrice(tape + [t], p'.closed) == t.price
              && Closing(tape, t, target)
                 == Some(ClosedBucket(|p.closed|, t.price - reference, volume, t.price, |p.open| + 1, t.ts))
  {
    GreedySnoc(tape, t, target);
    VolumeSnoc(Greedy(tape, target).open, t);
  }

  // ---- The machine

  lemma TotalsSnoc(bs: seq<ClosedBucket>, b: ClosedBucket)
    ensures TotalVolume(bs + [b]) == TotalVolume(bs) + b.volume
    ensures TotalTrades(bs + [b]) == TotalTrades(bs) + b.tradeCount
    ensures TotalDelta(bs + [b]) == TotalDelta(bs) + b.deltaP
  {
    assert (bs + [b])[..|bs|] == bs;
  }

  /** The buckets of `tape + [t]` in terms of those of `tape`. */
  lemma BucketsStep(tape: seq<Trade>, t: Trade, target: real)
    ensures var bs, closing := Buckets(tape, target), Closing(tape, t, target);
            Buckets(tape + [t], target) == if closing.Some? then bs + [closing.value] else bs
  {
    BucketsSnoc(tape, t, target);
    assert Buckets(tape, target) + [] == Buckets(tape, target);
  }

  /** No volume is lost or counted twice: closed buckets plus the open remainder are the tape's total. */
  lemma {:induction false} VolumeConserved(tape: seq<Trade>, target: real)
    ensures TotalVolume(Buckets(tape, target)) + Volume(Greedy(tape, target).open) == Volume(tape)
  {
    if tape != [] {
      var tape', t := tape[..|tape| - 1], Last(tape);
      assert tape == tape' + [t];
      VolumeConserved(tape', target);
      hide Greedy, Buckets, TotalVolume, Volume, Closing;
      BucketsStep(tape', t, target);
      PushFacts(tape', t, target);
      VolumeSnoc(tape', t);
      if Closing(tape', t, target).Some? {
        TotalsSnoc(Buckets(tape', target), Closing(tape', t, target).value);
      }
    }
  }

  /** Every trade of the tape is in exactly one closed bucket or in the open remainder. */
  lemma {:induction false} TradesConserved(tape: seq<Trade>, target: real)
    ensures TotalTrades(Buckets(tape, target)) + |Greedy(tape, target).open| == |tape|
  {
    if tape != [] {
      var tape', t := tape[..|tape| - 1], Last(tape);
      assert tape == tape' + [t];
      TradesConserved(tape', target);
      hide Greedy, Buckets, TotalTrades, Volume, Closing;
      BucketsStep(tape', t, target);
      PushFacts(tape', t, target);
      if Closing(tape', t, target).Some? {
        TotalsSnoc(Buckets(tape', target), Closing(tape', t, target).value);
      }
    }
  }

  /** Price changes telescope from the first trade of the tape to the last close. */
  lemma {:induction false} DeltasTelescope(tape: seq<Trade>, target: real)
    requires tape != []
    ensures TotalDelta(Buckets(tape, target))
            == ReferencePrice(tape, Greedy(tape, target).closed) - tape[0].price
  {
    var tape', t := tape[..|tape| - 1], Last(tape);
    assert tape == tape' + [t];
    if tape' != [] {
      DeltasTelescope(tape', target);
    }
    assert tape' == [] ==> TotalDelta(Buckets(tape', target)) == 0.0;
    hide Greedy, Buckets, TotalDelta, Volume, Closing, ReferencePrice;
    BucketsStep(tape', t, target);
    PushFacts(tape', t, target);
    if Closing(tape', t, target).Some? {
      TotalsSnoc(Buckets(tape', target), Closing(tape', t, target).value);
    }
  }

  /** Ids count up from zero, every realized bucket volume is at least the target, and what is left
      open is below it. */
  lemma BucketShape(tape: seq<Trade>, target: real)
    requires target > 0.0
    ensures forall j :: 0 <= j < |Buckets(tape, target)| ==>
              Buckets(tape, target)[j].bucketId == j && Buckets(tape, target)[j].volume >= target
    ensures Volume(Greedy(tape, target).open) < target
  {
    GreedyIsGreedy(tape, target);
    var p := Greedy(tape, target);
    assert p.open[..|p.open|] == p.open;
  }

  class VolumeBucketer {
    const targetVolume: real
    var bucketId: nat
    var accVolume: real
    var lastPrice: real
    var prevBucketClosePrice: Option<real>
    var tradeCount: nat
    var started: bool
    ghost var history: seq<Trade>

    /** The fields describe the partition `p` of `tape`. */
    ghost predicate Tracks(tape: seq<Trade>, p: Partition)
      requires NonEmptyParts(p.closed)
      reads this
    {
      && bucketId == |p.closed|
      && accVolume == Volume(p.open)
      && tradeCount == |p.open|
      && started == (tape != [])
      && lastPrice == (if tape == [] then 0.0 else Last(tape).price)
      && prevBucketClosePrice == (if tape == [] then None else Some(ReferencePrice(tape, p.closed)))
    }

    /** Every field is a function of the trades pushed so far. */
    ghost predicate Valid()
      reads this
    {
      targetVolume > 0.0 && Tracks(history, Greedy(history, targetVolume))
    }

    constructor (targetVolume: real)
      requires targetVolume > 0.0
      ensures Valid() && history == [] && this.targetVolume == targetVolume
    {
      this.targetVolume := targetVolume;
      bucketId, accVolume, lastPrice, prevBucketClosePrice := 0, 0.0, 0.0, None;
      tradeCount, started := 0, false;
      history := [];
    }

    static method New(targetVolume: real) returns (r: Result<VolumeBucketer, VpinError>)
      ensures r.Ok? <==> targetVolume > 0.0
      ensures r.Ok? ==> fresh(r.value) && r.value.Valid() && r.value.history == []
                        && r.value.targetVolume == targetVolume
      ensures r.Err? ==> r.error == InvalidBucketVolume(targetVolume)
    {
      if !(targetVolume > 0.0) {
        return Err(InvalidBucketVolume(targetVolume));
      }
      var b := new VolumeBucketer(targetVolume);
      return Ok(b);
    }

    method Push(t: Trade) returns (closed: Option<ClosedBucket>)
      requires Valid()
      modifies this
      ensures Valid() && history == old(history) + [t]
      ensures closed == Closing(old(history), t, targetVolume)
      ensures Buckets(history, targetVolume) == Buckets(old(history), targetVolume) + ToSeq(closed)
    {
      hide Greedy, Volume, Buckets;
      PushFacts(history, t, targetVolume);
      BucketsSnoc(history, t, targetVolume);
      history := history + [t];

      if !started {
        prevBucketClosePrice := Some(t.price);
        started := true;
      }
      accVolume := accVolume + t.volume;
      lastPrice := t.price;
      tradeCount := tradeCount + 1;
      if accVolume < targetVolume {
        return None;
      }
      var reference := if prevBucketClosePrice.Some? then prevBucketClosePrice.value else t.price;
      closed := Some(ClosedBucket(bucketId, t.price - reference, accVolume, t.price, tradeCount, t.ts));
      bucketId := bucketId + 1;
      accVolume := 0.0;
      tradeCount := 0;
      prevBucketClosePrice := Some(t.price);
    }
  }
}
