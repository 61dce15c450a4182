/** VPIN's rank within the cohort of similarly busy buckets. */
module IntensityCdf {
  import opened Wrappers
  import opened VpinErrors
  import opened RealSeqs
  import opened RollingWindows
  import opened Percentiles

  datatype Entry = Entry(vpin: real, trades: nat)

  // ---- The median of the trade counts

  function TradeCounts(h: seq<Entry>): (counts: seq<real>)
    ensures |counts| == |h|
  {
    seq(|h|, i requires 0 <= i < |h| => h[i].trades as real)
  }

  function SortTrades(h: seq<Entry>): (s: seq<real>)
    ensures |s| == |h|
  {
    SortSorts(TradeCounts(h));
    SortReals(TradeCounts(h))
  }

  /** Every sorted count is one of the window's. */
  lemma SortedCountIsWhole(h: seq<Entry>, k: nat)
    requires k < |h|
    ensures SortTrades(h)[k] == SortTrades(h)[k].Floor as real >= 0.0
  {
    var counts := TradeCounts(h);
    SortSorts(counts);
    hide SortReals;
    assert SortTrades(h)[k] in multiset(SortTrades(h));
    assert SortTrades(h)[k] in counts;
  }

  /** The upper median: the middle element of the sorted trade counts. */
  function MedianTrades(h: seq<Entry>): nat
    requires h != []
  {
    SortedCountIsWhole(h, |h| / 2);
    SortTrades(h)[|h| / 2].Floor
  }

  /** The ranks of the busier (or quieter) half of a window. */
  function Cohort(h: seq<Entry>, median: nat, busy: bool): (c: seq<real>)
    ensures h != [] && (h[|h| - 1].trades >= median) == busy ==> c != []
  {
    if h == [] then []
    else
      var e := h[|h| - 1];
      Cohort(h[..|h| - 1], median, busy) + if (e.trades >= median) == busy then [e.vpin] else []
  }

  /** Rank of the newest entry of a full window within its own cohort. */
  function CohortRank(h: seq<Entry>): real
    requires h != []
  {
    var latest, median := h[|h| - 1], MedianTrades(h);
    var cohort := Cohort(h, median, latest.trades >= median);
    CountLe(cohort, latest.vpin) as real / |cohort| as real
  }

  class IntensityAdjustedCdf {
    const window: nat
    var buf: seq<Entry>
    ghost var history: seq<Entry>

    ghost predicate Valid()
      reads this
    {
      window >= 4 && buf == LastN(history, window)
    }

    constructor (window: nat)
      requires window >= 4
      ensures Valid() && history == [] && this.window == window
    {
      this.window := window;
      buf, history := [], [];
    }

    static method New(window: nat) returns (r: Result<IntensityAdjustedCdf, VpinError>)
      ensures r.Ok? <==> window >= 4
      ensures r.Ok? ==> fresh(r.value) && r.value.Valid() && r.value.history == [] && r.value.window == window
      ensures r.Err? ==> r.error == InvalidWindow(window, 4)
    {
      if window < 4 {
        return Err(InvalidWindow(window, 4));
      }
      var c := new IntensityAdjustedCdf(window);
      return Ok(c);
    }

    method Push(vpin: real, tradesInBucket: nat) returns (rank: Option<real>)
      requires Valid()
      modifies this
      ensures Valid() && history == old(history) + [Entry(vpin, tradesInBucket)]
      ensures rank == if |history| < window then None else Some(CohortRank(LastN(history, window)))
    {
      LastNSnoc(history, window, Entry(vpin, tradesInBucket));
      history := history + [Entry(vpin, tradesInBucket)];
      if |buf| == window {
        buf := buf[1..];
      }
      buf := buf + [Entry(vpin, tradesInBucket)];
      if |buf| < window {
        return None;
      }
      var median := MedianTrades(buf);
      var cohort := Cohort(buf, median, tradesInBucket >= median);
      return Some(CountLe(cohort, vpin) as real / |cohort| as real);
    }
  }

  // ---- Counting entries, the yardstick for all the laws below

  datatype Query =
    | Below(limit: nat)
    | UpTo(limit: nat)
    | InCohort(median: nat, busy: bool)
    | RankedInCohort(median: nat, busy: bool, vpin: real)

  predicate Matches(e: Entry, q: Query) {
    match q
    case Below(limit) => e.trades < limit
    case UpTo(limit) => e.trades <= limit
    case InCohort(median, busy) => (e.trades >= median) == busy
    case RankedInCohort(median, busy, vpin) => (e.trades >= median) == busy && e.vpin <= vpin
  }

  function Count(h: seq<Entry>, q: Query): (n: nat)
    ensures n <= |h|
  {
    if h == [] then 0 else Count(h[..|h| - 1], q) + if Matches(h[|h| - 1], q) then 1 else 0
  }

  /** `median` is the upper median of the trade counts, said by counting. */
  ghost predicate IsUpperMedian(h: seq<Entry>, median: nat) {
    Count(h, Below(median)) <= |h| / 2 < Count(h, UpTo(median))
  }

  function CountBelow(s: seq<real>, x: real): nat {
    if s == [] then 0 else (if s[0] < x then 1 else 0) + CountBelow(s[1..], x)
  }

  lemma {:induction false} InsertCounts(x: real, s: seq<real>, y: real)
    ensures CountBelow(Insert(x, s), y) == CountBelow(s, y) + if x < y then 1 else 0
  {
    if s == [] || x <= s[0] {
      assert ([x] + s)[1..] == s;
    } else {
      InsertCounts(x, s[1..], y);
      assert ([s[0]] + Insert(x, s[1..]))[1..] == Insert(x, s[1..]);
    }
  }

  lemma {:induction false} SortCounts(h: seq<Entry>, y: nat)
    ensures CountBelow(SortTrades(h), y as real) == Count(h, Below(y))
    ensures Count(h, Below(y + 1)) == Count(h, UpTo(y))
  {
    if h != [] {
      var front, x := h[..|h| - 1], h[|h| - 1].trades;
      SortCounts(front, y);
      assert TradeCounts(h)[..|h| - 1] == TradeCounts(front);
      hide Insert, CountBelow;
      InsertCounts(x as real, SortTrades(front), y as real);
    }
  }

  lemma {:induction false} SortedCounts(s: seq<real>, k: nat)
    requires Sorted(s) && k < |s|
    ensures CountBelow(s, s[k]) <= k < CountBelow(s, s[k] + 1.0)
    decreases k
  {
    if k > 0 {
      SortedCounts(s[1..], k - 1);
    } else {
      NoneBelow(s, s[0]);
    }
  }

  lemma {:induction false} NoneBelow(s: seq<real>, y: real)
    requires forall i :: 0 <= i < |s| ==> y <= s[i]
    ensures CountBelow(s, y) == 0
  {
    if s != [] {
      NoneBelow(s[1..], y);
    }
  }

  lemma {:induction false} CountMonotone(h: seq<Entry>, q: Query, q': Query)
    requires forall i :: 0 <= i < |h| && Matches(h[i], q) ==> Matches(h[i], q')
    ensures Count(h, q) <= Count(h, q')
  {
    if h != [] {
      CountMonotone(h[..|h| - 1], q, q');
    }
  }

  lemma UpToBelow(h: seq<Entry>, a: nat, b: nat)
    requires a < b
    ensures Count(h, UpTo(a)) <= Count(h, Below(b))
  {
    CountMonotone(h, UpTo(a), Below(b));
  }

  lemma MedianIsUpper(h: seq<Entry>)
    requires h != []
    ensures IsUpperMedian(h, MedianTrades(h))
  {
    var m := MedianTrades(h);
    SortSorts(TradeCounts(h));
    assert Sorted(SortTrades(h));
    SortedCountIsWhole(h, |h| / 2);
    hide Count, CountBelow, SortTrades, Sorted;
    SortCounts(h, m);
    SortCounts(h, m + 1);
    SortedCounts(SortTrades(h), |h| / 2);
  }

  /** The sorted middle element is the true order statistic, and the only one. */
  lemma MedianIsOrderStatistic(h: seq<Entry>, median: nat)
    requires h != []
    ensures IsUpperMedian(h, median) <==> median == MedianTrades(h)
  {
    hide Count, MedianTrades;
    var m := MedianTrades(h);
    MedianIsUpper(h);
    if median < m {
      UpToBelow(h, median, m);
    } else if m < median {
      UpToBelow(h, m, median);
    }
  }

  lemma {:induction false} CohortCounts(h: seq<Entry>, median: nat, busy: bool, vpin: real)
    ensures |Cohort(h, median, busy)| == Count(h, InCohort(median, busy))
    ensures CountLe(Cohort(h, median, busy), vpin) == Count(h, RankedInCohort(median, busy, vpin))
    ensures Count(h, InCohort(median, true)) + Count(h, Below(median)) == |h|
  {
    if h != [] {
      var front, e := h[..|h| - 1], h[|h| - 1];
      CohortCounts(front, median, busy, vpin);
      var c := Cohort(front, median, busy);
      assert (c + [e.vpin])[..|c|] == c && c + [] == c;
    }
  }

  /** The busy cohort holds at least half the window, rounded up; the scored cohort is never empty
      and its newest member counts itself, so the rank is in (0, 1]. */
  lemma CohortRankRange(h: seq<Entry>)
    requires h != []
    ensures |Cohort(h, MedianTrades(h), true)| >= |h| - |h| / 2
    ensures 0.0 < CohortRank(h) <= 1.0
  {
    var latest, m := h[|h| - 1], MedianTrades(h);
    var busy := latest.trades >= m;
    var ranked := RankedInCohort(m, busy, latest.vpin);
    assert Count(h, ranked) > 0;
    CountMonotone(h, ranked, InCohort(m, busy));
    hide Count, Cohort, CountLe, MedianTrades;
    MedianIsOrderStatistic(h, m);
    CohortCounts(h, m, true, latest.vpin);
    CohortCounts(h, m, busy, latest.vpin);
    ProperFraction(Count(h, ranked), Count(h, InCohort(m, busy)));
  }

  lemma ProperFraction(a: nat, b: nat)
    requires 0 < a <= b
    ensures 0.0 < a as real / b as real <= 1.0
  {
  }

  // ---- What the rank does not depend on

  lemma {:induction false} CountRemove(h: seq<Entry>, k: nat, q: Query)
    requires k < |h|
    ensures Count(h, q) == Count(h[..k] + h[k + 1..], q) + if Matches(h[k], q) then 1 else 0
  {
    var rest := h[..k] + h[k + 1..];
    if k == |h| - 1 {
      assert rest == h[..k];
    } else {
      var front := h[..|h| - 1];
      CountRemove(front, k, q);
      assert rest[..|rest| - 1] == front[..k] + front[k + 1..];
      assert rest[|rest| - 1] == h[|h| - 1];
    }
  }

  lemma SplitMultiset(h: seq<Entry>, k: nat)
    requires k < |h|
    ensures multiset(h) == multiset(h[..k] + h[k + 1..]) + multiset{h[k]}
  {
    assert h == h[..k] + [h[k]] + h[k + 1..];
  }

  /** Taking one occurrence of `e` out of a window. */
  lemma TakeOut(h: seq<Entry>, e: Entry, q: Query) returns (rest: seq<Entry>)
    requires e in h
    ensures multiset(h) == multiset(rest) + multiset{e} && |rest| == |h| - 1
    ensures Count(h, q) == Count(rest, q) + if Matches(e, q) then 1 else 0
  {
    var k :| 0 <= k < |h| && h[k] == e;
    CountRemove(h, k, q);
    SplitMultiset(h, k);
    rest := h[..k] + h[k + 1..];
  }

  lemma {:induction false} CountPermuted(h: seq<Entry>, h': seq<Entry>, q: Query)
    requires multiset(h) == multiset(h')
    ensures Count(h, q) == Count(h', q)
    decreases |h|
  {
    if h == [] {
      assert |h'| == |multiset(h')| == 0;
    } else {
      var e := h[|h| - 1];
      assert e in multiset(h) && e in multiset(h');
      var rest := TakeOut(h, e, q);
      var rest' := TakeOut(h', e, q);
      hide Count;
      assert multiset(rest) == multiset(h) - multiset{e} == multiset(rest');
      CountPermuted(rest, rest', q);
    }
  }

  /** Reordering the older entries of a window leaves the rank unchanged. */
  lemma RankIgnoresOrder(h: seq<Entry>, h': seq<Entry>)
    requires h != [] && multiset(h) == multiset(h') && |h| == |h'| && h[|h| - 1] == h'[|h| - 1]
    ensures CohortRank(h) == CohortRank(h')
  {
    hide Count, Cohort, CountLe, MedianTrades;
    var latest, m := h[|h| - 1], MedianTrades(h);
    var busy := latest.trades >= m;
    MedianIsOrderStatistic(h, m);
    CountPermuted(h, h', Below(m));
    CountPermuted(h, h', UpTo(m));
    MedianIsOrderStatistic(h', m);
    CountPermuted(h, h', InCohort(m, busy));
    CountPermuted(h, h', RankedInCohort(m, busy, latest.vpin));
    CohortCounts(h, m, busy, latest.vpin);
    CohortCounts(h', m, busy, latest.vpin);
  }

  /** The two windows order their VPINs alike and their trade counts alike, as under any strictly
      increasing relabelling of either. */
  ghost predicate SameOrder(h: seq<Entry>, h': seq<Entry>) {
    && |h| == |h'|
    && forall i, j :: 0 <= i < |h| && 0 <= j < |h| ==>
         && (h[i].vpin <= h[j].vpin <==> h'[i].vpin <= h'[j].vpin)
         && (h[i].trades <= h[j].trades <==> h'[i].trades <= h'[j].trades)
  }

  lemma {:induction false} CountAlike(h: seq<Entry>, q: Query, h': seq<Entry>, q': Query)
    requires |h| == |h'|
    requires forall i :: 0 <= i < |h| ==> (Matches(h[i], q) <==> Matches(h'[i], q'))
    ensures Count(h, q) == Count(h', q')
  {
    if h != [] {
      CountAlike(h[..|h| - 1], q, h'[..|h| - 1], q');
    }
  }

  lemma {:induction false} MedianOccurs(h: seq<Entry>, median: nat)
    requires Count(h, Below(median)) < Count(h, UpTo(median))
    ensures exists i :: 0 <= i < |h| && h[i].trades == median
  {
    var front, e := h[..|h| - 1], h[|h| - 1];
    if e.trades != median {
      MedianOccurs(front, median);
      var i :| 0 <= i < |front| && front[i].trades == median;
      assert h[i].trades == median;
    }
  }

  /** A strictly increasing relabelling of VPINs or of intensities leaves the rank unchanged. */
  lemma RankIgnoresScale(h: seq<Entry>, h': seq<Entry>)
    requires h != [] && SameOrder(h, h')
    ensures CohortRank(h) == CohortRank(h')
  {
    hide SortTrades, Cohort, CountLe, Count;
    var n := |h| - 1;
    var m := MedianTrades(h);
    MedianIsOrderStatistic(h, m);
    MedianOccurs(h, m);
    var i :| 0 <= i < |h| && h[i].trades == m;
    var m' := h'[i].trades;
    CountAlike(h, Below(m), h', Below(m'));
    CountAlike(h, UpTo(m), h', UpTo(m'));
    MedianIsOrderStatistic(h', m');
    var busy := h[n].trades >= m;
    CountAlike(h, InCohort(m, busy), h', InCohort(m', busy));
    CountAlike(h, RankedInCohort(m, busy, h[n].vpin), h', RankedInCohort(m', busy, h'[n].vpin));
    CohortCounts(h, m, busy, h[n].vpin);
    CohortCounts(h', m', busy, h'[n].vpin);
  }

  // ---- The value of the rank

  /** Counting is the size of the set of positions that match. */
  lemma {:induction false} CountExactly(h: seq<Entry>, q: Query)
    ensures Count(h, q) == |set i | 0 <= i < |h| && Matches(h[i], q)|
  {
    hide Matches;
    ghost var hits := set i | 0 <= i < |h| && Matches(h[i], q);
    if h == [] {
      assert hits == {};
    } else {
      var front, last := h[..|h| - 1], h[|h| - 1];
      CountExactly(front, q);
      MatchesSnoc(front, last, q);
      assert h == front + [last];
    }
  }

  lemma MatchesSnoc(front: seq<Entry>, last: Entry, q: Query)
    ensures var h := front + [last];
            |set i | 0 <= i < |h| && Matches(h[i], q)|
            == |set i | 0 <= i < |front| && Matches(front[i], q)| + if Matches(last, q) then 1 else 0
  {
    hide Matches;
    var h := front + [last];
    var hits, before := set i | 0 <= i < |h| && Matches(h[i], q), set i | 0 <= i < |front| && Matches(front[i], q);
    if Matches(last, q) {
      assert hits == before + {|front|};
    } else {
      assert hits == before;
    }
  }

  /** The entries on one side of a median. */
  ghost function SideSize(h: seq<Entry>, m: nat, busy: bool): nat {
    |set i | 0 <= i < |h| && (h[i].trades >= m) == busy|
  }

  /** Those of them whose VPIN does not exceed `vpin`. */
  ghost function RankedSize(h: seq<Entry>, m: nat, busy: bool, vpin: real): nat {
    |set i | 0 <= i < |h| && (h[i].trades >= m) == busy && h[i].vpin <= vpin|
  }

  lemma SizesCounted(h: seq<Entry>, m: nat, busy: bool, vpin: real)
    ensures Count(h, InCohort(m, busy)) == SideSize(h, m, busy)
    ensures Count(h, RankedInCohort(m, busy, vpin)) == RankedSize(h, m, busy, vpin)
  {
    CountExactly(h, InCohort(m, busy));
    CountExactly(h, RankedInCohort(m, busy, vpin));
    hide Count;
    assert (set i | 0 <= i < |h| && Matches(h[i], InCohort(m, busy)))
        == (set i | 0 <= i < |h| && (h[i].trades >= m) == busy);
    assert (set i | 0 <= i < |h| && Matches(h[i], RankedInCohort(m, busy, vpin)))
        == (set i | 0 <= i < |h| && (h[i].trades >= m) == busy && h[i].vpin <= vpin);
  }

  /** `share` of `whole` is `part`. */
  ghost predicate IsShare(share: real, part: nat, whole: nat) {
    whole > 0 && share * whole as real == part as real
  }

  /** The rank of a window, for the one upper median it has: times the entries on the newest one's side of the
      median, it is those of them whose VPIN does not exceed the newest one's. */
  lemma CohortRankExactly(h: seq<Entry>, m: nat)
    requires h != [] && IsUpperMedian(h, m)
    ensures var latest := h[|h| - 1];
            var busy := latest.trades >= m;
            IsShare(CohortRank(h), RankedSize(h, m, busy, latest.vpin), SideSize(h, m, busy))
  {
    var latest := h[|h| - 1];
    var busy := latest.trades >= m;
    hide Count, Cohort, CountLe, MedianTrades, IsUpperMedian, SideSize, RankedSize, CohortRank, IsShare;
    MedianIsOrderStatistic(h, m);
    RankTimesCohort(h);
    SizesCounted(h, m, busy, latest.vpin);
    CohortCounts(h, m, busy, latest.vpin);
  }

  lemma RankTimesCohort(h: seq<Entry>)
    requires h != []
    ensures var latest, m := h[|h| - 1], MedianTrades(h);
            var cohort := Cohort(h, m, latest.trades >= m);
            IsShare(CohortRank(h), CountLe(cohort, latest.vpin), |cohort|)
  {
    var latest, m := h[|h| - 1], MedianTrades(h);
    hide Cohort, CountLe, MedianTrades;
    var cohort := Cohort(h, m, latest.trades >= m);
    assert cohort != [];
    QuotientBack(CountLe(cohort, latest.vpin) as real, |cohort| as real);
  }
}
