/** The two numeric functions the estimator takes from outside: the normal CDF and the square root. */
module Numerics {

  /** A standard normal CDF, of which only the range is used. */
  ghost predicate IsCdf(phi: real -> real) {
    forall x :: 0.0 <= phi(x) <= 1.0
  }

  /** A square root, of which only the sign is used. */
  ghost predicate IsRoot(root: real -> real) {
    forall x :: x >= 0.0 ==> root(x) >= 0.0 && (root(x) == 0.0 <==> x == 0.0)
  }

  /** The numeric functions supplied from outside. */
  datatype Maths = Maths(phi: real -> real, root: real -> real) {
    ghost predicate Valid() {
      IsCdf(phi) && IsRoot(root)
    }
  }

  function Abs(x: real): real {
    if x < 0.0 then -x else x
  }

  function Product(x: real, y: real): real {
    x * y
  }

  lemma ProductSign(x: real, y: real)
    requires x >= 0.0 && y >= 0.0
    ensures x * y >= 0.0
  {
  }

  lemma ProductPositive(x: real, y: real)
    requires (x > 0.0 && y > 0.0) || (x < 0.0 && y < 0.0)
    ensures Product(x, y) > 0.0
  {
  }

  lemma ProductSum(a: real, x: real, y: real)
    ensures Product(a, x + y) == Product(a, x) + Product(a, y)
  {
  }

  lemma SquareSign(d: real)
    ensures if d == 0.0 then Product(d, d) == 0.0 else Product(d, d) > 0.0
  {
    if d != 0.0 {
      ProductPositive(d, d);
    }
  }
}

/** Fixed-capacity windows over a growing history: the rolling deviation and the empirical rank. */
module RollingWindows {
  import opened Wrappers
  import opened VpinErrors
  import opened RealSeqs
  import opened Numerics

  function Mean(s: seq<real>): real
    requires s != []
  {
    Sum(s) / |s| as real
  }

  function SumOfSquares(s: seq<real>, center: real): real {
    if s == [] then 0.0
    else SumOfSquares(s[..|s| - 1], center) + Product(s[|s| - 1] - center, s[|s| - 1] - center)
  }

  function SampleVariance(s: seq<real>): real
    requires |s| >= 2
  {
    SumOfSquares(s, Mean(s)) / (|s| - 1) as real
  }

  ghost predicate AllEqual(s: seq<real>) {
    forall i, j :: 0 <= i < |s| && 0 <= j < |s| ==> s[i] == s[j]
  }

  /** Sigma after a history of price changes: none before the window fills, then the sample deviation of
      the last `window` of them. */
  function SigmaOf(deltas: seq<real>, window: nat, root: real -> real): Option<real>
    requires window >= 2
  {
    if |deltas| < window then None else Some(root(SampleVariance(LastN(deltas, window))))
  }

  lemma QuotientBack(x: real, n: real)
    requires n != 0.0
    ensures (x / n) * n == x
  {
  }

  /** The mean times the count is the sum. */
  lemma MeanExactly(s: seq<real>)
    requires s != []
    ensures Mean(s) * |s| as real == Sum(s)
  {
    QuotientBack(Sum(s), |s| as real);
    hide Sum;
  }

  lemma SquareShift(y: real, x: real, c: real)
    ensures Product(y - x, y - x) == Product(y - c, y - c) + 2.0 * Product(c - x, y - c) + Product(c - x, c - x)
  {
  }

  lemma GrowSum(a: real, sum: real, n: real, c: real, y: real)
    ensures Product(a, (sum + y) - Product(n + 1.0, c)) == Product(a, sum - Product(n, c)) + Product(a, y - c)
  {
    ProductSum(a, sum - Product(n, c), y - c);
    assert Product(n + 1.0, c) == Product(n, c) + c;
    hide Product;
  }

  lemma GrowCount(n: real, x: real)
    ensures Product(n + 1.0, x) == Product(n, x) + x
  {
  }

  /** Squared distances to `x`, by way of any other centre `c`. */
  lemma {:induction false} ParallelAxis(s: seq<real>, x: real, c: real)
    ensures SumOfSquares(s, x)
         == SumOfSquares(s, c) + 2.0 * Product(c - x, Sum(s) - Product(|s| as real, c))
            + Product(|s| as real, Product(c - x, c - x))
  {
    if s == [] {
      assert Product(0.0, c) == 0.0 && Product(0.0, Product(c - x, c - x)) == 0.0 && Product(c - x, 0.0) == 0.0;
    } else {
      var front, y := s[..|s| - 1], s[|s| - 1];
      hide Product;
      ParallelAxis(front, x, c);
      SquareShift(y, x, c);
      GrowSum(c - x, Sum(front), |front| as real, c, y);
      GrowCount(|front| as real, Product(c - x, c - x));
    }
  }

  /** The squared differences of every element of `s` to every element of `t`, added up. */
  function PairDistances(s: seq<real>, t: seq<real>): real {
    if t == [] then 0.0 else PairDistances(s, t[..|t| - 1]) + SumOfSquares(s, t[|t| - 1])
  }

  lemma Nothing(a: real, b: real)
    ensures Product(0.0, a) == 0.0 == Product(b, 0.0)
  {
  }

  lemma DistancesToPoint(s: seq<real>, x: real)
    requires s != []
    ensures SumOfSquares(s, x)
         == SumOfSquares(s, Mean(s)) + Product(|s| as real, Product(x - Mean(s), x - Mean(s)))
  {
    hide Product, Mean, Sum, SumOfSquares;
    var n, c := |s| as real, Mean(s);
    MeanExactly(s);
    ParallelAxis(s, x, c);
    AtTheMean(n, c, Sum(s), x);
  }

  lemma AtTheMean(n: real, c: real, sum: real, x: real)
    requires c * n == sum
    ensures Product(c - x, sum - Product(n, c)) == 0.0 && Product(c - x, c - x) == Product(x - c, x - c)
  {
    assert sum - Product(n, c) == 0.0;
  }

  lemma {:induction false} PairsByMean(s: seq<real>, t: seq<real>)
    requires s != []
    ensures PairDistances(s, t)
         == Product(|t| as real, SumOfSquares(s, Mean(s))) + Product(|s| as real, SumOfSquares(t, Mean(s)))
  {
    var n, c := |s| as real, Mean(s);
    hide Mean, Product;
    Nothing(SumOfSquares(s, c), n);
    if t != [] {
      var front, x := t[..|t| - 1], t[|t| - 1];
      PairsByMean(s, front);
      DistancesToPoint(s, x);
      GrowCount(|front| as real, SumOfSquares(s, c));
      ProductSum(n, SumOfSquares(front, c), Product(x - c, x - c));
    }
  }

  /** Twice n (n - 1) times the sample variance is the sum of squared differences over all ordered pairs. */
  lemma VarianceByPairs(s: seq<real>)
    requires |s| >= 2
    ensures 2.0 * |s| as real * (|s| - 1) as real * SampleVariance(s) == PairDistances(s, s)
  {
    hide SumOfSquares, PairDistances, Mean, Product;
    PairsByMean(s, s);
    var less, ss := (|s| - 1) as real, SumOfSquares(s, Mean(s));
    QuotientBack(ss, less);
    hide SampleVariance;
    TwiceOver(|s| as real, less, SampleVariance(s), ss);
  }

  lemma TwiceOver(n: real, less: real, variance: real, ss: real)
    requires variance * less == ss
    ensures 2.0 * n * less * variance == Product(n, ss) + Product(n, ss)
  {
    assert 2.0 * n * less * variance == 2.0 * n * (variance * less);
  }

  /** Nothing for no `t`; one more element adds its squared differences to all of `s`. */
  lemma PairsSnoc(s: seq<real>, t: seq<real>, x: real, c: real)
    ensures PairDistances(s, []) == 0.0
    ensures PairDistances(s, t + [x]) == PairDistances(s, t) + SumOfSquares(s, x)
    ensures SumOfSquares([], c) == 0.0
    ensures SumOfSquares(t + [x], c) == SumOfSquares(t, c) + (x - c) * (x - c)
  {
    assert (t + [x])[..|t|] == t;
  }

  lemma {:induction false} SumOfSquaresSign(s: seq<real>, center: real)
    ensures SumOfSquares(s, center) >= 0.0
    ensures SumOfSquares(s, center) == 0.0 <==> forall i :: 0 <= i < |s| ==> s[i] == center
  {
    if s != [] {
      hide Product;
      var front := s[..|s| - 1];
      SumOfSquaresSign(front, center);
      SquareSign(s[|s| - 1] - center);
      assert (forall i :: 0 <= i < |s| ==> s[i] == center)
          <==> (forall i :: 0 <= i < |front| ==> front[i] == center) && s[|s| - 1] == center;
    }
  }

  lemma {:induction false} SumOfConstant(s: seq<real>, c: real)
    requires forall i :: 0 <= i < |s| ==> s[i] == c
    ensures Sum(s) == |s| as real * c
  {
    if s != [] {
      SumOfConstant(s[..|s| - 1], c);
    }
  }

  /** The sample variance is never negative, and zero exactly for a window of equal values. */
  lemma VarianceZeroIffConstant(s: seq<real>)
    requires |s| >= 2
    ensures SampleVariance(s) >= 0.0
    ensures SampleVariance(s) == 0.0 <==> AllEqual(s)
  {
    var m := Mean(s);
    SumOfSquaresSign(s, m);
    var q, n := SumOfSquares(s, m), (|s| - 1) as real;
    assert q / n >= 0.0 && (q / n == 0.0 <==> q == 0.0);
    if AllEqual(s) {
      SumOfConstant(s, s[0]);
      assert m == s[0];
    }
  }

  class RollingSigma {
    const window: nat
    const root: real -> real
    var buf: seq<real>
    var current: Option<real>
    ghost var history: seq<real>

    ghost predicate Valid()
      reads this
    {
      && window >= 2
      && buf == LastN(history, window)
      && current == SigmaOf(history, window, root)
    }

    constructor (window: nat, root: real -> real)
      requires window >= 2
      ensures Valid() && history == [] && this.window == window && this.root == root
    {
      this.window, this.root := window, root;
      buf, current, history := [], None, [];
    }

    static method New(window: nat, root: real -> real) returns (r: Result<RollingSigma, VpinError>)
      ensures r.Ok? <==> window >= 2
      ensures r.Ok? ==> fresh(r.value) && r.value.Valid() && r.value.history == []
                        && r.value.window == window && r.value.root == root
      ensures r.Err? ==> r.error == InvalidWindow(window, 2)
    {
      if window < 2 {
        return Err(InvalidWindow(window, 2));
      }
      var s := new RollingSigma(window, root);
      return Ok(s);
    }

    method Push(deltaP: real) returns (sigma: Option<real>)
      requires Valid()
      modifies this
      ensures Valid() && history == old(history) + [deltaP]
      ensures sigma == current == SigmaOf(history, window, root)
    {
      hide SampleVariance;
      LastNSnoc(history, window, deltaP);
      history := history + [deltaP];
      if |buf| == window {
        buf := buf[1..];
      }
      buf := buf + [deltaP];
      if |buf| < window {
        current := None;
      } else {
        current := Some(root(SampleVariance(buf)));
      }
      sigma := current;
    }
  }

  function CountLe(s: seq<real>, x: real): (n: nat)
    ensures n <= |s|
  {
    if s == [] then 0 else CountLe(s[..|s| - 1], x) + if s[|s| - 1] <= x then 1 else 0
  }

  /** Rank of the newest value among the last `window` values of a history, itself included. */
  function RankOf(values: seq<real>, window: nat): Option<real>
    requires window >= 1
  {
    if |values| < window then None
    else Some(CountLe(LastN(values, window), values[|values| - 1]) as real / window as real)
  }

  lemma {:induction false} CountLeFrom(s: seq<real>, from: nat, x: real)
    requires from <= |s|
    ensures CountLe(s[from..], x) == |set i | from <= i < |s| && s[i] <= x|
    decreases |s| - from
  {
    var hits := set i | from <= i < |s| && s[i] <= x;
    if from == |s| {
      assert hits == {};
    } else {
      var front, last := s[..|s| - 1], s[|s| - 1];
      CountLeFrom(front, from, x);
      var before := set i | from <= i < |front| && front[i] <= x;
      assert s[from..][..|s| - from - 1] == front[from..];
      assert hits == before + if last <= x then {|s| - 1} else {};
    }
  }

  lemma QuotientIs(r: real, k: real, n: real)
    requires n > 0.0
    ensures r == k / n <==> r * n == k
  {
  }

  /** A rank is the share of the last `window` values that do not exceed the newest, itself included; there is
      one iff there are that many values. */
  lemma RankExactly(values: seq<real>, window: nat, r: real)
    requires window >= 1
    ensures RankOf(values, window) == Some(r) <==>
              && |values| >= window
              && r * window as real
                 == |set i | |values| - window <= i < |values| && values[i] <= values[|values| - 1]| as real
  {
    if |values| >= window {
      var from := |values| - window;
      CountLeFrom(values, from, values[|values| - 1]);
      hide CountLe;
      assert LastN(values, window) == values[from..];
      QuotientIs(r, CountLe(LastN(values, window), values[|values| - 1]) as real, window as real);
    }
  }

  /** `rank` is the share of the last `window` values that do not exceed the newest, there being so many. */
  ghost predicate IsRank(values: seq<real>, window: nat, rank: Option<real>)
    requires window >= 1
  {
    && (rank.Some? <==> |values| >= window)
    && (rank.Some? ==>
          rank.value * window as real
          == |set i | |values| - window <= i < |values| && values[i] <= values[|values| - 1]| as real)
  }

  lemma RankInFull(values: seq<real>, window: nat)
    requires window >= 1
    ensures IsRank(values, window, RankOf(values, window))
  {
    if RankOf(values, window).Some? {
      RankExactly(values, window, RankOf(values, window).value);
    }
    hide CountLe, LastN;
  }

  /** A rank is a positive fraction, at most one: the newest value always counts itself. */
  lemma RankRange(values: seq<real>, window: nat)
    requires window >= 1
    ensures RankOf(values, window).Some? ==> 0.0 < RankOf(values, window).value <= 1.0
  {
    if |values| >= window {
      var recent := LastN(values, window);
      assert recent[|recent| - 1] == values[|values| - 1];
    }
  }

  class EmpiricalCdf {
    const window: nat
    var buf: seq<real>
    ghost var history: seq<real>

    ghost predicate Valid()
      reads this
    {
      window >= 2 && buf == LastN(history, window)
    }

    constructor (window: nat)
      requires window >= 2
      ensures Valid() && history == [] && this.window == window
    {
      this.window := window;
      buf, history := [], [];
    }

    static method New(window: nat) returns (r: Result<EmpiricalCdf, VpinError>)
      ensures r.Ok? <==> window >= 2
      ensures r.Ok? ==> fresh(r.value) && r.value.Valid() && r.value.history == [] && r.value.window == window
      ensures r.Err? ==> r.error == InvalidWindow(window, 2)
    {
      if window < 2 {
        return Err(InvalidWindow(window, 2));
      }
      var c := new EmpiricalCdf(window);
      return Ok(c);
    }

    method Push(value: real) returns (rank: Option<real>)
      requires Valid()
      modifies this
      ensures Valid() && history == old(history) + [value]
      ensures rank == RankOf(history, window) && IsRank(history, window, rank)
    {
      hide IsRank;
      LastNSnoc(history, window, value);
      history := history + [value];
      if |buf| == window {
        buf := buf[1..];
      }
      buf := buf + [value];
      RankInFull(history, window);
      hide CountLe, LastN;
      if |buf| < window {
        return None;
      }
      rank := Some(CountLe(buf, value) as real / window as real);
    }
  }
}
