/** The calibration sweep: every combination of a grid, and each row's accuracy held against the best. */
module Sweep {
  import opened Wrappers
  import opened VpinErrors
  import opened Numerics
  import opened RollingWindows
  import opened VolumeClock
  import opened VpinBatch
  import opened VpinEngine
  import opened VpinProperties
  import opened Bootstrap
  import opened Judging
  import opened ReadingValues
  import opened Calibration

  datatype Row = Row(bucketVolume: real, sigmaWindow: nat, vpinWindow: nat, stats: Result<Stats, VpinError>)

  /** What a sweep holds fixed. */
  datatype Setting = Setting(tape: seq<MarkedTrade>, cdfWindow: Option<nat>, maths: Maths)

  function Config(bv: real, sw: nat, vw: nat, cdfWindow: Option<nat>): EngineConfig {
    EngineConfig(bv, sw, vw, cdfWindow, None)
  }

  /** One row: the judging pass reports its errors first. */
  function RowOf(bv: real, sw: nat, vw: nat, s: Setting): Row {
    var cfg := Config(bv, sw, vw, s.cdfWindow);
    Row(bv, sw, vw,
        match BvcResult(s.tape, bv, sw, s.maths)
        case Err(e) => Err(e)
        case Ok(bvc) =>
          if cfg.Valid() then Ok(StatsFrom(TapeReadings(Unmarked(s.tape), cfg, s.maths), cfg, bvc, s.maths))
          else Err(ConfigError(cfg)))
  }

  function RowsOfWindows(bv: real, sw: nat, vws: seq<nat>, s: Setting): seq<Row> {
    if vws == [] then [] else RowsOfWindows(bv, sw, vws[..|vws| - 1], s) + [RowOf(bv, sw, Last(vws), s)]
  }

  function RowsOfVolume(bv: real, sws: seq<nat>, vws: seq<nat>, s: Setting): seq<Row> {
    if sws == [] then [] else RowsOfVolume(bv, sws[..|sws| - 1], vws, s) + RowsOfWindows(bv, Last(sws), vws, s)
  }

  function Grid(bvs: seq<real>, sws: seq<nat>, vws: seq<nat>, s: Setting): seq<Row> {
    if bvs == [] then [] else Grid(bvs[..|bvs| - 1], sws, vws, s) + RowsOfVolume(Last(bvs), sws, vws, s)
  }

  // ---- The grid has every combination once, in order

  lemma {:induction false} WindowsInOrder(bv: real, sw: nat, vws: seq<nat>, s: Setting)
    ensures |RowsOfWindows(bv, sw, vws, s)| == |vws|
    ensures forall c :: 0 <= c < |vws| ==> RowsOfWindows(bv, sw, vws, s)[c] == RowOf(bv, sw, vws[c], s)
  {
    if vws != [] {
      WindowsInOrder(bv, sw, vws[..|vws| - 1], s);
      hide RowOf;
    }
  }

  /** Size of a table, and position of a cell in it. */
  function Area(rows: nat, width: nat): nat {
    rows * width
  }

  function Cell(row: nat, width: nat, column: nat): nat {
    Area(row, width) + column
  }

  lemma AreaGrows(rows: nat, width: nat)
    ensures Area(0, width) == 0 && Area(rows + 1, width) == Area(rows, width) + width
  {
  }

  lemma CellFits(row: nat, rows: nat, width: nat, column: nat)
    requires row < rows && column < width
    ensures Cell(row, width, column) < Area(rows, width)
  {
    assert (row + 1) * width <= rows * width;
  }

  lemma {:induction false} VolumeSize(bv: real, sws: seq<nat>, vws: seq<nat>, s: Setting)
    ensures |RowsOfVolume(bv, sws, vws, s)| == Area(|sws|, |vws|)
  {
    hide Area, RowOf, RowsOfWindows;
    AreaGrows(if sws == [] then 0 else |sws| - 1, |vws|);
    if sws != [] {
      VolumeSize(bv, sws[..|sws| - 1], vws, s);
      WindowsInOrder(bv, Last(sws), vws, s);
    }
  }

  lemma {:induction false} VolumeInOrder(bv: real, sws: seq<nat>, vws: seq<nat>, s: Setting, b: nat, c: nat)
    requires b < |sws| && c < |vws|
    ensures |RowsOfVolume(bv, sws, vws, s)| == Area(|sws|, |vws|)
    ensures Cell(b, |vws|, c) < Area(|sws|, |vws|)
    ensures RowsOfVolume(bv, sws, vws, s)[Cell(b, |vws|, c)] == RowOf(bv, sws[b], vws[c], s)
    decreases |sws|
  {
    hide Area, RowOf, RowsOfWindows;
    var front := sws[..|sws| - 1];
    VolumeSize(bv, front, vws, s);
    VolumeSize(bv, sws, vws, s);
    CellFits(b, |sws|, |vws|, c);
    WindowsInOrder(bv, Last(sws), vws, s);
    if b < |sws| - 1 {
      VolumeInOrder(bv, front, vws, s, b, c);
    }
  }

  lemma {:induction false} GridSize(bvs: seq<real>, sws: seq<nat>, vws: seq<nat>, s: Setting)
    ensures |Grid(bvs, sws, vws, s)| == Area(|bvs|, Area(|sws|, |vws|))
  {
    hide Area, RowOf, RowsOfVolume;
    AreaGrows(if bvs == [] then 0 else |bvs| - 1, Area(|sws|, |vws|));
    if bvs != [] {
      GridSize(bvs[..|bvs| - 1], sws, vws, s);
      VolumeSize(Last(bvs), sws, vws, s);
    }
  }

  /** The row of every combination, at its place in the nested order. */
  lemma {:induction false} GridInOrder(
    bvs: seq<real>, sws: seq<nat>, vws: seq<nat>, s: Setting, a: nat, b: nat, c: nat)
    requires a < |bvs| && b < |sws| && c < |vws|
    ensures |Grid(bvs, sws, vws, s)| == Area(|bvs|, Area(|sws|, |vws|))
    ensures Cell(a, Area(|sws|, |vws|), Cell(b, |vws|, c)) < |Grid(bvs, sws, vws, s)|
    ensures Grid(bvs, sws, vws, s)[Cell(a, Area(|sws|, |vws|), Cell(b, |vws|, c))] == RowOf(bvs[a], sws[b], vws[c], s)
    decreases |bvs|
  {
    hide Area, RowOf, RowsOfVolume;
    var front, width := bvs[..|bvs| - 1], Area(|sws|, |vws|);
    GridSize(bvs, sws, vws, s);
    GridSize(front, sws, vws, s);
    VolumeInOrder(Last(bvs), sws, vws, s, b, c);
    CellFits(a, |bvs|, width, Cell(b, |vws|, c));
    if a < |bvs| - 1 {
      GridInOrder(front, sws, vws, s, a, b, c);
    }
  }

  lemma {:induction false} CellOf(x: nat, rows: nat, width: nat) returns (row: nat, column: nat)
    requires x < Area(rows, width)
    ensures row < rows && column < width && x == Cell(row, width, column)
  {
    hide Area;
    if rows == 0 {
      AreaGrows(0, width);
      assert false;
    } else {
      AreaGrows(rows - 1, width);
      if x < Area(rows - 1, width) {
        row, column := CellOf(x, rows - 1, width);
      } else {
        row, column := rows - 1, x - Area(rows - 1, width);
      }
    }
  }

  /** There are no other rows: every row of the grid is that of some combination, at its place. */
  lemma GridHasNoOthers(bvs: seq<real>, sws: seq<nat>, vws: seq<nat>, s: Setting, x: nat)
    returns (a: nat, b: nat, c: nat)
    requires x < |Grid(bvs, sws, vws, s)|
    ensures a < |bvs| && b < |sws| && c < |vws| && x == Cell(a, Area(|sws|, |vws|), Cell(b, |vws|, c))
    ensures Grid(bvs, sws, vws, s)[x] == RowOf(bvs[a], sws[b], vws[c], s)
  {
    GridSize(bvs, sws, vws, s);
    hide Area, Cell, Grid, RowOf;
    var inner;
    a, inner := CellOf(x, |bvs|, Area(|sws|, |vws|));
    b, c := CellOf(inner, |sws|, |vws|);
    GridInOrder(bvs, sws, vws, s, a, b, c);
  }

  /** A row fails iff its configuration is invalid. Only when the judging pass accepts its two parameters
      does the row report the estimator's own verdict. */
  lemma RowFailsExactly(bv: real, sw: nat, vw: nat, s: Setting)
    ensures var cfg, stats := Config(bv, sw, vw, s.cdfWindow), RowOf(bv, sw, vw, s).stats;
            && (stats.Err? <==> !cfg.Valid())
            && (stats.Err? && !(bv > 0.0) ==> stats.error == InvalidBucketVolume(bv))
            && (stats.Err? && bv > 0.0 && sw < 2 ==> stats.error == InvalidWindow(sw, 2))
            && (stats.Err? && bv > 0.0 && sw >= 2 ==> stats.error == ConfigError(cfg))
  {
    hide StatsFrom, TapeReadings, Tally, TapeJudged;
  }

  /** A row carries its combination, and its statistics describe the tape under it, with the tally of the tape's
      judgements. */
  lemma RowExactly(bv: real, sw: nat, vw: nat, s: Setting)
    ensures var row, cfg := RowOf(bv, sw, vw, s), EngineConfig(bv, sw, vw, s.cdfWindow, None);
            && row.bucketVolume == bv && row.sigmaWindow == sw && row.vpinWindow == vw
            && (row.stats.Ok? <==> cfg.Valid())
            && (row.stats.Ok? ==>
                  var bvc := Tally(TapeJudged(s.tape, bv, sw, s.maths));
                  Describes(row.stats.value, Unmarked(s.tape), cfg, bvc, s.maths))
  {
    var cfg := EngineConfig(bv, sw, vw, s.cdfWindow, None);
    hide TapeReadings, Tally, TapeJudged, StatsFrom, Unmarked, Describes;
    if cfg.Valid() {
      StatsExactly(Unmarked(s.tape), cfg, Tally(TapeJudged(s.tape, bv, sw, s.maths)), s.maths);
    }
  }

  /** Rows that differ in the VPIN window only share their accuracy, and their reading counts follow from
      the number of compared buckets. */
  lemma RowsInStep(bv: real, sw: nat, vw: nat, vw': nat, s: Setting)
    requires Config(bv, sw, vw, s.cdfWindow).Valid() && vw' >= 1
    ensures var r, r' := RowOf(bv, sw, vw, s).stats, RowOf(bv, sw, vw', s).stats;
            && r.Ok? && r'.Ok? && r.value.bvc == r'.value.bvc && r.value.totalBuckets == r'.value.totalBuckets
            && r.value.nonWarmupReadings == Excess(r.value.bvc.compared + 1, vw)
            && r'.value.nonWarmupReadings == Excess(r'.value.bvc.compared + 1, vw')
  {
    var cfg, cfg' := Config(bv, sw, vw, s.cdfWindow), Config(bv, sw, vw', s.cdfWindow);
    Lockstep(s.tape, cfg, s.maths);
    Lockstep(s.tape, cfg', s.maths);
    hide TapeReadings, TapeJudged, TapeClassified, VpinsIn, ClosesIn, Summarize, MeanIntervalMs, Slots, SameCall,
         CountRight, Errors, Unmarked, Buckets;
  }

  // ---- The best row

  function AccuracyOf(row: Row): Option<real> {
    if row.stats.Ok? then row.stats.value.bvc.accuracy else None
  }

  /** The last of the rows with the greatest accuracy. */
  function Best(rows: seq<Row>): (best: Option<nat>)
    ensures best.Some? ==> best.value < |rows| && AccuracyOf(rows[best.value]).Some?
  {
    if rows == [] then None
    else
      var best := Best(rows[..|rows| - 1]);
      var accuracy := AccuracyOf(Last(rows));
      if accuracy.Some? && (best.None? || AccuracyOf(rows[best.value]).value <= accuracy.value) then Some(|rows| - 1)
      else best
  }

  ghost predicate IsLastMaximum(rows: seq<Row>, i: nat) {
    && i < |rows| && AccuracyOf(rows[i]).Some?
    && forall j :: 0 <= j < |rows| && AccuracyOf(rows[j]).Some? ==>
         var (a, b) := (AccuracyOf(rows[j]).value, AccuracyOf(rows[i]).value);
         a <= b && (j > i ==> a < b)
  }

  lemma {:induction false} BestIsLastMaximum(rows: seq<Row>, i: nat)
    ensures Best(rows) == Some(i) <==> IsLastMaximum(rows, i)
    ensures Best(rows) == None <==> forall j :: 0 <= j < |rows| ==> AccuracyOf(rows[j]).None?
    decreases |rows|
  {
    BestExists(rows);
    if IsLastMaximum(rows, i) {
      assert AccuracyOf(rows[i]).Some?;
    }
  }

  lemma {:induction false} BestExists(rows: seq<Row>)
    ensures Best(rows).Some? ==> IsLastMaximum(rows, Best(rows).value)
    ensures Best(rows).None? ==> forall j :: 0 <= j < |rows| ==> AccuracyOf(rows[j]).None?
  {
    if rows != [] {
      BestExists(rows[..|rows| - 1]);
      hide AccuracyOf;
    }
  }

  // ---- Is the difference noise

  const MIN_COMPARED: nat := 30

  function StandardError(p1: real, n1: nat, p2: real, n2: nat, m: Maths): real
    requires n1 > 0 && n2 > 0
  {
    m.root(Product(p1, 1.0 - p1) / n1 as real + Product(p2, 1.0 - p2) / n2 as real)
  }

  function TwoProportionPValue(p1: Option<real>, n1: nat, p2: Option<real>, n2: nat, m: Maths): Option<real> {
    if n1 < MIN_COMPARED || n2 < MIN_COMPARED || p1.None? || p2.None? then None
    else
      var se := StandardError(p1.value, n1, p2.value, n2, m);
      if se == 0.0 then Some(1.0)
      else
        var z := (p1.value - p2.value) / se;
        Some(2.0 * (1.0 - m.phi(Abs(z))))
  }

  lemma GapOverError(p1: real, p2: real, se: real, z: real)
    requires se > 0.0 && z * se == Abs(p1 - p2)
    ensures Abs((p1 - p2) / se) == z
  {
    var q := (p1 - p2) / se;
    assert q * se == p1 - p2;
    if p1 >= p2 {
      assert (q - z) * se == 0.0;
    } else {
      assert (q + z) * se == 0.0;
    }
    assert q == z || q == -z;
    if z < 0.0 {
      ProductPositive(-z, se);
    }
  }

  /** There is no p-value with fewer than 30 compared buckets on either side, or without an accuracy. Otherwise
      it is 1 without an error, else twice the normal tail beyond the gap counted in standard errors. */
  lemma PValueExactly(p1: Option<real>, n1: nat, p2: Option<real>, n2: nat, m: Maths, z: real)
    requires IsRoot(m.root)
    ensures var p := TwoProportionPValue(p1, n1, p2, n2, m);
            && (p.Some? <==> n1 >= 30 && n2 >= 30 && p1.Some? && p2.Some?)
            && (p.Some? ==>
                  var se := StandardError(p1.value, n1, p2.value, n2, m);
                  && (se == 0.0 ==> p.value == 1.0)
                  && (se > 0.0 && z * se == Abs(p1.value - p2.value) ==> p.value == 2.0 * (1.0 - m.phi(z))))
  {
    if n1 >= 30 && n2 >= 30 && p1.Some? && p2.Some? {
      var se := StandardError(p1.value, n1, p2.value, n2, m);
      hide StandardError;
      if se > 0.0 && z * se == Abs(p1.value - p2.value) {
        GapOverError(p1.value, p2.value, se, z);
      }
    }
  }

  /** The squared standard error is the sum of the two sampling variances. */
  lemma StandardErrorExactly(p1: real, n1: nat, p2: real, n2: nat, m: Maths)
    requires n1 > 0 && n2 > 0
    ensures StandardError(p1, n1, p2, n2, m)
         == m.root(p1 * (1.0 - p1) / n1 as real + p2 * (1.0 - p2) / n2 as real)
  {
  }

  /** Equal accuracies have p-value 1, if half of the normal mass is below zero. */
  lemma EqualAccuraciesAlike(p: real, n1: nat, n2: nat, m: Maths)
    requires n1 >= 30 && n2 >= 30 && IsRoot(m.root) && m.phi(0.0) == 0.5
    ensures 0.0 <= p <= 1.0 ==> TwoProportionPValue(Some(p), n1, Some(p), n2, m) == Some(1.0)
  {
    if 0.0 <= p <= 1.0 {
      PValueExactly(Some(p), n1, Some(p), n2, m, 0.0);
      ErrorSign(p, n1, p, n2, m);
    }
  }

  lemma ErrorSign(p1: real, n1: nat, p2: real, n2: nat, m: Maths)
    requires n1 > 0 && n2 > 0 && IsRoot(m.root) && 0.0 <= p1 <= 1.0 && 0.0 <= p2 <= 1.0
    ensures StandardError(p1, n1, p2, n2, m) >= 0.0
  {
    SpreadSign(p1, n1 as real);
    SpreadSign(p2, n2 as real);
    hide Product;
  }

  /** The further apart in standard errors, the smaller the p-value, if Phi is monotone. */
  lemma WiderGapSmallerP(
    p1: real, n1: nat, p2: real, n2: nat, q1: real, k1: nat, q2: real, k2: nat, y: real, z: real, m: Maths)
    requires n1 >= 30 && n2 >= 30 && k1 >= 30 && k2 >= 30 && IsRoot(m.root) && y <= z
    requires forall a, b :: a <= b ==> m.phi(a) <= m.phi(b)
    requires var se := StandardError(p1, n1, p2, n2, m); se > 0.0 && y * se == Abs(p1 - p2)
    requires var se := StandardError(q1, k1, q2, k2, m); se > 0.0 && z * se == Abs(q1 - q2)
    ensures var p := TwoProportionPValue(Some(p1), n1, Some(p2), n2, m);
            var q := TwoProportionPValue(Some(q1), k1, Some(q2), k2, m);
            p.Some? && q.Some? && q.value <= p.value
  {
    PValueExactly(Some(p1), n1, Some(p2), n2, m, y);
    PValueExactly(Some(q1), k1, Some(q2), k2, m, z);
    hide StandardError, TwoProportionPValue;
  }

  predicate IsExtreme(p: real) {
    p == 0.0 || p == 1.0
  }

  lemma SpreadSign(p: real, n: real)
    requires 0.0 <= p <= 1.0 && n > 0.0
    ensures Product(p, 1.0 - p) / n >= 0.0
    ensures Product(p, 1.0 - p) / n == 0.0 <==> IsExtreme(p)
  {
    var x := Product(p, 1.0 - p);
    if 0.0 < p < 1.0 {
      ProductPositive(p, 1.0 - p);
    }
    assert x >= 0.0 && (x == 0.0 <==> IsExtreme(p));
    hide Product;
    assert x / n >= 0.0 && (x / n == 0.0 <==> x == 0.0);
  }

  /** The standard error vanishes iff both accuracies are 0 or 1. So the branch meant for equal accuracies
      also takes 0 against 1, and calls the two extremes indistinguishable; that is the only unequal pair
      it takes. */
  lemma NoErrorExactly(p1: real, n1: nat, p2: real, n2: nat, m: Maths)
    requires 0.0 <= p1 <= 1.0 && 0.0 <= p2 <= 1.0 && n1 >= MIN_COMPARED && n2 >= MIN_COMPARED && IsRoot(m.root)
    ensures StandardError(p1, n1, p2, n2, m) == 0.0 <==> IsExtreme(p1) && IsExtreme(p2)
    ensures StandardError(p1, n1, p2, n2, m) == 0.0 && p1 != p2 <==> {p1, p2} == {0.0, 1.0}
    ensures {p1, p2} == {0.0, 1.0} ==> TwoProportionPValue(Some(p1), n1, Some(p2), n2, m) == Some(1.0)
  {
    SpreadSign(p1, n1 as real);
    SpreadSign(p2, n2 as real);
    hide Product;
    assert {p1, p2} == {0.0, 1.0} <==> IsExtreme(p1) && IsExtreme(p2) && p1 != p2 by {
      if {p1, p2} == {0.0, 1.0} {
        assert p1 in {0.0, 1.0} && p2 in {0.0, 1.0};
        assert 0.0 in {p1, p2} && 1.0 in {p1, p2};
      }
    }
  }

  // ---- The sweep

  function Compared(row: Row, best: Row, m: Maths): Row
    requires best.stats.Ok?
  {
    if row.stats.Err? then row
    else
      var mine, theirs := row.stats.value.bvc, best.stats.value.bvc;
      var p := TwoProportionPValue(mine.accuracy, mine.compared, theirs.accuracy, theirs.compared, m);
      row.(stats := Ok(row.stats.value.(pValue := p)))
  }

  /** Comparing touches the p-value only, and only of a row that has statistics. */
  lemma ComparedExactly(row: Row, best: Row, m: Maths)
    requires best.stats.Ok?
    ensures var r := Compared(row, best, m);
            && r.bucketVolume == row.bucketVolume && r.sigmaWindow == row.sigmaWindow && r.vpinWindow == row.vpinWindow
            && (row.stats.Err? ==> r.stats == row.stats)
            && (row.stats.Ok? ==>
                  var mine, theirs := row.stats.value.bvc, best.stats.value.bvc;
                  && r.stats.Ok? && r.stats.value == row.stats.value.(pValue := r.stats.value.pValue)
                  && r.stats.value.pValue
                     == TwoProportionPValue(mine.accuracy, mine.compared, theirs.accuracy, theirs.compared, m))
  {
    hide TwoProportionPValue;
  }

  /** Every row but the best is compared with the best; without a best, none is. */
  predicate ComparedWithBest(rows: seq<Row>, out: seq<Row>, m: Maths) {
    && |out| == |rows|
    && var best := Best(rows);
       forall i :: 0 <= i < |rows| ==>
         out[i] == if best.None? || i == best.value then rows[i] else Compared(rows[i], rows[best.value], m)
  }

  method RunSweep(bvs: seq<real>, sws: seq<nat>, vws: seq<nat>, s: Setting) returns (out: seq<Row>)
    ensures ComparedWithBest(Grid(bvs, sws, vws, s), out, s.maths)
  {
    var rows := FillGrid(bvs, sws, vws, s);
    out := rows;
    var best := Best(rows);
    if best.Some? {
      hide Grid, Best, TwoProportionPValue;
      var i := 0;
      while i < |out|
        invariant 0 <= i <= |out| == |rows|
        invariant forall k :: 0 <= k < i ==>
                    out[k] == if k == best.value then rows[k] else Compared(rows[k], rows[best.value], s.maths)
        invariant forall k :: i <= k < |rows| ==> out[k] == rows[k]
      {
        if i != best.value {
          out := out[i := Compared(out[i], rows[best.value], s.maths)];
        }
        i := i + 1;
      }
    }
  }

  method FillGrid(bvs: seq<real>, sws: seq<nat>, vws: seq<nat>, s: Setting) returns (out: seq<Row>)
    ensures out == Grid(bvs, sws, vws, s)
  {
    hide RowsOfVolume;
    out := [];
    for i := 0 to |bvs|
      invariant out == Grid(bvs[..i], sws, vws, s)
    {
      var more := FillVolume(bvs[i], sws, vws, s);
      assert bvs[..i + 1][..i] == bvs[..i];
      out := out + more;
    }
    assert bvs[..|bvs|] == bvs;
  }

  method FillVolume(bv: real, sws: seq<nat>, vws: seq<nat>, s: Setting) returns (out: seq<Row>)
    ensures out == RowsOfVolume(bv, sws, vws, s)
  {
    hide RowsOfWindows;
    out := [];
    for j := 0 to |sws|
      invariant out == RowsOfVolume(bv, sws[..j], vws, s)
    {
      var bvc := BvcAccuracyStats(s.tape, bv, sws[j], s.maths);
      var more := FillWindows(bv, sws[j], vws, bvc, s);
      assert sws[..j + 1][..j] == sws[..j];
      out := out + more;
    }
    assert sws[..|sws|] == sws;
  }

  /** The judging pass is made once for all VPIN windows. */
  method FillWindows(bv: real, sw: nat, vws: seq<nat>, bvc: Result<BvcStats, VpinError>, s: Setting)
    returns (out: seq<Row>)
    requires bvc == BvcResult(s.tape, bv, sw, s.maths)
    ensures out == RowsOfWindows(bv, sw, vws, s)
  {
    hide BvcResult, StatsFrom, TapeReadings, ConfigError, EngineConfig.Valid;
    out := [];
    for k := 0 to |vws|
      invariant out == RowsOfWindows(bv, sw, vws[..k], s)
    {
      var stats: Result<Stats, VpinError>;
      match bvc {
        case Err(e) => stats := Err(e);
        case Ok(b) => stats := CalibrateOne(s.tape, Config(bv, sw, vws[k], s.cdfWindow), b, s.maths);
      }
      assert Row(bv, sw, vws[k], stats) == RowOf(bv, sw, vws[k], s);
      assert vws[..k + 1][..k] == vws[..k];
      out := out + [Row(bv, sw, vws[k], stats)];
    }
    assert vws[..|vws|] == vws;
  }
}
