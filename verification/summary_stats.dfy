/** `computeSummaryStats` in `src/utils/intentToQuery.js`: the figures sent
    to the explanation endpoint along with the query rows.

    Every value is an integer here, so `Math.round` of a value is the value
    itself. The one genuine rounding, `Math.round` of a quotient, is
    `RoundDiv`. The percentage change is kept as a whole number of tenths
    of a percent. A missing figure that JavaScript would report as
    `undefined`, `NaN` or `-Infinity` is `None`. */
module SummaryStats {
  import opened Base
  import opened Text
  import opened Sorting
  import opened ChartPivot

  // ---------------------------------------------------------------------
  // Rounding

  /** `r` is `n / d` rounded to the nearest integer, halves upwards:
      `r - 1/2 <= n / d < r + 1/2`, multiplied through by `2 * d`. */
  predicate IsRounded(n: int, d: int, r: int) {
    && (d > 0 ==> 2 * d * r - d <= 2 * n < 2 * d * r + d)
    && (d < 0 ==> 2 * d * r + d < 2 * n <= 2 * d * r - d)
  }

  /** `Math.round(n / d)`. */
  function RoundDiv(n: int, d: int): (r: int)
    requires d != 0
    ensures IsRounded(n, d, r)
  {
    if d > 0 then
      RoundDivPositive(n, d);
      (2 * n + d) / (2 * d)
    else
      RoundDivPositive(-n, -d);
      (-2 * n - d) / (-2 * d)
  }

  lemma RoundDivPositive(n: int, d: int)
    requires d > 0
    ensures var r := (2 * n + d) / (2 * d); 2 * d * r - d <= 2 * n < 2 * d * r + d
  {
    var a := 2 * n + d;
    var b := 2 * d;
    var q := a / b;
    var m := a % b;
    assert a == b * q + m && 0 <= m < b;
  }

  /** Exactly one integer is the rounded quotient. */
  lemma RoundDivUnique(n: int, d: int, r: int)
    requires d != 0 && IsRounded(n, d, r)
    ensures r == RoundDiv(n, d)
  {
    var r0 := RoundDiv(n, d);
    if r > r0 { Gap(d, r0, r); }
    if r0 > r { Gap(d, r, r0); }
  }

  /** Consecutive multiples of `2 * d` are `2 * |d|` apart. */
  lemma Gap(d: int, x: int, y: int)
    requires d != 0 && x < y
    ensures d > 0 ==> 2 * d * x + 2 * d <= 2 * d * y
    ensures d < 0 ==> 2 * d * y <= 2 * d * x + 2 * d
  {
    var k := y - x - 1;
    assert 2 * d * y == 2 * d * x + 2 * d * k + 2 * d;
    if d > 0 { assert 2 * d * k >= 0; } else { assert 2 * d * k <= 0; }
  }

  /** `first ? Math.round((last - first) / first * 1000) / 10 : 0` in tenths
      of a percent: the percentage change from `first` to `last`, to one
      decimal, or 0 when `first` is 0. */
  function PctTenths(first: int, last: int): (t: int)
    ensures first == 0 ==> t == 0
    ensures first != 0 ==> IsRounded(1000 * (last - first), first, t)
  {
    if first == 0 then 0 else RoundDiv(1000 * (last - first), first)
  }

  /** No change reads as 0.0%. */
  lemma PctTenthsUnchanged(x: int)
    ensures PctTenths(x, x) == 0
  {
    if x != 0 { RoundDivUnique(0, x, 0); }
  }

  /** A median rising from 2,000,000 to 2,400,000 is a 20.0% change. */
  lemma PctTenthsExample()
    ensures PctTenths(2000000, 2400000) == 200
  {
    RoundDivUnique(1000 * 400000, 2000000, 200);
  }

  // ---------------------------------------------------------------------
  // Sorted copies

  /** The head of the sorted copy is an input element with the least key,
      and its last element one with the greatest. */
  lemma SortedCopyEnds<T>(s: seq<T>, key: T -> string)
    requires |s| > 0
    ensures var r := SortBy(s, key);
      && r[0] in s && r[|r| - 1] in s
      && forall j :: 0 <= j < |s| ==> LexLe(key(r[0]), key(s[j])) && LexLe(key(s[j]), key(r[|r| - 1]))
  {
    var r := SortBy(s, key);
    SortByMembers(s, key);
    SortedEnds(r, key);
    forall j | 0 <= j < |s| ensures LexLe(key(r[0]), key(s[j])) && LexLe(key(s[j]), key(r[|r| - 1])) {
      var k :| 0 <= k < |r| && r[k] == s[j];
    }
  }

  /** `sorted.find(p)` on the sorted copy finds an input element satisfying
      `p` whose key is the least among those that do. */
  lemma FindInSorted<T>(s: seq<T>, key: T -> string, p: T -> bool)
    requires exists i :: 0 <= i < |s| && p(s[i])
    ensures var f := Find(SortBy(s, key), p);
      && f.Some? && f.value in s && p(f.value)
      && forall j :: 0 <= j < |s| && p(s[j]) ==> LexLe(key(f.value), key(s[j]))
  {
    SortByMembers(s, key);
    FindInOrdered(s, SortBy(s, key), key, p);
  }

  lemma FindInOrdered<T>(s: seq<T>, r: seq<T>, key: T -> string, p: T -> bool)
    requires SortedBy(r, key)
    requires forall i :: 0 <= i < |s| ==> s[i] in r
    requires forall i :: 0 <= i < |r| ==> r[i] in s
    requires exists i :: 0 <= i < |s| && p(s[i])
    ensures var f := Find(r, p);
      && f.Some? && f.value in s && p(f.value)
      && forall j :: 0 <= j < |s| && p(s[j]) ==> LexLe(key(f.value), key(s[j]))
  {
    var i :| 0 <= i < |s| && p(s[i]);
    var k0 :| 0 <= k0 < |r| && r[k0] == s[i];
    assert p(r[k0]);
    var k := FindIndex(r, p).value;
    assert Find(r, p) == Some(r[k]);
    forall j | 0 <= j < |s| && p(s[j]) ensures LexLe(key(r[k]), key(s[j])) {
      var m :| 0 <= m < |r| && r[m] == s[j];
      assert k <= m;
    }
  }

  /** `Math.max` over the sorted copy is the maximum over the input. */
  lemma MaxBySort<T>(s: seq<T>, key: T -> string, f: T -> int)
    requires |s| > 0
    ensures var m := MaxBy(SortBy(s, key), f);
      && (exists i :: 0 <= i < |s| && f(s[i]) == m)
      && forall i :: 0 <= i < |s| ==> f(s[i]) <= m
  {
    var r := SortBy(s, key);
    var m := MaxBy(r, f);
    SortByMembers(s, key);
    var k :| 0 <= k < |r| && f(r[k]) == m;
    assert r[k] in s;
    forall i | 0 <= i < |s| ensures f(s[i]) <= m {
      var j :| 0 <= j < |r| && r[j] == s[i];
    }
  }

  /** `peak` is the greatest `f` value and `month` the least key among the
      elements reaching it: the peak figure and the month `find` reports
      for it. */
  predicate IsPeak<T>(s: seq<T>, f: T -> int, key: T -> string, peak: int, month: string) {
    && (forall i :: 0 <= i < |s| ==> f(s[i]) <= peak)
    && (exists i :: 0 <= i < |s| && f(s[i]) == peak && key(s[i]) == month)
    && (forall i :: 0 <= i < |s| && f(s[i]) == peak ==> LexLe(month, key(s[i])))
  }

  /** Peak figure and month are determined by the input. */
  lemma IsPeakUnique<T>(s: seq<T>, f: T -> int, key: T -> string, p1: int, m1: string, p2: int, m2: string)
    requires IsPeak(s, f, key, p1, m1) && IsPeak(s, f, key, p2, m2)
    ensures p1 == p2 && m1 == m2
  {
    var i :| 0 <= i < |s| && f(s[i]) == p1 && key(s[i]) == m1;
    var j :| 0 <= j < |s| && f(s[j]) == p2 && key(s[j]) == m2;
    LexLeAntisymmetric(m1, m2);
  }

  // ---------------------------------------------------------------------
  // Rows

  function MonthOf(r: Row): string { r.month }
  function Tx(r: Row): int { r.txCount }
  function MedianPrice(r: Row): int { r.medianPrice }
  function MedianRate(r: Row): int { r.medianRate }

  datatype DateSpan = DateSpan(from: string, to: string)

  /** `{ from: sorted[0]?.month, to: sorted[sorted.length - 1]?.month }`:
      the earliest and the latest month of the rows, absent without rows. */
  function DateRange(rows: seq<Row>): (d: Option<DateSpan>)
    ensures d.None? <==> |rows| == 0
    ensures d.Some? ==>
      && (exists i :: 0 <= i < |rows| && rows[i].month == d.value.from)
      && (exists i :: 0 <= i < |rows| && rows[i].month == d.value.to)
      && forall i :: 0 <= i < |rows| ==> LexLe(d.value.from, rows[i].month) && LexLe(rows[i].month, d.value.to)
  {
    if |rows| == 0 then None
    else
      var sorted := SortBy(rows, MonthOf);
      SortedCopyEnds(rows, MonthOf);
      Some(DateSpan(sorted[0].month, sorted[|sorted| - 1].month))
  }

  // ---------------------------------------------------------------------
  // volume_trend

  datatype VolumeSummary = VolumeSummary(totalTransactions: int, avgMonthly: Option<int>,
                                         peakMonth: Option<string>, peakCount: Option<int>,
                                         dateRange: Option<DateSpan>)

  /** The `volume_trend` branch: the total of `tx_count`, its rounded mean
      per row, the greatest count and the earliest month reaching it. With
      no rows the mean is `NaN`, the peak `-Infinity` and its month
      `undefined`, all `None` here. */
  function Volume(rows: seq<Row>): (v: VolumeSummary)
    ensures v.totalTransactions == SumBy(rows, Tx)
    ensures v.dateRange == DateRange(rows)
    ensures |rows| == 0 ==> v.avgMonthly.None? && v.peakMonth.None? && v.peakCount.None?
    ensures |rows| > 0 ==> v.avgMonthly.Some? && IsRounded(v.totalTransactions, |rows|, v.avgMonthly.value)
    ensures |rows| > 0 ==> v.peakCount.Some? && v.peakMonth.Some?
                           && IsPeak(rows, Tx, MonthOf, v.peakCount.value, v.peakMonth.value)
  {
    var sorted := SortBy(rows, MonthOf);
    SumBySort(rows, MonthOf, Tx);
    var total := SumBy(sorted, Tx);
    if |rows| == 0 then VolumeSummary(total, None, None, None, DateRange(rows))
    else
      var peak := MaxBy(sorted, Tx);
      MaxBySort(rows, MonthOf, Tx);
      var isPeak := (r: Row) => Tx(r) == peak;
      FindInSorted(rows, MonthOf, isPeak);
      var peakRow := Find(sorted, isPeak).value;
      VolumeSummary(total, Some(RoundDiv(total, |sorted|)), Some(peakRow.month), Some(peak), DateRange(rows))
  }

  /** Two months of 100 and 150 transactions: 250 in total, 125 a month,
      peaking at 150 in the second month. */
  lemma VolumeExample()
    ensures var rows := [Row("2024-01", "", "", "", 0, 0, 100), Row("2024-02", "", "", "", 0, 0, 150)];
      var v := Volume(rows);
      v.totalTransactions == 250 && v.avgMonthly == Some(125)
      && v.peakCount == Some(150) && v.peakMonth == Some("2024-02")
  {
    var rows := [Row("2024-01", "", "", "", 0, 0, 100), Row("2024-02", "", "", "", 0, 0, 150)];
    var v := Volume(rows);
    assert SumBy(rows, Tx) == 250;
    RoundDivUnique(250, 2, 125);
    var i :| 0 <= i < 2 && rows[i].txCount == v.peakCount.value && rows[i].month == v.peakMonth.value;
    assert rows[0].txCount <= v.peakCount.value && rows[1].txCount <= v.peakCount.value;
  }

  // ---------------------------------------------------------------------
  // Series

  /** `{ month, price, count }`: a row as its series holds it. */
  datatype Point = Point(month: string, price: int, count: int)

  function PointMonth(p: Point): string { p.month }
  function PointPrice(p: Point): int { p.price }
  function PointCount(p: Point): int { p.count }
  function PointOf(r: Row): Point { Point(r.month, r.medianPrice, r.txCount) }

  /** `first`, `last`, `peak` and `peakMonth` of one series. */
  datatype Trend = Trend(first: int, last: int, peak: int, peakMonth: string)

  /** One entry of `series`. Without a data point JavaScript reports the
      trend figures as `NaN`, `-Infinity` and `undefined`; `trend` is then
      `None`. `pctChange` (in tenths of a percent) is a number either way:
      0 when there is no first figure. */
  datatype SeriesSummary = SeriesSummary(name: string, trend: Option<Trend>, pctTenths: int, txCount: int)

  function SeriesTx(s: SeriesSummary): int { s.txCount }

  /** The per-series figures of the multi-series branch. Over the points
      sorted by month: the price of the earliest and of the latest point,
      the change between them, the highest price with the earliest month
      reaching it, and the total count. */
  function Summarise(name: string, points: seq<Point>): (s: SeriesSummary)
    ensures s.name == name
    ensures s.txCount == SumBy(points, PointCount)
    ensures s.trend.None? <==> |points| == 0
    ensures s.trend.None? ==> s.pctTenths == 0
    ensures s.trend.Some? ==> var t := s.trend.value;
      && EarliestPrice(points, t.first)
      && LatestPrice(points, t.last)
      && s.pctTenths == PctTenths(t.first, t.last)
      && IsPeak(points, PointPrice, PointMonth, t.peak, t.peakMonth)
  {
    var sorted := SortBy(points, PointMonth);
    SumBySort(points, PointMonth, PointCount);
    var tx := SumBy(sorted, PointCount);
    if |points| == 0 then SeriesSummary(name, None, 0, tx)
    else
      TrendEnds(points);
      var first := sorted[0].price;
      var last := sorted[|sorted| - 1].price;
      var peak := MaxBy(sorted, PointPrice);
      MaxBySort(points, PointMonth, PointPrice);
      var isPeak := (p: Point) => PointPrice(p) == peak;
      FindInSorted(points, PointMonth, isPeak);
      var peakPoint := Find(sorted, isPeak).value;
      SeriesSummary(name, Some(Trend(first, last, peak, peakPoint.month)), PctTenths(first, last), tx)
  }

  /** `x` is the price of the point of the earliest month; of several
      such points, the first in input order. */
  predicate EarliestPrice(points: seq<Point>, x: int) {
    exists i :: 0 <= i < |points| && points[i].price == x
      && (forall j :: 0 <= j < |points| ==> LexLe(points[i].month, points[j].month))
      && forall j :: 0 <= j < i ==> points[j].month != points[i].month
  }

  /** `x` is the price of the point of the latest month; of several such
      points, the last in input order. */
  predicate LatestPrice(points: seq<Point>, x: int) {
    exists i :: 0 <= i < |points| && points[i].price == x
      && (forall j :: 0 <= j < |points| ==> LexLe(points[j].month, points[i].month))
      && forall j :: i < j < |points| ==> points[j].month != points[i].month
  }

  function AnyPoint(p: Point): bool { true }

  /** The ends of the sorted copy carry the earliest and the latest
      price; the sort being stable, the first and the last point of
      their months. */
  lemma TrendEnds(points: seq<Point>)
    requires |points| > 0
    ensures var sorted := SortBy(points, PointMonth);
      EarliestPrice(points, sorted[0].price) && LatestPrice(points, sorted[|sorted| - 1].price)
  {
    var r := SortBy(points, PointMonth);
    assert FindIndex(r, AnyPoint) == Some(0);
    assert FindLastIndex(r, AnyPoint) == Some(|r| - 1);
    SortByFirstMatch(points, PointMonth, AnyPoint);
    SortByLastMatch(points, PointMonth, AnyPoint);
    EarliestOfAll(points, r[0]);
    LatestOfAll(points, r[|r| - 1]);
  }

  lemma EarliestOfAll(points: seq<Point>, x: Point)
    requires FirstOfLeast(points, PointMonth, AnyPoint, x)
    ensures EarliestPrice(points, x.price)
  {
    var i :| 0 <= i < |points| && points[i] == x && AnyPoint(x)
      && (forall j :: 0 <= j < |points| && AnyPoint(points[j]) ==> LexLe(PointMonth(x), PointMonth(points[j])))
      && forall j :: 0 <= j < i ==> !(AnyPoint(points[j]) && PointMonth(points[j]) == PointMonth(x));
    assert forall j :: 0 <= j < |points| ==> AnyPoint(points[j]);
  }

  lemma LatestOfAll(points: seq<Point>, x: Point)
    requires LastOfGreatest(points, PointMonth, AnyPoint, x)
    ensures LatestPrice(points, x.price)
  {
    var i :| 0 <= i < |points| && points[i] == x && AnyPoint(x)
      && (forall j :: 0 <= j < |points| && AnyPoint(points[j]) ==> LexLe(PointMonth(points[j]), PointMonth(x)))
      && forall j :: i < j < |points| ==> !(AnyPoint(points[j]) && PointMonth(points[j]) == PointMonth(x));
    assert forall j :: 0 <= j < |points| ==> AnyPoint(points[j]);
  }

  /** `seriesMap[name]` after the `forEach`: a point for each row of the
      series, pushed in row order. */
  function PointsFor(rows: seq<Row>, c: PivotColumn, name: string): seq<Point> {
    if |rows| == 0 then []
    else
      var n := |rows| - 1;
      var pre := PointsFor(rows[..n], c, name);
      if SeriesName(rows[n], c) == name then pre + [PointOf(rows[n])] else pre
  }

  /** `p` is the point of a row of series `name`. */
  predicate FromSeries(rows: seq<Row>, c: PivotColumn, name: string, p: Point) {
    exists i :: 0 <= i < |rows| && SeriesName(rows[i], c) == name && p == PointOf(rows[i])
  }

  /** The points of a series are exactly those of its rows. */
  lemma {:induction false} PointsForSpec(rows: seq<Row>, c: PivotColumn, name: string)
    ensures forall k :: 0 <= k < |PointsFor(rows, c, name)| ==> FromSeries(rows, c, name, PointsFor(rows, c, name)[k])
    ensures forall i :: 0 <= i < |rows| && SeriesName(rows[i], c) == name ==> PointOf(rows[i]) in PointsFor(rows, c, name)
  {
    if |rows| > 0 {
      var n := |rows| - 1;
      var pre := rows[..n];
      var before := PointsFor(pre, c, name);
      var pts := PointsFor(rows, c, name);
      PointsForSpec(pre, c, name);
      forall k | 0 <= k < |pts| ensures FromSeries(rows, c, name, pts[k]) {
        if k < |before| {
          assert FromSeries(pre, c, name, before[k]);
          var i :| 0 <= i < |pre| && SeriesName(pre[i], c) == name && before[k] == PointOf(pre[i]);
          assert pts[k] == before[k];
          assert pre[i] == rows[i];
        } else {
          assert pts[k] == PointOf(rows[n]);
        }
      }
      forall i | 0 <= i < |rows| && SeriesName(rows[i], c) == name ensures PointOf(rows[i]) in pts {
        if i < n {
          assert pre[i] == rows[i];
          assert PointOf(pre[i]) in before;
        }
      }
    }
  }

  /** The multi-series branch: one summary per distinct series name, in the
      order `FirstSeen` gives the names (`Object.entries` of `seriesMap`). */
  function MultiSeries(rows: seq<Row>, c: PivotColumn): (ss: seq<SeriesSummary>)
    ensures |ss| == |FirstSeen(Names(rows, c))|
    ensures forall i :: 0 <= i < |ss| ==>
              && ss[i].name == FirstSeen(Names(rows, c))[i]
              && ss[i] == Summarise(ss[i].name, PointsFor(rows, c, ss[i].name))
              && ss[i].trend.Some?
  {
    SeriesOfNames(rows, c, FirstSeen(Names(rows, c)))
  }

  /** Each series is named after a row, each row belongs to one series,
      and no name repeats. */
  lemma MultiSeriesNames(rows: seq<Row>, c: PivotColumn)
    ensures var ss := MultiSeries(rows, c);
      && (forall i, j :: 0 <= i < j < |ss| ==> ss[i].name != ss[j].name)
      && (forall j :: 0 <= j < |rows| ==> HasSeries(ss, SeriesName(rows[j], c)))
      && (forall i :: 0 <= i < |ss| ==> NamesARow(rows, c, ss[i].name))
  {
    NamesOfSeries(MultiSeries(rows, c), FirstSeen(Names(rows, c)), rows, c);
  }

  /** Some summary carries `name`. */
  predicate HasSeries(ss: seq<SeriesSummary>, name: string) {
    exists i :: 0 <= i < |ss| && ss[i].name == name
  }

  /** Some row belongs to the series `name`. */
  predicate NamesARow(rows: seq<Row>, c: PivotColumn, name: string) {
    exists j :: 0 <= j < |rows| && SeriesName(rows[j], c) == name
  }

  /** Summaries named, in order, by distinct names drawn from the rows'
      series names and covering them. */
  lemma NamesOfSeries(ss: seq<SeriesSummary>, names: seq<string>, rows: seq<Row>, c: PivotColumn)
    requires |ss| == |names| && forall i :: 0 <= i < |ss| ==> ss[i].name == names[i]
    requires NoDups(names)
    requires forall i :: 0 <= i < |names| ==> names[i] in Names(rows, c)
    requires forall j :: 0 <= j < |rows| ==> Names(rows, c)[j] in names
    ensures forall i, j :: 0 <= i < j < |ss| ==> ss[i].name != ss[j].name
    ensures forall j :: 0 <= j < |rows| ==> HasSeries(ss, SeriesName(rows[j], c))
    ensures forall i :: 0 <= i < |ss| ==> NamesARow(rows, c, ss[i].name)
  {
    var ns := Names(rows, c);
    forall j | 0 <= j < |rows| ensures HasSeries(ss, SeriesName(rows[j], c)) {
      assert ns[j] in names;
      var i :| 0 <= i < |names| && names[i] == ns[j];
      assert ss[i].name == names[i];
    }
    forall i | 0 <= i < |ss| ensures NamesARow(rows, c, ss[i].name) {
      assert names[i] in ns;
      var j :| 0 <= j < |ns| && ns[j] == names[i];
      assert SeriesName(rows[j], c) == ss[i].name;
    }
  }

  /** The series come in the order their names first occur in the rows. */
  lemma MultiSeriesOrder(rows: seq<Row>, c: PivotColumn)
    ensures var ss := MultiSeries(rows, c); var ns := Names(rows, c);
      forall i, j :: 0 <= i < j < |ss| ==>
        ss[i].name in ns && ss[j].name in ns && FirstIndex(ns, ss[i].name) < FirstIndex(ns, ss[j].name)
  {
    FirstSeenOrder(Names(rows, c));
  }

  function SeriesOfNames(rows: seq<Row>, c: PivotColumn, names: seq<string>): (ss: seq<SeriesSummary>)
    requires forall i :: 0 <= i < |names| ==> names[i] in Names(rows, c)
    ensures |ss| == |names|
    ensures forall i :: 0 <= i < |ss| ==>
              ss[i] == Summarise(names[i], PointsFor(rows, c, names[i])) && ss[i].name == names[i] && ss[i].trend.Some?
  {
    NamesHavePoints(rows, c, names);
    seq(|names|, i requires 0 <= i < |names| => Summarise(names[i], PointsFor(rows, c, names[i])))
  }

  lemma NamesHavePoints(rows: seq<Row>, c: PivotColumn, names: seq<string>)
    requires forall i :: 0 <= i < |names| ==> names[i] in Names(rows, c)
    ensures forall i :: 0 <= i < |names| ==> |PointsFor(rows, c, names[i])| > 0
  {
    forall i | 0 <= i < |names| ensures |PointsFor(rows, c, names[i])| > 0 {
      var j :| 0 <= j < |rows| && Names(rows, c)[j] == names[i];
      PointsForSpec(rows, c, names[i]);
      assert PointOf(rows[j]) in PointsFor(rows, c, names[i]);
    }
  }

  /** The series split the rows: their transaction counts add up to the
      count over all rows. */
  lemma MultiSeriesTotal(rows: seq<Row>, c: PivotColumn)
    ensures SumBy(MultiSeries(rows, c), SeriesTx) == SumBy(rows, Tx)
  {
    var ns := Names(rows, c);
    var names := FirstSeen(ns);
    var ss := MultiSeries(rows, c);
    SeriesSum(rows, c, names, ss);
    assert forall j :: 0 <= j < |rows| ==> ns[j] in names;
    forall j | 0 <= j < |rows| ensures SeriesName(rows[j], c) in names {
      assert ns[j] == SeriesName(rows[j], c);
    }
    GroupTotalAll(rows, c, names);
  }

  /** `SumBy` over the summaries, regrouped as a sum over the names. */
  function GroupTotal(rows: seq<Row>, c: PivotColumn, names: seq<string>): int {
    if |names| == 0 then 0 else SumBy(PointsFor(rows, c, names[0]), PointCount) + GroupTotal(rows, c, names[1..])
  }

  lemma {:induction false} SeriesSum(rows: seq<Row>, c: PivotColumn, names: seq<string>, ss: seq<SeriesSummary>)
    requires |ss| == |names|
    requires forall i :: 0 <= i < |ss| ==> ss[i].txCount == SumBy(PointsFor(rows, c, names[i]), PointCount)
    ensures SumBy(ss, SeriesTx) == GroupTotal(rows, c, names)
  {
    if |ss| > 0 {
      SeriesSum(rows, c, names[1..], ss[1..]);
    }
  }

  /** Adding a row adds its count to the one group its name belongs to. */
  lemma {:induction false} GroupTotalSnoc(pre: seq<Row>, r: Row, c: PivotColumn, names: seq<string>)
    requires NoDups(names)
    ensures GroupTotal(pre + [r], c, names)
            == GroupTotal(pre, c, names) + (if SeriesName(r, c) in names then r.txCount else 0)
  {
    if |names| > 0 {
      var rows := pre + [r];
      assert rows[..|pre|] == pre;
      assert NoDups(names[1..]);
      GroupTotalSnoc(pre, r, c, names[1..]);
      if SeriesName(r, c) == names[0] {
        assert names[0] !in names[1..];
        SumByAppend(PointsFor(pre, c, names[0]), [PointOf(r)], PointCount);
      }
      assert SeriesName(r, c) in names <==> SeriesName(r, c) == names[0] || SeriesName(r, c) in names[1..];
    }
  }

  lemma {:induction false} GroupTotalAll(rows: seq<Row>, c: PivotColumn, names: seq<string>)
    requires NoDups(names)
    requires forall j :: 0 <= j < |rows| ==> SeriesName(rows[j], c) in names
    ensures GroupTotal(rows, c, names) == SumBy(rows, Tx)
  {
    if |rows| == 0 {
      GroupTotalEmpty(c, names);
    } else {
      var n := |rows| - 1;
      var pre := rows[..n];
      assert rows == pre + [rows[n]];
      GroupTotalAll(pre, c, names);
      GroupTotalSnoc(pre, rows[n], c, names);
      SumByAppend(pre, [rows[n]], Tx);
    }
  }

  lemma {:induction false} GroupTotalEmpty(c: PivotColumn, names: seq<string>)
    ensures GroupTotal([], c, names) == 0
  {
    if |names| > 0 {
      GroupTotalEmpty(c, names[1..]);
    }
  }

  // ---------------------------------------------------------------------
  // price_trend and rate_trend

  /** `valueKey`: the median rate for `rate_trend`, the median price
      otherwise. */
  function ValueKey(queryType: string): Row -> int {
    if queryType == "rate_trend" then MedianRate else MedianPrice
  }

  function Positive(v: int): bool { v > 0 }
  function Id(v: int): int { v }

  function Values(s: seq<Row>, value: Row -> int): (vs: seq<int>)
    ensures |vs| == |s| && forall i :: 0 <= i < |s| ==> vs[i] == value(s[i])
  {
    seq(|s|, i requires 0 <= i < |s| => value(s[i]))
  }

  /** The single-series branch, named `All`. Non-positive values are
      dropped before the first, last and peak are taken; every row still
      counts towards the transactions. */
  function SingleSeries(rows: seq<Row>, value: Row -> int): (s: SeriesSummary)
    ensures s.name == "All"
    ensures s.txCount == SumBy(rows, Tx)
    ensures s.trend.None? <==> forall i :: 0 <= i < |rows| ==> value(rows[i]) <= 0
    ensures s.trend.None? ==> s.pctTenths == 0
    ensures s.trend.Some? ==> var t := s.trend.value;
      && EarliestPositive(rows, value, t.first)
      && LatestPositive(rows, value, t.last)
      && s.pctTenths == PctTenths(t.first, t.last)
      && IsPeak(rows, value, MonthOf, t.peak, t.peakMonth)
  {
    var sorted := SortBy(rows, MonthOf);
    var values := Filter(Values(sorted, value), Positive);
    SumBySort(rows, MonthOf, Tx);
    var tx := SumBy(sorted, Tx);
    SinglePositives(rows, value);
    if |values| == 0 then SeriesSummary("All", None, 0, tx)
    else
      var first := values[0];
      var last := values[|values| - 1];
      var peak := MaxBy(values, Id);
      SingleFirst(rows, value, values);
      SingleLast(rows, value, values);
      SinglePeak(rows, value);
      var isPeak := (r: Row) => value(r) == peak;
      FindInSorted(rows, MonthOf, isPeak);
      var peakRow := Find(sorted, isPeak).value;
      SeriesSummary("All", Some(Trend(first, last, peak, peakRow.month)), PctTenths(first, last), tx)
  }

  /** The positive values of the sorted rows. */
  function PositiveValues(rows: seq<Row>, value: Row -> int): seq<int> {
    Filter(Values(SortBy(rows, MonthOf), value), Positive)
  }

  lemma SinglePositives(rows: seq<Row>, value: Row -> int)
    ensures |PositiveValues(rows, value)| == 0 <==> forall i :: 0 <= i < |rows| ==> value(rows[i]) <= 0
  {
    var sorted := SortBy(rows, MonthOf);
    var vs := Values(sorted, value);
    SortByMembers(rows, MonthOf);
    if exists i :: 0 <= i < |rows| && value(rows[i]) > 0 {
      var i :| 0 <= i < |rows| && value(rows[i]) > 0;
      var k :| 0 <= k < |sorted| && sorted[k] == rows[i];
      assert Positive(vs[k]);
      assert vs[k] in PositiveValues(rows, value);
    } else {
      forall k | 0 <= k < |vs| ensures !Positive(vs[k]) {
        assert sorted[k] in rows;
      }
    }
  }

  /** `x` is the positive value of the row of the earliest month among
      the rows with a positive value; of several such rows, the first in
      input order. */
  predicate EarliestPositive(rows: seq<Row>, value: Row -> int, x: int) {
    && x > 0
    && exists i :: 0 <= i < |rows| && value(rows[i]) == x
         && (forall j :: 0 <= j < |rows| && value(rows[j]) > 0 ==> LexLe(rows[i].month, rows[j].month))
         && forall j :: 0 <= j < i ==> !(value(rows[j]) > 0 && rows[j].month == rows[i].month)
  }

  /** `x` is the positive value of the row of the latest month among the
      rows with a positive value; of several such rows, the last in input
      order. */
  predicate LatestPositive(rows: seq<Row>, value: Row -> int, x: int) {
    && x > 0
    && exists i :: 0 <= i < |rows| && value(rows[i]) == x
         && (forall j :: 0 <= j < |rows| && value(rows[j]) > 0 ==> LexLe(rows[j].month, rows[i].month))
         && forall j :: i < j < |rows| ==> !(value(rows[j]) > 0 && rows[j].month == rows[i].month)
  }

  /** A row whose value is positive. */
  function PositiveRow(value: Row -> int): Row -> bool {
    (r: Row) => value(r) > 0
  }

  /** The first positive value in month order is the value of the first
      positive row of the sorted copy. */
  lemma FirstPositiveRow(sorted: seq<Row>, value: Row -> int, values: seq<int>)
    requires values == Filter(Values(sorted, value), Positive) && |values| > 0
    ensures FindIndex(sorted, PositiveRow(value)).Some?
    ensures values[0] == value(sorted[FindIndex(sorted, PositiveRow(value)).value])
  {
    var vs := Values(sorted, value);
    assert values[0] in vs && Positive(values[0]);
    var k0 :| 0 <= k0 < |vs| && vs[k0] == values[0];
    assert Positive(vs[k0]);
    var k := FindIndex(vs, Positive).value;
    FilterFirst(vs, Positive);
    assert PositiveRow(value)(sorted[k]);
    var n := FindIndex(sorted, PositiveRow(value)).value;
    assert !Positive(vs[n]) || n == k;
  }

  /** The last positive value in month order is the value of the last
      positive row of the sorted copy. */
  lemma LastPositiveRow(sorted: seq<Row>, value: Row -> int, values: seq<int>)
    requires values == Filter(Values(sorted, value), Positive) && |values| > 0
    ensures FindLastIndex(sorted, PositiveRow(value)).Some?
    ensures values[|values| - 1] == value(sorted[FindLastIndex(sorted, PositiveRow(value)).value])
  {
    var vs := Values(sorted, value);
    assert values[0] in vs && Positive(values[0]);
    var k0 :| 0 <= k0 < |vs| && vs[k0] == values[0];
    assert Positive(vs[k0]);
    var k := FindLastIndex(vs, Positive).value;
    FilterLast(vs, Positive);
    assert PositiveRow(value)(sorted[k]);
    var n := FindLastIndex(sorted, PositiveRow(value)).value;
    assert !Positive(vs[n]) || n == k;
  }

  lemma SingleFirst(rows: seq<Row>, value: Row -> int, values: seq<int>)
    requires values == PositiveValues(rows, value) && |values| > 0
    ensures EarliestPositive(rows, value, values[0])
  {
    var sorted := SortBy(rows, MonthOf);
    FirstPositiveRow(sorted, value, values);
    SortByFirstMatch(rows, MonthOf, PositiveRow(value));
    EarliestOfPositive(rows, value, sorted[FindIndex(sorted, PositiveRow(value)).value]);
  }

  lemma SingleLast(rows: seq<Row>, value: Row -> int, values: seq<int>)
    requires values == PositiveValues(rows, value) && |values| > 0
    ensures LatestPositive(rows, value, values[|values| - 1])
  {
    var sorted := SortBy(rows, MonthOf);
    LastPositiveRow(sorted, value, values);
    SortByLastMatch(rows, MonthOf, PositiveRow(value));
    LatestOfPositive(rows, value, sorted[FindLastIndex(sorted, PositiveRow(value)).value]);
  }

  lemma EarliestOfPositive(rows: seq<Row>, value: Row -> int, x: Row)
    requires FirstOfLeast(rows, MonthOf, PositiveRow(value), x)
    ensures EarliestPositive(rows, value, value(x))
  {
    var pos := PositiveRow(value);
    var i :| 0 <= i < |rows| && rows[i] == x && pos(x)
      && (forall j :: 0 <= j < |rows| && pos(rows[j]) ==> LexLe(MonthOf(x), MonthOf(rows[j])))
      && forall j :: 0 <= j < i ==> !(pos(rows[j]) && MonthOf(rows[j]) == MonthOf(x));
    assert value(rows[i]) == value(x);
  }

  lemma LatestOfPositive(rows: seq<Row>, value: Row -> int, x: Row)
    requires LastOfGreatest(rows, MonthOf, PositiveRow(value), x)
    ensures LatestPositive(rows, value, value(x))
  {
    var pos := PositiveRow(value);
    var i :| 0 <= i < |rows| && rows[i] == x && pos(x)
      && (forall j :: 0 <= j < |rows| && pos(rows[j]) ==> LexLe(MonthOf(rows[j]), MonthOf(x)))
      && forall j :: i < j < |rows| ==> !(pos(rows[j]) && MonthOf(rows[j]) == MonthOf(x));
    assert value(rows[i]) == value(x);
  }

  lemma SinglePeak(rows: seq<Row>, value: Row -> int)
    requires |PositiveValues(rows, value)| > 0
    ensures var peak := MaxBy(PositiveValues(rows, value), Id);
      && peak > 0
      && (exists i :: 0 <= i < |rows| && value(rows[i]) == peak)
      && forall i :: 0 <= i < |rows| ==> value(rows[i]) <= peak
  {
    SortedCopy(rows);
    PeakIn(rows, SortBy(rows, MonthOf), value, PositiveValues(rows, value));
  }

  /** `sorted` holds exactly the rows of `rows`. */
  predicate SameMembers(rows: seq<Row>, sorted: seq<Row>) {
    && (forall i :: 0 <= i < |rows| ==> rows[i] in sorted)
    && (forall i :: 0 <= i < |sorted| ==> sorted[i] in rows)
  }

  lemma SortedCopy(rows: seq<Row>)
    ensures SameMembers(rows, SortBy(rows, MonthOf)) && SortedBy(SortBy(rows, MonthOf), MonthOf)
  {
    SortByMembers(rows, MonthOf);
  }

  lemma PeakIn(rows: seq<Row>, sorted: seq<Row>, value: Row -> int, values: seq<int>)
    requires SameMembers(rows, sorted)
    requires values == Filter(Values(sorted, value), Positive) && |values| > 0
    ensures var peak := MaxBy(values, Id);
      && peak > 0
      && (exists i :: 0 <= i < |rows| && value(rows[i]) == peak)
      && forall i :: 0 <= i < |rows| ==> value(rows[i]) <= peak
  {
    var vs := Values(sorted, value);
    var peak := MaxBy(values, Id);
    var q :| 0 <= q < |values| && Id(values[q]) == peak;
    assert values[q] in vs && Positive(values[q]);
    var m :| 0 <= m < |vs| && vs[m] == values[q];
    assert sorted[m] in rows;
    forall i | 0 <= i < |rows| ensures value(rows[i]) <= peak {
      if value(rows[i]) > 0 {
        var k :| 0 <= k < |sorted| && sorted[k] == rows[i];
        assert Positive(vs[k]);
        assert vs[k] in values;
        var p :| 0 <= p < |values| && values[p] == vs[k];
        assert Id(values[p]) <= peak;
      }
    }
  }

  // ---------------------------------------------------------------------
  // computeSummaryStats

  datatype Stats =
    | VolumeStats(volume: VolumeSummary)
    | SeriesStats(series: seq<SeriesSummary>, dateRange: Option<DateSpan>)

  /** `computeSummaryStats(rows, intent)`: the volume figures for
      `volume_trend`, one summary per series for the three comparison
      types, and a single `All` series otherwise. */
  function ComputeSummaryStats(rows: seq<Row>, queryType: string): (s: Stats)
    ensures s.VolumeStats? <==> queryType == "volume_trend"
    ensures s.VolumeStats? ==> s.volume == Volume(rows)
    ensures s.SeriesStats? ==> s.dateRange == DateRange(rows)
    ensures s.SeriesStats? && PivotKey(queryType).Some? ==> s.series == MultiSeries(rows, PivotKey(queryType).value)
    ensures s.SeriesStats? && PivotKey(queryType).None? ==>
              |s.series| == 1 && s.series[0] == SingleSeries(rows, ValueKey(queryType))
  {
    if queryType == "volume_trend" then VolumeStats(Volume(rows))
    else match PivotKey(queryType)
      case Some(c) => SeriesStats(MultiSeries(rows, c), DateRange(rows))
      case None => SeriesStats([SingleSeries(rows, ValueKey(queryType))], DateRange(rows))
  }

  /** Whatever the query type, the transaction figure adds up every row. */
  lemma TransactionsCounted(rows: seq<Row>, queryType: string)
    ensures var s := ComputeSummaryStats(rows, queryType);
      && (s.VolumeStats? ==> s.volume.totalTransactions == SumBy(rows, Tx))
      && (s.SeriesStats? ==> SumBy(s.series, SeriesTx) == SumBy(rows, Tx))
  {
    var s := ComputeSummaryStats(rows, queryType);
    if s.SeriesStats? {
      match PivotKey(queryType)
      case Some(c) => MultiSeriesTotal(rows, c);
      case None =>
        assert s.series == [s.series[0]];
        assert s.series[1..] == [];
    }
  }
}
