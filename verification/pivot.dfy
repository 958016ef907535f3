/** `pivotChartData` in `src/utils/intentToQuery.js`: multi-series rows
    `(month, series, value)` become one record per month keyed by series
    name, which is the shape the chart library draws.

    The pivot itself is generic in the cell value so that the off-plan
    chart, which keeps its values unrounded, shares it. */
module ChartPivot {
  import opened Base
  import opened Text
  import opened Sorting

  /** One `(month, series, value)` observation. */
  datatype Cell<V> = Cell(month: string, series: string, value: V)

  /** `{ month, [series]: value, … }`. */
  datatype Record<V> = Record(month: string, values: map<string, V>)

  function MonthsOf<V>(cells: seq<Cell<V>>): (ms: seq<string>)
    ensures |ms| == |cells| && forall i :: 0 <= i < |cells| ==> ms[i] == cells[i].month
  {
    seq(|cells|, i requires 0 <= i < |cells| => cells[i].month)
  }

  predicate Writes<V>(c: Cell<V>, month: string, series: string) {
    c.month == month && c.series == series
  }

  /** The position of the last cell for `(month, series)`: its value is the
      one that survives the overwrites. */
  function LastWrite<V>(cells: seq<Cell<V>>, month: string, series: string): (r: Option<nat>)
    ensures r.Some? ==> r.value < |cells| && Writes(cells[r.value], month, series)
                        && forall j :: r.value < j < |cells| ==> !Writes(cells[j], month, series)
    ensures r.None? ==> forall j :: 0 <= j < |cells| ==> !Writes(cells[j], month, series)
  {
    if |cells| == 0 then None
    else if Writes(cells[|cells| - 1], month, series) then Some(|cells| - 1)
    else LastWrite(cells[..|cells| - 1], month, series)
  }

  /** `byMonth` after the `forEach`: `byMonth[month][series] = value` for
      each cell in turn. */
  function Accumulate<V>(cells: seq<Cell<V>>): (m: map<string, map<string, V>>)
    ensures forall mo :: mo in m <==> mo in MonthsOf(cells)
    ensures forall mo, k :: mo in m ==> (k in m[mo] <==> LastWrite(cells, mo, k).Some?)
    ensures forall mo, k :: mo in m && k in m[mo] ==> m[mo][k] == cells[LastWrite(cells, mo, k).value].value
  {
    if |cells| == 0 then map[]
    else
      var n := |cells| - 1;
      var pre := cells[..n];
      var m := Accumulate(pre);
      var c := cells[n];
      var row := if c.month in m then m[c.month] else map[];
      assert MonthsOf(cells) == MonthsOf(pre) + [c.month];
      assert forall j :: 0 <= j < n ==> cells[j] == pre[j];
      m[c.month := row[c.series := c.value]]
  }

  /** `Object.values(byMonth).sort((a, b) => a.month.localeCompare(b.month))`:
      one record per distinct month, ascending, holding for each series the
      value of its last cell in that month. */
  function PivotCells<V>(cells: seq<Cell<V>>): (records: seq<Record<V>>)
    ensures forall i, j :: 0 <= i < j < |records| ==> LexLt(records[i].month, records[j].month)
    ensures forall i :: 0 <= i < |records| ==> records[i].month in MonthsOf(cells)
    ensures forall j :: 0 <= j < |cells| ==> exists i :: 0 <= i < |records| && records[i].month == cells[j].month
    ensures forall i, k :: 0 <= i < |records| ==> (k in records[i].values <==> LastWrite(cells, records[i].month, k).Some?)
    ensures forall i, k :: 0 <= i < |records| && k in records[i].values ==>
              records[i].values[k] == cells[LastWrite(cells, records[i].month, k).value].value
  {
    var m := Accumulate(cells);
    var months := SortedUnique(MonthsOf(cells));
    var records := RecordsOf(m, months);
    PivotFacts(cells, m, months, records);
    records
  }

  /** One record per month, holding that month's row of `m`. */
  function RecordsOf<V>(m: map<string, map<string, V>>, months: seq<string>): (rs: seq<Record<V>>)
    requires forall i :: 0 <= i < |months| ==> months[i] in m
    ensures |rs| == |months| && forall i :: 0 <= i < |months| ==> rs[i] == Record(months[i], m[months[i]])
  {
    if |months| == 0 then [] else RecordsOf(m, months[..|months| - 1]) + [Record(months[|months| - 1], m[months[|months| - 1]])]
  }

  /** The records built from the accumulated map and the sorted months
      have the properties `PivotCells` promises. */
  lemma PivotFacts<V>(cells: seq<Cell<V>>, m: map<string, map<string, V>>, months: seq<string>, records: seq<Record<V>>)
    requires m == Accumulate(cells) && months == SortedUnique(MonthsOf(cells))
    requires |records| == |months| && forall i :: 0 <= i < |months| ==> months[i] in m && records[i] == Record(months[i], m[months[i]])
    ensures forall i, j :: 0 <= i < j < |records| ==> LexLt(records[i].month, records[j].month)
    ensures forall i :: 0 <= i < |records| ==> records[i].month in MonthsOf(cells)
    ensures forall j :: 0 <= j < |cells| ==> exists i :: 0 <= i < |records| && records[i].month == cells[j].month
    ensures forall i, k :: 0 <= i < |records| ==> (k in records[i].values <==> LastWrite(cells, records[i].month, k).Some?)
    ensures forall i, k :: 0 <= i < |records| && k in records[i].values ==>
              records[i].values[k] == cells[LastWrite(cells, records[i].month, k).value].value
  {
    forall j | 0 <= j < |cells| ensures exists i :: 0 <= i < |records| && records[i].month == cells[j].month {
      assert MonthsOf(cells)[j] == cells[j].month;
      var i := IndexIn(months, cells[j].month);
      assert records[i].month == cells[j].month;
    }
  }

  function IndexIn(s: seq<string>, x: string): (i: nat)
    requires x in s
    ensures i < |s| && s[i] == x
  {
    FirstIndex(s, x)
  }

  // ---------------------------------------------------------------------
  // pivotChartData over query rows

  /** A result row of the analytics queries. Every value column is an
      integer here: medians and counts as DuckDB returns them. */
  datatype Row = Row(month: string, projectName: string, district: string, layout: string,
                     medianPrice: int, medianRate: int, txCount: int)

  datatype PivotColumn = ProjectNameColumn | DistrictColumn | LayoutColumn

  /** The `PIVOT_KEY` lookup table. */
  function PivotKey(queryType: string): (c: Option<PivotColumn>)
    ensures c == Some(ProjectNameColumn) <==> queryType == "project_comparison"
    ensures c == Some(DistrictColumn) <==> queryType == "district_comparison"
    ensures c == Some(LayoutColumn) <==> queryType == "layout_distribution"
  {
    if queryType == "project_comparison" then Some(ProjectNameColumn)
    else if queryType == "district_comparison" then Some(DistrictColumn)
    else if queryType == "layout_distribution" then Some(LayoutColumn)
    else None
  }

  /** `String(row[PIVOT_KEY])`. */
  function SeriesName(r: Row, c: PivotColumn): string {
    match c
    case ProjectNameColumn => r.projectName
    case DistrictColumn => r.district
    case LayoutColumn => r.layout
  }

  function Names(rows: seq<Row>, c: PivotColumn): (ns: seq<string>)
    ensures |ns| == |rows| && forall i :: 0 <= i < |rows| ==> ns[i] == SeriesName(rows[i], c)
  {
    seq(|rows|, i requires 0 <= i < |rows| => SeriesName(rows[i], c))
  }

  /** The cells of the rows: `Math.round(Number(median_price))`, which is
      the median itself since it is an integer here. */
  function RowCells(rows: seq<Row>, c: PivotColumn): (cells: seq<Cell<int>>)
    ensures |cells| == |rows|
    ensures forall i :: 0 <= i < |rows| ==> cells[i] == Cell(rows[i].month, SeriesName(rows[i], c), rows[i].medianPrice)
  {
    seq(|rows|, i requires 0 <= i < |rows| => Cell(rows[i].month, SeriesName(rows[i], c), rows[i].medianPrice))
  }

  datatype ChartData = Flat(rows: seq<Row>) | Pivoted(records: seq<Record<int>>)
  datatype Chart = Chart(chartData: ChartData, chartKeys: seq<string>)

  predicate RowWrites(r: Row, c: PivotColumn, month: string, series: string) {
    r.month == month && SeriesName(r, c) == series
  }

  /** `pivotChartData(rows, { queryType })`. */
  function PivotChartData(rows: seq<Row>, queryType: string): (chart: Chart)
    ensures PivotKey(queryType).None? ==> chart == Chart(Flat(rows), [])
    ensures PivotKey(queryType).Some? ==>
      var c := PivotKey(queryType).value;
      var keys := chart.chartKeys;
      && chart.chartData.Pivoted?
      && NoDups(keys)
      && (forall i :: 0 <= i < |keys| ==> keys[i] in Names(rows, c))
      && (forall j :: 0 <= j < |rows| ==> SeriesName(rows[j], c) in keys)
      && (forall i, j :: 0 <= i < j < |keys| ==> FirstIndex(Names(rows, c), keys[i]) < FirstIndex(Names(rows, c), keys[j]))
  {
    match PivotKey(queryType)
    case None => Chart(Flat(rows), [])
    case Some(c) =>
      var names := Names(rows, c);
      FirstSeenOrder(names);
      Chart(Pivoted(PivotCells(RowCells(rows, c))), FirstSeen(names))
  }

  /** A pivoted chart holds the pivot of the rows' cells. */
  lemma PivotedIsPivotCells(rows: seq<Row>, queryType: string)
    requires PivotKey(queryType).Some?
    ensures PivotChartData(rows, queryType).chartData == Pivoted(PivotCells(RowCells(rows, PivotKey(queryType).value)))
  {
  }

  /** The months of a pivoted chart, stated over the rows: one record per
      distinct month of the rows, in ascending order. */
  lemma PivotedMonths(rows: seq<Row>, queryType: string)
    requires PivotKey(queryType).Some?
    ensures var records := PivotChartData(rows, queryType).chartData.records;
      && (forall i, j :: 0 <= i < j < |records| ==> LexLt(records[i].month, records[j].month))
      && (forall i :: 0 <= i < |records| ==> exists j :: 0 <= j < |rows| && rows[j].month == records[i].month)
      && (forall j :: 0 <= j < |rows| ==> exists i :: 0 <= i < |records| && records[i].month == rows[j].month)
  {
    var c := PivotKey(queryType).value;
    PivotedIsPivotCells(rows, queryType);
    RecordMonthsFromRows(rows, c);
    RecordMonthsCoverRows(rows, c);
  }

  /** The cells of a pivoted chart, stated over the rows: a series is
      present in a month exactly when some row has that month and series
      name, and its value is the median price of the last such row. */
  lemma PivotedValues(rows: seq<Row>, queryType: string)
    requires PivotKey(queryType).Some?
    ensures var c := PivotKey(queryType).value;
      var records := PivotChartData(rows, queryType).chartData.records;
      && (forall i, k :: 0 <= i < |records| ==>
            (k in records[i].values <==> exists j :: 0 <= j < |rows| && RowWrites(rows[j], c, records[i].month, k)))
      && (forall i, k :: 0 <= i < |records| && k in records[i].values ==>
            exists j :: 0 <= j < |rows| && RowWrites(rows[j], c, records[i].month, k)
                        && records[i].values[k] == rows[j].medianPrice
                        && forall j' :: j < j' < |rows| ==> !RowWrites(rows[j'], c, records[i].month, k))
  {
    var c := PivotKey(queryType).value;
    PivotedIsPivotCells(rows, queryType);
    CellValuesFromRows(rows, c, PivotChartData(rows, queryType).chartData.records);
  }

  /** The two halves of `PivotedValues` over the pivot of the rows'
      cells. */
  lemma CellValuesFromRows(rows: seq<Row>, c: PivotColumn, records: seq<Record<int>>)
    requires records == PivotCells(RowCells(rows, c))
    ensures forall i, k :: 0 <= i < |records| ==>
              (k in records[i].values <==> exists j :: 0 <= j < |rows| && RowWrites(rows[j], c, records[i].month, k))
    ensures forall i, k :: 0 <= i < |records| && k in records[i].values ==>
              exists j :: 0 <= j < |rows| && RowWrites(rows[j], c, records[i].month, k)
                          && records[i].values[k] == rows[j].medianPrice
                          && forall j' :: j < j' < |rows| ==> !RowWrites(rows[j'], c, records[i].month, k)
  {
    RecordKeysFromRows(rows, c);
    RecordValuesFromRows(rows, c);
  }

  lemma RecordMonthsFromRows(rows: seq<Row>, c: PivotColumn)
    ensures var records := PivotCells(RowCells(rows, c));
      forall i :: 0 <= i < |records| ==> exists j :: 0 <= j < |rows| && rows[j].month == records[i].month
  {
    var cells := RowCells(rows, c);
    var records := PivotCells(cells);
    forall i | 0 <= i < |records| ensures exists j :: 0 <= j < |rows| && rows[j].month == records[i].month {
      var j := IndexIn(MonthsOf(cells), records[i].month);
      assert rows[j].month == cells[j].month;
    }
  }

  lemma RecordMonthsCoverRows(rows: seq<Row>, c: PivotColumn)
    ensures var records := PivotCells(RowCells(rows, c));
      forall j :: 0 <= j < |rows| ==> exists i :: 0 <= i < |records| && records[i].month == rows[j].month
  {
    var cells := RowCells(rows, c);
    var records := PivotCells(cells);
    forall j | 0 <= j < |rows| ensures exists i :: 0 <= i < |records| && records[i].month == rows[j].month {
      assert cells[j].month == rows[j].month;
      var i :| 0 <= i < |records| && records[i].month == cells[j].month;
    }
  }

  lemma RecordKeysFromRows(rows: seq<Row>, c: PivotColumn)
    ensures var records := PivotCells(RowCells(rows, c));
      forall i, k :: 0 <= i < |records| ==>
        (k in records[i].values <==> exists j :: 0 <= j < |rows| && RowWrites(rows[j], c, records[i].month, k))
  {
    var cells := RowCells(rows, c);
    var records := PivotCells(cells);
    forall i, k | 0 <= i < |records|
      ensures k in records[i].values <==> exists j :: 0 <= j < |rows| && RowWrites(rows[j], c, records[i].month, k)
    {
      if exists j :: 0 <= j < |rows| && RowWrites(rows[j], c, records[i].month, k) {
        var j :| 0 <= j < |rows| && RowWrites(rows[j], c, records[i].month, k);
        assert Writes(cells[j], records[i].month, k);
      }
    }
  }

  lemma RecordValuesFromRows(rows: seq<Row>, c: PivotColumn)
    ensures var records := PivotCells(RowCells(rows, c));
      forall i, k :: 0 <= i < |records| && k in records[i].values ==>
        exists j :: 0 <= j < |rows| && RowWrites(rows[j], c, records[i].month, k)
                    && records[i].values[k] == rows[j].medianPrice
                    && forall j' :: j < j' < |rows| ==> !RowWrites(rows[j'], c, records[i].month, k)
  {
    var cells := RowCells(rows, c);
    var records := PivotCells(cells);
    forall i, k | 0 <= i < |records| && k in records[i].values
      ensures exists j :: 0 <= j < |rows| && RowWrites(rows[j], c, records[i].month, k)
                          && records[i].values[k] == rows[j].medianPrice
                          && forall j' :: j < j' < |rows| ==> !RowWrites(rows[j'], c, records[i].month, k)
    {
      var j := LastWrite(cells, records[i].month, k).value;
      assert cells[j] == Cell(rows[j].month, SeriesName(rows[j], c), rows[j].medianPrice);
      assert RowWrites(rows[j], c, records[i].month, k);
      assert records[i].values[k] == rows[j].medianPrice;
      forall j' | j < j' < |rows| ensures !RowWrites(rows[j'], c, records[i].month, k) {
        assert !Writes(cells[j'], records[i].month, k);
      }
    }
  }

  /** Rows of a single-series query type pass through untouched. */
  lemma FlatPassThrough(rows: seq<Row>)
    ensures PivotChartData(rows, "price_trend") == Chart(Flat(rows), [])
    ensures PivotChartData(rows, "rate_trend") == Chart(Flat(rows), [])
    ensures PivotChartData(rows, "volume_trend") == Chart(Flat(rows), [])
  {
  }
}
