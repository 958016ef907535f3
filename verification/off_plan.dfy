/** The `pivot` helper and the `series` list of
    `src/components/charts/OffPlanChart.jsx`: off-plan versus ready price per
    square metre, one line per sale type. Values are kept exactly as the
    query returns them, so they are `real` here and never rounded. */
module OffPlan {
  import opened Base
  import opened Text
  import opened ChartPivot

  /** `{ month, sale_type, avg_rate }`. */
  datatype OffPlanRow = OffPlanRow(month: string, saleType: string, avgRate: real)

  function Cells(rows: seq<OffPlanRow>): (cells: seq<Cell<real>>)
    ensures |cells| == |rows|
    ensures forall i :: 0 <= i < |rows| ==> cells[i] == Cell(rows[i].month, rows[i].saleType, rows[i].avgRate)
  {
    seq(|rows|, i requires 0 <= i < |rows| => Cell(rows[i].month, rows[i].saleType, rows[i].avgRate))
  }

  /** The month of each row, in row order. */
  function RowMonths(rows: seq<OffPlanRow>): (ms: seq<string>)
    ensures |ms| == |rows| && forall i :: 0 <= i < |rows| ==> ms[i] == rows[i].month
  {
    seq(|rows|, i requires 0 <= i < |rows| => rows[i].month)
  }

  /** `pivot(rows)`: `[]` for a missing or empty list, otherwise one record
      per distinct month in ascending order, each sale type holding the raw
      `avg_rate` of its last row in that month. */
  function Pivot(data: Option<seq<OffPlanRow>>): (records: seq<Record<real>>)
    ensures data.None? || |data.value| == 0 ==> records == []
    ensures data.Some? ==>
      var cells := Cells(data.value);
      && (forall i, j :: 0 <= i < j < |records| ==> LexLt(records[i].month, records[j].month))
      && (forall j :: 0 <= j < |data.value| ==> exists i :: 0 <= i < |records| && records[i].month == data.value[j].month)
      && (forall i :: 0 <= i < |records| ==> records[i].month in RowMonths(data.value))
      && (forall i, k :: 0 <= i < |records| ==> (k in records[i].values <==> LastWrite(cells, records[i].month, k).Some?))
      && (forall i, k :: 0 <= i < |records| && k in records[i].values ==>
            records[i].values[k] == data.value[LastWrite(cells, records[i].month, k).value].avgRate)
  {
    if data.None? || |data.value| == 0 then []
    else
      var records := PivotCells(Cells(data.value));
      PivotRows(data.value, records);
      records
  }

  /** The pivot of the rows' cells, read back in terms of the rows: the
      record months are exactly the rows' months, and each value is the
      `avg_rate` of the last row writing it. */
  lemma PivotRows(rows: seq<OffPlanRow>, records: seq<Record<real>>)
    requires records == PivotCells(Cells(rows))
    ensures forall j :: 0 <= j < |rows| ==> exists i :: 0 <= i < |records| && records[i].month == rows[j].month
    ensures forall i :: 0 <= i < |records| ==> records[i].month in RowMonths(rows)
    ensures forall i, k :: 0 <= i < |records| && k in records[i].values ==>
              records[i].values[k] == rows[LastWrite(Cells(rows), records[i].month, k).value].avgRate
  {
    var cells := Cells(rows);
    forall j | 0 <= j < |rows| ensures exists i :: 0 <= i < |records| && records[i].month == rows[j].month {
      assert cells[j].month == rows[j].month;
      var i :| 0 <= i < |records| && records[i].month == cells[j].month;
    }
    assert MonthsOf(cells) == RowMonths(rows);
    forall i, k | 0 <= i < |records| && k in records[i].values
      ensures records[i].values[k] == rows[LastWrite(cells, records[i].month, k).value].avgRate
    {
      var w := LastWrite(cells, records[i].month, k).value;
      assert cells[w].value == rows[w].avgRate;
    }
  }

  function SaleTypes(rows: seq<OffPlanRow>): (ts: seq<string>)
    ensures |ts| == |rows| && forall i :: 0 <= i < |rows| ==> ts[i] == rows[i].saleType
  {
    seq(|rows|, i requires 0 <= i < |rows| => rows[i].saleType)
  }

  /** `[...new Set(data?.map(d => d.sale_type) ?? [])]`: the distinct sale
      types in the order they first occur. */
  function Series(data: Option<seq<OffPlanRow>>): (s: seq<string>)
    ensures data.None? ==> s == []
    ensures NoDups(s)
    ensures data.Some? ==> forall j :: 0 <= j < |data.value| ==> data.value[j].saleType in s
    ensures data.Some? ==> forall i :: 0 <= i < |s| ==> s[i] in SaleTypes(data.value)
    ensures data.Some? ==> forall i, j :: 0 <= i < j < |s| ==>
              FirstIndex(SaleTypes(data.value), s[i]) < FirstIndex(SaleTypes(data.value), s[j])
  {
    match data
    case None => []
    case Some(rows) =>
      var ts := SaleTypes(rows);
      FirstSeenOrder(ts);
      FirstSeen(ts)
  }
}
