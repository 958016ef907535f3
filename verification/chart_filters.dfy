/** `src/hooks/useChartFilters.js`: the Chart tab's filter record, with
    default date bounds taken from the clock and the chosen default range.

    The clock is the `now` parameter, the first day of the current month as
    `new Date()` reports it. Updates are typed by key, as in `FilterState`. */
module ChartFilters {
  import opened Text
  import opened YearMonth
  import FilterState

  datatype ChartFilters = ChartFilters(dateFrom: string, dateTo: string, districts: seq<string>,
                                       projects: seq<string>, propertyTypes: seq<string>,
                                       layouts: seq<string>, saleTypes: seq<string>)

  /** The seven keys of the record. */
  datatype ChartKey = DateFromKey | DateToKey | DistrictsKey | ProjectsKey | PropertyTypesKey | LayoutsKey | SaleTypesKey

  type FilterValue = FilterState.FilterValue

  /** Dates hold text, every other key a list. */
  predicate Fits(k: ChartKey, v: FilterValue) {
    if k == DateFromKey || k == DateToKey then v.DateValue? else v.ListValue?
  }

  /** `filters[key]`. */
  function Get(f: ChartFilters, k: ChartKey): (v: FilterValue)
    ensures Fits(k, v)
  {
    match k
    case DateFromKey => FilterState.DateValue(f.dateFrom)
    case DateToKey => FilterState.DateValue(f.dateTo)
    case DistrictsKey => FilterState.ListValue(f.districts)
    case ProjectsKey => FilterState.ListValue(f.projects)
    case PropertyTypesKey => FilterState.ListValue(f.propertyTypes)
    case LayoutsKey => FilterState.ListValue(f.layouts)
    case SaleTypesKey => FilterState.ListValue(f.saleTypes)
  }

  /** Two records that agree on every key are equal. */
  lemma SameRecord(f: ChartFilters, g: ChartFilters)
    requires forall k: ChartKey :: Get(f, k) == Get(g, k)
    ensures f == g
  {
    assert Get(f, DateFromKey) == Get(g, DateFromKey) && Get(f, DateToKey) == Get(g, DateToKey);
    assert Get(f, DistrictsKey) == Get(g, DistrictsKey) && Get(f, ProjectsKey) == Get(g, ProjectsKey);
    assert Get(f, PropertyTypesKey) == Get(g, PropertyTypesKey) && Get(f, LayoutsKey) == Get(g, LayoutsKey);
    assert Get(f, SaleTypesKey) == Get(g, SaleTypesKey);
  }

  /** How far back the default `dateFrom` lies: 24 months for `'24m'`,
      12 for anything else. */
  function Span(range: string): (n: nat)
    ensures n == 24 <==> range == "24m"
    ensures n != 24 ==> n == 12
  {
    if range == "24m" then 24 else 12
  }

  datatype Dates = Dates(dateFrom: string, dateTo: string)

  /** `getDefaultDates()`: no bounds for `'all'`; otherwise the current
      month, and the month `Span(range)` months before it, borrowing from
      the year as needed. */
  function DefaultDates(range: string, now: MonthStart): (d: Dates)
    requires Normal(now)
    ensures range == "all" <==> d == Dates("", "")
    ensures range != "all" ==> d.dateTo == Format(now.year, now.index)
  {
    if range == "all" then Dates("", "")
    else
      var from := MakeDate(now.year, now.index - Span(range));
      Dates(Format(from.year, from.index), Format(now.year, now.index))
  }

  /** The month `DefaultDates` counts back to. */
  function FromMonth(range: string, now: MonthStart): (m: MonthStart)
    ensures Normal(m) && Count(m) == JsYear(now.year) * 12 + now.index - Span(range)
  {
    MakeDate(now.year, now.index - Span(range))
  }

  lemma DefaultsAre(range: string, now: MonthStart)
    requires Normal(now) && range != "all"
    ensures DefaultDates(range, now) == Dates(Format(FromMonth(range, now).year, FromMonth(range, now).index),
                                              Format(now.year, now.index))
  {
  }

  /** `dateFrom` formats the month `Span(range)` months before the current
      one, borrowing from the year as needed. */
  lemma DefaultFrom(range: string, now: MonthStart)
    requires Normal(now) && range != "all"
    ensures exists from: MonthStart ::
      && Normal(from)
      && Count(from) == JsYear(now.year) * 12 + now.index - Span(range)
      && DefaultDates(range, now).dateFrom == Format(from.year, from.index)
  {
    DefaultsAre(range, now);
    var from := FromMonth(range, now);
    assert DefaultDates(range, now).dateFrom == Format(from.year, from.index);
  }

  /** The month part of `dateFrom` is always a two-digit month from `01`
      to `12`. */
  lemma DefaultFromMonth(range: string, now: MonthStart)
    requires Normal(now) && range != "all"
    ensures EndsInMonth(DefaultDates(range, now).dateFrom)
  {
    DefaultsAre(range, now);
  }

  /** In a four-digit year the defaults are valid months, `dateTo` is the
      current one and `dateFrom` lies exactly `Span(range)` months before
      it, so `dateFrom < dateTo` as strings. */
  lemma DefaultSpan(range: string, now: MonthStart)
    requires Normal(now) && range != "all"
    requires 1002 <= now.year <= 9999
    ensures var d := DefaultDates(range, now);
      && IsValidYM(d.dateFrom) && IsValidYM(d.dateTo)
      && Ordinal(d.dateTo) == now.year * 12 + now.index
      && Ordinal(d.dateTo) - Ordinal(d.dateFrom) == Span(range)
      && LexLt(d.dateFrom, d.dateTo)
  {
    var from := FromMonth(range, now);
    DefaultsAre(range, now);
    assert 1000 <= from.year <= 9999 by {
      assert JsYear(now.year) == now.year;
      assert from.year * 12 + from.index == now.year * 12 + now.index - Span(range);
    }
    FormatValid(from.year, from.index);
    FormatValid(now.year, now.index);
    var d := DefaultDates(range, now);
    Chronological(d.dateFrom, d.dateTo);
  }

  /** The record the hook starts with, and `resetFilters()`: the default
      dates and five empty lists. */
  function Initial(range: string, now: MonthStart): (f: ChartFilters)
    requires Normal(now)
    ensures Dates(f.dateFrom, f.dateTo) == DefaultDates(range, now)
    ensures forall k: ChartKey :: k != DateFromKey && k != DateToKey ==> Get(f, k) == FilterState.ListValue([])
  {
    var d := DefaultDates(range, now);
    ChartFilters(d.dateFrom, d.dateTo, [], [], [], [], [])
  }

  /** `updateFilter(key, value)`: the named key takes the value, every
      other entry is as before. */
  function UpdateFilter(f: ChartFilters, k: ChartKey, v: FilterValue): (r: ChartFilters)
    requires Fits(k, v)
    ensures Get(r, k) == v
    ensures forall k' :: k' != k ==> Get(r, k') == Get(f, k')
  {
    match k
    case DateFromKey => f.(dateFrom := v.s)
    case DateToKey => f.(dateTo := v.s)
    case DistrictsKey => f.(districts := v.xs)
    case ProjectsKey => f.(projects := v.xs)
    case PropertyTypesKey => f.(propertyTypes := v.xs)
    case LayoutsKey => f.(layouts := v.xs)
    case SaleTypesKey => f.(saleTypes := v.xs)
  }

  /** `resetFilters()`, read at the time `now` of the reset. */
  function ResetFilters(f: ChartFilters, range: string, now: MonthStart): (r: ChartFilters)
    requires Normal(now)
    ensures r == Initial(range, now)
  {
    var d := DefaultDates(range, now);
    ChartFilters(d.dateFrom, d.dateTo, [], [], [], [], [])
  }

  /** A second update of the same key overrides the first, and updates of
      different keys commute. */
  lemma UpdateOrder(f: ChartFilters, k1: ChartKey, v1: FilterValue, k2: ChartKey, v2: FilterValue)
    requires Fits(k1, v1) && Fits(k2, v2)
    ensures k1 == k2 ==> UpdateFilter(UpdateFilter(f, k1, v1), k2, v2) == UpdateFilter(f, k2, v2)
    ensures k1 != k2 ==> UpdateFilter(UpdateFilter(f, k1, v1), k2, v2) == UpdateFilter(UpdateFilter(f, k2, v2), k1, v1)
  {
    var a := UpdateFilter(UpdateFilter(f, k1, v1), k2, v2);
    if k1 == k2 {
      var b := UpdateFilter(f, k2, v2);
      forall k ensures Get(a, k) == Get(b, k) {
      }
      SameRecord(a, b);
    } else {
      var b := UpdateFilter(UpdateFilter(f, k2, v2), k1, v1);
      forall k ensures Get(a, k) == Get(b, k) {
      }
      SameRecord(a, b);
    }
  }

  /** A reset forgets every update: it depends only on the range and the
      clock. */
  lemma ResetForgets(f: ChartFilters, k: ChartKey, v: FilterValue, range: string, now: MonthStart)
    requires Normal(now) && Fits(k, v)
    ensures ResetFilters(UpdateFilter(f, k, v), range, now) == ResetFilters(f, range, now)
  {
  }
}
