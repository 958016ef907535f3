/** `src/hooks/useFilters.js`: the filter record the feed's queries read,
    with `update(key, value)` and `reset()`.

    The hook's record has no `projects` list; here it is the query layer's
    `FilterRecord` with `projects` left empty, which no builder reads. An
    update is typed by its key: the source's callers always pass a string
    for a date, a list for a list and a number or `null` for a price. */
module FilterState {
  import opened Base
  import opened Queries

  /** The nine keys of the hook's record. */
  datatype FilterKey =
    | DateFromKey | DateToKey
    | DistrictsKey | PropertyTypesKey | LayoutsKey | SaleTypesKey | SaleSequencesKey
    | PriceMinKey | PriceMaxKey

  /** The value stored under a key. */
  datatype FilterValue = DateValue(s: string) | ListValue(xs: seq<string>) | PriceValue(p: Option<int>)

  /** The value kind each key holds. */
  predicate Fits(k: FilterKey, v: FilterValue) {
    match k
    case DateFromKey => v.DateValue?
    case DateToKey => v.DateValue?
    case PriceMinKey => v.PriceValue?
    case PriceMaxKey => v.PriceValue?
    case _ => v.ListValue?
  }

  /** `filters[key]`. */
  function Get(f: FilterRecord, k: FilterKey): (v: FilterValue)
    ensures Fits(k, v)
  {
    match k
    case DateFromKey => DateValue(f.dateFrom)
    case DateToKey => DateValue(f.dateTo)
    case DistrictsKey => ListValue(f.districts)
    case PropertyTypesKey => ListValue(f.propertyTypes)
    case LayoutsKey => ListValue(f.layouts)
    case SaleTypesKey => ListValue(f.saleTypes)
    case SaleSequencesKey => ListValue(f.saleSequences)
    case PriceMinKey => PriceValue(f.priceMin)
    case PriceMaxKey => PriceValue(f.priceMax)
  }

  /** Two records that agree on every key and on `projects` are equal. */
  lemma SameRecord(f: FilterRecord, g: FilterRecord)
    requires forall k: FilterKey :: Get(f, k) == Get(g, k)
    requires f.projects == g.projects
    ensures f == g
  {
    assert Get(f, DateFromKey) == Get(g, DateFromKey) && Get(f, DateToKey) == Get(g, DateToKey);
    assert Get(f, DistrictsKey) == Get(g, DistrictsKey) && Get(f, PropertyTypesKey) == Get(g, PropertyTypesKey);
    assert Get(f, LayoutsKey) == Get(g, LayoutsKey) && Get(f, SaleTypesKey) == Get(g, SaleTypesKey);
    assert Get(f, SaleSequencesKey) == Get(g, SaleSequencesKey);
    assert Get(f, PriceMinKey) == Get(g, PriceMinKey) && Get(f, PriceMaxKey) == Get(g, PriceMaxKey);
  }

  /** `setFilters(prev => ({ ...prev, [key]: value }))`: the named key
      takes the value and every other entry is as before. */
  function Update(f: FilterRecord, k: FilterKey, v: FilterValue): (r: FilterRecord)
    requires Fits(k, v)
    ensures Get(r, k) == v
    ensures forall k' :: k' != k ==> Get(r, k') == Get(f, k')
    ensures r.projects == f.projects
  {
    match k
    case DateFromKey => f.(dateFrom := v.s)
    case DateToKey => f.(dateTo := v.s)
    case DistrictsKey => f.(districts := v.xs)
    case PropertyTypesKey => f.(propertyTypes := v.xs)
    case LayoutsKey => f.(layouts := v.xs)
    case SaleTypesKey => f.(saleTypes := v.xs)
    case SaleSequencesKey => f.(saleSequences := v.xs)
    case PriceMinKey => f.(priceMin := v.p)
    case PriceMaxKey => f.(priceMax := v.p)
  }

  /** The record the hook starts with: empty dates, empty lists, `null`
      prices. */
  function Initial(): (f: FilterRecord)
    ensures forall k: FilterKey :: Get(f, k) == (match k
      case DateFromKey => DateValue("") case DateToKey => DateValue("")
      case PriceMinKey => PriceValue(None) case PriceMaxKey => PriceValue(None)
      case _ => ListValue([]))
    ensures f.projects == []
  {
    EmptyFilters
  }

  /** The initial record filters nothing: `where` is empty and no parameter
      is bound. */
  lemma InitialWhere()
    ensures BuildWhereClause(Initial()) == WhereClause([], [])
  {
    EmptyWhere();
  }

  /** `reset()`: the initial record, whatever came before. */
  function Reset(f: FilterRecord): (r: FilterRecord)
    ensures r == Initial()
  {
    FilterRecord("", "", [], [], [], [], [], [], None, None)
  }

  /** A second update of the same key overrides the first. */
  lemma UpdateLastWins(f: FilterRecord, k: FilterKey, v: FilterValue, w: FilterValue)
    requires Fits(k, v) && Fits(k, w)
    ensures Update(Update(f, k, v), k, w) == Update(f, k, w)
  {
    var a := Update(Update(f, k, v), k, w);
    var b := Update(f, k, w);
    forall k' ensures Get(a, k') == Get(b, k') {
    }
    SameRecord(a, b);
  }

  /** Updates of different keys commute. */
  lemma UpdateCommute(f: FilterRecord, k1: FilterKey, v1: FilterValue, k2: FilterKey, v2: FilterValue)
    requires k1 != k2 && Fits(k1, v1) && Fits(k2, v2)
    ensures Update(Update(f, k1, v1), k2, v2) == Update(Update(f, k2, v2), k1, v1)
  {
    var a := Update(Update(f, k1, v1), k2, v2);
    var b := Update(Update(f, k2, v2), k1, v1);
    forall k' ensures Get(a, k') == Get(b, k') {
    }
    SameRecord(a, b);
  }

  /** Writing back the value a key already holds changes nothing. */
  lemma UpdateSame(f: FilterRecord, k: FilterKey)
    ensures Update(f, k, Get(f, k)) == f
  {
    var a := Update(f, k, Get(f, k));
    forall k' ensures Get(a, k') == Get(f, k') {
    }
    SameRecord(a, f);
  }

  /** A reset after any updates is the initial record, and resetting twice
      is resetting once. */
  lemma ResetAfterUpdate(f: FilterRecord, k: FilterKey, v: FilterValue)
    requires Fits(k, v)
    ensures Reset(Update(f, k, v)) == Reset(f) == Initial()
    ensures Reset(Reset(f)) == Reset(f)
  {
  }
}
