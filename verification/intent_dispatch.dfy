/** `intentToQuery` in `src/utils/intentToQuery.js`: the structured intent
    the language model returns is routed to one of the query builders.

    The district and layout comparison builders are imported from
    `queries.js` but not defined there, so they are parameters here. */
module IntentDispatch {
  import opened Base
  import opened Queries

  /** The parts of an intent the analytics path reads. `queryType` is the
      raw string; an absent one is `""`, which no case matches. */
  datatype Intent = Intent(queryType: string, filters: FilterRecord, title: Option<string>)

  const PriceTrend := "price_trend"
  const RateTrend := "rate_trend"
  const VolumeTrend := "volume_trend"
  const ProjectComparisonType := "project_comparison"
  const DistrictComparisonType := "district_comparison"
  const LayoutDistributionType := "layout_distribution"

  predicate IsTrend(t: string) {
    t == PriceTrend || t == RateTrend || t == VolumeTrend
  }

  predicate IsKnown(t: string) {
    IsTrend(t) || t == ProjectComparisonType || t == DistrictComparisonType || t == LayoutDistributionType
  }

  /** The six fields the trend cases forward:
      `{ projects, districts, layouts, saleTypes, dateFrom, dateTo }`. */
  function TrendFilters(f: FilterRecord): (g: FilterRecord)
    ensures g.propertyTypes == [] && g.saleSequences == [] && g.priceMin.None? && g.priceMax.None?
    ensures g.projects == f.projects && g.districts == f.districts && g.layouts == f.layouts
    ensures g.saleTypes == f.saleTypes && g.dateFrom == f.dateFrom && g.dateTo == f.dateTo
  {
    EmptyFilters.(projects := f.projects, districts := f.districts, layouts := f.layouts,
                  saleTypes := f.saleTypes, dateFrom := f.dateFrom, dateTo := f.dateTo)
  }

  /** `{ dateFrom, dateTo }`, the record of the fallback case. */
  function DatesOnly(f: FilterRecord): (g: FilterRecord)
    ensures g == EmptyFilters.(dateFrom := f.dateFrom, dateTo := f.dateTo)
  {
    EmptyFilters.(dateFrom := f.dateFrom, dateTo := f.dateTo)
  }

  /** The builder an intent is routed to, with its arguments. */
  datatype Call =
    | MonthlyPriceCall(f: FilterRecord)
    | PricePerSqmCall(f: FilterRecord)
    | VolumeCall(f: FilterRecord)
    | ProjectComparisonCall(projectNames: seq<string>, dateFrom: string, dateTo: string)
    | DistrictComparisonCall(districts: seq<string>, dateFrom: string, dateTo: string)
    | LayoutComparisonCall(layouts: seq<string>, districts: seq<string>, projects: seq<string>, dateFrom: string, dateTo: string)

  /** The `switch (queryType)`. */
  function Dispatch(intent: Intent): Call {
    var f := intent.filters;
    var t := intent.queryType;
    if t == PriceTrend then MonthlyPriceCall(TrendFilters(f))
    else if t == RateTrend then PricePerSqmCall(TrendFilters(f))
    else if t == VolumeTrend then VolumeCall(TrendFilters(f))
    else if t == ProjectComparisonType then ProjectComparisonCall(f.projects, f.dateFrom, f.dateTo)
    else if t == DistrictComparisonType then DistrictComparisonCall(f.districts, f.dateFrom, f.dateTo)
    else if t == LayoutDistributionType then LayoutComparisonCall(f.layouts, f.districts, f.projects, f.dateFrom, f.dateTo)
    else MonthlyPriceCall(DatesOnly(f))
  }

  /** Fields of the filter record that reach some builder. */
  predicate AgreeOnForwarded(f: FilterRecord, g: FilterRecord) {
    f.projects == g.projects && f.districts == g.districts && f.layouts == g.layouts
    && f.saleTypes == g.saleTypes && f.dateFrom == g.dateFrom && f.dateTo == g.dateTo
  }

  /** Routing reads only the six forwarded fields: property types, sale
      sequences and price bounds in an intent never reach a query. */
  lemma DispatchIgnoresOtherFilters(t: string, f: FilterRecord, g: FilterRecord, title: Option<string>, title': Option<string>)
    requires AgreeOnForwarded(f, g)
    ensures Dispatch(Intent(t, f, title)) == Dispatch(Intent(t, g, title'))
  {
  }

  /** `intentToQuery(intent)`, given the two builders `queries.js` lacks. */
  function IntentToQuery(intent: Intent,
                         districtQuery: (seq<string>, string, string) -> Query,
                         layoutQuery: (seq<string>, seq<string>, seq<string>, string, string) -> Query): Query
  {
    match Dispatch(intent)
    case MonthlyPriceCall(g) => BuildMonthlyPriceQuery(g)
    case PricePerSqmCall(g) => BuildPricePerSqmQuery(g)
    case VolumeCall(g) => BuildVolumeQuery(g)
    case ProjectComparisonCall(ps, a, b) => BuildProjectComparisonQuery(ps, a, b)
    case DistrictComparisonCall(ds, a, b) => districtQuery(ds, a, b)
    case LayoutComparisonCall(ls, ds, ps, a, b) => layoutQuery(ls, ds, ps, a, b)
  }

  /** What the dispatched query binds, per query type: the trend templates
      with their guards, the comparison builders as called, and for any
      other type the dates-only price trend. */
  lemma IntentToQuerySpec(intent: Intent,
                          districtQuery: (seq<string>, string, string) -> Query,
                          layoutQuery: (seq<string>, seq<string>, seq<string>, string, string) -> Query)
    ensures var q := IntentToQuery(intent, districtQuery, layoutQuery);
      var f := intent.filters; var t := intent.queryType;
      && (t == PriceTrend ==> Bind(q.sql, q.params) == Some(ExpectedBindings(TrendFilters(f)) + [Binding(PriceGuard, [])]))
      && (t == RateTrend ==> Bind(q.sql, q.params) == Some(ExpectedBindings(TrendFilters(f)) + [Binding(RateGuard, [])]))
      && (t == VolumeTrend ==> Bind(q.sql, q.params) == Some(ExpectedBindings(TrendFilters(f))))
      && (t == ProjectComparisonType ==> q == BuildProjectComparisonQuery(f.projects, f.dateFrom, f.dateTo))
      && (t == DistrictComparisonType ==> q == districtQuery(f.districts, f.dateFrom, f.dateTo))
      && (t == LayoutDistributionType ==> q == layoutQuery(f.layouts, f.districts, f.projects, f.dateFrom, f.dateTo))
      && (!IsKnown(t) ==> q.params == DateParams(f.dateFrom, f.dateTo)
                          && Bind(q.sql, q.params) == Some(ExpectedBindings(DatesOnly(f)) + [Binding(PriceGuard, [])]))
  {
    var f := intent.filters;
    var t := intent.queryType;
    var q := IntentToQuery(intent, districtQuery, layoutQuery);
    if t == PriceTrend {
      assert q == BuildMonthlyPriceQuery(TrendFilters(f));
    } else if t == RateTrend {
      assert q == BuildPricePerSqmQuery(TrendFilters(f));
    } else if t == VolumeTrend {
      assert q == BuildVolumeQuery(TrendFilters(f));
    } else if !IsKnown(t) {
      DatesOnlyParams(f);
      assert q == BuildMonthlyPriceQuery(DatesOnly(f));
    }
  }

  /** The fallback record binds the two dates, when truthy, and nothing
      else. */
  lemma DatesOnlyParams(f: FilterRecord)
    ensures BuildWhereClause(DatesOnly(f)).params == DateParams(f.dateFrom, f.dateTo)
  {
    WhereShape(DatesOnly(f));
    DatesOnlyValues(f);
  }

  lemma DatesOnlyValues(f: FilterRecord)
    ensures AllValues(DatesOnly(f), WhereKeys) == DateParams(f.dateFrom, f.dateTo)
  {
    var g := DatesOnly(f);
    var ks := WhereKeys;
    TailAllValuesEmpty(g, ks, 9);
    assert ks[..9] == ks;
    assert ks[..2][..1] == ks[..1] && ks[..1][..0] == [];
    assert AllValues(g, ks[..1]) == [] + ValuesFor(g, DateFrom);
  }

  lemma {:induction false} TailAllValuesEmpty(g: FilterRecord, ks: seq<Key>, i: nat)
    requires ks == WhereKeys && 2 <= i <= 9
    requires g.propertyTypes == [] && g.districts == [] && g.layouts == [] && g.saleTypes == []
    requires g.saleSequences == [] && g.priceMin.None? && g.priceMax.None?
    ensures AllValues(g, ks[..i]) == AllValues(g, ks[..2])
  {
    if i > 2 {
      TailAllValuesEmpty(g, ks, i - 1);
      assert ks[..i][..i - 1] == ks[..i - 1];
      assert ValuesFor(g, ks[i - 1]) == [];
    }
  }

  /** A trend intent never constrains by project, property type, sale
      sequence or price, whatever its filters say. */
  lemma TrendNeverUsesOtherTemplates(intent: Intent,
                                      districtQuery: (seq<string>, string, string) -> Query,
                                      layoutQuery: (seq<string>, seq<string>, seq<string>, string, string) -> Query)
    requires IsTrend(intent.queryType)
    ensures var q := IntentToQuery(intent, districtQuery, layoutQuery);
      Bind(q.sql, q.params).Some? &&
      forall b :: b in Bind(q.sql, q.params).value ==> !Unforwarded(b.cond.key)
  {
    IntentToQuerySpec(intent, districtQuery, layoutQuery);
    TrendBindings(intent.filters);
  }

  /** Templates whose fields the trend cases do not forward. */
  predicate Unforwarded(k: Key) {
    k == Projects || k == PropertyTypes || k == SaleSequences || k == PriceMin || k == PriceMax
  }

  lemma TrendBindings(f: FilterRecord)
    ensures forall b :: b in ExpectedBindings(TrendFilters(f)) ==> !Unforwarded(b.cond.key)
  {
    ExpectedCalledFor(TrendFilters(f), WhereKeys);
  }

  /** The project comparison passes `projects` as `projectNames` and binds
      them after the dates. */
  lemma ComparisonUsesProjects(intent: Intent,
                               districtQuery: (seq<string>, string, string) -> Query,
                               layoutQuery: (seq<string>, seq<string>, seq<string>, string, string) -> Query)
    requires intent.queryType == ProjectComparisonType && |intent.filters.projects| > 0
    ensures IntentToQuery(intent, districtQuery, layoutQuery).params
            == DateParams(intent.filters.dateFrom, intent.filters.dateTo) + Strs(intent.filters.projects)
  {
    IntentToQuerySpec(intent, districtQuery, layoutQuery);
  }

  // ---------------------------------------------------------------------
  // Linking `intentToQuery.js` against `queries.js`

  /** The names `queries.js` exports, as written. */
  const QueriesExports: set<string> := {"buildWhereClause", "buildMonthlyPriceQuery", "buildPricePerSqmQuery",
                                        "buildVolumeQuery", "buildProjectComparisonQuery", "META_QUERY"}

  /** The names `intentToQuery.js` imports from `queries.js`. */
  const IntentToQueryImports: seq<string> := ["buildMonthlyPriceQuery", "buildPricePerSqmQuery", "buildVolumeQuery",
                                              "buildProjectComparisonQuery", "buildDistrictComparisonQuery",
                                              "buildLayoutComparisonQuery"]

  /** The two comparison builders the dispatch calls for districts and
      layouts. */
  const ComparisonBuilders: set<string> := {"buildDistrictComparisonQuery", "buildLayoutComparisonQuery"}

  /** The named imports an ES module link cannot resolve: those the
      target module does not export. The link succeeds only when there
      are none. */
  function MissingImports(imports: seq<string>, exports: set<string>): (r: seq<string>)
    ensures forall x :: x in r <==> x in imports && x !in exports
  {
    Filter(imports, (x: string) => x !in exports)
  }

  /** As written, the link fails: both comparison builders are imported
      but `queries.js` exports neither, so loading `intentToQuery.js`
      (and every module importing it) throws a `SyntaxError`. */
  lemma AsWrittenLinkFails()
    ensures "buildDistrictComparisonQuery" in MissingImports(IntentToQueryImports, QueriesExports)
    ensures "buildLayoutComparisonQuery" in MissingImports(IntentToQueryImports, QueriesExports)
    ensures |MissingImports(IntentToQueryImports, QueriesExports)| > 0
  {
    var district, layout := "buildDistrictComparisonQuery", "buildLayoutComparisonQuery";
    assert IntentToQueryImports[4] == district && IntentToQueryImports[5] == layout;
    assert forall e | e in QueriesExports :: |e| <= 27;
    assert |district| == 28 && |layout| == 26;
    assert "buildProjectComparisonQuery" != layout;
    assert district !in QueriesExports && layout !in QueriesExports;
  }

  /** With the two comparison builders exported, every import resolves.
      This is the module the dispatch above assumes: the builders are
      its parameters. */
  lemma CorrectedLinkResolves()
    ensures MissingImports(IntentToQueryImports, QueriesExports + ComparisonBuilders) == []
  {
  }
}
