# Abu Dhabi Sales Explorer — a Dafny model of its core

The Abu Dhabi Sales Explorer answers questions about Abu Dhabi real estate
transactions in plain language. The browser sends the question to the
`/api/analyze` function. That function asks Claude for a structured *intent*: a
query type, filters and a title. The browser turns the intent into
parameterised SQL, runs it against an in-browser DuckDB, pivots the rows for a
chart, and condenses them into summary statistics. It then streams an analyst's
commentary from `/api/explain` into a *post*. Posts are kept newest-first in
local storage.

This project models that pipeline as pure Dafny functions over immutable data:

- **Queries** (`src/utils/queries.js`): the WHERE-clause builder and the four
  query templates. SQL is a token sequence. `Bind` pairs each `?` placeholder
  with its parameter, left to right. Each builder's contract says which
  conditions are bound to which values.
- **IntentDispatch**, **ChartPivot**, **SummaryStats** and **Sorting**
  (`src/utils/intentToQuery.js`): routing an intent to a builder, pivoting rows
  into one record per month, and the volume, multi-series and single-series
  summaries.
- **Analysis** (`src/hooks/useAnalysis.js`): one `analyze` run as the sequence
  of states the hook passes through.
- **AnalyzeHandler** and **ExplainHandler** (`api/analyze.js`,
  `api/explain.js`): the two edge functions. Requests and responses are
  values, and the model's reply is a parameter.
- **PostStore**, **Settings**, **ChartFilters** and **FilterState**: the
  storage-backed and in-memory hooks.
- **Sidebar**, **DateRange**, **YearMonth**, **ChatInput**, **PostCard** and
  **OffPlan**: the decision logic inside the React components.
- **DevServer** (`vite.config.js`): the `.env` loader and the `/api/*` routing
  of the development server.
- **Text**, **Base** and **JsValues**: shared helpers.
  - **Text** holds JavaScript's `trim`, `indexOf` and `split`, decimal
    printing, and code-unit string order.
  - **Base** holds `Option`, filtering, first-seen order and sums.
  - **JsValues** holds JSON values, property access and truthiness.

The clock, `crypto.randomUUID`, `fetch`, browser storage, DuckDB and the
Anthropic API become parameters or fields of an environment value. Where the
program relies on JavaScript coercion (`${v}`, `toLocaleString`,
`JSON.stringify`), the model takes the rendering function as a `Runtime`
parameter.

## Model

| member | source | states |
|---|---|---|
| `Queries.BuildWhereClause` | src/utils/queries.js:6-45 | The clause has one `?` per parameter. Binding them gives exactly the conditions the filters call for, in template order, each with its own values. The clause is empty exactly when no filter applies, and otherwise starts with `WHERE`. |
| `Queries.RunSpec` | src/utils/queries.js:12-41 | Running the builder's sequence of `if` tests and pushes gives the same bindings as the declarative reference `Expected`, for any list of templates. |
| `Queries.WhereConditionsPerKey` | src/utils/queries.js:12-41 | Every bound condition belongs to a template key and carries that key's non-empty values. Conditions come in template order. Every key with values is bound. |
| `Queries.AllExempts` | src/utils/queries.js:25-38 | A layouts, sale-types or sale-sequences list that contains `'all'` adds no condition for that key. A non-empty districts list is always bound, with no such exemption. |
| `Queries.EmptyWhere` | src/utils/queries.js:43-44 | A record with no filters yields the empty clause and no parameters. |
| `Queries.WhereShape` | src/utils/queries.js:43-44 | The clause is the rendering of the expected conditions. Its parameters are their values, flattened in order. |
| `Queries.ProjectsIgnored` | src/utils/queries.js:10 | The `projects` field never affects the WHERE clause. |
| `Queries.FalsyDatesZeroPrices` | src/utils/queries.js:12-41 | An empty `dateFrom` binds no date condition. A `priceMin` of 0 is still bound, because the test is against `null`. |
| `Queries.GuardedClause` | src/utils/queries.js:52-60 | Appending a guard with no placeholders, either after `AND` or as a fresh `WHERE`, binds the filter conditions followed by the guard, with the same parameters. |
| `Queries.BuildMonthlyPriceQuery` | src/utils/queries.js:50-65 | The parameters are the WHERE clause's. Binding gives the filter conditions plus the `price_aed > 0` guard. |
| `Queries.BuildPricePerSqmQuery` | src/utils/queries.js:70-85 | The parameters are the WHERE clause's. Binding gives the filter conditions plus the `rate_per_sqm > 0` guard. |
| `Queries.BuildVolumeQuery` | src/utils/queries.js:90-102 | The parameters are the WHERE clause's. Binding gives exactly the filter conditions, with no guard. |
| `Queries.BuildProjectComparisonQuery` | src/utils/queries.js:109-130 | No project names give the empty query. Otherwise the parameters are the truthy dates followed by the names, and binding gives the date conditions and one `IN` list of all the names. |
| `IntentDispatch.TrendFilters` | src/utils/intentToQuery.js:15-25 | The trend cases forward projects, districts, layouts, sale types and both dates unchanged. They clear property types, sale sequences and price bounds. |
| `IntentDispatch.IntentToQuerySpec` | src/utils/intentToQuery.js:13-39 | For each query type, the conditions the chosen query binds are stated: the trend templates with their guards, the comparison builders with the intent's lists, and for any other type the dates-only price trend. |
| `IntentDispatch.DispatchIgnoresOtherFilters` | src/utils/intentToQuery.js:14-38 | Two intents of one type that agree on the six forwarded fields dispatch to the same call, whatever their other filters or titles. |
| `IntentDispatch.TrendNeverUsesOtherTemplates` | src/utils/intentToQuery.js:18-25 | A trend query never binds a project, property-type, sale-sequence or price condition. |
| `IntentDispatch.ComparisonUsesProjects` | src/utils/intentToQuery.js:27-28 | A project comparison binds the truthy dates followed by the intent's projects. |
| `IntentDispatch.DatesOnlyParams` | src/utils/intentToQuery.js:36-37 | The fallback record binds only the truthy dates. |
| `IntentDispatch.MissingImports` | src/utils/intentToQuery.js:1-8 | An ES module link fails on a named import the target does not export. The unresolved names are exactly the imports missing from the exports. |
| `IntentDispatch.AsWrittenLinkFails` | src/utils/intentToQuery.js:6-7 | Both comparison builders are imported but not exported by `queries.js` (exports at lines 6, 50, 70, 90, 109 and 135 there), so the link fails. |
| `IntentDispatch.CorrectedLinkResolves` | src/utils/intentToQuery.js:1-8 | With the two comparison builders exported as well, every import resolves. |
| `ChartPivot.PivotKey` | src/utils/intentToQuery.js:51-55 | Exactly the three comparison types pivot, each on its own column. |
| `ChartPivot.Accumulate` | src/utils/intentToQuery.js:59-67 | Each month holds a series value exactly when some row wrote it, and that value is the last write's. |
| `ChartPivot.PivotCells` | src/utils/intentToQuery.js:59-70 | One record per distinct month, in strictly ascending order. Every input month has a record. Each value is the last write. |
| `ChartPivot.PivotChartData` | src/utils/intentToQuery.js:48-73 | Non-pivot types pass through unchanged. For pivot types the keys are the distinct series names in first-seen order, and every row's name is among them. |
| `ChartPivot.PivotedMonths` | src/utils/intentToQuery.js:69-70 | The pivoted records' months are strictly ascending and are exactly the months of the rows. |
| `ChartPivot.PivotedValues` | src/utils/intentToQuery.js:62-67 | A series appears in a month's record exactly when some row of that month and series exists. Its value is the last such row's median price. |
| `ChartPivot.FlatPassThrough` | src/utils/intentToQuery.js:57 | Rows of a non-pivot query type come back unchanged. |
| `Sorting.SortBy` | src/utils/intentToQuery.js:82 | The copy is ordered by the sort key (the month) and is a permutation of the input. |
| `Sorting.SortByStable` | src/utils/intentToQuery.js:110 | The sort is stable, as `Array.prototype.sort` is. The elements of any one key keep their input order in the copy. |
| `Sorting.SortByFirstMatch` | src/utils/intentToQuery.js:131-133 | The first element of the sorted copy that meets a test has the least key among the input elements that meet it. Among those, it is the first in input order. |
| `Sorting.SortByLastMatch` | src/utils/intentToQuery.js:131-134 | The last element of the sorted copy that meets a test has the greatest key among the input elements that meet it. Among those, it is the last in input order. |
| `SummaryStats.RoundDiv` | src/utils/intentToQuery.js:88 | `Math.round(n / d)`: the nearest integer, with halves rounded up. |
| `SummaryStats.PctTenths` | src/utils/intentToQuery.js:119 | The change in tenths of a percent, rounded. It is 0 when the first value is 0. |
| `SummaryStats.PctTenthsUnchanged` | src/utils/intentToQuery.js:142 | Equal first and last values give a 0 change. |
| `SummaryStats.DateRange` | src/utils/intentToQuery.js:125-126 | There is no range exactly when there are no rows. Otherwise the range runs from the least month to the greatest. |
| `SummaryStats.Volume` | src/utils/intentToQuery.js:81-93 | The total is the sum of the counts, and the average is that total over the row count, rounded. The peak is the greatest count, at the earliest month that has it. There is no average or peak without rows. |
| `SummaryStats.Summarise` | src/utils/intentToQuery.js:109-124 | The summary carries the series name and the count total. `first` is the price of the earliest-month point; if several points share that month, it is the first of them in input order. `last` is the price of the latest-month point; on a tie, the last of them in input order. The change runs between `first` and `last`. The peak is the greatest price, with the earliest month that reaches it. An empty series has no trend and a change of 0. |
| `SummaryStats.MultiSeries` | src/utils/intentToQuery.js:101-127 | One summary per distinct series name, each over exactly the rows of that name. |
| `SummaryStats.MultiSeriesNames` | src/utils/intentToQuery.js:103-109 | Every row's series has a summary, and every summary names some row's series, with no name twice. |
| `SummaryStats.MultiSeriesOrder` | src/utils/intentToQuery.js:109 | Summaries come in the order in which their names first appear among the rows. |
| `SummaryStats.MultiSeriesTotal` | src/utils/intentToQuery.js:104-124 | The series' transaction counts add up to the rows' total. |
| `SummaryStats.SingleSeries` | src/utils/intentToQuery.js:129-148 | The series is named `All` and totals all counts. It has a trend exactly when some value is positive. `first` is the value of the earliest-month positive row, the first of them in input order on a tie. `last` is the value of the latest-month positive row, the last of them on a tie. The peak is the greatest positive value. With no positive value, the change is 0. |
| `SummaryStats.SingleFirst` | src/utils/intentToQuery.js:132-133 | The first positive value in sorted order belongs to the earliest-month positive row. On a tie, that row is the first of them in input order. |
| `SummaryStats.SingleLast` | src/utils/intentToQuery.js:132-134 | The last positive value in sorted order belongs to the latest-month positive row. On a tie, that row is the last of them in input order. |
| `SummaryStats.SinglePeak` | src/utils/intentToQuery.js:135-136 | The peak is a positive value no smaller than any other, found at the earliest month that has it. |
| `SummaryStats.ComputeSummaryStats` | src/utils/intentToQuery.js:78-149 | `volume_trend` gives the volume summary. Comparison types give one summary per series. Every other type gives the single `All` series. The non-volume shapes carry the rows' date range. |
| `SummaryStats.TransactionsCounted` | src/utils/intentToQuery.js:81-148 | Whatever the query type, the transaction counts reported add up to the rows' total. |
| `Analysis.Message` | src/hooks/useAnalysis.js:101 | A failure shows its own message, or "Something went wrong" when it has none. |
| `Analysis.IntentErrorMessage` | src/hooks/useAnalysis.js:16-19 | An unreadable error body gives "Network error". An error field gives itself. Otherwise the result is `HTTP <status>`. |
| `Analysis.Title` | src/hooks/useAnalysis.js:80 | The intent's title, or else the first 60 characters of the prompt. |
| `Analysis.ConcatPrefix` | src/hooks/useAnalysis.js:89-93 | Text accumulated from the first k chunks is a prefix of the whole text. |
| `Analysis.StreamStates` | src/hooks/useAnalysis.js:89-93 | After each chunk the pending post shows the text accumulated so far, and nothing else changes. |
| `Analysis.Failed` | src/hooks/useAnalysis.js:100-104 | A failure sets the error status and message, clears the pending post and keeps the store. |
| `Analysis.Finished` | src/hooks/useAnalysis.js:96-99 | Completion sets `done`, clears the error and the pending post, and adds the finished post to the store. |
| `Analysis.Placeholder` | src/hooks/useAnalysis.js:76-87 | The placeholder post carries the environment's id and clock, the prompt, intent, title and chart. It has empty text and is streaming. |
| `Analysis.ExplainStage` | src/hooks/useAnalysis.js:89-104 | The explanation stage is a well-formed run tail from `explaining` on. |
| `Analysis.Run` | src/hooks/useAnalysis.js:51-105 | Without `meta` nothing happens. Otherwise the run starts at `analyzing` with a cleared state. Statuses never move back, and the store is unchanged until the last state. The run ends in `done`, with one finished post added in front, or in `error`, with a message and nothing added. |
| `Analysis.Analyze` | src/hooks/useAnalysis.js:51-105 | The same guarantees as `Run`, for the real query, pivot and summary steps. |
| `Analysis.ForwardIsRunShape` | src/hooks/useAnalysis.js:51-105 | The state-by-state reading of a run agrees with the whole-run reading, in both directions. |
| `Analysis.RunSucceeds` | src/hooks/useAnalysis.js:57-99 | With an intent, SQL, rows and a clean stream, the run has one state per chunk plus four. The finished post's text is the concatenated chunks, and every streamed text is a prefix of it. |
| `Analysis.SuccessfulRun` | src/hooks/useAnalysis.js:57-99 | The same success statement, for the real query, pivot and summary steps. |
| `Analysis.StreamPrefixes` | src/hooks/useAnalysis.js:89-93 | Every streaming state shows a prefix of the final text. |
| `Analysis.NoSqlFails` | src/hooks/useAnalysis.js:64-65 | A query type that yields no SQL ends in the no-SQL error, right after `querying`. |
| `Analysis.IntentRejectedFails` | src/hooks/useAnalysis.js:16-19 | A rejected intent request ends in its error message, right after `analyzing`. |
| `Analysis.Reset` | src/hooks/useAnalysis.js:107-111 | Reset returns to `idle` with no error or pending post, and keeps the store. |
| `AnalyzeHandler.Extract` | api/analyze.js:78 | There is no match exactly when no `}` follows a `{`. Otherwise the match runs from the first `{` to the last `}`. |
| `AnalyzeHandler.ExtractShape` | api/analyze.js:78 | A match starts with `{` and ends with `}`. |
| `AnalyzeHandler.ExtractWhole` | api/analyze.js:78-92 | Text that is itself braced matches whole. |
| `AnalyzeHandler.FirstText` | api/analyze.js:77 | The first content block's text, or `''` when there is none. |
| `AnalyzeHandler.AskFor` | api/analyze.js:45-52 | The ask carries at most 60 projects, a prefix of the list. Districts, layouts, dates, prompt and today are passed through as given. |
| `AnalyzeHandler.Answer` | api/analyze.js:69-95 | A failed call gives 502. No braces give 422 "Could not parse…". Invalid JSON gives 422 "…not valid JSON". Otherwise the extracted object is returned. |
| `AnalyzeHandler.Handle` | api/analyze.js:21-96 | 405 exactly when the method is not POST. An unparseable body gives 400. A `null` body throws. An intent is returned only for a valid request, and it is the extracted, well-formed text of the model's reply. |
| `AnalyzeHandler.AskedOnlyWhenValid` | api/analyze.js:33-48 | A missing prompt or meta, and an incomplete meta, each get their 400. Only a complete request reaches the model, with at most 60 projects. |
| `AnalyzeHandler.Statuses` | api/analyze.js:21-96 | Every error response is 400, 405, 422 or 502. |
| `AnalyzeHandler.WholeObjectPassesThrough` | api/analyze.js:77-92 | A reply that is a single JSON object is returned unchanged. |
| `ExplainHandler.DateLines` | api/explain.js:57-61 | The date line is present exactly when either bound is truthy. |
| `ExplainHandler.VolumeLines` | api/explain.js:64-68 | The volume block starts with the total line and has at most three lines. |
| `ExplainHandler.SeriesBlock` | api/explain.js:73-80 | A `null` entry throws. Otherwise the block opens with the series heading and its fourth line is the signed change. |
| `ExplainHandler.MultiLines` | api/explain.js:72-82 | The block throws exactly when some series entry is `null`. |
| `ExplainHandler.MultiLinesHeadings` | api/explain.js:73-74 | Every series gets its heading. |
| `ExplainHandler.Unit` | api/explain.js:87 | `AED/sqm` exactly for `rate_trend`, `AED` otherwise. |
| `ExplainHandler.SingleLines` | api/explain.js:85-93 | A nullish series throws. Otherwise the first line is the starting value with its unit and the third is the signed change. |
| `ExplainHandler.FormatLines` | api/explain.js:52-100 | Falsy statistics give "No data available.". Otherwise the text opens with the KEY DATA header. |
| `ExplainHandler.VolumeIgnoresSeries` | api/explain.js:63-69 | Once `totalTransactions` is present, the `series` field is never read, and the total line is shown. |
| `ExplainHandler.ManySeries` | api/explain.js:71-82 | With several non-null series, each series' heading appears. |
| `ExplainHandler.OneSeries` | api/explain.js:84-93 | With one series, the lines after the header are the single-series block: the starting value with its unit and the signed change. |
| `ExplainHandler.NoSeriesLine` | api/explain.js:95-97 | An empty series list gives the "No series data" line after the header. |
| `ExplainHandler.NullSeriesThrows` | api/explain.js:72-95 | A `null` series field, with no total, makes formatting throw. |
| `ExplainHandler.StripOpen` | api/explain.js:139 | Removing an opening fence leaves a suffix of the text. |
| `ExplainHandler.StripClose` | api/explain.js:139 | Removing a closing fence leaves a prefix of the text. |
| `ExplainHandler.CleanFenced` | api/explain.js:139-140 | A reply fenced as a JSON code block cleans to its trimmed body. |
| `ExplainHandler.CleanUnfenced` | api/explain.js:139-140 | A reply without fences only gets trimmed. |
| `ExplainHandler.ClarifyAnswer` | api/explain.js:132-151 | The fallback is returned unless a truthy string reply parses after cleaning. In that case the result is the parsed value. |
| `ExplainHandler.Forwarded` | api/explain.js:177-181 | At most one text per event is forwarded. |
| `ExplainHandler.ForwardedOnlyText` | api/explain.js:177-181 | Only text deltas contribute to the body, and each of them does: the body is exactly the texts of the text deltas, in stream order. |
| `ExplainHandler.Mode` | api/explain.js:113 | A missing or null mode means `full`. |
| `ExplainHandler.Budget` | api/explain.js:155-156 | `short` gets the short prompt and 80 tokens. Every other mode gets the full prompt and 600 tokens. |
| `ExplainHandler.Handle` | api/explain.js:102-192 | 405 exactly when the method is not POST. An unusable body gives 400. "Missing required field: prompt" is returned exactly when the prompt is falsy. A JSON answer comes exactly for a valid clarify request. A text stream (or a throw) comes exactly for any other valid request, with that mode's prompt and token budget. The clarify answer is the cleaned and parsed model reply, or the fallback. A throw happens exactly when formatting the statistics throws. The streamed message embeds the formatted statistics, and the body carries exactly the text deltas of the stream, in order. |
| `ExplainHandler.MissingFieldsOrder` | api/explain.js:117-122 | The intent and stats error comes exactly when the prompt is present, the mode is not clarify, and either field is falsy. |
| `ExplainHandler.DefaultModeIsFull` | api/explain.js:113-156 | A request without a mode streams with the full prompt and 600 tokens. |
| `PostStore.AddPost` | src/hooks/usePostStore.js:27 | The new post goes in front. The older posts follow in their previous order, minus any with the same id. |
| `PostStore.AddPostCounts` | src/hooks/usePostStore.js:27 | Behind the new post, each older post with another id keeps every copy it had. No post with the new id is left. |
| `PostStore.RemovePost` | src/hooks/usePostStore.js:35 | Every copy of each post with another id remains, in the previous order. No post with the id remains. |
| `PostStore.AddPostUniqueIds` | src/hooks/usePostStore.js:25-31 | Adding keeps post ids unique. |
| `PostStore.RemoveUnknown` | src/hooks/usePostStore.js:33-39 | Removing an id no post has changes nothing. |
| `PostStore.RemoveAfterAdd` | src/hooks/usePostStore.js:25-39 | Removing a just-added post undoes the add, apart from older posts with the same id. |
| `PostStore.FindPost` | src/hooks/usePostStore.js:42 | Finds the first post with the id, or reports that none has it. |
| `PostStore.FindAfterAddAndRemove` | src/hooks/usePostStore.js:25-43 | A post is found right after it is added and not found after its id is removed. |
| `PostStore.LoadPosts` | src/hooks/usePostStore.js:5-12 | A saved list loads as that list. Storage that is empty, that throws, or whose text does not parse gives `[]`. Storage is taken to hold a stringified list. |
| `PostStore.SavePosts` | src/hooks/usePostStore.js:14-20 | A save within quota loads back as the same list. Over quota, storage is unchanged. |
| `PostStore.Mount` | src/hooks/usePostStore.js:23 | The initial list is what storage holds. |
| `PostStore.Add` | src/hooks/usePostStore.js:25-31 | The list becomes `AddPost` of it, and storage holds it when the quota allows. |
| `PostStore.Remove` | src/hooks/usePostStore.js:33-39 | The list becomes `RemovePost` of it, and storage holds it when the quota allows. |
| `PostStore.GetPost` | src/hooks/usePostStore.js:41-43 | Looks the id up in storage, not in the in-memory list. The result is the first stored post with the id. There is none exactly when no stored post has it. |
| `PostStore.AddPersists` | src/hooks/usePostStore.js:23-43 | After a successful add, a remount shows the same list and the post can be looked up. |
| `PostStore.NewestFirst` | src/hooks/usePostStore.js:25-31 | Of two posts added in turn, the later one comes first. |
| `Settings.Spread` | src/hooks/useSettings.js:22 | `{ ...j }` copies an object's fields and an array's or string's indexed entries. It copies nothing from primitives. |
| `Settings.Load` | src/hooks/useSettings.js:19-26 | The defaults, overlaid with the stored object's keys. The defaults alone when storage throws, is empty or does not parse. |
| `Settings.Save` | src/hooks/useSettings.js:28-30 | Storage holds the stringified settings unless the write throws. |
| `Settings.UpdateSettings` | src/hooks/useSettings.js:41-47 | A shallow merge in which the update's keys win. The result is saved. |
| `Settings.LoadHasDefaults` | src/hooks/useSettings.js:19-26 | Loading never loses a default key. |
| `Settings.LoadAfterUpdate` | src/hooks/useSettings.js:19-47 | Under a JSON round trip, what an update saves is exactly what the next load gives. |
| `Settings.FreshStart` | src/hooks/useSettings.js:19-26 | Nothing stored, unparseable text or unavailable storage all start from the defaults. |
| `Settings.Hint` | src/hooks/useSettings.js:49-60 | `12m` and `24m` name the last 12 or 24 months. `custom` names both bounds when both are truthy, and gives no hint otherwise. Any other value gives no hint. |
| `Settings.HintMatchesChartDefaults` | src/hooks/useSettings.js:49-60 | The hint's month count is the Chart tab's default span, and `all` gives neither a hint nor default dates. |
| `Settings.DefaultHint` | src/hooks/useSettings.js:13-17 | The defaults ask for the last 12 months. |
| `ChartFilters.Span` | src/hooks/useChartFilters.js:21 | 24 months exactly for `24m`, 12 otherwise. |
| `ChartFilters.DefaultDates` | src/hooks/useChartFilters.js:17-25 | Both dates are empty exactly for `all`. Otherwise `dateTo` is the current month. |
| `ChartFilters.DefaultFrom` | src/hooks/useChartFilters.js:22-23 | `dateFrom` is the month lying the span before the current one, as `Date` normalises it. |
| `ChartFilters.DefaultFromMonth` | src/hooks/useChartFilters.js:23 | `dateFrom` ends in a valid two-digit month. |
| `ChartFilters.DefaultSpan` | src/hooks/useChartFilters.js:17-25 | For four-digit years both defaults are valid months, exactly the span apart, and in string order. |
| `ChartFilters.Initial` | src/hooks/useChartFilters.js:27-34 | The dates are the defaults and every list is empty. |
| `ChartFilters.UpdateFilter` | src/hooks/useChartFilters.js:36-38 | The key takes the value and every other key is unchanged. |
| `ChartFilters.ResetFilters` | src/hooks/useChartFilters.js:41-43 | Reset gives the initial filters for the current settings and month. |
| `ChartFilters.UpdateOrder` | src/hooks/useChartFilters.js:36-38 | Updates to one key: the last wins. Updates to different keys commute. |
| `ChartFilters.ResetForgets` | src/hooks/useChartFilters.js:41-43 | Reset forgets any update made before it. |
| `FilterState.Initial` | src/hooks/useFilters.js:4-14 | Empty dates, no price bounds, and every list and the projects empty. |
| `FilterState.InitialWhere` | src/hooks/useFilters.js:4-14 | The initial filters build the empty WHERE clause. |
| `FilterState.Update` | src/hooks/useFilters.js:16-18 | The key takes the value. Every other key and the projects are unchanged. |
| `FilterState.UpdateLastWins` | src/hooks/useFilters.js:16-18 | Of two updates to one key, the last wins. |
| `FilterState.UpdateCommute` | src/hooks/useFilters.js:16-18 | Updates to different keys commute. |
| `FilterState.UpdateSame` | src/hooks/useFilters.js:16-18 | Writing a key's own value changes nothing. |
| `FilterState.Reset` | src/hooks/useFilters.js:20-27 | Reset gives the initial filters. |
| `FilterState.ResetAfterUpdate` | src/hooks/useFilters.js:20-27 | Reset forgets any update, and resetting twice is resetting once. |
| `Sidebar.Toggle` | src/components/Sidebar.jsx:80-88 | `all` empties the list. A present option is removed everywhere; every other entry keeps all its copies, in order. An absent option is appended at the end. |
| `Sidebar.ToggleFlips` | src/components/Sidebar.jsx:75-88 | A click flips that pill's active flag. A click on `all` makes `all` active. |
| `Sidebar.ChoosingLeavesAll` | src/components/Sidebar.jsx:75-88 | Choosing a new option deactivates `all`. |
| `Sidebar.ToggleTwice` | src/components/Sidebar.jsx:83-86 | Choosing an option and then choosing it again restores the list. |
| `Sidebar.Click` | src/components/Sidebar.jsx:80-114 | A click changes only its section's list. |
| `Sidebar.AllClearsOneSection` | src/components/Sidebar.jsx:71-116 | `all` clears its own section and leaves the other section as it was. |
| `YearMonth.ValidMeansMonth` | src/components/DateRangePickerPopover.jsx:24-26 | Among `dddd-dd` strings, exactly those with a month from 1 to 12 are valid. |
| `YearMonth.Chronological` | src/components/DateRangePickerPopover.jsx:107 | For valid months, string order is time order, and equal strings are equal months. |
| `YearMonth.Format` | src/hooks/useChartFilters.js:19 | The month index is written one-based, padded to two digits, after the year and a dash. |
| `YearMonth.FormatValid` | src/hooks/useChartFilters.js:19-23 | A four-digit year formats to a valid month naming that year and month. |
| `YearMonth.JsYear` | src/components/DateRangePickerPopover.jsx:20 | `Date` reads years 0 to 99 as 1900 to 1999. |
| `YearMonth.MakeDate` | src/components/DateRangePickerPopover.jsx:20 | `new Date(y, m, 1)` moves an out-of-range month into earlier or later years, keeping the month count. |
| `YearMonth.FromYM` | src/components/DateRangePickerPopover.jsx:17-21 | `undefined` exactly for `''`. A date exactly for a valid month, counting the months the string names. |
| `YearMonth.FromYMMonth` | src/components/DateRangePickerPopover.jsx:17-21 | From year 100 on, the month the string names. Years 0000 to 0099 land in the twentieth century. |
| `DateRange.ApplyRange` | src/components/DateRangePickerPopover.jsx:102-113 | The format error comes exactly when either bound is invalid. The order error comes exactly when `to` is an earlier month than `from`. Otherwise the range is accepted as typed. |
| `DateRange.OneMonthAccepted` | src/components/DateRangePickerPopover.jsx:102-113 | A single month is a valid range. |
| `DateRange.SwappedRejected` | src/components/DateRangePickerPopover.jsx:107-110 | Swapping the bounds of a range longer than one month gives the order error. |
| `DateRange.Label` | src/components/DateRangePickerPopover.jsx:38-47 | "All time" without bounds. Otherwise the first preset with exactly these bounds, or else the bounds themselves, `From …` or `Custom`. |
| `DateRange.LabelAfterApply` | src/components/DateRangePickerPopover.jsx:38-47 | After an accepted range the label is a matching preset's, or the two bounds joined by a dash. |
| `DateRange.LabelWithoutPresets` | src/components/DateRangePickerPopover.jsx:38-47 | With no presets the label depends only on which bounds are set. |
| `ChatInput.HandleSubmit` | src/components/ChatInput.jsx:6-12 | A question is submitted exactly when the text is not all whitespace and nothing is loading. It is submitted trimmed, and the box is cleared. |
| `ChatInput.HandleKeyDown` | src/components/ChatInput.jsx:14-18 | Enter without Shift submits. Every other key leaves the text alone. |
| `ChatInput.DisabledIffNothingSubmitted` | src/components/ChatInput.jsx:6-33 | The button is disabled exactly when a submit would do nothing. |
| `ChatInput.SubmittedIsTrimmed` | src/components/ChatInput.jsx:6-12 | What is submitted is non-empty and needs no trimming, and the cleared box cannot be submitted again. |
| `PostCard.TimeAgo` | src/components/PostCard.jsx:38-44 | Under a minute is "just now". Under an hour is whole minutes from 1 to 59. Under a day is whole hours from 1 to 23. Anything older is the date. |
| `PostCard.AgeText` | src/components/PostCard.jsx:40-43 | The age written as `Nm ago`, `Nh ago`, "just now" or the date text. |
| `PostCard.TimeAgoMonotone` | src/components/PostCard.jsx:38-44 | An older post never shows a younger age. |
| `PostCard.Heading` | src/components/PostCard.jsx:53 | The title, or the prompt when the title is empty. |
| `PostCard.PromptShownOnce` | src/components/PostCard.jsx:52-57 | The prompt is shown once, either as the heading or quoted under it, never both. |
| `PostCard.LoadingStates` | src/components/PostCard.jsx:29 | A post is loading while it has no text and is streaming or unmarked. A finished post or one with text is not. |
| `OffPlan.Pivot` | src/components/charts/OffPlanChart.jsx:11-19 | Missing or empty data gives no records. Otherwise the record months are strictly ascending and are exactly the rows' months, one record each, and each sale type's value is its last row's rate, unrounded. |
| `OffPlan.Series` | src/components/charts/OffPlanChart.jsx:23 | The distinct sale types, in first-seen order, covering every row. |
| `DevServer.StripQuotes` | vite.config.js:31-35 | One layer of matching quotes is removed. Anything else is unchanged. |
| `DevServer.ParseLine` | vite.config.js:24-34 | Blank, comment and `=`-less lines assign nothing. Otherwise the line splits at its first `=`. |
| `DevServer.ParseWritten` | vite.config.js:24-34 | A written `key=value` line parses back to that assignment, even when the value contains `=`. |
| `DevServer.ApplyLast` | vite.config.js:37 | A name holds its last assigned value, or its earlier value when nothing assigns it. |
| `DevServer.LoadFile` | vite.config.js:20-39 | A missing file changes nothing. Otherwise its lines' assignments are applied in order. |
| `DevServer.DotEnvWins` | vite.config.js:18-41 | A name `.env` assigns takes `.env`'s last value. Otherwise it takes `.env.local`'s last value, or otherwise keeps its earlier value. |
| `DevServer.LocalOverridden` | vite.config.js:36-37 | A name both files assign ends with `.env`'s value, not `.env.local`'s. |
| `DevServer.LocalWins` | vite.config.js:19 | With the files read in the corrected order, `.env.local`'s last value wins, then `.env`'s, then the earlier value. |
| `DevServer.Route` | vite.config.js:58-60 | Only URLs under `/api/` are handled. The route name has no `?`, and `/api/` plus the name is the URL's path. |
| `DevServer.RoutePath` | vite.config.js:60 | Removing the first `/api/` from the path drops exactly its leading prefix. |
| `Text.Trim` | src/components/ChatInput.jsx:8 | The longest infix with no whitespace at either end, with only whitespace cut away. |
| `Text.TrimIdempotent` | src/components/ChatInput.jsx:8 | Trimming twice is trimming once. |

## Left out

- Rendering, styling, Recharts, animation and every other React concern are not modelled. Only the decisions the components make are.
- DuckDB, `fetch`, the Anthropic SDK, `localStorage`, the clock and `crypto.randomUUID` are not modelled. They are parameters or environment fields.
- Concurrency is not modelled. A second `analyze` call while one is running, and React's batching of state updates, are outside the model.
- The district-comparison and layout-distribution builders are not modelled. `intentToQuery.js` imports them, but `queries.js` does not define them (see "## Findings"), so their queries are function parameters.
- `PostStore.LoadPosts`: storage is taken to hold a stringified list of posts, and a post is taken to come back from `JSON.stringify` and `JSON.parse` unchanged. Stored text that parses to something other than a list (`null`, `{}`, `5`) is returned as it is by line 8. `addPost`, `removePost` and `getPost` would then throw at `.filter` or `.find`. That case is not modelled.
- `vite.config.js` is modelled only up to the route name. The dynamic import of the handler, the 404 and 502 responses, and the copying of request and response bodies (lines 61-124) are left out, because they are Node I/O.
- `JSON.parse` and `JSON.stringify` are not modelled. They are parameters, and the settings round trip is assumed (`RoundTrips`), not proved.
- Numbers are integers in the SQL results, so `Math.round` of an integer is the identity. The percentage change is kept as an integer number of tenths, rather than the floating-point value `Math.round(x * 1000) / 10` produces.
- `NaN`, `-Infinity` and `undefined` summary figures are not modelled as values. Where the source would compute them (an empty volume query, or a single series with no positive value), the model reports them as absent. The `pctChange` of such a series stays the number 0, as in the source.
- `Object.entries` puts integer-like keys first, in numeric order, before the other keys in insertion order. Series names are kept in first-seen order instead.
- A series whose name is `month` would collide with the record's `month` field. This collision is not modelled.
- Non-string text in a streamed chunk is not modelled: chunks are strings. A thrown error inside the stream is modelled only as an error message.
- `Number(...)` conversion of strings that are not valid months is not modelled. `FromYM` returns `Unparsed` for them.
- The date presets are a parameter, because they come from the clock and `date-fns`. `toLocaleDateString` is the `dateText` parameter of `PostCard.AgeText`.
- `ChartFilters.DefaultSpan`: proved only for four-digit years (1002 to 9999), because the `YYYY-MM` format and string order need exactly four digits.
- `Settings.Spread`: characterises the key set only for objects, arrays, strings and primitives. It does not say that an array's spread has no keys besides its indices.
- `ExplainHandler.Forwarded`: states only the length bound. What is forwarded is stated by `ExplainHandler.ForwardedOnlyText`.
- `ChartFilters.UpdateFilter` and `FilterState.Update` take a value of the type the key holds. JavaScript lets any value be stored under any key.
- The explain handler's system prompts, the intent prompt text and the Claude model name are opaque constants, not their literal text.
- Both request-parsing and uncaught exceptions are modelled as a `Crashed` response, without the runtime's 500 body.
- `IntentDispatch.IntentToQuerySpec`: filter lists are typed as lists of strings. A `null` list, or a string or number where a list is expected, makes the source throw a `TypeError`, for example at `projectNames.length` in `src/utils/queries.js` line 110 or at `.map`. That error path is not modelled. The `= []` default replaces only a missing list. In the same way `filters` is typed as a record: an intent whose `filters` is `null` makes line 15 throw a `TypeError` while destructuring, because the `= {}` default at line 14 replaces only a missing `filters`, and the model dispatches there instead. A number, string or boolean `filters` destructures to no fields, which is the model's empty record.
- `localeCompare` is modelled as code-unit order (`LexLe`, `LexLt`). Every sort in the source compares `month` strings, and on `YYYY-MM` months the two orders agree. On other strings, locale collation may differ.
- `Analysis.Title`: the 60-character cut of the prompt counts characters, where JavaScript's `slice` counts UTF-16 code units. The two differ only for characters outside the Basic Multilingual Plane.

## Findings

| source | as written | input that shows it | evidently intended | confidence | as-written member | corrected member |
|---|---|---|---|---|---|---|
| vite.config.js:19-37 | The files are read in the order `.env.local`, then `.env`, and every assignment overwrites. So `.env` overrides `.env.local`, although the comment at line 36 says `.env.local` values always win. | `.env.local` holds `K=local` and `.env` holds `K=shared`. `K` ends as `shared`. | `.env.local` overrides `.env`, as the comment says and as dotenv convention has it. | medium, not executed; the comment may only mean that the files override the shell environment | `DevServer.LocalOverridden` | `DevServer.LocalWins` |
| src/utils/intentToQuery.js:1-8 | `buildDistrictComparisonQuery` and `buildLayoutComparisonQuery` are imported from `queries.js`. That module exports only `buildWhereClause`, the four builders at its lines 50, 70, 90 and 109, and `META_QUERY`. | Loading `intentToQuery.js`: the ES module link finds no export named `buildDistrictComparisonQuery`. It throws a `SyntaxError` before any code runs, in every module importing it. | `queries.js` defines and exports the two comparison builders that the `district_comparison` and `layout_distribution` cases call. | high, not executed; the import path names `queries.js` itself | `IntentDispatch.AsWrittenLinkFails` | `IntentDispatch.CorrectedLinkResolves` |
