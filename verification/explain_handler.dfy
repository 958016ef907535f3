/** `api/explain.js`: the edge handler that streams an analyst's commentary
    on a set of summary statistics, or answers a clarifying question.

    The language model is two oracles: the clarify call, from the user
    message to the text of the first content block (or a throw), and the
    stream, from the chosen prompt, token budget and user message to the
    events it yields (and whether it broke off). `JSON.parse` is the
    `parse` oracle. Number and value rendering belong to the `Runtime`. */
module ExplainHandler {
  import opened Base
  import opened Text
  import opened JsValues

  /** The renderings the handler leaves to the JavaScript runtime. */
  datatype Runtime = Runtime(
    /** `Number(v).toLocaleString()`. */
    locale: Val -> string,
    /** `${v}` in a template. */
    show: Val -> string,
    /** `JSON.stringify(v)`. */
    stringify: Val -> string,
    /** The numeric value of a string, array or object; `None` for NaN. */
    coerce: Json -> Option<real>)

  /** JavaScript's `ToNumber`, `None` standing for NaN. */
  function ToNumber(v: Val, rt: Runtime): (r: Option<real>)
    ensures v.None? ==> r.None?
    ensures v == Some(JNull) ==> r == Some(0.0)
    ensures v.Some? && v.value.JNum? ==> r == Some(v.value.n)
  {
    match v
    case None => None
    case Some(JNull) => Some(0.0)
    case Some(JBool(b)) => Some(if b then 1.0 else 0.0)
    case Some(JNum(n)) => Some(n)
    case Some(j) => rt.coerce(j)
  }

  /** `v > n`: never true of NaN. */
  predicate Greater(v: Val, n: real, rt: Runtime) {
    ToNumber(v, rt).Some? && ToNumber(v, rt).value > n
  }

  /** `${v ?? d}`. */
  function ShowOr(v: Val, d: string, rt: Runtime): string {
    if Nullish(v) then d else rt.show(v)
  }

  // ---------------------------------------------------------------------
  // formatSummaryStats

  const Header := "KEY DATA (cite only these numbers, do not use any other figures):"
  const NoData := "No data available."
  const NoSeries := "\U{2022} No series data available."

  /** The date-range line, present when either bound is truthy. */
  function DateLines(stats: Json, rt: Runtime): (ls: seq<string>)
    ensures |ls| <= 1
    ensures |ls| == 1 <==> Truthy(OptGet(Field(stats, "dateRange"), "from")) || Truthy(OptGet(Field(stats, "dateRange"), "to"))
  {
    var from := OptGet(Field(stats, "dateRange"), "from");
    var to := OptGet(Field(stats, "dateRange"), "to");
    if Truthy(from) || Truthy(to) then
      ["\U{2022} Date range: " + ShowOr(from, "start", rt) + " to " + ShowOr(to, "present", rt)]
    else []
  }

  /** The volume block: the total always, the average when truthy, the
      peak when its month is truthy and its count is not nullish. */
  function VolumeLines(stats: Json, rt: Runtime): (ls: seq<string>)
    ensures 1 <= |ls| <= 3
    ensures ls[0] == "\U{2022} Total transactions in period: " + rt.locale(Field(stats, "totalTransactions"))
  {
    var avg := Field(stats, "avgMonthly");
    var peakMonth := Field(stats, "peakMonth");
    var peakCount := Field(stats, "peakCount");
    ["\U{2022} Total transactions in period: " + rt.locale(Field(stats, "totalTransactions"))]
    + (if Truthy(avg) then ["\U{2022} Monthly average: " + rt.locale(avg)] else [])
    + (if Truthy(peakMonth) && !Nullish(peakCount)
       then ["\U{2022} Peak month: " + rt.show(peakMonth) + " with " + rt.locale(peakCount) + " transactions"]
       else [])
  }

  /** `s.pctChange > 0 ? '+' : ''`. */
  function Sign(pct: Val, rt: Runtime): string {
    if Greater(pct, 0.0, rt) then "+" else ""
  }

  /** One series of the multi-series block; `None` when reading its
      fields throws (a `null` entry). */
  function SeriesBlock(s: Json, rt: Runtime): (r: Option<seq<string>>)
    ensures r.None? <==> s.JNull?
    ensures r.Some? ==> 4 <= |r.value| <= 6 && r.value[0] == "\nSeries: " + rt.show(Field(s, "name"))
    ensures r.Some? ==> r.value[3] == "  \U{2022} Change:         " + Sign(Field(s, "pctChange"), rt) + rt.show(Field(s, "pctChange")) + "% over the period"
  {
    if s.JNull? then None
    else
      var peak := Field(s, "peak");
      var tx := Field(s, "txCount");
      var pct := Field(s, "pctChange");
      Some(["\nSeries: " + rt.show(Field(s, "name")),
            "  \U{2022} Starting value: AED " + rt.locale(Field(s, "first")),
            "  \U{2022} Latest value:   AED " + rt.locale(Field(s, "last")),
            "  \U{2022} Change:         " + Sign(pct, rt) + rt.show(pct) + "% over the period"]
           + (if Truthy(peak) then ["  \U{2022} Peak:           AED " + rt.locale(peak) + " (" + rt.show(Field(s, "peakMonth")) + ")"] else [])
           + (if Truthy(tx) then ["  \U{2022} Transactions in period: " + rt.locale(tx)] else []))
  }

  /** The blocks of every series in order; `None` when any entry is `null`. */
  function MultiLines(items: seq<Json>, rt: Runtime): (r: Option<seq<string>>)
    ensures r.None? <==> exists i :: 0 <= i < |items| && items[i].JNull?
  {
    if |items| == 0 then Some([])
    else
      match SeriesBlock(items[0], rt)
      case None => None
      case Some(b) =>
        match MultiLines(items[1..], rt)
        case None => None
        case Some(rest) => Some(b + rest)
  }

  /** Every series of the multi-series block has its heading line. */
  lemma {:induction false} MultiLinesHeadings(items: seq<Json>, rt: Runtime)
    requires MultiLines(items, rt).Some?
    ensures forall i :: 0 <= i < |items| ==> "\nSeries: " + rt.show(Field(items[i], "name")) in MultiLines(items, rt).value
  {
    if |items| > 0 {
      MultiLinesHeadings(items[1..], rt);
      var b := SeriesBlock(items[0], rt).value;
      var rest := MultiLines(items[1..], rt).value;
      forall i | 0 <= i < |items| ensures "\nSeries: " + rt.show(Field(items[i], "name")) in b + rest {
        if i == 0 { assert b[0] in b + rest; }
        else {
          assert items[i] == items[1..][i - 1];
          var line := "\nSeries: " + rt.show(Field(items[i], "name"));
          var k :| 0 <= k < |rest| && rest[k] == line;
          assert (b + rest)[|b| + k] == line;
        }
      }
    }
  }

  /** `for (const s of v)`: the entries of an array, the characters of a
      string; anything else is not iterable. */
  function Iterate(j: Json): (r: Option<seq<Json>>)
    ensures j.JArr? ==> r == Some(j.items)
    ensures j.JStr? ==> r.Some? && |r.value| == |j.s|
    ensures !j.JArr? && !j.JStr? ==> r.None?
  {
    match j
    case JArr(a) => Some(a)
    case JStr(s) => Some(seq(|s|, i requires 0 <= i < |s| => JStr([s[i]])))
    case _ => None
  }

  /** `v[0]` on a value that is not nullish. */
  function First(j: Json): (r: Val)
    ensures j.JArr? ==> r == if |j.items| > 0 then Some(j.items[0]) else None
  {
    match j
    case JArr(a) => if |a| > 0 then Some(a[0]) else None
    case JStr(s) => if |s| > 0 then Some(JStr([s[0]])) else None
    case JObj(m) => if "0" in m then Some(m["0"]) else None
    case _ => None
  }

  /** The unit of a single series: per square metre only for rate trends. */
  function Unit(queryType: Val): (u: string)
    ensures u == "AED/sqm" <==> queryType == Some(JStr("rate_trend"))
    ensures u == "AED" <==> queryType != Some(JStr("rate_trend"))
  {
    if queryType == Some(JStr("rate_trend")) then "AED/sqm" else "AED"
  }

  /** The single-series block; `None` when reading from a nullish entry
      throws. */
  function SingleLines(s: Val, queryType: Val, rt: Runtime): (r: Option<seq<string>>)
    ensures r.None? <==> Nullish(s)
    ensures r.Some? ==> 3 <= |r.value| <= 5
    ensures r.Some? ==> r.value[0] == "\U{2022} Starting value: " + Unit(queryType) + " " + rt.locale(Field(s.value, "first"))
    ensures r.Some? ==> r.value[2] == "\U{2022} Change:         " + Sign(Field(s.value, "pctChange"), rt) + rt.show(Field(s.value, "pctChange")) + "% over the period"
  {
    if Nullish(s) then None
    else
      var e := s.value;
      var unit := Unit(queryType);
      var peak := Field(e, "peak");
      var tx := Field(e, "txCount");
      var pct := Field(e, "pctChange");
      Some(["\U{2022} Starting value: " + unit + " " + rt.locale(Field(e, "first")),
            "\U{2022} Latest value:   " + unit + " " + rt.locale(Field(e, "last")),
            "\U{2022} Change:         " + Sign(pct, rt) + rt.show(pct) + "% over the period"]
           + (if Truthy(peak) then ["\U{2022} Peak:           " + unit + " " + rt.locale(peak) + " (" + rt.show(Field(e, "peakMonth")) + ")"] else [])
           + (if Truthy(tx) then ["\U{2022} Total transactions in period: " + rt.locale(tx)] else []))
  }

  /** The single-series part and the empty-series line that follow when
      there are not several series. */
  function SeriesTail(series: Val, queryType: Val, rt: Runtime): (r: Option<seq<string>>)
  {
    var single :=
      if !Nullish(series) && Field(series.value, "length") == Some(JNum(1.0))
      then SingleLines(First(series.value), queryType, rt)
      else Some([]);
    match single
    case None => None
    case Some(ls) =>
      if series.None? then Some(ls)
      else if series.value.JNull? then None
      else if Field(series.value, "length") == Some(JNum(0.0)) then Some(ls + [NoSeries])
      else Some(ls)
  }

  /** The lines of `formatSummaryStats(stats, queryType)` before they are
      joined; `None` when the function throws. */
  function FormatLines(stats: Val, queryType: Val, rt: Runtime): (r: Option<seq<string>>)
    ensures !Truthy(stats) ==> r == Some([NoData])
    ensures Truthy(stats) && r.Some? ==> |r.value| >= 1 && r.value[0] == Header
  {
    if !Truthy(stats) then Some([NoData])
    else
      var st := stats.value;
      var head := [Header] + DateLines(st, rt);
      if Field(st, "totalTransactions").Some? then Some(head + VolumeLines(st, rt))
      else
        var series := Field(st, "series");
        if !Nullish(series) && Greater(Field(series.value, "length"), 1.0, rt) then
          match Iterate(series.value)
          case None => None
          case Some(items) =>
            match MultiLines(items, rt)
            case None => None
            case Some(ls) => Some(head + ls)
        else
          match SeriesTail(series, queryType, rt)
          case None => None
          case Some(ls) => Some(head + ls)
  }

  /** `formatSummaryStats(stats, queryType)`; `None` when it throws. */
  function FormatSummaryStats(stats: Val, queryType: Val, rt: Runtime): (r: Option<string>)
    ensures r.None? <==> FormatLines(stats, queryType, rt).None?
    ensures r.Some? ==> r.value == Join(FormatLines(stats, queryType, rt).value, '\n')
  {
    match FormatLines(stats, queryType, rt)
    case None => None
    case Some(ls) => Some(Join(ls, '\n'))
  }

  /** The statistics object with its `series` field replaced. */
  function WithSeries(fields: map<string, Json>, series: Option<Json>): map<string, Json> {
    match series
    case None => fields - {"series"}
    case Some(s) => fields["series" := s]
  }

  /** The volume branch returns before any series handling: once
      `totalTransactions` is present, the `series` field is never read. */
  lemma VolumeIgnoresSeries(fields: map<string, Json>, series: Option<Json>, queryType: Val, rt: Runtime)
    requires "totalTransactions" in fields
    ensures FormatLines(Some(JObj(WithSeries(fields, series))), queryType, rt) == FormatLines(Some(JObj(fields)), queryType, rt)
    ensures var r := FormatLines(Some(JObj(fields)), queryType, rt);
      r.Some? && "\U{2022} Total transactions in period: " + rt.locale(Some(fields["totalTransactions"])) in r.value
  {
    var other := WithSeries(fields, series);
    assert "totalTransactions" in other;
    assert other["totalTransactions"] == fields["totalTransactions"];
    forall k | k != "series" ensures Field(JObj(other), k) == Field(JObj(fields), k) {
    }
    var head := [Header] + DateLines(JObj(fields), rt);
    var vl := VolumeLines(JObj(fields), rt);
    assert DateLines(JObj(other), rt) == DateLines(JObj(fields), rt);
    assert VolumeLines(JObj(other), rt) == vl;
    assert FormatLines(Some(JObj(fields)), queryType, rt) == Some(head + vl);
    assert (head + vl)[|head|] == vl[0];
  }

  /** The statistics a client sends for the series query types: an object
      without `totalTransactions` whose `series` is an array. */
  predicate SeriesStats(stats: Val) {
    && stats.Some? && stats.value.JObj?
    && "totalTransactions" !in stats.value.fields
    && "series" in stats.value.fields && stats.value.fields["series"].JArr?
  }

  function SeriesItems(stats: Val): seq<Json>
    requires SeriesStats(stats)
  {
    stats.value.fields["series"].items
  }

  /** Several series: every one gets its own block, headed by its name. */
  lemma ManySeries(stats: Val, queryType: Val, rt: Runtime)
    requires SeriesStats(stats) && |SeriesItems(stats)| > 1
    requires forall i :: 0 <= i < |SeriesItems(stats)| ==> !SeriesItems(stats)[i].JNull?
    ensures FormatLines(stats, queryType, rt).Some?
    ensures forall i :: 0 <= i < |SeriesItems(stats)| ==>
      "\nSeries: " + rt.show(Field(SeriesItems(stats)[i], "name")) in FormatLines(stats, queryType, rt).value
  {
    var items := SeriesItems(stats);
    var head := [Header] + DateLines(stats.value, rt);
    assert Greater(Field(stats.value.fields["series"], "length"), 1.0, rt);
    MultiLinesHeadings(items, rt);
    var ls := MultiLines(items, rt).value;
    assert FormatLines(stats, queryType, rt) == Some(head + ls);
    forall i | 0 <= i < |items| ensures "\nSeries: " + rt.show(Field(items[i], "name")) in head + ls {
      var line := "\nSeries: " + rt.show(Field(items[i], "name"));
      var k :| 0 <= k < |ls| && ls[k] == line;
      assert (head + ls)[|head| + k] == line;
    }
  }

  /** One series: its block follows the header and date lines, priced per
      square metre exactly for rate trends, the change line carries a `+`
      exactly when the change is positive, and no empty-series line is
      added. */
  lemma OneSeries(stats: Val, queryType: Val, rt: Runtime)
    requires SeriesStats(stats) && |SeriesItems(stats)| == 1 && !SeriesItems(stats)[0].JNull?
    ensures var s := SeriesItems(stats)[0];
      var head := [Header] + DateLines(stats.value, rt);
      var pct := Field(s, "pctChange");
      && FormatLines(stats, queryType, rt).Some?
      && var ls := FormatLines(stats, queryType, rt).value;
         && ls == head + SingleLines(Some(s), queryType, rt).value
         && |ls| >= |head| + 3
         && ls[|head|] == "\U{2022} Starting value: " + (if queryType == Some(JStr("rate_trend")) then "AED/sqm" else "AED") + " " + rt.locale(Field(s, "first"))
         && ls[|head| + 2] == "\U{2022} Change:         " + (if Greater(pct, 0.0, rt) then "+" else "") + rt.show(pct) + "% over the period"
  {
    var series := Some(stats.value.fields["series"]);
    assert Field(series.value, "length") == Some(JNum(1.0));
    assert !Greater(Field(series.value, "length"), 1.0, rt);
    assert First(series.value) == Some(SeriesItems(stats)[0]);
    var single := SingleLines(First(series.value), queryType, rt).value;
    assert SeriesTail(series, queryType, rt) == Some(single);
  }

  /** No series at all: the block ends with the no-data line. */
  lemma NoSeriesLine(stats: Val, queryType: Val, rt: Runtime)
    requires SeriesStats(stats) && |SeriesItems(stats)| == 0
    ensures var head := [Header] + DateLines(stats.value, rt);
      FormatLines(stats, queryType, rt) == Some(head + [NoSeries])
  {
    var series := Some(stats.value.fields["series"]);
    assert Field(series.value, "length") == Some(JNum(0.0));
    assert Field(series.value, "length") != Some(JNum(1.0));
    assert [] + [NoSeries] == [NoSeries];
    assert SeriesTail(series, queryType, rt) == Some([NoSeries]);
  }

  /** A `null` series list passes both length tests and then throws on
      `stats.series.length`. */
  lemma NullSeriesThrows(fields: map<string, Json>, queryType: Val, rt: Runtime)
    requires "totalTransactions" !in fields && "series" in fields && fields["series"] == JNull
    ensures FormatLines(Some(JObj(fields)), queryType, rt).None?
  {
  }

  // ---------------------------------------------------------------------
  // Clarify mode

  /** `CLARIFY_FALLBACK`. */
  const ClarifyFallback: Json := JObj(map[
    "question" := JStr("What data interests you?"),
    "options" := JArr([JStr("Price trends"), JStr("Transaction volumes"), JStr("District comparison")])])

  /** `.replace(/^```(?:json)?\n?/, '')`. */
  function StripOpen(s: string): (r: string)
    ensures |r| <= |s| && r == s[|s| - |r|..]
  {
    var rest :=
      if "```json" <= s then s[7..]
      else if "```" <= s then s[3..]
      else s;
    if |rest| < |s| && |rest| > 0 && rest[0] == '\n' then rest[1..] else rest
  }

  /** `.replace(/\n?```$/, '')`. */
  function StripClose(s: string): (r: string)
    ensures r <= s
  {
    var n := |s|;
    if n >= 3 && s[n - 3..] == "```" then
      if n >= 4 && s[n - 4] == '\n' then s[..n - 4] else s[..n - 3]
    else s
  }

  /** The text handed to `JSON.parse`: fences stripped, then trimmed. */
  function Clean(raw: string): string {
    Trim(StripClose(StripOpen(raw)))
  }

  /** The opening fence and the newline after it go. */
  lemma StripOpenFence(u: string)
    ensures StripOpen("```json\n" + u) == u
  {
    var s := "```json\n" + u;
    assert s[..7] == "```json";
    assert s[7..] == "\n" + u;
    assert s[7..][1..] == u;
  }

  /** The closing fence and the newline before it go. */
  lemma StripCloseFence(t: string)
    ensures StripClose(t + "\n```") == t
  {
    var u := t + "\n```";
    assert u[|u| - 3..] == "```";
    assert u[|u| - 4] == '\n';
    assert u[..|u| - 4] == t;
  }

  /** A reply fenced as a JSON code block parses as its contents. */
  lemma CleanFenced(t: string)
    ensures Clean("```json\n" + t + "\n```") == Trim(t)
  {
    var u := t + "\n```";
    var fenced := "```json\n" + u;
    assert "```json\n" + t + "\n```" == fenced;
    StripOpenFence(u);
    StripCloseFence(t);
    assert StripClose(StripOpen(fenced)) == t;
  }

  /** A reply without fences is only trimmed. */
  lemma CleanUnfenced(t: string)
    requires !("```" <= t)
    requires |t| < 3 || t[|t| - 3..] != "```"
    ensures Clean(t) == Trim(t)
  {
    NoOpeningFence(t);
    NoClosingFence(t);
  }

  lemma NoOpeningFence(t: string)
    requires !("```" <= t)
    ensures StripOpen(t) == t
  {
    if "```json" <= t {
      assert false;
    }
  }

  lemma NoClosingFence(t: string)
    requires |t| < 3 || t[|t| - 3..] != "```"
    ensures StripClose(t) == t
  {
  }

  /** What the clarify call gives back: the first content block's `text`
      (which may be missing or not a string), or a throw. */
  datatype ClarifyReply = ClarifyText(text: Val) | ClarifyThrew

  /** The clarify answer: the parsed reply, or the fallback when the text
      is empty or missing, is not a string, does not parse, or the call
      threw. */
  function ClarifyAnswer(reply: ClarifyReply, parse: string -> Option<Json>): (j: Json)
    ensures j != ClarifyFallback ==>
      reply.ClarifyText? && Truthy(reply.text) && reply.text.value.JStr? && parse(Clean(reply.text.value.s)) == Some(j)
    ensures reply.ClarifyThrew? || !Truthy(reply.text) ==> j == ClarifyFallback
    ensures reply.ClarifyText? && Truthy(reply.text) && reply.text.value.JStr? && parse(Clean(reply.text.value.s)).Some? ==>
      j == parse(Clean(reply.text.value.s)).value
  {
    match reply
    case ClarifyThrew => ClarifyFallback
    case ClarifyText(t) =>
      if !Truthy(t) then ClarifyFallback
      else if !t.value.JStr? then ClarifyFallback
      else
        match parse(Clean(t.value.s))
        case None => ClarifyFallback
        case Some(j) => j
  }

  // ---------------------------------------------------------------------
  // The stream

  datatype SystemPrompt = ShortPrompt | FullPrompt

  /** A streamed event: its `type` and its `delta`, if any. */
  datatype Delta = Delta(kind: string, text: string)
  datatype StreamEvent = StreamEvent(kind: string, delta: Option<Delta>)

  /** The events the stream yields, and whether it broke off with an
      error after them. */
  datatype StreamOutcome = StreamOutcome(events: seq<StreamEvent>, broken: bool)

  predicate IsTextDelta(e: StreamEvent) {
    e.kind == "content_block_delta" && e.delta.Some? && e.delta.value.kind == "text_delta"
  }

  /** The text the response body carries: the text of each text delta, in
      order. */
  function Forwarded(events: seq<StreamEvent>): (r: seq<string>)
    ensures |r| <= |events|
  {
    if |events| == 0 then []
    else (if IsTextDelta(events[0]) then [events[0].delta.value.text] else []) + Forwarded(events[1..])
  }

  /** Forwarding runs event by event. */
  lemma {:induction false} ForwardedAppend(a: seq<StreamEvent>, b: seq<StreamEvent>)
    ensures Forwarded(a + b) == Forwarded(a) + Forwarded(b)
  {
    if |a| > 0 {
      assert (a + b)[0] == a[0];
      assert (a + b)[1..] == a[1..] + b;
      ForwardedAppend(a[1..], b);
    } else {
      assert a + b == b;
    }
  }

  /** Only text deltas reach the client, and each of them does: the body
      is exactly the texts of the text deltas, in stream order. */
  lemma {:induction false} ForwardedOnlyText(events: seq<StreamEvent>)
    ensures Forwarded(events) == Forwarded(Filter(events, IsTextDelta))
    ensures var ts := Filter(events, IsTextDelta);
            |Forwarded(events)| == |ts| && forall i :: 0 <= i < |ts| ==> Forwarded(events)[i] == ts[i].delta.value.text
    ensures forall i :: 0 <= i < |events| ==> IsTextDelta(events[i]) ==> |Forwarded(events)| > 0
  {
    if |events| > 0 {
      ForwardedOnlyText(events[1..]);
      if IsTextDelta(events[0]) {
        assert Filter(events, IsTextDelta) == [events[0]] + Filter(events[1..], IsTextDelta);
        ForwardedAppend([events[0]], Filter(events[1..], IsTextDelta));
        assert Forwarded([events[0]]) == [events[0].delta.value.text];
        assert Forwarded(events) == [events[0].delta.value.text] + Forwarded(events[1..]);
      } else {
        assert Filter(events, IsTextDelta) == Filter(events[1..], IsTextDelta);
        assert Forwarded(events) == Forwarded(events[1..]);
        forall i | 0 <= i < |events| && IsTextDelta(events[i]) ensures |Forwarded(events)| > 0 {
          assert events[i] == events[1..][i - 1];
        }
      }
    }
  }

  // ---------------------------------------------------------------------
  // The handler

  datatype Request = Request(verb: string, body: Option<Json>)

  datatype Response =
    | ErrorResponse(status: int, error: string)
    /** `Response.json(v)`, status 200. */
    | JsonResponse(value: Json)
    /** The streamed commentary: the prompt and budget chosen, the user
        message sent, the text forwarded and whether the body errored. */
    | TextStream(system: SystemPrompt, maxTokens: nat, message: string, chunks: seq<string>, broken: bool)
    /** An exception escapes the handler: `formatSummaryStats` threw. */
    | Crashed

  /** The oracles the handler consults. */
  datatype Model = Model(
    clarify: string -> ClarifyReply,
    stream: (SystemPrompt, nat, string) -> StreamOutcome,
    parse: string -> Option<Json>)

  /** `body.mode ?? 'full'`. */
  function Mode(body: Json): (m: Json)
    ensures Nullish(Field(body, "mode")) ==> m == JStr("full")
  {
    OrElse(Field(body, "mode"), JStr("full"))
  }

  /** The prompt and token budget of a commentary request. */
  function Budget(mode: Json): (b: (SystemPrompt, nat))
    ensures mode == JStr("short") ==> b == (ShortPrompt, 80)
    ensures mode != JStr("short") ==> b == (FullPrompt, 600)
  {
    if mode == JStr("short") then (ShortPrompt, 80) else (FullPrompt, 600)
  }

  /** The user message of a commentary request. */
  function UserMessage(prompt: Val, intent: Json, stats: string, rt: Runtime): string {
    "Original question: \"" + rt.show(prompt) + "\"\n\nQuery type: " + rt.show(Field(intent, "queryType"))
    + "\nFilters applied: " + rt.stringify(Field(intent, "filters")) + "\n\n" + stats
    + "\n\nWrite the analyst commentary now."
  }

  /** The request passed validation: a parsed, non-null body with a
      truthy prompt, and for every mode but clarify a truthy intent and
      truthy statistics. */
  predicate Valid(req: Request) {
    && req.verb == "POST" && req.body.Some? && !req.body.value.JNull?
    && Truthy(Field(req.body.value, "prompt"))
    && (Mode(req.body.value) != JStr("clarify") ==>
          Truthy(Field(req.body.value, "intent")) && Truthy(Field(req.body.value, "summaryStats")))
  }

  /** `handler(req)`. */
  function Handle(req: Request, rt: Runtime, model: Model): (r: Response)
    ensures req.verb != "POST" <==> r == ErrorResponse(405, "Method not allowed")
    ensures req.verb == "POST" && (req.body.None? || req.body == Some(JNull)) ==> r == ErrorResponse(400, "Invalid JSON body")
    ensures r == ErrorResponse(400, "Missing required field: prompt") <==>
      req.verb == "POST" && req.body.Some? && !req.body.value.JNull? && !Truthy(Field(req.body.value, "prompt"))
    ensures r.JsonResponse? <==> Valid(req) && Mode(req.body.value) == JStr("clarify")
    ensures r.TextStream? || r.Crashed? <==> Valid(req) && Mode(req.body.value) != JStr("clarify")
    ensures r.TextStream? ==> (r.system, r.maxTokens) == Budget(Mode(req.body.value))
    ensures r.JsonResponse? ==> var body := req.body.value;
      r.value == ClarifyAnswer(model.clarify("The user asked: \"" + rt.show(Field(body, "prompt")) + "\""), model.parse)
    ensures r.Crashed? <==>
      && Valid(req) && Mode(req.body.value) != JStr("clarify")
      && FormatSummaryStats(Field(req.body.value, "summaryStats"), Field(Field(req.body.value, "intent").value, "queryType"), rt).None?
    ensures r.TextStream? ==> var body := req.body.value;
      var intent := Field(body, "intent").value;
      var stats := FormatSummaryStats(Field(body, "summaryStats"), Field(intent, "queryType"), rt);
      && stats.Some?
      && r.message == UserMessage(Field(body, "prompt"), intent, stats.value, rt)
      && var out := model.stream(r.system, r.maxTokens, r.message);
         r.chunks == Forwarded(out.events) && r.broken == out.broken
  {
    if req.verb != "POST" then ErrorResponse(405, "Method not allowed")
    else if req.body.None? || req.body.value.JNull? then ErrorResponse(400, "Invalid JSON body")
    else
      var body := req.body.value;
      var prompt := Field(body, "prompt");
      var intent := Field(body, "intent");
      var stats := Field(body, "summaryStats");
      var mode := Mode(body);
      if !Truthy(prompt) then ErrorResponse(400, "Missing required field: prompt")
      else if mode != JStr("clarify") && (!Truthy(intent) || !Truthy(stats)) then
        ErrorResponse(400, "Missing required fields: intent, summaryStats")
      else if mode == JStr("clarify") then
        JsonResponse(ClarifyAnswer(model.clarify("The user asked: \"" + rt.show(prompt) + "\""), model.parse))
      else
        var (system, maxTokens) := Budget(mode);
        match FormatSummaryStats(stats, Field(intent.value, "queryType"), rt)
        case None => Crashed
        case Some(text) =>
          var message := UserMessage(prompt, intent.value, text, rt);
          var out := model.stream(system, maxTokens, message);
          TextStream(system, maxTokens, message, Forwarded(out.events), out.broken)
  }

  /** The 400 for a missing intent or missing statistics comes only after
      the prompt check, and never in clarify mode. */
  lemma MissingFieldsOrder(req: Request, rt: Runtime, model: Model)
    requires req.verb == "POST" && req.body.Some? && !req.body.value.JNull?
    ensures Handle(req, rt, model) == ErrorResponse(400, "Missing required fields: intent, summaryStats") <==>
      var body := req.body.value;
      && Truthy(Field(body, "prompt"))
      && Mode(body) != JStr("clarify")
      && (!Truthy(Field(body, "intent")) || !Truthy(Field(body, "summaryStats")))
  {
  }

  /** Without a `mode` the request gets the full prompt and 600 tokens. */
  lemma DefaultModeIsFull(req: Request, rt: Runtime, model: Model)
    requires Valid(req) && Field(req.body.value, "mode").None?
    ensures var r := Handle(req, rt, model);
      r.TextStream? ==> r.system == FullPrompt && r.maxTokens == 600
  {
  }
}
