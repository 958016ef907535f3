/** `src/hooks/useSettings.js`: app settings kept in browser storage under
    one key, merged over defaults, and the date-range hint appended to every
    question.

    Settings are a JavaScript object, here a map from key to JSON value.
    Storage is a value: reading may throw (`Unavailable`) or find no entry;
    `JSON.parse` and `JSON.stringify` are the `parse` and `stringify`
    parameters, `parse` giving `None` where it throws. */
module Settings {
  import opened Base
  import opened Text
  import opened JsValues
  import ChartFilters

  type Settings = map<string, Json>

  /** `DEFAULTS`. */
  const Defaults: Settings := map["defaultDateRange" := JStr("12m"), "customFrom" := JStr(""), "customTo" := JStr("")]

  /** The storage entry: reading throws, or yields the raw text or `null`. */
  datatype Storage = Unavailable | Stored(raw: Option<string>)

  /** The own enumerable keys `{ ...j }` copies: an object's fields, an
      array's or a string's indices (`"0"`, `"1"`, …); nothing for `null`,
      booleans and numbers. */
  function Spread(j: Json): (m: Settings)
    ensures j.JObj? ==> m == j.fields
    ensures j.JArr? ==> forall i :: 0 <= i < |j.items| ==> NatToString(i) in m && m[NatToString(i)] == j.items[i]
    ensures j.JStr? ==> forall i :: 0 <= i < |j.s| ==> NatToString(i) in m && m[NatToString(i)] == JStr([j.s[i]])
    ensures j.JNull? || j.JBool? || j.JNum? ==> m == map[]
  {
    match j
    case JObj(fields) => fields
    case JArr(items) => IndexMap(items)
    case JStr(s) => IndexMap(Chars(s))
    case _ => map[]
  }

  /** A string's characters as one-character strings. */
  function Chars(s: string): (r: seq<Json>)
    ensures |r| == |s| && forall i :: 0 <= i < |s| ==> r[i] == JStr([s[i]])
  {
    if |s| == 0 then [] else Chars(s[..|s| - 1]) + [JStr([s[|s| - 1]])]
  }

  /** The map from each index, printed, to the element there. */
  function IndexMap(xs: seq<Json>): (m: Settings)
    ensures forall i :: 0 <= i < |xs| ==> NatToString(i) in m && m[NatToString(i)] == xs[i]
  {
    if |xs| == 0 then map[]
    else
      var n := |xs| - 1;
      var prev := IndexMap(xs[..n]);
      IndexMapStep(xs, prev);
      prev[NatToString(n) := xs[n]]
  }

  /** Adding the last index keeps the earlier ones: printed indices are
      distinct. */
  lemma IndexMapStep(xs: seq<Json>, prev: Settings)
    requires |xs| > 0
    requires forall i :: 0 <= i < |xs| - 1 ==> NatToString(i) in prev && prev[NatToString(i)] == xs[..|xs| - 1][i]
    ensures var m := prev[NatToString(|xs| - 1) := xs[|xs| - 1]];
      forall i :: 0 <= i < |xs| ==> NatToString(i) in m && m[NatToString(i)] == xs[i]
  {
    var n := |xs| - 1;
    var m := prev[NatToString(n) := xs[n]];
    forall i | 0 <= i < |xs| ensures NatToString(i) in m && m[NatToString(i)] == xs[i] {
      if i < n {
        NatToStringInjective(i, n);
        assert xs[..n][i] == xs[i];
      }
    }
  }

  /** `load()`: the stored object's keys over `DEFAULTS`; `DEFAULTS` when
      storage throws, holds nothing or an empty string, or holds text that
      does not parse. */
  function Load(storage: Storage, parse: string -> Option<Json>): (s: Settings)
    ensures storage.Unavailable? || storage.raw.None? || storage.raw == Some("") ==> s == Defaults
    ensures storage.Stored? && storage.raw.Some? && storage.raw.value != "" ==>
      match parse(storage.raw.value)
      case None => s == Defaults
      case Some(j) =>
        && (forall k :: k in s <==> k in Defaults || k in Spread(j))
        && (forall k :: k in Spread(j) ==> s[k] == Spread(j)[k])
        && (forall k :: k in Defaults && k !in Spread(j) ==> s[k] == Defaults[k])
  {
    match storage
    case Unavailable => Defaults
    case Stored(raw) =>
      if raw.None? || raw.value == "" then Defaults
      else
        match parse(raw.value)
        case None => Defaults
        case Some(j) => Defaults + Spread(j)
  }

  /** `save(s)`: the text lands unless storage throws (`ok` false). */
  function Save(storage: Storage, s: Settings, stringify: Json -> string, ok: bool): (after: Storage)
    ensures ok ==> after == Stored(Some(stringify(JObj(s))))
    ensures !ok ==> after == storage
  {
    if ok then Stored(Some(stringify(JObj(s)))) else storage
  }

  /** The hook's state: the settings on screen and what storage holds. */
  datatype Store = Store(settings: Settings, storage: Storage)

  /** `updateSettings(partial)`: a shallow merge where `partial`'s keys win,
      saved as the new state. */
  function UpdateSettings(st: Store, partial: Settings, stringify: Json -> string, ok: bool): (t: Store)
    ensures forall k :: k in t.settings <==> k in st.settings || k in partial
    ensures forall k :: k in partial ==> t.settings[k] == partial[k]
    ensures forall k :: k in st.settings && k !in partial ==> t.settings[k] == st.settings[k]
    ensures ok ==> t.storage == Stored(Some(stringify(JObj(t.settings))))
    ensures !ok ==> t.storage == st.storage
  {
    var next := st.settings + partial;
    Store(next, Save(st.storage, next, stringify, ok))
  }

  /** `JSON.parse(JSON.stringify(o))` gives `o` back, and the text is not
      empty. */
  ghost predicate RoundTrips(parse: string -> Option<Json>, stringify: Json -> string) {
    forall m: Settings :: stringify(JObj(m)) != "" && parse(stringify(JObj(m))) == Some(JObj(m))
  }

  /** Loading never loses a default key. */
  lemma LoadHasDefaults(storage: Storage, parse: string -> Option<Json>)
    ensures forall k :: k in Defaults ==> k in Load(storage, parse)
  {
  }

  /** A saved update is what the next load yields, once the defaults are
      in the state. */
  lemma LoadAfterUpdate(st: Store, partial: Settings, parse: string -> Option<Json>, stringify: Json -> string)
    requires RoundTrips(parse, stringify)
    requires forall k :: k in Defaults ==> k in st.settings
    ensures Load(UpdateSettings(st, partial, stringify, true).storage, parse) == UpdateSettings(st, partial, stringify, true).settings
  {
    var t := UpdateSettings(st, partial, stringify, true);
    var text := stringify(JObj(t.settings));
    assert parse(text) == Some(JObj(t.settings));
    assert Load(t.storage, parse) == Defaults + t.settings;
    assert Defaults + t.settings == t.settings;
  }

  /** Mounting with nothing stored, or with text that does not parse,
      starts from the defaults. */
  lemma FreshStart(parse: string -> Option<Json>, text: string)
    requires text != "" && parse(text).None?
    ensures Load(Stored(None), parse) == Defaults
    ensures Load(Stored(Some(text)), parse) == Defaults
    ensures Load(Unavailable, parse) == Defaults
  {
  }

  // ---------------------------------------------------------------------
  // Date-range hint

  const HintTail := " \U{2014} apply unless the query specifies otherwise]"

  /** The hint for a rolling range of `n` months. */
  function LastMonths(n: string): string {
    " [Default time range: last " + n + " months" + HintTail
  }

  /** The text a template literal shows for a value: a string as is, any
      other value as `show` renders it. */
  function Shown(v: Json, show: Json -> string): (t: string)
    ensures v.JStr? ==> t == v.s
  {
    if v.JStr? then v.s else show(v)
  }

  /** The range setting, when it is a string. */
  function RangeOf(s: Settings): Option<string> {
    if "defaultDateRange" in s && s["defaultDateRange"].JStr? then Some(s["defaultDateRange"].s) else None
  }

  function Lookup(s: Settings, k: string): Val {
    if k in s then Some(s[k]) else None
  }

  /** `getDateRangeHint()`. */
  function Hint(s: Settings, show: Json -> string): (h: string)
    ensures RangeOf(s) == Some("12m") ==> h == LastMonths("12")
    ensures RangeOf(s) == Some("24m") ==> h == LastMonths("24")
    ensures RangeOf(s) == Some("custom") ==>
      (h != "" <==> Truthy(Lookup(s, "customFrom")) && Truthy(Lookup(s, "customTo")))
    ensures RangeOf(s) == Some("custom") && h != "" ==>
      h == " [Default time range: " + Shown(s["customFrom"], show) + " to " + Shown(s["customTo"], show) + HintTail
    ensures RangeOf(s) !in {Some("12m"), Some("24m"), Some("custom")} ==> h == ""
  {
    match RangeOf(s)
    case Some(r) =>
      if r == "12m" then LastMonths("12")
      else if r == "24m" then LastMonths("24")
      else if r == "custom" then
        var from := Lookup(s, "customFrom");
        var to := Lookup(s, "customTo");
        if Truthy(from) && Truthy(to) then
          " [Default time range: " + Shown(from.value, show) + " to " + Shown(to.value, show) + HintTail
        else ""
      else ""
    case None => ""
  }

  /** The hint and the Chart tab's default dates agree: a hint naming the
      last N months goes with a default `dateFrom` N months back, and
      `'all'` gives neither a hint nor default dates. */
  lemma HintMatchesChartDefaults(s: Settings, show: Json -> string)
    requires RangeOf(s) in {Some("12m"), Some("24m"), Some("all")}
    ensures RangeOf(s) == Some("all") ==> Hint(s, show) == ""
    ensures RangeOf(s) != Some("all") ==>
      Hint(s, show) == LastMonths(NatToString(ChartFilters.Span(RangeOf(s).value)))
  {
    SpanNames();
    var r := RangeOf(s).value;
    if r == "12m" {
      assert ChartFilters.Span(r) == 12;
    } else if r == "24m" {
      assert ChartFilters.Span(r) == 24;
    }
  }

  lemma SpanNames()
    ensures NatToString(12) == "12" && NatToString(24) == "24"
  {
    assert NatToString(12) == NatToString(1) + [DigitChar(2)];
    assert NatToString(24) == NatToString(2) + [DigitChar(4)];
  }

  /** The defaults ask for the last 12 months. */
  lemma DefaultHint(show: Json -> string)
    ensures Hint(Defaults, show) == LastMonths("12")
  {
    assert RangeOf(Defaults) == Some("12m");
  }
}
