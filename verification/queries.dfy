/** The parameterised query builders of `src/utils/queries.js`.

    SQL text is modelled abstractly as a sequence of tokens: the `SELECT …
    FROM sales` head and `GROUP BY … ORDER BY month` tail of each query
    shape, the keywords `WHERE` and `AND`, and one fragment per condition
    that carries how many `?` placeholders it holds. What matters to the
    database is that the placeholders, read left to right, line up one to
    one with the parameter list; `Bind` plays the database's part and
    assigns parameters to placeholders in that order. */
module Queries {
  import opened Base

  /** A bound parameter: a string (dates, names) or a number (price bounds). */
  datatype Param = PStr(s: string) | PNum(n: int)

  /** The filter record the builders destructure. A date that is
      `undefined`, `null` or `''` is the empty string here (every reader
      only tests its truthiness), and an absent list is the empty list. */
  datatype FilterRecord = FilterRecord(
    dateFrom: string,
    dateTo: string,
    projects: seq<string>,
    districts: seq<string>,
    propertyTypes: seq<string>,
    layouts: seq<string>,
    saleTypes: seq<string>,
    saleSequences: seq<string>,
    priceMin: Option<int>,
    priceMax: Option<int>)

  const EmptyFilters := FilterRecord("", "", [], [], [], [], [], [], None, None)

  /** The condition templates, one per filter the builders know:
      `sale_date >= ?`, `sale_date <= ?`, `district IN (…)`,
      `property_type IN (…)`, `layout IN (…)`, `sale_type IN (…)`,
      `sale_sequence IN (…)`, `price_aed >= ?`, `price_aed <= ?`,
      `project_name IN (…)`, and the guards `price_aed > 0` and
      `rate_per_sqm > 0`. */
  datatype Key =
    | DateFrom | DateTo | Districts | PropertyTypes | Layouts | SaleTypes | SaleSequences
    | PriceMin | PriceMax | Projects | PricePositive | RatePositive

  /** One condition fragment and the number of `?` it contains. */
  datatype Cond = Cond(key: Key, arity: nat)

  datatype Shape = MonthlyPrice | PricePerSqm | Volume | ProjectComparison
  datatype Grouping = ByMonth | ByMonthAndProject

  datatype Token = Head(shape: Shape) | WhereKw | AndKw | Frag(cond: Cond) | Tail(grouping: Grouping)

  /** `{ where, params }`; `where == []` stands for the empty string. */
  datatype WhereClause = WhereClause(where: seq<Token>, params: seq<Param>)

  /** `{ sql, params }`; `sql == []` stands for the empty string. */
  datatype Query = Query(sql: seq<Token>, params: seq<Param>)

  /** A condition together with the parameters its placeholders receive. */
  datatype Binding = Binding(cond: Cond, values: seq<Param>)

  predicate WellFormed(bs: seq<Binding>) {
    forall i :: 0 <= i < |bs| ==> bs[i].cond.arity == |bs[i].values|
  }

  function CondsOf(bs: seq<Binding>): (cs: seq<Cond>)
    ensures |cs| == |bs| && forall i :: 0 <= i < |bs| ==> cs[i] == bs[i].cond
  {
    if |bs| == 0 then [] else CondsOf(bs[..|bs| - 1]) + [bs[|bs| - 1].cond]
  }

  function Flatten(bs: seq<Binding>): seq<Param> {
    if |bs| == 0 then [] else Flatten(bs[..|bs| - 1]) + bs[|bs| - 1].values
  }

  function Strs(xs: seq<string>): (ps: seq<Param>)
    ensures |ps| == |xs| && forall i :: 0 <= i < |xs| ==> ps[i] == PStr(xs[i])
  {
    seq(|xs|, i requires 0 <= i < |xs| => PStr(xs[i]))
  }

  // ---------------------------------------------------------------------
  // Rendering and positional binding

  /** `conditions.join(' AND ')`. */
  function JoinAnd(cs: seq<Cond>): seq<Token>
    requires |cs| > 0
  {
    if |cs| == 1 then [Frag(cs[0])] else JoinAnd(cs[..|cs| - 1]) + [AndKw, Frag(cs[|cs| - 1])]
  }

  /** `conditions.length ? 'WHERE ' + conditions.join(' AND ') : ''`. */
  function RenderWhere(cs: seq<Cond>): seq<Token> {
    if |cs| == 0 then [] else [WhereKw] + JoinAnd(cs)
  }

  /** The number of `?` in a token sequence. */
  function Placeholders(ts: seq<Token>): nat {
    if |ts| == 0 then 0
    else (if ts[0].Frag? then ts[0].cond.arity else 0) + Placeholders(ts[1..])
  }

  /** Positional binding as the database performs it: every fragment takes
      the next `arity` parameters, and all parameters must be used. */
  function Bind(ts: seq<Token>, ps: seq<Param>): Option<seq<Binding>>
  {
    if |ts| == 0 then (if |ps| == 0 then Some([]) else None)
    else if ts[0].Frag? then
      var n := ts[0].cond.arity;
      if n > |ps| then None
      else match Bind(ts[1..], ps[n..])
        case None => None
        case Some(rest) => Some([Binding(ts[0].cond, ps[..n])] + rest)
    else Bind(ts[1..], ps)
  }

  /** Binding succeeds exactly when placeholders and parameters are equally
      many. */
  lemma {:induction false} BindDefinedIff(ts: seq<Token>, ps: seq<Param>)
    ensures Bind(ts, ps).Some? <==> Placeholders(ts) == |ps|
  {
    if |ts| > 0 {
      if ts[0].Frag? {
        var n := ts[0].cond.arity;
        if n <= |ps| { BindDefinedIff(ts[1..], ps[n..]); }
      } else {
        BindDefinedIff(ts[1..], ps);
      }
    }
  }

  function Then(a: Option<seq<Binding>>, b: Option<seq<Binding>>): Option<seq<Binding>> {
    if a.Some? && b.Some? then Some(a.value + b.value) else None
  }

  /** Binding distributes over concatenation once the first part has as many
      placeholders as it is given parameters. */
  lemma {:induction false} BindAppend(ts1: seq<Token>, ts2: seq<Token>, ps1: seq<Param>, ps2: seq<Param>)
    requires Placeholders(ts1) == |ps1|
    ensures Bind(ts1 + ts2, ps1 + ps2) == Then(Bind(ts1, ps1), Bind(ts2, ps2))
  {
    BindDefinedIff(ts1, ps1);
    if |ts1| == 0 {
      assert ts1 + ts2 == ts2 && ps1 + ps2 == ps2;
      if Bind(ts2, ps2).Some? { assert [] + Bind(ts2, ps2).value == Bind(ts2, ps2).value; }
    } else {
      assert (ts1 + ts2)[0] == ts1[0] && (ts1 + ts2)[1..] == ts1[1..] + ts2;
      if ts1[0].Frag? {
        var c := ts1[0].cond;
        var n := c.arity;
        assert n <= |ps1|;
        assert (ps1 + ps2)[n..] == ps1[n..] + ps2;
        assert (ps1 + ps2)[..n] == ps1[..n];
        BindAppend(ts1[1..], ts2, ps1[n..], ps2);
        BindDefinedIff(ts1[1..], ps1[n..]);
        var r1 := Bind(ts1[1..], ps1[n..]).value;
        assert Bind(ts1, ps1) == Some([Binding(c, ps1[..n])] + r1);
        match Bind(ts2, ps2)
        case None =>
        case Some(r2) =>
          assert [Binding(c, ps1[..n])] + (r1 + r2) == [Binding(c, ps1[..n])] + r1 + r2;
      } else {
        BindAppend(ts1[1..], ts2, ps1, ps2);
      }
    }
  }

  lemma {:induction false} PlaceholdersAppend(a: seq<Token>, b: seq<Token>)
    ensures Placeholders(a + b) == Placeholders(a) + Placeholders(b)
  {
    if |a| == 0 {
      assert a + b == b;
    } else {
      assert (a + b)[0] == a[0] && (a + b)[1..] == a[1..] + b;
      PlaceholdersAppend(a[1..], b);
    }
  }

  /** A keyword takes no parameter. */
  lemma BindKeyword(k: Token, ts: seq<Token>, ps: seq<Param>)
    requires !k.Frag?
    ensures Bind([k] + ts, ps) == Bind(ts, ps)
    ensures Placeholders([k] + ts) == Placeholders(ts)
  {
    assert ([k] + ts)[1..] == ts;
  }

  lemma RenderSnoc(bs: seq<Binding>)
    requires |bs| > 1
    ensures RenderWhere(CondsOf(bs)) == RenderWhere(CondsOf(bs[..|bs| - 1])) + ([AndKw] + [Frag(bs[|bs| - 1].cond)])
    ensures Flatten(bs) == Flatten(bs[..|bs| - 1]) + bs[|bs| - 1].values
  {
    var n := |bs| - 1;
    assert CondsOf(bs[..n]) == CondsOf(bs)[..n];
  }

  /** A rendered `WHERE` clause hands every condition exactly its own
      parameters, in order. */
  lemma {:induction false} BindRender(bs: seq<Binding>)
    requires WellFormed(bs)
    ensures Placeholders(RenderWhere(CondsOf(bs))) == |Flatten(bs)|
    ensures Bind(RenderWhere(CondsOf(bs)), Flatten(bs)) == Some(bs)
  {
    if |bs| == 1 {
      BindRenderOne(bs);
    } else if |bs| > 1 {
      var pre := bs[..|bs| - 1];
      assert WellFormed(pre);
      BindRender(pre);
      BindRenderSnoc(bs);
    }
  }

  lemma BindRenderOne(bs: seq<Binding>)
    requires |bs| == 1 && WellFormed(bs)
    ensures Placeholders(RenderWhere(CondsOf(bs))) == |Flatten(bs)|
    ensures Bind(RenderWhere(CondsOf(bs)), Flatten(bs)) == Some(bs)
  {
    var last := bs[0];
    var lastToks: seq<Token> := [Frag(last.cond)];
    BindSingle(last.cond, last.values);
    BindDefinedIff(lastToks, last.values);
    assert CondsOf(bs) == [last.cond];
    assert Flatten(bs) == [] + last.values == last.values;
    BindKeyword(WhereKw, lastToks, last.values);
    assert bs == [last];
  }

  /** One more well-formed binding after a clause that binds correctly. */
  lemma BindRenderSnoc(bs: seq<Binding>)
    requires |bs| > 1 && WellFormed(bs)
    requires var pre := bs[..|bs| - 1];
      && Placeholders(RenderWhere(CondsOf(pre))) == |Flatten(pre)|
      && Bind(RenderWhere(CondsOf(pre)), Flatten(pre)) == Some(pre)
    ensures Placeholders(RenderWhere(CondsOf(bs))) == |Flatten(bs)|
    ensures Bind(RenderWhere(CondsOf(bs)), Flatten(bs)) == Some(bs)
  {
    var n := |bs| - 1;
    var pre, last := bs[..n], bs[n];
    var lastToks: seq<Token> := [Frag(last.cond)];
    BindSingle(last.cond, last.values);
    BindDefinedIff(lastToks, last.values);
    RenderSnoc(bs);
    var preToks := RenderWhere(CondsOf(pre));
    BindKeyword(AndKw, lastToks, last.values);
    BindAppend(preToks, [AndKw] + lastToks, Flatten(pre), last.values);
    PlaceholdersAppend(preToks, [AndKw] + lastToks);
    assert pre + [last] == bs;
  }

  lemma BindSingle(c: Cond, vals: seq<Param>)
    requires c.arity == |vals|
    ensures Bind([Frag(c)], vals) == Some([Binding(c, vals)])
  {
    var ts := [Frag(c)];
    assert ts[1..] == [];
    assert vals[c.arity..] == [] && vals[..c.arity] == vals;
    assert Bind(ts[1..], vals[c.arity..]) == Some([]);
    assert [Binding(c, vals)] + [] == [Binding(c, vals)];
  }

  /** Adding one more condition to a non-empty clause joins it with `AND`. */
  lemma RenderWhereSnoc(cs: seq<Cond>, c: Cond)
    requires |cs| > 0
    ensures RenderWhere(cs + [c]) == RenderWhere(cs) + [AndKw, Frag(c)]
  {
    assert (cs + [c])[..|cs|] == cs;
  }

  /** Parameters that bind to a query framed by a head and a tail token
      bind the same way to the clause alone. */
  lemma Framed(h: Token, clause: seq<Token>, t: Token, ps: seq<Param>)
    requires !h.Frag? && !t.Frag?
    requires Placeholders(clause) == |ps|
    ensures Placeholders([h] + clause + [t]) == |ps|
    ensures Bind([h] + clause + [t], ps) == Bind(clause, ps)
  {
    BindDefinedIff(clause, ps);
    assert [t][1..] == [] && [h][1..] == [];
    assert Bind([t], []) == Some([]);
    assert Bind([h], []) == Some([]);
    BindAppend([h], clause + [t], [], ps);
    BindAppend(clause, [t], ps, []);
    PlaceholdersAppend([h], clause + [t]);
    PlaceholdersAppend(clause, [t]);
    assert [] + ps == ps && ps + [] == ps;
    assert [h] + clause + [t] == [h] + (clause + [t]);
    assert Bind(clause, ps).value + [] == Bind(clause, ps).value;
  }

  // ---------------------------------------------------------------------
  // The conditions a filter record calls for

  /** What the filter record contributes to each condition template; `[]`
      means the template is left out. Lists containing `'all'` are
      exempted for layouts, sale types and sale sequences only. */
  function ValuesFor(f: FilterRecord, k: Key): seq<Param> {
    match k
    case DateFrom => if f.dateFrom != "" then [PStr(f.dateFrom)] else []
    case DateTo => if f.dateTo != "" then [PStr(f.dateTo)] else []
    case Districts => Strs(f.districts)
    case PropertyTypes => Strs(f.propertyTypes)
    case Layouts => if "all" in f.layouts then [] else Strs(f.layouts)
    case SaleTypes => if "all" in f.saleTypes then [] else Strs(f.saleTypes)
    case SaleSequences => if "all" in f.saleSequences then [] else Strs(f.saleSequences)
    case PriceMin => if f.priceMin.Some? then [PNum(f.priceMin.value)] else []
    case PriceMax => if f.priceMax.Some? then [PNum(f.priceMax.value)] else []
    case Projects => Strs(f.projects)
    case PricePositive => []
    case RatePositive => []
  }

  function Present(f: FilterRecord, k: Key): seq<Binding> {
    var vs := ValuesFor(f, k);
    if vs == [] then [] else [Binding(Cond(k, |vs|), vs)]
  }

  /** The templates, in the order `buildWhereClause` tries them. */
  const WhereKeys: seq<Key> := [DateFrom, DateTo, Districts, PropertyTypes, Layouts, SaleTypes, SaleSequences, PriceMin, PriceMax]

  /** The bindings for those of `ks` the filter record calls for, in the
      order of `ks`. */
  function Expected(f: FilterRecord, ks: seq<Key>): seq<Binding> {
    if |ks| == 0 then [] else Expected(f, ks[..|ks| - 1]) + Present(f, ks[|ks| - 1])
  }

  /** Every expected binding is a template of `ks` the record calls for,
      with its values; every template the record calls for is there; and
      they appear in the order of `ks`. */
  lemma ExpectedSpec(f: FilterRecord, ks: seq<Key>)
    requires NoDups(ks)
    ensures var bs := Expected(f, ks);
      && WellFormed(bs)
      && (forall i :: 0 <= i < |bs| ==> bs[i].cond.key in ks && bs[i].values == ValuesFor(f, bs[i].cond.key) != [])
      && (forall i :: 0 <= i < |ks| && ValuesFor(f, ks[i]) != [] ==>
            Binding(Cond(ks[i], |ValuesFor(f, ks[i])|), ValuesFor(f, ks[i])) in bs)
      && (forall i, j :: 0 <= i < j < |bs| ==> FirstIndex(ks, bs[i].cond.key) < FirstIndex(ks, bs[j].cond.key))
  {
    ExpectedFields(f, ks);
    ExpectedComplete(f, ks);
    ExpectedOrder(f, ks);
  }

  /** Each expected binding is a template of `ks` the record calls for,
      carrying exactly the record's values for it. */
  lemma {:induction false} ExpectedFields(f: FilterRecord, ks: seq<Key>)
    ensures var bs := Expected(f, ks);
      && WellFormed(bs)
      && (forall i :: 0 <= i < |bs| ==> bs[i].cond.key in ks && bs[i].values == ValuesFor(f, bs[i].cond.key) != [])
  {
    if |ks| > 0 {
      var n := |ks| - 1;
      var pre := ks[..n];
      var p := Expected(f, pre);
      ExpectedFields(f, pre);
      var bs := Expected(f, ks);
      assert bs == p + Present(f, ks[n]);
      forall i | 0 <= i < |bs| ensures bs[i].cond.key in ks && bs[i].cond.arity == |bs[i].values| {
        if i < |p| {
          assert bs[i] == p[i] && p[i].cond.key in pre;
        }
      }
    }
  }

  /** Every template of `ks` the record calls for has its binding. */
  lemma {:induction false} ExpectedComplete(f: FilterRecord, ks: seq<Key>)
    ensures forall i :: 0 <= i < |ks| && ValuesFor(f, ks[i]) != [] ==>
      Binding(Cond(ks[i], |ValuesFor(f, ks[i])|), ValuesFor(f, ks[i])) in Expected(f, ks)
  {
    if |ks| > 0 {
      var n := |ks| - 1;
      var pre := ks[..n];
      ExpectedComplete(f, pre);
      var bs := Expected(f, ks);
      assert bs == Expected(f, pre) + Present(f, ks[n]);
      forall i | 0 <= i < |ks| && ValuesFor(f, ks[i]) != []
        ensures Binding(Cond(ks[i], |ValuesFor(f, ks[i])|), ValuesFor(f, ks[i])) in bs
      {
        if i < n { assert ks[i] == pre[i]; }
      }
    }
  }

  /** The bindings follow the order of `ks`. */
  lemma {:induction false} ExpectedOrder(f: FilterRecord, ks: seq<Key>)
    requires NoDups(ks)
    ensures var bs := Expected(f, ks);
      && (forall i :: 0 <= i < |bs| ==> bs[i].cond.key in ks)
      && (forall i, j :: 0 <= i < j < |bs| ==> FirstIndex(ks, bs[i].cond.key) < FirstIndex(ks, bs[j].cond.key))
  {
    ExpectedFields(f, ks);
    if |ks| > 0 {
      var n := |ks| - 1;
      var pre := ks[..n];
      var p := Expected(f, pre);
      assert NoDups(pre);
      ExpectedOrder(f, pre);
      ExpectedFields(f, pre);
      var bs := Expected(f, ks);
      assert bs == p + Present(f, ks[n]);
      forall i | 0 <= i < |p| ensures FirstIndex(ks, p[i].cond.key) == FirstIndex(pre, p[i].cond.key) < n {
        var k := FirstIndex(pre, p[i].cond.key);
        assert pre[..k] == ks[..k];
        FirstIndexUnique(ks, p[i].cond.key, k);
      }
      assert ks[n] !in pre;
      FirstIndexUnique(ks, ks[n], n);
      forall i, j | 0 <= i < j < |bs| ensures FirstIndex(ks, bs[i].cond.key) < FirstIndex(ks, bs[j].cond.key) {
        assert bs[i] == p[i];
        if j < |p| {
          assert bs[j] == p[j];
        } else {
          assert bs[j].cond.key == ks[n];
        }
      }
    }
  }

  /** Every expected binding comes from a template of `ks` the record calls
      for. */
  lemma {:induction false} ExpectedCalledFor(f: FilterRecord, ks: seq<Key>)
    ensures forall b :: b in Expected(f, ks) ==> b.cond.key in ks && ValuesFor(f, b.cond.key) != []
  {
    if |ks| > 0 {
      var n := |ks| - 1;
      ExpectedCalledFor(f, ks[..n]);
      forall b | b in Expected(f, ks) ensures b.cond.key in ks && ValuesFor(f, b.cond.key) != [] {
        if b in Expected(f, ks[..n]) {
          assert b.cond.key in ks[..n];
        }
      }
    }
  }

  /** The conditions a filter record calls for. */
  function ExpectedBindings(f: FilterRecord): seq<Binding> {
    Expected(f, WhereKeys)
  }

  /** `conditions.push(cond); params.push(...vals)` when `test` holds. */
  function Step(bs: seq<Binding>, test: bool, k: Key, vals: seq<Param>): seq<Binding> {
    if test then bs + [Binding(Cond(k, |vals|), vals)] else bs
  }

  /** The `if` test guarding each template in the builders, with
      JavaScript's truthiness: a date must be a non-empty string, a list
      non-empty (and, for three of them, free of `'all'`), and a price bound
      anything but `null`/`undefined`. The guards are added unconditionally
      by the builders themselves. */
  function Test(f: FilterRecord, k: Key): bool {
    match k
    case DateFrom => f.dateFrom != ""
    case DateTo => f.dateTo != ""
    case Districts => |f.districts| > 0
    case PropertyTypes => |f.propertyTypes| > 0
    case Layouts => |f.layouts| > 0 && "all" !in f.layouts
    case SaleTypes => |f.saleTypes| > 0 && "all" !in f.saleTypes
    case SaleSequences => |f.saleSequences| > 0 && "all" !in f.saleSequences
    case PriceMin => f.priceMin.Some?
    case PriceMax => f.priceMax.Some?
    case Projects => |f.projects| > 0
    case PricePositive => false
    case RatePositive => false
  }

  /** The values pushed onto `params` when the test passes. */
  function Pushed(f: FilterRecord, k: Key): seq<Param> {
    match k
    case DateFrom => [PStr(f.dateFrom)]
    case DateTo => [PStr(f.dateTo)]
    case Districts => Strs(f.districts)
    case PropertyTypes => Strs(f.propertyTypes)
    case Layouts => Strs(f.layouts)
    case SaleTypes => Strs(f.saleTypes)
    case SaleSequences => Strs(f.saleSequences)
    case PriceMin => if f.priceMin.Some? then [PNum(f.priceMin.value)] else []
    case PriceMax => if f.priceMax.Some? then [PNum(f.priceMax.value)] else []
    case Projects => Strs(f.projects)
    case PricePositive => []
    case RatePositive => []
  }

  /** The builders' `if` statements, run in the order of `ks`. */
  function Run(f: FilterRecord, ks: seq<Key>): seq<Binding> {
    if |ks| == 0 then []
    else
      var k := ks[|ks| - 1];
      Step(Run(f, ks[..|ks| - 1]), Test(f, k), k, Pushed(f, k))
  }

  /** A test passes exactly when its template calls for values, and then
      pushes those values. */
  lemma TestAgrees(f: FilterRecord, k: Key)
    ensures Test(f, k) <==> ValuesFor(f, k) != []
    ensures Test(f, k) ==> Pushed(f, k) == ValuesFor(f, k)
  {
  }

  /** Running the tests builds exactly the expected bindings. */
  lemma {:induction false} RunSpec(f: FilterRecord, ks: seq<Key>)
    ensures Run(f, ks) == Expected(f, ks)
  {
    if |ks| > 0 {
      RunSpec(f, ks[..|ks| - 1]);
      TestAgrees(f, ks[|ks| - 1]);
    }
  }

  /** The conditions as `buildWhereClause` pushes them. */
  function WhereBindings(f: FilterRecord): (bs: seq<Binding>)
    ensures bs == ExpectedBindings(f)
  {
    RunSpec(f, WhereKeys);
    Run(f, WhereKeys)
  }

  lemma {:induction false} FlattenAppend(a: seq<Binding>, b: seq<Binding>)
    ensures Flatten(a + b) == Flatten(a) + Flatten(b)
    decreases |b|
  {
    var ab := a + b;
    if |b| == 0 {
      assert ab == a;
    } else {
      var n := |b| - 1;
      assert ab[..|ab| - 1] == a + b[..n] && ab[|ab| - 1] == b[n];
      FlattenAppend(a, b[..n]);
      assert Flatten(ab) == Flatten(a + b[..n]) + b[n].values;
      assert Flatten(b) == Flatten(b[..n]) + b[n].values;
    }
  }

  lemma CondsAppend(a: seq<Binding>, b: seq<Binding>)
    ensures CondsOf(a + b) == CondsOf(a) + CondsOf(b)
  {
    var l, r := CondsOf(a + b), CondsOf(a) + CondsOf(b);
    assert |l| == |r|;
    forall i | 0 <= i < |l| ensures l[i] == r[i] {
      if i < |a| { assert (a + b)[i] == a[i]; } else { assert (a + b)[i] == b[i - |a|]; }
    }
  }

  /** The parameter values of the templates `ks`, concatenated in order. */
  function AllValues(f: FilterRecord, ks: seq<Key>): seq<Param> {
    if |ks| == 0 then [] else AllValues(f, ks[..|ks| - 1]) + ValuesFor(f, ks[|ks| - 1])
  }

  lemma {:induction false} FlattenExpected(f: FilterRecord, ks: seq<Key>)
    ensures Flatten(Expected(f, ks)) == AllValues(f, ks)
  {
    if |ks| > 0 {
      var n := |ks| - 1;
      FlattenExpected(f, ks[..n]);
      FlattenAppend(Expected(f, ks[..n]), Present(f, ks[n]));
      var p := Present(f, ks[n]);
      if p != [] { assert p[..0] == []; assert Flatten(p) == [] + ValuesFor(f, ks[n]); }
    }
  }

  /** Templates the record does not call for contribute nothing. */
  lemma {:induction false} ExpectedNone(f: FilterRecord, ks: seq<Key>)
    requires forall i :: 0 <= i < |ks| ==> ValuesFor(f, ks[i]) == []
    ensures Expected(f, ks) == []
  {
    if |ks| > 0 {
      ExpectedNone(f, ks[..|ks| - 1]);
    }
  }

  /** Only the `Projects` template reads `projects`. */
  lemma {:induction false} ExpectedIgnoresProjects(f: FilterRecord, projects: seq<string>, ks: seq<Key>)
    requires Projects !in ks
    ensures Expected(f.(projects := projects), ks) == Expected(f, ks)
  {
    if |ks| > 0 {
      assert ks[|ks| - 1] != Projects;
      ExpectedIgnoresProjects(f, projects, ks[..|ks| - 1]);
    }
  }

  // ---------------------------------------------------------------------
  // buildWhereClause

  /** `buildWhereClause(filters)`: the placeholders of `where` receive, left
      to right, exactly the values each present filter calls for, and the
      clause is empty exactly when no filter applies. */
  function BuildWhereClause(f: FilterRecord): (r: WhereClause)
    ensures Placeholders(r.where) == |r.params|
    ensures Bind(r.where, r.params) == Some(ExpectedBindings(f))
    ensures r.where == [] <==> ExpectedBindings(f) == []
    ensures r.where != [] ==> r.where[0] == WhereKw
  {
    var bs := WhereBindings(f);
    ExpectedSpec(f, WhereKeys);
    BindRender(bs);
    WhereClause(RenderWhere(CondsOf(bs)), Flatten(bs))
  }

  /** Conditions follow the fixed template order, each at most once; a
      template appears exactly when its filter calls for values, and binds
      those values. */
  lemma WhereConditionsPerKey(f: FilterRecord)
    ensures var bs := ExpectedBindings(f);
      && (forall i :: 0 <= i < |bs| ==> bs[i].cond.key in WhereKeys && bs[i].values == ValuesFor(f, bs[i].cond.key) != [])
      && (forall i, j :: 0 <= i < j < |bs| ==> FirstIndex(WhereKeys, bs[i].cond.key) < FirstIndex(WhereKeys, bs[j].cond.key))
      && (forall k :: k in WhereKeys && ValuesFor(f, k) != [] ==> Binding(Cond(k, |ValuesFor(f, k)|), ValuesFor(f, k)) in bs)
  {
    ExpectedSpec(f, WhereKeys);
  }

  /** A list containing `'all'` adds no condition for layouts, sale types
      and sale sequences; districts have no such exemption. */
  lemma AllExempts(f: FilterRecord)
    ensures "all" in f.layouts ==> forall b :: b in ExpectedBindings(f) ==> b.cond.key != Layouts
    ensures "all" in f.saleTypes ==> forall b :: b in ExpectedBindings(f) ==> b.cond.key != SaleTypes
    ensures "all" in f.saleSequences ==> forall b :: b in ExpectedBindings(f) ==> b.cond.key != SaleSequences
    ensures |f.districts| > 0 ==> Binding(Cond(Districts, |f.districts|), Strs(f.districts)) in ExpectedBindings(f)
  {
    if "all" in f.layouts { KeyAbsent(f, Layouts); }
    if "all" in f.saleTypes { KeyAbsent(f, SaleTypes); }
    if "all" in f.saleSequences { KeyAbsent(f, SaleSequences); }
    ExpectedComplete(f, WhereKeys);
    assert WhereKeys[2] == Districts;
  }

  /** A template with no values has no binding. */
  lemma KeyAbsent(f: FilterRecord, k: Key)
    requires ValuesFor(f, k) == []
    ensures forall b :: b in ExpectedBindings(f) ==> b.cond.key != k
  {
    var bs := ExpectedBindings(f);
    ExpectedFields(f, WhereKeys);
    forall b | b in bs ensures b.cond.key != k {
      var i :| 0 <= i < |bs| && bs[i] == b;
    }
  }

  /** The empty filter record gives `where == ''` and no parameters. */
  lemma EmptyWhere()
    ensures BuildWhereClause(EmptyFilters) == WhereClause([], [])
  {
    var f := EmptyFilters;
    forall i | 0 <= i < |WhereKeys| ensures ValuesFor(f, WhereKeys[i]) == [] {
      assert Strs([]) == [];
    }
    ExpectedNone(f, WhereKeys);
    assert WhereBindings(f) == [];
    assert CondsOf([]) == [] && Flatten([]) == [];
  }

  /** A non-empty clause is `WHERE` followed by the conditions joined with
      `AND`. */
  lemma WhereShape(f: FilterRecord)
    ensures BuildWhereClause(f).where == RenderWhere(CondsOf(ExpectedBindings(f)))
    ensures BuildWhereClause(f).params == Flatten(ExpectedBindings(f))
    ensures BuildWhereClause(f).params == AllValues(f, WhereKeys)
  {
    FlattenExpected(f, WhereKeys);
  }

  /** `projects` is never read. */
  lemma ProjectsIgnored(f: FilterRecord, projects: seq<string>)
    ensures BuildWhereClause(f.(projects := projects)) == BuildWhereClause(f)
  {
    var g := f.(projects := projects);
    ExpectedIgnoresProjects(f, projects, WhereKeys);
    assert WhereBindings(g) == WhereBindings(f);
  }

  /** A date of `''` adds nothing, while a price bound of `0` is kept. */
  lemma FalsyDatesZeroPrices(f: FilterRecord)
    requires f.dateFrom == "" && f.priceMin == Some(0)
    ensures forall b :: b in ExpectedBindings(f) ==> b.cond.key != DateFrom
    ensures Binding(Cond(PriceMin, 1), [PNum(0)]) in ExpectedBindings(f)
  {
    ExpectedSpec(f, WhereKeys);
    assert WhereKeys[7] == PriceMin;
  }

  // ---------------------------------------------------------------------
  // The three trend builders

  const PriceGuard := Cond(PricePositive, 0)
  const RateGuard := Cond(RatePositive, 0)

  /** `where ? 'AND col > 0' : 'WHERE col > 0'`. */
  function GuardTokens(where: seq<Token>, guard: Cond): seq<Token> {
    if where != [] then [AndKw, Frag(guard)] else [WhereKw, Frag(guard)]
  }

  /** Appending the guard to the clause makes it one more condition of the
      same `WHERE`, and it binds no parameter. */
  lemma GuardedClause(f: FilterRecord, guard: Cond)
    requires guard.arity == 0
    ensures var w := BuildWhereClause(f);
      var bs := ExpectedBindings(f) + [Binding(guard, [])];
      && w.where + GuardTokens(w.where, guard) == RenderWhere(CondsOf(bs))
      && Placeholders(w.where + GuardTokens(w.where, guard)) == |w.params|
      && Bind(w.where + GuardTokens(w.where, guard), w.params) == Some(bs)
  {
    var w := BuildWhereClause(f);
    var eb := ExpectedBindings(f);
    var bs := eb + [Binding(guard, [])];
    WhereShape(f);
    GuardAppended(eb, guard);
    GuardRender(CondsOf(eb), guard);
    assert RenderWhere(CondsOf(bs)) == w.where + GuardTokens(w.where, guard);
    assert Flatten(bs) == w.params;
    ExpectedWellFormed(f);
    WellFormedSnoc(eb, Binding(guard, []));
    BindRender(bs);
  }

  /** The bindings the record calls for each carry as many values as
      their template has placeholders. */
  lemma ExpectedWellFormed(f: FilterRecord)
    ensures WellFormed(ExpectedBindings(f))
  {
    KeysDistinct();
    ExpectedSpec(f, WhereKeys);
  }

  lemma WellFormedSnoc(bs: seq<Binding>, b: Binding)
    requires WellFormed(bs) && b.cond.arity == |b.values|
    ensures WellFormed(bs + [b])
  {
    assert forall i :: 0 <= i < |bs| ==> (bs + [b])[i] == bs[i];
  }

  lemma GuardRender(cs: seq<Cond>, guard: Cond)
    ensures RenderWhere(cs) + GuardTokens(RenderWhere(cs), guard) == RenderWhere(cs + [guard])
  {
    if cs == [] {
      assert RenderWhere(cs + [guard]) == [WhereKw, Frag(guard)];
    } else {
      RenderWhereSnoc(cs, guard);
    }
  }

  /** An appended guard adds a condition but no parameter. */
  lemma GuardAppended(bs: seq<Binding>, guard: Cond)
    ensures CondsOf(bs + [Binding(guard, [])]) == CondsOf(bs) + [guard]
    ensures Flatten(bs + [Binding(guard, [])]) == Flatten(bs)
  {
    var g := Binding(guard, []);
    CondsAppend(bs, [g]);
    assert CondsOf([g]) == [guard];
    assert (bs + [g])[..|bs|] == bs;
    assert Flatten(bs + [g]) == Flatten(bs) + [];
  }

  /** `buildMonthlyPriceQuery(filters)`: the filter conditions plus
      `price_aed > 0`, grouped by month. */
  function BuildMonthlyPriceQuery(f: FilterRecord): (q: Query)
    ensures q.params == BuildWhereClause(f).params
    ensures q.sql == [Head(MonthlyPrice)] + RenderWhere(CondsOf(ExpectedBindings(f) + [Binding(PriceGuard, [])])) + [Tail(ByMonth)]
    ensures Placeholders(q.sql) == |q.params|
    ensures Bind(q.sql, q.params) == Some(ExpectedBindings(f) + [Binding(PriceGuard, [])])
  {
    var w := BuildWhereClause(f);
    GuardedClause(f, PriceGuard);
    Framed(Head(MonthlyPrice), w.where + GuardTokens(w.where, PriceGuard), Tail(ByMonth), w.params);
    Query([Head(MonthlyPrice)] + (w.where + GuardTokens(w.where, PriceGuard)) + [Tail(ByMonth)], w.params)
  }

  /** `buildPricePerSqmQuery(filters)`: the filter conditions plus
      `rate_per_sqm > 0`, grouped by month. */
  function BuildPricePerSqmQuery(f: FilterRecord): (q: Query)
    ensures q.params == BuildWhereClause(f).params
    ensures q.sql == [Head(PricePerSqm)] + RenderWhere(CondsOf(ExpectedBindings(f) + [Binding(RateGuard, [])])) + [Tail(ByMonth)]
    ensures Placeholders(q.sql) == |q.params|
    ensures Bind(q.sql, q.params) == Some(ExpectedBindings(f) + [Binding(RateGuard, [])])
  {
    var w := BuildWhereClause(f);
    GuardedClause(f, RateGuard);
    Framed(Head(PricePerSqm), w.where + GuardTokens(w.where, RateGuard), Tail(ByMonth), w.params);
    Query([Head(PricePerSqm)] + (w.where + GuardTokens(w.where, RateGuard)) + [Tail(ByMonth)], w.params)
  }

  /** `buildVolumeQuery(filters)`: the filter conditions alone, with no
      positive-value guard. */
  function BuildVolumeQuery(f: FilterRecord): (q: Query)
    ensures q.params == BuildWhereClause(f).params
    ensures q.sql == [Head(Volume)] + RenderWhere(CondsOf(ExpectedBindings(f))) + [Tail(ByMonth)]
    ensures Placeholders(q.sql) == |q.params|
    ensures Bind(q.sql, q.params) == Some(ExpectedBindings(f))
  {
    var w := BuildWhereClause(f);
    WhereShape(f);
    Framed(Head(Volume), w.where, Tail(ByMonth), w.params);
    Query([Head(Volume)] + w.where + [Tail(ByMonth)], w.params)
  }

  // ---------------------------------------------------------------------
  // buildProjectComparisonQuery

  const ComparisonKeys: seq<Key> := [DateFrom, DateTo, Projects]

  /** The only fields the comparison builder reads. */
  function ComparisonFilters(projectNames: seq<string>, dateFrom: string, dateTo: string): FilterRecord {
    EmptyFilters.(projects := projectNames, dateFrom := dateFrom, dateTo := dateTo)
  }

  /** The comparison clause: the two date bounds, the project list, and the
      positive-price guard. */
  function ComparisonBindings(projectNames: seq<string>, dateFrom: string, dateTo: string): seq<Binding> {
    Expected(ComparisonFilters(projectNames, dateFrom, dateTo), ComparisonKeys) + [Binding(PriceGuard, [])]
  }

  function DateParams(dateFrom: string, dateTo: string): seq<Param> {
    (if dateFrom != "" then [PStr(dateFrom)] else []) + (if dateTo != "" then [PStr(dateTo)] else [])
  }

  /** `buildProjectComparisonQuery({ projectNames, dateFrom, dateTo })`:
      `''` for no projects; otherwise one `?` per project after the date
      bounds, with every other filter ignored. */
  function BuildProjectComparisonQuery(projectNames: seq<string>, dateFrom: string, dateTo: string): (q: Query)
    ensures |projectNames| == 0 ==> q == Query([], [])
    ensures |projectNames| > 0 ==> q.params == DateParams(dateFrom, dateTo) + Strs(projectNames)
    ensures |projectNames| > 0 ==> Placeholders(q.sql) == |q.params|
    ensures |projectNames| > 0 ==> Bind(q.sql, q.params) == Some(ComparisonBindings(projectNames, dateFrom, dateTo))
  {
    if |projectNames| == 0 then Query([], [])
    else
      var cf := ComparisonFilters(projectNames, dateFrom, dateTo);
      var bs := Step(Run(cf, ComparisonKeys), true, PricePositive, []);
      ComparisonFacts(projectNames, dateFrom, dateTo);
      Query([Head(ProjectComparison)] + RenderWhere(CondsOf(bs)) + [Tail(ByMonthAndProject)], Flatten(bs))
  }

  lemma AllValues3(f: FilterRecord, a: Key, b: Key, c: Key)
    ensures AllValues(f, [a, b, c]) == ValuesFor(f, a) + ValuesFor(f, b) + ValuesFor(f, c)
  {
    var ks := [a, b, c];
    assert ks[..2] == [a, b] && [a, b][..1] == [a] && [a][..0] == [];
    assert AllValues(f, [a]) == [] + ValuesFor(f, a) == ValuesFor(f, a);
    assert AllValues(f, [a, b]) == ValuesFor(f, a) + ValuesFor(f, b);
  }

  lemma KeysDistinct()
    ensures NoDups(WhereKeys) && NoDups(ComparisonKeys)
  {
  }

  lemma ComparisonParams(projectNames: seq<string>, dateFrom: string, dateTo: string)
    ensures var bs := Step(Run(ComparisonFilters(projectNames, dateFrom, dateTo), ComparisonKeys), true, PricePositive, []);
      && bs == ComparisonBindings(projectNames, dateFrom, dateTo)
      && WellFormed(bs)
      && Flatten(bs) == DateParams(dateFrom, dateTo) + Strs(projectNames)
  {
    var f := ComparisonFilters(projectNames, dateFrom, dateTo);
    var ks := ComparisonKeys;
    RunSpec(f, ks);
    var b3 := Run(f, ks);
    GuardAppended(b3, PriceGuard);
    ComparisonValues(f, projectNames, dateFrom, dateTo);
    ComparisonWellFormed(f);
  }

  lemma ComparisonValues(f: FilterRecord, projectNames: seq<string>, dateFrom: string, dateTo: string)
    requires f == ComparisonFilters(projectNames, dateFrom, dateTo)
    ensures Flatten(Expected(f, ComparisonKeys)) == DateParams(dateFrom, dateTo) + Strs(projectNames)
  {
    FlattenExpected(f, ComparisonKeys);
    AllValues3(f, DateFrom, DateTo, Projects);
    assert ValuesFor(f, DateFrom) + ValuesFor(f, DateTo) == DateParams(dateFrom, dateTo);
  }

  lemma ComparisonWellFormed(f: FilterRecord)
    ensures WellFormed(Expected(f, ComparisonKeys) + [Binding(PriceGuard, [])])
  {
    KeysDistinct();
    ExpectedSpec(f, ComparisonKeys);
  }

  lemma ComparisonFacts(projectNames: seq<string>, dateFrom: string, dateTo: string)
    requires |projectNames| > 0
    ensures var bs := Step(Run(ComparisonFilters(projectNames, dateFrom, dateTo), ComparisonKeys), true, PricePositive, []);
      && bs == ComparisonBindings(projectNames, dateFrom, dateTo)
      && Flatten(bs) == DateParams(dateFrom, dateTo) + Strs(projectNames)
      && var sql := [Head(ProjectComparison)] + RenderWhere(CondsOf(bs)) + [Tail(ByMonthAndProject)];
         Placeholders(sql) == |Flatten(bs)| && Bind(sql, Flatten(bs)) == Some(bs)
  {
    var bs := Step(Run(ComparisonFilters(projectNames, dateFrom, dateTo), ComparisonKeys), true, PricePositive, []);
    ComparisonParams(projectNames, dateFrom, dateTo);
    BindRender(bs);
    Framed(Head(ProjectComparison), RenderWhere(CondsOf(bs)), Tail(ByMonthAndProject), Flatten(bs));
  }
}
