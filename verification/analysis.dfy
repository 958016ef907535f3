/** `src/hooks/useAnalysis.js`: one `analyze(prompt)` run, from the intent
    request through the local query to the streamed explanation.

    The outside world is an `Env`. It holds the outcome of the intent
    request, the rows the database returns, the explanation stream as a
    function of what is sent, the new post's id and time, and whether the
    storage write succeeds. A run is the list of hook states a user sees,
    one per update. */
module Analysis {
  import opened Base
  import opened Text
  import opened Queries
  import opened IntentDispatch
  import opened ChartPivot
  import opened SummaryStats
  import opened PostStore

  datatype Status = Idle | Analyzing | Querying | Explaining | Done | Error

  /** `{ status, error, pendingPost }` and the hook's own post store. */
  datatype State = State(status: Status, error: Option<string>, pendingPost: Option<Post>, store: Store)

  /** A thrown value; `message` is `None` for one without a message. */
  datatype Failure = Failure(message: Option<string>)

  /** The answer to `POST /api/analyze`: an intent; a non-OK response
      whose body is unparsable (`None`) or parses to an `error` field
      that may be absent; or a request that threw. */
  datatype IntentOutcome =
    | IntentOk(intent: Intent)
    | IntentRejected(status: int, body: Option<Option<string>>)
    | IntentFailed(failure: Failure)

  datatype QueryOutcome = Rows(rows: seq<Row>) | QueryFailed(failure: Failure)

  /** The answer to `POST /api/explain`: a non-OK status, or the chunks read
      before the stream ended (`broken == None`) or a read threw. */
  datatype ExplainOutcome =
    | ExplainRejected(status: int)
    | Streamed(chunks: seq<string>, broken: Option<Failure>)

  datatype Env = Env(
    intent: IntentOutcome,
    query: QueryOutcome,
    explain: (string, Intent, Stats) -> ExplainOutcome,
    postId: string,
    now: int,
    quotaOk: bool,
    districtQuery: (seq<string>, string, string) -> Query,
    layoutQuery: (seq<string>, seq<string>, seq<string>, string, string) -> Query)

  /** `err.message ?? 'Something went wrong'`. */
  function Message(f: Failure): (m: string)
    ensures f.message.Some? ==> m == f.message.value
    ensures f.message.None? ==> m == "Something went wrong"
  {
    match f.message
    case Some(m) => m
    case None => "Something went wrong"
  }

  /** The error `fetchIntent` throws for a non-OK response: the body's
      `error`, else `HTTP <status>`; `Network error` when the body does
      not parse. */
  function IntentErrorMessage(status: int, body: Option<Option<string>>): (m: string)
    ensures body.None? ==> m == "Network error"
    ensures body.Some? && body.value.Some? ==> m == body.value.value
    ensures body == Some(None) ==> m == "HTTP " + IntToString(status)
  {
    match body
    case None => "Network error"
    case Some(Some(e)) => e
    case Some(None) => "HTTP " + IntToString(status)
  }

  const NoSqlMessage := "No SQL generated for this query type"

  /** `intent.title ?? prompt.slice(0, 60)`. */
  function Title(intent: Intent, prompt: string): (t: string)
    ensures intent.title.Some? ==> t == intent.title.value
    ensures intent.title.None? ==> t <= prompt && |t| == if |prompt| <= 60 then |prompt| else 60
  {
    match intent.title
    case Some(t) => t
    case None => Take(prompt, 60)
  }

  /** `full += chunk` over the chunks in order. */
  function Concat(chunks: seq<string>): string {
    if |chunks| == 0 then "" else Concat(chunks[..|chunks| - 1]) + chunks[|chunks| - 1]
  }

  /** Text accumulated so far is a prefix of the final text. */
  lemma {:induction false} ConcatPrefix(chunks: seq<string>, k: nat)
    requires k <= |chunks|
    ensures Concat(chunks[..k]) <= Concat(chunks)
  {
    if k < |chunks| {
      var n := |chunks| - 1;
      assert chunks[..n][..k] == chunks[..k];
      ConcatPrefix(chunks[..n], k);
    } else {
      assert chunks[..k] == chunks;
    }
  }

  /** The state after a failure: `error` set, nothing pending, no post
      added. */
  function Failed(s: State, message: string): (t: State)
    ensures t.status == Error && t.error == Some(message) && t.pendingPost.None? && t.store == s.store
  {
    State(Error, Some(message), None, s.store)
  }

  /** One state per chunk: the pending post showing the text so far. */
  function StreamStates(shown: State, placeholder: Post, chunks: seq<string>): (ts: seq<State>)
    ensures |ts| == |chunks|
    ensures forall k :: 0 <= k < |ts| ==>
              ts[k] == shown.(pendingPost := Some(placeholder.(analysisText := Concat(chunks[..k + 1]))))
  {
    seq(|chunks|, k requires 0 <= k < |chunks| =>
      shown.(pendingPost := Some(placeholder.(analysisText := Concat(chunks[..k + 1])))))
  }

  /** The order statuses move through during a run. */
  function Rank(st: Status): nat {
    match st
    case Idle => 0
    case Analyzing => 1
    case Querying => 2
    case Explaining => 3
    case Done => 4
    case Error => 4
  }

  predicate Ends(st: Status) { st == Done || st == Error }

  /** The finished post: the placeholder with the whole text, no longer
      streaming. */
  function FinalPost(placeholder: Post, chunks: seq<string>): Post {
    placeholder.(analysisText := Concat(chunks), isStreaming := Some(false))
  }

  /** How a run may end: an error sets the message, clears the pending
      post and adds nothing; `done` clears both and adds one finished
      post, the one now in front of the feed, to the store. */
  ghost predicate EndsWell(s: State, last: State, quotaOk: bool) {
    && Ends(last.status)
    && (last.status == Error ==> last.error.Some? && last.pendingPost.None? && last.store == s.store)
    && (last.status == Done ==>
          && last.error.None? && last.pendingPost.None? && |last.store.posts| > 0
          && last.store == Add(s.store, last.store.posts[0], quotaOk)
          && last.store.posts[0].isStreaming == Some(false))
  }

  /** The statuses never move back. */
  ghost predicate Monotone(ts: seq<State>) {
    forall i, j :: 0 <= i < j < |ts| ==> Rank(ts[i].status) <= Rank(ts[j].status)
  }

  /** A run, state by state: each state that does not end the run keeps
      the store and comes no later than the next; the last state ends the
      run well. */
  ghost predicate Forward(s: State, quotaOk: bool, ts: seq<State>)
    decreases |ts|
  {
    && |ts| >= 1
    && if |ts| == 1 then EndsWell(s, ts[0], quotaOk)
       else
         && !Ends(ts[0].status) && ts[0].store == s.store
         && Rank(ts[0].status) <= Rank(ts[1].status)
         && Forward(s, quotaOk, ts[1..])
  }

  /** The whole-run reading of `Forward`: the statuses never move back,
      only the last state ends the run, the store changes only there. */
  ghost predicate RunShape(s: State, quotaOk: bool, ts: seq<State>) {
    && |ts| >= 1
    && Monotone(ts)
    && (forall i :: 0 <= i < |ts| - 1 ==> !Ends(ts[i].status) && ts[i].store == s.store)
    && EndsWell(s, ts[|ts| - 1], quotaOk)
  }

  /** The step-by-step and the whole-run readings agree. */
  lemma {:induction false} ForwardIsRunShape(s: State, quotaOk: bool, ts: seq<State>)
    ensures Forward(s, quotaOk, ts) <==> RunShape(s, quotaOk, ts)
    decreases |ts|
  {
    if |ts| > 1 {
      var tl := ts[1..];
      ForwardIsRunShape(s, quotaOk, tl);
      if RunShape(s, quotaOk, ts) {
        forall i, j | 0 <= i < j < |tl| ensures Rank(tl[i].status) <= Rank(tl[j].status) {
          assert tl[i] == ts[i + 1] && tl[j] == ts[j + 1];
        }
        forall i | 0 <= i < |tl| - 1 ensures !Ends(tl[i].status) && tl[i].store == s.store {
          assert tl[i] == ts[i + 1];
        }
        assert tl[|tl| - 1] == ts[|ts| - 1];
        assert RunShape(s, quotaOk, tl);
      }
      if Forward(s, quotaOk, ts) {
        assert RunShape(s, quotaOk, tl);
        forall i, j | 0 <= i < j < |ts| ensures Rank(ts[i].status) <= Rank(ts[j].status) {
          assert ts[j] == tl[j - 1];
          if i > 0 {
            assert ts[i] == tl[i - 1];
          } else if j > 1 {
            assert ts[1] == tl[0];
          }
        }
        forall i | 0 <= i < |ts| - 1 ensures !Ends(ts[i].status) && ts[i].store == s.store {
          if i > 0 { assert ts[i] == tl[i - 1]; }
        }
        assert ts[|ts| - 1] == tl[|tl| - 1];
      }
    }
  }

  /** A state that does not end the run and comes no later than the run's
      first may go in front. */
  lemma Prepend(s: State, x: State, quotaOk: bool, ts: seq<State>)
    requires Forward(s, quotaOk, ts)
    requires !Ends(x.status) && x.store == s.store && Rank(x.status) <= Rank(ts[0].status)
    ensures Forward(s, quotaOk, [x] + ts)
  {
    assert ([x] + ts)[1..] == ts;
  }

  /** A failure on its own is a run. */
  lemma FailedForward(s: State, x: State, message: string, quotaOk: bool)
    requires x.store == s.store
    ensures Forward(s, quotaOk, [Failed(x, message)])
  {
  }

  /** The streaming stage: the explanation is requested, the chunks are
      shown as they come, and the run ends. */
  function ExplainStage(s: State, shown: State, placeholder: Post, outcome: ExplainOutcome, quotaOk: bool): (ts: seq<State>)
    requires shown.status == Explaining && shown.store == s.store
    ensures Forward(s, quotaOk, ts) && Rank(ts[0].status) >= 3
  {
    match outcome
    case ExplainRejected(code) =>
      FailedForward(s, shown, "Explain API error: " + IntToString(code), quotaOk);
      [Failed(shown, "Explain API error: " + IntToString(code))]
    case Streamed(chunks, broken) =>
      var streaming := StreamStates(shown, placeholder, chunks);
      var last := match broken
        case Some(f) => Failed(shown, Message(f))
        case None => Finished(s, placeholder, chunks, quotaOk);
      StreamForward(s, streaming, last, quotaOk);
      streaming + [last]
  }

  /** The state a stream that ends cleanly leaves: `done`, with the
      finished post in front of the feed. */
  function Finished(s: State, placeholder: Post, chunks: seq<string>, quotaOk: bool): (t: State)
    ensures t.status == Done && t.error.None? && t.pendingPost.None?
    ensures t.store == Add(s.store, FinalPost(placeholder, chunks), quotaOk)
  {
    State(Done, None, None, Add(s.store, FinalPost(placeholder, chunks), quotaOk))
  }

  lemma StreamForward(s: State, streaming: seq<State>, last: State, quotaOk: bool)
    requires forall i :: 0 <= i < |streaming| ==> streaming[i].status == Explaining && streaming[i].store == s.store
    requires EndsWell(s, last, quotaOk)
    ensures Forward(s, quotaOk, streaming + [last]) && Rank((streaming + [last])[0].status) >= 3
  {
    assert Forward(s, quotaOk, [last]);
    PrependExplaining(s, streaming, [last], quotaOk);
  }

  /** Explaining states that keep the store may go in front of a run from
      `explaining` on. */
  lemma {:induction false} PrependExplaining(s: State, streaming: seq<State>, rest: seq<State>, quotaOk: bool)
    requires forall i :: 0 <= i < |streaming| ==> streaming[i].status == Explaining && streaming[i].store == s.store
    requires Forward(s, quotaOk, rest) && Rank(rest[0].status) >= 3
    ensures Forward(s, quotaOk, streaming + rest) && Rank((streaming + rest)[0].status) >= 3
    decreases |streaming|
  {
    if |streaming| == 0 {
      assert streaming + rest == rest;
    } else {
      var tl := streaming[1..];
      PrependExplaining(s, tl, rest, quotaOk);
      Prepend(s, streaming[0], quotaOk, tl + rest);
      ConsAppend(streaming, rest);
    }
  }

  lemma ConsAppend<T>(xs: seq<T>, ys: seq<T>)
    requires |xs| > 0
    ensures [xs[0]] + (xs[1..] + ys) == xs + ys
  {
    assert xs == [xs[0]] + xs[1..];
  }

  /** The pure steps a run calls: `intentToQuery`, `pivotChartData` and
      `computeSummaryStats`. A run is defined for any steps; `analyze`
      runs with the ones modelled in their own modules. */
  datatype Steps = Steps(
    toQuery: Intent -> Query,
    chart: (seq<Row>, string) -> Chart,
    stats: (seq<Row>, string) -> Stats)

  /** The steps `useAnalysis.js` imports, with the two comparison builders
      taken from the environment. */
  function Modelled(env: Env): Steps {
    Steps(i => IntentToQuery(i, env.districtQuery, env.layoutQuery), PivotChartData, ComputeSummaryStats)
  }

  /** From the intent on: build the query, run it, pivot and summarise the
      rows, and stream the explanation. */
  function QueryStage(s: State, prompt: string, intent: Intent, env: Env, p: Steps): seq<State> {
    [State(Querying, None, None, s.store)] + AfterQuery(s, State(Querying, None, None, s.store), prompt, intent, env, p)
  }

  /** What follows the query state: a failure, or the rows stage. */
  function AfterQuery(s: State, querying: State, prompt: string, intent: Intent, env: Env, p: Steps): seq<State> {
    if p.toQuery(intent).sql == [] then [Failed(querying, NoSqlMessage)]
    else
      match env.query
      case QueryFailed(f) => [Failed(querying, Message(f))]
      case Rows(rows) => RowsStage(s, prompt, intent, rows, env, p)
  }

  /** With the rows in hand: the placeholder post appears, then the
      explanation streams in. */
  function RowsStage(s: State, prompt: string, intent: Intent, rows: seq<Row>, env: Env, p: Steps): seq<State> {
    var placeholder := Placeholder(prompt, intent, p.chart(rows, intent.queryType), env);
    var shown := State(Explaining, None, Some(placeholder), s.store);
    [shown] + ExplainStage(s, shown, placeholder, env.explain(prompt, intent, p.stats(rows, intent.queryType)), env.quotaOk)
  }

  /** The rows stage is a run that starts by showing the placeholder. */
  lemma RowsStageForward(s: State, prompt: string, intent: Intent, rows: seq<Row>, env: Env, p: Steps)
    ensures var ts := RowsStage(s, prompt, intent, rows, env, p);
      Forward(s, env.quotaOk, ts) && ts[0].status == Explaining
  {
    var placeholder := Placeholder(prompt, intent, p.chart(rows, intent.queryType), env);
    var shown := State(Explaining, None, Some(placeholder), s.store);
    var rest := ExplainStage(s, shown, placeholder, env.explain(prompt, intent, p.stats(rows, intent.queryType)), env.quotaOk);
    Prepend(s, shown, env.quotaOk, rest);
  }

  /** What follows the query state is a run from `explaining` on, or a
      failure. */
  lemma AfterQueryForward(s: State, querying: State, prompt: string, intent: Intent, env: Env, p: Steps)
    requires querying.store == s.store
    ensures var ts := AfterQuery(s, querying, prompt, intent, env, p);
      Forward(s, env.quotaOk, ts) && Rank(ts[0].status) >= 2
  {
    if p.toQuery(intent).sql == [] {
      FailedForward(s, querying, NoSqlMessage, env.quotaOk);
    } else {
      match env.query
      case QueryFailed(f) => FailedForward(s, querying, Message(f), env.quotaOk);
      case Rows(rows) => RowsStageForward(s, prompt, intent, rows, env, p);
    }
  }

  /** The query stage is a run that starts in `querying`. */
  lemma QueryStageForward(s: State, prompt: string, intent: Intent, env: Env, p: Steps)
    ensures var ts := QueryStage(s, prompt, intent, env, p);
      Forward(s, env.quotaOk, ts) && ts[0].status == Querying
  {
    var querying := State(Querying, None, None, s.store);
    AfterQueryForward(s, querying, prompt, intent, env, p);
    Prepend(s, querying, env.quotaOk, AfterQuery(s, querying, prompt, intent, env, p));
  }

  /** The post shown while the text streams in. */
  function Placeholder(prompt: string, intent: Intent, chart: Chart, env: Env): (p: Post)
    ensures p.id == env.postId && p.createdAt == env.now && p.prompt == prompt && p.intent == intent
    ensures p.title == Title(intent, prompt) && p.analysisText == "" && p.isStreaming == Some(true)
    ensures p.chart == chart
  {
    Post(env.postId, env.now, prompt, Title(intent, prompt), "", intent, chart, Some(true))
  }

  /** `analyze(prompt)` with the given steps: nothing without metadata;
      otherwise a run that starts analysing with the error and pending
      post cleared, moves forward through the statuses and ends in `done`
      or `error`. */
  function Run(s: State, prompt: string, hasMeta: bool, env: Env, p: Steps): (trace: seq<State>)
    ensures !hasMeta ==> trace == []
    ensures hasMeta ==> |trace| >= 2 && trace[0] == State(Analyzing, None, None, s.store)
    ensures hasMeta ==> Forward(s, env.quotaOk, trace)
  {
    if !hasMeta then []
    else
      var start := State(Analyzing, None, None, s.store);
      var rest := AfterStart(s, start, prompt, env, p);
      AfterStartForward(s, start, prompt, env, p);
      Prepend(s, start, env.quotaOk, rest);
      [start] + rest
  }

  /** `analyze(prompt)`. */
  function Analyze(s: State, prompt: string, hasMeta: bool, env: Env): (trace: seq<State>)
    ensures !hasMeta ==> trace == []
    ensures hasMeta ==> |trace| >= 2 && trace[0] == State(Analyzing, None, None, s.store)
    ensures hasMeta ==> Forward(s, env.quotaOk, trace)
  {
    Run(s, prompt, hasMeta, env, Modelled(env))
  }

  /** What follows the first state: a failed intent request, or the query
      stage. */
  function AfterStart(s: State, start: State, prompt: string, env: Env, p: Steps): seq<State> {
    match env.intent
    case IntentRejected(code, body) => [Failed(start, IntentErrorMessage(code, body))]
    case IntentFailed(f) => [Failed(start, Message(f))]
    case IntentOk(intent) => QueryStage(s, prompt, intent, env, p)
  }

  /** What follows the first state is a run from `querying` on, or a
      failure. */
  lemma AfterStartForward(s: State, start: State, prompt: string, env: Env, p: Steps)
    requires start.store == s.store
    ensures var ts := AfterStart(s, start, prompt, env, p);
      Forward(s, env.quotaOk, ts) && Rank(ts[0].status) >= 1
  {
    match env.intent
    case IntentRejected(code, body) => FailedForward(s, start, IntentErrorMessage(code, body), env.quotaOk);
    case IntentFailed(f) => FailedForward(s, start, Message(f), env.quotaOk);
    case IntentOk(intent) => QueryStageForward(s, prompt, intent, env, p);
  }

  /** A successful run: the statuses read analysing, querying, explaining
      for the placeholder and every chunk, then done. The post added is
      the placeholder with the concatenated chunks, no longer streaming,
      put in front of the feed; each text shown while streaming is a
      prefix of it. */
  ghost predicate Succeeded(trace: seq<State>, prompt: string, intent: Intent, chunks: seq<string>, env: Env, chart: Chart) {
    && |trace| == |chunks| + 4
    && trace[0].status == Analyzing && trace[1].status == Querying
    && (forall i :: 2 <= i < |trace| - 1 ==> trace[i].status == Explaining && trace[i].pendingPost.Some?)
    && var last := trace[|trace| - 1];
       && last.status == Done
       && |last.store.posts| > 0
       && var post := last.store.posts[0];
          && post.analysisText == Concat(chunks)
          && post.isStreaming == Some(false)
          && post.title == Title(intent, prompt)
          && post.id == env.postId && post.prompt == prompt && post.intent == intent
          && post.chart == chart
          && forall i :: 0 <= i < |trace| && trace[i].pendingPost.Some? ==>
               trace[i].pendingPost.value.analysisText <= post.analysisText
  }

  /** With an intent, SQL, rows and a clean stream, any run succeeds. */
  lemma RunSucceeds(s: State, prompt: string, intent: Intent, rows: seq<Row>, chunks: seq<string>, env: Env, p: Steps)
    requires env.intent == IntentOk(intent) && env.query == Rows(rows)
    requires p.toQuery(intent).sql != []
    requires env.explain(prompt, intent, p.stats(rows, intent.queryType)) == Streamed(chunks, None)
    ensures Succeeded(Run(s, prompt, true, env, p), prompt, intent, chunks, env, p.chart(rows, intent.queryType))
  {
    var placeholder := Placeholder(prompt, intent, p.chart(rows, intent.queryType), env);
    var shown := State(Explaining, None, Some(placeholder), s.store);
    var streaming := StreamStates(shown, placeholder, chunks);
    var last := Finished(s, placeholder, chunks, env.quotaOk);
    var trace := Run(s, prompt, true, env, p);
    assert trace == [State(Analyzing, None, None, s.store)] + QueryStage(s, prompt, intent, env, p);
    assert QueryStage(s, prompt, intent, env, p) == [State(Querying, None, None, s.store)] + RowsStage(s, prompt, intent, rows, env, p);
    assert RowsStage(s, prompt, intent, rows, env, p) == [shown] + (streaming + [last]);
    TwoInFront(State(Analyzing, None, None, s.store), State(Querying, None, None, s.store), RowsStage(s, prompt, intent, rows, env, p));
    assert SuccessTrace(s, placeholder, streaming, last, trace);
    StreamPrefixes(shown, placeholder, chunks);
    SuccessStatuses(s, placeholder, streaming, last, trace);
    SuccessTexts(s, placeholder, streaming, last, trace, Concat(chunks));
    assert last.store.posts[0] == FinalPost(placeholder, chunks);
  }

  /** `analyze(prompt)` succeeds on an intent with SQL, rows and a clean
      stream, and the post it adds carries the pivoted chart. */
  lemma SuccessfulRun(s: State, prompt: string, intent: Intent, rows: seq<Row>, chunks: seq<string>, env: Env)
    requires env.intent == IntentOk(intent) && env.query == Rows(rows)
    requires IntentToQuery(intent, env.districtQuery, env.layoutQuery).sql != []
    requires env.explain(prompt, intent, ComputeSummaryStats(rows, intent.queryType)) == Streamed(chunks, None)
    ensures Succeeded(Analyze(s, prompt, true, env), prompt, intent, chunks, env, PivotChartData(rows, intent.queryType))
  {
    RunSucceeds(s, prompt, intent, rows, chunks, env, Modelled(env));
  }

  lemma TwoInFront<T>(a: T, b: T, r: seq<T>)
    ensures [a] + ([b] + r) == [a, b] + r
  {
    assert [a] + [b] == [a, b];
  }

  /** The shape of a successful run: analysing, querying, the placeholder,
      one state per chunk, then the finished state. */
  ghost predicate SuccessTrace(s: State, placeholder: Post, streaming: seq<State>, last: State, trace: seq<State>) {
    var shown := State(Explaining, None, Some(placeholder), s.store);
    trace == [State(Analyzing, None, None, s.store), State(Querying, None, None, s.store)] + ([shown] + (streaming + [last]))
  }

  /** The statuses of a successful run, over its shape alone. */
  lemma SuccessStatuses(s: State, placeholder: Post, streaming: seq<State>, last: State, trace: seq<State>)
    requires forall k :: 0 <= k < |streaming| ==> streaming[k].status == Explaining && streaming[k].pendingPost.Some?
    requires SuccessTrace(s, placeholder, streaming, last, trace)
    ensures |trace| == |streaming| + 4 && trace[|trace| - 1] == last
    ensures trace[0].status == Analyzing && trace[1].status == Querying
    ensures forall i :: 2 <= i < |trace| - 1 ==> trace[i].status == Explaining && trace[i].pendingPost.Some?
  {
    forall i | 2 <= i < |trace| - 1 ensures trace[i].status == Explaining && trace[i].pendingPost.Some? {
      if i > 2 { assert trace[i] == streaming[i - 3]; }
    }
  }

  /** The texts shown in a successful run, over its shape alone. */
  lemma SuccessTexts(s: State, placeholder: Post, streaming: seq<State>, last: State, trace: seq<State>, text: string)
    requires placeholder.analysisText == "" && last.pendingPost.None?
    requires forall k :: 0 <= k < |streaming| ==>
      (streaming[k].pendingPost.Some? ==> streaming[k].pendingPost.value.analysisText <= text)
    requires SuccessTrace(s, placeholder, streaming, last, trace)
    ensures forall i :: 0 <= i < |trace| && trace[i].pendingPost.Some? ==>
              trace[i].pendingPost.value.analysisText <= text
  {
    forall i | 0 <= i < |trace| && trace[i].pendingPost.Some?
      ensures trace[i].pendingPost.value.analysisText <= text
    {
      if 3 <= i < |trace| - 1 { assert trace[i] == streaming[i - 3]; }
    }
  }

  /** Each text shown while streaming is a prefix of the whole text. */
  lemma StreamPrefixes(shown: State, placeholder: Post, chunks: seq<string>)
    requires shown.status == Explaining
    ensures var ts := StreamStates(shown, placeholder, chunks);
      forall k :: 0 <= k < |ts| ==>
        (ts[k].status == Explaining && ts[k].pendingPost.Some? && ts[k].pendingPost.value.analysisText <= Concat(chunks))
  {
    var ts := StreamStates(shown, placeholder, chunks);
    forall k | 0 <= k < |ts| ensures ts[k].pendingPost.Some? && ts[k].pendingPost.value.analysisText <= Concat(chunks) {
      ConcatPrefix(chunks, k + 1);
    }
  }

  /** Whatever fails, the run ends in `error` with the message and no post
      is added. A query type with no SQL fails with its own message. */
  lemma NoSqlFails(s: State, prompt: string, env: Env)
    requires env.intent.IntentOk?
    requires IntentToQuery(env.intent.intent, env.districtQuery, env.layoutQuery).sql == []
    ensures var trace := Analyze(s, prompt, true, env);
      trace == [State(Analyzing, None, None, s.store), State(Querying, None, None, s.store),
                State(Error, Some(NoSqlMessage), None, s.store)]
  {
    var p := Modelled(env);
    assert p.toQuery(env.intent.intent).sql == [];
  }

  /** A rejected intent request ends the run with its message. */
  lemma IntentRejectedFails(s: State, prompt: string, env: Env)
    requires env.intent.IntentRejected?
    ensures Analyze(s, prompt, true, env) ==
      [State(Analyzing, None, None, s.store), State(Error, Some(IntentErrorMessage(env.intent.status, env.intent.body)), None, s.store)]
  {
  }

  /** `reset()`. */
  function Reset(s: State): (t: State)
    ensures t.status == Idle && t.error.None? && t.pendingPost.None? && t.store == s.store
  {
    State(Idle, None, None, s.store)
  }
}
