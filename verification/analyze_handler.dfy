/** `api/analyze.js`: the edge handler that turns a question and the
    dataset's metadata into a query intent.

    The language model is an oracle from what is asked to what it answers
    (or the error it throws), the clock is the `today` parameter, and
    `JSON.parse` is the `isJson` oracle: only whether it throws matters. */
module AnalyzeHandler {
  import opened Base
  import opened Text
  import opened JsValues

  /** A request: its method (`verb`) and its body, `None` when the body does not
      parse as JSON. */
  datatype Request = Request(verb: string, body: Option<Json>)

  /** What the handler puts in the user message: the question, at most
      `MaxProjects` projects, the districts and layouts, the data's date
      bounds and today's date. */
  datatype Ask = Ask(prompt: Json, projects: seq<Json>, districts: seq<Json>, layouts: seq<Json>,
                     minDate: Json, maxDate: Json, today: string)

  /** The model's answer: the `text` of each content block (`None` for a
      block without one), or the thrown error's `message`. */
  datatype Reply = Replied(texts: seq<Option<string>>) | Failed(message: Option<string>)

  datatype Response =
    | ErrorResponse(status: int, error: string)
    /** Status 200 with the extracted intent text, unchanged. */
    | IntentResponse(text: string)
    /** A `TypeError` escapes the handler: destructuring a `null` body. */
    | Crashed

  const MaxProjects: nat := 60

  /** The text from the first `{` at `i` to the last `}` at `j`. */
  predicate IsSpan(text: string, i: nat, j: nat) {
    && i < j < |text|
    && text[i] == '{' && '{' !in text[..i]
    && text[j] == '}' && '}' !in text[j + 1..]
  }

  /** `text.match(/\{[\s\S]*\}/)`: the greedy match runs from the first
      `{` to the last `}`, and there is none unless some `}` follows the
      first `{`. */
  function Extract(text: string): (r: Option<string>)
    ensures r.None? <==> forall i, j :: 0 <= i < j < |text| ==> !(text[i] == '{' && text[j] == '}')
    ensures r.Some? ==> exists i: nat, j: nat :: IsSpan(text, i, j) && r.value == text[i..j + 1]
  {
    match IndexOf(text, '{')
    case None => None
    case Some(i) =>
      match LastIndexOf(text, '}')
      case None => None
      case Some(j) =>
        if i < j then
          assert IsSpan(text, i, j);
          Some(text[i..j + 1])
        else
          NoSpan(text, i, j);
          None
  }

  /** A `{` at `a` is not before the first one at `i`. */
  lemma BraceBefore(text: string, a: nat, i: nat)
    requires a < |text| && i <= |text| && text[a] == '{' && '{' !in text[..i]
    ensures i <= a
  {
    assert forall k :: 0 <= k < i ==> text[..i][k] == text[k];
  }

  /** A `}` at `b` is not after the last one at `j`. */
  lemma BraceAfter(text: string, b: nat, j: nat)
    requires b < |text| && j < |text| && text[b] == '}' && '}' !in text[j + 1..]
    ensures b <= j
  {
    assert forall k :: j + 1 <= k < |text| ==> text[j + 1..][k - j - 1] == text[k];
  }

  /** With the last `}` before the first `{`, no `}` follows a `{`. */
  lemma NoSpan(text: string, i: nat, j: nat)
    requires i < |text| && j < |text| && j <= i
    requires '{' !in text[..i] && '}' !in text[j + 1..]
    ensures forall a, b :: 0 <= a < b < |text| ==> !(text[a] == '{' && text[b] == '}')
  {
    forall a, b | 0 <= a < b < |text| && text[a] == '{'
      ensures text[b] != '}'
    {
      BraceBefore(text, a, i);
      if text[b] == '}' { BraceAfter(text, b, j); }
    }
  }

  /** An extracted intent starts with `{`, ends with `}`, and is the whole
      text when the text is itself one brace-delimited object. */
  lemma ExtractShape(text: string)
    requires Extract(text).Some?
    ensures var t := Extract(text).value; |t| >= 2 && t[0] == '{' && t[|t| - 1] == '}'
  {
  }

  /** A text that starts with `{`, ends with `}` and has no other outer
      brace comes back unchanged. */
  lemma ExtractWhole(text: string)
    requires |text| >= 2 && text[0] == '{' && text[|text| - 1] == '}'
    ensures Extract(text) == Some(text)
  {
    assert Extract(text).Some? by {
      var last := |text| - 1;
      assert 0 < last && text[0] == '{' && text[last] == '}';
    }
    var i: nat, j: nat :| IsSpan(text, i, j) && Extract(text).value == text[i..j + 1];
    assert i <= 0 by { BraceBefore(text, 0, i); }
    assert |text| - 1 <= j by { BraceAfter(text, |text| - 1, j); }
    assert text[0..|text|] == text;
  }

  /** `message.content[0]?.text ?? ''`. */
  function FirstText(texts: seq<Option<string>>): (t: string)
    ensures |texts| == 0 ==> t == ""
    ensures |texts| > 0 && texts[0].Some? ==> t == texts[0].value
    ensures |texts| > 0 && texts[0].None? ==> t == ""
  {
    if |texts| == 0 then "" else match texts[0] case Some(t) => t case None => ""
  }

  /** The list of an array value; every caller has checked `IsArray`. */
  function Items(v: Val): seq<Json> {
    if IsArray(v) then v.value.items else []
  }

  /** The ask built from a checked `meta`: the project list cut to its
      first `MaxProjects` entries, everything else as given. */
  function AskFor(prompt: Json, meta: Json, today: string): (a: Ask)
    requires IsArray(Field(meta, "projects")) && IsArray(Field(meta, "districts")) && IsArray(Field(meta, "layouts"))
    requires Truthy(Field(meta, "minDate")) && Truthy(Field(meta, "maxDate"))
    ensures a.projects <= Field(meta, "projects").value.items
    ensures |a.projects| == if |Field(meta, "projects").value.items| <= MaxProjects then |Field(meta, "projects").value.items| else MaxProjects
    ensures a.districts == Field(meta, "districts").value.items && a.layouts == Field(meta, "layouts").value.items
    ensures a.prompt == prompt && a.today == today
    ensures Some(a.minDate) == Field(meta, "minDate") && Some(a.maxDate) == Field(meta, "maxDate")
  {
    Ask(prompt, Take(Items(Field(meta, "projects")), MaxProjects), Items(Field(meta, "districts")),
        Items(Field(meta, "layouts")), Field(meta, "minDate").value, Field(meta, "maxDate").value, today)
  }

  /** `meta` carries the three lists and both date bounds. */
  predicate MetaOk(meta: Json) {
    && IsArray(Field(meta, "projects")) && IsArray(Field(meta, "districts")) && IsArray(Field(meta, "layouts"))
    && Truthy(Field(meta, "minDate")) && Truthy(Field(meta, "maxDate"))
  }

  /** The response to the model's answer. */
  function Answer(reply: Reply, isJson: string -> bool): (r: Response)
    ensures reply.Failed? ==> r == ErrorResponse(502, if reply.message.Some? then reply.message.value else "Claude API error")
    ensures reply.Replied? && Extract(FirstText(reply.texts)).None? ==> r == ErrorResponse(422, "Could not parse intent from Claude response")
    ensures reply.Replied? && Extract(FirstText(reply.texts)).Some? ==>
      var t := Extract(FirstText(reply.texts)).value;
      r == if isJson(t) then IntentResponse(t) else ErrorResponse(422, "Claude response was not valid JSON")
  {
    match reply
    case Failed(m) => ErrorResponse(502, if m.Some? then m.value else "Claude API error")
    case Replied(texts) =>
      match Extract(FirstText(texts))
      case None => ErrorResponse(422, "Could not parse intent from Claude response")
      case Some(t) => if isJson(t) then IntentResponse(t) else ErrorResponse(422, "Claude response was not valid JSON")
  }

  /** `handler(req)`. */
  function Handle(req: Request, today: string, model: Ask -> Reply, isJson: string -> bool): (r: Response)
    ensures req.verb != "POST" <==> r == ErrorResponse(405, "Method not allowed")
    ensures req.verb == "POST" && req.body.None? ==> r == ErrorResponse(400, "Invalid JSON body")
    ensures r.Crashed? <==> req.verb == "POST" && req.body == Some(JNull)
    ensures r.IntentResponse? ==>
      && req.verb == "POST" && req.body.Some?
      && var body := req.body.value;
         && Truthy(Field(body, "prompt")) && Truthy(Field(body, "meta")) && MetaOk(Field(body, "meta").value)
         && var reply := model(AskFor(Field(body, "prompt").value, Field(body, "meta").value, today));
            && reply.Replied?
            && Extract(FirstText(reply.texts)) == Some(r.text)
            && isJson(r.text)
  {
    if req.verb != "POST" then ErrorResponse(405, "Method not allowed")
    else
      match req.body
      case None => ErrorResponse(400, "Invalid JSON body")
      case Some(body) =>
        if body.JNull? then Crashed
        else
          var prompt := Field(body, "prompt");
          var meta := Field(body, "meta");
          if !Truthy(prompt) || !Truthy(meta) then ErrorResponse(400, "Missing prompt or meta")
          else if !MetaOk(meta.value) then
            ErrorResponse(400, "meta must include projects, districts, layouts, minDate, maxDate")
          else
            Answer(model(AskFor(prompt.value, meta.value, today)), isJson)
  }

  /** The model is consulted only for a well-formed POST, and then with no
      more than `MaxProjects` projects, the first ones in `meta`. */
  lemma AskedOnlyWhenValid(req: Request, today: string, model: Ask -> Reply, isJson: string -> bool)
    requires req.verb == "POST" && req.body.Some? && !req.body.value.JNull?
    ensures var body := req.body.value;
      var r := Handle(req, today, model, isJson);
      && (!Truthy(Field(body, "prompt")) || !Truthy(Field(body, "meta")) ==> r == ErrorResponse(400, "Missing prompt or meta"))
      && (Truthy(Field(body, "prompt")) && Truthy(Field(body, "meta")) && !MetaOk(Field(body, "meta").value) ==>
            r == ErrorResponse(400, "meta must include projects, districts, layouts, minDate, maxDate"))
      && (Truthy(Field(body, "prompt")) && Truthy(Field(body, "meta")) && MetaOk(Field(body, "meta").value) ==>
            var a := AskFor(Field(body, "prompt").value, Field(body, "meta").value, today);
            && |a.projects| <= MaxProjects
            && r == Answer(model(a), isJson))
  {
  }

  /** The statuses the handler can answer with. */
  lemma Statuses(req: Request, today: string, model: Ask -> Reply, isJson: string -> bool)
    ensures var r := Handle(req, today, model, isJson);
      r.ErrorResponse? ==> r.status in {400, 405, 422, 502}
  {
  }

  /** A reply that is one well-formed object goes back unchanged. */
  lemma WholeObjectPassesThrough(req: Request, today: string, model: Ask -> Reply, isJson: string -> bool, text: string)
    requires req.verb == "POST" && req.body.Some? && !req.body.value.JNull?
    requires var body := req.body.value;
      && Truthy(Field(body, "prompt")) && Truthy(Field(body, "meta")) && MetaOk(Field(body, "meta").value)
      && model(AskFor(Field(body, "prompt").value, Field(body, "meta").value, today)) == Replied([Some(text)])
    requires |text| >= 2 && text[0] == '{' && text[|text| - 1] == '}' && isJson(text)
    ensures Handle(req, today, model, isJson) == IntentResponse(text)
  {
    ExtractWhole(text);
  }
}
