/** `vite.config.js`: the development server reads `.env.local` and then
    `.env` into the process environment before the API handlers load, and
    routes `/api/<name>` requests to the handler of that name.

    File reads are the `files` parameter, `None` where `readFileSync`
    throws; the environment is a map from name to value. */
module DevServer {
  import opened Base
  import opened Text

  /** `val` starts and ends with the same quote character, `"` or `'`, and
      has at least two characters. */
  predicate Quoted(val: string) {
    |val| >= 2 && ((val[0] == '"' && val[|val| - 1] == '"') || (val[0] == '\'' && val[|val| - 1] == '\''))
  }

  /** One layer of matching quotes removed; anything else unchanged. */
  function StripQuotes(val: string): (r: string)
    ensures Quoted(val) ==> [val[0]] + r + [val[0]] == val
    ensures !Quoted(val) ==> r == val
  {
    if Quoted(val) then
      assert val == [val[0]] + val[1..|val| - 1] + [val[|val| - 1]];
      val[1..|val| - 1]
    else val
  }

  /** `KEY=value`, as a line assigns it. */
  datatype Assignment = Assignment(key: string, value: string)

  /** A comment line: `#` first after trimming. */
  predicate Skipped(t: string) {
    t == "" || t[0] == '#' || '=' !in t
  }

  /** The loop body of `loadEnvIntoProcess` for one line: blank lines,
      comments and lines without `=` assign nothing; otherwise the key is
      the trimmed text before the first `=` and the value the trimmed rest,
      with one layer of quotes removed. */
  function ParseLine(line: string): (r: Option<Assignment>)
    ensures r.None? <==> Skipped(Trim(line))
    ensures r.Some? ==> FirstEquals(Trim(line), r.value)
  {
    ParseTrimmed(Trim(line))
  }

  /** `a` is what the first `=` of `t` splits it into. */
  ghost predicate FirstEquals(t: string, a: Assignment) {
    exists i :: 0 <= i < |t| && t[i] == '=' && '=' !in t[..i] && a == SplitAt(t, i)
  }

  /** The trimmed text before position `i` as the key, and the trimmed,
      unquoted text after it as the value. */
  function SplitAt(t: string, i: nat): Assignment
    requires i < |t|
  {
    Assignment(Trim(t[..i]), StripQuotes(Trim(t[i + 1..])))
  }

  /** `ParseLine` after the line is trimmed. */
  function ParseTrimmed(t: string): (r: Option<Assignment>)
    ensures r.None? <==> Skipped(t)
    ensures r.Some? ==> FirstEquals(t, r.value)
  {
    if t == "" || t[0] == '#' then None
    else
      match IndexOf(t, '=')
      case None => None
      case Some(i) =>
        var a := SplitAt(t, i);
        assert FirstEquals(t, a) by { assert t[i] == '=' && '=' !in t[..i]; }
        Some(a)
  }

  /** The text has no whitespace at either end. */
  predicate Tight(s: string) {
    s != "" && !IsWs(s[0]) && !IsWs(s[|s| - 1])
  }

  /** A line written as `key=value`, with a key and value that need no
      trimming and a value that is not quoted, parses back to exactly that
      assignment; the value may itself contain `=`. */
  lemma ParseWritten(key: string, value: string)
    requires Tight(key) && key[0] != '#' && '=' !in key
    requires Tight(value) && !Quoted(value)
    ensures ParseLine(key + "=" + value) == Some(Assignment(key, value))
  {
    WrittenLine(key, value);
    ParseTrimmedAt(key + "=" + value, |key|, key, value);
  }

  /** The written line needs no trimming, its first `=` follows the key, and
      the two sides trim and unquote back to the key and the value. */
  lemma WrittenLine(key: string, value: string)
    requires Tight(key) && key[0] != '#' && '=' !in key
    requires Tight(value) && !Quoted(value)
    ensures var line := key + "=" + value;
      && Trim(line) == line && line != "" && line[0] != '#' && IndexOf(line, '=') == Some(|key|)
      && Trim(line[..|key|]) == key && StripQuotes(Trim(line[|key| + 1..])) == value
  {
    var line := key + "=" + value;
    WrittenLayout(key, value);
    TrimOfTrimmed(line);
    FirstAt(line, '=', |key|);
    TrimOfTrimmed(key);
    TrimOfTrimmed(value);
  }

  lemma ParseTrimmedAt(t: string, i: nat, key: string, value: string)
    requires t != "" && t[0] != '#' && IndexOf(t, '=') == Some(i)
    requires Trim(t[..i]) == key && StripQuotes(Trim(t[i + 1..])) == value
    ensures ParseTrimmed(t) == Some(Assignment(key, value))
  {
    assert SplitAt(t, i) == Assignment(key, value);
  }

  lemma WrittenLayout(key: string, value: string)
    requires key != [] && value != []
    ensures var line := key + "=" + value;
      && line[0] == key[0] && line[|line| - 1] == value[|value| - 1]
      && line[..|key|] == key && line[|key|] == '=' && line[|key| + 1..] == value
  {
  }

  /** The first occurrence of `c` is the one with none before it. */
  lemma FirstAt(s: string, c: char, k: nat)
    requires k < |s| && s[k] == c && c !in s[..k]
    ensures IndexOf(s, c) == Some(k)
  {
    assert forall j :: 0 <= j < k ==> s[j] != c by {
      assert forall j :: 0 <= j < k ==> s[j] == s[..k][j];
    }
  }

  /** The assignments of a file's lines, in order. */
  function Assignments(lines: seq<string>): (r: seq<Assignment>)
    ensures |r| <= |lines|
  {
    if |lines| == 0 then []
    else
      var rest := Assignments(lines[..|lines| - 1]);
      match ParseLine(lines[|lines| - 1])
      case None => rest
      case Some(a) => rest + [a]
  }

  /** `process.env[key] = val` for each assignment in turn. */
  function Apply(env: map<string, string>, as_: seq<Assignment>): map<string, string> {
    if |as_| == 0 then env
    else Apply(env, as_[..|as_| - 1])[as_[|as_| - 1].key := as_[|as_| - 1].value]
  }

  function KeyIs(k: string): Assignment -> bool {
    (a: Assignment) => a.key == k
  }

  function Lookup(env: map<string, string>, k: string): Option<string> {
    if k in env then Some(env[k]) else None
  }

  /** After a run of assignments a name holds the value of its last
      assignment, or what it held before when none assigns it. */
  lemma {:induction false} ApplyLast(env: map<string, string>, as_: seq<Assignment>, k: string)
    ensures Lookup(Apply(env, as_), k) ==
      match FindLastIndex(as_, KeyIs(k))
      case Some(i) => Some(as_[i].value)
      case None => Lookup(env, k)
  {
    if |as_| > 0 {
      var init := as_[..|as_| - 1];
      ApplyLast(env, init, k);
      if as_[|as_| - 1].key != k {
        match FindLastIndex(init, KeyIs(k))
        case Some(i) =>
          assert KeyIs(k)(as_[i]);
        case None =>
          forall j | 0 <= j < |as_| ensures !KeyIs(k)(as_[j]) {
            if j < |init| { assert as_[j] == init[j]; }
          }
      }
    }
  }

  /** Applying two runs in turn applies their concatenation. */
  lemma {:induction false} ApplyAppend(env: map<string, string>, a: seq<Assignment>, b: seq<Assignment>)
    ensures Apply(Apply(env, a), b) == Apply(env, a + b)
  {
    if |b| > 0 {
      var init := b[..|b| - 1];
      ApplyAppend(env, a, init);
      assert (a + b)[..|a + b| - 1] == a + init;
    } else {
      assert a + b == a;
    }
  }

  /** One file: its lines split on `\n`, a missing file skipped. */
  function LoadFile(env: map<string, string>, file: Option<string>): (r: map<string, string>)
    ensures file.None? ==> r == env
    ensures file.Some? ==> r == Apply(env, Assignments(Split(file.value, '\n')))
  {
    match file
    case None => env
    case Some(content) => Apply(env, Assignments(Split(content, '\n')))
  }

  /** `loadEnvIntoProcess()` over `['.env.local', '.env']`. */
  function LoadEnv(env: map<string, string>, envLocal: Option<string>, dotEnv: Option<string>): (r: map<string, string>)
  {
    LoadFile(LoadFile(env, envLocal), dotEnv)
  }

  /** The assignments a file makes; none for a missing file. */
  function FileAssignments(file: Option<string>): seq<Assignment> {
    match file
    case None => []
    case Some(content) => Assignments(Split(content, '\n'))
  }

  /** A name `.env` assigns takes `.env`'s last value for it, whatever
      `.env.local` says: `.env` is read second. A name only `.env.local`
      assigns keeps `.env.local`'s last value, and a name neither assigns
      keeps its earlier value. */
  lemma DotEnvWins(env: map<string, string>, envLocal: Option<string>, dotEnv: Option<string>, k: string)
    ensures var r := LoadEnv(env, envLocal, dotEnv);
      var a, b := FileAssignments(envLocal), FileAssignments(dotEnv);
      && (FindLastIndex(b, KeyIs(k)).Some? ==> Lookup(r, k) == Some(b[FindLastIndex(b, KeyIs(k)).value].value))
      && (FindLastIndex(b, KeyIs(k)).None? && FindLastIndex(a, KeyIs(k)).Some? ==>
            Lookup(r, k) == Some(a[FindLastIndex(a, KeyIs(k)).value].value))
      && (FindLastIndex(b, KeyIs(k)).None? && FindLastIndex(a, KeyIs(k)).None? ==> Lookup(r, k) == Lookup(env, k))
  {
    var a, b := FileAssignments(envLocal), FileAssignments(dotEnv);
    var mid := LoadFile(env, envLocal);
    assert mid == Apply(env, a);
    assert LoadEnv(env, envLocal, dotEnv) == Apply(mid, b);
    ApplyLast(mid, b, k);
    ApplyLast(env, a, k);
  }

  /** A name both files assign ends with `.env`'s value: with `K=local` in
      `.env.local` and `K=shared` in `.env`, `K` is `shared`, although the
      comment above the assignment says `.env.local` always wins. */
  lemma LocalOverridden(env: map<string, string>, key: string, local: string, shared: string)
    requires Tight(key) && key[0] != '#' && '=' !in key && '\n' !in key
    requires Tight(local) && !Quoted(local) && '\n' !in local
    requires Tight(shared) && !Quoted(shared) && '\n' !in shared
    ensures Lookup(LoadEnv(env, Some(key + "=" + local), Some(key + "=" + shared)), key) == Some(shared)
  {
    OneLine(key, local);
    OneLine(key, shared);
    assert FindLastIndex([Assignment(key, shared)], KeyIs(key)) == Some(0) by {
      assert KeyIs(key)(Assignment(key, shared));
    }
    DotEnvWins(env, Some(key + "=" + local), Some(key + "=" + shared), key);
  }

  /** A file of one `key=value` line makes exactly that assignment. */
  lemma OneLine(key: string, value: string)
    requires Tight(key) && key[0] != '#' && '=' !in key && '\n' !in key
    requires Tight(value) && !Quoted(value) && '\n' !in value
    ensures FileAssignments(Some(key + "=" + value)) == [Assignment(key, value)]
  {
    var line := key + "=" + value;
    assert '\n' !in line;
    assert Split(line, '\n') == [line];
    ParseWritten(key, value);
    assert Assignments([line]) == [] + [Assignment(key, value)];
  }

  /** The loader with the order its comment describes: `.env` first, then
      `.env.local`. */
  function LoadEnvLocalWins(env: map<string, string>, envLocal: Option<string>, dotEnv: Option<string>): map<string, string>
  {
    LoadFile(LoadFile(env, dotEnv), envLocal)
  }

  /** Under the corrected order a name `.env.local` assigns takes its last
      value there, whatever `.env` says; a name only `.env` assigns keeps
      `.env`'s last value, and a name neither assigns keeps its earlier
      value. */
  lemma LocalWins(env: map<string, string>, envLocal: Option<string>, dotEnv: Option<string>, k: string)
    ensures var r := LoadEnvLocalWins(env, envLocal, dotEnv);
      var a, b := FileAssignments(envLocal), FileAssignments(dotEnv);
      && (FindLastIndex(a, KeyIs(k)).Some? ==> Lookup(r, k) == Some(a[FindLastIndex(a, KeyIs(k)).value].value))
      && (FindLastIndex(a, KeyIs(k)).None? && FindLastIndex(b, KeyIs(k)).Some? ==>
            Lookup(r, k) == Some(b[FindLastIndex(b, KeyIs(k)).value].value))
      && (FindLastIndex(a, KeyIs(k)).None? && FindLastIndex(b, KeyIs(k)).None? ==> Lookup(r, k) == Lookup(env, k))
  {
    var a, b := FileAssignments(envLocal), FileAssignments(dotEnv);
    var mid := LoadFile(env, dotEnv);
    assert mid == Apply(env, b);
    assert LoadEnvLocalWins(env, envLocal, dotEnv) == Apply(mid, a);
    ApplyLast(mid, a, k);
    ApplyLast(env, b, k);
  }

  // ---------------------------------------------------------------------
  // API routes

  /** `pat` occurs in `s` at `j`. */
  predicate OccursAt(s: string, pat: string, j: nat) {
    j + |pat| <= |s| && s[j..j + |pat|] == pat
  }

  /** The first place `pat` occurs in `s`. */
  function FindSub(s: string, pat: string): (r: Option<nat>)
    ensures r.Some? ==> OccursAt(s, pat, r.value) && forall j: nat :: j < r.value ==> !OccursAt(s, pat, j)
    ensures r.None? ==> forall j: nat :: !OccursAt(s, pat, j)
  {
    if |s| < |pat| then None
    else if s[..|pat|] == pat then Some(0)
    else
      assert forall j: nat :: 1 <= j ==> OccursAt(s, pat, j) == OccursAt(s[1..], pat, j - 1) by {
        forall j: nat | 1 <= j ensures OccursAt(s, pat, j) == OccursAt(s[1..], pat, j - 1) {
          OccursShift(s, pat, j);
        }
      }
      match FindSub(s[1..], pat)
      case None => None
      case Some(k) => Some(k + 1)
  }

  /** Dropping the first character moves every occurrence one place left. */
  lemma OccursShift(s: string, pat: string, j: nat)
    requires 1 <= j && |s| > 0
    ensures OccursAt(s, pat, j) == OccursAt(s[1..], pat, j - 1)
  {
    if j + |pat| <= |s| {
      assert s[j..j + |pat|] == s[1..][j - 1..j - 1 + |pat|];
    }
  }

  /** `s.replace(pat, rep)` with a string pattern: only the first occurrence
      is replaced. */
  function ReplaceFirst(s: string, pat: string, rep: string): string {
    match FindSub(s, pat)
    case None => s
    case Some(i) => s[..i] + rep + s[i + |pat|..]
  }

  const ApiPrefix := "/api/"

  /** The middleware's decision for `req.url`: `None` passes the request on
      (no URL, or not under `/api/`); otherwise the route name, which is the
      path before any `?` with the leading `/api/` removed. */
  function Route(url: Option<string>): (r: Option<string>)
    ensures r.None? <==> url.None? || !(ApiPrefix <= url.value)
    ensures r.Some? ==> '?' !in r.value
    ensures r.Some? ==> ApiPrefix + r.value == url.value || ApiPrefix + r.value + "?" <= url.value
  {
    match url
    case None => None
    case Some(u) =>
      if !(ApiPrefix <= u) then None
      else
        var path := Split(u, '?')[0];
        SplitHead(u, '?');
        RoutePath(u, path);
        Some(ReplaceFirst(path, ApiPrefix, ""))
  }

  /** The path of an `/api/` URL still starts with `/api/`, so the
      replacement removes that prefix. */
  lemma RoutePath(u: string, path: string)
    requires ApiPrefix <= u
    requires path == (match IndexOf(u, '?') case None => u case Some(k) => u[..k])
    ensures ApiPrefix <= path && '?' !in path
    ensures ReplaceFirst(path, ApiPrefix, "") == path[|ApiPrefix|..]
    ensures path == u || path + "?" <= u
  {
    assert forall i :: 0 <= i < |ApiPrefix| ==> ApiPrefix[i] != '?';
    match IndexOf(u, '?')
    case None =>
    case Some(k) =>
      assert forall j :: 0 <= j < |ApiPrefix| ==> u[j] == ApiPrefix[j] != '?';
      assert u[k] == '?';
      assert path + "?" == u[..k + 1];
    assert path[..|ApiPrefix|] == ApiPrefix;
    assert FindSub(path, ApiPrefix) == Some(0);
  }
}
