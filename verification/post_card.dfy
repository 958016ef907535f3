/** `src/components/PostCard.jsx`: the relative age shown on a post, whether
    the post still shows its loading state, and its heading. The age is
    computed from `diff`, the milliseconds since the post was created; the
    calendar date shown for older posts is the `dateText` parameter. */
module PostCard {
  import opened Base
  import opened Text
  import opened PostStore

  const Minute: nat := 60000
  const Hour: nat := 3600000
  const Day: nat := 86400000

  /** The age buckets. */
  datatype Age = JustNow | MinutesAgo(minutes: nat) | HoursAgo(hours: nat) | OnDate

  /** `timeAgo`: under a minute (a negative difference included) is
      `just now`; then whole minutes below an hour; then whole hours below
      a day; then the date. */
  function TimeAgo(diff: int): (a: Age)
    ensures a == JustNow <==> diff < Minute
    ensures a.MinutesAgo? <==> Minute <= diff < Hour
    ensures a.MinutesAgo? ==> 1 <= a.minutes <= 59 && a.minutes * Minute <= diff < (a.minutes + 1) * Minute
    ensures a.HoursAgo? <==> Hour <= diff < Day
    ensures a.HoursAgo? ==> 1 <= a.hours <= 23 && a.hours * Hour <= diff < (a.hours + 1) * Hour
    ensures a == OnDate <==> Day <= diff
  {
    if diff < Minute then JustNow
    else if diff < Hour then MinutesAgo(diff / Minute)
    else if diff < Day then HoursAgo(diff / Hour)
    else OnDate
  }

  /** The text of an age: `` `${n}m ago` ``, `` `${n}h ago` ``, or the
      date. */
  function AgeText(a: Age, dateText: string): (t: string)
    ensures a.JustNow? ==> t == "just now"
    ensures a.MinutesAgo? ==> t == NatToString(a.minutes) + "m ago"
    ensures a.HoursAgo? ==> t == NatToString(a.hours) + "h ago"
    ensures a.OnDate? ==> t == dateText
  {
    match a
    case JustNow => "just now"
    case MinutesAgo(n) => NatToString(n) + "m ago"
    case HoursAgo(n) => NatToString(n) + "h ago"
    case OnDate => dateText
  }

  /** How coarse an age is, in milliseconds per step. */
  function Scale(a: Age): nat {
    match a
    case JustNow => 0
    case MinutesAgo(n) => n * Minute
    case HoursAgo(n) => n * Hour
    case OnDate => Day
  }

  /** An older post never shows a younger age: the buckets and the counts
      within them grow with the difference. */
  lemma TimeAgoMonotone(d1: int, d2: int)
    requires d1 <= d2
    ensures Scale(TimeAgo(d1)) <= Scale(TimeAgo(d2))
  {
    var a1, a2 := TimeAgo(d1), TimeAgo(d2);
    if a1.MinutesAgo? && a2.MinutesAgo? {
      FewerSteps(a1.minutes, a2.minutes + 1, Minute);
    } else if a1.HoursAgo? && a2.HoursAgo? {
      FewerSteps(a1.hours, a2.hours + 1, Hour);
    }
  }

  lemma FewerSteps(x: nat, y: nat, m: nat)
    requires m > 0 && x * m < y * m
    ensures x < y
  {
    assert (y - x) * m == y * m - x * m;
  }

  /** `isLoading`: no text yet and not marked finished; a stored post
      without the flag counts as loading. */
  predicate IsLoading(p: Post) {
    p.analysisText == "" && p.isStreaming != Some(false)
  }

  /** The heading: the title, or the prompt when the title is empty. */
  function Heading(p: Post): (h: string)
    ensures p.title != "" ==> h == p.title
    ensures p.title == "" ==> h == p.prompt
  {
    if p.title != "" then p.title else p.prompt
  }

  /** The quoted prompt under the heading. */
  predicate ShowsPrompt(p: Post) {
    p.title != "" && p.title != p.prompt
  }

  /** The card always shows the prompt, as the heading or quoted under it,
      and never both. */
  lemma PromptShownOnce(p: Post)
    ensures (Heading(p) == p.prompt) != ShowsPrompt(p)
  {
  }

  /** The finished post is not loading however empty its text; a
      placeholder is loading until text arrives. */
  lemma LoadingStates(p: Post, text: string)
    ensures !IsLoading(p.(isStreaming := Some(false)))
    ensures IsLoading(p.(analysisText := "", isStreaming := Some(true)))
    ensures IsLoading(p.(analysisText := "", isStreaming := None))
    ensures text != "" ==> !IsLoading(p.(analysisText := text))
  {
  }
}
