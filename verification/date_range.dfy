/** `src/components/DateRangePickerPopover.jsx`: checking a typed range
    before it is applied, and the label the trigger shows for a range.

    The presets are computed from the clock and a date library; here they
    are a parameter, each with its label and its bounds already formatted
    as `YYYY-MM`. */
module DateRange {
  import opened Base
  import opened Text
  import opened YearMonth

  const FormatError := "Use format YYYY-MM (e.g. 2025-01)"
  const OrderError := "\"From\" must be before \"To\""

  /** What `applyRange()` does: set a validation message and stay open, or
      call `onChange` with the typed bounds. */
  datatype Applied = Rejected(message: string) | Accepted(dateFrom: string, dateTo: string)

  /** `applyRange()`: both bounds must be valid months, and `from` must not
      come after `to` (`from > to` compares the strings). */
  function ApplyRange(from: string, to: string): (r: Applied)
    ensures r == Rejected(FormatError) <==> !IsValidYM(from) || !IsValidYM(to)
    ensures r == Rejected(OrderError) <==> IsValidYM(from) && IsValidYM(to) && Ordinal(to) < Ordinal(from)
    ensures r.Accepted? <==> IsValidYM(from) && IsValidYM(to) && Ordinal(from) <= Ordinal(to)
    ensures r.Accepted? ==> r.dateFrom == from && r.dateTo == to
  {
    if !IsValidYM(from) || !IsValidYM(to) then Rejected(FormatError)
    else
      Chronological(to, from);
      if LexLt(to, from) then Rejected(OrderError)
      else Accepted(from, to)
  }

  /** A single month is a valid range. */
  lemma OneMonthAccepted(v: string)
    requires IsValidYM(v)
    ensures ApplyRange(v, v) == Accepted(v, v)
  {
  }

  /** Swapping the bounds of a range that spans more than one month turns
      acceptance into the order error. */
  lemma SwappedRejected(from: string, to: string)
    requires ApplyRange(from, to).Accepted? && from != to
    ensures ApplyRange(to, from) == Rejected(OrderError)
  {
    Chronological(from, to);
  }

  /** A preset as offered at the moment of labelling. */
  datatype Preset = Preset(name: string, from: string, to: string)

  predicate Matches(p: Preset, dateFrom: string, dateTo: string) {
    p.from == dateFrom && p.to == dateTo
  }

  function MatchesRange(dateFrom: string, dateTo: string): Preset -> bool {
    (p: Preset) => Matches(p, dateFrom, dateTo)
  }

  /** `getDateRangeLabel(dateFrom, dateTo)`: `'All time'` without bounds;
      else the first preset with exactly these bounds; else the bounds
      themselves, `From …` for a lone start, and `Custom` for a lone end. */
  function Label(dateFrom: string, dateTo: string, presets: seq<Preset>): (l: string)
    ensures dateFrom == "" && dateTo == "" ==> l == "All time"
    ensures !(dateFrom == "" && dateTo == "") && (exists i :: 0 <= i < |presets| && Matches(presets[i], dateFrom, dateTo)) ==>
      exists i :: 0 <= i < |presets| && Matches(presets[i], dateFrom, dateTo) && l == presets[i].name
        && forall j :: 0 <= j < i ==> !Matches(presets[j], dateFrom, dateTo)
    ensures !(dateFrom == "" && dateTo == "") && (forall i :: 0 <= i < |presets| ==> !Matches(presets[i], dateFrom, dateTo)) ==>
      l == if dateFrom != "" && dateTo != "" then dateFrom + " \U{2013} " + dateTo
           else if dateFrom != "" then "From " + dateFrom
           else "Custom"
  {
    if dateFrom == "" && dateTo == "" then "All time"
    else
      match FindIndex(presets, MatchesRange(dateFrom, dateTo))
      case Some(i) => presets[i].name
      case None =>
        if dateFrom != "" && dateTo != "" then dateFrom + " \U{2013} " + dateTo
        else if dateFrom != "" then "From " + dateFrom
        else "Custom"
  }

  /** After an accepted range the label is a matching preset's, or else
      the two bounds joined by a dash. */
  lemma LabelAfterApply(from: string, to: string, presets: seq<Preset>)
    requires ApplyRange(from, to).Accepted?
    ensures var l := Label(from, to, presets);
      (exists i :: 0 <= i < |presets| && Matches(presets[i], from, to) && l == presets[i].name)
      || l == from + " \U{2013} " + to
  {
    assert from != "" && to != "" by {
      assert |from| == 7 && |to| == 7;
    }
  }

  /** With no presets the label depends only on which bounds are set. */
  lemma LabelWithoutPresets(dateFrom: string, dateTo: string)
    ensures Label(dateFrom, dateTo, []) ==
      if dateFrom == "" && dateTo == "" then "All time"
      else if dateFrom != "" && dateTo != "" then dateFrom + " \U{2013} " + dateTo
      else if dateFrom != "" then "From " + dateFrom
      else "Custom"
  {
  }
}
