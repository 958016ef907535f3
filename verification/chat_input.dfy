/** `src/components/ChatInput.jsx`: when the question box submits, what it
    submits, and when its button is disabled. `onSubmit` is modelled by
    what it receives. */
module ChatInput {
  import opened Base
  import opened Text

  /** The outcome of a submit attempt: the text passed to `onSubmit`, if
      any, and the box's value afterwards. */
  datatype Outcome = Outcome(submitted: Option<string>, value: string)

  /** `handleSubmit()`: the trimmed value goes out and the box empties,
      unless it is blank or a question is already loading. */
  function HandleSubmit(value: string, isLoading: bool): (r: Outcome)
    ensures r.submitted.Some? <==> !AllWs(value) && !isLoading
    ensures r.submitted.Some? ==> r.submitted.value == Trim(value) && r.value == ""
    ensures r.submitted.None? ==> r.value == value
  {
    TrimEmptyIffAllWs(value);
    var trimmed := Trim(value);
    if trimmed == "" || isLoading then Outcome(None, value)
    else Outcome(Some(trimmed), "")
  }

  /** `handleKeyDown(e)`: Enter submits, Shift+Enter does not. */
  function HandleKeyDown(key: string, shiftKey: bool, value: string, isLoading: bool): (r: Outcome)
    ensures key == "Enter" && !shiftKey ==> r == HandleSubmit(value, isLoading)
    ensures !(key == "Enter" && !shiftKey) ==> r == Outcome(None, value)
  {
    if key == "Enter" && !shiftKey then HandleSubmit(value, isLoading) else Outcome(None, value)
  }

  /** The submit button's `disabled`. */
  predicate Disabled(value: string, isLoading: bool) {
    Trim(value) == "" || isLoading
  }

  /** The button is disabled exactly when a submit would do nothing. */
  lemma DisabledIffNothingSubmitted(value: string, isLoading: bool)
    ensures Disabled(value, isLoading) <==> HandleSubmit(value, isLoading).submitted.None?
  {
    TrimEmptyIffAllWs(value);
  }

  /** What is submitted is non-blank and already trimmed, and submitting
      twice in a row sends nothing the second time. */
  lemma SubmittedIsTrimmed(value: string, isLoading: bool)
    requires HandleSubmit(value, isLoading).submitted.Some?
    ensures var t := HandleSubmit(value, isLoading).submitted.value;
      t != "" && Trim(t) == t
    ensures HandleSubmit(HandleSubmit(value, isLoading).value, isLoading).submitted.None?
  {
    TrimEmptyIffAllWs(value);
    TrimIdempotent(value);
  }
}
