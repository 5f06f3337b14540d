/**
  The chat composer of components/chat/MessageInput.tsx: the trim-and-send
  guard of `handleSubmit`, the Enter / Shift+Enter split of `handleKeyDown`,
  the state of the send button, and the height the text area grows to.
 */
module MessageInput {
  import opened Base
  import opened JsText

  /** The tallest the text area grows, in pixels. */
  const MaxHeight: int := 200

  /** What a submit leaves behind: the text handed to `onSend`, if any, and the draft. */
  datatype Submitted = Submitted(sent: Option<string>, draft: string)

  /**
    `handleSubmit`: the trimmed draft is sent when it is non-empty and the
    input is enabled, and only then is the draft cleared.
   */
  function HandleSubmit(draft: string, disabled: bool): (r: Submitted)
    ensures r.sent.Some? <==> !disabled && !AllWhitespace(draft)
    ensures r.sent.Some? ==> r.sent.value == Trim(draft) && r.draft == ""
    ensures r.sent.None? ==> r.draft == draft
  {
    TrimSpec(draft);
    var trimmed := Trim(draft);
    if trimmed != "" && !disabled then Submitted(Some(trimmed), "") else Submitted(None, draft)
  }

  /**
    What is sent is the draft without its surrounding white space: a
    non-empty piece of the draft with white space only before and after it,
    and no white space at either end.
   */
  lemma SentIsTrimmedDraft(draft: string, disabled: bool)
    ensures var r := HandleSubmit(draft, disabled);
      r.sent.Some? ==>
        && |r.sent.value| > 0
        && !IsWhitespace(r.sent.value[0]) && !IsWhitespace(r.sent.value[|r.sent.value| - 1])
        && exists a, b :: 0 <= a <= b <= |draft| && r.sent.value == draft[a..b] &&
                          AllWhitespace(draft[..a]) && AllWhitespace(draft[b..])
  {
    TrimSpec(draft);
    TrimSplits(draft);
  }

  /** Submitting right after a send sends nothing: the draft is empty by then. */
  lemma NoDoubleSend(draft: string, disabled: bool)
    ensures var r := HandleSubmit(draft, disabled);
      r.sent.Some? ==> HandleSubmit(r.draft, disabled) == Submitted(None, "")
  {
  }

  /** The send button is disabled while the input is or while the draft is blank. */
  predicate ButtonDisabled(draft: string, disabled: bool)
  {
    disabled || Trim(draft) == ""
  }

  /** The button is enabled exactly when pressing it would send something. */
  lemma ButtonMatchesSubmit(draft: string, disabled: bool)
    ensures !ButtonDisabled(draft, disabled) <==> HandleSubmit(draft, disabled).sent.Some?
  {
    TrimSpec(draft);
  }

  /** A key press in the text area: whether the default (a new line) was prevented, and the submit it caused. */
  datatype KeyResult = KeyResult(prevented: bool, submitted: Option<Submitted>)

  /** `handleKeyDown`: Enter without Shift submits instead of inserting a line break. */
  function HandleKeyDown(draft: string, disabled: bool, key: string, shift: bool): (r: KeyResult)
    ensures r.prevented <==> key == "Enter" && !shift
    ensures r.submitted.Some? <==> r.prevented
    ensures r.submitted.Some? ==> r.submitted.value == HandleSubmit(draft, disabled)
  {
    if key == "Enter" && !shift then KeyResult(true, Some(HandleSubmit(draft, disabled)))
    else KeyResult(false, None)
  }

  /** Shift+Enter and every other key leave sending to the button: nothing is sent and the draft is kept. */
  lemma OnlyPlainEnterSends(draft: string, disabled: bool, key: string, shift: bool)
    ensures var r := HandleKeyDown(draft, disabled, key, shift);
      (r.submitted.Some? && r.submitted.value.sent.Some?) <==>
      key == "Enter" && !shift && !ButtonDisabled(draft, disabled)
  {
    ButtonMatchesSubmit(draft, disabled);
  }

  /** The height set after each change: the content height, capped at 200 pixels. */
  function Height(scrollHeight: int): (h: int)
    ensures h <= MaxHeight && h <= scrollHeight
    ensures h == scrollHeight || h == MaxHeight
  {
    Min(scrollHeight, MaxHeight)
  }

  /** Content that fits is shown whole, taller content stops at the cap, and the height never shrinks as content grows. */
  lemma HeightFollowsContent(a: int, b: int)
    ensures a <= MaxHeight ==> Height(a) == a
    ensures a >= MaxHeight ==> Height(a) == MaxHeight
    ensures a <= b ==> Height(a) <= Height(b)
  {
  }
}
