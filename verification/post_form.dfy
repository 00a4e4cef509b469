/** `PostForm`: a textarea whose submit hands the text to the page. */
module PostForm {
  import JsText

  /** The textarea after a submit, and the text `onSubmit` was called with
      (if it was called). */
  datatype Submitted = Submitted(content: string, sent: seq<string>)

  /** `handleSubmit`. `onSubmit` is called without being awaited, so the
      textarea is cleared whether or not the post later succeeds. */
  function HandleSubmit(content: string): (r: Submitted)
    ensures JsText.IsBlank(content) ==> r == Submitted(content, [])
    ensures !JsText.IsBlank(content) ==> r == Submitted("", [content])
  {
    JsText.TrimEmptyIffBlank(content);
    if JsText.Trim(content) == "" then Submitted(content, [])
    else Submitted("", [content])
  }

  /** Two submits with no typing in between send the text once. */
  lemma SubmitTwiceSendsOnce(content: string)
    ensures var first := HandleSubmit(content);
            var second := HandleSubmit(first.content);
            |first.sent + second.sent| == (if JsText.IsBlank(content) then 0 else 1)
  {
  }

  /** A text with any non-whitespace character is sent as typed, with its
      surrounding whitespace. */
  lemma SendsUntrimmed()
    ensures HandleSubmit(" hi ").sent == [" hi "]
  {
    assert !JsText.IsBlank(" hi ") by { assert !JsText.IsJsWhitespace(" hi "[1]); }
  }

  /** Spaces and line breaks alone are not sent and stay in the textarea. */
  lemma KeepsBlank()
    ensures HandleSubmit(" \n") == Submitted(" \n", [])
  {
    assert JsText.IsBlank(" \n");
  }
}
