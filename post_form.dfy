/**
  The new-post form (frontend/src/components/PostForm.js): blank-content validation, the
  submission state and the character counter under the text box.
 */
module PostForm {
  import opened Common
  import opened ClientData

  const BlankError: string := "Please enter some content"
  const SubmitError: string := "Failed to create post. Please try again."
  /** Above this many UTF-16 units the counter turns red. */
  const WarnLength: nat := 800
  /** The number of characters the counter counts as one word. */
  const CharsPerWord: nat := 20

  /** `Math.ceil(length / 20)`, rendered only for a non-empty text. */
  function WordEstimate(length: nat): (r: Option<nat>)
    ensures r.None? <==> length == 0
    ensures r.Some? ==> (r.value - 1) * CharsPerWord < length <= r.value * CharsPerWord
  {
    if length == 0 then None else Some((length + CharsPerWord - 1) / CharsPerWord)
  }

  class Form {
    /** Whether the page passed an `onPostCreated` callback. */
    const hasOnPostCreated: bool

    var content: string
    var isSubmitting: bool
    var error: string

    constructor(hasOnPostCreated: bool)
      ensures this.hasOnPostCreated == hasOnPostCreated
      ensures content == "" && !isSubmitting && error == ""
    {
      this.hasOnPostCreated := hasOnPostCreated;
      content := "";
      isSubmitting := false;
      error := "";
    }

    /** Typing in the text box. */
    method Edit(text: string)
      modifies this`content
      ensures content == text
    {
      content := text;
    }

    /** Whether the submit button is disabled: while submitting, or while the text is
        nothing but whitespace. */
    function SubmitDisabled(): (disabled: bool)
      reads this
      ensures disabled <==> isSubmitting || forall i :: 0 <= i < |content| ==> IsWhitespace(content[i])
    {
      BlankIffAllWhitespace(content);
      isSubmitting || IsBlank(content)
    }

    /** Whether the character counter is drawn in red: past 800 UTF-16 units, which more than
        800 characters always are and at most 400 characters never are. */
    function CounterIsRed(): (red: bool)
      reads this
      ensures red <==> Utf16Length(content) > WarnLength
      ensures |content| > WarnLength ==> red
      ensures |content| <= WarnLength / 2 ==> !red
    {
      Utf16Length(content) > WarnLength
    }

    /** The word estimate under the text box: `Math.ceil(content.length / 20)` over the
        content's JavaScript length, shown only while there is content. A text of n characters
        counts as at least as many words as n / 20 rounded up. */
    function Words(): (r: Option<nat>)
      reads this
      ensures r.None? <==> content == ""
      ensures r.Some? ==> (r.value - 1) * CharsPerWord < Utf16Length(content) <= r.value * CharsPerWord
      ensures r.Some? ==> |content| <= r.value * CharsPerWord
    {
      WordEstimate(Utf16Length(content))
    }

    /** `handleSubmit` before the `await`: blank content only sets the error and sends
        nothing; otherwise the form is submitting with no error and the content is sent. */
    method BeginSubmit() returns (call: Option<Request>)
      modifies this`isSubmitting, this`error
      ensures IsBlank(content) ==> call.None? && error == BlankError && isSubmitting == old(isSubmitting)
      ensures !IsBlank(content) ==> call == Some(CreatePost(content)) && isSubmitting && error == ""
    {
      if IsBlank(content) {
        error := BlankError;
        return None;
      }
      isSubmitting := true;
      error := "";
      call := Some(CreatePost(content));
    }

    /** `handleSubmit` after the `await`: success clears the text and notifies the page
        once; failure keeps the text and sets the error. Submitting is over either way. */
    method FinishSubmit(outcome: Outcome<()>) returns (notified: bool)
      modifies this`content, this`isSubmitting, this`error
      ensures !isSubmitting
      ensures outcome.Ok? ==> content == "" && error == old(error) && notified == hasOnPostCreated
      ensures outcome.Failed? ==> content == old(content) && error == SubmitError && !notified
    {
      notified := false;
      match outcome {
        case Ok(_) =>
          content := "";
          notified := hasOnPostCreated;
        case Failed =>
          error := SubmitError;
      }
      isSubmitting := false;
    }

    /** A whole `handleSubmit`. */
    method HandleSubmit(outcome: Outcome<()>) returns (call: Option<Request>, notified: bool)
      modifies this`content, this`isSubmitting, this`error
      ensures IsBlank(old(content)) ==>
        call.None? && !notified && error == BlankError && content == old(content) && isSubmitting == old(isSubmitting)
      ensures !IsBlank(old(content)) ==> call == Some(CreatePost(old(content))) && !isSubmitting
      ensures !IsBlank(old(content)) && outcome.Ok? ==> content == "" && error == "" && notified == hasOnPostCreated
      ensures !IsBlank(old(content)) && outcome.Failed? ==> content == old(content) && error == SubmitError && !notified
    {
      call := BeginSubmit();
      if call.None? {
        return call, false;
      }
      notified := FinishSubmit(outcome);
    }
  }
}
