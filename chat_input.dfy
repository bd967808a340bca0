/**
 * The message input bar (`ChatInput`): the text being typed, the submit guard
 * shared by the Enter key and the send button, and the reset after a submit.
 */
module ChatInput {
  import opened Wrappers
  import opened Text

  /** `!content.trim() || isStreaming`: when `handleSubmit` returns at once. */
  predicate SubmitBlocked(content: string, isStreaming: bool)
  {
    Trim(content) == [] || isStreaming
  }

  /**
   * The send button's `disabled`, written in the source as the same
   * expression as the guard: it holds exactly when the text is all
   * whitespace or a reply is streaming.
   */
  function SendButtonDisabled(content: string, isStreaming: bool): (r: bool)
    ensures r <==> AllWhitespace(content) || isStreaming
  {
    BlankIffAllWhitespace(content);
    SubmitBlocked(content, isStreaming)
  }

  /** The textarea's `disabled`: set while a reply is streaming. */
  predicate TextareaDisabled(isStreaming: bool)
  {
    isStreaming
  }

  /** `handleKeyDown` submits on Enter without Shift, and only then. */
  predicate KeySubmits(key: string, shiftKey: bool)
  {
    key == "Enter" && !shiftKey
  }

  /** While a reply streams, neither the textarea nor the send button accepts input. */
  lemma StreamingLocksInput(content: string)
    ensures TextareaDisabled(true) && SendButtonDisabled(content, true)
  {
  }

  /** The input box's own state: the typed text. */
  class InputBox {
    var content: string

    constructor ()
      ensures content == ""
    {
      content := "";
    }

    /** `handleChange`: the textarea's new value becomes the content. */
    method HandleChange(value: string)
      modifies this
      ensures content == value
    {
      content := value;
    }

    /**
     * The part of `handleSubmit` before its `await`: returns the text passed
     * to `onSubmit` (the trimmed content), or None when the guard returns early.
     */
    method BeginSubmit(isStreaming: bool) returns (sent: Option<string>)
      ensures sent.None? <==> SendButtonDisabled(content, isStreaming)
      ensures sent.Some? ==> sent.value == Trim(content)
      ensures sent.Some? ==> sent.value != [] && !IsWhitespace(sent.value[0]) && !IsWhitespace(sent.value[|sent.value| - 1])
    {
      if SubmitBlocked(content, isStreaming) {
        sent := None;
      } else {
        TrimEdges(content);
        sent := Some(Trim(content));
      }
    }

    /** The part of `handleSubmit` after `onSubmit` resolves: the content is cleared. */
    method CompleteSubmit()
      modifies this
      ensures content == ""
    {
      content := "";
    }

    /**
     * `handleKeyDown`: Enter without Shift prevents the newline and starts a
     * submit; any other key does neither.
     */
    method HandleKeyDown(key: string, shiftKey: bool, isStreaming: bool) returns (preventDefault: bool, sent: Option<string>)
      ensures preventDefault <==> KeySubmits(key, shiftKey)
      ensures !preventDefault ==> sent == None
      ensures preventDefault ==> (sent.None? <==> SendButtonDisabled(content, isStreaming))
      ensures sent.Some? ==> sent.value == Trim(content)
    {
      preventDefault := KeySubmits(key, shiftKey);
      if preventDefault {
        sent := BeginSubmit(isStreaming);
      } else {
        sent := None;
      }
    }
  }
}
