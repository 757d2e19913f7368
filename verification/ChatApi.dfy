/** add_context_to_message of src/api/app.py: the single-message prompt
    template of the older chat endpoint. The endpoint itself (chat history,
    completion call) is not modelled. */
module ChatApi {
  import opened Strings

  const CONTEXT_INTRO: string := " \n Here is some relevant context extracted from the law: "
  /** Made of two adjacent literals in the source: "...based on the " "information above...". */
  const REPEAT_INTRO: string := " \n To repeat, based on the " + "information above, answer the question: "
  /** The second literal is not an f-string, so these nine characters are sent as they are. */
  const PLACEHOLDER: string := "{message}"

  /** Lines 82-86 as written: the message, the context introduction, the
      context, the closing instruction, and the literal text "{message}". */
  function AddContextToMessage(message: string, context: string): (prompt: string)
    ensures |prompt| == |message| + |context| + |CONTEXT_INTRO| + |REPEAT_INTRO| + |PLACEHOLDER|
    ensures prompt[..|message|] == message
    ensures prompt[|message|..|message| + |CONTEXT_INTRO|] == CONTEXT_INTRO
    ensures prompt[|message| + |CONTEXT_INTRO|..|message| + |CONTEXT_INTRO| + |context|] == context
    ensures EndsWith(prompt, REPEAT_INTRO + PLACEHOLDER)
  {
    var closing := REPEAT_INTRO + PLACEHOLDER;
    Pieces(message, CONTEXT_INTRO, context, closing);
    message + CONTEXT_INTRO + context + closing
  }

  /** The prompt's ending does not depend on the message: a message that does
      not itself end in "}" is never repeated at the end. */
  lemma PlaceholderNotFilled(message: string, context: string)
    requires message != [] && message[|message| - 1] != '}'
    ensures !EndsWith(AddContextToMessage(message, context), message)
  {
    var prompt := AddContextToMessage(message, context);
    assert prompt[|prompt| - 1] == '}';
  }

  /** The prompt the template evidently means: the message repeated at the end. */
  function AddContextToMessageIntended(message: string, context: string): (prompt: string)
    ensures |prompt| == 2 * |message| + |context| + |CONTEXT_INTRO| + |REPEAT_INTRO|
    ensures prompt[..|message|] == message
    ensures prompt[|message|..|message| + |CONTEXT_INTRO|] == CONTEXT_INTRO
    ensures prompt[|message| + |CONTEXT_INTRO|..|message| + |CONTEXT_INTRO| + |context|] == context
    ensures EndsWith(prompt, REPEAT_INTRO + message)
  {
    var closing := REPEAT_INTRO + message;
    Pieces(message, CONTEXT_INTRO, context, closing);
    message + CONTEXT_INTRO + context + closing
  }
}
