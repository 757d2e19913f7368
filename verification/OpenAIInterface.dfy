/** app/api/openai_interface.py: the conversation is enriched with retrieved
    context (its last message is replaced by a templated user message), sent
    to the completion service, and the service's streamed chunks are turned
    into text pieces followed by one "[DONE]".

    The context service and the completion service are functions; the
    generator is modelled as a method from the upstream chunk sequence to the
    sequence of pieces it yields. */
module OpenAIInterface {
  import opened Wrappers
  import opened Strings

  datatype Message = Message(content: string, role: string)

  /** A streamed completion chunk, reduced to what process_chunk reads. */
  datatype Delta = Delta(content: Option<string>)
  datatype Choice = Choice(delta: Delta)
  datatype Chunk = Chunk(choices: seq<Choice>)

  datatype Config = Config(k: int, maxContextLength: int, model: string)

  /** get_topk_context_chunks(query, k, max_context_length) */
  type ContextService = (string, int, int) -> string
  /** client.chat.completions.create(model, messages, stream=True) */
  type CompletionService = (string, seq<Message>) -> seq<Chunk>

  const QUESTION_PREFIX: string := "Question to answer: "
  const REPEAT_PREFIX: string := "To repeat, based on the information above, answer the question, and provide the sources used: "
  /** Two adjacent literals in the source. */
  const ANSWER_SUFFIX: string := "Answer: " + "Sources used: "
  const NL: string := "\n"
  const DONE: string := "[DONE]"

  /** Lines 49-55: the enriched user message. */
  function EnrichedUserMessage(latest: string, context: string): string {
    QUESTION_PREFIX + latest + NL +
    context + NL +
    REPEAT_PREFIX + latest + NL +
    ANSWER_SUFFIX
  }

  /** The enriched message holds the latest message, the context and the latest
      message again, in that order, between the fixed texts, and ends with
      "Answer: Sources used: ". */
  lemma EnrichedLayout(latest: string, context: string)
    ensures
      var m := EnrichedUserMessage(latest, context);
      var p, q, c := |QUESTION_PREFIX|, |latest|, |context|;
      var i1 := p + q + 1;
      var i2 := i1 + c + 1;
      var i3 := i2 + |REPEAT_PREFIX|;
      |m| == 2 * q + c + p + |REPEAT_PREFIX| + 3 + |ANSWER_SUFFIX| &&
      m[..p] == QUESTION_PREFIX &&
      m[p..p + q] == latest &&
      m[i1..i1 + c] == context &&
      m[i2..i3] == REPEAT_PREFIX &&
      m[i3..i3 + q] == latest &&
      EndsWith(m, ANSWER_SUFFIX)
  {
    var m := EnrichedUserMessage(latest, context);
    assert |NL| == 1;
    Layout(QUESTION_PREFIX, latest, NL, context, NL, REPEAT_PREFIX, NL, ANSWER_SUFFIX);
    assert m[|m| - |ANSWER_SUFFIX|..] == ANSWER_SUFFIX;
  }

  /** Where each piece of a + x + b + y + c + e + x + f + d sits. */
  lemma Layout(a: string, x: string, b: string, y: string, c: string, e: string, f: string, d: string)
    ensures
      var m := a + x + b + y + c + e + x + f + d;
      var i1 := |a| + |x| + |b|;
      var i2 := i1 + |y| + |c|;
      var i3 := i2 + |e|;
      |m| == |a| + 2 * |x| + |b| + |y| + |c| + |e| + |f| + |d| &&
      m[..|a|] == a && m[|a|..|a| + |x|] == x &&
      m[i1..i1 + |y|] == y && m[i2..i3] == e &&
      m[i3..i3 + |x|] == x && m[|m| - |d|..] == d
  {
  }

  /** Lines 47-57: same length, every message but the last unchanged, and the
      last replaced by a user message built from its content and the context. */
  function AddContextToMessages(messages: seq<Message>, context: string): (enriched: seq<Message>)
    requires |messages| > 0
    ensures |enriched| == |messages|
    ensures enriched[..|enriched| - 1] == messages[..|messages| - 1]
    ensures enriched[|enriched| - 1].role == "user"
    ensures enriched[|enriched| - 1].content == EnrichedUserMessage(messages[|messages| - 1].content, context)
  {
    messages[..|messages| - 1] + [Message(EnrichedUserMessage(messages[|messages| - 1].content, context), "user")]
  }

  /** Lines 40-44: the first choice's text, or a newline when it has none;
      never the empty string. */
  function ProcessChunk(chunk: Chunk): (piece: string)
    requires |chunk.choices| > 0
    ensures piece != ""
    ensures match chunk.choices[0].delta.content
            case Some(text) => piece == (if text != "" then text else "\n")
            case None => piece == "\n"
  {
    match chunk.choices[0].delta.content
    case Some(text) => if text != "" then text else "\n"
    case None => "\n"
  }

  /** The index of the first chunk without choices, or |chunks| when there is none. */
  function FirstWithoutChoices(chunks: seq<Chunk>): (i: nat)
    ensures i <= |chunks|
    ensures forall j :: 0 <= j < i ==> |chunks[j].choices| > 0
    ensures i < |chunks| ==> |chunks[i].choices| == 0
  {
    if chunks == [] then 0
    else if |chunks[0].choices| == 0 then 0
    else 1 + FirstWithoutChoices(chunks[1..])
  }

  /** The upstream chunks get_openai_stream iterates over. */
  function Upstream(messages: seq<Message>, config: Config, context: ContextService, complete: CompletionService): seq<Chunk>
    requires |messages| > 0
  {
    var retrieved := context(messages[|messages| - 1].content, config.k, config.maxContextLength);
    complete(config.model, AddContextToMessages(messages, retrieved))
  }

  /** The retrieval query is the last message's content (line 30): two context
      services that agree on (last content, k, max_context_length) give the
      same upstream chunks, whatever they do on any other query. */
  lemma UpstreamQueryIsLastMessage(messages: seq<Message>, config: Config, c1: ContextService, c2: ContextService,
                                   complete: CompletionService)
    requires |messages| > 0
    requires c1(messages[|messages| - 1].content, config.k, config.maxContextLength)
          == c2(messages[|messages| - 1].content, config.k, config.maxContextLength)
    ensures Upstream(messages, config, c1, complete) == Upstream(messages, config, c2, complete)
  {
  }

  /** Lines 22-37: one piece per upstream chunk, in order, then one "[DONE]".
      A chunk without choices makes process_chunk raise: the stream then ends
      after the pieces already yielded, with no "[DONE]" (raised is true).
      An empty conversation raises before anything is yielded. */
  method GetOpenAIStream(messages: seq<Message>, config: Config, context: ContextService, complete: CompletionService)
    returns (pieces: seq<string>, raised: bool)
    ensures |messages| == 0 ==> pieces == [] && raised
    ensures |messages| > 0 ==>
            var chunks := Upstream(messages, config, context, complete);
            var f := FirstWithoutChoices(chunks);
            raised == (f < |chunks|) &&
            |pieces| == (if raised then f else |chunks| + 1) &&
            (forall i :: 0 <= i < f ==> pieces[i] == ProcessChunk(chunks[i])) &&
            (!raised ==> pieces[|chunks|] == DONE)
  {
    if |messages| == 0 {
      return [], true;
    }
    var retrieved := context(messages[|messages| - 1].content, config.k, config.maxContextLength);
    var enriched := AddContextToMessages(messages, retrieved);
    var chunks := complete(config.model, enriched);
    pieces := [];
    for i := 0 to |chunks|
      invariant i <= FirstWithoutChoices(chunks)
      invariant |pieces| == i
      invariant forall j :: 0 <= j < i ==> pieces[j] == ProcessChunk(chunks[j])
    {
      if |chunks[i].choices| == 0 {
        return pieces, true;
      }
      pieces := pieces + [ProcessChunk(chunks[i])];
    }
    pieces := pieces + [DONE];
    raised := false;
  }

  /** When no chunk's text is literally "[DONE]", the sentinel appears exactly
      once, as the last piece. */
  lemma DoneOnlyLast(chunks: seq<Chunk>, pieces: seq<string>)
    requires FirstWithoutChoices(chunks) == |chunks|
    requires |pieces| == |chunks| + 1 && pieces[|chunks|] == DONE
    requires forall i :: 0 <= i < |chunks| ==> pieces[i] == ProcessChunk(chunks[i])
    requires forall i :: 0 <= i < |chunks| ==> chunks[i].choices[0].delta.content != Some(DONE)
    ensures forall i :: 0 <= i < |pieces| ==> (pieces[i] == DONE <==> i == |chunks|)
  {
  }

  /** Joined text of a list of pieces. */
  function Joined(pieces: seq<string>): string {
    if pieces == [] then "" else pieces[0] + Joined(pieces[1..])
  }

  /** The text of a chunk's first choice, or "" when it has none. */
  function ChunkText(chunk: Chunk): string
    requires |chunk.choices| > 0
  {
    match chunk.choices[0].delta.content
    case Some(text) => text
    case None => ""
  }

  /** When every chunk carries text, the pieces before "[DONE]" join up to the
      completion's full text; each chunk without text adds a newline instead. */
  lemma {:induction false} StreamReconstructsText(chunks: seq<Chunk>)
    requires forall i :: 0 <= i < |chunks| ==> |chunks[i].choices| > 0 && ChunkText(chunks[i]) != ""
    ensures Joined(seq(|chunks|, i requires 0 <= i < |chunks| => ProcessChunk(chunks[i])))
         == Joined(seq(|chunks|, i requires 0 <= i < |chunks| => ChunkText(chunks[i])))
  {
    var a := seq(|chunks|, i requires 0 <= i < |chunks| => ProcessChunk(chunks[i]));
    var b := seq(|chunks|, i requires 0 <= i < |chunks| => ChunkText(chunks[i]));
    assert a == b;
  }
}
