/** get_context of src/rag/retrieval.py, the older single-stage retrieval:
    the top-k hits of the vector index are packed greedily into a context
    string under a budget counted in characters.

    The similarity search is not modelled: its hits are an input. Each hit's
    metadata is taken as the text Python's str() renders for it. */
module ArticleContext {
  import opened Strings
  import GreedyPacking

  /** The text every context starts with. */
  const HEADER: string := "Relevant law articles: \n "

  /** One search hit: the chunk's text and its metadata as rendered by str(). */
  datatype Hit = Hit(pageContent: string, shownMetadata: string)

  const SEPARATOR: string := ": "
  const LINE_END: string := "  #### \n"

  /** The line appended for one hit: the rendered metadata, ": ", the text and
      the "  #### " marker ending in a newline. */
  function Line(h: Hit): (line: string)
    ensures |line| == |h.shownMetadata| + |h.pageContent| + 10
    ensures line[..|h.shownMetadata|] == h.shownMetadata
    ensures line[|h.shownMetadata|..|h.shownMetadata| + 2] == SEPARATOR
    ensures line[|h.shownMetadata| + 2..|h.shownMetadata| + 2 + |h.pageContent|] == h.pageContent
    ensures EndsWith(line, LINE_END)
  {
    Pieces(h.shownMetadata, SEPARATOR, h.pageContent, LINE_END);
    h.shownMetadata + SEPARATOR + h.pageContent + LINE_END
  }

  /** A line fits when the context's length plus the line's stays under the budget. */
  function CharBudget(maxContextLen: int): (string, string) -> bool {
    (context, line) => |context| + |line| < maxContextLen
  }

  /** The hits whose lines are appended. */
  function Chosen(hits: seq<Hit>, maxContextLen: int): seq<Hit> {
    GreedyPacking.Pack(CharBudget(maxContextLen), Line, HEADER, hits)
  }

  lemma PackIteration(hits: seq<Hit>, i: nat, maxContextLen: int, chosen: seq<Hit>, context: string)
    requires i < |hits|
    requires chosen == Chosen(hits[..i], maxContextLen)
    requires context == HEADER + GreedyPacking.Concat(Line, chosen)
    ensures
      var line := Line(hits[i]);
      if |context| + |line| < maxContextLen then
        Chosen(hits[..i + 1], maxContextLen) == chosen + [hits[i]] &&
        context + line == HEADER + GreedyPacking.Concat(Line, chosen + [hits[i]])
      else
        Chosen(hits[..i + 1], maxContextLen) == chosen
  {
    var line := Line(hits[i]);
    var fits := CharBudget(maxContextLen);
    GreedyPacking.PackLoopStep(fits, Line, HEADER, hits, i, chosen, context);
    assert fits(context, line) == (|context| + |line| < maxContextLen);
  }

  /** Lines 11-15: the context is the header followed by the lines of the hits
      that fit, in order; after any append it is shorter than the budget, and
      it is the bare header when no line fits. */
  method GetContext(hits: seq<Hit>, maxContextLen: int) returns (context: string)
    ensures context == HEADER + GreedyPacking.Concat(Line, Chosen(hits, maxContextLen))
    ensures StartsWith(context, HEADER)
    ensures context == HEADER || |context| < maxContextLen
  {
    context := HEADER;
    ghost var chosen: seq<Hit> := [];
    for i := 0 to |hits|
      invariant chosen == Chosen(hits[..i], maxContextLen)
      invariant context == HEADER + GreedyPacking.Concat(Line, chosen)
    {
      PackIteration(hits, i, maxContextLen, chosen, context);
      if |context| + |Line(hits[i])| < maxContextLen {
        context := context + Line(hits[i]);
        chosen := chosen + [hits[i]];
      }
    }
    assert hits[..|hits|] == hits;
    GreedyPacking.PackWithin(CharBudget(maxContextLen), Line, s => |s| < maxContextLen, HEADER, hits);
  }

  /** Every line is non-empty, so blocks were appended exactly when the context
      is longer than the header. */
  lemma {:induction false} ConcatEmptyIff(chosen: seq<Hit>)
    ensures GreedyPacking.Concat(Line, chosen) == "" <==> chosen == []
  {
    if chosen != [] {
      assert |Line(chosen[0])| >= 7;
    }
  }

  /** The context is exactly the header if and only if no single line fits
      after the header on its own. */
  lemma HeaderOnlyIff(hits: seq<Hit>, maxContextLen: int)
    ensures HEADER + GreedyPacking.Concat(Line, Chosen(hits, maxContextLen)) == HEADER
        <==> forall k :: 0 <= k < |hits| ==> |HEADER| + |Line(hits[k])| >= maxContextLen
  {
    var chosen := Chosen(hits, maxContextLen);
    ConcatEmptyIff(chosen);
    GreedyPacking.PackEmptyIff(CharBudget(maxContextLen), Line, HEADER, hits);
    var c := GreedyPacking.Concat(Line, chosen);
    assert HEADER + c == HEADER <==> c == "" by {
      if HEADER + c == HEADER { assert |c| == 0; }
    }
  }

  /** Across the loop the context never shrinks: the context after i hits is
      a prefix of the context after any later number of hits. */
  lemma ContextGrows(hits: seq<Hit>, maxContextLen: int, i: nat, j: nat)
    requires i <= j <= |hits|
    ensures var before := HEADER + GreedyPacking.Concat(Line, Chosen(hits[..i], maxContextLen));
            var after := HEADER + GreedyPacking.Concat(Line, Chosen(hits[..j], maxContextLen));
            |before| <= |after| && StartsWith(after, before)
  {
    GreedyPacking.PackPrefixGrows(CharBudget(maxContextLen), Line, HEADER, hits, i, j);
  }

  /** The appended lines come from an in-order subsequence of the hits. */
  lemma ChosenInOrder(hits: seq<Hit>, maxContextLen: int)
    ensures IsSubsequence(Chosen(hits, maxContextLen), hits)
  {
    GreedyPacking.PackSubsequence(CharBudget(maxContextLen), Line, HEADER, hits);
  }
}
