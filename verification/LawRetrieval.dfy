/** get_law_context_chunks of app/api/retrieval.py: a similarity filter over
    the candidates the vector index returned, a reranking stage consulted only
    when too many candidates survive, and greedy packing of the survivors into
    a context string under a token budget.

    The vector index, the reranking service and the tokenizer are not modelled
    as code: the scored candidates are an input, the reranker is a function
    from (documents, top_n) to its results, and the tokenizer is a function
    from text to tokens. Scores are only compared with the thresholds. */
module LawRetrieval {
  import opened Wrappers
  import opened Strings
  import GreedyPacking

  const MIN_EMBEDDING_SIMILARITY_SCORE: real := 0.5
  const MIN_RERANKING_SIMILARITY_SCORE: real := 0.5

  /** The context returned when no candidate survives both stages. */
  const NO_ARTICLES: string := "No relevant law articles found"
  /** The text every packed context starts with. */
  const CONTEXT_HEADER: string := "Retrieved relevant context from the law: \n\n"

  /** A document's metadata; the packer reads these two keys. */
  datatype Source = Source(detailsHrefName: string, rawFilepath: string)
  /** A document of the vector index. */
  datatype Doc = Doc(pageContent: string, metadata: Source)
  /** One result of the reranker: a position in the documents it was given. */
  datatype RerankItem = RerankItem(index: nat, relevanceScore: real)
  /** A text paired with its source, as zip(texts, sources) yields them. */
  datatype Article = Article(text: string, source: Source)
  /** Indexing the texts with a reranker index past their end raises IndexError. */
  datatype RetrievalError = RerankIndexOutOfRange

  type Token = int
  /** The reranking service: (documents, top_n) to results. */
  type Reranker = (seq<string>, nat) -> seq<RerankItem>
  /** The tokenizer's encode. */
  type Encoder = string -> seq<Token>

  // ---------------------------------------------------------------------
  // Threshold filtering, used by both stages

  /** [x for x, score in scored if score > threshold] */
  function Above<T>(scored: seq<(T, real)>, threshold: real): (kept: seq<T>)
    ensures |kept| <= |scored|
  {
    if scored == [] then []
    else if scored[0].1 > threshold then [scored[0].0] + Above(scored[1..], threshold)
    else Above(scored[1..], threshold)
  }

  function Firsts<T>(scored: seq<(T, real)>): seq<T> {
    seq(|scored|, k requires 0 <= k < |scored| => scored[k].0)
  }

  /** The filter treats each candidate on its own, in order. */
  lemma {:induction false} AboveAppend<T>(a: seq<(T, real)>, b: seq<(T, real)>, threshold: real)
    ensures Above(a + b, threshold) == Above(a, threshold) + Above(b, threshold)
  {
    if a == [] {
      assert a + b == b;
    } else {
      assert (a + b)[1..] == a[1..] + b;
      AboveAppend(a[1..], b, threshold);
    }
  }

  /** The kept items keep their original order. */
  lemma {:induction false} AboveSubsequence<T>(scored: seq<(T, real)>, threshold: real)
    ensures IsSubsequence(Above(scored, threshold), Firsts(scored))
  {
    if scored != [] {
      AboveSubsequence(scored[1..], threshold);
      assert Firsts(scored)[1..] == Firsts(scored[1..]);
    }
  }

  /** Every kept item came with a score strictly above the threshold. */
  lemma {:induction false} AboveWitness<T>(scored: seq<(T, real)>, threshold: real, k: nat) returns (j: nat)
    requires k < |Above(scored, threshold)|
    ensures j < |scored| && scored[j].0 == Above(scored, threshold)[k] && scored[j].1 > threshold
  {
    if scored[0].1 > threshold && k == 0 {
      j := 0;
    } else {
      var k' := if scored[0].1 > threshold then k - 1 else k;
      var j' := AboveWitness(scored[1..], threshold, k');
      j := j' + 1;
    }
  }

  /** Every item scored strictly above the threshold is kept. */
  lemma {:induction false} AboveComplete<T>(scored: seq<(T, real)>, threshold: real, j: nat)
    requires j < |scored| && scored[j].1 > threshold
    ensures scored[j].0 in Above(scored, threshold)
  {
    if j > 0 {
      assert scored[j] == scored[1..][j - 1];
      AboveComplete(scored[1..], threshold, j - 1);
    }
  }

  // ---------------------------------------------------------------------
  // The two retrieval stages (lines 24-51)

  function Texts(docs: seq<Doc>): seq<string> {
    seq(|docs|, k requires 0 <= k < |docs| => docs[k].pageContent)
  }

  function Sources(docs: seq<Doc>): seq<Source> {
    seq(|docs|, k requires 0 <= k < |docs| => docs[k].metadata)
  }

  function RerankPairs(results: seq<RerankItem>): seq<(nat, real)> {
    seq(|results|, k requires 0 <= k < |results| => (results[k].index, results[k].relevanceScore))
  }

  predicate InRange(indices: seq<nat>, n: nat) {
    forall k :: 0 <= k < |indices| ==> indices[k] < n
  }

  /** [xs[i] for i in indices] */
  function Pick<T>(xs: seq<T>, indices: seq<nat>): seq<T>
    requires InRange(indices, |xs|)
  {
    seq(|indices|, k requires 0 <= k < |indices| => xs[indices[k]])
  }

  /** Lines 45-49: the indices of the reranker results whose relevance clears
      the threshold, in the reranker's order. */
  method RelevantIndices(results: seq<RerankItem>) returns (indices: seq<nat>)
    ensures indices == Above(RerankPairs(results), MIN_RERANKING_SIMILARITY_SCORE)
  {
    indices := [];
    for i := 0 to |results|
      invariant indices == Above(RerankPairs(results[..i]), MIN_RERANKING_SIMILARITY_SCORE)
    {
      assert RerankPairs(results[..i + 1]) == RerankPairs(results[..i]) + [(results[i].index, results[i].relevanceScore)];
      AboveAppend(RerankPairs(results[..i]), [(results[i].index, results[i].relevanceScore)], MIN_RERANKING_SIMILARITY_SCORE);
      if results[i].relevanceScore > MIN_RERANKING_SIMILARITY_SCORE {
        indices := indices + [results[i].index];
      }
    }
    assert results[..|results|] == results;
  }

  /** The first stage's survivors. */
  function Survivors(scored: seq<(Doc, real)>): seq<Doc> {
    Above(scored, MIN_EMBEDDING_SIMILARITY_SCORE)
  }

  /** The indices the second stage keeps, for the given survivors. */
  function Relevant(docs: seq<Doc>, rerankMaxN: nat, rerank: Reranker): seq<nat> {
    Above(RerankPairs(rerank(Texts(docs), rerankMaxN)), MIN_RERANKING_SIMILARITY_SCORE)
  }

  /** The texts and sources left after both stages: two lists of equal
      length; the error only arises on the reranking path. */
  function Candidates(scored: seq<(Doc, real)>, rerankMaxN: nat, rerank: Reranker): (r: Result<(seq<string>, seq<Source>), RetrievalError>)
    ensures r.Failure? ==> |Survivors(scored)| > rerankMaxN
    ensures r.Success? ==> |r.value.0| == |r.value.1|
  {
    var docs := Survivors(scored);
    if |docs| > rerankMaxN then
      var indices := Relevant(docs, rerankMaxN, rerank);
      if InRange(indices, |docs|) then Success((Pick(Texts(docs), indices), Pick(Sources(docs), indices)))
      else Failure(RerankIndexOutOfRange)
    else
      Success((Texts(docs), Sources(docs)))
  }

  /** Position k of the text list and of the source list always come from the
      same surviving document, and the two lists have equal length. */
  lemma CandidatesAligned(scored: seq<(Doc, real)>, rerankMaxN: nat, rerank: Reranker)
    ensures Candidates(scored, rerankMaxN, rerank).Success? ==>
      var (texts, sources) := Candidates(scored, rerankMaxN, rerank).value;
      |texts| == |sources| &&
      forall k :: 0 <= k < |texts| ==> Doc(texts[k], sources[k]) in Survivors(scored)
  {
    var docs := Survivors(scored);
    if Candidates(scored, rerankMaxN, rerank).Success? {
      var (texts, sources) := Candidates(scored, rerankMaxN, rerank).value;
      forall k | 0 <= k < |texts| ensures Doc(texts[k], sources[k]) in docs {
        if |docs| > rerankMaxN {
          var indices := Relevant(docs, rerankMaxN, rerank);
          assert Doc(texts[k], sources[k]) == docs[indices[k]];
        } else {
          assert Doc(texts[k], sources[k]) == docs[k];
        }
      }
    }
  }

  /** When at most rerankMaxN documents survive the first stage the reranker is
      not consulted (any two rerankers give the same result) and the lists pass
      through in retrieval order. */
  lemma PassThroughWhenFew(scored: seq<(Doc, real)>, rerankMaxN: nat, rerank: Reranker, other: Reranker)
    requires |Survivors(scored)| <= rerankMaxN
    ensures Candidates(scored, rerankMaxN, rerank) == Candidates(scored, rerankMaxN, other)
    ensures Candidates(scored, rerankMaxN, rerank)
         == Success((Texts(Survivors(scored)), Sources(Survivors(scored))))
  {
  }

  /** When more than rerankMaxN documents survive, the result is exactly the
      reranker's results whose relevance clears the threshold, in the
      reranker's order, each text and source fetched by its original index; an
      index past the end is an error. */
  lemma RerankJoin(scored: seq<(Doc, real)>, rerankMaxN: nat, rerank: Reranker)
    requires |Survivors(scored)| > rerankMaxN
    ensures
      var docs := Survivors(scored);
      var indices := Relevant(docs, rerankMaxN, rerank);
      var r := Candidates(scored, rerankMaxN, rerank);
      (r.Success? <==> InRange(indices, |docs|)) &&
      (r.Success? ==>
        |r.value.0| == |indices| &&
        forall k :: 0 <= k < |indices| ==>
          r.value.0[k] == docs[indices[k]].pageContent && r.value.1[k] == docs[indices[k]].metadata)
  {
  }

  // ---------------------------------------------------------------------
  // Context packing (lines 55-72)

  /** The fixed texts of the block of lines 63-67 (a "\n" escape followed by
      a line break gives the two newlines before "Link" and "Text"). */
  const SOURCE_LABEL: string := "\n        Source: "
  const LINK_LABEL: string := "\n\n        Link: "
  const TEXT_LABEL: string := "\n\n        Text: "
  const BLOCK_END: string := " \n\n        "

  /** The block appended for one article: the source name, the file path and
      the text, each after its label, at fixed offsets, and the closing
      whitespace. */
  function ArticleBlock(a: Article): (block: string)
    ensures
      var name, path := a.source.detailsHrefName, a.source.rawFilepath;
      var link := |SOURCE_LABEL| + |name|;
      var text := link + |LINK_LABEL| + |path|;
      |block| == |SOURCE_LABEL| + |name| + |LINK_LABEL| + |path| + |TEXT_LABEL| + |a.text| + |BLOCK_END| &&
      block[..|SOURCE_LABEL|] == SOURCE_LABEL &&
      block[|SOURCE_LABEL|..link] == name &&
      block[link..link + |LINK_LABEL|] == LINK_LABEL &&
      block[link + |LINK_LABEL|..text] == path &&
      EndsWith(block, TEXT_LABEL + a.text + BLOCK_END)
  {
    var front := SOURCE_LABEL + a.source.detailsHrefName + LINK_LABEL + a.source.rawFilepath;
    var tail := TEXT_LABEL + a.text + BLOCK_END;
    Pieces(SOURCE_LABEL, a.source.detailsHrefName, LINK_LABEL, a.source.rawFilepath);
    assert (front + tail)[..|front|] == front;
    assert (front + tail)[|front|..] == tail;
    front + tail
  }

  /** A block fits when the prospective context has fewer tokens than the budget. */
  function TokenBudget(encode: Encoder, maxContextLen: int): (string, string) -> bool {
    (context, block) => |encode(context + block)| < maxContextLen
  }

  /** zip(texts, sources) */
  function Zip(texts: seq<string>, sources: seq<Source>): seq<Article> {
    var n := if |texts| <= |sources| then |texts| else |sources|;
    seq(n, k requires 0 <= k < n => Article(texts[k], sources[k]))
  }

  /** The articles whose blocks are appended. */
  function Chosen(articles: seq<Article>, maxContextLen: int, encode: Encoder): seq<Article> {
    GreedyPacking.Pack(TokenBudget(encode, maxContextLen), ArticleBlock, CONTEXT_HEADER, articles)
  }

  /** One reference per appended block, in order, with no deduplication. */
  function References(chosen: seq<Article>): seq<Source> {
    seq(|chosen|, k requires 0 <= k < |chosen| => chosen[k].source)
  }

  lemma ReferencesSnoc(chosen: seq<Article>, a: Article)
    ensures References(chosen + [a]) == References(chosen) + [a.source]
  {
  }

  /** One iteration of the packing loop, stated on the loop's variables. */
  lemma PackIteration(articles: seq<Article>, i: nat, maxContextLen: int, encode: Encoder, chosen: seq<Article>, context: string)
    requires i < |articles|
    requires chosen == Chosen(articles[..i], maxContextLen, encode)
    requires context == CONTEXT_HEADER + GreedyPacking.Concat(ArticleBlock, chosen)
    ensures
      var block := ArticleBlock(articles[i]);
      if |encode(context + block)| < maxContextLen then
        Chosen(articles[..i + 1], maxContextLen, encode) == chosen + [articles[i]] &&
        context + block == CONTEXT_HEADER + GreedyPacking.Concat(ArticleBlock, chosen + [articles[i]]) &&
        References(chosen + [articles[i]]) == References(chosen) + [articles[i].source]
      else
        Chosen(articles[..i + 1], maxContextLen, encode) == chosen
  {
    var block := ArticleBlock(articles[i]);
    var fits := TokenBudget(encode, maxContextLen);
    GreedyPacking.PackLoopStep(fits, ArticleBlock, CONTEXT_HEADER, articles, i, chosen, context);
    assert fits(context, block) == (|encode(context + block)| < maxContextLen);
    ReferencesSnoc(chosen, articles[i]);
  }

  /** Lines 60-72: append each block whose prospective context stays under the
      token budget, skipping the others, and record its source. */
  method PackContext(articles: seq<Article>, maxContextLen: int, encode: Encoder)
    returns (context: string, references: seq<Source>)
    ensures context == CONTEXT_HEADER + GreedyPacking.Concat(ArticleBlock, Chosen(articles, maxContextLen, encode))
    ensures references == References(Chosen(articles, maxContextLen, encode))
    ensures references != [] ==> |encode(context)| < maxContextLen
  {
    references := [];
    context := CONTEXT_HEADER;
    ghost var chosen: seq<Article> := [];
    for i := 0 to |articles|
      invariant chosen == Chosen(articles[..i], maxContextLen, encode)
      invariant context == CONTEXT_HEADER + GreedyPacking.Concat(ArticleBlock, chosen)
      invariant references == References(chosen)
    {
      var block := ArticleBlock(articles[i]);
      PackIteration(articles, i, maxContextLen, encode, chosen, context);
      if |encode(context + block)| < maxContextLen {
        context := context + block;
        references := references + [articles[i].source];
        chosen := chosen + [articles[i]];
      }
    }
    assert articles[..|articles|] == articles;
    GreedyPacking.PackWithin(TokenBudget(encode, maxContextLen), ArticleBlock,
                             s => |encode(s)| < maxContextLen, CONTEXT_HEADER, articles);
  }

  /** The (context, references) pair get_law_context_chunks returns: an error
      exactly when the two stages fail; otherwise the marker with no
      references, or a context that starts with the header and at most one
      reference per candidate. */
  function LawContext(scored: seq<(Doc, real)>, rerankMaxN: nat, maxContextLen: int, rerank: Reranker, encode: Encoder)
    : (r: Result<(string, seq<Source>), RetrievalError>)
    ensures r.Failure? <==> Candidates(scored, rerankMaxN, rerank).Failure?
    ensures r.Success? ==> r.value == (NO_ARTICLES, []) || StartsWith(r.value.0, CONTEXT_HEADER)
    ensures r.Success? ==> |r.value.1| <= |Candidates(scored, rerankMaxN, rerank).value.0|
  {
    match Candidates(scored, rerankMaxN, rerank)
    case Failure(e) => Failure(e)
    case Success((texts, sources)) =>
      if |texts| == 0 then Success((NO_ARTICLES, []))
      else
        var chosen := Chosen(Zip(texts, sources), maxContextLen, encode);
        Success((CONTEXT_HEADER + GreedyPacking.Concat(ArticleBlock, chosen), References(chosen)))
  }

  /** The whole of get_law_context_chunks, given the index's scored candidates. */
  method GetLawContextChunks(scored: seq<(Doc, real)>, rerankMaxN: nat, maxContextLen: int, rerank: Reranker, encode: Encoder)
    returns (r: Result<(string, seq<Source>), RetrievalError>)
    ensures r == LawContext(scored, rerankMaxN, maxContextLen, rerank, encode)
  {
    var docs := Above(scored, MIN_EMBEDDING_SIMILARITY_SCORE);
    var texts := Texts(docs);
    var sources := Sources(docs);
    if |texts| > rerankMaxN {
      var results := rerank(texts, rerankMaxN);
      var indices := RelevantIndices(results);
      if !InRange(indices, |texts|) {
        return Failure(RerankIndexOutOfRange);
      }
      texts, sources := Pick(texts, indices), Pick(sources, indices);
    }
    if |texts| == 0 {
      return Success((NO_ARTICLES, []));
    }
    var context, references := PackContext(Zip(texts, sources), maxContextLen, encode);
    return Success((context, references));
  }

  /** The marker context with no references comes back exactly when nothing
      survives the two stages. */
  lemma NoArticlesIff(scored: seq<(Doc, real)>, rerankMaxN: nat, maxContextLen: int, rerank: Reranker, encode: Encoder)
    ensures LawContext(scored, rerankMaxN, maxContextLen, rerank, encode) == Success((NO_ARTICLES, []))
        <==> Candidates(scored, rerankMaxN, rerank).Success? && Candidates(scored, rerankMaxN, rerank).value.0 == []
  {
    var c := Candidates(scored, rerankMaxN, rerank);
    if c.Success? && c.value.0 != [] {
      var chosen := Chosen(Zip(c.value.0, c.value.1), maxContextLen, encode);
      var ctx := CONTEXT_HEADER + GreedyPacking.Concat(ArticleBlock, chosen);
      assert ctx[0] == 'R' && NO_ARTICLES[0] == 'N';
    }
  }

  /** Once any block was appended, the final context has fewer tokens than the budget. */
  lemma ContextWithinBudget(scored: seq<(Doc, real)>, rerankMaxN: nat, maxContextLen: int, rerank: Reranker, encode: Encoder)
    ensures
      var r := LawContext(scored, rerankMaxN, maxContextLen, rerank, encode);
      r.Success? && r.value.1 != [] ==> |encode(r.value.0)| < maxContextLen
  {
    var c := Candidates(scored, rerankMaxN, rerank);
    if c.Success? && c.value.0 != [] {
      GreedyPacking.PackWithin(TokenBudget(encode, maxContextLen), ArticleBlock,
                               s => |encode(s)| < maxContextLen, CONTEXT_HEADER, Zip(c.value.0, c.value.1));
    }
  }

  /** On the packing path the context is the header followed by the blocks of
      an in-order subsequence of the candidates, and there is exactly one
      reference per appended block, in the same order. */
  lemma PackedShape(scored: seq<(Doc, real)>, rerankMaxN: nat, maxContextLen: int, rerank: Reranker, encode: Encoder)
    requires Candidates(scored, rerankMaxN, rerank).Success?
    requires Candidates(scored, rerankMaxN, rerank).value.0 != []
    ensures
      var (texts, sources) := Candidates(scored, rerankMaxN, rerank).value;
      var chosen := Chosen(Zip(texts, sources), maxContextLen, encode);
      var (context, references) := LawContext(scored, rerankMaxN, maxContextLen, rerank, encode).value;
      IsSubsequence(chosen, Zip(texts, sources)) &&
      StartsWith(context, CONTEXT_HEADER) &&
      context == CONTEXT_HEADER + GreedyPacking.Concat(ArticleBlock, chosen) &&
      |references| == |chosen| &&
      forall k :: 0 <= k < |chosen| ==> references[k] == chosen[k].source
  {
    var (texts, sources) := Candidates(scored, rerankMaxN, rerank).value;
    GreedyPacking.PackSubsequence(TokenBudget(encode, maxContextLen), ArticleBlock, CONTEXT_HEADER, Zip(texts, sources));
  }

  /** A character-counting tokenizer, for the two examples below. */
  function CharTokens(s: string): seq<Token> {
    seq(|s|, k => 0)
  }

  /** A block over the budget is skipped and the block after it is still
      tried and appended: the loop has no early exit. */
  lemma OversizedBlockSkipped()
    ensures
      var big := Article(seq(200, k => 'x'), Source("", ""));
      var small := Article("", Source("", ""));
      Chosen([big, small], 120, CharTokens) == [small]
  {
    var big := Article(seq(200, k => 'x'), Source("", ""));
    var small := Article("", Source("", ""));
    var fits := TokenBudget(CharTokens, 120);
    assert |CONTEXT_HEADER| == 43;
    assert |ArticleBlock(big)| == 260;
    assert |ArticleBlock(small)| == 60;
    assert !fits(CONTEXT_HEADER, ArticleBlock(big)) by {
      assert |CharTokens(CONTEXT_HEADER + ArticleBlock(big))| == 303;
    }
    assert fits(CONTEXT_HEADER, ArticleBlock(small)) by {
      assert |CharTokens(CONTEXT_HEADER + ArticleBlock(small))| == 103;
    }
    assert [big, small][1..] == [small];
    assert [small][1..] == [];
    calc {
      Chosen([big, small], 120, CharTokens);
      GreedyPacking.Pack(fits, ArticleBlock, CONTEXT_HEADER, [small]);
      [small] + GreedyPacking.Pack(fits, ArticleBlock, CONTEXT_HEADER + ArticleBlock(small), []);
    }
  }

  /** Two appended blocks with the same source give two equal references:
      references are not deduplicated. */
  lemma ReferencesNotDeduplicated()
    ensures
      var src := Source("ZDDV-1", "zddv.pdf");
      var scored := [(Doc("a", src), 0.9), (Doc("b", src), 0.8)];
      var r := LawContext(scored, 5, 1, (texts, n) => [], s => []);
      r.Success? && r.value.1 == [src, src]
  {
    var src := Source("ZDDV-1", "zddv.pdf");
    var scored: seq<(Doc, real)> := [(Doc("a", src), 0.9), (Doc("b", src), 0.8)];
    assert scored[1..][1..] == [];
    assert Above(scored[1..], MIN_EMBEDDING_SIMILARITY_SCORE) == [Doc("b", src)];
    assert Survivors(scored) == [Doc("a", src), Doc("b", src)];
    var arts := Zip(Texts(Survivors(scored)), Sources(Survivors(scored)));
    assert arts == [Article("a", src), Article("b", src)];
    assert arts[1..][1..] == [];
  }
}
