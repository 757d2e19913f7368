# taxGPT backend: the retrieval, packing and text-shaping core in Dafny

The backend answers questions about Slovenian tax law. It retrieves law
articles from a vector index, optionally reranks them, packs them into a
context under a token budget, wraps the user's question and the context into
a prompt, and streams the completion back to the client. Around that
pipeline sit a token-window text splitter used when the index is built, and a
scraper that classifies the links on the tax authority's site.

This project models the string and sequence logic of those pieces. Each
module follows one source file:

- `LawRetrieval` covers `get_law_context_chunks` (app/api/retrieval.py):
  - a similarity threshold filter;
  - a reranking stage that runs only when more than `rerank_max_n` documents survive, with an index-based re-join of texts and sources;
  - the "No relevant law articles found" marker;
  - greedy packing of `Source/Link/Text` blocks under a token budget.
- `ArticleContext` covers `get_context` (src/rag/retrieval.py), the older packer, which counts characters.
- `GreedyPacking` holds the packing rule both packers share. Candidates are walked in order. A block is appended when it fits. A block that does not fit is skipped, and the walk goes on.
- `VectorStore` covers `check_max_tokens`, `split_long_text` and the per-chunk metadata list (src/database/vector_store.py).
- `OpenAIInterface` covers `add_context_to_messages`, `process_chunk` and the `get_openai_stream` generator (app/api/openai_interface.py).
- `ChatApi` covers `add_context_to_message` (src/api/app.py).
- `RawSources` covers the scraper's string logic (src/scraper/raw_sources_list.py):
  - the href/url columns;
  - fragment trimming;
  - `get_file_type`;
  - the `file_url` rewrite.
- `Strings` and `Wrappers` are shared helpers: prefixes, suffixes, split/join, subsequences, `Option` and `Result`.

Outside services become inputs or functions:

- the vector index's scored results become a sequence of `(Doc, score)` pairs;
- the reranker becomes a function from (texts, top_n) to `(index, relevance)` results;
- the tokenizer becomes `encode`/`decode` functions;
- the context service and the completion service of the stream become functions too.

Errors the Python code raises are modelled as `Result` failures:

- a reranker index past the end of the documents;
- a tokenizer failure in `split_long_text`;
- a zero stride in `split_long_text`, which `range()` rejects.

A chunk without choices ends the stream early, with a flag.

A reader might expect the pipeline to deduplicate references, stop packing at
the first block over the budget, frame the stream as `data: ` events, fall back
to the unranked list when reranking fails, and sort the reranked list by
relevance. The code does none of these, and the model follows the code:

- References are not deduplicated. Two packed blocks with the same source give two equal references (`LawRetrieval.ReferencesNotDeduplicated`).
- Packing does not stop at the first block over the budget. That block is skipped, and later blocks are still tried (`LawRetrieval.OversizedBlockSkipped`).
- The stream yields the raw chunk texts and a bare `"[DONE]"`, with no `data: ` framing.
- There is no fallback when reranking fails.
- The reranked list is kept in the order the reranker returns it. The code does not sort it.

## Model

| member | source | states |
|---|---|---|
| LawRetrieval.AboveWitness | app/api/retrieval.py:26 | every document kept by the first stage came with a score strictly above the threshold |
| LawRetrieval.AboveComplete | app/api/retrieval.py:26 | every document scored strictly above the threshold is kept |
| LawRetrieval.AboveSubsequence | app/api/retrieval.py:26-28 | the survivors keep their retrieval order (an in-order subsequence of the candidates) |
| LawRetrieval.AboveAppend | app/api/retrieval.py:26 | the filter decides each candidate on its own: filtering a concatenation is the concatenation of the filtered parts |
| LawRetrieval.RelevantIndices | app/api/retrieval.py:45-49 | the loop collects exactly the reranker indices whose relevance is strictly above 0.5, in the reranker's order |
| LawRetrieval.Candidates | app/api/retrieval.py:24-51 | the texts and sources after both stages are two lists of equal length, and the out-of-range error only arises on the reranking path (more than rerank_max_n survivors) |
| LawRetrieval.CandidatesAligned | app/api/retrieval.py:27-28 | after both stages, the text list and the source list have equal length, and position k of each comes from the same surviving document |
| LawRetrieval.PassThroughWhenFew | app/api/retrieval.py:32 | with at most rerank_max_n survivors, the reranker is not consulted (any two rerankers give the same result) and texts and sources pass through in retrieval order |
| LawRetrieval.RerankJoin | app/api/retrieval.py:45-51 | with more survivors, the result is exactly the reranker results above 0.5, in reranker order, each text and source fetched by its original index; the result is an error exactly when an index is out of range |
| LawRetrieval.ArticleBlock | app/api/retrieval.py:63-67 | the block holds the "Source: " label, the source name, the "Link: " label and the file path at fixed offsets, and ends with the "Text: " label, the article text and the closing whitespace |
| LawRetrieval.PackIteration | app/api/retrieval.py:62-71 | one loop step: the block is appended, with its source recorded, exactly when the prospective context has fewer tokens than the budget |
| LawRetrieval.PackContext | app/api/retrieval.py:60-72 | the loop builds the header followed by the blocks of the chosen articles, and one reference per chosen article; when any reference was recorded, the context has fewer tokens than the budget |
| LawRetrieval.LawContext | app/api/retrieval.py:14-72 | the result is an error exactly when the two stages fail; otherwise it is the marker with no references or a context starting with "Retrieved relevant context from the law: \n\n", with at most one reference per candidate |
| LawRetrieval.GetLawContextChunks | app/api/retrieval.py:14-72 | the whole function returns the (context, references) pair of the filter, rerank and pack stages, or the out-of-range error |
| LawRetrieval.NoArticlesIff | app/api/retrieval.py:55-58 | the result is ("No relevant law articles found", []) if and only if no article survives the two stages |
| LawRetrieval.ContextWithinBudget | app/api/retrieval.py:68-71 | when any block was appended, the final context's token count is below the budget |
| LawRetrieval.PackedShape | app/api/retrieval.py:61-71 | on the packing path, the context starts with the header and is the header plus the blocks of an in-order subsequence of the candidates; there is exactly one reference per appended block, in the same order |
| LawRetrieval.OversizedBlockSkipped | app/api/retrieval.py:62-71 | a block over the budget is skipped and a later block that fits is still appended |
| LawRetrieval.ReferencesNotDeduplicated | app/api/retrieval.py:71 | two appended blocks with the same source give two equal references |
| GreedyPacking.PackAppend | app/api/retrieval.py:62-71 | packing p + q is packing p, then packing q from the context p left behind |
| GreedyPacking.PackStep | app/api/retrieval.py:68-71 | item i is appended exactly when its block fits after the blocks chosen from the items before it |
| GreedyPacking.PackLoopStep | src/rag/retrieval.py:12-14 | for a loop that keeps context = start + blocks(chosen), the next item is kept and its block appended exactly when it fits |
| GreedyPacking.PackSubsequence | app/api/retrieval.py:62-71 | the chosen items are an in-order subsequence of the candidates |
| GreedyPacking.PackWithin | app/api/retrieval.py:68-70 | when each append is guarded by a test that implies a bound on the new context, the final context meets the bound once anything was appended |
| GreedyPacking.PackEmptyIff | src/rag/retrieval.py:12-14 | nothing is chosen if and only if no single block fits after the starting context |
| GreedyPacking.PackPrefixGrows | src/rag/retrieval.py:12-14 | the context after i items is a prefix of the context after any j >= i items |
| ArticleContext.Line | src/rag/retrieval.py:13-14 | the line is the rendered metadata, ": ", the article text and "  #### \n", at fixed offsets; its length is the two inputs' lengths plus 10 |
| ArticleContext.PackIteration | src/rag/retrieval.py:13-14 | one loop step: the line is appended exactly when the current length plus the line's length is below the budget |
| ArticleContext.GetContext | src/rag/retrieval.py:11-15 | the context is the header followed by the lines of the chosen hits, starts with "Relevant law articles: \n ", and is either the bare header or shorter than the budget |
| ArticleContext.ConcatEmptyIff | src/rag/retrieval.py:13-14 | the appended text is empty exactly when no hit was chosen, since every line is non-empty |
| ArticleContext.HeaderOnlyIff | src/rag/retrieval.py:11-15 | the context equals the header exactly when no single line fits after the header |
| ArticleContext.ChosenInOrder | src/rag/retrieval.py:12-14 | the appended lines come from an in-order subsequence of the hits |
| ArticleContext.ContextGrows | src/rag/retrieval.py:12-14 | the context never shrinks across iterations; each later context extends an earlier one by a suffix |
| VectorStore.CheckMaxTokens | src/database/vector_store.py:10-22 | true if and only if the text encodes and has at most max_tokens tokens; false when encoding fails |
| VectorStore.WindowsFrom | src/database/vector_store.py:33-34 | every window starts inside the token sequence, ends no later than n, and spans at most max_tokens tokens |
| VectorStore.SplitLongText | src/database/vector_store.py:25-35 | a text with fewer than max_tokens tokens comes back as [text]; otherwise chunk j is the decoded window j; zero stride and encoder failure are errors, and a negative stride gives [] |
| VectorStore.DecodeWindows | src/database/vector_store.py:32-34 | the strided loop yields one decoded chunk per window, in window order |
| VectorStore.WindowsStep | src/database/vector_store.py:33-34 | at loop index i < n, the next window is [i, min(i + max_tokens, n)) and the rest start at i + stride |
| VectorStore.WindowAt | src/database/vector_store.py:33-34 | window j is [j*s, min(j*s + max_tokens, n)) for stride s |
| VectorStore.WindowCount | src/database/vector_store.py:33 | the last window starts before n and the next start would be at or past n |
| VectorStore.WindowCountCeil | src/database/vector_store.py:33 | there are exactly (n + s - 1) / s windows, that is ceil(n / s) |
| VectorStore.WindowsCoverEnds | src/database/vector_store.py:33-34 | the first window starts at 0, and when the stride is at most max_tokens the last window ends at n |
| VectorStore.TokenCovered | src/database/vector_store.py:33-34 | when the stride is at most max_tokens, every token lies in some window |
| VectorStore.ConsecutiveOverlap | src/database/vector_store.py:33-34 | consecutive windows start a stride apart, and a full-length window overlaps the next by exactly overlap_tokens tokens |
| VectorStore.ChunksPassCheck | src/database/vector_store.py:14-34 | when encode reads back what decode writes, every chunk passes check_max_tokens |
| VectorStore.Metadatas | src/database/vector_store.py:49 | one [law, i] entry per chunk, with i running over the chunk positions in order |
| VectorStore.MetadatasDistinct | src/database/vector_store.py:49 | no two chunks of a law share a metadata entry |
| OpenAIInterface.EnrichedLayout | app/api/openai_interface.py:49-55 | the enriched message holds the question prefix, the latest message, the context, the repeat prefix and the latest message again, in that order, and ends with "Answer: Sources used: " |
| OpenAIInterface.AddContextToMessages | app/api/openai_interface.py:47-57 | same length as the input, every message but the last unchanged, and the last replaced by the enriched "user" message built from its content |
| OpenAIInterface.ProcessChunk | app/api/openai_interface.py:40-44 | the first choice's text when it is non-empty, otherwise "\n"; never the empty string |
| OpenAIInterface.FirstWithoutChoices | app/api/openai_interface.py:35-36 | the position of the first chunk that would make process_chunk raise, or the chunk count |
| OpenAIInterface.UpstreamQueryIsLastMessage | app/api/openai_interface.py:30-34 | the context service is consulted only with the last message's content, k and max_context_length: two services that agree there give the same upstream chunks |
| OpenAIInterface.GetOpenAIStream | app/api/openai_interface.py:22-37 | the retrieval query is the last message's content; one piece per upstream chunk, in order, then one "[DONE]"; the stream stops with no "[DONE]" at a chunk without choices, and raises at once on an empty conversation |
| OpenAIInterface.DoneOnlyLast | app/api/openai_interface.py:35-37 | when no chunk's text is "[DONE]", the sentinel appears exactly once, as the last piece |
| OpenAIInterface.StreamReconstructsText | app/api/openai_interface.py:35-44 | when every chunk carries text, the streamed pieces join up to the completion's full text |
| ChatApi.AddContextToMessage | src/api/app.py:82-86 | the prompt is the message, the context introduction, the context, the closing instruction and the literal "{message}", at fixed positions; its length is the input lengths plus a constant |
| ChatApi.PlaceholderNotFilled | src/api/app.py:85 | a non-empty message that does not end in "}" is never repeated at the end of the prompt |
| ChatApi.AddContextToMessageIntended | src/api/app.py:82-86 | the corrected template has the same pieces and ends with the closing instruction followed by the message |
| RawSources.Url | src/scraper/raw_sources_list.py:89 | an absolute href (one starting with "http") is kept as it is, and any other href becomes the site root "https://www.fu.gov.si" followed by the href; so the url always starts with "http" and ends with the href |
| RawSources.UrlIdempotent | src/scraper/raw_sources_list.py:89 | resolving a url twice changes nothing |
| RawSources.HrefIsFileIff | src/scraper/raw_sources_list.py:90-97 | a url is flagged as a file if and only if it ends with one of .pdf, .docx, .doc, .xlsx, .xls, .zip |
| RawSources.ClassifyHref | src/scraper/raw_sources_list.py:88-100 | is_final_source is "starts with http"; url is the resolved href; href_is_file is the file-suffix test of that url; the type is "file" exactly for absolute file links, "website_source" for other absolute links, "website_details" for all relative links; the href_type column holds the label "file", "website_source" or "website_details" chosen from is_final_source and href_is_file as lines 98-100 do |
| RawSources.RelativeFileIsDetails | src/scraper/raw_sources_list.py:90-100 | a site-relative link to a PDF is flagged as a file but typed "website_details" |
| RawSources.TrimFragmentSpec | src/scraper/raw_sources_list.py:120-124 | the url is unchanged unless its last "/"-segment starts with "#"; then that segment and the "/" before it are dropped |
| RawSources.FirstSuffixIndex | src/scraper/raw_sources_list.py:228-230 | the position of the first extension, in list order, that the text ends with; no earlier extension matches |
| RawSources.FileType | src/scraper/raw_sources_list.py:227-237 | the file type is one of FILE_EXTENSIONS, "website", or nothing |
| RawSources.GetFileType | src/scraper/raw_sources_list.py:227-237 | the search loop with early return computes the file type of str(href) |
| RawSources.FileTypeCases | src/scraper/raw_sources_list.py:227-237 | an extension is returned only when it is the first one in list order that matches; otherwise "website" if and only if the text starts with "/" or "http", and None if and only if it starts with neither |
| RawSources.FileUrlHasFileType | src/scraper/raw_sources_list.py:90-97 | an absolute url flagged as a file always gets a file type from get_file_type, and that type is "website" exactly for ".xls" urls |
| RawSources.XlsIsFileButWebsite | src/scraper/raw_sources_list.py:12 | a resolved ".xls" link is flagged as a file, yet get_file_type calls it "website", since FILE_EXTENSIONS has no "xls" |
| RawSources.FileTypeExamples | src/scraper/raw_sources_list.py:12 | the extension is matched without a dot ("/navodila-doc" is a doc file), and a missing cell has no file type |
| RawSources.PosixJoin | src/scraper/raw_sources_list.py:246 | os.path.join returns the second part when it starts with "/"; otherwise the result starts with the first part, ends with the second, and has one "/" between them when the first part does not already end with one |
| RawSources.RewriteFileUrlUnchanged | src/scraper/raw_sources_list.py:245-248 | under os.path.join's rule that an absolute second part discards the first, every cell comes back unchanged |
| RawSources.RewriteFileUrls | src/scraper/raw_sources_list.py:243-249 | the list keeps its length and order, and as written equals its input |
| RawSources.AbsoluteFileUrl | src/scraper/raw_sources_list.py:246 | the corrected rewrite: a site-relative url gets the site root in front, and every other cell is kept |

## Left out

- The vector index and its similarity search are not modelled. Their scored results are an input. Scores are only compared with the 0.5 thresholds, as reals.
- The reranking service is not modelled. It is a function; that it returns at most top_n results, sorted by relevance, is neither assumed nor used.
- Tokenizer internals are not modelled. In `LawRetrieval` the tokenizer is a total function, and only token counts are used. In `VectorStore` it may fail (`None`), because `check_max_tokens` catches encoding errors.
- `ArticleContext.Line` takes the rendered `str()` of a document's metadata as a string input. Python's dict rendering is not modelled.
- `OpenAIInterface.GetOpenAIStream` models the generator as a finished sequence of pieces, not as lazy, suspendable output. A client that stops consuming is not modelled.
- `VectorStore.SplitLongText`: `max_tokens` is a natural number. Python's slicing with negative indices, reachable only with a negative `max_tokens`, is not modelled.
- An empty conversation makes `messages[-1]` raise. `OpenAIInterface.GetOpenAIStream` reports this as a raised stream with no pieces. The pure helper `OpenAIInterface.AddContextToMessages` requires a non-empty list instead.
- Not modelled, as I/O: the HTTP routes, chat-history storage, and the completion call of `src/api/app.py` and `app/app.py`.
- Not modelled, as I/O: the Selenium and BeautifulSoup scraping, the pandas merges and CSV writes, file reads and index writes.
- Document metadata is modelled as `LawRetrieval.Source`, which holds only the two keys the packer reads (`details_href_name`, `raw_filepath`). In the source it is the whole metadata dict. Reading a missing key raises `KeyError` (app/api/retrieval.py:64-65), and that error is not modelled. The dict's other keys, which `references` returns along with the two read ones, are not modelled either.
- Default arguments are not modelled; every parameter is explicit. The defaults are:
  - `retrieve_n=25`, `rerank_max_n=5`, `max_context_len=4096` (app/api/retrieval.py:16-18);
  - `k=10`, `max_context_len=2048` (src/rag/retrieval.py:5);
  - `max_tokens=2048` (src/database/vector_store.py:10);
  - `max_tokens=2048`, `overlap_tokens=512` (src/database/vector_store.py:25).
- VectorStore.ChunksPassCheck: assumes that encoding a decoded window gives the window's tokens back. A byte-pair tokenizer does not guarantee this, so the lemma does not show that real chunks pass `check_max_tokens`.
- Logging and `print` calls are left out.
- `add_text_to_vector_store` is modelled only through its metadata list (line 49). Reading the file and adding the texts to the index are I/O.

## Findings

| source | as written | input that shows it | evidently intended | confidence | as-written member | corrected member |
|---|---|---|---|---|---|---|
| src/api/app.py:85 | the second literal of the prompt is not an f-string, so the prompt ends with the nine characters "{message}" | any message not ending in "}", e.g. "Koliko?" | the prompt ends with the closing instruction followed by the message | high, not executed | ChatApi.PlaceholderNotFilled | ChatApi.AddContextToMessageIntended |
| src/scraper/raw_sources_list.py:246 | os.path.join("https://www.fu.gov.si/", url) with url starting with "/" returns url itself, so the rewrite changes nothing | "/doc/navodilo.pdf" stays "/doc/navodilo.pdf" | "https://www.fu.gov.si/doc/navodilo.pdf" | high, not executed | RawSources.RewriteFileUrlUnchanged | RawSources.AbsoluteFileUrl |
