/** The text-splitting part of src/database/vector_store.py: the token-count
    check, the sliding-window splitter, and the metadata list built for the
    chunks of one law.

    The tokenizer is a pair of functions: `encode`, which fails (None) where
    the tokenizer raises, and `decode`. Reading the law's file and writing to
    the vector index are not modelled. */
module VectorStore {
  import opened Wrappers

  type Token = int
  type Encoder = string -> Option<seq<Token>>
  type Decoder = seq<Token> -> string

  /** Why split_long_text raises: the tokenizer failed, or the stride
      max_tokens - overlap_tokens is zero (range() refuses a zero step). */
  datatype SplitError = EncodeFailed | ZeroStride

  /** The half-open token range [start, end) of one chunk. */
  datatype Window = Window(start: nat, end: nat)

  /** Metadata stored with a chunk: [law, i]. */
  datatype ChunkMetadata = ChunkMetadata(law: string, index: nat)

  function Min(a: int, b: int): int {
    if a <= b then a else b
  }

  /** Lines 10-22: true when the text encodes to at most maxTokens tokens;
      false when it encodes to more, and false when encoding fails. */
  function CheckMaxTokens(text: string, maxTokens: int, encode: Encoder): (ok: bool)
    ensures ok ==> encode(text).Some? && |encode(text).value| <= maxTokens
    ensures encode(text).Some? && |encode(text).value| <= maxTokens ==> ok
  {
    match encode(text)
    case None => false
    case Some(tokens) => if |tokens| > maxTokens then false else true
  }

  /** The windows range(from, n, stride) produces, each cut at min(i + maxTokens, n). */
  function WindowsFrom(n: nat, maxTokens: nat, stride: nat, from: nat): (ws: seq<Window>)
    requires stride > 0
    ensures forall j :: 0 <= j < |ws| ==>
      from <= ws[j].start < n && ws[j].start <= ws[j].end <= n && ws[j].end - ws[j].start <= maxTokens
    decreases n - from
  {
    if from >= n then []
    else [Window(from, Min(from + maxTokens, n))] + WindowsFrom(n, maxTokens, stride, from + stride)
  }

  /** Lines 25-35: a text shorter than maxTokens tokens comes back whole;
      otherwise it is cut into windows of maxTokens tokens taken every
      maxTokens - overlapTokens tokens, each decoded back to text. */
  method SplitLongText(text: string, maxTokens: nat, overlapTokens: int, encode: Encoder, decode: Decoder)
    returns (r: Result<seq<string>, SplitError>)
    ensures encode(text).None? ==> r == Failure(EncodeFailed)
    ensures encode(text).Some? && |encode(text).value| < maxTokens ==> r == Success([text])
    ensures encode(text).Some? && |encode(text).value| >= maxTokens ==>
      var tokens := encode(text).value;
      var stride := maxTokens - overlapTokens;
      (stride == 0 ==> r == Failure(ZeroStride)) &&
      (stride < 0 ==> r == Success([])) &&
      (stride > 0 ==>
        var ws := WindowsFrom(|tokens|, maxTokens, stride, 0);
        r.Success? && |r.value| == |ws| &&
        forall j :: 0 <= j < |ws| ==> r.value[j] == decode(tokens[ws[j].start..ws[j].end]))
  {
    if encode(text).None? {
      return Failure(EncodeFailed);
    }
    var tokens := encode(text).value;
    var n := |tokens|;
    if n < maxTokens {
      return Success([text]);
    }
    var stride := maxTokens - overlapTokens;
    if stride == 0 {
      return Failure(ZeroStride);
    }
    if stride < 0 {
      // range(0, n, negative step) is empty
      return Success([]);
    }
    var chunks := DecodeWindows(tokens, maxTokens, stride, decode);
    return Success(chunks);
  }

  /** Lines 31-34: the loop over range(0, n, stride), decoding each window. */
  method DecodeWindows(tokens: seq<Token>, maxTokens: nat, stride: nat, decode: Decoder) returns (chunks: seq<string>)
    requires stride > 0
    ensures var ws := WindowsFrom(|tokens|, maxTokens, stride, 0);
            |chunks| == |ws| &&
            forall j :: 0 <= j < |ws| ==> chunks[j] == decode(tokens[ws[j].start..ws[j].end])
  {
    var n := |tokens|;
    ghost var ws := WindowsFrom(n, maxTokens, stride, 0);
    chunks := [];
    var i: nat := 0;
    while i < n
      invariant |chunks| <= |ws|
      invariant ws[|chunks|..] == WindowsFrom(n, maxTokens, stride, i)
      invariant forall j :: 0 <= j < |chunks| ==> chunks[j] == decode(tokens[ws[j].start..ws[j].end])
      decreases n - i
    {
      WindowsStep(ws, |chunks|, n, maxTokens, stride, i);
      chunks := chunks + [decode(tokens[i..Min(i + maxTokens, n)])];
      i := i + stride;
    }
  }

  /** One loop step of split_long_text: the next window starts at i and the
      rest follow from i + stride. */
  lemma WindowsStep(ws: seq<Window>, done: nat, n: nat, maxTokens: nat, stride: nat, i: nat)
    requires stride > 0 && i < n && done <= |ws|
    requires ws[done..] == WindowsFrom(n, maxTokens, stride, i)
    ensures done < |ws| && ws[done] == Window(i, Min(i + maxTokens, n))
    ensures ws[done + 1..] == WindowsFrom(n, maxTokens, stride, i + stride)
  {
    assert ws[done..][0] == ws[done];
    assert ws[done + 1..] == ws[done..][1..];
  }

  /** Window j starts at j * stride and ends at min(j * stride + maxTokens, n). */
  lemma {:induction false} WindowAt(n: nat, maxTokens: nat, stride: nat, from: nat, j: nat)
    requires stride > 0
    requires j < |WindowsFrom(n, maxTokens, stride, from)|
    ensures WindowsFrom(n, maxTokens, stride, from)[j]
         == Window(from + j * stride, Min(from + j * stride + maxTokens, n))
    decreases n - from
  {
    if j > 0 {
      WindowAt(n, maxTokens, stride, from + stride, j - 1);
      assert from + stride + (j - 1) * stride == from + j * stride;
    }
  }

  /** There are ceil(n / stride) windows: the last one starts before n and the
      next start would be at or past n. */
  lemma {:induction false} WindowCount(n: nat, maxTokens: nat, stride: nat, from: nat)
    requires stride > 0 && from <= n
    ensures var count := |WindowsFrom(n, maxTokens, stride, from)|;
            from + (count - 1) * stride < n <= from + count * stride || (from == n && count == 0)
    decreases n - from
  {
    var ws := WindowsFrom(n, maxTokens, stride, from);
    if from < n {
      if from + stride < n {
        WindowCount(n, maxTokens, stride, from + stride);
        var c := |WindowsFrom(n, maxTokens, stride, from + stride)|;
        assert |ws| == c + 1;
        assert from + stride + (c - 1) * stride == from + (c + 1 - 1) * stride;
        assert from + stride + c * stride == from + (c + 1) * stride;
      } else {
        assert WindowsFrom(n, maxTokens, stride, from + stride) == [];
        assert |ws| == 1;
      }
    }
  }

  /** The count in closed form: (n + stride - 1) / stride windows for n tokens. */
  lemma WindowCountCeil(n: nat, maxTokens: nat, stride: nat)
    requires stride > 0
    ensures |WindowsFrom(n, maxTokens, stride, 0)| == (n + stride - 1) / stride
  {
    var c := |WindowsFrom(n, maxTokens, stride, 0)|;
    WindowCount(n, maxTokens, stride, 0);
    if n > 0 {
      assert (c - 1) * stride < n <= c * stride;
      assert c * stride <= n + stride - 1 < (c + 1) * stride;
      DivBetween(n + stride - 1, stride, c);
    }
  }

  lemma DivBetween(x: nat, d: nat, q: nat)
    requires d > 0 && q * d <= x < (q + 1) * d
    ensures x / d == q
  {
    var q', r' := x / d, x % d;
    assert x == q' * d + r' && 0 <= r' < d;
    if q' < q {
      MulMonotone(q' + 1, q, d);
    } else if q' > q {
      MulMonotone(q + 1, q', d);
    }
  }

  lemma MulMonotone(a: nat, b: nat, d: nat)
    requires a <= b
    ensures a * d <= b * d
  {
    assert b * d == a * d + (b - a) * d;
  }

  /** The windows cover the whole token sequence: the first starts at 0, and
      when the stride does not exceed maxTokens the last ends at n. */
  lemma WindowsCoverEnds(n: nat, maxTokens: nat, stride: nat)
    requires stride > 0 && n > 0
    ensures var ws := WindowsFrom(n, maxTokens, stride, 0);
            |ws| > 0 && ws[0].start == 0 &&
            (stride <= maxTokens ==> ws[|ws| - 1].end == n)
  {
    var ws := WindowsFrom(n, maxTokens, stride, 0);
    var c := |ws|;
    WindowCount(n, maxTokens, stride, 0);
    WindowAt(n, maxTokens, stride, 0, c - 1);
    assert (c - 1) * stride + stride == c * stride;
  }

  /** When the stride does not exceed maxTokens every token lies in some window. */
  lemma {:induction false} TokenCovered(n: nat, maxTokens: nat, stride: nat, from: nat, t: nat) returns (j: nat)
    requires 0 < stride <= maxTokens
    requires from <= t < n
    ensures var ws := WindowsFrom(n, maxTokens, stride, from);
            j < |ws| && ws[j].start <= t < ws[j].end
    decreases n - from
  {
    if t < from + stride {
      j := 0;
    } else {
      var j' := TokenCovered(n, maxTokens, stride, from + stride, t);
      j := j' + 1;
    }
  }

  /** Consecutive windows start stride apart, and a full-length window
      overlaps the next one by exactly overlapTokens tokens. */
  lemma ConsecutiveOverlap(n: nat, maxTokens: nat, overlapTokens: int, j: nat)
    requires maxTokens - overlapTokens > 0
    requires j + 1 < |WindowsFrom(n, maxTokens, maxTokens - overlapTokens, 0)|
    ensures var ws := WindowsFrom(n, maxTokens, maxTokens - overlapTokens, 0);
            ws[j + 1].start == ws[j].start + (maxTokens - overlapTokens) &&
            (ws[j].end - ws[j].start == maxTokens ==> ws[j].end - ws[j + 1].start == overlapTokens)
  {
    var stride := maxTokens - overlapTokens;
    WindowAt(n, maxTokens, stride, 0, j);
    WindowAt(n, maxTokens, stride, 0, j + 1);
    assert (j + 1) * stride == j * stride + stride;
  }

  /** When the tokenizer reads back what it decodes, every chunk the splitter
      produces passes the token-count check. A byte-pair tokenizer does not
      meet that premise in general (a window cut inside a multi-byte
      character decodes with a replacement character, and re-encoding text
      need not give the same tokens back), so this says nothing about chunks
      of such a tokenizer. */
  lemma ChunksPassCheck(tokens: seq<Token>, maxTokens: nat, stride: nat, encode: Encoder, decode: Decoder, j: nat)
    requires stride > 0
    requires forall ts :: encode(decode(ts)) == Some(ts)
    requires j < |WindowsFrom(|tokens|, maxTokens, stride, 0)|
    ensures var w := WindowsFrom(|tokens|, maxTokens, stride, 0)[j];
            CheckMaxTokens(decode(tokens[w.start..w.end]), maxTokens, encode)
  {
    var w := WindowsFrom(|tokens|, maxTokens, stride, 0)[j];
    assert encode(decode(tokens[w.start..w.end])) == Some(tokens[w.start..w.end]);
  }

  /** Line 49: one [law, i] entry per chunk, i counting the chunks in order. */
  function Metadatas(law: string, chunks: seq<string>): (ms: seq<ChunkMetadata>)
    ensures |ms| == |chunks|
    ensures forall i :: 0 <= i < |ms| ==> ms[i].law == law && ms[i].index == i
  {
    seq(|chunks|, i requires 0 <= i < |chunks| => ChunkMetadata(law, i))
  }

  /** No two chunks of a law share a metadata entry. */
  lemma MetadatasDistinct(law: string, chunks: seq<string>, i: nat, j: nat)
    requires i < j < |chunks|
    ensures Metadatas(law, chunks)[i] != Metadatas(law, chunks)[j]
  {
  }
}
