/**
 * The token budget guard of the analyzer service: a cheap estimate of the
 * number of tokens a request will cost, from character counts, and the
 * ceiling that is checked before any call to the language model.
 */
module TokenBudget {
  import opened Wrappers
  import opened VirtualProject
  import opened JsString

  /** Characters added for the fixed prompt instructions. */
  const PromptOverhead: nat := 500
  /** Largest accepted estimate, kept below the provider's 100k limit. */
  const MaxTokensInput: nat := 90000

  /** A file as read from disk: its display name and its text. */
  datatype FileContent = FileContent(name: string, content: string)

  /** The rejection raised when the estimate is over the ceiling. */
  datatype TokenLimitExceeded = TokenLimitExceeded(estimatedTokens: nat, maxTokens: nat)

  /**
   * `Math.ceil(n * 0.25)` for a character count `n`: the least token count
   * whose four-character allowance covers `n`. (For counts below 2^53 the
   * floating-point product is exact, so this is the source's value.)
   */
  function CeilQuarter(n: nat): (t: nat)
    ensures 4 * t >= n
    ensures t > 0 ==> 4 * (t - 1) < n
  {
    (n + 3) / 4
  }

  /** Total `length` of all names and contents in the batch, in UTF-16 code units. */
  function FileChars(files: seq<FileContent>): nat
  {
    if files == [] then 0
    else FileChars(files[..|files| - 1]) + Utf16Length(files[|files| - 1].name) + Utf16Length(files[|files| - 1].content)
  }

  /** The estimate for a batch of files: all characters plus the prompt overhead, four per token. */
  function EstimateFor(files: seq<FileContent>): nat
  {
    CeilQuarter(FileChars(files) + PromptOverhead)
  }

  /** An upload viewed as a named text, its name being `originalname`. */
  function AsFileContents(files: seq<UploadedFile>): (r: seq<FileContent>)
    ensures |r| == |files|
    ensures forall i :: 0 <= i < |files| ==> r[i] == FileContent(files[i].originalname, files[i].content)
  {
    seq(|files|, i requires 0 <= i < |files| => FileContent(files[i].originalname, files[i].content))
  }

  /** `estimateTokenCount`: the character total is accumulated file by file. */
  method EstimateTokenCount(files: seq<FileContent>) returns (tokens: nat)
    ensures tokens == EstimateFor(files)
  {
    var totalChars: nat := 0;
    var i := 0;
    while i < |files|
      invariant 0 <= i <= |files|
      invariant totalChars == FileChars(files[..i])
    {
      assert files[..i + 1][..i] == files[..i];
      totalChars := totalChars + Utf16Length(files[i].name);
      totalChars := totalChars + Utf16Length(files[i].content);
      i := i + 1;
    }
    assert files[..|files|] == files;
    totalChars := totalChars + PromptOverhead;
    tokens := CeilQuarter(totalChars);
  }

  /** `estimateTokenCountFromFiles`: the same estimate, over uploads, counting `originalname`. */
  method EstimateTokenCountFromFiles(files: seq<UploadedFile>) returns (tokens: nat)
    ensures tokens == EstimateFor(AsFileContents(files))
  {
    var totalChars: nat := 0;
    var i := 0;
    while i < |files|
      invariant 0 <= i <= |files|
      invariant totalChars == FileChars(AsFileContents(files[..i]))
    {
      assert AsFileContents(files[..i + 1])[..i] == AsFileContents(files[..i]);
      totalChars := totalChars + Utf16Length(files[i].originalname);
      totalChars := totalChars + Utf16Length(files[i].content);
      i := i + 1;
    }
    assert files[..|files|] == files;
    totalChars := totalChars + PromptOverhead;
    tokens := CeilQuarter(totalChars);
  }

  /** `estimateTokenCountByText`: even the empty text costs the 125 tokens of the overhead. */
  function EstimateTokenCountByText(content: string): (tokens: nat)
    ensures tokens >= 125
    ensures 4 * tokens >= Utf16Length(content) + PromptOverhead > 4 * tokens - 4
    ensures tokens == EstimateFor([FileContent("", content)])
  {
    var single := [FileContent("", content)];
    assert single[..0] == [];
    assert FileChars(single) == FileChars([]) + Utf16Length("") + Utf16Length(content);
    CeilQuarter(Utf16Length(content) + PromptOverhead)
  }

  /** The guard: `None` lets the request through, `Some` carries the rejection. */
  function CheckTokenLimit(estimatedTokens: nat): (r: Option<TokenLimitExceeded>)
    ensures r.Some? <==> estimatedTokens > MaxTokensInput
    ensures r.Some? ==> r.value.estimatedTokens == estimatedTokens && r.value.maxTokens == 90000
  {
    if estimatedTokens > MaxTokensInput then Some(TokenLimitExceeded(estimatedTokens, MaxTokensInput)) else None
  }

  lemma {:induction false} FileCharsAppend(a: seq<FileContent>, b: seq<FileContent>)
    ensures FileChars(a + b) == FileChars(a) + FileChars(b)
  {
    if b != [] {
      var init := b[..|b| - 1];
      assert (a + b)[..|a + b| - 1] == a + init;
      FileCharsAppend(a, init);
    } else {
      assert a + b == a;
    }
  }

  /** Adding a file to the batch never lowers the estimate. */
  lemma AddingFileNeverLowersEstimate(files: seq<FileContent>, f: FileContent)
    ensures EstimateFor(files + [f]) >= EstimateFor(files)
  {
    assert (files + [f])[..|files|] == files;
  }

  /**
   * Merging two batches: the estimate is at least either one's, and is the
   * sum of the two less one shared overhead (125 tokens), within one token of rounding.
   */
  lemma MergedEstimate(a: seq<FileContent>, b: seq<FileContent>)
    ensures EstimateFor(a + b) >= EstimateFor(a) && EstimateFor(a + b) >= EstimateFor(b)
    ensures EstimateFor(a) + EstimateFor(b) - 126 <= EstimateFor(a + b) <= EstimateFor(a) + EstimateFor(b) - 125
  {
    FileCharsAppend(a, b);
  }

  /** The guard lets a batch through exactly when it holds at most 359500 code units. */
  lemma GuardAdmitsExactly(files: seq<FileContent>)
    ensures CheckTokenLimit(EstimateFor(files)).None? <==> FileChars(files) <= 359500
  {
  }

  /** The same threshold for a single context text. */
  lemma TextGuardAdmitsExactly(content: string)
    ensures CheckTokenLimit(EstimateTokenCountByText(content)).None? <==> Utf16Length(content) <= 359500
  {
  }

  /**
   * `length` counts code units, so a context made only of characters beyond
   * U+FFFF passes the guard exactly when it has at most 179750 of them.
   */
  lemma AstralTextGuard(content: string)
    requires forall i :: 0 <= i < |content| ==> content[i] as int > 0xFFFF
    ensures CheckTokenLimit(EstimateTokenCountByText(content)).None? <==> |content| <= 179750
  {
    AstralLength(content);
    TextGuardAdmitsExactly(content);
  }
}
