/** pack_context of app/retrieval/context.py: search results are packed under a token budget. */
module ContextPacking {
  import opened PythonText
  import opened Fusion

  const LEAST_ROOM := 100
  const ELLIPSIS := "..."

  datatype Citation = Citation(index: nat, documentTitle: string, heading: string, chunkId: Id, score: real)

  datatype PackedContext = PackedContext(contextText: string, citations: seq<Citation>, totalTokensEstimate: nat)

  /** How the score of a citation is written; floating-point formatting is not modelled. */
  type Format = real -> string

  // ---- What is packed ----

  function TokensOf(result: SearchResult): nat {
    |result.chunk.content| / 4
  }

  /** The estimate for the first n results. */
  function Tokens(results: seq<SearchResult>, n: nat): nat
    requires n <= |results|
  {
    if n == 0 then 0 else Tokens(results, n - 1) + TokensOf(results[n - 1])
  }

  /** Result i fits with all before it. */
  predicate Whole(results: seq<SearchResult>, i: nat, maxTokens: int)
    requires i < |results|
  {
    Tokens(results, i + 1) <= maxTokens
  }

  function Room(results: seq<SearchResult>, i: nat, maxTokens: int): int
    requires i < |results|
  {
    (maxTokens - Tokens(results, i)) * 4
  }

  /** Result i does not, but enough room is left to begin it. */
  predicate Truncated(results: seq<SearchResult>, i: nat, maxTokens: int)
    requires i < |results|
  {
    !Whole(results, i, maxTokens) && Room(results, i, maxTokens) > LEAST_ROOM
  }

  predicate Packs(results: seq<SearchResult>, i: nat, maxTokens: int)
    requires i < |results|
  {
    Whole(results, i, maxTokens) || Truncated(results, i, maxTokens)
  }

  /** The longest prefix of the results that can be packed. */
  predicate PackedUpTo(results: seq<SearchResult>, n: nat, maxTokens: int) {
    && n <= |results|
    && (forall i | 0 <= i < n :: Packs(results, i, maxTokens))
    && (n < |results| ==> !Packs(results, n, maxTokens))
  }

  function ContentOf(results: seq<SearchResult>, i: nat, maxTokens: int): string
    requires i < |results| && Packs(results, i, maxTokens)
  {
    var content := results[i].chunk.content;
    if Whole(results, i, maxTokens) then content
    else if Room(results, i, maxTokens) <= |content| then content[..Room(results, i, maxTokens)] + ELLIPSIS
    else content + ELLIPSIS
  }

  function HeadingOf(result: SearchResult): string {
    if result.chunk.heading != "" then result.chunk.heading else "Untitled"
  }

  function CitationOf(results: seq<SearchResult>, i: nat): Citation
    requires i < |results|
  {
    var result := results[i];
    var title := if result.chunk.document.Some? then result.chunk.document.value else HeadingOf(result);
    Citation(i + 1, title, HeadingOf(result), result.chunk.id, result.score)
  }

  // ---- What is written ----

  function Reference(index: nat): string {
    "[" + Decimal(index) + "] "
  }

  function BlockOf(results: seq<SearchResult>, i: nat, maxTokens: int): string
    requires i < |results| && Packs(results, i, maxTokens)
  {
    Block(i + 1, HeadingOf(results[i]), ContentOf(results, i, maxTokens))
  }

  function Block(index: nat, heading: string, content: string): string {
    Reference(index) + "(" + heading + ")\n" + content
  }

  function SourceLine(citation: Citation, includeScores: bool, format: Format): string {
    Reference(citation.index) + citation.documentTitle
    + (if citation.heading != "" && citation.heading != citation.documentTitle then " - " + citation.heading else "")
    + (if includeScores then " (relevance: " + format(citation.score) + ")" else "")
  }

  function Blocks(results: seq<SearchResult>, n: nat, maxTokens: int): (blocks: seq<string>)
    requires n <= |results| && forall i | 0 <= i < n :: Packs(results, i, maxTokens)
    ensures |blocks| == n && forall i | 0 <= i < n :: blocks[i] == BlockOf(results, i, maxTokens)
  {
    seq(n, i requires 0 <= i < n => BlockOf(results, i, maxTokens))
  }

  function SourceLines(citations: seq<Citation>, includeScores: bool, format: Format): (lines: seq<string>)
    ensures |lines| == |citations|
    ensures forall i | 0 <= i < |citations| :: lines[i] == SourceLine(citations[i], includeScores, format)
  {
    seq(|citations|, i requires 0 <= i < |citations| => SourceLine(citations[i], includeScores, format))
  }

  function Footer(citations: seq<Citation>, includeScores: bool, format: Format): string {
    if |citations| == 0 then "" else Join("\n", ["\n\nSources:"] + SourceLines(citations, includeScores, format))
  }

  method PackContext(results: seq<SearchResult>, maxTokens: int, includeScores: bool, format: Format)
    returns (packed: PackedContext)
    ensures var n := |packed.citations|;
            && PackedUpTo(results, n, maxTokens)
            && (forall i | 0 <= i < n :: packed.citations[i] == CitationOf(results, i))
            && packed.totalTokensEstimate == Tokens(results, n)
            && packed.contextText == Join("\n\n", Blocks(results, n, maxTokens))
                                     + Footer(packed.citations, includeScores, format)
  {
    var parts, citations, tokenCount := PackResults(results, maxTokens);
    var footer := WriteFooter(citations, includeScores, format);
    packed := PackedContext(Join("\n\n", parts) + footer, citations, tokenCount);
  }

  /** How much of result i is packed, if anything, when `tokenCount` tokens are. */
  method Fit(results: seq<SearchResult>, i: nat, tokenCount: nat, maxTokens: int) returns (fits: bool, content: string)
    requires i < |results| && tokenCount == Tokens(results, i)
    ensures fits == Packs(results, i, maxTokens) && (fits ==> content == ContentOf(results, i, maxTokens))
  {
    var chunk := results[i].chunk;
    var chunkTokens := |chunk.content| / 4;
    content := chunk.content;
    if tokenCount + chunkTokens > maxTokens {
      var remainingChars := (maxTokens - tokenCount) * 4;
      if remainingChars <= LEAST_ROOM {
        return false, "";
      }
      content := (if remainingChars <= |content| then content[..remainingChars] else content) + ELLIPSIS;
    }
    fits := true;
  }

  /** The loop over the results. */
  method PackResults(results: seq<SearchResult>, maxTokens: int)
    returns (parts: seq<string>, citations: seq<Citation>, tokenCount: nat)
    ensures PackedUpTo(results, |citations|, maxTokens)
    ensures forall i | 0 <= i < |citations| :: citations[i] == CitationOf(results, i)
    ensures tokenCount == Tokens(results, |citations|)
    ensures parts == Blocks(results, |citations|, maxTokens)
  {
    parts, citations, tokenCount := [], [], 0;
    for i := 0 to |results|
      invariant |parts| == |citations| == i && tokenCount == Tokens(results, i)
      invariant forall j | 0 <= j < i :: Packs(results, j, maxTokens) && parts[j] == BlockOf(results, j, maxTokens)
      invariant forall j | 0 <= j < i :: citations[j] == CitationOf(results, j)
    {
      var chunk, heading := results[i].chunk, HeadingOf(results[i]);
      var fits, content := Fit(results, i, tokenCount, maxTokens);
      if !fits {
        break;
      }
      parts := parts + [Block(i + 1, heading, content)];
      var title := if chunk.document.Some? then chunk.document.value else heading;
      citations := citations + [Citation(i + 1, title, heading, chunk.id, results[i].score)];
      tokenCount := tokenCount + |chunk.content| / 4;
    }
    assert parts == Blocks(results, |citations|, maxTokens);
  }

  method WriteFooter(citations: seq<Citation>, includeScores: bool, format: Format) returns (footer: string)
    ensures footer == Footer(citations, includeScores, format)
  {
    if |citations| == 0 {
      return "";
    }
    ghost var all := SourceLines(citations, includeScores, format);
    var lines := ["\n\nSources:"];
    for i := 0 to |citations|
      invariant lines == ["\n\nSources:"] + all[..i]
    {
      var citation := citations[i];
      var line := Reference(citation.index) + citation.documentTitle;
      if citation.heading != "" && citation.heading != citation.documentTitle {
        line := line + " - " + citation.heading;
      }
      if includeScores {
        line := line + " (relevance: " + format(citation.score) + ")";
      }
      assert line == all[i];
      lines := lines + [line];
    }
    assert all[..|citations|] == all;
    footer := Join("\n", lines);
  }

  // ---- The budget ----

  lemma {:induction false} TokensGrow(results: seq<SearchResult>, i: nat, j: nat)
    requires i <= j <= |results|
    ensures Tokens(results, i) <= Tokens(results, j)
  {
    if i == j {
    } else {
      TokensGrow(results, i, j - 1);
    }
  }

  lemma NothingAfterTruncated(results: seq<SearchResult>, i: nat, maxTokens: int)
    requires i < |results| && Truncated(results, i, maxTokens)
    ensures i + 1 < |results| ==> !Packs(results, i + 1, maxTokens)
  {
    if i + 1 < |results| {
      TokensGrow(results, i + 1, i + 2);
    }
  }

  /** Only the last packed result can be truncated; it is over the budget on its own account,
      and what is kept of it, dots included, is strictly shorter than it was. */
  lemma TruncatedIsLast(results: seq<SearchResult>, n: nat, i: nat, maxTokens: int)
    requires PackedUpTo(results, n, maxTokens) && i < n && Truncated(results, i, maxTokens)
    ensures i == n - 1 && Tokens(results, n) > maxTokens
    ensures var content := results[i].chunk.content;
            var room := Room(results, i, maxTokens);
            && 0 <= room <= |content| && ContentOf(results, i, maxTokens) == content[..room] + ELLIPSIS
            && |ContentOf(results, i, maxTokens)| < |content|
  {
    NothingAfterTruncated(results, i, maxTokens);
  }

  function PackedLength(results: seq<SearchResult>, n: nat, maxTokens: int): nat
    requires n <= |results| && forall i | 0 <= i < n :: Packs(results, i, maxTokens)
  {
    if n == 0 then 0 else PackedLength(results, n - 1, maxTokens) + |ContentOf(results, n - 1, maxTokens)|
  }

  lemma {:induction false} WholeLength(results: seq<SearchResult>, n: nat, maxTokens: int)
    requires n <= |results| && forall i | 0 <= i < n :: Whole(results, i, maxTokens)
    ensures PackedLength(results, n, maxTokens) <= 4 * Tokens(results, n) + 3 * n
  {
    if n == 0 {
    } else {
      WholeLength(results, n - 1, maxTokens);
      assert Whole(results, n - 1, maxTokens);
    }
  }

  /** The packed content stays within four characters a token, rounding aside: at most three
      characters a result. A negative budget packs nothing. */
  lemma BudgetHolds(results: seq<SearchResult>, n: nat, maxTokens: int)
    requires PackedUpTo(results, n, maxTokens)
    ensures maxTokens >= 0 ==> PackedLength(results, n, maxTokens) <= 4 * maxTokens + 3 * n
    ensures maxTokens < 0 ==> n == 0
  {
    if n > 0 {
      assert Packs(results, 0, maxTokens);
      assert maxTokens >= 0;
      var last := n - 1;
      forall i | 0 <= i < last
        ensures Whole(results, i, maxTokens)
      {
        assert Packs(results, i, maxTokens);
        if Truncated(results, i, maxTokens) {
          TruncatedIsLast(results, n, i, maxTokens);
        }
      }
      WholeLength(results, last, maxTokens);
      if Truncated(results, last, maxTokens) {
        TruncatedIsLast(results, n, last, maxTokens);
      }
    }
  }

  /** How many results are packed is determined by the budget, and grows with it. */
  lemma BiggerBudgetPacksMore(results: seq<SearchResult>, n: nat, m: nat, maxTokens: int, more: int)
    requires PackedUpTo(results, n, maxTokens) && PackedUpTo(results, m, more) && maxTokens <= more
    ensures n <= m
    ensures maxTokens == more ==> n == m
  {
    if m < n {
      PacksUnderMore(results, m, maxTokens, more);
    }
  }

  lemma PacksUnderMore(results: seq<SearchResult>, i: nat, maxTokens: int, more: int)
    requires i < |results| && Packs(results, i, maxTokens) && maxTokens <= more
    ensures Packs(results, i, more)
  {
  }
}
