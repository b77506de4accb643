/** What app/retrieval/context.py packs and writes, result by result. */
module PackedText {
  import opened PythonText
  import opened Fusion
  import opened ContextPacking

  // ---- How much ----

  /** The estimates of the first n results add up: a quarter of the characters of each. */
  lemma TokensMean(results: seq<SearchResult>, n: nat)
    requires n < |results|
    ensures Tokens(results, 0) == 0
    ensures Tokens(results, n + 1) == Tokens(results, n) + |results[n].chunk.content| / 4
  {
  }

  /** What is packed of result i, when `before` tokens are packed: all that fits, or as much as
      there is room for and three dots. */
  predicate PackedAs(content: string, before: nat, maxTokens: int, packed: string) {
    var room := (maxTokens - before) * 4;
    if before + |content| / 4 <= maxTokens then packed == content
    else 100 < room <= |content| && packed == content[..room] + "..."
  }

  /** Each packed result is, and only the last can be cut short. */
  lemma PackingMeans(results: seq<SearchResult>, n: nat, i: nat, maxTokens: int)
    requires PackedUpTo(results, n, maxTokens) && i < n
    ensures PackedAs(results[i].chunk.content, Tokens(results, i), maxTokens, ContentOf(results, i, maxTokens))
    ensures i < n - 1 ==> Tokens(results, i + 1) <= maxTokens
  {
    assert Packs(results, i, maxTokens);
    if Truncated(results, i, maxTokens) {
      TruncatedIsLast(results, n, i, maxTokens);
    }
  }

  /** Packing stops only before a result that does not fit and has no more than a hundred
      characters of room. */
  lemma StopMeans(results: seq<SearchResult>, n: nat, maxTokens: int)
    requires PackedUpTo(results, n, maxTokens) && n < |results|
    ensures Tokens(results, n) + |results[n].chunk.content| / 4 > maxTokens && (maxTokens - Tokens(results, n)) * 4 <= 100
  {
  }

  // ---- How it is written ----

  predicate HeadingIs(result: SearchResult, heading: string) {
    heading == if result.chunk.heading == "" then "Untitled" else result.chunk.heading
  }

  /** Each packed result is written behind its number and its heading. */
  lemma BlockMeans(results: seq<SearchResult>, i: nat, maxTokens: int, heading: string)
    requires i < |results| && Packs(results, i, maxTokens) && HeadingIs(results[i], heading)
    ensures BlockOf(results, i, maxTokens) == "[" + Decimal(i + 1) + "] " + "(" + heading + ")\n" + ContentOf(results, i, maxTokens)
  {
  }

  /** And cited with its number, its document where that is known, its heading, its chunk and
      its score. */
  lemma CitationMeans(results: seq<SearchResult>, i: nat, heading: string)
    requires i < |results| && HeadingIs(results[i], heading)
    ensures var c := CitationOf(results, i);
            && c.index == i + 1 && c.heading == heading && c.chunkId == results[i].chunk.id && c.score == results[i].score
            && (results[i].chunk.document.Some? ==> c.documentTitle == results[i].chunk.document.value)
            && (results[i].chunk.document.None? ==> c.documentTitle == heading)
  {
  }

  /** A line of the footer: number, title, the heading where it says more, and the score where
      that is wanted. */
  lemma LineMeans(c: Citation, includeScores: bool, format: Format)
    ensures var start := "[" + Decimal(c.index) + "] " + c.documentTitle;
            var titled := if c.heading == "" || c.heading == c.documentTitle then start else start + " - " + c.heading;
            SourceLine(c, includeScores, format)
            == if includeScores then titled + " (relevance: " + format(c.score) + ")" else titled
  {
    var start := "[" + Decimal(c.index) + "] " + c.documentTitle;
    assert start + "" == start;
    assert start + " - " + c.heading == start + (" - " + c.heading);
    var titled := if c.heading == "" || c.heading == c.documentTitle then start else start + " - " + c.heading;
    assert titled + "" == titled;
    assert titled + " (relevance: " + format(c.score) + ")" == titled + (" (relevance: " + format(c.score) + ")");
  }

  /** No citations, no footer; and each citation adds a line to it. */
  lemma FooterMeans(citations: seq<Citation>, last: Citation, includeScores: bool, format: Format)
    ensures Footer([], includeScores, format) == ""
    ensures Footer(citations + [last], includeScores, format)
            == (if |citations| == 0 then "\n\nSources:" else Footer(citations, includeScores, format))
               + "\n" + SourceLine(last, includeScores, format)
  {
    var lines := SourceLines(citations, includeScores, format);
    var line := SourceLine(last, includeScores, format);
    assert SourceLines(citations + [last], includeScores, format) == lines + [line];
    assert ["\n\nSources:"] + (lines + [line]) == (["\n\nSources:"] + lines) + [line];
    JoinMore("\n", ["\n\nSources:"] + lines, line);
    assert |citations| == 0 ==> ["\n\nSources:"] + lines == ["\n\nSources:"];
  }

  /** The blocks stand apart by blank lines. */
  lemma BlocksMean(results: seq<SearchResult>, n: nat, maxTokens: int)
    requires n < |results| && forall i | 0 <= i <= n :: Packs(results, i, maxTokens)
    ensures Join("\n\n", Blocks(results, 0, maxTokens)) == ""
    ensures Join("\n\n", Blocks(results, n + 1, maxTokens))
            == (if n == 0 then "" else Join("\n\n", Blocks(results, n, maxTokens)) + "\n\n") + BlockOf(results, n, maxTokens)
  {
    var blocks, block := Blocks(results, n, maxTokens), BlockOf(results, n, maxTokens);
    assert Blocks(results, n + 1, maxTokens) == blocks + [block];
    if n > 0 {
      JoinMore("\n\n", blocks, block);
    } else {
      assert blocks + [block] == [block];
    }
  }
}
