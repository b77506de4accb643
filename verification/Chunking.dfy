/** Document chunking of app/retrieval/chunking.py. */
module Chunking {
  import opened PythonText

  // ---- Paragraphs ----

  function NewlineRun(s: string): nat {
    if |s| > 0 && s[0] == '\n' then NewlineRun(s[1..]) + 1 else 0
  }

  lemma {:induction false} NewlineRunFits(s: string)
    ensures NewlineRun(s) <= |s| && forall i | 0 <= i < NewlineRun(s) :: s[i] == '\n'
  {
    if |s| > 0 && s[0] == '\n' {
      NewlineRunFits(s[1..]);
    }
  }

  /** re.split(r"\n\n+", s): maximal runs of two or more newlines separate. */
  function SplitParagraphs(s: string): (parts: seq<string>)
    ensures |parts| > 0
    decreases |s|
  {
    if |s| == 0 then [""]
    else if NewlineRun(s) >= 2 then
      NewlineRunFits(s);
      [""] + SplitParagraphs(s[NewlineRun(s)..])
    else
      var rest := SplitParagraphs(s[1..]);
      [[s[0]] + rest[0]] + rest[1..]
  }

  /** Parts and what stands between them in turn. */
  function Weave(parts: seq<string>, between: seq<string>): string
    requires |parts| == |between| + 1
  {
    if |between| == 0 then parts[0] else parts[0] + between[0] + Weave(parts[1..], between[1..])
  }

  lemma WeaveGrows(c: char, parts: seq<string>, between: seq<string>)
    requires |parts| == |between| + 1
    ensures Weave([[c] + parts[0]] + parts[1..], between) == [c] + Weave(parts, between)
  {
    var grown := [[c] + parts[0]] + parts[1..];
    assert grown[1..] == parts[1..];
    if |between| > 0 {
      var rest := Weave(parts[1..], between[1..]);
      Regroup([c], parts[0], between[0]);
      Regroup([c], parts[0] + between[0], rest);
    }
  }

  /** The paragraphs the loop keeps: stripped, and not empty. */
  function Kept(parts: seq<string>): seq<string> {
    if |parts| == 0 then []
    else if Strip(parts[0]) == "" then Kept(parts[1..])
    else [Strip(parts[0])] + Kept(parts[1..])
  }

  function Paragraphs(text: string): seq<string> {
    Kept(SplitParagraphs(text))
  }

  // ---- Chunks ----

  const BLANK_LINE := "\n\n"

  predicate Overflows(current: string, para: string, chunkSize: int) {
    |current| + |para| + 2 > chunkSize && |current| > 0
  }

  /** What the next chunk starts with: the tail of the last one, where overlap asks for it. */
  function Carried(current: string, para: string, overlap: int): string {
    if overlap > 0 && |current| > overlap then current[|current| - overlap..] + BLANK_LINE + para else para
  }

  function Joined(current: string, para: string): string {
    if |current| > 0 then current + BLANK_LINE + para else para
  }

  /** The loop over the paragraphs that are left, and what follows it. */
  function ChunksFrom(paras: seq<string>, chunkSize: int, overlap: int, current: string): seq<string> {
    if |paras| == 0 then (if Strip(current) != "" then [Strip(current)] else [])
    else if Overflows(current, paras[0], chunkSize) then
      [Strip(current)] + ChunksFrom(paras[1..], chunkSize, overlap, Carried(current, paras[0], overlap))
    else
      ChunksFrom(paras[1..], chunkSize, overlap, Joined(current, paras[0]))
  }

  function Chunks(text: string, chunkSize: int, overlap: int): seq<string> {
    if |text| <= chunkSize then (if Strip(text) != "" then [text] else [])
    else ChunksFrom(Paragraphs(text), chunkSize, overlap, "")
  }

  method SplitTextChunks(text: string, chunkSize: int, overlap: int) returns (chunks: seq<string>)
    ensures chunks == Chunks(text, chunkSize, overlap)
  {
    if |text| <= chunkSize {
      return if Strip(text) != "" then [text] else [];
    }
    var paragraphs := SplitParagraphs(text);
    chunks := [];
    var current := "";
    for i := 0 to |paragraphs|
      invariant Chunks(text, chunkSize, overlap) == chunks + ChunksFrom(Kept(paragraphs[i..]), chunkSize, overlap, current)
    {
      var para := Strip(paragraphs[i]);
      ghost var left := Kept(paragraphs[i + 1..]);
      assert paragraphs[i..][1..] == paragraphs[i + 1..];
      if para == "" {
        continue;
      }
      assert Kept(paragraphs[i..]) == [para] + left && ([para] + left)[1..] == left;
      if Overflows(current, para, chunkSize) {
        chunks := chunks + [Strip(current)];
        current := Carried(current, para, overlap);
      } else {
        current := Joined(current, para);
      }
    }
    if Strip(current) != "" {
      chunks := chunks + [Strip(current)];
    }
  }

  // ---- Whitespace ----

  /** The characters that are not whitespace, in order. */
  function NonSpace(s: string): string {
    if |s| == 0 then "" else (if IsSpace(s[0]) then "" else [s[0]]) + NonSpace(s[1..])
  }

  lemma {:induction false} NonSpaceAppend(a: string, b: string)
    ensures NonSpace(a + b) == NonSpace(a) + NonSpace(b)
  {
    if |a| == 0 {
      assert a + b == b;
    } else {
      NonSpaceAppend(a[1..], b);
      assert (a + b)[1..] == a[1..] + b;
      Regroup(if IsSpace(a[0]) then "" else [a[0]], NonSpace(a[1..]), NonSpace(b));
    }
  }

  predicate AllSpace(s: string) {
    forall i | 0 <= i < |s| :: IsSpace(s[i])
  }

  lemma {:induction false} SpaceVanishes(s: string)
    requires AllSpace(s)
    ensures NonSpace(s) == ""
  {
    if |s| == 0 {
    } else {
      SpaceVanishes(s[1..]);
    }
  }

  lemma NonSpaceOfStrip(s: string)
    ensures NonSpace(Strip(s)) == NonSpace(s)
  {
    var lead := StripCuts(s);
    var r := Strip(s);
    assert s == s[..lead] + (r + s[lead + |r|..]);
    NonSpaceAppend(s[..lead], r + s[lead + |r|..]);
    NonSpaceAppend(r, s[lead + |r|..]);
    SpaceVanishes(s[..lead]);
    SpaceVanishes(s[lead + |r|..]);
  }

  function Concat(parts: seq<string>): string {
    if |parts| == 0 then "" else parts[0] + Concat(parts[1..])
  }

  lemma {:induction false} ConcatAppend(a: seq<string>, b: seq<string>)
    ensures Concat(a + b) == Concat(a) + Concat(b)
  {
    if |a| == 0 {
      assert a + b == b;
    } else {
      ConcatAppend(a[1..], b);
      assert (a + b)[1..] == a[1..] + b;
      Regroup(a[0], Concat(a[1..]), Concat(b));
    }
  }

  lemma NewlinesVanish(s: string, n: nat)
    requires n <= |s| && forall i | 0 <= i < n :: s[i] == '\n'
    ensures NonSpace(s) == NonSpace(s[n..])
  {
    assert s == s[..n] + s[n..];
    NonSpaceAppend(s[..n], s[n..]);
    SpaceVanishes(s[..n]);
  }

  lemma ConcatGrows(c: char, parts: seq<string>)
    requires |parts| > 0
    ensures Concat([[c] + parts[0]] + parts[1..]) == [c] + Concat(parts)
  {
    assert ([[c] + parts[0]] + parts[1..])[1..] == parts[1..];
  }

  /** Splitting into paragraphs loses whitespace only. */
  lemma {:induction false} SplitKeepsText(s: string)
    ensures NonSpace(Concat(SplitParagraphs(s))) == NonSpace(s)
    decreases |s|
  {
    if |s| == 0 {
      assert Concat([""]) == "" + Concat([""][1..]);
    } else if NewlineRun(s) >= 2 {
      NewlineRunFits(s);
      var rest := SplitParagraphs(s[NewlineRun(s)..]);
      SplitKeepsText(s[NewlineRun(s)..]);
      assert ([""] + rest)[1..] == rest && "" + Concat(rest) == Concat(rest);
      NewlinesVanish(s, NewlineRun(s));
    } else {
      var rest := SplitParagraphs(s[1..]);
      SplitKeepsText(s[1..]);
      ConcatGrows(s[0], rest);
      NonSpaceAppend([s[0]], Concat(rest));
      NonSpaceAppend([s[0]], s[1..]);
      assert s == [s[0]] + s[1..];
    }
  }

  lemma {:induction false} KeptKeepsText(parts: seq<string>)
    ensures NonSpace(Concat(Kept(parts))) == NonSpace(Concat(parts))
    ensures AllTrimmed(Kept(parts))
  {
    if |parts| == 0 {
    } else {
      var first, rest := Strip(parts[0]), Kept(parts[1..]);
      KeptKeepsText(parts[1..]);
      NonSpaceOfStrip(parts[0]);
      var lead := StripCuts(parts[0]);
      NonSpaceAppend(parts[0], Concat(parts[1..]));
      NonSpaceAppend(first, Concat(rest));
      if first != "" {
        assert ([first] + rest)[1..] == rest;
      }
    }
  }

  /** The paragraphs carry everything of the text that is not whitespace, in order. */
  lemma ParagraphsKeepText(text: string)
    ensures NonSpace(Concat(Paragraphs(text))) == NonSpace(text)
    ensures AllTrimmed(Paragraphs(text))
  {
    SplitKeepsText(text);
    KeptKeepsText(SplitParagraphs(text));
  }

  predicate AllTrimmed(paras: seq<string>) {
    forall i | 0 <= i < |paras| :: |paras[i]| > 0 && Trimmed(paras[i])
  }

  // ---- How long a chunk can be ----

  function Longest(paras: seq<string>): nat {
    if |paras| == 0 then 0
    else
      var rest := Longest(paras[1..]);
      if |paras[0]| > rest then |paras[0]| else rest
  }

  /** No chunk is longer than the chunk size, unless a single paragraph, with the overlap in
      front of it, is. */
  function Bound(chunkSize: int, overlap: int, longest: nat): int {
    var single := if overlap > 0 then overlap + 2 + longest else longest as int;
    if single > chunkSize then single else chunkSize
  }

  lemma {:induction false} ChunksFromBounded(paras: seq<string>, chunkSize: int, overlap: int, current: string, longest: nat)
    requires Longest(paras) <= longest && |current| <= Bound(chunkSize, overlap, longest)
    ensures forall c | c in ChunksFrom(paras, chunkSize, overlap, current) :: |c| <= Bound(chunkSize, overlap, longest)
    decreases |paras|
  {
    var lead := StripCuts(current);
    if |paras| == 0 {
    } else {
      if Overflows(current, paras[0], chunkSize) {
        ChunksFromBounded(paras[1..], chunkSize, overlap, Carried(current, paras[0], overlap), longest);
      } else {
        ChunksFromBounded(paras[1..], chunkSize, overlap, Joined(current, paras[0]), longest);
      }
    }
  }

  lemma ChunkSizeBound(text: string, chunkSize: int, overlap: int)
    ensures forall c | c in Chunks(text, chunkSize, overlap) ::
              |c| <= Bound(chunkSize, overlap, Longest(Paragraphs(text)))
    ensures overlap >= 0 && Longest(Paragraphs(text)) <= chunkSize - overlap - 2 ==>
              forall c | c in Chunks(text, chunkSize, overlap) :: |c| <= chunkSize
  {
    if |text| > chunkSize && |Paragraphs(text)| > 0 {
      var paras := Paragraphs(text);
      assert Joined("", paras[0]) == paras[0];
      ChunksFromBounded(paras[1..], chunkSize, overlap, paras[0], Longest(paras));
    }
  }
}
