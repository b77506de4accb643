/** What app/retrieval/chunking.py takes for headings, and how a document is cut at them. The
    pattern lets the whitespace behind the signs run over line ends, and it goes back over some
    of it where nothing else is left for the text; a heading goes to the end of its line, and
    the next is looked for behind it. From the cut come the sections, and from them the chunks. */
module Headings {
  import opened PythonText
  import opened Chunking
  import opened DocumentChunks

  // ---- One heading ----

  /** #{1,6}\s+.+$ matches the first n characters: so many hashes, so much whitespace, and at
      least one character up to the end of a line. */
  predicate HeadingMatch(s: string, hashes: nat, spaces: nat, n: nat) {
    && 1 <= hashes <= 6 && 1 <= spaces && hashes + spaces < n <= |s|
    && (forall i | 0 <= i < hashes :: s[i] == '#')
    && (forall i | hashes <= i < hashes + spaces :: IsSpace(s[i]))
    && (forall i | hashes + spaces <= i < n :: s[i] != '\n')
    && (n < |s| ==> s[n] == '\n')
  }

  lemma {:induction false} HashRunIs(s: string)
    ensures forall i | 0 <= i < HashRun(s) :: s[i] == '#'
    ensures HashRun(s) < |s| ==> s[HashRun(s)] != '#'
  {
    if |s| > 0 && s[0] == '#' {
      HashRunIs(s[1..]);
    }
  }

  lemma {:induction false} SpaceRunIs(s: string)
    ensures forall i | 0 <= i < SpaceRun(s) :: IsSpace(s[i])
    ensures SpaceRun(s) < |s| ==> !IsSpace(s[SpaceRun(s)])
  {
    if |s| > 0 && IsSpace(s[0]) {
      SpaceRunIs(s[1..]);
    }
  }

  lemma {:induction false} LineRestIs(s: string)
    ensures forall i | 0 <= i < LineRest(s) :: s[i] != '\n'
    ensures LineRest(s) < |s| ==> s[LineRest(s)] == '\n'
  {
    if |s| > 0 && s[0] != '\n' {
      LineRestIs(s[1..]);
    }
  }

  lemma {:induction false} WithoutNewlinesIs(s: string)
    ensures forall i | WithoutNewlines(s) <= i < |s| :: s[i] == '\n'
    ensures WithoutNewlines(s) > 0 ==> s[WithoutNewlines(s) - 1] != '\n'
  {
    if |s| > 0 && s[|s| - 1] == '\n' {
      WithoutNewlinesIs(s[..|s| - 1]);
    }
  }

  /** Where the hashes and the whitespace at the start of s end. */
  predicate Lead(s: string, hashes: nat, text: nat) {
    && hashes <= text <= |s|
    && (forall i | 0 <= i < hashes :: s[i] == '#') && (hashes < |s| ==> s[hashes] != '#')
    && (forall i | hashes <= i < text :: IsSpace(s[i])) && (text < |s| ==> !IsSpace(s[text]))
  }

  lemma LeadIs(s: string)
    ensures Lead(s, HashRun(s), HashRun(s) + SpaceRun(s[HashRun(s)..]))
  {
    var hashes := HashRun(s);
    var rest := s[hashes..];
    HashRunIs(s);
    SpaceRunIs(rest);
    assert forall i | hashes <= i < |s| :: s[i] == rest[i - hashes];
  }

  /** A match begins with all the hashes, and takes no more whitespace than there is. */
  lemma MatchLeads(s: string, hashes: nat, text: nat, h: nat, w: nat, n: nat)
    requires Lead(s, hashes, text) && HeadingMatch(s, h, w, n)
    ensures h == hashes && h + w <= text && h + w < WithoutNewlines(s)
  {
    WithoutNewlinesIs(s);
    assert IsSpace(s[h]);
    assert s[h + w] != '\n';
  }

  lemma FoundMatches(s: string) returns (w: nat)
    requires HeadingLength(s) > 0
    ensures HeadingMatch(s, HashRun(s), w, HeadingLength(s))
    ensures HashRun(s) + w == HashRun(s) + SpaceRun(s[HashRun(s)..]) || HashRun(s) + w == WithoutNewlines(s) - 1
  {
    var hashes, text := HashRun(s), HashRun(s) + SpaceRun(s[HashRun(s)..]);
    LeadIs(s);
    WithoutNewlinesIs(s);
    if text < |s| {
      w := text - hashes;
      LineRestIs(s[text..]);
      RestOfLine(s, text);
    } else {
      w := WithoutNewlines(s) - 1 - hashes;
    }
  }

  lemma RestOfLine(s: string, text: nat)
    requires text < |s| && !IsSpace(s[text])
    ensures var n := text + LineRest(s[text..]);
            text < n <= |s| && (forall i | text <= i < n :: s[i] != '\n') && (n < |s| ==> s[n] == '\n')
  {
    var rest := s[text..];
    LineRestIs(rest);
    assert forall i | text <= i < |s| :: s[i] == rest[i - text];
  }

  /** A heading is found exactly where the pattern matches, and it is the match that takes as
      much whitespace as any. */
  lemma HeadingMeans(s: string)
    ensures HeadingLength(s) > 0 <==> exists h: nat, w: nat, n: nat :: HeadingMatch(s, h, w, n)
    ensures HeadingLength(s) > 0 ==>
              exists h: nat, w: nat :: HeadingMatch(s, h, w, HeadingLength(s)) && forall h': nat, w': nat, n': nat | HeadingMatch(s, h', w', n') :: w' <= w
  {
    var hashes, text := HashRun(s), HashRun(s) + SpaceRun(s[HashRun(s)..]);
    LeadIs(s);
    forall h: nat, w: nat, n: nat | HeadingMatch(s, h, w, n)
      ensures h == hashes && h + w <= text && h + w < WithoutNewlines(s)
    {
      MatchLeads(s, hashes, text, h, w, n);
    }
    if HeadingLength(s) > 0 {
      var w := FoundMatches(s);
      assert HeadingMatch(s, hashes, w, HeadingLength(s));
    }
    if h: nat, w: nat, n: nat :| HeadingMatch(s, h, w, n) {
      MatchFound(s, h, w, n);
    }
  }

  lemma MatchFound(s: string, h: nat, w: nat, n: nat)
    requires HeadingMatch(s, h, w, n)
    ensures HeadingLength(s) > 0
  {
    var hashes, text := HashRun(s), HashRun(s) + SpaceRun(s[HashRun(s)..]);
    LeadIs(s);
    MatchLeads(s, hashes, text, h, w, n);
    if text < |s| {
      RestOfLine(s, text);
    }
  }

  // ---- All headings ----

  predicate LineStart(s: string, p: nat) {
    p == 0 || (p <= |s| && s[p - 1] == '\n')
  }

  /** How long a heading begins at each position; 0 where none does. */
  function HeadingsIn(s: string): nat -> nat {
    (p: nat) => if p <= |s| && LineStart(s, p) then HeadingLength(s[p..]) else 0
  }

  /** From p on: a part in which no heading begins, a heading, and so on, up to a part that goes
      to the end. `lengths` says where headings begin and how long they are. */
  predicate CutFrom(s: string, lengths: nat -> nat, p: nat, parts: seq<string>, headings: seq<string>)
    decreases |headings|
  {
    && |parts| == |headings| + 1 && p + |parts[0]| <= |s|
    && var q := p + |parts[0]|;
    && s[p..q] == parts[0] && (forall i: nat | p <= i < q :: lengths(i) == 0)
    && if |headings| == 0 then q == |s|
       else
         && 0 < |headings[0]| == lengths(q) <= |s| - q && s[q..q + |headings[0]|] == headings[0]
         && CutFrom(s, lengths, q + |headings[0]|, parts[1..], headings[1..])
  }

  lemma CharBefore(s: string, lengths: nat -> nat, p: nat, parts: seq<string>, headings: seq<string>)
    requires p < |s| && lengths(p) == 0 && CutFrom(s, lengths, p + 1, parts, headings)
    ensures CutFrom(s, lengths, p, [[s[p]] + parts[0]] + parts[1..], headings)
  {
    var all := [[s[p]] + parts[0]] + parts[1..];
    var q := p + 1 + |parts[0]|;
    assert all[1..] == parts[1..];
    assert s[p..q] == [s[p]] + s[p + 1..q];
  }

  lemma HeadingBefore(s: string, lengths: nat -> nat, p: nat, parts: seq<string>, headings: seq<string>)
    requires 0 < lengths(p) && p + lengths(p) <= |s| && CutFrom(s, lengths, p + lengths(p), parts, headings)
    ensures CutFrom(s, lengths, p, [""] + parts, [s[p..p + lengths(p)]] + headings)
  {
    assert ([""] + parts)[1..] == parts && ([s[p..p + lengths(p)]] + headings)[1..] == headings;
  }

  lemma HeadingEndsLine(s: string, p: nat)
    requires HeadingsIn(s)(p) > 0
    ensures p + HeadingsIn(s)(p) <= |s| && !LineStart(s, p + HeadingsIn(s)(p))
  {
    var w := FoundMatches(s[p..]);
    var n := HeadingLength(s[p..]);
    assert s[p + n - 1] == s[p..][n - 1];
  }

  lemma CutAtHeading(s: string, p: nat)
    requires p < |s| && HeadingsIn(s)(p) > 0
    ensures var n := HeadingsIn(s)(p);
            && n <= |s| - p
            && var rest := CutAtHeadings(s[p + n..], false);
            CutAtHeadings(s[p..], true) == Cut([""] + rest.parts, [s[p..p + n]] + rest.headings)
  {
    var n := HeadingLength(s[p..]);
    assert s[p..][n..] == s[p + n..] && s[p..][..n] == s[p..p + n];
  }

  lemma CutAtChar(s: string, p: nat)
    requires p < |s| && HeadingsIn(s)(p) == 0
    ensures var rest := CutAtHeadings(s[p + 1..], LineStart(s, p + 1));
            CutAtHeadings(s[p..], LineStart(s, p)) == Cut([[s[p]] + rest.parts[0]] + rest.parts[1..], rest.headings)
  {
    assert s[p..][1..] == s[p + 1..];
  }

  lemma {:induction false} CutIsCut(s: string, p: nat)
    requires p <= |s|
    ensures var cut := CutAtHeadings(s[p..], LineStart(s, p)); CutFrom(s, HeadingsIn(s), p, cut.parts, cut.headings)
    decreases |s| - p
  {
    var n := HeadingsIn(s)(p);
    if p == |s| {
    } else if n > 0 {
      HeadingEndsLine(s, p);
      CutIsCut(s, p + n);
      CutAtHeading(s, p);
      var cut := CutAtHeadings(s[p + n..], false);
      HeadingBefore(s, HeadingsIn(s), p, cut.parts, cut.headings);
    } else {
      CutIsCut(s, p + 1);
      CutAtChar(s, p);
      var cut := CutAtHeadings(s[p + 1..], LineStart(s, p + 1));
      CharBefore(s, HeadingsIn(s), p, cut.parts, cut.headings);
    }
  }

  lemma {:induction false} OneCut(s: string, lengths: nat -> nat, p: nat,
                                  a: seq<string>, b: seq<string>, c: seq<string>, d: seq<string>)
    requires CutFrom(s, lengths, p, a, b) && CutFrom(s, lengths, p, c, d)
    ensures a == c && b == d
    decreases |b|
  {
    SameFirstPart(s, lengths, p, a, b, c, d);
    SameFirstPart(s, lengths, p, c, d, a, b);
    assert a == [a[0]] + a[1..] && c == [c[0]] + c[1..];
    if |b| > 0 && |d| > 0 {
      OneCut(s, lengths, p + |a[0]| + |b[0]|, a[1..], b[1..], c[1..], d[1..]);
      assert b == [b[0]] + b[1..] && d == [d[0]] + d[1..];
    }
  }

  lemma SameFirstPart(s: string, lengths: nat -> nat, p: nat,
                      a: seq<string>, b: seq<string>, c: seq<string>, d: seq<string>)
    requires CutFrom(s, lengths, p, a, b) && CutFrom(s, lengths, p, c, d)
    ensures |a[0]| >= |c[0]|
  {
  }

  /** The cut is at every heading that begins a line behind the one before, and nowhere else. */
  lemma CutMeans(content: string, parts: seq<string>, headings: seq<string>)
    ensures CutAtHeadings(content, true) == Cut(parts, headings) <==> CutFrom(content, HeadingsIn(content), 0, parts, headings)
  {
    CutIsCut(content, 0);
    assert content[0..] == content;
    var cut := CutAtHeadings(content, true);
    if CutFrom(content, HeadingsIn(content), 0, parts, headings) {
      OneCut(content, HeadingsIn(content), 0, cut.parts, cut.headings, parts, headings);
    }
  }

  // ---- Sections and chunks ----

  lemma {:induction false} HeadedAre(parts: seq<string>, headings: seq<string>)
    requires |parts| == |headings| + 1
    ensures |Headed(parts, headings)| == |headings|
    ensures forall i | 0 <= i < |headings| :: Headed(parts, headings)[i] == Section(Strip(headings[i]), Strip(parts[i + 1]))
    decreases |headings|
  {
    if |headings| == 0 {
    } else {
      HeadedAre(parts[1..], headings[1..]);
    }
  }

  /** Each heading has the text up to the next for its section; what stands before the first
      is a section of its own unless it is blank. */
  lemma SectionsMean(content: string)
    ensures var cut := CutAtHeadings(content, true); var sections := Sections(content);
            var off := if Strip(cut.parts[0]) != "" then 1 else 0;
            && |sections| == off + |cut.headings|
            && (off == 1 ==> sections[0] == Section("", Strip(cut.parts[0])))
            && forall i | 0 <= i < |cut.headings| :: sections[off + i] == Section(Strip(cut.headings[i]), Strip(cut.parts[i + 1]))
  {
    var cut := CutAtHeadings(content, true);
    HeadedAre(cut.parts, cut.headings);
  }

  predicate PrefixIs(title: string, heading: string, prefix: string) {
    && (title != "" && heading != "" ==> prefix == "Document: " + title + "\n" + "Heading: " + heading + "\n\n")
    && (title != "" && heading == "" ==> prefix == "Document: " + title + "\n\n")
    && (title == "" && heading != "" ==> prefix == "Heading: " + heading + "\n\n")
    && (title == "" && heading == "" ==> prefix == "")
  }

  /** A chunk of the section: title and heading, then a chunk of the text as far as they leave
      room for it. */
  ghost predicate ChunkFrom(section: Section, title: string, chunkSize: int, overlap: int, chunk: KnowledgeChunk) {
    && chunk.heading == (if section.heading != "" then section.heading else title)
    && chunk.tokenCount == |chunk.content| / 4
    && exists prefix, text ::
         && PrefixIs(title, section.heading, prefix) && chunk.content == prefix + text
         && text in Chunks(section.body, chunkSize - |prefix|, overlap)
  }

  lemma ChunkOfMeans(text: string, section: Section, title: string, chunkSize: int, overlap: int, index: nat)
    requires text in TextsOf(section, title, chunkSize, overlap)
    ensures ChunkFrom(section, title, chunkSize, overlap, ChunkOf(text, section, title, index))
  {
    assert PrefixIs(title, section.heading, Prefix(title, section.heading));
  }

  /** Every chunk of a document is one of a section of it. */
  lemma {:induction false} ChunksOfMean(sections: seq<Section>, title: string, chunkSize: int, overlap: int, c: KnowledgeChunk)
    returns (i: nat)
    requires c in ChunksOf(sections, title, chunkSize, overlap)
    ensures i < |sections| && Strip(sections[i].body) != "" && ChunkFrom(sections[i], title, chunkSize, overlap, c)
    decreases |sections|
  {
    var n := |sections| - 1;
    var before := ChunksOf(sections[..n], title, chunkSize, overlap);
    if c in before {
      i := ChunksOfMean(sections[..n], title, chunkSize, overlap, c);
    } else {
      i := n;
      var texts := TextsOf(sections[n], title, chunkSize, overlap);
      var j := NumberedMember(texts, sections[n], title, |before|, c);
      ChunkOfMeans(texts[j], sections[n], title, chunkSize, overlap, |before| + j);
    }
  }
}
