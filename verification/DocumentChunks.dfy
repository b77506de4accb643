/** Sections of a Markdown document and the chunks cut from them, of app/retrieval/chunking.py.
    A section has the text between its heading and the next; a chunk of it carries the title of
    the document and the heading in front, which leave the less room for text. Nothing here
    depends on how the pattern of headings matches, which has a module of its own. */
module DocumentChunks {
  import opened PythonText
  import opened Chunking

  // ---- Headings ----

  function HashRun(s: string): (n: nat)
    ensures n <= |s|
  {
    if |s| > 0 && s[0] == '#' then HashRun(s[1..]) + 1 else 0
  }

  function SpaceRun(s: string): (n: nat)
    ensures n <= |s|
  {
    if |s| > 0 && IsSpace(s[0]) then SpaceRun(s[1..]) + 1 else 0
  }

  function LineRest(s: string): (n: nat)
    ensures n <= |s|
  {
    if |s| > 0 && s[0] != '\n' then LineRest(s[1..]) + 1 else 0
  }

  /** How long s is without the newlines at its end. */
  function WithoutNewlines(s: string): (n: nat)
    ensures n <= |s|
  {
    if |s| > 0 && s[|s| - 1] == '\n' then WithoutNewlines(s[..|s| - 1]) else |s|
  }

  /** The length of the match of #{1,6}\s+.+$ at the start of s, where s starts a line; 0 if
      there is none. Where nothing but whitespace is left, \s+ gives some of it up to .+ */
  function HeadingLength(s: string): (n: nat)
    ensures n <= |s|
  {
    var hashes := HashRun(s);
    var spaces := SpaceRun(s[hashes..]);
    var text := hashes + spaces;
    if !(1 <= hashes <= 6) || spaces == 0 then 0
    else if text < |s| then text + LineRest(s[text..])
    else if WithoutNewlines(s) >= hashes + 2 then WithoutNewlines(s)
    else 0
  }

  /** What lies between the headings, and the headings: re.split and re.findall. */
  datatype Cut = Cut(parts: seq<string>, headings: seq<string>)

  function CutAtHeadings(s: string, lineStart: bool): (cut: Cut)
    ensures |cut.parts| == |cut.headings| + 1
    decreases |s|
  {
    if |s| == 0 then Cut([""], [])
    else if lineStart && HeadingLength(s) > 0 then
      var n := HeadingLength(s);
      var rest := CutAtHeadings(s[n..], false);
      Cut([""] + rest.parts, [s[..n]] + rest.headings)
    else
      var rest := CutAtHeadings(s[1..], s[0] == '\n');
      Cut([[s[0]] + rest.parts[0]] + rest.parts[1..], rest.headings)
  }

  predicate WeavesTo(cut: Cut, s: string) {
    |cut.parts| == |cut.headings| + 1 && Weave(cut.parts, cut.headings) == s
  }

  lemma HeadingWeaves(heading: string, rest: Cut, s: string)
    requires WeavesTo(rest, s)
    ensures WeavesTo(Cut([""] + rest.parts, [heading] + rest.headings), heading + s)
  {
    assert ([""] + rest.parts)[1..] == rest.parts && ([heading] + rest.headings)[1..] == rest.headings;
    assert "" + heading == heading;
  }

  lemma CharWeaves(c: char, rest: Cut, s: string)
    requires WeavesTo(rest, s)
    ensures WeavesTo(Cut([[c] + rest.parts[0]] + rest.parts[1..], rest.headings), [c] + s)
  {
    WeaveGrows(c, rest.parts, rest.headings);
  }

  lemma {:induction false} HeadingsKeepContent(s: string, lineStart: bool)
    ensures WeavesTo(CutAtHeadings(s, lineStart), s)
    decreases |s|
  {
    if |s| == 0 {
    } else if lineStart && HeadingLength(s) > 0 {
      var n := HeadingLength(s);
      HeadingsKeepContent(s[n..], false);
      HeadingWeaves(s[..n], CutAtHeadings(s[n..], false), s[n..]);
      assert s == s[..n] + s[n..];
    } else {
      HeadingsKeepContent(s[1..], s[0] == '\n');
      CharWeaves(s[0], CutAtHeadings(s[1..], s[0] == '\n'), s[1..]);
      assert s == [s[0]] + s[1..];
    }
  }

  // ---- Sections ----

  datatype Section = Section(heading: string, body: string)

  function Headed(parts: seq<string>, headings: seq<string>): seq<Section>
    requires |parts| == |headings| + 1
  {
    if |headings| == 0 then []
    else [Section(Strip(headings[0]), Strip(parts[1]))] + Headed(parts[1..], headings[1..])
  }

  function Unheaded(part: string): seq<Section> {
    if Strip(part) != "" then [Section("", Strip(part))] else []
  }

  function Sections(content: string): seq<Section> {
    var cut := CutAtHeadings(content, true);
    Unheaded(cut.parts[0]) + Headed(cut.parts, cut.headings)
  }

  method SplitByHeadings(content: string) returns (sections: seq<Section>)
    ensures sections == Sections(content)
  {
    var cut := CutAtHeadings(content, true);
    var parts, headings := cut.parts, cut.headings;
    sections := [];
    if Strip(parts[0]) != "" {
      sections := sections + [Section("", Strip(parts[0]))];
    }
    for i := 0 to |headings|
      invariant Sections(content) == sections + Headed(parts[i..], headings[i..])
    {
      assert parts[i..][1..] == parts[i + 1..] && headings[i..][1..] == headings[i + 1..];
      var body := if i + 1 < |parts| then Strip(parts[i + 1]) else "";
      sections := sections + [Section(Strip(headings[i]), body)];
    }
  }

  function Bodies(sections: seq<Section>): (bodies: seq<string>)
    ensures |bodies| == |sections| && forall i | 0 <= i < |sections| :: bodies[i] == sections[i].body
  {
    seq(|sections|, i requires 0 <= i < |sections| => sections[i].body)
  }

  lemma BodiesCons(section: Section, rest: seq<Section>)
    ensures NonSpace(Concat(Bodies([section] + rest))) == NonSpace(section.body) + NonSpace(Concat(Bodies(rest)))
  {
    assert Bodies([section] + rest) == [section.body] + Bodies(rest);
    assert ([section.body] + Bodies(rest))[1..] == Bodies(rest);
    NonSpaceAppend(section.body, Concat(Bodies(rest)));
  }

  lemma {:induction false} HeadedKeepText(parts: seq<string>, headings: seq<string>)
    requires |parts| == |headings| + 1
    ensures NonSpace(Concat(Bodies(Headed(parts, headings)))) == NonSpace(Concat(parts[1..]))
    decreases |headings|
  {
    if |headings| == 0 {
    } else {
      var section := Section(Strip(headings[0]), Strip(parts[1]));
      HeadedKeepText(parts[1..], headings[1..]);
      BodiesCons(section, Headed(parts[1..], headings[1..]));
      NonSpaceOfStrip(parts[1]);
      NonSpaceAppend(parts[1], Concat(parts[1..][1..]));
    }
  }

  /** The bodies of the sections carry everything of the document but its headings, in order,
      whitespace aside. */
  lemma SectionsKeepText(content: string)
    ensures var cut := CutAtHeadings(content, true);
            && Weave(cut.parts, cut.headings) == content
            && NonSpace(Concat(Bodies(Sections(content)))) == NonSpace(Concat(cut.parts))
  {
    var cut := CutAtHeadings(content, true);
    var parts := cut.parts;
    HeadingsKeepContent(content, true);
    HeadedKeepText(parts, cut.headings);
    NonSpaceOfStrip(parts[0]);
    NonSpaceAppend(parts[0], Concat(parts[1..]));
    var headed := Headed(parts, cut.headings);
    if Strip(parts[0]) != "" {
      BodiesCons(Section("", Strip(parts[0])), headed);
    } else {
      assert Sections(content) == headed;
    }
  }

  // ---- Chunks of a document ----

  datatype KnowledgeChunk = KnowledgeChunk(content: string, chunkIndex: nat, heading: string, tokenCount: nat)

  function Prefix(title: string, heading: string): string {
    if title != "" && heading != "" then "Document: " + title + "\n" + "Heading: " + heading + BLANK_LINE
    else if title != "" then "Document: " + title + BLANK_LINE
    else if heading != "" then "Heading: " + heading + BLANK_LINE
    else ""
  }

  function HeadingFor(section: Section, title: string): string {
    if section.heading != "" then section.heading else title
  }

  function ChunkOf(text: string, section: Section, title: string, index: nat): KnowledgeChunk {
    var content := Prefix(title, section.heading) + text;
    KnowledgeChunk(content, index, HeadingFor(section, title), |content| / 4)
  }

  function TextsOf(section: Section, title: string, chunkSize: int, overlap: int): seq<string> {
    Chunks(section.body, chunkSize - |Prefix(title, section.heading)|, overlap)
  }

  function Number(texts: seq<string>, section: Section, title: string, index: nat): (chunks: seq<KnowledgeChunk>)
    ensures |chunks| == |texts|
    ensures forall j | 0 <= j < |texts| :: chunks[j] == ChunkOf(texts[j], section, title, index + j)
  {
    if |texts| == 0 then []
    else [ChunkOf(texts[0], section, title, index)] + Number(texts[1..], section, title, index + 1)
  }

  /** A section with a blank body gives no chunk, so its heading is lost. */
  function SectionChunks(section: Section, title: string, chunkSize: int, overlap: int, index: nat): seq<KnowledgeChunk> {
    if Strip(section.body) == "" then [] else Number(TextsOf(section, title, chunkSize, overlap), section, title, index)
  }

  function ChunksOf(sections: seq<Section>, title: string, chunkSize: int, overlap: int): seq<KnowledgeChunk> {
    if |sections| == 0 then []
    else
      var before := ChunksOf(sections[..|sections| - 1], title, chunkSize, overlap);
      before + SectionChunks(sections[|sections| - 1], title, chunkSize, overlap, |before|)
  }

  lemma ChunksOfNext(sections: seq<Section>, i: nat, title: string, chunkSize: int, overlap: int)
    requires i < |sections|
    ensures var before := ChunksOf(sections[..i], title, chunkSize, overlap);
            ChunksOf(sections[..i + 1], title, chunkSize, overlap)
            == before + SectionChunks(sections[i], title, chunkSize, overlap, |before|)
  {
    assert sections[..i + 1][..i] == sections[..i];
  }

  function AllChunks(content: string, title: string, chunkSize: int, overlap: int): seq<KnowledgeChunk> {
    ChunksOf(Sections(content), title, chunkSize, overlap)
  }

  method JoinPrefix(title: string, heading: string) returns (prefix: string)
    ensures prefix == Prefix(title, heading)
  {
    var parts: seq<string> := [];
    if title != "" {
      parts := parts + ["Document: " + title];
    }
    if heading != "" {
      parts := parts + ["Heading: " + heading];
    }
    if |parts| == 2 {
      prefix := parts[0] + "\n" + parts[1] + BLANK_LINE;
    } else if |parts| == 1 {
      prefix := parts[0] + BLANK_LINE;
    } else {
      prefix := "";
    }
  }

  method ChunkSection(section: Section, title: string, chunkSize: int, overlap: int, index: nat)
    returns (chunks: seq<KnowledgeChunk>)
    ensures chunks == Number(TextsOf(section, title, chunkSize, overlap), section, title, index)
  {
    var prefix := JoinPrefix(title, section.heading);
    var texts := SplitTextChunks(section.body, chunkSize - |prefix|, overlap);
    chunks := [];
    for i := 0 to |texts|
      invariant |chunks| == i
      invariant forall j | 0 <= j < i :: chunks[j] == ChunkOf(texts[j], section, title, index + j)
    {
      var content := prefix + texts[i];
      var heading := if section.heading != "" then section.heading else title;
      chunks := chunks + [KnowledgeChunk(content, index + i, heading, |content| / 4)];
    }
  }

  method ChunkDocument(content: string, title: string, chunkSize: int, overlap: int) returns (chunks: seq<KnowledgeChunk>)
    ensures chunks == AllChunks(content, title, chunkSize, overlap)
  {
    var sections := SplitByHeadings(content);
    chunks := [];
    var chunkIndex: nat := 0;
    for i := 0 to |sections|
      invariant chunks == ChunksOf(sections[..i], title, chunkSize, overlap) && chunkIndex == |chunks|
    {
      ChunksOfNext(sections, i, title, chunkSize, overlap);
      if Strip(sections[i].body) == "" {
        continue;
      }
      var more := ChunkSection(sections[i], title, chunkSize, overlap, chunkIndex);
      chunks := chunks + more;
      chunkIndex := chunkIndex + |more|;
    }
    assert sections[..|sections|] == sections;
  }

  predicate NumberedFrom(chunks: seq<KnowledgeChunk>, index: nat) {
    forall j | 0 <= j < |chunks| :: chunks[j].chunkIndex == index + j
  }

  lemma IndicesAppend(a: seq<KnowledgeChunk>, b: seq<KnowledgeChunk>, index: nat)
    requires NumberedFrom(a, index) && NumberedFrom(b, index + |a|)
    ensures NumberedFrom(a + b, index)
  {
    forall j | |a| <= j < |a + b|
      ensures (a + b)[j].chunkIndex == index + j
    {
      assert (a + b)[j] == b[j - |a|];
    }
  }

  /** The chunks are numbered without gaps. */
  lemma {:induction false} IndicesCount(sections: seq<Section>, title: string, chunkSize: int, overlap: int)
    ensures NumberedFrom(ChunksOf(sections, title, chunkSize, overlap), 0)
  {
    if |sections| == 0 {
    } else {
      var before := ChunksOf(sections[..|sections| - 1], title, chunkSize, overlap);
      IndicesCount(sections[..|sections| - 1], title, chunkSize, overlap);
      IndicesAppend(before, SectionChunks(sections[|sections| - 1], title, chunkSize, overlap, |before|), 0);
    }
  }

  // ---- Size ----

  predicate Fits(chunk: KnowledgeChunk, section: Section, title: string, chunkSize: int, overlap: int) {
    var prefix := Prefix(title, section.heading);
    && |chunk.content| <= |prefix| + Bound(chunkSize - |prefix|, overlap, Longest(Paragraphs(section.body)))
    && prefix <= chunk.content
    && chunk.heading == HeadingFor(section, title)
  }

  ghost predicate FitsOne(chunk: KnowledgeChunk, sections: seq<Section>, title: string, chunkSize: int, overlap: int) {
    exists i :: 0 <= i < |sections| && Fits(chunk, sections[i], title, chunkSize, overlap)
  }

  /** Every chunk belongs to a section, starts with its title and heading, and is within the
      chunk size unless some paragraph of the section, prefix and overlap added, is not. */
  lemma {:induction false} DocumentChunkSize(sections: seq<Section>, title: string, chunkSize: int, overlap: int)
    ensures forall c | c in ChunksOf(sections, title, chunkSize, overlap) :: FitsOne(c, sections, title, chunkSize, overlap)
  {
    if |sections| == 0 {
    } else {
      var last, before := |sections| - 1, sections[..|sections| - 1];
      var chunks := ChunksOf(before, title, chunkSize, overlap);
      DocumentChunkSize(before, title, chunkSize, overlap);
      forall c | c in ChunksOf(sections, title, chunkSize, overlap)
        ensures FitsOne(c, sections, title, chunkSize, overlap)
      {
        if c in chunks {
          var i :| 0 <= i < last && Fits(c, before[i], title, chunkSize, overlap);
          assert sections[i] == before[i];
        } else {
          SectionChunkSize(sections[last], title, chunkSize, overlap, |chunks|, c);
        }
      }
    }
  }

  lemma SectionChunkSize(section: Section, title: string, chunkSize: int, overlap: int, index: nat, c: KnowledgeChunk)
    requires c in SectionChunks(section, title, chunkSize, overlap, index)
    ensures Fits(c, section, title, chunkSize, overlap)
  {
    NumberedChunkSize(section, title, chunkSize, overlap, index, c);
  }

  lemma NumberedChunkSize(section: Section, title: string, chunkSize: int, overlap: int, index: nat, c: KnowledgeChunk)
    requires c in Number(TextsOf(section, title, chunkSize, overlap), section, title, index)
    ensures Fits(c, section, title, chunkSize, overlap)
  {
    var texts := TextsOf(section, title, chunkSize, overlap);
    var j := NumberedMember(texts, section, title, index, c);
    SectionTextBound(section, title, chunkSize, overlap, j);
    TextFits(texts[j], section, title, chunkSize, overlap, index + j);
  }

  lemma SectionTextBound(section: Section, title: string, chunkSize: int, overlap: int, j: nat)
    requires j < |TextsOf(section, title, chunkSize, overlap)|
    ensures |TextsOf(section, title, chunkSize, overlap)[j]|
            <= Bound(chunkSize - |Prefix(title, section.heading)|, overlap, Longest(Paragraphs(section.body)))
  {
    TextBound(section.body, chunkSize - |Prefix(title, section.heading)|, overlap, j);
  }

  lemma NumberedMember(texts: seq<string>, section: Section, title: string, index: nat, c: KnowledgeChunk) returns (j: nat)
    requires c in Number(texts, section, title, index)
    ensures j < |texts| && c == ChunkOf(texts[j], section, title, index + j)
  {
    j :| 0 <= j < |texts| && c == Number(texts, section, title, index)[j];
  }

  lemma TextBound(text: string, chunkSize: int, overlap: int, j: nat)
    requires j < |Chunks(text, chunkSize, overlap)|
    ensures |Chunks(text, chunkSize, overlap)[j]| <= Bound(chunkSize, overlap, Longest(Paragraphs(text)))
  {
    ChunkSizeBound(text, chunkSize, overlap);
    assert Chunks(text, chunkSize, overlap)[j] in Chunks(text, chunkSize, overlap);
  }

  lemma TextFits(text: string, section: Section, title: string, chunkSize: int, overlap: int, index: nat)
    requires |text| <= Bound(chunkSize - |Prefix(title, section.heading)|, overlap, Longest(Paragraphs(section.body)))
    ensures Fits(ChunkOf(text, section, title, index), section, title, chunkSize, overlap)
  {
  }

  predicate Roomy(section: Section, title: string, chunkSize: int, overlap: int) {
    |Prefix(title, section.heading)| + overlap + 2 + Longest(Paragraphs(section.body)) <= chunkSize
  }

  /** So where every paragraph leaves room for prefix and overlap, every chunk fits. */
  lemma RoomyDocumentFits(content: string, title: string, chunkSize: int, overlap: int)
    requires overlap >= 0
    requires forall i | 0 <= i < |Sections(content)| :: Roomy(Sections(content)[i], title, chunkSize, overlap)
    ensures forall c | c in AllChunks(content, title, chunkSize, overlap) :: |c.content| <= chunkSize
  {
    var sections := Sections(content);
    DocumentChunkSize(sections, title, chunkSize, overlap);
    forall c | c in AllChunks(content, title, chunkSize, overlap)
      ensures |c.content| <= chunkSize
    {
      assert FitsOne(c, sections, title, chunkSize, overlap);
      var i :| 0 <= i < |sections| && Fits(c, sections[i], title, chunkSize, overlap);
      assert Roomy(sections[i], title, chunkSize, overlap);
    }
  }
}
