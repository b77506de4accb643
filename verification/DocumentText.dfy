/** What the chunks of a document of app/retrieval/chunking.py keep of it. */
module DocumentText {
  import opened PythonText
  import opened Chunking
  import opened ChunkBoundaries
  import opened DocumentChunks

  /** The sections of a document and how it is cut into chunks. */
  datatype Setup = Setup(sections: seq<Section>, title: string, chunkSize: int, overlap: int)

  function PrefixAt(d: Setup, i: nat): string
    requires i < |d.sections|
  {
    Prefix(d.title, d.sections[i].heading)
  }

  /** How a chunk comes apart: the prefix of its section, what it repeats of the chunk before,
      text of its own. */
  datatype Mark = Mark(section: nat, repeated: nat)

  predicate MarkFits(d: Setup, mark: Mark, chunk: KnowledgeChunk) {
    && mark.section < |d.sections| && PrefixAt(d, mark.section) <= chunk.content
    && |PrefixAt(d, mark.section)| + mark.repeated <= |chunk.content|
    && chunk.heading == HeadingFor(d.sections[mark.section], d.title)
  }

  predicate MarksFit(d: Setup, marks: seq<Mark>, chunks: seq<KnowledgeChunk>) {
    |marks| == |chunks| && forall j | 0 <= j < |chunks| :: MarkFits(d, marks[j], chunks[j])
  }

  function TextOf(d: Setup, mark: Mark, chunk: KnowledgeChunk): string
    requires MarkFits(d, mark, chunk)
  {
    chunk.content[|PrefixAt(d, mark.section)|..]
  }

  /** A chunk goes on in the section of the one before, as the chunks of a text do, or begins
      a later one. */
  ghost predicate Follows(d: Setup, before: KnowledgeChunk, beforeMark: Mark, chunk: KnowledgeChunk, mark: Mark)
    requires MarkFits(d, beforeMark, before) && MarkFits(d, mark, chunk)
  {
    if beforeMark.section == mark.section then
      Linked(TextOf(d, beforeMark, before), beforeMark.repeated, TextOf(d, mark, chunk), mark.repeated,
             Paragraphs(d.sections[mark.section].body), d.chunkSize - |PrefixAt(d, mark.section)|, d.overlap)
    else
      beforeMark.section < mark.section && mark.repeated == 0
  }

  ghost predicate MarksOk(d: Setup, marks: seq<Mark>, chunks: seq<KnowledgeChunk>) {
    && MarksFit(d, marks, chunks)
    && (|chunks| > 0 ==> marks[0].repeated == 0)
    && (forall j | 0 < j < |chunks| :: Follows(d, chunks[j - 1], marks[j - 1], chunks[j], marks[j]))
  }

  function OwnText(d: Setup, marks: seq<Mark>, chunks: seq<KnowledgeChunk>): string
    requires MarksFit(d, marks, chunks)
  {
    if |chunks| == 0 then ""
    else TextOf(d, marks[0], chunks[0])[marks[0].repeated..] + OwnText(d, marks[1..], chunks[1..])
  }

  /** The chunks, so marked, keep the text. */
  ghost predicate Keeps(d: Setup, marks: seq<Mark>, chunks: seq<KnowledgeChunk>, text: string) {
    MarksOk(d, marks, chunks) && NonSpace(OwnText(d, marks, chunks)) == NonSpace(text)
  }

  predicate HasMark(marks: seq<Mark>, i: nat) {
    exists j :: 0 <= j < |marks| && marks[j].section == i
  }

  predicate Within(marks: seq<Mark>, from: nat, to: nat) {
    forall j | 0 <= j < |marks| :: from <= marks[j].section < to
  }

  // ---- One after the other ----

  lemma MarksFitAppend(d: Setup, am: seq<Mark>, a: seq<KnowledgeChunk>, bm: seq<Mark>, b: seq<KnowledgeChunk>)
    requires MarksFit(d, am, a) && MarksFit(d, bm, b)
    ensures MarksFit(d, am + bm, a + b)
  {
  }

  lemma TailOfSum<T>(a: seq<T>, b: seq<T>)
    requires |a| > 0
    ensures (a + b)[1..] == a[1..] + b && (a + b)[0] == a[0]
  {
  }

  lemma {:induction false} OwnTextAppend(d: Setup, am: seq<Mark>, a: seq<KnowledgeChunk>, bm: seq<Mark>, b: seq<KnowledgeChunk>)
    requires MarksFit(d, am, a) && MarksFit(d, bm, b) && MarksFit(d, am + bm, a + b)
    ensures OwnText(d, am + bm, a + b) == OwnText(d, am, a) + OwnText(d, bm, b)
    decreases |a|
  {
    if |a| == 0 {
      assert a + b == b && am + bm == bm;
    } else {
      MarksFitAppend(d, am[1..], a[1..], bm, b);
      OwnTextAppend(d, am[1..], a[1..], bm, b);
      TailOfSum(a, b);
      TailOfSum(am, bm);
      Regroup(TextOf(d, am[0], a[0])[am[0].repeated..], OwnText(d, am[1..], a[1..]), OwnText(d, bm, b));
    }
  }

  /** The second part belongs to later sections. */
  lemma MarksAppend(d: Setup, am: seq<Mark>, a: seq<KnowledgeChunk>, bm: seq<Mark>, b: seq<KnowledgeChunk>, n: nat)
    requires MarksOk(d, am, a) && MarksOk(d, bm, b) && Within(am, 0, n) && Within(bm, n, n + 1)
    ensures MarksOk(d, am + bm, a + b)
  {
    var c, cm := a + b, am + bm;
    MarksFitAppend(d, am, a, bm, b);
    forall j | 0 < j < |c|
      ensures Follows(d, c[j - 1], cm[j - 1], c[j], cm[j])
    {
      if j > |a| {
        assert Follows(d, b[j - |a| - 1], bm[j - |a| - 1], b[j - |a|], bm[j - |a|]);
      } else if j < |a| {
        assert Follows(d, a[j - 1], am[j - 1], a[j], am[j]);
      }
    }
  }

  lemma KeepsAppend(d: Setup, am: seq<Mark>, a: seq<KnowledgeChunk>, s: string,
                    bm: seq<Mark>, b: seq<KnowledgeChunk>, t: string, n: nat)
    requires Keeps(d, am, a, s) && Keeps(d, bm, b, t) && Within(am, 0, n) && Within(bm, n, n + 1)
    ensures Keeps(d, am + bm, a + b, s + t)
  {
    NonSpaceAppend(s, t);
    MarksAppend(d, am, a, bm, b, n);
    OwnTextAppend(d, am, a, bm, b);
    NonSpaceAppend(OwnText(d, am, a), OwnText(d, bm, b));
  }

  // ---- One section ----

  function MarksOf(i: nat, cuts: seq<nat>): (marks: seq<Mark>)
    ensures |marks| == |cuts| && forall j | 0 <= j < |cuts| :: marks[j] == Mark(i, cuts[j])
  {
    seq(|cuts|, j requires 0 <= j < |cuts| => Mark(i, cuts[j]))
  }

  lemma NumberedText(text: string, section: Section, title: string, index: nat)
    ensures var prefix, chunk := Prefix(title, section.heading), ChunkOf(text, section, title, index);
            && prefix <= chunk.content && chunk.content[|prefix|..] == text
            && chunk.heading == HeadingFor(section, title)
  {
  }

  lemma NumberedFit(d: Setup, i: nat, texts: seq<string>, index: nat, cuts: seq<nat>)
    requires i < |d.sections| && CutsFit(texts, cuts)
    ensures var chunks := Number(texts, d.sections[i], d.title, index);
            && MarksFit(d, MarksOf(i, cuts), chunks)
            && forall j | 0 <= j < |texts| :: TextOf(d, Mark(i, cuts[j]), chunks[j]) == texts[j]
  {
    forall j | 0 <= j < |texts|
      ensures MarkFits(d, Mark(i, cuts[j]), ChunkOf(texts[j], d.sections[i], d.title, index + j))
      ensures ChunkOf(texts[j], d.sections[i], d.title, index + j).content[|PrefixAt(d, i)|..] == texts[j]
    {
      NumberedText(texts[j], d.sections[i], d.title, index + j);
    }
  }

  lemma {:induction false} OwnTextOfNumbered(d: Setup, i: nat, texts: seq<string>, index: nat, cuts: seq<nat>)
    requires i < |d.sections| && CutsFit(texts, cuts)
    requires MarksFit(d, MarksOf(i, cuts), Number(texts, d.sections[i], d.title, index))
    ensures OwnText(d, MarksOf(i, cuts), Number(texts, d.sections[i], d.title, index)) == Own(texts, cuts)
    decreases |texts|
  {
    if |texts| == 0 {
    } else {
      var chunks, marks := Number(texts, d.sections[i], d.title, index), MarksOf(i, cuts);
      NumberedFit(d, i, texts, index, cuts);
      NumberedFit(d, i, texts[1..], index + 1, cuts[1..]);
      OwnTextOfNumbered(d, i, texts[1..], index + 1, cuts[1..]);
      assert chunks[1..] == Number(texts[1..], d.sections[i], d.title, index + 1);
      assert marks[1..] == MarksOf(i, cuts[1..]);
    }
  }

  lemma NumberedMarks(d: Setup, i: nat, texts: seq<string>, index: nat, cuts: seq<nat>)
    requires i < |d.sections|
    requires Explained(d.sections[i].body, texts, cuts, d.chunkSize - |PrefixAt(d, i)|, d.overlap)
    ensures Keeps(d, MarksOf(i, cuts), Number(texts, d.sections[i], d.title, index), d.sections[i].body)
  {
    var chunks, marks := Number(texts, d.sections[i], d.title, index), MarksOf(i, cuts);
    NumberedFit(d, i, texts, index, cuts);
    OwnTextOfNumbered(d, i, texts, index, cuts);
    forall j | 0 < j < |chunks|
      ensures Follows(d, chunks[j - 1], marks[j - 1], chunks[j], marks[j])
    {
      assert TextOf(d, marks[j - 1], chunks[j - 1]) == texts[j - 1] && TextOf(d, marks[j], chunks[j]) == texts[j];
      assert Linked(texts[j - 1], cuts[j - 1], texts[j], cuts[j],
                    Paragraphs(d.sections[i].body), d.chunkSize - |PrefixAt(d, i)|, d.overlap);
    }
  }

  /** A text that is not blank has a chunk. */
  lemma SomeChunk(text: string, texts: seq<string>, cuts: seq<nat>, chunkSize: int, overlap: int)
    requires Explained(text, texts, cuts, chunkSize, overlap) && Strip(text) != ""
    ensures |cuts| > 0
  {
    NonSpaceOfStrip(text);
    var lead := StripCuts(text);
    assert NonSpace(Strip(text)) != "";
  }

  lemma SectionTold(d: Setup, i: nat) returns (cuts: seq<nat>)
    requires i < |d.sections|
    ensures var section := d.sections[i];
            Explained(section.body, TextsOf(section, d.title, d.chunkSize, d.overlap), cuts,
                      d.chunkSize - |PrefixAt(d, i)|, d.overlap)
  {
    cuts := ChunkingLosesNothing(d.sections[i].body, d.chunkSize - |PrefixAt(d, i)|, d.overlap);
  }

  /** A section has chunks exactly when its body is not blank, and they are its body. */
  lemma SectionMarks(d: Setup, i: nat, index: nat) returns (marks: seq<Mark>)
    requires i < |d.sections|
    ensures Keeps(d, marks, SectionChunks(d.sections[i], d.title, d.chunkSize, d.overlap, index), d.sections[i].body)
    ensures Within(marks, i, i + 1) && (|marks| > 0 <==> Strip(d.sections[i].body) != "")
  {
    var section := d.sections[i];
    if Strip(section.body) == "" {
      NonSpaceOfStrip(section.body);
      marks := [];
    } else {
      marks := BodyMarks(d, i, index);
    }
  }

  lemma BodyMarks(d: Setup, i: nat, index: nat) returns (marks: seq<Mark>)
    requires i < |d.sections| && Strip(d.sections[i].body) != ""
    ensures var section := d.sections[i];
            Keeps(d, marks, Number(TextsOf(section, d.title, d.chunkSize, d.overlap), section, d.title, index), section.body)
    ensures Within(marks, i, i + 1) && |marks| > 0
  {
    var texts := TextsOf(d.sections[i], d.title, d.chunkSize, d.overlap);
    var cuts := SectionTold(d, i);
    SomeChunk(d.sections[i].body, texts, cuts, d.chunkSize - |PrefixAt(d, i)|, d.overlap);
    marks := MarksOf(i, cuts);
    NumberedMarks(d, i, texts, index, cuts);
  }

  // ---- All sections ----

  function ChunksUpTo(d: Setup, n: nat): seq<KnowledgeChunk>
    requires n <= |d.sections|
  {
    ChunksOf(d.sections[..n], d.title, d.chunkSize, d.overlap)
  }

  /** Marks for the chunks of the first n sections. */
  ghost predicate Marked(d: Setup, n: nat, marks: seq<Mark>)
    requires n <= |d.sections|
  {
    && Keeps(d, marks, ChunksUpTo(d, n), Concat(Bodies(d.sections[..n])))
    && Within(marks, 0, n)
    && forall i | 0 <= i < n :: HasMark(marks, i) <==> Strip(d.sections[i].body) != ""
  }

  lemma {:induction false} SectionsLoseNothing(d: Setup, n: nat) returns (marks: seq<Mark>)
    requires n <= |d.sections|
    ensures Marked(d, n, marks)
    decreases n
  {
    if n == 0 {
      marks := [];
    } else {
      var earlier := SectionsLoseNothing(d, n - 1);
      var chunks := ChunksUpTo(d, n - 1);
      var last := SectionMarks(d, n - 1, |chunks|);
      marks := earlier + last;
      MarkedMore(d, n - 1, earlier, last);
    }
  }

  lemma MarkedMore(d: Setup, n: nat, earlier: seq<Mark>, last: seq<Mark>)
    requires n < |d.sections| && Marked(d, n, earlier)
    requires var section := d.sections[n];
             && Keeps(d, last, SectionChunks(section, d.title, d.chunkSize, d.overlap, |ChunksUpTo(d, n)|), section.body)
             && Within(last, n, n + 1) && (|last| > 0 <==> Strip(section.body) != "")
    ensures Marked(d, n + 1, earlier + last)
  {
    KeepsMore(d, n, earlier, last);
    HasMarkAppend(earlier, last, n);
  }

  lemma KeepsMore(d: Setup, n: nat, earlier: seq<Mark>, last: seq<Mark>)
    requires n < |d.sections| && Within(earlier, 0, n) && Within(last, n, n + 1)
    requires Keeps(d, earlier, ChunksUpTo(d, n), Concat(Bodies(d.sections[..n])))
    requires var section := d.sections[n];
             Keeps(d, last, SectionChunks(section, d.title, d.chunkSize, d.overlap, |ChunksUpTo(d, n)|), section.body)
    ensures Keeps(d, earlier + last, ChunksUpTo(d, n + 1), Concat(Bodies(d.sections[..n + 1])))
  {
    var section := d.sections[n];
    ChunksOfNext(d.sections, n, d.title, d.chunkSize, d.overlap);
    BodiesNext(d.sections, n);
    KeepsAppend(d, earlier, ChunksUpTo(d, n), Concat(Bodies(d.sections[..n])), last,
                SectionChunks(section, d.title, d.chunkSize, d.overlap, |ChunksUpTo(d, n)|), section.body, n);
  }

  lemma BodiesNext(sections: seq<Section>, n: nat)
    requires n < |sections|
    ensures Concat(Bodies(sections[..n + 1])) == Concat(Bodies(sections[..n])) + sections[n].body
  {
    var last := sections[n].body;
    assert Bodies(sections[..n + 1]) == Bodies(sections[..n]) + [last];
    ConcatAppend(Bodies(sections[..n]), [last]);
    assert Concat([last]) == last + Concat([last][1..]) == last;
  }

  lemma HasMarkAppend(earlier: seq<Mark>, last: seq<Mark>, n: nat)
    requires Within(earlier, 0, n) && Within(last, n, n + 1)
    ensures Within(earlier + last, 0, n + 1)
    ensures forall i | 0 <= i < n :: HasMark(earlier + last, i) <==> HasMark(earlier, i)
    ensures HasMark(earlier + last, n) <==> |last| > 0
  {
    forall i | 0 <= i < n
      ensures HasMark(earlier + last, i) <==> HasMark(earlier, i)
    {
      if j :| 0 <= j < |earlier| && earlier[j].section == i {
        assert (earlier + last)[j].section == i;
      }
    }
    if |last| > 0 {
      assert (earlier + last)[|earlier|].section == n;
    }
  }

  // ---- The document ----

  function SetupOf(content: string, title: string, chunkSize: int, overlap: int): Setup {
    Setup(Sections(content), title, chunkSize, overlap)
  }

  /** The chunks of a document are numbered 0, 1, 2, ...; each starts with the title and
      heading of its section; a section has chunks exactly when its body is not blank; and
      without prefixes and overlaps the chunks spell out in order all that is not heading or
      whitespace. With its headings back in place, that is the document. */
  lemma DocumentLosesNothing(content: string, title: string, chunkSize: int, overlap: int) returns (marks: seq<Mark>)
    ensures var d, chunks := SetupOf(content, title, chunkSize, overlap), AllChunks(content, title, chunkSize, overlap);
            && MarksOk(d, marks, chunks) && NumberedFrom(chunks, 0)
            && forall i | 0 <= i < |d.sections| :: HasMark(marks, i) <==> Strip(d.sections[i].body) != ""
    ensures var d, chunks := SetupOf(content, title, chunkSize, overlap), AllChunks(content, title, chunkSize, overlap);
            var cut := CutAtHeadings(content, true);
            && MarksFit(d, marks, chunks) && NonSpace(OwnText(d, marks, chunks)) == NonSpace(Concat(cut.parts))
            && Weave(cut.parts, cut.headings) == content
  {
    var d := SetupOf(content, title, chunkSize, overlap);
    SectionsKeepText(content);
    marks := SectionsLoseNothing(d, |d.sections|);
    assert d.sections[..|d.sections|] == d.sections;
    IndicesCount(d.sections, title, chunkSize, overlap);
  }

  // ---- Headings that are lost ----

  const LONE := "# A"

  lemma LoneHeadingFound()
    ensures HeadingLength(LONE) == 3
  {
    assert LONE[1..] == " A" && LONE[1..][1..] == "A" && LONE[2..] == "A" && "A"[1..] == "";
    assert HashRun(LONE) == 1 && SpaceRun(LONE[1..]) == 1 && LineRest(LONE[2..]) == 1;
  }

  lemma LoneHeadingCut()
    ensures CutAtHeadings(LONE, true) == Cut(["", ""], [LONE])
  {
    LoneHeadingFound();
    assert LONE[3..] == "" && LONE[..3] == LONE;
  }

  lemma LoneSection()
    ensures Sections(LONE) == [Section(LONE, "")]
  {
    LoneHeadingCut();
    assert Strip("") == "" && Strip(LONE) == LONE;
    var cut := CutAtHeadings(LONE, true);
    assert Headed(cut.parts, cut.headings) == [Section(LONE, "")] + Headed(cut.parts[1..], cut.headings[1..]);
  }

  /** A document that is a heading and nothing else has no chunk at all. */
  lemma LoneHeadingIsLost()
    ensures Sections("# A") == [Section("# A", "")]
    ensures AllChunks("# A", "", 2048, 256) == []
  {
    LoneSection();
    assert [Section(LONE, "")][..0] == [];
  }
}
