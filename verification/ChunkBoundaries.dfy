/** Where one chunk of app/retrieval/chunking.py ends and the next begins, and that nothing is
    lost in between: chunks are filled as far as they go, the overlap is exactly what was
    asked for, and without it the chunks are the text. */
module ChunkBoundaries {
  import opened PythonText
  import opened Chunking

  // ---- Cuts ----

  /** The chunks with the given prefixes cut off. */
  function Own(chunks: seq<string>, cuts: seq<nat>): string
    requires CutsFit(chunks, cuts)
  {
    if |chunks| == 0 then "" else chunks[0][cuts[0]..] + Own(chunks[1..], cuts[1..])
  }

  predicate CutsFit(chunks: seq<string>, cuts: seq<nat>) {
    |cuts| == |chunks| && forall j | 0 <= j < |chunks| :: cuts[j] <= |chunks[j]|
  }

  /** How long a chunk was before it was stripped: the tail it took over had `overlap`
      characters, of which `cut` are left. */
  function Length(chunk: string, cut: nat, overlap: int): int {
    |chunk| - cut + (if cut > 0 then overlap else 0)
  }

  /** What the next chunk takes over from a chunk: nothing without overlap or where the chunk
      was no longer than that; otherwise its last `overlap` characters, stripped. */
  function TailFor(before: string, cut: nat, overlap: int): string {
    if overlap <= 0 || Length(before, cut, overlap) <= overlap then ""
    else if |before| > overlap then Strip(before[|before| - overlap..])
    else before
  }

  predicate Opens(chunk: string, tail: string, para: string) {
    if tail == "" then para <= chunk else tail + BLANK_LINE + para <= chunk
  }

  /** `chunk` begins with the tail of the chunk before, if any, and a blank line, and goes on
      with the paragraph `para`, which no longer fitted into the chunk before. */
  predicate Continues(before: string, beforeCut: nat, chunk: string, cut: nat, para: string, chunkSize: int, overlap: int) {
    && cut <= |chunk| && cut <= |before| && chunk[..cut] == before[|before| - cut..]
    && chunk[..cut] == TailFor(before, beforeCut, overlap) && Opens(chunk, chunk[..cut], para)
    && Length(before, beforeCut, overlap) + |para| + 2 > chunkSize
  }

  ghost predicate Linked(before: string, beforeCut: nat, chunk: string, cut: nat,
                         paras: seq<string>, chunkSize: int, overlap: int)
  {
    exists para :: para in paras && Continues(before, beforeCut, chunk, cut, para, chunkSize, overlap)
  }

  ghost predicate Chain(chunks: seq<string>, cuts: seq<nat>, paras: seq<string>, chunkSize: int, overlap: int) {
    && CutsFit(chunks, cuts)
    && forall j | 0 < j < |chunks| :: Linked(chunks[j - 1], cuts[j - 1], chunks[j], cuts[j], paras, chunkSize, overlap)
  }

  // ---- A chunk in the making ----

  predicate EndsSolid(s: string) {
    |s| > 0 && !IsSpace(s[|s| - 1])
  }

  lemma StripOfSolid(s: string) returns (lead: nat)
    requires EndsSolid(s)
    ensures lead < |s| && Strip(s) == s[lead..] && SpaceTo(s, lead) && EndsSolid(Strip(s)) && !IsSpace(s[lead])
  {
    lead := StripCuts(s);
    var r := Strip(s);
    assert lead + |r| == |s|;
    assert |r| > 0;
    assert s[lead] == r[0];
  }

  /** `current` was begun with what it took over, `head`, and the paragraph `para`. */
  predicate Underway(current: string, head: string, para: string, overlap: int) {
    && EndsSolid(current) && |para| > 0 && Trimmed(para)
    && (head != "" ==> EndsSolid(head) && |head| == overlap)
    && Opens(current, head, para)
  }

  lemma HeadKept(current: string, head: string, para: string)
    requires Opens(current, head, para)
    ensures |head| <= |current| && current[..|head|] == head && forall i | 0 <= i < |head| :: current[i] == head[i]
  {
    if head != "" {
      var all := head + BLANK_LINE + para;
      assert all == current[..|all|];
      assert all[..|head|] == head;
    }
  }

  /** Stripping a chunk shortens what it took over, never beyond its end. */
  lemma Opening(current: string, head: string, para: string, overlap: int)
    requires Underway(current, head, para, overlap)
    ensures Opens(Strip(current), Strip(head), para) && EndsSolid(Strip(current))
    ensures |Strip(head)| <= |Strip(current)| && Strip(current)[..|Strip(head)|] == Strip(head)
    ensures Strip(current)[|Strip(head)|..] == current[|head|..]
    ensures Length(Strip(current), |Strip(head)|, overlap) == |current|
  {
    var lead := StripOfSolid(current);
    HeadKept(current, head, para);
    if head == "" {
      assert current[0] == para[0];
      assert lead == 0;
      assert current[0..] == current && Strip(head) == "" && current[..0] == "";
    } else {
      var headLead := StripOfSolid(head);
      assert lead == headLead;
      OpeningStripped(current, head, para, lead);
      assert current[lead..][..|head| - lead] == head[lead..];
      assert current[lead..][|head| - lead..] == current[|head|..];
    }
  }

  lemma OpeningStripped(current: string, head: string, para: string, lead: nat)
    requires lead < |head| && head + BLANK_LINE + para <= current
    ensures head[lead..] + BLANK_LINE + para <= current[lead..]
  {
    var all := head + BLANK_LINE + para;
    assert all[lead..] == head[lead..] + BLANK_LINE + para;
    assert all == current[..|all|];
    assert current[lead..][..|all| - lead] == all[lead..];
  }

  function Handed(current: string, overlap: int): string {
    if overlap > 0 && |current| > overlap then current[|current| - overlap..] else ""
  }

  lemma NextUnderway(current: string, para: string, overlap: int)
    requires EndsSolid(current) && |para| > 0 && Trimmed(para)
    ensures Underway(Carried(current, para, overlap), Handed(current, overlap), para, overlap)
  {
  }

  lemma UnderwayJoined(current: string, head: string, para: string, more: string, overlap: int)
    requires Underway(current, head, para, overlap) && |more| > 0 && Trimmed(more)
    ensures Underway(Joined(current, more), head, para, overlap)
  {
  }

  /** What is handed on, relative to the finished chunk. */
  lemma HandedOn(current: string, cut: nat, overlap: int)
    requires EndsSolid(current) && Length(Strip(current), cut, overlap) == |current|
    ensures var tail := Strip(Handed(current, overlap));
            && tail == TailFor(Strip(current), cut, overlap)
            && |tail| <= |Strip(current)| && Strip(current)[|Strip(current)| - |tail|..] == tail
  {
    if overlap > 0 && |current| > overlap {
      TailHandedOn(current, overlap);
    } else {
      assert Strip("") == "" && Strip(current)[|Strip(current)|..] == "";
    }
  }

  lemma TailHandedOn(current: string, overlap: nat)
    requires EndsSolid(current) && 0 < overlap < |current|
    ensures var tail, chunk := Strip(current[|current| - overlap..]), Strip(current);
            && |tail| <= |chunk| && chunk[|chunk| - |tail|..] == tail
            && tail == if |chunk| > overlap then Strip(chunk[|chunk| - overlap..]) else chunk
  {
    var lead := StripOfSolid(current);
    var head := current[|current| - overlap..];
    var headLead := StripOfSolid(head);
    if |current| - lead > overlap {
      LongerIsCut(current, lead, overlap, headLead);
    } else {
      ShorterIsWhole(current, lead, overlap, headLead);
    }
  }

  lemma LongerIsCut(current: string, lead: nat, overlap: nat, headLead: nat)
    requires overlap < |current| - lead && headLead < overlap
    ensures var head, chunk := current[|current| - overlap..], current[lead..];
            && chunk[|chunk| - overlap..] == head
            && chunk[|chunk| - |head[headLead..]|..] == head[headLead..]
  {
    TailOfTail(current, lead, overlap);
    TailOfTail(current[lead..], |current| - lead - overlap, overlap - headLead);
  }

  lemma TailOfTail(s: string, lead: nat, n: nat)
    requires lead <= |s| && n <= |s| - lead
    ensures s[lead..][|s| - lead - n..] == s[|s| - n..]
  {
  }

  lemma ShorterIsWhole(current: string, lead: nat, overlap: nat, headLead: nat)
    requires lead < |current| && overlap < |current| && |current| - lead <= overlap && headLead < overlap
    requires SpaceTo(current, lead) && !IsSpace(current[lead])
    requires var head := current[|current| - overlap..]; SpaceTo(head, headLead) && !IsSpace(head[headLead])
    ensures current[|current| - overlap..][headLead..] == current[lead..]
  {
    var start := |current| - overlap;
    var head := current[start..];
    assert forall i | 0 <= i < overlap :: head[i] == current[start + i];
    assert !IsSpace(current[start + headLead]);
    assert !IsSpace(head[lead - start]);
    assert start + headLead == lead;
  }

  // ---- The text of a chunk in the making ----

  lemma BlankLineThen(head: string, para: string)
    ensures NonSpace(head + (BLANK_LINE + para)) == NonSpace(head) + NonSpace(para)
  {
    NonSpaceAppend(head, BLANK_LINE + para);
    NonSpaceAppend(BLANK_LINE, para);
    SpaceVanishes(BLANK_LINE);
  }

  lemma CarriedText(current: string, para: string, overlap: int)
    ensures var next, handed := Carried(current, para, overlap), Handed(current, overlap);
            |handed| <= |next| && NonSpace(next[|handed|..]) == NonSpace(para)
  {
    var next, handed := Carried(current, para, overlap), Handed(current, overlap);
    if handed == "" {
      assert next[0..] == next;
    } else {
      BlankLineThen("", para);
      assert next[|handed|..] == "" + (BLANK_LINE + para);
    }
  }

  lemma JoinedText(current: string, carried: nat, para: string)
    requires |current| > 0 && carried <= |current|
    ensures NonSpace(Joined(current, para)[carried..]) == NonSpace(current[carried..]) + NonSpace(para)
  {
    BlankLineThen(current[carried..], para);
    assert Joined(current, para)[carried..] == current[carried..] + (BLANK_LINE + para);
  }

  // ---- The chunks from here to the end ----

  /** They go on from `current` and tell what is new in it and what is left. */
  ghost predicate Told(chunks: seq<string>, cuts: seq<nat>, paras: seq<string>, chunkSize: int, overlap: int,
                       current: string, head: string, para: string)
    requires |head| <= |current|
  {
    && |chunks| > 0 && Chain(chunks, cuts, paras, chunkSize, overlap)
    && cuts[0] == |Strip(head)| && chunks[0][..cuts[0]] == Strip(head) && Opens(chunks[0], Strip(head), para)
    && NonSpace(Own(chunks, cuts)) == NonSpace(current[|head|..]) + NonSpace(Concat(paras))
  }

  lemma {:induction false} ChunksTold(paras: seq<string>, chunkSize: int, overlap: int, current: string, head: string, para: string)
    returns (cuts: seq<nat>)
    requires AllTrimmed(paras) && Underway(current, head, para, overlap)
    ensures |head| <= |current|
    ensures Told(ChunksFrom(paras, chunkSize, overlap, current), cuts, paras, chunkSize, overlap, current, head, para)
    decreases |paras|
  {
    HeadShorter(current, head, para);
    if |paras| == 0 {
      cuts := [|Strip(head)|];
      OneChunk(paras, chunkSize, overlap, current, head, para);
    } else if Overflows(current, paras[0], chunkSize) {
      var next, handed := Carried(current, paras[0], overlap), Handed(current, overlap);
      NextUnderway(current, paras[0], overlap);
      var rest := ChunksTold(paras[1..], chunkSize, overlap, next, handed, paras[0]);
      cuts := [|Strip(head)|] + rest;
      ChunkTold(paras, chunkSize, overlap, current, head, para, rest);
    } else {
      UnderwayJoined(current, head, para, paras[0], overlap);
      cuts := ChunksTold(paras[1..], chunkSize, overlap, Joined(current, paras[0]), head, para);
      JoinedTold(paras, chunkSize, overlap, current, head, para, cuts);
    }
  }

  lemma HeadShorter(current: string, head: string, para: string)
    requires Opens(current, head, para)
    ensures |head| <= |current|
  {
    HeadKept(current, head, para);
  }

  lemma OneChunk(paras: seq<string>, chunkSize: int, overlap: int, current: string, head: string, para: string)
    requires |paras| == 0 && Underway(current, head, para, overlap) && |head| <= |current|
    ensures Told(ChunksFrom(paras, chunkSize, overlap, current), [|Strip(head)|], paras, chunkSize, overlap, current, head, para)
  {
    Opening(current, head, para, overlap);
    var chunk, cut := Strip(current), |Strip(head)|;
    assert Own([chunk], [cut]) == chunk[cut..] + Own([chunk][1..], [cut][1..]) == chunk[cut..];
    assert Concat(paras) == "";
  }

  lemma ChainMore(chunks: seq<string>, cuts: seq<nat>, paras: seq<string>, chunkSize: int, overlap: int)
    requires |paras| > 0 && Chain(chunks, cuts, paras[1..], chunkSize, overlap)
    ensures Chain(chunks, cuts, paras, chunkSize, overlap)
  {
    forall j | 0 < j < |chunks|
      ensures Linked(chunks[j - 1], cuts[j - 1], chunks[j], cuts[j], paras, chunkSize, overlap)
    {
      assert Linked(chunks[j - 1], cuts[j - 1], chunks[j], cuts[j], paras[1..], chunkSize, overlap);
    }
  }

  lemma ChainCons(chunk: string, cut: nat, chunks: seq<string>, cuts: seq<nat>, paras: seq<string>, chunkSize: int, overlap: int)
    requires |chunks| > 0 && Chain(chunks, cuts, paras, chunkSize, overlap) && cut <= |chunk|
    requires Linked(chunk, cut, chunks[0], cuts[0], paras, chunkSize, overlap)
    ensures Chain([chunk] + chunks, [cut] + cuts, paras, chunkSize, overlap)
  {
    var all, allCuts := [chunk] + chunks, [cut] + cuts;
    forall j | 0 < j < |all|
      ensures Linked(all[j - 1], allCuts[j - 1], all[j], allCuts[j], paras, chunkSize, overlap)
    {
      if j > 1 {
        assert Linked(chunks[j - 2], cuts[j - 2], chunks[j - 1], cuts[j - 1], paras, chunkSize, overlap);
      }
    }
  }

  lemma OwnCons(chunk: string, cut: nat, chunks: seq<string>, cuts: seq<nat>)
    requires CutsFit(chunks, cuts) && cut <= |chunk|
    ensures CutsFit([chunk] + chunks, [cut] + cuts)
    ensures NonSpace(Own([chunk] + chunks, [cut] + cuts)) == NonSpace(chunk[cut..]) + NonSpace(Own(chunks, cuts))
  {
    assert ([chunk] + chunks)[1..] == chunks && ([cut] + cuts)[1..] == cuts;
    NonSpaceAppend(chunk[cut..], Own(chunks, cuts));
  }

  /** The finished chunk and the one after it. */
  lemma NextLinked(current: string, head: string, para: string, next: string, nextCut: nat, nextPara: string,
                   chunkSize: int, overlap: int)
    requires Underway(current, head, para, overlap) && Overflows(current, nextPara, chunkSize)
    requires nextCut <= |next| && next[..nextCut] == Strip(Handed(current, overlap)) && nextCut == |Strip(Handed(current, overlap))|
    requires Opens(next, Strip(Handed(current, overlap)), nextPara)
    ensures Continues(Strip(current), |Strip(head)|, next, nextCut, nextPara, chunkSize, overlap)
  {
    Opening(current, head, para, overlap);
    HandedOn(current, |Strip(head)|, overlap);
  }

  lemma ChunkTold(paras: seq<string>, chunkSize: int, overlap: int, current: string, head: string, para: string,
                  restCuts: seq<nat>)
    requires |paras| > 0 && Underway(current, head, para, overlap) && Overflows(current, paras[0], chunkSize) && |head| <= |current|
    requires |Handed(current, overlap)| <= |Carried(current, paras[0], overlap)|
    requires Told(ChunksFrom(paras[1..], chunkSize, overlap, Carried(current, paras[0], overlap)), restCuts,
                  paras[1..], chunkSize, overlap, Carried(current, paras[0], overlap), Handed(current, overlap), paras[0])
    ensures Told(ChunksFrom(paras, chunkSize, overlap, current), [|Strip(head)|] + restCuts,
                 paras, chunkSize, overlap, current, head, para)
  {
    var rest := ChunksFrom(paras[1..], chunkSize, overlap, Carried(current, paras[0], overlap));
    Opening(current, head, para, overlap);
    NextLinked(current, head, para, rest[0], restCuts[0], paras[0], chunkSize, overlap);
    ChainMore(rest, restCuts, paras, chunkSize, overlap);
    assert Linked(Strip(current), |Strip(head)|, rest[0], restCuts[0], paras, chunkSize, overlap);
    ChainCons(Strip(current), |Strip(head)|, rest, restCuts, paras, chunkSize, overlap);
    CarriedText(current, paras[0], overlap);
    FirstParagraph(paras);
    OwnCons(Strip(current), |Strip(head)|, rest, restCuts);
  }

  lemma JoinedTold(paras: seq<string>, chunkSize: int, overlap: int, current: string, head: string, para: string,
                   cuts: seq<nat>)
    requires |paras| > 0 && |current| > 0 && |head| <= |current| && !Overflows(current, paras[0], chunkSize)
    requires Told(ChunksFrom(paras[1..], chunkSize, overlap, Joined(current, paras[0])), cuts,
                  paras[1..], chunkSize, overlap, Joined(current, paras[0]), head, para)
    ensures Told(ChunksFrom(paras, chunkSize, overlap, current), cuts, paras, chunkSize, overlap, current, head, para)
  {
    var chunks := ChunksFrom(paras[1..], chunkSize, overlap, Joined(current, paras[0]));
    ChainMore(chunks, cuts, paras, chunkSize, overlap);
    JoinedText(current, |head|, paras[0]);
    FirstParagraph(paras);
    Regroup(NonSpace(current[|head|..]), NonSpace(paras[0]), NonSpace(Concat(paras[1..])));
  }

  lemma FirstParagraph(paras: seq<string>)
    requires |paras| > 0
    ensures NonSpace(Concat(paras)) == NonSpace(paras[0]) + NonSpace(Concat(paras[1..]))
  {
    NonSpaceAppend(paras[0], Concat(paras[1..]));
  }

  // ---- The theorem ----

  /** The chunks of a text, and where their own part begins. */
  ghost predicate Explained(text: string, chunks: seq<string>, cuts: seq<nat>, chunkSize: int, overlap: int) {
    && Chain(chunks, cuts, Paragraphs(text), chunkSize, overlap)
    && (|chunks| > 0 ==> cuts[0] == 0)
    && NonSpace(Own(chunks, cuts)) == NonSpace(text)
  }

  /** Nothing is lost and nothing but overlap is repeated: every chunk after the first begins
      with exactly the overlap asked for, if any, and then with a paragraph for which the
      chunk before had no room left; with the overlaps cut off, the chunks spell the text out
      in order, whitespace aside. */
  lemma ChunkingLosesNothing(text: string, chunkSize: int, overlap: int) returns (cuts: seq<nat>)
    ensures Explained(text, Chunks(text, chunkSize, overlap), cuts, chunkSize, overlap)
  {
    var chunks := Chunks(text, chunkSize, overlap);
    if |text| <= chunkSize {
      cuts := WholeText(text, chunks, chunkSize, overlap);
    } else {
      ParagraphsKeepText(text);
      var paras := Paragraphs(text);
      if |paras| == 0 {
        assert chunks == [];
        cuts := [];
      } else {
        assert Joined("", paras[0]) == paras[0];
        cuts := ChunksTold(paras[1..], chunkSize, overlap, paras[0], "", paras[0]);
        FirstTold(paras, chunks, cuts, chunkSize, overlap);
      }
    }
  }

  lemma WholeText(text: string, chunks: seq<string>, chunkSize: int, overlap: int) returns (cuts: seq<nat>)
    requires chunks == if Strip(text) != "" then [text] else []
    ensures Explained(text, chunks, cuts, chunkSize, overlap)
  {
    NonSpaceOfStrip(text);
    cuts := if chunks == [] then [] else [0];
    assert chunks != [] ==> Own(chunks, cuts) == text[0..] + Own(chunks[1..], cuts[1..]) == text;
  }

  lemma FirstTold(paras: seq<string>, chunks: seq<string>, cuts: seq<nat>, chunkSize: int, overlap: int)
    requires |paras| > 0 && Told(chunks, cuts, paras[1..], chunkSize, overlap, paras[0], "", paras[0])
    ensures Chain(chunks, cuts, paras, chunkSize, overlap) && cuts[0] == 0
    ensures NonSpace(Own(chunks, cuts)) == NonSpace(Concat(paras))
  {
    ChainMore(chunks, cuts, paras, chunkSize, overlap);
    assert paras[0][0..] == paras[0] && Strip("") == "";
    FirstParagraph(paras);
  }
}
