/** The chunks of app/retrieval/chunking.py as the groups of paragraphs that they are. */
module ChunkGroups {
  import opened PythonText
  import opened Chunking

  function Flatten(groups: seq<seq<string>>): seq<string> {
    if |groups| == 0 then [] else groups[0] + Flatten(groups[1..])
  }

  /** What the chunk behind this one takes over from it. */
  function TakenOver(raw: string, overlap: int): string {
    if overlap > 0 && |raw| > overlap then raw[|raw| - overlap..] + "\n\n" else ""
  }

  /** The chunks, before they are stripped, when the first begins with `head`. */
  function Raws(head: string, groups: seq<seq<string>>, overlap: int): seq<string>
    decreases |groups|
  {
    if |groups| == 0 then []
    else
      var raw := head + Join("\n\n", groups[0]);
      [raw] + Raws(TakenOver(raw, overlap), groups[1..], overlap)
  }

  /** Paragraph i still fits behind those before it. */
  predicate FitsBehind(head: string, group: seq<string>, chunkSize: int, i: nat)
    requires i < |group|
  {
    |head + Join("\n\n", group[..i])| + |group[i]| + 2 <= chunkSize
  }

  predicate FitsTogether(head: string, group: seq<string>, chunkSize: int) {
    |group| > 0 && forall i | 0 < i < |group| :: FitsBehind(head, group, chunkSize, i)
  }

  /** Each chunk takes paragraphs as long as they fit, and the next begins with one that did
      not. */
  predicate Filled(head: string, groups: seq<seq<string>>, chunkSize: int, overlap: int)
    decreases |groups|
  {
    |groups| > 0 ==>
      && FitsTogether(head, groups[0], chunkSize)
      && var raw := head + Join("\n\n", groups[0]);
      && (|groups| > 1 ==> |groups[1]| > 0 && |raw| + |groups[1][0]| + 2 > chunkSize)
      && Filled(TakenOver(raw, overlap), groups[1..], chunkSize, overlap)
  }

  function Stripped(raws: seq<string>): (chunks: seq<string>)
    ensures |chunks| == |raws| && forall i | 0 <= i < |raws| :: chunks[i] == Strip(raws[i])
  {
    seq(|raws|, i requires 0 <= i < |raws| => Strip(raws[i]))
  }

  /** A chunk in the making: what it took over and the paragraphs so far. */
  predicate InTheMaking(current: string, head: string, group: seq<string>, chunkSize: int) {
    FitsTogether(head, group, chunkSize) && AllTrimmed(group) && current == head + Join("\n\n", group)
  }

  lemma EndsWithParagraph(current: string, head: string, group: seq<string>, chunkSize: int)
    requires InTheMaking(current, head, group, chunkSize)
    ensures |current| > 0 && Strip(current) != ""
  {
    var n := |group| - 1;
    var last := group[n];
    if n > 0 {
      assert group == group[..n] + [last];
      JoinMore("\n\n", group[..n], last);
    }
    assert !IsSpace(last[|last| - 1]);
    assert current[|current| - 1] == last[|last| - 1];
    var lead := StripCuts(current);
  }

  lemma GroupGrows(head: string, group: seq<string>, para: string, chunkSize: int)
    requires FitsTogether(head, group, chunkSize) && |head + Join("\n\n", group)| + |para| + 2 <= chunkSize
    ensures FitsTogether(head, group + [para], chunkSize)
    ensures Join("\n\n", group + [para]) == Join("\n\n", group) + "\n\n" + para
  {
    var more := group + [para];
    JoinMore("\n\n", group, para);
    forall i | 0 < i < |more|
      ensures FitsBehind(head, more, chunkSize, i)
    {
      if i < |group| {
        assert FitsBehind(head, group, chunkSize, i) && more[..i] == group[..i];
      } else {
        assert more[..i] == group;
      }
    }
  }

  /** The groups go on from the one in the making, and are what the loop makes of what is left. */
  predicate GoesOn(paras: seq<string>, chunkSize: int, overlap: int, current: string, head: string, group: seq<string>,
                   groups: seq<seq<string>>)
  {
    && |groups| > 0 && group <= groups[0] && Flatten(groups) == group + paras
    && Filled(head, groups, chunkSize, overlap)
    && ChunksFrom(paras, chunkSize, overlap, current) == Stripped(Raws(head, groups, overlap))
  }

  lemma {:induction false} GroupsFrom(paras: seq<string>, chunkSize: int, overlap: int, current: string, head: string, group: seq<string>)
    returns (groups: seq<seq<string>>)
    requires AllTrimmed(paras) && InTheMaking(current, head, group, chunkSize)
    ensures GoesOn(paras, chunkSize, overlap, current, head, group, groups)
    decreases |paras|
  {
    EndsWithParagraph(current, head, group, chunkSize);
    if |paras| == 0 {
      groups := [group];
      LastGroup(current, head, group, overlap);
    } else if Overflows(current, paras[0], chunkSize) {
      NextInTheMaking(current, paras[0], overlap, chunkSize);
      var rest := GroupsFrom(paras[1..], chunkSize, overlap, Carried(current, paras[0], overlap), TakenOver(current, overlap), [paras[0]]);
      groups := [group] + rest;
      NextGoesOn(paras, chunkSize, overlap, current, head, group, rest);
    } else {
      GroupGrows(head, group, paras[0], chunkSize);
      JoinedIs(current, head, group, paras[0]);
      groups := GroupsFrom(paras[1..], chunkSize, overlap, Joined(current, paras[0]), head, group + [paras[0]]);
      SameGoesOn(paras, chunkSize, overlap, current, head, group, groups);
    }
  }

  lemma NextGoesOn(paras: seq<string>, chunkSize: int, overlap: int, current: string, head: string, group: seq<string>,
                   rest: seq<seq<string>>)
    requires |paras| > 0 && InTheMaking(current, head, group, chunkSize) && Overflows(current, paras[0], chunkSize)
    requires GoesOn(paras[1..], chunkSize, overlap, Carried(current, paras[0], overlap), TakenOver(current, overlap), [paras[0]], rest)
    ensures GoesOn(paras, chunkSize, overlap, current, head, group, [group] + rest)
  {
    GroupInFront(current, head, group, rest, overlap);
    FilledInFront(current, head, group, rest, paras[0], chunkSize, overlap);
    assert paras == [paras[0]] + paras[1..];
  }

  lemma SameGoesOn(paras: seq<string>, chunkSize: int, overlap: int, current: string, head: string, group: seq<string>,
                   groups: seq<seq<string>>)
    requires |paras| > 0 && !Overflows(current, paras[0], chunkSize)
    requires GoesOn(paras[1..], chunkSize, overlap, Joined(current, paras[0]), head, group + [paras[0]], groups)
    ensures GoesOn(paras, chunkSize, overlap, current, head, group, groups)
  {
    assert (group + [paras[0]]) + paras[1..] == group + paras;
    assert group <= group + [paras[0]];
  }

  lemma LastGroup(current: string, head: string, group: seq<string>, overlap: int)
    requires current == head + Join("\n\n", group)
    ensures Raws(head, [group], overlap) == [current] && Stripped([current]) == [Strip(current)] && Flatten([group]) == group
  {
    assert [group][1..] == [];
  }

  lemma GroupInFront(current: string, head: string, group: seq<string>, rest: seq<seq<string>>, overlap: int)
    requires current == head + Join("\n\n", group)
    ensures Flatten([group] + rest) == group + Flatten(rest)
    ensures Stripped(Raws(head, [group] + rest, overlap))
            == [Strip(current)] + Stripped(Raws(TakenOver(current, overlap), rest, overlap))
  {
    assert ([group] + rest)[1..] == rest;
  }

  lemma FilledInFront(current: string, head: string, group: seq<string>, rest: seq<seq<string>>, para: string,
                      chunkSize: int, overlap: int)
    requires current == head + Join("\n\n", group) && FitsTogether(head, group, chunkSize)
    requires |current| + |para| + 2 > chunkSize && |rest| > 0 && [para] <= rest[0]
    requires Filled(TakenOver(current, overlap), rest, chunkSize, overlap)
    ensures Filled(head, [group] + rest, chunkSize, overlap)
  {
    var groups := [group] + rest;
    assert groups[1..] == rest && rest[0][0] == [para][0];
  }

  lemma NextInTheMaking(current: string, para: string, overlap: int, chunkSize: int)
    requires |para| > 0 && Trimmed(para)
    ensures InTheMaking(Carried(current, para, overlap), TakenOver(current, overlap), [para], chunkSize)
  {
    JoinOne("\n\n", para);
  }

  lemma JoinedIs(current: string, head: string, group: seq<string>, para: string)
    requires current == head + Join("\n\n", group) && |current| > 0
    requires Join("\n\n", group + [para]) == Join("\n\n", group) + "\n\n" + para
    ensures Joined(current, para) == head + Join("\n\n", group + [para])
  {
  }

  /** A short text is its one chunk. The chunks of a longer one are its paragraphs in groups,
      joined by blank lines, each behind what it takes over; they are stripped at last. */
  lemma ChunksAreGroups(text: string, chunkSize: int, overlap: int) returns (groups: seq<seq<string>>)
    ensures |text| <= chunkSize ==> Chunks(text, chunkSize, overlap) == if Strip(text) != "" then [text] else []
    ensures |text| > chunkSize ==>
              && Flatten(groups) == Paragraphs(text) && Filled("", groups, chunkSize, overlap)
              && Chunks(text, chunkSize, overlap) == Stripped(Raws("", groups, overlap))
  {
    var paras := Paragraphs(text);
    ParagraphsKeepText(text);
    if |paras| == 0 {
      groups := [];
    } else {
      JoinOne("\n\n", paras[0]);
      groups := GroupsFrom(paras[1..], chunkSize, overlap, paras[0], "", [paras[0]]);
      assert [paras[0]] + paras[1..] == paras;
    }
  }

  /** There is only one such grouping. */
  lemma {:induction false} GroupsUnique(head: string, g: seq<seq<string>>, h: seq<seq<string>>, chunkSize: int, overlap: int)
    requires Flatten(g) == Flatten(h) && Filled(head, g, chunkSize, overlap) && Filled(head, h, chunkSize, overlap)
    ensures g == h
    decreases |g|
  {
    if |g| == 0 || |h| == 0 {
      NoGroups(g);
      NoGroups(h);
    } else {
      SameFirst(head, g, h, chunkSize, overlap);
      SameFirst(head, h, g, chunkSize, overlap);
      assert Flatten(g[1..]) == Flatten(g)[|g[0]|..] == Flatten(h[1..]);
      GroupsUnique(TakenOver(head + Join("\n\n", g[0]), overlap), g[1..], h[1..], chunkSize, overlap);
      assert g == [g[0]] + g[1..] && h == [h[0]] + h[1..];
    }
  }

  lemma NoGroups(groups: seq<seq<string>>)
    ensures |groups| > 0 && |groups[0]| > 0 ==> |Flatten(groups)| > 0
  {
  }

  /** Where the first group ends there was no more room. */
  lemma GroupEnds(head: string, groups: seq<seq<string>>, chunkSize: int, overlap: int)
    requires |groups| > 0 && Filled(head, groups, chunkSize, overlap) && |Flatten(groups)| > |groups[0]|
    ensures var all, n := Flatten(groups), |groups[0]|;
            all[..n] == groups[0] && |head + Join("\n\n", all[..n])| + |all[n]| + 2 > chunkSize
  {
    var all, n := Flatten(groups), |groups[0]|;
    assert |groups| > 1;
    assert all[n] == Flatten(groups[1..])[0] == groups[1][0];
  }

  /** Before, there was. */
  lemma GroupFits(head: string, groups: seq<seq<string>>, chunkSize: int, overlap: int, i: nat)
    requires |groups| > 0 && Filled(head, groups, chunkSize, overlap) && 0 < i < |groups[0]|
    ensures var all := Flatten(groups);
            i < |all| && |head + Join("\n\n", all[..i])| + |all[i]| + 2 <= chunkSize
  {
    assert FitsBehind(head, groups[0], chunkSize, i);
    assert Flatten(groups)[..i] == groups[0][..i];
  }

  /** The first group of the one is no longer than that of the other. */
  lemma SameFirst(head: string, g: seq<seq<string>>, h: seq<seq<string>>, chunkSize: int, overlap: int)
    requires |g| > 0 && |h| > 0 && Flatten(g) == Flatten(h)
    requires Filled(head, g, chunkSize, overlap) && Filled(head, h, chunkSize, overlap)
    ensures |h[0]| <= |g[0]| && h[0] == g[0][..|h[0]|]
  {
    if |g[0]| < |h[0]| {
      GroupFits(head, h, chunkSize, overlap, |g[0]|);
      GroupEnds(head, g, chunkSize, overlap);
    } else {
      assert h[0] == Flatten(h)[..|h[0]|] == g[0][..|h[0]|];
    }
  }
}
