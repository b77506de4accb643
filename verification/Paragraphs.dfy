/** What splitting at blank lines is, for app/retrieval/chunking.py, and what is kept of it. */
module Paragraphs {
  import opened PythonText
  import opened Chunking

  predicate Newlines(s: string) {
    |s| >= 2 && forall i | 0 <= i < |s| :: s[i] == '\n'
  }

  predicate NoBlankLine(s: string) {
    forall i | 0 <= i < |s| - 1 :: !(s[i] == '\n' && s[i + 1] == '\n')
  }

  /** The part stands between separators, where it says so, and does not run into them. */
  predicate PartOk(part: string, first: bool, last: bool) {
    && NoBlankLine(part)
    && (!first ==> !(|part| > 0 && part[0] == '\n'))
    && (!last ==> !(|part| > 0 && part[|part| - 1] == '\n'))
    && (!first && !last ==> part != "")
  }

  predicate PartOkAt(parts: seq<string>, i: nat)
    requires i < |parts|
  {
    PartOk(parts[i], i == 0, i == |parts| - 1)
  }

  /** Parts and separators in turn are s; a separator is at least two newlines; no part has a
      blank line in it, borders on a newline with a separator, or stands empty between two. */
  predicate IsSplit(s: string, parts: seq<string>, separators: seq<string>) {
    && |parts| == |separators| + 1 && Weave(parts, separators) == s
    && (forall i | 0 <= i < |separators| :: Newlines(separators[i]))
    && (forall i | 0 <= i < |parts| :: PartOkAt(parts, i))
  }

  /** What the split leaves out. */
  function Separators(s: string): (separators: seq<string>)
    ensures |SplitParagraphs(s)| == |separators| + 1
    decreases |s|
  {
    if |s| == 0 then []
    else if NewlineRun(s) >= 2 then
      NewlineRunFits(s);
      [s[..NewlineRun(s)]] + Separators(s[NewlineRun(s)..])
    else Separators(s[1..])
  }

  lemma {:induction false} RunIsMaximal(s: string)
    ensures NewlineRun(s) < |s| ==> s[NewlineRun(s)] != '\n'
    ensures NewlineRun(s) >= 1 <==> |s| > 0 && s[0] == '\n'
    ensures NewlineRun(s) >= 2 <==> |s| > 1 && s[0] == '\n' && s[1] == '\n'
  {
    if |s| > 0 && s[0] == '\n' {
      RunIsMaximal(s[1..]);
    }
  }

  lemma FrontOfWeave(parts: seq<string>, separators: seq<string>)
    requires |parts| == |separators| + 1
    ensures parts[0] <= Weave(parts, separators)
    ensures |separators| > 0 ==> parts[0] + separators[0] <= Weave(parts, separators)
    ensures |separators| == 0 ==> Weave(parts, separators) == parts[0]
    ensures |separators| > 0 ==>
              Weave(parts, separators)[|parts[0]| + |separators[0]|..] == Weave(parts[1..], separators[1..])
  {
  }

  /** How a text that is split begins. */
  lemma Beginning(s: string, parts: seq<string>, separators: seq<string>)
    requires IsSplit(s, parts, separators)
    ensures |parts[0]| <= |s| && forall i | 0 <= i < |parts[0]| :: parts[0][i] == s[i]
    ensures |separators| == 0 ==> s == parts[0]
    ensures |separators| > 0 ==>
              |parts[0]| + 2 <= |s| && s[|parts[0]|] == '\n' && s[|parts[0]| + 1] == '\n'
  {
    FrontOfWeave(parts, separators);
    if |separators| > 0 {
      var front := parts[0] + separators[0];
      assert Newlines(separators[0]);
      assert s[|parts[0]|] == front[|parts[0]|] && s[|parts[0]| + 1] == front[|parts[0]| + 1];
    }
  }

  /** A separator in front of a split. */
  lemma SeparatorInFront(separator: string, s: string, parts: seq<string>, separators: seq<string>)
    requires Newlines(separator) && IsSplit(s, parts, separators) && (|s| > 0 ==> s[0] != '\n')
    ensures IsSplit(separator + s, [""] + parts, [separator] + separators)
  {
    var all, between := [""] + parts, [separator] + separators;
    assert all[1..] == parts && between[1..] == separators;
    Beginning(s, parts, separators);
    assert Weave(all, between) == "" + separator + s;
    forall i | 0 <= i < |all|
      ensures PartOkAt(all, i)
    {
      if i > 0 {
        assert PartOkAt(parts, i - 1);
      }
    }
  }

  /** A character in front of a split, where that makes no blank line. */
  lemma CharInFront(c: char, s: string, parts: seq<string>, separators: seq<string>)
    requires IsSplit(s, parts, separators) && !(c == '\n' && |s| > 0 && s[0] == '\n')
    ensures IsSplit([c] + s, [[c] + parts[0]] + parts[1..], separators)
  {
    var all := [[c] + parts[0]] + parts[1..];
    WeaveGrows(c, parts, separators);
    FrontOfWeave(parts, separators);
    forall i | 0 <= i < |all|
      ensures PartOkAt(all, i)
    {
      assert PartOkAt(parts, i);
      if i == 0 {
        FirstGrows(c, s, parts, separators);
      }
    }
  }

  lemma FirstGrows(c: char, s: string, parts: seq<string>, separators: seq<string>)
    requires IsSplit(s, parts, separators) && !(c == '\n' && |s| > 0 && s[0] == '\n')
    ensures PartOk([c] + parts[0], true, |parts| == 1)
  {
    Beginning(s, parts, separators);
    assert PartOkAt(parts, 0);
  }

  lemma {:induction false} SplitIsSplit(s: string)
    ensures IsSplit(s, SplitParagraphs(s), Separators(s))
    decreases |s|
  {
    if |s| == 0 {
      assert PartOkAt([""], 0);
    } else if NewlineRun(s) >= 2 {
      var n := NewlineRun(s);
      NewlineRunFits(s);
      RunIsMaximal(s);
      SplitIsSplit(s[n..]);
      SeparatorInFront(s[..n], s[n..], SplitParagraphs(s[n..]), Separators(s[n..]));
      assert s == s[..n] + s[n..];
    } else {
      RunIsMaximal(s);
      SplitIsSplit(s[1..]);
      CharInFront(s[0], s[1..], SplitParagraphs(s[1..]), Separators(s[1..]));
      assert s == [s[0]] + s[1..];
    }
  }

  // ---- There is no other ----

  lemma NoFirstPart(s: string, parts: seq<string>, separators: seq<string>)
    requires IsSplit(s, parts, separators) && |s| > 1 && s[0] == '\n' && s[1] == '\n'
    ensures parts[0] == "" && |separators| > 0
  {
    Beginning(s, parts, separators);
    assert PartOkAt(parts, 0);
  }

  lemma FirstSeparator(s: string, parts: seq<string>, separators: seq<string>)
    requires IsSplit(s, parts, separators) && parts[0] == "" && |separators| > 0
    ensures |separators[0]| == NewlineRun(s) && separators[0] == s[..NewlineRun(s)]
    ensures IsSplit(s[NewlineRun(s)..], parts[1..], separators[1..])
  {
    var n := |separators[0]|;
    FrontOfWeave(parts, separators);
    FrontOfWeave(parts[1..], separators[1..]);
    assert Newlines(separators[0]) && separators[0] == s[..n];
    assert PartOkAt(parts, 1);
    if n < |s| {
      assert s[n] == s[n..][0];
      assert |parts[1]| > 0 ==> parts[1][0] == s[n];
    }
    RunUpTo(s, n);
    forall i | 0 <= i < |separators[1..]|
      ensures Newlines(separators[1..][i])
    {
      assert Newlines(separators[i + 1]);
    }
    forall i | 0 <= i < |parts[1..]|
      ensures PartOkAt(parts[1..], i)
    {
      assert PartOkAt(parts, i + 1);
    }
  }

  lemma {:induction false} RunUpTo(s: string, n: nat)
    requires n <= |s| && (forall i | 0 <= i < n :: s[i] == '\n') && (n < |s| ==> s[n] != '\n')
    ensures NewlineRun(s) == n
  {
    if n > 0 {
      RunUpTo(s[1..], n - 1);
    }
  }

  lemma FirstCharOff(s: string, parts: seq<string>, separators: seq<string>)
    requires IsSplit(s, parts, separators) && |s| > 0 && !(|s| > 1 && s[0] == '\n' && s[1] == '\n')
    ensures |parts[0]| > 0 && parts[0][0] == s[0]
    ensures IsSplit(s[1..], [parts[0][1..]] + parts[1..], separators)
  {
    Beginning(s, parts, separators);
    assert PartOkAt(parts, 0);
    assert parts[0] == [s[0]] + parts[0][1..];
    var shorter := [parts[0][1..]] + parts[1..];
    assert shorter[1..] == parts[1..] && parts == [parts[0]] + parts[1..];
    assert [[s[0]] + shorter[0]] + shorter[1..] == parts;
    WeaveGrows(s[0], shorter, separators);
    forall i | 0 <= i < |shorter|
      ensures PartOkAt(shorter, i)
    {
      assert PartOkAt(parts, i);
    }
  }

  lemma {:induction false} OnlySplit(s: string, parts: seq<string>, separators: seq<string>)
    requires IsSplit(s, parts, separators)
    ensures parts == SplitParagraphs(s) && separators == Separators(s)
    decreases |s|
  {
    RunIsMaximal(s);
    Beginning(s, parts, separators);
    if |s| == 0 {
      assert parts == [parts[0]];
    } else if NewlineRun(s) >= 2 {
      NewlineRunFits(s);
      NoFirstPart(s, parts, separators);
      FirstSeparator(s, parts, separators);
      OnlySplit(s[NewlineRun(s)..], parts[1..], separators[1..]);
      assert parts == [parts[0]] + parts[1..] && separators == [separators[0]] + separators[1..];
    } else {
      FirstCharOff(s, parts, separators);
      OnlySplit(s[1..], [parts[0][1..]] + parts[1..], separators);
      assert parts[0] == [s[0]] + parts[0][1..];
      assert parts == [parts[0]] + parts[1..];
    }
  }

  ghost predicate SplitsInto(s: string, parts: seq<string>) {
    exists separators :: IsSplit(s, parts, separators)
  }

  /** The parts are those between the maximal runs of two or more newlines, and no others. */
  lemma ParagraphsSplit(s: string, parts: seq<string>)
    ensures parts == SplitParagraphs(s) <==> SplitsInto(s, parts)
  {
    SplitIsSplit(s);
    if separators :| IsSplit(s, parts, separators) {
      OnlySplit(s, parts, separators);
    }
  }

  // ---- What is kept ----

  function KeptAt(parts: seq<string>, n: nat): seq<nat>
    requires n <= |parts|
  {
    if n == 0 then [] else if Strip(parts[n - 1]) != "" then KeptAt(parts, n - 1) + [n - 1] else KeptAt(parts, n - 1)
  }

  /** Stripped, the parts that are not blank, in order. */
  ghost predicate Keeps(parts: seq<string>, at: seq<nat>, kept: seq<string>) {
    && |kept| == |at| && (forall i, j | 0 <= i < j < |at| :: at[i] < at[j])
    && (forall i :: i in at <==> 0 <= i < |parts| && Strip(parts[i]) != "")
    && (forall j | 0 <= j < |at| :: at[j] < |parts| && kept[j] == Strip(parts[at[j]]))
  }

  lemma {:induction false} KeptMore(parts: seq<string>, part: string)
    ensures Kept(parts + [part]) == Kept(parts) + if Strip(part) != "" then [Strip(part)] else []
  {
    if |parts| == 0 {
      assert (parts + [part])[1..] == [];
    } else {
      KeptMore(parts[1..], part);
      assert (parts + [part])[1..] == parts[1..] + [part];
    }
  }

  lemma {:induction false} KeptMeans(parts: seq<string>, n: nat)
    requires n <= |parts|
    ensures Keeps(parts[..n], KeptAt(parts, n), Kept(parts[..n]))
  {
    if n == 0 {
    } else {
      KeptMeans(parts, n - 1);
      KeptMore(parts[..n - 1], parts[n - 1]);
      assert parts[..n] == parts[..n - 1] + [parts[n - 1]];
      KeepsMore(parts[..n - 1], parts[n - 1], KeptAt(parts, n - 1), Kept(parts[..n - 1]));
    }
  }

  lemma KeepsMore(parts: seq<string>, part: string, at: seq<nat>, kept: seq<string>)
    requires Keeps(parts, at, kept)
    ensures if Strip(part) != "" then Keeps(parts + [part], at + [|parts|], kept + [Strip(part)]) else Keeps(parts + [part], at, kept)
  {
    forall j | 0 <= j < |at|
      ensures at[j] < |parts| && (parts + [part])[at[j]] == parts[at[j]]
    {
    }
    forall i
      ensures i in at + [|parts|] <==> i in at || i == |parts|
    {
    }
  }

  /** The paragraphs of a text are what stands between its blank lines, stripped, except where
      that is nothing. */
  lemma ParagraphsMean(text: string) returns (parts: seq<string>, at: seq<nat>)
    ensures SplitsInto(text, parts) && Keeps(parts, at, Paragraphs(text))
  {
    parts := SplitParagraphs(text);
    at := KeptAt(parts, |parts|);
    ParagraphsSplit(text, parts);
    KeptMeans(parts, |parts|);
    assert parts[..|parts|] == parts;
  }
}
