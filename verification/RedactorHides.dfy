/** What redaction of app/llm/redactor.py hides, and what it misses: each match replaces the
    first occurrence of its text, which need not be the one the pattern found. Occurrences are
    counted without overlap, as str.count does; replacing one match by its placeholder makes no
    other text occur more often, and the match itself exactly once less. */
module RedactorHides {
  import opened PythonText
  import opened Patterns
  import opened Redactor
  import opened RedactorTokens
  import opened RedactorRestoring
  import opened RedactorLimits
  import opened RedactorRuns
  import opened RedactorCounts
  import opened PatternExamples

  /** s.count(m): occurrences from the left that do not overlap. */
  function TimesIn(s: string, m: string): nat
    requires |m| > 0
    decreases |s|
  {
    if |s| < |m| then 0
    else if OccursAt(s, m, 0) then 1 + TimesIn(s[|m|..], m)
    else TimesIn(s[1..], m)
  }

  lemma {:induction false} NoneMeansAbsent(s: string, m: string)
    requires |m| > 0
    ensures TimesIn(s, m) == 0 <==> !Contains(s, m)
    decreases |s|
  {
    if |s| < |m| {
    } else if OccursAt(s, m, 0) {
    } else {
      NoneMeansAbsent(s[1..], m);
      if k: nat :| OccursAt(s[1..], m, k) {
        OccursLater(s, m, 1, k);
      }
      if k: nat :| OccursAt(s, m, k) {
        OccursLater(s, m, 1, k - 1);
      }
    }
  }

  lemma TimesAtFront(s: string, m: string)
    requires |m| > 0 && OccursAt(s, m, 0)
    ensures TimesIn(s, m) == 1 + TimesIn(s[|m|..], m)
  {
  }

  lemma ShorterNone(s: string, m: string)
    requires |m| > 0 && |s| > 0 && !OccursAt(s, m, 0)
    ensures TimesIn(s, m) == TimesIn(s[1..], m)
  {
  }

  /** How many there are from i on, when `hit` says where one begins and each takes n places. */
  function Hits(hit: nat -> bool, n: nat, size: nat, i: nat): nat
    requires n > 0
    decreases if i < size then size - i else 0
  {
    if i + n > size then 0
    else if hit(i) then 1 + Hits(hit, n, size, i + n)
    else Hits(hit, n, size, i + 1)
  }

  lemma {:induction false} FewerHits(hit: nat -> bool, n: nat, size: nat, i: nat, j: nat)
    requires n > 0 && i <= j
    ensures Hits(hit, n, size, j) <= Hits(hit, n, size, i)
    decreases if i < size then size - i else 0, 0
  {
    if i + n > size || i == j {
    } else if !hit(i) {
      FewerHits(hit, n, size, i + 1, j);
    } else if j >= i + n {
      FewerHits(hit, n, size, i + n, j);
    } else {
      OneHitAtMost(hit, n, size, j, i + n);
    }
  }

  lemma {:induction false} OneHitAtMost(hit: nat -> bool, n: nat, size: nat, i: nat, j: nat)
    requires n > 0 && i <= j <= i + n
    ensures Hits(hit, n, size, i) <= 1 + Hits(hit, n, size, j)
    decreases if i < size then size - i else 0, 1
  {
    if i + n > size || i == j {
    } else if hit(i) {
      FewerHits(hit, n, size, j, i + n);
    } else {
      OneHitAtMost(hit, n, size, i + 1, j);
    }
  }

  function HitsIn(s: string, m: string): nat -> bool {
    (k: nat) => OccursAt(s, m, k)
  }

  lemma {:induction false} TimesAreHits(s: string, m: string, i: nat)
    requires |m| > 0 && i <= |s|
    ensures TimesIn(s[i..], m) == Hits(HitsIn(s, m), |m|, |s|, i)
    decreases |s| - i
  {
    OccursLater(s, m, i, 0);
    if i + |m| > |s| {
    } else if OccursAt(s, m, i) {
      TimesAtFront(s[i..], m);
      SliceOfSlice(s, i, |m|);
      TimesAreHits(s, m, i + |m|);
    } else {
      ShorterNone(s[i..], m);
      SliceOfSlice(s, i, 1);
      TimesAreHits(s, m, i + 1);
    }
  }

  /** Cutting off the front adds nothing. */
  lemma FewerBehind(s: string, m: string, j: nat)
    requires |m| > 0 && j <= |s|
    ensures TimesIn(s[j..], m) <= TimesIn(s, m)
  {
    TimesAreHits(s, m, 0);
    TimesAreHits(s, m, j);
    FewerHits(HitsIn(s, m), |m|, |s|, 0, j);
    assert s[0..] == s;
  }

  lemma {:induction false} TimesAdd(x: string, y: string, m: string)
    requires |m| > 0
    ensures TimesIn(x + y, m) >= TimesIn(x, m) + TimesIn(y, m)
    decreases |x|
  {
    if |x| < |m| {
      FewerBehind(x + y, m, |x|);
      assert (x + y)[|x|..] == y;
    } else if OccursAt(x, m, 0) {
      TimesAdd(x[|m|..], y, m);
      assert (x + y)[|m|..] == x[|m|..] + y;
    } else {
      TimesAdd(x[1..], y, m);
      assert (x + y)[1..] == x[1..] + y;
      assert (x + y)[0..|m|] == x[0..|m|];
    }
  }

  /** What cannot stand in or across the placeholder. */
  ghost predicate Foreign(p: string, m: string) {
    Bracketed(p) && |m| > 0 && NoBrackets(m) && !Contains(p, m)
  }

  lemma {:induction false} NoneInside(p: string, rest: string, m: string, j: nat)
    requires Foreign(p, m) && j <= |p|
    ensures TimesIn((p + rest)[j..], m) == TimesIn(rest, m)
    decreases |p| - j
  {
    var s := p + rest;
    if j == |p| {
      assert s[j..] == rest;
    } else {
      NoneInside(p, rest, m, j + 1);
      assert s[j..][1..] == s[j + 1..];
      NotBeginning(p, rest, m, j);
      if |s[j..]| < |m| {
        assert |rest| < |m|;
      }
    }
  }

  lemma NotBeginning(p: string, rest: string, m: string, j: nat)
    requires Foreign(p, m) && j < |p|
    ensures !OccursAt((p + rest)[j..], m, 0)
  {
    var s := p + rest;
    OccursLater(s, m, j, 0);
    if j == 0 {
      assert s[0] == '[' && m[0] in m;
    } else {
      NotAcross(p, rest, m, j);
    }
  }

  lemma StartsBefore(a: string, s: string, m: string)
    requires |s| > 0 && s[0] == '[' && NoBrackets(m)
    ensures OccursAt(a + s, m, 0) <==> OccursAt(a, m, 0)
  {
    if |m| <= |a| {
      assert (a + s)[0..|m|] == a[0..|m|];
    } else if |m| <= |a + s| {
      assert (a + s)[0..|m|][|a|] == '[' && m[|a|] in m;
    }
  }

  /** A placeholder keeps what is on its sides apart. */
  lemma {:induction false} TimesAround(a: string, p: string, b: string, m: string)
    requires Foreign(p, m)
    ensures TimesIn(a + (p + b), m) == TimesIn(a, m) + TimesIn(b, m)
    decreases |a|
  {
    var s := a + (p + b);
    StartsBefore(a, p + b, m);
    if |a| == 0 {
      NoneInside(p, b, m, 0);
      assert s == (p + b)[0..];
    } else if OccursAt(a, m, 0) {
      TimesAround(a[|m|..], p, b, m);
      assert s[|m|..] == a[|m|..] + (p + b);
    } else {
      TimesAround(a[1..], p, b, m);
      assert s[1..] == a[1..] + (p + b);
      ShorterNone(s, m);
    }
  }

  lemma {:induction false} TimesSkip(s: string, m: string, k: nat)
    requires |m| > 0 && k <= |s| && NotBefore(s, m, k)
    ensures TimesIn(s, m) == TimesIn(s[k..], m)
    decreases k
  {
    if k == 0 {
      assert s[0..] == s;
    } else {
      TimesSkip(s, m, k - 1);
      assert !OccursAt(s, m, k - 1);
      OccursLater(s, m, k - 1, 0);
      ShorterNone(s[k - 1..], m);
      SliceOfSlice(s, k - 1, 1);
    }
  }

  /** The first occurrence is the first counted. */
  lemma TimesFrom(s: string, m: string, k: nat)
    requires |m| > 0 && OccursAt(s, m, k) && NotBefore(s, m, k)
    ensures TimesIn(s, m) == 1 + TimesIn(s[k + |m|..], m)
  {
    TimesSkip(s, m, k);
    OccursLater(s, m, k, 0);
    TimesAtFront(s[k..], m);
    SliceOfSlice(s, k, |m|);
  }

  lemma NoneInFront(s: string, m: string, k: nat)
    requires |m| > 0 && k <= |s| && NotBefore(s, m, k)
    ensures TimesIn(s[..k], m) == 0
  {
    NoneMeansAbsent(s[..k], m);
    if j: nat :| OccursAt(s[..k], m, j) {
      assert s[j..j + |m|] == s[..k][j..j + |m|];
      assert OccursAt(s, m, j);
    }
  }

  lemma MiddleReplaced(a: string, found: string, p: string, b: string, m: string)
    requires Foreign(p, m)
    ensures TimesIn(a + p + b, m) == TimesIn(a, m) + TimesIn(b, m) <= TimesIn(a + (found + b), m)
  {
    Regroup(a, p, b);
    TimesAround(a, p, b, m);
    TimesAdd(a, found + b, m);
    TimesAdd(found, b, m);
  }

  lemma CutOut(s: string, found: string, k: nat)
    requires OccursAt(s, found, k)
    ensures s == s[..k] + (found + s[k + |found|..])
  {
  }

  lemma NotMore(s: string, found: string, p: string, m: string)
    requires Foreign(p, m)
    ensures TimesIn(ReplaceFirst(s, found, p), m) <= TimesIn(s, m)
  {
    match Find(s, found, 0)
    case Some(k) =>
      CutOut(s, found, k);
      MiddleReplaced(s[..k], found, p, s[k + |found|..], m);
    case None =>
  }

  lemma OneLessAt(s: string, p: string, m: string, k: nat)
    requires Foreign(p, m) && OccursAt(s, m, k) && NotBefore(s, m, k)
    ensures TimesIn(s[..k] + p + s[k + |m|..], m) == TimesIn(s, m) - 1
  {
    MiddleReplaced(s[..k], m, p, s[k + |m|..], m);
    NoneInFront(s, m, k);
    TimesFrom(s, m, k);
  }

  lemma ReplacesFirst(s: string, m: string, p: string) returns (k: nat)
    requires Contains(s, m)
    ensures OccursAt(s, m, k) && NotBefore(s, m, k) && ReplaceFirst(s, m, p) == s[..k] + p + s[k + |m|..]
  {
    k := Find(s, m, 0).value;
  }

  lemma OneLess(s: string, p: string, m: string)
    requires Foreign(p, m) && Contains(s, m)
    ensures TimesIn(ReplaceFirst(s, m, p), m) == TimesIn(s, m) - 1
  {
    var k := ReplacesFirst(s, m, p);
    OneLessAt(s, p, m, k);
  }

  /** Replacing one text by a placeholder brings no other about, and costs its own exactly one
      occurrence. */
  lemma OneReplaced(s: string, found: string, p: string, m: string)
    requires Foreign(p, m)
    ensures TimesIn(ReplaceFirst(s, found, p), m) <= TimesIn(s, m)
    ensures found == m && TimesIn(s, m) > 0 ==> TimesIn(ReplaceFirst(s, found, p), m) == TimesIn(s, m) - 1
  {
    NotMore(s, found, p, m);
    if found == m && TimesIn(s, m) > 0 {
      NoneMeansAbsent(s, m);
      OneLess(s, p, m);
    }
  }

  function Reported(matches: seq<string>, m: string): nat {
    if |matches| == 0 then 0 else (if matches[0] == m then 1 else 0) + Reported(matches[1..], m)
  }

  /** A text that no placeholder so far contains, as all that the patterns match are. */
  ghost predicate Hideable(m: string) {
    && |m| > 0 && NoBrackets(m)
    && forall kind: Kind, number: nat | number < MOST :: !Contains(Placeholder(kind, number), m)
  }

  lemma MatchesAreHideable(kind: Kind, m: string)
    requires Matches(RegexOf(kind), m)
    ensures Hideable(m)
  {
    MatchFacts(kind, m, kind, 0);
    forall other: Kind, number: nat | number < MOST
      ensures !Contains(Placeholder(other, number), m)
    {
      MatchFacts(kind, m, other, number);
    }
  }

  lemma {:induction false} MatchesHide(kind: Kind, matches: seq<string>, text: string, entries: Entries, m: string)
    requires Hideable(m) && |entries| + |matches| <= MOST
    ensures var after := AfterMatches(kind, matches, text, entries).0;
            && TimesIn(after, m) <= TimesIn(text, m)
            && (TimesIn(text, m) <= Reported(matches, m) ==> TimesIn(after, m) == 0)
    decreases |matches|
  {
    if |matches| == 0 {
    } else {
      var placeholder := Placeholder(kind, |entries|);
      PlaceholderBracketed(kind, |entries|);
      OneReplaced(text, matches[0], placeholder, m);
      MatchesHide(kind, matches[1..], ReplaceFirst(text, matches[0], placeholder), entries + [(placeholder, matches[0])], m);
    }
  }

  lemma {:induction false} PatternsHide(active: seq<Kind>, findall: (Kind, string) -> seq<string>, text: string,
                                        entries: Entries, m: string)
    requires Hideable(m) && |AfterPatterns(active, findall, text, entries).1| <= MOST
    ensures TimesIn(AfterPatterns(active, findall, text, entries).0, m) <= TimesIn(text, m)
    decreases |active|
  {
    if |active| == 0 {
    } else {
      var matches := findall(active[0], text);
      var (text', entries') := AfterMatches(active[0], matches, text, entries);
      MatchesGrow(active[0], matches, text, entries);
      EntriesGrow(active[1..], findall, text', entries');
      MatchesHide(active[0], matches, text, entries, m);
      PatternsHide(active[1..], findall, text', entries', m);
    }
  }

  /** The pattern at position i, when its turn comes, reports m as often as m then occurs. */
  predicate FullyReported(active: seq<Kind>, findall: (Kind, string) -> seq<string>, text: string, entries: Entries,
                          i: nat, m: string)
    requires i < |active|
    decreases i
  {
    var matches := findall(active[0], text);
    if i == 0 then |m| > 0 && Reported(matches, m) > 0 && TimesIn(text, m) <= Reported(matches, m)
    else
      var (text', entries') := AfterMatches(active[0], matches, text, entries);
      FullyReported(active[1..], findall, text', entries', i - 1, m)
  }

  lemma {:induction false} ReportedMatches(kind: Kind, matches: seq<string>, m: string)
    requires Reported(matches, m) > 0 && forall j | 0 <= j < |matches| :: Matches(RegexOf(kind), matches[j])
    ensures Matches(RegexOf(kind), m)
  {
    if matches[0] != m {
      ReportedMatches(kind, matches[1..], m);
    }
  }

  lemma {:induction false} HiddenFrom(active: seq<Kind>, findall: (Kind, string) -> seq<string>, text: string,
                                      entries: Entries, i: nat, m: string)
    requires Faithful(findall) && i < |active| && |AfterPatterns(active, findall, text, entries).1| <= MOST
    requires FullyReported(active, findall, text, entries, i, m)
    ensures |m| > 0 && TimesIn(AfterPatterns(active, findall, text, entries).0, m) == 0
    decreases i
  {
    var matches := findall(active[0], text);
    var (text', entries') := AfterMatches(active[0], matches, text, entries);
    if i > 0 {
      HiddenFrom(active[1..], findall, text', entries', i - 1, m);
    } else {
      ReportedMatches(active[0], matches, m);
      MatchesAreHideable(active[0], m);
      MatchesGrow(active[0], matches, text, entries);
      EntriesGrow(active[1..], findall, text', entries');
      MatchesHide(active[0], matches, text, entries, m);
      PatternsHide(active[1..], findall, text', entries', m);
    }
  }

  /** What a pattern reports as often as it occurs is not in the redacted text, whichever
      occurrences were replaced and whatever the patterns after it do. */
  lemma ReportedIsHidden(active: seq<Kind>, findall: (Kind, string) -> seq<string>, text: string, i: nat, m: string)
    requires Faithful(findall) && Redacted(active, findall, text).count <= MOST
    requires i < |active| && FullyReported(active, findall, text, [], i, m)
    ensures !Contains(Redacted(active, findall, text).text, m)
  {
    HiddenFrom(active, findall, text, [], i, m);
    NoneMeansAbsent(Redacted(active, findall, text).text, m);
  }

  // ---- What is missed ----

  predicate AllAre(matches: seq<string>, m: string) {
    forall i | 0 <= i < |matches| :: matches[i] == m
  }

  lemma {:induction false} OneKindLeft(kind: Kind, matches: seq<string>, text: string, entries: Entries, m: string)
    requires Hideable(m) && |entries| + |matches| <= MOST && AllAre(matches, m)
    ensures TimesIn(AfterMatches(kind, matches, text, entries).0, m)
            == if TimesIn(text, m) <= |matches| then 0 else TimesIn(text, m) - |matches|
    decreases |matches|
  {
    if |matches| == 0 {
    } else {
      var placeholder := Placeholder(kind, |entries|);
      PlaceholderBracketed(kind, |entries|);
      OneReplaced(text, matches[0], placeholder, m);
      OneKindLeft(kind, matches[1..], ReplaceFirst(text, matches[0], placeholder), entries + [(placeholder, matches[0])], m);
    }
  }

  /** Where all that a pattern reports is m, it leaves m readable exactly if m stands in the text
      more often than it was reported. */
  lemma MissedIff(kind: Kind, engine: Engine, text: string, m: string)
    requires Faithful(engine) && 0 < |engine(kind, text)| <= MOST && AllAre(engine(kind, text), m)
    ensures |m| > 0
    ensures Contains(Redacted([kind], engine, text).text, m) <==> TimesIn(text, m) > |engine(kind, text)|
  {
    var matches := engine(kind, text);
    assert Matches(RegexOf(kind), matches[0]);
    MatchesAreHideable(kind, m);
    OneKindLeft(kind, matches, text, [], m);
    var (text', entries') := AfterMatches(kind, matches, text, []);
    assert [kind][0] == kind && [kind][1..] == [];
    assert AfterPatterns([kind], engine, text, []) == AfterPatterns([], engine, text', entries') == (text', entries');
    NoneMeansAbsent(text', m);
  }

  const MISSED := ("0" + NUMBER) + (" " + NUMBER)

  lemma MissedSays()
    ensures NUMBER == "000-00-0000" && MISSED == "0000-00-0000 000-00-0000"
  {
    NumberSays();
  }

  /** A number behind another digit is no match, yet it is what is replaced. */
  lemma MissedNumber()
    ensures var engine := Finds(Ssn, MISSED, [NUMBER]);
            && MISSED == "0000-00-0000 000-00-0000" && NUMBER == "000-00-0000"
            && Located(engine) && Contains(Redacted([Ssn], engine, MISSED).text, NUMBER)
  {
    var engine := Finds(Ssn, MISSED, [NUMBER]);
    SomeSsn();
    FoundBehind(NUMBER);
    FindsLocated(Ssn, MISSED, [NUMBER]);
    LocatedIsContained(engine);
    MatchesAreHideable(Ssn, NUMBER);
    TwiceIn(NUMBER);
    MissedIff(Ssn, engine, MISSED, NUMBER);
    MissedSays();
  }

  lemma FoundBehind(m: string)
    ensures SideBySide(("0" + m) + (" " + m), [m])
  {
    var text := ("0" + m) + (" " + m);
    assert text[|m| + 2..|m| + 2 + |m|] == m;
    assert Spread(text, [|m| + 2], [m]);
  }

  lemma TwiceIn(m: string)
    requires |m| > 0
    ensures TimesIn(("0" + m) + (" " + m), m) >= 2
  {
    TimesAdd("0" + m, " " + m, m);
    TimesAdd("0", m, m);
    TimesAdd(" ", m, m);
    assert TimesIn(m, m) >= 1;
  }
}
