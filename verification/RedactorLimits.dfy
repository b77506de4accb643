/** Which texts app/llm/redactor.py gives back, as a caller can tell before the call. */
module RedactorLimits {
  import opened PythonText
  import opened Patterns
  import opened Redactor
  import opened RedactorTokens
  import opened RedactorRestoring
  import opened RedactorRoundTrip
  import opened PatternExamples

  type Engine = (Kind, string) -> seq<string>

  /** It reports only what stands in the text it searched. */
  ghost predicate Contained(engine: Engine) {
    forall kind, text, i | 0 <= i < |engine(kind, text)| :: Contains(text, engine(kind, text)[i])
  }

  ghost predicate ComesBack(active: seq<Kind>, engine: Engine, text: string) {
    var r := Redacted(active, engine, text);
    Restored(r.text, r.entries) == text
  }

  // ---- What the map of a redaction holds ----

  function NewEntries(kind: Kind, matches: seq<string>, from: nat): (made: Entries)
    ensures |made| == |matches|
    ensures forall i | 0 <= i < |matches| :: made[i].0 == Placeholder(kind, from + i) && made[i].1 == matches[i]
  {
    if |matches| == 0 then [] else [(Placeholder(kind, from), matches[0])] + NewEntries(kind, matches[1..], from + 1)
  }

  lemma {:induction false} KeysAreNumbered(kind: Kind, matches: seq<string>, text: string, entries: Entries)
    ensures AfterMatches(kind, matches, text, entries).1 == entries + NewEntries(kind, matches, |entries|)
    decreases |matches|
  {
    if |matches| == 0 {
    } else {
      var entry := (Placeholder(kind, |entries|), matches[0]);
      var next := ReplaceFirst(text, matches[0], entry.0);
      KeysAreNumbered(kind, matches[1..], next, entries + [entry]);
      Regroup(entries, [entry], NewEntries(kind, matches[1..], |entries| + 1));
    }
  }

  /** One pattern alone: as many entries as it found, numbered from nought. */
  lemma OnePattern(kind: Kind, engine: Engine, text: string)
    ensures var r := Redacted([kind], engine, text);
            r.count == |engine(kind, text)| && forall i | 0 <= i < |r.entries| :: r.entries[i].0 == Placeholder(kind, i)
  {
    var matches := engine(kind, text);
    KeysAreNumbered(kind, matches, text, []);
    var (text', entries') := AfterMatches(kind, matches, text, []);
    assert [kind][0] == kind && [kind][1..] == [];
    assert AfterPatterns([kind], engine, text, []) == AfterPatterns([], engine, text', entries') == (text', entries');
  }

  // ---- One pattern, one engine ----

  /** With one pattern active, a text comes back exactly when none of the first placeholders
      of its kind, as many as the pattern finds in the text, stands there already. */
  lemma OnePatternIff(kind: Kind, engine: Engine, text: string)
    requires Faithful(engine) && |engine(kind, text)| <= MOST
    ensures ComesBack([kind], engine, text) <==>
            forall n: nat | n < |engine(kind, text)| :: !Contains(text, Placeholder(kind, n))
  {
    OnePattern(kind, engine, text);
    RoundTrip([kind], engine, text);
    var r := Redacted([kind], engine, text);
    assert forall n: nat | n < |engine(kind, text)| :: r.entries[n].0 == Placeholder(kind, n);
  }

  // ---- All patterns, all engines that report what is there ----

  /** Whatever patterns are active, and whatever of the text the engine reports, however often. */
  ghost predicate AlwaysComesBack(text: string) {
    forall active, engine: Engine | Faithful(engine) && Contained(engine) && Redacted(active, engine, text).count <= MOST ::
      ComesBack(active, engine, text)
  }

  /** Where something looks like a placeholder, the text has no match of its kind. */
  ghost predicate NothingOfItsKind(text: string) {
    forall kind: Kind, number: nat, m: string
      | number < MOST && Contains(text, Placeholder(kind, number)) && Matches(RegexOf(kind), m) :: !Contains(text, m)
  }

  ghost predicate EntriesFound(entries: Entries, text: string) {
    forall i | 0 <= i < |entries| :: Contains(text, entries[i].1)
  }

  /** What stands in a text half redacted stands in the text. */
  lemma FoundInOriginal(ts: seq<Tok>, entries: Entries, redacted: string, text: string, kind: Kind, m: string)
    requires Represents(ts, entries, redacted, text) && Matches(RegexOf(kind), m) && Contains(redacted, m)
    ensures Contains(text, m)
  {
    var k :| OccursAt(redacted, m, k);
    KeysOk(entries);
    MatchOutsideKeys(entries, kind, m);
    MatchFacts(kind, m, kind, 0);
    var j := Locate(ts, Keys(entries), m, k);
    AroundMatch(ts, Values(entries), j, m);
    var before := Fill(ts[..j], Values(entries));
    assert text[|before|..|before| + |m|] == m;
    assert OccursAt(text, m, |before|);
  }

  lemma {:induction false} RunFound(active: seq<Kind>, engine: Engine, ts: seq<Tok>, entries: Entries, redacted: string, text: string)
    requires Faithful(engine) && Contained(engine) && Represents(ts, entries, redacted, text) && EntriesFound(entries, text)
    requires |AfterPatterns(active, engine, redacted, entries).1| <= MOST
    ensures EntriesFound(AfterPatterns(active, engine, redacted, entries).1, text)
    decreases |active|
  {
    if |active| == 0 {
    } else {
      var matches := engine(active[0], redacted);
      var (redacted', entries') := AfterMatches(active[0], matches, redacted, entries);
      MatchesGrow(active[0], matches, redacted, entries);
      EntriesGrow(active[1..], engine, redacted', entries');
      KeysAreNumbered(active[0], matches, redacted, entries);
      forall i | 0 <= i < |matches|
        ensures Contains(text, matches[i])
      {
        FoundInOriginal(ts, entries, redacted, text, active[0], matches[i]);
      }
      var next := RedactKind(active[0], matches, ts, entries, redacted, text);
      RunFound(active[1..], engine, next, entries', redacted', text);
    }
  }

  lemma NothingOfItsKindComesBack(active: seq<Kind>, engine: Engine, text: string)
    requires Faithful(engine) && Contained(engine) && Redacted(active, engine, text).count <= MOST && NothingOfItsKind(text)
    ensures ComesBack(active, engine, text)
  {
    var r := Redacted(active, engine, text);
    var ts := RedactionRepresented(active, engine, text);
    FillPlain(text, []);
    RunFound(active, engine, Plain(text), [], text, text);
    RoundTrip(active, engine, text);
    forall i | 0 <= i < |r.entries|
      ensures !Contains(text, r.entries[i].0)
    {
      assert EntryOk(r.entries, i);
      var kind :| EntryIs(kind, r.entries[i], i);
      assert Contains(text, r.entries[i].1);
    }
  }

  /** It finds these where it looks for this kind in this text, and nothing else. */
  function Finds(kind: Kind, text: string, ms: seq<string>): Engine {
    (k: Kind, t: string) => if k == kind && t == text then ms else []
  }

  function Copies(m: string, n: nat): (ms: seq<string>)
    ensures |ms| == n && forall i | 0 <= i < n :: ms[i] == m
  {
    seq(n, _ => m)
  }

  lemma FindsFaithful(kind: Kind, text: string, ms: seq<string>, m: string)
    requires Matches(RegexOf(kind), m) && Contains(text, m) && forall i | 0 <= i < |ms| :: ms[i] == m
    ensures Faithful(Finds(kind, text, ms)) && Contained(Finds(kind, text, ms))
  {
  }

  lemma FoundAndLost(kind: Kind, number: nat, text: string, m: string)
    requires number < MOST && Contains(text, Placeholder(kind, number)) && Matches(RegexOf(kind), m) && Contains(text, m)
    ensures !AlwaysComesBack(text)
  {
    var engine := Finds(kind, text, Copies(m, number + 1));
    FindsFaithful(kind, text, Copies(m, number + 1), m);
    OnePattern(kind, engine, text);
    OnePatternIff(kind, engine, text);
    assert !ComesBack([kind], engine, text);
  }

  /** A text always comes back if and only if it has no match of a kind whose placeholders it
      seems to hold. */
  lemma ComesBackIff(text: string)
    ensures AlwaysComesBack(text) <==> NothingOfItsKind(text)
  {
    if NothingOfItsKind(text) {
      forall active, engine: Engine | Faithful(engine) && Contained(engine) && Redacted(active, engine, text).count <= MOST
        ensures ComesBack(active, engine, text)
      {
        NothingOfItsKindComesBack(active, engine, text);
      }
    } else {
      var kind: Kind, number: nat, m: string
        :| number < MOST && Contains(text, Placeholder(kind, number)) && Matches(RegexOf(kind), m) && Contains(text, m);
      FoundAndLost(kind, number, text, m);
    }
  }

  /** Nothing in the text looks like a placeholder with up to nine digits. */
  ghost predicate NoPlaceholders(text: string) {
    forall kind: Kind, number: nat | number < MOST :: !Contains(text, Placeholder(kind, number))
  }

  /** So every text without placeholders comes back, even from an engine that reports what is
      not there. */
  lemma PlaceholderFreeComesBack(active: seq<Kind>, engine: Engine, text: string)
    requires Faithful(engine) && Redacted(active, engine, text).count <= MOST && NoPlaceholders(text)
    ensures ComesBack(active, engine, text)
  {
    var r := Redacted(active, engine, text);
    var ts := RedactionRepresented(active, engine, text);
    RoundTrip(active, engine, text);
    forall i | 0 <= i < |r.entries|
      ensures !Contains(text, r.entries[i].0)
    {
      assert EntryOk(r.entries, i);
      var kind :| EntryIs(kind, r.entries[i], i);
      assert !Contains(text, Placeholder(kind, i));
    }
  }

  // ---- An example ----

  const QUOTING := "[EMAIL_REDACTED_0] a@b.co"

  lemma FirstPlaceholder()
    ensures Placeholder(Email, 0) == "[EMAIL_REDACTED_0]"
  {
    assert Decimal(0) == "0";
  }

  lemma QuotingSays()
    ensures OccursAt(QUOTING, ADDRESS, 19) && Contains(QUOTING, Placeholder(Email, 0))
  {
    FirstPlaceholder();
    assert OccursAt(QUOTING, "[EMAIL_REDACTED_0]", 0);
  }

  /** A mail that quotes an earlier placeholder does not come back. */
  lemma QuotedPlaceholderIsLost()
    ensures var engine := Finds(Email, QUOTING, [ADDRESS]);
            Faithful(engine) && Contained(engine) && !ComesBack([Email], engine, QUOTING)
  {
    SomeEmail();
    QuotingSays();
    FindsFaithful(Email, QUOTING, [ADDRESS], ADDRESS);
    OnePatternIff(Email, Finds(Email, QUOTING, [ADDRESS]), QUOTING);
  }
}
