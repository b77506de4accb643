/** Which texts app/llm/redactor.py gives back when matches do not overlap. */
module RedactorCounts {
  import opened PythonText
  import opened Patterns
  import opened Redactor
  import opened RedactorTokens
  import opened RedactorRestoring
  import opened RedactorRoundTrip
  import opened RedactorLimits
  import opened RedactorRuns

  // ---- Which placeholders a redaction can make up ----

  predicate Distinct<T(==)>(active: seq<T>) {
    forall i, j | 0 <= i < j < |active| :: active[i] != active[j]
  }

  /** How many matches there can be of the active kinds up to this one. */
  function UpTo(active: seq<Kind>, kind: Kind, cap: Kind -> nat): nat {
    if |active| == 0 then 0
    else if active[0] == kind then cap(kind)
    else cap(active[0]) + UpTo(active[1..], kind, cap)
  }

  ghost predicate Caps(text: string, cap: Kind -> nat) {
    forall kind :: !HasMatches(text, kind, cap(kind) + 1)
  }

  predicate NumberedWithin(active: seq<Kind>, entries: Entries, i: nat, from: nat, cap: Kind -> nat)
    requires i < |entries|
  {
    exists kind | kind in active :: entries[i].0 == Placeholder(kind, i) && cap(kind) > 0 && i < from + UpTo(active, kind, cap)
  }

  lemma KindCapped(ts: seq<Tok>, entries: Entries, redacted: string, text: string, kind: Kind, engine: Engine, cap: Kind -> nat)
    requires Located(engine) && Caps(text, cap) && Represents(ts, entries, redacted, text)
    ensures |engine(kind, redacted)| <= cap(kind)
  {
    var ms := engine(kind, redacted);
    assert SideBySide(redacted, ms) && AllMatch(kind, ms);
    MatchesInOriginal(ts, entries, redacted, text, kind, ms);
    if |ms| > cap(kind) {
      FewerMatches(text, kind, ms, cap(kind) + 1);
    }
  }

  lemma {:induction false} EntriesStay(active: seq<Kind>, engine: Engine, text: string, entries: Entries)
    ensures entries <= AfterPatterns(active, engine, text, entries).1
    decreases |active|
  {
    if |active| == 0 {
    } else {
      var matches := engine(active[0], text);
      KeysAreNumbered(active[0], matches, text, entries);
      var (text', entries') := AfterMatches(active[0], matches, text, entries);
      EntriesStay(active[1..], engine, text', entries');
    }
  }

  /** The entries of the first pattern and of the rest. */
  lemma FirstNumbered(active: seq<Kind>, all: Entries, matches: seq<string>, from: nat, i: nat, cap: Kind -> nat)
    requires |active| > 0 && |matches| <= cap(active[0]) && from <= i < from + |matches| && i < |all|
    requires all[i].0 == Placeholder(active[0], i)
    ensures NumberedWithin(active, all, i, from, cap)
  {
    assert active[0] in active;
  }

  lemma RestNumbered(active: seq<Kind>, all: Entries, matches: seq<string>, from: nat, i: nat, cap: Kind -> nat)
    requires |active| > 0 && Distinct(active) && |matches| <= cap(active[0]) && i < |all|
    requires NumberedWithin(active[1..], all, i, from + |matches|, cap)
    ensures NumberedWithin(active, all, i, from, cap)
  {
    var kind :| kind in active[1..] && all[i].0 == Placeholder(kind, i) && cap(kind) > 0
                && i < from + |matches| + UpTo(active[1..], kind, cap);
    assert kind in active && kind != active[0];
  }

  lemma {:induction false} RunNumbered(active: seq<Kind>, engine: Engine, ts: seq<Tok>, entries: Entries,
                                       redacted: string, text: string, cap: Kind -> nat)
    requires Located(engine) && Faithful(engine) && Distinct(active) && Caps(text, cap)
    requires Represents(ts, entries, redacted, text) && |AfterPatterns(active, engine, redacted, entries).1| <= MOST
    ensures AllWithin(active, AfterPatterns(active, engine, redacted, entries).1, |entries|, cap)
    decreases |active|
  {
    if |active| == 0 {
    } else {
      var matches := engine(active[0], redacted);
      var (redacted', entries') := AfterMatches(active[0], matches, redacted, entries);
      var all := AfterPatterns(active, engine, redacted, entries).1;
      KeysAreNumbered(active[0], matches, redacted, entries);
      EntriesStay(active[1..], engine, redacted', entries');
      KindCapped(ts, entries, redacted, text, active[0], engine, cap);
      var next := RedactKind(active[0], matches, ts, entries, redacted, text);
      RunNumbered(active[1..], engine, next, entries', redacted', text, cap);
      AllNumbered(active, all, matches, entries', |entries|, cap);
    }
  }

  predicate AllWithin(active: seq<Kind>, all: Entries, from: nat, cap: Kind -> nat) {
    forall i | from <= i < |all| :: NumberedWithin(active, all, i, from, cap)
  }

  lemma AllNumbered(active: seq<Kind>, all: Entries, matches: seq<string>, first: Entries, from: nat, cap: Kind -> nat)
    requires |active| > 0 && Distinct(active) && |matches| <= cap(active[0]) && first <= all && |first| == from + |matches|
    requires forall i | from <= i < |first| :: first[i].0 == Placeholder(active[0], i)
    requires AllWithin(active[1..], all, |first|, cap)
    ensures AllWithin(active, all, from, cap)
  {
    forall i | from <= i < |all|
      ensures NumberedWithin(active, all, i, from, cap)
    {
      if i < |first| {
        assert all[i] == first[i];
        FirstNumbered(active, all, matches, from, i, cap);
      } else {
        RestNumbered(active, all, matches, from, i, cap);
      }
    }
  }

  // ---- What comes back ----

  /** Every placeholder in the text is of a kind the text has no match of, or has a number no
      redaction reaches: there are not so many matches of its kind and the kinds before it. */
  ghost predicate NumbersTooHigh(active: seq<Kind>, text: string, cap: Kind -> nat) {
    forall kind, number: nat | kind in active && number < MOST && Contains(text, Placeholder(kind, number)) ::
      cap(kind) == 0 || number >= UpTo(active, kind, cap)
  }

  lemma HighNumbersComeBack(active: seq<Kind>, engine: Engine, text: string, cap: Kind -> nat)
    requires Located(engine) && Distinct(active) && Redacted(active, engine, text).count <= MOST
    requires Caps(text, cap) && NumbersTooHigh(active, text, cap)
    ensures ComesBack(active, engine, text)
  {
    LocatedIsContained(engine);
    FillPlain(text, []);
    RunNumbered(active, engine, Plain(text), [], text, text, cap);
    RoundTrip(active, engine, text);
    var r := Redacted(active, engine, text);
    forall i | 0 <= i < |r.entries|
      ensures !Contains(text, r.entries[i].0)
    {
      assert NumberedWithin(active, r.entries, i, 0, cap);
      var kind :| kind in active && r.entries[i].0 == Placeholder(kind, i) && cap(kind) > 0 && i < 0 + UpTo(active, kind, cap);
      assert !Contains(text, Placeholder(kind, i));
    }
  }

  // ---- Exactly when, for the first pattern ----

  /** Whatever an engine like findall reports. */
  ghost predicate AlwaysWith(active: seq<Kind>, text: string) {
    forall engine: Engine | Located(engine) && Redacted(active, engine, text).count <= MOST :: ComesBack(active, engine, text)
  }

  /** For each placeholder of the kind in the text there are too few matches to number one so. */
  ghost predicate TooFewMatches(kind: Kind, text: string) {
    forall number: nat | number < MOST && Contains(text, Placeholder(kind, number)) :: !HasMatches(text, kind, number + 1)
  }

  ghost predicate OnlyOf(kind: Kind, active: seq<Kind>, text: string) {
    forall other, number: nat | other in active && other != kind && number < MOST :: !Contains(text, Placeholder(other, number))
  }

  ghost predicate OfKinds(active: seq<Kind>, entries: Entries, i: nat)
    requires i < |entries|
  {
    exists kind | kind in active :: entries[i].0 == Placeholder(kind, i)
  }

  lemma {:induction false} KeysOfKinds(active: seq<Kind>, engine: Engine, text: string, entries: Entries)
    ensures var all := AfterPatterns(active, engine, text, entries).1;
            forall i | |entries| <= i < |all| :: OfKinds(active, all, i)
    decreases |active|
  {
    if |active| == 0 {
    } else {
      var matches := engine(active[0], text);
      var (text', entries') := AfterMatches(active[0], matches, text, entries);
      var all := AfterPatterns(active, engine, text, entries).1;
      KeysAreNumbered(active[0], matches, text, entries);
      EntriesStay(active[1..], engine, text', entries');
      KeysOfKinds(active[1..], engine, text', entries');
      forall i | |entries| <= i < |all|
        ensures OfKinds(active, all, i)
      {
        if i < |entries'| {
          assert all[i].0 == Placeholder(active[0], i) && active[0] in active;
        } else {
          assert OfKinds(active[1..], all, i);
          var kind :| kind in active[1..] && all[i].0 == Placeholder(kind, i);
          assert kind in active;
        }
      }
    }
  }

  lemma KeyOfKind(active: seq<Kind>, engine: Engine, text: string, entries: Entries, i: nat) returns (kind: Kind)
    requires |entries| <= i < |AfterPatterns(active, engine, text, entries).1|
    ensures kind in active && AfterPatterns(active, engine, text, entries).1[i].0 == Placeholder(kind, i)
  {
    var all := AfterPatterns(active, engine, text, entries).1;
    KeysOfKinds(active, engine, text, entries);
    assert OfKinds(active, all, i);
    kind :| kind in active && all[i].0 == Placeholder(kind, i);
  }

  /** The keys of the first pattern come first; the others are of other kinds. */
  lemma FirstKeys(active: seq<Kind>, engine: Engine, text: string)
    requires |active| > 0 && Distinct(active)
    ensures var all, n := Redacted(active, engine, text).entries, |engine(active[0], text)|;
            && n <= |all| && (forall i | 0 <= i < n :: all[i].0 == Placeholder(active[0], i))
            && (forall i | n <= i < |all| :: OfKinds(active[1..], all, i))
  {
    var matches := engine(active[0], text);
    var (text', entries') := AfterMatches(active[0], matches, text, []);
    KeysAreNumbered(active[0], matches, text, []);
    EntriesStay(active[1..], engine, text', entries');
    KeysOfKinds(active[1..], engine, text', entries');
  }

  lemma TooFewComesBack(active: seq<Kind>, engine: Engine, text: string)
    requires |active| > 0 && Distinct(active) && OnlyOf(active[0], active, text) && TooFewMatches(active[0], text)
    requires Located(engine) && Redacted(active, engine, text).count <= MOST
    ensures ComesBack(active, engine, text)
  {
    var r, ms := Redacted(active, engine, text), engine(active[0], text);
    LocatedIsContained(engine);
    RoundTrip(active, engine, text);
    FirstKeys(active, engine, text);
    assert SideBySide(text, ms) && AllMatch(active[0], ms);
    forall i | 0 <= i < |r.entries|
      ensures !Contains(text, r.entries[i].0)
    {
      if i < |ms| {
        FewerMatches(text, active[0], ms, i + 1);
      } else {
        assert OfKinds(active[1..], r.entries, i);
        var kind :| kind in active[1..] && r.entries[i].0 == Placeholder(kind, i);
        assert kind in active && kind != active[0];
      }
    }
  }

  lemma FindsLocated(kind: Kind, text: string, ms: seq<string>)
    requires SideBySide(text, ms) && AllMatch(kind, ms)
    ensures Located(Finds(kind, text, ms))
  {
    forall k, s
      ensures SideBySide(s, Finds(kind, text, ms)(k, s)) && AllMatch(k, Finds(kind, text, ms)(k, s))
    {
      assert Spread(s, [], []);
      assert SideBySide(s, []);
    }
  }

  lemma EnoughIsLost(active: seq<Kind>, text: string, number: nat)
    requires |active| > 0 && Distinct(active) && number < MOST
    requires Contains(text, Placeholder(active[0], number)) && HasMatches(text, active[0], number + 1)
    ensures !AlwaysWith(active, text)
  {
    var ms :| |ms| == number + 1 && SideBySide(text, ms) && AllMatch(active[0], ms);
    var engine := Finds(active[0], text, ms);
    FindsLocated(active[0], text, ms);
    LocatedIsContained(engine);
    FirstKeys(active, engine, text);
    NothingElseFound(active, text, ms);
    RoundTrip(active, engine, text);
    assert Redacted(active, engine, text).entries[number].0 == Placeholder(active[0], number);
    assert !ComesBack(active, engine, text);
  }

  lemma {:induction false} NothingFound(active: seq<Kind>, kind: Kind, searched: string, ms: seq<string>, text: string, entries: Entries)
    requires kind !in active
    ensures AfterPatterns(active, Finds(kind, searched, ms), text, entries) == (text, entries)
    decreases |active|
  {
    if |active| == 0 {
    } else {
      assert active[0] in active;
      NothingFound(active[1..], kind, searched, ms, text, entries);
    }
  }

  lemma NothingElseFound(active: seq<Kind>, text: string, ms: seq<string>)
    requires |active| > 0 && Distinct(active)
    ensures Redacted(active, Finds(active[0], text, ms), text).count == |ms|
  {
    var (text', entries') := AfterMatches(active[0], ms, text, []);
    KeysAreNumbered(active[0], ms, text, []);
    NothingFound(active[1..], active[0], text, ms, text', entries');
  }

  /** Where all that looks like a placeholder is of the kind that is searched first, as it is
      where only one pattern is active: the text always comes back if and only if it never has
      enough matches of the kind, side by side, to make such a placeholder up. */
  lemma FirstPatternIff(active: seq<Kind>, text: string)
    requires |active| > 0 && Distinct(active) && OnlyOf(active[0], active, text)
    ensures AlwaysWith(active, text) <==> TooFewMatches(active[0], text)
  {
    if TooFewMatches(active[0], text) {
      forall engine: Engine | Located(engine) && Redacted(active, engine, text).count <= MOST
        ensures ComesBack(active, engine, text)
      {
        TooFewComesBack(active, engine, text);
      }
    } else {
      var number: nat :| number < MOST && Contains(text, Placeholder(active[0], number)) && HasMatches(text, active[0], number + 1);
      EnoughIsLost(active, text, number);
    }
  }

  // ---- Counting signs ----

  lemma CountPrefix(s: string, a: nat, b: nat, q: Mark)
    requires a <= b <= |s|
    ensures Count(s[..b], q) == Count(s[..a], q) + Count(s[a..b], q)
  {
    CountSplit(s[..b], a, q);
    assert s[..b][..a] == s[..a] && s[..b][a..] == s[a..b];
  }

  /** Where the first n of the strings end. */
  function End(at: seq<nat>, ms: seq<string>, n: nat): nat
    requires n <= |at| == |ms|
  {
    if n == 0 then 0 else at[n - 1] + |ms[n - 1]|
  }

  predicate Signed(ms: seq<string>, q: Mark, each: nat) {
    forall i | 0 <= i < |ms| :: Count(ms[i], q) >= each
  }

  lemma MatchesAreSigned(kind: Kind, ms: seq<string>)
    requires AllMatch(kind, ms)
    ensures Signed(ms, Marks(kind), MarkCount(kind))
  {
    forall i | 0 <= i < |ms|
      ensures Count(ms[i], Marks(kind)) >= MarkCount(kind)
    {
      MatchesAreMarked(kind, ms[i]);
    }
  }

  lemma {:induction false} SignsOfMatches(s: string, at: seq<nat>, ms: seq<string>, n: nat, q: Mark, each: nat)
    requires Spread(s, at, ms) && Signed(ms, q, each) && n <= |ms|
    ensures End(at, ms, n) <= |s| && Count(s[..End(at, ms, n)], q) >= n * each
    decreases n
  {
    if n == 0 {
    } else {
      SignsOfMatches(s, at, ms, n - 1, q, each);
      SignsOfMatch(s, End(at, ms, n - 1), at[n - 1], ms[n - 1], q);
      assert n * each == (n - 1) * each + each;
    }
  }

  lemma SignsOfMatch(s: string, from: nat, k: nat, m: string, q: Mark)
    requires from <= k && OccursAt(s, m, k)
    ensures Count(s[..k + |m|], q) >= Count(s[..from], q) + Count(m, q)
  {
    var end := k + |m|;
    CountPrefix(s, from, k, q);
    CountPrefix(s, k, end, q);
    assert s[k..end] == m;
  }

  lemma SignsBound(text: string, kind: Kind, count: nat)
    requires HasMatches(text, kind, count)
    ensures Count(text, Marks(kind)) >= count * MarkCount(kind)
  {
    var ms :| |ms| == count && SideBySide(text, ms) && AllMatch(kind, ms);
    var at :| Spread(text, at, ms);
    MatchesAreSigned(kind, ms);
    SignsOfMatches(text, at, ms, |ms|, Marks(kind), MarkCount(kind));
    CountPrefix(text, End(at, ms, |ms|), |text|, Marks(kind));
    assert text[..|text|] == text;
  }

  /** A match of the kind needs so many of its signs: an address an @, and so on. */
  function SignCap(text: string): Kind -> nat {
    kind => Count(text, Marks(kind)) / MarkCount(kind)
  }

  lemma SignsCap(text: string)
    ensures Caps(text, SignCap(text))
  {
    forall kind
      ensures !HasMatches(text, kind, SignCap(text)(kind) + 1)
    {
      if HasMatches(text, kind, SignCap(text)(kind) + 1) {
        SignsBound(text, kind, SignCap(text)(kind) + 1);
      }
    }
  }

  /** A check without any search: counting the signs. */
  lemma FewSignsComeBack(active: seq<Kind>, engine: Engine, text: string)
    requires Located(engine) && Distinct(active) && Redacted(active, engine, text).count <= MOST
    requires NumbersTooHigh(active, text, SignCap(text))
    ensures ComesBack(active, engine, text)
  {
    SignsCap(text);
    HighNumbersComeBack(active, engine, text, SignCap(text));
  }

  // ---- An example ----

  const BEHIND := " a@b.co"
  const NUMBERED := Placeholder(Email, 5) + BEHIND

  lemma NumberedSays()
    ensures NUMBERED == "[EMAIL_REDACTED_5] a@b.co"
  {
    assert Decimal(5) == "5";
  }

  lemma BehindSigns()
    ensures Count(BEHIND, Is('@')) == 1 && Count(BEHIND, Is('-')) == 0
    ensures Count(BEHIND, Is('.')) == 1 && Count(BEHIND, AnyDigit) == 0
  {
  }

  lemma NumberedSigns(q: Mark)
    ensures Count(NUMBERED, q) == Count(Placeholder(Email, 5), q) + Count(BEHIND, q)
  {
    var p := Placeholder(Email, 5);
    CountSplit(NUMBERED, |p|, q);
    assert NUMBERED[..|p|] == p && NUMBERED[|p|..] == BEHIND;
  }

  lemma NumberedCaps(kind: Kind)
    ensures SignCap(NUMBERED)(kind) <= (if kind.Email? || kind.Ip? then 1 else 0)
  {
    BehindSigns();
    NumberedSigns(Marks(kind));
    PlaceholderUnmarked(kind, Email, 5);
  }

  lemma OnlyFifth(kind: Kind, number: nat)
    requires Contains(NUMBERED, Placeholder(kind, number))
    ensures kind == Email && number == 5
  {
    var p, fifth := Placeholder(kind, number), Placeholder(Email, 5);
    var k :| OccursAt(NUMBERED, p, k);
    PlaceholderBracketed(kind, number);
    PlaceholderBracketed(Email, 5);
    OpensOnce(fifth, p, k);
    BracketedSame(p, fifth, BEHIND);
    PlaceholderInjective(kind, number, Email, 5);
    KindOf(kind, Email, 5);
  }

  lemma KindOf(kind: Kind, other: Kind, number: nat)
    requires Placeholder(kind, number) == Placeholder(other, number)
    ensures kind == other
  {
    assert Label(kind)[0] == Placeholder(kind, number)[1] == Placeholder(other, number)[1] == Label(other)[0];
  }

  lemma OpensOnce(fifth: string, p: string, k: nat)
    requires Bracketed(fifth) && Bracketed(p) && OccursAt(fifth + BEHIND, p, k)
    ensures k == 0
  {
    var s := fifth + BEHIND;
    assert s[k..k + |p|][0] == s[k];
    if k < |fifth| {
      BracketedInside(fifth, k);
    }
  }

  lemma {:induction false} UpToFew(active: seq<Kind>, cap: Kind -> nat)
    requires Distinct(active) && forall kind: Kind :: cap(kind) <= (if kind.Email? || kind.Ip? then 1 else 0)
    ensures UpTo(active, Email, cap) <= 1 + (if Ip in active then 1 else 0)
  {
    if |active| == 0 || active[0] == Email {
    } else {
      UpToFew(active[1..], cap);
      assert active[0] in active;
    }
  }

  /** A placeholder with a number that the redaction does not reach does no harm. */
  lemma NumberedComesBack(active: seq<Kind>, engine: Engine)
    requires Located(engine) && Distinct(active) && Redacted(active, engine, NUMBERED).count <= MOST
    ensures NUMBERED == "[EMAIL_REDACTED_5] a@b.co" && ComesBack(active, engine, NUMBERED)
  {
    NumberedSays();
    forall kind: Kind
      ensures SignCap(NUMBERED)(kind) <= (if kind.Email? || kind.Ip? then 1 else 0)
    {
      NumberedCaps(kind);
    }
    UpToFew(active, SignCap(NUMBERED));
    forall kind, number: nat | kind in active && number < MOST && Contains(NUMBERED, Placeholder(kind, number))
      ensures SignCap(NUMBERED)(kind) == 0 || number >= UpTo(active, kind, SignCap(NUMBERED))
    {
      OnlyFifth(kind, number);
    }
    FewSignsComeBack(active, engine, NUMBERED);
  }
}
