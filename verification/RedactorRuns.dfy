/** Matches side by side, as findall of app/llm/redactor.py reports them. Where a redacted text
    has matches side by side, the original text has them too: between its placeholders a
    redacted text reads as the original does, a match cannot reach into a placeholder, and
    two stretches that are apart in the one are apart in the other. So redaction makes no new
    matches, and none of its patterns can find more than the original had. */
module RedactorRuns {
  import opened PythonText
  import opened Patterns
  import opened Redactor
  import opened RedactorTokens
  import opened RedactorRestoring
  import opened RedactorLimits

  // ---- Matches side by side ----

  /** The strings stand in s at these positions, one behind the other, as findall returns them. */
  predicate Spread(s: string, at: seq<nat>, ms: seq<string>) {
    && |at| == |ms| && (forall i | 0 <= i < |ms| :: OccursAt(s, ms[i], at[i]))
    && (forall i | 0 < i < |ms| :: at[i - 1] + |ms[i - 1]| <= at[i])
  }

  ghost predicate SideBySide(s: string, ms: seq<string>) {
    exists at :: Spread(s, at, ms)
  }

  ghost predicate AllMatch(kind: Kind, ms: seq<string>) {
    forall i | 0 <= i < |ms| :: Matches(RegexOf(kind), ms[i])
  }

  /** There are so many matches of the kind in s side by side. */
  ghost predicate HasMatches(s: string, kind: Kind, count: nat) {
    exists ms :: |ms| == count && SideBySide(s, ms) && AllMatch(kind, ms)
  }

  /** An engine like findall: matches of the pattern, side by side. */
  ghost predicate Located(engine: Engine) {
    forall kind, s :: SideBySide(s, engine(kind, s)) && AllMatch(kind, engine(kind, s))
  }

  lemma LocatedIsContained(engine: Engine)
    requires Located(engine)
    ensures Faithful(engine) && Contained(engine)
  {
    forall kind, s, i | 0 <= i < |engine(kind, s)|
      ensures Contains(s, engine(kind, s)[i]) && Matches(RegexOf(kind), engine(kind, s)[i])
    {
      var ms := engine(kind, s);
      assert SideBySide(s, ms) && AllMatch(kind, ms);
      var at :| Spread(s, at, ms);
      assert OccursAt(s, ms[i], at[i]);
    }
  }

  lemma FewerMatches(s: string, kind: Kind, ms: seq<string>, count: nat)
    requires SideBySide(s, ms) && AllMatch(kind, ms) && count <= |ms|
    ensures HasMatches(s, kind, count)
  {
    var at :| Spread(s, at, ms);
    assert Spread(s, at[..count], ms[..count]);
    assert SideBySide(s, ms[..count]);
  }

  // ---- Redaction makes no new matches ----

  predicate Fillers(fills: seq<string>) {
    forall i | 0 <= i < |fills| :: |fills[i]| > 0
  }

  lemma {:induction false} FillLength(ts: seq<Tok>, fills: seq<string>, j: nat, k: nat)
    requires HolesIn(ts, 0, |fills|) && Fillers(fills) && j <= k <= |ts|
    ensures |Fill(ts[..k], fills)| >= |Fill(ts[..j], fills)| + (k - j)
    decreases k - j
  {
    if j == k {
    } else {
      FillLength(ts, fills, j, k - 1);
      FillNext(ts, fills, k - 1);
    }
  }

  lemma FillNext(ts: seq<Tok>, fills: seq<string>, k: nat)
    requires k < |ts|
    ensures Fill(ts[..k + 1], fills) == Fill(ts[..k], fills) + Piece(ts[k], fills)
  {
    assert ts[..k + 1] == ts[..k] + [ts[k]];
    FillAppend(ts[..k], [ts[k]], fills);
    assert [ts[k]][1..] == [];
  }

  /** m stands among the tokens at j, as a run of characters. */
  predicate RunAt(ts: seq<Tok>, j: nat, m: string) {
    j + |m| <= |ts| && ts[j..j + |m|] == Plain(m)
  }

  lemma FillRun(ts: seq<Tok>, fills: seq<string>, j: nat, m: string)
    requires RunAt(ts, j, m)
    ensures Fill(ts[..j + |m|], fills) == Fill(ts[..j], fills) + m
  {
    assert ts[..j + |m|] == ts[..j] + Plain(m);
    FillAppend(ts[..j], Plain(m), fills);
    FillPlain(m, fills);
  }

  /** The first of the strings stand among the tokens side by side. */
  predicate Runs(ts: seq<Tok>, js: seq<nat>, ms: seq<string>) {
    && |js| <= |ms| && (forall i | 0 <= i < |js| :: RunAt(ts, js[i], ms[i]))
    && (forall i | 0 < i < |js| :: js[i - 1] + |ms[i - 1]| <= js[i])
  }

  function Position(ts: seq<Tok>, fills: seq<string>, j: nat): nat {
    if j <= |ts| then |Fill(ts[..j], fills)| else 0
  }

  predicate RunsAt(ts: seq<Tok>, keys: seq<string>, js: seq<nat>, at: seq<nat>) {
    |js| <= |at| && forall i | 0 <= i < |js| :: Position(ts, keys, js[i]) == at[i]
  }

  /** Positions in a filled text that are apart are apart among the tokens. */
  lemma RunsApart(ts: seq<Tok>, keys: seq<string>, j: nat, m: string, k: nat)
    requires HolesIn(ts, 0, |keys|) && Fillers(keys) && RunAt(ts, j, m) && k <= |ts|
    requires Position(ts, keys, j) + |m| <= Position(ts, keys, k)
    ensures j + |m| <= k
  {
    FillRun(ts, keys, j, m);
    if k < j + |m| {
      FillLength(ts, keys, k, j + |m|);
    }
  }

  /** What can stand between placeholders only. */
  ghost predicate Apart(keys: seq<string>, m: string) {
    |m| > 0 && NoBrackets(m) && forall i | 0 <= i < |keys| :: OutsideKey(keys[i], m)
  }

  ghost predicate OutsideKey(key: string, m: string) {
    Bracketed(key) && !Contains(key, m)
  }

  lemma LocateOne(ts: seq<Tok>, keys: seq<string>, m: string, k: nat) returns (j: nat)
    requires Apart(keys, m) && HolesIn(ts, 0, |keys|) && OccursAt(Fill(ts, keys), m, k)
    ensures RunAt(ts, j, m) && Position(ts, keys, j) == k
  {
    assert forall i | 0 <= i < |keys| :: OutsideKey(keys[i], m);
    j := Locate(ts, keys, m, k);
  }

  lemma LocatedBehind(ts: seq<Tok>, keys: seq<string>, at: seq<nat>, ms: seq<string>, before: seq<nat>, j: nat)
    requires |before| < |ms| && Runs(ts, before, ms) && RunsAt(ts, keys, before, at)
    requires HolesIn(ts, 0, |keys|) && Fillers(keys) && Spread(Fill(ts, keys), at, ms)
    requires RunAt(ts, j, ms[|before|]) && Position(ts, keys, j) == at[|before|]
    ensures 0 < |before| ==> before[|before| - 1] + |ms[|before| - 1]| <= j
  {
    if 0 < |before| {
      var i := |before| - 1;
      LocatedAt(ts, keys, at, ms, before, i);
      SpreadApart(Fill(ts, keys), at, ms, |before|);
      RunsApart(ts, keys, before[i], ms[i], j);
    }
  }

  lemma LocatedAt(ts: seq<Tok>, keys: seq<string>, at: seq<nat>, ms: seq<string>, before: seq<nat>, i: nat)
    requires i < |before| && Runs(ts, before, ms) && RunsAt(ts, keys, before, at)
    ensures RunAt(ts, before[i], ms[i]) && Position(ts, keys, before[i]) == at[i]
  {
  }

  lemma SpreadApart(s: string, at: seq<nat>, ms: seq<string>, i: nat)
    requires 0 < i < |ms| && Spread(s, at, ms)
    ensures at[i - 1] + |ms[i - 1]| <= at[i]
  {
  }

  lemma {:induction false} LocateAll(ts: seq<Tok>, keys: seq<string>, at: seq<nat>, ms: seq<string>, n: nat) returns (js: seq<nat>)
    requires n <= |ms| && (forall i | 0 <= i < |ms| :: Apart(keys, ms[i])) && Fillers(keys)
    requires HolesIn(ts, 0, |keys|) && Spread(Fill(ts, keys), at, ms)
    ensures |js| == n && Runs(ts, js, ms) && RunsAt(ts, keys, js, at)
    decreases n
  {
    if n == 0 {
      js := [];
    } else {
      var before := LocateAll(ts, keys, at, ms, n - 1);
      var j := LocateOne(ts, keys, ms[n - 1], at[n - 1]);
      LocatedBehind(ts, keys, at, ms, before, j);
      js := before + [j];
    }
  }

  function Positions(ts: seq<Tok>, fills: seq<string>, js: seq<nat>): (at: seq<nat>)
    ensures |at| == |js| && forall i | 0 <= i < |js| :: at[i] == Position(ts, fills, js[i])
  {
    seq(|js|, i requires 0 <= i < |js| => Position(ts, fills, js[i]))
  }

  lemma RunsSpread(ts: seq<Tok>, fills: seq<string>, js: seq<nat>, ms: seq<string>)
    requires |js| == |ms| && Runs(ts, js, ms) && HolesIn(ts, 0, |fills|) && Fillers(fills)
    ensures SideBySide(Fill(ts, fills), ms)
  {
    var at := Positions(ts, fills, js);
    forall i | 0 <= i < |ms|
      ensures OccursAt(Fill(ts, fills), ms[i], at[i])
    {
      RunOccursAt(ts, fills, js[i], ms[i]);
    }
    forall i | 0 < i < |ms|
      ensures at[i - 1] + |ms[i - 1]| <= at[i]
    {
      PositionsApart(ts, fills, js[i - 1], ms[i - 1], js[i]);
    }
    assert Spread(Fill(ts, fills), at, ms);
  }

  lemma PositionsApart(ts: seq<Tok>, fills: seq<string>, j: nat, m: string, k: nat)
    requires HolesIn(ts, 0, |fills|) && Fillers(fills) && RunAt(ts, j, m) && j + |m| <= k <= |ts|
    ensures Position(ts, fills, j) + |m| <= Position(ts, fills, k)
  {
    FillRun(ts, fills, j, m);
    FillLength(ts, fills, j + |m|, k);
  }

  lemma RunOccursAt(ts: seq<Tok>, fills: seq<string>, j: nat, m: string)
    requires RunAt(ts, j, m)
    ensures OccursAt(Fill(ts, fills), m, Position(ts, fills, j))
  {
    AroundMatch(ts, fills, j, m);
    var before := Fill(ts[..j], fills);
    assert Fill(ts, fills)[|before|..|before| + |m|] == m;
  }

  /** Matches side by side in a text half redacted are so in the text. */
  lemma MatchesInOriginal(ts: seq<Tok>, entries: Entries, redacted: string, text: string, kind: Kind, ms: seq<string>)
    requires Represents(ts, entries, redacted, text) && SideBySide(redacted, ms) && AllMatch(kind, ms)
    ensures SideBySide(text, ms)
  {
    var at :| Spread(redacted, at, ms);
    KeysOk(entries);
    forall n | 0 <= n < |ms|
      ensures Apart(Keys(entries), ms[n])
    {
      MatchApart(entries, kind, ms[n]);
    }
    var js := LocateAll(ts, Keys(entries), at, ms, |ms|);
    forall i | 0 <= i < |entries|
      ensures |Values(entries)[i]| > 0
    {
      ValuesOk(entries, i);
    }
    RunsSpread(ts, Values(entries), js, ms);
  }

  lemma MatchApart(entries: Entries, kind: Kind, m: string)
    requires EntriesOk(entries) && Matches(RegexOf(kind), m)
    ensures Apart(Keys(entries), m)
  {
    KeysOk(entries);
    MatchOutsideKeys(entries, kind, m);
    MatchFacts(kind, m, kind, 0);
    assert forall i | 0 <= i < |entries| :: OutsideKey(Keys(entries)[i], m);
  }
}
