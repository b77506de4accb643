/** How restoration works on the tokens of a redacted text, and what it loses. Redaction leaves
    a text with holes punched into it; restoring substitutes one placeholder after the other.
    Where no placeholder was in the text, every hole gets its match back and nothing else
    changes; where one was, a bracket of the text is gone for good. The number of brackets
    that are left tells the two apart. */
module RedactorRestoring {
  import opened PythonText
  import opened Patterns
  import opened Redactor
  import opened RedactorTokens

  const MOST := 1_000_000_000

  function Keys(entries: Entries): (keys: seq<string>)
    ensures |keys| == |entries| && forall i | 0 <= i < |entries| :: keys[i] == entries[i].0
  {
    seq(|entries|, i requires 0 <= i < |entries| => entries[i].0)
  }

  function Values(entries: Entries): (values: seq<string>)
    ensures |values| == |entries| && forall i | 0 <= i < |entries| :: values[i] == entries[i].1
  {
    seq(|entries|, i requires 0 <= i < |entries| => entries[i].1)
  }

  ghost predicate EntryIs(kind: Kind, entry: (string, string), i: nat) {
    entry.0 == Placeholder(kind, i) && Matches(RegexOf(kind), entry.1)
  }

  ghost predicate EntryOk(entries: Entries, i: nat)
    requires i < |entries|
  {
    exists kind :: EntryIs(kind, entries[i], i)
  }

  ghost predicate EntriesOk(entries: Entries) {
    |entries| <= MOST && forall i | 0 <= i < |entries| :: EntryOk(entries, i)
  }

  // ---- Placeholders ----

  lemma PlaceholderBracketed(kind: Kind, number: nat)
    ensures Bracketed(Placeholder(kind, number))
  {
    var p := Placeholder(kind, number);
    assert p[1..|p| - 1] == Label(kind) + Decimal(number);
    LabelChars(kind);
    assert forall c | c in Decimal(number) :: '0' <= c <= '9';
  }

  /** How many digits a string ends in. */
  function DigitTail(s: string): nat {
    if |s| > 0 && '0' <= s[|s| - 1] <= '9' then DigitTail(s[..|s| - 1]) + 1 else 0
  }

  lemma {:induction false} DigitTailOf(head: string, digits: string)
    requires |head| > 0 && head[|head| - 1] == '_' && AsciiDigits(digits)
    ensures DigitTail(head + digits) == |digits|
  {
    var s := head + digits;
    if |digits| == 0 {
      assert s == head;
    } else {
      assert s[..|s| - 1] == head + digits[..|digits| - 1];
      DigitTailOf(head, digits[..|digits| - 1]);
    }
  }

  lemma PlaceholderInjective(kind: Kind, i: nat, other: Kind, j: nat)
    requires Placeholder(kind, i) == Placeholder(other, j)
    ensures i == j
  {
    var p := Placeholder(kind, i);
    var body := p[..|p| - 1];
    var d, e := Decimal(i), Decimal(j);
    LabelEnd(kind);
    LabelEnd(other);
    assert body == ("[" + Label(kind)) + d == ("[" + Label(other)) + e;
    DigitTailOf("[" + Label(kind), d);
    DigitTailOf("[" + Label(other), e);
    assert body[|body| - |d|..] == d && body[|body| - |e|..] == e;
    DecimalRoundTrip(i);
    DecimalRoundTrip(j);
  }

  lemma LabelEnd(kind: Kind)
    ensures |Label(kind)| > 0 && Label(kind)[|Label(kind)| - 1] == '_'
  {
  }

  lemma KeysOk(entries: Entries)
    requires EntriesOk(entries)
    ensures forall i | 0 <= i < |entries| :: Bracketed(Keys(entries)[i]) && Bracketed(entries[i].0)
    ensures Distinct(Keys(entries))
  {
    forall i | 0 <= i < |entries|
      ensures Bracketed(entries[i].0)
    {
      assert EntryOk(entries, i);
      var kind :| EntryIs(kind, entries[i], i);
      PlaceholderBracketed(kind, i);
    }
    forall i, j | 0 <= i < j < |entries|
      ensures Keys(entries)[i] != Keys(entries)[j]
    {
      assert EntryOk(entries, i) && EntryOk(entries, j);
      var kind :| EntryIs(kind, entries[i], i);
      var other :| EntryIs(other, entries[j], j);
      if entries[i].0 == entries[j].0 {
        PlaceholderInjective(kind, i, other, j);
      }
    }
  }

  /** No match is part of a placeholder of the map. */
  lemma MatchOutsideKeys(entries: Entries, kind: Kind, m: string)
    requires EntriesOk(entries) && Matches(RegexOf(kind), m)
    ensures |m| > 0 && NoBrackets(m)
    ensures forall i | 0 <= i < |entries| :: !Contains(entries[i].0, m)
  {
    MatchFacts(kind, m, kind, 0);
    forall i | 0 <= i < |entries|
      ensures !Contains(entries[i].0, m)
    {
      assert EntryOk(entries, i);
      var other :| EntryIs(other, entries[i], i);
      MatchFacts(kind, m, other, i);
    }
  }

  lemma ValuesOk(entries: Entries, i: nat)
    requires EntriesOk(entries) && i < |entries|
    ensures |entries[i].1| > 0 && NoBrackets(entries[i].1)
    ensures forall j | 0 <= j < |entries| :: !Contains(entries[j].0, entries[i].1)
  {
    assert EntryOk(entries, i);
    var kind :| EntryIs(kind, entries[i], i);
    MatchOutsideKeys(entries, kind, entries[i].1);
  }

  // ---- Redacting ----

  /** The tokens represent a redaction in progress: of which text, and how far. */
  ghost predicate Represents(ts: seq<Tok>, entries: Entries, redacted: string, text: string) {
    && EntriesOk(entries) && HolesIn(ts, 0, |entries|)
    && Fill(ts, Keys(entries)) == redacted && Fill(ts, Values(entries)) == text
  }

  lemma EntriesExtend(entries: Entries, kind: Kind, m: string)
    requires EntriesOk(entries) && |entries| < MOST && Matches(RegexOf(kind), m)
    ensures EntriesOk(entries + [(Placeholder(kind, |entries|), m)])
  {
    var entry := (Placeholder(kind, |entries|), m);
    assert EntryIs(kind, entry, |entries|);
    EntriesMore(entries, kind, entry);
  }

  lemma EntriesMore(entries: Entries, kind: Kind, entry: (string, string))
    requires EntriesOk(entries) && |entries| < MOST && EntryIs(kind, entry, |entries|)
    ensures EntriesOk(entries + [entry])
  {
    var more := entries + [entry];
    forall i | 0 <= i < |more|
      ensures EntryOk(more, i)
    {
      if i < |entries| {
        EntryKept(entries, more, i);
      } else {
        assert EntryIs(kind, more[i], i);
      }
    }
  }

  lemma EntryKept(entries: Entries, more: Entries, i: nat)
    requires EntriesOk(entries) && i < |entries| && |more| > i && more[i] == entries[i]
    ensures EntryOk(more, i)
  {
    assert EntryOk(entries, i);
    var kind :| EntryIs(kind, entries[i], i);
    assert EntryIs(kind, more[i], i);
  }

  lemma AroundMatch(ts: seq<Tok>, fills: seq<string>, j: nat, m: string)
    requires j + |m| <= |ts| && ts[j..j + |m|] == Plain(m)
    ensures Fill(ts, fills) == Fill(ts[..j], fills) + m + Fill(ts[j + |m|..], fills)
  {
    var a, b := ts[..j], ts[j + |m|..];
    assert ts == a + (Plain(m) + b);
    FillAppend(a, Plain(m) + b, fills);
    FillAppend(Plain(m), b, fills);
    FillPlain(m, fills);
  }

  lemma FillHole(fills: seq<string>, i: nat)
    requires i < |fills|
    ensures Fill([Hole(i)], fills) == fills[i]
  {
    assert [Hole(i)][1..] == [];
  }

  lemma AroundHole(a: seq<Tok>, b: seq<Tok>, fills: seq<string>, fill: string)
    requires HolesIn(a, 0, |fills|) && HolesIn(b, 0, |fills|)
    ensures Fill(a + [Hole(|fills|)] + b, fills + [fill]) == Fill(a, fills) + fill + Fill(b, fills)
  {
    var hole, more := [Hole(|fills|)], fills + [fill];
    FillAppend(a + hole, b, more);
    FillAppend(a, hole, more);
    FillHole(more, |fills|);
    FillMore(a, fills, [fill]);
    FillMore(b, fills, [fill]);
  }

  /** Punching a hole where the match was found: both fillings stay what they should be. */
  lemma Punch(ts: seq<Tok>, fills: seq<string>, j: nat, m: string, fill: string)
    requires HolesIn(ts, 0, |fills|) && j + |m| <= |ts| && ts[j..j + |m|] == Plain(m)
    ensures var holed := ts[..j] + [Hole(|fills|)] + ts[j + |m|..];
            && HolesIn(holed, 0, |fills| + 1)
            && Fill(ts, fills) == Fill(ts[..j], fills) + m + Fill(ts[j + |m|..], fills)
            && Fill(holed, fills + [fill]) == Fill(ts[..j], fills) + fill + Fill(ts[j + |m|..], fills)
  {
    AroundMatch(ts, fills, j, m);
    AroundHole(ts[..j], ts[j + |m|..], fills, fill);
  }

  lemma RedactOne(ts: seq<Tok>, entries: Entries, redacted: string, text: string, kind: Kind, m: string)
    returns (ts': seq<Tok>)
    requires Represents(ts, entries, redacted, text) && |entries| < MOST && Matches(RegexOf(kind), m)
    ensures var placeholder := Placeholder(kind, |entries|);
            Represents(ts', entries + [(placeholder, m)], ReplaceFirst(redacted, m, placeholder), text)
  {
    var placeholder := Placeholder(kind, |entries|);
    var more := entries + [(placeholder, m)];
    var keys, values := Keys(entries), Values(entries);
    KeysOk(entries);
    MatchOutsideKeys(entries, kind, m);
    EntriesExtend(entries, kind, m);
    assert Keys(more) == keys + [placeholder] && Values(more) == values + [m];
    match Find(redacted, m, 0)
    case None =>
      ts' := ts;
      FillMore(ts, keys, [placeholder]);
      FillMore(ts, values, [m]);
    case Some(k) =>
      var j := Locate(ts, keys, m, k);
      Punch(ts, keys, j, m, placeholder);
      Punch(ts, values, j, m, m);
      ts' := ts[..j] + [Hole(|entries|)] + ts[j + |m|..];
      SplitAt(redacted, Fill(ts[..j], keys), m, Fill(ts[j + |m|..], keys));
  }

  lemma SplitAt(s: string, a: string, m: string, b: string)
    requires s == a + m + b
    ensures s[..|a|] == a && s[|a| + |m|..] == b
  {
  }

  lemma {:induction false} RedactKind(kind: Kind, matches: seq<string>, ts: seq<Tok>,
                                      entries: Entries, redacted: string, text: string)
    returns (ts': seq<Tok>)
    requires Represents(ts, entries, redacted, text) && |entries| + |matches| <= MOST
    requires forall i | 0 <= i < |matches| :: Matches(RegexOf(kind), matches[i])
    ensures var (redacted', entries') := AfterMatches(kind, matches, redacted, entries);
            Represents(ts', entries', redacted', text) && |entries'| == |entries| + |matches|
    decreases |matches|
  {
    if |matches| == 0 {
      ts' := ts;
    } else {
      var placeholder := Placeholder(kind, |entries|);
      var next := RedactOne(ts, entries, redacted, text, kind, matches[0]);
      ts' := RedactKind(kind, matches[1..], next, entries + [(placeholder, matches[0])],
                        ReplaceFirst(redacted, matches[0], placeholder), text);
    }
  }

  lemma {:induction false} RedactAll(active: seq<Kind>, findall: (Kind, string) -> seq<string>, ts: seq<Tok>,
                                     entries: Entries, redacted: string, text: string)
    returns (ts': seq<Tok>)
    requires Faithful(findall) && Represents(ts, entries, redacted, text)
    requires |AfterPatterns(active, findall, redacted, entries).1| <= MOST
    ensures var (redacted', entries') := AfterPatterns(active, findall, redacted, entries);
            Represents(ts', entries', redacted', text)
  {
    if |active| == 0 {
      ts' := ts;
    } else {
      var matches := findall(active[0], redacted);
      var (redacted', entries') := AfterMatches(active[0], matches, redacted, entries);
      MatchesGrow(active[0], matches, redacted, entries);
      EntriesGrow(active[1..], findall, redacted', entries');
      var next := RedactKind(active[0], matches, ts, entries, redacted, text);
      ts' := RedactAll(active[1..], findall, next, entries', redacted', text);
    }
  }

  /** Every redaction is a text with holes punched into it. */
  lemma RedactionRepresented(active: seq<Kind>, findall: (Kind, string) -> seq<string>, text: string)
    returns (ts: seq<Tok>)
    requires Faithful(findall) && Redacted(active, findall, text).count <= MOST
    ensures var r := Redacted(active, findall, text);
            Represents(ts, r.entries, r.text, text)
  {
    FillPlain(text, []);
    ts := RedactAll(active, findall, Plain(text), [], text, text);
  }

  // ---- Restoring ----

  function SubstFrom(ts: seq<Tok>, entries: Entries, i: nat): seq<Tok>
    requires i <= |entries| && forall j | 0 <= j < |entries| :: |entries[j].0| > 0
    decreases |entries| - i
  {
    if i == |entries| then ts
    else SubstFrom(Subst(ts, i, entries[i].0, entries[i].1), entries, i + 1)
  }

  lemma {:induction false} SubstHoles(ts: seq<Tok>, i: nat, key: string, with: string, n: nat)
    requires |key| > 0 && HolesIn(ts, i, n) && i < n
    ensures HolesIn(Subst(ts, i, key, with), i + 1, n)
    decreases |ts|
  {
    if |ts| == 0 {
    } else {
      if ts[0] == Hole(i) {
        SubstHoles(ts[1..], i, key, with, n);
      } else if Plain(key) <= ts {
        SubstHoles(ts[|key|..], i, key, with, n);
      } else {
        SubstHoles(ts[1..], i, key, with, n);
      }
    }
  }

  /** Restoring a filled text, entry by entry, substitutes in the tokens. */
  lemma {:induction false} RestoreIsSubst(ts: seq<Tok>, entries: Entries, i: nat)
    requires EntriesOk(entries) && i <= |entries| && HolesIn(ts, i, |entries|)
    requires forall j | 0 <= j < |entries| :: |entries[j].0| > 0
    ensures Restored(Fill(ts, Keys(entries)), entries[i..]) == Fill(SubstFrom(ts, entries, i), Keys(entries))
    ensures HolesIn(SubstFrom(ts, entries, i), |entries|, |entries|)
    decreases |entries| - i
  {
    if i < |entries| {
      KeysOk(entries);
      var key, with := entries[i].0, entries[i].1;
      ReplaceIsSubst(ts, Keys(entries), i, key, with);
      SubstHoles(ts, i, key, with, |entries|);
      assert entries[i..][0] == entries[i] && entries[i..][1..] == entries[i + 1..];
      RestoreIsSubst(Subst(ts, i, key, with), entries, i + 1);
    }
  }

  lemma {:induction false} NoHolesFill(ts: seq<Tok>, fills: seq<string>, others: seq<string>)
    requires HolesIn(ts, |fills|, |fills|)
    ensures Fill(ts, fills) == Fill(ts, others)
  {
    if |ts| == 0 {
    } else {
      assert ts[0].Ch?;
      NoHolesFill(ts[1..], fills, others);
    }
  }

  // ---- When no placeholder was in the text ----

  lemma RunOccurs(ts: seq<Tok>, fills: seq<string>, key: string)
    requires Plain(key) <= ts
    ensures Contains(Fill(ts, fills), key)
  {
    var tail := ts[|key|..];
    assert ts == Plain(key) + tail;
    FillAppend(Plain(key), tail, fills);
    FillPlain(key, fills);
    assert OccursAt(Fill(ts, fills), key, 0);
  }

  lemma SuffixFree(piece: string, rest: string, key: string)
    requires !Contains(piece + rest, key)
    ensures !Contains(rest, key)
  {
    forall k | OccursAt(rest, key, k)
      ensures OccursAt(piece + rest, key, |piece| + k)
    {
      assert (piece + rest)[|piece| + k..|piece| + k + |key|] == rest[k..k + |key|];
    }
  }

  lemma {:induction false} SubstKeepsFilling(ts: seq<Tok>, i: nat, key: string, values: seq<string>)
    requires |key| > 0 && i < |values| && !Contains(Fill(ts, values), key)
    ensures Fill(Subst(ts, i, key, values[i]), values) == Fill(ts, values)
    decreases |ts|
  {
    if |ts| == 0 {
    } else {
      if Plain(key) <= ts {
        RunOccurs(ts, values, key);
      } else {
        SuffixFree(Piece(ts[0], values), Fill(ts[1..], values), key);
        SubstKeepsFilling(ts[1..], i, key, values);
        if ts[0] == Hole(i) {
          FillAppend(Plain(values[i]), Subst(ts[1..], i, key, values[i]), values);
          FillPlain(values[i], values);
        }
      }
    }
  }

  lemma {:induction false} SubstFromKeepsFilling(ts: seq<Tok>, entries: Entries, i: nat)
    requires i <= |entries| && forall j | 0 <= j < |entries| :: |entries[j].0| > 0
    requires forall j | 0 <= j < |entries| :: !Contains(Fill(ts, Values(entries)), entries[j].0)
    ensures Fill(SubstFrom(ts, entries, i), Values(entries)) == Fill(ts, Values(entries))
    decreases |entries| - i
  {
    if i < |entries| {
      SubstKeepsFilling(ts, i, entries[i].0, Values(entries));
      SubstFromKeepsFilling(Subst(ts, i, entries[i].0, entries[i].1), entries, i + 1);
    }
  }

  // ---- When one was: a bracket is lost ----

  function Lefts(ts: seq<Tok>): nat {
    if |ts| == 0 then 0 else (if ts[0] == Ch('[') then 1 else 0) + Lefts(ts[1..])
  }

  lemma {:induction false} LeftsAppend(a: seq<Tok>, b: seq<Tok>)
    ensures Lefts(a + b) == Lefts(a) + Lefts(b)
  {
    if |a| == 0 {
      assert a + b == b;
    } else {
      assert (a + b)[1..] == a[1..] + b;
      LeftsAppend(a[1..], b);
    }
  }

  lemma {:induction false} LeftsPlain(s: string)
    requires '[' !in s
    ensures Lefts(Plain(s)) == 0
  {
    if |s| == 0 {
    } else {
      assert s[0] in s;
      assert Plain(s)[1..] == Plain(s[1..]);
      LeftsPlain(s[1..]);
    }
  }

  lemma LeftsKey(key: string)
    requires Bracketed(key)
    ensures Lefts(Plain(key)) == 1
  {
    NoLeftInside(key);
    LeftsPlain(key[1..]);
    assert Plain(key)[1..] == Plain(key[1..]);
  }

  lemma {:induction false} LeftsAreFilled(ts: seq<Tok>, fills: seq<string>)
    requires forall i | 0 <= i < |fills| :: '[' !in fills[i]
    ensures Count(Fill(ts, fills), Is('[')) == Lefts(ts)
  {
    if |ts| == 0 {
    } else {
      LeftsAreFilled(ts[1..], fills);
      var piece := Piece(ts[0], fills);
      var text := Fill(ts, fills);
      CountSplit(text, |piece|, Is('['));
      assert text[..|piece|] == piece && text[|piece|..] == Fill(ts[1..], fills);
      if ts[0].Hole? {
        CountNone(piece, Is('['));
      } else {
        assert Count(piece[1..], Is('[')) == 0;
      }
    }
  }

  predicate HasRun(ts: seq<Tok>, key: string)
    decreases |ts|
  {
    |ts| > 0 && (Plain(key) <= ts || HasRun(ts[1..], key))
  }

  lemma NoRunHere(ts: seq<Tok>, key: string)
    requires Bracketed(key) && |ts| > 0 && ts[0] != Ch('[')
    ensures !(Plain(key) <= ts)
  {
    if |key| <= |ts| {
      assert Plain(key)[0] == Ch('[') && ts[..|key|][0] == ts[0];
    }
  }

  lemma {:induction false} RunBehind(head: seq<Tok>, ts: seq<Tok>, key: string)
    requires HasRun(ts, key)
    ensures HasRun(head + ts, key)
  {
    if |head| == 0 {
      assert head + ts == ts;
    } else {
      RunBehind(head[1..], ts, key);
      assert (head + ts)[1..] == head[1..] + ts;
    }
  }

  /** A run of a placeholder starts with a bracket, so not inside a bracketless stretch. */
  lemma {:induction false} RunAfter(head: string, ts: seq<Tok>, key: string)
    requires Bracketed(key) && '[' !in head && Plain(head) <= ts && HasRun(ts, key)
    ensures HasRun(ts[|head|..], key)
  {
    if |head| == 0 {
    } else {
      assert ts[0] == Plain(head)[0] && head[0] in head;
      NoRunHere(ts, key);
      assert Plain(head[1..]) == Plain(head)[1..] <= ts[1..];
      RunAfter(head[1..], ts[1..], key);
      assert ts[1..][|head| - 1..] == ts[|head|..];
    }
  }

  lemma {:induction false} SubstLosesLefts(ts: seq<Tok>, i: nat, key: string, with: string)
    requires Bracketed(key) && '[' !in with
    ensures Lefts(Subst(ts, i, key, with)) + (if HasRun(ts, key) then 1 else 0) <= Lefts(ts)
    decreases |ts|
  {
    if |ts| == 0 {
    } else {
      LeftsPlain(with);
      if ts[0] == Hole(i) {
        SubstLosesLefts(ts[1..], i, key, with);
        LeftsAppend(Plain(with), Subst(ts[1..], i, key, with));
        NoRunHere(ts, key);
      } else if Plain(key) <= ts {
        var tail := ts[|key|..];
        SubstLosesLefts(tail, i, key, with);
        LeftsAppend(Plain(with), Subst(tail, i, key, with));
        assert ts == Plain(key) + tail;
        LeftsAppend(Plain(key), tail);
        LeftsKey(key);
      } else {
        SubstLosesLefts(ts[1..], i, key, with);
      }
    }
  }

  lemma {:induction false} SubstSkips(head: string, ts: seq<Tok>, i: nat, key: string, with: string)
    requires Bracketed(key) && '[' !in head
    ensures Subst(Plain(head) + ts, i, key, with) == Plain(head) + Subst(ts, i, key, with)
  {
    var all := Plain(head) + ts;
    if |head| == 0 {
      assert all == ts;
    } else {
      assert head[0] in head && all[0] == Ch(head[0]);
      NoRunHere(all, key);
      assert all[1..] == Plain(head[1..]) + ts;
      SubstSkips(head[1..], ts, i, key, with);
      assert Plain(head) == [Ch(head[0])] + Plain(head[1..]);
    }
  }

  lemma PlainSame(key: string, other: string, ts: seq<Tok>)
    requires Bracketed(key) && Bracketed(other) && Plain(key) <= ts && Plain(other) <= ts
    ensures key == other
  {
    var n := if |key| <= |other| then |key| else |other|;
    BracketedInside(key, n - 1);
    BracketedInside(other, n - 1);
    assert Plain(key)[n - 1] == ts[n - 1] == Plain(other)[n - 1];
    forall k | 0 <= k < n
      ensures key[k] == other[k]
    {
      assert Plain(key)[k] == ts[k] == Plain(other)[k];
    }
  }

  lemma {:induction false} SubstKeepsRun(ts: seq<Tok>, i: nat, key: string, with: string, other: string)
    requires Bracketed(key) && Bracketed(other) && key != other && HasRun(ts, other)
    ensures HasRun(Subst(ts, i, key, with), other)
    decreases |ts|
  {
    if Plain(other) <= ts {
      FrontRunKept(ts, i, key, with, other);
    } else if ts[0] == Hole(i) {
      SubstKeepsRun(ts[1..], i, key, with, other);
      RunBehind(Plain(with), Subst(ts[1..], i, key, with), other);
    } else if Plain(key) <= ts {
      NoLeftInside(key);
      assert Plain(key[1..]) == Plain(key)[1..] <= ts[1..];
      RunAfter(key[1..], ts[1..], other);
      assert ts[1..][|key| - 1..] == ts[|key|..];
      SubstKeepsRun(ts[|key|..], i, key, with, other);
      RunBehind(Plain(with), Subst(ts[|key|..], i, key, with), other);
    } else {
      SubstKeepsRun(ts[1..], i, key, with, other);
      RunBehind([ts[0]], Subst(ts[1..], i, key, with), other);
    }
  }

  lemma FrontRunKept(ts: seq<Tok>, i: nat, key: string, with: string, other: string)
    requires Bracketed(key) && Bracketed(other) && key != other && Plain(other) <= ts
    ensures HasRun(Subst(ts, i, key, with), other)
  {
    var tail := ts[|other|..];
    assert ts == Plain(other) + tail;
    assert ts[0] == Ch('[');
    if Plain(key) <= ts {
      PlainSame(key, other, ts);
    }
    assert ts[1..] == Plain(other[1..]) + tail;
    NoLeftInside(other);
    SubstSkips(other[1..], tail, i, key, with);
    var rest := Subst(tail, i, key, with);
    assert Subst(ts, i, key, with) == [Ch('[')] + (Plain(other[1..]) + rest);
    assert Plain(other) == [Ch('[')] + Plain(other[1..]);
    Regroup([Ch('[')], Plain(other[1..]), rest);
    assert Plain(other) <= Plain(other) + rest;
  }

  /** A placeholder that occurs in the original text is a run of characters among its tokens:
      no match can have been any part of it. */
  lemma {:induction false} OccurrenceIsRun(ts: seq<Tok>, values: seq<string>, key: string, k: nat)
    requires Bracketed(key) && HolesIn(ts, 0, |values|)
    requires forall i | 0 <= i < |values| :: |values[i]| > 0 && NoBrackets(values[i]) && !Contains(key, values[i])
    requires OccursAt(Fill(ts, values), key, k)
    ensures HasRun(ts, key)
    decreases |ts|
  {
    var piece, rest := Piece(ts[0], values), Fill(ts[1..], values);
    if k >= |piece| {
      OccursBehind(piece, rest, key, k);
      OccurrenceIsRun(ts[1..], values, key, k - |piece|);
    } else {
      BeginsInFront(piece, rest, key, k);
      assert piece[k] in piece;
      assert ts[0] == Ch('[') && k == 0;
      TailIsRun(ts[1..], values, key, 1);
      assert ts == [ts[0]] + ts[1..] && Plain(key) == [ts[0]] + Plain(key[1..]);
    }
  }

  lemma BeginsInFront(piece: string, rest: string, key: string, k: nat)
    requires Bracketed(key) && k < |piece| && OccursAt(piece + rest, key, k)
    ensures piece[k] == '['
    ensures k == 0 && |piece| == 1 ==> |key| - 1 <= |rest| && rest[..|key| - 1] == key[1..]
  {
    var text := piece + rest;
    assert piece[k] == text[k] == text[k..k + |key|][0];
    assert k == 0 && |piece| == 1 ==> rest[..|key| - 1] == text[0..|key|][1..];
  }

  lemma {:induction false} TailIsRun(ts: seq<Tok>, values: seq<string>, key: string, from: nat)
    requires Bracketed(key) && from <= |key| && HolesIn(ts, 0, |values|)
    requires forall i | 0 <= i < |values| :: |values[i]| > 0 && NoBrackets(values[i]) && !Contains(key, values[i])
    requires |key| - from <= |Fill(ts, values)| && Fill(ts, values)[..|key| - from] == key[from..]
    ensures Plain(key[from..]) <= ts
    decreases |ts|
  {
    if from < |key| {
      var text, rest := Fill(ts, values), Fill(ts[1..], values);
      if ts[0].Hole? {
        HoleNotInKey(values[ts[0].i], rest, key, from);
      }
      assert text[0] == key[from..][0] == key[from];
      assert rest == text[1..] && key[from + 1..] == key[from..][1..];
      assert rest[..|key| - from - 1] == text[..|key| - from][1..];
      TailIsRun(ts[1..], values, key, from + 1);
      assert ts == [ts[0]] + ts[1..] && Plain(key[from..]) == [ts[0]] + Plain(key[from + 1..]);
    }
  }

  lemma HoleNotInKey(value: string, rest: string, key: string, from: nat)
    requires Bracketed(key) && from < |key| && |value| > 0 && NoBrackets(value) && !Contains(key, value)
    ensures !(|key| - from <= |value + rest| && (value + rest)[..|key| - from] == key[from..])
  {
    var text := value + rest;
    if |key| - from <= |text| {
      if |value| <= |key| - from {
        assert text[..|key| - from][..|value|] == value;
        assert !OccursAt(key, value, from);
        assert key[from..][..|value|] == key[from..from + |value|];
      } else {
        assert text[..|key| - from][|key| - from - 1] == value[|key| - from - 1];
        assert value[|key| - from - 1] in value;
        assert key[from..][|key| - from - 1] == ']';
      }
    }
  }

  lemma {:induction false} SubstFromLosesLefts(ts: seq<Tok>, entries: Entries, i: nat, lost: nat)
    requires EntriesOk(entries) && i <= |entries| && forall j | 0 <= j < |entries| :: |entries[j].0| > 0
    ensures Lefts(SubstFrom(ts, entries, i)) <= Lefts(ts)
    ensures i <= lost < |entries| && HasRun(ts, entries[lost].0) ==> Lefts(SubstFrom(ts, entries, i)) < Lefts(ts)
    decreases |entries| - i
  {
    if i < |entries| {
      KeysOk(entries);
      ValuesOk(entries, i);
      SubstLosesLefts(ts, i, entries[i].0, entries[i].1);
      if i < lost < |entries| && HasRun(ts, entries[lost].0) {
        assert Keys(entries)[i] != Keys(entries)[lost];
        SubstKeepsRun(ts, i, entries[i].0, entries[i].1, entries[lost].0);
      }
      SubstFromLosesLefts(Subst(ts, i, entries[i].0, entries[i].1), entries, i + 1, lost);
    }
  }
}
