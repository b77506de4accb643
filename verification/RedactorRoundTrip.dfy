/** When unredact of app/llm/redactor.py undoes redact. */
module RedactorRoundTrip {
  import opened PythonText
  import opened Patterns
  import opened Redactor
  import opened RedactorTokens
  import opened RedactorRestoring

  // ---- The round trip ----

  ghost predicate PlaceholderFree(text: string, entries: Entries) {
    forall i | 0 <= i < |entries| :: !Contains(text, entries[i].0)
  }

  lemma RestoreSucceeds(ts: seq<Tok>, entries: Entries, redacted: string, text: string)
    requires Represents(ts, entries, redacted, text) && PlaceholderFree(text, entries)
    requires forall j | 0 <= j < |entries| :: |entries[j].0| > 0
    ensures Restored(redacted, entries) == text
  {
    RestoreIsSubst(ts, entries, 0);
    assert entries[0..] == entries;
    SubstFromKeepsFilling(ts, entries, 0);
    NoHolesFill(SubstFrom(ts, entries, 0), Keys(entries), Values(entries));
  }

  lemma RestoreFails(ts: seq<Tok>, entries: Entries, redacted: string, text: string, lost: nat)
    requires Represents(ts, entries, redacted, text) && lost < |entries| && Contains(text, entries[lost].0)
    requires forall j | 0 <= j < |entries| :: |entries[j].0| > 0
    ensures Restored(redacted, entries) != text
  {
    KeysOk(entries);
    forall i | 0 <= i < |entries|
      ensures |Values(entries)[i]| > 0 && NoBrackets(Values(entries)[i])
      ensures !Contains(entries[lost].0, Values(entries)[i])
    {
      ValuesOk(entries, i);
    }
    var k :| OccursAt(text, entries[lost].0, k);
    OccurrenceIsRun(ts, Values(entries), entries[lost].0, k);
    SubstFromLosesLefts(ts, entries, 0, lost);
    RestoreIsSubst(ts, entries, 0);
    assert entries[0..] == entries;
    NoHolesFill(SubstFrom(ts, entries, 0), Keys(entries), Values(entries));
    LeftsAreFilled(ts, Values(entries));
    LeftsAreFilled(SubstFrom(ts, entries, 0), Values(entries));
  }

  /** unredact(redact(text)) is the text again exactly when no placeholder of the map was
      already in the text. The bound keeps placeholders at nine digits, one short of what
      the phone pattern would take for a number. */
  lemma RoundTrip(active: seq<Kind>, findall: (Kind, string) -> seq<string>, text: string)
    requires Faithful(findall) && Redacted(active, findall, text).count <= MOST
    ensures var r := Redacted(active, findall, text);
            Restored(r.text, r.entries) == text <==> PlaceholderFree(text, r.entries)
  {
    var r := Redacted(active, findall, text);
    var ts := RedactionRepresented(active, findall, text);
    KeysOk(r.entries);
    if PlaceholderFree(text, r.entries) {
      RestoreSucceeds(ts, r.entries, r.text, text);
    } else {
      var lost :| 0 <= lost < |r.entries| && Contains(text, r.entries[lost].0);
      RestoreFails(ts, r.entries, r.text, text, lost);
    }
  }

  /** So every text without an opening bracket comes back. */
  lemma BracketFreeComesBack(active: seq<Kind>, findall: (Kind, string) -> seq<string>, text: string)
    requires Faithful(findall) && Redacted(active, findall, text).count <= MOST && '[' !in text
    ensures var r := Redacted(active, findall, text);
            Restored(r.text, r.entries) == text
  {
    RoundTrip(active, findall, text);
    var r := Redacted(active, findall, text);
    var ts := RedactionRepresented(active, findall, text);
    KeysOk(r.entries);
    forall i, k | 0 <= i < |r.entries|
      ensures !OccursAt(text, r.entries[i].0, k)
    {
      var key := r.entries[i].0;
      if 0 <= k <= |text| - |key| {
        assert text[k..k + |key|][0] == text[k] && text[k] in text;
      }
    }
  }
}
