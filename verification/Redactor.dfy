/** PIIRedactor of app/llm/redactor.py: what redact and unredact compute. The pattern engine
    is foreign: `findall(kind, text)` is what the search for a pattern in a text returned. */
module Redactor {
  import opened PythonText
  import opened Patterns

  /** A placeholder and the text it stands for, in the order redact put them into its map. */
  type Entries = seq<(string, string)>

  datatype RedactionResult = RedactionResult(text: string, count: nat, entries: Entries)

  /** All that is assumed of the engine: it only returns strings that the pattern matches. */
  ghost predicate Faithful(findall: (Kind, string) -> seq<string>) {
    forall kind, text, i | 0 <= i < |findall(kind, text)| :: Matches(RegexOf(kind), findall(kind, text)[i])
  }

  function AfterMatches(kind: Kind, matches: seq<string>, text: string, entries: Entries): (string, Entries) {
    if |matches| == 0 then (text, entries)
    else
      var placeholder := Placeholder(kind, |entries|);
      AfterMatches(kind, matches[1..], ReplaceFirst(text, matches[0], placeholder), entries + [(placeholder, matches[0])])
  }

  function AfterPatterns(active: seq<Kind>, findall: (Kind, string) -> seq<string>, text: string, entries: Entries)
    : (string, Entries)
  {
    if |active| == 0 then (text, entries)
    else
      var (text', entries') := AfterMatches(active[0], findall(active[0], text), text, entries);
      AfterPatterns(active[1..], findall, text', entries')
  }

  function Redacted(active: seq<Kind>, findall: (Kind, string) -> seq<string>, text: string): RedactionResult {
    var (redacted, entries) := AfterPatterns(active, findall, text, []);
    RedactionResult(redacted, |entries|, entries)
  }

  function Restored(text: string, entries: Entries): string
    decreases |entries|
  {
    if |entries| == 0 then text
    else Restored(ReplaceAll(text, entries[0].0, entries[0].1), entries[1..])
  }

  lemma {:induction false} EntriesGrow(active: seq<Kind>, findall: (Kind, string) -> seq<string>,
                                       text: string, entries: Entries)
    ensures |AfterPatterns(active, findall, text, entries).1| >= |entries|
  {
    if |active| == 0 {
    } else {
      MatchesGrow(active[0], findall(active[0], text), text, entries);
      var (text', entries') := AfterMatches(active[0], findall(active[0], text), text, entries);
      EntriesGrow(active[1..], findall, text', entries');
    }
  }

  lemma {:induction false} MatchesGrow(kind: Kind, matches: seq<string>, text: string, entries: Entries)
    ensures |AfterMatches(kind, matches, text, entries).1| == |entries| + |matches|
    decreases |matches|
  {
    if |matches| == 0 {
    } else {
      var placeholder := Placeholder(kind, |entries|);
      MatchesGrow(kind, matches[1..], ReplaceFirst(text, matches[0], placeholder), entries + [(placeholder, matches[0])]);
    }
  }

  class PIIRedactor {
    const active: seq<Kind>

    constructor (emails: bool, phones: bool, ssns: bool, creditCards: bool, ips: bool)
      ensures active == (if emails then [Email] else []) + (if ssns then [Ssn] else [])
                + (if creditCards then [CreditCard] else []) + (if phones then [Phone] else [])
                + (if ips then [Ip] else [])
    {
      var kinds := [];
      if emails { kinds := kinds + [Email]; }
      if ssns { kinds := kinds + [Ssn]; }
      if creditCards { kinds := kinds + [CreditCard]; }
      if phones { kinds := kinds + [Phone]; }
      if ips { kinds := kinds + [Ip]; }
      active := kinds;
    }

    method Redact(text: string, findall: (Kind, string) -> seq<string>) returns (result: RedactionResult)
      ensures result == Redacted(active, findall, text)
    {
      var redacted, entries := text, [];
      for p := 0 to |active|
        invariant AfterPatterns(active, findall, text, []) == AfterPatterns(active[p..], findall, redacted, entries)
      {
        var kind := active[p];
        var matches := findall(kind, redacted);
        ghost var (goal, goalEntries) := AfterMatches(kind, matches, redacted, entries);
        for i := 0 to |matches|
          invariant AfterMatches(kind, matches[i..], redacted, entries) == (goal, goalEntries)
        {
          var placeholder := Placeholder(kind, |entries|);
          assert matches[i..][1..] == matches[i + 1..];
          entries := entries + [(placeholder, matches[i])];
          redacted := ReplaceFirst(redacted, matches[i], placeholder);
        }
        assert active[p..][1..] == active[p + 1..];
      }
      result := RedactionResult(redacted, |entries|, entries);
    }

    method Unredact(text: string, entries: Entries) returns (result: string)
      ensures result == Restored(text, entries)
    {
      result := text;
      for i := 0 to |entries|
        invariant Restored(text, entries) == Restored(result, entries[i..])
      {
        assert entries[i..][1..] == entries[i + 1..];
        result := ReplaceAll(result, entries[i].0, entries[i].1);
      }
    }
  }
}
