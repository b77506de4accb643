/** What app/agents/nodes.py makes of proposed actions, told by what stands in them. */
module PlanningMeaning {
  import opened Domain
  import opened PythonText
  import opened Words
  import opened Planning

  // ---- Reading ----

  lemma TruthyMeans(value: Json)
    ensures Truthy(value) <==> value !in [Null, Bool(false), Num(0.0), Str(""), Arr([]), Obj(map[])]
  {
  }

  function Field(fields: Payload, key: string): Json {
    if key in fields then fields[key] else Null
  }

  predicate HasText(value: Json) {
    value.Str? && Strip(value.s) != ""
  }

  predicate FirstAt(items: seq<Json>, i: nat, text: string) {
    i < |items| && HasText(items[i]) && Strip(items[i].s) == text && forall j | 0 <= j < i :: !HasText(items[j])
  }

  /** The text of a string, or of the first string with one in a list. */
  ghost predicate Reads(value: Json, text: string) {
    match value
    case Str(s) => HasText(value) && Strip(s) == text
    case Arr(items) => exists i: nat :: FirstAt(items, i, text)
    case _ => false
  }

  lemma {:induction false} FirstTextInMeans(items: seq<Json>) returns (i: nat)
    ensures FirstTextIn(items).Some? ==> FirstAt(items, i, FirstTextIn(items).value)
    ensures FirstTextIn(items).None? ==> forall j | 0 <= j < |items| :: !HasText(items[j])
  {
    i := 0;
    if |items| == 0 {
    } else if !HasText(items[0]) {
      var behind := FirstTextInMeans(items[1..]);
      i := behind + 1;
    }
  }

  lemma FirstTextMeans(value: Json)
    ensures forall text :: FirstText(value) == Some(text) <==> Reads(value, text)
  {
    if value.Arr? {
      var i := FirstTextInMeans(value.items);
      forall text
        ensures FirstTextIn(value.items) == Some(text) <==> exists i: nat :: FirstAt(value.items, i, text)
      {
        if FirstTextIn(value.items) == Some(text) {
          assert FirstAt(value.items, i, text);
        }
      }
    }
  }

  // ---- Addresses ----

  predicate SameLetter(c: char, lower: char) {
    c == lower || ('A' <= c <= 'Z' && c as int + 32 == lower as int)
  }

  predicate WrittenAt(s: string, word: string, k: int) {
    0 <= k <= |s| - |word| && forall j | 0 <= j < |word| :: SameLetter(s[k + j], word[j])
  }

  /** The word stands in s, in capitals or not. */
  ghost predicate AnyCase(s: string, word: string) {
    exists k :: WrittenAt(s, word, k)
  }

  predicate Small(word: string) {
    forall j | 0 <= j < |word| :: !('A' <= word[j] <= 'Z')
  }

  lemma MentionsMeans(s: string, word: string)
    requires Small(word)
    ensures Mentions(s, word) <==> AnyCase(s, word)
  {
    forall k
      ensures OccursAt(Lower(s), word, k) <==> WrittenAt(s, word, k)
    {
      if 0 <= k <= |s| - |word| {
        var part := Lower(s)[k..k + |word|];
        assert forall j | 0 <= j < |word| :: part[j] == LowerChar(s[k + j]);
      }
    }
    if Mentions(s, word) {
      assert OccursAt(Lower(s), word, Find(Lower(s), word, 0).value);
    }
  }

  predicate NoSpaces(s: string) {
    forall i | 0 <= i < |s| :: !IsSpace(s[i])
  }

  predicate Apart(s: string, at: int, dot: int) {
    0 < at && at + 1 < dot < |s| - 1 && OneAt(s, at) && s[dot] == '.'
  }

  /** One @ with something before it, a dot behind it with something on both sides, no
      whitespace, and nothing redacted. */
  ghost predicate IsAddress(s: string) {
    !AnyCase(s, "redacted") && NoSpaces(s) && exists at, dot :: Apart(s, at, dot)
  }

  predicate OneAt(s: string, at: int) {
    forall i | 0 <= i < |s| :: s[i] == '@' <==> i == at
  }

  /** The characters from i up to j. */
  lemma PlainMeans(s: string, i: int, j: int)
    requires 0 <= i <= j <= |s|
    ensures Plain(s[i..j]) <==> i < j && forall k | i <= k < j :: s[k] != '@' && !IsSpace(s[k])
  {
    var part := s[i..j];
    assert forall k | i <= k < j :: s[k] == part[k - i];
    assert forall k | 0 <= k < |part| :: part[k] == s[i + k];
  }

  lemma SplitMeans(s: string, at: int, dot: int)
    ensures SplitsAt(s, at, dot) <==> Apart(s, at, dot) && NoSpaces(s)
  {
    if 0 <= at < dot < |s| && s[at] == '@' && s[dot] == '.' {
      PlainMeans(s, 0, at);
      PlainMeans(s, at + 1, dot);
      PlainMeans(s, dot + 1, |s|);
      assert s[0..at] == s[..at] && s[dot + 1..|s|] == s[dot + 1..];
    }
  }

  lemma AddressMeans(s: string)
    ensures EmailLike(s) <==> IsAddress(s)
  {
    MentionsMeans(s, "redacted");
    if at, dot :| SplitsAt(s, at, dot) {
      SplitMeans(s, at, dot);
      assert Apart(s, at, dot);
    }
    if at, dot :| Apart(s, at, dot) && NoSpaces(s) {
      SplitMeans(s, at, dot);
      assert SplitsAt(s, at, dot);
    }
  }

  ghost predicate ReadsAddress(value: Json, text: string) {
    Reads(value, text) && IsAddress(text)
  }

  ghost predicate NoAddress(value: Json) {
    forall text :: !ReadsAddress(value, text)
  }

  lemma IfEmailMeans(value: Json)
    ensures forall text :: IfEmail(FirstText(value)) == Some(text) <==> ReadsAddress(value, text)
    ensures IfEmail(FirstText(value)).None? <==> NoAddress(value)
  {
    FirstTextMeans(value);
    var found := FirstText(value);
    if found.Some? {
      AddressMeans(found.value);
      assert Reads(value, found.value);
    }
    if IfEmail(found).Some? {
      assert ReadsAddress(value, found.value);
    }
  }

  // ---- Whom to write to ----

  /** Entities that are falsy count as none at all, and what is no object is not looked at. */
  predicate Legible(state: State) {
    state.entities.Obj? || !Truthy(state.entities)
  }

  function Entity(state: State, key: string): Json {
    if state.entities.Obj? then Field(state.entities.fields, key) else Null
  }

  function RawEmails(state: State): Json {
    var raw := Entity(state, "raw_entities");
    if raw.Obj? then Field(raw.fields, "emails") else Null
  }

  /** Where an address of the customer is looked for, in order. */
  function Sources(state: State): seq<Json> {
    if Legible(state)
    then [state.ticketEmail, Entity(state, "customer_email"), Entity(state, "email"), Entity(state, "to"), RawEmails(state)]
    else [state.ticketEmail]
  }

  ghost predicate FirstAddressAt(sources: seq<Json>, i: nat, text: string) {
    i < |sources| && ReadsAddress(sources[i], text) && forall j | 0 <= j < i :: NoAddress(sources[j])
  }

  /** The address of the customer: the first that there is; the one found in the input text
      only where none of the others gives any. */
  ghost predicate Known(state: State, text: string) {
    || (exists i: nat :: FirstAddressAt(Sources(state), i, text))
    || (Legible(state) && (forall j | 0 <= j < |Sources(state)| :: NoAddress(Sources(state)[j]))
        && state.inputEmail == Some(text) && IsAddress(text))
  }

  lemma SourcesRead(state: State)
    requires Legible(state)
    ensures var entities := EntitiesOf(state).value; var sources := Sources(state);
            && EntitiesOf(state).Some? && |sources| == 5 && sources[0] == state.ticketEmail
            && sources[1] == Get(entities, "customer_email") && sources[2] == Get(entities, "email")
            && sources[3] == Get(entities, "to") && IfEmail(FirstText(sources[4])) == RawEmail(entities)
  {
  }

  /** The first address among the first n sources. */
  function FirstAddress(sources: seq<Json>, n: nat): Option<string>
    requires n <= |sources|
  {
    if n == 0 then None else Or(FirstAddress(sources, n - 1), IfEmail(FirstText(sources[n - 1])))
  }

  lemma {:induction false} FirstAddressMeans(sources: seq<Json>, n: nat) returns (i: nat)
    requires n <= |sources|
    ensures FirstAddress(sources, n).Some? ==> i < n && FirstAddressAt(sources, i, FirstAddress(sources, n).value)
    ensures FirstAddress(sources, n).None? <==> forall j | 0 <= j < n :: NoAddress(sources[j])
  {
    i := 0;
    if n == 0 {
    } else {
      IfEmailMeans(sources[n - 1]);
      if FirstAddress(sources, n - 1).Some? {
        i := FirstAddressMeans(sources, n - 1);
      } else {
        var none := FirstAddressMeans(sources, n - 1);
        i := n - 1;
      }
    }
  }

  lemma OneFirst(sources: seq<Json>, i: nat, text: string, j: nat, other: string)
    requires FirstAddressAt(sources, i, text) && FirstAddressAt(sources, j, other)
    ensures text == other
  {
    FirstTextMeans(sources[i]);
  }

  lemma CustomerIsFirst(state: State)
    ensures CustomerEmail(state)
            == Or(FirstAddress(Sources(state), |Sources(state)|), if Legible(state) then IfEmail(state.inputEmail) else None)
  {
    var sources := Sources(state);
    assert FirstAddress(sources, 1) == IfEmail(FirstText(sources[0]));
    if Legible(state) {
      SourcesRead(state);
      assert FirstAddress(sources, 2) == Or(FirstAddress(sources, 1), IfEmail(FirstText(sources[1])));
      assert FirstAddress(sources, 3) == Or(FirstAddress(sources, 2), IfEmail(FirstText(sources[2])));
      assert FirstAddress(sources, 4) == Or(FirstAddress(sources, 3), IfEmail(FirstText(sources[3])));
    }
  }

  lemma CustomerMeans(state: State)
    ensures forall text :: CustomerEmail(state) == Some(text) <==> Known(state, text)
  {
    var sources := Sources(state);
    CustomerIsFirst(state);
    var i := FirstAddressMeans(sources, |sources|);
    var first := FirstAddress(sources, |sources|);
    if state.inputEmail.Some? {
      AddressMeans(state.inputEmail.value);
    }
    forall text
      ensures CustomerEmail(state) == Some(text) <==> Known(state, text)
    {
      if first.Some? {
        assert FirstAddressAt(sources, i, first.value);
        if k: nat :| FirstAddressAt(sources, k, text) {
          OneFirst(sources, i, first.value, k, text);
        }
      } else if k: nat :| FirstAddressAt(sources, k, text) {
        assert NoAddress(sources[k]);
      }
    }
  }
}
