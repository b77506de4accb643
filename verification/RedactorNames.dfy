/** How the placeholders of app/llm/redactor.py are spelt and numbered. */
module RedactorNames {
  import opened PythonText
  import opened Patterns
  import opened Redactor
  import opened RedactorLimits
  import opened RedactorCounts

  function NameOf(kind: Kind): string {
    match kind
    case Email => "EMAIL_REDACTED_"
    case Ssn => "SSN_REDACTED_"
    case CreditCard => "CC_REDACTED_"
    case Phone => "PHONE_REDACTED_"
    case Ip => "IP_REDACTED_"
  }

  function Spelt(kind: Kind, digits: string): string {
    "[" + NameOf(kind) + digits + "]"
  }

  /** The digits of n, without a leading zero. */
  predicate Digits(digits: string, n: nat) {
    && |digits| > 0 && AsciiDigits(digits) && DecimalValue(digits) == n
    && (|digits| > 1 ==> digits[0] != '0')
  }

  lemma {:induction false} NoLeadingZero(n: nat)
    ensures |Decimal(n)| > 1 ==> Decimal(n)[0] != '0'
    ensures n > 0 ==> Decimal(n)[0] != '0'
  {
    if n < 10 {
    } else {
      NoLeadingZero(n / 10);
    }
  }

  /** They are the one way to write the number. */
  lemma {:induction false} DigitsUnique(digits: string, n: nat)
    ensures Digits(digits, n) <==> digits == Decimal(n)
    decreases |digits|
  {
    DecimalRoundTrip(n);
    NoLeadingZero(n);
    if Digits(digits, n) {
      var front, last := digits[..|digits| - 1], digits[|digits| - 1];
      if |digits| == 1 {
        assert DecimalValue(front) == 0;
        assert digits == [last];
      } else {
        LeadingDigit(front);
        DigitsUnique(front, n / 10);
        assert digits == front + [last];
      }
    }
  }

  lemma {:induction false} LeadingDigit(digits: string)
    requires |digits| > 0 && AsciiDigits(digits) && digits[0] != '0'
    ensures DecimalValue(digits) > 0
  {
    if |digits| == 1 {
      assert DecimalValue(digits[..0]) == 0;
    } else {
      LeadingDigit(digits[..|digits| - 1]);
    }
  }

  lemma PlaceholderSpelt(kind: Kind, number: nat)
    ensures Placeholder(kind, number) == Spelt(kind, Decimal(number)) && Digits(Decimal(number), number)
  {
    DigitsUnique(Decimal(number), number);
  }

  lemma FirstEmail()
    ensures Spelt(Email, "0") == "[EMAIL_REDACTED_0]"
  {
  }

  lemma FirstSsn()
    ensures Spelt(Ssn, "0") == "[SSN_REDACTED_0]"
  {
  }

  lemma FirstCreditCard()
    ensures Spelt(CreditCard, "0") == "[CC_REDACTED_0]"
  {
  }

  lemma FirstPhone()
    ensures Spelt(Phone, "0") == "[PHONE_REDACTED_0]"
  {
  }

  lemma FirstIp()
    ensures Spelt(Ip, "0") == "[IP_REDACTED_0]"
  {
  }

  /** A text that is one match becomes the first placeholder of its kind. */
  lemma WholeTextRedacted(kind: Kind, engine: Engine, text: string)
    requires engine(kind, text) == [text]
    ensures var placeholder := match kind
                               case Email => "[EMAIL_REDACTED_0]"
                               case Ssn => "[SSN_REDACTED_0]"
                               case CreditCard => "[CC_REDACTED_0]"
                               case Phone => "[PHONE_REDACTED_0]"
                               case Ip => "[IP_REDACTED_0]";
            Redacted([kind], engine, text) == RedactionResult(placeholder, 1, [(placeholder, text)])
  {
    var placeholder := Placeholder(kind, 0);
    PlaceholderSpelt(kind, 0);
    assert Decimal(0) == "0";
    OneMatchReplaced(kind, text);
    var (text', entries') := AfterMatches(kind, [text], text, []);
    assert [kind][0] == kind && [kind][1..] == [];
    assert AfterPatterns([kind], engine, text, []) == AfterPatterns([], engine, text', entries') == (text', entries');
    match kind {
      case Email => FirstEmail();
      case Ssn => FirstSsn();
      case CreditCard => FirstCreditCard();
      case Phone => FirstPhone();
      case Ip => FirstIp();
    }
  }

  lemma OneMatchReplaced(kind: Kind, text: string)
    ensures AfterMatches(kind, [text], text, []) == (Placeholder(kind, 0), [(Placeholder(kind, 0), text)])
  {
    var placeholder := Placeholder(kind, 0);
    assert OccursAt(text, text, 0);
    assert text[..0] + placeholder + text[|text|..] == placeholder;
    assert [text][1..] == [] && [] + [(placeholder, text)] == [(placeholder, text)];
  }

  ghost predicate Numbered(active: seq<Kind>, entries: Entries, i: nat)
    requires i < |entries|
  {
    exists kind, digits | kind in active :: Digits(digits, i) && entries[i].0 == Spelt(kind, digits)
  }

  /** The placeholders of a redaction are numbered through, whatever patterns they are of. */
  lemma NumberedThrough(active: seq<Kind>, engine: Engine, text: string)
    ensures var r := Redacted(active, engine, text);
            r.count == |r.entries| && forall i | 0 <= i < |r.entries| :: Numbered(active, r.entries, i)
  {
    var entries := Redacted(active, engine, text).entries;
    forall i | 0 <= i < |entries|
      ensures Numbered(active, entries, i)
    {
      var kind := KeyOfKind(active, engine, text, [], i);
      PlaceholderSpelt(kind, i);
    }
  }
}
