/** The five patterns of app/llm/redactor.py as regular expressions, and what every string
    they match has in common: no brackets, and enough characters of one kind (an @, two
    dashes, three dots, digits) to be no part of a placeholder. Word boundaries match no
    characters and are left out: the languages here are what the patterns can match at most. */
module Patterns {
  import opened PythonText

  datatype Kind = Email | Ssn | CreditCard | Phone | Ip

  datatype CharClass = Digit | Local | DomainName | Tld | Separator | DashOrSpace | Only(c: char)

  datatype Regex =
    | Chars(cls: CharClass)
    | Cat(left: Regex, right: Regex)
    | Opt(body: Regex)
    | Times(body: Regex, count: nat)
    | AtLeast(body: Regex, count: nat)

  /** \d matches decimal digits of every script; here every other character beyond ASCII. */
  predicate IsDigit(c: char) {
    '0' <= c <= '9' || c as int > 127
  }

  predicate IsLetter(c: char) {
    'A' <= c <= 'Z' || 'a' <= c <= 'z'
  }

  predicate In(cls: CharClass, c: char) {
    match cls
    case Digit => IsDigit(c)
    case Local => IsLetter(c) || '0' <= c <= '9' || c == '.' || c == '_' || c == '%' || c == '+' || c == '-'
    case DomainName => IsLetter(c) || '0' <= c <= '9' || c == '.' || c == '-'
    case Tld => IsLetter(c) || c == '|'
    case Separator => c == '-' || c == '.' || IsSpace(c)
    case DashOrSpace => c == '-' || IsSpace(c)
    case Only(d) => c == d
  }

  /** The characters that the classes stand for. */
  lemma ClassesMean(c: char)
    ensures var alphanumeric := 'A' <= c <= 'Z' || 'a' <= c <= 'z' || '0' <= c <= '9';
            && (In(Local, c) <==> alphanumeric || c in "._%+-")
            && (In(DomainName, c) <==> alphanumeric || c in ".-")
            && (In(Tld, c) <==> c == '|' || (alphanumeric && !('0' <= c <= '9')))
            && (In(Separator, c) <==> IsSpace(c) || c in "-.")
            && (In(DashOrSpace, c) <==> IsSpace(c) || c == '-')
            && ('0' <= c <= '9' ==> In(Digit, c))
  {
  }

  const DIGIT := Chars(Digit)

  function RegexOf(kind: Kind): Regex {
    match kind
    case Email => EmailRegex()
    case Ssn => SsnRegex()
    case CreditCard => Cat(Times(CardGroup(), 3), Times(DIGIT, 4))
    case Phone => PhoneRegex()
    case Ip => Cat(Times(IpPart(), 3), UpToThreeDigits())
  }

  function EmailRegex(): Regex {
    var ending: Regex := Cat(Chars(Only('.')), AtLeast(Chars(Tld), 2));
    var host: Regex := Cat(AtLeast(Chars(DomainName), 1), ending);
    var at: Regex := Cat(Chars(Only('@')), host);
    Cat(AtLeast(Chars(Local), 1), at)
  }

  function SsnRegex(): Regex {
    var last: Regex := Cat(Chars(Only('-')), Times(DIGIT, 4));
    var middle: Regex := Cat(Times(DIGIT, 2), last);
    var dash: Regex := Cat(Chars(Only('-')), middle);
    Cat(Times(DIGIT, 3), dash)
  }

  function CardGroup(): Regex {
    Cat(Times(DIGIT, 4), Opt(Chars(DashOrSpace)))
  }

  function PhoneRegex(): Regex {
    var separator: Regex := Opt(Chars(Separator));
    var last4: Regex := Cat(separator, Times(DIGIT, 4));
    var last7: Regex := Cat(Times(DIGIT, 3), last4);
    var close: Regex := Cat(Opt(Chars(Only(')'))), Cat(separator, last7));
    var area: Regex := Cat(Times(DIGIT, 3), close);
    var local: Regex := Cat(Opt(Chars(Only('('))), area);
    var country: Regex := Cat(Opt(Chars(Only('+'))), Cat(Chars(Only('1')), separator));
    Cat(Opt(country), local)
  }

  function IpPart(): Regex {
    Cat(UpToThreeDigits(), Chars(Only('.')))
  }

  function UpToThreeDigits(): Regex {
    Cat(DIGIT, Cat(Opt(DIGIT), Opt(DIGIT)))
  }

  function Label(kind: Kind): string {
    match kind
    case Email => "EMAIL_REDACTED_"
    case Ssn => "SSN_REDACTED_"
    case CreditCard => "CC_REDACTED_"
    case Phone => "PHONE_REDACTED_"
    case Ip => "IP_REDACTED_"
  }

  /** The placeholder for the match with this number. */
  function Placeholder(kind: Kind, number: nat): string {
    "[" + Label(kind) + Decimal(number) + "]"
  }

  /** s is in the language of the expression. */
  ghost predicate Matches(r: Regex, s: string)
    decreases r, 0, 0
  {
    match r
    case Chars(cls) => |s| == 1 && In(cls, s[0])
    case Cat(left, right) => exists k | 0 <= k <= |s| :: Matches(left, s[..k]) && Matches(right, s[k..])
    case Opt(body) => s == "" || Matches(body, s)
    case Times(body, count) => Repeated(body, count, s)
    case AtLeast(body, count) => exists n: nat | n >= count :: Repeated(body, n, s)
  }

  ghost predicate Repeated(body: Regex, count: nat, s: string)
    decreases body, 1, count
  {
    if count == 0 then s == ""
    else exists k | 0 <= k <= |s| :: Matches(body, s[..k]) && Repeated(body, count - 1, s[k..])
  }

  // ---- What all matches have in common ----

  datatype Mark = Is(c: char) | AnyDigit

  predicate Marked(q: Mark, c: char) {
    match q
    case Is(d) => c == d
    case AnyDigit => IsDigit(c)
  }

  function Count(s: string, q: Mark): nat {
    if |s| == 0 then 0 else (if Marked(q, s[0]) then 1 else 0) + Count(s[1..], q)
  }

  lemma {:induction false} CountSplit(s: string, k: nat, q: Mark)
    requires k <= |s|
    ensures Count(s, q) == Count(s[..k], q) + Count(s[k..], q)
  {
    if k > 0 {
      CountSplit(s[1..], k - 1, q);
      assert s[1..][..k - 1] == s[..k][1..];
      assert s[1..][k - 1..] == s[k..];
    } else {
      assert s[..0] == "" && s[0..] == s;
    }
  }

  /** The least number of characters satisfying q in anything the expression matches. */
  ghost function AtLeastSuch(r: Regex, q: Mark): nat {
    match r
    case Chars(cls) => if forall c | In(cls, c) :: Marked(q, c) then 1 else 0
    case Cat(left, right) => AtLeastSuch(left, q) + AtLeastSuch(right, q)
    case Opt(_) => 0
    case Times(body, count) => count * AtLeastSuch(body, q)
    case AtLeast(body, count) => count * AtLeastSuch(body, q)
  }

  lemma {:induction false} AtLeastSuchHolds(r: Regex, s: string, q: Mark)
    requires Matches(r, s)
    ensures Count(s, q) >= AtLeastSuch(r, q)
    decreases r, 0, 1
  {
    match r
    case Chars(cls) =>
      assert Count(s[1..], q) == 0;
    case Cat(left, right) =>
      SuchInBoth(left, right, s, q);
    case Opt(_) =>
    case Times(body, count) =>
      RepeatedSuch(body, count, s, q);
    case AtLeast(body, count) =>
      var n: nat :| n >= count && Repeated(body, n, s);
      RepeatedSuch(body, n, s, q);
      MoreTimes(n, count, AtLeastSuch(body, q));
  }

  lemma MoreTimes(n: nat, count: nat, x: nat)
    requires n >= count
    ensures n * x >= count * x
  {
    assert (n - count) * x >= 0;
  }

  lemma {:induction false} SuchInBoth(left: Regex, right: Regex, s: string, q: Mark)
    requires Matches(Cat(left, right), s)
    ensures Count(s, q) >= AtLeastSuch(left, q) + AtLeastSuch(right, q)
    decreases Cat(left, right), 0, 0
  {
    var k :| 0 <= k <= |s| && Matches(left, s[..k]) && Matches(right, s[k..]);
    AtLeastSuchHolds(left, s[..k], q);
    AtLeastSuchHolds(right, s[k..], q);
    CountSplit(s, k, q);
  }

  lemma {:induction false} RepeatedSuch(body: Regex, count: nat, s: string, q: Mark)
    requires Repeated(body, count, s)
    ensures Count(s, q) >= count * AtLeastSuch(body, q)
    decreases body, 1, count
  {
    if count == 0 {
    } else {
      var k :| 0 <= k <= |s| && Matches(body, s[..k]) && Repeated(body, count - 1, s[k..]);
      AtLeastSuchHolds(body, s[..k], q);
      RepeatedSuch(body, count - 1, s[k..], q);
      CountSplit(s, k, q);
      assert count * AtLeastSuch(body, q) == AtLeastSuch(body, q) + (count - 1) * AtLeastSuch(body, q);
    }
  }

  /** No character class of the expression contains a bracket. */
  ghost predicate Bracketless(r: Regex) {
    match r
    case Chars(cls) => !In(cls, '[') && !In(cls, ']')
    case Cat(left, right) => Bracketless(left) && Bracketless(right)
    case Opt(body) => Bracketless(body)
    case Times(body, _) => Bracketless(body)
    case AtLeast(body, _) => Bracketless(body)
  }

  predicate NoBrackets(s: string) {
    '[' !in s && ']' !in s
  }

  lemma {:induction false} BracketlessHolds(r: Regex, s: string)
    requires Matches(r, s) && Bracketless(r)
    ensures NoBrackets(s)
    decreases r, 0, 0
  {
    match r
    case Chars(_) =>
    case Cat(left, right) =>
      var k :| 0 <= k <= |s| && Matches(left, s[..k]) && Matches(right, s[k..]);
      BracketlessHolds(left, s[..k]);
      BracketlessHolds(right, s[k..]);
      assert s == s[..k] + s[k..];
    case Opt(body) =>
      if s != "" {
        BracketlessHolds(body, s);
      }
    case Times(body, count) =>
      RepeatedBracketless(body, count, s);
    case AtLeast(body, count) =>
      var n: nat :| n >= count && Repeated(body, n, s);
      RepeatedBracketless(body, n, s);
  }

  lemma {:induction false} RepeatedBracketless(body: Regex, count: nat, s: string)
    requires Repeated(body, count, s) && Bracketless(body)
    ensures NoBrackets(s)
    decreases body, 1, count
  {
    if count == 0 {
    } else {
      var k :| 0 <= k <= |s| && Matches(body, s[..k]) && Repeated(body, count - 1, s[k..]);
      BracketlessHolds(body, s[..k]);
      RepeatedBracketless(body, count - 1, s[k..]);
      assert s == s[..k] + s[k..];
    }
  }

  // ---- Matches against placeholders ----

  predicate IsPlaceholderChar(c: char) {
    'A' <= c <= 'Z' || c == '_' || c == '[' || c == ']' || '0' <= c <= '9'
  }

  lemma {:induction false} CountNone(s: string, q: Mark)
    requires forall c | c in s :: !Marked(q, c)
    ensures Count(s, q) == 0
  {
    if |s| == 0 {
    } else {
      CountNone(s[1..], q);
    }
  }

  lemma {:induction false} CountAtMost(s: string, q: Mark)
    ensures Count(s, q) <= |s|
  {
    if |s| == 0 {
    } else {
      CountAtMost(s[1..], q);
    }
  }

  lemma LabelChars(kind: Kind)
    ensures forall c | c in Label(kind) :: 'A' <= c <= 'Z' || c == '_'
  {
  }

  lemma PlaceholderChars(kind: Kind, number: nat)
    ensures forall c | c in Placeholder(kind, number) :: IsPlaceholderChar(c)
  {
    LabelChars(kind);
  }

  /** A placeholder numbered below 10^9 has at most nine digits. */
  lemma PlaceholderDigits(kind: Kind, number: nat)
    requires number < 1_000_000_000
    ensures Count(Placeholder(kind, number), AnyDigit) <= 9
  {
    var p, name, d := Placeholder(kind, number), Label(kind), Decimal(number);
    LabelChars(kind);
    assert p[..1 + |name|] == "[" + name;
    assert p[1 + |name|..] == d + "]";
    CountNone("[" + name, AnyDigit);
    CountSplit(p, 1 + |name|, AnyDigit);
    CountSplit(d + "]", |d|, AnyDigit);
    assert (d + "]")[..|d|] == d && (d + "]")[|d|..] == "]";
    CountNone("]", AnyDigit);
    CountAtMost(d, AnyDigit);
    NineDigits(number);
  }

  lemma NineDigits(number: nat)
    requires number < 1_000_000_000
    ensures |Decimal(number)| <= 9
  {
    assert TenTo(1) == 10 && TenTo(2) == 100 && TenTo(3) == 1000;
    assert TenTo(4) == 10_000 && TenTo(5) == 100_000 && TenTo(6) == 1_000_000;
    assert TenTo(7) == 10_000_000 && TenTo(8) == 100_000_000 && TenTo(9) == 1_000_000_000;
    DecimalLength(number, 9);
  }

  /** Characters that no match of the kind can do without. */
  function Marks(kind: Kind): Mark {
    match kind
    case Email => Is('@')
    case Ssn => Is('-')
    case CreditCard => AnyDigit
    case Phone => AnyDigit
    case Ip => Is('.')
  }

  function MarkCount(kind: Kind): nat {
    match kind
    case Email => 1
    case Ssn => 1
    case CreditCard => 10
    case Phone => 10
    case Ip => 1
  }

  lemma EmailMarked()
    ensures AtLeastSuch(EmailRegex(), Marks(Email)) >= 1
  {
    assert AtLeastSuch(Chars(Only('@')), Marks(Email)) == 1;
    assert AtLeastSuch(EmailRegex().right, Marks(Email)) >= 1;
  }

  lemma SsnMarked()
    ensures AtLeastSuch(SsnRegex(), Marks(Ssn)) >= 1
  {
    assert AtLeastSuch(Chars(Only('-')), Marks(Ssn)) == 1;
    assert AtLeastSuch(SsnRegex().right, Marks(Ssn)) >= 1;
  }

  lemma IpMarked()
    ensures AtLeastSuch(RegexOf(Ip), Marks(Ip)) >= 1
  {
    assert AtLeastSuch(Chars(Only('.')), Marks(Ip)) == 1;
    assert AtLeastSuch(IpPart(), Marks(Ip)) >= 1;
    assert AtLeastSuch(Times(IpPart(), 3), Marks(Ip)) == 3 * AtLeastSuch(IpPart(), Marks(Ip));
  }

  lemma Digits(count: nat)
    ensures AtLeastSuch(Times(DIGIT, count), AnyDigit) == count
  {
    assert AtLeastSuch(DIGIT, AnyDigit) == 1;
  }

  lemma CreditCardMarked()
    ensures AtLeastSuch(RegexOf(CreditCard), AnyDigit) >= 10
  {
    Digits(4);
    assert AtLeastSuch(CardGroup(), AnyDigit) == 4;
    assert AtLeastSuch(Times(CardGroup(), 3), AnyDigit) == 3 * AtLeastSuch(CardGroup(), AnyDigit);
  }

  lemma PhoneMarked()
    ensures AtLeastSuch(PhoneRegex(), AnyDigit) >= 10
  {
    Digits(3);
    Digits(4);
    var local := PhoneRegex().right;
    var area := local.right;
    var close := area.right;
    assert AtLeastSuch(close.right.right, AnyDigit) == 7;
    assert AtLeastSuch(close, AnyDigit) == 7;
    assert AtLeastSuch(area, AnyDigit) == 10;
    assert AtLeastSuch(local, AnyDigit) == 10;
  }

  lemma MatchesAreMarked(kind: Kind, m: string)
    requires Matches(RegexOf(kind), m)
    ensures Count(m, Marks(kind)) >= MarkCount(kind)
  {
    AtLeastSuchHolds(RegexOf(kind), m, Marks(kind));
    match kind
    case Email => EmailMarked();
    case Ssn => SsnMarked();
    case CreditCard => CreditCardMarked();
    case Phone => PhoneMarked();
    case Ip => IpMarked();
  }

  lemma PlaceholderUnmarked(kind: Kind, other: Kind, number: nat)
    requires number < 1_000_000_000
    ensures Count(Placeholder(other, number), Marks(kind)) < MarkCount(kind)
  {
    PlaceholderChars(other, number);
    PlaceholderDigits(other, number);
    if kind.Email? || kind.Ssn? || kind.Ip? {
      CountNone(Placeholder(other, number), Marks(kind));
    }
  }

  lemma PartCount(s: string, m: string, k: int, q: Mark)
    requires OccursAt(s, m, k)
    ensures Count(m, q) <= Count(s, q)
  {
    CountSplit(s, k, q);
    CountSplit(s[k..], |m|, q);
    assert s[k..][..|m|] == m;
  }

  lemma RegexBracketless(kind: Kind)
    ensures Bracketless(RegexOf(kind))
  {
  }

  /** What a match is, whatever the text: not empty, free of brackets, and no part of any
      placeholder numbered below 10^9. */
  lemma MatchFacts(kind: Kind, m: string, other: Kind, number: nat)
    requires Matches(RegexOf(kind), m) && number < 1_000_000_000
    ensures m != "" && NoBrackets(m) && !Contains(Placeholder(other, number), m)
  {
    RegexBracketless(kind);
    BracketlessHolds(RegexOf(kind), m);
    MatchesAreMarked(kind, m);
    PlaceholderUnmarked(kind, other, number);
    forall k | OccursAt(Placeholder(other, number), m, k)
      ensures false
    {
      PartCount(Placeholder(other, number), m, k, Marks(kind));
    }
  }
}
