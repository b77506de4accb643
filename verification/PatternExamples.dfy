/** What the five redaction patterns of app/llm/redactor.py match at least: addresses, numbers
    in the usual groups with or without separators, and dotted quadruples. That a string is in
    the language of a regular expression is shown from the parts outwards, piece by piece: a
    concatenation matches the concatenated strings, and a repetition matches one more. The
    examples of what redaction loses and misses are built on these. */
module PatternExamples {
  import opened PythonText
  import opened Patterns

  lemma CatMatches(left: Regex, right: Regex, a: string, b: string)
    requires Matches(left, a) && Matches(right, b)
    ensures Matches(Cat(left, right), a + b)
  {
    assert (a + b)[..|a|] == a && (a + b)[|a|..] == b;
  }

  lemma RepeatedMore(body: Regex, count: nat, a: string, b: string)
    requires Matches(body, a) && Repeated(body, count, b)
    ensures Repeated(body, count + 1, a + b)
  {
    assert (a + b)[..|a|] == a && (a + b)[|a|..] == b;
  }

  lemma {:induction false} DigitsRepeated(s: string)
    requires AsciiDigits(s)
    ensures Repeated(DIGIT, |s|, s)
  {
    if |s| == 0 {
    } else {
      DigitsRepeated(s[1..]);
      RepeatedMore(DIGIT, |s| - 1, s[..1], s[1..]);
      assert s[..1] + s[1..] == s;
    }
  }

  /** So many digits. */
  predicate Figures(s: string, n: nat) {
    |s| == n && AsciiDigits(s)
  }

  lemma FiguresMatch(s: string, n: nat)
    requires Figures(s, n)
    ensures Matches(Times(DIGIT, n), s)
  {
    DigitsRepeated(s);
  }

  predicate AllIn(cls: CharClass, s: string) {
    forall i | 0 <= i < |s| :: In(cls, s[i])
  }

  lemma {:induction false} ClassRepeated(cls: CharClass, s: string)
    requires AllIn(cls, s)
    ensures Repeated(Chars(cls), |s|, s)
  {
    if |s| == 0 {
    } else {
      ClassRepeated(cls, s[1..]);
      RepeatedMore(Chars(cls), |s| - 1, s[..1], s[1..]);
      assert s[..1] + s[1..] == s;
    }
  }

  lemma ClassMatches(cls: CharClass, s: string, n: nat)
    requires AllIn(cls, s) && |s| >= n
    ensures Matches(AtLeast(Chars(cls), n), s)
  {
    ClassRepeated(cls, s);
  }

  lemma OneMatches(c: char)
    ensures Matches(Chars(Only(c)), [c])
  {
  }

  // ---- Addresses ----

  lemma EmailMatches(local: string, host: string, tld: string)
    requires |local| >= 1 && AllIn(Local, local) && |host| >= 1 && AllIn(DomainName, host) && |tld| >= 2 && AllIn(Tld, tld)
    ensures Matches(RegexOf(Email), local + (['@'] + (host + (['.'] + tld))))
  {
    ClassMatches(Local, local, 1);
    ClassMatches(DomainName, host, 1);
    ClassMatches(Tld, tld, 2);
    OneMatches('@');
    OneMatches('.');
    var ending: Regex := Cat(Chars(Only('.')), AtLeast(Chars(Tld), 2));
    CatMatches(Chars(Only('.')), AtLeast(Chars(Tld), 2), ['.'], tld);
    var named: Regex := Cat(AtLeast(Chars(DomainName), 1), ending);
    CatMatches(AtLeast(Chars(DomainName), 1), ending, host, ['.'] + tld);
    CatMatches(Chars(Only('@')), named, ['@'], host + (['.'] + tld));
    CatMatches(AtLeast(Chars(Local), 1), Cat(Chars(Only('@')), named), local, ['@'] + (host + (['.'] + tld)));
  }

  // ---- Numbers in groups ----

  lemma SsnMatches(a: string, b: string, c: string)
    requires Figures(a, 3) && Figures(b, 2) && Figures(c, 4)
    ensures Matches(RegexOf(Ssn), a + (['-'] + (b + (['-'] + c))))
  {
    FiguresMatch(a, 3);
    FiguresMatch(b, 2);
    FiguresMatch(c, 4);
    OneMatches('-');
    var last: Regex := Cat(Chars(Only('-')), Times(DIGIT, 4));
    CatMatches(Chars(Only('-')), Times(DIGIT, 4), ['-'], c);
    var middle: Regex := Cat(Times(DIGIT, 2), last);
    CatMatches(Times(DIGIT, 2), last, b, ['-'] + c);
    CatMatches(Chars(Only('-')), middle, ['-'], b + (['-'] + c));
    CatMatches(Times(DIGIT, 3), Cat(Chars(Only('-')), middle), a, ['-'] + (b + (['-'] + c)));
  }

  /** Nothing, or one character of the class. */
  predicate AtMostOne(cls: CharClass, s: string) {
    s == "" || (|s| == 1 && In(cls, s[0]))
  }

  lemma AtMostOneMatches(cls: CharClass, s: string)
    requires AtMostOne(cls, s)
    ensures Matches(Opt(Chars(cls)), s)
  {
  }

  lemma GroupMatches(digits: string, separator: string)
    requires Figures(digits, 4) && AtMostOne(DashOrSpace, separator)
    ensures Matches(CardGroup(), digits + separator)
  {
    FiguresMatch(digits, 4);
    AtMostOneMatches(DashOrSpace, separator);
    CatMatches(Times(DIGIT, 4), Opt(Chars(DashOrSpace)), digits, separator);
  }

  lemma ThreeTimes(body: Regex, a: string, b: string, c: string)
    requires Matches(body, a) && Matches(body, b) && Matches(body, c)
    ensures Matches(Times(body, 3), a + (b + (c + "")))
  {
    RepeatedMore(body, 0, c, "");
    RepeatedMore(body, 1, b, c + "");
    RepeatedMore(body, 2, a, b + (c + ""));
  }

  lemma CreditCardMatches(a: string, x: string, b: string, y: string, c: string, z: string, d: string)
    requires Figures(a, 4) && Figures(b, 4) && Figures(c, 4) && Figures(d, 4)
    requires AtMostOne(DashOrSpace, x) && AtMostOne(DashOrSpace, y) && AtMostOne(DashOrSpace, z)
    ensures Matches(RegexOf(CreditCard), ((a + x) + ((b + y) + ((c + z) + ""))) + d)
  {
    GroupMatches(a, x);
    GroupMatches(b, y);
    GroupMatches(c, z);
    ThreeTimes(CardGroup(), a + x, b + y, c + z);
    FiguresMatch(d, 4);
    CatMatches(Times(CardGroup(), 3), Times(DIGIT, 4), (a + x) + ((b + y) + ((c + z) + "")), d);
  }

  /** The last seven digits of a phone number. */
  lemma SevenMatches(b: string, y: string, c: string)
    requires Figures(b, 3) && AtMostOne(Separator, y) && Figures(c, 4)
    ensures Matches(Cat(Times(DIGIT, 3), Cat(Opt(Chars(Separator)), Times(DIGIT, 4))), b + (y + c))
  {
    FiguresMatch(b, 3);
    FiguresMatch(c, 4);
    AtMostOneMatches(Separator, y);
    CatMatches(Opt(Chars(Separator)), Times(DIGIT, 4), y, c);
    CatMatches(Times(DIGIT, 3), Cat(Opt(Chars(Separator)), Times(DIGIT, 4)), b, y + c);
  }

  /** With or without the country in front, parentheses around the area, and separators. */
  lemma PhoneMatches(country: string, open: string, a: string, close: string, x: string, b: string, y: string, c: string)
    requires country == "" || Countrywide(country)
    requires AtMostOne(Only('('), open) && AtMostOne(Only(')'), close)
    requires Figures(a, 3) && AtMostOne(Separator, x) && Figures(b, 3) && AtMostOne(Separator, y) && Figures(c, 4)
    ensures Matches(RegexOf(Phone), country + (open + (a + (close + (x + (b + (y + c)))))))
  {
    var regex := PhoneRegex();
    var local, number := regex.right, open + (a + (close + (x + (b + (y + c)))));
    SevenMatches(b, y, c);
    AtMostOneMatches(Separator, x);
    AtMostOneMatches(Only(')'), close);
    AtMostOneMatches(Only('('), open);
    FiguresMatch(a, 3);
    CatMatches(local.right.right.right.left, local.right.right.right.right, x, b + (y + c));
    CatMatches(local.right.right.left, local.right.right.right, close, x + (b + (y + c)));
    CatMatches(local.right.left, local.right.right, a, close + (x + (b + (y + c))));
    CatMatches(local.left, local.right, open, a + (close + (x + (b + (y + c)))));
    if country != "" {
      CountryMatches(country);
    }
    assert Matches(regex.left, country);
    CatMatches(regex.left, local, country, number);
  }

  lemma ThreeParts(s: string, i: nat, j: nat)
    requires i <= j <= |s|
    ensures s == s[..i] + (s[i..j] + s[j..])
  {
  }

  /** A one, perhaps with a plus in front and a separator behind. */
  predicate Countrywide(s: string) {
    exists plus, rest | 0 <= plus <= |s| && plus + 1 <= rest <= |s| ::
      AtMostOne(Only('+'), s[..plus]) && s[plus..rest] == "1" && AtMostOne(Separator, s[rest..])
  }

  lemma CountryMatches(country: string)
    requires Countrywide(country)
    ensures Matches(Cat(Opt(Chars(Only('+'))), Cat(Chars(Only('1')), Opt(Chars(Separator)))), country)
  {
    var plus, rest :| 0 <= plus <= |country| && plus + 1 <= rest <= |country| && AtMostOne(Only('+'), country[..plus])
                      && country[plus..rest] == "1" && AtMostOne(Separator, country[rest..]);
    AtMostOneMatches(Only('+'), country[..plus]);
    AtMostOneMatches(Separator, country[rest..]);
    OneMatches('1');
    var a, c := country[..plus], country[rest..];
    CatMatches(Chars(Only('1')), Opt(Chars(Separator)), "1", c);
    CatMatches(Opt(Chars(Only('+'))), Cat(Chars(Only('1')), Opt(Chars(Separator))), a, "1" + c);
    ThreeParts(country, plus, rest);
  }

  // ---- Dotted quadruples ----

  predicate UpToThree(s: string) {
    1 <= |s| <= 3 && AsciiDigits(s)
  }

  lemma UpToThreeMatches(s: string)
    requires UpToThree(s)
    ensures Matches(UpToThreeDigits(), s)
  {
    var two: string := if |s| > 1 then s[1..2] else "";
    var three: string := if |s| > 2 then s[2..3] else "";
    assert s == s[..1] + (two + three);
    CatMatches(Opt(DIGIT), Opt(DIGIT), two, three);
    CatMatches(DIGIT, Cat(Opt(DIGIT), Opt(DIGIT)), s[..1], two + three);
  }

  lemma IpMatches(a: string, b: string, c: string, d: string)
    requires UpToThree(a) && UpToThree(b) && UpToThree(c) && UpToThree(d)
    ensures Matches(RegexOf(Ip), ((a + ['.']) + ((b + ['.']) + ((c + ['.']) + ""))) + d)
  {
    UpToThreeMatches(a);
    UpToThreeMatches(b);
    UpToThreeMatches(c);
    UpToThreeMatches(d);
    OneMatches('.');
    CatMatches(UpToThreeDigits(), Chars(Only('.')), a, ['.']);
    CatMatches(UpToThreeDigits(), Chars(Only('.')), b, ['.']);
    CatMatches(UpToThreeDigits(), Chars(Only('.')), c, ['.']);
    ThreeTimes(IpPart(), a + ['.'], b + ['.'], c + ['.']);
    CatMatches(Times(IpPart(), 3), UpToThreeDigits(), (a + ['.']) + ((b + ['.']) + ((c + ['.']) + "")), d);
  }

  // ---- Two of them ----

  const ADDRESS := "a" + ("@" + ("b" + ("." + "co")))

  lemma SomeEmail()
    ensures Matches(RegexOf(Email), ADDRESS)
  {
    EmailMatches("a", "b", "co");
  }

  const NUMBER := "000" + ("-" + ("00" + ("-" + "0000")))

  lemma NumberSays()
    ensures NUMBER == "000-00-0000"
  {
  }

  lemma SomeSsn()
    ensures Matches(RegexOf(Ssn), NUMBER)
  {
    SsnMatches("000", "00", "0000");
  }
}
