/** The text rewriting of app/agents/nodes.py, on ASCII words: a note must not claim that a
    message went out before a human approved it. A word is as long as it goes on in letters,
    digits and underscores; the three that claim something are replaced wherever one of them is
    such a word in full, in capitals or not, and all else is kept. */
module Words {
  import opened PythonText

  function LowerChar(c: char): char {
    if 'A' <= c <= 'Z' then (c as int + 32) as char else c
  }

  /** str.lower, of ASCII letters */
  function Lower(s: string): (lower: string)
    ensures |lower| == |s| && forall i | 0 <= i < |s| :: lower[i] == LowerChar(s[i])
  {
    seq(|s|, i requires 0 <= i < |s| => LowerChar(s[i]))
  }

  /** needle in s.lower() */
  predicate Mentions(s: string, needle: string) {
    Find(Lower(s), needle, 0).Some?
  }

  predicate IsWord(c: char) {
    'a' <= c <= 'z' || 'A' <= c <= 'Z' || '0' <= c <= '9' || c == '_'
  }

  function WordRun(s: string): (n: nat)
    ensures n <= |s| && (n < |s| ==> !IsWord(s[n])) && forall i | 0 <= i < n :: IsWord(s[i])
    ensures |s| > 0 && IsWord(s[0]) ==> n > 0
  {
    if |s| > 0 && IsWord(s[0]) then WordRun(s[1..]) + 1 else 0
  }

  predicate SaysSent(word: string) {
    Lower(word) == "sent" || Lower(word) == "emailed" || Lower(word) == "delivered"
  }

  const PREPARED := "prepared"

  function Replacement(word: string): string {
    if SaysSent(word) then PREPARED else word
  }

  /** re.sub(r"\b(sent|emailed|delivered)\b", "prepared", s, flags=re.I): as the alternatives
      are words, a match is a whole run of word characters. */
  function Prepared(s: string): string
    decreases |s|
  {
    if |s| == 0 then ""
    else if IsWord(s[0]) then Replacement(s[..WordRun(s)]) + Prepared(s[WordRun(s)..])
    else [s[0]] + Prepared(s[1..])
  }

  lemma ReplacementIsWord(word: string)
    requires |word| > 0 && forall i | 0 <= i < |word| :: IsWord(word[i])
    ensures var r := Replacement(word);
            |r| > 0 && (forall i | 0 <= i < |r| :: IsWord(r[i])) && !SaysSent(r)
  {
    assert Lower(PREPARED)[0] == 'p';
  }

  lemma {:induction false} WordRunOf(word: string, rest: string)
    requires forall i | 0 <= i < |word| :: IsWord(word[i])
    requires |rest| > 0 ==> !IsWord(rest[0])
    ensures WordRun(word + rest) == |word|
  {
    if |word| > 0 {
      WordRunOf(word[1..], rest);
      assert (word + rest)[1..] == word[1..] + rest;
    } else {
      assert word + rest == rest;
    }
  }

  lemma PreparedWord(word: string, rest: string)
    requires |word| > 0 && forall i | 0 <= i < |word| :: IsWord(word[i])
    requires |rest| > 0 ==> !IsWord(rest[0])
    ensures Prepared(word + rest) == Replacement(word) + Prepared(rest)
  {
    WordRunOf(word, rest);
    assert (word + rest)[..|word|] == word && (word + rest)[|word|..] == rest;
  }

  lemma PreparedOther(c: char, rest: string)
    requires !IsWord(c)
    ensures Prepared([c] + rest) == [c] + Prepared(rest)
  {
    assert ([c] + rest)[1..] == rest;
  }

  /** Rewriting keeps what is not a word, at both ends. */
  lemma {:induction false} PreparedEnds(s: string)
    requires |s| > 0
    ensures var p := Prepared(s);
            && |p| > 0 && (p[0] == s[0] || (IsWord(p[0]) && IsWord(s[0])))
            && (p[|p| - 1] == s[|s| - 1] || IsWord(p[|p| - 1]))
    decreases |s|
  {
    if IsWord(s[0]) {
      var n := WordRun(s);
      ReplacementIsWord(s[..n]);
      if n < |s| {
        PreparedEnds(s[n..]);
      }
    } else if |s| > 1 {
      PreparedEnds(s[1..]);
    }
  }

  lemma NoWordAhead(s: string)
    requires |s| > 0 ==> !IsWord(s[0])
    ensures |Prepared(s)| > 0 ==> !IsWord(Prepared(s)[0])
  {
    if |s| > 0 {
      PreparedEnds(s);
    }
  }

  /** After one rewriting there is nothing left to rewrite. */
  lemma {:induction false} PreparedTwice(s: string)
    ensures Prepared(Prepared(s)) == Prepared(s)
    decreases |s|
  {
    if |s| > 0 && IsWord(s[0]) {
      var n := WordRun(s);
      PreparedTwice(s[n..]);
      ReplacementIsWord(s[..n]);
      NoWordAhead(s[n..]);
      PreparedWord(Replacement(s[..n]), Prepared(s[n..]));
    } else if |s| > 0 {
      PreparedTwice(s[1..]);
      PreparedOther(s[0], Prepared(s[1..]));
    }
  }

  /** No word runs on from a into b. */
  predicate Breaks(a: string, b: string) {
    |a| == 0 || |b| == 0 || !IsWord(a[|a| - 1]) || !IsWord(b[0])
  }

  lemma PreparedWordBefore(word: string, rest: string, b: string)
    requires |word| > 0 && forall i | 0 <= i < |word| :: IsWord(word[i])
    requires (|rest| > 0 ==> !IsWord(rest[0])) && (|rest + b| > 0 ==> !IsWord((rest + b)[0]))
    requires Prepared(rest + b) == Prepared(rest) + Prepared(b)
    ensures Prepared(word + (rest + b)) == Prepared(word + rest) + Prepared(b)
  {
    PreparedWord(word, rest + b);
    PreparedWord(word, rest);
    Regroup(Replacement(word), Prepared(rest), Prepared(b));
  }

  lemma PreparedOtherBefore(c: char, rest: string, b: string)
    requires !IsWord(c) && Prepared(rest + b) == Prepared(rest) + Prepared(b)
    ensures Prepared([c] + (rest + b)) == Prepared([c] + rest) + Prepared(b)
  {
    PreparedOther(c, rest + b);
    PreparedOther(c, rest);
    Regroup([c], Prepared(rest), Prepared(b));
  }

  lemma {:induction false} PreparedAppend(a: string, b: string)
    requires Breaks(a, b)
    ensures Prepared(a + b) == Prepared(a) + Prepared(b)
    decreases |a|
  {
    if |a| == 0 {
      assert a + b == b;
    } else if IsWord(a[0]) {
      var n := WordRun(a);
      if n == |a| {
        assert a[n..] + b == b;
      } else {
        PreparedAppend(a[n..], b);
      }
      PreparedWordBefore(a[..n], a[n..], b);
      Rejoin(a, n, b);
    } else {
      PreparedAppend(a[1..], b);
      PreparedOtherBefore(a[0], a[1..], b);
      Rejoin(a, 1, b);
      assert a[..1] == [a[0]];
    }
  }

  lemma Rejoin(a: string, n: nat, b: string)
    requires n <= |a|
    ensures a[..n] + a[n..] == a && a[..n] + (a[n..] + b) == a + b
  {
  }

  // ---- What the rewriting does ----

  /** The n characters at i are a word: letters with no letter on either side. */
  predicate WholeWord(s: string, i: int, n: int) {
    && 0 <= i && 0 < n && i + n <= |s| && (forall j | i <= j < i + n :: IsWord(s[j]))
    && (i == 0 || !IsWord(s[i - 1])) && (i + n == |s| || !IsWord(s[i + n]))
  }

  ghost predicate NoneSaysSent(s: string) {
    forall i, n | WholeWord(s, i, n) :: !SaysSent(s[i..i + n])
  }

  lemma WordBehind(head: string, rest: string, i: int, n: int)
    requires WholeWord(head + rest, i, n) && i >= |head|
    ensures WholeWord(rest, i - |head|, n) && (head + rest)[i..i + n] == rest[i - |head|..i - |head| + n]
  {
    var s := head + rest;
    assert forall j | 0 <= j < |rest| :: s[|head| + j] == rest[j];
  }

  lemma WordAfter(head: string, rest: string, i: int, n: int)
    requires WholeWord(rest, i, n) && |head| > 0 && (IsWord(head[|head| - 1]) ==> !IsWord(rest[0]))
    ensures WholeWord(head + rest, |head| + i, n) && (head + rest)[|head| + i..|head| + i + n] == rest[i..i + n]
  {
    var s := head + rest;
    assert forall j | 0 <= j < |rest| :: s[|head| + j] == rest[j];
  }

  lemma WordInFront(word: string, rest: string, i: int, n: int)
    requires forall j | 0 <= j < |word| :: IsWord(word[j])
    requires |rest| > 0 ==> !IsWord(rest[0])
    requires WholeWord(word + rest, i, n) && i < |word|
    ensures i == 0 && n == |word| && (word + rest)[i..i + n] == word
  {
    var s := word + rest;
    assert forall j | 0 <= j < |word| :: IsWord(s[j]) by {
      assert forall j | 0 <= j < |word| :: s[j] == word[j];
    }
    assert |rest| > 0 ==> s[|word|] == rest[0];
  }

  lemma NoneInWordThen(word: string, rest: string)
    requires forall j | 0 <= j < |word| :: IsWord(word[j])
    requires (|rest| > 0 ==> !IsWord(rest[0])) && !SaysSent(word) && NoneSaysSent(rest)
    ensures NoneSaysSent(word + rest)
  {
    forall i, n | WholeWord(word + rest, i, n)
      ensures !SaysSent((word + rest)[i..i + n])
    {
      if i < |word| {
        WordInFront(word, rest, i, n);
      } else {
        WordBehind(word, rest, i, n);
      }
    }
  }

  lemma NoneInOtherThen(c: char, rest: string)
    requires !IsWord(c) && NoneSaysSent(rest)
    ensures NoneSaysSent([c] + rest)
  {
    forall i, n | WholeWord([c] + rest, i, n)
      ensures !SaysSent(([c] + rest)[i..i + n])
    {
      assert IsWord(([c] + rest)[i]);
      WordBehind([c], rest, i, n);
    }
  }

  /** No word of a rewritten text says sent, emailed or delivered. */
  lemma {:induction false} NothingSaysSent(s: string)
    ensures NoneSaysSent(Prepared(s))
    decreases |s|
  {
    if |s| > 0 && IsWord(s[0]) {
      var n := WordRun(s);
      NothingSaysSent(s[n..]);
      ReplacementIsWord(s[..n]);
      NoWordAhead(s[n..]);
      NoneInWordThen(Replacement(s[..n]), Prepared(s[n..]));
    } else if |s| > 0 {
      NothingSaysSent(s[1..]);
      NoneInOtherThen(s[0], Prepared(s[1..]));
    }
  }

  lemma NoneBehind(head: string, rest: string)
    requires NoneSaysSent(head + rest) && |head| > 0
    requires |rest| > 0 && IsWord(head[|head| - 1]) ==> !IsWord(rest[0])
    ensures NoneSaysSent(rest)
  {
    forall i, n | WholeWord(rest, i, n)
      ensures !SaysSent(rest[i..i + n])
    {
      WordAfter(head, rest, i, n);
    }
  }

  lemma FirstWord(s: string)
    requires |s| > 0 && IsWord(s[0])
    ensures WholeWord(s, 0, WordRun(s))
  {
  }

  /** A text that says nothing of the kind stays as it is: rewriting touches nothing else. */
  lemma {:induction false} PreparedWhereNeeded(s: string)
    ensures Prepared(s) == s <==> NoneSaysSent(s)
    decreases |s|
  {
    NothingSaysSent(s);
    if NoneSaysSent(s) && |s| > 0 {
      if IsWord(s[0]) {
        var n := WordRun(s);
        FirstWord(s);
        assert s == s[..n] + s[n..] && s[0..n] == s[..n];
        NoneBehind(s[..n], s[n..]);
        PreparedWhereNeeded(s[n..]);
      } else {
        assert s == [s[0]] + s[1..];
        NoneBehind([s[0]], s[1..]);
        PreparedWhereNeeded(s[1..]);
      }
    }
  }

  /** Each word is rewritten on its own: the three become "prepared", in any case, and all
      others stay. */
  lemma RewritesEach(s: string, i: nat, n: nat)
    requires WholeWord(s, i, n)
    ensures var word := s[i..i + n];
            Prepared(s) == Prepared(s[..i])
                           + (if Lower(word) == "sent" || Lower(word) == "emailed" || Lower(word) == "delivered" then "prepared" else word)
                           + Prepared(s[i + n..])
  {
    var word, rest := s[i..i + n], s[i + n..];
    assert forall j | 0 <= j < n :: word[j] == s[i + j];
    assert s == s[..i] + (word + rest);
    PreparedAppend(s[..i], word + rest);
    PreparedWord(word, rest);
    Regroup(Prepared(s[..i]), Replacement(word), Prepared(rest));
  }

  /** What is no word stays. */
  lemma KeepsOthers(s: string, i: nat)
    requires i < |s| && !IsWord(s[i])
    ensures Prepared(s) == Prepared(s[..i]) + [s[i]] + Prepared(s[i + 1..])
  {
    var a, c, rest := s[..i], s[i], s[i + 1..];
    CutAtChar(s, i);
    PreparedAppend(a, [c] + rest);
    PreparedOther(c, rest);
    Regroup(Prepared(a), [c], Prepared(rest));
  }

  /** An underscore or a digit belongs to the word, a dash does not. */
  lemma WordsWithin()
    ensures Prepared("not_sent") == "not_sent" && Prepared("sent2") == "sent2"
    ensures Prepared("-" + "sent") == "-" + "prepared"
  {
    assert |Lower("not_sent")| == 8 && |Lower("sent2")| == 5;
    PreparedWord("not_sent", "");
    PreparedWord("sent2", "");
    assert "not_sent" + "" == "not_sent" && "sent2" + "" == "sent2";
    PreparedOther('-', "sent");
    PreparedWord("sent", "");
    assert "sent" + "" == "sent" && "prepared" + "" == "prepared" && Lower("sent") == "sent";
  }

  lemma CutAtChar(s: string, i: nat)
    requires i < |s|
    ensures s == s[..i] + ([s[i]] + s[i + 1..])
  {
  }

  // ---- The sentence that is added ----

  const PENDING := " Outbound" + " customer" + " email" + " is" + " pending" + " human" + " approval" + "."

  predicate PlainWord(word: string) {
    |word| > 1 && word[0] == ' ' && (forall i | 1 <= i < |word| :: IsWord(word[i])) && !SaysSent(word[1..])
  }

  lemma PlainWordStays(word: string)
    requires PlainWord(word)
    ensures Prepared(word) == word
  {
    PreparedOther(' ', word[1..]);
    assert word == [' '] + word[1..];
    PreparedWord(word[1..], "");
    assert word[1..] + "" == word[1..];
  }

  lemma AddPlainWord(s: string, word: string)
    requires Prepared(s) == s && PlainWord(word)
    ensures Prepared(s + word) == s + word
  {
    PlainWordStays(word);
    PreparedAppend(s, word);
  }

  lemma PendingStays()
    ensures Prepared(PENDING) == PENDING
  {
    PlainWords();
    MorePlainWords();
    PlainWordStays(" Outbound");
    AddPlainWord(" Outbound", " customer");
    AddPlainWord(" Outbound" + " customer", " email");
    AddPlainWord(" Outbound" + " customer" + " email", " is");
    AddPlainWord(" Outbound" + " customer" + " email" + " is", " pending");
    AddPlainWord(" Outbound" + " customer" + " email" + " is" + " pending", " human");
    AddPlainWord(" Outbound" + " customer" + " email" + " is" + " pending" + " human", " approval");
    PreparedAppend(" Outbound" + " customer" + " email" + " is" + " pending" + " human" + " approval", ".");
    PreparedOther('.', "");
    assert "." == ['.'] + "";
  }

  lemma PlainWords()
    ensures PlainWord(" Outbound") && PlainWord(" customer") && PlainWord(" email") && PlainWord(" is")
  {
  }

  lemma MorePlainWords()
    ensures PlainWord(" pending") && PlainWord(" human") && PlainWord(" approval")
  {
    assert Lower(" pending"[1..])[0] == 'p';
  }
}
