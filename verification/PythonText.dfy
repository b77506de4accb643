/** The string operations of Python that the model uses: `in` and find, replace with and
    without a limit on how often, str of a count, isspace and strip. Strings are sequences of
    characters; positions count from nought; an empty string occurs everywhere, and replacing
    it puts the other around every character. What the model needs to know of them is proved
    here once. */
module PythonText {
  import opened Domain

  lemma Regroup<T>(a: seq<T>, b: seq<T>, c: seq<T>)
    ensures a + (b + c) == (a + b) + c
  {
  }

  /** m occurs in s at position k. */
  predicate OccursAt(s: string, m: string, k: int) {
    0 <= k <= |s| - |m| && s[k..k + |m|] == m
  }

  ghost predicate Contains(s: string, m: string) {
    exists k :: OccursAt(s, m, k)
  }

  /** The first position from `from` on at which m occurs. */
  function Find(s: string, m: string, from: nat): (r: Option<nat>)
    requires from <= |s|
    ensures r.Some? ==> r.value >= from && OccursAt(s, m, r.value) && forall j | from <= j < r.value :: !OccursAt(s, m, j)
    ensures r.None? ==> forall k | k >= from :: !OccursAt(s, m, k)
    decreases |s| - from
  {
    if OccursAt(s, m, from) then Some(from)
    else if from < |s| then Find(s, m, from + 1)
    else None
  }

  /** s.replace(m, with, 1) */
  function ReplaceFirst(s: string, m: string, with: string): string {
    match Find(s, m, 0)
    case Some(k) => s[..k] + with + s[k + |m|..]
    case None => s
  }

  /** s.replace("", with) puts `with` around every character. */
  function Interleaved(s: string, with: string): string {
    if |s| == 0 then with else with + [s[0]] + Interleaved(s[1..], with)
  }

  /** s.replace(m, with): occurrences are taken from the left and do not overlap. */
  function ReplaceAll(s: string, m: string, with: string): string
    decreases |s|
  {
    if |m| == 0 then Interleaved(s, with)
    else if |s| < |m| then s
    else if s[..|m|] == m then with + ReplaceAll(s[|m|..], m, with)
    else [s[0]] + ReplaceAll(s[1..], m, with)
  }

  /** The empty string is replaced in front of every character and at the end. */
  lemma {:induction false} InterleavedMore(s: string, c: char, with: string)
    ensures ReplaceAll("", "", with) == with
    ensures ReplaceAll(s + [c], "", with) == ReplaceAll(s, "", with) + [c] + with
  {
    if |s| == 0 {
      assert (s + [c])[1..] == "";
    } else {
      InterleavedMore(s[1..], c, with);
      assert (s + [c])[1..] == s[1..] + [c];
      Regroup(with + [s[0]], ReplaceAll(s[1..], "", with), [c] + with);
      Regroup(ReplaceAll(s[1..], "", with), [c], with);
      Regroup(ReplaceAll(s, "", with), [c], with);
    }
  }

  lemma OccursLater(s: string, m: string, from: nat, k: nat)
    requires from <= |s|
    ensures OccursAt(s[from..], m, k) <==> OccursAt(s, m, from + k)
  {
    if from + k + |m| <= |s| {
      assert s[from + k..from + k + |m|] == s[from..][k..k + |m|];
    }
  }

  predicate NotBefore(s: string, m: string, k: nat) {
    forall j | 0 <= j < k :: !OccursAt(s, m, j)
  }

  lemma ReplaceAtFront(s: string, m: string, with: string)
    requires |m| > 0 && OccursAt(s, m, 0)
    ensures ReplaceAll(s, m, with) == with + ReplaceAll(s[|m|..], m, with)
  {
    assert s[..|m|] == s[0..0 + |m|];
  }

  lemma ReplaceBehind(s: string, m: string, with: string)
    requires |m| > 0 && |s| > 0 && !OccursAt(s, m, 0)
    ensures ReplaceAll(s, m, with) == [s[0]] + ReplaceAll(s[1..], m, with)
  {
    assert |s| >= |m| ==> s[..|m|] == s[0..0 + |m|];
  }

  lemma SliceOfSlice(s: string, j: nat, k: nat)
    requires j + k <= |s|
    ensures s[j..][k..] == s[j + k..]
  {
  }

  lemma {:induction false} ReplaceSkipsTo(s: string, m: string, with: string, k: nat)
    requires |m| > 0 && k <= |s| && NotBefore(s, m, k)
    ensures ReplaceAll(s, m, with) == s[..k] + ReplaceAll(s[k..], m, with)
    decreases k
  {
    if k == 0 {
      assert s[..0] + ReplaceAll(s, m, with) == ReplaceAll(s, m, with) && s[0..] == s;
    } else {
      var rest := s[k - 1..];
      ReplaceSkipsTo(s, m, with, k - 1);
      OccursLater(s, m, k - 1, 0);
      ReplaceBehind(rest, m, with);
      SliceOfSlice(s, k - 1, 1);
      Regroup(s[..k - 1], [s[k - 1]], ReplaceAll(s[k..], m, with));
      assert s[..k] == s[..k - 1] + [s[k - 1]];
    }
  }

  /** Any other string is replaced where it first occurs, and then behind that. */
  lemma ReplacesEach(s: string, m: string, with: string, k: nat)
    requires |m| > 0 && OccursAt(s, m, k) && NotBefore(s, m, k)
    ensures ReplaceAll(s, m, with) == s[..k] + with + ReplaceAll(s[k + |m|..], m, with)
  {
    ReplaceSkipsTo(s, m, with, k);
    OccursLater(s, m, k, 0);
    ReplaceAtFront(s[k..], m, with);
    SliceOfSlice(s, k, |m|);
    Regroup(s[..k], with, ReplaceAll(s[k + |m|..], m, with));
  }

  /** Where it does not occur nothing changes. */
  lemma {:induction false} ReplacesNone(s: string, m: string, with: string)
    requires |m| > 0 && !Contains(s, m)
    ensures ReplaceAll(s, m, with) == s
    decreases |s|
  {
    if |s| == 0 {
    } else {
      assert !OccursAt(s, m, 0);
      forall j: nat
        ensures !OccursAt(s[1..], m, j)
      {
        OccursLater(s, m, 1, j);
      }
      ReplaceBehind(s, m, with);
      ReplacesNone(s[1..], m, with);
    }
  }

  /** separator.join(parts) */
  function Join(separator: string, parts: seq<string>): string {
    if |parts| == 0 then ""
    else if |parts| == 1 then parts[0]
    else parts[0] + separator + Join(separator, parts[1..])
  }

  lemma {:induction false} JoinMore(separator: string, parts: seq<string>, part: string)
    requires |parts| > 0
    ensures Join(separator, parts + [part]) == Join(separator, parts) + separator + part
  {
    var all := parts + [part];
    if |parts| == 1 {
      assert all[1..] == [part];
    } else {
      JoinMore(separator, parts[1..], part);
      assert all[1..] == parts[1..] + [part];
    }
  }

  lemma JoinOne(separator: string, part: string)
    ensures Join(separator, [part]) == part
  {
  }

  predicate AsciiDigits(s: string) {
    forall i | 0 <= i < |s| :: '0' <= s[i] <= '9'
  }

  /** str(n) for a count. */
  function Decimal(n: nat): (s: string)
    ensures |s| > 0 && AsciiDigits(s)
  {
    if n < 10 then [('0' as int + n) as char] else Decimal(n / 10) + [('0' as int + n % 10) as char]
  }

  function DecimalValue(s: string): nat
    requires AsciiDigits(s)
  {
    if |s| == 0 then 0 else DecimalValue(s[..|s| - 1]) * 10 + (s[|s| - 1] as int - '0' as int)
  }

  lemma {:induction false} DecimalRoundTrip(n: nat)
    ensures DecimalValue(Decimal(n)) == n
  {
    if n >= 10 {
      DecimalRoundTrip(n / 10);
      var s := Decimal(n);
      assert s[..|s| - 1] == Decimal(n / 10);
    } else {
      assert Decimal(n)[..0] == "";
    }
  }

  function TenTo(k: nat): nat {
    if k == 0 then 1 else 10 * TenTo(k - 1)
  }

  lemma {:induction false} DecimalLength(n: nat, digits: nat)
    requires digits >= 1 && n < TenTo(digits)
    ensures |Decimal(n)| <= digits
  {
    if n >= 10 {
      assert digits > 1 by {
        assert TenTo(1) == 10 * TenTo(0);
      }
      DecimalLength(n / 10, digits - 1);
    }
  }

  /** str.isspace for a character, as str.strip and \s use it. */
  predicate IsSpace(c: char) {
    var n := c as int;
    || 9 <= n <= 13 || 28 <= n <= 32 || n == 0x85 || n == 0xA0 || n == 0x1680 || 0x2000 <= n <= 0x200A
    || n == 0x2028 || n == 0x2029 || n == 0x202F || n == 0x205F || n == 0x3000
  }

  /** What str.isspace takes for whitespace, one by one. */
  lemma SpacesAre(c: char)
    ensures IsSpace(c) <==>
              c as int in {0x09, 0x0A, 0x0B, 0x0C, 0x0D, 0x1C, 0x1D, 0x1E, 0x1F, 0x20, 0x85, 0xA0, 0x1680,
                           0x2000, 0x2001, 0x2002, 0x2003, 0x2004, 0x2005, 0x2006, 0x2007, 0x2008, 0x2009, 0x200A,
                           0x2028, 0x2029, 0x202F, 0x205F, 0x3000}
  {
  }

  function LeftStrip(s: string): string {
    if |s| > 0 && IsSpace(s[0]) then LeftStrip(s[1..]) else s
  }

  function RightStrip(s: string): string {
    if |s| > 0 && IsSpace(s[|s| - 1]) then RightStrip(s[..|s| - 1]) else s
  }

  function Strip(s: string): string {
    RightStrip(LeftStrip(s))
  }

  predicate SpaceTo(s: string, end: nat)
    requires end <= |s|
  {
    forall i | 0 <= i < end :: IsSpace(s[i])
  }

  predicate SpaceFrom(s: string, start: nat) {
    forall i | start <= i < |s| :: IsSpace(s[i])
  }

  /** s is its own strip: it has no whitespace at either end. */
  predicate Trimmed(s: string) {
    |s| > 0 ==> !IsSpace(s[0]) && !IsSpace(s[|s| - 1])
  }

  lemma {:induction false} LeftStripCuts(s: string)
    ensures var r := LeftStrip(s);
            |r| <= |s| && s[|s| - |r|..] == r && SpaceTo(s, |s| - |r|) && (|r| > 0 ==> !IsSpace(r[0]))
  {
    if |s| > 0 && IsSpace(s[0]) {
      LeftStripCuts(s[1..]);
      var r := LeftStrip(s[1..]);
      assert forall i | 1 <= i < |s| - |r| :: s[i] == s[1..][i - 1];
    }
  }

  lemma {:induction false} RightStripCuts(s: string)
    ensures var r := RightStrip(s);
            |r| <= |s| && s[..|r|] == r && SpaceFrom(s, |r|) && (|r| > 0 ==> !IsSpace(r[|r| - 1]))
  {
    if |s| > 0 && IsSpace(s[|s| - 1]) {
      RightStripCuts(s[..|s| - 1]);
      assert forall i | 0 <= i < |s| - 1 :: s[i] == s[..|s| - 1][i];
    }
  }

  /** Stripping cuts whitespace off both ends and nothing else. */
  lemma StripCuts(s: string) returns (lead: nat)
    ensures var r := Strip(s);
            && lead + |r| <= |s| && s[lead..lead + |r|] == r && Trimmed(r)
            && SpaceTo(s, lead) && SpaceFrom(s, lead + |r|)
  {
    LeftStripCuts(s);
    var l := LeftStrip(s);
    RightStripCuts(l);
    lead := |s| - |l|;
    CutsAdd(s, lead, |Strip(s)|);
  }

  lemma CutsAdd(s: string, lead: nat, n: nat)
    requires lead + n <= |s| && SpaceFrom(s[lead..], n)
    ensures s[lead..lead + n] == s[lead..][..n] && SpaceFrom(s, lead + n)
  {
    assert forall i | lead <= i < |s| :: s[i] == s[lead..][i - lead];
  }

  lemma StripOfTrimmed(s: string)
    requires Trimmed(s)
    ensures Strip(s) == s
  {
  }

  lemma StripTwice(s: string)
    ensures Strip(Strip(s)) == Strip(s) && Trimmed(Strip(s))
  {
    var lead := StripCuts(s);
    StripOfTrimmed(Strip(s));
  }
}
