/** How redaction and restoration look on a text cut into tokens: single characters of the
    original, and holes that stand for redacted matches. Filling the holes with placeholders
    gives the redacted text, filling them with the matches gives the original. Replacing a
    placeholder in the text is then a substitution among the tokens, since no placeholder
    begins inside another and no match reaches into one. */
module RedactorTokens {
  import opened PythonText
  import opened Patterns

  datatype Tok = Ch(c: char) | Hole(i: nat)

  predicate HolesIn(ts: seq<Tok>, lo: nat, hi: nat) {
    forall k | 0 <= k < |ts| :: ts[k].Hole? ==> lo <= ts[k].i < hi
  }

  function Piece(t: Tok, fills: seq<string>): string {
    match t
    case Ch(c) => [c]
    case Hole(i) => if i < |fills| then fills[i] else ""
  }

  function Fill(ts: seq<Tok>, fills: seq<string>): string {
    if |ts| == 0 then "" else Piece(ts[0], fills) + Fill(ts[1..], fills)
  }

  function Plain(s: string): (ts: seq<Tok>)
    ensures |ts| == |s| && forall k | 0 <= k < |s| :: ts[k] == Ch(s[k])
  {
    seq(|s|, k requires 0 <= k < |s| => Ch(s[k]))
  }

  lemma {:induction false} FillAppend(a: seq<Tok>, b: seq<Tok>, fills: seq<string>)
    ensures Fill(a + b, fills) == Fill(a, fills) + Fill(b, fills)
  {
    if |a| == 0 {
      assert a + b == b;
    } else {
      FillAppend(a[1..], b, fills);
      assert (a + b)[1..] == a[1..] + b;
      Regroup(Piece(a[0], fills), Fill(a[1..], fills), Fill(b, fills));
    }
  }

  lemma {:induction false} FillPlain(s: string, fills: seq<string>)
    ensures Fill(Plain(s), fills) == s
  {
    if |s| == 0 {
    } else {
      FillPlain(s[1..], fills);
      assert Plain(s)[1..] == Plain(s[1..]);
    }
  }

  lemma {:induction false} FillMore(ts: seq<Tok>, fills: seq<string>, more: seq<string>)
    requires HolesIn(ts, 0, |fills|)
    ensures Fill(ts, fills + more) == Fill(ts, fills)
  {
    if |ts| == 0 {
    } else {
      FillMore(ts[1..], fills, more);
    }
  }

  // ---- Brackets ----

  /** Opens with '[', closes with ']', and has no bracket in between. */
  predicate Bracketed(p: string) {
    |p| >= 2 && p[0] == '[' && p[|p| - 1] == ']' && NoBrackets(p[1..|p| - 1])
  }

  lemma BracketedInside(p: string, k: nat)
    requires Bracketed(p) && k < |p|
    ensures (p[k] == '[' <==> k == 0) && (p[k] == ']' <==> k == |p| - 1)
  {
    if 0 < k < |p| - 1 {
      assert p[k] == p[1..|p| - 1][k - 1];
    }
  }

  lemma NoLeftInside(p: string)
    requires Bracketed(p)
    ensures '[' !in p[1..]
  {
    forall k | 0 <= k < |p| - 1
      ensures p[1..][k] != '['
    {
      BracketedInside(p, k + 1);
    }
  }

  /** Two bracketed strings at the same place are the same string. */
  lemma BracketedSame(p: string, q: string, rest: string)
    requires Bracketed(p) && Bracketed(q) && |p| <= |q + rest| && (q + rest)[..|p|] == p
    ensures p == q
  {
    var k := if |q| <= |p| then |q| - 1 else |p| - 1;
    assert p[k] == (q + rest)[k] == q[k];
    BracketedInside(p, k);
    BracketedInside(q, k);
    assert p == (q + rest)[..|q|];
  }

  // ---- Where a match sits ----

  /** A match found at the front of a filled text is made of characters only. */
  lemma {:induction false} FrontIsPlain(ts: seq<Tok>, keys: seq<string>, m: string)
    requires forall i | 0 <= i < |keys| :: Bracketed(keys[i])
    requires HolesIn(ts, 0, |keys|) && '[' !in m
    requires |m| <= |Fill(ts, keys)| && Fill(ts, keys)[..|m|] == m
    ensures Plain(m) <= ts
  {
    if |m| == 0 {
    } else {
      var text := Fill(ts, keys);
      assert text[0] == m[0] && m[0] in m;
      assert ts[0].Ch?;
      assert text[1..] == Fill(ts[1..], keys);
      assert text[..|m|][1..] == text[1..][..|m| - 1];
      FrontIsPlain(ts[1..], keys, m[1..]);
      assert ts == [ts[0]] + ts[1..];
    }
  }

  /** A match found anywhere in a filled text: its place among the tokens. */
  lemma {:induction false} Locate(ts: seq<Tok>, keys: seq<string>, m: string, k: nat) returns (j: nat)
    requires forall i | 0 <= i < |keys| :: Bracketed(keys[i]) && !Contains(keys[i], m)
    requires HolesIn(ts, 0, |keys|) && |m| > 0 && NoBrackets(m)
    requires OccursAt(Fill(ts, keys), m, k)
    ensures j + |m| <= |ts| && ts[j..j + |m|] == Plain(m) && |Fill(ts[..j], keys)| == k
  {
    if k == 0 {
      FrontIsPlain(ts, keys, m);
      j := 0;
    } else {
      var piece := Piece(ts[0], keys);
      var rest := Fill(ts[1..], keys);
      if k < |piece| {
        assert ts[0].Hole? && Bracketed(piece);
        NotAcross(piece, rest, m, k);
      }
      OccursBehind(piece, rest, m, k);
      var behind := Locate(ts[1..], keys, m, k - |piece|);
      j := behind + 1;
      OneTokenOn(ts, keys, behind, |m|);
    }
  }

  lemma OccursBehind(piece: string, rest: string, m: string, k: nat)
    requires OccursAt(piece + rest, m, k) && k >= |piece|
    ensures OccursAt(rest, m, k - |piece|)
  {
    assert (piece + rest)[k..k + |m|] == rest[k - |piece|..k - |piece| + |m|];
  }

  lemma OneTokenOn(ts: seq<Tok>, keys: seq<string>, j: nat, n: nat)
    requires |ts| > 0 && j + n <= |ts| - 1
    ensures ts[j + 1..j + 1 + n] == ts[1..][j..j + n]
    ensures Fill(ts[..j + 1], keys) == Piece(ts[0], keys) + Fill(ts[1..][..j], keys)
  {
    assert ts[..j + 1][1..] == ts[1..][..j];
  }

  /** A bracketless string cannot begin inside a placeholder, unless it is part of it. */
  lemma NotAcross(key: string, rest: string, m: string, k: nat)
    requires Bracketed(key) && 0 < k < |key| && |m| > 0 && NoBrackets(m) && !Contains(key, m)
    ensures !OccursAt(key + rest, m, k)
  {
    var text := key + rest;
    if k + |m| <= |key| {
      assert text[k..k + |m|] == key[k..k + |m|];
      assert !OccursAt(key, m, k);
    } else if k + |m| <= |text| {
      assert text[k..k + |m|][|key| - 1 - k] == ']';
      assert m[|key| - 1 - k] in m;
    }
  }

  // ---- Replacing a placeholder everywhere ----

  /** What replacing `key` by `with` does to the tokens, when hole i stands for `key`. */
  function Subst(ts: seq<Tok>, i: nat, key: string, with: string): seq<Tok>
    requires |key| > 0
    decreases |ts|
  {
    if |ts| == 0 then []
    else if ts[0] == Hole(i) then Plain(with) + Subst(ts[1..], i, key, with)
    else if Plain(key) <= ts then Plain(with) + Subst(ts[|key|..], i, key, with)
    else [ts[0]] + Subst(ts[1..], i, key, with)
  }

  lemma NoMatchHere(head: string, rest: string, key: string)
    requires Bracketed(key) && |head| > 0 && '[' !in head
    ensures |head + rest| < |key| || (head + rest)[..|key|] != key
  {
    var text := head + rest;
    assert head[0] in head;
    assert |text| >= |key| ==> text[..|key|][0] == text[0];
  }

  lemma {:induction false} ReplaceSkips(head: string, rest: string, key: string, with: string)
    requires Bracketed(key) && '[' !in head
    ensures ReplaceAll(head + rest, key, with) == head + ReplaceAll(rest, key, with)
  {
    if |head| == 0 {
      assert head + rest == rest;
    } else {
      NoMatchHere(head, rest, key);
      ReplaceStep(head + rest, key, with);
      ReplaceSkips(head[1..], rest, key, with);
      assert (head + rest)[1..] == head[1..] + rest;
      Regroup([head[0]], head[1..], ReplaceAll(rest, key, with));
      assert head == [head[0]] + head[1..];
    }
  }

  lemma ReplaceStep(text: string, key: string, with: string)
    requires |key| > 0 && |text| > 0 && (|text| < |key| || text[..|key|] != key)
    ensures ReplaceAll(text, key, with) == [text[0]] + ReplaceAll(text[1..], key, with)
  {
  }

  lemma ReplaceSkipsOther(other: string, rest: string, key: string, with: string)
    requires Bracketed(key) && Bracketed(other) && key != other
    ensures ReplaceAll(other + rest, key, with) == other + ReplaceAll(rest, key, with)
  {
    var text := other + rest;
    if |text| >= |key| && text[..|key|] == key {
      BracketedSame(key, other, rest);
    }
    ReplaceStep(text, key, with);
    assert text[1..] == other[1..] + rest;
    NoLeftInside(other);
    ReplaceSkips(other[1..], rest, key, with);
    assert other == [other[0]] + other[1..];
    Regroup([other[0]], other[1..], ReplaceAll(rest, key, with));
  }

  lemma ReplaceFront(key: string, rest: string, with: string)
    requires |key| > 0
    ensures ReplaceAll(key + rest, key, with) == with + ReplaceAll(rest, key, with)
  {
    assert (key + rest)[..|key|] == key && (key + rest)[|key|..] == rest;
  }

  predicate Distinct(keys: seq<string>) {
    forall i, j | 0 <= i < j < |keys| :: keys[i] != keys[j]
  }

  /** Replacing a placeholder in the filled text is substituting it in the tokens. */
  lemma {:induction false} ReplaceIsSubst(ts: seq<Tok>, keys: seq<string>, i: nat, key: string, with: string)
    requires forall j | 0 <= j < |keys| :: Bracketed(keys[j])
    requires Distinct(keys) && HolesIn(ts, 0, |keys|) && i < |keys| && key == keys[i] && Bracketed(key)
    ensures ReplaceAll(Fill(ts, keys), key, with) == Fill(Subst(ts, i, key, with), keys)
    decreases |ts|
  {
    if |ts| == 0 {
    } else {
      var rest := Fill(ts[1..], keys);
      if ts[0] == Hole(i) {
        ReplaceIsSubst(ts[1..], keys, i, key, with);
        ReplaceFront(key, rest, with);
        FillAppend(Plain(with), Subst(ts[1..], i, key, with), keys);
        FillPlain(with, keys);
      } else if Plain(key) <= ts {
        ReplaceIsSubst(ts[|key|..], keys, i, key, with);
        ReplaceRun(ts, keys, i, key, with);
      } else if ts[0].Hole? {
        ReplaceIsSubst(ts[1..], keys, i, key, with);
        ReplaceSkipsOther(keys[ts[0].i], rest, key, with);
      } else {
        ReplaceIsSubst(ts[1..], keys, i, key, with);
        ReplaceChar(ts, keys, i, with);
      }
    }
  }

  lemma ReplaceRun(ts: seq<Tok>, keys: seq<string>, i: nat, key: string, with: string)
    requires Bracketed(key) && Plain(key) <= ts
    requires ReplaceAll(Fill(ts[|key|..], keys), key, with) == Fill(Subst(ts[|key|..], i, key, with), keys)
    ensures ReplaceAll(Fill(ts, keys), key, with) == Fill(Subst(ts, i, key, with), keys)
  {
    var tail := ts[|key|..];
    assert ts[0] == Plain(key)[0];
    assert ts == Plain(key) + tail;
    FillAppend(Plain(key), tail, keys);
    FillPlain(key, keys);
    ReplaceFront(key, Fill(tail, keys), with);
    FillAppend(Plain(with), Subst(tail, i, key, with), keys);
    FillPlain(with, keys);
  }

  /** A placeholder read off the front of a filled text whose first token is a character. */
  lemma KeyFromCharacter(ts: seq<Tok>, keys: seq<string>, key: string)
    requires forall j | 0 <= j < |keys| :: Bracketed(keys[j])
    requires HolesIn(ts, 0, |keys|) && Bracketed(key) && |ts| > 0 && ts[0].Ch?
    requires |key| <= |Fill(ts, keys)| && Fill(ts, keys)[..|key|] == key
    ensures Plain(key) <= ts
  {
    var text := Fill(ts, keys);
    assert text[1..] == Fill(ts[1..], keys);
    NoLeftInside(key);
    assert text[..|key|][1..] == text[1..][..|key| - 1];
    FrontIsPlain(ts[1..], keys, key[1..]);
    assert ts == [ts[0]] + ts[1..];
  }

  lemma ReplaceChar(ts: seq<Tok>, keys: seq<string>, i: nat, with: string)
    requires forall j | 0 <= j < |keys| :: Bracketed(keys[j])
    requires HolesIn(ts, 0, |keys|) && i < |keys| && |ts| > 0 && ts[0].Ch? && !(Plain(keys[i]) <= ts)
    ensures var text := Fill(ts, keys);
            ReplaceAll(text, keys[i], with) == [ts[0].c] + ReplaceAll(Fill(ts[1..], keys), keys[i], with)
  {
    var text := Fill(ts, keys);
    assert text[1..] == Fill(ts[1..], keys);
    if |text| >= |keys[i]| && text[..|keys[i]|] == keys[i] {
      KeyFromCharacter(ts, keys, keys[i]);
    }
  }
}
