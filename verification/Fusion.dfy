/** Reciprocal rank fusion and hybrid search, of app/retrieval/search.py. Scores are exact. */
module Fusion {
  import opened Domain

  type Id = nat

  /** `document` is the title of the chunk's document where that is known; no heading is "". */
  datatype Chunk = Chunk(id: Id, heading: string, content: string, document: Option<string>)

  datatype Found = FullText | Vector | HybridRrf

  datatype SearchResult = SearchResult(chunk: Chunk, score: real, found: Found, documentTitle: Option<string>)

  const DEFAULT_K: nat := 60

  /** What a result at this rank, counted from zero, adds to the score of its chunk. */
  function Gain(k: nat, rank: nat): real {
    1.0 / (k + rank + 1) as real
  }

  // ---- What was found, in the order it is met ----

  datatype Votes = NoVotes | Vote(before: Votes, rank: nat, result: SearchResult)

  function AddResults(votes: Votes, results: seq<SearchResult>, n: nat): Votes
    requires n <= |results|
  {
    if n == 0 then votes else Vote(AddResults(votes, results, n - 1), n - 1, results[n - 1])
  }

  function VotesOf(lists: seq<seq<SearchResult>>, m: nat): Votes
    requires m <= |lists|
  {
    if m == 0 then NoVotes else AddResults(VotesOf(lists, m - 1), lists[m - 1], |lists[m - 1]|)
  }

  function AllVotes(lists: seq<seq<SearchResult>>): Votes {
    VotesOf(lists, |lists|)
  }

  predicate Seen(votes: Votes, id: Id) {
    votes.Vote? && (votes.result.chunk.id == id || Seen(votes.before, id))
  }

  function Size(votes: Votes): nat {
    if votes.NoVotes? then 0 else Size(votes.before) + 1
  }

  /** The sum of 1/(k + rank + 1) over the appearances of a chunk. */
  function Score(votes: Votes, id: Id, k: nat): real {
    if votes.NoVotes? then 0.0
    else if votes.result.chunk.id == id then Score(votes.before, id, k) + Gain(k, votes.rank)
    else Score(votes.before, id, k)
  }

  /** When a chunk was first met, and as what. */
  function FirstAt(votes: Votes, id: Id): nat {
    if votes.NoVotes? then 0
    else if Seen(votes.before, id) then FirstAt(votes.before, id)
    else Size(votes.before)
  }

  function FirstResult(votes: Votes, id: Id): SearchResult
    requires Seen(votes, id)
  {
    if Seen(votes.before, id) then FirstResult(votes.before, id) else votes.result
  }

  // ---- What a fusion is ----

  /** a comes before b: by score, and by first appearance where the scores are equal. */
  predicate Above(votes: Votes, k: nat, a: Id, b: Id) {
    Score(votes, a, k) > Score(votes, b, k)
    || (Score(votes, a, k) == Score(votes, b, k) && FirstAt(votes, a) < FirstAt(votes, b))
  }

  predicate Ranked(votes: Votes, k: nat, ids: seq<Id>) {
    forall i, j | 0 <= i < j < |ids| :: Above(votes, k, ids[i], ids[j])
  }

  ghost predicate ListsSeen(votes: Votes, ids: seq<Id>) {
    (forall i | 0 <= i < |ids| :: Seen(votes, ids[i])) && (forall id | Seen(votes, id) :: id in ids)
  }

  function FusedResult(votes: Votes, k: nat, id: Id): SearchResult
    requires Seen(votes, id)
  {
    var first := FirstResult(votes, id);
    SearchResult(first.chunk, Score(votes, id, k), HybridRrf, first.documentTitle)
  }

  /** The results for these chunks, in this order. */
  predicate ResultsFor(votes: Votes, k: nat, ids: seq<Id>, fused: seq<SearchResult>) {
    |fused| == |ids|
    && forall i | 0 <= i < |ids| :: Seen(votes, ids[i]) && fused[i] == FusedResult(votes, k, ids[i])
  }

  ghost predicate IsFusion(votes: Votes, k: nat, fused: seq<SearchResult>) {
    exists ids :: ListsSeen(votes, ids) && Ranked(votes, k, ids) && ResultsFor(votes, k, ids, fused)
  }

  lemma {:induction false} FirstAtBound(votes: Votes, id: Id)
    requires Seen(votes, id)
    ensures FirstAt(votes, id) < Size(votes)
  {
    if Seen(votes.before, id) {
      FirstAtBound(votes.before, id);
    }
  }

  lemma {:induction false} SameRanking(votes: Votes, k: nat, p: seq<Id>, q: seq<Id>)
    requires Ranked(votes, k, p) && Ranked(votes, k, q)
    requires forall id :: id in p <==> id in q
    ensures p == q
    decreases |p|
  {
    if |p| == 0 {
      SomeMember(q);
    } else {
      assert p[0] in q;
      SameFirst(votes, k, p, q);
      SameRest(votes, k, p, q);
      SameRest(votes, k, q, p);
      SameRanking(votes, k, p[1..], q[1..]);
      assert p == [p[0]] + p[1..] && q == [q[0]] + q[1..];
    }
  }

  lemma SomeMember(ids: seq<Id>)
    ensures ids == [] || exists id :: id in ids
  {
    assert ids == [] || ids[0] in ids;
  }

  lemma SameFirst(votes: Votes, k: nat, p: seq<Id>, q: seq<Id>)
    requires Ranked(votes, k, p) && Ranked(votes, k, q) && |p| > 0 && |q| > 0
    requires p[0] in q && q[0] in p
    ensures p[0] == q[0]
  {
    var i :| 0 <= i < |p| && p[i] == q[0];
    var j :| 0 <= j < |q| && q[j] == p[0];
    assert i > 0 ==> Above(votes, k, p[0], p[i]);
    assert j > 0 ==> Above(votes, k, q[0], q[j]);
  }

  lemma SameRest(votes: Votes, k: nat, p: seq<Id>, q: seq<Id>)
    requires Ranked(votes, k, p) && |p| > 0 && |q| > 0 && p[0] == q[0]
    requires forall id :: id in p ==> id in q
    ensures forall id :: id in p[1..] ==> id in q[1..]
    ensures Ranked(votes, k, p[1..])
  {
    forall id | id in p[1..]
      ensures id in q[1..]
    {
      var i :| 1 <= i < |p| && p[i] == id;
      assert Above(votes, k, p[0], p[i]);
      assert id in q;
    }
  }

  /** What was found and k determine the fused list. */
  lemma FusionUnique(votes: Votes, k: nat, f: seq<SearchResult>, g: seq<SearchResult>)
    requires IsFusion(votes, k, f) && IsFusion(votes, k, g)
    ensures f == g
  {
    var p :| ListsSeen(votes, p) && Ranked(votes, k, p) && ResultsFor(votes, k, p, f);
    var q :| ListsSeen(votes, q) && Ranked(votes, k, q) && ResultsFor(votes, k, q, g);
    SameRanking(votes, k, p, q);
  }

  // ---- The algorithm ----

  /** A dictionary from chunk to score, with its keys in the order they were entered. */
  datatype Scores = Scores(keys: seq<Id>, values: map<Id, real>) {
    predicate Valid() {
      forall i | 0 <= i < |keys| :: keys[i] in values
    }
  }

  ghost predicate ScoresTallied(votes: Votes, k: nat, values: map<Id, real>) {
    && (forall id :: id in values <==> Seen(votes, id))
    && (forall id | id in values :: values[id] == Score(votes, id, k))
  }

  ghost predicate FirstsTallied(votes: Votes, firsts: map<Id, SearchResult>) {
    && (forall id :: id in firsts <==> Seen(votes, id))
    && (forall id | id in firsts :: firsts[id] == FirstResult(votes, id))
  }

  ghost predicate KeysTallied(votes: Votes, keys: seq<Id>) {
    && ListsSeen(votes, keys)
    && (forall i, j | 0 <= i < j < |keys| :: FirstAt(votes, keys[i]) < FirstAt(votes, keys[j]))
  }

  /** What the votes so far must have left in the dictionaries. */
  ghost predicate Tallied(votes: Votes, k: nat, scores: Scores, firsts: map<Id, SearchResult>) {
    ScoresTallied(votes, k, scores.values) && KeysTallied(votes, scores.keys) && FirstsTallied(votes, firsts)
  }

  lemma {:induction false} UnseenScoresNothing(votes: Votes, id: Id, k: nat)
    requires !Seen(votes, id)
    ensures Score(votes, id, k) == 0.0
  {
    if votes.NoVotes? {
    } else {
      UnseenScoresNothing(votes.before, id, k);
    }
  }

  method Tally(ghost votes: Votes, k: nat, scores: Scores, firsts: map<Id, SearchResult>, rank: nat, result: SearchResult)
    returns (newScores: Scores, newFirsts: map<Id, SearchResult>)
    requires Tallied(votes, k, scores, firsts)
    ensures Tallied(Vote(votes, rank, result), k, newScores, newFirsts)
  {
    var id := result.chunk.id;
    var before := if id in scores.values then scores.values[id] else 0.0;
    var keys := if id in scores.values then scores.keys else scores.keys + [id];
    var values := scores.values[id := before + 1.0 / (k + rank + 1) as real];
    newScores := Scores(keys, values);
    newFirsts := if id in firsts then firsts else firsts[id := result];
    ScoresGrow(votes, k, scores.values, rank, result, values);
    FirstsGrow(votes, firsts, rank, result, newFirsts);
    KeysGrow(votes, scores.keys, rank, result, keys);
  }

  lemma ScoresGrow(votes: Votes, k: nat, values: map<Id, real>, rank: nat, result: SearchResult, newValues: map<Id, real>)
    requires ScoresTallied(votes, k, values)
    requires var id := result.chunk.id;
             newValues == values[id := (if id in values then values[id] else 0.0) + Gain(k, rank)]
    ensures ScoresTallied(Vote(votes, rank, result), k, newValues)
  {
    if !Seen(votes, result.chunk.id) {
      UnseenScoresNothing(votes, result.chunk.id, k);
    }
  }

  lemma FirstsGrow(votes: Votes, firsts: map<Id, SearchResult>, rank: nat, result: SearchResult, newFirsts: map<Id, SearchResult>)
    requires FirstsTallied(votes, firsts)
    requires newFirsts == if result.chunk.id in firsts then firsts else firsts[result.chunk.id := result]
    ensures FirstsTallied(Vote(votes, rank, result), newFirsts)
  {
  }

  lemma KeysGrow(votes: Votes, keys: seq<Id>, rank: nat, result: SearchResult, newKeys: seq<Id>)
    requires KeysTallied(votes, keys)
    requires newKeys == if Seen(votes, result.chunk.id) then keys else keys + [result.chunk.id]
    ensures KeysTallied(Vote(votes, rank, result), newKeys)
  {
    var after := Vote(votes, rank, result);
    forall i | 0 <= i < |keys|
      ensures FirstAt(after, keys[i]) == FirstAt(votes, keys[i]) < Size(votes)
    {
      FirstAtBound(votes, keys[i]);
    }
    forall id | Seen(after, id)
      ensures id in newKeys
    {
      if id == result.chunk.id && !Seen(votes, id) {
        assert newKeys[|keys|] == id;
      } else {
        assert id in keys;
      }
    }
  }

  /** sorted(..., reverse=True) keeps the order of equal keys: each goes behind all that
      score no less. */
  function InsertDescending(sorted: seq<Id>, id: Id, values: map<Id, real>): seq<Id>
    requires id in values && forall i | 0 <= i < |sorted| :: sorted[i] in values
  {
    if |sorted| == 0 then [id]
    else if values[sorted[|sorted| - 1]] >= values[id] then sorted + [id]
    else InsertDescending(sorted[..|sorted| - 1], id, values) + [sorted[|sorted| - 1]]
  }

  lemma {:induction false} InsertKeepsMembers(sorted: seq<Id>, id: Id, values: map<Id, real>)
    requires id in values && forall i | 0 <= i < |sorted| :: sorted[i] in values
    ensures forall x :: x in InsertDescending(sorted, id, values) <==> x == id || x in sorted
  {
    if |sorted| > 0 && values[sorted[|sorted| - 1]] < values[id] {
      InsertKeepsMembers(sorted[..|sorted| - 1], id, values);
      assert sorted == sorted[..|sorted| - 1] + [sorted[|sorted| - 1]];
    }
  }

  lemma {:induction false} InsertKeepsRanked(votes: Votes, k: nat, sorted: seq<Id>, id: Id, values: map<Id, real>)
    requires id in values && forall i | 0 <= i < |sorted| :: sorted[i] in values
    requires forall x | x in values :: values[x] == Score(votes, x, k)
    requires Ranked(votes, k, sorted)
    requires forall i | 0 <= i < |sorted| :: FirstAt(votes, sorted[i]) < FirstAt(votes, id)
    ensures Ranked(votes, k, InsertDescending(sorted, id, values))
  {
    if |sorted| == 0 {
    } else {
      var n := |sorted| - 1;
      var last := sorted[n];
      if values[last] >= values[id] {
        forall i | 0 <= i < |sorted|
          ensures Above(votes, k, sorted[i], id)
        {
          assert i < n ==> Above(votes, k, sorted[i], last);
        }
      } else {
        InsertKeepsRanked(votes, k, sorted[..n], id, values);
        InsertKeepsMembers(sorted[..n], id, values);
        var front := InsertDescending(sorted[..n], id, values);
        forall i | 0 <= i < |front|
          ensures Above(votes, k, front[i], last)
        {
          if front[i] != id {
            assert front[i] in front;
            var j :| 0 <= j < n && sorted[j] == front[i];
            assert Above(votes, k, sorted[j], last);
          }
        }
      }
    }
  }

  method SortByScore(ghost votes: Votes, ghost k: nat, scores: Scores) returns (sorted: seq<Id>)
    requires scores.Valid() && forall x | x in scores.values :: scores.values[x] == Score(votes, x, k)
    requires forall i, j | 0 <= i < j < |scores.keys| :: FirstAt(votes, scores.keys[i]) < FirstAt(votes, scores.keys[j])
    ensures Ranked(votes, k, sorted)
    ensures forall x :: x in sorted <==> x in scores.keys
  {
    sorted := [];
    for i := 0 to |scores.keys|
      invariant Ranked(votes, k, sorted)
      invariant forall x :: x in sorted <==> x in scores.keys[..i]
    {
      var id := scores.keys[i];
      forall j | 0 <= j < |sorted|
        ensures sorted[j] in scores.values && FirstAt(votes, sorted[j]) < FirstAt(votes, id)
      {
        assert sorted[j] in sorted;
        var m :| 0 <= m < i && scores.keys[m] == sorted[j];
      }
      InsertKeepsRanked(votes, k, sorted, id, scores.values);
      InsertKeepsMembers(sorted, id, scores.values);
      sorted := InsertDescending(sorted, id, scores.values);
      assert scores.keys[..i + 1] == scores.keys[..i] + [id];
    }
    assert scores.keys[..|scores.keys|] == scores.keys;
  }

  method ReciprocalRankFusion(lists: seq<seq<SearchResult>>, k: nat) returns (fused: seq<SearchResult>)
    ensures IsFusion(AllVotes(lists), k, fused)
  {
    var scores, firsts := Scores([], map[]), map[];
    ghost var votes := NoVotes;
    for m := 0 to |lists|
      invariant votes == VotesOf(lists, m) && Tallied(votes, k, scores, firsts)
    {
      var results := lists[m];
      for rank := 0 to |results|
        invariant votes == AddResults(VotesOf(lists, m), results, rank) && Tallied(votes, k, scores, firsts)
      {
        scores, firsts := Tally(votes, k, scores, firsts, rank, results[rank]);
        votes := Vote(votes, rank, results[rank]);
      }
    }
    var sorted := SortByScore(votes, k, scores);
    fused := [];
    for i := 0 to |sorted|
      invariant |fused| == i
      invariant forall j | 0 <= j < i :: Seen(votes, sorted[j]) && fused[j] == FusedResult(votes, k, sorted[j])
    {
      var id := sorted[i];
      assert id in sorted;
      fused := fused + [SearchResult(firsts[id].chunk, scores.values[id], HybridRrf, firsts[id].documentTitle)];
    }
    assert ListsSeen(votes, sorted);
  }

  // ---- Exactly once, in order ----

  /** Every chunk found is in the result exactly once, with the sum over its appearances for
      a score; scores fall, and equal scores keep the order of first appearance. */
  lemma FusionMeaning(votes: Votes, k: nat, fused: seq<SearchResult>)
    requires IsFusion(votes, k, fused)
    ensures forall id :: Seen(votes, id) <==> exists i :: 0 <= i < |fused| && fused[i].chunk.id == id
    ensures forall i, j | 0 <= i < j < |fused| ::
              && fused[i].chunk.id != fused[j].chunk.id
              && fused[i].score >= fused[j].score
              && (fused[i].score == fused[j].score ==> FirstAt(votes, fused[i].chunk.id) < FirstAt(votes, fused[j].chunk.id))
    ensures forall i | 0 <= i < |fused| :: fused[i].score == Score(votes, fused[i].chunk.id, k)
  {
    var ids :| ListsSeen(votes, ids) && Ranked(votes, k, ids) && ResultsFor(votes, k, ids, fused);
    forall i | 0 <= i < |ids|
      ensures fused[i].chunk.id == ids[i]
    {
      FirstIsOf(votes, ids[i]);
    }
    forall id
      ensures Seen(votes, id) <==> exists i :: 0 <= i < |fused| && fused[i].chunk.id == id
    {
      if Seen(votes, id) {
        var i :| 0 <= i < |ids| && ids[i] == id;
        assert fused[i].chunk.id == id;
      }
    }
    forall i, j | 0 <= i < j < |fused|
      ensures Above(votes, k, fused[i].chunk.id, fused[j].chunk.id)
    {
      assert Above(votes, k, ids[i], ids[j]);
    }
  }

  lemma {:induction false} FirstIsOf(votes: Votes, id: Id)
    requires Seen(votes, id)
    ensures FirstResult(votes, id).chunk.id == id
  {
    if Seen(votes.before, id) {
      FirstIsOf(votes.before, id);
    }
  }

  // ---- Where a result comes from ----

  predicate Earlier(l: nat, r: nat, m: nat, s: nat) {
    l < m || (l == m && r < s)
  }

  /** The first place in the lists, taken one after the other, at which the chunk is. */
  predicate FirstPlace(lists: seq<seq<SearchResult>>, l: nat, r: nat, id: Id) {
    && l < |lists| && r < |lists[l]| && lists[l][r].chunk.id == id
    && forall m, s | 0 <= m < |lists| && 0 <= s < |lists[m]| && Earlier(m, s, l, r) :: lists[m][s].chunk.id != id
  }

  /** The same among the first m lists and n results of the next. */
  predicate FirstPlaceUpTo(lists: seq<seq<SearchResult>>, m: nat, n: nat, l: nat, r: nat, id: Id) {
    FirstPlace(lists, l, r, id) && Earlier(l, r, m, n)
  }

  predicate NoPlaceUpTo(lists: seq<seq<SearchResult>>, m: nat, n: nat, id: Id) {
    forall l, r | 0 <= l < |lists| && 0 <= r < |lists[l]| && Earlier(l, r, m, n) :: lists[l][r].chunk.id != id
  }

  function VotesUpTo(lists: seq<seq<SearchResult>>, m: nat, n: nat): Votes
    requires m < |lists| && n <= |lists[m]|
  {
    AddResults(VotesOf(lists, m), lists[m], n)
  }

  lemma {:induction false} FirstPlaceOf(lists: seq<seq<SearchResult>>, m: nat, n: nat, id: Id) returns (l: nat, r: nat)
    requires m < |lists| && n <= |lists[m]|
    ensures var votes := VotesUpTo(lists, m, n);
            if Seen(votes, id) then FirstPlaceUpTo(lists, m, n, l, r, id) && FirstResult(votes, id) == lists[l][r]
            else NoPlaceUpTo(lists, m, n, id)
    decreases m, n
  {
    l, r := 0, 0;
    if n == 0 {
      if m > 0 {
        l, r := FirstPlaceOf(lists, m - 1, |lists[m - 1]|, id);
      }
    } else {
      l, r := FirstPlaceOf(lists, m, n - 1, id);
      if !Seen(VotesUpTo(lists, m, n - 1), id) && lists[m][n - 1].chunk.id == id {
        l, r := m, n - 1;
      }
    }
  }

  /** Chunk, heading, text and title of a fused result are those of the first place at which
      its chunk was found; only score and method are new. */
  lemma FusedFrom(lists: seq<seq<SearchResult>>, k: nat, fused: seq<SearchResult>, i: nat) returns (l: nat, r: nat)
    requires IsFusion(AllVotes(lists), k, fused) && i < |fused|
    ensures FirstPlace(lists, l, r, fused[i].chunk.id)
    ensures fused[i] == SearchResult(lists[l][r].chunk, fused[i].score, HybridRrf, lists[l][r].documentTitle)
  {
    var id := FusedId(AllVotes(lists), k, fused, i);
    l, r := FirstPlaceSeen(lists, id);
  }

  lemma FusedId(votes: Votes, k: nat, fused: seq<SearchResult>, i: nat) returns (id: Id)
    requires IsFusion(votes, k, fused) && i < |fused|
    ensures Seen(votes, id) && fused[i] == FusedResult(votes, k, id) && FirstResult(votes, id).chunk.id == id
  {
    var ids :| ListsSeen(votes, ids) && Ranked(votes, k, ids) && ResultsFor(votes, k, ids, fused);
    id := ids[i];
    FirstIsOf(votes, id);
  }

  lemma FirstPlaceSeen(lists: seq<seq<SearchResult>>, id: Id) returns (l: nat, r: nat)
    requires Seen(AllVotes(lists), id)
    ensures FirstPlace(lists, l, r, id) && FirstResult(AllVotes(lists), id) == lists[l][r]
  {
    var m := |lists| - 1;
    assert AllVotes(lists) == VotesUpTo(lists, m, |lists[m]|);
    l, r := FirstPlaceOf(lists, m, |lists[m]|, id);
  }

  // ---- Who scores more ----

  /** How often a chunk is among the first n results. */
  function Count(results: seq<SearchResult>, n: nat, id: Id): nat
    requires n <= |results|
  {
    if n == 0 then 0 else Count(results, n - 1, id) + (if results[n - 1].chunk.id == id then 1 else 0)
  }

  function ListScore(results: seq<SearchResult>, n: nat, id: Id, k: nat): real
    requires n <= |results|
  {
    if n == 0 then 0.0
    else ListScore(results, n - 1, id, k) + (if results[n - 1].chunk.id == id then Gain(k, n - 1) else 0.0)
  }

  lemma {:induction false} ScoreOfAdded(votes: Votes, results: seq<SearchResult>, n: nat, id: Id, k: nat)
    requires n <= |results|
    ensures Score(AddResults(votes, results, n), id, k) == Score(votes, id, k) + ListScore(results, n, id, k)
  {
    if n == 0 {
    } else {
      ScoreOfAdded(votes, results, n - 1, id, k);
    }
  }

  lemma GainFalls(k: nat, rank: nat)
    ensures Gain(k, rank) > Gain(k, rank + 1) > 0.0
  {
    var x := (k + rank + 1) as real;
    assert x * (x + 1.0) > 0.0;
    assert 1.0 / x - 1.0 / (x + 1.0) == 1.0 / (x * (x + 1.0));
  }

  /** From the top down, a is never found less often than b. */
  predicate NeverBehind(results: seq<SearchResult>, a: Id, b: Id) {
    forall n | 0 <= n <= |results| :: Count(results, n, a) >= Count(results, n, b)
  }

  predicate Ahead(results: seq<SearchResult>, n: nat, a: Id, b: Id)
    requires n <= |results|
  {
    Count(results, n, a) > Count(results, n, b)
  }

  function Lead(results: seq<SearchResult>, n: nat, a: Id, b: Id): real
    requires n <= |results|
  {
    (Count(results, n, a) - Count(results, n, b)) as real
  }

  function Edge(results: seq<SearchResult>, n: nat, a: Id, b: Id, k: nat): real
    requires n <= |results|
  {
    ListScore(results, n, a, k) - ListScore(results, n, b, k)
  }

  lemma LeadSteps(results: seq<SearchResult>, n: nat, a: Id, b: Id, k: nat)
    requires 0 < n <= |results|
    ensures Edge(results, n, a, b, k) - Gain(k, n - 1) * Lead(results, n, a, b)
            == Edge(results, n - 1, a, b, k) - Gain(k, n - 1) * Lead(results, n - 1, a, b)
  {
    var g := Gain(k, n - 1);
    var step := (if results[n - 1].chunk.id == a then 1.0 else 0.0) - (if results[n - 1].chunk.id == b then 1.0 else 0.0);
    assert Lead(results, n, a, b) == Lead(results, n - 1, a, b) + step;
    assert g * Lead(results, n, a, b) == g * Lead(results, n - 1, a, b) + g * step;
  }

  lemma WorthFalls(more: real, less: real, lead: real)
    requires more > less && lead >= 0.0
    ensures more * lead >= less * lead && (lead > 0.0 ==> more * lead > less * lead)
  {
    assert (more - less) * lead >= 0.0;
  }

  /** The worth of the lead at one rank and the next. */
  lemma EdgeCarries(results: seq<SearchResult>, n: nat, a: Id, b: Id, k: nat)
    requires NeverBehind(results, a, b) && 1 < n <= |results|
    requires Edge(results, n - 1, a, b, k) >= Gain(k, n - 2) * Lead(results, n - 1, a, b)
    ensures Edge(results, n, a, b, k) >= Gain(k, n - 1) * Lead(results, n, a, b)
    ensures Lead(results, n - 1, a, b) > 0.0 || Edge(results, n - 1, a, b, k) > Gain(k, n - 2) * Lead(results, n - 1, a, b) ==>
              Edge(results, n, a, b, k) > Gain(k, n - 1) * Lead(results, n, a, b)
  {
    LeadSteps(results, n, a, b, k);
    GainFalls(k, n - 2);
    NoNegativeLead(results, n - 1, a, b);
    var lead := Lead(results, n - 1, a, b);
    WorthFalls(Gain(k, n - 2), Gain(k, n - 1), lead);
    Carried(Edge(results, n - 1, a, b, k), Gain(k, n - 2) * lead, Gain(k, n - 1) * lead,
            Edge(results, n, a, b, k), Gain(k, n - 1) * Lead(results, n, a, b), lead > 0.0);
  }

  lemma Carried(edge: real, worth: real, less: real, newEdge: real, newWorth: real, ahead: bool)
    requires newEdge - newWorth == edge - less && edge >= worth >= less && (ahead ==> worth > less)
    ensures newEdge >= newWorth && (ahead || edge > worth ==> newEdge > newWorth)
  {
  }

  /** Summation by parts: a lead in counts is worth at least as much at the last rank. */
  lemma {:induction false} LeadIsWorth(results: seq<SearchResult>, n: nat, a: Id, b: Id, k: nat)
    requires NeverBehind(results, a, b) && 0 < n <= |results|
    ensures Edge(results, n, a, b, k) >= Gain(k, n - 1) * Lead(results, n, a, b)
    decreases n
  {
    LeadSteps(results, n, a, b, k);
    if n == 1 {
      assert Lead(results, 0, a, b) == 0.0;
    } else {
      LeadIsWorth(results, n - 1, a, b, k);
      EdgeCarries(results, n, a, b, k);
    }
  }

  lemma NoNegativeLead(results: seq<SearchResult>, n: nat, a: Id, b: Id)
    requires NeverBehind(results, a, b) && n <= |results|
    ensures Lead(results, n, a, b) >= 0.0
  {
    assert Count(results, n, a) >= Count(results, n, b);
  }

  /** Once ahead, a stays worth more. */
  lemma {:induction false} LeadIsKept(results: seq<SearchResult>, m: nat, n: nat, a: Id, b: Id, k: nat)
    requires NeverBehind(results, a, b) && 0 < m < n <= |results| && Ahead(results, m, a, b)
    ensures Edge(results, n, a, b, k) > Gain(k, n - 1) * Lead(results, n, a, b)
    decreases n
  {
    assert Count(results, m, a) > Count(results, m, b);
    if m < n - 1 {
      LeadIsKept(results, m, n - 1, a, b, k);
    }
    LeadIsWorth(results, n - 1, a, b, k);
    EdgeCarries(results, n, a, b, k);
  }

  lemma ListDominance(results: seq<SearchResult>, a: Id, b: Id, k: nat)
    requires NeverBehind(results, a, b)
    ensures ListScore(results, |results|, a, k) >= ListScore(results, |results|, b, k)
    ensures (exists m :: 0 <= m <= |results| && Ahead(results, m, a, b)) ==>
              ListScore(results, |results|, a, k) > ListScore(results, |results|, b, k)
  {
    var n := |results|;
    if n > 0 {
      LeadIsWorth(results, n, a, b, k);
      GainFalls(k, n - 1);
      NoNegativeLead(results, n, a, b);
      assert Gain(k, n - 1) * Lead(results, n, a, b) >= 0.0;
      assert Ahead(results, n, a, b) ==> Gain(k, n - 1) * Lead(results, n, a, b) > 0.0;
      if m :| 0 <= m < n && Ahead(results, m, a, b) {
        LeadIsKept(results, m, n, a, b, k);
      }
    }
  }

  /** A chunk that no list ranks behind another never scores lower, and scores higher if one
      list ranks it ahead. */
  lemma {:induction false} Dominance(lists: seq<seq<SearchResult>>, m: nat, a: Id, b: Id, k: nat)
    requires m <= |lists| && forall i | 0 <= i < m :: NeverBehind(lists[i], a, b)
    ensures Score(VotesOf(lists, m), a, k) >= Score(VotesOf(lists, m), b, k)
    ensures (exists i, n :: 0 <= i < m && 0 <= n <= |lists[i]| && Ahead(lists[i], n, a, b)) ==>
              Score(VotesOf(lists, m), a, k) > Score(VotesOf(lists, m), b, k)
  {
    if m == 0 {
    } else {
      Dominance(lists, m - 1, a, b, k);
      var last := lists[m - 1];
      ScoreOfAdded(VotesOf(lists, m - 1), last, |last|, a, k);
      ScoreOfAdded(VotesOf(lists, m - 1), last, |last|, b, k);
      ListDominance(last, a, b, k);
    }
  }
}
