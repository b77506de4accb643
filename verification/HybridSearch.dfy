/** hybrid_search of app/retrieval/search.py, and what fusion promises it: chunks that both
    searches found come first. */
module HybridSearch {
  import opened Domain
  import opened Fusion

  /** s[:limit], which counts a negative limit from the end. */
  function Take<T>(s: seq<T>, limit: int): (r: seq<T>)
    ensures r <= s
    ensures |r| == if limit >= |s| then |s| else if limit >= 0 then limit else if |s| + limit >= 0 then |s| + limit else 0
  {
    if limit >= |s| then s
    else if limit >= 0 then s[..limit]
    else if |s| + limit >= 0 then s[..|s| + limit]
    else []
  }

  /** The vector search may fail; a failure and an empty result come to the same. */
  method HybridSearch(fullText: seq<SearchResult>, vector: Option<seq<SearchResult>>, limit: int)
    returns (results: seq<SearchResult>)
    ensures vector in {None, Some([])} ==> results == Take(fullText, limit)
    ensures vector.Some? && vector.value != [] ==>
              exists fused :: IsFusion(AllVotes([fullText, vector.value]), 60, fused) && results == Take(fused, limit)
    ensures vector.Some? && vector.value != [] ==>
              forall i | 0 <= i < |results| :: FoundAs(fullText, vector.value, results[i])
  {
    var found := if vector.Some? then vector.value else [];
    if |found| == 0 {
      return Take(fullText, limit);
    }
    var fused := ReciprocalRankFusion([fullText, found], DEFAULT_K);
    results := Take(fused, limit);
    forall i | 0 <= i < |results|
      ensures FoundAs(fullText, found, results[i])
    {
      var l, r := FusedFrom([fullText, found], DEFAULT_K, fused, i);
    }
  }

  /** The chunk and its title are as the full-text search found them, or else the other. */
  ghost predicate FoundAs(ft: seq<SearchResult>, vec: seq<SearchResult>, result: SearchResult) {
    result.found == HybridRrf
    && exists l: nat, r: nat :: FirstPlace([ft, vec], l, r, result.chunk.id)
                      && result.chunk == [ft, vec][l][r].chunk && result.documentTitle == [ft, vec][l][r].documentTitle
  }

  // ---- Scores of chunks found once or twice ----

  predicate At(list: seq<SearchResult>, rank: nat, id: Id) {
    rank < |list| && list[rank].chunk.id == id
  }

  ghost predicate FoundIn(list: seq<SearchResult>, id: Id) {
    exists rank :: At(list, rank, id)
  }

  predicate Distinct(list: seq<SearchResult>) {
    forall i, j | 0 <= i < j < |list| :: list[i].chunk.id != list[j].chunk.id
  }

  lemma {:induction false} ScoreWhereAbsent(list: seq<SearchResult>, n: nat, id: Id, k: nat)
    requires n <= |list| && forall i | 0 <= i < n :: list[i].chunk.id != id
    ensures ListScore(list, n, id, k) == 0.0
  {
    if n == 0 {
    } else {
      ScoreWhereAbsent(list, n - 1, id, k);
    }
  }

  lemma {:induction false} ScoreWhereFound(list: seq<SearchResult>, n: nat, rank: nat, id: Id, k: nat)
    requires Distinct(list) && At(list, rank, id) && rank < n <= |list|
    ensures ListScore(list, n, id, k) == Gain(k, rank)
  {
    if rank < n - 1 {
      ScoreWhereFound(list, n - 1, rank, id, k);
    } else {
      ScoreWhereAbsent(list, rank, id, k);
    }
  }

  lemma ScoreOfTwo(ft: seq<SearchResult>, vec: seq<SearchResult>, id: Id, k: nat)
    ensures Score(AllVotes([ft, vec]), id, k) == ListScore(ft, |ft|, id, k) + ListScore(vec, |vec|, id, k)
  {
    var lists := [ft, vec];
    ScoreOfAdded(VotesOf(lists, 1), vec, |vec|, id, k);
    ScoreOfAdded(VotesOf(lists, 0), ft, |ft|, id, k);
  }

  /** A chunk that one search found at this rank, counted from zero. */
  lemma ScoreOfOnePlace(ft: seq<SearchResult>, vec: seq<SearchResult>, r: nat, id: Id, k: nat)
    requires Distinct(ft) && At(ft, r, id) && forall i | 0 <= i < |vec| :: vec[i].chunk.id != id
    ensures Score(AllVotes([ft, vec]), id, k) == 1.0 / (k + r + 1) as real
    ensures Score(AllVotes([vec, ft]), id, k) == 1.0 / (k + r + 1) as real
  {
    ScoreOfTwo(ft, vec, id, k);
    ScoreOfTwo(vec, ft, id, k);
    ScoreWhereFound(ft, |ft|, r, id, k);
    ScoreWhereAbsent(vec, |vec|, id, k);
  }

  /** And one that both found. */
  lemma ScoreOfTwoPlaces(ft: seq<SearchResult>, vec: seq<SearchResult>, r: nat, s: nat, id: Id, k: nat)
    requires Distinct(ft) && Distinct(vec) && At(ft, r, id) && At(vec, s, id)
    ensures Score(AllVotes([ft, vec]), id, k) == 1.0 / (k + r + 1) as real + 1.0 / (k + s + 1) as real
  {
    ScoreOfTwo(ft, vec, id, k);
    ScoreWhereFound(ft, |ft|, r, id, k);
    ScoreWhereFound(vec, |vec|, s, id, k);
  }

  lemma {:induction false} GainOrder(k: nat, r: nat, s: nat)
    requires r < s
    ensures Gain(k, r) > Gain(k, s) > 0.0
    decreases s
  {
    GainFalls(k, s - 1);
    if r < s - 1 {
      GainOrder(k, r, s - 1);
    }
  }

  /** At rank k + 1 a result is worth half of one at the top. */
  lemma HalfAtRank(k: nat)
    ensures 2.0 * Gain(k, k + 1) == Gain(k, 0)
  {
    var x := (k + 1) as real;
    assert 2.0 * (1.0 / (2.0 * x)) == 1.0 / x;
  }

  // ---- Consensus ----

  ghost predicate FoundByBoth(ft: seq<SearchResult>, vec: seq<SearchResult>, id: Id) {
    FoundIn(ft, id) && FoundIn(vec, id)
  }

  ghost predicate FoundByOne(ft: seq<SearchResult>, vec: seq<SearchResult>, id: Id) {
    FoundIn(ft, id) != FoundIn(vec, id)
  }

  /** Every chunk that both found scores higher than every chunk that only one found. */
  ghost predicate Consensus(ft: seq<SearchResult>, vec: seq<SearchResult>, k: nat) {
    var votes := AllVotes([ft, vec]);
    forall a, b | FoundByBoth(ft, vec, a) && FoundByOne(ft, vec, b) :: Score(votes, a, k) > Score(votes, b, k)
  }

  ghost predicate AlwaysConsensus(k: nat, n: nat) {
    forall ft, vec | Distinct(ft) && Distinct(vec) && |ft| <= n && |vec| <= n :: Consensus(ft, vec, k)
  }

  lemma BothScore(ft: seq<SearchResult>, vec: seq<SearchResult>, id: Id, k: nat)
    requires Distinct(ft) && Distinct(vec) && |ft| <= k + 1 && |vec| <= k + 1 && FoundByBoth(ft, vec, id)
    ensures Score(AllVotes([ft, vec]), id, k) > Gain(k, 0)
  {
    var r :| At(ft, r, id);
    var s :| At(vec, s, id);
    ScoreOfTwo(ft, vec, id, k);
    ScoreWhereFound(ft, |ft|, r, id, k);
    ScoreWhereFound(vec, |vec|, s, id, k);
    GainOrder(k, r, k + 1);
    GainOrder(k, s, k + 1);
    HalfAtRank(k);
  }

  lemma OneScore(ft: seq<SearchResult>, vec: seq<SearchResult>, id: Id, k: nat)
    requires Distinct(ft) && Distinct(vec) && FoundByOne(ft, vec, id)
    ensures Score(AllVotes([ft, vec]), id, k) <= Gain(k, 0)
    ensures At(ft, 0, id) ==> Score(AllVotes([ft, vec]), id, k) == Gain(k, 0)
  {
    ScoreOfTwo(ft, vec, id, k);
    var found, other := if FoundIn(ft, id) then ft else vec, if FoundIn(ft, id) then vec else ft;
    var r :| At(found, r, id);
    ScoreWhereFound(found, |found|, r, id, k);
    forall i | 0 <= i < |other|
      ensures other[i].chunk.id != id
    {
      assert !At(other, i, id);
    }
    ScoreWhereAbsent(other, |other|, id, k);
    if r > 0 {
      GainOrder(k, 0, r);
    }
    assert At(ft, 0, id) ==> r == 0;
  }

  lemma ConsensusUpTo(ft: seq<SearchResult>, vec: seq<SearchResult>, k: nat)
    requires Distinct(ft) && Distinct(vec) && |ft| <= k + 1 && |vec| <= k + 1
    ensures Consensus(ft, vec, k)
  {
    var votes := AllVotes([ft, vec]);
    forall a, b | FoundByBoth(ft, vec, a) && FoundByOne(ft, vec, b)
      ensures Score(votes, a, k) > Score(votes, b, k)
    {
      BothScore(ft, vec, a, k);
      OneScore(ft, vec, b, k);
    }
  }

  /** k + 2 results with chunk 0 at the end and chunks numbered from `first` before it. */
  function EndingInZero(k: nat, first: nat): (list: seq<SearchResult>)
    ensures |list| == k + 2
    ensures forall i | 0 <= i < k + 2 :: list[i].chunk.id == if i == k + 1 then 0 else first + i
  {
    seq(k + 2, i requires 0 <= i < k + 2 =>
          SearchResult(Chunk(if i == k + 1 then 0 else first + i, "", "", None), 0.0, FullText, None))
  }

  /** One longer, and a chunk at the end of both lists only draws level with one at the top
      of one. */
  lemma NoConsensusBeyond(k: nat)
    ensures var ft, vec := EndingInZero(k, 1), EndingInZero(k, k + 2);
            Distinct(ft) && Distinct(vec) && !Consensus(ft, vec, k)
  {
    var ft, vec := EndingInZero(k, 1), EndingInZero(k, k + 2);
    assert At(ft, k + 1, 0) && At(vec, k + 1, 0) && At(ft, 0, 1);
    assert !FoundIn(vec, 1);
    ScoreOfTwo(ft, vec, 0, k);
    ScoreWhereFound(ft, k + 2, k + 1, 0, k);
    ScoreWhereFound(vec, k + 2, k + 1, 0, k);
    HalfAtRank(k);
    OneScore(ft, vec, 1, k);
  }

  /** Fusing two duplicate-free lists ranks what both found strictly above what one found,
      for all lists of up to n results, exactly if n <= k + 1. */
  lemma ConsensusIff(k: nat, n: nat)
    ensures AlwaysConsensus(k, n) <==> n <= k + 1
  {
    if n <= k + 1 {
      forall ft, vec | Distinct(ft) && Distinct(vec) && |ft| <= n && |vec| <= n
        ensures Consensus(ft, vec, k)
      {
        ConsensusUpTo(ft, vec, k);
      }
    } else {
      NoConsensusBeyond(k);
    }
  }

  // ---- In the results ----

  predicate FoundWithin(list: seq<SearchResult>, n: nat, id: Id) {
    exists i :: 0 <= i < n && At(list, i, id)
  }

  lemma {:induction false} SeenIff(votes: Votes, list: seq<SearchResult>, n: nat, id: Id)
    requires n <= |list|
    ensures Seen(AddResults(votes, list, n), id) <==> Seen(votes, id) || FoundWithin(list, n, id)
  {
    if n == 0 {
    } else {
      SeenIff(votes, list, n - 1, id);
      if At(list, n - 1, id) {
        assert FoundWithin(list, n, id);
      }
    }
  }

  lemma SeenInTwo(ft: seq<SearchResult>, vec: seq<SearchResult>, id: Id)
    ensures Seen(AllVotes([ft, vec]), id) <==> FoundIn(ft, id) || FoundIn(vec, id)
  {
    var lists := [ft, vec];
    SeenIff(VotesOf(lists, 1), vec, |vec|, id);
    SeenIff(VotesOf(lists, 0), ft, |ft|, id);
    FoundIffWithin(ft, id);
    FoundIffWithin(vec, id);
  }

  lemma FoundIffWithin(list: seq<SearchResult>, id: Id)
    ensures FoundIn(list, id) <==> FoundWithin(list, |list|, id)
  {
    if FoundIn(list, id) {
      var rank: nat :| At(list, rank, id);
      assert 0 <= rank < |list|;
    }
  }

  /** A higher score comes first. */
  lemma HigherComesFirst(votes: Votes, k: nat, fused: seq<SearchResult>, a: Id, j: nat) returns (i: nat)
    requires IsFusion(votes, k, fused) && Seen(votes, a) && j < |fused|
    requires Score(votes, a, k) > Score(votes, fused[j].chunk.id, k)
    ensures i < j && fused[i].chunk.id == a
  {
    FusionMeaning(votes, k, fused);
    i :| 0 <= i < |fused| && fused[i].chunk.id == a;
  }

  /** So whatever the limit, a chunk that one search found is in the result of the hybrid
      search only behind every chunk that both found. */
  lemma ResultsPutConsensusFirst(ft: seq<SearchResult>, vec: seq<SearchResult>, limit: int,
                                 fused: seq<SearchResult>, j: nat, a: Id)
    returns (i: nat)
    requires Distinct(ft) && Distinct(vec) && |ft| <= 30 && |vec| <= 30
    requires IsFusion(AllVotes([ft, vec]), DEFAULT_K, fused)
    requires j < |Take(fused, limit)| && FoundByOne(ft, vec, Take(fused, limit)[j].chunk.id) && FoundByBoth(ft, vec, a)
    ensures i < j && Take(fused, limit)[i].chunk.id == a
  {
    ConsensusUpTo(ft, vec, DEFAULT_K);
    SeenInTwo(ft, vec, a);
    i := HigherComesFirst(AllVotes([ft, vec]), DEFAULT_K, fused, a, j);
  }

  /** A chunk that no list ranks behind another, and one ranks ahead, comes first. */
  lemma DominantComesFirst(lists: seq<seq<SearchResult>>, k: nat, fused: seq<SearchResult>, a: Id, j: nat, l: nat, n: nat)
    returns (i: nat)
    requires IsFusion(AllVotes(lists), k, fused) && j < |fused| && Seen(AllVotes(lists), a)
    requires forall m | 0 <= m < |lists| :: NeverBehind(lists[m], a, fused[j].chunk.id)
    requires l < |lists| && n <= |lists[l]| && Ahead(lists[l], n, a, fused[j].chunk.id)
    ensures i < j && fused[i].chunk.id == a
  {
    Dominance(lists, |lists|, a, fused[j].chunk.id, k);
    i := HigherComesFirst(AllVotes(lists), k, fused, a, j);
  }
}
