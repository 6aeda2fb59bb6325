/**
  The selection of diverse hits: greedily, at most topK hits and at most maxPerDoc a document.
  Greedy is optimal here, because the feasible selections form a truncated partition matroid.
 */
module Selection {
  import opened Options
  import opened Sums
  import opened Records

  // ----- Selections as increasing sequences of positions

  predicate Positions(hits: seq<Hit>, t: seq<nat>, n: nat) {
    && n <= |hits|
    && (forall i | 0 <= i < |t| :: t[i] < n)
    && (forall i, j | 0 <= i < j < |t| :: t[i] < t[j])
  }

  /** How many of the positions hold a hit of the document. */
  function CountDoc(hits: seq<Hit>, t: seq<nat>, doc: string): nat
    requires forall i | 0 <= i < |t| :: t[i] < |hits|
  {
    if t == [] then 0
    else CountDoc(hits, t[..|t| - 1], doc) + (if hits[t[|t| - 1]].documentId == doc then 1 else 0)
  }

  ghost predicate Feasible(hits: seq<Hit>, t: seq<nat>, topK: int, cap: nat) {
    && Positions(hits, t, |hits|)
    && |t| <= (if topK < 0 then 0 else topK)
    && forall doc :: CountDoc(hits, t, doc) <= cap
  }

  function Picked(hits: seq<Hit>, t: seq<nat>): (r: seq<Hit>)
    requires forall i | 0 <= i < |t| :: t[i] < |hits|
    ensures |r| == |t| && forall i | 0 <= i < |t| :: r[i] == hits[t[i]]
  {
    seq(|t|, i requires 0 <= i < |t| => hits[t[i]])
  }

  // ----- The greedy selection

  /** What greedy has taken after looking at the first n hits. */
  function Greedy(hits: seq<Hit>, n: nat, topK: int, cap: nat): (g: seq<nat>)
    requires n <= |hits|
    ensures Positions(hits, g, n)
  {
    if n == 0 then []
    else
      var g := Greedy(hits, n - 1, topK, cap);
      if |g| < topK && CountDoc(hits, g, hits[n - 1].documentId) < cap then g + [n - 1] else g
  }

  lemma {:induction false} GreedyFull(hits: seq<Hit>, n: nat, m: nat, topK: int, cap: nat)
    requires n <= m <= |hits| && |Greedy(hits, n, topK, cap)| >= topK
    ensures Greedy(hits, m, topK, cap) == Greedy(hits, n, topK, cap)
    decreases m
  {
    if n < m {
      GreedyFull(hits, n, m - 1, topK, cap);
    }
  }

  ghost predicate Tallies(counts: map<string, nat>, hits: seq<Hit>, t: seq<nat>)
    requires forall i | 0 <= i < |t| :: t[i] < |hits|
  {
    forall doc :: CountIn(counts, doc) == CountDoc(hits, t, doc)
  }

  lemma TallyAppend(counts: map<string, nat>, hits: seq<Hit>, t: seq<nat>, i: nat)
    requires i < |hits| && (forall j | 0 <= j < |t| :: t[j] < |hits|) && Tallies(counts, hits, t)
    ensures Tallies(counts[hits[i].documentId := CountIn(counts, hits[i].documentId) + 1], hits, t + [i])
  {
    CountAppend(hits, t, i);
  }

  /** The hits and the counts after looking at the first n hits. */
  ghost predicate Chosen(hits: seq<Hit>, n: nat, topK: int, cap: nat, selected: seq<Hit>, counts: map<string, nat>)
    requires n <= |hits|
  {
    var g := Greedy(hits, n, topK, cap);
    selected == Picked(hits, g) && Tallies(counts, hits, g)
  }

  lemma PickedAppend(hits: seq<Hit>, t: seq<nat>, i: nat)
    requires i < |hits| && forall j | 0 <= j < |t| :: t[j] < |hits|
    ensures Picked(hits, t + [i]) == Picked(hits, t) + [hits[i]]
  {
  }

  lemma ChosenStep(hits: seq<Hit>, i: nat, topK: int, cap: nat, selected: seq<Hit>, counts: map<string, nat>)
    requires i < |hits| && Chosen(hits, i, topK, cap, selected, counts)
    ensures var doc := hits[i].documentId;
      if |selected| < topK && CountIn(counts, doc) < cap
      then Chosen(hits, i + 1, topK, cap, selected + [hits[i]], counts[doc := CountIn(counts, doc) + 1])
      else Chosen(hits, i + 1, topK, cap, selected, counts)
  {
    var g := Greedy(hits, i, topK, cap);
    assert CountIn(counts, hits[i].documentId) == CountDoc(hits, g, hits[i].documentId);
    PickedAppend(hits, g, i);
    TallyAppend(counts, hits, g, i);
  }

  /** selectDiverse, with the counts of the chosen documents kept in a map. */
  method SelectDiverse(hits: seq<Hit>, topK: int, maxPerDoc: int) returns (selected: seq<Hit>)
    ensures selected == Picked(hits, Greedy(hits, |hits|, topK, DocumentCap(maxPerDoc)))
  {
    var cap := if maxPerDoc < 1 then 2 else maxPerDoc;
    selected := [];
    if topK < 1 {
      GreedyFull(hits, 0, |hits|, topK, cap);
      return;
    }
    var counts: map<string, nat> := map[];
    var i := 0;
    while i < |hits|
      invariant 0 <= i <= |hits| && Chosen(hits, i, topK, cap, selected, counts)
    {
      if |selected| >= topK {
        GreedyFull(hits, i, |hits|, topK, cap);
        break;
      }
      var hit := hits[i];
      ChosenStep(hits, i, topK, cap, selected, counts);
      if CountIn(counts, hit.documentId) < cap {
        counts := counts[hit.documentId := CountIn(counts, hit.documentId) + 1];
        selected := selected + [hit];
      }
      i := i + 1;
    }
  }

  lemma CountAppend(hits: seq<Hit>, t: seq<nat>, i: nat)
    requires i < |hits| && forall j | 0 <= j < |t| :: t[j] < |hits|
    ensures forall doc ::
      CountDoc(hits, t + [i], doc) == CountDoc(hits, t, doc) + (if hits[i].documentId == doc then 1 else 0)
  {
    assert (t + [i])[..|t|] == t;
  }

  // ----- Greedy is feasible

  lemma {:induction false} GreedyFeasible(hits: seq<Hit>, n: nat, topK: int, cap: nat)
    requires n <= |hits|
    ensures Feasible(hits, Greedy(hits, n, topK, cap), topK, cap)
  {
    if n > 0 {
      GreedyFeasible(hits, n - 1, topK, cap);
      CountAppend(hits, Greedy(hits, n - 1, topK, cap), n - 1);
    }
  }

  // ----- Greedy is optimal

  function UpTo(n: nat): (t: seq<nat>)
    ensures |t| == n && forall i | 0 <= i < n :: t[i] == i
  {
    seq(n, i => i)
  }

  /** Of a document, no selection among the first n hits has more than occur there. */
  lemma {:induction false} CountAtMostOccurrences(hits: seq<Hit>, t: seq<nat>, n: nat, doc: string)
    requires Positions(hits, t, n)
    ensures CountDoc(hits, t, doc) <= CountDoc(hits, UpTo(n), doc)
  {
    if t != [] {
      assert t[|t| - 1] < n;
      assert UpTo(n)[..n - 1] == UpTo(n - 1);
      if t[|t| - 1] == n - 1 {
        CountAtMostOccurrences(hits, t[..|t| - 1], n - 1, doc);
      } else {
        CountAtMostOccurrences(hits, t, n - 1, doc);
      }
    }
  }

  /** Until it is full, greedy holds of every document all that the cap allows. */
  lemma {:induction false} GreedySaturates(hits: seq<Hit>, n: nat, topK: int, cap: nat, doc: string)
    requires n <= |hits| && |Greedy(hits, n, topK, cap)| < topK
    ensures CountDoc(hits, Greedy(hits, n, topK, cap), doc) >= cap
      || CountDoc(hits, Greedy(hits, n, topK, cap), doc) == CountDoc(hits, UpTo(n), doc)
  {
    if n > 0 {
      GreedySaturates(hits, n - 1, topK, cap, doc);
      CountAppend(hits, Greedy(hits, n - 1, topK, cap), n - 1);
      assert UpTo(n)[..n - 1] == UpTo(n - 1);
    }
  }

  function Documents(hits: seq<Hit>): set<string> {
    set i | 0 <= i < |hits| :: hits[i].documentId
  }

  /** A selection has as many hits as its documents contribute. */
  lemma {:induction false} SizeByDocument(hits: seq<Hit>, t: seq<nat>)
    requires forall i | 0 <= i < |t| :: t[i] < |hits|
    ensures |t| == Sum(Documents(hits), doc => CountDoc(hits, t, doc))
  {
    if t == [] {
      SumCongruent(Documents(hits), doc => CountDoc(hits, t, doc), (_: string) => 0);
      SumZero(Documents(hits));
    } else {
      var shorter, last := t[..|t| - 1], t[|t| - 1];
      SizeByDocument(hits, shorter);
      assert hits[last].documentId in Documents(hits);
      SumUpdate(Documents(hits), doc => CountDoc(hits, shorter, doc), doc => CountDoc(hits, t, doc), hits[last].documentId);
    }
  }

  /** Among the first n hits, no feasible selection is longer than the greedy one. */
  lemma NoneLonger(hits: seq<Hit>, t: seq<nat>, n: nat, topK: int, cap: nat)
    requires Positions(hits, t, n) && Feasible(hits, t, topK, cap)
    ensures |t| <= |Greedy(hits, n, topK, cap)|
  {
    var g := Greedy(hits, n, topK, cap);
    if |g| < topK {
      forall doc ensures CountDoc(hits, t, doc) <= CountDoc(hits, g, doc) {
        CountAtMostOccurrences(hits, t, n, doc);
        GreedySaturates(hits, n, topK, cap, doc);
      }
      SizeByDocument(hits, t);
      SizeByDocument(hits, g);
      SumMonotone(Documents(hits), doc => CountDoc(hits, t, doc), doc => CountDoc(hits, g, doc));
    }
  }

  lemma {:induction false} GreedyExtends(hits: seq<Hit>, n: nat, m: nat, topK: int, cap: nat)
    requires n <= m <= |hits|
    ensures Greedy(hits, n, topK, cap) <= Greedy(hits, m, topK, cap)
    decreases m
  {
    if n < m {
      GreedyExtends(hits, n, m - 1, topK, cap);
    }
  }

  /**
    Greedy is optimal: it is feasible, no feasible selection is longer, and the j-th hit of any
    feasible selection comes no earlier than the j-th greedy hit.
   */
  lemma GreedyIsOptimal(hits: seq<Hit>, t: seq<nat>, topK: int, maxPerDoc: int)
    requires Feasible(hits, t, topK, DocumentCap(maxPerDoc))
    ensures var g := Greedy(hits, |hits|, topK, DocumentCap(maxPerDoc));
      && Feasible(hits, g, topK, DocumentCap(maxPerDoc))
      && |t| <= |g|
      && forall j | 0 <= j < |t| :: g[j] <= t[j]
  {
    var cap := DocumentCap(maxPerDoc);
    var g := Greedy(hits, |hits|, topK, cap);
    GreedyFeasible(hits, |hits|, topK, cap);
    NoneLonger(hits, t, |hits|, topK, cap);
    forall j: nat | j < |t| ensures g[j] <= t[j] {
      GreedyComesFirst(hits, t, j, topK, cap);
    }
  }

  /** The j-th greedy position comes no later than that of any feasible selection. */
  lemma GreedyComesFirst(hits: seq<Hit>, t: seq<nat>, j: nat, topK: int, cap: nat)
    requires Feasible(hits, t, topK, cap) && j < |t|
    ensures j < |Greedy(hits, |hits|, topK, cap)| && Greedy(hits, |hits|, topK, cap)[j] <= t[j]
  {
    var early := t[..j + 1];
    forall doc ensures CountDoc(hits, early, doc) <= CountDoc(hits, t, doc) {
      CountPrefix(hits, t, j + 1, doc);
    }
    NoneLonger(hits, early, t[j] + 1, topK, cap);
    GreedyExtends(hits, t[j] + 1, |hits|, topK, cap);
    var soFar := Greedy(hits, t[j] + 1, topK, cap);
    assert Greedy(hits, |hits|, topK, cap)[j] == soFar[j];
  }

  lemma {:induction false} CountPrefix(hits: seq<Hit>, t: seq<nat>, n: nat, doc: string)
    requires n <= |t| && forall i | 0 <= i < |t| :: t[i] < |hits|
    ensures CountDoc(hits, t[..n], doc) <= CountDoc(hits, t, doc)
    decreases |t|
  {
    if n < |t| {
      assert t[..|t| - 1][..n] == t[..n];
      CountPrefix(hits, t[..|t| - 1], n, doc);
    } else {
      assert t[..n] == t;
    }
  }

  /** On hits in descending order of any score, greedy beats every feasible selection place by place. */
  lemma GreedyDominatesScores(hits: seq<Hit>, t: seq<nat>, topK: int, maxPerDoc: int, score: Hit -> real)
    requires Feasible(hits, t, topK, DocumentCap(maxPerDoc))
    requires forall i, j | 0 <= i < j < |hits| :: score(hits[i]) >= score(hits[j])
    ensures var g := Greedy(hits, |hits|, topK, DocumentCap(maxPerDoc));
      |t| <= |g| && forall j | 0 <= j < |t| :: score(hits[g[j]]) >= score(hits[t[j]])
  {
    GreedyIsOptimal(hits, t, topK, maxPerDoc);
  }

  // ----- Reranking

  datatype RerankResult = RerankResult(index: int, score: real)
  datatype RerankReply = RerankError | Results(results: seq<RerankResult>)

  predicate ValidIndex(candidates: seq<Hit>, result: RerankResult) {
    0 <= result.index < |candidates|
  }

  /** The reranker's p-th result is the first to name its candidate. */
  predicate FirstMention(results: seq<RerankResult>, p: nat)
    requires p < |results|
  {
    forall q | 0 <= q < p :: results[q].index != results[p].index
  }

  function Reranked(candidates: seq<Hit>, results: seq<RerankResult>, p: nat): Hit
    requires p < |results| && ValidIndex(candidates, results[p])
  {
    candidates[results[p].index].(rerankRank := p + 1, rerankScore := results[p].score)
  }

  predicate AllValid(candidates: seq<Hit>, results: seq<RerankResult>) {
    forall p | 0 <= p < |results| :: ValidIndex(candidates, results[p])
  }

  function Ordered(candidates: seq<Hit>, results: seq<RerankResult>, n: nat): seq<Hit>
    requires n <= |results| && AllValid(candidates, results)
  {
    if n == 0 then []
    else
      Ordered(candidates, results, n - 1)
      + (if FirstMention(results, n - 1) then [Reranked(candidates, results, n - 1)] else [])
  }

  function WithFinalRanks(hits: seq<Hit>): seq<Hit> {
    seq(|hits|, i requires 0 <= i < |hits| => hits[i].(finalRank := i + 1))
  }

  ghost predicate SeenIndices(results: seq<RerankResult>, n: nat, seen: set<int>)
    requires n <= |results|
  {
    && (forall p | 0 <= p < n :: results[p].index in seen)
    && (forall x | x in seen :: exists p :: 0 <= p < n && results[p].index == x)
  }

  /** The loop of rerankHits over the reranker's results. */
  method OrderResults(candidates: seq<Hit>, results: seq<RerankResult>) returns (ordered: Option<seq<Hit>>)
    ensures ordered.Some? <==> AllValid(candidates, results)
    ensures ordered.Some? ==> ordered.value == Ordered(candidates, results, |results|)
  {
    var hits: seq<Hit> := [];
    var seen: set<int> := {};
    var rank := 0;
    while rank < |results|
      invariant 0 <= rank <= |results|
      invariant forall p | 0 <= p < rank :: ValidIndex(candidates, results[p])
      invariant SeenIndices(results, rank, seen)
      invariant AllValid(candidates, results) ==> hits == Ordered(candidates, results, rank)
    {
      var result := results[rank];
      if !ValidIndex(candidates, result) {
        return None;
      }
      if result.index !in seen {
        assert FirstMention(results, rank);
        seen := seen + {result.index};
        hits := hits + [candidates[result.index].(rerankRank := rank + 1, rerankScore := result.score)];
      } else {
        assert !FirstMention(results, rank);
      }
      rank := rank + 1;
    }
    ordered := Some(hits);
  }

  method RankFinally(chosen: seq<Hit>) returns (ranked: seq<Hit>)
    ensures ranked == WithFinalRanks(chosen)
  {
    ranked := chosen;
    var i := 0;
    while i < |chosen|
      invariant 0 <= i <= |chosen| == |ranked|
      invariant forall j | 0 <= j < |chosen| :: ranked[j] == if j < i then chosen[j].(finalRank := j + 1) else chosen[j]
    {
      ranked := ranked[i := ranked[i].(finalRank := i + 1)];
      i := i + 1;
    }
  }

  /** A hit is the candidate that a result names first, with that result's place and score and its own final place. */
  ghost predicate IsReranked(hit: Hit, candidates: seq<Hit>, results: seq<RerankResult>, finalRank: nat) {
    && 1 <= hit.rerankRank <= |results|
    && var p := hit.rerankRank - 1;
    && 0 <= results[p].index < |candidates|
    && (forall q | 0 <= q < p :: results[q].index != results[p].index)
    && hit == candidates[results[p].index].(rerankRank := p + 1, rerankScore := results[p].score, finalRank := finalRank)
  }

  ghost predicate AllReranked(hits: seq<Hit>, candidates: seq<Hit>, results: seq<RerankResult>) {
    && (forall i | 0 <= i < |hits| :: IsReranked(hits[i], candidates, results, i + 1))
    && (forall i, j | 0 <= i < j < |hits| :: hits[i].rerankRank < hits[j].rerankRank)
  }

  lemma PickedAreReranked(candidates: seq<Hit>, results: seq<RerankResult>, t: seq<nat>)
    requires AllValid(candidates, results)
    requires Positions(Ordered(candidates, results, |results|), t, |Ordered(candidates, results, |results|)|)
    ensures AllReranked(WithFinalRanks(Picked(Ordered(candidates, results, |results|), t)), candidates, results)
  {
    var ordered := Ordered(candidates, results, |results|);
    var hits := WithFinalRanks(Picked(ordered, t));
    RanksSoFar(candidates, results, |results|);
    forall i | 0 <= i < |hits| ensures IsReranked(hits[i], candidates, results, i + 1) {
      assert MentionAt(candidates, results, |results|, ordered[t[i]]);
    }
  }

  /** rerankHits: None is the error of a failed call, of no results, or of an index out of range. */
  method RerankHits(candidates: seq<Hit>, reply: RerankReply, topK: int, maxPerDoc: int)
    returns (selected: Option<seq<Hit>>)
    ensures selected.None? <==> reply.RerankError? || reply.results == [] || !AllValid(candidates, reply.results)
    ensures selected.Some? ==>
      var ordered := Ordered(candidates, reply.results, |reply.results|);
      selected.value == WithFinalRanks(Picked(ordered, Greedy(ordered, |ordered|, topK, DocumentCap(maxPerDoc))))
    ensures selected.Some? ==> AllReranked(selected.value, candidates, reply.results)
  {
    if reply.RerankError? || |reply.results| == 0 {
      return None;
    }
    var ordered := OrderResults(candidates, reply.results);
    if ordered.None? {
      return None;
    }
    var chosen := SelectDiverse(ordered.value, topK, maxPerDoc);
    var ranked := RankFinally(chosen);
    PickedAreReranked(candidates, reply.results, Greedy(ordered.value, |ordered.value|, topK, DocumentCap(maxPerDoc)));
    selected := Some(ranked);
  }

  /** Every candidate the reranker names enters the order at its first mention. */
  lemma {:induction false} MentionedOnce(candidates: seq<Hit>, results: seq<RerankResult>, n: nat, p: nat)
    requires n <= |results| && AllValid(candidates, results)
    requires p < n && FirstMention(results, p)
    ensures Reranked(candidates, results, p) in Ordered(candidates, results, n)
    decreases n
  {
    if p < n - 1 {
      MentionedOnce(candidates, results, n - 1, p);
    }
  }

  ghost predicate MentionAt(candidates: seq<Hit>, results: seq<RerankResult>, n: nat, hit: Hit)
    requires n <= |results| && AllValid(candidates, results)
  {
    && 1 <= hit.rerankRank <= n
    && FirstMention(results, hit.rerankRank - 1)
    && hit == Reranked(candidates, results, hit.rerankRank - 1)
  }

  /** The order carries first mentions only, in the reranker's order. */
  lemma {:induction false} RanksSoFar(candidates: seq<Hit>, results: seq<RerankResult>, n: nat)
    requires n <= |results| && AllValid(candidates, results)
    ensures forall hit | hit in Ordered(candidates, results, n) :: MentionAt(candidates, results, n, hit)
    ensures forall j, k | 0 <= j < k < |Ordered(candidates, results, n)| ::
      Ordered(candidates, results, n)[j].rerankRank < Ordered(candidates, results, n)[k].rerankRank
  {
    if n > 0 {
      RanksSoFar(candidates, results, n - 1);
      var before := Ordered(candidates, results, n - 1);
      forall hit | hit in before ensures MentionAt(candidates, results, n, hit) {
        assert MentionAt(candidates, results, n - 1, hit);
      }
      if FirstMention(results, n - 1) {
        var last := Reranked(candidates, results, n - 1);
        assert Ordered(candidates, results, n) == before + [last];
        assert MentionAt(candidates, results, n, last);
        forall j | 0 <= j < |before| ensures before[j].rerankRank < last.rerankRank {
          assert before[j] in before;
        }
      }
    }
  }
}
