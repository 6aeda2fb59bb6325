/**
  Reciprocal rank fusion, written once over hash maps and once as a full outer join.
  Scores are reals.
 */
module Fusion {
  import opened Options
  import opened Records
  import opened Ranking

  function Recip(position: nat): real { 1.0 / (61 + position) as real }

  function Greater(a: real, b: real): real { if a < b then b else a }

  /** ORDER BY rrf_score DESC, GREATEST(vector_score, lexical_score) DESC, id */
  predicate Ahead(a: Hit, b: Hit) {
    if a.rrfScore != b.rrfScore then a.rrfScore > b.rrfScore
    else
      var left, right := Greater(a.vectorScore, a.lexicalScore), Greater(b.vectorScore, b.lexicalScore);
      if left != right then left > right else Less(a.id, b.id)
  }

  const BY_FUSED_SCORE: (Hit, Hit) -> bool := (a, b) => Ahead(a, b)

  // ----- The hash-map form

  function FromVector(hit: Hit, i: nat): Hit {
    hit.(vectorRank := i + 1, rrfScore := Recip(i))
  }

  function FromLexical(hit: Hit, i: nat): Hit {
    hit.(lexicalRank := i + 1, rrfScore := Recip(i))
  }

  function InBoth(existing: Hit, hit: Hit, i: nat): Hit {
    existing.(lexicalRank := i + 1, lexicalScore := hit.lexicalScore, rrfScore := existing.rrfScore + Recip(i))
  }

  function VectorMap(vectorHits: seq<Hit>): map<string, Hit> {
    if vectorHits == [] then map[]
    else
      var i := |vectorHits| - 1;
      VectorMap(vectorHits[..i])[vectorHits[i].id := FromVector(vectorHits[i], i)]
  }

  function LexicalMap(base: map<string, Hit>, lexicalHits: seq<Hit>): map<string, Hit> {
    if lexicalHits == [] then base
    else
      var i := |lexicalHits| - 1;
      var hit, rest := lexicalHits[i], LexicalMap(base, lexicalHits[..i]);
      rest[hit.id := if hit.id in rest then InBoth(rest[hit.id], hit, i) else FromLexical(hit, i)]
  }

  function Combined(vectorHits: seq<Hit>, lexicalHits: seq<Hit>): map<string, Hit> {
    LexicalMap(VectorMap(vectorHits), lexicalHits)
  }

  function Scored(hit: Hit): Hit { hit.(score := hit.rrfScore) }

  ghost function FusedRows(vectorHits: seq<Hit>, lexicalHits: seq<Hit>): set<Hit> {
    var combined := Combined(vectorHits, lexicalHits);
    set id | id in combined :: Scored(combined[id])
  }

  lemma {:induction false} VectorMapIds(vectorHits: seq<Hit>)
    ensures forall id | id in VectorMap(vectorHits) :: VectorMap(vectorHits)[id].id == id
  {
    if vectorHits != [] {
      VectorMapIds(vectorHits[..|vectorHits| - 1]);
    }
  }

  lemma {:induction false} LexicalMapIds(base: map<string, Hit>, lexicalHits: seq<Hit>)
    requires forall id | id in base :: base[id].id == id
    ensures forall id | id in LexicalMap(base, lexicalHits) :: LexicalMap(base, lexicalHits)[id].id == id
  {
    if lexicalHits != [] {
      LexicalMapIds(base, lexicalHits[..|lexicalHits| - 1]);
    }
  }

  lemma CombinedIds(vectorHits: seq<Hit>, lexicalHits: seq<Hit>)
    ensures forall id | id in Combined(vectorHits, lexicalHits) :: Combined(vectorHits, lexicalHits)[id].id == id
  {
    VectorMapIds(vectorHits);
    LexicalMapIds(VectorMap(vectorHits), lexicalHits);
  }

  ghost predicate DistinctIds(rows: set<Hit>) {
    forall a, b | a in rows && b in rows && a != b :: a.id != b.id
  }

  lemma FusedRowsDistinct(vectorHits: seq<Hit>, lexicalHits: seq<Hit>)
    ensures DistinctIds(FusedRows(vectorHits, lexicalHits))
  {
    CombinedIds(vectorHits, lexicalHits);
  }

  lemma AheadIsWeakOrder()
    ensures WeakOrder(BY_FUSED_SCORE)
  {
    forall x, y ensures !(BY_FUSED_SCORE(x, y) && BY_FUSED_SCORE(y, x)) {
      LessIsStrict(x.id, y.id);
    }
    forall x, y, z | BY_FUSED_SCORE(x, z) ensures BY_FUSED_SCORE(x, y) || BY_FUSED_SCORE(y, z) {
      LessIsStrict(x.id, y.id);
      LessIsStrict(y.id, z.id);
      if Less(y.id, x.id) && Less(x.id, z.id) {
        LessIsTransitive(y.id, x.id, z.id);
      }
    }
  }

  lemma AheadIsTotal(rows: set<Hit>)
    requires DistinctIds(rows)
    ensures TotalOn(BY_FUSED_SCORE, rows)
  {
    forall x: Hit, y: Hit ensures !BY_FUSED_SCORE(x, x) && (x.id != y.id ==> BY_FUSED_SCORE(x, y) || BY_FUSED_SCORE(y, x))
      && !(BY_FUSED_SCORE(x, y) && BY_FUSED_SCORE(y, x))
    {
      LessIsStrict(x.id, y.id);
      LessIsStrict(x.id, x.id);
    }
  }

  /**
    fuseRRF.  The iteration over the map takes the hits in any order; the comparator decides
    the result all the same: it is the answer to ORDER BY ... LIMIT over the fused rows.
   */
  method FuseRRF(vectorHits: seq<Hit>, lexicalHits: seq<Hit>, topK: nat) returns (result: seq<Hit>)
    ensures FirstRows(BY_FUSED_SCORE, FusedRows(vectorHits, lexicalHits), topK, result)
    ensures AllInFusedOrder(result)
  {
    var combined: map<string, Hit> := map[];
    var i := 0;
    while i < |vectorHits|
      invariant 0 <= i <= |vectorHits| && combined == VectorMap(vectorHits[..i])
    {
      assert vectorHits[..i + 1][..i] == vectorHits[..i];
      combined := combined[vectorHits[i].id := FromVector(vectorHits[i], i)];
      i := i + 1;
    }
    assert vectorHits[..i] == vectorHits;
    i := 0;
    while i < |lexicalHits|
      invariant 0 <= i <= |lexicalHits| && combined == LexicalMap(VectorMap(vectorHits), lexicalHits[..i])
    {
      assert lexicalHits[..i + 1][..i] == lexicalHits[..i];
      var hit := lexicalHits[i];
      if hit.id in combined {
        combined := combined[hit.id := InBoth(combined[hit.id], hit, i)];
      } else {
        combined := combined[hit.id := FromLexical(hit, i)];
      }
      i := i + 1;
    }
    assert lexicalHits[..i] == lexicalHits;
    CombinedIds(vectorHits, lexicalHits);
    ghost var rows := FusedRows(vectorHits, lexicalHits);
    var all: seq<Hit> := [];
    var todo := combined.Keys;
    while todo != {}
      invariant todo <= combined.Keys
      invariant Elements(all) == set id | id in combined.Keys - todo :: Scored(combined[id])
      invariant forall p, q | 0 <= p < q < |all| :: all[p].id != all[q].id
      decreases todo
    {
      var id :| id in todo;
      AppendElement(all, Scored(combined[id]));
      assert combined.Keys - (todo - {id}) == combined.Keys - todo + {id};
      assert forall p | 0 <= p < |all| :: all[p] in Elements(all);
      all := all + [Scored(combined[id])];
      todo := todo - {id};
    }
    assert combined.Keys - todo == combined.Keys;
    var sorted := SortStable(BY_FUSED_SCORE, all);
    SortedListing(rows, all);
    PrefixIsFirstRows(BY_FUSED_SCORE, rows, sorted, topK);
    result := if topK < |sorted| then sorted[..topK] else sorted;
    AheadInFusedOrder(result);
  }

  ghost predicate IsLarger(hit: Hit, score: real) {
    score >= hit.vectorScore && score >= hit.lexicalScore && (score == hit.vectorScore || score == hit.lexicalScore)
  }

  /** Fused scores descend; among equal ones the larger scores of the two searches do, and then ids ascend. */
  ghost predicate InFusedOrder(a: Hit, b: Hit) {
    && a.rrfScore >= b.rrfScore
    && (a.rrfScore == b.rrfScore ==>
          exists p, q | IsLarger(a, p) && IsLarger(b, q) :: p > q || (p == q && Less(a.id, b.id)))
  }

  ghost predicate AllInFusedOrder(hits: seq<Hit>) {
    forall i, j | 0 <= i < j < |hits| :: InFusedOrder(hits[i], hits[j])
  }

  lemma AheadInFusedOrder(hits: seq<Hit>)
    requires StrictlySorted(BY_FUSED_SCORE, hits)
    ensures AllInFusedOrder(hits)
  {
    forall i, j | 0 <= i < j < |hits| ensures InFusedOrder(hits[i], hits[j]) {
      var a, b := hits[i], hits[j];
      assert BY_FUSED_SCORE(a, b);
      var p, q := Greater(a.vectorScore, a.lexicalScore), Greater(b.vectorScore, b.lexicalScore);
      assert IsLarger(a, p) && IsLarger(b, q);
    }
  }

  lemma AppendElement(xs: seq<Hit>, x: Hit)
    ensures Elements(xs + [x]) == Elements(xs) + {x}
  {
    forall y | y in Elements(xs) ensures y in Elements(xs + [x]) {
      var i :| 0 <= i < |xs| && xs[i] == y;
      assert (xs + [x])[i] == y;
    }
    assert (xs + [x])[|xs|] == x;
  }

  /** Any listing of the rows sorts into the one strictly sorted listing. */
  lemma SortedListing(rows: set<Hit>, all: seq<Hit>)
    requires Elements(all) == rows
    requires forall p, q | 0 <= p < q < |all| :: all[p].id != all[q].id
    ensures DistinctIds(rows) && TotalOn(BY_FUSED_SCORE, rows)
    ensures StrictlySorted(BY_FUSED_SCORE, SortStable(BY_FUSED_SCORE, all))
    ensures Elements(SortStable(BY_FUSED_SCORE, all)) == rows
  {
    forall a, b | a in rows && b in rows && a != b ensures a.id != b.id {
      assert a in Elements(all) && b in Elements(all);
      var p :| 0 <= p < |all| && all[p] == a;
      var q :| 0 <= q < |all| && all[q] == b;
      assert p < q || q < p;
    }
    AheadIsWeakOrder();
    AheadIsTotal(rows);
    SortSorts(BY_FUSED_SCORE, all);
    var sorted := SortStable(BY_FUSED_SCORE, all);
    SameMultiset(sorted, all);
    RearrangedNoRepeats(sorted, all);
    forall i, j | 0 <= i < j < |sorted| ensures BY_FUSED_SCORE(sorted[i], sorted[j]) {
      assert sorted[i] in Elements(sorted) && sorted[j] in Elements(sorted);
    }
  }

  // ----- The full outer join

  ghost predicate DistinctHits(hits: seq<Hit>) {
    forall i, j | 0 <= i < j < |hits| :: hits[i].id != hits[j].id
  }

  /** The candidates of one search: one row per chunk, the other search's columns zero. */
  ghost predicate VectorCandidates(hits: seq<Hit>) {
    DistinctHits(hits) && forall i | 0 <= i < |hits| :: hits[i].lexicalRank == 0 && hits[i].lexicalScore == 0.0
  }

  ghost predicate LexicalCandidates(hits: seq<Hit>) {
    DistinctHits(hits) && forall i | 0 <= i < |hits| :: hits[i].vectorRank == 0 && hits[i].vectorScore == 0.0
  }

  /** The position of a chunk in a list of candidates; ROW_NUMBER is one more. */
  ghost function Position(hits: seq<Hit>, id: string): (p: Option<nat>)
    ensures p.Some? ==> p.value < |hits| && hits[p.value].id == id
    ensures p.None? ==> forall i | 0 <= i < |hits| :: hits[i].id != id
  {
    if i: nat :| i < |hits| && hits[i].id == id then Some(i) else None
  }

  /** COALESCE(1.0 / (60 + rank), 0) */
  function Share(position: Option<nat>): real {
    if position.Some? then 1.0 / (60 + (position.value + 1)) as real else 0.0
  }

  ghost predicate Joined(semantic: seq<Hit>, lexical: seq<Hit>, id: string) {
    Position(semantic, id).Some? || Position(lexical, id).Some?
  }

  ghost function JoinRow(semantic: seq<Hit>, lexical: seq<Hit>, id: string): Hit
    requires Joined(semantic, lexical, id)
  {
    var s, l := Position(semantic, id), Position(lexical, id);
    var row := if s.Some? then semantic[s.value] else lexical[l.value];
    var rrf := Share(s) + Share(l);
    row.(vectorRank := if s.Some? then s.value + 1 else 0,
         vectorScore := if s.Some? then semantic[s.value].vectorScore else 0.0,
         lexicalRank := if l.Some? then l.value + 1 else 0,
         lexicalScore := if l.Some? then lexical[l.value].lexicalScore else 0.0,
         rrfScore := rrf, score := rrf)
  }

  ghost function HybridRows(semantic: seq<Hit>, lexical: seq<Hit>): set<Hit> {
    set hit | hit in semantic + lexical && Joined(semantic, lexical, hit.id) :: JoinRow(semantic, lexical, hit.id)
  }

  // ----- The two forms agree

  lemma PositionOf(hits: seq<Hit>, i: nat)
    requires DistinctHits(hits) && i < |hits|
    ensures Position(hits, hits[i].id) == Some(i)
  {
  }

  lemma {:induction false} VectorMapAt(hits: seq<Hit>, id: string)
    requires DistinctHits(hits)
    ensures id in VectorMap(hits) <==> Position(hits, id).Some?
    ensures Position(hits, id).Some? ==>
      VectorMap(hits)[id] == FromVector(hits[Position(hits, id).value], Position(hits, id).value)
  {
    if hits != [] {
      var n := |hits| - 1;
      VectorMapAt(hits[..n], id);
      var p := Position(hits, id);
      if p.Some? && p.value < n {
        PositionOf(hits[..n], p.value);
      }
    }
  }

  lemma {:induction false} LexicalMapAt(base: map<string, Hit>, hits: seq<Hit>, id: string)
    requires DistinctHits(hits)
    ensures id in LexicalMap(base, hits) <==> id in base || Position(hits, id).Some?
    ensures id in LexicalMap(base, hits) ==>
      LexicalMap(base, hits)[id] ==
        var p := Position(hits, id);
        if p.None? then base[id]
        else if id in base then InBoth(base[id], hits[p.value], p.value)
        else FromLexical(hits[p.value], p.value)
  {
    if hits != [] {
      var n := |hits| - 1;
      LexicalMapAt(base, hits[..n], id);
      var p := Position(hits, id);
      if p.Some? && p.value < n {
        PositionOf(hits[..n], p.value);
      }
    }
  }

  lemma RowsAgree(vectorHits: seq<Hit>, lexicalHits: seq<Hit>, id: string)
    requires VectorCandidates(vectorHits) && LexicalCandidates(lexicalHits)
    ensures id in Combined(vectorHits, lexicalHits) <==> Joined(vectorHits, lexicalHits, id)
    ensures Joined(vectorHits, lexicalHits, id) ==>
      Scored(Combined(vectorHits, lexicalHits)[id]) == JoinRow(vectorHits, lexicalHits, id)
  {
    VectorMapAt(vectorHits, id);
    LexicalMapAt(VectorMap(vectorHits), lexicalHits, id);
  }

  lemma FusedRowsAreJoinRows(vectorHits: seq<Hit>, lexicalHits: seq<Hit>)
    requires VectorCandidates(vectorHits) && LexicalCandidates(lexicalHits)
    ensures FusedRows(vectorHits, lexicalHits) == HybridRows(vectorHits, lexicalHits)
  {
    var combined := Combined(vectorHits, lexicalHits);
    forall row | row in FusedRows(vectorHits, lexicalHits) ensures row in HybridRows(vectorHits, lexicalHits) {
      var id :| id in combined && row == Scored(combined[id]);
      RowsAgree(vectorHits, lexicalHits, id);
      var s, l := Position(vectorHits, id), Position(lexicalHits, id);
      var hit := if s.Some? then vectorHits[s.value] else lexicalHits[l.value];
      assert hit in vectorHits + lexicalHits && Joined(vectorHits, lexicalHits, hit.id);
    }
    forall row | row in HybridRows(vectorHits, lexicalHits) ensures row in FusedRows(vectorHits, lexicalHits) {
      var hit :| hit in vectorHits + lexicalHits && Joined(vectorHits, lexicalHits, hit.id)
        && row == JoinRow(vectorHits, lexicalHits, hit.id);
      RowsAgree(vectorHits, lexicalHits, hit.id);
    }
  }

  /**
    On the candidates of the two searches, whatever fuseRRF may return and whatever the
    searchHybrid query may return are one and the same list: ids, ranks, scores, order, and cut.
   */
  lemma FusionAgreesWithQuery(vectorHits: seq<Hit>, lexicalHits: seq<Hit>, topK: nat, fused: seq<Hit>,
        queried: seq<Hit>)
    requires VectorCandidates(vectorHits) && LexicalCandidates(lexicalHits)
    requires FirstRows(BY_FUSED_SCORE, FusedRows(vectorHits, lexicalHits), topK, fused)
    requires FirstRows(BY_FUSED_SCORE, HybridRows(vectorHits, lexicalHits), topK, queried)
    ensures fused == queried
  {
    FusedRowsAreJoinRows(vectorHits, lexicalHits);
    FusedRowsDistinct(vectorHits, lexicalHits);
    AheadIsTotal(FusedRows(vectorHits, lexicalHits));
    FirstRowsUnique(BY_FUSED_SCORE, FusedRows(vectorHits, lexicalHits), topK, fused, queried);
  }

  /** The result does not depend on the order in which Go walks the map, for any input lists. */
  lemma FusionIsDeterministic(vectorHits: seq<Hit>, lexicalHits: seq<Hit>, topK: nat, one: seq<Hit>, other: seq<Hit>)
    requires FirstRows(BY_FUSED_SCORE, FusedRows(vectorHits, lexicalHits), topK, one)
    requires FirstRows(BY_FUSED_SCORE, FusedRows(vectorHits, lexicalHits), topK, other)
    ensures one == other
  {
    FusedRowsDistinct(vectorHits, lexicalHits);
    AheadIsTotal(FusedRows(vectorHits, lexicalHits));
    FirstRowsUnique(BY_FUSED_SCORE, FusedRows(vectorHits, lexicalHits), topK, one, other);
  }

  // ----- Fusion respects agreement of the lists

  /** Wherever b is listed, a is listed before it. */
  ghost predicate Leads(hits: seq<Hit>, a: string, b: string) {
    Position(hits, b).Some? ==> Position(hits, a).Some? && Position(hits, a).value <= Position(hits, b).value
  }

  lemma ShareDecreases(i: nat, j: nat)
    requires i < j
    ensures Share(Some(i)) > Share(Some(j)) > 0.0
  {
    var x, y := (61 + i) as real, (61 + j) as real;
    assert 1.0 / x - 1.0 / y == (y - x) / (x * y);
    assert (y - x) / (x * y) > 0.0;
  }

  lemma LeadingShare(hits: seq<Hit>, a: string, b: string)
    requires Leads(hits, a, b) && a != b
    ensures Share(Position(hits, a)) >= Share(Position(hits, b)) >= 0.0
    ensures Position(hits, b).Some? ==> Share(Position(hits, a)) > Share(Position(hits, b))
  {
    if Position(hits, b).Some? {
      assert hits[Position(hits, a).value].id == a && hits[Position(hits, b).value].id == b;
      ShareDecreases(Position(hits, a).value, Position(hits, b).value);
    }
  }

  /**
    A chunk that precedes another in every list naming the other is ahead of it after fusion,
    so it also survives the cut whenever the other does.
   */
  lemma AgreementIsKept(vectorHits: seq<Hit>, lexicalHits: seq<Hit>, topK: nat, result: seq<Hit>, a: string, b: string)
    requires VectorCandidates(vectorHits) && LexicalCandidates(lexicalHits)
    requires FirstRows(BY_FUSED_SCORE, FusedRows(vectorHits, lexicalHits), topK, result)
    requires Leads(vectorHits, a, b) && Leads(lexicalHits, a, b) && a != b
    requires exists j :: 0 <= j < |result| && result[j].id == b
    ensures exists i, j :: 0 <= i < j < |result| && result[i].id == a && result[j].id == b
  {
    var j :| 0 <= j < |result| && result[j].id == b;
    var combined := Combined(vectorHits, lexicalHits);
    CombinedIds(vectorHits, lexicalHits);
    assert result[j] in FusedRows(vectorHits, lexicalHits);
    assert b in combined && result[j] == Scored(combined[b]);
    LeaderIsAhead(vectorHits, lexicalHits, a, b);
    var row := Scored(combined[a]);
    assert row in FusedRows(vectorHits, lexicalHits) && row in result;
    var i :| 0 <= i < |result| && result[i] == row;
    assert !BY_FUSED_SCORE(result[j], result[i]);
  }

  lemma LeaderIsAhead(vectorHits: seq<Hit>, lexicalHits: seq<Hit>, a: string, b: string)
    requires VectorCandidates(vectorHits) && LexicalCandidates(lexicalHits)
    requires Leads(vectorHits, a, b) && Leads(lexicalHits, a, b) && a != b
    requires b in Combined(vectorHits, lexicalHits)
    ensures a in Combined(vectorHits, lexicalHits)
    ensures Scored(Combined(vectorHits, lexicalHits)[a]).id == a
    ensures var x, y := Scored(Combined(vectorHits, lexicalHits)[a]), Scored(Combined(vectorHits, lexicalHits)[b]);
      BY_FUSED_SCORE(x, y) && !BY_FUSED_SCORE(y, x)
  {
    RowsAgree(vectorHits, lexicalHits, a);
    RowsAgree(vectorHits, lexicalHits, b);
    LeadingShare(vectorHits, a, b);
    LeadingShare(lexicalHits, a, b);
    CombinedIds(vectorHits, lexicalHits);
  }
}
