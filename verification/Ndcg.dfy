/** The normalised discounted cumulative gain of a ranking, for any positive decreasing discount. */
module Ndcg {
  import opened Ranking

  /** 1 / log2(i + 2) is one such discount. */
  ghost predicate IsDiscount(discount: nat -> real) {
    && (forall i: nat :: discount(i) > 0.0)
    && (forall i: nat, j: nat | i < j :: discount(j) < discount(i))
  }

  function NamesOf(documents: seq<string>, normalize: string -> string): (names: seq<string>)
    ensures |names| == |documents|
  {
    seq(|documents|, i requires 0 <= i < |documents| => normalize(documents[i]))
  }

  function SetOf(names: seq<string>): set<string> {
    set name | name in names
  }

  /** A hit counts when it is relevant and no hit before it has the same document. */
  predicate Counts(names: seq<string>, wanted: set<string>, i: nat)
    requires i < |names|
  {
    names[i] in wanted && names[i] !in names[..i]
  }

  function Gain(names: seq<string>, wanted: set<string>, discount: nat -> real, n: nat): real
    requires n <= |names|
  {
    if n == 0 then 0.0
    else Gain(names, wanted, discount, n - 1) + if Counts(names, wanted, n - 1) then discount(n - 1) else 0.0
  }

  function Ideal(discount: nat -> real, n: nat): real {
    if n == 0 then 0.0 else Ideal(discount, n - 1) + discount(n - 1)
  }

  function Min(a: int, b: int): int {
    if a < b then a else b
  }

  function Score(names: seq<string>, wanted: set<string>, k: int, discount: nat -> real): real
    requires wanted != {} && 1 <= k ==> Ideal(discount, Min(|wanted|, k)) != 0.0
  {
    if wanted == {} || k < 1 then 0.0
    else Gain(names, wanted, discount, Min(|names|, k)) / Ideal(discount, Min(|wanted|, k))
  }

  lemma {:induction false} IdealGrows(discount: nat -> real, n: nat, m: nat)
    requires IsDiscount(discount) && n <= m
    ensures 0.0 <= Ideal(discount, n) <= Ideal(discount, m)
    ensures n < m ==> Ideal(discount, n) < Ideal(discount, m)
    decreases m
  {
    if n < m {
      IdealGrows(discount, n, m - 1);
    } else if 0 < n {
      IdealGrows(discount, n - 1, n - 1);
    }
  }

  /** relevantDocumentSet */
  method RelevantDocumentSet(documents: seq<string>, normalize: string -> string) returns (wanted: set<string>)
    ensures wanted == SetOf(NamesOf(documents, normalize))
  {
    wanted := {};
    ghost var names := NamesOf(documents, normalize);
    var i := 0;
    while i < |documents|
      invariant 0 <= i <= |documents| && wanted == SetOf(names[..i])
    {
      assert names[..i + 1] == names[..i] + [names[i]];
      wanted := wanted + {normalize(documents[i])};
      i := i + 1;
    }
    assert names[..i] == names;
  }

  /** The first loop of ndcgAtK. */
  method GainOfHits(hits: seq<string>, wanted: set<string>, k: int, normalize: string -> string, discount: nat -> real)
    returns (dcg: real)
    requires 1 <= k
    ensures dcg == Gain(NamesOf(hits, normalize), wanted, discount, Min(|hits|, k))
  {
    ghost var names := NamesOf(hits, normalize);
    var seen: set<string> := {};
    dcg := 0.0;
    var i: nat := 0;
    while i < |hits| && i < k
      invariant i <= Min(|hits|, k) && dcg == Gain(names, wanted, discount, i)
      invariant forall name :: name in seen <==> name in names[..i] && name in wanted
    {
      var name := normalize(hits[i]);
      assert names[..i + 1] == names[..i] + [name];
      if name in wanted && name !in seen {
        seen := seen + {name};
        dcg := dcg + discount(i);
      }
      i := i + 1;
    }
  }

  /** The second loop of ndcgAtK. */
  method IdealGain(discount: nat -> real, count: nat) returns (ideal: real)
    ensures ideal == Ideal(discount, count)
  {
    ideal := 0.0;
    var i: nat := 0;
    while i < count
      invariant i <= count && ideal == Ideal(discount, i)
    {
      ideal := ideal + discount(i);
      i := i + 1;
    }
  }

  /** ndcgAtK */
  method NdcgAtK(hits: seq<string>, relevant: seq<string>, k: int, normalize: string -> string, discount: nat -> real)
    returns (score: real)
    requires IsDiscount(discount)
    ensures var names, wanted := NamesOf(hits, normalize), SetOf(NamesOf(relevant, normalize));
      && (wanted != {} && 1 <= k ==> Ideal(discount, Min(|wanted|, k)) != 0.0)
      && score == Score(names, wanted, k, discount)
  {
    var wanted := RelevantDocumentSet(relevant, normalize);
    if |wanted| == 0 || k < 1 {
      return 0.0;
    }
    var dcg := GainOfHits(hits, wanted, k, normalize, discount);
    var idealCount := |wanted|;
    if idealCount > k { idealCount := k; }
    IdealGrows(discount, 0, idealCount);
    var ideal := IdealGain(discount, idealCount);
    return dcg / ideal;
  }

  // ----- The score is in [0, 1], and 1 for perfect rankings only

  function Seen(names: seq<string>, wanted: set<string>, n: nat): set<string>
    requires n <= |names|
  {
    SetOf(names[..n]) * wanted
  }

  lemma SeenMore(names: seq<string>, wanted: set<string>, n: nat)
    requires n < |names|
    ensures |Seen(names, wanted, n + 1)| == |Seen(names, wanted, n)| + if Counts(names, wanted, n) then 1 else 0
  {
    assert names[..n + 1] == names[..n] + [names[n]];
    if Counts(names, wanted, n) {
      assert Seen(names, wanted, n + 1) == Seen(names, wanted, n) + {names[n]};
    } else {
      assert Seen(names, wanted, n + 1) == Seen(names, wanted, n);
    }
  }

  /** The first m hits count: they are distinct relevant documents. */
  predicate Perfect(names: seq<string>, wanted: set<string>, m: nat) {
    m <= |names| && forall i: nat | i < m :: Counts(names, wanted, i)
  }

  /** Counted hits never gain more than the same number of hits at the top would. */
  lemma {:induction false} GainIsAtMostIdeal(names: seq<string>, wanted: set<string>, discount: nat -> real, n: nat)
    requires IsDiscount(discount) && n <= |names|
    ensures |Seen(names, wanted, n)| <= n
    ensures 0.0 <= Gain(names, wanted, discount, n) <= Ideal(discount, |Seen(names, wanted, n)|)
    ensures Gain(names, wanted, discount, n) == Ideal(discount, |Seen(names, wanted, n)|)
      ==> Perfect(names, wanted, |Seen(names, wanted, n)|)
  {
    if n > 0 {
      GainIsAtMostIdeal(names, wanted, discount, n - 1);
      SeenMore(names, wanted, n - 1);
    } else {
      assert Seen(names, wanted, 0) == {};
    }
  }

  lemma {:induction false} PerfectGain(names: seq<string>, wanted: set<string>, discount: nat -> real, m: nat, n: nat)
    requires IsDiscount(discount) && Perfect(names, wanted, m) && m <= n <= |names|
    ensures Gain(names, wanted, discount, n) >= Ideal(discount, m)
    decreases n
  {
    if n > m {
      PerfectGain(names, wanted, discount, m, n - 1);
    } else if n > 0 {
      PerfectGain(names, wanted, discount, m - 1, n - 1);
    }
  }

  lemma SubsetIsSmaller<T>(a: set<T>, b: set<T>)
    requires a <= b
    ensures |a| <= |b|
  {
    assert b == a + (b - a);
  }

  lemma Ratio(a: real, b: real)
    requires 0.0 <= a <= b && 0.0 < b
    ensures 0.0 <= a / b <= 1.0 && (a / b == 1.0 <==> a == b)
  {
    assert a / b * b == a;
  }

  /**
    The score lies in [0, 1], and is 1 exactly when the first min(k, number of relevant
    documents) hits exist and are distinct relevant documents; nothing wanted, or k < 1, scores 0.
   */
  lemma ScoreBounds(names: seq<string>, wanted: set<string>, k: int, discount: nat -> real)
    requires IsDiscount(discount)
    ensures wanted != {} && 1 <= k ==> Ideal(discount, Min(|wanted|, k)) > 0.0
    ensures 0.0 <= Score(names, wanted, k, discount) <= 1.0
    ensures Score(names, wanted, k, discount) == 1.0
      <==> wanted != {} && 1 <= k && Perfect(names, wanted, Min(|wanted|, k))
  {
    if wanted != {} && 1 <= k {
      var n, m := Min(|names|, k), Min(|wanted|, k);
      var seen := |Seen(names, wanted, n)|;
      SubsetIsSmaller(Seen(names, wanted, n), wanted);
      GainIsAtMostIdeal(names, wanted, discount, n);
      IdealGrows(discount, 0, m);
      IdealGrows(discount, seen, m);
      Ratio(Gain(names, wanted, discount, n), Ideal(discount, m));
      if Perfect(names, wanted, m) {
        PerfectGain(names, wanted, discount, m, n);
      }
    }
  }

  // ----- The gain as a sum

  /** Position i holds the first hit of a relevant document. */
  ghost predicate FindsNew(names: seq<string>, wanted: set<string>, i: nat) {
    i < |names| && names[i] in wanted && forall j | 0 <= j < i :: names[j] != names[i]
  }

  /** The positions below n that do. */
  ghost function Finds(names: seq<string>, wanted: set<string>, n: nat): seq<nat> {
    Only<nat>((i: nat) => FindsNew(names, wanted, i), UpTo(n))
  }

  lemma FindsMore(names: seq<string>, wanted: set<string>, n: nat)
    ensures Finds(names, wanted, n + 1) == Finds(names, wanted, n) + if FindsNew(names, wanted, n) then [n] else []
  {
    assert UpTo(n + 1) == UpTo(n) + [n];
    OnlyBefore<nat>((i: nat) => FindsNew(names, wanted, i), UpTo(n), n);
  }

  function UpTo(n: nat): (numbers: seq<nat>)
    ensures |numbers| == n && forall i | 0 <= i < n :: numbers[i] == i
  {
    seq(n, i => i)
  }

  function SumAt(discount: nat -> real, places: seq<nat>): real {
    if places == [] then 0.0 else discount(places[0]) + SumAt(discount, places[1..])
  }

  lemma {:induction false} SumAtMore(discount: nat -> real, places: seq<nat>, last: nat)
    ensures SumAt(discount, places + [last]) == SumAt(discount, places) + discount(last)
  {
    if places == [] {
      assert places + [last] == [last] && [last][1..] == [];
    } else {
      assert (places + [last])[1..] == places[1..] + [last];
      SumAtMore(discount, places[1..], last);
    }
  }

  /** The gain of the first n hits is the sum of the discounts at the first hits of relevant documents. */
  lemma {:induction false} GainMeans(names: seq<string>, wanted: set<string>, discount: nat -> real, n: nat)
    requires n <= |names|
    ensures Gain(names, wanted, discount, n) == SumAt(discount, Finds(names, wanted, n))
  {
    if n > 0 {
      GainMeans(names, wanted, discount, n - 1);
      FindsMore(names, wanted, n - 1);
      CountsMeans(names, wanted, n - 1);
      SumAtMore(discount, Finds(names, wanted, n - 1), n - 1);
      assert Finds(names, wanted, n - 1) + [] == Finds(names, wanted, n - 1);
    }
  }

  lemma CountsMeans(names: seq<string>, wanted: set<string>, i: nat)
    requires i < |names|
    ensures Counts(names, wanted, i) <==> FindsNew(names, wanted, i)
  {
  }

  /** The ideal gain is the sum of the first discounts. */
  lemma {:induction false} IdealMeans(discount: nat -> real, n: nat)
    ensures Ideal(discount, n) == SumAt(discount, UpTo(n))
  {
    if n > 0 {
      IdealMeans(discount, n - 1);
      assert UpTo(n) == UpTo(n - 1) + [n - 1];
      SumAtMore(discount, UpTo(n - 1), n - 1);
    }
  }

  /** The score is the gain of the first k hits over the best gain that so many relevant documents allow. */
  lemma ScoreMeans(names: seq<string>, wanted: set<string>, k: int, discount: nat -> real, hits: nat, best: nat)
    requires IsDiscount(discount) && wanted != {} && 1 <= k
    requires hits == (if |names| < k then |names| else k) && best == if |wanted| < k then |wanted| else k
    ensures SumAt(discount, UpTo(best)) > 0.0
    ensures Ideal(discount, Min(|wanted|, k)) != 0.0
    ensures Score(names, wanted, k, discount)
      == SumAt(discount, Finds(names, wanted, hits)) / SumAt(discount, UpTo(best))
  {
    GainMeans(names, wanted, discount, hits);
    IdealMeans(discount, best);
    ScoreBounds(names, wanted, k, discount);
  }
}
