/** The records that retrieval and chunking pass around. */
module Records {
  import opened Options

  /** An absent key of the source's metadata map is an empty path, an empty string or None. */
  datatype Metadata = Metadata(blockType: string, headingPath: seq<string>, language: string, page: Option<int>)

  datatype Hit = Hit(
    id: string, documentId: string, documentName: string, content: string, metadata: Metadata,
    score: real, vectorRank: nat, vectorScore: real, lexicalRank: nat, lexicalScore: real,
    rrfScore: real, rerankRank: nat, rerankScore: real, finalRank: nat)

  /** How many hits a document may have: a limit below 1 means 2. */
  function DocumentCap(maxPerDocument: int): (cap: nat)
    ensures 1 <= cap
    ensures cap == maxPerDocument || (maxPerDocument <= 0 && cap == 2)
  {
    if maxPerDocument < 1 then 2 else maxPerDocument
  }

  /** A missing key of a Go map reads as zero. */
  function CountIn(counts: map<string, nat>, doc: string): nat {
    if doc in counts then counts[doc] else 0
  }
}

/** Orders, stable sorting, and the rows an ORDER BY ... LIMIT returns. */
module Ranking {

  /** The order of strings by their first different character. */
  predicate Less(a: string, b: string) {
    b != [] && (a == [] || a[0] < b[0] || (a[0] == b[0] && Less(a[1..], b[1..])))
  }

  lemma {:induction false} LessIsStrict(a: string, b: string)
    ensures !(Less(a, b) && Less(b, a))
    ensures a != b ==> Less(a, b) || Less(b, a)
    ensures !Less(a, a)
  {
    if a != [] && b != [] {
      LessIsStrict(a[1..], b[1..]);
      LessIsStrict(a[1..], a[1..]);
      if a[0] == b[0] && a[1..] == b[1..] {
        assert a == [a[0]] + a[1..] && b == [b[0]] + b[1..];
      }
    } else if a != [] {
      LessIsStrict(a[1..], a[1..]);
    }
  }

  /** A string precedes another where it first differs from it: it ends there, or has the smaller character. */
  lemma {:induction false} LessMeans(a: string, b: string)
    ensures Less(a, b) <==> exists k :: 0 <= k <= |a| && k < |b| && a[..k] == b[..k] && (k == |a| || a[k] < b[k])
  {
    if a != [] && b != [] && a[0] == b[0] {
      LessMeans(a[1..], b[1..]);
      assert a == [a[0]] + a[1..] && b == [b[0]] + b[1..];
      if Less(a, b) {
        var k :| 0 <= k <= |a[1..]| && k < |b[1..]| && a[1..][..k] == b[1..][..k]
          && (k == |a[1..]| || a[1..][k] < b[1..][k]);
        assert a[..k + 1] == [a[0]] + a[1..][..k] && b[..k + 1] == [b[0]] + b[1..][..k];
      }
      if k :| 0 <= k <= |a| && k < |b| && a[..k] == b[..k] && (k == |a| || a[k] < b[k]) {
        assert k > 0;
        assert a[1..][..k - 1] == a[..k][1..] && b[1..][..k - 1] == b[..k][1..];
      }
    } else if a == [] && b != [] {
      assert a[..0] == b[..0];
    } else if a != [] && b != [] {
      assert a[..0] == b[..0];
      forall k | 0 < k <= |a| && k < |b| ensures a[..k] != b[..k] {
        assert a[..k][0] == a[0] && b[..k][0] == b[0];
      }
    }
  }

  lemma {:induction false} LessIsTransitive(a: string, b: string, c: string)
    requires Less(a, b) && Less(b, c)
    ensures Less(a, c)
  {
    if a != [] {
      if a[0] == b[0] && b[0] == c[0] {
        LessIsTransitive(a[1..], b[1..], c[1..]);
      }
    }
  }

  // ----- Strict orders

  /** Ties are allowed, but being tied is transitive. */
  ghost predicate WeakOrder<T(!new)>(less: (T, T) -> bool) {
    && (forall x, y :: !(less(x, y) && less(y, x)))
    && (forall x, y, z :: less(x, z) ==> less(x, y) || less(y, z))
  }

  ghost predicate Sorted<T>(less: (T, T) -> bool, xs: seq<T>) {
    forall i, j | 0 <= i < j < |xs| :: !less(xs[j], xs[i])
  }

  ghost predicate StrictlySorted<T>(less: (T, T) -> bool, xs: seq<T>) {
    forall i, j | 0 <= i < j < |xs| :: less(xs[i], xs[j])
  }

  // ----- The library's stable sort

  /** x goes behind everything it is not less than. */
  function Insert<T>(less: (T, T) -> bool, xs: seq<T>, x: T): (ys: seq<T>)
    ensures multiset(ys) == multiset(xs) + multiset{x}
    ensures |ys| == |xs| + 1
  {
    if xs == [] || less(x, xs[0]) then [x] + xs
    else
      assert xs == [xs[0]] + xs[1..];
      [xs[0]] + Insert(less, xs[1..], x)
  }

  function SortStable<T>(less: (T, T) -> bool, xs: seq<T>): (ys: seq<T>)
    ensures multiset(ys) == multiset(xs)
    ensures |ys| == |xs|
  {
    if xs == [] then []
    else
      assert xs == xs[..|xs| - 1] + [xs[|xs| - 1]];
      Insert(less, SortStable(less, xs[..|xs| - 1]), xs[|xs| - 1])
  }

  lemma {:induction false} InsertSorts<T(!new)>(less: (T, T) -> bool, xs: seq<T>, x: T)
    requires WeakOrder(less) && Sorted(less, xs)
    ensures Sorted(less, Insert(less, xs, x))
  {
    if xs != [] && !less(x, xs[0]) {
      var rest := Insert(less, xs[1..], x);
      InsertSorts(less, xs[1..], x);
      forall j | 0 <= j < |rest| ensures !less(rest[j], xs[0]) {
        assert rest[j] in multiset(rest);
        assert rest[j] == x || rest[j] in xs[1..];
      }
    } else if xs != [] {
      forall j | 0 <= j < |xs| ensures !less(xs[j], x) {
        assert less(x, xs[j]) || less(xs[j], xs[0]) by { assert less(x, xs[0]); }
      }
    }
  }

  lemma {:induction false} SortSorts<T(!new)>(less: (T, T) -> bool, xs: seq<T>)
    requires WeakOrder(less)
    ensures Sorted(less, SortStable(less, xs))
  {
    if xs != [] {
      SortSorts(less, xs[..|xs| - 1]);
      InsertSorts(less, SortStable(less, xs[..|xs| - 1]), xs[|xs| - 1]);
    }
  }

  function If<T>(b: bool, x: T): seq<T> { if b then [x] else [] }

  /** The elements of one kind, in order. */
  function Only<T>(kind: T -> bool, xs: seq<T>): seq<T> {
    if xs == [] then [] else If(kind(xs[0]), xs[0]) + Only(kind, xs[1..])
  }

  lemma OnlyBehind<T>(kind: T -> bool, x: T, xs: seq<T>)
    ensures Only(kind, [x] + xs) == If(kind(x), x) + Only(kind, xs)
  {
    assert ([x] + xs)[1..] == xs;
  }

  lemma {:induction false} OnlyBefore<T>(kind: T -> bool, xs: seq<T>, x: T)
    ensures Only(kind, xs + [x]) == Only(kind, xs) + If(kind(x), x)
  {
    if xs == [] {
      assert [] + [x] == [x] && [x][1..] == [];
    } else {
      OnlyBefore(kind, xs[1..], x);
      assert (xs + [x])[1..] == xs[1..] + [x];
      Regroup(If(kind(xs[0]), xs[0]), Only(kind, xs[1..]), If(kind(x), x));
    }
  }

  lemma Regroup<T>(a: seq<T>, b: seq<T>, c: seq<T>)
    ensures a + (b + c) == (a + b) + c
  {
  }

  lemma {:induction false} NoneOfKind<T>(kind: T -> bool, xs: seq<T>)
    requires forall i | 0 <= i < |xs| :: !kind(xs[i])
    ensures Only(kind, xs) == []
  {
    if xs != [] {
      NoneOfKind(kind, xs[1..]);
    }
  }

  lemma NoTieBehind<T(!new)>(less: (T, T) -> bool, xs: seq<T>, x: T, kind: T -> bool)
    requires WeakOrder(less) && Sorted(less, xs) && xs != [] && less(x, xs[0]) && kind(x)
    requires forall y, z | kind(y) && kind(z) :: !less(y, z)
    ensures Only(kind, xs) == []
  {
    forall i | 0 <= i < |xs| ensures !kind(xs[i]) {
      var y := xs[i];
      assert !less(y, xs[0]) && less(x, y);
    }
    NoneOfKind(kind, xs);
  }

  lemma {:induction false} InsertIsStable<T(!new)>(less: (T, T) -> bool, xs: seq<T>, x: T, kind: T -> bool)
    requires WeakOrder(less) && Sorted(less, xs)
    requires forall y, z | kind(y) && kind(z) :: !less(y, z)
    ensures Only(kind, Insert(less, xs, x)) == Only(kind, xs) + If(kind(x), x)
  {
    if xs == [] || less(x, xs[0]) {
      OnlyBehind(kind, x, xs);
      if xs != [] && kind(x) {
        NoTieBehind(less, xs, x, kind);
      }
    } else {
      InsertIsStable(less, xs[1..], x, kind);
      OnlyBehind(kind, xs[0], Insert(less, xs[1..], x));
      Regroup(If(kind(xs[0]), xs[0]), Only(kind, xs[1..]), If(kind(x), x));
    }
  }

  lemma SortStep<T>(less: (T, T) -> bool, before: seq<T>, x: T)
    ensures SortStable(less, before + [x]) == Insert(less, SortStable(less, before), x)
  {
    assert (before + [x])[..|before|] == before;
  }

  /** Elements that tie keep their order. */
  lemma {:induction false} SortIsStable<T(!new)>(less: (T, T) -> bool, xs: seq<T>, kind: T -> bool)
    requires WeakOrder(less) && forall y, z | kind(y) && kind(z) :: !less(y, z)
    ensures Only(kind, SortStable(less, xs)) == Only(kind, xs)
  {
    if xs != [] {
      var before, x := xs[..|xs| - 1], xs[|xs| - 1];
      assert xs == before + [x];
      SortSorts(less, before);
      SortIsStable(less, before, kind);
      SortStep(less, before, x);
      InsertIsStable(less, SortStable(less, before), x, kind);
      OnlyBefore(kind, before, x);
    }
  }

  /** Sorting a sorted sequence changes nothing: this is where stability shows. */
  lemma {:induction false} SortKeepsSorted<T(!new)>(less: (T, T) -> bool, xs: seq<T>)
    requires Sorted(less, xs)
    ensures SortStable(less, xs) == xs
  {
    if xs != [] {
      var before, x := xs[..|xs| - 1], xs[|xs| - 1];
      assert xs == before + [x];
      SortKeepsSorted(less, before);
      SortStep(less, before, x);
      InsertLast(less, before, x);
    }
  }

  lemma {:induction false} InsertLast<T>(less: (T, T) -> bool, xs: seq<T>, x: T)
    requires forall i | 0 <= i < |xs| :: !less(x, xs[i])
    ensures Insert(less, xs, x) == xs + [x]
  {
    if xs != [] {
      InsertLast(less, xs[1..], x);
      assert xs == [xs[0]] + xs[1..];
    }
  }

  // ----- ORDER BY ... LIMIT

  ghost predicate TotalOn<T(!new)>(less: (T, T) -> bool, rows: set<T>) {
    && (forall x | x in rows :: !less(x, x))
    && (forall x, y | x in rows && y in rows && x != y :: less(x, y) || less(y, x))
    && (forall x, y | x in rows && y in rows :: !(less(x, y) && less(y, x)))
  }

  /** `result` lists the first k rows: they are in order, and every other row comes after all of them. */
  ghost predicate FirstRows<T>(less: (T, T) -> bool, rows: set<T>, k: nat, result: seq<T>) {
    && |result| == (if k < |rows| then k else |rows|)
    && (forall x | x in result :: x in rows)
    && StrictlySorted(less, result)
    && forall x, y | x in rows && x !in result && y in result :: less(y, x)
  }

  function Elements<T>(xs: seq<T>): set<T> {
    set x | x in xs
  }

  lemma {:induction false} DistinctSize<T>(xs: seq<T>)
    requires forall i, j | 0 <= i < j < |xs| :: xs[i] != xs[j]
    ensures |Elements(xs)| == |xs|
  {
    if xs != [] {
      var n := |xs| - 1;
      DistinctSize(xs[..n]);
      assert Elements(xs) == Elements(xs[..n]) + {xs[n]};
    } else {
      assert Elements(xs) == {};
    }
  }

  lemma {:induction false} SameElementsSameOrder<T(!new)>(less: (T, T) -> bool, rows: set<T>, xs: seq<T>, ys: seq<T>)
    requires TotalOn(less, rows) && Elements(xs) <= rows
    requires StrictlySorted(less, xs) && StrictlySorted(less, ys) && Elements(xs) == Elements(ys)
    ensures xs == ys
  {
    EmptyElements(xs);
    EmptyElements(ys);
    if xs != [] {
      HeadIsLeast(less, xs, ys[0]);
      HeadIsLeast(less, ys, xs[0]);
      assert xs[0] == ys[0];
      TailElements(less, rows, xs);
      TailElements(less, rows, ys);
      SameElementsSameOrder(less, rows, xs[1..], ys[1..]);
      assert xs == [xs[0]] + xs[1..] && ys == [ys[0]] + ys[1..];
    }
  }

  lemma EmptyElements<T>(xs: seq<T>)
    ensures xs == [] <==> Elements(xs) == {}
    ensures xs != [] ==> xs[0] in Elements(xs)
  {
    if xs != [] {
      assert xs[0] in Elements(xs);
    }
  }

  lemma HeadIsLeast<T(!new)>(less: (T, T) -> bool, xs: seq<T>, x: T)
    requires StrictlySorted(less, xs) && x in Elements(xs)
    ensures xs != [] && (x == xs[0] || less(xs[0], x))
  {
    var i :| 0 <= i < |xs| && xs[i] == x;
  }

  lemma TailElements<T(!new)>(less: (T, T) -> bool, rows: set<T>, xs: seq<T>)
    requires TotalOn(less, rows) && Elements(xs) <= rows && StrictlySorted(less, xs) && xs != []
    ensures Elements(xs[1..]) == Elements(xs) - {xs[0]}
  {
    forall x | x in Elements(xs[1..]) ensures x in Elements(xs) - {xs[0]} {
      var i :| 0 <= i < |xs[1..]| && xs[1..][i] == x;
      assert less(xs[0], xs[i + 1]);
      assert xs[0] in Elements(xs) && x in Elements(xs);
    }
    forall x | x in Elements(xs) - {xs[0]} ensures x in Elements(xs[1..]) {
      var i :| 0 <= i < |xs| && xs[i] == x;
      assert xs[1..][i - 1] == x;
    }
  }

  lemma SortedIsDistinct<T(!new)>(less: (T, T) -> bool, rows: set<T>, xs: seq<T>)
    requires TotalOn(less, rows) && Elements(xs) <= rows && StrictlySorted(less, xs)
    ensures |Elements(xs)| == |xs|
  {
    forall i, j | 0 <= i < j < |xs| ensures xs[i] != xs[j] {
      assert xs[i] in Elements(xs) && less(xs[i], xs[j]);
    }
    DistinctSize(xs);
  }

  /** ORDER BY ... LIMIT has one answer when the order is total on the rows. */
  lemma FirstRowsUnique<T(!new)>(less: (T, T) -> bool, rows: set<T>, k: nat, xs: seq<T>, ys: seq<T>)
    requires TotalOn(less, rows) && FirstRows(less, rows, k, xs) && FirstRows(less, rows, k, ys)
    ensures xs == ys
  {
    FirstRowsContained(less, rows, k, xs, ys);
    FirstRowsContained(less, rows, k, ys, xs);
    SameElementsSameOrder(less, rows, xs, ys);
  }

  lemma FirstRowsContained<T(!new)>(less: (T, T) -> bool, rows: set<T>, k: nat, xs: seq<T>, ys: seq<T>)
    requires TotalOn(less, rows) && FirstRows(less, rows, k, xs) && FirstRows(less, rows, k, ys)
    ensures Elements(xs) <= Elements(ys)
  {
    SortedIsDistinct(less, rows, xs);
    SortedIsDistinct(less, rows, ys);
    if x :| x in Elements(xs) && x !in Elements(ys) {
      var y := Exchanged(Elements(xs), Elements(ys), x);
    }
  }

  /** Of two different sets of the same size, neither contains the other. */
  lemma Exchanged<T>(a: set<T>, b: set<T>, x: T) returns (y: T)
    requires |a| == |b| && x in a && x !in b
    ensures y in b && y !in a
  {
    if b <= a {
      SubsetSize(b, a - {x});
    }
    y :| y in b && y !in a;
  }

  lemma {:induction false} SubsetSize<T>(a: set<T>, b: set<T>)
    requires a <= b
    ensures |a| <= |b|
    ensures a < b ==> |a| < |b|
    decreases a
  {
    if a != {} {
      var x :| x in a;
      SubsetSize(a - {x}, b - {x});
    }
  }

  /** A prefix of a sorted listing of all rows is the answer to ORDER BY ... LIMIT. */
  lemma PrefixIsFirstRows<T(!new)>(less: (T, T) -> bool, rows: set<T>, all: seq<T>, k: nat)
    requires TotalOn(less, rows) && StrictlySorted(less, all) && Elements(all) == rows
    ensures FirstRows(less, rows, k, if k < |all| then all[..k] else all)
  {
    var result := if k < |all| then all[..k] else all;
    SortedIsDistinct(less, rows, all);
    forall x, y | x in rows && x !in result && y in result ensures less(y, x) {
      assert x in Elements(all);
      var i :| 0 <= i < |all| && all[i] == x;
      var j :| 0 <= j < |result| && result[j] == y;
      assert i >= |result|;
      assert less(all[j], all[i]);
    }
    forall x | x in result ensures x in rows {
      assert x in Elements(all);
    }
  }

  ghost predicate NoRepeats<T>(xs: seq<T>) {
    forall i, j | 0 <= i < j < |xs| :: xs[i] != xs[j]
  }

  lemma {:induction false} NoRepeatsCounts<T>(xs: seq<T>, x: T)
    requires NoRepeats(xs)
    ensures multiset(xs)[x] <= 1
  {
    if xs != [] {
      var n := |xs| - 1;
      assert xs == xs[..n] + [xs[n]];
      NoRepeatsCounts(xs[..n], x);
      if xs[n] == x {
        assert x !in xs[..n];
        assert x !in multiset(xs[..n]);
      }
    }
  }

  /** A rearrangement of a sequence without repeats has none either. */
  lemma RearrangedNoRepeats<T>(xs: seq<T>, ys: seq<T>)
    requires multiset(xs) == multiset(ys) && NoRepeats(ys)
    ensures NoRepeats(xs)
  {
    forall i, j | 0 <= i < j < |xs| ensures xs[i] != xs[j] {
      NoRepeatsCounts(ys, xs[j]);
      assert xs == xs[..j] + xs[j..];
      assert xs[j..][0] == xs[j] && xs[j] in multiset(xs[j..]);
      assert xs[i] in xs[..j] && xs[i] in multiset(xs[..j]);
    }
  }

  lemma SameMultiset<T>(xs: seq<T>, ys: seq<T>)
    requires multiset(xs) == multiset(ys)
    ensures Elements(xs) == Elements(ys)
  {
    forall x ensures x in Elements(xs) <==> x in Elements(ys) {
      assert x in xs <==> x in multiset(xs);
      assert x in ys <==> x in multiset(ys);
    }
  }
}
