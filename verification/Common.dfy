/** The optional value used for nullable columns and missing replies. */
module Options {
  datatype Option<+T> = None | Some(value: T)
}

/** Sums of an integer function over a finite set, independent of the order of summation. */
module Sums {

  ghost function Pick<T>(s: set<T>): (x: T)
    requires s != {}
    ensures x in s
  {
    var x :| x in s;
    x
  }

  ghost function Sum<T>(s: set<T>, f: T -> int): int {
    if s == {} then 0
    else
      var x := Pick(s);
      f(x) + Sum(s - {x}, f)
  }

  /** Any element can be taken out of the sum first. */
  lemma {:induction false} SumRemove<T>(s: set<T>, f: T -> int, x: T)
    requires x in s
    ensures Sum(s, f) == f(x) + Sum(s - {x}, f)
    decreases s
  {
    var y := Pick(s);
    if y != x {
      SumRemove(s - {y}, f, x);
      assert s - {y} - {x} == s - {x} - {y};
      SumRemove(s - {x}, f, y);
    }
  }

  lemma {:induction false} SumMonotone<T>(s: set<T>, f: T -> int, g: T -> int)
    requires forall x | x in s :: f(x) <= g(x)
    ensures Sum(s, f) <= Sum(s, g)
    decreases s
  {
    if s != {} {
      var x := Pick(s);
      SumMonotone(s - {x}, f, g);
    }
  }

  lemma SumCongruent<T>(s: set<T>, f: T -> int, g: T -> int)
    requires forall x | x in s :: f(x) == g(x)
    ensures Sum(s, f) == Sum(s, g)
  {
    SumMonotone(s, f, g);
    SumMonotone(s, g, f);
  }

  lemma SumNonNegative<T>(s: set<T>, f: T -> int)
    requires forall x | x in s :: 0 <= f(x)
    ensures 0 <= Sum(s, f)
  {
    SumMonotone(s, _ => 0, f);
    SumZero(s);
  }

  lemma {:induction false} SumZero<T>(s: set<T>)
    ensures Sum(s, (_: T) => 0) == 0
    decreases s
  {
    if s != {} {
      SumZero(s - {Pick(s)});
    }
  }

  lemma {:induction false} SumLinear<T>(s: set<T>, f: T -> int, g: T -> int, k: int, h: T -> int)
    requires forall x | x in s :: h(x) == f(x) + k * g(x)
    ensures Sum(s, h) == Sum(s, f) + k * Sum(s, g)
    decreases s
  {
    if s != {} {
      var x := Pick(s);
      SumLinear(s - {x}, f, g, k, h);
      assert k * (g(x) + Sum(s - {x}, g)) == k * g(x) + k * Sum(s - {x}, g);
    }
  }

  /** Changing the summand at one element changes the sum by the same amount. */
  lemma SumUpdate<T>(s: set<T>, f: T -> int, g: T -> int, x: T)
    requires x in s
    requires forall y | y in s && y != x :: f(y) == g(y)
    ensures Sum(s, g) - Sum(s, f) == g(x) - f(x)
  {
    SumRemove(s, f, x);
    SumRemove(s, g, x);
    SumCongruent(s - {x}, f, g);
  }

  /** A drop by `k` at one element drops the sum by at least `k` when nothing else grows. */
  lemma SumDrop<T>(s: set<T>, f: T -> int, g: T -> int, x: T, k: int)
    requires x in s && g(x) + k <= f(x)
    requires forall y | y in s :: g(y) <= f(y)
    ensures Sum(s, g) + k <= Sum(s, f)
  {
    SumRemove(s, f, x);
    SumRemove(s, g, x);
    SumMonotone(s - {x}, g, f);
  }
}

/** Loops over the elements of a sequence. */
module Folds {

  function Fold<S, X>(step: (S, X) -> S, start: S, xs: seq<X>): S {
    if xs == [] then start else step(Fold(step, start, xs[..|xs| - 1]), xs[|xs| - 1])
  }

  ghost predicate KeptBy<S(!new), X(!new)>(step: (S, X) -> S, inv: (S, seq<X>) -> bool) {
    forall s, seen, x :: inv(s, seen) ==> inv(step(s, x), seen + [x])
  }

  /** What holds of the first state and the empty prefix, and is kept by every step, holds at the end. */
  lemma {:induction false} FoldKeeps<S(!new), X(!new)>(step: (S, X) -> S, start: S, inv: (S, seq<X>) -> bool,
        xs: seq<X>)
    requires inv(start, []) && KeptBy(step, inv)
    ensures inv(Fold(step, start, xs), xs)
  {
    if xs != [] {
      var n := |xs| - 1;
      FoldKeeps(step, start, inv, xs[..n]);
      assert xs == xs[..n] + [xs[n]];
    }
  }

  lemma FoldMore<S, X>(step: (S, X) -> S, start: S, xs: seq<X>, x: X)
    ensures Fold(step, start, xs + [x]) == step(Fold(step, start, xs), x)
  {
    assert (xs + [x])[..|xs|] == xs;
  }

  lemma {:induction false} FoldAppend<S, X>(step: (S, X) -> S, start: S, xs: seq<X>, more: seq<X>)
    ensures Fold(step, start, xs + more) == Fold(step, Fold(step, start, xs), more)
  {
    if more == [] {
      assert xs + more == xs;
    } else {
      var n := |more| - 1;
      assert (xs + more)[..|xs + more| - 1] == xs + more[..n];
      FoldAppend(step, start, xs, more[..n]);
    }
  }
}

/** Lists made of the rows of one item after another, where rows are numbered through. */
module Listings {

  /** `render` gives the rows of an item when so many rows are already there. */
  ghost function Listed<G, P>(render: (G, nat) -> seq<P>, items: seq<G>, before: seq<P>): seq<P> {
    if items == [] then before else Listed(render, items[1..], before + render(items[0], |before|))
  }

  lemma {:induction false} ListedExtends<G, P>(render: (G, nat) -> seq<P>, items: seq<G>, before: seq<P>)
    ensures before <= Listed(render, items, before)
  {
    if items != [] {
      ListedExtends(render, items[1..], before + render(items[0], |before|));
    }
  }

  /** Every row is one of the rows of an item, at its own number. */
  lemma {:induction false} IsFromSome<G, P>(render: (G, nat) -> seq<P>, items: seq<G>, before: seq<P>, i: nat)
    returns (item: G, start: nat, j: nat)
    requires |before| <= i < |Listed(render, items, before)|
    ensures item in items && j < |render(item, start)| && start + j == i
    ensures Listed(render, items, before)[i] == render(item, start)[j]
  {
    var rows := before + render(items[0], |before|);
    if i < |rows| {
      item, start, j := items[0], |before|, i - |before|;
      ListedExtends(render, items[1..], rows);
    } else {
      item, start, j := IsFromSome(render, items[1..], rows, i);
    }
  }

  /** How many rows are there before item k. */
  ghost function Offset<G, P>(render: (G, nat) -> seq<P>, items: seq<G>, count: nat, k: nat): nat
    requires k <= |items|
  {
    if k == 0 then count else Offset(render, items[1..], count + |render(items[0], count)|, k - 1)
  }

  /** The rows of item k are all there and in order, directly behind those of the item before it. */
  lemma {:induction false} RowsInTurn<G, P>(render: (G, nat) -> seq<P>, items: seq<G>, before: seq<P>, k: nat)
    requires k < |items|
    ensures var here, next := Offset(render, items, |before|, k), Offset(render, items, |before|, k + 1);
      && next == here + |render(items[k], here)| <= |Listed(render, items, before)|
      && Listed(render, items, before)[here..next] == render(items[k], here)
      && (k + 1 == |items| ==> next == |Listed(render, items, before)|)
  {
    var rows := before + render(items[0], |before|);
    if k == 0 {
      ListedExtends(render, items[1..], rows);
      assert Listed(render, items, before)[..|rows|] == rows;
      assert Offset(render, items[1..], |rows|, 0) == |rows|;
    } else {
      RowsInTurn(render, items[1..], rows, k - 1);
    }
  }

  /** The rows of all items, when they do not depend on the rows before them. */
  function Gather<G, Q>(rows: G -> seq<Q>, items: seq<G>): seq<Q> {
    if items == [] then [] else rows(items[0]) + Gather(rows, items[1..])
  }

  lemma {:induction false} GatherAll<G, Q(!new)>(rows: G -> seq<Q>, items: seq<G>, good: Q -> bool)
    requires forall item, row | item in items && row in rows(item) :: good(row)
    ensures forall row | row in Gather(rows, items) :: good(row)
  {
    if items != [] {
      GatherAll(rows, items[1..], good);
    }
  }

  function Image<P, Q>(f: P -> Q, xs: seq<P>): (ys: seq<Q>)
    ensures |ys| == |xs| && forall i | 0 <= i < |xs| :: ys[i] == f(xs[i])
  {
    seq(|xs|, i requires 0 <= i < |xs| => f(xs[i]))
  }

  /** Seen without their numbers, the listed rows are those of all items. */
  lemma {:induction false} ListedImage<G(!new), P, Q>(render: (G, nat) -> seq<P>, items: seq<G>, before: seq<P>,
      f: P -> Q, rows: G -> seq<Q>)
    requires forall item, count :: Image(f, render(item, count)) == rows(item)
    ensures Image(f, Listed(render, items, before)) == Image(f, before) + Gather(rows, items)
  {
    if items != [] {
      var now := render(items[0], |before|);
      ListedImage(render, items[1..], before + now, f, rows);
      assert Image(f, before + now) == Image(f, before) + Image(f, now);
    }
  }
}
