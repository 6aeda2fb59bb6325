/**
  What is kept when texts are cut into chunks: the runes that are not spaces, each occurrence of
  them and in order, where chunks may repeat the end of what the chunks before them show.
 */
module Solids {
  import opened Listings
  import opened Text

  /** The runes that are not spaces. */
  function Solid(s: string): string {
    if s == [] then [] else Solid(s[..|s| - 1]) + (if IsSpace(s[|s| - 1]) then [] else [s[|s| - 1]])
  }

  lemma {:induction false} SolidConcat(a: string, b: string)
    ensures Solid(a + b) == Solid(a) + Solid(b)
  {
    if b == [] {
      assert a + b == a;
    } else {
      assert (a + b)[..|a + b| - 1] == a + b[..|b| - 1];
      SolidConcat(a, b[..|b| - 1]);
    }
  }

  lemma {:induction false} SolidOfBlank(s: string)
    requires Blank(s)
    ensures Solid(s) == []
  {
    if s != [] {
      SolidOfBlank(s[..|s| - 1]);
    }
  }

  lemma SolidOfTrimmed(s: string)
    ensures Solid(TrimSpace(s)) == Solid(s)
  {
    var before, after := TrimShape(s);
    SolidConcat(before + TrimSpace(s), after);
    SolidConcat(before, TrimSpace(s));
    SolidOfBlank(before);
    SolidOfBlank(after);
  }

  lemma SolidHead(s: string)
    requires s != []
    ensures Solid(s) == (if IsSpace(s[0]) then [] else [s[0]]) + Solid(s[1..])
  {
    SolidConcat([s[0]], s[1..]);
    assert [s[0]] + s[1..] == s;
    assert [s[0]][..0] == [];
  }

  lemma {:induction false} SolidOfReplaced(s: string)
    ensures Solid(ReplaceCrLf(s)) == Solid(s)
    decreases |s|
  {
    if |s| >= 2 {
      SolidHead(s);
      if s[0] == '\r' && s[1] == '\n' {
        SolidOfReplaced(s[2..]);
        SolidHead(s[1..]);
        assert s[1..][1..] == s[2..];
        SolidConcat(['\n'], ReplaceCrLf(s[2..]));
        SolidOfBlank(['\n']);
      } else {
        SolidOfReplaced(s[1..]);
        SolidHead([s[0]] + ReplaceCrLf(s[1..]));
      }
    }
  }

  /** The runes of a list of texts that are not spaces, in order. */
  function SolidOfAll(texts: seq<string>): string {
    if texts == [] then [] else Solid(texts[0]) + SolidOfAll(texts[1..])
  }

  lemma {:induction false} SolidOfJoined(texts: seq<string>, sep: string)
    requires Blank(sep)
    ensures Solid(Join(texts, sep)) == SolidOfAll(texts)
  {
    if |texts| == 1 {
      assert SolidOfAll(texts[1..]) == [];
    } else if |texts| > 1 {
      SolidOfJoined(texts[1..], sep);
      SolidConcat(texts[0] + sep, Join(texts[1..], sep));
      SolidConcat(texts[0], sep);
      SolidOfBlank(sep);
    }
  }

  lemma {:induction false} SolidMembers(s: string, c: char)
    ensures c in Solid(s) <==> c in s && !IsSpace(c)
  {
    if s != [] {
      SolidMembers(s[..|s| - 1], c);
      assert s == s[..|s| - 1] + [s[|s| - 1]];
    }
  }

  lemma {:induction false} SolidOfAllConcat(a: seq<string>, b: seq<string>)
    ensures SolidOfAll(a + b) == SolidOfAll(a) + SolidOfAll(b)
  {
    if a == [] {
      assert a + b == b;
    } else {
      assert (a + b)[1..] == a[1..] + b;
      SolidOfAllConcat(a[1..], b);
    }
  }

  lemma SolidOfOne(text: string)
    ensures SolidOfAll([text]) == Solid(text)
  {
    assert [text][1..] == [];
  }

  lemma {:induction false} SolidOfNothing(texts: seq<string>)
    requires forall t | t in texts :: Blank(t)
    ensures SolidOfAll(texts) == []
  {
    if texts != [] {
      SolidOfBlank(texts[0]);
      SolidOfNothing(texts[1..]);
    }
  }

  // ----- Occurrences

  lemma {:induction false} SolidAt(s: string, p: nat)
    requires p < |s| && !IsSpace(s[p])
    ensures var j := |Solid(s[..p])|; j < |Solid(s)| && Solid(s)[j] == s[p]
  {
    var n := |s| - 1;
    if p < n {
      SolidAt(s[..n], p);
      assert s[..n][..p] == s[..p];
    }
  }

  lemma {:induction false} SolidFind(s: string, j: nat) returns (p: nat)
    requires j < |Solid(s)|
    ensures p < |s| && |Solid(s[..p])| == j && s[p] == Solid(s)[j]
  {
    var n := |s| - 1;
    if j < |Solid(s[..n])| {
      p := SolidFind(s[..n], j);
      assert s[..n][..p] == s[..p];
    } else {
      p := n;
    }
  }

  /** How many solid runes of the texts come before position p of text b. */
  function RankIn(texts: seq<string>, b: nat, p: nat): nat
    requires b < |texts| && p <= |texts[b]|
  {
    |SolidOfAll(texts[..b])| + |Solid(texts[b][..p])|
  }

  lemma {:induction false} RankedIn(texts: seq<string>, b: nat, p: nat)
    requires b < |texts| && p < |texts[b]| && !IsSpace(texts[b][p])
    ensures RankIn(texts, b, p) < |SolidOfAll(texts)| && SolidOfAll(texts)[RankIn(texts, b, p)] == texts[b][p]
  {
    SolidAt(texts[b], p);
    assert texts == texts[..b] + texts[b..];
    SolidOfAllConcat(texts[..b], texts[b..]);
    assert SolidOfAll(texts[b..]) == Solid(texts[b]) + SolidOfAll(texts[b..][1..]);
  }

  // ----- Chunks that overlap

  /** A chunk behind the runes it repeats. */
  function Behind(chunk: string, skip: nat): string {
    if skip <= |chunk| then chunk[skip..] else ""
  }

  /** The solid runes of the chunks, but for those that are repeated. */
  function Fresh(chunks: seq<string>, skips: seq<nat>): string {
    if chunks == [] || skips == [] then [] else Solid(Behind(chunks[0], skips[0])) + Fresh(chunks[1..], skips[1..])
  }

  lemma {:induction false} FreshConcat(a: seq<string>, b: seq<string>, aSkips: seq<nat>, bSkips: seq<nat>)
    requires |a| == |aSkips|
    ensures Fresh(a + b, aSkips + bSkips) == Fresh(a, aSkips) + Fresh(b, bSkips)
  {
    if a == [] {
      assert a + b == b && aSkips + bSkips == bSkips;
    } else {
      assert (a + b)[1..] == a[1..] + b && (aSkips + bSkips)[1..] == aSkips[1..] + bSkips;
      FreshConcat(a[1..], b, aSkips[1..], bSkips);
    }
  }

  /** How many solid runes the chunks show, but for repeated ones, before position q of chunk k. */
  function RankOut(chunks: seq<string>, skips: seq<nat>, k: nat, q: nat): nat
    requires k < |chunks| == |skips| && skips[k] <= q <= |chunks[k]|
  {
    |Fresh(chunks[..k], skips[..k])| + |Solid(chunks[k][skips[k]..q])|
  }

  /**
    Position q of chunk k shows the very occurrence at position p of text b: the same rune, with
    as many solid runes before it, and not in the part that repeats earlier chunks.
   */
  ghost predicate Shows(texts: seq<string>, b: nat, p: nat, chunks: seq<string>, skips: seq<nat>, k: nat, q: nat) {
    && b < |texts| && p < |texts[b]|
    && k < |chunks| == |skips| && skips[k] <= q < |chunks[k]|
    && chunks[k][q] == texts[b][p] && RankOut(chunks, skips, k, q) == RankIn(texts, b, p)
  }

  lemma RankBehindFirst(chunks: seq<string>, skips: seq<nat>, k: nat, q: nat)
    requires k + 1 < |chunks| == |skips| && skips[k + 1] <= q <= |chunks[k + 1]|
    ensures RankOut(chunks, skips, k + 1, q)
      == |Solid(Behind(chunks[0], skips[0]))| + RankOut(chunks[1..], skips[1..], k, q)
  {
    assert chunks[..k + 1][1..] == chunks[1..][..k] && skips[..k + 1][1..] == skips[1..][..k];
  }

  lemma RankedInFirst(chunks: seq<string>, skips: seq<nat>, j: nat) returns (q: nat)
    requires chunks != [] && |chunks| == |skips| && j < |Solid(Behind(chunks[0], skips[0]))|
    ensures skips[0] <= q < |chunks[0]| && chunks[0][q] == Solid(Behind(chunks[0], skips[0]))[j]
    ensures RankOut(chunks, skips, 0, q) == j
  {
    var first := Behind(chunks[0], skips[0]);
    var p := SolidFind(first, j);
    q := skips[0] + p;
    assert chunks[0][skips[0]..q] == first[..p];
  }

  lemma {:induction false} RankedOut(chunks: seq<string>, skips: seq<nat>, j: nat) returns (k: nat, q: nat)
    requires |chunks| == |skips| && j < |Fresh(chunks, skips)|
    ensures k < |chunks| && skips[k] <= q < |chunks[k]|
    ensures RankOut(chunks, skips, k, q) == j && chunks[k][q] == Fresh(chunks, skips)[j]
  {
    var first := |Solid(Behind(chunks[0], skips[0]))|;
    if j < first {
      k := 0;
      q := RankedInFirst(chunks, skips, j);
    } else {
      var before;
      before, q := RankedOut(chunks[1..], skips[1..], j - first);
      k := before + 1;
      RankBehindFirst(chunks, skips, before, q);
    }
  }

  /** When the chunks show exactly the solid runes of the texts, each occurrence has its place. */
  lemma Located(texts: seq<string>, b: nat, p: nat, chunks: seq<string>, skips: seq<nat>) returns (k: nat, q: nat)
    requires |chunks| == |skips| && Fresh(chunks, skips) == SolidOfAll(texts)
    requires b < |texts| && p < |texts[b]| && !IsSpace(texts[b][p])
    ensures Shows(texts, b, p, chunks, skips, k, q)
  {
    RankedIn(texts, b, p);
    k, q := RankedOut(chunks, skips, RankIn(texts, b, p));
  }

  ghost predicate HasPlace(texts: seq<string>, b: nat, p: nat, chunks: seq<string>, skips: seq<nat>) {
    exists k, q :: Shows(texts, b, p, chunks, skips, k, q)
  }

  /** Every occurrence of a rune that is not a space has its own place in the chunks. */
  ghost predicate AllKept(texts: seq<string>, chunks: seq<string>, skips: seq<nat>) {
    forall b: nat, p: nat | b < |texts| && p < |texts[b]| && !IsSpace(texts[b][p]) :: HasPlace(texts, b, p, chunks, skips)
  }

  lemma AllLocated(texts: seq<string>, chunks: seq<string>, skips: seq<nat>)
    requires |chunks| == |skips| && Fresh(chunks, skips) == SolidOfAll(texts)
    ensures AllKept(texts, chunks, skips)
  {
    forall b: nat, p: nat | b < |texts| && p < |texts[b]| && !IsSpace(texts[b][p])
      ensures HasPlace(texts, b, p, chunks, skips)
    {
      var k, q := Located(texts, b, p, chunks, skips);
    }
  }

  /** Chunks of several texts, one text after another. */
  lemma {:induction false} FreshOfAll<G>(cut: G -> seq<string>, skip: G -> seq<nat>, whole: G -> string, items: seq<G>)
    requires forall g | g in items :: |cut(g)| == |skip(g)| && Fresh(cut(g), skip(g)) == whole(g)
    ensures |Gather(cut, items)| == |Gather(skip, items)|
    ensures Fresh(Gather(cut, items), Gather(skip, items)) == Gather(whole, items)
  {
    if items != [] {
      FreshOfAll(cut, skip, whole, items[1..]);
      FreshConcat(cut(items[0]), Gather(cut, items[1..]), skip(items[0]), Gather(skip, items[1..]));
    }
  }
}
