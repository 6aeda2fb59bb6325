/** Cutting a text into overlapping windows that prefer to end at a sentence. */
module Chunker {
  import opened Solids
  import opened Text

  datatype Window = Window(start: nat, end: nat)

  predicate EndsSentence(c: char) {
    c == '\n' || c == '。' || c == '！' || c == '？' || c == '.' || c == '!' || c == '?'
  }

  // ----- The boundary search

  /** The last sentence end in reach of `end`, or `end` itself. */
  ghost predicate IsBoundary(runes: string, start: nat, end: nat, boundary: nat)
    requires start <= end <= |runes|
  {
    var floor := start + |runes| / 100;
    || (floor < boundary <= end && EndsSentence(runes[boundary - 1])
        && forall k | boundary <= k < end :: !EndsSentence(runes[k]))
    || (boundary == end && forall k | floor <= k < end :: !EndsSentence(runes[k]))
  }

  function Boundary(runes: string, start: nat, end: nat, i: nat): (boundary: nat)
    requires start <= end <= |runes| && i <= end
    requires forall k | i <= k < end :: !EndsSentence(runes[k])
    ensures IsBoundary(runes, start, end, boundary)
    ensures start <= boundary <= end
    decreases i
  {
    if start + |runes| / 100 < i then
      if EndsSentence(runes[i - 1]) then i else Boundary(runes, start, end, i - 1)
    else end
  }

  method FindBoundary(runes: string, start: nat, end: nat) returns (boundary: nat)
    requires start <= end <= |runes|
    ensures boundary == Boundary(runes, start, end, end)
  {
    var i: nat := end;
    while i > start + |runes| / 100 && i > start
      invariant i <= end
      invariant forall k | i <= k < end :: !EndsSentence(runes[k])
      invariant Boundary(runes, start, end, i) == Boundary(runes, start, end, end)
    {
      if EndsSentence(runes[i - 1]) {
        return i;
      }
      i := i - 1;
    }
    return end;
  }

  // ----- The windows

  const SENTENCE_ENDS := "\n。！？.!?"

  /**
    A window of the wanted size ends with the text, or else behind the last sentence end past its
    middle and past a hundredth of the text, or, without one, at its size.
   */
  ghost predicate IsWindowEnd(runes: string, size: nat, start: nat, end: nat) {
    var stop := start + size;
    if stop >= |runes| then end == |runes|
    else
      || (start + size / 2 < end <= stop && start + |runes| / 100 < end && runes[end - 1] in SENTENCE_ENDS
          && forall k | end <= k < stop :: runes[k] !in SENTENCE_ENDS)
      || (end == stop
          && forall k | start + size / 2 <= k < stop && start + |runes| / 100 <= k :: runes[k] !in SENTENCE_ENDS)
  }

  lemma SentenceEnds(c: char)
    ensures EndsSentence(c) <==> c in SENTENCE_ENDS
  {
    var s := SENTENCE_ENDS;
    assert s[0] == '\n' && s[1] == '。' && s[2] == '！' && s[3] == '？' && s[4] == '.' && s[5] == '!' && s[6] == '?';
  }

  lemma WindowEndMeans(runes: string, size: nat, start: nat)
    requires 0 < size && start < |runes|
    ensures IsWindowEnd(runes, size, start, WindowEnd(runes, size, start))
  {
    forall c ensures EndsSentence(c) <==> c in SENTENCE_ENDS {
      SentenceEnds(c);
    }
    if start + size < |runes| {
      var boundary := Boundary(runes, start, start + size, start + size);
      assert IsBoundary(runes, start, start + size, boundary);
    }
  }

  function EffectiveOverlap(size: int, overlap: int): (r: nat)
    requires 0 < size
    ensures r < size
  {
    if overlap < 0 then 0 else if overlap >= size then size / 5 else overlap
  }

  function WindowEnd(runes: string, size: nat, start: nat): (end: nat)
    requires 0 < size && start < |runes|
    ensures start < end <= |runes|
  {
    if start + size >= |runes| then |runes|
    else
      var boundary := Boundary(runes, start, start + size, start + size);
      if boundary > start + size / 2 then boundary else start + size
  }

  /** Where the window at a start ends, as a function of the start alone. */
  function Ends(runes: string, size: nat): nat -> nat
    requires 0 < size
  {
    (start: nat) => if start < |runes| then WindowEnd(runes, size, start) else start + 1
  }

  /** What the loop relies on: windows reach past the half of their size, and stop at n. */
  ghost predicate GoodEnds(n: nat, size: nat, half: nat, ends: nat -> nat) {
    && (forall s: nat | s < n :: s < ends(s) <= n && ends(s) <= s + size)
    && (forall s: nat | s < n && n <= s + size :: ends(s) == n)
    && (forall s: nat | s < n && ends(s) < n :: s + half < ends(s))
  }

  lemma EndsAreGood(runes: string, size: nat)
    requires 0 < size
    ensures GoodEnds(|runes|, size, size / 2, Ends(runes, size))
  {
    var half := size / 2;
    forall s: nat | s < |runes|
      ensures s < WindowEnd(runes, size, s) <= |runes| && WindowEnd(runes, size, s) <= s + size
        && (|runes| <= s + size ==> WindowEnd(runes, size, s) == |runes|)
        && (WindowEnd(runes, size, s) < |runes| ==> s + half < WindowEnd(runes, size, s))
    {
      assert half < size;
    }
  }

  function NextStart(start: nat, end: nat, overlap: nat): (next: nat)
    requires start < end
    ensures start < next <= end
  {
    if end - overlap <= start then end else end - overlap
  }

  /** The windows of a text of n runes from `start` on. */
  ghost function Windows(n: nat, size: nat, half: nat, overlap: nat, ends: nat -> nat,
        start: nat): (windows: seq<Window>)
    requires GoodEnds(n, size, half, ends) && start < n
    ensures windows != []
    decreases n - start
  {
    var end := ends(start);
    if end == n then [Window(start, end)]
    else [Window(start, end)] + Windows(n, size, half, overlap, ends, NextStart(start, end, overlap))
  }

  function Cut(runes: string, w: Window): string {
    if w.start <= w.end <= |runes| then TrimSpace(runes[w.start..w.end]) else ""
  }

  function Cutter(runes: string): Window -> string {
    (w: Window) => Cut(runes, w)
  }

  function CutOrNone(cut: Window -> string, w: Window): seq<string> {
    if cut(w) == "" then [] else [cut(w)]
  }

  /** The trimmed windows that are not blank. */
  function Cuts(cut: Window -> string, windows: seq<Window>): seq<string> {
    if windows == [] then [] else CutOrNone(cut, windows[0]) + Cuts(cut, windows[1..])
  }

  function Normalized(text: string): string {
    TrimSpace(ReplaceCrLf(text))
  }

  ghost function WindowsOf(runes: string, size: int, overlap: int): seq<Window> {
    if runes == "" || size <= 0 then []
    else
      EndsAreGood(runes, size);
      Windows(|runes|, size, size / 2, EffectiveOverlap(size, overlap), Ends(runes, size), 0)
  }

  ghost function Chunks(text: string, size: int, overlap: int): seq<string> {
    Cuts(Cutter(Normalized(text)), WindowsOf(Normalized(text), size, overlap))
  }

  /** The ends computed by FindWindowEnd. */
  ghost predicate AreEnds(runes: string, size: nat, ends: nat -> nat) {
    0 < size && ends == Ends(runes, size)
  }

  method FindWindowEnd(runes: string, size: nat, start: nat, ghost ends: nat -> nat) returns (end: nat)
    requires AreEnds(runes, size, ends) && start < |runes|
    ensures end == ends(start) && IsWindowEnd(runes, size, start, end)
  {
    WindowEndMeans(runes, size, start);
    end := start + size;
    if end > |runes| { end := |runes|; }
    if end < |runes| {
      var boundary := FindBoundary(runes, start, end);
      if boundary > start + size / 2 { end := boundary; }
    }
  }

  /** One turn of the loop: the cut of the window at `start`, then the cuts from the next start. */
  lemma CutsStep(cut: Window -> string, n: nat, size: nat, half: nat, overlap: nat, ends: nat -> nat, start: nat,
        before: seq<string>)
    requires GoodEnds(n, size, half, ends) && start < n
    ensures var end := ends(start);
      before + Cuts(cut, Windows(n, size, half, overlap, ends, start))
        == before + CutOrNone(cut, Window(start, end))
           + (if end == n then []
              else Cuts(cut, Windows(n, size, half, overlap, ends, NextStart(start, end, overlap))))
  {
    var end := ends(start);
    var windows := Windows(n, size, half, overlap, ends, start);
    assert windows[0] == Window(start, end);
    assert windows[1..]
      == if end == n then [] else Windows(n, size, half, overlap, ends, NextStart(start, end, overlap));
  }

  /** The loop of chunkText, given a way to find the end of each window. */
  method CutWindows(runes: string, size: nat, overlap: nat, ghost half: nat, ghost ends: nat -> nat)
    returns (chunks: seq<string>)
    requires runes != "" && AreEnds(runes, size, ends) && GoodEnds(|runes|, size, half, ends)
    ensures chunks == Cuts(Cutter(runes), Windows(|runes|, size, half, overlap, ends, 0))
  {
    chunks := [];
    ghost var all := Cuts(Cutter(runes), Windows(|runes|, size, half, overlap, ends, 0));
    var start := 0;
    while start < |runes|
      invariant 0 <= start < |runes|
      invariant chunks + Cuts(Cutter(runes), Windows(|runes|, size, half, overlap, ends, start)) == all
      decreases |runes| - start
    {
      var end := FindWindowEnd(runes, size, start, ends);
      ghost var before := chunks;
      CutsStep(Cutter(runes), |runes|, size, half, overlap, ends, start, before);
      var chunk := Cut(runes, Window(start, end));
      if chunk != "" {
        chunks := chunks + [chunk];
      }
      assert chunks == before + CutOrNone(Cutter(runes), Window(start, end));
      if end == |runes| {
        break;
      }
      var next := end - overlap;
      if next <= start { next := end; }
      assert next == NextStart(start, end, overlap);
      start := next;
    }
  }

  /** chunkText */
  method ChunkText(text: string, size: int, overlap: int) returns (chunks: seq<string>)
    ensures chunks == Chunks(text, size, overlap)
  {
    var runes := Normalized(text);
    if runes == "" || size <= 0 {
      return [];
    }
    var kept := overlap;
    if kept < 0 { kept := 0; }
    if kept >= size { kept := size / 5; }
    EndsAreGood(runes, size);
    chunks := CutWindows(runes, size, kept, size / 2, Ends(runes, size));
  }

  // ----- What the windows are

  /** Each window starts where the one before it ends, less the overlap if that is still past its start. */
  predicate Continues(windows: seq<Window>, kept: int, k: nat)
    requires k < |windows|
  {
    k > 0 ==> windows[k].start == if windows[k - 1].end - kept > windows[k - 1].start then windows[k - 1].end - kept
                                  else windows[k - 1].end
  }

  /** The windows from a start on: each continues the one before it, and only the last one reaches the end. */
  ghost predicate AreWindows(n: nat, start: nat, kept: int, ends: nat -> nat, windows: seq<Window>) {
    && windows != [] && windows[0].start == start && windows[|windows| - 1].end == n
    && (forall k: nat | k < |windows| :: windows[k].start < n && windows[k].end == ends(windows[k].start))
    && (forall k: nat | k < |windows| :: Continues(windows, kept, k))
    && (forall k: nat | k < |windows| - 1 :: windows[k].end != n)
  }

  lemma OneWindowMore(n: nat, start: nat, kept: nat, ends: nat -> nat, next: nat, rest: seq<Window>)
    requires start < n && ends(start) != n && AreWindows(n, next, kept, ends, rest)
    requires next == if ends(start) - kept > start then ends(start) - kept else ends(start)
    ensures AreWindows(n, start, kept, ends, [Window(start, ends(start))] + rest)
  {
    var windows := [Window(start, ends(start))] + rest;
    forall k: nat | k < |windows| ensures Continues(windows, kept, k) {
      if k > 1 {
        assert Continues(rest, kept, k - 1);
      }
    }
  }

  lemma {:induction false} WindowsFollow(n: nat, size: nat, half: nat, overlap: nat, ends: nat -> nat, start: nat)
    requires GoodEnds(n, size, half, ends) && start < n
    ensures AreWindows(n, start, overlap, ends, Windows(n, size, half, overlap, ends, start))
    decreases n - start
  {
    var end := ends(start);
    if end < n {
      var next := NextStart(start, end, overlap);
      WindowsFollow(n, size, half, overlap, ends, next);
      OneWindowMore(n, start, overlap, ends, next, Windows(n, size, half, overlap, ends, next));
    }
  }

  /** The overlap in use: none for a negative one, and a fifth of the size for one that is not below the size. */
  predicate IsKept(size: int, overlap: int, kept: int) {
    if overlap < 0 then kept == 0 else if overlap < size then kept == overlap else 5 * kept <= size < 5 * kept + 5
  }

  /** The windows of a text start at 0, end as FindWindowEnd says, and follow each other to the end of the text. */
  lemma WindowsMean(runes: string, size: int, overlap: int) returns (kept: nat, ends: nat -> nat)
    requires runes != "" && 0 < size
    ensures IsKept(size, overlap, kept)
    ensures AreWindows(|runes|, 0, kept, ends, WindowsOf(runes, size, overlap))
    ensures forall start: nat | start < |runes| :: IsWindowEnd(runes, size, start, ends(start))
  {
    kept, ends := EffectiveOverlap(size, overlap), Ends(runes, size);
    EndsAreGood(runes, size);
    WindowsFollow(|runes|, size, size / 2, kept, ends, 0);
    forall start: nat | start < |runes| ensures IsWindowEnd(runes, size, start, ends(start)) {
      WindowEndMeans(runes, size, start);
    }
  }

  // ----- Nothing is lost between windows

  lemma {:induction false} WindowsInText(n: nat, size: nat, half: nat, overlap: nat, ends: nat -> nat, start: nat)
    requires GoodEnds(n, size, half, ends) && start < n
    ensures forall w | w in Windows(n, size, half, overlap, ends, start) :: w.start < w.end <= n && w.end <= w.start + size
    decreases n - start
  {
    if ends(start) < n {
      WindowsInText(n, size, half, overlap, ends, NextStart(start, ends(start), overlap));
    }
  }

  /** What the windows add beyond the part of the text already covered, joined together. */
  function Stripped(runes: string, windows: seq<Window>, covered: nat): string {
    if windows == [] then ""
    else
      var w := windows[0];
      if w.start <= covered < w.end <= |runes| then runes[covered..w.end] + Stripped(runes, windows[1..], w.end)
      else Stripped(runes, windows[1..], covered)
  }

  lemma {:induction false} StrippedRebuilds(runes: string, size: nat, half: nat, overlap: nat, ends: nat -> nat,
        start: nat, covered: nat)
    requires GoodEnds(|runes|, size, half, ends) && start < |runes| && start <= covered <= |runes|
    ensures Stripped(runes, Windows(|runes|, size, half, overlap, ends, start), covered) == runes[covered..]
    decreases |runes| - start
  {
    var end := ends(start);
    var windows := Windows(|runes|, size, half, overlap, ends, start);
    if end < |runes| {
      var next := NextStart(start, end, overlap);
      assert windows[1..] == Windows(|runes|, size, half, overlap, ends, next);
      if end <= covered {
        StrippedRebuilds(runes, size, half, overlap, ends, next, covered);
      } else {
        StrippedRebuilds(runes, size, half, overlap, ends, next, end);
        assert runes[covered..end] + runes[end..] == runes[covered..];
      }
    } else {
      assert windows[1..] == [];
      assert runes[covered..end] == runes[covered..];
    }
  }

  /** For every size and overlap, stripping the overlaps from the windows gives back the text. */
  lemma WindowsRebuildText(runes: string, size: int, overlap: int)
    requires 0 < size
    ensures Stripped(runes, WindowsOf(runes, size, overlap), 0) == runes
    ensures forall w | w in WindowsOf(runes, size, overlap) :: w.start < w.end <= |runes| && w.end <= w.start + size
  {
    if runes != "" {
      EndsAreGood(runes, size);
      var kept := EffectiveOverlap(size, overlap);
      WindowsInText(|runes|, size, size / 2, kept, Ends(runes, size), 0);
      StrippedRebuilds(runes, size, size / 2, kept, Ends(runes, size), 0, 0);
      assert runes[0..] == runes;
    }
  }

  // ----- How many windows, and how long

  function TotalLength(windows: seq<Window>): int {
    if windows == [] then 0 else windows[0].end - windows[0].start + TotalLength(windows[1..])
  }

  lemma OneMore(a: int, b: int)
    ensures a * (b + 1) == a * b + a
  {
  }

  lemma {:induction false} LengthOfWindows(n: nat, size: nat, half: nat, overlap: nat, ends: nat -> nat, start: nat)
    requires GoodEnds(n, size, half, ends) && overlap <= half && start < n
    ensures var windows := Windows(n, size, half, overlap, ends, start);
      TotalLength(windows) == n - start + overlap * (|windows| - 1)
    decreases n - start
  {
    var end := ends(start);
    var windows := Windows(n, size, half, overlap, ends, start);
    if end < n {
      LengthOfWindows(n, size, half, overlap, ends, end - overlap);
      var rest := Windows(n, size, half, overlap, ends, end - overlap);
      assert windows[1..] == rest;
      OneMore(overlap, |rest| - 1);
    } else {
      assert windows[1..] == [];
      assert overlap * 0 == 0;
    }
  }

  lemma {:induction false} NumberOfWindows(n: nat, size: nat, half: nat, overlap: nat, ends: nat -> nat, start: nat)
    requires GoodEnds(n, size, half, ends) && overlap <= half && start < n
    ensures var windows := Windows(n, size, half, overlap, ends, start);
      if n - start <= size then |windows| == 1
      else (half + 1 - overlap) * (|windows| - 2) <= n - start - size - 1
    decreases n - start
  {
    var end := ends(start);
    if end < n {
      NumberOfWindows(n, size, half, overlap, ends, end - overlap);
      var rest := Windows(n, size, half, overlap, ends, end - overlap);
      OneMore(half + 1 - overlap, |rest| - 2);
      assert (half + 1 - overlap) * 0 == 0;
    } else {
      assert (half + 1 - overlap) * (0 - 1) == -(half + 1 - overlap);
    }
  }

  lemma DivideBound(k: int, step: nat, total: nat)
    requires 0 < step && step * k <= total
    ensures k <= total / step
  {
    var q, r := total / step, total % step;
    assert total == step * q + r && r < step;
    OneMore(step, q);
    if q + 1 <= k {
      MulMonotone(step, q + 1, k);
    }
  }

  lemma MulMonotone(a: nat, b: nat, c: nat)
    requires b <= c
    ensures a * b <= a * c
  {
  }

  lemma CountFrom(n: nat, size: nat, half: nat, overlap: nat, ends: nat -> nat, step: nat)
    requires GoodEnds(n, size, half, ends) && overlap <= half && size < n && step == half + 1 - overlap
    ensures var windows := Windows(n, size, half, overlap, ends, 0);
      |windows| <= 2 + (n - size - 1) / step && TotalLength(windows) == n + overlap * (|windows| - 1)
  {
    LengthOfWindows(n, size, half, overlap, ends, 0);
    NumberOfWindows(n, size, half, overlap, ends, 0);
    DivideBound(|Windows(n, size, half, overlap, ends, 0)| - 2, step, n - size - 1);
  }

  /**
    With an overlap of at most half the size, a text of n runes longer than one window takes at
    most 2 + (n - size - 1) / (size / 2 + 1 - overlap) windows, and they have n runes and one
    overlap for every window after the first.
   */
  lemma WindowCount(runes: string, size: nat, overlap: nat)
    requires overlap <= size / 2 && 0 < size < |runes|
    ensures var n, windows := |runes|, WindowsOf(runes, size, overlap);
      && |windows| <= 2 + (n - size - 1) / (size / 2 + 1 - overlap)
      && TotalLength(windows) == n + overlap * (|windows| - 1)
  {
    EndsAreGood(runes, size);
    CountFrom(|runes|, size, size / 2, overlap, Ends(runes, size), size / 2 + 1 - overlap);
  }

  // ----- Chunks are substrings of the text, in order

  /** The windows that give a chunk. */
  function NonBlank(cut: Window -> string, windows: seq<Window>): seq<Window> {
    if windows == [] then []
    else (if cut(windows[0]) == "" then [] else [windows[0]]) + NonBlank(cut, windows[1..])
  }

  ghost predicate Ascending(windows: seq<Window>) {
    forall i, j | 0 <= i < j < |windows| :: windows[i].start < windows[j].start
  }

  lemma {:induction false} WindowsAscend(n: nat, size: nat, half: nat, overlap: nat, ends: nat -> nat, start: nat)
    requires GoodEnds(n, size, half, ends) && start < n
    ensures var windows := Windows(n, size, half, overlap, ends, start);
      Ascending(windows) && forall w | w in windows :: start <= w.start
    decreases n - start
  {
    var end := ends(start);
    if end < n {
      var next := NextStart(start, end, overlap);
      WindowsAscend(n, size, half, overlap, ends, next);
      var rest := Windows(n, size, half, overlap, ends, next);
      assert forall i | 0 <= i < |rest| :: rest[i] in rest;
    }
  }

  lemma {:induction false} NonBlankAscend(cut: Window -> string, windows: seq<Window>)
    requires Ascending(windows)
    ensures Ascending(NonBlank(cut, windows))
    ensures forall w :: w in NonBlank(cut, windows) <==> w in windows && cut(w) != ""
  {
    if windows != [] {
      NonBlankAscend(cut, windows[1..]);
      var rest := NonBlank(cut, windows[1..]);
      forall i | 0 <= i < |rest| ensures windows[0].start < rest[i].start {
        assert rest[i] in rest && rest[i] in windows[1..];
      }
    }
  }

  lemma {:induction false} CutsOfNonBlank(cut: Window -> string, windows: seq<Window>)
    ensures |Cuts(cut, windows)| == |NonBlank(cut, windows)|
    ensures forall k | 0 <= k < |NonBlank(cut, windows)| :: Cuts(cut, windows)[k] == cut(NonBlank(cut, windows)[k])
  {
    if windows != [] {
      CutsOfNonBlank(cut, windows[1..]);
    }
  }

  /**
    Chunk k is the trimmed text of the k-th window that is not blank, hence a substring of the
    text; the windows' starts strictly increase.
   */
  lemma ChunksAreSubstrings(text: string, size: int, overlap: int) returns (windows: seq<Window>)
    ensures |windows| == |Chunks(text, size, overlap)| && Ascending(windows)
    ensures forall w | w in windows :: w in WindowsOf(Normalized(text), size, overlap)
    ensures forall w | w in WindowsOf(Normalized(text), size, overlap) && w !in windows ::
      w.start < w.end <= |Normalized(text)| && TrimSpace(Normalized(text)[w.start..w.end]) == ""
    ensures forall k | 0 <= k < |windows| ::
      var w, runes := windows[k], Normalized(text);
      && w.start < w.end <= |runes| && w.end <= w.start + size
      && Chunks(text, size, overlap)[k] == TrimSpace(runes[w.start..w.end])
  {
    var runes := Normalized(text);
    var all := WindowsOf(runes, size, overlap);
    if runes != "" && 0 < size {
      EndsAreGood(runes, size);
      WindowsAscend(|runes|, size, size / 2, EffectiveOverlap(size, overlap), Ends(runes, size), 0);
      WindowsRebuildText(runes, size, overlap);
    }
    windows := NonBlank(Cutter(runes), all);
    NonBlankAscend(Cutter(runes), all);
    CutsOfNonBlank(Cutter(runes), all);
    forall k | 0 <= k < |windows| ensures windows[k] in all {
      assert windows[k] in windows;
    }
  }

  // ----- Every occurrence of a rune that is not a space is in a chunk

  function Max(a: nat, b: nat): nat {
    if a < b then b else a
  }

  /** How much of a cut of some length is covered, when `covered` runes of its window are. */
  function Skip(lead: nat, length: nat, covered: nat): (skip: nat)
    ensures skip <= length && skip <= covered
  {
    if covered <= lead then 0 else if covered - lead < length then covered - lead else length
  }

  function SkipOf(runes: string, w: Window, covered: nat): (skip: nat)
    ensures w.start <= covered ==> skip <= covered - w.start
  {
    if w.start <= w.end <= |runes| && w.start <= covered
    then Skip(Lead(runes[w.start..w.end]), |Cut(runes, w)|, covered - w.start) else 0
  }

  function Skipper(runes: string): (Window, nat) -> nat {
    (w: Window, covered: nat) => SkipOf(runes, w, covered)
  }

  function SkipsOf(cut: Window -> string, skip: (Window, nat) -> nat, windows: seq<Window>, covered: nat): seq<nat> {
    if windows == [] then []
    else
      var w := windows[0];
      (if cut(w) == "" then [] else [skip(w, covered)]) + SkipsOf(cut, skip, windows[1..], Max(covered, w.end))
  }

  /** Each window starts in what is covered, and at most an overlap before its end. */
  ghost predicate Chained(windows: seq<Window>, covered: nat, n: nat, overlap: nat) {
    windows == [] ||
    var w := windows[0];
    && w.start <= covered <= w.start + overlap && w.start < w.end <= n
    && Chained(windows[1..], Max(covered, w.end), n, overlap)
  }

  function CoveredBy(windows: seq<Window>, covered: nat): (end: nat)
    ensures covered <= end
  {
    if windows == [] then covered else CoveredBy(windows[1..], Max(covered, windows[0].end))
  }

  lemma {:induction false} WindowsAreChained(n: nat, size: nat, half: nat, overlap: nat, ends: nat -> nat,
      start: nat, covered: nat)
    requires GoodEnds(n, size, half, ends) && start < n && start <= covered <= start + overlap && covered <= n
    ensures var windows := Windows(n, size, half, overlap, ends, start);
      Chained(windows, covered, n, overlap) && CoveredBy(windows, covered) == n
    decreases n - start
  {
    var end := ends(start);
    var windows := Windows(n, size, half, overlap, ends, start);
    if end < n {
      var next := NextStart(start, end, overlap);
      WindowsAreChained(n, size, half, overlap, ends, next, Max(covered, end));
      assert windows[1..] == Windows(n, size, half, overlap, ends, next);
    } else {
      assert windows[1..] == [];
    }
  }

  /** Behind what is covered, the trimmed window shows the solid runes of the window. */
  lemma FreshWindow(before: string, cut: string, after: string, covered: nat)
    requires Blank(before) && Blank(after) && covered <= |before + cut + after|
    ensures Solid(Behind(cut, Skip(|before|, |cut|, covered))) == Solid((before + cut + after)[covered..])
  {
    var window := before + cut + after;
    SolidOfBlank(after);
    if covered <= |before| {
      SolidOfBlank(before[covered..]);
      assert window[covered..] == before[covered..] + cut + after;
      SolidConcat(before[covered..], cut);
      SolidConcat(before[covered..] + cut, after);
    } else if covered - |before| < |cut| {
      assert window[covered..] == cut[covered - |before|..] + after;
      SolidConcat(cut[covered - |before|..], after);
    } else {
      assert window[covered..] == after[covered - |before| - |cut|..];
      SolidOfBlank(window[covered..]);
    }
  }

  lemma FreshBehind(runes: string, start: nat, end: nat, covered: nat, before: string, cut: string, after: string)
    requires start <= covered && start <= end <= |runes|
    requires runes[start..end] == before + cut + after && Blank(before) && Blank(after)
    ensures Solid(Behind(cut, Skip(|before|, |cut|, covered - start)))
      == if covered < end then Solid(runes[covered..end]) else []
  {
    if covered < end {
      FreshWindow(before, cut, after, covered - start);
      SliceOfSlice(runes, start, end, covered);
    } else {
      var skip := Skip(|before|, |cut|, covered - start);
      assert |cut| <= skip;
    }
  }

  lemma SliceOfSlice(s: string, start: nat, end: nat, i: nat)
    requires start <= i <= end <= |s|
    ensures s[start..end][i - start..] == s[i..end]
  {
  }

  lemma FreshCut(runes: string, w: Window, covered: nat)
    requires w.start <= covered && w.start <= w.end <= |runes|
    ensures Solid(Behind(Cut(runes, w), SkipOf(runes, w, covered)))
      == if covered < w.end then Solid(runes[covered..w.end]) else []
  {
    var before, after := TrimMargins(runes[w.start..w.end]);
    FreshBehind(runes, w.start, w.end, covered, before, Cut(runes, w), after);
  }

  lemma FreshOne(chunk: string, skip: nat)
    ensures Fresh([chunk], [skip]) == Solid(Behind(chunk, skip))
  {
    assert [chunk][1..] == [];
  }

  /** What FreshCut says of every window. */
  ghost predicate CutsAreFresh(runes: string, cut: Window -> string, skip: (Window, nat) -> nat) {
    forall w: Window, covered: nat | w.start <= covered && w.start <= w.end <= |runes| ::
      && skip(w, covered) <= covered - w.start
      && Solid(Behind(cut(w), skip(w, covered))) == if covered < w.end then Solid(runes[covered..w.end]) else []
  }

  lemma FreshFirst(cut: Window -> string, skip: (Window, nat) -> nat, windows: seq<Window>, covered: nat)
    requires windows != []
    ensures var w, rest := windows[0], windows[1..];
      var chunks, skips := Cuts(cut, rest), SkipsOf(cut, skip, rest, Max(covered, w.end));
      && |Cuts(cut, windows)| - |SkipsOf(cut, skip, windows, covered)| == |chunks| - |skips|
      && Fresh(Cuts(cut, windows), SkipsOf(cut, skip, windows, covered))
         == Solid(Behind(cut(w), skip(w, covered))) + Fresh(chunks, skips)
  {
    var w, rest := windows[0], windows[1..];
    var chunks, skips := Cuts(cut, rest), SkipsOf(cut, skip, rest, Max(covered, w.end));
    if cut(w) == "" {
      assert Cuts(cut, windows) == chunks && SkipsOf(cut, skip, windows, covered) == skips;
    } else {
      FreshConcat([cut(w)], chunks, [skip(w, covered)], skips);
      FreshOne(cut(w), skip(w, covered));
    }
  }

  lemma SolidFrom(runes: string, covered: nat, end: nat, last: nat)
    requires covered <= last <= |runes| && end <= last
    ensures Solid(runes[covered..last])
      == (if covered < end then Solid(runes[covered..end]) else []) + Solid(runes[Max(covered, end)..last])
  {
    if covered < end {
      assert runes[covered..last] == runes[covered..end] + runes[end..last];
      SolidConcat(runes[covered..end], runes[end..last]);
    }
  }

  lemma {:induction false} FreshCuts(runes: string, cut: Window -> string, skip: (Window, nat) -> nat,
      windows: seq<Window>, covered: nat, overlap: nat)
    requires CutsAreFresh(runes, cut, skip)
    requires covered <= |runes| && Chained(windows, covered, |runes|, overlap)
    ensures CoveredBy(windows, covered) <= |runes|
    ensures var chunks, skips := Cuts(cut, windows), SkipsOf(cut, skip, windows, covered);
      && |skips| == |chunks| && (forall k | k in skips :: k <= overlap)
      && Fresh(chunks, skips) == Solid(runes[covered..CoveredBy(windows, covered)])
  {
    if windows != [] {
      var w := windows[0];
      var next, end := Max(covered, w.end), CoveredBy(windows, covered);
      FreshCuts(runes, cut, skip, windows[1..], next, overlap);
      FreshFirst(cut, skip, windows, covered);
      SolidFrom(runes, covered, w.end, end);
    }
  }

  /** How much of each chunk repeats the chunks before it. */
  ghost function ChunkSkips(text: string, size: int, overlap: int): seq<nat> {
    var runes := Normalized(text);
    SkipsOf(Cutter(runes), Skipper(runes), WindowsOf(runes, size, overlap), 0)
  }

  /**
    Without what they repeat, which is at most the overlap, the chunks show exactly the runes of
    the text that are not spaces: every occurrence, once, in order.
   */
  lemma ChunksHoldTheText(text: string, size: int, overlap: int)
    requires 0 < size
    ensures |ChunkSkips(text, size, overlap)| == |Chunks(text, size, overlap)|
    ensures forall skip | skip in ChunkSkips(text, size, overlap) :: skip <= EffectiveOverlap(size, overlap)
    ensures Fresh(Chunks(text, size, overlap), ChunkSkips(text, size, overlap)) == Solid(text)
  {
    var runes, kept := Normalized(text), EffectiveOverlap(size, overlap);
    SolidOfReplaced(text);
    SolidOfTrimmed(ReplaceCrLf(text));
    if runes != "" {
      EndsAreGood(runes, size);
      WindowsAreChained(|runes|, size, size / 2, kept, Ends(runes, size), 0, 0);
      forall w: Window, covered: nat | w.start <= covered && w.start <= w.end <= |runes|
        ensures Solid(Behind(Cut(runes, w), SkipOf(runes, w, covered)))
          == if covered < w.end then Solid(runes[covered..w.end]) else []
      {
        FreshCut(runes, w, covered);
      }
      FreshCuts(runes, Cutter(runes), Skipper(runes), WindowsOf(runes, size, overlap), 0, kept);
      assert runes[0..|runes|] == runes;
    }
  }

  /** The rune at any position of the text that is not a space has its own place in a chunk. */
  lemma EveryRuneIsKept(text: string, size: int, overlap: int, i: nat) returns (k: nat, q: nat)
    requires 0 < size && i < |text| && !IsSpace(text[i])
    ensures Shows([text], 0, i, Chunks(text, size, overlap), ChunkSkips(text, size, overlap), k, q)
  {
    ChunksHoldTheText(text, size, overlap);
    SolidOfOne(text);
    k, q := Located([text], 0, i, Chunks(text, size, overlap), ChunkSkips(text, size, overlap));
  }

  lemma {:induction false} CutsAreShort(runes: string, windows: seq<Window>, size: nat)
    requires forall w | w in windows :: w.end <= w.start + size
    ensures forall chunk | chunk in Cuts(Cutter(runes), windows) :: 0 < |chunk| <= size
  {
    if windows != [] {
      assert |Cut(runes, windows[0])| <= size;
      CutsAreShort(runes, windows[1..], size);
    }
  }

  lemma ChunksAreShort(text: string, size: int, overlap: int)
    ensures forall chunk | chunk in Chunks(text, size, overlap) :: 0 < |chunk| <= size
  {
    if 0 < size {
      WindowsRebuildText(Normalized(text), size, overlap);
      CutsAreShort(Normalized(text), WindowsOf(Normalized(text), size, overlap), size);
    }
  }
}
