/** What the line machine keeps: every line has its place, and headings mean what they should. */
module MarkdownTheorems {
  import opened Folds
  import opened Options
  import opened Text
  import opened Markdown

  // ----- Every line has exactly one place

  function Flatten(pieces: seq<Piece>): seq<string> {
    if pieces == [] then [] else Flatten(pieces[..|pieces| - 1]) + pieces[|pieces| - 1].lines
  }

  lemma FlattenAppend(pieces: seq<Piece>, piece: Piece)
    ensures Flatten(pieces + [piece]) == Flatten(pieces) + piece.lines
  {
    assert (pieces + [piece])[..|pieces|] == pieces;
  }

  predicate IsOrdinary(line: string) {
    var trimmed := TrimSpace(line);
    trimmed != "" && FenceOf(trimmed).None? && HeadingOf(trimmed).None?
  }

  predicate Closes(fence: Fence, line: string) {
    HasPrefix(TrimSpace(line), fence.marker)
  }

  /** A code block starts with its fence, and its marker does not come back before its last line. */
  predicate IsCode(fence: Fence, lines: seq<string>) {
    && lines != [] && FenceOf(TrimSpace(lines[0])) == Some(fence)
    && forall i | 0 < i < |lines| - 1 :: !Closes(fence, lines[i])
  }

  predicate Fits(piece: Piece) {
    match piece.kind
    case HeadingLine(heading) =>
      |piece.lines| == 1 && FenceOf(TrimSpace(piece.lines[0])).None? && HeadingOf(TrimSpace(piece.lines[0])) == Some(heading)
    case BlankLine => |piece.lines| == 1 && Blank(piece.lines[0])
    case TextBlock => piece.lines != [] && forall i | 0 <= i < |piece.lines| :: IsOrdinary(piece.lines[i])
    case CodeBlock(fence) => IsCode(fence, piece.lines)
  }

  predicate Closed(piece: Piece) {
    piece.kind.CodeBlock? ==> |piece.lines| > 1 && Closes(piece.kind.fence, piece.lines[|piece.lines| - 1])
  }

  /** The lines collected but not yet flushed. */
  predicate CurrentFits(p: Parser) {
    if p.fence.None? then forall i | 0 <= i < |p.current| :: IsOrdinary(p.current[i])
    else
      && p.current != [] && FenceOf(TrimSpace(p.current[0])) == p.fence
      && forall i | 0 < i < |p.current| :: !Closes(p.fence.value, p.current[i])
  }

  lemma FenceIsNotBlank(line: string)
    requires FenceOf(line).Some?
    ensures line != ""
  {
  }

  /** A line with content gives the joined lines content: flush never drops anything. */
  lemma {:induction false} JoinHasContent(lines: seq<string>, k: nat)
    requires k < |lines| && TrimSpace(lines[k]) != ""
    ensures Content(lines) != ""
  {
    JoinNotBlank(lines, k);
    TrimEmptyIffBlank(Join(lines, "\n"));
  }

  lemma {:induction false} JoinNotBlank(lines: seq<string>, k: nat)
    requires k < |lines| && TrimSpace(lines[k]) != ""
    ensures !Blank(Join(lines, "\n"))
  {
    TrimEmptyIffBlank(lines[k]);
    if |lines| > 1 {
      var joined := Join(lines, "\n");
      if k == 0 {
        var i :| 0 <= i < |lines[0]| && !IsSpace(lines[0][i]);
        assert joined[i] == lines[0][i];
      } else {
        JoinNotBlank(lines[1..], k - 1);
        var rest := Join(lines[1..], "\n");
        var i :| 0 <= i < |rest| && !IsSpace(rest[i]);
        assert joined[|lines[0]| + 1 + i] == rest[i];
      }
    }
  }

  lemma FlushKeepsLines(p: Parser, kind: Kind)
    requires CurrentFits(p)
    ensures Flatten(Flush(p, kind).pieces) == Flatten(p.pieces) + p.current
    ensures p.current != [] ==> Flush(p, kind).pieces == p.pieces + [Piece(kind, p.current, p.path)]
    ensures p.current == [] ==> Flush(p, kind).pieces == p.pieces
  {
    if p.current != [] {
      if p.fence.Some? {
        FenceIsNotBlank(TrimSpace(p.current[0]));
      } else {
        assert IsOrdinary(p.current[0]);
      }
      JoinHasContent(p.current, 0);
      FlattenAppend(p.pieces, Piece(kind, p.current, p.path));
    } else {
      assert Join(p.current, "\n") == "";
    }
  }

  /** A paragraph cut in two. */
  predicate SplitText(pieces: seq<Piece>, i: nat) {
    i + 1 < |pieces| && pieces[i].kind.TextBlock? && pieces[i + 1].kind.TextBlock?
  }

  lemma NoSplit(pieces: seq<Piece>, piece: Piece)
    requires forall i: nat :: !SplitText(pieces, i)
    requires !(EndsInText(pieces) && piece.kind.TextBlock?)
    ensures forall i: nat :: !SplitText(pieces + [piece], i)
  {
    forall i: nat ensures !SplitText(pieces + [piece], i) {
      assert !SplitText(pieces, i);
    }
  }

  ghost predicate PiecesFit(pieces: seq<Piece>) {
    && (forall i | 0 <= i < |pieces| :: Fits(pieces[i]))
    && (forall i: nat :: !SplitText(pieces, i))
  }

  ghost predicate AllClosed(pieces: seq<Piece>) {
    forall i | 0 <= i < |pieces| :: Closed(pieces[i])
  }

  ghost predicate EndsInText(pieces: seq<Piece>) {
    pieces != [] && pieces[|pieces| - 1].kind.TextBlock?
  }

  /** Before a fence the text is flushed, so only a fenced parser can have text as its last piece. */
  ghost predicate Sound(p: Parser, lines: seq<string>) {
    && CurrentFits(p) && PiecesFit(p.pieces) && AllClosed(p.pieces)
    && (p.fence.None? ==> !EndsInText(p.pieces))
    && Flatten(p.pieces) + p.current == lines
  }

  lemma OneMorePiece(pieces: seq<Piece>, piece: Piece)
    requires PiecesFit(pieces) && Fits(piece) && !(EndsInText(pieces) && piece.kind.TextBlock?)
    ensures PiecesFit(pieces + [piece])
    ensures AllClosed(pieces) && Closed(piece) ==> AllClosed(pieces + [piece])
  {
    NoSplit(pieces, piece);
  }

  /** Flushing text: what was collected becomes a piece, and the next piece must not be text. */
  lemma FlushText(p: Parser, lines: seq<string>)
    requires Sound(p, lines) && p.fence.None?
    ensures var q := Flush(p, TextBlock);
      PiecesFit(q.pieces) && AllClosed(q.pieces) && Flatten(q.pieces) == lines
  {
    FlushKeepsLines(p, TextBlock);
    if p.current != [] {
      OneMorePiece(p.pieces, Piece(TextBlock, p.current, p.path));
    }
  }

  lemma FlushCode(p: Parser, lines: seq<string>)
    requires Sound(p, lines) && p.fence.Some?
    ensures var q := Flush(p, CodeBlock(p.fence.value));
      && PiecesFit(q.pieces) && Flatten(q.pieces) == lines
      && q.pieces == p.pieces + [Piece(CodeBlock(p.fence.value), p.current, p.path)]
  {
    FlushKeepsLines(p, CodeBlock(p.fence.value));
    OneMorePiece(p.pieces, Piece(CodeBlock(p.fence.value), p.current, p.path));
  }

  /** A heading or a blank line behind flushed text. */
  lemma EmitKeeps(p: Parser, kind: Kind, line: string, lines: seq<string>)
    requires PiecesFit(p.pieces) && AllClosed(p.pieces) && Flatten(p.pieces) == lines && p.current == [] && p.fence.None?
    requires !kind.TextBlock? && !kind.CodeBlock? && Fits(Piece(kind, [line], p.path))
    ensures Sound(Emit(p, kind, line), lines + [line])
  {
    OneMorePiece(p.pieces, Piece(kind, [line], p.path));
    FlattenAppend(p.pieces, Piece(kind, [line], p.path));
  }

  /** A fence that is closed: its lines become one piece. */
  lemma FenceCloses(p: Parser, line: string, lines: seq<string>, fence: Fence)
    requires Sound(p, lines) && p.fence == Some(fence) && Closes(fence, line)
    ensures var piece := Piece(CodeBlock(fence), p.current + [line], p.path);
      Content(piece.lines) != "" && PiecesFit(p.pieces + [piece]) && AllClosed(p.pieces + [piece])
  {
    var piece := Piece(CodeBlock(fence), p.current + [line], p.path);
    FenceIsNotBlank(TrimSpace(piece.lines[0]));
    JoinHasContent(piece.lines, 0);
    OneMorePiece(p.pieces, piece);
  }

  lemma StepInFence(p: Parser, line: string, lines: seq<string>)
    requires Sound(p, lines) && p.fence.Some?
    ensures Sound(Step(p, line), lines + [line])
  {
    var fence := p.fence.value;
    var longer := p.current + [line];
    assert Flatten(p.pieces) + longer == lines + [line];
    if Closes(fence, line) {
      var piece := Piece(CodeBlock(fence), longer, p.path);
      FenceCloses(p, line, lines, fence);
      FlattenAppend(p.pieces, piece);
      assert Step(p, line) == Parser(p.pieces + [piece], [], p.path, None);
    }
  }

  lemma StepKeepsSound(p: Parser, line: string, lines: seq<string>)
    requires Sound(p, lines)
    ensures Sound(Step(p, line), lines + [line])
  {
    var trimmed := TrimSpace(line);
    if p.fence.Some? {
      StepInFence(p, line, lines);
    } else if IsOrdinary(line) {
      assert Flatten(p.pieces) + (p.current + [line]) == lines + [line];
    } else {
      FlushText(p, lines);
      var q := Flush(p, TextBlock);
      if FenceOf(trimmed).None? {
        if HeadingOf(trimmed).Some? {
          EmitKeeps(q, HeadingLine(HeadingOf(trimmed).value), line, lines);
        } else {
          TrimEmptyIffBlank(line);
          EmitKeeps(q, BlankLine, line, lines);
        }
      }
    }
  }

  lemma RunIsSound(lines: seq<string>)
    ensures Sound(Fold(Step, START, lines), lines)
  {
    forall p, seen, line | Sound(p, seen) ensures Sound(Step(p, line), seen + [line]) {
      StepKeepsSound(p, line, seen);
    }
    FoldKeeps(Step, START, (p, seen) => Sound(p, seen), lines);
  }

  /**
    Every line of the text is in exactly one piece, in order; a piece is a heading line, a blank
    line, a paragraph of ordinary lines or a code block from its fence to the first line that
    closes it; paragraphs are maximal; and only the last code block may be left open.
   */
  lemma EveryLineHasItsPlace(lines: seq<string>)
    ensures Flatten(Pieces(lines)) == lines && PiecesFit(Pieces(lines))
    ensures forall i | 0 <= i < |Pieces(lines)| - 1 :: Closed(Pieces(lines)[i])
  {
    RunIsSound(lines);
    var p := Fold(Step, START, lines);
    if p.fence.Some? {
      FlushCode(p, lines);
    } else {
      FlushText(p, lines);
    }
  }

  // ----- The heading path

  function HeadingsOf(pieces: seq<Piece>): (hs: seq<Heading>) {
    if pieces == [] then []
    else
      var last := pieces[|pieces| - 1];
      HeadingsOf(pieces[..|pieces| - 1]) + (if last.kind.HeadingLine? then [last.kind.heading] else [])
  }

  predicate Levels(hs: seq<Heading>) {
    forall i | 0 <= i < |hs| :: 1 <= hs[i].level
  }

  /** The path after a list of headings. */
  function PathOf(hs: seq<Heading>): seq<string>
    requires Levels(hs)
  {
    if hs == [] then [] else NewPath(PathOf(hs[..|hs| - 1]), hs[|hs| - 1])
  }

  predicate IsLastAtMost(hs: seq<Heading>, level: nat, i: nat) {
    i < |hs| && hs[i].level <= level && forall j | i < j < |hs| :: hs[j].level > level
  }

  /**
    The path is as long as the level of the last heading; its entry k is the text of the last
    heading of level at most k + 1 if that heading has level k + 1, and empty otherwise.
   */
  lemma {:induction false} PathMeans(hs: seq<Heading>, k: nat)
    requires Levels(hs)
    ensures |PathOf(hs)| == if hs == [] then 0 else hs[|hs| - 1].level
    ensures k < |PathOf(hs)| ==>
      && (forall i: nat | IsLastAtMost(hs, k + 1, i) :: PathOf(hs)[k] == if hs[i].level == k + 1 then hs[i].text else "")
      && ((forall i | 0 <= i < |hs| :: hs[i].level > k + 1) ==> PathOf(hs)[k] == "")
  {
    if hs != [] {
      var n := |hs| - 1;
      PathMeans(hs[..n], k);
      if k < hs[n].level {
        forall i: nat | IsLastAtMost(hs, k + 1, i)
          ensures PathOf(hs)[k] == if hs[i].level == k + 1 then hs[i].text else ""
        {
          if i < n {
            assert IsLastAtMost(hs[..n], k + 1, i);
            if k >= |PathOf(hs[..n])| {
              assert hs[n - 1].level <= k && i == n - 1;
            }
          }
        }
      }
    }
  }

  predicate PathAfter(path: seq<string>, hs: seq<Heading>) {
    Levels(hs) && path == PathOf(hs)
  }

  /** The path of a piece is that of the headings before it. */
  predicate PathIsRight(pieces: seq<Piece>, i: nat)
    requires i < |pieces|
  {
    PathAfter(pieces[i].path, HeadingsOf(pieces[..i]))
  }

  ghost predicate PathsFollow(p: Parser) {
    PathAfter(p.path, HeadingsOf(p.pieces)) && forall i: nat | i < |p.pieces| :: PathIsRight(p.pieces, i)
  }

  lemma PathsOneMore(p: Parser, piece: Piece, q: Parser)
    requires PathsFollow(p) && piece.path == p.path && q.pieces == p.pieces + [piece]
    requires PathAfter(q.path, HeadingsOf(q.pieces))
    ensures PathsFollow(q)
  {
    assert q.pieces[..|p.pieces|] == p.pieces;
    forall i: nat | i < |q.pieces| ensures PathIsRight(q.pieces, i) {
      if i < |p.pieces| {
        assert PathIsRight(p.pieces, i) && q.pieces[..i] == p.pieces[..i];
      }
    }
  }

  lemma AddKeepsPaths(p: Parser, piece: Piece, q: Parser)
    requires PathsFollow(p) && piece.path == p.path && q.pieces == p.pieces + [piece]
    requires if piece.kind.HeadingLine? then 1 <= piece.kind.heading.level && q.path == NewPath(p.path, piece.kind.heading)
             else q.path == p.path
    ensures PathsFollow(q)
  {
    if piece.kind.HeadingLine? {
      PathAfterMore(p.path, HeadingsOf(p.pieces), piece.kind.heading);
    }
    OneMoreHeading(p.pieces, piece);
    PathsOneMore(p, piece, q);
  }

  lemma OneMoreHeading(pieces: seq<Piece>, piece: Piece)
    ensures HeadingsOf(pieces + [piece])
      == if piece.kind.HeadingLine? then HeadingsOf(pieces) + [piece.kind.heading] else HeadingsOf(pieces)
  {
    assert (pieces + [piece])[..|pieces|] == pieces;
  }

  lemma PathAfterMore(path: seq<string>, hs: seq<Heading>, heading: Heading)
    requires PathAfter(path, hs) && 1 <= heading.level
    ensures PathAfter(NewPath(path, heading), hs + [heading])
  {
    assert (hs + [heading])[..|hs|] == hs;
  }

  lemma FlushKeepsPaths(p: Parser, kind: Kind)
    requires PathsFollow(p) && !kind.HeadingLine?
    ensures PathsFollow(Flush(p, kind)) && Flush(p, kind).path == p.path
  {
    if Content(p.current) != "" {
      AddKeepsPaths(p, Piece(kind, p.current, p.path), Flush(p, kind));
    }
  }

  lemma StepKeepsPaths(p: Parser, line: string)
    requires PathsFollow(p)
    ensures PathsFollow(Step(p, line))
  {
    var trimmed := TrimSpace(line);
    if p.fence.Some? {
      FlushKeepsPaths(p.(current := p.current + [line]), CodeBlock(p.fence.value));
    } else {
      FlushKeepsPaths(p, TextBlock);
      var q := Flush(p, TextBlock);
      if FenceOf(trimmed).None? {
        if HeadingOf(trimmed).Some? {
          AddKeepsPaths(q, Piece(HeadingLine(HeadingOf(trimmed).value), [line], q.path), Step(p, line));
        } else if trimmed == "" {
          AddKeepsPaths(q, Piece(BlankLine, [line], q.path), Step(p, line));
        }
      }
    }
  }

  lemma RunKeepsPaths(lines: seq<string>)
    ensures PathsFollow(Fold(Step, START, lines))
  {
    forall p, line | PathsFollow(p) ensures PathsFollow(Step(p, line)) {
      StepKeepsPaths(p, line);
    }
    FoldKeeps(Step, START, (p, seen) => PathsFollow(p), lines);
  }

  /** Every piece stands under the path of the headings before it, whatever comes after it. */
  lemma PathsAreDeclared(lines: seq<string>, i: nat)
    requires i < |Pieces(lines)|
    ensures PathIsRight(Pieces(lines), i)
  {
    RunKeepsPaths(lines);
    var p := Fold(Step, START, lines);
    FlushKeepsPaths(p, if p.fence.Some? then CodeBlock(p.fence.value) else TextBlock);
  }

  // ----- What is emitted stays

  lemma {:induction false} BlocksPrefix(pieces: seq<Piece>, all: seq<Piece>)
    requires pieces <= all
    ensures BlocksOf(pieces) <= BlocksOf(all)
    decreases |all|
  {
    if |pieces| < |all| {
      var n := |all| - 1;
      BlocksPrefix(pieces, all[..n]);
      BlocksAppend(all[..n], all[n]);
      assert all == all[..n] + [all[n]];
    } else {
      assert pieces == all;
    }
  }

  lemma StepExtends(p: Parser, line: string)
    ensures p.pieces <= Step(p, line).pieces
  {
  }

  lemma FinishExtends(p: Parser)
    ensures p.pieces <= Finish(p).pieces
  {
  }

  lemma RunExtends(start: Parser, lines: seq<string>)
    ensures start.pieces <= Fold(Step, start, lines).pieces
  {
    forall p: Parser, line | start.pieces <= p.pieces ensures start.pieces <= Step(p, line).pieces {
      StepExtends(p, line);
    }
    FoldKeeps(Step, start, (p: Parser, seen: seq<string>) => start.pieces <= p.pieces, lines);
  }

  /** Blocks emitted after some lines are never altered by the lines that follow. */
  lemma EmittedBlocksStay(lines: seq<string>, more: seq<string>)
    ensures BlocksOf(Fold(Step, START, lines).pieces) <= BlocksOf(Pieces(lines + more))
  {
    FoldAppend(Step, START, lines, more);
    RunExtends(Fold(Step, START, lines), more);
    FinishExtends(Fold(Step, START, lines + more));
    BlocksPrefix(Fold(Step, START, lines).pieces, Pieces(lines + more));
  }

  // ----- Plain text

  function PlainStep(p: Parser, line: string): Parser {
    if TrimSpace(line) == "" then Emit(Flush(p, TextBlock), BlankLine, line)
    else p.(current := p.current + [line])
  }

  function PlainPieces(lines: seq<string>): seq<Piece> {
    Flush(Fold(PlainStep, START, lines), TextBlock).pieces
  }

  ghost predicate PlainMirrors(p: Parser, blocks: seq<SourceBlock>, current: seq<string>) {
    blocks == BlocksOf(p.pieces) && current == p.current && p.path == []
  }

  /** The body of the loop over the lines. */
  method ParsePlainLine(line: string, blocks: seq<SourceBlock>, current: seq<string>, ghost p: Parser)
    returns (blocks': seq<SourceBlock>, current': seq<string>)
    requires PlainMirrors(p, blocks, current)
    ensures PlainMirrors(PlainStep(p, line), blocks', current')
  {
    if TrimSpace(line) == "" {
      FlushBlocks(p, TextBlock);
      EmitBlocks(Flush(p, TextBlock), BlankLine, line);
      return Flushed(blocks, current, [], "text", ""), [];
    }
    return blocks, current + [line];
  }

  method ParsePlainBlocks(text: string) returns (blocks: seq<SourceBlock>)
    ensures blocks == BlocksOf(PlainPieces(LinesOf(text))) && ShowsPieces(blocks, PlainPieces(LinesOf(text)))
  {
    var lines := SplitLines(ReplaceCrLf(text));
    var current := [];
    blocks := [];
    ghost var p := START;
    var i := 0;
    while i < |lines|
      invariant 0 <= i <= |lines| && p == Fold(PlainStep, START, lines[..i]) && PlainMirrors(p, blocks, current)
    {
      blocks, current := ParsePlainLine(lines[i], blocks, current, p);
      FoldMore(PlainStep, START, lines[..i], lines[i]);
      assert lines[..i + 1] == lines[..i] + [lines[i]];
      p := PlainStep(p, lines[i]);
      i := i + 1;
    }
    assert lines[..i] == lines;
    FlushBlocks(p, TextBlock);
    blocks := Flushed(blocks, current, [], "text", "");
    BlocksMean(PlainPieces(lines));
  }

  predicate NoMarkup(lines: seq<string>) {
    forall i | 0 <= i < |lines| :: FenceOf(TrimSpace(lines[i])).None? && HeadingOf(TrimSpace(lines[i])).None?
  }

  lemma {:induction false} SameRun(lines: seq<string>)
    requires NoMarkup(lines)
    ensures Fold(Step, START, lines) == Fold(PlainStep, START, lines) && Fold(Step, START, lines).fence.None?
  {
    if lines != [] {
      SameRun(lines[..|lines| - 1]);
    }
  }

  /** Without heading and fence lines both parsers return the same blocks. */
  lemma MarkdownOfPlainText(text: string)
    requires NoMarkup(LinesOf(text))
    ensures BlocksOf(Pieces(LinesOf(text))) == BlocksOf(PlainPieces(LinesOf(text)))
  {
    SameRun(LinesOf(text));
  }

  // ----- Plain text loses no line either

  predicate PlainFits(piece: Piece) {
    piece.path == [] && piece.lines != [] &&
    match piece.kind
    case BlankLine => |piece.lines| == 1 && Blank(piece.lines[0])
    case TextBlock => forall i | 0 <= i < |piece.lines| :: !Blank(piece.lines[i])
    case _ => false
  }

  ghost predicate PlainPiecesFit(pieces: seq<Piece>) {
    && (forall i | 0 <= i < |pieces| :: PlainFits(pieces[i]))
    && (forall i: nat :: !SplitText(pieces, i))
  }

  ghost predicate PlainSound(p: Parser, lines: seq<string>) {
    && PlainPiecesFit(p.pieces) && !EndsInText(p.pieces) && p.path == []
    && (forall i | 0 <= i < |p.current| :: !Blank(p.current[i]))
    && Flatten(p.pieces) + p.current == lines
  }

  lemma OnePlainPieceMore(pieces: seq<Piece>, piece: Piece)
    requires PlainPiecesFit(pieces) && PlainFits(piece) && !(EndsInText(pieces) && piece.kind.TextBlock?)
    ensures PlainPiecesFit(pieces + [piece])
  {
    NoSplit(pieces, piece);
  }

  lemma PlainFlush(p: Parser, lines: seq<string>)
    requires PlainSound(p, lines)
    ensures var q := Flush(p, TextBlock); PlainPiecesFit(q.pieces) && Flatten(q.pieces) == lines
  {
    if p.current != [] {
      TrimEmptyIffBlank(p.current[0]);
      JoinHasContent(p.current, 0);
      OnePlainPieceMore(p.pieces, Piece(TextBlock, p.current, p.path));
      FlattenAppend(p.pieces, Piece(TextBlock, p.current, p.path));
    } else {
      assert Join(p.current, "\n") == "";
    }
  }

  lemma PlainEmit(p: Parser, line: string, lines: seq<string>)
    requires PlainPiecesFit(p.pieces) && Flatten(p.pieces) == lines && p.current == [] && p.path == [] && Blank(line)
    ensures PlainSound(Emit(p, BlankLine, line), lines + [line])
  {
    OnePlainPieceMore(p.pieces, Piece(BlankLine, [line], p.path));
    FlattenAppend(p.pieces, Piece(BlankLine, [line], p.path));
  }

  lemma PlainStepKeepsSound(p: Parser, line: string, lines: seq<string>)
    requires PlainSound(p, lines)
    ensures PlainSound(PlainStep(p, line), lines + [line])
  {
    TrimEmptyIffBlank(line);
    if Blank(line) {
      PlainFlush(p, lines);
      PlainEmit(Flush(p, TextBlock), line, lines);
    } else {
      assert Flatten(p.pieces) + (p.current + [line]) == lines + [line];
    }
  }

  lemma PlainRunIsSound(lines: seq<string>)
    ensures PlainSound(Fold(PlainStep, START, lines), lines)
  {
    forall p, seen, line | PlainSound(p, seen) ensures PlainSound(PlainStep(p, line), seen + [line]) {
      PlainStepKeepsSound(p, line, seen);
    }
    FoldKeeps(PlainStep, START, (p, seen) => PlainSound(p, seen), lines);
  }

  /** The blocks of plain text are its maximal runs of lines that are not blank. */
  lemma EveryPlainLineHasItsPlace(lines: seq<string>)
    ensures Flatten(PlainPieces(lines)) == lines && PlainPiecesFit(PlainPieces(lines))
  {
    PlainRunIsSound(lines);
    PlainFlush(Fold(PlainStep, START, lines), lines);
  }
}
