/**
  Splitting Markdown and plain text into blocks, line by line: headings feed a path, fences
  open code blocks, blank lines end paragraphs.  The syntax is a loose subset of CommonMark
  0.31, sections 4.2 (ATX headings) and 4.5 (fenced code blocks).
 */
module Markdown {
  import opened Folds
  import opened Options
  import opened Ranking
  import opened Records
  import opened Text

  datatype SourceBlock = SourceBlock(text: string, metadata: Metadata)

  // ----- Headings and fences

  datatype Heading = Heading(level: nat, text: string)
  datatype Fence = Fence(marker: string, language: string)

  function Hashes(line: string): (n: nat)
    ensures n <= |line|
  {
    if line == "" || line[0] != '#' then 0 else 1 + Hashes(line[1..])
  }

  function HeadingOf(line: string): (heading: Option<Heading>)
    ensures heading.Some? ==> 1 <= heading.value.level <= 6
  {
    var level := Hashes(line);
    if level == 0 || level > 6 || |line| <= level || line[level] != ' ' then None
    else
      var text := TrimSpace(line[level..]);
      if text == "" then None else Some(Heading(level, text))
  }

  /** markdownHeading */
  method MarkdownHeading(line: string) returns (heading: Option<Heading>)
    ensures heading == HeadingOf(line)
  {
    var level := 0;
    while level < |line| && line[level] == '#'
      invariant 0 <= level <= |line| && level + Hashes(line[level..]) == Hashes(line)
    {
      assert line[level..][1..] == line[level + 1..];
      level := level + 1;
    }
    if level == 0 || level > 6 || |line| <= level || line[level] != ' ' {
      return None;
    }
    var text := TrimSpace(line[level..]);
    return if text == "" then None else Some(Heading(level, text));
  }

  lemma {:induction false} HashesAre(line: string, n: nat)
    ensures Hashes(line) == n <==>
      n <= |line| && (forall i | 0 <= i < n :: line[i] == '#') && (n < |line| ==> line[n] != '#')
  {
    if line != "" && line[0] == '#' {
      if n > 0 {
        HashesAre(line[1..], n - 1);
        assert forall i | 1 <= i < |line| :: line[i] == line[1..][i - 1];
        if n <= |line| && forall i | 0 <= i < n :: line[i] == '#' {
          assert forall i | 0 <= i < n - 1 :: line[1..][i] == line[i + 1];
        }
      }
    }
  }

  /** A heading is one to six hashes, a space, and a title that is not blank. */
  lemma HeadingMeans(line: string, heading: Heading)
    ensures HeadingOf(line) == Some(heading) <==>
      && 1 <= heading.level <= 6 && heading.level < |line|
      && (forall i | 0 <= i < heading.level :: line[i] == '#') && line[heading.level] == ' '
      && heading.text == TrimSpace(line[heading.level..]) != ""
  {
    HashesAre(line, heading.level);
  }

  /** markdownFence */
  function FenceOf(line: string): Option<Fence> {
    if HasPrefix(line, "```") then Some(Fence("```", TrimSpace(line[3..])))
    else if HasPrefix(line, "~~~") then Some(Fence("~~~", TrimSpace(line[3..])))
    else None
  }

  /** A fence is a line that starts with three backquotes or three tildes, and names what is behind them. */
  lemma FenceMeans(line: string, fence: Fence)
    ensures FenceOf(line) == Some(fence) <==>
      fence.marker in ["```", "~~~"] && fence.marker <= line && fence.language == TrimSpace(line[3..])
    ensures FenceOf(line).None? <==> !("```" <= line) && !("~~~" <= line)
  {
    assert "```"[0] == '`' && "~~~"[0] == '~';
    assert "```" <= line ==> line[0] == '`';
    assert "~~~" <= line ==> line[0] == '~';
  }

  /** A heading cuts the path to its level, fills up with empty entries, and enters itself. */
  function NewPath(path: seq<string>, heading: Heading): (r: seq<string>)
    requires 1 <= heading.level
    ensures |r| == heading.level
  {
    var kept := if heading.level <= |path| then path[..heading.level - 1] else path;
    kept + seq(heading.level - 1 - |kept|, _ => "") + [heading.text]
  }

  // ----- The line machine

  datatype Kind = HeadingLine(heading: Heading) | BlankLine | TextBlock | CodeBlock(fence: Fence)

  /** What becomes of consecutive lines, with the heading path in force. */
  datatype Piece = Piece(kind: Kind, lines: seq<string>, path: seq<string>)

  datatype Parser = Parser(pieces: seq<Piece>, current: seq<string>, path: seq<string>, fence: Option<Fence>)

  const START := Parser([], [], [], None)

  function Content(lines: seq<string>): string {
    TrimSpace(Join(lines, "\n"))
  }

  /** flush: lines without content are dropped. */
  function Flush(p: Parser, kind: Kind): Parser {
    if Content(p.current) == "" then p.(current := [])
    else p.(current := [], pieces := p.pieces + [Piece(kind, p.current, p.path)])
  }

  function Emit(p: Parser, kind: Kind, line: string): Parser {
    p.(pieces := p.pieces + [Piece(kind, [line], p.path)])
  }

  function Step(p: Parser, line: string): Parser {
    var trimmed := TrimSpace(line);
    if p.fence.Some? then
      var longer := p.(current := p.current + [line]);
      if HasPrefix(trimmed, p.fence.value.marker) then Flush(longer, CodeBlock(p.fence.value)).(fence := None)
      else longer
    else if FenceOf(trimmed).Some? then
      Flush(p, TextBlock).(fence := FenceOf(trimmed), current := [line])
    else if HeadingOf(trimmed).Some? then
      var heading := HeadingOf(trimmed).value;
      Emit(Flush(p, TextBlock), HeadingLine(heading), line).(path := NewPath(p.path, heading))
    else if trimmed == "" then Emit(Flush(p, TextBlock), BlankLine, line)
    else p.(current := p.current + [line])
  }

  function Finish(p: Parser): Parser {
    Flush(p, if p.fence.Some? then CodeBlock(p.fence.value) else TextBlock)
  }

  function Pieces(lines: seq<string>): seq<Piece> {
    Finish(Fold(Step, START, lines)).pieces
  }

  predicate IsBlock(piece: Piece) {
    piece.kind.TextBlock? || piece.kind.CodeBlock?
  }

  function BlockOf(piece: Piece): SourceBlock
    requires IsBlock(piece)
  {
    SourceBlock(Content(piece.lines),
      if piece.kind.CodeBlock? then Metadata("code", piece.path, piece.kind.fence.language, None)
      else Metadata("text", piece.path, "", None))
  }

  function BlocksOf(pieces: seq<Piece>): seq<SourceBlock> {
    if pieces == [] then []
    else
      var last := pieces[|pieces| - 1];
      BlocksOf(pieces[..|pieces| - 1]) + (if IsBlock(last) then [BlockOf(last)] else [])
  }

  /** The block of a piece: its lines joined and trimmed, under its path, with its kind and language. */
  predicate Shows(block: SourceBlock, piece: Piece) {
    && block.text == TrimSpace(Join(piece.lines, "\n"))
    && block.metadata.headingPath == piece.path && block.metadata.page.None?
    && (piece.kind.TextBlock? ==> block.metadata.blockType == "text" && block.metadata.language == "")
    && (piece.kind.CodeBlock? ==>
          block.metadata.blockType == "code" && block.metadata.language == piece.kind.fence.language)
  }

  /** One block for each paragraph and code block, in order. */
  ghost predicate ShowsPieces(blocks: seq<SourceBlock>, pieces: seq<Piece>) {
    var shown := Only((piece: Piece) => piece.kind.TextBlock? || piece.kind.CodeBlock?, pieces);
    |blocks| == |shown| && forall k | 0 <= k < |shown| :: Shows(blocks[k], shown[k])
  }

  lemma {:induction false} BlocksMean(pieces: seq<Piece>)
    ensures ShowsPieces(BlocksOf(pieces), pieces)
  {
    if pieces != [] {
      var before, last := pieces[..|pieces| - 1], pieces[|pieces| - 1];
      BlocksMean(before);
      OnlyBefore((piece: Piece) => piece.kind.TextBlock? || piece.kind.CodeBlock?, before, last);
      assert pieces == before + [last];
    }
  }

  function LinesOf(text: string): seq<string> {
    SplitLines(ReplaceCrLf(text))
  }

  // ----- The parser of the source

  lemma BlocksAppend(pieces: seq<Piece>, piece: Piece)
    ensures BlocksOf(pieces + [piece]) == BlocksOf(pieces) + (if IsBlock(piece) then [BlockOf(piece)] else [])
  {
    assert (pieces + [piece])[..|pieces|] == pieces;
  }

  /** What flush adds to the list of blocks. */
  function Flushed(blocks: seq<SourceBlock>, current: seq<string>, path: seq<string>, blockType: string,
        language: string): seq<SourceBlock> {
    var content := Content(current);
    if content == "" then blocks else blocks + [SourceBlock(content, Metadata(blockType, path, language, None))]
  }

  lemma FlushBlocks(p: Parser, kind: Kind)
    requires kind.TextBlock? || kind.CodeBlock?
    ensures BlocksOf(Flush(p, kind).pieces)
      == Flushed(BlocksOf(p.pieces), p.current, p.path,
           if kind.CodeBlock? then "code" else "text", if kind.CodeBlock? then kind.fence.language else "")
  {
    BlocksAppend(p.pieces, Piece(kind, p.current, p.path));
  }

  lemma EmitBlocks(p: Parser, kind: Kind, line: string)
    requires kind.HeadingLine? || kind.BlankLine?
    ensures BlocksOf(Emit(p, kind, line).pieces) == BlocksOf(p.pieces)
  {
    BlocksAppend(p.pieces, Piece(kind, [line], p.path));
  }

  /** The blocks after one line: where the source flushes, and with what. */
  lemma StepBlocks(p: Parser, line: string)
    ensures var trimmed, blocks := TrimSpace(line), BlocksOf(p.pieces);
      BlocksOf(Step(p, line).pieces) ==
        if p.fence.Some? then
          if HasPrefix(trimmed, p.fence.value.marker)
          then Flushed(blocks, p.current + [line], p.path, "code", p.fence.value.language) else blocks
        else if FenceOf(trimmed).Some? || HeadingOf(trimmed).Some? || trimmed == ""
        then Flushed(blocks, p.current, p.path, "text", "")
        else blocks
  {
    var trimmed := TrimSpace(line);
    if p.fence.Some? {
      FlushBlocks(p.(current := p.current + [line]), CodeBlock(p.fence.value));
    } else {
      FlushBlocks(p, TextBlock);
      if HeadingOf(trimmed).Some? {
        EmitBlocks(Flush(p, TextBlock), HeadingLine(HeadingOf(trimmed).value), line);
      }
      EmitBlocks(Flush(p, TextBlock), BlankLine, line);
    }
  }

  /** headingPath is a slice of capacity 6: the path is its first `depth` entries. */
  method PushHeading(headingPath: array<string>, depth: nat, heading: Heading) returns (deeper: nat)
    requires headingPath.Length == 6 && depth <= 6 && 1 <= heading.level <= 6
    modifies headingPath
    ensures deeper <= 6 && headingPath[..deeper] == NewPath(old(headingPath[..depth]), heading)
  {
    ghost var path := headingPath[..depth];
    deeper := depth;
    if heading.level <= depth {
      deeper := heading.level - 1;
    }
    ghost var kept := headingPath[..deeper];
    while deeper < heading.level - 1
      invariant |kept| <= deeper <= heading.level - 1
      invariant headingPath[..deeper] == kept + seq(deeper - |kept|, _ => "")
    {
      headingPath[deeper] := "";
      deeper := deeper + 1;
    }
    headingPath[deeper] := heading.text;
    deeper := deeper + 1;
    assert headingPath[..deeper] == kept + seq(heading.level - 1 - |kept|, _ => "") + [heading.text];
  }

  /** The local variables of the parser, but for the heading path. */
  datatype Locals = Locals(
    blocks: seq<SourceBlock>, current: seq<string>, inFence: bool, fenceMarker: string, fenceLanguage: string)

  ghost predicate Mirrors(p: Parser, v: Locals, path: seq<string>) {
    && v.blocks == BlocksOf(p.pieces) && v.current == p.current && path == p.path
    && p.fence == if v.inFence then Some(Fence(v.fenceMarker, v.fenceLanguage)) else None
  }

  /** The body of the loop over the lines. */
  method ParseLine(line: string, v: Locals, headingPath: array<string>, depth: nat, ghost p: Parser)
    returns (v': Locals, deeper: nat)
    requires headingPath.Length == 6 && depth <= 6 && Mirrors(p, v, headingPath[..depth])
    modifies headingPath
    ensures deeper <= 6 && Mirrors(Step(p, line), v', headingPath[..deeper])
  {
    var trimmed := TrimSpace(line);
    StepBlocks(p, line);
    v', deeper := v, depth;
    if v.inFence {
      v' := v.(current := v.current + [line]);
      if HasPrefix(trimmed, v.fenceMarker) {
        v' := Locals(Flushed(v.blocks, v'.current, headingPath[..depth], "code", v.fenceLanguage), [], false, "", "");
      }
      return;
    }
    var fence := FenceOf(trimmed);
    if fence.Some? {
      var blocks := Flushed(v.blocks, v.current, headingPath[..depth], "text", "");
      v' := Locals(blocks, [line], true, fence.value.marker, fence.value.language);
      return;
    }
    var heading := MarkdownHeading(trimmed);
    if heading.Some? {
      v' := v.(blocks := Flushed(v.blocks, v.current, headingPath[..depth], "text", ""), current := []);
      deeper := PushHeading(headingPath, depth, heading.value);
      return;
    }
    if trimmed == "" {
      v' := v.(blocks := Flushed(v.blocks, v.current, headingPath[..depth], "text", ""), current := []);
      return;
    }
    v' := v.(current := v.current + [line]);
  }

  method ParseMarkdownBlocks(text: string) returns (blocks: seq<SourceBlock>)
    ensures blocks == BlocksOf(Pieces(LinesOf(text))) && ShowsPieces(blocks, Pieces(LinesOf(text)))
  {
    var lines := SplitLines(ReplaceCrLf(text));
    var headingPath := new string[6](_ => "");
    var depth: nat := 0;
    var v := Locals([], [], false, "", "");
    ghost var p := START;
    var i := 0;
    while i < |lines|
      invariant 0 <= i <= |lines| && depth <= 6 && p == Fold(Step, START, lines[..i])
      invariant Mirrors(p, v, headingPath[..depth])
    {
      v, depth := ParseLine(lines[i], v, headingPath, depth, p);
      FoldMore(Step, START, lines[..i], lines[i]);
      assert lines[..i + 1] == lines[..i] + [lines[i]];
      p := Step(p, lines[i]);
      i := i + 1;
    }
    assert lines[..i] == lines;
    FlushBlocks(p, if p.fence.Some? then CodeBlock(p.fence.value) else TextBlock);
    if v.inFence {
      blocks := Flushed(v.blocks, v.current, headingPath[..depth], "code", v.fenceLanguage);
    } else {
      blocks := Flushed(v.blocks, v.current, headingPath[..depth], "text", "");
    }
    BlocksMean(Pieces(lines));
  }
}
