/** From a document's text to the chunks that are stored for it. */
module Indexing {
  import opened Listings
  import opened Options
  import opened Solids
  import opened Text
  import opened Markdown
  import opened MarkdownTheorems
  import opened Grouping
  import ChunkTable

  datatype Error = NoReadableText | NoStoredChunks | EmbedderFailed | CountMismatch | DimensionMismatch
  datatype Result<T> = Ok(value: T) | Err(error: Error)

  type Vector = seq<real>
  datatype ChunkMetadata = ChunkMetadata(part: PartMetadata, source: string, approxTokens: nat, reindexed: bool)
  datatype StoredChunk = StoredChunk(
    documentId: string, ordinal: nat, content: string, metadata: ChunkMetadata, embedding: Vector)

  function ApproximateTokens(text: string): nat {
    (|text| + 3) / 4
  }

  /** The embedder answered with one vector of the right dimension for each text. */
  ghost predicate Usable(reply: Option<seq<Vector>>, n: nat, dim: int) {
    reply.Some? && |reply.value| == n && forall i | 0 <= i < n :: |reply.value[i]| == dim
  }

  method EmbedTexts(texts: seq<string>, reply: Option<seq<Vector>>, dim: int) returns (result: Result<seq<Vector>>)
    ensures match result
      case Ok(vectors) => Usable(reply, |texts|, dim) && vectors == reply.value
      case Err(EmbedderFailed) => reply.None?
      case Err(CountMismatch) => reply.Some? && |reply.value| != |texts|
      case Err(DimensionMismatch) => reply.Some? && |reply.value| == |texts| && !Usable(reply, |texts|, dim)
      case _ => false
  {
    if reply.None? {
      return Err(EmbedderFailed);
    }
    if |reply.value| != |texts| {
      return Err(CountMismatch);
    }
    var i := 0;
    while i < |reply.value|
      invariant 0 <= i <= |reply.value| && forall k | 0 <= k < i :: |reply.value[k]| == dim
    {
      if |reply.value[i]| != dim {
        return Err(DimensionMismatch);
      }
      i := i + 1;
    }
    return Ok(reply.value);
  }

  function ChunkAt(documentId: string, source: string, part: ChunkPart, ordinal: nat, embedding: Vector): StoredChunk {
    StoredChunk(documentId, ordinal, part.text,
      ChunkMetadata(part.metadata, source, ApproximateTokens(part.text), false), embedding)
  }

  /** The stored chunks are the parts, numbered by their positions, each with its own vector. */
  ghost predicate Stored(chunks: seq<StoredChunk>, documentId: string, source: string, parts: seq<ChunkPart>,
        vectors: seq<Vector>) {
    && |chunks| == |parts| == |vectors|
    && forall i | 0 <= i < |parts| :: chunks[i] == ChunkAt(documentId, source, parts[i], i, vectors[i])
  }

  method TextsOfParts(parts: seq<ChunkPart>) returns (texts: seq<string>)
    ensures |texts| == |parts| && forall i | 0 <= i < |parts| :: texts[i] == parts[i].text
  {
    texts := [];
    var i := 0;
    while i < |parts|
      invariant 0 <= i <= |parts| && |texts| == i && forall k | 0 <= k < i :: texts[k] == parts[k].text
    {
      texts := texts + [parts[i].text];
      i := i + 1;
    }
  }

  /** The loop of buildChunks over the parts. */
  method StoreParts(documentId: string, source: string, parts: seq<ChunkPart>, vectors: seq<Vector>)
    returns (chunks: seq<StoredChunk>)
    requires |vectors| == |parts|
    ensures Stored(chunks, documentId, source, parts, vectors)
  {
    chunks := [];
    var i := 0;
    while i < |parts|
      invariant 0 <= i <= |parts| && Stored(chunks, documentId, source, parts[..i], vectors[..i])
    {
      chunks := chunks + [ChunkAt(documentId, source, parts[i], i, vectors[i])];
      i := i + 1;
    }
    assert parts[..i] == parts && vectors[..i] == vectors;
  }

  /** Chunk i is made of part i and vector i. */
  ghost predicate StoredInTurn(chunks: seq<StoredChunk>, documentId: string, source: string, parts: seq<ChunkPart>,
        vectors: seq<Vector>)
  {
    && |chunks| == |parts| == |vectors|
    && forall i | 0 <= i < |chunks| ::
         && chunks[i].documentId == documentId && chunks[i].ordinal == i
         && chunks[i].content == parts[i].text && chunks[i].embedding == vectors[i]
         && chunks[i].metadata.part == parts[i].metadata && chunks[i].metadata.source == source
         && chunks[i].metadata.approxTokens == (|chunks[i].content| + 3) / 4 && !chunks[i].metadata.reindexed
  }

  /** Chunk i is the old chunk i for the document, with vector i in place of its old one. */
  ghost predicate RefreshedInTurn(rebuilt: seq<StoredChunk>, documentId: string, current: seq<StoredChunk>,
        vectors: seq<Vector>)
  {
    && |rebuilt| == |current| == |vectors|
    && forall i | 0 <= i < |rebuilt| ::
         && rebuilt[i].documentId == documentId && rebuilt[i].ordinal == current[i].ordinal
         && rebuilt[i].content == current[i].content && rebuilt[i].embedding == vectors[i]
         && rebuilt[i].metadata.part == current[i].metadata.part
         && rebuilt[i].metadata.source == current[i].metadata.source
         && rebuilt[i].metadata.approxTokens == (|current[i].content| + 3) / 4 && rebuilt[i].metadata.reindexed
  }

  method BuildChunks(documentId: string, source: string, blocks: seq<SourceBlock>, size: int, overlap: int,
                     reply: Option<seq<Vector>>, dim: int)
    returns (result: Result<seq<StoredChunk>>)
    ensures result == Err(NoReadableText) <==> Parts(blocks, size, overlap) == []
    ensures result.Ok? <==> Parts(blocks, size, overlap) != [] && Usable(reply, |Parts(blocks, size, overlap)|, dim)
    ensures result.Ok? ==> Stored(result.value, documentId, source, Parts(blocks, size, overlap), reply.value)
    ensures result.Ok? ==> StoredInTurn(result.value, documentId, source, Parts(blocks, size, overlap), reply.value)
  {
    var parts := ChunkBlocks(blocks, size, overlap);
    if |parts| == 0 {
      return Err(NoReadableText);
    }
    var texts := TextsOfParts(parts);
    var embedded := EmbedTexts(texts, reply, dim);
    if embedded.Err? {
      return Err(embedded.error);
    }
    var chunks := StoreParts(documentId, source, parts, embedded.value);
    return Ok(chunks);
  }

  function Refreshed(documentId: string, chunk: StoredChunk, embedding: Vector): StoredChunk {
    chunk.(documentId := documentId, embedding := embedding,
      metadata := chunk.metadata.(reindexed := true, approxTokens := ApproximateTokens(chunk.content)))
  }

  ghost predicate AllRefreshed(documentId: string, current: seq<StoredChunk>, vectors: seq<Vector>,
        rebuilt: seq<StoredChunk>) {
    && |rebuilt| == |current| <= |vectors|
    && forall i | 0 <= i < |current| :: rebuilt[i] == Refreshed(documentId, current[i], vectors[i])
  }

  method RebuildStoredChunks(documentId: string, current: seq<StoredChunk>, reply: Option<seq<Vector>>, dim: int)
    returns (result: Result<seq<StoredChunk>>)
    ensures result == Err(NoStoredChunks) <==> current == []
    ensures result.Ok? <==> current != [] && Usable(reply, |current|, dim)
    ensures result.Ok? ==> AllRefreshed(documentId, current, reply.value, result.value)
    ensures result.Ok? ==> RefreshedInTurn(result.value, documentId, current, reply.value)
  {
    if |current| == 0 {
      return Err(NoStoredChunks);
    }
    var texts := seq(|current|, i requires 0 <= i < |current| => current[i].content);
    var embedded := EmbedTexts(texts, reply, dim);
    if embedded.Err? {
      return Err(embedded.error);
    }
    var rebuilt := [];
    var i := 0;
    while i < |current|
      invariant 0 <= i <= |current| && |rebuilt| == i
      invariant forall k | 0 <= k < i :: rebuilt[k] == Refreshed(documentId, current[k], reply.value[k])
    {
      rebuilt := rebuilt + [Refreshed(documentId, current[i], embedded.value[i])];
      i := i + 1;
    }
    return Ok(rebuilt);
  }

  // ----- What replacing chunks relies on

  function RowOf(chunk: StoredChunk): ChunkTable.Chunk {
    ChunkTable.Chunk(chunk.ordinal, chunk.content)
  }

  function RowsOf(chunks: seq<StoredChunk>): (rows: seq<ChunkTable.Chunk>)
    ensures |rows| == |chunks| && forall i | 0 <= i < |chunks| :: rows[i] == RowOf(chunks[i])
  {
    seq(|chunks|, i requires 0 <= i < |chunks| => RowOf(chunks[i]))
  }

  /** Built chunks have the ordinals 0 .. n - 1, so no two collide and ordinal 0 is always there. */
  lemma BuiltChunksAreGood(chunks: seq<StoredChunk>, documentId: string, source: string, parts: seq<ChunkPart>,
        vectors: seq<Vector>)
    requires parts != [] && Stored(chunks, documentId, source, parts, vectors)
    ensures forall i | 0 <= i < |chunks| :: chunks[i].ordinal == i
    ensures ChunkTable.Good(RowsOf(chunks))
  {
    assert RowsOf(chunks)[0].ordinal == 0;
  }

  /** Refreshing listed chunks keeps their ordinals: it is the rebuild of the chunk table's protocol. */
  lemma RefreshedIsRebuilt(documentId: string, current: seq<StoredChunk>, vectors: seq<Vector>,
        rebuilt: seq<StoredChunk>)
    requires AllRefreshed(documentId, current, vectors, rebuilt)
    ensures exists bodies: seq<string> | |bodies| == |current| ::
      RowsOf(rebuilt) == ChunkTable.Rebuilt(RowsOf(current), bodies)
  {
    var bodies := seq(|current|, i requires 0 <= i < |current| => current[i].content);
    assert RowsOf(rebuilt) == ChunkTable.Rebuilt(RowsOf(current), bodies);
  }

  // ----- From the text to the chunks

  /** The lines that go into blocks. */
  function BlockLines(pieces: seq<Piece>): seq<string> {
    if pieces == [] then []
    else
      var last := pieces[|pieces| - 1];
      BlockLines(pieces[..|pieces| - 1]) + (if IsBlock(last) then last.lines else [])
  }

  lemma SolidOfContent(lines: seq<string>)
    ensures Solid(Content(lines)) == SolidOfAll(lines)
  {
    SolidOfTrimmed(Join(lines, "\n"));
    SolidOfJoined(lines, "\n");
  }

  lemma TextsOfConcat(a: seq<SourceBlock>, b: seq<SourceBlock>)
    ensures TextsOf(a + b) == TextsOf(a) + TextsOf(b)
  {
  }

  /** Blocks hold every solid rune of their lines, in order. */
  lemma {:induction false} BlocksHoldTheirLines(pieces: seq<Piece>)
    ensures SolidOfAll(TextsOf(BlocksOf(pieces))) == SolidOfAll(BlockLines(pieces))
  {
    if pieces != [] {
      var n := |pieces| - 1;
      BlocksHoldTheirLines(pieces[..n]);
      if IsBlock(pieces[n]) {
        var block := BlockOf(pieces[n]);
        TextsOfConcat(BlocksOf(pieces[..n]), [block]);
        SolidOfAllConcat(TextsOf(BlocksOf(pieces[..n])), TextsOf([block]));
        assert TextsOf([block]) == [block.text];
        SolidOfOne(block.text);
        SolidOfContent(pieces[n].lines);
        SolidOfAllConcat(BlockLines(pieces[..n]), pieces[n].lines);
      } else {
        assert BlocksOf(pieces) == BlocksOf(pieces[..n]) && BlockLines(pieces) == BlockLines(pieces[..n]);
      }
    }
  }

  lemma SolidOfLines(text: string)
    ensures SolidOfAll(LinesOf(text)) == Solid(text)
  {
    SplitJoins(ReplaceCrLf(text));
    SolidOfJoined(LinesOf(text), "\n");
    SolidOfReplaced(text);
  }

  predicate BlankIsBlank(piece: Piece) {
    piece.kind.BlankLine? ==> |piece.lines| == 1 && Blank(piece.lines[0])
  }

  lemma BlankLineIsEmpty(piece: Piece)
    requires piece.kind.BlankLine? && BlankIsBlank(piece)
    ensures SolidOfAll(piece.lines) == []
  {
    assert piece.lines == [piece.lines[0]];
    SolidOfOne(piece.lines[0]);
    SolidOfBlank(piece.lines[0]);
  }

  lemma {:induction false} PlainPiecesHoldAllLines(pieces: seq<Piece>)
    requires forall i | 0 <= i < |pieces| :: BlankIsBlank(pieces[i]) && !pieces[i].kind.HeadingLine?
    ensures SolidOfAll(BlockLines(pieces)) == SolidOfAll(Flatten(pieces))
  {
    if pieces != [] {
      var n := |pieces| - 1;
      PlainPiecesHoldAllLines(pieces[..n]);
      SolidOfAllConcat(Flatten(pieces[..n]), pieces[n].lines);
      if IsBlock(pieces[n]) {
        SolidOfAllConcat(BlockLines(pieces[..n]), pieces[n].lines);
      } else {
        BlankLineIsEmpty(pieces[n]);
        assert BlockLines(pieces) == BlockLines(pieces[..n]);
      }
    }
  }

  /** The blocks of a plain text have exactly its runes that are not spaces, in order. */
  lemma PlainBlocksHoldTheText(text: string)
    ensures SolidOfAll(TextsOf(BlocksOf(PlainPieces(LinesOf(text))))) == Solid(text)
  {
    var pieces := PlainPieces(LinesOf(text));
    EveryPlainLineHasItsPlace(LinesOf(text));
    forall i | 0 <= i < |pieces| ensures BlankIsBlank(pieces[i]) && !pieces[i].kind.HeadingLine? {
      assert PlainFits(pieces[i]);
    }
    BlocksHoldTheirLines(pieces);
    PlainPiecesHoldAllLines(pieces);
    SolidOfLines(text);
  }

  // ----- Every occurrence in the text is in a stored chunk

  /** The content of a stored chunk behind its heading context. */
  function StoredBody(chunk: StoredChunk): string {
    Body(ChunkPart(chunk.content, chunk.metadata.part))
  }

  function StoredBodies(chunks: seq<StoredChunk>): seq<string> {
    Image(StoredBody, chunks)
  }

  /** Without repeats, the stored chunks show exactly the solid runes of the blocks. */
  lemma StoredChunksHoldTheBlocks(chunks: seq<StoredChunk>, documentId: string, source: string,
      blocks: seq<SourceBlock>, size: int, overlap: int, vectors: seq<Vector>)
    requires 0 < size && Stored(chunks, documentId, source, Parts(blocks, size, overlap), vectors)
    ensures |PartSkips(blocks, size, overlap)| == |chunks|
    ensures Fresh(StoredBodies(chunks), PartSkips(blocks, size, overlap)) == SolidOfAll(TextsOf(blocks))
  {
    PartsHoldTheBlocks(blocks, size, overlap);
    assert StoredBodies(chunks) == Bodies(Parts(blocks, size, overlap));
  }

  function PlainBlocks(text: string): seq<SourceBlock> {
    BlocksOf(PlainPieces(LinesOf(text)))
  }

  function MarkdownBlocks(text: string): seq<SourceBlock> {
    BlocksOf(Pieces(LinesOf(text)))
  }

  /** Every occurrence in a plain text of a rune that is not a space has its own place in a stored chunk. */
  lemma PlainTextIsStored(chunks: seq<StoredChunk>, documentId: string, source: string, text: string,
      size: int, overlap: int, vectors: seq<Vector>)
    requires 0 < size && Stored(chunks, documentId, source, Parts(PlainBlocks(text), size, overlap), vectors)
    ensures AllKept([text], StoredBodies(chunks), PartSkips(PlainBlocks(text), size, overlap))
  {
    StoredChunksHoldTheBlocks(chunks, documentId, source, PlainBlocks(text), size, overlap, vectors);
    PlainBlocksHoldTheText(text);
    SolidOfOne(text);
    AllLocated([text], StoredBodies(chunks), PartSkips(PlainBlocks(text), size, overlap));
  }

  /** Line n of the text is line l of piece j. */
  lemma {:induction false} PieceOfLine(pieces: seq<Piece>, n: nat) returns (j: nat, l: nat)
    requires n < |Flatten(pieces)|
    ensures j < |pieces| && l < |pieces[j].lines|
    ensures |Flatten(pieces[..j])| + l == n && pieces[j].lines[l] == Flatten(pieces)[n]
  {
    var last := |pieces| - 1;
    if n < |Flatten(pieces[..last])| {
      j, l := PieceOfLine(pieces[..last], n);
      assert pieces[..last][..j] == pieces[..j];
    } else {
      j, l := last, n - |Flatten(pieces[..last])|;
    }
  }

  lemma {:induction false} BlockLineAt(pieces: seq<Piece>, j: nat, l: nat)
    requires j < |pieces| && IsBlock(pieces[j]) && l < |pieces[j].lines|
    ensures var r := |BlockLines(pieces[..j])| + l; r < |BlockLines(pieces)| && BlockLines(pieces)[r] == pieces[j].lines[l]
  {
    var last := |pieces| - 1;
    if j < last {
      BlockLineAt(pieces[..last], j, l);
      assert pieces[..last][..j] == pieces[..j];
    }
  }

  predicate IsLineAt(lines: seq<string>, r: nat, line: string) {
    r < |lines| && lines[r] == line
  }

  /** Line l of piece j is line n, and it is a heading, blank, or has a place of its own among the block lines. */
  ghost predicate IsPlace(pieces: seq<Piece>, n: nat, line: string, j: nat, l: nat) {
    && j < |pieces| && l < |pieces[j].lines| && |Flatten(pieces[..j])| + l == n && pieces[j].lines[l] == line
    && (pieces[j].kind.HeadingLine? || Blank(line) || IsLineAt(BlockLines(pieces), |BlockLines(pieces[..j])| + l, line))
  }

  lemma LineHasPlace(pieces: seq<Piece>, n: nat) returns (j: nat, l: nat)
    requires n < |Flatten(pieces)| && forall i | 0 <= i < |pieces| :: BlankIsBlank(pieces[i])
    ensures IsPlace(pieces, n, Flatten(pieces)[n], j, l)
  {
    j, l := PieceOfLine(pieces, n);
    if IsBlock(pieces[j]) {
      BlockLineAt(pieces, j, l);
    }
  }

  /** Every line of a Markdown text has its place in one piece; only headings and blank lines are in no block. */
  lemma LineIsKept(lines: seq<string>, n: nat) returns (j: nat, l: nat)
    requires n < |lines|
    ensures IsPlace(Pieces(lines), n, lines[n], j, l)
  {
    EveryLineHasItsPlace(lines);
    forall i | 0 <= i < |Pieces(lines)| ensures BlankIsBlank(Pieces(lines)[i]) {
      assert Fits(Pieces(lines)[i]);
    }
    j, l := LineHasPlace(Pieces(lines), n);
  }

  /** Every occurrence in a block line of a rune that is not a space has its own place in a stored chunk. */
  lemma MarkdownTextIsStored(chunks: seq<StoredChunk>, documentId: string, source: string, text: string,
      size: int, overlap: int, vectors: seq<Vector>)
    requires 0 < size && Stored(chunks, documentId, source, Parts(MarkdownBlocks(text), size, overlap), vectors)
    ensures AllKept(BlockLines(Pieces(LinesOf(text))), StoredBodies(chunks), PartSkips(MarkdownBlocks(text), size, overlap))
  {
    StoredChunksHoldTheBlocks(chunks, documentId, source, MarkdownBlocks(text), size, overlap, vectors);
    BlocksHoldTheirLines(Pieces(LinesOf(text)));
    AllLocated(BlockLines(Pieces(LinesOf(text))), StoredBodies(chunks), PartSkips(MarkdownBlocks(text), size, overlap));
  }
}
