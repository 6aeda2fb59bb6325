/** From blocks to chunks: neighbours with equal metadata are windowed as one text. */
module Grouping {
  import opened Listings
  import opened Options
  import opened Records
  import opened Solids
  import opened Text
  import opened Chunker
  import opened Markdown

  datatype PartMetadata = PartMetadata(base: Metadata, blockIndex: nat, blockEndIndex: Option<nat>, chunkIndex: nat)
  datatype ChunkPart = ChunkPart(text: string, metadata: PartMetadata)

  /** Blocks start .. end - 1, which share one metadata. */
  datatype Group = Group(start: nat, end: nat)

  function HeadingContext(metadata: Metadata): string {
    if metadata.headingPath == [] then "" else Join(metadata.headingPath, " > ") + "\n\n"
  }

  function AddHeadingContext(text: string, metadata: Metadata): string {
    if metadata.headingPath == [] then text else HeadingContext(metadata) + text
  }

  /** The text of a part behind its heading context. */
  function Body(part: ChunkPart): string {
    Behind(part.text, |HeadingContext(part.metadata.base)|)
  }

  function GroupEnd(blocks: seq<SourceBlock>, start: nat, end: nat): (r: nat)
    requires start < end <= |blocks|
    ensures end <= r <= |blocks|
    decreases |blocks| - end
  {
    if end < |blocks| && blocks[end].metadata == blocks[start].metadata then GroupEnd(blocks, start, end + 1) else end
  }

  function Groups(blocks: seq<SourceBlock>, start: nat): seq<Group>
    requires start <= |blocks|
    decreases |blocks| - start
  {
    if start == |blocks| then []
    else
      var end := GroupEnd(blocks, start, start + 1);
      [Group(start, end)] + Groups(blocks, end)
  }

  function TextsOf(blocks: seq<SourceBlock>): (texts: seq<string>)
    ensures |texts| == |blocks| && forall i | 0 <= i < |blocks| :: texts[i] == blocks[i].text
  {
    seq(|blocks|, i requires 0 <= i < |blocks| => blocks[i].text)
  }

  predicate InRange(blocks: seq<SourceBlock>, g: Group) {
    g.start < g.end <= |blocks|
  }

  function GroupText(blocks: seq<SourceBlock>, g: Group): string
    requires InRange(blocks, g)
  {
    Join(TextsOf(blocks[g.start..g.end]), "\n\n")
  }

  function PartOf(blocks: seq<SourceBlock>, g: Group, text: string, index: nat): ChunkPart
    requires InRange(blocks, g)
  {
    var base := blocks[g.start].metadata;
    ChunkPart(AddHeadingContext(text, base),
      PartMetadata(base, g.start, if g.end - g.start > 1 then Some(g.end - 1) else None, index))
  }

  function PartsOf(blocks: seq<SourceBlock>, g: Group, texts: seq<string>, count: nat): (parts: seq<ChunkPart>)
    requires InRange(blocks, g)
    ensures |parts| == |texts|
  {
    seq(|texts|, i requires 0 <= i < |texts| => PartOf(blocks, g, texts[i], count + i))
  }

  /** The parts of a group, when `count` parts are already there. */
  ghost function Renderer(blocks: seq<SourceBlock>, size: int, overlap: int): (Group, nat) -> seq<ChunkPart> {
    (g: Group, count: nat) =>
      if InRange(blocks, g) then PartsOf(blocks, g, Chunks(GroupText(blocks, g), size, overlap), count) else []
  }

  ghost function Parts(blocks: seq<SourceBlock>, size: int, overlap: int): seq<ChunkPart> {
    Listed(Renderer(blocks, size, overlap), Groups(blocks, 0), [])
  }

  // ----- The groups partition the blocks

  ghost predicate Uniform(blocks: seq<SourceBlock>, start: nat, end: nat)
    requires start < end <= |blocks|
  {
    forall i | start <= i < end :: blocks[i].metadata == blocks[start].metadata
  }

  lemma {:induction false} GroupEndIsMaximal(blocks: seq<SourceBlock>, start: nat, end: nat)
    requires start < end <= |blocks| && Uniform(blocks, start, end)
    ensures var r := GroupEnd(blocks, start, end);
      Uniform(blocks, start, r) && (r < |blocks| ==> blocks[r].metadata != blocks[r - 1].metadata)
    decreases |blocks| - end
  {
    if end < |blocks| && blocks[end].metadata == blocks[start].metadata {
      GroupEndIsMaximal(blocks, start, end + 1);
    }
  }

  /** Group k of the list starts where group k - 1 ends. */
  predicate Follows(groups: seq<Group>, start: nat, k: nat)
    requires k < |groups|
  {
    groups[k].start == (if k == 0 then start else groups[k - 1].end)
  }

  ghost predicate IsRun(blocks: seq<SourceBlock>, g: Group) {
    && InRange(blocks, g) && Uniform(blocks, g.start, g.end)
    && (g.end < |blocks| ==> blocks[g.end].metadata != blocks[g.end - 1].metadata)
  }

  /** The groups are the maximal runs of equal metadata: they cover all blocks, each once and in order. */
  lemma {:induction false} GroupsPartition(blocks: seq<SourceBlock>, start: nat)
    requires start <= |blocks|
    ensures var groups := Groups(blocks, start);
      && (forall k: nat | k < |groups| :: Follows(groups, start, k))
      && (forall g | g in groups :: IsRun(blocks, g))
      && (groups == [] <==> start == |blocks|)
      && (groups != [] ==> groups[|groups| - 1].end == |blocks|)
    decreases |blocks| - start
  {
    if start < |blocks| {
      var end := GroupEnd(blocks, start, start + 1);
      GroupEndIsMaximal(blocks, start, start + 1);
      GroupsPartition(blocks, end);
      var groups, rest := Groups(blocks, start), Groups(blocks, end);
      forall k: nat | k < |groups| ensures Follows(groups, start, k) {
        if k > 0 {
          assert Follows(rest, end, k - 1);
        }
      }
    }
  }

  // ----- The source's loops

  lemma JoinOne(texts: seq<string>, blocks: seq<SourceBlock>, start: nat, end: nat)
    requires start < end < |blocks| && texts == TextsOf(blocks[start..end])
    ensures texts + [blocks[end].text] == TextsOf(blocks[start..end + 1])
  {
  }

  /** The inner loop that collects a group. */
  method CollectGroup(blocks: seq<SourceBlock>, start: nat) returns (end: nat, group: seq<string>)
    requires start < |blocks|
    ensures end == GroupEnd(blocks, start, start + 1) && group == TextsOf(blocks[start..end])
  {
    end := start + 1;
    group := [blocks[start].text];
    while end < |blocks| && blocks[start].metadata == blocks[end].metadata
      invariant start < end <= |blocks| && group == TextsOf(blocks[start..end])
      invariant GroupEnd(blocks, start, end) == GroupEnd(blocks, start, start + 1)
    {
      JoinOne(group, blocks, start, end);
      group := group + [blocks[end].text];
      end := end + 1;
    }
  }

  /** The inner loop that appends the chunks of a group. */
  method AppendParts(blocks: seq<SourceBlock>, g: Group, texts: seq<string>, before: seq<ChunkPart>)
    returns (parts: seq<ChunkPart>)
    requires InRange(blocks, g)
    ensures parts == before + PartsOf(blocks, g, texts, |before|)
  {
    parts := before;
    var i := 0;
    while i < |texts|
      invariant 0 <= i <= |texts| && parts == before + PartsOf(blocks, g, texts[..i], |before|)
    {
      parts := parts + [PartOf(blocks, g, texts[i], |parts|)];
      i := i + 1;
    }
    assert texts[..i] == texts;
  }

  ghost predicate Renders(render: (Group, nat) -> seq<ChunkPart>, blocks: seq<SourceBlock>, size: int, overlap: int) {
    render == Renderer(blocks, size, overlap)
  }

  lemma RenderedGroup(blocks: seq<SourceBlock>, g: Group, size: int, overlap: int, count: nat)
    requires InRange(blocks, g)
    ensures Renderer(blocks, size, overlap)(g, count)
      == PartsOf(blocks, g, Chunks(Join(TextsOf(blocks[g.start..g.end]), "\n\n"), size, overlap), count)
  {
  }

  /** The body of the outer loop. */
  method AppendGroup(blocks: seq<SourceBlock>, size: int, overlap: int, start: nat, before: seq<ChunkPart>,
                     ghost render: (Group, nat) -> seq<ChunkPart>)
    returns (end: nat, parts: seq<ChunkPart>)
    requires start < |blocks| && Renders(render, blocks, size, overlap)
    ensures end == GroupEnd(blocks, start, start + 1) && parts == before + render(Group(start, end), |before|)
  {
    var group;
    end, group := CollectGroup(blocks, start);
    var texts := ChunkText(Join(group, "\n\n"), size, overlap);
    parts := AppendParts(blocks, Group(start, end), texts, before);
    RenderedGroup(blocks, Group(start, end), size, overlap, |before|);
  }

  /** The loop over the groups. */
  method ChunkGroups(blocks: seq<SourceBlock>, size: int, overlap: int, ghost render: (Group, nat) -> seq<ChunkPart>)
    returns (parts: seq<ChunkPart>)
    requires Renders(render, blocks, size, overlap)
    ensures parts == Listed(render, Groups(blocks, 0), [])
  {
    parts := [];
    var start := 0;
    while start < |blocks|
      invariant 0 <= start <= |blocks|
      invariant Listed(render, Groups(blocks, start), parts) == Listed(render, Groups(blocks, 0), [])
    {
      var end;
      end, parts := AppendGroup(blocks, size, overlap, start, parts, render);
      assert Groups(blocks, start)[1..] == Groups(blocks, end);
      start := end;
    }
  }

  method ChunkBlocks(blocks: seq<SourceBlock>, size: int, overlap: int) returns (parts: seq<ChunkPart>)
    ensures parts == Parts(blocks, size, overlap)
  {
    parts := ChunkGroups(blocks, size, overlap, Renderer(blocks, size, overlap));
  }

  // ----- Where each part comes from

  lemma PartsOfAt(blocks: seq<SourceBlock>, g: Group, texts: seq<string>, count: nat, j: nat)
    requires InRange(blocks, g) && j < |texts|
    ensures PartsOf(blocks, g, texts, count)[j] == PartOf(blocks, g, texts[j], count + j)
  {
  }

  lemma PartText(blocks: seq<SourceBlock>, g: Group, size: int, overlap: int, count: nat, j: nat) returns (text: string)
    requires InRange(blocks, g) && j < |Renderer(blocks, size, overlap)(g, count)|
    ensures text in Chunks(GroupText(blocks, g), size, overlap) && 0 < |text| <= size
    ensures Renderer(blocks, size, overlap)(g, count)[j] == PartOf(blocks, g, text, count + j)
  {
    var texts := Chunks(GroupText(blocks, g), size, overlap);
    text := texts[j];
    PartsOfAt(blocks, g, texts, count, j);
    ChunksAreShort(GroupText(blocks, g), size, overlap);
  }

  /**
    Part i carries chunk index i, and is a chunk, behind its heading context, of the joined texts
    of a maximal run of blocks with its metadata; its block range names exactly that run.
   */
  lemma PartsAreSound(blocks: seq<SourceBlock>, size: int, overlap: int, i: nat) returns (g: Group, text: string)
    requires i < |Parts(blocks, size, overlap)|
    ensures g in Groups(blocks, 0) && IsRun(blocks, g) && text in Chunks(GroupText(blocks, g), size, overlap)
    ensures Parts(blocks, size, overlap)[i] == PartOf(blocks, g, text, i)
    ensures 0 < |text| <= size
  {
    GroupsPartition(blocks, 0);
    var start, j;
    g, start, j := IsFromSome(Renderer(blocks, size, overlap), Groups(blocks, 0), [], i);
    assert IsRun(blocks, g);
    text := PartText(blocks, g, size, overlap, start, j);
  }

  /** A part: a chunk of the run, behind the run's heading path if it has one, with the run's metadata and range. */
  predicate IsPart(part: ChunkPart, blocks: seq<SourceBlock>, g: Group, chunk: string, index: nat)
    requires InRange(blocks, g)
  {
    var path := blocks[g.start].metadata.headingPath;
    && part.text == (if path == [] then "" else Join(path, " > ") + "\n\n") + chunk
    && part.metadata.base == blocks[g.start].metadata
    && part.metadata.blockIndex == g.start
    && part.metadata.blockEndIndex == (if g.end == g.start + 1 then None else Some(g.end - 1))
    && part.metadata.chunkIndex == index
  }

  /** Part i is a part of some run, cut from the run's texts with an empty line between them. */
  lemma PartsMean(blocks: seq<SourceBlock>, size: int, overlap: int, i: nat) returns (g: Group, chunk: string)
    requires i < |Parts(blocks, size, overlap)|
    ensures IsRun(blocks, g) && chunk in Chunks(Join(TextsOf(blocks[g.start..g.end]), "\n\n"), size, overlap)
    ensures IsPart(Parts(blocks, size, overlap)[i], blocks, g, chunk, i)
  {
    g, chunk := PartsAreSound(blocks, size, overlap, i);
  }

  /** The first part of group k, when groups have their parts one after another. */
  ghost function FirstPart(blocks: seq<SourceBlock>, size: int, overlap: int, k: nat): nat
    requires k <= |Groups(blocks, 0)|
  {
    Offset(Renderer(blocks, size, overlap), Groups(blocks, 0), 0, k)
  }

  /** The chunks of group k are its parts, all of them and in order, between those of its neighbours. */
  lemma GroupsInTurn(blocks: seq<SourceBlock>, size: int, overlap: int, k: nat)
    requires k < |Groups(blocks, 0)|
    ensures var g := Groups(blocks, 0)[k];
      var here, next := FirstPart(blocks, size, overlap, k), FirstPart(blocks, size, overlap, k + 1);
      && InRange(blocks, g) && here <= next <= |Parts(blocks, size, overlap)|
      && Parts(blocks, size, overlap)[here..next] == PartsOf(blocks, g, Chunks(GroupText(blocks, g), size, overlap), here)
  {
    GroupsPartition(blocks, 0);
    assert IsRun(blocks, Groups(blocks, 0)[k]);
    RowsInTurn(Renderer(blocks, size, overlap), Groups(blocks, 0), [], k);
  }

  lemma NoOtherParts(blocks: seq<SourceBlock>, size: int, overlap: int)
    ensures FirstPart(blocks, size, overlap, 0) == 0
    ensures FirstPart(blocks, size, overlap, |Groups(blocks, 0)|) == |Parts(blocks, size, overlap)|
  {
    if Groups(blocks, 0) != [] {
      RowsInTurn(Renderer(blocks, size, overlap), Groups(blocks, 0), [], |Groups(blocks, 0)| - 1);
    }
  }

  // ----- No rune that is not a space is lost

  /** The text a group is windowed from has exactly the solid runes of its blocks, in order. */
  lemma GroupTextIsItsBlocks(blocks: seq<SourceBlock>, g: Group)
    requires InRange(blocks, g)
    ensures Solid(Normalized(GroupText(blocks, g))) == SolidOfAll(TextsOf(blocks[g.start..g.end]))
  {
    SolidOfTrimmed(ReplaceCrLf(GroupText(blocks, g)));
    SolidOfReplaced(GroupText(blocks, g));
    SolidOfJoined(TextsOf(blocks[g.start..g.end]), "\n\n");
  }

  lemma {:induction false} SomeGroupHolds(blocks: seq<SourceBlock>, start: nat, b: nat) returns (m: nat)
    requires start <= b < |blocks|
    ensures m < |Groups(blocks, start)|
    ensures var g := Groups(blocks, start)[m]; g.start <= b < g.end <= |blocks|
    decreases |blocks| - start
  {
    var end := GroupEnd(blocks, start, start + 1);
    if b < end {
      m := 0;
    } else {
      m := SomeGroupHolds(blocks, end, b);
      m := m + 1;
    }
  }

  lemma GroupOfBlock(blocks: seq<SourceBlock>, b: nat) returns (m: nat)
    requires b < |blocks|
    ensures m < |Groups(blocks, 0)|
    ensures var g := Groups(blocks, 0)[m]; g.start <= b < g.end && IsRun(blocks, g)
  {
    GroupsPartition(blocks, 0);
    m := SomeGroupHolds(blocks, 0, b);
    assert Groups(blocks, 0)[m] in Groups(blocks, 0);
  }

  /** Without repeats, the chunks of a group show exactly the solid runes of its blocks. */
  lemma GroupIsKept(blocks: seq<SourceBlock>, g: Group, size: int, overlap: int)
    requires 0 < size && InRange(blocks, g)
    ensures var text := GroupText(blocks, g);
      && |ChunkSkips(text, size, overlap)| == |Chunks(text, size, overlap)|
      && (forall skip | skip in ChunkSkips(text, size, overlap) :: skip <= EffectiveOverlap(size, overlap))
      && Fresh(Chunks(text, size, overlap), ChunkSkips(text, size, overlap)) == SolidOfAll(TextsOf(blocks[g.start..g.end]))
  {
    ChunksHoldTheText(GroupText(blocks, g), size, overlap);
    SolidOfJoined(TextsOf(blocks[g.start..g.end]), "\n\n");
  }

  lemma GroupHasAll(blocks: seq<SourceBlock>, g: Group, size: int, overlap: int)
    requires 0 < size && InRange(blocks, g)
    ensures var text := GroupText(blocks, g);
      AllKept(TextsOf(blocks[g.start..g.end]), Chunks(text, size, overlap), ChunkSkips(text, size, overlap))
  {
    var text := GroupText(blocks, g);
    GroupIsKept(blocks, g, size, overlap);
    AllLocated(TextsOf(blocks[g.start..g.end]), Chunks(text, size, overlap), ChunkSkips(text, size, overlap));
  }

  lemma BodyOfPart(blocks: seq<SourceBlock>, g: Group, text: string, index: nat)
    requires InRange(blocks, g)
    ensures Body(PartOf(blocks, g, text, index)) == text
  {
  }

  predicate HasBlock(metadata: PartMetadata, b: nat) {
    metadata.blockIndex <= b <= if metadata.blockEndIndex.Some? then metadata.blockEndIndex.value else metadata.blockIndex
  }

  lemma PartAt(blocks: seq<SourceBlock>, g: Group, texts: seq<string>, here: nat, parts: seq<ChunkPart>, k: nat)
    requires InRange(blocks, g) && k < |texts| && here + |texts| <= |parts|
    requires parts[here..here + |texts|] == PartsOf(blocks, g, texts, here)
    ensures parts[here + k] == PartOf(blocks, g, texts[k], here + k) && Body(parts[here + k]) == texts[k]
  {
    assert parts[here + k] == parts[here..here + |texts|][k];
    PartsOfAt(blocks, g, texts, here, k);
    BodyOfPart(blocks, g, texts[k], here + k);
  }

  /** The parts from `here` on have the chunks as bodies, and the block in their ranges. */
  ghost predicate AreParts(parts: seq<ChunkPart>, here: nat, chunks: seq<string>, base: Metadata, b: nat) {
    here + |chunks| <= |parts| && forall k | 0 <= k < |chunks| ::
      var part := parts[here + k];
      Body(part) == chunks[k] && HasBlock(part.metadata, b) && part.metadata.base == base
  }

  lemma ChunksAreParts(blocks: seq<SourceBlock>, g: Group, texts: seq<string>, here: nat, parts: seq<ChunkPart>, b: nat)
    requires IsRun(blocks, g) && g.start <= b < g.end && here + |texts| <= |parts|
    requires parts[here..here + |texts|] == PartsOf(blocks, g, texts, here)
    ensures AreParts(parts, here, texts, blocks[b].metadata, b)
  {
    forall k: nat | k < |texts|
      ensures var part := parts[here + k];
        Body(part) == texts[k] && HasBlock(part.metadata, b) && part.metadata.base == blocks[b].metadata
    {
      PartAt(blocks, g, texts, here, parts, k);
    }
  }

  /**
    A block's group shows every occurrence in it of a rune that is not a space, at its own place
    in the group's chunks, and these are parts behind their heading context, with the block in range.
   */
  lemma EveryBlockIsStored(blocks: seq<SourceBlock>, size: int, overlap: int, b: nat) returns (m: nat)
    requires 0 < size && b < |blocks|
    ensures m < |Groups(blocks, 0)|
    ensures var g := Groups(blocks, 0)[m];
      && g.start <= b < g.end <= |blocks|
      && var chunks := Chunks(GroupText(blocks, g), size, overlap);
      && AllKept(TextsOf(blocks[g.start..g.end]), chunks, ChunkSkips(GroupText(blocks, g), size, overlap))
      && AreParts(Parts(blocks, size, overlap), FirstPart(blocks, size, overlap, m), chunks, blocks[b].metadata, b)
  {
    m := GroupOfBlock(blocks, b);
    var g := Groups(blocks, 0)[m];
    GroupHasAll(blocks, g, size, overlap);
    GroupsInTurn(blocks, size, overlap, m);
    var chunks, here := Chunks(GroupText(blocks, g), size, overlap), FirstPart(blocks, size, overlap, m);
    ChunksAreParts(blocks, g, chunks, here, Parts(blocks, size, overlap), b);
  }

  // ----- All parts together

  ghost function CutOf(blocks: seq<SourceBlock>, size: int, overlap: int): Group -> seq<string> {
    (g: Group) => if InRange(blocks, g) then Chunks(GroupText(blocks, g), size, overlap) else []
  }

  ghost function SkipOfGroup(blocks: seq<SourceBlock>, size: int, overlap: int): Group -> seq<nat> {
    (g: Group) => if InRange(blocks, g) then ChunkSkips(GroupText(blocks, g), size, overlap) else []
  }

  function SolidOfGroup(blocks: seq<SourceBlock>): Group -> string {
    (g: Group) => if InRange(blocks, g) then SolidOfAll(TextsOf(blocks[g.start..g.end])) else []
  }

  /** How much of each part's body repeats the parts before it. */
  ghost function PartSkips(blocks: seq<SourceBlock>, size: int, overlap: int): seq<nat> {
    Gather(SkipOfGroup(blocks, size, overlap), Groups(blocks, 0))
  }

  function Bodies(parts: seq<ChunkPart>): seq<string> {
    Image(Body, parts)
  }

  lemma BodiesOfGroup(blocks: seq<SourceBlock>, g: Group, texts: seq<string>, count: nat)
    requires InRange(blocks, g)
    ensures Image(Body, PartsOf(blocks, g, texts, count)) == texts
  {
    forall j | 0 <= j < |texts| ensures Body(PartsOf(blocks, g, texts, count)[j]) == texts[j] {
      PartsOfAt(blocks, g, texts, count, j);
      BodyOfPart(blocks, g, texts[j], count + j);
    }
  }

  lemma BodiesAreChunks(blocks: seq<SourceBlock>, size: int, overlap: int)
    ensures Bodies(Parts(blocks, size, overlap)) == Gather(CutOf(blocks, size, overlap), Groups(blocks, 0))
  {
    var render, cut := Renderer(blocks, size, overlap), CutOf(blocks, size, overlap);
    forall g: Group, count: nat ensures Image(Body, render(g, count)) == cut(g) {
      if InRange(blocks, g) {
        BodiesOfGroup(blocks, g, Chunks(GroupText(blocks, g), size, overlap), count);
      }
    }
    ListedImage(render, Groups(blocks, 0), [], Body, cut);
    assert Image(Body, []) == [];
  }

  lemma TextsSplit(blocks: seq<SourceBlock>, start: nat, end: nat)
    requires start <= end <= |blocks|
    ensures SolidOfAll(TextsOf(blocks[start..]))
      == SolidOfAll(TextsOf(blocks[start..end])) + SolidOfAll(TextsOf(blocks[end..]))
  {
    SolidOfAllConcat(TextsOf(blocks[start..end]), TextsOf(blocks[end..]));
    assert TextsOf(blocks[start..]) == TextsOf(blocks[start..end]) + TextsOf(blocks[end..]);
  }

  lemma {:induction false} GroupsHoldTheBlocks(blocks: seq<SourceBlock>, start: nat)
    requires start <= |blocks|
    ensures Gather(SolidOfGroup(blocks), Groups(blocks, start)) == SolidOfAll(TextsOf(blocks[start..]))
    decreases |blocks| - start
  {
    if start < |blocks| {
      var end := GroupEnd(blocks, start, start + 1);
      GroupsHoldTheBlocks(blocks, end);
      TextsSplit(blocks, start, end);
      assert Groups(blocks, start)[1..] == Groups(blocks, end);
    } else {
      assert TextsOf(blocks[start..]) == [];
    }
  }

  /**
    Behind their heading contexts and without what they repeat, which is at most the overlap,
    the parts show exactly the solid runes of the blocks: every occurrence, once, in order.
   */
  lemma PartsHoldTheBlocks(blocks: seq<SourceBlock>, size: int, overlap: int)
    requires 0 < size
    ensures |PartSkips(blocks, size, overlap)| == |Parts(blocks, size, overlap)|
    ensures forall skip | skip in PartSkips(blocks, size, overlap) :: skip <= EffectiveOverlap(size, overlap)
    ensures Fresh(Bodies(Parts(blocks, size, overlap)), PartSkips(blocks, size, overlap)) == SolidOfAll(TextsOf(blocks))
  {
    var cut, skip, whole := CutOf(blocks, size, overlap), SkipOfGroup(blocks, size, overlap), SolidOfGroup(blocks);
    var groups, limit := Groups(blocks, 0), EffectiveOverlap(size, overlap);
    GroupsPartition(blocks, 0);
    forall g | g in groups
      ensures |cut(g)| == |skip(g)| && Fresh(cut(g), skip(g)) == whole(g) && forall n | n in skip(g) :: n <= limit
    {
      assert IsRun(blocks, g);
      GroupIsKept(blocks, g, size, overlap);
    }
    GatherAll(skip, groups, (n: nat) => n <= limit);
    FreshOfAll(cut, skip, whole, groups);
    BodiesAreChunks(blocks, size, overlap);
    GroupsHoldTheBlocks(blocks, 0);
    assert blocks[0..] == blocks;
  }

  lemma BlankGivesNothing(text: string, size: int, overlap: int)
    requires size <= 0 || Solid(Normalized(text)) == []
    ensures Chunks(text, size, overlap) == []
  {
    if 0 < size && Normalized(text) != [] {
      SolidMembers(Normalized(text), Normalized(text)[0]);
      var before, after := TrimShape(ReplaceCrLf(text));
    }
  }

  /** "document contains no readable text": exactly for blank blocks or a chunk size below one. */
  lemma NoReadableText(blocks: seq<SourceBlock>, size: int, overlap: int)
    ensures Parts(blocks, size, overlap) == [] <==> size <= 0 || forall b | 0 <= b < |blocks| :: Blank(blocks[b].text)
  {
    if size <= 0 || forall b | 0 <= b < |blocks| :: Blank(blocks[b].text) {
      if Parts(blocks, size, overlap) != [] {
        var g, text := PartsAreSound(blocks, size, overlap, 0);
        SolidOfNothing(TextsOf(blocks[g.start..g.end]));
        GroupTextIsItsBlocks(blocks, g);
        BlankGivesNothing(GroupText(blocks, g), size, overlap);
      }
    } else {
      var b :| 0 <= b < |blocks| && !Blank(blocks[b].text);
      var k :| 0 <= k < |blocks[b].text| && !IsSpace(blocks[b].text[k]);
      PartsHoldTheBlocks(blocks, size, overlap);
      RankedIn(TextsOf(blocks), b, k);
    }
  }
}
