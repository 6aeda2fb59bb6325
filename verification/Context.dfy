/** Packing selected hits into the context of the prompt: sorted, deduplicated, capped, within a byte budget. */
module Context {
  import opened Options
  import opened Records
  import opened Ranking
  import opened Text

  /** The budget and the caps, with the content key and the rendering of a block they are applied to. */
  datatype Limits = Limits(
    maxBytes: int, maxPerDocument: int, key: string -> string, block: (nat, Hit) -> string)

  const NO_CONTEXT := "（没有可用参考资料）"

  function GenerationScore(hit: Hit): real {
    if hit.rerankRank > 0 then hit.rerankScore else if hit.rrfScore != 0.0 then hit.rrfScore else hit.score
  }

  const BY_SCORE: (Hit, Hit) -> bool := (a, b) => GenerationScore(a) > GenerationScore(b)

  function ContentKey(lower: char -> char, content: string): string {
    Join(Fields(Mapped(lower, content)), " ")
  }

  /** Contents that differ in the kind and length of their white space count as the same. */
  lemma KeyIgnoresSpacing(lower: char -> char, a: string, blank: string, other: string, b: string)
    requires Blank(blank) && Blank(other) && blank != "" && other != ""
    requires forall c | IsSpace(c) :: IsSpace(lower(c))
    ensures ContentKey(lower, a + blank + b) == ContentKey(lower, a + other + b)
  {
    assert Mapped(lower, a + blank + b) == Mapped(lower, a) + Mapped(lower, blank) + Mapped(lower, b);
    assert Mapped(lower, a + other + b) == Mapped(lower, a) + Mapped(lower, other) + Mapped(lower, b);
    FieldsAcrossSpace(Mapped(lower, a), Mapped(lower, blank), Mapped(lower, b));
    FieldsAcrossSpace(Mapped(lower, a), Mapped(lower, other), Mapped(lower, b));
  }

  /** Two contents have the same key exactly when they have the same words, in order. */
  lemma SameKeySameWords(lower: char -> char, a: string, b: string)
    ensures ContentKey(lower, a) == ContentKey(lower, b) <==> Fields(Mapped(lower, a)) == Fields(Mapped(lower, b))
  {
    FieldsAreWords(Mapped(lower, a));
    FieldsAreWords(Mapped(lower, b));
    FieldsOfJoined(Fields(Mapped(lower, a)));
    FieldsOfJoined(Fields(Mapped(lower, b)));
  }

  function NonEmpty(parts: seq<string>): seq<string> {
    if parts == [] then []
    else
      var last := parts[|parts| - 1];
      NonEmpty(parts[..|parts| - 1]) + if last == "" then [] else [last]
  }

  function PageText(page: int): string {
    if page < 0 then "-" + Decimal(-page) else Decimal(page)
  }

  function Labels(name: string, heading: string, page: Option<string>): seq<string> {
    ["文档：" + name]
    + (if heading != "" then ["章节：" + heading] else [])
    + (if page.Some? then ["页码：" + page.value] else [])
  }

  function LabelText(heading: string, page: Option<string>): string {
    (if heading == "" then "" else " | 章节：" + heading) + (if page.None? then "" else " | 页码：" + page.value)
  }

  /** contextBlock, for metadata as it is read back from the database. */
  function Block(index: nat, hit: Hit): (block: string)
    ensures block != []
  {
    var heading := Join(NonEmpty(hit.metadata.headingPath), " > ");
    "[" + Decimal(index) + "] " + Join(Labels(hit.documentName, heading, PageOf(hit.metadata)), " | ")
    + "\n正文：" + TrimSpace(hit.content) + "\n\n"
  }

  // ----- What a block shows

  /** The heading is the non-empty entries of the path, joined. */
  predicate IsHeading(path: seq<string>, heading: string) {
    heading == Join(Only((entry: string) => entry != "", path), " > ")
  }

  lemma {:induction false} NonEmptyMeans(path: seq<string>)
    ensures NonEmpty(path) == Only((entry: string) => entry != "", path)
  {
    if path != [] {
      var before, last := path[..|path| - 1], path[|path| - 1];
      NonEmptyMeans(before);
      OnlyBefore((entry: string) => entry != "", before, last);
      assert path == before + [last];
    }
  }

  ghost predicate IsPageNumber(page: int, text: string) {
    if page < 0 then text != "" && text[0] == '-' && IsNumeral(text[1..], -page) else IsNumeral(text, page)
  }

  ghost predicate ShowsLabels(metadata: Metadata, heading: string, page: string, labels: string) {
    && IsHeading(metadata.headingPath, heading)
    && (metadata.page.Some? ==> IsPageNumber(metadata.page.value, page))
    && labels == (if heading == "" then "" else " | 章节：" + heading)
                 + (if metadata.page.None? then "" else " | 页码：" + page)
  }

  /** What stands behind the document's name: the headings unless there are none, and the page if it is known. */
  ghost predicate AreLabels(metadata: Metadata, labels: string) {
    exists heading, page :: ShowsLabels(metadata, heading, page, labels)
  }

  /** A block is headed by its number, names its document, and ends in the content of its hit. */
  ghost predicate IsBlock(text: string, number: nat, hit: Hit) {
    exists numeral, labels :: IsNumeral(numeral, number) && AreLabels(hit.metadata, labels)
      && text == "[" + numeral + "] 文档：" + hit.documentName + labels + "\n正文：" + TrimSpace(hit.content) + "\n\n"
  }

  lemma PageMeans(page: int)
    ensures IsPageNumber(page, PageText(page))
  {
    DecimalReadsBack(if page < 0 then -page else page);
    assert page < 0 ==> PageText(page)[1..] == Decimal(-page);
  }

  lemma Labelled(name: string, heading: string, page: Option<string>)
    ensures Join(Labels(name, heading, page), " | ") == "文档：" + name + LabelText(heading, page)
  {
    var n, h := "文档：" + name, "章节：" + heading;
    if page.Some? {
      var p := "页码：" + page.value;
      assert Join([p], " | ") == p;
      assert [n, p][1..] == [p] && [h, p][1..] == [p] && [n, h, p][1..] == [h, p];
      assert Join([n, p], " | ") == n + " | " + p;
      assert Join([h, p], " | ") == h + " | " + p;
      assert Labels(name, heading, page) == if heading == "" then [n, p] else [n, h, p];
    } else {
      assert Join([h], " | ") == h;
      assert [n, h][1..] == [h];
      assert Labels(name, heading, page) == if heading == "" then [n] else [n, h];
    }
  }

  function PageOf(metadata: Metadata): Option<string> {
    if metadata.page.Some? then Some(PageText(metadata.page.value)) else None
  }

  lemma LabelsMean(metadata: Metadata)
    ensures AreLabels(metadata, LabelText(Join(NonEmpty(metadata.headingPath), " > "), PageOf(metadata)))
  {
    var heading, page := Join(NonEmpty(metadata.headingPath), " > "), PageOf(metadata);
    NonEmptyMeans(metadata.headingPath);
    if page.Some? {
      PageMeans(metadata.page.value);
    }
    assert ShowsLabels(metadata, heading, if page.Some? then page.value else "", LabelText(heading, page));
  }

  /** What contextBlock prints is a block of its hit. */
  lemma BlockMeans(index: nat, hit: Hit)
    ensures IsBlock(Block(index, hit), index, hit)
  {
    var heading, page := Join(NonEmpty(hit.metadata.headingPath), " > "), PageOf(hit.metadata);
    LabelsMean(hit.metadata);
    Labelled(hit.documentName, heading, page);
    DecimalReadsBack(index);
    Assembled(Decimal(index), hit.documentName, LabelText(heading, page), TrimSpace(hit.content));
  }

  lemma Assembled(numeral: string, name: string, labels: string, content: string)
    ensures "[" + numeral + "] " + ("文档：" + name + labels) + "\n正文：" + content + "\n\n"
      == "[" + numeral + "] 文档：" + name + labels + "\n正文：" + content + "\n\n"
  {
  }

  /** Block [n] renders the n-th selected hit. */
  function Render(limits: Limits, selected: seq<Hit>): string {
    if selected == [] then ""
    else Render(limits, selected[..|selected| - 1]) + limits.block(|selected|, selected[|selected| - 1])
  }

  /** The limits of PrepareGenerationContext; `lower` is the rune mapping of strings.ToLower. */
  function GenerationLimits(maxBytes: int, maxPerDocument: int, lower: char -> char): (limits: Limits)
    ensures RendersBlocks(limits)
  {
    Limits(maxBytes, maxPerDocument, content => ContentKey(lower, content), Block)
  }

  ghost predicate RendersBlocks(limits: Limits) {
    forall n, hit :: limits.block(n, hit) != []
  }

  function OfDocument(selected: seq<Hit>, doc: string): nat {
    if selected == [] then 0
    else OfDocument(selected[..|selected| - 1], doc) + (if selected[|selected| - 1].documentId == doc then 1 else 0)
  }

  // ----- When a hit is left out

  datatype Reason = EmptyContent | Duplicate | DocumentFull | OverBudget

  ghost predicate Rejected(limits: Limits, selected: seq<Hit>, hit: Hit, reason: Reason) {
    var key := limits.key(hit.content);
    match reason
    case EmptyContent => key == ""
    case Duplicate => exists i :: 0 <= i < |selected| && limits.key(selected[i].content) == key
    case DocumentFull => OfDocument(selected, hit.documentId) >= DocumentCap(limits.maxPerDocument)
    case OverBudget => Utf8Len(Render(limits, selected)) + Utf8Len(limits.block(|selected| + 1, hit)) > limits.maxBytes
  }

  ghost predicate Accepted(limits: Limits, selected: seq<Hit>, hit: Hit) {
    forall reason :: !Rejected(limits, selected, hit, reason)
  }

  /** What is selected after the first n hits in order of score. */
  ghost function Packed(limits: Limits, ordered: seq<Hit>, n: nat): seq<Hit>
    requires n <= |ordered|
  {
    if n == 0 then []
    else
      var before := Packed(limits, ordered, n - 1);
      if Accepted(limits, before, ordered[n - 1]) then before + [ordered[n - 1]] else before
  }

  ghost function Selected(limits: Limits, hits: seq<Hit>): seq<Hit> {
    var ordered := SortStable(BY_SCORE, hits);
    Packed(limits, ordered, |ordered|)
  }

  ghost predicate SeenKeys(limits: Limits, selected: seq<Hit>, seen: set<string>) {
    forall key :: key in seen <==> exists i :: 0 <= i < |selected| && limits.key(selected[i].content) == key
  }

  ghost predicate CountsDocuments(selected: seq<Hit>, counts: map<string, nat>) {
    forall doc :: CountIn(counts, doc) == OfDocument(selected, doc)
  }

  lemma SeenMore(limits: Limits, selected: seq<Hit>, seen: set<string>, hit: Hit)
    requires SeenKeys(limits, selected, seen)
    ensures SeenKeys(limits, selected + [hit], seen + {limits.key(hit.content)})
  {
    var more, seen' := selected + [hit], seen + {limits.key(hit.content)};
    forall key ensures key in seen' <==> exists i :: 0 <= i < |more| && limits.key(more[i].content) == key {
      if key in seen {
        var i :| 0 <= i < |selected| && limits.key(selected[i].content) == key;
        assert more[i] == selected[i];
      }
      assert more[|selected|] == hit;
    }
  }

  lemma CountsMore(selected: seq<Hit>, counts: map<string, nat>, hit: Hit)
    requires CountsDocuments(selected, counts)
    ensures CountsDocuments(selected + [hit], counts[hit.documentId := CountIn(counts, hit.documentId) + 1])
  {
    var more := selected + [hit];
    assert more[..|more| - 1] == selected;
    forall doc ensures CountIn(counts[hit.documentId := CountIn(counts, hit.documentId) + 1], doc) == OfDocument(more, doc) {
      assert CountIn(counts, doc) == OfDocument(selected, doc);
    }
  }

  lemma RenderMore(limits: Limits, selected: seq<Hit>, hit: Hit)
    ensures Render(limits, selected + [hit]) == Render(limits, selected) + limits.block(|selected| + 1, hit)
  {
    assert (selected + [hit])[..|selected|] == selected;
  }

  /** The variables of the loop, after some hits. */
  ghost predicate Packing(limits: Limits, selected: seq<Hit>, seen: set<string>, counts: map<string, nat>, text: string) {
    SeenKeys(limits, selected, seen) && CountsDocuments(selected, counts) && text == Render(limits, selected)
  }

  /** The body of the loop. */
  method PackHit(limits: Limits, hit: Hit, selected: seq<Hit>, seen: set<string>, counts: map<string, nat>, text: string)
    returns (selected': seq<Hit>, seen': set<string>, counts': map<string, nat>, text': string)
    requires Packing(limits, selected, seen, counts, text)
    ensures Packing(limits, selected', seen', counts', text')
    ensures selected' == if Accepted(limits, selected, hit) then selected + [hit] else selected
  {
    selected', seen', counts', text' := selected, seen, counts, text;
    var cap := if limits.maxPerDocument < 1 then 2 else limits.maxPerDocument;
    var key := limits.key(hit.content);
    if key == "" {
      assert Rejected(limits, selected, hit, EmptyContent);
      return;
    }
    if key in seen {
      assert Rejected(limits, selected, hit, Duplicate);
      return;
    }
    if CountIn(counts, hit.documentId) >= cap {
      assert Rejected(limits, selected, hit, DocumentFull);
      return;
    }
    var block := limits.block(|selected| + 1, hit);
    if Utf8Len(text) + Utf8Len(block) > limits.maxBytes {
      assert Rejected(limits, selected, hit, OverBudget);
      return;
    }
    assert Accepted(limits, selected, hit);
    SeenMore(limits, selected, seen, hit);
    CountsMore(selected, counts, hit);
    RenderMore(limits, selected, hit);
    seen' := seen + {key};
    counts' := counts[hit.documentId := CountIn(counts, hit.documentId) + 1];
    selected' := selected + [hit];
    text' := text + block;
  }

  /** The body of PrepareGenerationContext, for any key and block. */
  method PackContext(hits: seq<Hit>, limits: Limits) returns (selected: seq<Hit>, text: string)
    requires RendersBlocks(limits)
    ensures selected == Selected(limits, hits)
    ensures text == if selected == [] then NO_CONTEXT else Render(limits, selected)
  {
    var ordered := SortStable(BY_SCORE, hits);
    var seen: set<string> := {};
    var counts: map<string, nat> := map[];
    selected, text := [], "";
    var i := 0;
    while i < |ordered|
      invariant 0 <= i <= |ordered| && selected == Packed(limits, ordered, i)
      invariant Packing(limits, selected, seen, counts, text)
    {
      selected, seen, counts, text := PackHit(limits, ordered[i], selected, seen, counts, text);
      i := i + 1;
    }
    if text == "" {
      assert selected != [] ==> Render(limits, selected) != [];
      return [], NO_CONTEXT;
    }
  }

  /** The text is one block for each hit, numbered from 1, one after another. */
  ghost predicate ShowsInTurn(text: string, selected: seq<Hit>) {
    exists blocks: seq<string> | |blocks| == |selected| ::
      text == Join(blocks, "") && forall n: nat | n < |blocks| :: IsBlock(blocks[n], n + 1, selected[n])
  }

  function BlocksFor(limits: Limits, selected: seq<Hit>): (blocks: seq<string>)
    ensures |blocks| == |selected| && forall n: nat | n < |selected| :: blocks[n] == limits.block(n + 1, selected[n])
  {
    seq(|selected|, n requires 0 <= n < |selected| => limits.block(n + 1, selected[n]))
  }

  lemma {:induction false} RenderJoins(limits: Limits, selected: seq<Hit>)
    ensures Render(limits, selected) == Join(BlocksFor(limits, selected), "")
  {
    if selected != [] {
      var n := |selected| - 1;
      var block := limits.block(n + 1, selected[n]);
      RenderJoins(limits, selected[..n]);
      assert BlocksFor(limits, selected) == BlocksFor(limits, selected[..n]) + [block];
      JoinMore(BlocksFor(limits, selected[..n]), block, "");
    }
  }

  lemma RenderShows(limits: Limits, selected: seq<Hit>)
    requires forall n, hit :: IsBlock(limits.block(n, hit), n, hit)
    ensures ShowsInTurn(Render(limits, selected), selected)
  {
    RenderJoins(limits, selected);
    var blocks := BlocksFor(limits, selected);
    assert forall n: nat | n < |blocks| :: IsBlock(blocks[n], n + 1, selected[n]);
  }

  lemma BlocksMean(limits: Limits)
    requires limits.block == Block
    ensures forall n, hit :: IsBlock(limits.block(n, hit), n, hit)
  {
    forall n, hit ensures IsBlock(limits.block(n, hit), n, hit) {
      BlockMeans(n, hit);
    }
  }

  /** The score that decides: the reranker's for a reranked hit, else the fused one unless it is zero. */
  predicate Decides(hit: Hit, score: real) {
    && (hit.rerankRank > 0 ==> score == hit.rerankScore)
    && (hit.rerankRank == 0 && hit.rrfScore != 0.0 ==> score == hit.rrfScore)
    && (hit.rerankRank == 0 && hit.rrfScore == 0.0 ==> score == hit.score)
  }

  ghost predicate ScoresDescend(selected: seq<Hit>) {
    forall i, j, p, q | 0 <= i < j < |selected| && Decides(selected[i], p) && Decides(selected[j], q) :: p >= q
  }

  lemma SelectionMeans(limits: Limits, hits: seq<Hit>)
    ensures Selected(limits, hits) != [] ==> Utf8Len(Render(limits, Selected(limits, hits))) <= limits.maxBytes
    ensures ScoresDescend(Selected(limits, hits))
  {
    ContextIsSound(limits, hits);
  }

  method PrepareGenerationContext(hits: seq<Hit>, maxChars: int, maxPerDocument: int, lower: char -> char)
    returns (selected: seq<Hit>, text: string)
    ensures var limits := GenerationLimits(maxChars, maxPerDocument, lower);
      selected == Selected(limits, hits) && text == if selected == [] then NO_CONTEXT else Render(limits, selected)
    ensures selected == [] ==> text == "（没有可用参考资料）"
    ensures selected != [] ==> ShowsInTurn(text, selected) && Utf8Len(text) <= maxChars
    ensures ScoresDescend(selected)
  {
    var limits := GenerationLimits(maxChars, maxPerDocument, lower);
    selected, text := PackContext(hits, limits);
    BlocksMean(limits);
    RenderShows(limits, selected);
    SelectionMeans(limits, hits);
  }

  // ----- One turn

  lemma {:induction false} OfDocumentCounts(selected: seq<Hit>, doc: string)
    ensures OfDocument(selected, doc) == |Only((hit: Hit) => hit.documentId == doc, selected)|
  {
    if selected != [] {
      var before, last := selected[..|selected| - 1], selected[|selected| - 1];
      OfDocumentCounts(before, doc);
      OnlyBefore((hit: Hit) => hit.documentId == doc, before, last);
      assert selected == before + [last];
    }
  }

  /** Keys are equal exactly for the same words, and empty exactly without words. */
  ghost predicate KeysAreWords(key: string -> string, lower: char -> char) {
    && (forall a, b :: key(a) == key(b) <==> Fields(Mapped(lower, a)) == Fields(Mapped(lower, b)))
    && (forall a :: key(a) == "" <==> Fields(Mapped(lower, a)) == [])
  }

  lemma KeysOf(limits: Limits, lower: char -> char)
    requires limits.key == (content => ContentKey(lower, content))
    ensures KeysAreWords(limits.key, lower)
  {
    forall a, b ensures limits.key(a) == limits.key(b) <==> Fields(Mapped(lower, a)) == Fields(Mapped(lower, b)) {
      SameKeySameWords(lower, a, b);
    }
    assert limits.key("") == "" && Fields(Mapped(lower, "")) == [];
  }

  /** The hit has words, no selected hit has the same, its document has room, and its block fits. */
  ghost predicate Fits(limits: Limits, lower: char -> char, selected: seq<Hit>, hit: Hit) {
    var words := Fields(Mapped(lower, hit.content));
    && words != [] && (forall i | 0 <= i < |selected| :: Fields(Mapped(lower, selected[i].content)) != words)
    && |Only((other: Hit) => other.documentId == hit.documentId, selected)| < DocumentCap(limits.maxPerDocument)
    && Utf8Len(Join(BlocksFor(limits, selected), "")) + Utf8Len(limits.block(|selected| + 1, hit)) <= limits.maxBytes
  }

  lemma AcceptedMeans(limits: Limits, lower: char -> char, selected: seq<Hit>, hit: Hit)
    requires KeysAreWords(limits.key, lower)
    ensures Accepted(limits, selected, hit) <==> Fits(limits, lower, selected, hit)
  {
    OfDocumentCounts(selected, hit.documentId);
    RenderJoins(limits, selected);
    RejectedMeans(limits, selected, hit);
  }

  /** At its turn a hit is taken exactly when it fits behind what is selected so far. */
  lemma TurnMeans(hits: seq<Hit>, maxChars: int, maxPerDocument: int, lower: char -> char, n: nat)
    requires n < |hits|
    ensures var limits, ordered := GenerationLimits(maxChars, maxPerDocument, lower), SortStable(BY_SCORE, hits);
      var before := Packed(limits, ordered, n);
      Packed(limits, ordered, n + 1) == if Fits(limits, lower, before, ordered[n]) then before + [ordered[n]] else before
  {
    var limits, ordered := GenerationLimits(maxChars, maxPerDocument, lower), SortStable(BY_SCORE, hits);
    KeysOf(limits, lower);
    AcceptedMeans(limits, lower, Packed(limits, ordered, n), ordered[n]);
  }

  lemma RejectedMeans(limits: Limits, selected: seq<Hit>, hit: Hit)
    ensures Accepted(limits, selected, hit) <==>
      && limits.key(hit.content) != ""
      && (forall i | 0 <= i < |selected| :: limits.key(selected[i].content) != limits.key(hit.content))
      && OfDocument(selected, hit.documentId) < DocumentCap(limits.maxPerDocument)
      && Utf8Len(Render(limits, selected)) + Utf8Len(limits.block(|selected| + 1, hit)) <= limits.maxBytes
  {
    if Accepted(limits, selected, hit) {
      assert !Rejected(limits, selected, hit, EmptyContent) && !Rejected(limits, selected, hit, Duplicate);
      assert !Rejected(limits, selected, hit, DocumentFull) && !Rejected(limits, selected, hit, OverBudget);
    }
  }

  // ----- Properties of the packed context

  /** Every selected hit was accepted after exactly the hits selected before it. */
  ghost predicate AllAccepted(limits: Limits, selected: seq<Hit>) {
    forall m | 0 <= m < |selected| :: Accepted(limits, selected[..m], selected[m])
  }

  lemma {:induction false} PackedAccepted(limits: Limits, ordered: seq<Hit>, n: nat)
    requires n <= |ordered|
    ensures AllAccepted(limits, Packed(limits, ordered, n))
  {
    if n > 0 {
      PackedAccepted(limits, ordered, n - 1);
      var before, now := Packed(limits, ordered, n - 1), Packed(limits, ordered, n);
      forall m | 0 <= m < |now| ensures Accepted(limits, now[..m], now[m]) {
        assert m < |before| ==> now[..m] == before[..m];
        assert m == |before| ==> now[..m] == before;
      }
    }
  }

  /** A hit that is not taken has a reason at its turn, and a hit with a reason is not taken. */
  lemma LeftOutForAReason(limits: Limits, ordered: seq<Hit>, n: nat)
    requires n < |ordered|
    ensures var before := Packed(limits, ordered, n);
      (exists reason :: Rejected(limits, before, ordered[n], reason)) <==> Packed(limits, ordered, n + 1) == before
  {
    var before := Packed(limits, ordered, n);
    assert |before + [ordered[n]]| != |before|;
  }

  lemma {:induction false} WithinBudget(limits: Limits, selected: seq<Hit>)
    requires AllAccepted(limits, selected) && selected != []
    ensures Utf8Len(Render(limits, selected)) <= limits.maxBytes
  {
    var n := |selected| - 1;
    assert Accepted(limits, selected[..n], selected[n]);
    assert !Rejected(limits, selected[..n], selected[n], OverBudget);
    Utf8Concat(Render(limits, selected[..n]), limits.block(|selected|, selected[n]));
  }

  lemma DistinctContents(limits: Limits, selected: seq<Hit>, i: nat, j: nat)
    requires AllAccepted(limits, selected) && i < j < |selected|
    ensures limits.key(selected[j].content) != ""
    ensures limits.key(selected[i].content) != limits.key(selected[j].content)
  {
    assert Accepted(limits, selected[..j], selected[j]);
    assert !Rejected(limits, selected[..j], selected[j], EmptyContent);
    assert !Rejected(limits, selected[..j], selected[j], Duplicate);
    assert selected[..j][i] == selected[i];
  }

  lemma {:induction false} CapsHold(limits: Limits, selected: seq<Hit>, doc: string)
    requires AllAccepted(limits, selected)
    ensures OfDocument(selected, doc) <= DocumentCap(limits.maxPerDocument)
  {
    if selected != [] {
      var n := |selected| - 1;
      assert Accepted(limits, selected[..n], selected[n]);
      assert !Rejected(limits, selected[..n], selected[n], DocumentFull);
      forall m | 0 <= m < n ensures Accepted(limits, selected[..n][..m], selected[..n][m]) {
        assert selected[..n][..m] == selected[..m];
      }
      CapsHold(limits, selected[..n], doc);
    }
  }

  /** The selected hits keep the order they had. */
  lemma {:induction false} PackedSorted(limits: Limits, ordered: seq<Hit>, n: nat)
    requires n <= |ordered| && Sorted(BY_SCORE, ordered)
    ensures Sorted(BY_SCORE, Packed(limits, ordered, n))
    ensures forall hit | hit in Packed(limits, ordered, n) :: hit in ordered[..n]
  {
    if n > 0 {
      PackedSorted(limits, ordered, n - 1);
      var before, now := Packed(limits, ordered, n - 1), Packed(limits, ordered, n);
      forall hit | hit in now ensures hit in ordered[..n] {
        if hit in before {
          var i :| 0 <= i < |ordered[..n - 1]| && ordered[..n - 1][i] == hit;
          assert ordered[..n][i] == hit;
        } else {
          assert ordered[..n][n - 1] == hit;
        }
      }
      forall i, j | 0 <= i < j < |now| ensures !BY_SCORE(now[j], now[i]) {
        assert now[i] in before;
      }
    }
  }

  lemma ByScoreIsWeakOrder()
    ensures WeakOrder(BY_SCORE)
  {
  }

  /** What the prompt relies on: budget, distinct contents, caps, order, and numbered blocks. */
  lemma ContextIsSound(limits: Limits, hits: seq<Hit>)
    ensures var selected := Selected(limits, hits);
      && (selected != [] ==> Utf8Len(Render(limits, selected)) <= limits.maxBytes)
      && (forall i, j | 0 <= i < j < |selected| ::
            limits.key(selected[i].content) != limits.key(selected[j].content))
      && (forall doc :: OfDocument(selected, doc) <= DocumentCap(limits.maxPerDocument))
      && (forall i, j | 0 <= i < j < |selected| :: GenerationScore(selected[i]) >= GenerationScore(selected[j]))
      && (forall hit | hit in selected :: hit in hits)
  {
    var ordered := SortStable(BY_SCORE, hits);
    var selected := Selected(limits, hits);
    ByScoreIsWeakOrder();
    SortSorts(BY_SCORE, hits);
    PackedAccepted(limits, ordered, |ordered|);
    PackedSorted(limits, ordered, |ordered|);
    if selected != [] {
      WithinBudget(limits, selected);
    }
    forall i, j | 0 <= i < j < |selected|
      ensures limits.key(selected[i].content) != limits.key(selected[j].content)
        && GenerationScore(selected[i]) >= GenerationScore(selected[j])
    {
      DistinctContents(limits, selected, i, j);
      assert !BY_SCORE(selected[j], selected[i]);
    }
    forall doc ensures OfDocument(selected, doc) <= DocumentCap(limits.maxPerDocument) {
      CapsHold(limits, selected, doc);
    }
    forall hit | hit in selected ensures hit in hits {
      assert hit in ordered[..|ordered|];
      assert hit in multiset(ordered);
    }
  }

  lemma {:induction false} PackedKeepsAccepted(limits: Limits, selected: seq<Hit>, m: nat)
    requires AllAccepted(limits, selected) && m <= |selected|
    ensures Packed(limits, selected, m) == selected[..m]
  {
    if m > 0 {
      PackedKeepsAccepted(limits, selected, m - 1);
      assert Accepted(limits, selected[..m - 1], selected[m - 1]);
    }
  }

  /** Preparing the context again from its own selection changes nothing. */
  lemma PreparingTwice(limits: Limits, hits: seq<Hit>)
    ensures Selected(limits, Selected(limits, hits)) == Selected(limits, hits)
  {
    var ordered := SortStable(BY_SCORE, hits);
    var selected := Selected(limits, hits);
    ByScoreIsWeakOrder();
    SortSorts(BY_SCORE, hits);
    PackedSorted(limits, ordered, |ordered|);
    PackedAccepted(limits, ordered, |ordered|);
    SortKeepsSorted(BY_SCORE, selected);
    PackedKeepsAccepted(limits, selected, |selected|);
    assert selected[..|selected|] == selected;
  }

  lemma BlockIsRendered(limits: Limits, selected: seq<Hit>, n: nat) returns (before: string, after: string)
    requires n < |selected|
    ensures Render(limits, selected) == before + limits.block(n + 1, selected[n]) + after
    ensures before == Render(limits, selected[..n])
  {
    var last := |selected| - 1;
    if n == last {
      before, after := Render(limits, selected[..n]), "";
    } else {
      var rest;
      before, rest := BlockIsRendered(limits, selected[..last], n);
      assert selected[..last][..n] == selected[..n];
      after := rest + limits.block(|selected|, selected[last]);
    }
  }

  /**
    With the source's key and block: the bytes fit, no two selected hits have the same words, each
    document has at most its cap, scores descend, every hit is one of the given ones, and the text
    shows hit n as block [n], between the blocks before and after it.
   */
  lemma GenerationContextIsSound(hits: seq<Hit>, maxChars: int, maxPerDocument: int, lower: char -> char)
    ensures var limits := GenerationLimits(maxChars, maxPerDocument, lower);
      var selected := Selected(limits, hits);
      && (selected != [] ==> Utf8Len(Render(limits, selected)) <= maxChars)
      && (forall i, j | 0 <= i < j < |selected| ::
            Fields(Mapped(lower, selected[i].content)) != Fields(Mapped(lower, selected[j].content)))
      && (forall doc :: OfDocument(selected, doc) <= DocumentCap(maxPerDocument))
      && (forall i, j | 0 <= i < j < |selected| :: GenerationScore(selected[i]) >= GenerationScore(selected[j]))
      && (forall hit | hit in selected :: hit in hits)
      && (forall n: nat | n < |selected| :: ShowsBlock(Render(limits, selected), Block(n + 1, selected[n])))
  {
    var limits := GenerationLimits(maxChars, maxPerDocument, lower);
    var selected := Selected(limits, hits);
    ContextIsSound(limits, hits);
    forall i, j | 0 <= i < j < |selected|
      ensures Fields(Mapped(lower, selected[i].content)) != Fields(Mapped(lower, selected[j].content))
    {
      SameKeySameWords(lower, selected[i].content, selected[j].content);
      assert limits.key(selected[i].content) != limits.key(selected[j].content);
    }
    forall doc ensures OfDocument(selected, doc) <= DocumentCap(maxPerDocument) {
      assert OfDocument(selected, doc) <= DocumentCap(limits.maxPerDocument);
    }
    forall n: nat | n < |selected| ensures ShowsBlock(Render(limits, selected), Block(n + 1, selected[n])) {
      var before, after := BlockIsRendered(limits, selected, n);
    }
  }

  ghost predicate ShowsBlock(text: string, block: string) {
    exists before, after :: text == before + block + after
  }
}
