/**
  Server-sent events on the wire: the text the server prints for an event, and the incremental
  reader of the browser.  The format is a subset of the WHATWG HTML standard, sections 9.2.5
  and 9.2.6.
 */
module Sse {
  import opened Options
  import opened Ranking
  import opened Text

  datatype Message = Message(name: string, data: string)

  // ----- What the server prints

  function Block(m: Message): string {
    "event: " + m.name + "\ndata: " + m.data
  }

  function Wire(ms: seq<Message>): string {
    if ms == [] then "" else Block(ms[0]) + "\n\n" + Wire(ms[1..])
  }

  // ----- Cutting the stream at empty lines

  predicate GapAt(s: string, i: nat) {
    i + 1 < |s| && s[i] == '\n' && s[i + 1] == '\n'
  }

  /** buffer.indexOf('\n\n'), or None for -1 */
  function FirstGap(s: string): (gap: Option<nat>)
    ensures gap.Some? ==> GapAt(s, gap.value)
  {
    if |s| < 2 then None
    else if GapAt(s, 0) then Some(0)
    else
      var rest := FirstGap(s[1..]);
      if rest.None? then None else Some(rest.value + 1)
  }

  lemma {:induction false} NoEarlierGap(s: string, i: nat)
    requires GapAt(s, i)
    ensures FirstGap(s).Some? && FirstGap(s).value <= i
  {
    if !GapAt(s, 0) {
      NoEarlierGap(s[1..], i - 1);
    }
  }

  function Blocks(s: string): seq<string>
    decreases |s|
  {
    var gap := FirstGap(s);
    if gap.None? then [] else [s[..gap.value]] + Blocks(s[gap.value + 2..])
  }

  /** What is left in the buffer. */
  function Rest(s: string): string
    decreases |s|
  {
    var gap := FirstGap(s);
    if gap.None? then s else Rest(s[gap.value + 2..])
  }

  lemma GapStays(a: string, b: string)
    requires FirstGap(a).Some?
    ensures FirstGap(a + b) == FirstGap(a)
  {
    var gap := FirstGap(a).value;
    assert GapAt(a + b, gap);
    NoEarlierGap(a + b, gap);
    var first := FirstGap(a + b).value;
    assert GapAt(a, first);
    NoEarlierGap(a, first);
  }

  lemma FromGap(s: string, gap: nat, block: string, tail: string)
    requires FirstGap(s) == Some(gap) && s[..gap] == block && s[gap + 2..] == tail
    ensures Blocks(s) == [block] + Blocks(tail) && Rest(s) == Rest(tail)
  {
  }

  lemma BothStart(a: string, b: string, gap: nat, block: string, tail: string)
    requires FirstGap(a) == Some(gap) && a[..gap] == block && a[gap + 2..] == tail
    ensures Blocks(a) == [block] + Blocks(tail) && Rest(a) == Rest(tail)
    ensures Blocks(a + b) == [block] + Blocks(tail + b) && Rest(a + b) == Rest(tail + b)
  {
    GapStays(a, b);
    SlicesStay(a, b, gap);
    FromGap(a, gap, block, tail);
    FromGap(a + b, gap, block, tail + b);
  }

  lemma SlicesStay(a: string, b: string, gap: nat)
    requires gap + 2 <= |a|
    ensures (a + b)[..gap] == a[..gap] && (a + b)[gap + 2..] == a[gap + 2..] + b
  {
  }

  /** Reading a, then b behind what was left of it, finds the blocks of a + b. */
  lemma {:induction false} BlocksOfPieces(a: string, b: string)
    ensures Blocks(a + b) == Blocks(a) + Blocks(Rest(a) + b)
    ensures Rest(a + b) == Rest(Rest(a) + b)
    decreases |a|
  {
    if FirstGap(a).Some? {
      var gap := FirstGap(a).value;
      var block, tail := a[..gap], a[gap + 2..];
      BlocksOfPieces(tail, b);
      BothStart(a, b, gap, block, tail);
      Regroup([block], Blocks(tail), Blocks(Rest(tail) + b));
    }
  }

  predicate EndsInLf(s: string) {
    s != "" && s[|s| - 1] == '\n'
  }

  predicate NoGap(s: string) {
    forall i | 0 <= i < |s| - 1 :: !(s[i] == '\n' && s[i + 1] == '\n')
  }

  lemma FirstGapMeans(s: string)
    ensures FirstGap(s).None? ==> NoGap(s)
    ensures FirstGap(s).Some? ==>
      var gap := FirstGap(s).value;
      NoGap(s[..gap]) && !EndsInLf(s[..gap]) && s == s[..gap] + "\n\n" + s[gap + 2..]
  {
    forall i | 0 <= i < |s| - 1 && s[i] == '\n' && s[i + 1] == '\n' ensures FirstGap(s).Some? && FirstGap(s).value <= i {
      assert GapAt(s, i);
      NoEarlierGap(s, i);
    }
  }

  /** The stream is its blocks with an empty line behind each, and what is left; each ends at the first such line. */
  lemma {:induction false} BlocksMean(s: string)
    ensures s == Join(Blocks(s) + [Rest(s)], "\n\n") && NoGap(Rest(s))
    ensures forall block | block in Blocks(s) :: NoGap(block) && !EndsInLf(block)
    decreases |s|
  {
    FirstGapMeans(s);
    if FirstGap(s).Some? {
      var gap := FirstGap(s).value;
      var tail := s[gap + 2..];
      BlocksMean(tail);
      FromGap(s, gap, s[..gap], tail);
      JoinFirst(s[..gap], Blocks(tail) + [Rest(tail)], "\n\n");
      Regroup([s[..gap]], Blocks(tail), [Rest(tail)]);
    } else {
      assert Blocks(s) + [Rest(s)] == [s];
    }
  }

  // ----- Parsing a block

  /** The white space of String.prototype.trim. */
  predicate IsJsSpace(c: char) {
    var n := c as int;
    (9 <= n <= 13) || n == 0x20 || n == 0xA0 || n == 0x1680 || (0x2000 <= n <= 0x200A)
    || n == 0x2028 || n == 0x2029 || n == 0x202F || n == 0x205F || n == 0x3000 || n == 0xFEFF
  }

  function JsTrimLeft(s: string): string {
    if s != [] && IsJsSpace(s[0]) then JsTrimLeft(s[1..]) else s
  }

  function JsTrimRight(s: string): string {
    if s != [] && IsJsSpace(s[|s| - 1]) then JsTrimRight(s[..|s| - 1]) else s
  }

  function JsTrim(s: string): string {
    JsTrimRight(JsTrimLeft(s))
  }

  lemma JsSpaces(c: char)
    ensures IsJsSpace(c) <==> (IsSpace(c) && c as int != 0x85) || c as int == 0xFEFF
    ensures IsSpace(c) <==> (IsJsSpace(c) && c as int != 0xFEFF) || c as int == 0x85
  {
  }

  predicate JsBlank(s: string) {
    forall i | 0 <= i < |s| :: IsJsSpace(s[i])
  }

  lemma {:induction false} JsTrimLeftMeans(s: string) returns (before: string)
    ensures s == before + JsTrimLeft(s) && JsBlank(before)
    ensures JsTrimLeft(s) != "" ==> !IsJsSpace(JsTrimLeft(s)[0])
  {
    before := "";
    if s != "" && IsJsSpace(s[0]) {
      var rest := JsTrimLeftMeans(s[1..]);
      before := [s[0]] + rest;
    }
  }

  lemma {:induction false} JsTrimRightMeans(s: string) returns (after: string)
    ensures s == JsTrimRight(s) + after && JsBlank(after)
    ensures JsTrimRight(s) != "" ==> !IsJsSpace(JsTrimRight(s)[|JsTrimRight(s)| - 1])
  {
    after := "";
    if s != "" && IsJsSpace(s[|s| - 1]) {
      var rest := JsTrimRightMeans(s[..|s| - 1]);
      after := rest + [s[|s| - 1]];
    }
  }

  /** A string is white space, its trimmed form, and white space; the trimmed form neither starts nor ends in it. */
  lemma JsTrimMeans(s: string) returns (before: string, after: string)
    ensures s == before + JsTrim(s) + after && JsBlank(before) && JsBlank(after)
    ensures JsTrim(s) != "" ==> !IsJsSpace(JsTrim(s)[0]) && !IsJsSpace(JsTrim(s)[|JsTrim(s)| - 1])
  {
    before := JsTrimLeftMeans(s);
    after := JsTrimRightMeans(JsTrimLeft(s));
    assert s == before + (JsTrim(s) + after);
    assert JsTrim(s) != "" ==> JsTrim(s)[0] == JsTrimLeft(s)[0];
  }

  /** block.replace(/\r/g, '') */
  function WithoutCr(s: string): string {
    if s == [] then [] else (if s[0] == '\r' then [] else [s[0]]) + WithoutCr(s[1..])
  }

  datatype Fields = Fields(name: string, data: seq<string>)

  function AddLine(f: Fields, line: string): Fields {
    var named := if HasPrefix(line, "event:") then f.(name := JsTrim(line[6..])) else f;
    if HasPrefix(line, "data:") then named.(data := named.data + [JsTrim(line[5..])]) else named
  }

  function AddLines(f: Fields, lines: seq<string>): Fields
    decreases |lines|
  {
    if lines == [] then f else AddLines(AddLine(f, lines[0]), lines[1..])
  }

  function MessageOf(f: Fields): Option<Message> {
    if f.data == [] then None else Some(Message(f.name, Join(f.data, "\n")))
  }

  function ParseBlock(block: string): Option<Message> {
    MessageOf(AddLines(Fields("message", []), SplitLines(block)))
  }

  function EventLines(lines: seq<string>): seq<string> {
    Only((line: string) => "event:" <= line, lines)
  }

  function DataLines(lines: seq<string>): seq<string> {
    Only((line: string) => "data:" <= line, lines)
  }

  /** What stands behind the first n characters of each line, trimmed. */
  function Trimmed(lines: seq<string>, n: nat): seq<string> {
    seq(|lines|, i requires 0 <= i < |lines| => if n <= |lines[i]| then JsTrim(lines[i][n..]) else "")
  }

  lemma TrimmedMore(line: string, lines: seq<string>, n: nat)
    requires n <= |line|
    ensures Trimmed([line] + lines, n) == [JsTrim(line[n..])] + Trimmed(lines, n)
  {
  }

  /** The last of some lines behind their first n characters, or the default. */
  function LastTrimmed(lines: seq<string>, n: nat, default: string): string {
    if lines == [] then default else Trimmed(lines, n)[|lines| - 1]
  }

  lemma NotBoth(line: string)
    ensures !("event:" <= line && "data:" <= line)
  {
    assert "event:"[0] == 'e' && "data:"[0] == 'd';
    assert "event:" <= line ==> line[0] == 'e';
    assert "data:" <= line ==> line[0] == 'd';
  }

  lemma {:induction false} AddLinesMean(f: Fields, lines: seq<string>)
    ensures AddLines(f, lines).name == LastTrimmed(EventLines(lines), 6, f.name)
    ensures AddLines(f, lines).data == f.data + Trimmed(DataLines(lines), 5)
    decreases |lines|
  {
    if lines != [] {
      var line, rest := lines[0], lines[1..];
      AddLinesMean(AddLine(f, line), rest);
      NotBoth(line);
      if "event:" <= line {
        assert EventLines(lines) == [line] + EventLines(rest) && DataLines(lines) == DataLines(rest);
      } else if "data:" <= line {
        assert EventLines(lines) == EventLines(rest) && DataLines(lines) == [line] + DataLines(rest);
        TrimmedMore(line, DataLines(rest), 5);
      } else {
        assert EventLines(lines) == EventLines(rest) && DataLines(lines) == DataLines(rest);
      }
    }
  }

  /** A block without data lines is none; else its name is that of its last event line, and its data all its data. */
  lemma ParseBlockMeans(block: string)
    ensures ParseBlock(block) ==
      if DataLines(SplitLines(block)) == [] then None
      else Some(Message(LastTrimmed(EventLines(SplitLines(block)), 6, "message"),
                        Join(Trimmed(DataLines(SplitLines(block)), 5), "\n")))
  {
    BlockOfLines(SplitLines(block));
  }

  lemma BlockOfLines(lines: seq<string>)
    ensures MessageOf(AddLines(Fields("message", []), lines)) ==
      if DataLines(lines) == [] then None
      else Some(Message(LastTrimmed(EventLines(lines), 6, "message"), Join(Trimmed(DataLines(lines), 5), "\n")))
  {
    var f, data := AddLines(Fields("message", []), lines), Trimmed(DataLines(lines), 5);
    AddLinesMean(Fields("message", []), lines);
    assert f.data == data && |data| == |DataLines(lines)|;
  }

  lemma {:induction false} WithoutCrMeans(s: string)
    ensures WithoutCr(s) == Only(c => c != '\r', s)
  {
    if s != "" {
      WithoutCrMeans(s[1..]);
    }
  }

  /** parseSSEBlock */
  method ParseSseBlock(block: string) returns (message: Option<Message>)
    ensures message == ParseBlock(block)
  {
    var f := Fields("message", []);
    var lines := SplitLines(block);
    var i := 0;
    while i < |lines|
      invariant 0 <= i <= |lines| && AddLines(f, lines[i..]) == AddLines(Fields("message", []), lines)
    {
      assert lines[i..][1..] == lines[i + 1..];
      f := AddLine(f, lines[i]);
      i := i + 1;
    }
    return MessageOf(f);
  }

  /** The messages of a list of blocks; blocks without data give none. */
  function MessagesOf(blocks: seq<string>): seq<Message> {
    if blocks == [] then []
    else
      var message := ParseBlock(WithoutCr(blocks[0]));
      (if message.None? then [] else [message.value]) + MessagesOf(blocks[1..])
  }

  function Messages(stream: string): seq<Message> {
    MessagesOf(Blocks(stream))
  }

  lemma FirstMessage(s: string, gap: nat)
    requires FirstGap(s) == Some(gap)
    ensures var message := ParseBlock(WithoutCr(s[..gap]));
      Messages(s) == if message.None? then Messages(s[gap + 2..]) else [message.value] + Messages(s[gap + 2..])
  {
    var block := s[..gap];
    FromGap(s, gap, block, s[gap + 2..]);
    MessagesAppend([block], Blocks(s[gap + 2..]));
    assert [block][1..] == [];
  }

  lemma {:induction false} MessagesAppend(a: seq<string>, b: seq<string>)
    ensures MessagesOf(a + b) == MessagesOf(a) + MessagesOf(b)
  {
    if a == [] {
      assert a + b == b;
    } else {
      assert (a + b)[1..] == a[1..] + b;
      MessagesAppend(a[1..], b);
    }
  }

  /** Reading more of the stream only adds messages. */
  lemma MoreStreamMoreMessages(a: string, b: string)
    ensures Messages(a + b) == Messages(a) + Messages(Rest(a) + b)
  {
    BlocksOfPieces(a, b);
    MessagesAppend(Blocks(a), Blocks(Rest(a) + b));
  }

  // ----- The reader undoes the writer

  predicate OneLine(s: string) {
    '\n' !in s && '\r' !in s
  }

  /** A name or payload that survives: one line whose ends are not white space. */
  predicate Clean(s: string) {
    OneLine(s) && (s != "" ==> !IsJsSpace(s[0]) && !IsJsSpace(s[|s| - 1]))
  }

  predicate CleanMessage(m: Message) {
    Clean(m.name) && Clean(m.data)
  }

  lemma TrimAfterSpace(s: string)
    requires Clean(s)
    ensures JsTrim(" " + s) == s
  {
    assert (" " + s)[1..] == s;
    assert JsTrimLeft(s) == s;
  }

  lemma {:induction false} WithoutCrKeeps(s: string)
    requires '\r' !in s
    ensures WithoutCr(s) == s
  {
    if s != [] {
      WithoutCrKeeps(s[1..]);
      assert s == [s[0]] + s[1..];
    }
  }

  lemma {:induction false} SplitOneLine(s: string)
    requires '\n' !in s
    ensures SplitLines(s) == [s]
  {
    if s != [] {
      SplitOneLine(s[1..]);
      assert s == [s[0]] + s[1..];
    }
  }

  lemma {:induction false} SplitTwoLines(a: string, b: string)
    requires '\n' !in a && '\n' !in b
    ensures SplitLines(a + "\n" + b) == [a, b]
  {
    if a == [] {
      assert (a + "\n" + b)[1..] == b;
      SplitOneLine(b);
    } else {
      assert (a + "\n" + b)[1..] == a[1..] + "\n" + b;
      SplitTwoLines(a[1..], b);
      assert a == [a[0]] + a[1..];
    }
  }

  lemma EventLine(name: string, f: Fields)
    requires Clean(name)
    ensures AddLine(f, "event: " + name) == f.(name := name)
  {
    assert ("event: " + name)[..6] == "event:";
    assert ("event: " + name)[6..] == " " + name;
    assert ("event: " + name)[0] == 'e';
    assert !HasPrefix("event: " + name, "data:") by {
      assert "data:"[0] == 'd';
      assert ("event: " + name)[..5][0] == 'e';
    }
    TrimAfterSpace(name);
  }

  lemma DataLine(data: string, f: Fields)
    requires Clean(data)
    ensures AddLine(f, "data: " + data) == f.(data := f.data + [data])
  {
    assert ("data: " + data)[..5] == "data:";
    assert ("data: " + data)[5..] == " " + data;
    assert !HasPrefix("data: " + data, "event:") by {
      assert "event:"[0] == 'e';
      assert ("data: " + data)[..6][0] == 'd';
    }
    TrimAfterSpace(data);
  }

  lemma TwoLines(f: Fields, a: string, b: string)
    ensures AddLines(f, [a, b]) == AddLine(AddLine(f, a), b)
  {
    var second := AddLine(f, a);
    assert [a, b][1..] == [b] && [b][1..] == [];
    assert AddLines(second, [b]) == AddLines(AddLine(second, b), []);
  }

  lemma PrintedLines(m: Message)
    requires CleanMessage(m)
    ensures '\n' !in "event: " + m.name && '\n' !in "data: " + m.data && '\r' !in Block(m)
  {
  }

  lemma BlockParses(m: Message)
    requires CleanMessage(m)
    ensures ParseBlock(WithoutCr(Block(m))) == Some(m)
  {
    PrintedLines(m);
    WithoutCrKeeps(Block(m));
    var a, b, block := "event: " + m.name, "data: " + m.data, Block(m);
    assert block == a + "\n" + b;
    TwoLinesParse(a, b);
    LinesParse(m, a, b);
  }

  lemma TwoLinesParse(a: string, b: string)
    requires '\n' !in a && '\n' !in b
    ensures ParseBlock(a + "\n" + b) == MessageOf(AddLines(Fields("message", []), [a, b]))
  {
    SplitTwoLines(a, b);
  }

  lemma LinesParse(m: Message, a: string, b: string)
    requires CleanMessage(m) && a == "event: " + m.name && b == "data: " + m.data
    ensures MessageOf(AddLines(Fields("message", []), [a, b])) == Some(m)
  {
    var start := Fields("message", []);
    TwoLines(start, a, b);
    EventLine(m.name, start);
    DataLine(m.data, start.(name := m.name));
    assert Join([m.data], "\n") == m.data;
  }

  lemma BlockHasNoGap(m: Message, i: nat)
    requires CleanMessage(m)
    ensures !GapAt(Block(m), i)
    ensures Block(m) != "" && Block(m)[|Block(m)| - 1] != '\n'
  {
    var block, n := Block(m), 7 + |m.name|;
    assert block[n] == '\n' && block[n + 1] == 'd';
    assert forall k | 0 <= k < |block| && k != n :: block[k] != '\n' by {
      forall k | 0 <= k < |block| && k != n ensures block[k] != '\n' {
        if k < 7 {
          assert block[k] == "event: "[k];
        } else if k < n {
          assert block[k] == m.name[k - 7];
        } else if k < n + 7 {
          assert block[k] == "\ndata: "[k - n];
        } else {
          assert block[k] == m.data[k - n - 7];
        }
      }
    }
  }

  lemma FirstBlock(block: string, rest: string)
    requires forall i: nat :: !GapAt(block, i)
    requires block != "" && block[|block| - 1] != '\n'
    ensures FirstGap(block + "\n\n" + rest) == Some(|block|)
  {
    var s := block + "\n\n" + rest;
    assert GapAt(s, |block|);
    NoEarlierGap(s, |block|);
    var first := FirstGap(s).value;
    assert !GapAt(block, first);
  }

  /** One printed message is read as one block, whatever follows. */
  lemma WireStep(m: Message, rest: string)
    requires CleanMessage(m)
    ensures Blocks(Block(m) + "\n\n" + rest) == [Block(m)] + Blocks(rest)
  {
    var block := Block(m);
    forall i: nat ensures !GapAt(block, i) {
      BlockHasNoGap(m, i);
    }
    BlockHasNoGap(m, 0);
    FirstBlock(block, rest);
    var s := block + "\n\n" + rest;
    assert s[..|block|] == block && s[|block| + 2..] == rest;
  }

  lemma OneBlockMore(m: Message, blocks: seq<string>)
    requires CleanMessage(m)
    ensures MessagesOf([Block(m)] + blocks) == [m] + MessagesOf(blocks)
  {
    BlockParses(m);
    assert ([Block(m)] + blocks)[1..] == blocks;
  }

  lemma OneMessageMore(m: Message, rest: string)
    requires CleanMessage(m)
    ensures Messages(Block(m) + "\n\n" + rest) == [m] + Messages(rest)
  {
    WireStep(m, rest);
    OneBlockMore(m, Blocks(rest));
  }

  lemma {:induction false} WireBlocks(ms: seq<Message>)
    requires forall m | m in ms :: CleanMessage(m)
    ensures Messages(Wire(ms)) == ms
  {
    if ms != [] {
      WireBlocks(ms[1..]);
      OneMessageMore(ms[0], Wire(ms[1..]));
      assert ms == [ms[0]] + ms[1..];
    }
  }

  /** Whatever part of the stream arrives, the messages read are the first ones that were printed. */
  lemma PrefixOfWire(ms: seq<Message>, part: string)
    requires (forall m | m in ms :: CleanMessage(m)) && part <= Wire(ms)
    ensures Messages(part) <= ms
    ensures part == Wire(ms) ==> Messages(part) == ms
  {
    WireBlocks(ms);
    assert Wire(ms) == part + Wire(ms)[|part|..];
    MoreStreamMoreMessages(part, Wire(ms)[|part|..]);
  }

  // ----- Line ends

  /** The same messages, printed with another end of line. */
  function WireWith(eol: string, ms: seq<Message>): string {
    if ms == [] then ""
    else "event: " + ms[0].name + eol + "data: " + ms[0].data + eol + eol + WireWith(eol, ms[1..])
  }

  predicate LfFollowsCr(s: string) {
    forall i | 0 <= i < |s| && s[i] == '\n' :: i > 0 && s[i - 1] == '\r'
  }

  /** The reader looks for the empty line before it drops carriage returns. */
  lemma CrLfIsNeverRead(stream: string)
    requires LfFollowsCr(stream)
    ensures Messages(stream) == []
  {
    assert FirstGap(stream).None?;
  }

  lemma LfFollowsCrConcat(a: string, b: string)
    requires LfFollowsCr(a) && LfFollowsCr(b)
    ensures LfFollowsCr(a + b)
  {
    forall i | 0 <= i < |a + b| && (a + b)[i] == '\n' ensures i > 0 && (a + b)[i - 1] == '\r' {
      if i < |a| {
        assert a[i] == '\n';
      } else {
        assert b[i - |a|] == '\n';
      }
    }
  }

  lemma LfFollowsCrInMessage(event: string, data: string, eol: string, rest: string)
    requires LfFollowsCr(event) && LfFollowsCr(data) && LfFollowsCr(eol) && LfFollowsCr(rest)
    ensures LfFollowsCr(event + eol + data + eol + eol + rest)
  {
    LfFollowsCrConcat(event, eol);
    LfFollowsCrConcat(event + eol, data);
    LfFollowsCrConcat(event + eol + data, eol);
    LfFollowsCrConcat(event + eol + data + eol, eol);
    LfFollowsCrConcat(event + eol + data + eol + eol, rest);
  }

  lemma {:induction false} WireWithCr(eol: string, ms: seq<Message>)
    requires LfFollowsCr(eol) && forall m | m in ms :: CleanMessage(m)
    ensures LfFollowsCr(WireWith(eol, ms))
  {
    if ms != [] {
      var event, data := "event: " + ms[0].name, "data: " + ms[0].data;
      assert CleanMessage(ms[0]);
      LfFollowsCrConcat("event: ", ms[0].name);
      LfFollowsCrConcat("data: ", ms[0].data);
      WireWithCr(eol, ms[1..]);
      LfFollowsCrInMessage(event, data, eol, WireWith(eol, ms[1..]));
      assert WireWith(eol, ms) == event + eol + data + eol + eol + WireWith(eol, ms[1..]);
    }
  }

  lemma {:induction false} WireWithLf(ms: seq<Message>)
    ensures WireWith("\n", ms) == Wire(ms)
  {
    if ms != [] {
      WireWithLf(ms[1..]);
      assert Block(ms[0]) + "\n\n" == "event: " + ms[0].name + "\n" + "data: " + ms[0].data + "\n" + "\n";
    }
  }

  /**
    The standard lets lines end in LF, CR LF or CR.  Messages are read back if and only if they
    are printed with LF; from the other two forms the reader delivers nothing.
   */
  lemma ReadBackOnlyWithLf(eol: string, ms: seq<Message>)
    requires eol == "\n" || eol == "\r\n" || eol == "\r"
    requires ms != [] && forall m | m in ms :: CleanMessage(m)
    ensures Messages(WireWith(eol, ms)) == ms <==> eol == "\n"
  {
    if eol == "\n" {
      WireWithLf(ms);
      WireBlocks(ms);
    } else {
      WireWithCr(eol, ms);
      CrLfIsNeverRead(WireWith(eol, ms));
    }
  }

  function Concat(pieces: seq<string>): string {
    if pieces == [] then "" else Concat(pieces[..|pieces| - 1]) + pieces[|pieces| - 1]
  }

  lemma {:induction false} ConcatMeans(pieces: seq<string>)
    ensures Concat(pieces) == Join(pieces, "")
  {
    if pieces != [] {
      var before, last := pieces[..|pieces| - 1], pieces[|pieces| - 1];
      ConcatMeans(before);
      JoinMore(before, last, "");
      assert pieces == before + [last];
    }
  }
}
