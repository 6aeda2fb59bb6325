/** A streamed answer: what the server prints, and what the browser makes of the part that arrives. */
module Streaming {
  import opened Folds
  import opened Options
  import opened Records
  import opened Sse

  datatype Timing = Timing(totalMs: int, retrievalMs: int, candidateK: int, reranked: bool, rerankFallback: bool)

  /** The JSON values that go over the wire. */
  datatype Payload = Token(content: string) | Citations(citations: seq<Hit>) | Done(timing: Timing) | Failure(error: string)

  /** json.Marshal and JSON.parse; only scores in citations can be impossible to encode. */
  datatype Codec = Codec(encode: Payload -> Option<string>, decode: string -> Option<Payload>)

  ghost predicate Faithful(codec: Codec) {
    forall p :: match codec.encode(p)
      case None => p.Citations?
      case Some(text) => Clean(text) && codec.decode(text) == Some(p)
  }

  // ----- The server

  /** What the chat model and the retrieval before it do in one request. */
  datatype Script = Script(tokens: seq<string>, failure: Option<string>, citations: seq<Hit>, timing: Timing)

  function Encoded(codec: Codec, p: Payload): string {
    if codec.encode(p).Some? then codec.encode(p).value else ""
  }

  function TokenMessages(codec: Codec, tokens: seq<string>): (ms: seq<Message>)
    ensures |ms| == |tokens|
  {
    seq(|tokens|, i requires 0 <= i < |tokens| => Message("token", Encoded(codec, Token(tokens[i]))))
  }

  function Ending(codec: Codec, script: Script, cancelled: bool): seq<Message> {
    if script.failure.Some? then
      if cancelled then [] else [Message("error", Encoded(codec, Failure(script.failure.value)))]
    else if codec.encode(Citations(script.citations)).None? then []
    else [Message("citations", Encoded(codec, Citations(script.citations))),
          Message("done", Encoded(codec, Done(script.timing)))]
  }

  /** The messages of a request whose connection holds. */
  function Planned(codec: Codec, script: Script, cancelled: bool): seq<Message> {
    TokenMessages(codec, script.tokens) + Ending(codec, script, cancelled)
  }

  predicate Carries(codec: Codec, m: Message, name: string, p: Payload) {
    m.name == name && codec.decode(m.data) == Some(p)
  }

  /**
    A request sends its tokens one by one; then the error if it fails, unless it was cancelled,
    or else the citations and the timing, unless the citations cannot be encoded.
   */
  lemma PlannedMeans(codec: Codec, script: Script, cancelled: bool)
    requires Faithful(codec)
    ensures var planned, n := Planned(codec, script, cancelled), |script.tokens|;
      && n <= |planned| && (forall i | 0 <= i < n :: Carries(codec, planned[i], "token", Token(script.tokens[i])))
      && match script.failure
         case Some(error) =>
           if cancelled then |planned| == n
           else |planned| == n + 1 && Carries(codec, planned[n], "error", Failure(error))
         case None =>
           if codec.encode(Citations(script.citations)).None? then |planned| == n
           else (
             && |planned| == n + 2 && Carries(codec, planned[n], "citations", Citations(script.citations))
             && Carries(codec, planned[n + 1], "done", Done(script.timing)))
  {
    var planned, n := Planned(codec, script, cancelled), |script.tokens|;
    forall i | 0 <= i < n ensures Carries(codec, planned[i], "token", Token(script.tokens[i])) {
      assert codec.encode(Token(script.tokens[i])).Some?;
    }
    if script.failure.Some? {
      assert codec.encode(Failure(script.failure.value)).Some?;
    }
    assert codec.encode(Done(script.timing)).Some?;
  }

  function Take(s: string, n: nat): string {
    if n < |s| then s[..n] else s
  }

  /** The body has `text` behind `body`, as far as the connection took it. */
  ghost predicate Sent(w: Response, body: string, capacity: nat, text: string)
    reads w
  {
    w.body == body + Take(text, capacity) && w.capacity == capacity - |Take(text, capacity)|
  }

  /** A connection that takes so many more characters, and then breaks. */
  class Response {
    var body: string
    var capacity: nat

    constructor (capacity: nat)
      ensures body == "" && this.capacity == capacity
    {
      body, this.capacity := "", capacity;
    }

    method Write(text: string) returns (ok: bool)
      modifies this
      ensures Sent(this, old(body), old(capacity), text)
      ensures ok <==> |text| <= old(capacity)
      ensures old(body) <= body <= old(body) + text
      ensures |body| - |old(body)| == old(capacity) - capacity == if ok then |text| else old(capacity)
    {
      var taken := Take(text, capacity);
      body := body + taken;
      capacity := capacity - |taken|;
      ok := |taken| == |text|;
    }

    /** writeSSE */
    method WriteSse(event: string, payload: Payload, codec: Codec) returns (ok: bool)
      modifies this
      ensures codec.encode(payload).None? ==> !ok && body == old(body) && capacity == old(capacity)
      ensures codec.encode(payload).Some? ==>
        var text := Wire([Message(event, codec.encode(payload).value)]);
        Sent(this, old(body), old(capacity), text) && (ok <==> |text| <= old(capacity))
    {
      var data := codec.encode(payload);
      if data.None? {
        return false;
      }
      OneMessage(event, data.value);
      ok := Write("event: " + event + "\ndata: " + data.value + "\n\n");
    }
  }

  /** The text of one message. */
  lemma OneMessage(event: string, data: string)
    ensures Wire([Message(event, data)]) == "event: " + event + "\ndata: " + data + "\n\n"
  {
    assert [Message(event, data)][1..] == [];
  }

  lemma {:induction false} WireAppend(a: seq<Message>, b: seq<Message>)
    ensures Wire(a + b) == Wire(a) + Wire(b)
  {
    if a == [] {
      assert a + b == b;
    } else {
      assert (a + b)[1..] == a[1..] + b;
      WireAppend(a[1..], b);
    }
  }

  lemma TakeAppend(body: string, a: string, b: string, n: nat)
    ensures body + Take(a, n) + Take(b, n - |Take(a, n)|) == body + Take(a + b, n)
  {
    assert Take(a + b, n) == Take(a, n) + Take(b, n - |Take(a, n)|);
  }

  /** Writing b behind a. */
  lemma SentMore(w: Response, body: string, capacity: nat, a: string, b: string, body1: string, capacity1: nat)
    requires body1 == body + Take(a, capacity) && capacity1 == capacity - |Take(a, capacity)|
    requires Sent(w, body1, capacity1, b)
    ensures Sent(w, body, capacity, a + b)
  {
    TakeAppend(body, a, b, capacity);
  }

  /** One more message behind those that were sent. */
  lemma OneMoreSent(w: Response, body: string, capacity: nat, before: seq<Message>, m: Message, body1: string,
        capacity1: nat)
    requires body1 == body + Take(Wire(before), capacity) && capacity1 == capacity - |Take(Wire(before), capacity)|
    requires Sent(w, body1, capacity1, Wire([m]))
    ensures Sent(w, body, capacity, Wire(before + [m]))
  {
    SentMore(w, body, capacity, Wire(before), Wire([m]), body1, capacity1);
    WireAppend(before, [m]);
  }

  /** A connection that broke takes nothing more. */
  lemma BrokenStays(w: Response, body: string, capacity: nat, a: string, b: string)
    requires Sent(w, body, capacity, a) && capacity < |a|
    ensures Sent(w, body, capacity, a + b)
  {
    assert Take(a + b, capacity) == Take(a, capacity);
  }

  /** The messages behind the one at which it broke are lost. */
  lemma RestIsLost(w: Response, body: string, capacity: nat, before: seq<Message>, after: seq<Message>)
    requires Sent(w, body, capacity, Wire(before)) && capacity < |Wire(before)|
    ensures Sent(w, body, capacity, Wire(before + after)) && capacity < |Wire(before + after)|
  {
    BrokenStays(w, body, capacity, Wire(before), Wire(after));
    WireAppend(before, after);
  }

  lemma OneTokenMore(codec: Codec, tokens: seq<string>, i: nat)
    requires i < |tokens|
    ensures TokenMessages(codec, tokens[..i + 1])
      == TokenMessages(codec, tokens[..i]) + [Message("token", Encoded(codec, Token(tokens[i])))]
  {
  }

  /** QueryStream with the callback of the handler: the answer is what was passed on. */
  method QueryStream(w: Response, script: Script, codec: Codec) returns (answer: string, failure: Option<string>)
    requires Faithful(codec)
    modifies w
    ensures Sent(w, old(w.body), old(w.capacity), Wire(TokenMessages(codec, script.tokens)))
    ensures |Wire(TokenMessages(codec, script.tokens))| <= old(w.capacity) ==>
      failure == script.failure && (failure.None? ==> answer == Concat(script.tokens))
    ensures |Wire(TokenMessages(codec, script.tokens))| > old(w.capacity) ==> failure.Some?
  {
    answer := "";
    ghost var body, capacity := w.body, w.capacity;
    ghost var all := TokenMessages(codec, script.tokens);
    var i := 0;
    while i < |script.tokens|
      invariant 0 <= i <= |script.tokens| && answer == Concat(script.tokens[..i])
      invariant Sent(w, body, capacity, Wire(TokenMessages(codec, script.tokens[..i])))
      invariant |Wire(TokenMessages(codec, script.tokens[..i]))| <= capacity
    {
      var token := script.tokens[i];
      assert script.tokens[..i + 1][..i] == script.tokens[..i];
      answer := answer + token;
      ghost var body1, capacity1 := w.body, w.capacity;
      ghost var before := TokenMessages(codec, script.tokens[..i]);
      ghost var m := Message("token", Encoded(codec, Token(token)));
      var ok := w.WriteSse("token", Token(token), codec);
      OneTokenMore(codec, script.tokens, i);
      OneMoreSent(w, body, capacity, before, m, body1, capacity1);
      WireAppend(before, [m]);
      if !ok {
        assert before + [m] + all[i + 1..] == all;
        RestIsLost(w, body, capacity, before + [m], all[i + 1..]);
        return answer, Some("write failed");
      }
      i := i + 1;
    }
    assert script.tokens[..i] == script.tokens;
    failure := script.failure;
  }

  /** stream: the body is what was planned, cut where the connection broke. */
  method Stream(w: Response, script: Script, codec: Codec, cancelled: bool)
    requires Faithful(codec)
    modifies w
    ensures Sent(w, old(w.body), old(w.capacity), Wire(Planned(codec, script, cancelled)))
  {
    ghost var body, capacity := w.body, w.capacity;
    ghost var ms := TokenMessages(codec, script.tokens);
    var answer, failure := QueryStream(w, script, codec);
    if |Wire(ms)| > capacity {
      RestIsLost(w, body, capacity, ms, Ending(codec, script, cancelled));
    }
    ghost var body1, capacity1 := w.body, w.capacity;
    if failure.Some? {
      if cancelled {
        assert ms + [] == ms;
        return;
      }
      var sent := w.WriteSse("error", Failure(failure.value), codec);
      if |Wire(ms)| <= capacity {
        ghost var m := Message("error", Encoded(codec, Failure(failure.value)));
        OneMoreSent(w, body, capacity, ms, m, body1, capacity1);
      }
      return;
    }
    var ok := w.WriteSse("citations", Citations(script.citations), codec);
    if codec.encode(Citations(script.citations)).None? {
      assert ms + [] == ms;
      return;
    }
    ghost var c := Message("citations", Encoded(codec, Citations(script.citations)));
    ghost var d := Message("done", Encoded(codec, Done(script.timing)));
    OneMoreSent(w, body, capacity, ms, c, body1, capacity1);
    WireAppend(ms, [c]);
    assert ms + [c] + [d] == Planned(codec, script, cancelled);
    if !ok {
      RestIsLost(w, body, capacity, ms + [c], [d]);
      return;
    }
    ghost var body2, capacity2 := w.body, w.capacity;
    var last := w.WriteSse("done", Done(script.timing), codec);
    OneMoreSent(w, body, capacity, ms + [c], d, body2, capacity2);
  }

  // ----- The browser

  const WRONG_JSON := "Unexpected token"
  const QUERY_FAILED := "查询失败"
  const NOT_FINISHED := "流式响应未正常结束"

  /** The variables of the handler; `failure` is the message of an exception it threw. */
  datatype View = View(answer: string, citations: seq<Hit>, done: Option<Payload>, failure: Option<string>)

  const EMPTY_VIEW := View("", [], None, None)

  /** onEvent(event.name, JSON.parse(event.data)) */
  function Handle(codec: Codec, view: View, m: Message): View {
    var payload := codec.decode(m.data);
    if payload.None? then view.(failure := Some(WRONG_JSON))
    else
      var p := payload.value;
      if m.name == "token" then view.(answer := view.answer + if p.Token? then p.content else "")
      else if m.name == "citations" then view.(citations := if p.Citations? then p.citations else [])
      else if m.name == "done" then view.(done := Some(p))
      else if m.name == "error" then view.(failure := Some(if p.Failure? && p.error != "" then p.error else QUERY_FAILED))
      else view
  }

  /** Nothing is handled behind an exception. */
  function Handler(codec: Codec): (View, Message) -> View {
    (view: View, m: Message) => if view.failure.Some? then view else Handle(codec, view, m)
  }

  /** An exception in the handler, or in JSON.parse before it, ends everything. */
  lemma ThrowMeans(codec: Codec, view: View, m: Message)
    ensures view.failure.Some? ==> Handler(codec)(view, m) == view
    ensures view.failure.None? && codec.decode(m.data).None? ==>
      Handler(codec)(view, m) == View(view.answer, view.citations, view.done, Some("Unexpected token"))
  {
  }

  /** The cases of the handler; other events, and fields that the data lacks, change nothing but the citations. */
  lemma HandlerMeans(codec: Codec, view: View, m: Message, p: Payload)
    requires view.failure.None? && codec.decode(m.data) == Some(p)
    ensures var v := Handler(codec)(view, m);
      match m.name
      case "token" => v == if p.Token? then View(view.answer + p.content, view.citations, view.done, None) else view
      case "citations" => v == View(view.answer, if p.Citations? then p.citations else [], view.done, None)
      case "done" => v == View(view.answer, view.citations, Some(p), None)
      case "error" => v.failure == Some(if p.Failure? && p.error != "" then p.error else "查询失败")
        && v.(failure := None) == view
      case _ => v == view
  {
  }

  function HandleAll(codec: Codec, view: View, ms: seq<Message>): View {
    Fold(Handler(codec), view, ms)
  }

  lemma {:induction false} FailureStays(codec: Codec, view: View, ms: seq<Message>)
    requires view.failure.Some?
    ensures HandleAll(codec, view, ms) == view
  {
    if ms != [] {
      FailureStays(codec, view, ms[..|ms| - 1]);
    }
  }

  lemma HandleFirst(codec: Codec, view: View, m: Message, ms: seq<Message>)
    ensures HandleAll(codec, view, [m] + ms) == HandleAll(codec, Handler(codec)(view, m), ms)
  {
    FoldAppend(Handler(codec), view, [m], ms);
    FoldMore(Handler(codec), view, [], m);
    assert [] + [m] == [m];
  }

  /** One turn of the loop: the first block is handled, and the rest of the buffer remains. */
  lemma HandleBlock(codec: Codec, view: View, buffer: string, boundary: nat, event: Option<Message>)
    requires FirstGap(buffer) == Some(boundary) && event == ParseBlock(WithoutCr(buffer[..boundary]))
    ensures HandleAll(codec, view, Messages(buffer))
      == HandleAll(codec, if event.None? then view else Handler(codec)(view, event.value), Messages(buffer[boundary + 2..]))
  {
    FirstMessage(buffer, boundary);
    if event.Some? {
      HandleFirst(codec, view, event.value, Messages(buffer[boundary + 2..]));
    }
  }

  /** The inner loop of readSSE, over the complete blocks of the buffer. */
  method DrainBuffer(buffer: string, view: View, codec: Codec) returns (rest: string, view': View)
    requires view.failure.None?
    ensures view' == HandleAll(codec, view, Messages(buffer))
    ensures view'.failure.None? ==> rest == Rest(buffer)
  {
    rest, view' := buffer, view;
    while FirstGap(rest).Some?
      invariant view'.failure.None? && Rest(rest) == Rest(buffer)
      invariant HandleAll(codec, view', Messages(rest)) == HandleAll(codec, view, Messages(buffer))
      decreases |rest|
    {
      var boundary := FirstGap(rest).value;
      var block := WithoutCr(rest[..boundary]);
      var event := ParseSseBlock(block);
      HandleBlock(codec, view', rest, boundary, event);
      rest := rest[boundary + 2..];
      if event.Some? {
        view' := Handle(codec, view', event.value);
        if view'.failure.Some? {
          FailureStays(codec, view', Messages(rest));
          return;
        }
      }
    }
  }

  /**
    readSSE with the handler of the page.  However the stream is cut into pieces, the view
    depends on their concatenation alone.
   */
  method ReadSse(pieces: seq<string>, codec: Codec) returns (view: View)
    ensures view == HandleAll(codec, EMPTY_VIEW, Messages(Concat(pieces)))
  {
    var buffer := "";
    view := EMPTY_VIEW;
    var i := 0;
    while i <= |pieces|
      invariant 0 <= i <= |pieces| + 1 && view.failure.None?
      invariant var read := if i <= |pieces| then pieces[..i] else pieces;
        buffer == Rest(Concat(read)) && view == HandleAll(codec, EMPTY_VIEW, Messages(Concat(read)))
    {
      // the decoder's last, empty result comes with `done`
      var value := if i < |pieces| then pieces[i] else "";
      ghost var read := Concat(pieces[..i]);
      assert i < |pieces| ==> pieces[..i + 1][..i] == pieces[..i];
      assert i == |pieces| ==> pieces[..i] == pieces && read + "" == read;
      BlocksOfPieces(read, value);
      MoreStreamMoreMessages(read, value);
      FoldAppend(Handler(codec), EMPTY_VIEW, Messages(read), Messages(buffer + value));
      buffer, view := DrainBuffer(buffer + value, view, codec);
      if view.failure.Some? {
        WholeStream(codec, pieces, i, read + value);
        return;
      }
      i := i + 1;
    }
  }

  /** A failure in a part of the stream is the result of the whole stream. */
  lemma WholeStream(codec: Codec, pieces: seq<string>, i: nat, part: string)
    requires i <= |pieces| && part == Concat(pieces[..i]) + (if i < |pieces| then pieces[i] else "")
    requires HandleAll(codec, EMPTY_VIEW, Messages(part)).failure.Some?
    ensures HandleAll(codec, EMPTY_VIEW, Messages(Concat(pieces))) == HandleAll(codec, EMPTY_VIEW, Messages(part))
  {
    var all := Concat(pieces);
    PartIsPrefix(pieces, i);
    var rest := all[|part|..];
    assert all == part + rest;
    MoreStreamMoreMessages(part, rest);
    FoldAppend(Handler(codec), EMPTY_VIEW, Messages(part), Messages(Rest(part) + rest));
    FailureStays(codec, HandleAll(codec, EMPTY_VIEW, Messages(part)), Messages(Rest(part) + rest));
  }

  lemma {:induction false} PartIsPrefix(pieces: seq<string>, i: nat)
    requires i <= |pieces|
    ensures Concat(pieces[..i]) + (if i < |pieces| then pieces[i] else "") <= Concat(pieces)
  {
    if i == |pieces| {
      assert pieces[..i] == pieces;
    } else if i < |pieces| - 1 {
      var shorter := pieces[..|pieces| - 1];
      PartIsPrefix(shorter, i);
      assert shorter[..i] == pieces[..i];
    }
  }

  // ----- The browser shows what the server answered

  datatype Outcome = Shown(answer: string, citations: seq<Hit>, done: Payload) | Error(message: string)

  function OutcomeOf(view: View): Outcome {
    if view.failure.Some? then Error(view.failure.value)
    else if view.done.None? then Error(NOT_FINISHED)
    else Shown(view.answer, view.citations, view.done.value)
  }

  /** The page shows the error if there was one, an error if `done` never came, and else the answer. */
  lemma OutcomeMeans(view: View)
    ensures match OutcomeOf(view)
      case Error(message) => view.failure == Some(message)
        || (view.failure.None? && view.done.None? && message == "流式响应未正常结束")
      case Shown(answer, citations, done) =>
        view == View(answer, citations, Some(done), None)
  {
  }

  lemma PlannedIsClean(codec: Codec, script: Script, cancelled: bool)
    requires Faithful(codec)
    ensures forall m | m in Planned(codec, script, cancelled) :: CleanMessage(m)
  {
    assert Clean("token") && Clean("citations") && Clean("done") && Clean("error");
  }

  /** While tokens arrive the answer is what has arrived of it. */
  lemma {:induction false} TokensAreShown(codec: Codec, tokens: seq<string>)
    requires Faithful(codec)
    ensures HandleAll(codec, EMPTY_VIEW, TokenMessages(codec, tokens)) == EMPTY_VIEW.(answer := Concat(tokens))
  {
    if tokens != [] {
      var n := |tokens| - 1;
      var m := Message("token", Encoded(codec, Token(tokens[n])));
      TokensAreShown(codec, tokens[..n]);
      assert tokens[..n + 1] == tokens;
      OneTokenMore(codec, tokens, n);
      FoldMore(Handler(codec), EMPTY_VIEW, TokenMessages(codec, tokens[..n]), m);
      assert codec.encode(Token(tokens[n])).Some?;
    }
  }

  /** The view after the first k planned messages. */
  function ExpectedView(codec: Codec, script: Script, cancelled: bool, k: nat): View {
    var n := |script.tokens|;
    if k <= n then EMPTY_VIEW.(answer := Concat(script.tokens[..k]))
    else
      var shown := EMPTY_VIEW.(answer := Concat(script.tokens));
      if script.failure.Some? then
        shown.(failure := Some(if script.failure.value == "" then QUERY_FAILED else script.failure.value))
      else if k == n + 1 then shown.(citations := script.citations)
      else shown.(citations := script.citations, done := Some(Done(script.timing)))
  }

  lemma EndingIsShown(codec: Codec, script: Script, cancelled: bool, k: nat)
    requires Faithful(codec) && 0 < k <= |Ending(codec, script, cancelled)|
    ensures HandleAll(codec, EMPTY_VIEW.(answer := Concat(script.tokens)), Ending(codec, script, cancelled)[..k])
      == ExpectedView(codec, script, cancelled, |script.tokens| + k)
  {
    var ending, view := Ending(codec, script, cancelled), EMPTY_VIEW.(answer := Concat(script.tokens));
    assert ending[..1] == [] + [ending[0]];
    FoldMore(Handler(codec), view, [], ending[0]);
    if script.failure.Some? {
      assert codec.encode(Failure(script.failure.value)).Some?;
    } else if k == 2 {
      assert ending[..2] == ending[..1] + [ending[1]];
      FoldMore(Handler(codec), view, ending[..1], ending[1]);
      assert codec.encode(Done(script.timing)).Some?;
    }
  }

  lemma PlannedIsShown(codec: Codec, script: Script, cancelled: bool, k: nat)
    requires Faithful(codec) && k <= |Planned(codec, script, cancelled)|
    ensures HandleAll(codec, EMPTY_VIEW, Planned(codec, script, cancelled)[..k]) == ExpectedView(codec, script, cancelled, k)
  {
    var n, ms := |script.tokens|, TokenMessages(codec, script.tokens);
    var planned, ending := Planned(codec, script, cancelled), Ending(codec, script, cancelled);
    if k <= n {
      assert planned[..k] == TokenMessages(codec, script.tokens[..k]);
      TokensAreShown(codec, script.tokens[..k]);
    } else {
      assert planned[..k] == ms + ending[..k - n];
      FoldAppend(Handler(codec), EMPTY_VIEW, ms, ending[..k - n]);
      TokensAreShown(codec, script.tokens);
      EndingIsShown(codec, script, cancelled, k - n);
    }
  }

  /**
    Wherever the connection breaks and however the stream is cut, the page has handled exactly
    the first messages the server meant to send: it shows a beginning of the answer and an
    error, or the server's whole answer with its citations.
   */
  lemma PageFollowsServer(codec: Codec, script: Script, cancelled: bool, capacity: nat, pieces: seq<string>)
    returns (k: nat)
    requires Faithful(codec) && Concat(pieces) == Take(Wire(Planned(codec, script, cancelled)), capacity)
    ensures k <= |Planned(codec, script, cancelled)|
    ensures HandleAll(codec, EMPTY_VIEW, Messages(Concat(pieces))) == ExpectedView(codec, script, cancelled, k)
    ensures |Wire(Planned(codec, script, cancelled))| <= capacity ==> k == |Planned(codec, script, cancelled)|
  {
    var planned := Planned(codec, script, cancelled);
    PlannedIsClean(codec, script, cancelled);
    PrefixOfWire(planned, Concat(pieces));
    k := |Messages(Concat(pieces))|;
    assert Messages(Concat(pieces)) == planned[..k];
    PlannedIsShown(codec, script, cancelled, k);
  }

  /** An answer shown as finished is the server's, whole; and a request that succeeds is shown. */
  lemma FinishedMeansWhole(codec: Codec, script: Script, cancelled: bool, capacity: nat, pieces: seq<string>)
    requires Faithful(codec) && Concat(pieces) == Take(Wire(Planned(codec, script, cancelled)), capacity)
    ensures var outcome := OutcomeOf(HandleAll(codec, EMPTY_VIEW, Messages(Concat(pieces))));
      && (outcome.Shown? ==>
            && script.failure.None?
            && outcome == Shown(Concat(script.tokens), script.citations, Done(script.timing)))
      && (|Wire(Planned(codec, script, cancelled))| <= capacity ==>
            (outcome.Shown? <==> script.failure.None? && codec.encode(Citations(script.citations)).Some?))
      && (|Wire(Planned(codec, script, cancelled))| <= capacity && !cancelled
          && script.failure.Some? && script.failure.value != "" ==>
            outcome == Error(script.failure.value))
  {
    var k := PageFollowsServer(codec, script, cancelled, capacity, pieces);
  }
}
