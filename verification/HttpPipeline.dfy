/** Pipelined requests, and what the server's reads and deferred answers amount to. */
module HttpPipeline {
  import opened Wrappers
  import opened Text
  import opened UrlCodec
  import opened Buffers
  import opened Decimals
  import opened Http
  import opened HttpParser
  import opened HttpServer
  import opened HttpStream

  // ---- requests as a client writes them ----

  datatype Message = Message(line: string, fields: Pairs, body: string)

  function FieldText(field: (string, string)): string {
    field.0 + ": " + field.1 + "\r\n"
  }

  function HeadText(fields: Pairs): string {
    if fields == [] then "\r\n" else FieldText(fields[0]) + HeadText(fields[1..])
  }

  function MessageText(m: Message): string {
    m.line + HeadText(m.fields) + m.body
  }

  predicate IsLine(line: string) {
    0 < |line| <= MAX_LINE && line[|line| - 1] == '\n' && '\n' !in line[..|line| - 1]
  }

  /** A field name without the separator; neither part holds a newline. */
  ghost predicate IsField(field: (string, string)) {
    && (forall j :: !OccursAt(field.0, ": ", j))
    && '\n' !in field.0 && '\n' !in field.1
    && |FieldText(field)| <= MAX_LINE
  }

  /** A request line the server accepts, proper header lines, and a body of the announced length. */
  ghost predicate WellFormed(site: Site, m: Message) {
    && IsLine(m.line)
    && site.matchLine(m.line).Some?
    && ParseQuery(map[], site.matchLine(m.line).value.query).0
    && (forall i :: 0 <= i < |m.fields| ==> IsField(m.fields[i]))
    && ContentLength(FirstWins(map[], m.fields)) == Some(|m.body|)
  }

  /** The request a well-formed message stands for. */
  function RequestOf(site: Site, m: Message): Request
    requires site.matchLine(m.line).Some?
  {
    var g := site.matchLine(m.line).value;
    Request(ToUpper(g.verb), Decoded(g.path, false), g.version, m.body,
            FirstWins(map[], m.fields), ParseQuery(map[], g.query).1)
  }

  // ---- a message is parsed into its request, whatever follows it ----

  lemma FirstLineIs(line: string, rest: string)
    requires IsLine(line)
    ensures FirstLine(line + rest) == line && (line + rest)[|line|..] == rest
  {
    IndexOfIs(line, '\n', |line| - 1);
    IndexOfAppend(line, rest, '\n');
    assert (line + rest)[..|line|] == line;
  }

  lemma FieldParts(field: (string, string))
    requires IsField(field)
    ensures IsLine(FieldText(field)) && Chomp(FieldText(field)) == field.0 + ": " + field.1
    ensures var t := field.0 + ": " + field.1;
      Find(t, ": ", 0) == Some(|field.0|) && t[..|field.0|] == field.0 && t[|field.0| + 2..] == field.1
  {
    var t, n := field.0 + ": " + field.1, |field.0|;
    assert FieldText(field)[..|t| + 1] == t + "\r";
    assert FieldText(field)[..|t|] == t;
    assert OccursAt(t, ": ", n);
    forall j | 0 <= j < n
      ensures !OccursAt(t, ": ", j)
    {
      assert !OccursAt(field.0, ": ", j);
      assert ": "[0] == ':' && ": "[1] == ' ';
      assert t[j] == field.0[j] && t[j + 1] == if j + 1 < n then field.0[j + 1] else ':';
    }
    FindIs(t, ": ", 0, n);
  }

  lemma FieldStep(c: Context, field: (string, string), rest: string)
    requires c.recvStatu == RecvHead && IsField(field)
    ensures HeadStep(Input(c, FieldText(field) + rest))
         == Input(WithHeaders(c, Insert(c.request.headers, field.0, field.1)), rest)
  {
    FieldParts(field);
    FirstLineIs(FieldText(field), rest);
  }

  function WithHeaders(c: Context, headers: Fields): Context {
    c.(request := c.request.(headers := headers))
  }

  lemma {:induction false} HeadTextTurn(c: Context, fields: Pairs, rest: string)
    requires c.recvStatu == RecvHead && fields != [] && IsField(fields[0])
    ensures HeadLoop(Input(c, HeadText(fields) + rest))
         == HeadLoop(Input(WithHeaders(c, Insert(c.request.headers, fields[0].0, fields[0].1)),
                           HeadText(fields[1..]) + rest))
  {
    var more := HeadText(fields[1..]) + rest;
    assert HeadText(fields) + rest == FieldText(fields[0]) + more;
    HeadLoopTurn(Input(c, FieldText(fields[0]) + more));
    FieldParts(fields[0]);
    FirstLineIs(FieldText(fields[0]), more);
    FieldStep(c, fields[0], more);
  }

  lemma {:induction false} HeadTextEnd(c: Context, rest: string)
    requires c.recvStatu == RecvHead
    ensures HeadLoop(Input(c, "\r\n" + rest)) == Input(c.(recvStatu := RecvBody), rest)
  {
    HeadLoopTurn(Input(c, "\r\n" + rest));
    FirstLineIs("\r\n", rest);
  }

  lemma {:induction false} HeadTextParsed(c: Context, fields: Pairs, rest: string)
    requires c.recvStatu == RecvHead && forall i :: 0 <= i < |fields| ==> IsField(fields[i])
    ensures HeadLoop(Input(c, HeadText(fields) + rest))
         == Input(WithHeaders(c, FirstWins(c.request.headers, fields)).(recvStatu := RecvBody), rest)
    decreases |fields|
  {
    if fields == [] {
      HeadTextEnd(c, rest);
    } else {
      HeadTextTurn(c, fields, rest);
      HeadTextParsed(WithHeaders(c, Insert(c.request.headers, fields[0].0, fields[0].1)), fields[1..], rest);
    }
  }

  lemma MessageLine(site: Site, m: Message, rest: string)
    requires WellFormed(site, m)
    ensures LineStep(site, Input(EmptyContext(), m.line + rest))
         == Input(Context(200, RecvHead, RequestOf(site, m).(headers := map[], body := []), false), rest)
  {
    FirstLineIs(m.line, rest);
  }

  lemma MessageBody(c: Context, m: Message, rest: string)
    requires c.recvStatu == RecvBody && c.request.body == []
    requires ContentLength(c.request.headers) == Some(|m.body|)
    ensures BodyStep(Input(c, m.body + rest))
         == Input(c.(recvStatu := RecvOver, request := c.request.(body := m.body)), rest)
  {
    assert (m.body + rest)[..|m.body|] == m.body && (m.body + rest)[|m.body|..] == rest;
    assert [] + m.body == m.body;
    if m.body == [] {
      assert m.body + rest == rest;
    }
  }

  lemma {:induction false} MessageParsed(site: Site, m: Message, rest: string)
    requires WellFormed(site, m)
    ensures RecvRequest(site, Input(EmptyContext(), MessageText(m) + rest))
         == Input(Context(200, RecvOver, RequestOf(site, m), false), rest)
  {
    var more := HeadText(m.fields) + (m.body + rest);
    assert MessageText(m) + rest == m.line + more;
    MessageLine(site, m, more);
    var c := LineStep(site, Input(EmptyContext(), m.line + more)).context;
    HeadTextParsed(c, m.fields, m.body + rest);
    MessageBody(HeadLoop(Input(c, more)).context, m, rest);
  }

  /** The server answers the message, or loses the answer, and goes on with exactly the bytes
      behind it. */
  lemma {:induction false} MessageAnswered(site: Site, m: Message, rest: string, log: seq<Event>, end: End)
    requires WellFormed(site, m) && end != Crashed
    ensures Run(site, Session(EmptyContext(), MessageText(m) + rest, log, end))
         == Run(site, Answer(site, Session(Context(200, RecvOver, RequestOf(site, m), false), rest, log, end)))
  {
    var s := Session(EmptyContext(), MessageText(m) + rest, log, end);
    var t := Session(Context(200, RecvOver, RequestOf(site, m), false), rest, log, end);
    RunRecvRequest(site, s);
    MessageParsed(site, m, rest);
    assert WithInput(s, RecvRequest(site, InputOf(s))) == t;
    assert !Stuck(t) && Step(site, t) == Answer(site, t);
  }

  /** A message as clients write it: the length is announced in decimal, before any other length, and
      a message without a body need not announce it. */
  ghost predicate PlainlyFormed(site: Site, m: Message) {
    && IsLine(m.line) && site.matchLine(m.line).Some? && ParseQuery(map[], site.matchLine(m.line).value.query).0
    && (forall i :: 0 <= i < |m.fields| ==> IsField(m.fields[i]))
    && |m.body| < LONG_LIMIT
    && (if exists i :: 0 <= i < |m.fields| && m.fields[i].0 == "Content-Length"
        then exists i :: Announces(m, i)
        else m.body == "")
  }

  predicate Announces(m: Message, i: nat) {
    && i < |m.fields| && m.fields[i] == ("Content-Length", Decimal(|m.body|))
    && forall j :: 0 <= j < i ==> m.fields[j].0 != "Content-Length"
  }

  /** The server reads exactly the announced length. */
  lemma PlainIsWellFormed(site: Site, m: Message)
    requires PlainlyFormed(site, m)
    ensures WellFormed(site, m)
  {
    var headers := FirstWins(map[], m.fields);
    FirstWinsMeaning(map[], m.fields, "Content-Length");
    ContentLengthReads(headers, |m.body|);
    if i :| Announces(m, i) {
      assert "Content-Length" in headers;
      var k :| 0 <= k < |m.fields| && m.fields[k] == ("Content-Length", headers["Content-Length"])
               && forall j :: 0 <= j < k ==> m.fields[j].0 != "Content-Length";
      assert k == i;
    }
  }

  /** A message with a decimal length header is parsed to its body, and what follows it is left. */
  lemma PlainlyParsed(site: Site, m: Message, rest: string)
    requires PlainlyFormed(site, m)
    ensures var i := RecvRequest(site, Input(EmptyContext(), MessageText(m) + rest));
      i.context.recvStatu == RecvOver && i.context.request.body == m.body && i.unread == rest
  {
    PlainIsWellFormed(site, m);
    MessageParsed(site, m, rest);
  }

  // ---- pipelining ----

  function StreamText(ms: seq<Message>): string {
    if ms == [] then [] else MessageText(ms[0]) + StreamText(ms[1..])
  }

  /** The message is well formed, and answered at once as the n-th request of its connection. */
  ghost predicate AnsweredAtOnce(site: Site, m: Message, n: nat) {
    WellFormed(site, m) && site.route(RequestOf(site, m), n).Respond?
  }

  /** The messages follow the first n requests of the connection. */
  ghost predicate AllAnsweredAtOnce(site: Site, ms: seq<Message>, n: nat) {
    forall k :: 0 <= k < |ms| ==> AnsweredAtOnce(site, ms[k], n + k)
  }

  ghost function Answered(site: Site, m: Message, n: nat): (events: seq<Event>)
    requires AnsweredAtOnce(site, m, n)
    ensures |events| == 2 && events[0] == Routed(RequestOf(site, m)) && events[1].Sent?
  {
    var req := RequestOf(site, m);
    [Routed(req), Sent(WriteResponse(req, site.route(req, n).response))]
  }

  lemma RestAnsweredAtOnce(site: Site, ms: seq<Message>, n: nat)
    requires ms != [] && AllAnsweredAtOnce(site, ms, n)
    ensures AnsweredAtOnce(site, ms[0], n) && AllAnsweredAtOnce(site, ms[1..], n + 1)
  {
    assert AnsweredAtOnce(site, ms[0], n + 0);
    forall k | 0 <= k < |ms[1..]| ensures AnsweredAtOnce(site, ms[1..][k], n + 1 + k) {
      assert AnsweredAtOnce(site, ms[k + 1], n + (k + 1));
    }
  }

  ghost function Exchange(site: Site, ms: seq<Message>, n: nat): seq<Event>
    requires AllAnsweredAtOnce(site, ms, n)
  {
    if ms == [] then [] else
      RestAnsweredAtOnce(site, ms, n);
      Answered(site, ms[0], n) + Exchange(site, ms[1..], n + 1)
  }

  lemma AnsweredRoutes(site: Site, m: Message, log: seq<Event>)
    requires AnsweredAtOnce(site, m, |RoutedIn(log)|)
    ensures |RoutedIn(log + Answered(site, m, |RoutedIn(log)|))| == |RoutedIn(log)| + 1
  {
    var events := Answered(site, m, |RoutedIn(log)|);
    assert (log + events)[..|log| + 1] == log + [events[0]];
    assert (log + [events[0]])[..|log|] == log;
  }

  lemma {:induction false} MessageExchanged(site: Site, m: Message, rest: string, log: seq<Event>)
    requires AnsweredAtOnce(site, m, |RoutedIn(log)|)
    ensures Run(site, Session(EmptyContext(), MessageText(m) + rest, log, Open))
         == Run(site, Session(EmptyContext(), rest, log + Answered(site, m, |RoutedIn(log)|), Open))
  {
    MessageAnswered(site, m, rest, log, Open);
  }

  lemma ExchangeHead(site: Site, ms: seq<Message>, n: nat, log: seq<Event>)
    requires ms != [] && AllAnsweredAtOnce(site, ms, n)
    requires AnsweredAtOnce(site, ms[0], n) && AllAnsweredAtOnce(site, ms[1..], n + 1)
    ensures log + Exchange(site, ms, n) == (log + Answered(site, ms[0], n)) + Exchange(site, ms[1..], n + 1)
  {
    assert Exchange(site, ms, n) == Answered(site, ms[0], n) + Exchange(site, ms[1..], n + 1);
  }

  lemma StreamHead(ms: seq<Message>, rest: string)
    requires ms != []
    ensures StreamText(ms) + rest == MessageText(ms[0]) + (StreamText(ms[1..]) + rest)
  {
  }

  /** Pipelined requests are routed and answered one by one in their order, each consuming exactly
      its own bytes; what follows them is processed by a fresh parser. */
  lemma {:induction false} Pipelining(site: Site, ms: seq<Message>, rest: string, log: seq<Event>)
    requires AllAnsweredAtOnce(site, ms, |RoutedIn(log)|)
    ensures Run(site, Session(EmptyContext(), StreamText(ms) + rest, log, Open))
         == Run(site, Session(EmptyContext(), rest, log + Exchange(site, ms, |RoutedIn(log)|), Open))
    decreases |ms|
  {
    var n := |RoutedIn(log)|;
    if ms == [] {
      assert StreamText(ms) + rest == rest && log + Exchange(site, ms, n) == log;
    } else {
      RestAnsweredAtOnce(site, ms, n);
      StreamHead(ms, rest);
      ExchangeHead(site, ms, n, log);
      AnsweredRoutes(site, ms[0], log);
      MessageExchanged(site, ms[0], StreamText(ms[1..]) + rest, log);
      Pipelining(site, ms[1..], rest, log + Answered(site, ms[0], n));
    }
  }

  /** However a pipeline of requests is cut into reads, the connection ends up open, with a reset
      parser and an empty buffer, and with every request routed and answered in order. */
  lemma {:induction false} PipelineInChunks(site: Site, ms: seq<Message>, chunks: seq<string>)
    requires AllAnsweredAtOnce(site, ms, 0) && Concat(chunks) == StreamText(ms)
    ensures FeedAll(site, NewSession(), chunks) == Session(EmptyContext(), [], Exchange(site, ms, 0), Open)
  {
    ChunkIndependence(site, NewSession(), chunks);
    assert [] + StreamText(ms) == StreamText(ms) + [];
    Pipelining(site, ms, [], []);
    assert [] + Exchange(site, ms, 0) == Exchange(site, ms, 0);
    assert Stuck(Session(EmptyContext(), [], Exchange(site, ms, 0), Open));
  }

  /** HandleRead of a connection, once per chunk, until the connection is half closed.  The real
      buffer, parser and loop, on any cut of any stream, do what the small-step server does with the
      whole stream. */
  method ReadChunks(site: Site, peer: Peer, buf: Buffer, chunks: seq<string>)
    requires buf.Valid() && SessionResting(peer.Snapshot(buf)) && Stuck(peer.Snapshot(buf))
    modifies peer, peer.context, buf, buf.data
    ensures buf.Valid()
    ensures var whole := Feed(site, old(peer.Snapshot(buf)), Concat(chunks));
      peer.end == whole.end && peer.log == whole.log
      && (peer.end != Crashed ==> peer.Snapshot(buf) == whole)
  {
    ghost var start := peer.Snapshot(buf);
    ChunkIndependence(site, start, chunks);
    var i := 0;
    while i < |chunks| && peer.end == Open
      invariant 0 <= i <= |chunks| && buf.Valid() && (buf.data == old(buf.data) || fresh(buf.data))
      invariant peer.end != Crashed ==> SessionResting(peer.Snapshot(buf))
      invariant Stuck(peer.Snapshot(buf))
      invariant FeedAll(site, start, chunks) == FeedAll(site, peer.Snapshot(buf), chunks[i..])
      decreases |chunks| - i
    {
      ghost var before := peer.Snapshot(buf);
      assert chunks[i..][0] == chunks[i] && chunks[i..][1..] == chunks[i + 1..];
      CalledIsRun(site, Delivered(before, chunks[i]));
      peer.HandleRead(site, buf, chunks[i]);
      i := i + 1;
    }
    if peer.end != Open {
      FeedAfterEnd(site, peer.Snapshot(buf), chunks[i..]);
    }
  }

  lemma CalledIsRun(site: Site, s: Session)
    requires SessionResting(s)
    ensures Called(site, s) == Run(site, s)
  {
    if s.unread == [] {
      RestingIsStuck(s);
    }
  }

  /** Reading is off after the end of an open connection. */
  lemma {:induction false} FeedAfterEnd(site: Site, s: Session, chunks: seq<string>)
    requires s.end != Open && Stuck(s)
    ensures var t := FeedAll(site, s, chunks);
      t.end == s.end && t.log == s.log && (s.end != Crashed ==> t == s)
    decreases |chunks|
  {
    if chunks != [] {
      FeedAfterEnd(site, Feed(site, s, chunks[0]), chunks[1..]);
    }
  }
}
