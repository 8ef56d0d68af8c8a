/** net/http/http.hpp, class HttpContext: the incremental request parser of one connection. */
module HttpParser {
  import opened Text
  import opened UrlCodec
  import opened Buffers
  import opened Http

  const MAX_LINE: nat := 8192

  datatype RecvStatus = RecvError | RecvLine | RecvHead | RecvBody | RecvOver

  /** The fields of HttpContext as a value. */
  datatype Context = Context(respStatu: int, recvStatu: RecvStatus, request: Request, asyncPending: bool) {
    function Fail(statu: int): Context {
      this.(recvStatu := RecvError, respStatu := statu)
    }

    /** Exactly the failed contexts carry an error code; nothing is left over from an earlier
        request when a request line is awaited, and no body precedes the headers. */
    predicate Consistent() {
      && (recvStatu == RecvError <==> respStatu >= 400)
      && (asyncPending ==> recvStatu == RecvOver)
      && (recvStatu == RecvLine ==> this == EmptyContext())
      && (recvStatu == RecvHead ==> request.body == [])
    }
  }

  function EmptyContext(): Context {
    Context(200, RecvLine, EmptyRequest(), false)
  }

  /** A parser together with the bytes it has not consumed. */
  datatype Input = Input(context: Context, unread: string)

  // ---- what each stage computes ----

  function ParseLine(site: Site, c: Context, line: string): Context {
    match site.matchLine(line)
    case None => c.Fail(400)
    case Some(m) =>
      var (ok, params) := ParseQuery(c.request.params, m.query);
      var req := c.request.(path := Decoded(m.path, false), verb := ToUpper(m.verb),
                            version := m.version, params := params);
      if ok then c.(request := req) else c.(request := req).Fail(400)
  }

  /** A line without its newline and without the carriage return before it. */
  function Chomp(line: string): string {
    var t := if line != [] && line[|line| - 1] == '\n' then line[..|line| - 1] else line;
    if t != [] && t[|t| - 1] == '\r' then t[..|t| - 1] else t
  }

  /** A line end is a newline with or without a carriage return; no second one is taken off. */
  lemma ChompMeaning(t: string)
    ensures Chomp(t + "\r\n") == t
    ensures t == "" || t[|t| - 1] != '\r' ==> Chomp(t + "\n") == t
  {
    var u := t + ['\r'];
    assert t + "\r\n" == u + ['\n'];
    assert t + "\n" == t + ['\n'];
    LastTakenOff(u, '\n');
    LastTakenOff(t, '\r');
    LastTakenOff(t, '\n');
  }

  lemma LastTakenOff(t: string, c: char)
    ensures var u := t + [c]; u != [] && u[|u| - 1] == c && u[..|u| - 1] == t
  {
  }

  function ParseHead(c: Context, line: string): Context {
    var t := Chomp(line);
    match Find(t, ": ", 0)
    case None => c.Fail(400)
    case Some(pos) => c.(request := c.request.(headers := Insert(c.request.headers, t[..pos], t[pos + 2..])))
  }

  /** No complete line yet, and not more bytes than a line may have. */
  predicate AwaitsLine(unread: string) {
    FirstLine(unread) == [] && |unread| <= MAX_LINE
  }

  /** The two length checks that the request line and every header line go through. */
  predicate TooLong(unread: string) {
    FirstLine(unread) == [] || |FirstLine(unread)| > MAX_LINE
  }

  function LineStep(site: Site, i: Input): Input {
    var line := FirstLine(i.unread);
    if i.context.recvStatu != RecvLine || AwaitsLine(i.unread) then i
    else if TooLong(i.unread) then Input(i.context.Fail(414), i.unread[|line|..])
    else
      var c := ParseLine(site, i.context, line);
      Input(if c.recvStatu == RecvError then c else c.(recvStatu := RecvHead), i.unread[|line|..])
  }

  /** One turn of the header loop. */
  function HeadStep(i: Input): Input {
    var line := FirstLine(i.unread);
    if i.context.recvStatu != RecvHead || AwaitsLine(i.unread) then i
    else if TooLong(i.unread) then Input(i.context.Fail(414), i.unread[|line|..])
    else if line == "\n" || line == "\r\n" then
      Input(i.context.(recvStatu := RecvBody), i.unread[|line|..])
    else Input(ParseHead(i.context, line), i.unread[|line|..])
  }

  function HeadLoop(i: Input): Input
    decreases |i.unread|
  {
    if i.context.recvStatu != RecvHead || FirstLine(i.unread) == [] then HeadStep(i)
    else HeadLoop(HeadStep(i))
  }

  /** The size_t subtraction `contentlength - _body.size()`. */
  function Missing(length: nat, body: string): (n: nat)
    ensures |body| <= length < TWO_TO_THE_64 ==> n == length - |body|
  {
    (length - |body|) % TWO_TO_THE_64
  }

  /** The header value makes std::stol throw. */
  predicate BodyThrows(i: Input) {
    i.context.recvStatu == RecvBody && ContentLength(i.context.request.headers).None?
  }

  function BodyStep(i: Input): Input {
    if i.context.recvStatu != RecvBody || BodyThrows(i) then i
    else
      var req, length := i.context.request, ContentLength(i.context.request.headers).value;
      var over := i.context.(recvStatu := RecvOver);
      var missing := Missing(length, req.body);
      if length == 0 then Input(over, i.unread)
      else if |i.unread| >= missing then
        Input(over.(request := req.(body := req.body + i.unread[..missing])), i.unread[missing..])
      else
        Input(i.context.(request := req.(body := req.body + i.unread)), [])
  }

  lemma BodyStepThrows(i: Input)
    ensures BodyThrows(BodyStep(i)) <==> BodyThrows(i)
    ensures i.context.recvStatu != RecvBody ==> BodyStep(i) == i
  {
  }

  function RecvRequest(site: Site, i: Input): Input {
    BodyStep(HeadLoop(LineStep(site, i)))
  }

  /** A parser between two calls: at the start of a request, among its headers, or with a part of
      its body still missing; or waiting for a deferred answer. */
  predicate Resting(c: Context) {
    && c.Consistent()
    && (c.recvStatu == RecvLine || c.recvStatu == RecvHead || c.asyncPending
        || (c.recvStatu == RecvBody && ContentLength(c.request.headers).Some?
            && |c.request.body| < ContentLength(c.request.headers).value))
  }

  lemma LineStepConsistent(site: Site, i: Input)
    requires i.context.Consistent()
    ensures LineStep(site, i).context.Consistent()
  {
  }

  lemma HeadStepConsistent(i: Input)
    requires i.context.Consistent()
    ensures HeadStep(i).context.Consistent()
  {
  }

  lemma BodyStepConsistent(i: Input)
    requires i.context.Consistent()
    ensures BodyStep(i).context.Consistent()
  {
  }

  lemma {:induction false} HeadLoopConsistent(i: Input)
    requires i.context.Consistent()
    ensures HeadLoop(i).context.Consistent()
    decreases |i.unread|
  {
    HeadStepConsistent(i);
    if i.context.recvStatu == RecvHead && FirstLine(i.unread) != [] {
      HeadLoopConsistent(HeadStep(i));
    }
  }

  /** The header loop is left as soon as a turn changes the stage or finds no line. */
  lemma {:induction false} HeadLoopTurn(i: Input)
    requires i.context.recvStatu == RecvHead
    ensures FirstLine(i.unread) == [] ==> HeadLoop(i) == HeadStep(i)
    ensures FirstLine(i.unread) != [] ==> HeadLoop(i) == HeadLoop(HeadStep(i))
    ensures HeadStep(i).context.recvStatu != RecvHead ==> HeadLoop(i) == HeadStep(i)
  {
  }

  // ---- the class ----

  class HttpContext {
    var respStatu: int
    var recvStatu: RecvStatus
    var request: Request
    var asyncPending: bool

    function View(): Context
      reads this
    {
      Context(respStatu, recvStatu, request, asyncPending)
    }

    constructor ()
      ensures View() == EmptyContext()
    {
      respStatu, recvStatu, request, asyncPending := 200, RecvLine, EmptyRequest(), false;
    }

    method ReSet()
      modifies this
      ensures View() == EmptyContext()
    {
      respStatu, recvStatu, request, asyncPending := 200, RecvLine, EmptyRequest(), false;
    }

    method ParseHttpLine(site: Site, line: string) returns (ok: bool)
      requires recvStatu == RecvLine
      modifies this
      ensures View() == ParseLine(site, old(View()), line)
      ensures ok <==> recvStatu != RecvError
    {
      var m := site.matchLine(line);
      if m.None? {
        recvStatu, respStatu := RecvError, 400;
        return false;
      }
      var path := UrlDecode(m.value.path, false);
      request := request.(path := path, verb := ToUpper(m.value.verb), version := m.value.version);
      var params;
      ok, params := ParseQueryString(request.params, m.value.query);
      request := request.(params := params);
      if !ok {
        recvStatu, respStatu := RecvError, 400;
      }
    }

    method RecvHttpLine(site: Site, buf: Buffer) returns (ok: bool)
      requires buf.Valid()
      modifies this, buf`readIdx
      ensures buf.Valid()
      ensures Input(View(), buf.Contents()) == LineStep(site, old(Input(View(), buf.Contents())))
    {
      if recvStatu != RecvLine {
        return false;
      }
      var line := buf.GetLineAndPop();
      if |line| == 0 {
        var readable := buf.ReadableBytes();
        if readable > MAX_LINE {
          recvStatu, respStatu := RecvError, 414;
          return false;
        }
        return true;
      }
      if |line| > MAX_LINE {
        recvStatu, respStatu := RecvError, 414;
        return false;
      }
      ok := ParseHttpLine(site, line);
      if !ok {
        return;
      }
      recvStatu := RecvHead;
    }

    /** The two calls of line.back() in the source need a non-empty string: only a line that is
        neither "\n" nor "\r\n" arrives here. */
    method ParseHttpHead(line: string) returns (ok: bool)
      requires recvStatu == RecvHead
      requires line != [] && line != "\n" && line != "\r\n"
      modifies this
      ensures View() == ParseHead(old(View()), line)
      ensures ok <==> recvStatu != RecvError
    {
      var t := line;
      if t[|t| - 1] == '\n' {
        t := t[..|t| - 1];
      }
      if t[|t| - 1] == '\r' {
        t := t[..|t| - 1];
      }
      var pos := Find(t, ": ", 0);
      if pos.None? {
        recvStatu, respStatu := RecvError, 400;
        return false;
      }
      request := request.(headers := Insert(request.headers, t[..pos.value], t[pos.value + 2..]));
      ok := true;
    }

    /** What the loop does with a line: too long, the blank line, or a header. */
    method TakeHeadLine(line: string) returns (again: bool, ok: bool)
      requires recvStatu == RecvHead && line != []
      modifies this
      ensures View() == if |line| > MAX_LINE then old(View()).Fail(414)
                        else if line == "\n" || line == "\r\n" then old(View()).(recvStatu := RecvBody)
                        else ParseHead(old(View()), line)
      ensures again <==> recvStatu == RecvHead
    {
      if |line| > MAX_LINE {
        recvStatu, respStatu := RecvError, 414;
        return false, false;
      }
      if line == "\n" || line == "\r\n" {
        recvStatu := RecvBody;
        return false, true;
      }
      ok := ParseHttpHead(line);
      again := ok;
    }

    /** The body of the header loop; `again` when it neither returns nor breaks. */
    method RecvHeadTurn(buf: Buffer) returns (again: bool, ok: bool)
      requires buf.Valid() && recvStatu == RecvHead
      modifies this, buf`readIdx
      ensures buf.Valid()
      ensures Input(View(), buf.Contents()) == HeadStep(old(Input(View(), buf.Contents())))
      ensures again <==> FirstLine(old(buf.Contents())) != [] && recvStatu == RecvHead
      ensures again ==> |buf.Contents()| < old(|buf.Contents()|)
    {
      var line := buf.GetLineAndPop();
      if |line| == 0 {
        var readable := buf.ReadableBytes();
        if readable > MAX_LINE {
          recvStatu, respStatu := RecvError, 414;
          return false, false;
        }
        return false, true;
      }
      again, ok := TakeHeadLine(line);
    }

    method RecvHttpHead(buf: Buffer) returns (ok: bool)
      requires buf.Valid()
      modifies this, buf`readIdx
      ensures buf.Valid()
      ensures Input(View(), buf.Contents()) == HeadLoop(old(Input(View(), buf.Contents())))
    {
      if recvStatu != RecvHead {
        return false;
      }
      var again := true;
      ok := true;
      ghost var all := HeadLoop(Input(View(), buf.Contents()));
      while again
        invariant buf.Valid()
        invariant again ==> recvStatu == RecvHead && all == HeadLoop(Input(View(), buf.Contents()))
        invariant !again ==> all == Input(View(), buf.Contents())
        decreases if again then |buf.Contents()| + 1 else 0
      {
        ghost var now := Input(View(), buf.Contents());
        HeadLoopTurn(now);
        again, ok := RecvHeadTurn(buf);
        assert Input(View(), buf.Contents()) == HeadStep(now);
      }
    }

    /** `threw` reports the exception of std::stol, which nothing in the source catches. */
    method RecvHttpBody(buf: Buffer) returns (ok: bool, threw: bool)
      requires buf.Valid()
      modifies this, buf`readIdx
      ensures buf.Valid()
      ensures Input(View(), buf.Contents()) == BodyStep(old(Input(View(), buf.Contents())))
      ensures threw <==> BodyThrows(old(Input(View(), buf.Contents())))
    {
      if recvStatu != RecvBody {
        return false, false;
      }
      var length := ContentLength(request.headers);
      if length.None? {
        return false, true;
      }
      if length.value == 0 {
        recvStatu := RecvOver;
        return true, false;
      }
      var missing := Missing(length.value, request.body);
      var readable := buf.ReadableBytes();
      if readable >= missing {
        var part := buf.ReadAsstring(missing);
        request := request.(body := request.body + part);
        buf.MoveReadoffset(missing);
        recvStatu := RecvOver;
        return true, false;
      }
      var part := buf.ReadAsstring(readable);
      assert part == buf.Contents();
      request := request.(body := request.body + part);
      buf.MoveReadoffset(readable);
      return true, false;
    }

    /** The switch with its fall-through: stages whose turn it is not do nothing. */
    method RecvHttpRequest(site: Site, buf: Buffer) returns (threw: bool)
      requires buf.Valid()
      modifies this, buf`readIdx
      ensures buf.Valid()
      ensures Input(View(), buf.Contents()) == RecvRequest(site, old(Input(View(), buf.Contents())))
      ensures threw <==> BodyThrows(Input(View(), buf.Contents()))
    {
      threw := false;
      var stage, ok := recvStatu, true;
      ghost var i := Input(View(), buf.Contents());
      if stage == RecvLine {
        ok := RecvHttpLine(site, buf);
      }
      assert Input(View(), buf.Contents()) == LineStep(site, i);
      if stage == RecvLine || stage == RecvHead {
        ok := RecvHttpHead(buf);
      }
      assert Input(View(), buf.Contents()) == HeadLoop(LineStep(site, i));
      BodyStepThrows(HeadLoop(LineStep(site, i)));
      if stage == RecvLine || stage == RecvHead || stage == RecvBody {
        ok, threw := RecvHttpBody(buf);
      }
    }
  }
}
