/** What the HTTP server does with a whole byte stream, however it arrives. */
module HttpStream {
  import opened Wrappers
  import opened Text
  import opened Buffers
  import opened Http
  import opened HttpParser
  import opened HttpServer

  /** Received bytes join the unread ones; from the half-close on reading is off. */
  function Arrive(s: Session, bytes: string): Session {
    if s.end == Closing || s.end == Shut || s.end == Released then s else Delivered(s, bytes)
  }

  /** One read event: the bytes arrive and the message callback runs. */
  function Feed(site: Site, s: Session, bytes: string): Session {
    Run(site, Arrive(s, bytes))
  }

  function FeedAll(site: Site, s: Session, chunks: seq<string>): Session
    decreases |chunks|
  {
    if chunks == [] then s else FeedAll(site, Feed(site, s, chunks[0]), chunks[1..])
  }

  function Concat(chunks: seq<string>): string {
    if chunks == [] then [] else chunks[0] + Concat(chunks[1..])
  }

  // ---- bytes that arrive later do not change what earlier bytes did ----

  lemma FirstLineAppend(s: string, x: string)
    ensures FirstLine(s) != [] ==>
      FirstLine(s + x) == FirstLine(s) && (s + x)[|FirstLine(s)|..] == s[|FirstLine(s)|..] + x
    ensures FirstLine(s) == [] ==> FirstLine(s + x) == [] || |FirstLine(s + x)| > |s|
  {
    if FirstLine(s) != [] {
      IndexOfAppend(s, x, '\n');
      assert (s + x)[..|FirstLine(s)|] == s[..|FirstLine(s)|];
    } else {
      assert forall i :: 0 <= i < |s| ==> (s + x)[i] == s[i];
    }
  }

  lemma LineStepAppend(site: Site, s: Session, x: string)
    requires s.end == Open && !Stuck(s) && s.context.recvStatu == RecvLine
    ensures !Stuck(Arrive(s, x))
    ensures FirstLine(s.unread) != [] ==> Step(site, Arrive(s, x)) == Arrive(Step(site, s), x)
    ensures FirstLine(s.unread) == [] ==>
      Step(site, Arrive(s, x)).context == Step(site, s).context == s.context.Fail(414)
      && Step(site, Arrive(s, x)).log == s.log && Step(site, Arrive(s, x)).end == Open
  {
    FirstLineAppend(s.unread, x);
  }

  lemma HeadStepAppend(site: Site, s: Session, x: string)
    requires s.end == Open && !Stuck(s) && s.context.recvStatu == RecvHead
    ensures !Stuck(Arrive(s, x))
    ensures FirstLine(s.unread) != [] ==> Step(site, Arrive(s, x)) == Arrive(Step(site, s), x)
    ensures FirstLine(s.unread) == [] ==>
      Step(site, Arrive(s, x)).context == Step(site, s).context == s.context.Fail(414)
      && Step(site, Arrive(s, x)).log == s.log && Step(site, Arrive(s, x)).end == Open
  {
    FirstLineAppend(s.unread, x);
  }

  /** All sessions that failed in the same way end the same, whatever is unread. */
  lemma FailedRunsAgree(site: Site, s: Session, t: Session)
    requires s.end == Open && t.end == Open && s.context == t.context && s.log == t.log
    requires s.context.recvStatu == RecvError && !s.context.asyncPending
    ensures Run(site, s) == Run(site, t)
  {
  }

  lemma MissingLater(length: nat, body: string, part: string)
    requires |part| < Missing(length, body)
    ensures Missing(length, body + part) == Missing(length, body) - |part|
  {
    var m := length - |body|;
    var q, r := m / TWO_TO_THE_64, m % TWO_TO_THE_64;
    assert m - |part| == q * TWO_TO_THE_64 + (r - |part|);
  }

  lemma TakeInTwoParts(body: string, part: string, x: string, n: nat)
    requires |part| <= n <= |part| + |x|
    ensures body + (part + x)[..n] == (body + part) + x[..n - |part|]
    ensures (part + x)[n..] == x[n - |part|..]
  {
    assert (part + x)[..n] == part + x[..n - |part|];
  }

  /** What a read of the body makes of the context, given the number of bytes that are missing. */
  function WithBody(c: Context, unread: string, missing: nat): Input {
    var req := c.request;
    if |unread| >= missing then
      Input(c.(recvStatu := RecvOver, request := req.(body := req.body + unread[..missing])), unread[missing..])
    else Input(c.(request := req.(body := req.body + unread)), [])
  }

  lemma BodyStepIs(c: Context, unread: string, length: nat)
    requires c.recvStatu == RecvBody && length != 0 && ContentLength(c.request.headers) == Some(length)
    ensures BodyStep(Input(c, unread)) == WithBody(c, unread, Missing(length, c.request.body))
  {
  }

  lemma WithBodyInTwoParts(c: Context, part: string, x: string, missing: nat)
    requires |part| < missing
    ensures WithBody(c, part + x, missing)
         == WithBody(c.(request := c.request.(body := c.request.body + part)), x, missing - |part|)
  {
    var body := c.request.body;
    if |part + x| >= missing {
      TakeInTwoParts(body, part, x, missing);
    } else {
      assert body + (part + x) == (body + part) + x;
    }
  }

  /** A body that arrives in two reads is the body that arrives in one. */
  lemma {:induction false} BodyInTwoParts(i: Input, x: string)
    requires i.context.recvStatu == RecvBody && !BodyThrows(i)
    requires var length := ContentLength(i.context.request.headers).value;
      length != 0 && |i.unread| < Missing(length, i.context.request.body)
    ensures BodyStep(Input(i.context, i.unread + x))
         == BodyStep(Input(BodyStep(i).context, BodyStep(i).unread + x))
  {
    var c, length := i.context, ContentLength(i.context.request.headers).value;
    var later := c.(request := c.request.(body := c.request.body + i.unread));
    BodyStepIs(c, i.unread, length);
    assert BodyStep(i) == Input(later, "") && "" + x == x;
    BodyStepIs(c, i.unread + x, length);
    BodyStepIs(later, x, length);
    MissingLater(length, c.request.body, i.unread);
    WithBodyInTwoParts(c, i.unread, x, Missing(length, c.request.body));
  }

  /** Enough bytes are there: later ones wait behind the body. */
  lemma BodyDoneAppend(i: Input, x: string)
    requires i.context.recvStatu == RecvBody && !BodyThrows(i)
    requires var length := ContentLength(i.context.request.headers).value;
      length == 0 || |i.unread| >= Missing(length, i.context.request.body)
    ensures BodyStep(Input(i.context, i.unread + x)) == Input(BodyStep(i).context, BodyStep(i).unread + x)
  {
    var req, length := i.context.request, ContentLength(i.context.request.headers).value;
    var missing := Missing(length, req.body);
    if length != 0 {
      assert (i.unread + x)[..missing] == i.unread[..missing];
      assert (i.unread + x)[missing..] == i.unread[missing..] + x;
    }
  }

  lemma {:induction false} BodyPartAppend(site: Site, s: Session, x: string)
    requires s.end == Open && !Stuck(s) && s.context.recvStatu == RecvBody && !BodyThrows(InputOf(s))
    requires var length := ContentLength(s.context.request.headers).value;
      length != 0 && |s.unread| < Missing(length, s.context.request.body)
    requires x != []
    ensures !Stuck(Arrive(s, x)) && !Stuck(Arrive(Step(site, s), x))
    ensures Step(site, Arrive(s, x)) == Step(site, Arrive(Step(site, s), x))
  {
    BodyInTwoParts(InputOf(s), x);
    MissingLater(ContentLength(s.context.request.headers).value, s.context.request.body, s.unread);
  }

  lemma {:induction false} BodyStepAppend(site: Site, s: Session, x: string)
    requires s.end == Open && !Stuck(s) && s.context.recvStatu == RecvBody
    ensures Run(site, Arrive(s, x)) == Run(site, Arrive(Step(site, s), x))
  {
    if x == [] {
      assert s.unread + x == s.unread && Step(site, s).unread + x == Step(site, s).unread;
      RunStep(site, s);
    } else if BodyThrows(InputOf(s)) {
      RunStep(site, Arrive(s, x));
    } else {
      var length := ContentLength(s.context.request.headers).value;
      if length == 0 || |s.unread| >= Missing(length, s.context.request.body) {
        BodyDoneAppend(InputOf(s), x);
        RunStep(site, Arrive(s, x));
      } else {
        BodyPartAppend(site, s, x);
        RunStep(site, Arrive(s, x));
        RunStep(site, Arrive(Step(site, s), x));
      }
    }
  }

  lemma {:induction false} StepAppend(site: Site, s: Session, x: string)
    requires s.end == Open && !Stuck(s)
    ensures Run(site, Arrive(s, x)) == Run(site, Arrive(Step(site, s), x))
  {
    match s.context.recvStatu
    case RecvLine =>
      LineStepAppend(site, s, x);
      if FirstLine(s.unread) == [] {
        FailedRunsAgree(site, Step(site, Arrive(s, x)), Arrive(Step(site, s), x));
      }
    case RecvHead =>
      HeadStepAppend(site, s, x);
      if FirstLine(s.unread) == [] {
        FailedRunsAgree(site, Step(site, Arrive(s, x)), Arrive(Step(site, s), x));
      }
    case RecvBody => BodyStepAppend(site, s, x);
    case RecvOver =>
    case RecvError =>
      RefusedIsStuck(site, s);
      assert Step(site, Arrive(s, x)) == Step(site, s);
  }

  /** An open connection stays open, or has nothing more to do. */
  lemma StepStaysOpen(site: Site, s: Session)
    requires s.end == Open && !Stuck(s)
    ensures Step(site, s).end == Open || Stuck(Step(site, s))
  {
    if s.context.recvStatu == RecvError {
      RefusedIsStuck(site, s);
    }
  }

  /** The homomorphism: process(b + x) is process(x) after process(b). */
  lemma {:induction false} RunAppend(site: Site, s: Session, x: string)
    requires s.end == Open || Stuck(s)
    ensures Run(site, Arrive(s, x)) == Run(site, Arrive(Run(site, s), x))
    decreases |s.unread|, Rank(s)
  {
    if !Stuck(s) {
      StepAppend(site, s, x);
      StepDescends(site, s);
      StepStaysOpen(site, s);
      RunAppend(site, Step(site, s), x);
    }
  }

  lemma ArriveTwice(s: Session, x: string, y: string)
    ensures Arrive(Arrive(s, x), y) == Arrive(s, x + y)
  {
    assert s.unread + x + y == s.unread + (x + y);
  }

  lemma FeedTwice(site: Site, s: Session, x: string, y: string)
    requires s.end == Open || Stuck(s)
    ensures Feed(site, Feed(site, s, x), y) == Feed(site, s, x + y)
  {
    RunAppend(site, Arrive(s, x), y);
    ArriveTwice(s, x, y);
  }

  /** Chunk independence, from any resting state of the connection: cutting the stream in any way gives
      the same requests, the same responses, the same end, and the same parser and unread bytes as
      feeding it whole.  Deferring handlers, failed requests and exceptions are included. */
  lemma {:induction false} ChunkIndependence(site: Site, s: Session, chunks: seq<string>)
    requires Stuck(s)
    ensures FeedAll(site, s, chunks) == Feed(site, s, Concat(chunks))
    decreases |chunks|
  {
    if chunks == [] {
      assert Arrive(s, []) == s;
    } else {
      ChunkIndependence(site, Feed(site, s, chunks[0]), chunks[1..]);
      FeedTwice(site, s, chunks[0], Concat(chunks[1..]));
    }
  }

  /** Two cuts of one stream cannot be told apart. */
  lemma CutsAgree(site: Site, chunks: seq<string>, others: seq<string>)
    requires Concat(chunks) == Concat(others)
    ensures FeedAll(site, NewSession(), chunks) == FeedAll(site, NewSession(), others)
  {
    ChunkIndependence(site, NewSession(), chunks);
    ChunkIndependence(site, NewSession(), others);
  }
}
