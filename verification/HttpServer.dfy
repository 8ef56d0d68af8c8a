/** net/http/http.hpp, class HttpServer: the message callback and the runs it performs. */
module HttpServer {
  import opened Buffers
  import opened Http
  import opened HttpParser

  /** What the server does with its requests, in order.  Lost: an answer that Connection::Send drops,
      because the connection is no longer CONNECTED. */
  datatype Event = Routed(request: Request) | Sent(wire: Wire) | Lost(wire: Wire)

  /** Closing and Shut: the connection is half closed; reading is off and answers are lost, but the
      message callback may still be called.  Shut: because a request failed; Closing: for any other
      reason.  Released: ReleaseInLoop has run, nothing is read or called any more, and what deferred
      answers still send is dropped.  Crashed: an exception left the callback, which ends the process. */
  datatype End = Open | Closing | Shut | Released | Crashed

  /** One HTTP connection: parser, unread bytes, and what has happened on it. */
  datatype Session = Session(context: Context, unread: string, log: seq<Event>, end: End)

  function NewSession(): Session {
    Session(EmptyContext(), [], [], Open)
  }

  /** The requests that were handed to a handler. */
  function RoutedIn(log: seq<Event>): seq<Request> {
    if log == [] then []
    else
      var last := log[|log| - 1];
      RoutedIn(log[..|log| - 1]) + (if last.Routed? then [last.request] else [])
  }

  function Reported(end: End, wire: Wire): Event {
    if end == Open then Sent(wire) else Lost(wire)
  }

  // ---- a run in small steps: one line, one piece of a body, one request ----

  predicate Stuck(s: Session) {
    || s.end == Crashed
    || s.context.asyncPending
    || ((s.context.recvStatu == RecvLine || s.context.recvStatu == RecvHead) && AwaitsLine(s.unread))
    || (s.context.recvStatu == RecvBody && s.unread == [] && AwaitsBody(s.context))
  }

  predicate AwaitsBody(c: Context) {
    var length := ContentLength(c.request.headers);
    length.Some? && length.value > 0 && Missing(length.value, c.request.body) > 0
  }

  function InputOf(s: Session): Input {
    Input(s.context, s.unread)
  }

  function WithInput(s: Session, i: Input): Session {
    s.(context := i.context, unread := i.unread)
  }

  /** Answers a complete request. */
  function Answer(site: Site, s: Session): Session {
    var req := s.context.request;
    match site.route(req, |RoutedIn(s.log)|)
    case Defer => s.(context := s.context.(asyncPending := true), log := s.log + [Routed(req)])
    case Respond(resp) =>
      s.(context := EmptyContext(), log := s.log + [Routed(req), Reported(s.end, WriteResponse(req, resp))])
  }

  /** Answers a failed request with an error page; what is still unread is dropped. */
  function Refuse(site: Site, s: Session): Session {
    var wire := WriteResponse(s.context.request, ErrorResponse(site, s.context.respStatu));
    Session(EmptyContext(), [], s.log + [Reported(s.end, wire)], Shut)
  }

  function Step(site: Site, s: Session): Session
    requires !Stuck(s)
  {
    match s.context.recvStatu
    case RecvLine => WithInput(s, LineStep(site, InputOf(s)))
    case RecvHead => WithInput(s, HeadStep(InputOf(s)))
    case RecvBody =>
      if BodyThrows(InputOf(s)) then s.(end := Crashed) else WithInput(s, BodyStep(InputOf(s)))
    case RecvOver => Answer(site, s)
    case RecvError => Refuse(site, s)
  }

  function Rank(s: Session): nat {
    if Stuck(s) then 0
    else match s.context.recvStatu
      case RecvError => 1
      case RecvLine => 2
      case RecvHead => 2
      case RecvOver => 3
      case RecvBody => 4
  }

  lemma LineStepDescends(site: Site, i: Input)
    requires i.context.recvStatu == RecvLine && !AwaitsLine(i.unread)
    ensures var j := LineStep(site, i);
      |j.unread| < |i.unread| || (j.unread == i.unread && j.context.recvStatu == RecvError)
  {
  }

  lemma HeadStepDescends(i: Input)
    requires i.context.recvStatu == RecvHead && !AwaitsLine(i.unread)
    ensures var j := HeadStep(i);
      |j.unread| < |i.unread| || (j.unread == i.unread && j.context.recvStatu == RecvError)
  {
  }

  lemma BodyStepDescends(i: Input)
    requires i.context.recvStatu == RecvBody && !BodyThrows(i)
    requires i.unread == [] ==> !AwaitsBody(i.context)
    ensures var j := BodyStep(i);
      |j.unread| < |i.unread| || (|j.unread| == |i.unread| && j.context.recvStatu == RecvOver)
  {
  }

  lemma StepDescends(site: Site, s: Session)
    requires !Stuck(s)
    ensures var t := Step(site, s);
      |t.unread| < |s.unread| || (|t.unread| == |s.unread| && Rank(t) < Rank(s))
  {
    match s.context.recvStatu
    case RecvLine => LineStepDescends(site, InputOf(s));
    case RecvHead => HeadStepDescends(InputOf(s));
    case RecvBody =>
      if !BodyThrows(InputOf(s)) {
        BodyStepDescends(InputOf(s));
      }
    case RecvOver =>
    case RecvError => RefusedIsStuck(site, s);
  }

  lemma RefusedIsStuck(site: Site, s: Session)
    ensures Stuck(Refuse(site, s))
  {
    assert FirstLine([]) == [];
  }

  /** Runs the server until it needs more bytes. */
  function Run(site: Site, s: Session): (r: Session)
    ensures Stuck(r)
    decreases |s.unread|, Rank(s)
  {
    if Stuck(s) then s else
      StepDescends(site, s);
      Run(site, Step(site, s))
  }

  lemma {:induction false} RunStep(site: Site, s: Session)
    requires !Stuck(s)
    ensures Run(site, s) == Run(site, Step(site, s))
  {
  }

  // ---- the code performs exactly such a run ----

  ghost predicate SessionResting(s: Session) {
    s.end != Crashed && Resting(s.context)
  }

  lemma RestingIsStuck(s: Session)
    requires SessionResting(s) && s.unread == []
    ensures Stuck(s)
  {
    assert FirstLine([]) == [];
  }

  lemma {:induction false} HeadStepIsStep(site: Site, s: Session)
    requires s.end != Crashed && !s.context.asyncPending && s.context.recvStatu == RecvHead
    ensures !AwaitsLine(s.unread) ==> !Stuck(s) && Step(site, s) == WithInput(s, HeadStep(InputOf(s)))
    ensures AwaitsLine(s.unread) ==> WithInput(s, HeadStep(InputOf(s))) == s
  {
  }

  lemma {:induction false} RunHeadStep(site: Site, s: Session)
    requires s.end != Crashed && !s.context.asyncPending && s.context.recvStatu == RecvHead
    ensures Run(site, s) == Run(site, WithInput(s, HeadStep(InputOf(s))))
  {
    HeadStepIsStep(site, s);
  }

  lemma HeadStepTakesLine(i: Input)
    requires i.context.recvStatu == RecvHead && FirstLine(i.unread) != []
    ensures |HeadStep(i).unread| < |i.unread|
  {
  }

  lemma {:induction false} RunHeadLoop(site: Site, s: Session)
    requires s.end != Crashed && s.context.Consistent()
    ensures Run(site, s) == Run(site, WithInput(s, HeadLoop(InputOf(s))))
    decreases |s.unread|
  {
    var i := InputOf(s);
    if s.context.recvStatu == RecvHead {
      HeadLoopTurn(i);
      HeadStepConsistent(i);
      RunHeadStep(site, s);
      if FirstLine(s.unread) != [] {
        HeadStepTakesLine(i);
        RunHeadLoop(site, WithInput(s, HeadStep(i)));
      }
    }
  }

  lemma {:induction false} RunLineStep(site: Site, s: Session)
    requires s.end != Crashed && s.context.Consistent()
    ensures Run(site, s) == Run(site, WithInput(s, LineStep(site, InputOf(s))))
  {
  }

  lemma {:induction false} RunBodyStep(site: Site, s: Session)
    requires s.end != Crashed && s.context.Consistent() && !BodyThrows(InputOf(s))
    ensures Run(site, s) == Run(site, WithInput(s, BodyStep(InputOf(s))))
  {
  }

  /** One call of the parser is a stretch of the run. */
  lemma {:induction false} RunRecvRequest(site: Site, s: Session)
    requires s.end != Crashed && s.context.Consistent()
    ensures var i := RecvRequest(site, InputOf(s));
      i.context.Consistent()
      && Run(site, s) == Run(site, if BodyThrows(i) then WithInput(s, i).(end := Crashed) else WithInput(s, i))
  {
    var s1 := WithInput(s, LineStep(site, InputOf(s)));
    var s2 := WithInput(s1, HeadLoop(InputOf(s1)));
    RunLineStep(site, s);
    LineStepConsistent(site, InputOf(s));
    RunHeadLoop(site, s1);
    HeadLoopConsistent(InputOf(s1));
    BodyStepConsistent(InputOf(s2));
    if BodyThrows(InputOf(s2)) {
      assert Step(site, s2) == s2.(end := Crashed);
    } else {
      RunBodyStep(site, s2);
    }
  }

  lemma {:induction false} HeadLoopStops(i: Input)
    requires i.context.Consistent()
    ensures var j := HeadLoop(i);
      && (j.context.recvStatu == RecvHead ==> AwaitsLine(j.unread))
      && (i.context.recvStatu != RecvHead ==> j == i)
      && (i.context.recvStatu == RecvHead ==>
            j.context.recvStatu != RecvLine && j.context.request.body == [] && !j.context.asyncPending)
    decreases |i.unread|
  {
    if i.context.recvStatu == RecvHead {
      HeadLoopTurn(i);
      HeadStepConsistent(i);
      if FirstLine(i.unread) != [] {
        HeadLoopStops(HeadStep(i));
      }
    }
  }

  lemma {:induction false} LineStepStops(site: Site, i: Input)
    requires Resting(i.context) && !i.context.asyncPending
    ensures var j := LineStep(site, i);
      && (j.context.recvStatu == RecvLine ==> AwaitsLine(j.unread))
      && (j.context.recvStatu == RecvBody ==> j == i)
      && j.context.recvStatu != RecvOver && !j.context.asyncPending
  {
  }

  lemma {:induction false} BodyStepStops(i: Input)
    requires i.context.Consistent() && i.context.recvStatu == RecvBody && !BodyThrows(i)
    requires i.context.request.body == []
          || |i.context.request.body| < ContentLength(i.context.request.headers).value
    ensures var j := BodyStep(i);
      !j.context.asyncPending && !BodyThrows(j)
      && (j.context.recvStatu == RecvOver
          || (j.context.recvStatu == RecvBody && Resting(j.context) && j.unread == [] && AwaitsBody(j.context)))
  {
  }

  /** After the parser has returned, a request that is neither failed nor complete needs more bytes. */
  ghost predicate Stops(j: Input) {
    && j.context.Consistent() && !j.context.asyncPending
    && (|| BodyThrows(j)
        || j.context.recvStatu == RecvError
        || j.context.recvStatu == RecvOver
        || (Resting(j.context) && Stuck(Session(j.context, j.unread, [], Open))))
  }

  lemma {:induction false} BodyStageStops(i: Input)
    requires i.context.Consistent() && !i.context.asyncPending
    requires i.context.recvStatu == RecvLine || i.context.recvStatu == RecvHead ==> AwaitsLine(i.unread)
    requires i.context.recvStatu == RecvBody && !BodyThrows(i) ==>
      i.context.request.body == []
      || |i.context.request.body| < ContentLength(i.context.request.headers).value
    ensures Stops(BodyStep(i))
  {
    BodyStepConsistent(i);
    if i.context.recvStatu == RecvBody && !BodyThrows(i) {
      BodyStepStops(i);
    }
  }

  lemma {:induction false} HeadStageStops(i: Input)
    requires i.context.Consistent() && !i.context.asyncPending && i.context.recvStatu != RecvOver
    requires i.context.recvStatu == RecvLine ==> AwaitsLine(i.unread)
    requires i.context.recvStatu == RecvBody ==>
      !BodyThrows(i) && |i.context.request.body| < ContentLength(i.context.request.headers).value
    ensures Stops(BodyStep(HeadLoop(i)))
  {
    HeadLoopStops(i);
    HeadLoopConsistent(i);
    BodyStageStops(HeadLoop(i));
  }

  lemma {:induction false} RecvRequestStops(site: Site, i: Input)
    requires Resting(i.context) && !i.context.asyncPending
    ensures Stops(RecvRequest(site, i))
  {
    LineStepConsistent(site, i);
    LineStepStops(site, i);
    HeadStageStops(LineStep(site, i));
  }

  lemma {:induction false} HeadLoopShrinks(i: Input)
    ensures var j := HeadLoop(i);
      |j.unread| <= |i.unread|
      && (i.context.recvStatu == RecvHead && j.context.recvStatu != RecvHead && j.context.recvStatu != RecvError
          ==> |j.unread| < |i.unread|)
    decreases |i.unread|
  {
    if i.context.recvStatu == RecvHead {
      HeadLoopTurn(i);
      if FirstLine(i.unread) != [] {
        HeadStepTakesLine(i);
        HeadLoopShrinks(HeadStep(i));
      }
    }
  }

  lemma {:induction false} BodyStepShrinks(i: Input)
    ensures |BodyStep(i).unread| <= |i.unread|
    ensures Resting(i.context) && i.context.recvStatu == RecvBody && BodyStep(i).context.recvStatu == RecvOver
        ==> |BodyStep(i).unread| < |i.unread|
  {
  }

  /** A call of the parser that completes a request has consumed at least one byte. */
  lemma {:induction false} CompletionConsumes(site: Site, i: Input)
    requires Resting(i.context) && !i.context.asyncPending
    ensures RecvRequest(site, i).context.recvStatu == RecvOver
        ==> |RecvRequest(site, i).unread| < |i.unread|
  {
    LineStepStops(site, i);
    CompletionConsumesAfterLine(i, LineStep(site, i));
  }

  lemma {:induction false} CompletionConsumesAfterLine(i: Input, i1: Input)
    requires Resting(i.context) && i1.context.recvStatu != RecvOver
    requires |i1.unread| <= |i.unread|
    requires i1.context.recvStatu == RecvBody ==> i1 == i
    ensures BodyStep(HeadLoop(i1)).context.recvStatu == RecvOver ==> |BodyStep(HeadLoop(i1)).unread| < |i.unread|
  {
    HeadLoopShrinks(i1);
    BodyStepShrinks(HeadLoop(i1));
  }

  // ---- what calls the message callback ----

  /** The connection calls it exactly when there is input. */
  function Called(site: Site, s: Session): Session {
    if s.unread == [] then s else Run(site, s)
  }

  function Delivered(s: Session, bytes: string): Session {
    s.(unread := s.unread + bytes)
  }

  /** ShutdownInLoop: only the first call does anything, and the remaining input is processed once
      more, with the answers lost. */
  function HalfClosed(site: Site, s: Session): Session {
    if s.end != Open then s else Called(site, s.(end := Closing))
  }

  /** The end of a deferred answer, back on the loop's thread. */
  function Finished(site: Site, s: Session, wire: Wire, close: bool): Session {
    var t := Session(EmptyContext(), s.unread, s.log + [Reported(s.end, wire)], s.end);
    if close then HalfClosed(site, t) else t
  }

  // ---- the message callback ----

  /** The connection as the callback sees it. */
  class Peer {
    const context: HttpContext
    var log: seq<Event>
    var end: End

    constructor ()
      ensures log == [] && end == Open && fresh(context) && context.View() == EmptyContext()
    {
      context := new HttpContext();
      log, end := [], Open;
    }

    ghost function Snapshot(buf: Buffer): Session
      requires buf.Valid()
      reads this, context, buf, buf.data
    {
      Session(context.View(), buf.Contents(), log, end)
    }

    method Send(wire: Wire)
      modifies this`log
      ensures log == old(log) + [Reported(end, wire)]
    {
      log := log + [Reported(end, wire)];
    }

    method ShutdownIf(close: bool, to: End)
      modifies this`end
      ensures end == if close then to else old(end)
    {
      if close {
        end := to;
      }
    }

    /** The branch of the callback for a failed request. */
    method RefuseRequest(site: Site, buf: Buffer)
      requires buf.Valid()
      modifies this, context, buf`readIdx
      ensures buf.Valid() && Snapshot(buf) == Refuse(site, old(Snapshot(buf)))
    {
      Send(WriteResponse(context.request, ErrorResponse(site, context.respStatu)));
      context.ReSet();
      var rest := buf.ReadableBytes();
      buf.MoveReadoffset(rest);
      ShutdownIf(true, Shut);
    }

    /** The end of the loop body: routes a complete request.  IsClose is asked about the request
        that ReSet has just emptied, so the shutdown behind it is never reached. */
    method AnswerRequest(site: Site, buf: Buffer) returns (again: bool)
      requires buf.Valid() && end != Crashed
      modifies this, context
      ensures buf.Valid() && Snapshot(buf) == Answer(site, old(Snapshot(buf)))
      ensures again <==> site.route(old(context.request), |RoutedIn(old(log))|).Respond?
    {
      var reply := site.route(context.request, |RoutedIn(log)|);
      log := log + [Routed(context.request)];
      if reply.Defer? {
        context.asyncPending := true;
        return false;
      }
      Send(WriteResponse(context.request, reply.response));
      context.ReSet();
      ShutdownIf(IsClose(context.request), Closing);
      again := true;
    }

    /** One turn of the loop; `again` when it does not return. */
    method MessageTurn(site: Site, buf: Buffer) returns (again: bool)
      requires buf.Valid() && SessionResting(Snapshot(buf))
      modifies this, context, buf`readIdx
      ensures buf.Valid() && Run(site, Snapshot(buf)) == Run(site, old(Snapshot(buf)))
      ensures end != Crashed ==> SessionResting(Snapshot(buf))
      ensures again ==> end != Crashed && |buf.Contents()| < old(|buf.Contents()|)
      ensures !again ==> Stuck(Snapshot(buf))
    {
      if context.asyncPending {
        return false;
      }
      ghost var i := InputOf(Snapshot(buf));
      RunRecvRequest(site, Snapshot(buf));
      RecvRequestStops(site, i);
      CompletionConsumes(site, i);
      var threw := context.RecvHttpRequest(site, buf);
      if threw {
        end := Crashed;
        return false;
      }
      if context.respStatu >= 400 {
        RefuseRequest(site, buf);
        return false;
      }
      if context.recvStatu != RecvOver {
        return false;
      }
      again := AnswerRequest(site, buf);
    }

    /** Consumes the input buffer request by request.  Each turn of the loop that does not return
        shrinks the unread bytes, and the whole call is one run of the small-step server. */
    method OnMessage(site: Site, buf: Buffer)
      requires buf.Valid() && SessionResting(Snapshot(buf))
      modifies this, context, buf`readIdx
      ensures buf.Valid() && Snapshot(buf) == Run(site, old(Snapshot(buf)))
      ensures end != Crashed ==> SessionResting(Snapshot(buf))
    {
      var again := true;
      var readable := buf.ReadableBytes();
      ghost var goal := Run(site, Snapshot(buf));
      while again && readable > 0
        invariant buf.Valid() && readable == |buf.Contents()|
        invariant Run(site, Snapshot(buf)) == goal
        invariant end != Crashed ==> SessionResting(Snapshot(buf))
        invariant if again then end != Crashed else Stuck(Snapshot(buf))
        decreases if again then readable + 1 else 0
      {
        again := MessageTurn(site, buf);
        readable := buf.ReadableBytes();
      }
      if again {
        RestingIsStuck(Snapshot(buf));
      }
    }

    /** `if (_in_buffer.ReadableBytes() > 0) _message_cb(...)` */
    method Call(site: Site, buf: Buffer)
      requires buf.Valid() && SessionResting(Snapshot(buf))
      modifies this, context, buf`readIdx
      ensures buf.Valid() && Snapshot(buf) == Called(site, old(Snapshot(buf)))
      ensures end != Crashed ==> SessionResting(Snapshot(buf))
    {
      var readable := buf.ReadableBytes();
      if readable > 0 {
        OnMessage(site, buf);
      }
    }

    /** A read that was successful, whether the connection is open or half closed. */
    method HandleRead(site: Site, buf: Buffer, bytes: string)
      requires buf.Valid() && SessionResting(Snapshot(buf))
      modifies this, context, buf, buf.data
      ensures buf.Valid() && (buf.data == old(buf.data) || fresh(buf.data))
      ensures Snapshot(buf) == Called(site, Delivered(old(Snapshot(buf)), bytes))
      ensures end != Crashed ==> SessionResting(Snapshot(buf))
    {
      ghost var before := Snapshot(buf);
      buf.WriteAndpush(bytes);
      assert Snapshot(buf) == Delivered(before, bytes);
      Call(site, buf);
    }

    method Shutdown(site: Site, buf: Buffer)
      requires buf.Valid() && SessionResting(Snapshot(buf))
      modifies this, context, buf`readIdx
      ensures buf.Valid() && Snapshot(buf) == HalfClosed(site, old(Snapshot(buf)))
      ensures end != Crashed ==> SessionResting(Snapshot(buf))
    {
      if end == Open {
        end := Closing;
        Call(site, buf);
      }
    }

    /** The answer of a deferring handler: sent or lost, then the parser is reset, and the connection
        shut down if the routed request had asked for it. */
    method CompleteAnswer(site: Site, buf: Buffer, wire: Wire, close: bool)
      requires buf.Valid() && end != Crashed && context.asyncPending
      modifies this, context, buf`readIdx
      ensures buf.Valid() && Snapshot(buf) == Finished(site, old(Snapshot(buf)), wire, close)
      ensures end != Crashed ==> SessionResting(Snapshot(buf))
    {
      Send(wire);
      context.ReSet();
      if close {
        Shutdown(site, buf);
      }
    }
  }
}
