/** What deferred answers, half-closing and hang-ups can do to the order of the requests. */
module HttpDeferral {
  import opened Wrappers
  import opened Text
  import opened UrlCodec
  import opened Buffers
  import opened Http
  import opened HttpParser
  import opened HttpServer
  import opened HttpStream
  import opened HttpPipeline

  /** What can happen to a connection: bytes are read; bytes are read because of a hang-up, although
      reading may be off; the stream ends or fails; the peer hangs up or a write fails; a deferred
      answer is completed; the connection is released, by whoever asked for it. */
  datatype Happening =
    | Read(bytes: string)
    | LastRead(bytes: string)
    | EndOfStream
    | HangUp
    | Finish(wire: Wire, close: bool)
    | Release

  /** Nothing is read or called any more. */
  predicate Over(s: Session) {
    s.end == Released || s.end == Crashed
  }

  function React(site: Site, s: Session, h: Happening): Session {
    match h
    case Read(bytes) => if s.end == Open then Feed(site, s, bytes) else s
    case LastRead(bytes) => if Over(s) then s else Called(site, Delivered(s, bytes))
    case EndOfStream => HalfClosed(site, s)
    case HangUp => if Over(s) then s else Called(site, s)
    case Finish(wire, close) =>
      if s.end != Crashed && s.context.asyncPending then Finished(site, s, wire, close) else s
    case Release => if s.end == Crashed then s else s.(end := Released)
  }

  function ReactAll(site: Site, hs: seq<Happening>): Session {
    if hs == [] then NewSession() else React(site, ReactAll(site, hs[..|hs| - 1]), hs[|hs| - 1])
  }

  /** The bytes that this happening adds to the input. */
  function Taken(s: Session, h: Happening): string {
    match h
    case Read(bytes) => if s.end == Open then bytes else []
    case LastRead(bytes) => if Over(s) then [] else bytes
    case _ => []
  }

  function BytesOf(site: Site, hs: seq<Happening>): string {
    if hs == [] then []
    else
      var before := hs[..|hs| - 1];
      BytesOf(site, before) + Taken(ReactAll(site, before), hs[|hs| - 1])
  }

  /** The requests routed since, when the log only grew. */
  function Since(log: seq<Event>, later: seq<Event>): seq<Request> {
    if |RoutedIn(log)| <= |RoutedIn(later)| then RoutedIn(later)[|RoutedIn(log)|..] else []
  }

  /** The requests that were routed after a failed request had shut the connection. */
  function Late(site: Site, hs: seq<Happening>): seq<Request> {
    if hs == [] then []
    else
      var before := hs[..|hs| - 1];
      Late(site, before)
      + (if ReactAll(site, before).end == Shut then Since(ReactAll(site, before).log, ReactAll(site, hs).log) else [])
  }

  // ---- the server that answers everything at once ----

  function Prompt(site: Site): Site {
    site.(route := (_, _) => Respond(Response(200, map[], [], None)))
  }

  /** What the prompt server makes of all these bytes at once. */
  function Whole(site: Site, bytes: string): Session {
    Feed(Prompt(site), NewSession(), bytes)
  }

  /** The pending request is forgotten, as ReSet does when its answer is sent. */
  function Resume(s: Session): Session {
    if s.context.asyncPending then s.(context := EmptyContext()) else s
  }

  /** Equal but for what was answered and whether the answers arrive. */
  ghost predicate Alike(s: Session, t: Session) {
    && s.context == t.context && s.unread == t.unread && RoutedIn(s.log) == RoutedIn(t.log)
    && (s.end == Crashed <==> t.end == Crashed) && (s.end == Shut <==> t.end == Shut)
  }

  lemma RoutedInPush(log: seq<Event>, e: Event)
    ensures RoutedIn(log + [e]) == RoutedIn(log) + (if e.Routed? then [e.request] else [])
  {
    assert (log + [e])[..|log|] == log;
  }

  lemma AnswerRouted(site: Site, s: Session)
    ensures RoutedIn(Answer(site, s).log) == RoutedIn(s.log) + [s.context.request]
  {
    var req := s.context.request;
    match site.route(req, |RoutedIn(s.log)|)
    case Defer => RoutedInPush(s.log, Routed(req));
    case Respond(resp) => RoutedInPair(s.log, req, Reported(s.end, WriteResponse(req, resp)));
  }

  lemma RoutedInPair(log: seq<Event>, req: Request, e: Event)
    requires !e.Routed?
    ensures RoutedIn(log + [Routed(req), e]) == RoutedIn(log) + [req]
  {
    RoutedInPush(log, Routed(req));
    RoutedInPush(log + [Routed(req)], e);
    assert log + [Routed(req), e] == log + [Routed(req)] + [e];
  }

  lemma RefuseRouted(site: Site, s: Session)
    ensures RoutedIn(Refuse(site, s).log) == RoutedIn(s.log)
  {
    RoutedInPush(s.log, Reported(s.end, WriteResponse(s.context.request, ErrorResponse(site, s.context.respStatu))));
  }

  /** A step adds at most one routed request. */
  lemma StepRouted(site: Site, s: Session)
    requires !Stuck(s)
    ensures RoutedIn(Step(site, s).log)
         == RoutedIn(s.log) + (if s.context.recvStatu == RecvOver then [s.context.request] else [])
  {
    match s.context.recvStatu
    case RecvOver => AnswerRouted(site, s);
    case RecvError => RefuseRouted(site, s);
    case _ =>
  }

  lemma {:induction false} RunRoutedGrows(site: Site, s: Session)
    ensures RoutedIn(s.log) <= RoutedIn(Run(site, s).log)
    decreases |s.unread|, Rank(s)
  {
    if !Stuck(s) {
      StepRouted(site, s);
      StepDescends(site, s);
      RunRoutedGrows(site, Step(site, s));
    }
  }

  lemma AlikeSteps(site: Site, s: Session, t: Session)
    requires Alike(s, t) && !Stuck(s)
    ensures !Stuck(t) && Alike(Step(site, s), Step(site, t))
  {
    if s.context.recvStatu == RecvOver {
      AnswerRouted(site, s);
      AnswerRouted(site, t);
    } else if s.context.recvStatu == RecvError {
      RefuseRouted(site, s);
      RefuseRouted(site, t);
    }
  }

  lemma {:induction false} AlikeRuns(site: Site, s: Session, t: Session)
    requires Alike(s, t)
    ensures Alike(Run(site, s), Run(site, t))
    decreases |s.unread|, Rank(s)
  {
    if !Stuck(s) {
      AlikeSteps(site, s, t);
      StepDescends(site, s);
      AlikeRuns(site, Step(site, s), Step(site, t));
    }
  }

  lemma PromptAnswer(site: Site, s: Session)
    requires s.end != Crashed && !s.context.asyncPending
    ensures Alike(Resume(Answer(site, s)), Answer(Prompt(site), s))
  {
    AnswerRouted(site, s);
    AnswerRouted(Prompt(site), s);
  }

  lemma PromptParse(site: Site, s: Session)
    requires !Stuck(s) && s.context.recvStatu != RecvOver
    ensures Step(site, s) == Step(Prompt(site), s) == Resume(Step(site, s))
  {
  }

  lemma PromptStep(site: Site, s: Session)
    requires !Stuck(s)
    ensures Alike(Resume(Step(site, s)), Step(Prompt(site), s))
  {
    if s.context.recvStatu == RecvOver {
      PromptAnswer(site, s);
    } else {
      PromptParse(site, s);
    }
  }

  /** Resuming a run of the deferring site, and running on, is running the prompt site. */
  lemma {:induction false} PromptRun(site: Site, s: Session)
    ensures Alike(Run(Prompt(site), Resume(Run(site, s))), Run(Prompt(site), Resume(s)))
    decreases |s.unread|, Rank(s)
  {
    if !Stuck(s) {
      var t := Step(site, s);
      StepDescends(site, s);
      PromptRun(site, t);
      PromptStep(site, s);
      AlikeRuns(Prompt(site), Resume(t), Step(Prompt(site), s));
    }
  }

  // ---- how far the real server is ----

  lemma AlikeArrive(s: Session, t: Session, bytes: string)
    requires Alike(s, t) && s.end != Closing && s.end != Released && t.end != Closing && t.end != Released
    ensures Alike(Arrive(s, bytes), Arrive(t, bytes))
  {
  }

  /** Bytes that are read by a server that has to catch up, and by one that is done. */
  lemma ReadKeeps(site: Site, s: Session, all: string, bytes: string)
    requires s.end == Open || s.end == Closing
    requires Alike(Run(Prompt(site), Resume(s)), Whole(site, all))
    ensures Alike(Run(Prompt(site), Resume(Delivered(s, bytes))), Whole(site, all + bytes))
  {
    var prompt := Prompt(site);
    var r := Resume(s).(end := Open);
    AlikeRuns(prompt, Resume(s), r);
    AlikeRuns(prompt, Resume(Delivered(s, bytes)), Arrive(r, bytes));
    RunAppend(prompt, r, bytes);
    RunFromOpen(prompt, r);
    RunFromOpen(prompt, Arrive(NewSession(), all));
    AlikeArrive(Run(prompt, r), Whole(site, all), bytes);
    AlikeRuns(prompt, Arrive(Run(prompt, r), bytes), Arrive(Whole(site, all), bytes));
    FeedTwice(prompt, NewSession(), all, bytes);
  }

  /** A run of an open connection half-closes it only by refusing a request, which leaves a fresh
      parser and no input. */
  lemma {:induction false} RunFromOpen(site: Site, s: Session)
    requires s.end == Open || s.end == Closing
    ensures var r := Run(site, s);
      && (r.end == Closing ==> s.end == Closing) && (r.end == Open ==> s.end == Open) && r.end != Released
      && (r.end == Shut ==> r.context == EmptyContext() && r.unread == [])
    decreases |s.unread|, Rank(s)
  {
    if !Stuck(s) {
      StepDescends(site, s);
      var t := Step(site, s);
      if t.end == Open || t.end == Closing {
        RunFromOpen(site, t);
      } else if s.context.recvStatu == RecvError {
        RefusedIsStuck(site, s);
      }
    }
  }

  lemma {:induction false} ClosedStaysClosed(site: Site, s: Session)
    requires s.end == Shut
    ensures Run(site, s).end == Shut || Run(site, s).end == Crashed
    decreases |s.unread|, Rank(s)
  {
    if !Stuck(s) {
      StepDescends(site, s);
      if Step(site, s).end == Shut {
        ClosedStaysClosed(site, Step(site, s));
      }
    }
  }

  /** Behind the prompt server, which has seen the same bytes, by the requests that are still to come;
      or, once a failed request has shut the connection, ahead of it by the late ones. */
  ghost predicate Follows(site: Site, s: Session, whole: Session, late: seq<Request>) {
    && (s.end == Open || s.end == Closing ==> late == [] && Alike(Run(Prompt(site), Resume(s)), whole))
    && (s.end == Shut ==> whole.end == Shut)
    && (s.end == Shut || late != [] ==> whole.end == Shut && RoutedIn(s.log) == RoutedIn(whole.log) + late)
    && (late == [] ==> RoutedIn(s.log) <= RoutedIn(whole.log))
  }

  lemma ResumeKeeps(site: Site, s: Session, whole: Session)
    requires (s.end == Open || s.end == Closing) && Alike(Run(Prompt(site), Resume(s)), whole)
    ensures Follows(site, s, whole, [])
  {
    RunRoutedGrows(Prompt(site), Resume(s));
  }

  /** The message callback runs on an input that the prompt server has seen as well. */
  lemma CallKeeps(site: Site, u: Session, whole: Session)
    requires (u.end == Open || u.end == Closing) && Alike(Run(Prompt(site), Resume(u)), whole)
    ensures Follows(site, Run(site, u), whole, [])
  {
    var s := Run(site, u);
    PromptRun(site, u);
    RunFromOpen(site, u);
    RunRoutedGrows(Prompt(site), Resume(s));
    if s.end == Shut {
      assert FirstLine([]) == [] && Stuck(s) && Resume(s) == s;
      assert RoutedIn(whole.log) + [] == RoutedIn(whole.log);
    }
  }

  lemma CalledKeeps(site: Site, u: Session, whole: Session)
    requires (u.end == Open || u.end == Closing) && Alike(Run(Prompt(site), Resume(u)), whole)
    ensures Follows(site, Called(site, u), whole, [])
  {
    CallKeeps(site, u, whole);
    ResumeKeeps(site, u, whole);
  }

  /** While the connection is not shut by a failed request. */
  lemma LiveKeeps(site: Site, s: Session, all: string, h: Happening)
    requires (s.end == Open || s.end == Closing) && Follows(site, s, Whole(site, all), [])
    ensures Follows(site, React(site, s, h), Whole(site, all + Taken(s, h)), [])
  {
    assert all + [] == all;
    match h
    case Read(bytes) =>
      if s.end == Open {
        ReadKeeps(site, s, all, bytes);
        CallKeeps(site, Arrive(s, bytes), Whole(site, all + bytes));
      }
    case LastRead(bytes) =>
      ReadKeeps(site, s, all, bytes);
      CalledKeeps(site, Delivered(s, bytes), Whole(site, all + bytes));
    case EndOfStream => HalfClosedKeeps(site, s, Whole(site, all));
    case HangUp => CalledKeeps(site, s, Whole(site, all));
    case Finish(wire, close) =>
      if s.context.asyncPending {
        FinishedKeeps(site, s, wire, close, Whole(site, all));
      }
    case Release =>
  }

  lemma HalfClosedKeeps(site: Site, s: Session, whole: Session)
    requires (s.end == Open || s.end == Closing) && Alike(Run(Prompt(site), Resume(s)), whole)
    ensures Follows(site, HalfClosed(site, s), whole, [])
  {
    if s.end == Open {
      var t := s.(end := Closing);
      AlikeRuns(Prompt(site), Resume(s), Resume(t));
      CalledKeeps(site, t, whole);
    } else {
      ResumeKeeps(site, s, whole);
    }
  }

  lemma FinishedKeeps(site: Site, s: Session, wire: Wire, close: bool, whole: Session)
    requires (s.end == Open || s.end == Closing) && s.context.asyncPending
    requires Alike(Run(Prompt(site), Resume(s)), whole)
    ensures Follows(site, Finished(site, s, wire, close), whole, [])
  {
    var t := Session(EmptyContext(), s.unread, s.log + [Reported(s.end, wire)], s.end);
    RoutedInPush(s.log, Reported(s.end, wire));
    AlikeRuns(Prompt(site), Resume(s), t);
    if close {
      HalfClosedKeeps(site, t, whole);
    } else {
      ResumeKeeps(site, t, whole);
    }
  }

  lemma CalledGrows(site: Site, s: Session)
    ensures RoutedIn(s.log) <= RoutedIn(Called(site, s).log)
    ensures s.end == Shut ==> Called(site, s).end == Shut || Called(site, s).end == Crashed
  {
    RunRoutedGrows(site, s);
    if s.end == Shut {
      ClosedStaysClosed(site, s);
    }
  }

  /** After a failed request whatever is routed is late. */
  lemma ShutReacts(site: Site, s: Session, h: Happening)
    requires s.end == Shut || Over(s)
    ensures RoutedIn(s.log) <= RoutedIn(React(site, s, h).log)
    ensures React(site, s, h).end == Shut || Over(React(site, s, h))
    ensures Over(s) ==> RoutedIn(React(site, s, h).log) == RoutedIn(s.log) && Over(React(site, s, h))
  {
    match h
    case Read(bytes) =>
    case LastRead(bytes) => CalledGrows(site, Delivered(s, bytes));
    case EndOfStream =>
    case HangUp => CalledGrows(site, s);
    case Finish(wire, close) => RoutedInPush(s.log, Reported(s.end, wire));
    case Release =>
  }

  /** Once the prompt server has refused a request it takes no further bytes. */
  lemma WholeIsOver(site: Site, all: string, bytes: string)
    requires Whole(site, all).end == Shut
    ensures Whole(site, all + bytes) == Whole(site, all)
  {
    FeedTwice(Prompt(site), NewSession(), all, bytes);
  }

  lemma WholeGrows(site: Site, all: string, bytes: string)
    ensures RoutedIn(Whole(site, all).log) <= RoutedIn(Whole(site, all + bytes).log)
  {
    FeedTwice(Prompt(site), NewSession(), all, bytes);
    RunRoutedGrows(Prompt(site), Arrive(Whole(site, all), bytes));
  }

  lemma LateGrows(whole: seq<Request>, late: seq<Request>, before: seq<Request>, after: seq<Request>, more: seq<Request>)
    requires before == whole + late && before <= after && more == after[|before|..]
    ensures after == whole + (late + more)
  {
  }

  lemma OverKeeps(site: Site, s: Session, all: string, late: seq<Request>, h: Happening)
    requires (s.end == Shut || Over(s)) && Follows(site, s, Whole(site, all), late)
    ensures var t := React(site, s, h);
      Follows(site, t, Whole(site, all + Taken(s, h)),
              late + (if s.end == Shut then Since(s.log, t.log) else []))
  {
    var t := React(site, s, h);
    ShutReacts(site, s, h);
    assert late + [] == late;
    if s.end == Shut || late != [] {
      WholeIsOver(site, all, Taken(s, h));
      var more := if s.end == Shut then Since(s.log, t.log) else [];
      assert more == RoutedIn(t.log)[|RoutedIn(s.log)|..];
      LateGrows(RoutedIn(Whole(site, all).log), late, RoutedIn(s.log), RoutedIn(t.log), more);
    } else {
      WholeGrows(site, all, Taken(s, h));
    }
  }

  lemma {:induction false} AlwaysFollows(site: Site, hs: seq<Happening>)
    ensures Follows(site, ReactAll(site, hs), Whole(site, BytesOf(site, hs)), Late(site, hs))
  {
    if hs == [] {
      assert FirstLine([]) == [] && Arrive(NewSession(), []) == NewSession();
    } else {
      var before, h := hs[..|hs| - 1], hs[|hs| - 1];
      AlwaysFollows(site, before);
      var s := ReactAll(site, before);
      if s.end == Open || s.end == Closing {
        LiveKeeps(site, s, BytesOf(site, before), h);
        assert Late(site, hs) == [];
      } else {
        OverKeeps(site, s, BytesOf(site, before), Late(site, before), h);
      }
    }
  }

  // ---- which bytes are routed late ----

  /** The next call of the parser completes a request: the guard of the routing branch. */
  predicate Completes(site: Site, s: Session) {
    && !s.context.asyncPending && s.unread != []
    && RecvRequest(site, InputOf(s)).context.recvStatu == RecvOver
  }

  /** A hang-up read after a refused request, whose bytes complete a request all the same. */
  predicate Overtakes(site: Site, hs: seq<Happening>, k: nat)
    requires k < |hs|
  {
    var s := ReactAll(site, hs[..k]);
    hs[k].LastRead? && s.end == Shut && Completes(site, Delivered(s, hs[k].bytes))
  }

  /** One call of the parser, and what the callback makes of its outcome. */
  lemma ParserOutcome(site: Site, s: Session)
    requires SessionResting(s) && !s.context.asyncPending
    ensures var i := RecvRequest(site, InputOf(s)); var u := WithInput(s, i);
      && (i.context.recvStatu == RecvOver ==> !Stuck(u) && Run(site, s) == Run(site, Answer(site, u)))
      && (i.context.recvStatu == RecvError ==> Run(site, s) == Refuse(site, u))
      && (i.context.recvStatu != RecvOver && i.context.recvStatu != RecvError ==>
            Run(site, s) == if BodyThrows(i) then u.(end := Crashed) else u)
      && i.context.Consistent() && !i.context.asyncPending && (i.context.recvStatu == RecvOver ==> |i.unread| < |s.unread|)
      && (i.context.recvStatu != RecvOver && i.context.recvStatu != RecvError ==> BodyThrows(i) || Resting(i.context))
  {
    var i := RecvRequest(site, InputOf(s));
    var u := WithInput(s, i);
    RunRecvRequest(site, s);
    RecvRequestStops(site, InputOf(s));
    CompletionConsumes(site, InputOf(s));
    if i.context.recvStatu == RecvOver {
      RunStep(site, u);
    } else if i.context.recvStatu == RecvError {
      FailedRun(site, u);
    }
  }

  lemma AnswerRests(site: Site, u: Session)
    requires u.end != Crashed && u.context.Consistent() && u.context.recvStatu == RecvOver && !u.context.asyncPending
    ensures SessionResting(Answer(site, u)) && Answer(site, u).unread == u.unread
  {
  }

  /** The message callback leaves the parser between two calls. */
  lemma {:induction false} RunRests(site: Site, s: Session)
    requires SessionResting(s)
    ensures Run(site, s).end != Crashed ==> SessionResting(Run(site, s))
    decreases |s.unread|
  {
    if !s.context.asyncPending {
      ParserOutcome(site, s);
      var u := WithInput(s, RecvRequest(site, InputOf(s)));
      if u.context.recvStatu == RecvOver {
        AnswerRests(site, u);
        RunRests(site, Answer(site, u));
      }
    }
  }

  lemma CalledRests(site: Site, s: Session)
    requires SessionResting(s)
    ensures Called(site, s).end != Crashed ==> SessionResting(Called(site, s))
  {
    RunRests(site, s);
  }

  lemma ReactRests(site: Site, s: Session, h: Happening)
    requires SessionResting(s)
    ensures React(site, s, h).end != Crashed ==> SessionResting(React(site, s, h))
  {
    match h
    case Read(bytes) => RunRests(site, Delivered(s, bytes));
    case LastRead(bytes) => CalledRests(site, Delivered(s, bytes));
    case EndOfStream => CalledRests(site, s.(end := Closing));
    case HangUp => CalledRests(site, s);
    case Finish(wire, close) =>
      var t := Session(EmptyContext(), s.unread, s.log + [Reported(s.end, wire)], s.end);
      CalledRests(site, t.(end := Closing));
    case Release =>
  }

  lemma {:induction false} AlwaysRests(site: Site, hs: seq<Happening>)
    ensures ReactAll(site, hs).end != Crashed ==> SessionResting(ReactAll(site, hs))
  {
    if hs != [] {
      var s := ReactAll(site, hs[..|hs| - 1]);
      AlwaysRests(site, hs[..|hs| - 1]);
      if s.end != Crashed {
        ReactRests(site, s, hs[|hs| - 1]);
      }
    }
  }

  /** The message callback routes something if and only if the first request of its input is complete. */
  lemma CallRoutes(site: Site, s: Session)
    requires SessionResting(s)
    ensures RoutedIn(Called(site, s).log) != RoutedIn(s.log) <==> Completes(site, s)
  {
    if s.unread != [] && !s.context.asyncPending {
      ParserOutcome(site, s);
      var u := WithInput(s, RecvRequest(site, InputOf(s)));
      if u.context.recvStatu == RecvOver {
        AnswerRouted(site, u);
        RunRoutedGrows(site, Answer(site, u));
      } else if u.context.recvStatu == RecvError {
        RefuseRouted(site, u);
      }
    }
  }

  /** A deferred request is kept, and nothing behind it is processed until its answer comes; one that is
      answered at once is forgotten, and the next one is parsed afresh. */
  lemma AnswerMeaning(site: Site, s: Session)
    requires s.end != Crashed && s.context.recvStatu == RecvOver && !s.context.asyncPending
    ensures var t, req := Answer(site, s), s.context.request;
      && t.unread == s.unread && t.end == s.end && s.log + [Routed(req)] <= t.log
      && match site.route(req, |RoutedIn(s.log)|)
         case Defer => t.context.request == req && Run(site, t) == t && |t.log| == |s.log| + 1
         case Respond(resp) =>
           t.context == EmptyContext()
           && t.log == s.log + [Routed(req)] + [if s.end == Open then Sent(WriteResponse(req, resp))
                                                else Lost(WriteResponse(req, resp))]
  {
  }

  /** A shutdown of an open connection processes the remaining input: it routes something exactly if that
      begins with a complete request, and nothing that it answers is sent. */
  lemma HalfClosedMeaning(site: Site, s: Session)
    requires SessionResting(s)
    ensures RoutedIn(HalfClosed(site, s).log) != RoutedIn(s.log) <==> s.end == Open && Completes(site, s)
    ensures s.end == Open ==> HalfClosed(site, s).end != Open
    ensures s.end != Open ==> HalfClosed(site, s) == s
  {
    if s.end == Open {
      var t := s.(end := Closing);
      CallRoutes(site, t);
      RunFromOpen(site, t);
    }
  }

  /** A deferred answer comes first, sent exactly if the connection is still open; then a closing one
      processes what is behind it. */
  lemma FinishedMeaning(site: Site, s: Session, wire: Wire, close: bool)
    requires SessionResting(s) && s.context.asyncPending
    ensures var t := Finished(site, s, wire, close);
      && |t.log| > |s.log| && t.log[..|s.log|] == s.log
      && t.log[|s.log|] == (if s.end == Open then Sent(wire) else Lost(wire))
      && (!close || s.end != Open ==> t.context == EmptyContext() && t.unread == s.unread && t.end == s.end)
      && (close && s.end == Open ==> t.end != Open)
  {
    var u := Session(EmptyContext(), s.unread, s.log + [Reported(s.end, wire)], s.end);
    HalfClosedMeaning(site, u);
    if close && s.end == Open {
      RunLogGrows(site, u.(end := Closing));
    }
  }

  lemma {:induction false} RunLogGrows(site: Site, s: Session)
    ensures s.log <= Run(site, s).log
    decreases |s.unread|, Rank(s)
  {
    if !Stuck(s) {
      StepDescends(site, s);
      RunLogGrows(site, Step(site, s));
    }
  }

  /** What each happening brings about on a connection that is not over: input is read exactly as far as it
      makes complete requests; the end of the stream half-closes; a deferred answer is sent; and a
      release ends everything. */
  lemma ReactMeaning(site: Site, s: Session, h: Happening)
    requires SessionResting(s)
    ensures var t, routed := React(site, s, h), RoutedIn(React(site, s, h).log) != RoutedIn(s.log);
      match h
      case Read(bytes) => routed <==> s.end == Open && Completes(site, Delivered(s, bytes))
      case LastRead(bytes) => routed <==> !Over(s) && Completes(site, Delivered(s, bytes))
      case EndOfStream => (routed <==> s.end == Open && Completes(site, s)) && t.end != Open
      case HangUp => routed <==> !Over(s) && Completes(site, s)
      case Finish(wire, _) =>
        s.context.asyncPending ==> |t.log| > |s.log| && t.log[|s.log|] == Reported(s.end, wire)
      case Release => t == s.(end := Released)
  {
    match h
    case Read(bytes) =>
      CallRoutes(site, Delivered(s, bytes));
      if s.end == Open && s.unread + bytes == [] {
        RestingIsStuck(s);
      }
    case LastRead(bytes) => CallRoutes(site, Delivered(s, bytes));
    case EndOfStream => HalfClosedMeaning(site, s);
    case HangUp => CallRoutes(site, s);
    case Finish(wire, close) =>
      if s.context.asyncPending {
        FinishedMeaning(site, s, wire, close);
      }
    case Release =>
  }

  /** A shut connection that waits for the rest of a request, if for anything. */
  predicate Waits(s: Session) {
    s.end == Shut ==> Stuck(s) && !s.context.asyncPending
  }

  lemma CallWaits(site: Site, s: Session)
    requires SessionResting(s) && !s.context.asyncPending && !Completes(site, s)
    ensures Waits(Called(site, s))
  {
    if s.unread == [] {
      RestingIsStuck(s);
    } else {
      ParserOutcome(site, s);
    }
  }

  /** As long as nothing was routed late, a shut connection routes something only by such a read. */
  lemma ShutStep(site: Site, s: Session, h: Happening)
    requires s.end == Shut && Waits(s) && SessionResting(s)
    ensures var t, late := React(site, s, h), h.LastRead? && Completes(site, Delivered(s, h.bytes));
      && (Since(s.log, t.log) != [] <==> late)
      && (!late ==> Waits(t))
  {
    ShutReacts(site, s, h);
    match h
    case LastRead(bytes) =>
      CallRoutes(site, Delivered(s, bytes));
      if !Completes(site, Delivered(s, bytes)) {
        CallWaits(site, Delivered(s, bytes));
      }
    case _ =>
  }

  lemma LiveWaits(site: Site, s: Session, h: Happening)
    requires s.end == Open || s.end == Closing || Over(s)
    ensures Waits(React(site, s, h))
  {
    assert FirstLine([]) == [];
    if s.end == Open || s.end == Closing {
      match h
      case Read(bytes) => RunFromOpen(site, Arrive(s, bytes));
      case LastRead(bytes) => RunFromOpen(site, Delivered(s, bytes));
      case EndOfStream => RunFromOpen(site, s.(end := Closing));
      case HangUp => RunFromOpen(site, s);
      case Finish(wire, close) =>
        RunFromOpen(site, Session(EmptyContext(), s.unread, s.log + [Reported(s.end, wire)], Closing));
      case Release =>
    }
  }

  ghost predicate InTime(site: Site, hs: seq<Happening>) {
    forall k :: 0 <= k < |hs| ==> !Overtakes(site, hs, k)
  }

  lemma InTimeSnoc(site: Site, hs: seq<Happening>)
    requires hs != []
    ensures InTime(site, hs) <==> InTime(site, hs[..|hs| - 1]) && !Overtakes(site, hs, |hs| - 1)
  {
    var before := hs[..|hs| - 1];
    forall k | 0 <= k < |before| ensures Overtakes(site, before, k) <==> Overtakes(site, hs, k) {
      assert before[..k] == hs[..k];
    }
  }

  /** Exactly these reads make a request late. */
  lemma {:induction false} LateMeaning(site: Site, hs: seq<Happening>)
    ensures Late(site, hs) == [] <==> InTime(site, hs)
    ensures Late(site, hs) == [] ==> Waits(ReactAll(site, hs))
  {
    if hs != [] {
      var before, h := hs[..|hs| - 1], hs[|hs| - 1];
      var s := ReactAll(site, before);
      LateMeaning(site, before);
      InTimeSnoc(site, hs);
      if s.end != Shut {
        LiveWaits(site, s, h);
      } else if Late(site, before) == [] {
        AlwaysRests(site, before);
        ShutStep(site, s, h);
      }
    }
  }

  /** Whatever the handlers answer or defer each time, whenever deferred answers are completed and
      whether they close, however the bytes are cut and the connection ends: the requests routed are
      the first requests of the bytes received if and only if no read that a hang-up causes after a
      refused request completes a request.  Otherwise the late requests follow behind all that were
      routed in order. */
  lemma RoutedInStreamOrder(site: Site, hs: seq<Happening>)
    ensures var routed, whole := RoutedIn(ReactAll(site, hs).log), RoutedIn(Whole(site, BytesOf(site, hs)).log);
      && (routed <= whole <==> forall k :: 0 <= k < |hs| ==> !Overtakes(site, hs, k))
      && (Late(site, hs) == [] <==> forall k :: 0 <= k < |hs| ==> !Overtakes(site, hs, k))
      && (Late(site, hs) != [] ==> routed == whole + Late(site, hs))
  {
    AlwaysFollows(site, hs);
    LateMeaning(site, hs);
  }

  /** Without reads after a refused request the order of the stream is kept. */
  lemma OnlyHangUpsAreLate(site: Site, hs: seq<Happening>)
    requires forall k :: 0 <= k < |hs| && hs[k].LastRead? ==> ReactAll(site, hs[..k]).end != Shut
    ensures Late(site, hs) == []
    ensures RoutedIn(ReactAll(site, hs).log) <= RoutedIn(Whole(site, BytesOf(site, hs)).log)
  {
    RoutedInStreamOrder(site, hs);
  }

  /** A site whose request pattern refuses an empty line. */
  function Picky(): Site {
    Site(line => if line == "\n" then None else Some(LineMatch("GET", "/", "", "HTTP/1.0")),
         (_, _) => Respond(Response(200, map[], [], None)), _ => [])
  }

  function GetRoot(): Message {
    Message("GET / HTTP/1.0\n", [], [])
  }

  lemma PickyAccepts()
    ensures Picky().matchLine("\n").None? && WellFormed(Picky(), GetRoot())
  {
    assert |GetRoot().line| == 15 && GetRoot().line[14] == '\n';
    assert Pieces([], "&", 0) == [];
  }

  /** Such bytes do arrive: a line that is no request, and behind it, with the hang-up, a request. */
  lemma LateExample() returns (site: Site, hs: seq<Happening>)
    ensures |hs| == 2 && hs[0] == Read("\n") && hs[1].LastRead? && Late(site, hs) != []
    ensures !(RoutedIn(ReactAll(site, hs).log) <= RoutedIn(Whole(site, BytesOf(site, hs)).log))
  {
    site, hs := Picky(), [Read("\n"), LastRead(MessageText(GetRoot()))];
    PickyAccepts();
    RefusedNewline(site);
    assert hs[..1] == [Read("\n")];
    MessageCompletes(site, ReactAll(site, hs[..1]), GetRoot());
    assert Overtakes(site, hs, 1);
    RoutedInStreamOrder(site, hs);
  }

  lemma NewlineFails(site: Site)
    requires site.matchLine("\n").None?
    ensures var s := Arrive(NewSession(), "\n");
      !Stuck(s) && Step(site, s).context.recvStatu == RecvError
      && Step(site, s).end == Open && !Step(site, s).context.asyncPending
  {
    assert Arrive(NewSession(), "\n").unread == "\n" && IndexOf("\n", '\n') == 0;
    assert FirstLine("\n") == "\n";
  }

  lemma FailedRun(site: Site, s: Session)
    requires s.end != Crashed && !s.context.asyncPending && s.context.recvStatu == RecvError
    ensures Run(site, s) == Refuse(site, s)
  {
    RunStep(site, s);
    RefusedIsStuck(site, s);
  }

  lemma FirstReact(site: Site, h: Happening)
    ensures ReactAll(site, [h]) == React(site, NewSession(), h)
  {
    assert [h][..0] == [];
  }

  lemma RefusedNewline(site: Site)
    requires site.matchLine("\n").None?
    ensures var s := ReactAll(site, [Read("\n")]); s.end == Shut && s.context == EmptyContext() && s.unread == []
  {
    var s := Arrive(NewSession(), "\n");
    FirstReact(site, Read("\n"));
    NewlineFails(site);
    RunStep(site, s);
    FailedRun(site, Step(site, s));
  }

  lemma MessageCompletes(site: Site, s: Session, m: Message)
    requires s.context == EmptyContext() && s.unread == [] && WellFormed(site, m)
    ensures Completes(site, Delivered(s, MessageText(m)))
  {
    assert [] + MessageText(m) == MessageText(m) && MessageText(m) + [] == MessageText(m);
    MessageParsed(site, m, []);
  }

  // ---- the objects react in the same way ----

  method ReactTo(site: Site, peer: Peer, buf: Buffer, h: Happening)
    requires buf.Valid() && SessionResting(peer.Snapshot(buf))
    modifies peer, peer.context, buf, buf.data
    ensures buf.Valid() && (buf.data == old(buf.data) || fresh(buf.data))
    ensures peer.Snapshot(buf) == React(site, old(peer.Snapshot(buf)), h)
    ensures peer.end != Crashed ==> SessionResting(peer.Snapshot(buf))
  {
    match h {
      case Read(bytes) =>
        if peer.end == Open {
          CalledIsRun(site, Delivered(peer.Snapshot(buf), bytes));
          peer.HandleRead(site, buf, bytes);
        }
      case LastRead(bytes) =>
        if peer.end != Released {
          peer.HandleRead(site, buf, bytes);
        }
      case EndOfStream => peer.Shutdown(site, buf);
      case HangUp =>
        if peer.end != Released {
          peer.Call(site, buf);
        }
      case Finish(wire, close) =>
        if peer.context.asyncPending {
          peer.CompleteAnswer(site, buf, wire, close);
        }
      case Release => peer.end := Released;
    }
  }

  /** The whole life of a connection on the real buffer, parser and loop, until an exception ends the
      process. */
  method Live(site: Site, hs: seq<Happening>) returns (peer: Peer, buf: Buffer, reacted: nat)
    ensures fresh(peer) && fresh(buf) && buf.Valid() && reacted <= |hs|
    ensures peer.Snapshot(buf) == ReactAll(site, hs[..reacted])
    ensures reacted < |hs| ==> peer.end == Crashed
  {
    peer := new Peer();
    buf := new Buffer();
    reacted := 0;
    while reacted < |hs| && peer.end != Crashed
      invariant fresh(peer) && fresh(peer.context) && fresh(buf) && fresh(buf.data)
      invariant reacted <= |hs| && buf.Valid() && peer.Snapshot(buf) == ReactAll(site, hs[..reacted])
      invariant peer.end != Crashed ==> SessionResting(peer.Snapshot(buf))
    {
      assert hs[..reacted + 1][..reacted] == hs[..reacted];
      ReactTo(site, peer, buf, hs[reacted]);
      reacted := reacted + 1;
    }
  }
}
