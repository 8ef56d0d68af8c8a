/** When the HTTP server closes a connection. */
module HttpSafety {
  import opened Wrappers
  import opened Text
  import opened UrlCodec
  import opened Buffers
  import opened Http
  import opened HttpParser
  import opened HttpServer
  import opened HttpStream
  import opened HttpPipeline

  // ---- closing ----

  /** A step half-closes an open connection exactly when it answers a failed request. */
  lemma ShutsOnlyOnFailure(site: Site, s: Session)
    requires !Stuck(s) && s.end == Open
    ensures Step(site, s).end == Shut <==> s.context.recvStatu == RecvError
    ensures Step(site, s).end != Closing
  {
  }

  ghost predicate FailsProperly(c: Context) {
    c.Consistent() && (c.recvStatu == RecvError ==> c.respStatu == 400 || c.respStatu == 414)
  }

  lemma StepFailsProperly(site: Site, s: Session)
    requires !Stuck(s) && FailsProperly(s.context)
    ensures FailsProperly(Step(site, s).context)
  {
    LineStepConsistent(site, InputOf(s));
    HeadStepConsistent(InputOf(s));
    BodyStepConsistent(InputOf(s));
  }

  /** Nothing is left and the last thing sent is an error page. */
  ghost predicate Refused(r: Session) {
    && r.unread == [] && r.context == EmptyContext()
    && r.log != [] && r.log[|r.log| - 1].Sent? && r.log[|r.log| - 1].wire.statu in {400, 414}
  }

  /** A run that shuts the connection has just sent a 400 or a 414, and has dropped the rest. */
  lemma {:induction false} ShutMeansRefused(site: Site, s: Session)
    requires s.end == Open && FailsProperly(s.context)
    ensures Run(site, s).end == Shut ==> Refused(Run(site, s))
    decreases |s.unread|, Rank(s)
  {
    if !Stuck(s) {
      StepFailsProperly(site, s);
      StepDescends(site, s);
      ShutsOnlyOnFailure(site, s);
      if Step(site, s).end == Open {
        ShutMeansRefused(site, Step(site, s));
      } else {
        StepStaysOpen(site, s);
        assert Run(site, Step(site, s)) == Step(site, s);
      }
    }
  }

  /** A line, of the request or of its headers, is refused as too long exactly when its newline is not
      among the first 8192 bytes. */
  lemma TooLongMeaning(site: Site, s: Session)
    requires !Stuck(s) && (s.context.recvStatu == RecvLine || s.context.recvStatu == RecvHead)
    requires s.context.respStatu != 414
    ensures var t := Step(site, s);
      t.context.recvStatu == RecvError && t.context.respStatu == 414 <==> IndexOf(s.unread, '\n') >= 8192
  {
  }

  /** Otherwise a request line is bad exactly if the pattern does not match or a piece of its query has
      no '=', and a header line exactly if it is not blank and has no ": "; both are answered 400. */
  lemma BadMeaning(site: Site, s: Session)
    requires !Stuck(s) && (s.context.recvStatu == RecvLine || s.context.recvStatu == RecvHead)
    requires IndexOf(s.unread, '\n') < 8192
    ensures var t, line := Step(site, s), FirstLine(s.unread);
      && (t.context.recvStatu == RecvError ==> t.context.respStatu == 400)
      && t.unread == s.unread[|line|..]
      && (s.context.recvStatu == RecvLine ==>
            (t.context.recvStatu == RecvError <==>
               site.matchLine(line).None? || !ParseQuery(s.context.request.params, site.matchLine(line).value.query).0))
      && (s.context.recvStatu == RecvHead ==>
            (t.context.recvStatu == RecvError <==>
               line != "\n" && line != "\r\n" && Find(Chomp(line), ": ", 0).None?)
            && (t.context.recvStatu == RecvBody <==> line == "\n" || line == "\r\n"))
  {
  }

  /** The refusal says what went wrong, to an unreadable request line as an answer to HTTP/1.1 that
      announces to keep the connection, which is then shut. */
  lemma RefusalMeaning(site: Site, s: Session)
    requires !Stuck(s) && s.end == Open && s.context.recvStatu == RecvError
    ensures var t := Step(site, s);
      && |t.log| == |s.log| + 1 && t.log[|s.log|].Sent?
      && t.log[|s.log|].wire.statu == s.context.respStatu
      && (s.context.request.verb != "HEAD" ==> t.log[|s.log|].wire.body == site.errorPage(s.context.respStatu))
      && "Content-Type" in t.log[|s.log|].wire.headers && t.log[|s.log|].wire.headers["Content-Type"] == "text/html"
      && (s.context.request == EmptyRequest() ==>
            t.log[|s.log|].wire.version == "HTTP/1.1" && "Connection" in t.log[|s.log|].wire.headers
            && t.log[|s.log|].wire.headers["Connection"] == "keep-alive")
  {
  }

  /** A request that asks for `Connection: close` is told so in the answer when it is answered at
      once, but the connection stays open: IsClose is asked after the request was reset. */
  lemma CloseIsOnlyAdvertised(site: Site, m: Message)
    requires AnsweredAtOnce(site, m, 0) && IsClose(RequestOf(site, m))
    requires "Connection" !in site.route(RequestOf(site, m), 0).response.headers
    ensures var s := Feed(site, NewSession(), MessageText(m));
      s.end == Open && |s.log| == 2 && s.log[1].Sent? && "Connection" in s.log[1].wire.headers
      && s.log[1].wire.headers["Connection"] == "Close"
  {
    assert MessageText(m) + [] == MessageText(m) && [] + MessageText(m) == MessageText(m);
    MessageExchanged(site, m, [], []);
    var s := Session(EmptyContext(), [], [] + Answered(site, m, 0), Open);
    assert FirstLine([]) == [] && Stuck(s);
    assert s.log == Answered(site, m, 0);
  }

  /** The same on one concrete input: an HTTP/1.0 request without headers. */
  lemma CloseExample() returns (site: Site, m: Message)
    ensures m == Message("GET / HTTP/1.0\n", [], []) && site.matchLine(m.line).Some?
    ensures IsClose(RequestOf(site, m)) && Feed(site, NewSession(), MessageText(m)).end == Open
  {
    m := Message("GET / HTTP/1.0\n", [], []);
    site := Site(_ => Some(LineMatch("GET", "/", "", "HTTP/1.0")),
                 (_, _) => Respond(Response(200, map[], [], None)), _ => []);
    assert Pieces([], "&", 0) == [];
    assert WellFormed(site, m);
    CloseIsOnlyAdvertised(site, m);
  }
}
