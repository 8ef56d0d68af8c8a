/** net/http/http.hpp: requests, responses and the values computed from them. */
module Http {
  import opened Wrappers
  import opened Text
  import opened Decimals
  import opened UrlCodec

  const TWO_TO_THE_64: nat := 0x1_0000_0000_0000_0000
  const LONG_LIMIT: nat := 0x8000_0000_0000_0000

  type Fields = map<string, string>

  datatype Request = Request(verb: string, path: string, version: string, body: string,
                             headers: Fields, params: Fields)

  datatype Response = Response(statu: int, headers: Fields, body: string, redirect: Option<string>)

  /** What is handed to Connection::Send, before serialisation. */
  datatype Wire = Wire(version: string, statu: int, headers: Fields, body: string)

  /** The capture groups of the request-line expression. */
  datatype LineMatch = LineMatch(verb: string, path: string, query: string, version: string)

  /** A handler answers at once or takes over the answer (`_deferred`). */
  datatype Reply = Respond(response: Response) | Defer

  /** The parts of the server that are opaque here: the request-line expression, what the handler of
      the n-th request of the connection does, and the text of an error page.  Because of n a handler
      may answer the same request differently each time, and defer it one time and not another. */
  datatype Site = Site(matchLine: string -> Option<LineMatch>, route: (Request, nat) -> Reply,
                       errorPage: int -> string)

  /** HttpRequest() and HttpRequest::ReSet leave the same request. */
  function EmptyRequest(): Request {
    Request("", "", "HTTP/1.1", "", map[], map[])
  }

  /** unordered_map::insert: an existing entry wins. */
  function Insert(m: Fields, key: string, val: string): (r: Fields)
    ensures r.Keys == m.Keys + {key}
    ensures forall k :: k in m ==> r[k] == m[k]
  {
    if key in m then m else m[key := val]
  }

  // ---- Content-Length ----

  predicate IsSpace(c: char) {
    c == ' ' || 9 <= c as int <= 13
  }

  function SkipSpaces(s: string): string {
    if s != [] && IsSpace(s[0]) then SkipSpaces(s[1..]) else s
  }

  function LeadingDigits(s: string): (d: string)
    ensures d <= s && forall c :: c in d ==> IsDecimal(c)
  {
    if s != [] && IsDecimal(s[0]) then [s[0]] + LeadingDigits(s[1..]) else []
  }

  /** A long out of its digits; None stands for the exceptions invalid_argument and out_of_range. */
  function LongOf(negative: bool, digits: string): Option<int>
    requires forall c :: c in digits ==> IsDecimal(c)
  {
    var v: int := if negative then 0 - DecimalValue(digits) else DecimalValue(digits);
    if digits == [] || !(0 - LONG_LIMIT <= v < LONG_LIMIT) then None else Some(v)
  }

  /** std::stol. */
  function Stol(s: string): Option<int> {
    var t := SkipSpaces(s);
    var signed := t != [] && (t[0] == '-' || t[0] == '+');
    LongOf(signed && t[0] == '-', LeadingDigits(if signed then t[1..] else t))
  }

  /** HttpRequest::ContentLength; the long is converted to size_t. */
  function ContentLength(headers: Fields): (n: Option<nat>)
    ensures n.Some? ==> n.value < TWO_TO_THE_64
  {
    if "Content-Length" !in headers then Some(0)
    else match Stol(headers["Content-Length"])
      case None => None
      case Some(v) => Some(if v < 0 then v + TWO_TO_THE_64 else v)
  }

  lemma {:induction false} SkipBlanks(blanks: string, s: string)
    requires forall c :: c in blanks ==> c == ' ' || c == '\t'
    requires s != "" && !IsSpace(s[0])
    ensures SkipSpaces(blanks + s) == s
  {
    if blanks == "" {
      assert blanks + s == s;
    } else {
      assert (blanks + s)[1..] == blanks[1..] + s && blanks[0] in blanks;
      assert forall c :: c in blanks[1..] ==> c in blanks;
      SkipBlanks(blanks[1..], s);
    }
  }

  lemma {:induction false} DigitsThenJunk(digits: string, junk: string)
    requires (forall c :: c in digits ==> IsDecimal(c)) && (junk == "" || !IsDecimal(junk[0]))
    ensures LeadingDigits(digits + junk) == digits
  {
    if digits == "" {
      assert digits + junk == junk;
    } else {
      assert (digits + junk)[1..] == digits[1..] + junk && digits[0] in digits;
      assert forall c :: c in digits[1..] ==> c in digits;
      DigitsThenJunk(digits[1..], junk);
      assert [digits[0]] + digits[1..] == digits;
    }
  }

  lemma LongReads(negative: bool, n: nat)
    ensures var v := if negative then 0 - n else n;
      LongOf(negative, Decimal(n)) == if 0 - LONG_LIMIT <= v < LONG_LIMIT then Some(v) else None
  {
    DecimalReads(n);
  }

  lemma UnsignedReads(blanks: string, digits: string, junk: string)
    requires (forall c :: c in blanks ==> c == ' ' || c == '\t') && (forall c :: c in digits ==> IsDecimal(c))
    requires digits != "" && (junk == "" || !IsDecimal(junk[0]))
    ensures Stol(blanks + (digits + junk)) == LongOf(false, digits)
  {
    assert digits[0] in digits;
    SkipBlanks(blanks, digits + junk);
    DigitsThenJunk(digits, junk);
  }

  lemma SignedReads(blanks: string, sign: char, digits: string, junk: string)
    requires (forall c :: c in blanks ==> c == ' ' || c == '\t') && (forall c :: c in digits ==> IsDecimal(c))
    requires (sign == '+' || sign == '-') && (junk == "" || !IsDecimal(junk[0]))
    ensures Stol(blanks + ([sign] + (digits + junk))) == LongOf(sign == '-', digits)
  {
    var t := [sign] + (digits + junk);
    SkipBlanks(blanks, t);
    assert t[1..] == digits + junk;
    DigitsThenJunk(digits, junk);
  }

  /** What std::stol reads: a decimal number behind blanks and a sign, whatever follows it; numbers
      that a long does not hold, and a missing number, make it throw. */
  lemma StolReads(blanks: string, n: nat, junk: string)
    requires forall c :: c in blanks ==> c == ' ' || c == '\t'
    requires junk == "" || !IsDecimal(junk[0])
    ensures Stol(blanks + (Decimal(n) + junk)) == if n < LONG_LIMIT then Some(n) else None
    ensures Stol(blanks + ("+" + (Decimal(n) + junk))) == if n < LONG_LIMIT then Some(n) else None
    ensures Stol(blanks + ("-" + (Decimal(n) + junk))) == if n <= LONG_LIMIT then Some(0 - n) else None
    ensures Stol(blanks + ("-" + ("" + junk))) == Stol(blanks + ("+" + ("" + junk))) == None
  {
    LongReads(false, n);
    LongReads(true, n);
    UnsignedReads(blanks, Decimal(n), junk);
    SignedReads(blanks, '+', Decimal(n), junk);
    SignedReads(blanks, '-', Decimal(n), junk);
    SignedReads(blanks, '+', "", junk);
    SignedReads(blanks, '-', "", junk);
  }

  lemma NothingAround(s: string)
    ensures s + "" == s && "" + s == s
  {
  }

  lemma NumberReads(n: nat)
    requires n < LONG_LIMIT
    ensures Stol(Decimal(n)) == Some(n) && Stol("-" + Decimal(n)) == Some(0 - n)
  {
    var d := Decimal(n);
    LongReads(false, n);
    LongReads(true, n);
    NothingAround(d);
    NothingAround("-" + d);
    UnsignedReads("", d, "");
    SignedReads("", '-', d, "");
  }

  /** A length that fits a long is read as it was written; without the header there is no body, and a
      negative length wraps around. */
  lemma ContentLengthReads(headers: Fields, n: nat)
    requires n < LONG_LIMIT
    ensures "Content-Length" !in headers ==> ContentLength(headers) == Some(0)
    ensures "Content-Length" in headers && headers["Content-Length"] == Decimal(n) ==> ContentLength(headers) == Some(n)
    ensures n > 0 && "Content-Length" in headers && headers["Content-Length"] == "-" + Decimal(n) ==>
      ContentLength(headers) == Some(TWO_TO_THE_64 - n)
    ensures ContentLength(headers) == None <==> "Content-Length" in headers && Stol(headers["Content-Length"]) == None
  {
    NumberReads(n);
  }

  // ---- keep-alive ----

  function ToLower(s: string): string {
    seq(|s|, i requires 0 <= i < |s| =>
      if 'A' <= s[i] <= 'Z' then (s[i] as int + 32) as char else s[i])
  }

  function ToUpper(s: string): string {
    seq(|s|, i requires 0 <= i < |s| =>
      if 'a' <= s[i] <= 'z' then (s[i] as int - 32) as char else s[i])
  }

  /** HttpRequest::IsClose. */
  predicate IsClose(req: Request) {
    var option := if "Connection" in req.headers then ToLower(req.headers["Connection"]) else "";
    if req.version == "HTTP/1.1" || req.version == "HTTP/1.0" then
      option == "close" || (option != "keep-alive" && req.version != "HTTP/1.1")
    else
      option != "keep-alive"
  }

  // ---- responses ----

  function Advertised(close: bool): string {
    if close then "Close" else "keep-alive"
  }

  /** HttpServer::WriteResponse. */
  function WriteResponse(req: Request, resp: Response): Wire {
    var h1 := Insert(resp.headers, "Connection", Advertised(IsClose(req)));
    var h2 := Insert(h1, "Content-Length", Decimal(|resp.body|));
    var h3 := if resp.body != [] then Insert(h2, "Content-Type", "application/octet-stream") else h2;
    var h4 := if resp.redirect.Some? then Insert(h3, "Location", resp.redirect.value) else h3;
    Wire(req.version, resp.statu, h4, if req.verb == "HEAD" then [] else resp.body)
  }

  /** HttpServer::ErrorHandler. */
  function ErrorResponse(site: Site, statu: int): Response {
    Response(statu, map["Content-Type" := "text/html"], site.errorPage(statu), None)
  }

  /** Changing the case twice is changing it once, and only letters have one. */
  lemma CaseMeaning(s: string)
    ensures |ToUpper(s)| == |s| == |ToLower(s)|
    ensures ToUpper(ToLower(s)) == ToUpper(s) && ToLower(ToUpper(s)) == ToLower(s)
    ensures forall i :: 0 <= i < |s| ==> !('a' <= ToUpper(s)[i] <= 'z') && !('A' <= ToLower(s)[i] <= 'Z')
    ensures (forall c :: c in s ==> !('a' <= c <= 'z')) ==> ToUpper(s) == s
    ensures (forall c :: c in s ==> !('A' <= c <= 'Z')) ==> ToLower(s) == s
    ensures ToUpper("abcdefghijklmnopqrstuvwxyz") == "ABCDEFGHIJKLMNOPQRSTUVWXYZ"
  {
    Alphabet();
    assert forall i :: 0 <= i < |s| ==> s[i] in s;
  }

  lemma Alphabet()
    ensures ToUpper("abcdefghijklmnopqrstuvwxyz") == "ABCDEFGHIJKLMNOPQRSTUVWXYZ"
  {
  }

  /** When a connection is to be closed: HTTP/1.1 keeps it unless told otherwise, anything else closes
      it unless told otherwise; the case of the option does not matter. */
  lemma CloseRules(req: Request)
    ensures "Connection" in req.headers && ToLower(req.headers["Connection"]) == "keep-alive" ==> !IsClose(req)
    ensures "Connection" in req.headers && ToLower(req.headers["Connection"]) == "close" ==> IsClose(req)
    ensures "Connection" !in req.headers ==> (IsClose(req) <==> req.version != "HTTP/1.1")
    ensures "Connection" in req.headers && ToLower(req.headers["Connection"]) !in {"keep-alive", "close"} ==>
      (IsClose(req) <==> req.version != "HTTP/1.1")
  {
  }

  /** What goes out: the version of the request, the status and body of the response, none for HEAD;
      every field the handler set; and a length that reads back as the length of the body. */
  lemma ResponseMeaning(req: Request, resp: Response)
    requires |resp.body| < LONG_LIMIT
    ensures var w := WriteResponse(req, resp);
      && w.version == req.version && w.statu == resp.statu
      && w.body == (if req.verb == "HEAD" then "" else resp.body)
      && (forall key :: key in resp.headers ==> key in w.headers && w.headers[key] == resp.headers[key])
      && ("Content-Length" !in resp.headers ==> ContentLength(w.headers) == Some(|resp.body|))
      && "Connection" in w.headers
      && ("Connection" !in resp.headers ==> w.headers["Connection"] == Advertised(IsClose(req)))
      && (resp.redirect.Some? && "Location" !in resp.headers ==>
            "Location" in w.headers && w.headers["Location"] == resp.redirect.value)
      && ("Content-Type" !in resp.headers ==>
            ("Content-Type" in w.headers <==> resp.body != ""))
  {
    ContentLengthReads(WriteResponse(req, resp).headers, |resp.body|);
  }

  /** A client that reads the announcement as this server reads it from a request understands it. */
  lemma AdvertisedIsRead(close: bool)
    ensures ToLower(Advertised(close)) == if close then "close" else "keep-alive"
  {
    assert ToLower("Close") == "close" && ToLower("keep-alive") == "keep-alive";
  }

  // ---- query strings ----

  /** The loop of ParseHttpLine over the pieces of the query string: the parameters set before
      the first piece without '=' stay set. */
  function ParsePieces(params: Fields, pieces: seq<string>): (bool, Fields)
    decreases |pieces|
  {
    if pieces == [] then (true, params)
    else
      var pos := IndexOf(pieces[0], '=');
      if pos == |pieces[0]| then (false, params)
      else
        var key, val := Decoded(pieces[0][..pos], true), Decoded(pieces[0][pos + 1..], true);
        ParsePieces(Insert(params, key, val), pieces[1..])
  }

  function ParseQuery(params: Fields, query: string): (bool, Fields) {
    ParsePieces(params, Pieces(query, "&", 0))
  }

  lemma {:induction false} ParsePiecesStep(params: Fields, pieces: seq<string>, i: nat)
    requires i < |pieces|
    ensures var piece, pos := pieces[i], IndexOf(pieces[i], '=');
      ParsePieces(params, pieces[i..])
      == if pos == |piece| then (false, params)
         else ParsePieces(Insert(params, Decoded(piece[..pos], true), Decoded(piece[pos + 1..], true)),
                          pieces[i + 1..])
  {
    assert pieces[i..][1..] == pieces[i + 1..];
  }

  /** A query is bad exactly if one of its pieces has no '='. */
  lemma {:induction false} BadQuery(params: Fields, pieces: seq<string>)
    ensures ParsePieces(params, pieces).0 <==> forall i :: 0 <= i < |pieces| ==> '=' in pieces[i]
    decreases |pieces|
  {
    if pieces != [] {
      var piece, pos := pieces[0], IndexOf(pieces[0], '=');
      assert pos == |piece| ==> piece[..pos] == piece;
      assert forall i :: 0 < i < |pieces| ==> pieces[i] == pieces[1..][i - 1];
      if pos < |piece| {
        BadQuery(Insert(params, Decoded(piece[..pos], true), Decoded(piece[pos + 1..], true)), pieces[1..]);
      }
    }
  }

  /** The part of ParseHttpLine that fills the parameters. */
  method ParseQueryString(params: Fields, query: string) returns (ok: bool, filled: Fields)
    ensures (ok, filled) == ParseQuery(params, query)
  {
    var pieces := Split(query, "&");
    filled := params;
    var i := 0;
    while i < |pieces|
      invariant 0 <= i <= |pieces|
      invariant ParsePieces(filled, pieces[i..]) == ParseQuery(params, query)
    {
      ParsePiecesStep(filled, pieces, i);
      var piece := pieces[i];
      var pos := IndexOf(piece, '=');
      if pos == |piece| {
        return false, filled;
      }
      var key := UrlDecode(piece[..pos], true);
      var val := UrlDecode(piece[pos + 1..], true);
      filled := Insert(filled, key, val);
      i := i + 1;
    }
    ok := true;
  }

  // ---- a query string written from pairs is read back as their first-wins map ----

  type Pairs = seq<(string, string)>

  function PairText(pair: (string, string), spaceToPlus: bool): string {
    Encoded(pair.0, spaceToPlus) + "=" + Encoded(pair.1, spaceToPlus)
  }

  function PairTexts(pairs: Pairs, spaceToPlus: bool): seq<string> {
    if pairs == [] then [] else [PairText(pairs[0], spaceToPlus)] + PairTexts(pairs[1..], spaceToPlus)
  }

  function FirstWins(m: Fields, pairs: Pairs): Fields
    decreases |pairs|
  {
    if pairs == [] then m else FirstWins(Insert(m, pairs[0].0, pairs[0].1), pairs[1..])
  }

  predicate PairSurvives(pair: (string, string), spaceToPlus: bool) {
    AllSurvive(pair.0, spaceToPlus) && AllSurvive(pair.1, spaceToPlus)
  }

  lemma {:induction false} PairTextsAreClean(pairs: Pairs, spaceToPlus: bool)
    ensures forall i :: 0 <= i < |PairTexts(pairs, spaceToPlus)| ==> '&' !in PairTexts(pairs, spaceToPlus)[i]
    ensures NonEmpty(PairTexts(pairs, spaceToPlus)) == PairTexts(pairs, spaceToPlus)
  {
    if pairs != [] {
      EncodedHasNoSeparator(pairs[0].0, spaceToPlus, '&');
      EncodedHasNoSeparator(pairs[0].1, spaceToPlus, '&');
      PairTextsAreClean(pairs[1..], spaceToPlus);
      assert PairTexts(pairs, spaceToPlus)[1..] == PairTexts(pairs[1..], spaceToPlus);
    }
  }

  /** What the parser reads from one written pair. */
  function Reread(s: string, spaceToPlus: bool): string {
    Decoded(Encoded(s, spaceToPlus), true)
  }

  function RereadAll(pairs: Pairs, spaceToPlus: bool): Pairs {
    if pairs == [] then []
    else [(Reread(pairs[0].0, spaceToPlus), Reread(pairs[0].1, spaceToPlus))]
         + RereadAll(pairs[1..], spaceToPlus)
  }

  lemma PairTextParts(pair: (string, string), spaceToPlus: bool)
    ensures var t, pos := PairText(pair, spaceToPlus), |Encoded(pair.0, spaceToPlus)|;
      IndexOf(t, '=') == pos < |t| && t[..pos] == Encoded(pair.0, spaceToPlus)
      && t[pos + 1..] == Encoded(pair.1, spaceToPlus)
  {
    EncodedHasNoSeparator(pair.0, spaceToPlus, '=');
    var t, pos := PairText(pair, spaceToPlus), |Encoded(pair.0, spaceToPlus)|;
    assert t[..pos] == Encoded(pair.0, spaceToPlus);
    IndexOfIs(t, '=', pos);
  }

  lemma {:induction false} ParsePairTexts(m: Fields, pairs: Pairs, spaceToPlus: bool)
    ensures ParsePieces(m, PairTexts(pairs, spaceToPlus)) == (true, FirstWins(m, RereadAll(pairs, spaceToPlus)))
    decreases |pairs|
  {
    if pairs != [] {
      PairTextParts(pairs[0], spaceToPlus);
      var key, val := Reread(pairs[0].0, spaceToPlus), Reread(pairs[0].1, spaceToPlus);
      ParsePairTexts(Insert(m, key, val), pairs[1..], spaceToPlus);
      assert PairTexts(pairs, spaceToPlus)[1..] == PairTexts(pairs[1..], spaceToPlus);
      assert RereadAll(pairs, spaceToPlus)[1..] == RereadAll(pairs[1..], spaceToPlus);
    }
  }

  /** Any list of pairs, encoded and joined, parses without error, to the first-wins map of the
      pairs as they are reread. */
  lemma QueryParses(pairs: Pairs, spaceToPlus: bool)
    ensures ParseQuery(map[], Join(PairTexts(pairs, spaceToPlus), '&'))
         == (true, FirstWins(map[], RereadAll(pairs, spaceToPlus)))
  {
    PairTextsAreClean(pairs, spaceToPlus);
    SplitJoin(Join(PairTexts(pairs, spaceToPlus), '&'), 0, PairTexts(pairs, spaceToPlus), '&');
    ParsePairTexts(map[], pairs, spaceToPlus);
  }

  /** Rereading changes nothing exactly when every key and value survives the codec. */
  lemma {:induction false} RereadIsIdentity(pairs: Pairs, spaceToPlus: bool)
    ensures RereadAll(pairs, spaceToPlus) == pairs
       <==> forall i :: 0 <= i < |pairs| ==> PairSurvives(pairs[i], spaceToPlus)
  {
    if pairs != [] {
      UrlRoundTrip(pairs[0].0, spaceToPlus, true);
      UrlRoundTrip(pairs[0].1, spaceToPlus, true);
      RereadIsIdentity(pairs[1..], spaceToPlus);
      assert pairs == [pairs[0]] + pairs[1..];
      assert RereadAll(pairs, spaceToPlus)[1..] == RereadAll(pairs[1..], spaceToPlus);
    }
  }

  /** The query-string round trip: the first-wins map of the pairs themselves. */
  lemma QueryRoundTrip(pairs: Pairs, spaceToPlus: bool)
    requires forall i :: 0 <= i < |pairs| ==> PairSurvives(pairs[i], spaceToPlus)
    ensures ParseQuery(map[], Join(PairTexts(pairs, spaceToPlus), '&')) == (true, FirstWins(map[], pairs))
  {
    QueryParses(pairs, spaceToPlus);
    RereadIsIdentity(pairs, spaceToPlus);
  }

  /** Every parameter value is the one given with the first pair of its key. */
  lemma {:induction false} FirstWinsMeaning(m: Fields, pairs: Pairs, key: string)
    ensures key in m ==> key in FirstWins(m, pairs) && FirstWins(m, pairs)[key] == m[key]
    ensures key !in m && key in FirstWins(m, pairs) ==>
      exists i :: 0 <= i < |pairs| && pairs[i] == (key, FirstWins(m, pairs)[key])
                  && forall j :: 0 <= j < i ==> pairs[j].0 != key
    ensures key !in m && key !in FirstWins(m, pairs) ==>
      forall i :: 0 <= i < |pairs| ==> pairs[i].0 != key
    decreases |pairs|
  {
    if pairs != [] {
      var m1, tail := Insert(m, pairs[0].0, pairs[0].1), pairs[1..];
      FirstWinsMeaning(m1, tail, key);
      if key !in m && key in FirstWins(m, pairs) {
        if key in m1 {
          assert pairs[0] == (key, FirstWins(m, pairs)[key]);
        } else {
          var i :| 0 <= i < |tail| && tail[i] == (key, FirstWins(m1, tail)[key])
                   && forall j :: 0 <= j < i ==> tail[j].0 != key;
          assert pairs[i + 1] == tail[i];
          assert forall j :: 0 < j < i + 1 ==> pairs[j] == tail[j - 1];
        }
      } else if key !in m && key !in FirstWins(m, pairs) {
        assert forall i :: 0 < i < |pairs| ==> pairs[i] == tail[i - 1];
      }
    }
  }
}
