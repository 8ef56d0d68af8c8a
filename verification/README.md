# A Dafny model of the dlmuduo reactor, HTTP server and URL shortener

The model covers the parts of the repository that carry state, concurrency or arithmetic: the
incremental HTTP parser and the loop that serves pipelined requests, the byte buffer under it, the
timing wheel, the event loop with its task queue and eventfd, the poller and its channels, the
connection with its half-close, the server's map of connections, the asynchronous logger, the log
pattern parser, Base62 and the shortener's protocol over a table and a cache.

`dafny verify dfyconfig.toml` checks everything.

## How it is organised

| file | what it models |
|---|---|
| Wrappers, Text | an option type; byte search as in `memchr` and `std::string::find` |
| Buffer | the array with two offsets, as a byte queue |
| Decimal | decimal texts and their values |
| UrlCodec, Http | percent-encoding, `Split`, requests, responses and the query string |
| HttpContext | the LINE/HEAD/BODY/OVER/ERROR parser, as functions and as the object over a `Buffer` |
| HttpServer | `OnMessage` as a small-step machine and as the loop over buffer and parser |
| HttpStream, HttpPipeline, HttpSafety | what holds of every stream and every cut |
| HttpDeferral | deferred answers, half-closing and hang-ups in any mix |
| Deadlines, DeadlineRuns | what a timing wheel is for: a list of deadlines, and what holds in every run |
| TimingWheel | the 360 slots of counted references, proved to refine that list |
| EventLoop | the loop thread against any number of posting threads; the loop object |
| Poller | the map of channels and the kernel's interest set; dispatch of one mask |
| Connection | one connection: the code between two callbacks, whole handlers, the object |
| Reactor | one loop with any number of connections, its explicit call stack and its queue |
| ReactorEffects | what each of its steps brings about, and the bytes of whole runs |
| TcpServer | the map shared, through task queues, between the base loop and the sub-loops |
| LogBuffer, AsyncLooper, LogPattern | the asynchronous logger and its patterns |
| Base62, Shortener | short codes, the table, the cache and the concurrent handlers |

Objects that the program updates in place are classes whose methods are proved against functions on
values; the theorems are lemmas about those functions.  Threads are state machines with a program
counter per thread: a schedule is any sequence of actions, an action that is not possible is
skipped, and a theorem about `Exec(schedule)` is a theorem about every interleaving.

## What was found in the code

These are properties one would expect, or that a comment promises, and that the code does not have.
Each has a member that gives an input and, where it applies, the exact condition.

- `UrlDecode` pushes a space for a plus sign and then the plus sign as well, contrary to the comment
  above `UrlEncode` (net/http/http.hpp:227-229, 280, 299).  `UrlEncode` prints a plain `char`, so a
  byte of 128 or more is encoded as `%FF`.  See `UrlRoundTrip`, `PlusIsNotReversed`.
- `Hextoi` takes every letter for a digit, so "%ZZ" is decoded too (net/http/http.hpp:265-271).  See
  `HextoiMeaning`.
- The answer to a request line that does not match announces keep-alive and is followed by a shutdown
  (net/http/http.hpp:889-897).  See `RefusalMeaning`.
- On the immediate path `Connection: close` is announced but not carried out
  (net/http/http.hpp:914-916).  See `CloseIsOnlyAdvertised`.
- The message callback that `ShutdownInLoop` runs on the remaining input cannot answer: the status
  has changed before (src/Connection.cc:119-125, 140).  See `ShutdownAcceptsNothing`.  Requests
  pipelined behind a deferred one that closes are routed nevertheless, in order (`HttpDeferral`).
- Behind a request that was refused, bytes that are read because of a hang-up are parsed anew,
  although the rest of the stream was dropped, and what they complete is routed (src/Channel.cc:50-70,
  net/http/http.hpp:896-906).  The order of the stream fails exactly then.  This rests on the assumption
  that `epoll_wait` may report anything about a registered descriptor: it takes EPOLLHUP without
  EPOLLERR, with bytes still unread on a connection whose reading is off (EPOLLRDHUP is never asked
  for).  See `RoutedInStreamOrder`, `CallRoutes`, `LateExample`.
- `Connection::Id()` returns an `int`, so from the id 2^31 on a removal misses its own entry, and
  from 2^32 on it can take another one (include/Connection.hpp:55, src/TcpServer.cc:66).  See
  `EraseIsOwn`, `FirstLeak`.
- `NewConnection` reads `_next_id` again for its insert.  A connected callback that runs inside it, in
  the base loop, and calls `RunAfter` makes the connection leak (src/TcpServer.cc:43-45, 81-88).  See
  `MapIsExact` for the exact condition, `NestedLeak` for the run.
- With inactivity release enabled, which `HttpServer` always does (net/http/http.hpp:922), the timer is
  posted before `Established` and can overtake it (src/TcpServer.cc:79-81).  The assertion that would
  stop this is compiled away in the default build type, Release (CMakeLists.txt:24-26): the released
  connection comes back, registered under a descriptor that is closed and may be another
  connection's.  See `EstablishedFirst`, `EstablishedInTime`, `OnlyRevivalGoesBack`, `Revival`.
- `AsyncLooper::stop` sets its flag outside the mutex and can wait for ever, exactly if it notifies a
  consumer that has tested and not yet waited (include/log_system/looper.hpp:46-53).  See
  `StopIsHeard`, `StopIsLost`, `ForgottenForever`.
- The log pattern parser drops text behind the last directive
  (include/log_system/Logformat.hpp:239-246).  See `TrailingTextIsDropped`.
- `ApiShorten` answers with a code even when its `UPDATE` failed; the link then lives no longer than
  its cache entry.  A URL that begins with a NUL byte is stored but never found
  (net/http/shortener/shortener.cc:51-66, net/http/shortener/redis_pool.hpp:54).  See `LinksThatLast`,
  `CacheIsCoherent`.
- A placeholder outgrows its column once process id and counter have twelve digits together
  (net/http/shortener/shortener.cc:31-33, net/http/shortener/init.sql:5).  See `PlaceholderFits`.
- A placeholder whose `UPDATE` failed stays in the table, and a later process with the same id starts
  its counter anew, so that its `INSERT` clashes with it (net/http/shortener/shortener.cc:30-33).  See
  `RestartedCollides`, `PlaceholdersAreFresh`.

## Assumptions

- Bytes are `char` values below 256; the regular expression of the request line is given as a total
  function, and so is what the handlers do with the n-th request of a connection: answer it or defer
  the answer (`Site`).  Everything else about a request is concrete.
- Writes to and reads from the eventfd succeed; `epoll_wait` may return anything about registered
  descriptors, and nothing when it is interrupted.  Short and failed sends and reads, failed and
  slow SQL statements, cache misses, evictions and process restarts are arbitrary.
- A descriptor that the kernel hands out is not in use.
- A callback of the wheel, the loop or a connection is the finite list of the calls it makes in that
  run; in `Reactor` it is any number of actions while its frame is on the stack.
- Objects are kept as long as the model mentions them; `shared_ptr` and raw `this` in queued tasks
  are not about memory here, only the reference counts of the wheel are explicit.

## Model

| member | source | states |
|---|---|---|
| `HttpStream.RunAppend` | net/http/http.hpp:879-919 | processing bytes `b ++ x` is processing `x` after processing `b`, from any state of an open connection, or one in which nothing is left to process |
| `HttpStream.ChunkIndependence` | net/http/http.hpp:879-919 | any cutting of a byte stream, fed from any resting state, gives the same routed requests, responses (400 and 414 included), end of the connection, parser state and unread bytes as feeding it whole; Content-Length values that are not numbers, are negative or overflow, and deferring handlers, are included |
| `HttpStream.CutsAgree` | net/http/http.hpp:587-721 | two cuts of one stream cannot be told apart |
| `HttpStream.StepAppend` | net/http/http.hpp:632-693 | the same for one step on an open connection: what arrives later never changes what an earlier complete line, header block or body meant |
| `HttpStream.FeedTwice` | net/http/http.hpp:879-919 | feeding twice is feeding the concatenation |
| `HttpPipeline.MessageParsed` | net/http/http.hpp:544-693 | a well-formed message followed by anything is parsed to exactly its method, path, parameters, first-wins headers and body, and exactly its bytes are consumed |
| `HttpPipeline.MessageAnswered` | net/http/http.hpp:879-919 | the server answers that message and goes on with exactly the bytes behind it |
| `HttpPipeline.PlainIsWellFormed` | net/http/http.hpp:424-430 | a message whose length header is the decimal number of bytes of its body, or that has neither, is well-formed: the server expects exactly the announced bytes |
| `HttpPipeline.PlainlyParsed` | net/http/http.hpp:665-693 | such a message, followed by anything, is parsed to exactly its body, and the bytes behind it are left |
| `HttpPipeline.Pipelining` | net/http/http.hpp:877-919 | k concatenated requests are routed and answered one by one in order, the parser being reset after each |
| `HttpPipeline.PipelineInChunks` | net/http/http.hpp:877-919 | the same however the bytes are cut, ending with an open connection, an empty buffer and a reset parser |
| `HttpPipeline.ReadChunks` | net/http/http.hpp:879-919 | the array buffer, the parser object and the loop of `OnMessage` together, called once per chunk, do to any cut of any stream what the specification does to the whole |
| `HttpServer.StepDescends` | net/http/http.hpp:881-917 | every step of the processing consumes input or moves the parser forward, so it terminates |
| `HttpServer.CompletionConsumes` | net/http/http.hpp:881-917 | a request that is completed has consumed at least one byte: every iteration that does not return shrinks the readable bytes |
| `HttpServer.RunRecvRequest` | net/http/http.hpp:704-721 | one call of `RecvHttpRequest` with its fall-through stages is a run of the small steps |
| `HttpServer.RecvRequestStops` | net/http/http.hpp:704-721 | that call ends with a failure, a complete request, or a parser that needs more bytes |
| `HttpServer.Peer.OnMessage` | net/http/http.hpp:879-919 | the loop, on the real buffer and parser, reaches the final state of the small-step server |
| `HttpServer.Peer.MessageTurn` | net/http/http.hpp:881-917 | one turn: the pending check, the parser, then refusing, waiting or answering; a turn that continues has shrunk the buffer |
| `HttpServer.Peer.AnswerRequest` | net/http/http.hpp:903-916 | routes the request; a deferred answer leaves the parser pending, an immediate one is written, the parser reset |
| `HttpServer.Peer.RefuseRequest` | net/http/http.hpp:889-897 | writes the error answer, resets, drops the rest of the buffer and shuts the connection |
| `HttpServer.Peer.CompleteAnswer` | net/http/shortener/shortener.cc:111-135 | a deferred answer is sent, or lost if the connection is half closed or released, the parser is reset, and a close half-closes an open connection, which processes the remaining input with its answers lost |
| `HttpServer.Peer.Shutdown` | src/Connection.cc:115-125 | only the first shutdown of an open connection does anything, and the remaining input then goes through the message callback once more |
| `HttpServer.Peer.Call` | src/Connection.cc:32-35 | the message callback is one run of the server, and is not called without input |
| `HttpServer.Peer.HandleRead` | src/Connection.cc:23-36 | what is read joins the unread input and is processed, on an open connection and on a half-closed one |
| `HttpSafety.ShutsOnlyOnFailure` | net/http/http.hpp:889-917 | on the immediate path a step shuts the connection if and only if the request failed |
| `HttpSafety.ShutMeansRefused` | net/http/http.hpp:889-897 | a run that shuts the connection has just sent a 400 or a 414 and has dropped the remaining bytes |
| `HttpSafety.CloseIsOnlyAdvertised` | net/http/http.hpp:912-916 | a request that asks for `Connection: close` and is answered at once is told `Close` but the connection stays open, because `IsClose` is asked after `ReSet` |
| `HttpSafety.CloseExample` | net/http/http.hpp:912-916 | a concrete request for which that happens: HTTP/1.0 without headers |
| `HttpSafety.TooLongMeaning` | net/http/http.hpp:587-657 | 414 if and only if a line of 8192 bytes or more, or that much text without a line end, stands at the front |
| `HttpSafety.BadMeaning` | net/http/http.hpp:544-630 | 400 exactly for a complete line that does not match, has a query piece without an equals sign, or is a header without ": "; the line is consumed either way, and only an empty line ends the header block |
| `HttpSafety.RefusalMeaning` | net/http/http.hpp:889-897 | a failed request gets one answer with its status, the error page and text/html; after a request line that does not match it announces keep-alive, although the connection is then shut |
| `HttpDeferral.StepRouted` | net/http/http.hpp:879-919 | a step routes a request exactly when one is complete, and then that one |
| `HttpDeferral.PromptRun` | net/http/http.hpp:884-910 | a run that was stopped by a deferred answer, once resumed, continues as if the answer had been immediate, whatever each handler answers or defers each time |
| `HttpDeferral.RoutedInStreamOrder` | net/http/http.hpp:884-910 | whatever the handlers answer or defer each time, whenever deferred answers come and whether they close, however the bytes are cut and the connection is half closed, hung up, released or ended: the requests routed are the first requests of the bytes received if and only if no read caused by a hang-up, on a connection that a refused request has shut, brings bytes with which the parser completes a request; otherwise all requests up to the refused one come first, and the late ones behind them |
| `HttpDeferral.CallRoutes` | net/http/http.hpp:881-906 | one call of the message callback routes something if and only if the parser completes a request with the first of its input and no answer is pending |
| `HttpDeferral.AnswerMeaning` | net/http/http.hpp:903-916 | a complete request is routed; deferred it stays and stops the run, answered it is replaced by a new parser, its answer being sent if the connection is open and lost otherwise; the bytes behind it stay |
| `HttpDeferral.FinishedMeaning` | net/http/shortener/shortener.cc:111-135 | a deferred answer is reported exactly once, sent or lost; it resets the parser, and half-closes exactly an open connection that asked for it |
| `HttpDeferral.ReactMeaning` | src/Connection.cc:23-135 | for each happening in the life of a connection, exactly when it routes a request |
| `HttpDeferral.OnlyHangUpsAreLate` | src/Channel.cc:50-70 | in particular the order holds when nothing is read after a refused request |
| `HttpDeferral.LateExample` | src/Channel.cc:50-70 | two reads for which it fails: a refused line, and a request that comes with the hang-up |
| `HttpDeferral.ReactTo` | src/Connection.cc:23-135 | buffer, parser and loop react to reads, hang-ups, the end of the stream and completed answers as those theorems say |
| `HttpDeferral.Live` | src/Connection.cc:23-135 | and so for the whole life of a connection, up to an exception |
| `HttpParser.HttpContext.ParseHttpLine` | net/http/http.hpp:544-585 | the request line gives method, decoded path, version and parameters, or 400 |
| `HttpParser.HttpContext.RecvHttpLine` | net/http/http.hpp:587-613 | takes one line from the buffer if there is one; 414 if it, or the waiting text, is too long |
| `HttpParser.HttpContext.ParseHttpHead` | net/http/http.hpp:615-630 | one header line: the first value of a name wins, 400 without ": " |
| `HttpParser.HttpContext.RecvHeadTurn` | net/http/http.hpp:636-659 | one turn of the header loop, which continues only after a line was consumed |
| `HttpParser.HttpContext.RecvHttpHead` | net/http/http.hpp:632-663 | the loop reaches the fixed point of the turns |
| `HttpParser.HttpContext.RecvHttpBody` | net/http/http.hpp:665-693 | takes the missing part of the body or what there is of it; throws exactly when the Content-Length does not convert |
| `Decimals.DecimalAppend` | net/http/http.hpp:429 | the positional system: a numeral in front of k digits counts 10^k times its value |
| `Decimals.DecimalReads` | net/http/http.hpp:429 | reading the decimal text of a number gives the number |
| `Http.StolReads` | net/http/http.hpp:429 | `std::stol` on blanks, a sign, the decimal text of any n and anything behind it: n, or -n, or an exception exactly outside the 64-bit range; a sign without digits throws |
| `Http.ContentLengthReads` | net/http/http.hpp:424-430 | no header means 0, the decimal text of n means n, a negative number the size_t it wraps to, and the call throws exactly if the conversion does |
| `HttpParser.HttpContext.RecvHttpRequest` | net/http/http.hpp:704-721 | the stages in sequence |
| `HttpParser.HttpContext.ReSet` | net/http/http.hpp:697 | back to the state of a new parser |
| `HttpParser.ChompMeaning` | net/http/http.hpp:548-620 | a line loses its newline and one carriage return before it, and nothing else |
| `HttpServer.HeadLoopShrinks` | net/http/http.hpp:632-663 | a header block that is completed has consumed at least its blank line |
| `UrlCodec.UrlEncode` | net/http/http.hpp:230-263 | the loop computes the byte-wise encoding |
| `UrlCodec.UrlDecode` | net/http/http.hpp:273-303 | the loop computes the decoding, including the plus sign that is pushed again behind its space |
| `UrlCodec.EncodeMeaning` | net/http/http.hpp:230-263 | letters, digits and "-._~" stay as they are and nothing else does; everything else is three bytes that start with a percent sign, or a plus sign for a space if that is asked for |
| `UrlCodec.HextoiMeaning` | net/http/http.hpp:265-271 | digits of both cases have their value; every letter, and no other byte, also passes for a digit |
| `UrlCodec.EscapeDecodes` | net/http/http.hpp:281-297 | an escape in small letters decodes to its byte too |
| `UrlCodec.UrlRoundTrip` | net/http/http.hpp:230-303 | decoding gives back what was encoded if and only if every byte is below 128 or is 255, and no space was written as a plus sign |
| `UrlCodec.PlusIsNotReversed` | net/http/http.hpp:227-301 | the reversal of plus signs that the comment promises fails: "a b" comes back as "a +b" |
| `UrlCodec.EncodedHasNoSeparator` | net/http/http.hpp:230-263 | encoded text has no '&', '=', '?', space or line end |
| `UrlCodec.JoinNibblesIsByte` | net/http/http.hpp:291 | shift and bitwise or put two hexadecimal digits together to their byte |
| `UrlCodec.Split` | net/http/http.hpp:154-177 | the loop computes the pieces |
| `UrlCodec.PiecesAreClean` | net/http/http.hpp:154-177 | no piece is empty and none contains the separator |
| `UrlCodec.SplitJoin` | net/http/http.hpp:154-177 | splitting what was joined gives back the parts less the empty ones |
| `Http.ParseQueryString` | net/http/http.hpp:567-583 | the loop of `ParseHttpLine` fills the parameters as specified, or fails at the first piece without '=' |
| `Http.QueryParses` | net/http/http.hpp:567-583 | any list of pairs, encoded and joined, parses without error to the first-wins map of the pairs as they are reread |
| `Http.RereadIsIdentity` | net/http/http.hpp:567-583 | rereading changes nothing if and only if every key and value survives the codec |
| `Http.QueryRoundTrip` | net/http/http.hpp:567-583 | for surviving pairs, ASCII in particular, the result is the first-wins map of the pairs themselves |
| `Http.FirstWinsMeaning` | net/http/http.hpp:407 | a parameter has the value of the first pair with its key |
| `Http.BadQuery` | net/http/http.hpp:567-583 | a query is accepted if and only if every piece has an equals sign |
| `Http.CloseRules` | net/http/http.hpp:434-451 | keep-alive and close are obeyed in any case of letters; without them exactly HTTP/1.1 keeps the connection |
| `Http.ResponseMeaning` | net/http/http.hpp:760-805 | the answer carries version, status, body (none to HEAD) and all headers of the handler; those it left out are added: the length of the body, `Connection` as `IsClose` says, the location of a redirect, a type exactly for a body |
| `Http.AdvertisedIsRead` | net/http/http.hpp:434-451 | what is announced in `Connection` reads back, by the same rules, as what was meant |
| `Text.IndexOf` | src/Buffer.cc:105-109 | the first position of a byte |
| `Text.FindMeaning` | net/http/http.hpp:159 | `std::string::find`: the first occurrence, or none |
| `Buffers.Buffer.constructor` | src/Buffer.cc:4 | an empty queue of capacity 1024 |
| `Buffers.Buffer.EnsureWritableBytes` | src/Buffer.cc:28-44 | makes room without touching the queue; the array is replaced exactly when compaction could not help, and its size stays within max(1024, 2 x the largest readable + requested bytes so far) |
| `Buffers.Buffer.CopyLeft` | src/Buffer.cc:35 | the compaction: every byte arrives although source and target overlap, because the move is strictly to the left |
| `Buffers.Buffer.Write` | src/Buffer.cc:46-53 | the bytes are behind the queue, which is unchanged |
| `Buffers.Buffer.WriteAndpush` | src/Buffer.cc:55-59 | appends to the queue |
| `Buffers.Buffer.WriteBufferAndpush` | src/Buffer.cc:69-77 | appends another queue, which keeps its bytes |
| `Buffers.Buffer.ReadAsstring` | src/Buffer.cc:84-91 | the front of the queue |
| `Buffers.Buffer.ReadAsstringandpop` | src/Buffer.cc:97-103 | takes the front off the queue |
| `Buffers.Buffer.MoveReadoffset` | src/Buffer.cc:8-14 | drops the front of the queue |
| `Buffers.Buffer.MoveWriteoffset` | src/Buffer.cc:16-22 | what was written behind the queue joins it |
| `Buffers.Buffer.FindcrLf` | src/Buffer.cc:105-109 | the first newline of the queue, if there is one |
| `Buffers.Buffer.GetLine` | src/Buffer.cc:110-116 | the first line, newline included, or nothing |
| `Buffers.Buffer.GetLineAndPop` | src/Buffer.cc:117-122 | takes the first line off the queue |
| `Buffers.FirstLine` | src/Buffer.cc:110-116 | the first line is the shortest prefix that ends in a newline |
| `DeadlineRuns.EveryTaskAccounted` | include/Timer.hpp:109-178 | in every run each task ever made is either pending before its deadline, or has left exactly once, on exactly the (delay + 1)-th call of `RunTimerTask` after its last add or refresh (the delay-th when that add came from a firing callback, because the deadline is counted from the hand), with its callback run if and only if it was not cancelled |
| `DeadlineRuns.RunTimely` | include/Timer.hpp:109-151 | no pending task is overdue and none left early or late |
| `DeadlineRuns.RunConserved` | include/Timer.hpp:28-44 | pending tasks and departed ones together are all tasks ever made, each once |
| `DeadlineRuns.OnlyRefreshRearms` | include/Timer.hpp:154-168 | nothing but a refresh through the index moves a deadline |
| `DeadlineRuns.CancelIsSticky` | src/Connection.cc:147-161 | once a task is cancelled its callback is never run, whatever is called later; enabling the inactivity release again only refreshes the cancelled task |
| `DeadlineRuns.CancelMarks` | include/Timer.hpp:170-178 | with an exact index a cancel marks exactly the pending task of its id and changes nothing else |
| `DeadlineRuns.CancelledNeverRuns` | include/Timer.hpp:170-178 | after any run with fresh ids, a task that was pending when its id was cancelled never runs its callback, in any continuation |
| `DeadlineRuns.RefreshRearms` | include/Timer.hpp:154-168 | with an exact index a refresh moves exactly the task of its id to the end, with its delay counted from now |
| `DeadlineRuns.RefreshedIsDue` | include/Timer.hpp:154-168 | after any run with fresh ids the refreshed task is due its own delay later |
| `DeadlineRuns.AddedIsDue` | include/Timer.hpp:137-151 | after any run an accepted add makes one new task, due its delay later, that its id leads to |
| `DeadlineRuns.StaleRefresh` | include/Timer.hpp:160-164 | a refresh of an expired entry erases it and does nothing else |
| `DeadlineRuns.ExpireMeaning` | include/Timer.hpp:28-44 | an expired task leaves once, now, its callback run unless cancelled with all the tasks that callback adds, and its id is no longer in the index |
| `DeadlineRuns.TimeIsCalls` | include/Timer.hpp:109-124 | the time of a run is the number of calls of `RunTimerTask`, whatever the callbacks do |
| `DeadlineRuns.CatchingUp` | include/Timer.hpp:126-134 | catching up with n expirations of the timerfd is n such calls |
| `DeadlineRuns.AddKeepsIndex` | include/Timer.hpp:137-151 | an add keeps the index exact if and only if the id is not in it or the delay is refused |
| `DeadlineRuns.RunKeepsIndex` | include/Timer.hpp:137-151 | with fresh ids the index leads from exactly the ids of the pending tasks to them |
| `DeadlineRuns.ExactMeansFresh` | include/Timer.hpp:137-151 | over a whole run, callbacks included: the index is exact between any two calls if and only if every add was of an id that was neither in it nor that of the task being destroyed |
| `DeadlineRuns.HasTimerMeaning` | include/Timer.hpp:194-202 | with fresh ids `HasTimer(id)` holds if and only if a task with that id is pending |
| `DeadlineRuns.TakenOverId` | include/Timer.hpp:146-149 | with a reused id it fails: the old task erases the entry of the new one |
| `Deadlines.ExpireShrinksDue` | include/Timer.hpp:109-124 | no callback can make a further task due in the same call, so clearing a slot terminates |
| `TimingWheels.TimingWheel.RunTimerTask` | include/Timer.hpp:109-124 | clearing the slot under the hand, reference by reference, with callbacks that add, refresh and cancel, is exactly the expiry of all due tasks in the order of their last add or refresh |
| `TimingWheels.TimingWheel.OnTime` | include/Timer.hpp:126-134 | catching up by several calls is that many expiries |
| `TimingWheels.TimingWheel.TimerAddInLoop` | include/Timer.hpp:137-151 | adds to the deadline list; a delay outside 1..359 is refused; the slot being cleared is never touched |
| `TimingWheels.TimingWheel.TimerRefleshInLoop` | include/Timer.hpp:154-168 | one more reference, and the deadline moves; an expired index entry is erased |
| `TimingWheels.TimingWheel.TimerCancelInLoop` | include/Timer.hpp:170-178 | marks the task that the index leads to, which keeps its place; what this means for its callback is in `CancelMarks` and `CancelledNeverRuns` |
| `TimingWheels.TimingWheel.RemoveTimer` | include/Timer.hpp:68-74 | erases the index entry only |
| `TimingWheels.TimingWheel.HasTimer` | include/Timer.hpp:194-202 | whether the id is in the index |
| `TimingWheels.TimingWheel.DestroyTask` | include/Timer.hpp:28-44 | the destructor: the callback unless cancelled, then the index entry of the id |
| `TimingWheels.TimingWheel.DropReference` | include/Timer.hpp:121-122 | one reference of the slot goes; only the last one of a task expires it |
| `TimingWheels.TimingWheel.CountsAreReferences` | include/Timer.hpp:57-62 | the reference count of a task is the number of its occurrences over all 360 slots, and it is gone exactly when there is none |
| `WheelMirror.LastIsFirstDue` | include/Timer.hpp:121-122 | a task whose last reference is cleared is due at this very call, and none before it in the list is |
| `EventLoops.NoLostWakeup` | src/EventLoop.cc:30-106 | in every interleaving, when the loop is in `epoll_wait` with a task queued or the flag set and no thread about to write, the eventfd is readable |
| `EventLoops.FirstPostedFirstRun` | src/EventLoop.cc:50-106 | executed tasks, the rest of the batch and the queue are the posted tasks in lock order, each once |
| `EventLoops.TasksRunUnlocked` | src/EventLoop.cc:50-59 | no task runs while the loop holds the lock, and pushes and the swap exclude each other |
| `EventLoops.LeftBehind` | src/EventLoop.cc:37-40 | after `Start` the tasks that were not executed are those still in the queue |
| `EventLoops.FinalBatchIsFinal` | src/EventLoop.cc:39 | what reaches the queue during the final batch stays there in every continuation |
| `EventLoops.QuitIsKept` | src/EventLoop.cc:42-47 | once a thread has asked to quit, the flag is set in every continuation |
| `EventLoops.SwapRunsAll` | src/EventLoop.cc:50-59 | from a swap on the loop alone executes everything posted before it and comes to its next test |
| `EventLoops.TurnRunsAll` | src/EventLoop.cc:30-36 | a readable eventfd lets the loop alone get through a turn that executes everything posted |
| `EventLoops.StopRunsAll` | src/EventLoop.cc:37-40 | a loop that finds the flag set executes everything posted and stops |
| `EventLoopThread.TurnsRunPosts` | src/EventLoop.cc:30-36 | a task posted by a handler runs in the same round, one posted by a task in the next, and what was queued before in the first |
| `EventLoopThread.EventLoop.Turn` | src/EventLoop.cc:31-36 | one round executes the queue followed by what its handlers posted, in order, and leaves exactly what these tasks posted |
| `EventLoopThread.EventLoop.RunAllTask` | src/EventLoop.cc:50-59 | executes exactly the tasks that were queued, in order; what they post waits for the next batch |
| `EventLoopThread.EventLoop.TasksInLoop` | src/EventLoop.cc:96-102 | one more task at the end of the queue and one more write to the eventfd |
| `EventLoopThread.EventLoop.Start` | src/EventLoop.cc:27-40 | runs rounds until the flag is set and not one more; executes, in order, the batch of every round, its handlers' posts included, and one more batch when it stops; exactly the posts of the last batch are left |
| `Pollers.Poller.UpdateEvent` | src/Poller.cc:41-53 | the first update registers with ADD, later ones use MOD and keep the registered channel |
| `Pollers.Poller.RemoveEvent` | src/Poller.cc:55-63 | the interest set and the map lose the descriptor together; the call is refused exactly if nothing was registered |
| `Pollers.Poller.Update` | src/Poller.cc:20-31 | what `epoll_ctl` does to the interest set, and which calls it refuses |
| `Pollers.Kernel.CtlMeaning` | src/Poller.cc:20-31 | ADD is refused exactly for a watched or closed descriptor, MOD and DEL for one that is not watched; an accepted call sets or ends the watch of that descriptor alone, a refused one changes nothing |
| `Pollers.Poller.Poll` | src/Poller.cc:65-92 | the active list is the registered channels of the reports in order, and every channel shows the last report that names it |
| `Pollers.Poller.ActiveAreRegistered` | src/Poller.cc:77-84 | every active channel is the registered one of its descriptor, and every report of a registered descriptor makes its channel active, in the order of the reports |
| `Pollers.Poller.ActiveAppend` | src/Poller.cc:77-91 | reports are handled one by one: those of unknown descriptors change nothing for the others |
| `Pollers.ReportedMeaning` | src/Poller.cc:85 | a channel shows the last report that names it, and keeps its mask without one |
| `Pollers.Channel.Set` | src/Channel.cc:8-39 | the kernel watches exactly the registered channels with their masks, and no call is refused |
| `Pollers.Channel.EnableRead` | src/Channel.cc:8-11 | adds the bit, keeps the mirror |
| `Pollers.Channel.EnableWrite` | src/Channel.cc:13-16 | adds the bit, keeps the mirror |
| `Pollers.Channel.DisableRead` | src/Channel.cc:18-21 | removes the bit, stays registered, keeps the mirror |
| `Pollers.Channel.DisableWrite` | src/Channel.cc:23-26 | removes the bit, stays registered, keeps the mirror |
| `Pollers.Channel.DisableAll` | src/Channel.cc:28-31 | empties the mask, stays registered, keeps the mirror |
| `Pollers.Channel.Remove` | src/Channel.cc:33-35 | ends the registration, keeps the mirror |
| `Pollers.Channel.HandleEvent` | src/Channel.cc:41-82 | the callbacks run for a mask, in order |
| `Pollers.DispatchOrder` | src/Channel.cc:41-82 | errors and hang-ups end with exactly one error or close callback and nothing behind it; otherwise reading comes before writing and the event callback is last; no callback runs twice |
| `Pollers.DispatchMeaning` | src/Channel.cc:41-82 | for every mask exactly which callbacks run: the error callback on an error, the close callback on a hang-up without one, a last read on a hang-up without EPOLLIN, otherwise the read callback for input or urgent data, the write callback for EPOLLOUT, and the event callback |
| `Connections.TakenKeeps` | src/Connection.cc:51 | the kernel taking any part of the output conserves what was accepted |
| `Connections.DrainKeeps` | src/Connection.cc:126-134 | behind its message callback a shutdown leaves output that is monitored, or queues the release |
| `Connections.TransmitKeeps` | src/Connection.cc:40-61 | a half-closed connection whose output drains asks for its release in the same step |
| `Connections.RanKeeps` | src/Connection.cc:32-35 | whatever a callback does, including nested shutdowns, the connection stays sound and is not released under its caller |
| `Connections.ShutDownKeeps` | src/Connection.cc:115-135 | a shutdown leaves a sound connection that will drain, whatever the message callback does |
| `Connections.ShutdownAcceptsNothing` | src/Connection.cc:117-125 | the message callback that a shutdown runs on the remaining input cannot answer it: every `Send` inside is dropped |
| `Connections.DeliveredMeaning` | src/Connection.cc:64-69 | the message callback is offered all of the input that is not consumed, and is not called without any |
| `Connections.ReadSomeMeaning` | src/Connection.cc:23-36 | a read takes over exactly the bytes read; a failed one half-closes |
| `Connections.WriteSomeMeaning` | src/Connection.cc:40-71 | a write sends exactly what the kernel took, and asks for the release when it drains a half-closed connection; a failed one, like a hang-up, asks for it exactly once behind the message callback |
| `Connections.ShutDownDelivers` | src/Connection.cc:121-125 | the callback of a shutdown is offered all of the remaining input, and a release asked for there counts |
| `Connections.ReleasedMeaning` | src/Connection.cc:98-111 | the first release leaves a disconnected, unregistered connection and runs its closed callbacks, a further one changes nothing |
| `Connections.LastActCounts` | src/Connection.cc:115-206 | whatever a callback did before: a send is accepted exactly on a connection still open, a release is counted, a shutdown closes |
| `Connections.Connection.constructor` | src/Connection.cc:7-16 | a CONNECTING connection without registration |
| `Connections.Connection.EstablishedInLoop` | src/Connection.cc:88-95 | becomes CONNECTED and readable, then runs the connected callback |
| `Connections.Connection.SendInLoop` | src/Connection.cc:138-145 | on a CONNECTED connection the data stands behind the output and writing is monitored; on any other nothing changes |
| `Connections.Connection.ShutdownInLoop` | src/Connection.cc:115-135 | the half-close: stop reading, deliver the input, then drain or release |
| `Connections.Connection.HandleRead` | src/Connection.cc:23-36 | input is delivered; a failed read shuts down |
| `Connections.Connection.HandleWrite` | src/Connection.cc:40-61 | output goes out in order; a failed write delivers the input and releases |
| `Connections.Connection.HandleClose` | src/Connection.cc:64-71 | delivers the input, then queues the release |
| `Connections.Connection.Release` | src/Connection.cc:203-206 | only queues the release, in every state of the connection, CONNECTING included |
| `Connections.Connection.ReleaseInLoop` | src/Connection.cc:98-111 | the first run unregisters, closes and calls back, later ones do nothing; `epoll_ctl` refuses the removal exactly if the connection was still CONNECTING |
| `Connections.Connection.Close` | src/Connection.cc:102-104 | the registration and the descriptor go, other registrations stay |
| `Reactors.NoDispatchAfterRelease` | src/EventLoop.cc:30-36 | in every run that revives no released connection (see `Reactors.EstablishedInTime`), whenever a channel or one of its callbacks is about to be called, its connection is registered, not released, and still owns its descriptor |
| `Reactors.NeverRegisteredAgain` | src/Connection.cc:98-111 | in every run that revives no released connection (see `Reactors.EstablishedInTime`), a released connection is not registered in any continuation; whatever is registered under a reused descriptor belongs to its current owner |
| `Reactors.ReleasedOnce` | src/Connection.cc:98-111 | in every run that revives no released connection (see `Reactors.EstablishedInTime`), however many releases are queued the closed callbacks run once |
| `Reactors.LifeOnlyAdvances` | src/Connection.cc:88-135 | in every run that revives no released connection (see `Reactors.EstablishedInTime`), the status only advances through CONNECTING, CONNECTED, DISCONNECTING, DISCONNECTED over any continuation, sent bytes stay sent, and only a CONNECTED connection accepts more |
| `Reactors.BytesConserved` | src/Connection.cc:23-61 | in every run that revives no released connection (see `Reactors.EstablishedInTime`), consumed and buffered input are, in order, what was received; sent and buffered output are, in order, what was accepted; and a connection released without any forced release has sent everything it accepted |
| `Reactors.NothingStalls` | src/Connection.cc:115-145 | in every run that revives no released connection (see `Reactors.EstablishedInTime`), between two calls of the loop unsent output is monitored through the connection's own registration, and a half-closed connection without output, or one whose release was asked for, has its release in the queue; a CONNECTING one is still to be established |
| `ReactorEffects.BytesOfRun` | src/Connection.cc:23-145 | in every run, for every connection: what it received is exactly what its reads brought, and what it accepted is exactly what was sent on it, by a call or a queued task, while it was CONNECTED |
| `ReactorEffects.EndToEnd` | src/Connection.cc:23-145 | in every run that revives no released connection (see `Reactors.EstablishedInTime`), what was consumed is a prefix of everything read and what went out a prefix of everything sent; of a connection released without any forced release it is all of it |
| `ReactorEffects.CallMeaning` | src/Connection.cc:138-206 | a send grows what a CONNECTED connection accepted by exactly its data and monitors writing, and does nothing to another; a shutdown half-closes; a release, or the inactivity timer, queues one release |
| `ReactorEffects.ReadMeaning` | src/Connection.cc:23-36 | a read adds exactly its bytes and calls the message callback exactly if there is input; a failed one half-closes |
| `ReactorEffects.WriteMeaning` | src/Connection.cc:40-61 | a write sends exactly what was taken, keeps monitoring exactly while output is left, and queues the release exactly of a drained half-closed connection |
| `ReactorEffects.HangMeaning` | src/Connection.cc:64-74 | a hang-up, an error or a failed write calls the message callback exactly if there is input, and the release is behind it |
| `ReactorEffects.EstablishMeaning` | src/Connection.cc:88-95 | a CONNECTING connection becomes CONNECTED and is registered for reading under its descriptor, then its callback runs |
| `ReactorEffects.ReleaseMeaning` | src/Connection.cc:98-111 | the first queued release ends registration, descriptor and timer and runs the callbacks; later ones do nothing |
| `ReactorEffects.TaskMeaning` | src/Connection.cc:172-206 | queued sends, shutdowns, timers and functors do what the direct calls do |
| `ReactorEffects.ActivesMeaning` | src/Poller.cc:78-92 | there is one entry for every report, that of the connection registered under its descriptor |
| `ReactorEffects.DispatchedInTurn` | src/EventLoop.cc:30-36 | the active channels are dispatched in the order of the reports, each with the callbacks of its mask, and then the queue becomes the batch |
| `ReactorEffects.BatchInTurn` | src/EventLoop.cc:56-58 | the tasks of the batch run in order, and what they queue waits behind |
| `ReactorEffects.AcceptMeaning` | src/TcpServer.cc:70-83 | a new connection owns its descriptor; its establishment is queued behind its inactivity timer |
| `Reactors.EstablishedInTime` | src/Connection.cc:88-95 | no run establishes a connection that is already released if and only if the server does not release inactive connections; `HttpServer` always does (net/http/http.hpp:922) |
| `Reactors.OnlyRevivalGoesBack` | src/Connection.cc:88-95 | in such a run a step takes some connection back in its life, or loses one of its bytes or counts, if and only if it establishes a released one |
| `Reactors.Revival` | src/TcpServer.cc:79-81 | the run in which the timer comes first: built without assertions, the closed connection is CONNECTED and registered under its old descriptor, which the next connection owns |
| `Reactors.ReleaseTaskKeeps` | src/Connection.cc:200-206 | the release breaks nothing because it runs from the task queue, when no dispatch is under way |
| `Reactors.ShutKeeps` | src/Connection.cc:115-135 | until the frame behind the message callback has run, that frame stands for the draining of the output |
| `TcpServers.MapIsExact` | src/TcpServer.cc:43-89 | under every interleaving of base loop, sub-loops and connected callbacks, while fewer than 2^31 ids were given out: the map holds exactly the inserted and not removed connections under their own ids if and only if no inserted connection had a connected callback that took an id inside `NewConnection`, which only connections of the base loop can have; and every erase follows its insert |
| `TcpServers.LiveAreKept` | src/TcpServer.cc:59-83 | under the same bound, and while no assertion has failed, exactly the released connections are removed or about to be, and every other inserted one is in the map, under the key it was filed with |
| `TcpServers.NestedLeak` | src/TcpServer.cc:81-89 | without sub-loops the first connection leaks when its connected callback calls `RunAfter`: it is filed under the id of the timer, and its removal misses |
| `TcpServers.IdsAreSpent` | src/TcpServer.cc:85-89 | timers of the user take ids from the same counter: from any state between two events a run spends any number of them, short of a wrap-around |
| `TcpServers.EraseIsOwn` | src/TcpServer.cc:64-68 | the erase, whose id passes through an `int`, removes the connection's own entry and no other if and only if the id is below 2^31 or at least 2^64 - 2^31 |
| `TcpServers.FirstLeak` | src/TcpServer.cc:64-68 | the bound is exact: the connection with the id 2^31 is released and removed, and stays in the map, without any nested call |
| `TcpServers.EstablishedFirst` | src/TcpServer.cc:79-81 | the assertion of `EstablishedInLoop` holds in every run if and only if the server does not release inactive connections |
| `TcpServers.Overtaken` | src/TcpServer.cc:79-81 | the run that breaks it: the timer posted before `Established` releases the connection first; built without assertions it is CONNECTED again and no longer in the map |
| `TcpServers.TcpServer.NewConnection` | src/TcpServer.cc:70-83 | the connection gets the next id and is filed under the value the counter has after the connected callback, an existing entry being kept; that is its own id if and only if the callback took none, or a multiple of 2^64 |
| `TcpServers.InsertedMeaning` | src/TcpServer.cc:82 | `unordered_map::insert`: an existing entry is kept, other entries are not touched |
| `TcpServers.TcpServer.RemoveConnectionInLoop` | src/TcpServer.cc:64-68 | the erase with its conversions |
| `LogBuffers.GrownLeavesRoom` | include/log_system/buffer.hpp:88-102 | a push never fills the buffer, which grows exactly when the record would fill or exceed it: at least to the double plus the record below the threshold, and by the record and the increment above it |
| `LogBuffers.Buffer.push` | include/log_system/buffer.hpp:17-26 | appends the record |
| `LogBuffers.Buffer.getenoughsize` | include/log_system/buffer.hpp:88-102 | makes more room than needed and keeps the contents |
| `LogBuffers.Buffer.swap` | include/log_system/buffer.hpp:64-69 | exchanges contents and arrays |
| `LogBuffers.Buffer.reset` | include/log_system/buffer.hpp:58-62 | empties the buffer |
| `LogBuffers.Buffer.movereader` | include/log_system/buffer.hpp:47-51 | drops the front |
| `AsyncLoopers.LogConserved` | include/log_system/looper.hpp:34-118 | for any producers and schedule, delivered bytes, the batch in flight and the waiting bytes are all pushed records in lock order; batches hold whole records; the buffer handed to the producers at a swap is empty |
| `AsyncLoopers.ExitMeansDelivered` | include/log_system/looper.hpp:74-106 | when the consumer has finished, everything pushed until then has been delivered, and what is pushed later stays in the buffer |
| `AsyncLoopers.NoSleepOverData` | include/log_system/looper.hpp:41-43 | a consumer asleep over data has a producer on its way to notify it |
| `AsyncLoopers.SafeModeFits` | include/log_system/looper.hpp:38-41 | in the safe mode, until stop is called, a record is written only where it fits, and the buffer grows exactly when a record fits to the last byte |
| `AsyncLoopers.StopIsHeard` | include/log_system/looper.hpp:46-53 | exactly when `stop` is heard: the consumer is never found asleep again, in any continuation, if and only if it is not between its failed test and its wait at the notification |
| `AsyncLoopers.StopIsHeardOverData` | include/log_system/looper.hpp:46-53 | it is then heard whenever data waits in the producers' buffer |
| `AsyncLoopers.StopReachesProducers` | include/log_system/looper.hpp:46-53 | the same for the second notification and every producer that waits for room |
| `AsyncLoopers.StopIsLost` | include/log_system/looper.hpp:46-53 | because `stop` sets its flag without the mutex, a reachable run notifies a consumer that is about to sleep |
| `AsyncLoopers.ForgottenForever` | include/log_system/looper.hpp:46-53 | from there no run wakes it, short of a further push or a spurious wakeup |
| `AsyncLoopers.ConsumerCatchesUp` | include/log_system/looper.hpp:69-109 | a consumer that is awake with data waiting can, by its own actions alone, deliver everything pushed and come back to its first test |
| `AsyncLoopers.ConsumerEnds` | include/log_system/looper.hpp:69-109 | one that is awake and told to stop delivers everything pushed and ends |
| `AsyncLoopers.SwapDelivers` | include/log_system/looper.hpp:81-102 | a swap is followed by the delivery of all that was pushed and wakes every producer that waits for room |
| `AsyncLoopers.ProducerGoesOn` | include/log_system/looper.hpp:34-45 | a waiting producer, once woken with room or after a stop, appends exactly its record and leaves no consumer asleep |
| `AsyncLoopers.AsyncLooper.push` | include/log_system/looper.hpp:34-45 | a record is appended if the buffer is unbounded, stopped or has room, else nothing changes |
| `AsyncLoopers.AsyncLooper.turn` | include/log_system/looper.hpp:69-109 | one turn hands everything waiting to the callback, or ends the thread exactly if it was stopped with nothing waiting |
| `LogPatterns.ParsePattern` | include/log_system/Logformat.hpp:172-247 | the nested scan computes the specified items, fails exactly on the malformed patterns, and keeps `pos` in range |
| `LogPatterns.ScanDirective` | include/log_system/Logformat.hpp:211-234 | one directive with its optional argument |
| `LogPatterns.PatternRoundTrip` | include/log_system/Logformat.hpp:172-247 | parsing a printed list gives the list back if and only if its texts are non-empty and not adjacent, a directive is last, no key is '%' and no argument contains '}' |
| `LogPatterns.ParsedIsCanonical` | include/log_system/Logformat.hpp:206-238 | whatever the parser returns is such a list |
| `LogPatterns.TrailingTextIsDropped` | include/log_system/Logformat.hpp:239-246 | text behind the last directive is lost |
| `LogPatterns.DirectiveTable` | include/log_system/Logformat.hpp:130-140 | the table of directives above the class: what each of the nine letters prints |
| `LogPatterns.OtherItems` | include/log_system/Logformat.hpp:250-262 | a text prints itself; an unknown directive prints itself and its argument, without the braces |
| `LogPatterns.Format` | include/log_system/Logformat.hpp:149-162 | the items in order, or the message alone if there are none |
| `LogPatterns.BareDirectiveIsRead` | include/log_system/Logformat.hpp:206-217 | a directive without an argument is read as such wherever it stands |
| `LogPatterns.BracedDirectiveIsRead` | include/log_system/Logformat.hpp:206-238 | and one with an argument in braces |
| `LogPatterns.DefaultLine` | include/log_system/Logformat.hpp:143-162 | the line that a Formatter with the default pattern writes |
| `Base62.Encode` | net/http/shortener/base62.hpp:11-21 | the loop and the reversal compute the base 62 digits |
| `Base62.Decode` | net/http/shortener/base62.hpp:23-36 | the value modulo 2^64, or 0 for any other byte |
| `Base62.NotANumeral` | net/http/shortener/base62.hpp:23-36 | a byte that is no digit makes the whole code stand for 0 |
| `Base62.DecodeEncode` | net/http/shortener/base62.hpp:11-36 | `Decode(Encode(id)) == id` for every 64-bit id |
| `Base62.EncodeDecode` | net/http/shortener/base62.hpp:11-36 | `Encode(Decode(c)) == c` if and only if `c` is a canonical numeral of a 64-bit value |
| `Base62.CodeLength` | net/http/shortener/base62.hpp:11-21 | a code has 1 to 11 characters |
| `Base62.OrderIsomorphism` | net/http/shortener/base62.hpp:8-21 | the order of ids is the length-then-lexicographic order of their codes |
| `Base62.CodeInjective` | net/http/shortener/base62.hpp:11-21 | different ids have different codes |
| `Base62.CodeIsCanonical` | net/http/shortener/base62.hpp:8-21 | codes are canonical and contain no underscore |
| `Shorteners.UpdatesNeverClash` | net/http/shortener/shortener.cc:48-53 | over any interleaving with failing statements, no `UPDATE` violates the unique key, and codes stay unique |
| `Shorteners.CacheIsCoherent` | net/http/shortener/shortener.cc:57-59 | every cached code is that of the row it decodes to, and the cached text is that row's URL up to the first NUL: the whole URL if and only if it has none, and read as a miss if and only if it begins with one |
| `Shorteners.RedirectsAreTrue` | net/http/shortener/shortener.cc:70-109 | a redirect leads only to the URL that was shortened to its code |
| `Shorteners.CodesAreNotShared` | net/http/shortener/shortener.cc:43-64 | no two answers of `ApiShorten` carry the same code, and each code decodes to the row with its URL |
| `Shorteners.LinksThatLast` | net/http/shortener/shortener.cc:43-109 | over all continuations, with failures, evictions, restarts and other calls: the answered code leads back to the URL for ever if and only if the `UPDATE` was applied, and to 404 for ever if and only if it was not and the cache does not hold the code (or the URL begins with a NUL) |
| `Shorteners.LinkNow` | net/http/shortener/shortener.cc:70-109 | at any moment after the answer the code leads back exactly if the `UPDATE` was applied or the cache holds it |
| `Shorteners.ShortenThenRedirect` | net/http/shortener/shortener.cc:6-109 | right after the answer the code leads back to the URL if and only if the `UPDATE` or the cache write was applied; the answer is the same when neither was |
| `Shorteners.FoundMeaning` | net/http/shortener/shortener.cc:72-109 | where a redirect without failures leads, in terms of the row and the cache |
| `Shorteners.PlaceholderFits` | net/http/shortener/shortener.cc:30-33 | a placeholder fits the code column of 16 characters if and only if process id and counter have at most 11 digits together |
| `Shorteners.PlaceholdersDiffer` | net/http/shortener/shortener.cc:28-33 | two placeholders are equal if and only if process id and counter are |
| `Shorteners.PlaceholdersAreFresh` | net/http/shortener/shortener.cc:28-33 | in every run without a restart the next placeholder of a process is not in the table: its `INSERT` is allowed exactly if it fits the column |
| `Shorteners.RestartedCollides` | net/http/shortener/shortener.cc:28-33 | a restart that gets the process id of a left placeholder again makes the next `INSERT` clash, because the counter starts anew |
| `Shorteners.ShortenMeaning` | net/http/shortener/shortener.cc:6-68 | which answer comes when: 400 exactly for an empty URL, a code exactly if the `INSERT` was applied and reported, else 500; exactly one row is new, and it holds the URL |
| `Shorteners.ShortenSteps` | net/http/shortener/shortener.cc:10-67 | every statement of a concurrent call is followed by the next, or ends it |
| `Shorteners.RedirectSteps` | net/http/shortener/shortener.cc:72-109 | a redirect asks the cache, then the table, and fills the cache with what it found there |
| `Shorteners.CStr` | net/http/shortener/redis_pool.hpp:49-60 | what a value keeps when it passes through a char pointer |
| `Shorteners.UpdateIsAllowed` | net/http/shortener/shortener.cc:43-53 | the other rows hold placeholders, which contain an underscore, or codes of other ids |
| `Shorteners.SelectedIsOwn` | net/http/shortener/shortener.cc:85-88 | a row found by a code of letters and digits is the row the code decodes to |
| `Shorteners.Shortener.ApiShorten` | net/http/shortener/shortener.cc:6-68 | the statements in sequence with their failures |
| `Shorteners.Shortener.Redirect` | net/http/shortener/shortener.cc:70-109 | cache, table and refill: a location is the true one, without failures it is what `Found` gives, and a row that was found is in the cache afterwards |
| `Shorteners.Shortener.Insert` | net/http/shortener/shortener.cc:30-43 | the placeholder row, a failure, or a row whose `INSERT` is reported as failed; the counter is used up in any case |

## Left out

- Sockets, epoll, timerfd, MySQL and Redis calls themselves: their results are inputs of the model.
- The MIME and status tables, file serving, error page HTML and JSON: constant texts without logic.
- `Any`, `Upgrade`, `LoopThread`, `LoopThreadPool`, the logger front ends, the sinks and the two
  connection pools: plumbing that would add easy members.
- Memory safety of objects referenced by queued tasks after their last owner is gone.
- Progress over time: no claim is made that a thread is ever scheduled, that deferred answers arrive,
  or that left-over pipelined bytes are looked at before the next read.
- When an inactivity timer expires: in `Reactor` and `TcpServer` a running one may expire at any
  moment; the times are in `Deadlines`.
- Connections.Connection.EstablishedInLoop: requires CONNECTING, as its own assertion does; what a build
  without assertions does to a released connection is in `Reactor` and `TcpServer`.
- After a released connection was established again the theorems of `Reactor` promise nothing.
- An `INSERT` that fails uses up no row id in the model, where InnoDB may skip one; nothing depends on
  which ids are given.
- SQL statements and cache writes that are applied only after the call has gone on: an `INSERT` may be
  applied and reported as failed, but at the moment of its report.
- `HttpContext` keeps its request as a value, and the buffers inside `Connection` are byte strings;
  the array behind such a string is the subject of `Buffer`.
- The escaping buffers of `ApiShorten`: an `INSERT` of a URL that does not fit is a failed statement.
- `Formatter` calls `parsePattern` inside an `assert`; the model always parses.
- Weakly ordered memory: an atomic action of one thread is seen at once by all others.
