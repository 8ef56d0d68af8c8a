/** src/Connection.cc: the buffers, the monitoring and the life of one connection. */
module Connections {
  import opened Wrappers
  import opened Pollers

  /** CONNECTING, CONNECTED, DISCONNECTING (half closed, draining), DISCONNECTED. */
  datatype Status = Connecting | Connected | Disconnecting | Disconnected

  function Rank(status: Status): nat {
    match status
    case Connecting => 0
    case Connected => 1
    case Disconnecting => 2
    case Disconnected => 3
  }

  /** `received` and `consumed` are what came from the kernel and what the message callback took,
      `accepted` and `sent` what SendInLoop took and what the kernel took, since the beginning.
      `graceful` and `forced` count the Releases queued because the output was drained, and those
      queued by anything else; `closed` counts the runs of the closed callbacks. */
  datatype Conn = Conn(fd: Fd, status: Status, events: Mask, registered: bool, input: string, output: string,
                       received: string, consumed: string, accepted: string, sent: string,
                       graceful: nat, forced: nat, closed: nat)

  function New(fd: Fd): Conn {
    Conn(fd, Connecting, {}, false, "", "", "", "", "", "", 0, 0, 0)
  }

  // ---- the code between two callbacks, as functions ----

  function Update(c: Conn, events: Mask): Conn {
    c.(events := events, registered := true)
  }

  /** EstablishedInLoop behind its assertion, which only a debug build checks. */
  function Establish(c: Conn): Conn {
    Update(c.(status := Connected), c.events + {In})
  }

  function Monitored(c: Conn): Conn {
    if Out in c.events then c else Update(c, c.events + {Out})
  }

  function Accept(c: Conn, data: string): Conn {
    if c.status != Connected then c
    else Monitored(c.(output := c.output + data, accepted := c.accepted + data))
  }

  predicate Closing(c: Conn) {
    c.status == Disconnecting || c.status == Disconnected
  }

  /** ShutdownInLoop up to the message callback, for a connection that is not Closing. */
  function StopReading(c: Conn): Conn {
    Update(c.(status := Disconnecting), c.events - {In})
  }

  /** ShutdownInLoop behind the message callback. */
  function Drain(c: Conn): Conn {
    if c.output != "" then Monitored(c) else c.(graceful := c.graceful + 1)
  }

  /** The kernel took n bytes of the output. */
  function Taken(c: Conn, n: nat): Conn
    requires n <= |c.output|
  {
    c.(sent := c.sent + c.output[..n], output := c.output[n..])
  }

  /** The output is empty: writing is no longer monitored, and a half-closed connection is done. */
  function Emptied(c: Conn): Conn {
    var d := Update(c, c.events - {Out});
    if d.status == Disconnecting then d.(graceful := d.graceful + 1) else d
  }

  function Transmit(c: Conn, n: nat): Conn
    requires n <= |c.output|
  {
    var d := Taken(c, n);
    if d.output == "" then Emptied(d) else d
  }

  /** Release: the task is queued, nothing else happens yet. */
  function Request(c: Conn): Conn {
    c.(forced := c.forced + 1)
  }

  /** ReleaseInLoop. */
  function Closed(c: Conn): Conn {
    if c.status == Disconnected then c
    else c.(status := Disconnected, registered := false, closed := c.closed + 1)
  }

  function Received(c: Conn, data: string): Conn {
    c.(input := c.input + data, received := c.received + data)
  }

  /** The message callback may take any number of bytes from the front of the input. */
  function Consumed(c: Conn, n: nat): Conn {
    var k := if n <= |c.input| then n else |c.input|;
    c.(input := c.input[k..], consumed := c.consumed + c.input[..k])
  }

  // ---- what every piece keeps ----

  /** Between two pieces: nothing received or accepted is lost or reordered, unsent bytes are monitored, the
      poller knows the connection exactly while it is open, the closed callbacks ran exactly if it
      is released, and a graceful Release was queued only when everything had been sent. */
  ghost predicate Sound(c: Conn) {
    && c.consumed + c.input == c.received
    && c.sent + c.output == c.accepted
    && (c.output != "" ==> Out in c.events)
    && (c.registered <==> c.status == Connected || c.status == Disconnecting)
    && (c.status == Connected ==> In in c.events)
    && (c.status == Disconnecting ==> In !in c.events)
    && c.closed == (if c.status == Disconnected then 1 else 0)
    && (c.graceful > 0 ==> c.output == "" && Closing(c))
    && (c.status == Disconnected ==> c.graceful + c.forced > 0)
    && (c.status == Connecting ==> c.accepted == "" && c.graceful == 0)
  }

  /** What later states may differ in: the status only advances, sent bytes are never taken back,
      and only a Connected connection accepts more. */
  ghost predicate Follows(c: Conn, d: Conn) {
    && d.fd == c.fd && Rank(c.status) <= Rank(d.status)
    && c.received <= d.received && c.consumed <= d.consumed && c.sent <= d.sent && c.accepted <= d.accepted
    && (Closing(c) ==> d.accepted == c.accepted)
    && (c.status == Disconnected ==> d.(input := "", consumed := "", forced := 0) == c.(input := "", consumed := "", forced := 0))
    && c.closed <= d.closed && c.graceful <= d.graceful && c.forced <= d.forced
  }

  lemma FollowsTransitive(c: Conn, d: Conn, e: Conn)
    requires Follows(c, d) && Follows(d, e)
    ensures Follows(c, e)
  {
  }

  lemma EstablishKeeps(c: Conn)
    requires Sound(c) && c.status == Connecting
    ensures Sound(Establish(c)) && Follows(c, Establish(c))
    ensures Establish(c).status == Connected && Establish(c).input == c.input && Establish(c).forced == c.forced
  {
  }

  /** A connected connection takes exactly the data, behind what it has taken before; any other one
      takes nothing. */
  lemma AcceptKeeps(c: Conn, data: string)
    requires Sound(c)
    ensures Sound(Accept(c, data)) && Follows(c, Accept(c, data))
    ensures c.status == Connected ==>
      Accept(c, data).accepted == c.accepted + data && Accept(c, data).sent == c.sent && Out in Accept(c, data).events
    ensures c.status != Connected ==> Accept(c, data) == c
  {
    assert c.sent + (c.output + data) == (c.sent + c.output) + data;
  }

  lemma StopReadingKeeps(c: Conn)
    requires Sound(c) && c.status == Connected
    ensures Sound(StopReading(c)) && Follows(c, StopReading(c))
    ensures StopReading(c).status == Disconnecting
    ensures StopReading(c).input == c.input && StopReading(c).output == c.output && StopReading(c).forced == c.forced
  {
  }

  lemma DrainKeeps(c: Conn)
    requires Sound(c) && c.status == Disconnecting
    ensures Sound(Drain(c)) && Follows(c, Drain(c)) && (Drain(c).output != "" || Drain(c).graceful > c.graceful)
    ensures Drain(c).status == Disconnecting && Drain(c).output == c.output && Drain(c).forced == c.forced
  {
  }

  lemma TakenKeeps(c: Conn, n: nat)
    requires Sound(c) && c.status != Disconnected && n <= |c.output|
    ensures Sound(Taken(c, n)) && Follows(c, Taken(c, n))
    ensures |Taken(c, n).sent| == |c.sent| + n && Taken(c, n).accepted == c.accepted && Taken(c, n).status == c.status
  {
    assert (c.sent + c.output[..n]) + c.output[n..] == c.sent + (c.output[..n] + c.output[n..]);
    assert c.output[..n] + c.output[n..] == c.output;
  }

  lemma EmptiedKeeps(c: Conn)
    requires Sound(c) && (c.status == Connected || c.status == Disconnecting) && c.output == ""
    ensures Sound(Emptied(c)) && Follows(c, Emptied(c))
    ensures Out !in Emptied(c).events && Emptied(c).status == c.status
    ensures Emptied(c).graceful > c.graceful <==> c.status == Disconnecting
    ensures Emptied(c).sent == c.sent && Emptied(c).accepted == c.accepted && Emptied(c).forced == c.forced
  {
  }

  lemma TransmitKeeps(c: Conn, n: nat)
    requires Sound(c) && (c.status == Connected || c.status == Disconnecting) && n <= |c.output|
    ensures Sound(Transmit(c, n)) && Follows(c, Transmit(c, n))
    ensures c.status == Disconnecting ==> Transmit(c, n).output != "" || Transmit(c, n).graceful > c.graceful
    ensures c.status == Connected ==> Transmit(c, n).graceful == c.graceful
    ensures |Transmit(c, n).sent| == |c.sent| + n && Transmit(c, n).accepted == c.accepted
    ensures Transmit(c, n).status == c.status && Transmit(c, n).forced == c.forced
    ensures Out in Transmit(c, n).events <==> Out in c.events && n < |c.output|
  {
    TakenKeeps(c, n);
    if Taken(c, n).output == "" {
      EmptiedKeeps(Taken(c, n));
    }
  }

  lemma RequestKeeps(c: Conn)
    requires Sound(c)
    ensures Sound(Request(c)) && Follows(c, Request(c))
    ensures Request(c).forced == c.forced + 1 && Request(c).status == c.status && Request(c).graceful == c.graceful
  {
  }

  lemma ClosedKeeps(c: Conn)
    requires Sound(c) && c.graceful + c.forced > 0
    ensures Sound(Closed(c)) && Follows(c, Closed(c)) && Closed(c).status == Disconnected
  {
  }

  lemma ReceivedKeeps(c: Conn, data: string)
    requires Sound(c) && c.status != Disconnected
    ensures Sound(Received(c, data)) && Follows(c, Received(c, data))
    ensures Received(c, data).received == c.received + data && Received(c, data).consumed == c.consumed
    ensures Received(c, data).status == c.status
  {
    assert c.consumed + (c.input + data) == (c.consumed + c.input) + data;
  }

  lemma ConsumedKeeps(c: Conn, n: nat)
    requires Sound(c)
    ensures Sound(Consumed(c, n)) && Follows(c, Consumed(c, n))
    ensures |Consumed(c, n).consumed| == |c.consumed| + (if n <= |c.input| then n else |c.input|)
    ensures Consumed(c, n).received == c.received && Consumed(c, n).status == c.status
  {
    var k := if n <= |c.input| then n else |c.input|;
    assert (c.consumed + c.input[..k]) + c.input[k..] == c.consumed + (c.input[..k] + c.input[k..]);
    assert c.input[..k] + c.input[k..] == c.input;
  }

  /** A connection that was released without any forced Release has sent every byte it accepted. */
  lemma GracefulMeansSent(c: Conn)
    requires Sound(c) && c.status == Disconnected && c.forced == 0
    ensures c.sent == c.accepted
  {
  }

  // ---- whole handlers, with the user's callbacks as finite scripts ----

  /** What a callback does to its own connection. */
  datatype Act = Send(data: string) | Shutdown(inner: Script) | Release | Consume(n: nat)

  type Script = seq<Act>

  function Ran(c: Conn, script: Script): Conn
    decreases script, 0
  {
    if script == [] then c else Acted(Ran(c, script[..|script| - 1]), script[|script| - 1])
  }

  function Acted(c: Conn, act: Act): Conn
    decreases act, 1
  {
    match act
    case Send(data) => Accept(c, data)
    case Shutdown(inner) => ShutDown(c, inner)
    case Release => Request(c)
    case Consume(n) => Consumed(c, n)
  }

  /** The message callback is called exactly when there is input. */
  function Delivered(c: Conn, script: Script): Conn
    decreases script, 1
  {
    if c.input != "" then Ran(c, script) else c
  }

  /** ShutdownInLoop; the script is what the message callback does if it is called. */
  function ShutDown(c: Conn, script: Script): Conn
    decreases script, 2
  {
    if Closing(c) then c
    else
      var d := StopReading(c);
      Drain(Delivered(d, script))
  }

  /** HandleRead: None stands for the end of the stream or an error. */
  function ReadSome(c: Conn, result: Result, script: Script): Conn {
    match result
    case Failed => ShutDown(c, script)
    case Got(data) =>
      Delivered(Received(c, data), script)
  }

  datatype Result = Failed | Got(data: string)

  /** HandleClose, HandleError and the failing branch of HandleWrite. */
  function HungUp(c: Conn, script: Script): Conn {
    Request(Delivered(c, script))
  }

  /** HandleWrite; None stands for a failed send. */
  function WriteSome(c: Conn, taken: Option<nat>, script: Script): Conn
    requires taken.Some? ==> taken.value <= |c.output|
  {
    match taken
    case None => HungUp(c, script)
    case Some(n) => Transmit(c, n)
  }

  /** ReleaseInLoop with its closed callbacks. */
  function Released(c: Conn, script: Script): Conn {
    if c.status == Disconnected then c else Ran(Closed(c), script)
  }

  /** A half-closed connection still has bytes to send (and is monitored) or will be released. */
  predicate Draining(c: Conn) {
    c.status == Disconnecting ==> c.output != "" || c.graceful > 0
  }

  /** No callback releases its connection under its caller. */
  lemma {:induction false} RanKeeps(c: Conn, script: Script)
    requires Sound(c) && c.status != Connecting
    ensures Sound(Ran(c, script)) && Follows(c, Ran(c, script))
    ensures Ran(c, script).status == Disconnected ==> c.status == Disconnected
    ensures Draining(c) ==> Draining(Ran(c, script))
    decreases script, 0
  {
    if script == [] {
    } else {
      var d := Ran(c, script[..|script| - 1]);
      RanKeeps(c, script[..|script| - 1]);
      ActedKeeps(d, script[|script| - 1]);
      FollowsTransitive(c, d, Ran(c, script));
    }
  }

  lemma {:induction false} ActedKeeps(c: Conn, act: Act)
    requires Sound(c) && c.status != Connecting
    ensures Sound(Acted(c, act)) && Follows(c, Acted(c, act))
    ensures Acted(c, act).status == Disconnected ==> c.status == Disconnected
    ensures Draining(c) ==> Draining(Acted(c, act))
    decreases act, 1
  {
    match act
    case Send(data) => AcceptKeeps(c, data);
    case Shutdown(inner) => ShutDownKeeps(c, inner);
    case Release => RequestKeeps(c);
    case Consume(n) => ConsumedKeeps(c, n);
  }

  lemma RanStays(c: Conn, script: Script)
    requires Sound(c) && c.status != Connecting
    ensures Ran(c, script).status != Connecting
  {
    RanKeeps(c, script);
  }

  lemma DeliveredStays(c: Conn, script: Script)
    requires Sound(c) && c.status == Disconnecting
    ensures Delivered(c, script).status == Disconnecting
  {
    RanKeeps(c, script);
  }

  /** However the message callback behaves, a shutdown leaves a sound connection that will drain. */
  lemma {:induction false} ShutDownKeeps(c: Conn, script: Script)
    requires Sound(c) && c.status != Connecting
    ensures Sound(ShutDown(c, script)) && Follows(c, ShutDown(c, script))
    ensures ShutDown(c, script).status == Disconnected ==> c.status == Disconnected
    ensures c.status == Connected ==> ShutDown(c, script).status == Disconnecting
    ensures Draining(c) ==> Draining(ShutDown(c, script))
    decreases script, 1
  {
    if !Closing(c) {
      var d := StopReading(c);
      StopReadingKeeps(c);
      RanKeeps(d, script);
      var e := Delivered(d, script);
      DrainKeeps(e);
      FollowsTransitive(c, d, e);
      FollowsTransitive(c, e, Drain(e));
    }
  }

  /** The message callback that ShutdownInLoop runs on the remaining input cannot answer it: the
      status has changed before, so every Send inside it is dropped. */
  lemma ShutdownAcceptsNothing(c: Conn, script: Script)
    requires Sound(c) && c.status == Connected
    ensures ShutDown(c, script).accepted == c.accepted && ShutDown(c, script).status == Disconnecting
    ensures ShutDown(c, script).output == c.output
  {
    var d := StopReading(c);
    StopReadingKeeps(c);
    RanKeeps(d, script);
    DeliveredStays(d, script);
    RanAddsNoOutput(d, script);
  }

  /** A callback on a closing connection neither adds nor removes output. */
  lemma {:induction false} RanAddsNoOutput(c: Conn, script: Script)
    requires Closing(c)
    ensures Closing(Ran(c, script)) && Ran(c, script).output == c.output
  {
    if script != [] {
      RanAddsNoOutput(c, script[..|script| - 1]);
      ActedAddsNoOutput(Ran(c, script[..|script| - 1]), script[|script| - 1]);
    }
  }

  lemma ActedAddsNoOutput(c: Conn, act: Act)
    requires Closing(c)
    ensures Closing(Acted(c, act)) && Acted(c, act).output == c.output
  {
    match act
    case Send(data) =>
    case Shutdown(inner) => assert ShutDown(c, inner) == c;
    case Release =>
    case Consume(n) =>
  }

  // ---- what calls and handlers bring about ----

  /** Two scripts one after the other are one script. */
  lemma {:induction false} RanAppend(c: Conn, first: Script, second: Script)
    ensures Ran(c, first + second) == Ran(Ran(c, first), second)
    decreases |second|
  {
    if second == [] {
      assert first + second == first;
    } else {
      var init := second[..|second| - 1];
      RanAppend(c, first, init);
      assert (first + second)[..|first + second| - 1] == first + init;
    }
  }

  lemma RanOne(c: Conn, act: Act)
    ensures Ran(c, [act]) == Acted(c, act)
  {
    assert [act][..0] == [];
  }

  /** Whatever a callback did before, a Send behind it is taken exactly if the connection is still
      CONNECTED, a Release behind it is counted, and a Shutdown behind it half-closes. */
  lemma LastActCounts(c: Conn, script: Script, data: string, inner: Script)
    requires Sound(c) && c.status != Connecting
    ensures var d := Ran(c, script);
      && Ran(c, script + [Send(data)]).accepted == d.accepted + (if d.status == Connected then data else "")
      && Ran(c, script + [Release]).forced == d.forced + 1
      && (Closing(Ran(c, script + [Shutdown(inner)])))
      && (d.status == Connected ==> Ran(c, script + [Shutdown(inner)]).status == Disconnecting)
  {
    var d := Ran(c, script);
    RanKeeps(c, script);
    RanAppend(c, script, [Send(data)]);
    RanOne(d, Send(data));
    AcceptKeeps(d, data);
    RanAppend(c, script, [Release]);
    RanOne(d, Release);
    RanAppend(c, script, [Shutdown(inner)]);
    RanOne(d, Shutdown(inner));
    ShutDownKeeps(d, inner);
  }

  /** The message callback sees all of the input, and is not called without any. */
  lemma DeliveredMeaning(c: Conn, script: Script)
    requires Sound(c)
    ensures c.input == "" ==> Delivered(c, script) == c
    ensures c.input != "" ==> Delivered(c, [Consume(|c.input|)]).consumed == c.received
    ensures c.input != "" ==> Delivered(c, script) == Ran(c, script)
  {
    RanOne(c, Consume(|c.input|));
    assert c.input[..|c.input|] == c.input;
  }

  /** A read takes over exactly the bytes read, and a failed one half-closes. */
  lemma ReadSomeMeaning(c: Conn, result: Result, script: Script)
    requires Sound(c) && (c.status == Connected || c.status == Disconnecting)
    ensures result.Got? ==> ReadSome(c, result, script).received == c.received + result.data
    ensures result.Failed? ==> ReadSome(c, result, script).received == c.received
    ensures result.Failed? && c.status == Connected ==> ReadSome(c, result, script).status == Disconnecting
    ensures result.Got? && c.input + result.data != "" ==> ReadSome(c, result, script) == Ran(Received(c, result.data), script)
  {
    match result
    case Failed =>
      ShutDownKeeps(c, script);
      ShutDownReceivesNothing(c, script);
    case Got(data) =>
      ReceivedKeeps(c, data);
      RanReceivesNothing(Received(c, data), script);
      DeliveredMeaning(Received(c, data), script);
  }

  /** The message callback of a shutdown gets what was not consumed before, and what it asks for counts. */
  lemma ShutDownDelivers(c: Conn)
    requires Sound(c) && c.status == Connected && c.input != ""
    ensures ShutDown(c, [Consume(|c.input|)]).consumed == c.received
    ensures ShutDown(c, [Release]).forced == c.forced + 1
  {
    var d := StopReading(c);
    StopReadingKeeps(c);
    DeliveredMeaning(d, [Consume(|c.input|)]);
    RanOne(d, Release);
  }

  lemma {:induction false} RanReceivesNothing(c: Conn, script: Script)
    ensures Ran(c, script).received == c.received
    decreases script, 0
  {
    if script != [] {
      RanReceivesNothing(c, script[..|script| - 1]);
      var d, act := Ran(c, script[..|script| - 1]), script[|script| - 1];
      match act
      case Shutdown(inner) => ShutDownReceivesNothing(d, inner);
      case _ =>
    }
  }

  lemma {:induction false} ShutDownReceivesNothing(c: Conn, script: Script)
    ensures ShutDown(c, script).received == c.received
    decreases script, 1
  {
    if !Closing(c) {
      RanReceivesNothing(StopReading(c), script);
    }
  }

  /** A hang-up, an error and a failed send each ask for the release once more than the message
      callback did; a successful send gives the kernel that many bytes more. */
  lemma WriteSomeMeaning(c: Conn, taken: Option<nat>, script: Script)
    requires Sound(c) && (c.status == Connected || c.status == Disconnecting)
    requires taken.Some? ==> taken.value <= |c.output|
    ensures HungUp(c, script).forced == Delivered(c, script).forced + 1 > c.forced
    ensures taken.None? ==> WriteSome(c, taken, script).forced == Delivered(c, script).forced + 1
    ensures taken.Some? ==> |WriteSome(c, taken, script).sent| == |c.sent| + taken.value
    ensures taken.Some? && c.status == Disconnecting && taken.value == |c.output| ==>
      WriteSome(c, taken, script).graceful > c.graceful
  {
    RanKeeps(c, script);
    if taken.Some? {
      TransmitKeeps(c, taken.value);
      if taken.value == |c.output| {
        var d := Transmit(c, taken.value);
        assert |d.sent + d.output| == |c.sent + c.output|;
      }
    }
  }

  /** The first run of a queued release closes the connection, whatever its callbacks do; then
      nothing is left to release. */
  lemma ReleasedMeaning(c: Conn, script: Script)
    requires Sound(c) && c.graceful + c.forced > 0
    ensures Released(c, script).status == Disconnected && Released(c, script).closed == 1
    ensures !Released(c, script).registered
    ensures c.status == Disconnected ==> Released(c, script) == c
    ensures c.status != Disconnected ==> Released(c, [Release]).forced == c.forced + 1
  {
    if c.status != Disconnected {
      RanOne(Closed(c), Release);
      ClosedKeeps(c);
      RanKeeps(Closed(c), script);
    }
  }

  // ---- the object ----

  /** The loop of a connection: its poller, and the ReleaseInLoop calls waiting in its queue. */
  class Loop {
    const poller: Poller
    var releases: seq<Connection>

    constructor (poller: Poller)
      ensures this.poller == poller && releases == []
    {
      this.poller := poller;
      releases := [];
    }
  }

  ghost function Copies(c: Connection, k: nat): seq<Connection> {
    if k == 0 then [] else Copies(c, k - 1) + [c]
  }

  lemma {:induction false} CopiesAdd(c: Connection, j: nat, k: nat)
    ensures Copies(c, j) + Copies(c, k) == Copies(c, j + k)
  {
    if k == 0 {
      assert Copies(c, j) + [] == Copies(c, j);
    } else {
      CopiesAdd(c, j, k - 1);
      assert Copies(c, j) + (Copies(c, k - 1) + [c]) == (Copies(c, j) + Copies(c, k - 1)) + [c];
    }
  }

  ghost predicate Posted(before: seq<Connection>, after: seq<Connection>, c: Connection, k: nat) {
    after == before + Copies(c, k)
  }

  lemma PostedChain(first: seq<Connection>, second: seq<Connection>, third: seq<Connection>,
                    c: Connection, j: nat, k: nat)
    requires Posted(first, second, c, j) && Posted(second, third, c, k)
    ensures Posted(first, third, c, j + k)
  {
    CopiesAdd(c, j, k);
    assert (first + Copies(c, j)) + Copies(c, k) == first + (Copies(c, j) + Copies(c, k));
  }

  lemma CopiesOne(c: Connection)
    ensures Copies(c, 1) == [c] && Copies(c, 0) == []
  {
    assert Copies(c, 1) == Copies(c, 0) + [c];
  }

  class Connection {
    const channel: Channel
    const loop: Loop
    var status: Status
    var input: string
    var output: string
    ghost var received: string
    ghost var consumed: string
    ghost var accepted: string
    ghost var sent: string
    ghost var graceful: nat
    ghost var forced: nat
    ghost var closed: nat

    ghost function View(): Conn
      reads this, channel, loop.poller
    {
      var registered := channel.fd in loop.poller.channels && loop.poller.channels[channel.fd] == channel;
      Conn(channel.fd, status, channel.events, registered, input, output,
           received, consumed, accepted, sent, graceful, forced, closed)
    }

    /** The connection is sound, the poller mirrors the kernel, and until the release the
        descriptor belongs to this connection. */
    ghost predicate Valid()
      reads this, channel, loop, loop.poller
      reads set fd | fd in loop.poller.channels :: loop.poller.channels[fd]
    {
      && Sound(View())
      && loop.poller.Mirrors()
      && (status != Disconnected ==> channel.Owns(loop.poller))
    }

    /** The tasks queued since: one ReleaseInLoop of this connection for every counted Release. */
    ghost predicate Queued(releases: seq<Connection>, requests: nat)
      reads this, loop
    {
      && requests <= graceful + forced
      && Posted(releases, loop.releases, this, graceful + forced - requests)
    }

    /** The other registrations are as they were, and no call of epoll_ctl was refused. */
    ghost predicate Undisturbed(channels: map<Fd, Channel>, refused: seq<(CtlOp, Fd)>)
      reads loop.poller
    {
      loop.poller.channels - {channel.fd} == channels - {channel.fd} && loop.poller.refused == refused
    }

    constructor (loop: Loop, fd: Fd)
      requires loop.poller.Mirrors() && fd in loop.poller.kernel.open && fd !in loop.poller.channels
      ensures this.loop == loop && fresh(channel) && Valid() && View() == New(fd)
    {
      this.loop := loop;
      channel := new Channel(fd);
      status, input, output := Connecting, "", "";
      received, consumed, accepted, sent, graceful, forced, closed := "", "", "", "", 0, 0, 0;
    }

    /** Any thread may ask at any time, the inactivity timer even before Established. */
    method Release()
      requires Valid()
      modifies this, loop
      ensures Valid() && View() == Request(old(View()))
      ensures loop.releases == old(loop.releases) + [this]
    {
      RequestKeeps(View());
      loop.releases := loop.releases + [this];
      forced := forced + 1;
    }

    /** `if (!WriteAble()) EnableWrite();` */
    method MonitorWrite()
      requires loop.poller.Mirrors() && channel.Owns(loop.poller)
      requires channel.fd in loop.poller.channels
      modifies channel, loop.poller
      ensures loop.poller.Mirrors() && channel.Owns(loop.poller)
      ensures View() == Monitored(old(View()))
      ensures Undisturbed(old(loop.poller.channels), old(loop.poller.refused))
    {
      if Out !in channel.events {
        channel.EnableWrite(loop.poller);
      }
    }

    method EstablishedInLoop(script: Script)
      requires Valid() && status == Connecting
      modifies this, channel, loop, loop.poller
      ensures Valid() && View() == Ran(Establish(old(View())), script)
      ensures Queued(old(loop.releases), old(graceful + forced))
      ensures Undisturbed(old(loop.poller.channels), old(loop.poller.refused))
    {
      EstablishKeeps(View());
      status := Connected;
      channel.EnableRead(loop.poller);
      Call(script);
    }

    /** A user callback. */
    method Call(script: Script)
      requires Valid() && status != Connecting
      modifies this, channel, loop, loop.poller
      ensures Valid() && View() == Ran(old(View()), script)
      ensures Queued(old(loop.releases), old(graceful + forced))
      ensures Undisturbed(old(loop.poller.channels), old(loop.poller.refused))
      decreases script, 0
    {
      ghost var releases, requests := loop.releases, graceful + forced;
      if script != [] {
        RanStays(View(), script[..|script| - 1]);
        Call(script[..|script| - 1]);
        ghost var before, more := loop.releases, graceful + forced;
        Perform(script[|script| - 1]);
        PostedChain(releases, before, loop.releases, this, more - requests, graceful + forced - more);
      }
    }

    method Perform(act: Act)
      requires Valid() && status != Connecting
      modifies this, channel, loop, loop.poller
      ensures Valid() && View() == Acted(old(View()), act)
      ensures Queued(old(loop.releases), old(graceful + forced))
      ensures Undisturbed(old(loop.poller.channels), old(loop.poller.refused))
      decreases act, 1
    {
      match act {
        case Send(data) => SendInLoop(data);
        case Shutdown(inner) => ShutdownInLoop(inner);
        case Release =>
          Release();
          CopiesOne(this);
        case Consume(n) =>
          ConsumedKeeps(View(), n);
          var k := if n <= |input| then n else |input|;
          input, consumed := input[k..], consumed + input[..k];
      }
    }

    method SendInLoop(data: string)
      requires Valid()
      modifies this, channel, loop.poller
      ensures Valid() && View() == Accept(old(View()), data)
      ensures old(status) == Connected ==>
        output == old(output) + data && accepted == old(accepted) + data && Out in channel.events
      ensures old(status) != Connected ==> View() == old(View())
      ensures Undisturbed(old(loop.poller.channels), old(loop.poller.refused))
    {
      AcceptKeeps(View(), data);
      if status != Connected {
        return;
      }
      output, accepted := output + data, accepted + data;
      MonitorWrite();
    }

    method DisableRead()
      requires Valid() && status == Connected
      modifies this`status, channel, loop.poller
      ensures Valid() && View() == StopReading(old(View()))
      ensures Undisturbed(old(loop.poller.channels), old(loop.poller.refused))
    {
      StopReadingKeeps(View());
      status := Disconnecting;
      channel.DisableRead(loop.poller);
    }

    method DrainOutput()
      requires Valid() && status == Disconnecting
      modifies this`graceful, channel, loop, loop.poller
      ensures Valid() && View() == Drain(old(View()))
      ensures Queued(old(loop.releases), old(graceful + forced))
      ensures Undisturbed(old(loop.poller.channels), old(loop.poller.refused))
    {
      DrainKeeps(View());
      CopiesOne(this);
      if output != "" {
        MonitorWrite();
      }
      if output == "" {
        loop.releases := loop.releases + [this];
        graceful := graceful + 1;
      }
    }

    /** `if (_in_buffer.ReadableBytes() > 0 && _message_cb) _message_cb(...)` */
    method Deliver(script: Script)
      requires Valid() && status != Connecting
      modifies this, channel, loop, loop.poller
      ensures Valid() && View() == Delivered(old(View()), script)
      ensures Queued(old(loop.releases), old(graceful + forced))
      ensures Undisturbed(old(loop.poller.channels), old(loop.poller.refused))
      decreases script, 1
    {
      CopiesOne(this);
      if input != "" {
        Call(script);
      }
    }

    /** ShutdownInLoop up to the end of the message callback. */
    method HalfClose(script: Script)
      requires Valid() && status == Connected
      modifies this, channel, loop, loop.poller
      ensures Valid() && View() == Delivered(StopReading(old(View())), script) && status == Disconnecting
      ensures Queued(old(loop.releases), old(graceful + forced))
      ensures Undisturbed(old(loop.poller.channels), old(loop.poller.refused))
      decreases script, 2
    {
      DisableRead();
      DeliveredStays(View(), script);
      Deliver(script);
    }

    method ShutdownInLoop(script: Script)
      requires Valid() && status != Connecting
      modifies this, channel, loop, loop.poller
      ensures Valid() && View() == ShutDown(old(View()), script)
      ensures Queued(old(loop.releases), old(graceful + forced))
      ensures Undisturbed(old(loop.poller.channels), old(loop.poller.refused))
      decreases script, 3
    {
      CopiesOne(this);
      if status == Connected {
        ghost var releases, requests := loop.releases, graceful + forced;
        HalfClose(script);
        ghost var before, more := loop.releases, graceful + forced;
        DrainOutput();
        PostedChain(releases, before, loop.releases, this, more - requests, graceful + forced - more);
      }
    }

    method HandleRead(result: Result, script: Script)
      requires Valid() && (status == Connected || status == Disconnecting)
      modifies this, channel, loop, loop.poller
      ensures Valid() && View() == ReadSome(old(View()), result, script)
      ensures Queued(old(loop.releases), old(graceful + forced))
      ensures Undisturbed(old(loop.poller.channels), old(loop.poller.refused))
    {
      match result {
        case Failed => ShutdownInLoop(script);
        case Got(data) =>
          ReceivedKeeps(View(), data);
          input, received := input + data, received + data;
          Deliver(script);
      }
    }

    method HandleClose(script: Script)
      requires Valid() && status != Connecting
      modifies this, channel, loop, loop.poller
      ensures Valid() && View() == HungUp(old(View()), script)
      ensures Queued(old(loop.releases), old(graceful + forced))
      ensures Undisturbed(old(loop.poller.channels), old(loop.poller.refused))
    {
      ghost var releases, requests := loop.releases, graceful + forced;
      RanStays(View(), script);
      Deliver(script);
      ghost var before, more := loop.releases, graceful + forced;
      ghost var after := Request(View());
      Release();
      assert View() == after && graceful + forced == more + 1;
      CopiesOne(this);
      PostedChain(releases, before, loop.releases, this, more - requests, 1);
    }

    /** Nothing is left to write: a half-closed connection asks for its release. */
    method StopWriting()
      requires Valid() && (status == Connected || status == Disconnecting) && output == ""
      modifies this`graceful, channel, loop, loop.poller
      ensures Valid() && View() == Emptied(old(View()))
      ensures Queued(old(loop.releases), old(graceful + forced))
      ensures Undisturbed(old(loop.poller.channels), old(loop.poller.refused))
    {
      EmptiedKeeps(View());
      channel.DisableWrite(loop.poller);
      if status == Disconnecting {
        loop.releases := loop.releases + [this];
        graceful := graceful + 1;
      }
      CopiesOne(this);
    }

    method MoveReadoffset(n: nat)
      requires Valid() && status != Disconnected && n <= |output|
      modifies this`output, this`sent
      ensures Valid() && View() == Taken(old(View()), n)
    {
      TakenKeeps(View(), n);
      sent, output := sent + output[..n], output[n..];
    }

    method HandleSent(n: nat)
      requires Valid() && (status == Connected || status == Disconnecting) && n <= |output|
      modifies this, channel, loop, loop.poller
      ensures Valid() && View() == Transmit(old(View()), n)
      ensures Queued(old(loop.releases), old(graceful + forced))
      ensures Undisturbed(old(loop.poller.channels), old(loop.poller.refused))
    {
      MoveReadoffset(n);
      CopiesOne(this);
      if output == "" {
        StopWriting();
      }
    }

    method HandleWrite(taken: Option<nat>, script: Script)
      requires Valid() && (status == Connected || status == Disconnecting)
      requires taken.Some? ==> taken.value <= |output|
      modifies this, channel, loop, loop.poller
      ensures Valid() && View() == WriteSome(old(View()), taken, script)
      ensures Queued(old(loop.releases), old(graceful + forced))
      ensures Undisturbed(old(loop.poller.channels), old(loop.poller.refused))
    {
      match taken {
        case None => HandleClose(script);
        case Some(n) => HandleSent(n);
      }
    }

    /** The refused call of epoll_ctl behind the release of a connection in this state. */
    function Unknown(before: Status): seq<(CtlOp, Fd)> {
      if before == Connecting then [(CtlDel, channel.fd)] else []
    }

    /** The registration and the descriptor go.  A connection that was never established has no
        registration, so the kernel refuses to remove it. */
    method Close()
      requires Valid() && status != Disconnected && graceful + forced > 0
      modifies this`status, this`closed, loop.poller
      ensures Valid() && View() == Closed(old(View())) && status == Disconnected
      ensures loop.poller.channels == old(loop.poller.channels) - {channel.fd}
      ensures loop.poller.kernel == old(loop.poller.kernel).Close(channel.fd)
      ensures channel.fd !in loop.poller.kernel.open && channel.fd !in loop.poller.kernel.interest
      ensures loop.poller.refused == old(loop.poller.refused) + Unknown(old(status))
    {
      ClosedKeeps(View());
      assert channel.fd in loop.poller.channels <==> status != Connecting by {
        assert View().registered <==> status != Connecting;
      }
      ghost var after := Closed(View());
      status := Disconnected;
      channel.Remove(loop.poller);
      loop.poller.kernel := loop.poller.kernel.Close(channel.fd);
      closed := closed + 1;
      assert View() == after;
    }

    /** The queued task: only its first run does anything, and that ends with the closed callbacks. */
    method ReleaseInLoop(script: Script)
      requires Valid() && graceful + forced > 0
      modifies this, channel, loop, loop.poller
      ensures Valid() && View() == Released(old(View()), script)
      ensures Queued(old(loop.releases), old(graceful + forced))
      ensures Undisturbed(old(loop.poller.channels), old(loop.poller.refused) + Unknown(old(status)))
    {
      CopiesOne(this);
      if status != Disconnected {
        Close();
        Call(script);
      }
    }
  }
}
