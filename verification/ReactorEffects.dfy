/** What every call, handler and task of one loop brings about, and which bytes a run transfers. */
module ReactorEffects {
  import opened Wrappers
  import opened Pollers
  import opened Connections
  import opened Reactors

  // ---- single pieces ----

  /** What a half-close brings about, with the message callback on the remaining input still to come. */
  ghost predicate HalfCloses(s: State, t: State, id: Id) {
    id in s.conns && id in t.conns
    && (if Closing(s.conns[id]) then t.conns[id] == s.conns[id] && t.stack == s.stack
        else
          t.conns[id].status == Disconnecting && In !in t.conns[id].events
          && t.conns[id].input == s.conns[id].input && t.conns[id].output == s.conns[id].output
          && t.stack == s.stack + [Finish(id)] + (if s.conns[id].input != "" then [User] else []))
  }

  /** What a send brings about: all of its data is accepted, in this order, or nothing. */
  ghost predicate Sends(s: State, t: State, id: Id, data: string) {
    id in s.conns && id in t.conns
    && t.conns[id].accepted == s.conns[id].accepted + (if s.conns[id].status == Connected then data else "")
    && t.conns[id].sent == s.conns[id].sent && t.conns[id].status == s.conns[id].status
    && (s.conns[id].status == Connected ==> Out in t.conns[id].events)
    && t.queue == s.queue && t.stack == s.stack
  }

  /** What asking for a release brings about: the task is queued, and nothing else happens yet. */
  ghost predicate Asks(s: State, t: State, id: Id) {
    id in s.conns && id in t.conns
    && t.queue == s.queue + [ReleaseTask(id)] && t.conns[id].status == s.conns[id].status && t.stack == s.stack
  }

  lemma ShutMeaning(s: State, id: Id)
    requires ConnsOk(s) && Visible(s, id)
    ensures HalfCloses(s, Shut(s, id), id)
  {
    assert ConnOk(s, id);
    if !Closing(s.conns[id]) {
      StopReadingKeeps(s.conns[id]);
    }
  }

  lemma SendMeaning(s: State, id: Id, data: string)
    requires ConnsOk(s) && id in s.conns
    ensures Sends(s, Commit(s, id, Connections.Accept(s.conns[id], data)), id, data)
  {
    assert ConnOk(s, id);
    AcceptKeeps(s.conns[id], data);
  }

  lemma RequestMeaning(s: State, id: Id)
    requires ConnsOk(s) && id in s.conns
    ensures Asks(s, Commit(s, id, Request(s.conns[id])), id)
  {
    assert ConnOk(s, id);
    RequestKeeps(s.conns[id]);
  }

  // ---- the calls of the user, and the inactivity timer ----

  lemma CallMeaning(s: State, a: Action)
    requires Inv(s) && Enabled(s, a)
    ensures a.CallSend? ==> Sends(s, Next(s, a), a.id, a.data)
    ensures a.CallShutdown? ==> HalfCloses(s, Next(s, a), a.id)
    ensures a.CallRelease? || a.Expire? ==> Asks(s, Next(s, a), a.id)
    ensures a.Expire? ==> a.id !in Next(s, a).armed
  {
    if a.CallSend? {
      SendMeaning(s, a.id, a.data);
    } else if a.CallShutdown? {
      ShutMeaning(s, a.id);
    } else if a.CallRelease? {
      RequestMeaning(s, a.id);
    } else if a.Expire? {
      assert ConnOk(s, a.id);
      RequestKeeps(s.conns[a.id]);
    }
  }

  lemma ConsumeMeaning(s: State, id: Id, n: nat)
    requires Inv(s) && Enabled(s, CallConsume(id, n))
    ensures var t, c := Next(s, CallConsume(id, n)), s.conns[id];
      && id in t.conns && |t.conns[id].consumed| == |c.consumed| + (if n <= |c.input| then n else |c.input|)
      && t.conns[id].consumed <= c.consumed + c.input
  {
    assert ConnOk(s, id);
    ConsumedKeeps(s.conns[id], n);
    var d := Consumed(s.conns[id], n);
    assert d.consumed + d.input == s.conns[id].consumed + s.conns[id].input;
    assert d.consumed <= d.consumed + d.input;
  }

  // ---- the handlers of a channel ----

  /** HandleEvent goes on behind the handler with the next callback. */
  lemma AdvanceMeaning(s: State)
    requires s.stack != [] && Top(s).Handling? && Top(s).rest != []
    ensures Top(Advance(s)) == Handling(Top(s).id, Top(s).rest[1..]) && |Advance(s).stack| == |s.stack|
    ensures Advance(s).(stack := s.stack) == s
  {
  }

  /** A read takes over the bytes and calls the message callback if there is input then; a failed one
      half-closes. */
  lemma ReadMeaning(s: State, result: Result)
    requires Inv(s) && Enabled(s, Read(result))
    ensures var t, u, id := Next(s, Read(result)), Advance(s), Top(s).id;
      && id in t.conns
      && (result.Failed? ==> HalfCloses(u, t, id))
      && (result.Got? ==>
            && t.conns[id].received == s.conns[id].received + result.data
            && t.conns[id].consumed == s.conns[id].consumed && t.queue == s.queue
            && t.stack == u.stack + (if t.conns[id].input != "" then [User] else []))
  {
    AdvanceKeeps(s);
    var id := Top(s).id;
    assert ConnOk(s, id);
    match result
    case Failed => ShutMeaning(Advance(s), id);
    case Got(data) => ReceivedKeeps(s.conns[id], data);
  }

  /** A write hands the kernel its part of the output; when that was all, writing is no longer monitored
      and a half-closed connection is to be released. */
  lemma WriteMeaning(s: State, n: nat)
    requires Inv(s) && Enabled(s, Write(Some(n)))
    ensures var t, id := Next(s, Write(Some(n))), Top(s).id; var c := s.conns[id];
      && id in t.conns && |t.conns[id].sent| == |c.sent| + n && t.conns[id].accepted == c.accepted
      && t.stack == Advance(s).stack
      && (Out in t.conns[id].events <==> Out in c.events && n < |c.output|)
      && t.queue == s.queue + (if c.status == Disconnecting && n == |c.output| then [ReleaseTask(id)] else [])
  {
    AdvanceKeeps(s);
    var id := Top(s).id;
    assert ConnOk(s, id);
    TransmitKeeps(s.conns[id], n);
    var d := Transmit(s.conns[id], n);
    assert |d.sent + d.output| == |s.conns[id].sent + s.conns[id].output|;
    TransmitGraceful(s.conns[id], n);
  }

  lemma TransmitGraceful(c: Conn, n: nat)
    requires n <= |c.output|
    ensures n < |c.output| ==> Transmit(c, n).graceful == c.graceful
  {
  }

  /** A hang-up, an error and a failed write call the message callback if there is input; behind it
      the connection will be asked to release. */
  lemma HangMeaning(s: State, a: Action)
    requires Inv(s) && Enabled(s, a) && (a.Close? || a == Write(None))
    ensures var t, u, id := Next(s, a), Advance(s), Top(s).id;
      && t.conns == s.conns && t.queue == s.queue
      && t.stack == u.stack + [Hang(id)] + (if s.conns[id].input != "" then [User] else [])
  {
  }

  lemma EventMeaning(s: State)
    requires Enabled(s, Event)
    ensures Next(s, Event).conns == s.conns && Next(s, Event).stack == Advance(s).stack + [User]
  {
  }

  lemma FinishHangMeaning(s: State)
    requires Inv(s) && Enabled(s, FinishHang)
    ensures Asks(Pop(s), Next(s, FinishHang), Top(s).id)
  {
    PopSafe(s);
    RequestMeaning(Pop(s), Top(s).id);
  }

  /** Behind the message callback of a half-close: output that is left is monitored, and without any the
      connection is to be released. */
  lemma FinishShutdownMeaning(s: State)
    requires Inv(s) && Enabled(s, FinishShutdown)
    ensures var t, id := Next(s, FinishShutdown), Top(s).id;
      && id in t.conns && t.conns[id].output == s.conns[id].output && t.stack == Pop(s).stack
      && t.queue == s.queue + (if s.conns[id].output == "" then [ReleaseTask(id)] else [])
      && (s.conns[id].output != "" ==> Out in t.conns[id].events)
  {
    PopSafe(s);
    assert ConnOk(s, Top(s).id);
    DrainKeeps(s.conns[Top(s).id]);
  }

  // ---- the queued tasks ----

  lemma EstablishMeaning(s: State, id: Id)
    requires ConnsOk(s) && id in s.conns && s.conns[id].status == Connecting
    ensures var t := RunOne(s, Established(id));
      && id in t.conns && t.conns[id].status == Connected && In in t.conns[id].events
      && t.conns[id].fd in t.channels && t.channels[t.conns[id].fd] == id
      && t.stack == s.stack + [User] && t.revived == s.revived
  {
    assert ConnOk(s, id);
    EstablishKeeps(s.conns[id]);
    OwnChannel(s, id);
  }

  /** The first release of a connection ends its registration, gives its descriptor back, cancels its
      timer and calls the closed callbacks; the later ones do nothing. */
  lemma ReleaseMeaning(s: State, id: Id)
    requires ConnsOk(s) && id in s.conns && s.conns[id].graceful + s.conns[id].forced > 0
    ensures var t := RunOne(s, ReleaseTask(id));
      if s.conns[id].status == Disconnected then t == s
      else
        && id in t.conns && t.conns[id].status == Disconnected
        && s.conns[id].fd !in t.channels && s.conns[id].fd !in t.owner && id !in t.armed
        && t.stack == s.stack + [User] && t.queue == s.queue
  {
    assert ConnOk(s, id);
    ClosedKeeps(s.conns[id]);
  }

  lemma TaskMeaning(s: State, id: Id, data: string)
    requires ConnsOk(s) && id in s.conns
    ensures Sends(s, RunOne(s, SendTask(id, data)), id, data)
    ensures Visible(s, id) ==> HalfCloses(s, RunOne(s, ShutdownTask(id)), id)
    ensures id in RunOne(s, EnableIdle(id)).armed && RunOne(s, EnableIdle(id)).conns == s.conns
    ensures RunOne(s, Functor).stack == s.stack + [User] && RunOne(s, Functor).conns == s.conns
  {
    SendMeaning(s, id, data);
    if Visible(s, id) {
      ShutMeaning(s, id);
    }
  }

  // ---- the loop ----

  /** Poll hands out every report of a registered descriptor, in order, to the connection that is
      registered for it. */
  lemma {:induction false} ActivesMeaning(channels: map<Fd, Id>, ready: seq<(Fd, Mask)>)
    ensures |Actives(channels, ready)| == |ready|
    ensures forall k :: 0 <= k < |ready| && ready[k].0 in channels ==>
      Actives(channels, ready)[k] == Own(channels[ready[k].0], ready[k].1)
    ensures forall k :: 0 <= k < |ready| && ready[k].0 !in channels ==> Actives(channels, ready)[k] == Internal
  {
    if ready != [] {
      ActivesMeaning(channels, ready[..|ready| - 1]);
    }
  }

  /** What Poll reported is dispatched, report by report, with all callbacks of its mask; then what is
      queued is run. */
  lemma DispatchedInTurn(s: State, a: Action)
    requires Enabled(s, a) && (a.Poll? || a.Dispatch? || a.EndDispatch?)
    ensures a.Poll? ==> Next(s, a).phase == Dispatching(Actives(s.channels, a.ready))
    ensures a.Dispatch? && s.phase.actives[0].Own? ==>
      Next(s, a).stack == [Handling(s.phase.actives[0].id, Dispatched(s.phase.actives[0].revents))]
    ensures a.Dispatch? && s.phase.actives[0].Internal? ==> Next(s, a).stack == [User]
    ensures a.Dispatch? ==> s.phase.actives == [s.phase.actives[0]] + Next(s, a).phase.actives
    ensures a.EndDispatch? ==> Next(s, a).phase == Running(s.queue) && Next(s, a).queue == []
  {
  }

  /** What is queued while a task runs waits for the next turn: it does not join the batch. */
  lemma RunOneQueues(s: State, task: Task)
    requires Runnable(s, task)
    ensures s.queue <= RunOne(s, task).queue && RunOne(s, task).phase == s.phase
  {
  }

  lemma BatchInTurn(s: State)
    requires Enabled(s, RunTask)
    ensures Next(s, RunTask).phase == Running(s.phase.batch[1..]) && s.queue <= Next(s, RunTask).queue
  {
    RunOneQueues(s.(phase := Running(s.phase.batch[1..])), s.phase.batch[0]);
  }

  lemma QueuedInTurn(s: State, a: Action)
    requires Enabled(s, a) && (a.EndTasks? || a.Post? || a.PostEstablished?)
    ensures a.EndTasks? ==> Next(s, a) == s.(phase := Polling)
    ensures a.Post? ==> Next(s, a) == s.(queue := s.queue + [a.task])
    ensures a.PostEstablished? ==> Next(s, a) == s.(queue := s.queue + s.coming, coming := [])
  {
  }

  /** A new connection: NewConnection has its two tasks to post, in this order; in its own loop it is
      established at once. */
  lemma AcceptMeaning(s: State, a: Action)
    requires Enabled(s, a) && (a.Accept? || a.CallAccept?)
    ensures var t := Next(s, a);
      && a.id in t.conns && t.conns[a.id].fd == a.fd && a.fd in t.owner && t.owner[a.fd] == a.id
      && (a.Accept? ==>
            && t.conns[a.id].status == Connecting && t.coming == [Established(a.id)]
            && t.queue == s.queue + (if s.idle then [EnableIdle(a.id)] else []))
      && (a.CallAccept? ==> t.conns[a.id].status == Connected && a.fd in t.channels && InUser(t))
  {
  }

  // ---- the bytes of a run ----

  /** The bytes that a step reads for a connection. */
  function ReadFor(s: State, a: Action, id: Id): string
    requires Enabled(s, a)
  {
    if a.Read? && a.result.Got? && Top(s).id == id then a.result.data else ""
  }

  /** The bytes that it hands over for sending: they count if the connection is CONNECTED at that
      moment, be the call made on the loop's thread or queued by another one. */
  function SentTo(s: State, a: Action, id: Id): string
    requires Enabled(s, a)
  {
    if id !in s.conns || s.conns[id].status != Connected then ""
    else if a.CallSend? && a.id == id then a.data
    else if a.RunTask? && s.phase.batch[0].SendTask? && s.phase.batch[0].id == id then s.phase.batch[0].data
    else ""
  }

  function AllRead(idle: bool, schedule: seq<Action>, id: Id): string {
    if schedule == [] then ""
    else
      var s, a := Exec(idle, schedule[..|schedule| - 1]), schedule[|schedule| - 1];
      AllRead(idle, schedule[..|schedule| - 1], id) + (if Enabled(s, a) then ReadFor(s, a, id) else "")
  }

  function AllSent(idle: bool, schedule: seq<Action>, id: Id): string {
    if schedule == [] then ""
    else
      var s, a := Exec(idle, schedule[..|schedule| - 1]), schedule[|schedule| - 1];
      AllSent(idle, schedule[..|schedule| - 1], id) + (if Enabled(s, a) then SentTo(s, a, id) else "")
  }

  /** What a connection has received and accepted when it is not known yet: nothing. */
  function ReceivedBy(s: State, id: Id): string {
    if id in s.conns then s.conns[id].received else ""
  }

  function AcceptedBy(s: State, id: Id): string {
    if id in s.conns then s.conns[id].accepted else ""
  }

  ghost predicate Transfers(s: State, t: State, id: Id, read: string, sent: string) {
    ReceivedBy(t, id) == ReceivedBy(s, id) + read && AcceptedBy(t, id) == AcceptedBy(s, id) + sent
  }

  /** Neither touches these bytes. */
  predicate SameBytes(c: Conn, d: Conn) {
    d.received == c.received && d.accepted == c.accepted
  }

  lemma CommitTransfers(s: State, x: Id, d: Conn, id: Id)
    requires x in s.conns && SameBytes(s.conns[x], d)
    ensures Transfers(s, Commit(s, x, d), id, "", "")
  {
  }

  lemma ShutTransfers(s: State, x: Id, id: Id)
    requires x in s.conns
    ensures Transfers(s, Shut(s, x), id, "", "")
  {
    if !Closing(s.conns[x]) {
      CommitTransfers(s, x, StopReading(s.conns[x]), id);
    }
  }

  lemma AcceptTransfers(s: State, x: Id, data: string, id: Id)
    requires x in s.conns
    ensures Transfers(s, Commit(s, x, Connections.Accept(s.conns[x], data)), id, "",
                      if x == id && s.conns[x].status == Connected then data else "")
  {
    if s.conns[x].status != Connected {
      CommitTransfers(s, x, s.conns[x], id);
    }
  }

  lemma CallTransfers(s: State, a: Action, id: Id)
    requires Enabled(s, a) && (InCallback(a) || a.Expire?)
    ensures Transfers(s, Next(s, a), id, ReadFor(s, a, id), SentTo(s, a, id))
  {
    match a
    case CallSend(x, data) => AcceptTransfers(s, x, data, id);
    case CallShutdown(x) => ShutTransfers(s, x, id);
    case CallRelease(x) => CommitTransfers(s, x, Request(s.conns[x]), id);
    case Expire(x) => CommitTransfers(s.(armed := s.armed - {x}), x, Request(s.conns[x]), id);
    case CallConsume(x, n) => CommitTransfers(s, x, Consumed(s.conns[x], n), id);
  }

  lemma TransmitSame(c: Conn, n: nat)
    requires n <= |c.output|
    ensures SameBytes(c, Transmit(c, n))
  {
  }

  lemma HandlerTransfers(s: State, a: Action, id: Id)
    requires Enabled(s, a) && InHandler(a)
    ensures Transfers(s, Next(s, a), id, ReadFor(s, a, id), SentTo(s, a, id))
  {
    var u, x := Advance(s), Top(s).id;
    AdvanceMeaning(s);
    match a
    case Read(Failed) => ShutTransfers(u, x, id);
    case Read(Got(data)) =>
    case Write(None) =>
    case Write(Some(n)) =>
      TransmitSame(s.conns[x], n);
      CommitTransfers(u, x, Transmit(s.conns[x], n), id);
    case Close =>
    case Event =>
  }

  lemma RunOneTransfers(s: State, task: Task, id: Id)
    requires Runnable(s, task)
    ensures Transfers(s, RunOne(s, task), id, "",
                      if task.SendTask? && task.id == id && s.conns[id].status == Connected then task.data else "")
  {
    match task
    case EnableIdle(_) =>
    case Established(x) => CommitTransfers(s, x, Establish(s.conns[x]), id);
    case SendTask(x, data) => AcceptTransfers(s, x, data, id);
    case ShutdownTask(x) => ShutTransfers(s, x, id);
    case ReleaseTask(x) =>
    case Functor =>
  }

  lemma TaskTransfers(s: State, id: Id)
    requires Enabled(s, RunTask)
    ensures Transfers(s, Next(s, RunTask), id, "", SentTo(s, RunTask, id))
  {
    RunOneTransfers(s.(phase := Running(s.phase.batch[1..])), s.phase.batch[0], id);
  }

  lemma FinishTransfers(s: State, a: Action, id: Id)
    requires Enabled(s, a) && (a.FinishHang? || a.FinishShutdown?)
    ensures Transfers(s, Next(s, a), id, "", "")
  {
    var c := s.conns[Top(s).id];
    CommitTransfers(Pop(s), Top(s).id, if a.FinishHang? then Request(c) else Drain(c), id);
  }

  lemma StepTransfers(s: State, a: Action, id: Id)
    requires Enabled(s, a)
    ensures Transfers(s, Next(s, a), id, ReadFor(s, a, id), SentTo(s, a, id))
  {
    if InCallback(a) || a.Expire? {
      CallTransfers(s, a, id);
    } else if InHandler(a) {
      HandlerTransfers(s, a, id);
    } else if a.RunTask? {
      TaskTransfers(s, id);
    } else if a.FinishHang? || a.FinishShutdown? {
      FinishTransfers(s, a, id);
    }
  }

  /** In every run, what a connection received is exactly what its reads read, and what it accepted is
      exactly what was sent to it while it was CONNECTED, both in the order of these calls. */
  lemma {:induction false} BytesOfRun(idle: bool, schedule: seq<Action>, id: Id)
    ensures ReceivedBy(Exec(idle, schedule), id) == AllRead(idle, schedule, id)
    ensures AcceptedBy(Exec(idle, schedule), id) == AllSent(idle, schedule, id)
  {
    if schedule != [] {
      var s, a := Exec(idle, schedule[..|schedule| - 1]), schedule[|schedule| - 1];
      BytesOfRun(idle, schedule[..|schedule| - 1], id);
      if Enabled(s, a) {
        StepTransfers(s, a, id);
      }
    }
  }

  /** So what the message callback took is, in order, the beginning of what was read, and what the kernel
      took is the beginning of what was sent; all of it, when nobody forced the release. */
  lemma EndToEnd(idle: bool, schedule: seq<Action>, id: Id)
    requires !Exec(idle, schedule).revived && id in Exec(idle, schedule).conns
    ensures var c := Exec(idle, schedule).conns[id];
      && c.consumed <= AllRead(idle, schedule, id) && c.sent <= AllSent(idle, schedule, id)
      && (c.status == Disconnected && c.forced == 0 ==> c.sent == AllSent(idle, schedule, id))
  {
    BytesConserved(idle, schedule, id);
    BytesOfRun(idle, schedule, id);
    var c := Exec(idle, schedule).conns[id];
    assert c.consumed <= c.consumed + c.input && c.sent <= c.sent + c.output;
  }
}
