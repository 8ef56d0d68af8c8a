/** One loop of src/EventLoop.cc serving any number of connections: what Poll, HandleEvent, the
    handlers, the user's callbacks and the queued tasks do to each other.  Every action is one
    piece of straight-line code between two calls into user code; the call stack is explicit. */
module Reactors {
  import opened Wrappers
  import opened Pollers
  import opened Connections

  type Id = nat

  /** Functor stands for any other task. */
  datatype Task = EnableIdle(id: Id) | Established(id: Id) | SendTask(id: Id, data: string)
                | ShutdownTask(id: Id) | ReleaseTask(id: Id) | Functor

  /** A channel returned by Poll: that of a connection, or the eventfd, timerfd or listening one. */
  datatype Active = Own(id: Id, revents: Mask) | Internal

  /** User: a callback or functor of the user.  Handling: HandleEvent with the callbacks still to
      run.  Finish and Hang: ShutdownInLoop and HandleClose behind their message callback. */
  datatype Frame = User | Handling(id: Id, rest: seq<Callback>) | Finish(id: Id) | Hang(id: Id)

  datatype Phase = Polling | Dispatching(actives: seq<Active>) | Running(batch: seq<Task>)

  /** `owner` maps every open descriptor to the connection that was accepted with it.  `idle` says
      whether the server releases inactive connections, and `armed` which timers are running;
      `coming` is the task NewConnection has still to post.  `revived` says that Established ran on a
      released connection, where a build without assertions goes on. */
  datatype State = State(conns: map<Id, Conn>, channels: map<Fd, Id>, owner: map<Fd, Id>,
                         queue: seq<Task>, phase: Phase, stack: seq<Frame>,
                         idle: bool, armed: set<Id>, coming: seq<Task>, revived: bool)

  function Init(idle: bool): State {
    State(map[], map[], map[], [], Polling, [], idle, {}, [], false)
  }

  /** The tasks not run yet, in no particular place: about to be posted, swapped out, or queued. */
  function Pending(s: State): seq<Task> {
    s.coming + (if s.phase.Running? then s.phase.batch else []) + s.queue
  }

  datatype Action =
    | Accept(id: Id, fd: Fd)
    | PostEstablished
    | Post(task: Task)
    | Poll(ready: seq<(Fd, Mask)>)
    | Dispatch
    | EndDispatch
    | RunTask
    | EndTasks
    | Read(result: Result)
    | Write(taken: Option<nat>)
    | Close
    | Event
    | FinishShutdown
    | FinishHang
    | Return
    | Expire(id: Id)
    | CallAccept(id: Id, fd: Fd)
    | CallSend(id: Id, data: string)
    | CallShutdown(id: Id)
    | CallRelease(id: Id)
    | CallConsume(id: Id, n: nat)

  // ---- building blocks ----

  function UpdateEvent(channels: map<Fd, Id>, fd: Fd, id: Id): map<Fd, Id> {
    if fd in channels then channels else channels[fd := id]
  }

  /** The connection becomes d; Update reaches the poller, Release the queue. */
  function Commit(s: State, id: Id, d: Conn): State
    requires id in s.conns
  {
    var c := s.conns[id];
    var released := d.graceful + d.forced > c.graceful + c.forced;
    s.(conns := s.conns[id := d],
       channels := if d.registered then UpdateEvent(s.channels, d.fd, id) else s.channels,
       queue := s.queue + if released then [ReleaseTask(id)] else [])
  }

  function Push(s: State, frames: seq<Frame>): State {
    s.(stack := s.stack + frames)
  }

  function Pop(s: State): State
    requires s.stack != []
  {
    s.(stack := s.stack[..|s.stack| - 1])
  }

  function Top(s: State): Frame
    requires s.stack != []
  {
    s.stack[|s.stack| - 1]
  }

  /** The callback that is called when there is input. */
  function Message(c: Conn): seq<Frame> {
    if c.input != "" then [User] else []
  }

  function Shut(s: State, id: Id): State
    requires id in s.conns
  {
    var c := s.conns[id];
    if Closing(c) then s else Push(Commit(s, id, StopReading(c)), [Finish(id)] + Message(c))
  }

  function Admit(s: State, id: Id, c: Conn): State {
    s.(conns := s.conns[id := c], owner := s.owner[c.fd := id],
       channels := if c.registered then UpdateEvent(s.channels, c.fd, id) else s.channels)
  }

  /** ReleaseInLoop up to the closed callbacks; a running timer is cancelled. */
  function Forget(s: State, id: Id): State
    requires id in s.conns
  {
    var c := s.conns[id];
    s.(conns := s.conns[id := Closed(c)], channels := s.channels - {c.fd}, owner := s.owner - {c.fd},
       armed := s.armed - {id})
  }

  function ReleaseNow(s: State, id: Id): State
    requires id in s.conns
  {
    var c := s.conns[id];
    if c.status == Disconnected then s
    else
      Push(Forget(s, id), [User])
  }

  function Actives(channels: map<Fd, Id>, ready: seq<(Fd, Mask)>): seq<Active> {
    if ready == [] then []
    else
      var last := ready[|ready| - 1];
      Actives(channels, ready[..|ready| - 1])
      + (if last.0 in channels then [Own(channels[last.0], last.1)] else [Internal])
  }

  // ---- steps ----

  // Accept and PostEstablished are the two halves of NewConnection on the thread of the listening
  // socket; Post runs on any thread, and CallRelease as well, since Release only queues a task.
  // CallAccept is the listening socket in this very loop.  Expire is a timer of this loop.

  /** A connection is handed to the user by its connected callback. */
  predicate Visible(s: State, id: Id) {
    id in s.conns && s.conns[id].status != Connecting
  }

  predicate InUser(s: State) {
    s.stack != [] && Top(s) == User
  }

  predicate AtCallback(s: State, callbacks: set<Callback>) {
    s.stack != [] && Top(s).Handling? && Top(s).rest != [] && Top(s).rest[0] in callbacks && Top(s).id in s.conns
  }

  predicate Enabled(s: State, a: Action) {
    match a
    case Accept(id, fd) => id !in s.conns && fd !in s.owner && s.coming == []
    case PostEstablished => s.coming != []
    case Post(task) => task.Functor? || ((task.SendTask? || task.ShutdownTask?) && Visible(s, task.id))
    case Poll(_) => s.stack == [] && s.phase == Polling
    case Dispatch => s.stack == [] && s.phase.Dispatching? && s.phase.actives != []
    case EndDispatch => s.stack == [] && s.phase == Dispatching([])
    case RunTask => s.stack == [] && s.phase.Running? && s.phase.batch != [] && Runnable(s, s.phase.batch[0])
    case EndTasks => s.stack == [] && s.phase == Running([])
    case Read(_) => AtCallback(s, {ReadCb})
    case Write(taken) =>
      AtCallback(s, {WriteCb}) && (taken.Some? ==> taken.value <= |s.conns[Top(s).id].output|)
    case Close => AtCallback(s, {CloseCb, ErrorCb})
    case Event => AtCallback(s, {EventCb})
    case FinishShutdown => s.stack != [] && Top(s).Finish? && Top(s).id in s.conns
    case FinishHang => s.stack != [] && Top(s).Hang? && Top(s).id in s.conns
    case Return => s.stack != [] && (Top(s).User? || (Top(s).Handling? && Top(s).rest == []))
    case Expire(id) => InUser(s) && id in s.armed && id in s.conns
    case CallAccept(id, fd) => InUser(s) && id !in s.conns && fd !in s.owner
    case CallSend(id, _) => InUser(s) && Visible(s, id)
    case CallShutdown(id) => InUser(s) && Visible(s, id)
    case CallRelease(id) => Visible(s, id)
    case CallConsume(id, _) => InUser(s) && Visible(s, id)
  }

  predicate Runnable(s: State, task: Task) {
    task.Functor? || task.id in s.conns
  }

  /** EstablishedInLoop begins with assert(_status == CONNECTING). */
  function EstablishNow(s: State, id: Id): State
    requires id in s.conns
  {
    var c := s.conns[id];
    Push(Commit(s, id, Establish(c)), [User]).(revived := s.revived || c.status != Connecting)
  }

  function RunOne(s: State, task: Task): State
    requires Runnable(s, task)
  {
    match task
    case EnableIdle(id) => s.(armed := s.armed + {id})
    case Established(id) => EstablishNow(s, id)
    case SendTask(id, data) => Commit(s, id, Connections.Accept(s.conns[id], data))
    case ShutdownTask(id) => Shut(s, id)
    case ReleaseTask(id) => ReleaseNow(s, id)
    case Functor => Push(s, [User])
  }

  /** HandleEvent has called its next callback. */
  function Advance(s: State): State
    requires s.stack != [] && Top(s).Handling? && Top(s).rest != []
  {
    Push(Pop(s), [Handling(Top(s).id, Top(s).rest[1..])])
  }

  function Next(s: State, a: Action): State
    requires Enabled(s, a)
  {
    match a
    case Accept(id, fd) =>
      var t := Admit(s, id, New(fd));
      t.(queue := t.queue + if s.idle then [EnableIdle(id)] else [], coming := [Established(id)])
    case PostEstablished => s.(queue := s.queue + s.coming, coming := [])
    case Post(task) => s.(queue := s.queue + [task])
    case Poll(ready) => s.(phase := Dispatching(Actives(s.channels, ready)))
    case Dispatch =>
      var active, t := s.phase.actives[0], s.(phase := Dispatching(s.phase.actives[1..]));
      Push(t, if active.Own? then [Handling(active.id, Dispatched(active.revents))] else [User])
    case EndDispatch => s.(phase := Running(s.queue), queue := [])
    case RunTask => RunOne(s.(phase := Running(s.phase.batch[1..])), s.phase.batch[0])
    case EndTasks => s.(phase := Polling)
    case Read(result) => ReadNow(Advance(s), Top(s).id, result)
    case Write(taken) => WriteNow(Advance(s), Top(s).id, taken)
    case Close => HangUp(Advance(s), Top(s).id)
    case Event => Push(Advance(s), [User])
    case FinishShutdown => Commit(Pop(s), Top(s).id, Drain(s.conns[Top(s).id]))
    case FinishHang => Commit(Pop(s), Top(s).id, Request(s.conns[Top(s).id]))
    case Return => Pop(s)
    case Expire(id) => Commit(s.(armed := s.armed - {id}), id, Request(s.conns[id]))
    case CallAccept(id, fd) =>
      var t := Admit(s, id, Establish(New(fd)));
      Push(t.(armed := if s.idle then t.armed + {id} else t.armed), [User])
    case CallSend(id, data) => Commit(s, id, Connections.Accept(s.conns[id], data))
    case CallShutdown(id) => Shut(s, id)
    case CallRelease(id) => Commit(s, id, Request(s.conns[id]))
    case CallConsume(id, n) => Commit(s, id, Consumed(s.conns[id], n))
  }

  function ReadNow(s: State, id: Id, result: Result): State
    requires id in s.conns
  {
    match result
    case Failed => Shut(s, id)
    case Got(data) =>
      var d := Received(s.conns[id], data);
      Push(Commit(s, id, d), Message(d))
  }

  function WriteNow(s: State, id: Id, taken: Option<nat>): State
    requires id in s.conns && (taken.Some? ==> taken.value <= |s.conns[id].output|)
  {
    match taken
    case None => HangUp(s, id)
    case Some(n) => Commit(s, id, Transmit(s.conns[id], n))
  }

  function HangUp(s: State, id: Id): State
    requires id in s.conns
  {
    Push(s, [Hang(id)] + Message(s.conns[id]))
  }

  /** The state after a schedule; actions that are not possible are skipped. */
  function Run(s: State, schedule: seq<Action>): State {
    if schedule == [] then s
    else
      var t, a := Run(s, schedule[..|schedule| - 1]), schedule[|schedule| - 1];
      if Enabled(t, a) then Next(t, a) else t
  }

  function Exec(idle: bool, schedule: seq<Action>): State {
    Run(Init(idle), schedule)
  }

  // ---- the invariant ----

  /** The connection is sound, and registered and owning its descriptor as long as it should. */
  ghost predicate ConnOk(s: State, id: Id) {
    id in s.conns ==>
      var c := s.conns[id];
      && Sound(c)
      && (c.registered ==> c.fd in s.channels && s.channels[c.fd] == id)
      && (c.status != Disconnected ==> c.fd in s.owner && s.owner[c.fd] == id)
  }

  /** The channel in the poller's map is that of a registered connection. */
  ghost predicate ChannelOk(s: State, fd: Fd) {
    fd in s.channels ==>
      s.channels[fd] in s.conns && s.conns[s.channels[fd]].fd == fd && s.conns[s.channels[fd]].registered
  }

  predicate Live(conns: map<Id, Conn>, id: Id) {
    id in conns && (conns[id].status == Connected || conns[id].status == Disconnecting)
  }

  predicate ActiveOk(conns: map<Id, Conn>, active: Active) {
    active.Own? ==> Live(conns, active.id)
  }

  predicate FrameOk(conns: map<Id, Conn>, frame: Frame) {
    match frame
    case User => true
    case Handling(id, _) => Live(conns, id)
    case Finish(id) => id in conns && conns[id].status == Disconnecting
    case Hang(id) => Live(conns, id)
  }

  predicate TaskOk(conns: map<Id, Conn>, task: Task) {
    match task
    case Functor => true
    case EnableIdle(id) => id in conns
    case Established(id) => id in conns && (conns[id].status == Connecting || conns[id].status == Disconnected)
    case SendTask(id, _) => id in conns && conns[id].status != Connecting
    case ShutdownTask(id) => id in conns && conns[id].status != Connecting
    case ReleaseTask(id) => id in conns && conns[id].graceful + conns[id].forced > 0
  }

  ghost predicate ConnsOk(s: State) {
    (forall id :: ConnOk(s, id)) && (forall fd :: ChannelOk(s, fd))
  }

  ghost predicate ActivesOk(conns: map<Id, Conn>, actives: seq<Active>) {
    forall k :: 0 <= k < |actives| ==> ActiveOk(conns, actives[k])
  }

  ghost predicate StackOk(conns: map<Id, Conn>, stack: seq<Frame>) {
    forall k :: 0 <= k < |stack| ==> FrameOk(conns, stack[k])
  }

  ghost predicate TasksOk(conns: map<Id, Conn>, tasks: seq<Task>) {
    && (forall k :: 0 <= k < |tasks| ==> TaskOk(conns, tasks[k]))
    && (forall j, k :: 0 <= j < k < |tasks| && tasks[j].Established? ==> tasks[j] != tasks[k])
  }

  /** What a connection needs next is on its way: its establishment, the release it asked for,
      or, when it is half closed, a way to get rid of its output. */
  ghost predicate Awaited(c: Conn, id: Id, pending: seq<Task>, stack: seq<Frame>) {
    && (c.status == Connecting ==> Established(id) in pending)
    && (c.graceful + c.forced > 0 && c.status != Disconnected ==> ReleaseTask(id) in pending)
    && (Draining(c) || Finish(id) in stack)
  }

  ghost predicate AllAwaited(conns: map<Id, Conn>, pending: seq<Task>, stack: seq<Frame>) {
    forall id :: id in conns ==> Awaited(conns[id], id, pending, stack)
  }

  ghost predicate Safe(s: State) {
    && ConnsOk(s)
    && (s.phase.Dispatching? ==> ActivesOk(s.conns, s.phase.actives))
    && StackOk(s.conns, s.stack)
    && TasksOk(s.conns, Pending(s))
  }

  ghost predicate Inv(s: State) {
    Safe(s) && AllAwaited(s.conns, Pending(s), s.stack)
  }

  // ---- connections only move on ----

  /** Any piece of code but an establishment or a release. */
  ghost predicate Moves(c: Conn, d: Conn) {
    Follows(c, d) && (d.status == Disconnected <==> c.status == Disconnected)
    && (d.status == Connecting <==> c.status == Connecting)
  }

  ghost predicate Evolves(conns: map<Id, Conn>, later: map<Id, Conn>) {
    forall id :: id in conns ==> id in later && Moves(conns[id], later[id])
  }

  lemma ActivesEvolve(conns: map<Id, Conn>, later: map<Id, Conn>, actives: seq<Active>)
    requires Evolves(conns, later) && ActivesOk(conns, actives)
    ensures ActivesOk(later, actives)
  {
    forall k | 0 <= k < |actives| ensures ActiveOk(later, actives[k]) {
      assert ActiveOk(conns, actives[k]);
    }
  }

  lemma StackEvolves(conns: map<Id, Conn>, later: map<Id, Conn>, stack: seq<Frame>)
    requires Evolves(conns, later) && StackOk(conns, stack)
    ensures StackOk(later, stack)
  {
    forall k | 0 <= k < |stack| ensures FrameOk(later, stack[k]) {
      assert FrameOk(conns, stack[k]);
    }
  }

  lemma TasksEvolve(conns: map<Id, Conn>, later: map<Id, Conn>, tasks: seq<Task>)
    requires Evolves(conns, later) && TasksOk(conns, tasks)
    ensures TasksOk(later, tasks)
  {
    forall k | 0 <= k < |tasks| ensures TaskOk(later, tasks[k]) {
      assert TaskOk(conns, tasks[k]);
    }
  }

  lemma TasksAppend(conns: map<Id, Conn>, tasks: seq<Task>, task: Task)
    requires TasksOk(conns, tasks) && TaskOk(conns, task)
    requires task.Established? ==> task !in tasks
    ensures TasksOk(conns, tasks + [task])
  {
  }

  // ---- safety of the building blocks ----

  lemma CommitConns(s: State, id: Id, d: Conn)
    requires ConnsOk(s) && id in s.conns && Sound(d) && Moves(s.conns[id], d)
    ensures ConnsOk(Commit(s, id, d))
  {
    var t := Commit(s, id, d);
    assert ConnOk(s, id);
    assert t.channels == s.channels;
    forall x ensures ConnOk(t, x) {
      assert ConnOk(s, x);
    }
    forall fd ensures ChannelOk(t, fd) {
      assert ChannelOk(s, fd);
    }
  }

  lemma CommitSafe(s: State, id: Id, d: Conn)
    requires Safe(s) && id in s.conns && Sound(d) && Moves(s.conns[id], d)
    ensures Safe(Commit(s, id, d))
  {
    var t := Commit(s, id, d);
    CommitConns(s, id, d);
    assert forall x :: x in s.conns ==> Follows(s.conns[x], s.conns[x]);
    assert Evolves(s.conns, t.conns);
    if s.phase.Dispatching? {
      ActivesEvolve(s.conns, t.conns, s.phase.actives);
    }
    StackEvolves(s.conns, t.conns, s.stack);
    TasksEvolve(s.conns, t.conns, Pending(s));
    if t.queue != s.queue {
      TasksAppend(t.conns, Pending(s), ReleaseTask(id));
      assert Pending(t) == Pending(s) + [ReleaseTask(id)];
    } else {
      assert Pending(t) == Pending(s);
    }
  }

  lemma PushSafe(s: State, frames: seq<Frame>)
    requires Safe(s) && StackOk(s.conns, frames)
    ensures Safe(Push(s, frames))
  {
    assert ConnsOk(Push(s, frames)) by {
      assert forall id :: ConnOk(Push(s, frames), id) <==> ConnOk(s, id);
      assert forall fd :: ChannelOk(Push(s, frames), fd) <==> ChannelOk(s, fd);
    }
  }

  lemma PopSafe(s: State)
    requires Safe(s) && s.stack != []
    ensures Safe(Pop(s)) && FrameOk(s.conns, Top(s))
  {
    assert ConnsOk(Pop(s)) by {
      assert forall id :: ConnOk(Pop(s), id) <==> ConnOk(s, id);
      assert forall fd :: ChannelOk(Pop(s), fd) <==> ChannelOk(s, fd);
    }
  }

  /** What is awaited stays so while requests only join the queue. */
  lemma CommitAwaited(s: State, id: Id, d: Conn, stack: seq<Frame>)
    requires AllAwaited(s.conns, Pending(s), s.stack) && id in s.conns && Moves(s.conns[id], d)
    requires forall x :: x != id && Finish(x) in s.stack ==> Finish(x) in stack
    requires Draining(d) || Finish(id) in stack
    ensures AllAwaited(Commit(s, id, d).conns, Pending(Commit(s, id, d)), stack)
  {
    var t := Commit(s, id, d);
    assert Pending(s) <= Pending(t);
    forall x | x in t.conns ensures Awaited(t.conns[x], x, Pending(t), stack) {
      assert Awaited(s.conns[x], x, Pending(s), s.stack);
      if x == id && t.queue != s.queue {
        assert ReleaseTask(id) in t.queue;
      }
    }
  }

  lemma StackAwaited(s: State, stack: seq<Frame>)
    requires AllAwaited(s.conns, Pending(s), s.stack)
    requires forall x :: Finish(x) in s.stack ==> Finish(x) in stack
    ensures AllAwaited(s.conns, Pending(s), stack)
  {
    forall x | x in s.conns ensures Awaited(s.conns[x], x, Pending(s), stack) {
      assert Awaited(s.conns[x], x, Pending(s), s.stack);
    }
  }

  // ---- the steps ----

  lemma CommitKeeps(s: State, id: Id, d: Conn)
    requires Inv(s) && id in s.conns && Sound(d) && Moves(s.conns[id], d)
    requires Draining(d) || Finish(id) in s.stack
    ensures Inv(Commit(s, id, d))
  {
    CommitSafe(s, id, d);
    CommitAwaited(s, id, d, s.stack);
  }

  lemma PushKeeps(s: State, frames: seq<Frame>)
    requires Inv(s) && StackOk(s.conns, frames)
    ensures Inv(Push(s, frames))
  {
    PushSafe(s, frames);
    StackAwaited(s, s.stack + frames);
    assert Pending(Push(s, frames)) == Pending(s);
  }

  lemma PopKeeps(s: State)
    requires Inv(s) && s.stack != [] && !Top(s).Finish?
    ensures Inv(Pop(s)) && FrameOk(s.conns, Top(s))
  {
    PopSafe(s);
    forall x | Finish(x) in s.stack ensures Finish(x) in s.stack[..|s.stack| - 1] {
      var k :| 0 <= k < |s.stack| && s.stack[k] == Finish(x);
      assert s.stack[..|s.stack| - 1][k] == Finish(x);
    }
    StackAwaited(s, s.stack[..|s.stack| - 1]);
    assert Pending(Pop(s)) == Pending(s);
  }

  lemma AdvanceKeeps(s: State)
    requires Inv(s) && s.stack != [] && Top(s).Handling? && Top(s).rest != []
    ensures Inv(Advance(s)) && Advance(s).conns == s.conns && Live(s.conns, Top(s).id)
  {
    PopKeeps(s);
    PushKeeps(Pop(s), [Handling(Top(s).id, Top(s).rest[1..])]);
  }

  /** The output is drained behind the message callback, so until then the frame stands for it. */
  lemma ShutKeeps(s: State, id: Id)
    requires Inv(s) && Visible(s, id)
    ensures Inv(Shut(s, id))
  {
    assert ConnOk(s, id);
    var c := s.conns[id];
    if !Closing(c) {
      StopReadingKeeps(c);
      var d, frames := StopReading(c), [Finish(id)] + Message(c);
      var t := Commit(s, id, d);
      CommitSafe(s, id, d);
      PushSafe(t, frames);
      assert frames[0] == Finish(id);
      CommitAwaited(s, id, d, s.stack + frames);
      assert Pending(Push(t, frames)) == Pending(t);
    }
  }

  lemma FinishShutdownKeeps(s: State)
    requires Inv(s) && Enabled(s, FinishShutdown)
    ensures Inv(Next(s, FinishShutdown))
  {
    var id, t := Top(s).id, Pop(s);
    var c := s.conns[id];
    PopSafe(s);
    assert ConnOk(s, id);
    DrainKeeps(c);
    CommitSafe(t, id, Drain(c));
    forall x | x != id && Finish(x) in s.stack ensures Finish(x) in t.stack {
      var k :| 0 <= k < |s.stack| && s.stack[k] == Finish(x);
      assert t.stack[k] == Finish(x);
    }
    CommitAwaited(s, id, Drain(c), t.stack);
    assert Pending(Commit(t, id, Drain(c))) == Pending(Commit(s, id, Drain(c)));
  }

  lemma ReadKeeps(s: State, id: Id, result: Result)
    requires Inv(s) && Live(s.conns, id)
    ensures Inv(ReadNow(s, id, result))
  {
    match result
    case Failed => ShutKeeps(s, id);
    case Got(data) =>
      assert ConnOk(s, id) && Awaited(s.conns[id], id, Pending(s), s.stack);
      var d := Received(s.conns[id], data);
      ReceivedKeeps(s.conns[id], data);
      CommitKeeps(s, id, d);
      PushKeeps(Commit(s, id, d), Message(d));
  }

  lemma HangUpKeeps(s: State, id: Id)
    requires Inv(s) && Live(s.conns, id)
    ensures Inv(HangUp(s, id))
  {
    PushKeeps(s, [Hang(id)] + Message(s.conns[id]));
  }

  lemma WriteKeeps(s: State, id: Id, taken: Option<nat>)
    requires Inv(s) && Live(s.conns, id) && (taken.Some? ==> taken.value <= |s.conns[id].output|)
    ensures Inv(WriteNow(s, id, taken))
  {
    match taken
    case None => HangUpKeeps(s, id);
    case Some(n) =>
      assert ConnOk(s, id);
      TransmitKeeps(s.conns[id], n);
      CommitKeeps(s, id, Transmit(s.conns[id], n));
  }

  /** What the user may do to a visible connection, apart from shutting it down. */
  lemma UserKeeps(s: State, id: Id, data: string, n: nat)
    requires Inv(s) && Visible(s, id)
    ensures Inv(Commit(s, id, Connections.Accept(s.conns[id], data)))
    ensures Inv(Commit(s, id, Request(s.conns[id])))
    ensures Inv(Commit(s, id, Consumed(s.conns[id], n)))
  {
    var c := s.conns[id];
    assert ConnOk(s, id) && Awaited(c, id, Pending(s), s.stack);
    AcceptKeeps(c, data);
    CommitKeeps(s, id, Connections.Accept(c, data));
    RequestKeeps(c);
    CommitKeeps(s, id, Request(c));
    ConsumedKeeps(c, n);
    CommitKeeps(s, id, Consumed(c, n));
  }

  lemma RegisteredIsOwned(s: State)
    requires ConnsOk(s)
    ensures s.channels.Keys <= s.owner.Keys
  {
    forall fd | fd in s.channels ensures fd in s.owner {
      assert ChannelOk(s, fd) && ConnOk(s, s.channels[fd]);
    }
  }

  lemma EstablishedIsKnown(conns: map<Id, Conn>, tasks: seq<Task>)
    requires TasksOk(conns, tasks)
    ensures forall id :: Established(id) in tasks ==> id in conns
  {
    forall id | Established(id) in tasks ensures id in conns {
      var k :| 0 <= k < |tasks| && tasks[k] == Established(id);
      assert TaskOk(conns, tasks[k]);
    }
  }

  /** A new connection, still CONNECTING or already established in this loop. */
  lemma AdmitSafe(s: State, id: Id, c: Conn)
    requires Safe(s) && id !in s.conns && c.fd !in s.owner && (c == New(c.fd) || c == Establish(New(c.fd)))
    ensures Safe(Admit(s, id, c))
  {
    var t := Admit(s, id, c);
    RegisteredIsOwned(s);
    forall x ensures ConnOk(t, x) {
      assert ConnOk(s, x);
    }
    forall fd ensures ChannelOk(t, fd) {
      assert ChannelOk(s, fd);
    }
    assert forall x :: x in s.conns ==> Follows(s.conns[x], s.conns[x]);
    assert Evolves(s.conns, t.conns);
    if s.phase.Dispatching? {
      ActivesEvolve(s.conns, t.conns, s.phase.actives);
    }
    StackEvolves(s.conns, t.conns, s.stack);
    TasksEvolve(s.conns, t.conns, Pending(s));
    assert Pending(t) == Pending(s);
  }

  /** The order of the pending tasks does not matter. */
  lemma TasksFront(conns: map<Id, Conn>, tasks: seq<Task>, task: Task)
    requires TasksOk(conns, tasks) && TaskOk(conns, task) && task !in tasks
    ensures TasksOk(conns, [task] + tasks)
  {
    var all := [task] + tasks;
    forall k | 0 <= k < |all| ensures TaskOk(conns, all[k]) {
      if k > 0 {
        assert TaskOk(conns, tasks[k - 1]);
      }
    }
    forall j, k | 0 <= j < k < |all| && all[j].Established? ensures all[j] != all[k] {
      if j > 0 {
        assert tasks[j - 1] != tasks[k - 1];
      } else {
        assert all[k] in tasks;
      }
    }
  }

  /** The tasks for a new connection: its timer is enabled before it is established. */
  lemma AcceptTasks(s: State, t: State, id: Id, more: seq<Task>)
    requires TasksOk(t.conns, Pending(s)) && id !in s.conns && TasksOk(s.conns, Pending(s))
    requires id in t.conns && t.conns[id].status == Connecting && (more == [] || more == [EnableIdle(id)])
    ensures TasksOk(t.conns, [Established(id)] + (Pending(s) + more))
  {
    EstablishedIsKnown(s.conns, Pending(s));
    if more == [] {
      assert Pending(s) + more == Pending(s);
    } else {
      TasksAppend(t.conns, Pending(s), EnableIdle(id));
    }
    TasksFront(t.conns, Pending(s) + more, Established(id));
  }

  lemma AcceptActionKeeps(s: State, id: Id, fd: Fd)
    requires Inv(s) && Enabled(s, Action.Accept(id, fd))
    ensures Inv(Next(s, Action.Accept(id, fd)))
  {
    var t, u := Admit(s, id, New(fd)), Next(s, Action.Accept(id, fd));
    var more := if s.idle then [EnableIdle(id)] else [];
    AdmitSafe(s, id, New(fd));
    assert Pending(t) == Pending(s);
    AcceptTasks(s, t, id, more);
    assert Pending(u) == [Established(id)] + (Pending(s) + more);
    AcceptAwaited(s, u, id);
    SameConns(t, u);
  }

  lemma AcceptAwaited(s: State, u: State, id: Id)
    requires AllAwaited(s.conns, Pending(s), s.stack) && u.stack == s.stack
    requires id !in s.conns && id in u.conns && u.conns == s.conns[id := New(u.conns[id].fd)]
    requires Established(id) in Pending(u) && forall task :: task in Pending(s) ==> task in Pending(u)
    ensures AllAwaited(u.conns, Pending(u), u.stack)
  {
    forall x | x in u.conns ensures Awaited(u.conns[x], x, Pending(u), u.stack) {
      assert x != id ==> Awaited(s.conns[x], x, Pending(s), s.stack);
    }
  }

  lemma CallAcceptKeeps(s: State, id: Id, fd: Fd)
    requires Inv(s) && Enabled(s, CallAccept(id, fd))
    ensures Inv(Next(s, CallAccept(id, fd)))
  {
    var t := Admit(s, id, Establish(New(fd)));
    AdmitSafe(s, id, Establish(New(fd)));
    assert Pending(t) == Pending(s);
    forall x | x in t.conns ensures Awaited(t.conns[x], x, Pending(t), t.stack) {
      assert x != id ==> Awaited(s.conns[x], x, Pending(s), s.stack);
    }
    var u := t.(armed := if s.idle then t.armed + {id} else t.armed);
    PhaseKeeps(t, u);
    PushKeeps(u, [User]);
  }

  /** The same connections with other work to do. */
  lemma SameConns(s: State, t: State)
    requires ConnsOk(s) && t.conns == s.conns && t.channels == s.channels && t.owner == s.owner
    ensures ConnsOk(t)
  {
    assert forall x :: ConnOk(t, x) <==> ConnOk(s, x);
    assert forall x :: ChannelOk(t, x) <==> ChannelOk(s, x);
  }

  lemma PostKeeps(s: State, task: Task)
    requires Inv(s) && Enabled(s, Post(task))
    ensures Inv(Next(s, Post(task)))
  {
    var t := Next(s, Post(task));
    SameConns(s, t);
    TasksAppend(s.conns, Pending(s), task);
    assert Pending(t) == Pending(s) + [task];
    forall x | x in t.conns ensures Awaited(t.conns[x], x, Pending(t), t.stack) {
      assert Awaited(s.conns[x], x, Pending(s), s.stack);
    }
  }

  lemma {:induction false} ActivesLive(s: State, ready: seq<(Fd, Mask)>)
    requires ConnsOk(s)
    ensures ActivesOk(s.conns, Actives(s.channels, ready))
  {
    if ready != [] {
      ActivesLive(s, ready[..|ready| - 1]);
      var fd := ready[|ready| - 1].0;
      if fd in s.channels {
        assert ChannelOk(s, fd) && ConnOk(s, s.channels[fd]);
      }
    }
  }

  lemma PollKeeps(s: State, ready: seq<(Fd, Mask)>)
    requires Inv(s) && Enabled(s, Action.Poll(ready))
    ensures Inv(Next(s, Action.Poll(ready)))
  {
    var t := Next(s, Action.Poll(ready));
    ActivesLive(s, ready);
    SameConns(s, t);
    assert Pending(t) == Pending(s);
  }

  lemma DispatchKeeps(s: State)
    requires Inv(s) && Enabled(s, Dispatch)
    ensures Inv(Next(s, Dispatch))
  {
    var t := s.(phase := Dispatching(s.phase.actives[1..]));
    SameConns(s, t);
    assert ActiveOk(s.conns, s.phase.actives[0]);
    assert Pending(t) == Pending(s);
    var active := s.phase.actives[0];
    PushKeeps(t, if active.Own? then [Handling(active.id, Dispatched(active.revents))] else [User]);
  }

  lemma PhaseKeeps(s: State, t: State)
    requires Inv(s) && t == s.(phase := t.phase, queue := t.queue, armed := t.armed)
    requires (t.phase.Dispatching? ==> t.phase == s.phase) && Pending(t) == Pending(s)
    ensures Inv(t)
  {
    SameConns(s, t);
  }

  /** The position of a task behind the one that is taken out. */
  function Without(k: nat, i: nat): nat {
    if i < k then i else i + 1
  }

  lemma TakenOut(conns: map<Id, Conn>, before: seq<Task>, task: Task, behind: seq<Task>)
    requires TasksOk(conns, before + [task] + behind)
    ensures TasksOk(conns, before + behind) && TaskOk(conns, task) && (task.Established? ==> task !in before + behind)
  {
    var tasks, rest, k := before + [task] + behind, before + behind, |before|;
    assert tasks[k] == task && TaskOk(conns, tasks[k]);
    assert forall i :: 0 <= i < |rest| ==> rest[i] == tasks[Without(k, i)];
    forall i | 0 <= i < |rest| ensures TaskOk(conns, rest[i]) {
      assert TaskOk(conns, tasks[Without(k, i)]);
    }
    forall i, j | 0 <= i < j < |rest| && rest[i].Established? ensures rest[i] != rest[j] {
      assert tasks[Without(k, i)] != tasks[Without(k, j)];
    }
    if task.Established? {
      forall i | 0 <= i < |rest| ensures rest[i] != task {
        assert tasks[Without(k, i)] != tasks[k];
      }
    }
  }

  /** Taking a task off the batch only takes something from the connection it names. */
  lemma OthersAwaited(c: Conn, id: Id, before: seq<Task>, task: Task, behind: seq<Task>, stack: seq<Frame>)
    requires Awaited(c, id, before + [task] + behind, stack)
    requires task != Established(id) && task != ReleaseTask(id)
    ensures Awaited(c, id, before + behind, stack)
  {
  }

  /** NewConnection posts what it was about to post. */
  lemma PostEstablishedKeeps(s: State)
    requires Inv(s) && Enabled(s, PostEstablished)
    ensures Inv(Next(s, PostEstablished))
  {
    var t := Next(s, PostEstablished);
    var rest := (if s.phase.Running? then s.phase.batch else []) + s.queue;
    assert Pending(s) == s.coming + rest && Pending(t) == rest + s.coming;
    TasksSwap(s.conns, s.coming, rest);
    SameConns(s, t);
    forall x | x in t.conns ensures Awaited(t.conns[x], x, Pending(t), t.stack) {
      assert Awaited(s.conns[x], x, Pending(s), s.stack);
    }
  }

  lemma TasksSwap(conns: map<Id, Conn>, front: seq<Task>, back: seq<Task>)
    requires TasksOk(conns, front + back)
    ensures TasksOk(conns, back + front)
  {
    var a, b, n, m := front + back, back + front, |front|, |back|;
    forall k | 0 <= k < |b| ensures TaskOk(conns, b[k]) {
      assert b[k] == a[if k < m then k + n else k - m];
    }
    forall j, k | 0 <= j < k < |b| && b[j].Established? ensures b[j] != b[k] {
      var x, y := if j < m then j + n else j - m, if k < m then k + n else k - m;
      assert a[x] == b[j] && a[y] == b[k] && x != y;
      if x < y {
        assert a[x] != a[y];
      } else if a[y].Established? {
        assert a[y] != a[x];
      }
    }
  }

  lemma EstablishTaskKeeps(s: State, id: Id)
    requires Safe(s) && !s.revived && id in s.conns && s.conns[id].status == Connecting && Established(id) !in Pending(s)
    requires !s.phase.Dispatching? && s.stack == [] && (s.conns[id].forced > 0 ==> ReleaseTask(id) in Pending(s))
    requires forall x :: x in s.conns && x != id ==> Awaited(s.conns[x], x, Pending(s), s.stack)
    ensures Inv(EstablishNow(s, id))
  {
    var d := Establish(s.conns[id]);
    var t := Commit(s, id, d);
    assert ConnOk(s, id);
    EstablishKeeps(s.conns[id]);
    OwnChannel(s, id);
    forall x ensures ConnOk(t, x) {
      assert ConnOk(s, x);
    }
    forall fd ensures ChannelOk(t, fd) {
      assert ChannelOk(s, fd);
    }
    assert Pending(t) == Pending(s);
    forall k | 0 <= k < |Pending(t)| ensures TaskOk(t.conns, Pending(t)[k]) {
      assert TaskOk(s.conns, Pending(s)[k]);
      assert Pending(s)[k] != Established(id);
    }
    PushKeeps(t, [User]);
  }

  /** The descriptor of a connection that is not registered is not registered for another one. */
  lemma OwnChannel(s: State, id: Id)
    requires ConnsOk(s) && id in s.conns && s.conns[id].status != Disconnected
    ensures var fd := s.conns[id].fd; fd in s.channels ==> s.channels[fd] == id
  {
    assert ConnOk(s, id);
    var fd := s.conns[id].fd;
    if fd in s.channels {
      assert ChannelOk(s, fd) && ConnOk(s, s.channels[fd]);
    }
  }

  /** Nothing is being dispatched while tasks run: this is what the deferred Release is for. */
  lemma ReleaseTaskKeeps(s: State, id: Id)
    requires Safe(s) && id in s.conns && s.conns[id].graceful + s.conns[id].forced > 0
    requires !s.phase.Dispatching? && s.stack == []
    requires forall x :: x in s.conns && x != id ==> Awaited(s.conns[x], x, Pending(s), s.stack)
    ensures Inv(ReleaseNow(s, id))
  {
    var c := s.conns[id];
    assert ConnOk(s, id);
    if c.status != Disconnected {
      ClosedKeeps(c);
      OwnChannel(s, id);
      var t := Forget(s, id);
      forall x ensures ConnOk(t, x) {
        assert ConnOk(s, x);
      }
      forall fd ensures ChannelOk(t, fd) {
        assert ChannelOk(s, fd);
      }
      assert Pending(t) == Pending(s);
      forall k | 0 <= k < |Pending(t)| ensures TaskOk(t.conns, Pending(t)[k]) {
        assert TaskOk(s.conns, Pending(s)[k]);
      }
      PushKeeps(t, [User]);
    }
  }

  /** What a connection still needs when this task, which may be what it waited for, is off the batch. */
  ghost predicate AwaitedBut(s: State, task: Task, x: Id) {
    x in s.conns ==>
      if task == Established(x) then s.conns[x].forced > 0 ==> ReleaseTask(x) in Pending(s)
      else task == ReleaseTask(x) || Awaited(s.conns[x], x, Pending(s), s.stack)
  }

  lemma RunOneKeeps(s: State, task: Task)
    requires Safe(s) && !s.phase.Dispatching? && s.stack == []
    requires TaskOk(s.conns, task) && (task.Established? ==> task !in Pending(s))
    requires forall x :: AwaitedBut(s, task, x)
    requires Runnable(s, task) && !RunOne(s, task).revived
    ensures Inv(RunOne(s, task))
  {
    forall x | x in s.conns && task != Established(x) && task != ReleaseTask(x)
      ensures Awaited(s.conns[x], x, Pending(s), s.stack)
    {
      assert AwaitedBut(s, task, x);
    }
    match task
    case EnableIdle(id) => PhaseKeeps(s, RunOne(s, task));
    case Established(id) =>
      assert AwaitedBut(s, task, id);
      EstablishTaskKeeps(s, id);
    case SendTask(id, data) => UserKeeps(s, id, data, 0);
    case ShutdownTask(id) => ShutKeeps(s, id);
    case ReleaseTask(id) => ReleaseTaskKeeps(s, id);
    case Functor => PushKeeps(s, [User]);
  }

  lemma RunTaskKeeps(s: State)
    requires Inv(s) && Enabled(s, RunTask) && !Next(s, RunTask).revived
    ensures Inv(Next(s, RunTask))
  {
    var task, t := s.phase.batch[0], s.(phase := Running(s.phase.batch[1..]));
    var behind := s.phase.batch[1..] + s.queue;
    assert Pending(s) == s.coming + [task] + behind && Pending(t) == s.coming + behind;
    TakenOut(s.conns, s.coming, task, behind);
    SameConns(s, t);
    forall x ensures AwaitedBut(t, task, x) {
      assert x in s.conns ==> Awaited(s.conns[x], x, Pending(s), s.stack);
      if x in s.conns && task != Established(x) && task != ReleaseTask(x) {
        OthersAwaited(s.conns[x], x, s.coming, task, behind, s.stack);
      }
    }
    RunOneKeeps(t, task);
  }

  lemma HandlerKeeps(s: State, a: Action)
    requires Inv(s) && Enabled(s, a) && InHandler(a)
    ensures Inv(Next(s, a))
  {
    AdvanceKeeps(s);
    var t, id := Advance(s), Top(s).id;
    match a
    case Read(result) => ReadKeeps(t, id, result);
    case Write(taken) => WriteKeeps(t, id, taken);
    case Close => HangUpKeeps(t, id);
    case Event => PushKeeps(t, [User]);
  }

  lemma FinishHangKeeps(s: State)
    requires Inv(s) && Enabled(s, FinishHang)
    ensures Inv(Next(s, FinishHang))
  {
    PopKeeps(s);
    UserKeeps(Pop(s), Top(s).id, "", 0);
  }

  /** The timer of any connection expires, even of one that is still CONNECTING. */
  lemma ExpireKeeps(s: State, id: Id)
    requires Inv(s) && Enabled(s, Expire(id))
    ensures Inv(Next(s, Expire(id)))
  {
    var t := s.(armed := s.armed - {id});
    PhaseKeeps(s, t);
    assert ConnOk(s, id) && Awaited(s.conns[id], id, Pending(s), s.stack);
    RequestKeeps(s.conns[id]);
    CommitKeeps(t, id, Request(s.conns[id]));
  }

  lemma CallKeeps(s: State, a: Action)
    requires Inv(s) && Enabled(s, a) && InCallback(a)
    ensures Inv(Next(s, a))
  {
    match a
    case CallSend(id, data) => UserKeeps(s, id, data, 0);
    case CallShutdown(id) => ShutKeeps(s, id);
    case CallRelease(id) => UserKeeps(s, id, "", 0);
    case CallConsume(id, n) => UserKeeps(s, id, "", n);
  }

  /** What the loop does between two calls. */
  lemma LoopKeeps(s: State, a: Action)
    requires Inv(s) && Enabled(s, a)
    requires a.Poll? || a.Dispatch? || a.EndDispatch? || a.EndTasks? || a.Return?
    ensures Inv(Next(s, a))
  {
    match a
    case Poll(ready) => PollKeeps(s, ready);
    case Dispatch => DispatchKeeps(s);
    case EndDispatch => PhaseKeeps(s, Next(s, a));
    case EndTasks => PhaseKeeps(s, Next(s, a));
    case Return => PopKeeps(s);
  }

  /** What comes from outside. */
  lemma OutsideKeeps(s: State, a: Action)
    requires Inv(s) && Enabled(s, a)
    requires a.Accept? || a.CallAccept? || a.PostEstablished? || a.Post? || a.Expire?
    ensures Inv(Next(s, a))
  {
    match a
    case Accept(id, fd) => AcceptActionKeeps(s, id, fd);
    case CallAccept(id, fd) => CallAcceptKeeps(s, id, fd);
    case PostEstablished => PostEstablishedKeeps(s);
    case Post(task) => PostKeeps(s, task);
    case Expire(id) => ExpireKeeps(s, id);
  }

  lemma NextKeeps(s: State, a: Action)
    requires Inv(s) && Enabled(s, a) && !Next(s, a).revived
    ensures Inv(Next(s, a))
  {
    if InHandler(a) {
      HandlerKeeps(s, a);
    } else if InCallback(a) {
      CallKeeps(s, a);
    } else if a.RunTask? {
      RunTaskKeeps(s);
    } else if a.FinishShutdown? {
      FinishShutdownKeeps(s);
    } else if a.FinishHang? {
      FinishHangKeeps(s);
    } else if a.Poll? || a.Dispatch? || a.EndDispatch? || a.EndTasks? || a.Return? {
      LoopKeeps(s, a);
    } else {
      OutsideKeeps(s, a);
    }
  }

  lemma NextRevived(s: State, a: Action)
    requires Enabled(s, a)
    ensures s.revived ==> Next(s, a).revived
  {
  }

  /** What happened before a run without revivals was one, too. */
  lemma {:induction false} RunKeeps(s: State, schedule: seq<Action>)
    requires Inv(s) && !Run(s, schedule).revived
    ensures Inv(Run(s, schedule))
  {
    if schedule != [] {
      var t, a := Run(s, schedule[..|schedule| - 1]), schedule[|schedule| - 1];
      if Enabled(t, a) {
        NextRevived(t, a);
        RunKeeps(s, schedule[..|schedule| - 1]);
        NextKeeps(t, a);
      } else {
        RunKeeps(s, schedule[..|schedule| - 1]);
      }
    }
  }

  lemma AlwaysInv(idle: bool, schedule: seq<Action>)
    requires !Exec(idle, schedule).revived
    ensures Inv(Exec(idle, schedule))
  {
    RunKeeps(Init(idle), schedule);
  }

  // ---- every connection moves on ----

  /** What ShutdownInLoop, ReleaseInLoop and EstablishedInLoop do to their connection. */
  lemma TaskFollows(s: State, task: Task, id: Id)
    requires ConnsOk(s) && TaskOk(s.conns, task) && Runnable(s, task) && id in s.conns && !RunOne(s, task).revived
    ensures Follows(s.conns[id], RunOne(s, task).conns[id])
  {
    assert ConnOk(s, id);
    var c := s.conns[id];
    match task
    case Functor =>
    case EnableIdle(_) =>
    case Established(x) => if x == id { EstablishKeeps(c); }
    case SendTask(x, data) => if x == id { AcceptKeeps(c, data); }
    case ShutdownTask(x) => ShutFollows(s, x, id);
    case ReleaseTask(x) => if x == id { ClosedKeeps(c); }
  }

  lemma ShutFollows(s: State, target: Id, id: Id)
    requires ConnsOk(s) && Visible(s, target) && id in s.conns
    ensures Follows(s.conns[id], Shut(s, target).conns[id])
  {
    assert ConnOk(s, id);
    if target == id && !Closing(s.conns[id]) {
      StopReadingKeeps(s.conns[id]);
    }
  }

  lemma ReadFollows(s: State, x: Id, result: Result, id: Id)
    requires Inv(s) && Live(s.conns, x) && id in s.conns
    ensures id in ReadNow(s, x, result).conns && Follows(s.conns[id], ReadNow(s, x, result).conns[id])
  {
    assert ConnOk(s, x) && ConnOk(s, id);
    match result
    case Failed => ShutFollows(s, x, id);
    case Got(data) => ReceivedKeeps(s.conns[x], data);
  }

  lemma WriteFollows(s: State, x: Id, taken: Option<nat>, id: Id)
    requires Inv(s) && Live(s.conns, x) && id in s.conns && (taken.Some? ==> taken.value <= |s.conns[x].output|)
    ensures id in WriteNow(s, x, taken).conns && Follows(s.conns[id], WriteNow(s, x, taken).conns[id])
  {
    assert ConnOk(s, x) && ConnOk(s, id);
    if taken.Some? {
      assert Follows(s.conns[x], Transmit(s.conns[x], taken.value)) by {
        TransmitKeeps(s.conns[x], taken.value);
      }
    }
  }

  lemma HandlerFollows(s: State, a: Action, id: Id)
    requires Inv(s) && Enabled(s, a) && InHandler(a) && id in s.conns
    ensures id in Next(s, a).conns && Follows(s.conns[id], Next(s, a).conns[id])
  {
    AdvanceKeeps(s);
    var t, x := Advance(s), Top(s).id;
    match a
    case Read(result) => ReadFollows(t, x, result, id);
    case Write(taken) => WriteFollows(t, x, taken, id);
    case Close =>
    case Event =>
  }

  lemma CommitFollows(s: State, x: Id, d: Conn, id: Id)
    requires x in s.conns && id in s.conns && Follows(s.conns[x], d)
    ensures Follows(s.conns[id], Commit(s, x, d).conns[id])
  {
  }

  lemma CallFollows(s: State, a: Action, id: Id)
    requires Inv(s) && Enabled(s, a) && id in s.conns
    requires InCallback(a)
    ensures id in Next(s, a).conns && Follows(s.conns[id], Next(s, a).conns[id])
  {
    assert ConnOk(s, a.id);
    var c := s.conns[a.id];
    if a.CallSend? {
      AcceptKeeps(c, a.data);
      CommitFollows(s, a.id, Connections.Accept(c, a.data), id);
    } else if a.CallShutdown? {
      ShutFollows(s, a.id, id);
    } else if a.CallRelease? {
      RequestKeeps(c);
      CommitFollows(s, a.id, Request(c), id);
    } else {
      ConsumedKeeps(c, a.n);
      CommitFollows(s, a.id, Consumed(c, a.n), id);
    }
  }

  lemma ExpireFollows(s: State, target: Id, id: Id)
    requires Inv(s) && Enabled(s, Expire(target)) && id in s.conns
    ensures id in Next(s, Expire(target)).conns && Follows(s.conns[id], Next(s, Expire(target)).conns[id])
  {
    assert ConnOk(s, target);
    RequestKeeps(s.conns[target]);
  }

  lemma FinishFollows(s: State, a: Action, id: Id)
    requires Inv(s) && Enabled(s, a) && id in s.conns && (a.FinishHang? || a.FinishShutdown?)
    ensures id in Next(s, a).conns && Follows(s.conns[id], Next(s, a).conns[id])
  {
    assert ConnOk(s, id);
    PopSafe(s);
    var c := s.conns[id];
    if Top(s).id == id {
      if a.FinishHang? {
        RequestKeeps(c);
      } else {
        DrainKeeps(c);
      }
    }
  }

  predicate InHandler(a: Action) {
    a.Read? || a.Write? || a.Close? || a.Event?
  }

  predicate InCallback(a: Action) {
    a.CallSend? || a.CallShutdown? || a.CallRelease? || a.CallConsume?
  }

  /** The other actions leave every connection as it is. */
  lemma RestFollows(s: State, a: Action, id: Id)
    requires Enabled(s, a) && id in s.conns
    requires !InHandler(a) && !InCallback(a) && !a.Expire? && !a.RunTask? && !a.FinishHang? && !a.FinishShutdown?
    ensures id in Next(s, a).conns && Follows(s.conns[id], Next(s, a).conns[id])
  {
    assert Next(s, a).conns[id] == s.conns[id];
  }

  lemma StepFollows(s: State, a: Action, id: Id)
    requires Inv(s) && Enabled(s, a) && id in s.conns && !Next(s, a).revived
    ensures id in Next(s, a).conns && Follows(s.conns[id], Next(s, a).conns[id])
  {
    if a.RunTask? {
      RunTaskFollows(s, id);
    } else if InHandler(a) {
      HandlerFollows(s, a, id);
    } else if InCallback(a) {
      CallFollows(s, a, id);
    } else if a.Expire? {
      ExpireFollows(s, a.id, id);
    } else if a.FinishHang? || a.FinishShutdown? {
      FinishFollows(s, a, id);
    } else {
      RestFollows(s, a, id);
    }
  }

  lemma RunTaskFollows(s: State, id: Id)
    requires Inv(s) && Enabled(s, RunTask) && id in s.conns && !Next(s, RunTask).revived
    ensures id in Next(s, RunTask).conns && Follows(s.conns[id], Next(s, RunTask).conns[id])
  {
    var task, t := s.phase.batch[0], s.(phase := Running(s.phase.batch[1..]));
    assert Pending(s) == s.coming + [task] + (s.phase.batch[1..] + s.queue);
    TakenOut(s.conns, s.coming, task, s.phase.batch[1..] + s.queue);
    SameConns(s, t);
    TaskFollows(t, task, id);
  }

  lemma {:induction false} RunAppend(s: State, schedule: seq<Action>, more: seq<Action>)
    ensures Run(s, schedule + more) == Run(Run(s, schedule), more)
    decreases |more|
  {
    if more == [] {
      assert schedule + more == schedule;
    } else {
      var init := more[..|more| - 1];
      RunAppend(s, schedule, init);
      assert (schedule + more)[..|schedule + more| - 1] == schedule + init;
    }
  }

  lemma {:induction false} RunFollows(s: State, schedule: seq<Action>, id: Id)
    requires Inv(s) && id in s.conns && !Run(s, schedule).revived
    ensures id in Run(s, schedule).conns && Follows(s.conns[id], Run(s, schedule).conns[id])
  {
    if schedule != [] {
      var init, a := schedule[..|schedule| - 1], schedule[|schedule| - 1];
      var t := Run(s, init);
      if Enabled(t, a) {
        NextRevived(t, a);
        RunFollows(s, init, id);
        RunKeeps(s, init);
        StepFollows(t, a, id);
        FollowsTransitive(s.conns[id], t.conns[id], Next(t, a).conns[id]);
      } else {
        RunFollows(s, init, id);
      }
    }
  }

  lemma {:induction false} RunRevived(s: State, more: seq<Action>)
    requires s.revived
    ensures Run(s, more).revived
  {
    if more != [] {
      var t, a := Run(s, more[..|more| - 1]), more[|more| - 1];
      RunRevived(s, more[..|more| - 1]);
      if Enabled(t, a) {
        NextRevived(t, a);
      }
    }
  }

  /** The beginning of a run without revivals. */
  lemma Began(idle: bool, schedule: seq<Action>, more: seq<Action>)
    requires !Exec(idle, schedule + more).revived
    ensures !Exec(idle, schedule).revived && Exec(idle, schedule + more) == Run(Exec(idle, schedule), more)
  {
    RunAppend(Init(idle), schedule, more);
    if Exec(idle, schedule).revived {
      RunRevived(Exec(idle, schedule), more);
    }
  }

  /** A connection never goes back: its status only advances, sent bytes stay sent, the callbacks
      that ran stay counted, and a closed connection changes no more. */
  lemma LifeOnlyAdvances(idle: bool, schedule: seq<Action>, more: seq<Action>, id: Id)
    requires !Exec(idle, schedule + more).revived && id in Exec(idle, schedule).conns
    ensures id in Exec(idle, schedule + more).conns
    ensures Follows(Exec(idle, schedule).conns[id], Exec(idle, schedule + more).conns[id])
  {
    Began(idle, schedule, more);
    AlwaysInv(idle, schedule);
    RunFollows(Exec(idle, schedule), more, id);
  }

  // ---- a connection is established before it is released, unless its timer comes first ----

  predicate CalmTask(conns: map<Id, Conn>, task: Task) {
    && !task.EnableIdle?
    && (task.Established? ==> task.id in conns && conns[task.id].status == Connecting)
  }

  predicate Unasked(conns: map<Id, Conn>, id: Id) {
    id in conns && conns[id].status == Connecting ==> conns[id].forced == 0
  }

  /** Without inactivity timers nobody asks for the release of a CONNECTING connection. */
  ghost predicate Calm(s: State) {
    && !s.idle && s.armed == {} && !s.revived
    && (forall id :: Unasked(s.conns, id))
    && (forall task :: task in Pending(s) ==> CalmTask(s.conns, task))
  }

  /** Only connections that are not CONNECTING were touched, and only calm tasks posted. */
  lemma CalmFrame(s: State, t: State)
    requires Calm(s) && !t.idle && t.armed == {} && !t.revived
    requires forall id :: id in s.conns && s.conns[id].status == Connecting ==> id in t.conns && t.conns[id] == s.conns[id]
    requires forall id :: id in t.conns && t.conns[id].status == Connecting ==>
      (id in s.conns && t.conns[id] == s.conns[id]) || t.conns[id].forced == 0
    requires forall task :: task in Pending(t) ==> task in Pending(s) || CalmTask(t.conns, task)
    ensures Calm(t)
  {
    forall id ensures Unasked(t.conns, id) {
      assert Unasked(s.conns, id);
    }
    forall task | task in Pending(t) ensures CalmTask(t.conns, task) {
      assert task in Pending(s) ==> CalmTask(s.conns, task);
    }
  }

  lemma CommitCalm(s: State, id: Id, d: Conn)
    requires Calm(s) && id in s.conns && s.conns[id].status != Connecting && d.status != Connecting
    ensures Calm(Commit(s, id, d))
  {
    CalmFrame(s, Commit(s, id, d));
  }

  lemma SameCalm(s: State, t: State)
    requires Calm(s) && t.conns == s.conns && t.idle == s.idle && t.armed == {} && !t.revived
    requires forall task :: task in Pending(t) ==> task in Pending(s) || task.SendTask? || task.ShutdownTask? || task.Functor?
    ensures Calm(t)
  {
    CalmFrame(s, t);
  }

  lemma ShutCalm(s: State, id: Id)
    requires Calm(s) && Visible(s, id)
    ensures Calm(Shut(s, id))
  {
    var c := s.conns[id];
    if !Closing(c) {
      CommitCalm(s, id, StopReading(c));
      SameCalm(Commit(s, id, StopReading(c)), Shut(s, id));
    }
  }

  lemma TransmitOpen(c: Conn, n: nat)
    requires c.status != Connecting && n <= |c.output|
    ensures Transmit(c, n).status != Connecting
  {
  }

  lemma HandlerCalm(s: State, a: Action)
    requires Inv(s) && Calm(s) && Enabled(s, a) && InHandler(a)
    ensures Calm(Next(s, a))
  {
    AdvanceKeeps(s);
    var t, id, u := Advance(s), Top(s).id, Next(s, a);
    SameCalm(s, t);
    match a
    case Read(Failed) => ShutCalm(t, id);
    case Read(Got(data)) =>
      CommitCalm(t, id, Received(t.conns[id], data));
      SameCalm(Commit(t, id, Received(t.conns[id], data)), u);
    case Write(None) => SameCalm(t, u);
    case Write(Some(n)) =>
      TransmitOpen(t.conns[id], n);
      CommitCalm(t, id, Transmit(t.conns[id], n));
    case Close => SameCalm(t, u);
    case Event => SameCalm(t, u);
  }

  lemma CallCalm(s: State, a: Action)
    requires Inv(s) && Calm(s) && Enabled(s, a) && InCallback(a)
    ensures Calm(Next(s, a))
  {
    match a
    case CallSend(id, data) => CommitCalm(s, id, Connections.Accept(s.conns[id], data));
    case CallShutdown(id) => ShutCalm(s, id);
    case CallRelease(id) => CommitCalm(s, id, Request(s.conns[id]));
    case CallConsume(id, n) => CommitCalm(s, id, Consumed(s.conns[id], n));
  }

  lemma FinishCalm(s: State, a: Action)
    requires Inv(s) && Calm(s) && Enabled(s, a) && (a.FinishHang? || a.FinishShutdown?)
    ensures Calm(Next(s, a))
  {
    PopSafe(s);
    SameCalm(s, Pop(s));
    var c := s.conns[Top(s).id];
    CommitCalm(Pop(s), Top(s).id, if a.FinishHang? then Request(c) else Drain(c));
  }

  /** The establishment of a CONNECTING connection is the only task that names it so. */
  lemma EstablishCalm(s: State, t: State, id: Id, behind: seq<Task>)
    requires Calm(s) && t.conns == s.conns && !t.idle && t.armed == {} && !t.revived
    requires id in s.conns && s.conns[id].status == Connecting && Established(id) !in Pending(t)
    requires forall task :: task in Pending(t) ==> task in Pending(s)
    ensures Calm(EstablishNow(t, id))
  {
    var u := EstablishNow(t, id);
    forall x ensures Unasked(u.conns, x) {
      assert Unasked(s.conns, x);
    }
    assert Pending(u) == Pending(t);
    forall task | task in Pending(u) ensures CalmTask(u.conns, task) {
      assert CalmTask(s.conns, task);
    }
  }

  lemma ReleaseCalm(s: State, id: Id)
    requires Calm(s) && id in s.conns && s.conns[id].status != Connecting
    ensures Calm(ReleaseNow(s, id))
  {
    if s.conns[id].status != Disconnected {
      CalmFrame(s, ReleaseNow(s, id));
    }
  }

  lemma RunTaskCalm(s: State)
    requires Inv(s) && Calm(s) && Enabled(s, RunTask)
    ensures Calm(Next(s, RunTask))
  {
    var task, t := s.phase.batch[0], s.(phase := Running(s.phase.batch[1..]));
    var behind := s.phase.batch[1..] + s.queue;
    assert Pending(s) == s.coming + [task] + behind && Pending(t) == s.coming + behind;
    TakenOut(s.conns, s.coming, task, behind);
    assert task in Pending(s) && CalmTask(s.conns, task);
    SameCalm(s, t);
    match task
    case Established(id) => EstablishCalm(s, t, id, behind);
    case SendTask(id, data) => CommitCalm(t, id, Connections.Accept(t.conns[id], data));
    case ShutdownTask(id) => ShutCalm(t, id);
    case ReleaseTask(id) =>
      assert ConnOk(s, id) && Unasked(s.conns, id);
      ReleaseCalm(t, id);
    case Functor => SameCalm(t, Next(s, RunTask));
  }

  lemma AcceptCalm(s: State, a: Action)
    requires Inv(s) && Calm(s) && Enabled(s, a) && (a.Accept? || a.CallAccept?)
    ensures Calm(Next(s, a))
  {
    CalmFrame(s, Next(s, a));
  }

  lemma NextCalm(s: State, a: Action)
    requires Inv(s) && Calm(s) && Enabled(s, a)
    ensures Calm(Next(s, a))
  {
    if a.RunTask? {
      RunTaskCalm(s);
    } else if a.Accept? || a.CallAccept? {
      AcceptCalm(s, a);
    } else if InHandler(a) {
      HandlerCalm(s, a);
    } else if InCallback(a) {
      CallCalm(s, a);
    } else if a.FinishHang? || a.FinishShutdown? {
      FinishCalm(s, a);
    } else {
      SameCalm(s, Next(s, a));
    }
  }

  lemma {:induction false} AlwaysCalm(schedule: seq<Action>)
    ensures Inv(Exec(false, schedule)) && Calm(Exec(false, schedule))
  {
    if schedule != [] {
      var s, a := Exec(false, schedule[..|schedule| - 1]), schedule[|schedule| - 1];
      AlwaysCalm(schedule[..|schedule| - 1]);
      if Enabled(s, a) {
        NextCalm(s, a);
        NextKeeps(s, a);
      }
    }
  }

  ghost predicate Reachable(idle: bool, s: State) {
    exists schedule :: Exec(idle, schedule) == s
  }

  lemma NextReachable(idle: bool, s: State, a: Action)
    requires Reachable(idle, s) && Enabled(s, a)
    ensures Reachable(idle, Next(s, a))
  {
    var schedule :| Exec(idle, schedule) == s;
    assert (schedule + [a])[..|schedule|] == schedule;
    assert Exec(idle, schedule + [a]) == Next(s, a);
  }

  /** A run with one connection, accepted with descriptor 5, of which NewConnection has posted the
      timer but not yet the establishment. */
  function Early(queue: seq<Task>, phase: Phase, stack: seq<Frame>, forced: nat, armed: set<Id>, coming: seq<Task>): State {
    State(map[1 := New(5).(forced := forced)], map[], map[5 := 1], queue, phase, stack, true, armed, coming, false)
  }

  /** The same run behind the release of that connection. */
  function Overtaken(phase: Phase, stack: seq<Frame>): State {
    State(map[1 := Closed(New(5).(forced := 1))], map[], map[], [], phase, stack, true, {}, [], false)
  }

  lemma EarlyArmed()
    ensures Enabled(Init(true), Action.Accept(1, 5))
    ensures Next(Init(true), Action.Accept(1, 5)) == Early([EnableIdle(1)], Polling, [], 0, {}, [Established(1)])
    ensures var s := Early([EnableIdle(1)], Polling, [], 0, {}, [Established(1)]);
      Enabled(s, Action.Poll([])) && Next(s, Action.Poll([])) == s.(phase := Dispatching([]))
    ensures var s := Early([EnableIdle(1)], Dispatching([]), [], 0, {}, [Established(1)]);
      Enabled(s, EndDispatch)
      && Next(s, EndDispatch) == Early([], Running([EnableIdle(1)]), [], 0, {}, [Established(1)])
    ensures var s := Early([], Running([EnableIdle(1)]), [], 0, {}, [Established(1)]);
      Enabled(s, RunTask) && Next(s, RunTask) == Early([], Running([]), [], 0, {1}, [Established(1)])
    ensures var s := Early([], Running([]), [], 0, {1}, [Established(1)]);
      Enabled(s, EndTasks) && Next(s, EndTasks) == Early([], Polling, [], 0, {1}, [Established(1)])
  {
    assert [EnableIdle(1)][1..] == [];
    assert {} + {1} == {1};
  }

  lemma EarlyReported()
    ensures var s := Early([], Polling, [], 0, {1}, [Established(1)]);
      Enabled(s, Action.Poll([(9, {In})]))
      && Next(s, Action.Poll([(9, {In})])) == Early([], Dispatching([Internal]), [], 0, {1}, [Established(1)])
  {
    var s, ready := Early([], Polling, [], 0, {1}, [Established(1)]), [(9, {In})];
    assert ready[..|ready| - 1] == [];
    assert Actives(s.channels, ready) == [Internal];
  }

  /** The timerfd is readable, and its handler releases the connection. */
  lemma EarlyExpired()
    ensures var s := Early([], Dispatching([Internal]), [], 0, {1}, [Established(1)]);
      Enabled(s, Dispatch) && Next(s, Dispatch) == Early([], Dispatching([]), [User], 0, {1}, [Established(1)])
    ensures var s := Early([], Dispatching([]), [User], 0, {1}, [Established(1)]);
      Enabled(s, Expire(1))
      && Next(s, Expire(1)) == Early([ReleaseTask(1)], Dispatching([]), [User], 1, {}, [Established(1)])
    ensures var s := Early([ReleaseTask(1)], Dispatching([]), [User], 1, {}, [Established(1)]);
      Enabled(s, Return) && Next(s, Return) == Early([ReleaseTask(1)], Dispatching([]), [], 1, {}, [Established(1)])
  {
    assert [Internal][1..] == [];
    assert {1} - {1} == {};
  }

  lemma EarlyReleased()
    ensures var s := Early([ReleaseTask(1)], Dispatching([]), [], 1, {}, [Established(1)]);
      Enabled(s, PostEstablished)
      && Next(s, PostEstablished) == Early([ReleaseTask(1), Established(1)], Dispatching([]), [], 1, {}, [])
    ensures var s := Early([ReleaseTask(1), Established(1)], Dispatching([]), [], 1, {}, []);
      Enabled(s, EndDispatch)
      && Next(s, EndDispatch) == Early([], Running([ReleaseTask(1), Established(1)]), [], 1, {}, [])
  {
    assert [ReleaseTask(1)] + [Established(1)] == [ReleaseTask(1), Established(1)];
  }

  lemma EarlyClosed()
    ensures var s := Early([], Running([ReleaseTask(1), Established(1)]), [], 1, {}, []);
      Enabled(s, RunTask) && Next(s, RunTask) == Overtaken(Running([Established(1)]), [User])
    ensures var s := Overtaken(Running([Established(1)]), [User]);
      Enabled(s, Return) && Next(s, Return) == Overtaken(Running([Established(1)]), [])
  {
    assert [ReleaseTask(1), Established(1)][1..] == [Established(1)];
    assert map[5 := 1] - {5} == map[];
    assert map[1 := New(5).(forced := 1)][1 := Closed(New(5).(forced := 1))] == map[1 := Closed(New(5).(forced := 1))];
  }

  lemma ReachEarly()
    ensures Reachable(true, Early([], Polling, [], 0, {1}, [Established(1)]))
  {
    assert Exec(true, []) == Init(true);
    EarlyArmed();
    NextReachable(true, Init(true), Action.Accept(1, 5));
    NextReachable(true, Early([EnableIdle(1)], Polling, [], 0, {}, [Established(1)]), Action.Poll([]));
    NextReachable(true, Early([EnableIdle(1)], Dispatching([]), [], 0, {}, [Established(1)]), EndDispatch);
    NextReachable(true, Early([], Running([EnableIdle(1)]), [], 0, {}, [Established(1)]), RunTask);
    NextReachable(true, Early([], Running([]), [], 0, {1}, [Established(1)]), EndTasks);
  }

  lemma ReachExpired()
    ensures Reachable(true, Early([ReleaseTask(1)], Dispatching([]), [], 1, {}, [Established(1)]))
  {
    ReachEarly();
    EarlyReported();
    EarlyExpired();
    NextReachable(true, Early([], Polling, [], 0, {1}, [Established(1)]), Action.Poll([(9, {In})]));
    NextReachable(true, Early([], Dispatching([Internal]), [], 0, {1}, [Established(1)]), Dispatch);
    NextReachable(true, Early([], Dispatching([]), [User], 0, {1}, [Established(1)]), Expire(1));
    NextReachable(true, Early([ReleaseTask(1)], Dispatching([]), [User], 1, {}, [Established(1)]), Return);
  }

  lemma ReachOvertaken()
    ensures Reachable(true, Overtaken(Running([Established(1)]), []))
  {
    ReachExpired();
    EarlyReleased();
    EarlyClosed();
    NextReachable(true, Early([ReleaseTask(1)], Dispatching([]), [], 1, {}, [Established(1)]), PostEstablished);
    NextReachable(true, Early([ReleaseTask(1), Established(1)], Dispatching([]), [], 1, {}, []), EndDispatch);
    NextReachable(true, Early([], Running([ReleaseTask(1), Established(1)]), [], 1, {}, []), RunTask);
    NextReachable(true, Overtaken(Running([Established(1)]), [User]), Return);
  }

  /** The inactivity timer of a new connection comes before its establishment: released and closed,
      the connection is CONNECTED and registered again under its old descriptor, which the next
      connection then gets. */
  lemma Revival() returns (s: State)
    ensures Reachable(true, s) && s.revived
    ensures s.conns.Keys == {1, 2} && s.conns[1].status == Connected && s.conns[1].closed == 1
    ensures s.conns[1].fd == s.conns[2].fd == 5 && s.channels == map[5 := 1] && s.owner == map[5 := 2]
  {
    var t := Overtaken(Running([Established(1)]), []);
    ReachOvertaken();
    NextReachable(true, t, RunTask);
    s := Next(t, RunTask);
    NextReachable(true, s, Action.Accept(2, 5));
    s := Next(s, Action.Accept(2, 5));
  }

  /** No run establishes a released connection, exactly when the server does not release inactive
      ones.  Then every theorem below holds of every run. */
  lemma EstablishedInTime(idle: bool)
    ensures (forall schedule :: !Exec(idle, schedule).revived) <==> !idle
  {
    if idle {
      var s := Revival();
      var schedule :| Exec(true, schedule) == s;
      assert Exec(idle, schedule).revived;
    } else {
      forall schedule ensures !Exec(idle, schedule).revived {
        AlwaysCalm(schedule);
      }
    }
  }

  /** In a run without revivals, a step takes some connection back in its life if and only if it
      revives one. */
  lemma OnlyRevivalGoesBack(idle: bool, schedule: seq<Action>, a: Action)
    requires !Exec(idle, schedule).revived && Enabled(Exec(idle, schedule), a)
    ensures var s := Exec(idle, schedule); var t := Next(s, a);
      t.revived <==> exists id :: id in s.conns && (id !in t.conns || !Follows(s.conns[id], t.conns[id]))
  {
    var s, t := Exec(idle, schedule), Next(Exec(idle, schedule), a);
    AlwaysInv(idle, schedule);
    if t.revived {
      var id := s.phase.batch[0].id;
      assert TaskOk(s.conns, Pending(s)[|s.coming|]);
      assert Rank(s.conns[id].status) > Rank(t.conns[id].status);
    } else {
      forall id | id in s.conns ensures id in t.conns && Follows(s.conns[id], t.conns[id]) {
        StepFollows(s, a, id);
      }
    }
  }

  // ---- the theorems, for every run ----

  /** Whenever HandleEvent is about to be called on a connection's channel, or one of its callbacks
      is, the connection is registered and not released, and its descriptor is still its own. */
  lemma NoDispatchAfterRelease(idle: bool, schedule: seq<Action>, id: Id)
    requires !Exec(idle, schedule).revived
    requires var s := Exec(idle, schedule);
      || (s.phase.Dispatching? && exists k :: 0 <= k < |s.phase.actives| && s.phase.actives[k].Own? && s.phase.actives[k].id == id)
      || (exists k :: 0 <= k < |s.stack| && s.stack[k] != User && s.stack[k].id == id)
    ensures var s := Exec(idle, schedule);
      && id in s.conns && s.conns[id].status != Disconnected && s.conns[id].registered
      && s.conns[id].fd in s.channels && s.channels[s.conns[id].fd] == id
      && s.conns[id].fd in s.owner && s.owner[s.conns[id].fd] == id
  {
    var s := Exec(idle, schedule);
    AlwaysInv(idle, schedule);
    assert ConnOk(s, id);
    if s.phase.Dispatching? && exists k :: 0 <= k < |s.phase.actives| && s.phase.actives[k].Own? && s.phase.actives[k].id == id {
      var k :| 0 <= k < |s.phase.actives| && s.phase.actives[k].Own? && s.phase.actives[k].id == id;
      assert ActiveOk(s.conns, s.phase.actives[k]);
    } else {
      var k :| 0 <= k < |s.stack| && s.stack[k] != User && s.stack[k].id == id;
      assert FrameOk(s.conns, s.stack[k]);
    }
  }

  /** A released connection is never registered again, in any continuation, even when its
      descriptor is reused: whatever the poller finds under it belongs to the current owner. */
  lemma NeverRegisteredAgain(idle: bool, schedule: seq<Action>, more: seq<Action>, id: Id)
    requires !Exec(idle, schedule + more).revived
    requires id in Exec(idle, schedule).conns && Exec(idle, schedule).conns[id].status == Disconnected
    ensures var t := Exec(idle, schedule + more);
      && id in t.conns && t.conns[id].status == Disconnected && t.conns[id].closed == 1
      && (forall fd :: fd in t.channels ==>
            t.channels[fd] != id && fd in t.owner && t.owner[fd] == t.channels[fd])
  {
    var t := Exec(idle, schedule + more);
    Began(idle, schedule, more);
    LifeOnlyAdvances(idle, schedule, more, id);
    AlwaysInv(idle, schedule + more);
    assert ConnOk(t, id);
    forall fd | fd in t.channels
      ensures t.channels[fd] != id && fd in t.owner && t.owner[fd] == t.channels[fd]
    {
      assert ChannelOk(t, fd) && ConnOk(t, t.channels[fd]);
    }
  }

  /** However often it was asked for, the release of a connection calls the closed callbacks once. */
  lemma ReleasedOnce(idle: bool, schedule: seq<Action>, id: Id)
    requires !Exec(idle, schedule).revived && id in Exec(idle, schedule).conns
    ensures var s := Exec(idle, schedule);
      s.conns[id].closed == (if s.conns[id].status == Disconnected then 1 else 0)
  {
    AlwaysInv(idle, schedule);
    assert ConnOk(Exec(idle, schedule), id);
  }

  /** Bytes are conserved: what the message callback took and what is still buffered is, in order,
      what came from the kernel; what the kernel took and what is still buffered is, in order, what
      SendInLoop accepted; and a connection that nobody forced closed has sent all of it. */
  lemma BytesConserved(idle: bool, schedule: seq<Action>, id: Id)
    requires !Exec(idle, schedule).revived && id in Exec(idle, schedule).conns
    ensures var c := Exec(idle, schedule).conns[id];
      && c.consumed + c.input == c.received
      && c.sent + c.output == c.accepted
      && (c.status == Disconnected && c.forced == 0 ==> c.sent == c.accepted)
  {
    AlwaysInv(idle, schedule);
    var c := Exec(idle, schedule).conns[id];
    assert ConnOk(Exec(idle, schedule), id);
    if c.status == Disconnected && c.forced == 0 {
      GracefulMeansSent(c);
    }
  }

  /** Nothing is left hanging when the loop is between two calls: unsent output is monitored
      through the connection's own registration, a half-closed connection with nothing to send has
      its release queued, and so does one whose release was asked for. */
  lemma NothingStalls(idle: bool, schedule: seq<Action>, id: Id)
    requires !Exec(idle, schedule).revived
    requires id in Exec(idle, schedule).conns && Exec(idle, schedule).stack == []
    requires Exec(idle, schedule).conns[id].status != Disconnected
    ensures var s := Exec(idle, schedule); var c := s.conns[id];
      && (c.status == Connecting ==> Established(id) in Pending(s))
      && (c.output != "" ==> Out in c.events && c.fd in s.channels && s.channels[c.fd] == id)
      && (c.status == Disconnecting && c.output == "" ==> ReleaseTask(id) in Pending(s))
      && (c.graceful + c.forced > 0 ==> ReleaseTask(id) in Pending(s))
  {
    var s := Exec(idle, schedule);
    AlwaysInv(idle, schedule);
    assert ConnOk(s, id) && Awaited(s.conns[id], id, Pending(s), s.stack);
  }
}
