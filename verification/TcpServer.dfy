/** src/TcpServer.cc: the map of connections, kept by the base loop while the sub-loops establish
    and release the connections in it.  Every action is one piece of one thread's code. */
module TcpServers {
  /** The position of a connection object in the order of creation. */
  type Handle = nat

  type LoopId = nat

  /** With no sub-loops NextLoop() returns the base loop itself. */
  const BASE: LoopId := 0

  const UINT32: nat := 0x1_0000_0000
  const UINT64: nat := 0x1_0000_0000_0000_0000

  // ---- the map ----

  function Next(id: nat): nat {
    (id + 1) % UINT64
  }

  /** `int id = conne->Id(); erase(id)`: the low 32 bits as a signed number, converted back. */
  function Key(id: nat): nat {
    var low := id % UINT32;
    if low < UINT32 / 2 then low else UINT64 - UINT32 + low
  }

  /** unordered_map::insert keeps an entry that is already there. */
  function Inserted(entries: map<nat, Handle>, id: nat, h: Handle): map<nat, Handle> {
    if id in entries then entries else entries[id := h]
  }

  lemma InsertedMeaning(entries: map<nat, Handle>, id: nat, h: Handle)
    ensures id in Inserted(entries, id, h) && Inserted(entries, id, h) - {id} == entries - {id}
    ensures Inserted(entries, id, h)[id] == if id in entries then entries[id] else h
  {
  }

  function Erased(entries: map<nat, Handle>, id: nat): map<nat, Handle> {
    entries - {Key(id)}
  }

  /** A removal takes the connection's own entry, and no other, exactly for the ids that an int
      represents: those below 2^31, and at the other end those from 2^64 - 2^31. */
  lemma EraseIsOwn(entries: map<nat, Handle>, id: nat)
    requires id in entries && id < UINT64
    ensures Erased(entries, id) == entries - {id} <==> id < UINT32 / 2 || UINT64 - UINT32 / 2 <= id
  {
    var low := id % UINT32;
    assert id == id / UINT32 * UINT32 + low;
    if Key(id) != id {
      assert id !in entries - {id};
      assert id in Erased(entries, id);
    }
    if UINT64 - UINT32 / 2 <= id {
      assert id / UINT32 == UINT32 - 1;
    }
  }

  // ---- the threads ----

  datatype Status = Connecting | Connected | Disconnected

  datatype Conn = Conn(id: nat, loop: LoopId, status: Status)

  /** The tasks of a connection in its own loop. */
  datatype Task = EnableIdle(h: Handle) | Establish(h: Handle) | Release(h: Handle)

  /** Where the base thread is inside NewConnection.  Calling: in the connected callback of a
      connection of its own loop, which Established() runs at once. */
  datatype Pc = Ready | Created(h: Handle) | Posting(h: Handle) | Calling(h: Handle) | Inserting(h: Handle)

  /** `made` counts the increments of _next_id; `armed` are the connections with a running
      inactivity timer; `removals` are the RemoveConnectionInLoop tasks of the base loop; `filed`
      maps the inserted connections to the keys used; `nested` are those whose connected callback
      took an id; `failed` says that the assertion of EstablishedInLoop did not hold. */
  datatype State = State(nextId: nat, made: nat, entries: map<nat, Handle>, conns: seq<Conn>, pc: Pc,
                         queues: map<LoopId, seq<Task>>, armed: set<Handle>, removals: seq<Handle>,
                         filed: map<Handle, nat>, erased: set<Handle>, nested: set<Handle>, failed: bool)

  function Init(): State {
    State(0, 0, map[], [], Ready, map[], {}, [], map[], {}, {}, false)
  }

  function QueueOf(s: State, loop: LoopId): seq<Task> {
    if loop in s.queues then s.queues[loop] else []
  }

  function Post(s: State, loop: LoopId, task: Task): State {
    s.(queues := s.queues[loop := QueueOf(s, loop) + [task]])
  }

  datatype Action =
    | RunAfter
    | NewConnection(loop: LoopId)
    | Enable
    | PostEstablished
    | Return
    | Insert
    | RunRemoval
    | RunTask(loop: LoopId)
    | Fire(h: Handle)
    | AskRelease(h: Handle)

  /** The base thread runs its queues and handlers one after the other, so nothing of them happens
      inside NewConnection, except what a connected callback calls: RunAfter takes its id at once on
      this thread, and Release can be asked for anywhere. */
  predicate Enabled(s: State, a: Action) {
    match a
    case RunAfter => s.pc == Ready || s.pc.Calling?
    case NewConnection(_) => s.pc == Ready
    case Enable => s.pc.Created? && s.pc.h < |s.conns|
    case PostEstablished => s.pc.Posting? && s.pc.h < |s.conns|
    case Return => s.pc.Calling?
    case Insert => s.pc.Inserting? && s.pc.h < |s.conns|
    case RunRemoval => s.pc == Ready && s.removals != [] && s.removals[0] < |s.conns|
    case RunTask(loop) =>
      && (loop == BASE ==> s.pc == Ready)
      && QueueOf(s, loop) != [] && QueueOf(s, loop)[0].h < |s.conns|
    case Fire(h) => h in s.armed && h < |s.conns| && (s.conns[h].loop == BASE ==> s.pc == Ready)
    case AskRelease(h) => h < |s.conns| && s.conns[h].status != Connecting
  }

  /** EstablishedInLoop.  It begins with an assertion, which the default build compiles away. */
  function EstablishNow(s: State, h: Handle): State
    requires h < |s.conns|
  {
    s.(conns := s.conns[h := s.conns[h].(status := Connected)],
       failed := s.failed || s.conns[h].status != Connecting)
  }

  function EraseNow(s: State, h: Handle): State
    requires h < |s.conns|
  {
    s.(entries := Erased(s.entries, s.conns[h].id), erased := s.erased + {h})
  }

  /** ReleaseInLoop: the timer is cancelled and the server told, at once if this is its loop. */
  function ReleaseNow(s: State, h: Handle): State
    requires h < |s.conns|
  {
    if s.conns[h].status == Disconnected then s
    else
      var t := s.(conns := s.conns[h := s.conns[h].(status := Disconnected)], armed := s.armed - {h});
      if s.conns[h].loop == BASE then EraseNow(t, h) else t.(removals := t.removals + [h])
  }

  function RunOne(s: State, task: Task): State
    requires task.h < |s.conns|
  {
    match task
    case EnableIdle(h) => s.(armed := s.armed + {h})
    case Establish(h) => EstablishNow(s, h)
    case Release(h) => ReleaseNow(s, h)
  }

  /** RunInLoop from the base thread: at once in the base loop, queued in another one. */
  function RunInLoop(s: State, task: Task): State
    requires task.h < |s.conns|
  {
    var loop := s.conns[task.h].loop;
    if loop == BASE then RunOne(s, task) else Post(s, loop, task)
  }

  /** `idle` says whether the server was told to release inactive connections. */
  function Step(s: State, a: Action, idle: bool): State
    requires Enabled(s, a)
  {
    match a
    case RunAfter =>
      s.(nextId := Next(s.nextId), made := s.made + 1, nested := if s.pc.Calling? then s.nested + {s.pc.h} else s.nested)
    case NewConnection(loop) =>
      var id, h := Next(s.nextId), |s.conns|;
      s.(nextId := id, made := s.made + 1, conns := s.conns + [Conn(id, loop, Connecting)],
         pc := if idle then Created(h) else Posting(h))
    case Enable => RunInLoop(s, EnableIdle(s.pc.h)).(pc := Posting(s.pc.h))
    case PostEstablished =>
      RunInLoop(s, Establish(s.pc.h)).(pc := if s.conns[s.pc.h].loop == BASE then Calling(s.pc.h) else Inserting(s.pc.h))
    case Return => s.(pc := Inserting(s.pc.h))
    case Insert =>
      s.(entries := Inserted(s.entries, s.nextId, s.pc.h), filed := s.filed[s.pc.h := s.nextId], pc := Ready)
    case RunRemoval => EraseNow(s, s.removals[0]).(removals := s.removals[1..])
    case RunTask(loop) =>
      var queue := QueueOf(s, loop);
      RunOne(s.(queues := s.queues[loop := queue[1..]]), queue[0])
    case Fire(h) => Post(s.(armed := s.armed - {h}), s.conns[h].loop, Release(h))
    case AskRelease(h) => Post(s, s.conns[h].loop, Release(h))
  }

  function Exec(idle: bool, schedule: seq<Action>): State {
    if schedule == [] then Init()
    else
      var s, a := Exec(idle, schedule[..|schedule| - 1]), schedule[|schedule| - 1];
      if Enabled(s, a) then Step(s, a, idle) else s
  }

  // ---- Established runs before any Release, unless an inactivity timer can overtake it ----

  predicate TaskOk(conns: seq<Conn>, loop: LoopId, task: Task) {
    && task.h < |conns| && conns[task.h].loop == loop && !task.EnableIdle?
    && (task.Establish? <==> conns[task.h].status == Connecting)
  }

  ghost predicate QueueOk(conns: seq<Conn>, loop: LoopId, queue: seq<Task>) {
    && (forall k :: 0 <= k < |queue| ==> TaskOk(conns, loop, queue[k]))
    && (forall j, k :: 0 <= j < k < |queue| && queue[j].Establish? ==> queue[j] != queue[k])
  }

  ghost predicate Orderly(s: State) {
    && (forall loop :: QueueOk(s.conns, loop, QueueOf(s, loop)))
    && (s.pc.Posting? ==>
          s.pc.h < |s.conns| && s.conns[s.pc.h].status == Connecting
          && Establish(s.pc.h) !in QueueOf(s, s.conns[s.pc.h].loop))
    && !s.pc.Created? && s.armed == {} && !s.failed
  }

  lemma QueueAppend(conns: seq<Conn>, loop: LoopId, queue: seq<Task>, task: Task)
    requires QueueOk(conns, loop, queue) && TaskOk(conns, loop, task)
    requires task.Establish? ==> task !in queue
    ensures QueueOk(conns, loop, queue + [task])
  {
  }

  lemma QueueTail(conns: seq<Conn>, loop: LoopId, queue: seq<Task>)
    requires QueueOk(conns, loop, queue) && queue != []
    ensures QueueOk(conns, loop, queue[1..]) && TaskOk(conns, loop, queue[0])
    ensures queue[0].Establish? ==> queue[0] !in queue[1..]
  {
    forall k | 0 <= k < |queue[1..]| ensures TaskOk(conns, loop, queue[1..][k]) {
      assert TaskOk(conns, loop, queue[k + 1]);
    }
  }

  /** A connection changes without touching what the tasks in a queue rely on. */
  lemma QueueKeeps(conns: seq<Conn>, later: seq<Conn>, loop: LoopId, queue: seq<Task>)
    requires QueueOk(conns, loop, queue) && |conns| <= |later|
    requires forall h :: 0 <= h < |conns| ==>
      later[h].loop == conns[h].loop && (later[h].status == Connecting <==> conns[h].status == Connecting)
    ensures QueueOk(later, loop, queue)
  {
    forall k | 0 <= k < |queue| ensures TaskOk(later, loop, queue[k]) {
      assert TaskOk(conns, loop, queue[k]);
    }
  }

  lemma PostOrderly(s: State, task: Task)
    requires Orderly(s) && task.h < |s.conns| && TaskOk(s.conns, s.conns[task.h].loop, task)
    requires task.Establish? ==> task !in QueueOf(s, s.conns[task.h].loop) && s.pc != Posting(task.h)
    ensures Orderly(Post(s, s.conns[task.h].loop, task))
  {
    var loop := s.conns[task.h].loop;
    var t := Post(s, loop, task);
    QueueAppend(s.conns, loop, QueueOf(s, loop), task);
    forall l ensures QueueOk(t.conns, l, QueueOf(t, l)) {
      assert QueueOk(s.conns, l, QueueOf(s, l));
    }
  }

  lemma EstablishOrderly(s: State, h: Handle)
    requires Orderly(s) && h < |s.conns| && s.conns[h].status == Connecting
    requires Establish(h) !in QueueOf(s, s.conns[h].loop) && s.pc != Posting(h)
    ensures Orderly(EstablishNow(s, h))
  {
    var t := EstablishNow(s, h);
    forall l ensures QueueOk(t.conns, l, QueueOf(t, l)) {
      assert QueueOk(s.conns, l, QueueOf(s, l));
      var queue := QueueOf(s, l);
      forall k | 0 <= k < |queue| ensures TaskOk(t.conns, l, queue[k]) {
        assert TaskOk(s.conns, l, queue[k]);
      }
    }
  }

  lemma ReleaseOrderly(s: State, h: Handle)
    requires Orderly(s) && h < |s.conns| && s.conns[h].status != Connecting
    ensures Orderly(ReleaseNow(s, h))
  {
    var t := ReleaseNow(s, h);
    forall l ensures QueueOk(t.conns, l, QueueOf(t, l)) {
      assert QueueOk(s.conns, l, QueueOf(s, l));
      QueueKeeps(s.conns, t.conns, l, QueueOf(s, l));
    }
  }

  lemma SameQueues(s: State, t: State)
    requires Orderly(s) && t.conns == s.conns && t.queues == s.queues
    ensures forall loop :: QueueOk(t.conns, loop, QueueOf(t, loop))
  {
    forall loop ensures QueueOk(t.conns, loop, QueueOf(t, loop)) {
      assert QueueOk(s.conns, loop, QueueOf(s, loop));
    }
  }

  lemma NewOrderly(s: State, loop: LoopId)
    requires Orderly(s) && s.pc == Ready
    ensures Orderly(Step(s, NewConnection(loop), false))
  {
    var t, h := Step(s, NewConnection(loop), false), |s.conns|;
    forall l ensures QueueOk(t.conns, l, QueueOf(t, l)) {
      assert QueueOk(s.conns, l, QueueOf(s, l));
      QueueKeeps(s.conns, t.conns, l, QueueOf(s, l));
    }
    var queue := QueueOf(s, loop);
    assert QueueOk(s.conns, loop, queue);
    assert forall k :: 0 <= k < |queue| ==> TaskOk(s.conns, loop, queue[k]) && queue[k].h != h;
  }

  lemma RunTaskOrderly(s: State, loop: LoopId)
    requires Orderly(s) && Enabled(s, RunTask(loop))
    ensures Orderly(Step(s, RunTask(loop), false))
  {
    var queue := QueueOf(s, loop);
    var t := s.(queues := s.queues[loop := queue[1..]]);
    assert QueueOk(s.conns, loop, queue);
    QueueTail(s.conns, loop, queue);
    forall l ensures QueueOk(t.conns, l, QueueOf(t, l)) {
      assert QueueOk(s.conns, l, QueueOf(s, l));
    }
    if t.pc.Posting? {
      assert Establish(t.pc.h) !in QueueOf(t, t.conns[t.pc.h].loop);
    }
    match queue[0]
    case Establish(h) => EstablishOrderly(t, h);
    case Release(h) => ReleaseOrderly(t, h);
  }

  lemma StepOrderly(s: State, a: Action)
    requires Orderly(s) && Enabled(s, a)
    ensures Orderly(Step(s, a, false))
  {
    var t := Step(s, a, false);
    match a
    case RunAfter => SameQueues(s, t);
    case NewConnection(loop) => NewOrderly(s, loop);
    case PostEstablished =>
      var u, h := s.(pc := t.pc), s.pc.h;
      SameQueues(s, u);
      if s.conns[h].loop == BASE {
        EstablishOrderly(u, h);
      } else {
        PostOrderly(u, Establish(h));
      }
    case Return => SameQueues(s, t);
    case Insert => SameQueues(s, t);
    case RunRemoval => SameQueues(s, t);
    case RunTask(loop) => RunTaskOrderly(s, loop);
    case AskRelease(h) => PostOrderly(s, Release(h));
    case _ =>
  }

  lemma {:induction false} AlwaysOrderly(schedule: seq<Action>)
    ensures Orderly(Exec(false, schedule))
  {
    if schedule != [] {
      var s, a := Exec(false, schedule[..|schedule| - 1]), schedule[|schedule| - 1];
      AlwaysOrderly(schedule[..|schedule| - 1]);
      if Enabled(s, a) {
        StepOrderly(s, a);
      }
    }
  }

  ghost predicate Reachable(idle: bool, s: State) {
    exists schedule :: Exec(idle, schedule) == s
  }

  lemma InitReachable(idle: bool)
    ensures Reachable(idle, Init())
  {
    assert Exec(idle, []) == Init();
  }

  lemma StepReachable(idle: bool, s: State, a: Action)
    requires Reachable(idle, s) && Enabled(s, a)
    ensures Reachable(idle, Step(s, a, idle))
  {
    var schedule :| Exec(idle, schedule) == s;
    assert (schedule + [a])[..|schedule|] == schedule;
    assert Exec(idle, schedule + [a]) == Step(s, a, idle);
  }

  /** The states of that run: the first connection of loop 1, and where it and its timer are. */
  function Race(status: Status, pc: Pc, queue: seq<Task>, armed: set<Handle>, removals: seq<Handle>): State {
    State(1, 1, map[], [Conn(1, 1, status)], pc, map[1 := queue], armed, removals, map[], {}, {}, false)
  }

  lemma RaceBegins()
    ensures Enabled(Init(), NewConnection(1))
    ensures var s := Step(Init(), NewConnection(1), true);
      Enabled(s, Enable) && Step(s, Enable, true) == Race(Connecting, Posting(0), [EnableIdle(0)], {}, [])
  {
    var s := Step(Init(), NewConnection(1), true);
    assert s.conns == [Conn(1, 1, Connecting)];
    assert QueueOf(s, 1) + [EnableIdle(0)] == [EnableIdle(0)];
  }

  /** The timer is armed, fires, and its Release runs, all before the next step of the base thread. */
  lemma RaceReleases()
    ensures var s := Race(Connecting, Posting(0), [EnableIdle(0)], {}, []);
      && Enabled(s, RunTask(1)) && Step(s, RunTask(1), true) == Race(Connecting, Posting(0), [], {0}, [])
    ensures var s := Race(Connecting, Posting(0), [], {0}, []);
      && Enabled(s, Fire(0)) && Step(s, Fire(0), true) == Race(Connecting, Posting(0), [Release(0)], {}, [])
    ensures var s := Race(Connecting, Posting(0), [Release(0)], {}, []);
      && Enabled(s, RunTask(1)) && Step(s, RunTask(1), true) == Race(Disconnected, Posting(0), [], {}, [0])
  {
    var s := Race(Connecting, Posting(0), [], {0}, []);
    assert QueueOf(s, 1) + [Release(0)] == [Release(0)];
  }

  lemma RaceFails()
    ensures var s := Race(Disconnected, Posting(0), [], {}, [0]);
      && Enabled(s, PostEstablished)
      && Step(s, PostEstablished, true) == Race(Disconnected, Inserting(0), [Establish(0)], {}, [0])
    ensures var s := Race(Disconnected, Inserting(0), [Establish(0)], {}, [0]);
      && Enabled(s, RunTask(1))
      && Step(s, RunTask(1), true) == Race(Connected, Inserting(0), [], {}, [0]).(failed := true)
  {
    var s := Race(Disconnected, Posting(0), [], {}, [0]);
    assert QueueOf(s, 1) + [Establish(0)] == [Establish(0)];
  }

  lemma ReachRace()
    ensures Reachable(true, Race(Disconnected, Posting(0), [], {}, [0]))
  {
    InitReachable(true);
    RaceBegins();
    StepReachable(true, Init(), NewConnection(1));
    StepReachable(true, Step(Init(), NewConnection(1), true), Enable);
    RaceReleases();
    StepReachable(true, Race(Connecting, Posting(0), [EnableIdle(0)], {}, []), RunTask(1));
    StepReachable(true, Race(Connecting, Posting(0), [], {0}, []), Fire(0));
    StepReachable(true, Race(Connecting, Posting(0), [Release(0)], {}, []), RunTask(1));
  }

  /** The base thread is slow behind its first task: the timer of the new connection expires and
      releases it before Established is even posted.  Built without assertions, the connection is
      then CONNECTED again, and dropped from the map by the removal that is on its way. */
  lemma Overtaken() returns (s: State)
    ensures Reachable(true, s) && s.failed
    ensures s.conns == [Conn(1, 1, Connected)] && s.erased == {0} && s.entries == map[]
  {
    ReachRace();
    RaceFails();
    StepReachable(true, Race(Disconnected, Posting(0), [], {}, [0]), PostEstablished);
    StepReachable(true, Race(Disconnected, Inserting(0), [Establish(0)], {}, [0]), RunTask(1));
    var revived := Race(Connected, Inserting(0), [], {}, [0]).(failed := true);
    StepReachable(true, revived, Insert);
    StepReachable(true, Step(revived, Insert, true), RunRemoval);
    s := Step(Step(revived, Insert, true), RunRemoval, true);
  }

  /** The assertion of EstablishedInLoop holds in every run exactly when inactive connections are
      not released by the server. */
  lemma EstablishedFirst(idle: bool)
    ensures (forall s :: Reachable(idle, s) ==> !s.failed) <==> !idle
  {
    if idle {
      var s := Overtaken();
      assert Reachable(idle, s);
    } else {
      forall s | Reachable(idle, s) ensures !s.failed {
        var schedule :| Exec(idle, schedule) == s;
        AlwaysOrderly(schedule);
      }
    }
  }

  // ---- the map holds the connections created and not removed ----

  /** NewConnection has not reached its insert yet. */
  predicate Building(s: State, h: Handle) {
    s.pc != Ready && s.pc.h == h
  }

  /** The insert takes the value of _next_id, which is the connection's id unless the connected
      callback took ids behind it; the entry stays until the connection is erased under its own id. */
  ghost predicate FiledOk(s: State, h: Handle)
    requires h < |s.conns| && h in s.filed
  {
    var id, key := s.conns[h].id, s.filed[h];
    && id <= key <= s.made && (h + 1 < |s.conns| ==> key < s.conns[h + 1].id)
    && (key == id <==> h !in s.nested)
    && (h !in s.erased || key != id ==> key in s.entries && s.entries[key] == h)
  }

  ghost predicate ConnOk(s: State, h: Handle) {
    && (h in s.filed || h in s.nested ==> h < |s.conns|)
    && (h in s.erased ==> h in s.filed)
    && (h < |s.conns| ==>
          && 1 <= s.conns[h].id <= s.made
          && (h in s.nested ==> s.conns[h].loop == BASE)
          && (h in s.filed <==> !Building(s, h))
          && (h in s.filed ==> FiledOk(s, h)))
  }

  ghost predicate EntryOk(s: State, key: nat) {
    key in s.entries ==>
      var h := s.entries[key];
      h < |s.conns| && h in s.filed && s.filed[h] == key && (h !in s.erased || s.conns[h].id != key)
  }

  ghost predicate RemovalOk(s: State, k: nat) {
    k < |s.removals| ==> s.removals[k] < |s.conns|
  }

  predicate Increasing(conns: seq<Conn>) {
    forall i, j :: 0 <= i < j < |conns| ==> conns[i].id < conns[j].id
  }

  predicate PcOk(s: State) {
    s.pc != Ready ==>
      && s.pc.h == |s.conns| - 1 && s.pc.h !in s.erased
      && s.conns[s.pc.h].id <= s.nextId && (s.nextId == s.conns[s.pc.h].id <==> s.pc.h !in s.nested)
      && (s.pc.Calling? ==> s.conns[s.pc.h].loop == BASE)
  }

  ghost predicate Exact(s: State) {
    && s.nextId == s.made && Increasing(s.conns) && PcOk(s)
    && (forall h: Handle :: ConnOk(s, h))
    && (forall key: nat :: EntryOk(s, key))
    && (forall k: nat :: RemovalOk(s, k))
  }

  /** The key of another connection is never this connection's id. */
  lemma KeysApart(s: State, h: Handle, x: Handle)
    requires Exact(s) && h < |s.conns| && x in s.filed && x != h
    ensures x < |s.conns| && s.filed[x] != s.conns[h].id
  {
    assert ConnOk(s, x);
    if x < h {
      assert s.conns[x + 1].id <= s.conns[h].id;
    }
  }

  /** A removal takes at most the connection's own entry; below 2^31 its key is the id. */
  lemma EraseExact(s: State, h: Handle)
    requires Exact(s) && s.made < UINT32 / 2 && h < |s.conns| && s.pc == Ready
    ensures Exact(EraseNow(s, h))
  {
    var t := EraseNow(s, h);
    assert ConnOk(s, h);
    assert Key(s.conns[h].id) == s.conns[h].id;
    forall x: Handle ensures ConnOk(t, x) {
      assert ConnOk(s, x);
      if x in s.filed && x != h {
        KeysApart(s, h, x);
      }
    }
    forall key: nat ensures EntryOk(t, key) {
      assert EntryOk(s, key);
    }
    forall k: nat ensures RemovalOk(t, k) {
      assert RemovalOk(s, k);
    }
  }

  /** Nothing changed that the map depends on. */
  lemma ExactFrame(s: State, t: State)
    requires Exact(s) && PcOk(t)
    requires t == s.(pc := t.pc, queues := t.queues, armed := t.armed, removals := t.removals, failed := t.failed,
                     conns := t.conns)
    requires |t.conns| == |s.conns| && forall k: nat :: RemovalOk(t, k)
    requires forall h :: 0 <= h < |s.conns| ==> t.conns[h].id == s.conns[h].id && t.conns[h].loop == s.conns[h].loop
    requires t.pc == s.pc || (t.pc != Ready && s.pc != Ready && t.pc.h == s.pc.h)
    ensures Exact(t)
  {
    forall h: Handle ensures ConnOk(t, h) {
      assert ConnOk(s, h);
    }
    forall key: nat ensures EntryOk(t, key) {
      assert EntryOk(s, key);
    }
  }

  /** The removals stay in range. */
  lemma RemovalsFrame(s: State, t: State)
    requires (forall k: nat :: RemovalOk(s, k)) && |s.conns| <= |t.conns| && t.removals == s.removals
    ensures forall k: nat :: RemovalOk(t, k)
  {
    forall k: nat ensures RemovalOk(t, k) {
      assert RemovalOk(s, k);
    }
  }

  lemma RemovalExact(s: State, idle: bool)
    requires Exact(s) && s.made < UINT32 / 2 && Enabled(s, RunRemoval)
    ensures Exact(Step(s, RunRemoval, idle))
  {
    var t, h := s.(removals := s.removals[1..]), s.removals[0];
    forall k: nat ensures RemovalOk(t, k) {
      assert RemovalOk(s, k + 1);
    }
    ExactFrame(s, t);
    EraseExact(t, h);
  }

  lemma ReleaseExact(s: State, h: Handle)
    requires Exact(s) && s.made < UINT32 / 2 && h < |s.conns|
    requires s.conns[h].loop == BASE ==> s.pc == Ready
    ensures Exact(ReleaseNow(s, h))
  {
    if s.conns[h].status != Disconnected {
      var t := s.(conns := s.conns[h := s.conns[h].(status := Disconnected)], armed := s.armed - {h});
      RemovalsFrame(s, t);
      ExactFrame(s, t);
      if s.conns[h].loop == BASE {
        EraseExact(t, h);
      } else {
        var u := t.(removals := t.removals + [h]);
        forall k: nat ensures RemovalOk(u, k) {
          assert RemovalOk(s, k);
        }
        ExactFrame(t, u);
      }
    }
  }

  lemma NewExact(s: State, loop: LoopId, idle: bool)
    requires Exact(s) && s.made < UINT32 / 2 && s.pc == Ready
    ensures Exact(Step(s, NewConnection(loop), idle))
  {
    var t := Step(s, NewConnection(loop), idle);
    assert ConnOk(s, |s.conns|);
    forall i | 0 <= i < |s.conns| ensures s.conns[i].id <= s.made {
      assert ConnOk(s, i);
    }
    forall h: Handle ensures ConnOk(t, h) {
      assert ConnOk(s, h);
    }
    forall key: nat ensures EntryOk(t, key) {
      assert EntryOk(s, key);
    }
    RemovalsFrame(s, t);
  }

  /** Keys used before NewConnection began are below the current value of _next_id. */
  lemma KeysBelow(s: State, x: Handle)
    requires Exact(s) && s.pc != Ready && x in s.filed
    ensures s.filed[x] < s.nextId
  {
    assert ConnOk(s, x);
    assert s.conns[x + 1].id <= s.conns[s.pc.h].id;
  }

  lemma KeyIsFree(s: State)
    requires Exact(s) && s.pc != Ready
    ensures s.nextId !in s.entries
  {
    forall key | key in s.entries ensures key < s.nextId {
      assert EntryOk(s, key);
      KeysBelow(s, s.entries[key]);
    }
  }

  lemma InsertExact(s: State, idle: bool)
    requires Exact(s) && Enabled(s, Insert)
    ensures Exact(Step(s, Insert, idle))
  {
    var t, h := Step(s, Insert, idle), s.pc.h;
    KeyIsFree(s);
    assert ConnOk(s, h);
    forall x: Handle ensures ConnOk(t, x) {
      assert ConnOk(s, x);
    }
    forall key: nat ensures EntryOk(t, key) {
      assert EntryOk(s, key);
    }
    RemovalsFrame(s, t);
  }

  lemma RunAfterExact(s: State, idle: bool)
    requires Exact(s) && s.made < UINT32 / 2 && Enabled(s, RunAfter)
    ensures Exact(Step(s, RunAfter, idle))
  {
    var t := Step(s, RunAfter, idle);
    forall x: Handle ensures ConnOk(t, x) {
      assert ConnOk(s, x);
    }
    forall key: nat ensures EntryOk(t, key) {
      assert EntryOk(s, key);
    }
    RemovalsFrame(s, t);
  }

  lemma TaskExact(s: State, task: Task)
    requires Exact(s) && s.made < UINT32 / 2 && task.h < |s.conns|
    requires task.Release? && s.conns[task.h].loop == BASE ==> s.pc == Ready
    ensures Exact(RunOne(s, task))
  {
    if task.Release? {
      ReleaseExact(s, task.h);
    } else {
      RemovalsFrame(s, RunOne(s, task));
      ExactFrame(s, RunOne(s, task));
    }
  }

  /** The base thread moves on inside NewConnection, and asks something of the connection's loop. */
  lemma RunInLoopExact(s: State, task: Task, pc: Pc)
    requires Exact(s) && s.made < UINT32 / 2 && task.h < |s.conns| && !task.Release?
    requires s.pc != Ready && pc != Ready && pc.h == s.pc.h && (pc.Calling? ==> s.conns[pc.h].loop == BASE)
    ensures Exact(RunInLoop(s, task).(pc := pc))
  {
    var t := s.(pc := pc);
    RemovalsFrame(s, t);
    ExactFrame(s, t);
    if s.conns[task.h].loop == BASE {
      TaskExact(t, task);
    } else {
      var u := Post(t, s.conns[task.h].loop, task);
      RemovalsFrame(t, u);
      ExactFrame(t, u);
    }
    PcApart(s, task, pc);
  }

  lemma PcApart(s: State, task: Task, pc: Pc)
    requires task.h < |s.conns| && !task.Release?
    ensures RunInLoop(s.(pc := pc), task) == RunInLoop(s, task).(pc := pc)
  {
    var loop := s.conns[task.h].loop;
    if loop == BASE {
      EstablishApart(s, task.h, pc);
    } else {
      assert Post(s.(pc := pc), loop, task) == Post(s, loop, task).(pc := pc);
    }
  }

  lemma EstablishApart(s: State, h: Handle, pc: Pc)
    requires h < |s.conns|
    ensures EstablishNow(s.(pc := pc), h) == EstablishNow(s, h).(pc := pc)
  {
  }

  /** Every task waits in the loop of its connection. */
  ghost predicate Placed(s: State) {
    forall loop, k: nat :: TaskPlaced(s, loop, k)
  }

  ghost predicate TaskPlaced(s: State, loop: LoopId, k: nat) {
    k < |QueueOf(s, loop)| ==>
      var h := QueueOf(s, loop)[k].h; h < |s.conns| && s.conns[h].loop == loop
  }

  lemma PostPlaced(s: State, task: Task)
    requires Placed(s) && task.h < |s.conns|
    ensures Placed(Post(s, s.conns[task.h].loop, task))
  {
    var t := Post(s, s.conns[task.h].loop, task);
    forall loop, k: nat ensures TaskPlaced(t, loop, k) {
      assert TaskPlaced(s, loop, k);
    }
  }

  lemma PlacedFrame(s: State, t: State)
    requires Placed(s) && t.queues == s.queues && |s.conns| <= |t.conns|
    requires forall h :: 0 <= h < |s.conns| ==> t.conns[h].loop == s.conns[h].loop
    ensures Placed(t)
  {
    forall loop, k: nat ensures TaskPlaced(t, loop, k) {
      assert TaskPlaced(s, loop, k);
    }
  }

  lemma TailPlaced(s: State, loop: LoopId)
    requires Placed(s) && QueueOf(s, loop) != []
    ensures Placed(s.(queues := s.queues[loop := QueueOf(s, loop)[1..]]))
  {
    var t := s.(queues := s.queues[loop := QueueOf(s, loop)[1..]]);
    forall l, k: nat ensures TaskPlaced(t, l, k) {
      assert TaskPlaced(s, l, k) && TaskPlaced(s, l, k + 1);
    }
  }

  lemma RunInLoopPlaced(s: State, task: Task)
    requires Placed(s) && task.h < |s.conns|
    ensures Placed(RunInLoop(s, task))
  {
    if s.conns[task.h].loop == BASE {
      PlacedFrame(s, RunOne(s, task));
    } else {
      PostPlaced(s, task);
    }
  }

  lemma StepPlaced(s: State, a: Action, idle: bool)
    requires Placed(s) && Enabled(s, a)
    ensures Placed(Step(s, a, idle))
  {
    match a
    case Enable =>
      RunInLoopPlaced(s, EnableIdle(s.pc.h));
      PlacedFrame(RunInLoop(s, EnableIdle(s.pc.h)), Step(s, a, idle));
    case PostEstablished =>
      RunInLoopPlaced(s, Establish(s.pc.h));
      PlacedFrame(RunInLoop(s, Establish(s.pc.h)), Step(s, a, idle));
    case RunTask(loop) =>
      TailPlaced(s, loop);
      PlacedFrame(s.(queues := s.queues[loop := QueueOf(s, loop)[1..]]), Step(s, a, idle));
    case Fire(h) =>
      PlacedFrame(s, s.(armed := s.armed - {h}));
      PostPlaced(s.(armed := s.armed - {h}), Release(h));
    case AskRelease(h) => PostPlaced(s, Release(h));
    case _ => PlacedFrame(s, Step(s, a, idle));
  }

  lemma StepExact(s: State, a: Action, idle: bool)
    requires Exact(s) && s.made < UINT32 / 2 && Placed(s) && Enabled(s, a)
    ensures Exact(Step(s, a, idle))
  {
    match a
    case RunAfter => RunAfterExact(s, idle);
    case NewConnection(loop) => NewExact(s, loop, idle);
    case Enable => RunInLoopExact(s, EnableIdle(s.pc.h), Posting(s.pc.h));
    case PostEstablished => RunInLoopExact(s, Establish(s.pc.h), Step(s, a, idle).pc);
    case Return =>
      RemovalsFrame(s, Step(s, a, idle));
      ExactFrame(s, Step(s, a, idle));
    case Insert => InsertExact(s, idle);
    case RunRemoval => RemovalExact(s, idle);
    case RunTask(loop) =>
      var queue := QueueOf(s, loop);
      var t := s.(queues := s.queues[loop := queue[1..]]);
      assert TaskPlaced(s, loop, 0);
      RemovalsFrame(s, t);
      ExactFrame(s, t);
      TaskExact(t, queue[0]);
    case Fire(h) =>
      RemovalsFrame(s, Step(s, a, idle));
      ExactFrame(s, Step(s, a, idle));
    case AskRelease(h) =>
      RemovalsFrame(s, Step(s, a, idle));
      ExactFrame(s, Step(s, a, idle));
  }

  lemma {:induction false} AlwaysExact(idle: bool, schedule: seq<Action>)
    ensures Placed(Exec(idle, schedule))
    ensures Exec(idle, schedule).made < UINT32 / 2 ==> Exact(Exec(idle, schedule))
  {
    if schedule != [] {
      var s, a := Exec(idle, schedule[..|schedule| - 1]), schedule[|schedule| - 1];
      AlwaysExact(idle, schedule[..|schedule| - 1]);
      if Enabled(s, a) {
        StepPlaced(s, a, idle);
        if Step(s, a, idle).made < UINT32 / 2 {
          MadeGrows(s, a, idle);
          StepExact(s, a, idle);
        }
      }
    }
  }

  lemma MadeGrows(s: State, a: Action, idle: bool)
    requires Enabled(s, a)
    ensures s.made <= Step(s, a, idle).made
  {
  }

  /** The map holds this connection under its own id. */
  predicate Filed(s: State, h: Handle) {
    h < |s.conns| && s.conns[h].id in s.entries && s.entries[s.conns[h].id] == h
  }

  /** The map holds, under its own id, exactly every connection that was inserted and not removed. */
  ghost predicate Accurate(s: State) {
    && (forall key :: key in s.entries ==> Filed(s, s.entries[key]) && s.conns[s.entries[key]].id == key)
    && (forall h: Handle :: Filed(s, h) <==> h in s.filed && h !in s.erased)
  }

  lemma AccurateWithoutNesting(s: State)
    requires Exact(s) && forall h :: h in s.filed ==> h !in s.nested
    ensures Accurate(s)
  {
    forall key | key in s.entries ensures Filed(s, s.entries[key]) && s.conns[s.entries[key]].id == key {
      assert EntryOk(s, key) && ConnOk(s, s.entries[key]);
    }
    forall h: Handle ensures Filed(s, h) <==> h in s.filed && h !in s.erased {
      assert ConnOk(s, h);
      if h < |s.conns| {
        assert EntryOk(s, s.conns[h].id);
      }
    }
  }

  /** Under every interleaving, and as long as fewer than 2^31 ids were given out: the map is accurate
      if and only if no inserted connection had a connected callback that took an id inside
      NewConnection, which only connections of the base loop can have.  An erase always follows its
      insert. */
  lemma MapIsExact(idle: bool, schedule: seq<Action>)
    requires Exec(idle, schedule).made < UINT32 / 2
    ensures var s := Exec(idle, schedule);
      && (Accurate(s) <==> forall h :: h in s.filed ==> h !in s.nested)
      && (forall h :: h in s.nested ==> h < |s.conns| && s.conns[h].loop == BASE)
      && (forall h :: h in s.erased ==> h in s.filed)
  {
    var s := Exec(idle, schedule);
    AlwaysExact(idle, schedule);
    forall h: Handle
      ensures h in s.nested ==> h < |s.conns| && s.conns[h].loop == BASE
      ensures h in s.erased ==> h in s.filed
    {
      assert ConnOk(s, h);
    }
    if h: Handle :| h in s.filed && h in s.nested {
      assert ConnOk(s, h);
      assert s.entries[s.filed[h]] == h && s.conns[h].id != s.filed[h];
    } else {
      AccurateWithoutNesting(s);
    }
  }

  // ---- no live connection is dropped ----

  ghost predicate StatusOk(s: State, h: Handle) {
    h < |s.conns| ==>
      (s.conns[h].status == Disconnected <==> h in s.erased || h in s.removals)
  }

  lemma ReleaseStatus(s: State, x: Handle, h: Handle)
    requires x < |s.conns| && StatusOk(s, h)
    ensures StatusOk(ReleaseNow(s, x), h)
  {
  }

  lemma RunOneStatus(s: State, task: Task, h: Handle)
    requires task.h < |s.conns| && StatusOk(s, h) && !RunOne(s, task).failed
    ensures StatusOk(RunOne(s, task), h)
  {
    if task.Release? {
      ReleaseStatus(s, task.h, h);
    }
  }

  lemma RemovalStatus(s: State, h: Handle, idle: bool)
    requires StatusOk(s, h) && Enabled(s, RunRemoval)
    ensures StatusOk(Step(s, RunRemoval, idle), h)
  {
    assert s.removals == [s.removals[0]] + s.removals[1..];
  }

  /** A new connection is not yet removed, nor about to be. */
  lemma NewStatus(s: State, loop: LoopId, h: Handle, idle: bool)
    requires Exact(s) && s.pc == Ready && StatusOk(s, h)
    ensures StatusOk(Step(s, NewConnection(loop), idle), h)
  {
    assert ConnOk(s, h);
    forall k | 0 <= k < |s.removals| ensures s.removals[k] < |s.conns| {
      assert RemovalOk(s, k);
    }
  }

  lemma StepStatus(s: State, a: Action, idle: bool, h: Handle)
    requires Exact(s) && Enabled(s, a) && StatusOk(s, h) && !Step(s, a, idle).failed
    ensures StatusOk(Step(s, a, idle), h)
  {
    match a
    case NewConnection(loop) => NewStatus(s, loop, h, idle);
    case Enable => RunOneStatus(s, EnableIdle(s.pc.h), h);
    case PostEstablished =>
      if s.conns[s.pc.h].loop == BASE {
        RunOneStatus(s, Establish(s.pc.h), h);
      }
    case RunRemoval => RemovalStatus(s, h, idle);
    case RunTask(loop) =>
      var queue := QueueOf(s, loop);
      RunOneStatus(s.(queues := s.queues[loop := queue[1..]]), queue[0], h);
    case _ =>
  }

  lemma FailedForGood(s: State, a: Action, idle: bool)
    requires Enabled(s, a)
    ensures s.failed ==> Step(s, a, idle).failed
  {
  }

  lemma {:induction false} AlwaysStatus(idle: bool, schedule: seq<Action>, h: Handle)
    requires Exec(idle, schedule).made < UINT32 / 2 && !Exec(idle, schedule).failed
    ensures StatusOk(Exec(idle, schedule), h)
  {
    if schedule != [] {
      var s, a := Exec(idle, schedule[..|schedule| - 1]), schedule[|schedule| - 1];
      if Enabled(s, a) {
        MadeGrows(s, a, idle);
        FailedForGood(s, a, idle);
        AlwaysExact(idle, schedule[..|schedule| - 1]);
        AlwaysStatus(idle, schedule[..|schedule| - 1], h);
        StepStatus(s, a, idle, h);
      } else {
        AlwaysStatus(idle, schedule[..|schedule| - 1], h);
      }
    }
  }

  /** While no assertion has failed, a connection that is not released is in the map, under the key it
      was filed with, unless NewConnection is still at work on it; and exactly the released ones are
      removed or about to be. */
  lemma LiveAreKept(idle: bool, schedule: seq<Action>, h: Handle)
    requires Exec(idle, schedule).made < UINT32 / 2 && !Exec(idle, schedule).failed
    requires h < |Exec(idle, schedule).conns|
    ensures var s := Exec(idle, schedule);
      && (s.conns[h].status != Disconnected && !Building(s, h) ==>
            h in s.filed && s.filed[h] in s.entries && s.entries[s.filed[h]] == h)
      && (s.conns[h].status == Disconnected <==> h in s.erased || h in s.removals)
  {
    AlwaysExact(idle, schedule);
    AlwaysStatus(idle, schedule, h);
    assert ConnOk(Exec(idle, schedule), h);
  }

  /** The state after so many ids were taken between two events of the base loop. */
  function Spent(s: State, n: nat): State {
    s.(nextId := s.nextId + n, made := s.made + n)
  }

  lemma SpendOne(s: State, n: nat)
    requires s.pc == Ready && s.nextId + n + 1 < UINT64
    ensures Enabled(Spent(s, n), RunAfter) && Step(Spent(s, n), RunAfter, false) == Spent(s, n + 1)
    ensures Step(Spent(s, n), RunAfter, true) == Spent(s, n + 1)
  {
  }

  /** Ids are also spent on timers of the user, so any number of them is used up in time: from every
      state the server can be in between two events, as long as the counter does not wrap around. */
  lemma {:induction false} IdsAreSpent(idle: bool, s: State, n: nat)
    requires Reachable(idle, s) && s.pc == Ready && s.nextId + n < UINT64
    ensures Reachable(idle, Spent(s, n))
  {
    if n == 0 {
      assert Spent(s, 0) == s;
    } else {
      IdsAreSpent(idle, s, n - 1);
      SpendOne(s, n - 1);
      StepReachable(idle, Spent(s, n - 1), RunAfter);
    }
  }

  /** The states around a connection of loop 1 that is the only one and has the given id. */
  function Lone(id: nat, status: Status, pc: Pc, queue: seq<Task>, removals: seq<Handle>, gone: set<Handle>): State {
    State(id, id, if pc == Ready then map[id := 0] else map[], [Conn(id, 1, status)], pc, map[1 := queue],
          {}, removals, if pc == Ready then map[0 := id] else map[], gone, {}, false)
  }

  lemma LoneBegins(id: nat)
    requires 0 < id < UINT64
    ensures var s := Spent(Init(), id - 1);
      && Enabled(s, NewConnection(1))
      && var t := Step(s, NewConnection(1), false);
         Enabled(t, PostEstablished)
         && Step(t, PostEstablished, false) == Lone(id, Connecting, Inserting(0), [Establish(0)], [], {})
  {
    var t := Step(Spent(Init(), id - 1), NewConnection(1), false);
    assert t.conns == [Conn(id, 1, Connecting)];
    assert QueueOf(t, 1) + [Establish(0)] == [Establish(0)];
  }

  lemma LoneInserted(id: nat)
    ensures var s := Lone(id, Connecting, Inserting(0), [Establish(0)], [], {});
      Enabled(s, Insert) && Step(s, Insert, false) == Lone(id, Connecting, Ready, [Establish(0)], [], {})
    ensures var s := Lone(id, Connecting, Ready, [Establish(0)], [], {});
      Enabled(s, RunTask(1)) && Step(s, RunTask(1), false) == Lone(id, Connected, Ready, [], [], {})
  {
    assert [Establish(0)][1..] == [];
  }

  lemma LoneAsked(id: nat)
    ensures var s := Lone(id, Connected, Ready, [], [], {});
      Enabled(s, AskRelease(0)) && Step(s, AskRelease(0), false) == Lone(id, Connected, Ready, [Release(0)], [], {})
  {
    var s := Lone(id, Connected, Ready, [], [], {});
    assert QueueOf(s, 1) + [Release(0)] == [Release(0)];
  }

  lemma LoneReleased(id: nat)
    ensures var s := Lone(id, Connected, Ready, [Release(0)], [], {});
      Enabled(s, RunTask(1)) && Step(s, RunTask(1), false) == Lone(id, Disconnected, Ready, [], [0], {})
  {
    assert [Release(0)][1..] == [];
  }

  /** The bound of MapIsExact is the right one: the connection that is given the id 2^31 is
      released and its removal runs, and the map keeps it, without any nested call. */
  lemma FirstLeak() returns (s: State)
    ensures Reachable(false, s) && s.made == UINT32 / 2 && s.nested == {}
    ensures 0 in s.erased && |s.conns| == 1 && s.conns[0].status == Disconnected && Filed(s, 0)
  {
    var id := UINT32 / 2;
    InitReachable(false);
    IdsAreSpent(false, Init(), id - 1);
    LoneBegins(id);
    var t := Spent(Init(), id - 1);
    StepReachable(false, t, NewConnection(1));
    StepReachable(false, Step(t, NewConnection(1), false), PostEstablished);
    LoneInserted(id);
    LoneAsked(id);
    LoneReleased(id);
    StepReachable(false, Lone(id, Connecting, Inserting(0), [Establish(0)], [], {}), Insert);
    StepReachable(false, Lone(id, Connecting, Ready, [Establish(0)], [], {}), RunTask(1));
    StepReachable(false, Lone(id, Connected, Ready, [], [], {}), AskRelease(0));
    StepReachable(false, Lone(id, Connected, Ready, [Release(0)], [], {}), RunTask(1));
    StepReachable(false, Lone(id, Disconnected, Ready, [], [0], {}), RunRemoval);
    s := Step(Lone(id, Disconnected, Ready, [], [0], {}), RunRemoval, false);
  }

  /** The only connection, of the base loop, before its callback took an id and after it did. */
  function Calls(status: Status, pc: Pc, made: nat, taken: set<Handle>): State {
    State(made, made, map[], [Conn(1, BASE, status)], pc, map[], {}, [], map[], {}, taken, false)
  }

  /** The same connection, filed under the id of the timer. */
  function Misfiled(status: Status, queues: map<LoopId, seq<Task>>, gone: set<Handle>): State {
    State(2, 2, map[2 := 0], [Conn(1, BASE, status)], Ready, queues, {}, [], map[0 := 2], gone, {0}, false)
  }

  lemma CallBegins()
    ensures Enabled(Init(), NewConnection(BASE))
    ensures Step(Init(), NewConnection(BASE), false) == Calls(Connecting, Posting(0), 1, {})
    ensures Enabled(Calls(Connecting, Posting(0), 1, {}), PostEstablished)
    ensures Step(Calls(Connecting, Posting(0), 1, {}), PostEstablished, false) == Calls(Connected, Calling(0), 1, {})
  {
    assert Step(Init(), NewConnection(BASE), false).conns == [Conn(1, BASE, Connecting)];
    assert [Conn(1, BASE, Connecting)][0 := Conn(1, BASE, Connected)] == [Conn(1, BASE, Connected)];
  }

  lemma CallTakesId()
    ensures var s := Calls(Connected, Calling(0), 1, {});
      Enabled(s, RunAfter) && Step(s, RunAfter, false) == Calls(Connected, Calling(0), 2, {0})
    ensures var s := Calls(Connected, Calling(0), 2, {0});
      Enabled(s, Return) && Step(s, Return, false) == Calls(Connected, Inserting(0), 2, {0})
    ensures var s := Calls(Connected, Inserting(0), 2, {0});
      Enabled(s, Insert) && Step(s, Insert, false) == Misfiled(Connected, map[], {})
  {
  }

  lemma MisfiledAsked()
    ensures var s := Misfiled(Connected, map[], {});
      Enabled(s, AskRelease(0)) && Step(s, AskRelease(0), false) == Misfiled(Connected, map[BASE := [Release(0)]], {})
  {
    assert QueueOf(Misfiled(Connected, map[], {}), BASE) + [Release(0)] == [Release(0)];
  }

  lemma MisfiledReleased()
    ensures var s := Misfiled(Connected, map[BASE := [Release(0)]], {});
      Enabled(s, RunTask(BASE)) && Step(s, RunTask(BASE), false) == Misfiled(Disconnected, map[BASE := []], {0})
  {
    var s := Misfiled(Connected, map[BASE := [Release(0)]], {});
    assert s.queues[BASE][1..] == [];
    assert [Conn(1, BASE, Connected)][0 := Conn(1, BASE, Disconnected)] == [Conn(1, BASE, Disconnected)];
    assert Erased(s.entries, 1) == s.entries;
  }

  /** Without sub-loops two ids are enough: the callback of the first connection calls RunAfter, the
      connection is filed under the timer's id, and its removal misses. */
  lemma NestedLeak() returns (s: State)
    ensures Reachable(false, s) && s.made == 2 && s.conns == [Conn(1, BASE, Disconnected)]
    ensures s.erased == {0} && s.entries == map[2 := 0]
  {
    InitReachable(false);
    CallBegins();
    StepReachable(false, Init(), NewConnection(BASE));
    StepReachable(false, Calls(Connecting, Posting(0), 1, {}), PostEstablished);
    CallTakesId();
    StepReachable(false, Calls(Connected, Calling(0), 1, {}), RunAfter);
    StepReachable(false, Calls(Connected, Calling(0), 2, {0}), Return);
    StepReachable(false, Calls(Connected, Inserting(0), 2, {0}), Insert);
    MisfiledAsked();
    StepReachable(false, Misfiled(Connected, map[], {}), AskRelease(0));
    MisfiledReleased();
    StepReachable(false, Misfiled(Connected, map[BASE := [Release(0)]], {}), RunTask(BASE));
    s := Misfiled(Disconnected, map[BASE := []], {0});
  }

  // ---- the object ----

  lemma NextOfSum(id: nat, i: nat)
    ensures Next((id + i) % UINT64) == (id + i + 1) % UINT64
  {
    var n := id + i;
    assert n == n / UINT64 * UINT64 + n % UINT64;
    if n % UINT64 + 1 == UINT64 {
      assert n + 1 == (n / UINT64 + 1) * UINT64;
    } else {
      assert n + 1 == n / UINT64 * UINT64 + (n % UINT64 + 1);
    }
  }

  lemma WrapsToItself(id: nat, calls: nat)
    requires id < UINT64
    ensures (id + calls) % UINT64 == id <==> calls % UINT64 == 0
  {
    var q, r := calls / UINT64, calls % UINT64;
    assert id + calls == q * UINT64 + (id + r);
    if id + r < UINT64 {
      assert (id + calls) % UINT64 == id + r;
    } else {
      assert id + calls == (q + 1) * UINT64 + (id + r - UINT64);
      assert (id + calls) % UINT64 == id + r - UINT64;
    }
  }

  /** The server's own bookkeeping, as the base thread changes it. */
  class TcpServer {
    var nextId: nat
    var connections: map<nat, Handle>

    ghost predicate Valid()
      reads this
    {
      nextId < UINT64
    }

    constructor ()
      ensures Valid() && nextId == 0 && connections == map[]
    {
      nextId, connections := 0, map[];
    }

    /** The entry made for the new connection, when its connected callback runs inside and calls
        RunAfter so many times: the insert reads _next_id again, so the key is the connection's id
        exactly if the callback took none (or wrapped the counter around). */
    method NewConnection(h: Handle, calls: nat) returns (id: nat)
      requires Valid()
      modifies this
      ensures Valid() && id == Next(old(nextId)) && nextId == (id + calls) % UINT64
      ensures connections == Inserted(old(connections), nextId, h)
      ensures nextId == id <==> calls % UINT64 == 0
    {
      nextId := if nextId + 1 == UINT64 then 0 else nextId + 1;
      id := nextId;
      var i := 0;
      while i < calls
        invariant 0 <= i <= calls && Valid() && nextId == (id + i) % UINT64
        invariant connections == old(connections)
      {
        var timer := RunAfterInLoop();
        NextOfSum(id, i);
        i := i + 1;
      }
      WrapsToItself(id, calls);
      if nextId !in connections {
        connections := connections[nextId := h];
      }
    }

    /** The id of a timer, which no connection gets. */
    method RunAfterInLoop() returns (id: nat)
      requires Valid()
      modifies this`nextId
      ensures Valid() && id == nextId == Next(old(nextId))
    {
      nextId := if nextId + 1 == UINT64 then 0 else nextId + 1;
      id := nextId;
    }

    /** `int id` keeps 32 bits, and erase converts it back to an unsigned 64-bit key. */
    method RemoveConnectionInLoop(id: nat)
      requires Valid() && id < UINT64
      modifies this`connections
      ensures Valid() && connections == Erased(old(connections), id)
      ensures id in old(connections) ==>
        (connections == old(connections) - {id} <==> id < UINT32 / 2 || UINT64 - UINT32 / 2 <= id)
    {
      if id in connections {
        EraseIsOwn(connections, id);
      }
      var signed: int := id % UINT32;
      if UINT32 / 2 <= signed {
        signed := signed - UINT32;
      }
      var key: nat := if signed < 0 then signed + UINT64 else signed;
      connections := connections - {key};
    }
  }
}
