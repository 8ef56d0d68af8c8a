/** src/EventLoop.cc: the loop thread, its task queue and its eventfd, against any number of other
    threads that post tasks or ask it to quit.  Every step is one atomic action of one thread. */
module EventLoops {
  import opened Wrappers

  type Tid = nat
  type Task = nat

  /** The thread that runs Start(); IsInLoop() is true on it alone. */
  const LOOP: Tid := 0

  /** A thread inside TasksInLoop or Quit.  MustWrite: it is about to call WeakupEventfd. */
  datatype PostPc = Idle | WantLock(task: Task) | Locked(task: Task) | Pushed | MustWrite

  datatype Active = Wakeup | Other

  /** The loop thread: `last` marks the final RunAllTask behind the loop. */
  datatype LoopPc =
    | CheckQuit
    | AtPoll
    | Dispatch(actives: seq<Active>)
    | WantSwap(last: bool)
    | SwapLocked(last: bool)
    | Running(batch: seq<Task>, last: bool)
    | Stopped

  datatype State = State(pc: LoopPc, threads: map<Tid, PostPc>, lock: Option<Tid>, queue: seq<Task>,
                         quit: bool, counter: nat, posted: seq<Task>, executed: seq<Task>)

  function Init(): State {
    State(CheckQuit, map[], None, [], false, 0, [], [])
  }

  function PcOf(s: State, t: Tid): PostPc {
    if t in s.threads then s.threads[t] else Idle
  }

  function At(s: State, t: Tid, pc: PostPc): State {
    s.(threads := s.threads[t := pc])
  }

  datatype Action =
    | StartPost(t: Tid, task: Task)
    | Lock(t: Tid)
    | PushBack(t: Tid)
    | Unlock(t: Tid)
    | Write(t: Tid)
    | Quit(t: Tid)
    | TestQuit
    | Poll(ready: seq<Active>)
    | Handle
    | EndDispatch
    | LockSwap
    | Swap
    | Run
    | EndBatch

  /** The loop thread calls TasksInLoop and Quit only from handlers and tasks. */
  predicate MayCall(s: State, t: Tid) {
    PcOf(s, t) == Idle && (t == LOOP ==> s.pc.Dispatch? || s.pc.Running?)
  }

  /** The loop thread is not inside TasksInLoop. */
  predicate LoopFree(s: State) {
    PcOf(s, LOOP) == Idle
  }

  /** epoll_wait may return anything, but the eventfd only when its counter is positive; it may
      also return nothing, when it is interrupted. */
  predicate Enabled(s: State, a: Action) {
    match a
    case StartPost(t, _) => MayCall(s, t)
    case Lock(t) => PcOf(s, t).WantLock? && s.lock == None
    case PushBack(t) => PcOf(s, t).Locked?
    case Unlock(t) => PcOf(s, t) == Pushed
    case Write(t) => PcOf(s, t) == MustWrite
    case Quit(t) => MayCall(s, t)
    case TestQuit => LoopFree(s) && s.pc == CheckQuit
    case Poll(ready) => LoopFree(s) && s.pc == AtPoll && (Wakeup in ready ==> s.counter > 0)
    case Handle => LoopFree(s) && s.pc.Dispatch? && s.pc.actives != []
    case EndDispatch => LoopFree(s) && s.pc == Dispatch([])
    case LockSwap => LoopFree(s) && s.pc.WantSwap? && s.lock == None
    case Swap => LoopFree(s) && s.pc.SwapLocked?
    case Run => LoopFree(s) && s.pc.Running? && s.pc.batch != []
    case EndBatch => LoopFree(s) && s.pc.Running? && s.pc.batch == []
  }

  function Next(s: State, a: Action): State
    requires Enabled(s, a)
  {
    match a
    case StartPost(t, task) => At(s, t, WantLock(task))
    case Lock(t) => At(s, t, Locked(PcOf(s, t).task)).(lock := Some(t))
    case PushBack(t) =>
      var task := PcOf(s, t).task;
      At(s, t, Pushed).(queue := s.queue + [task], posted := s.posted + [task])
    case Unlock(t) => At(s, t, MustWrite).(lock := None)
    case Write(t) => At(s, t, Idle).(counter := s.counter + 1)
    case Quit(t) => (if t == LOOP then s else At(s, t, MustWrite)).(quit := true)
    case TestQuit => s.(pc := if s.quit then WantSwap(true) else AtPoll)
    case Poll(ready) => s.(pc := Dispatch(ready))
    case Handle =>
      s.(counter := if s.pc.actives[0] == Wakeup then 0 else s.counter, pc := Dispatch(s.pc.actives[1..]))
    case EndDispatch => s.(pc := WantSwap(false))
    case LockSwap => s.(pc := SwapLocked(s.pc.last), lock := Some(LOOP))
    case Swap => s.(pc := Running(s.queue, s.pc.last), queue := [], lock := None)
    case Run => s.(pc := Running(s.pc.batch[1..], s.pc.last), executed := s.executed + [s.pc.batch[0]])
    case EndBatch => s.(pc := if s.pc.last then Stopped else CheckQuit)
  }

  /** The state after a schedule; actions that are not possible are skipped. */
  function Exec(schedule: seq<Action>): State {
    if schedule == [] then Init()
    else
      var s, a := Exec(schedule[..|schedule| - 1]), schedule[|schedule| - 1];
      if Enabled(s, a) then Next(s, a) else s
  }

  // ---- no wakeup is lost ----

  /** A thread that has pushed a task or set the flag and has not written yet. */
  ghost predicate WritePending(s: State) {
    exists t :: t in s.threads && (s.threads[t] == Pushed || s.threads[t] == MustWrite)
  }

  ghost predicate Signalled(s: State) {
    s.counter > 0 || WritePending(s)
  }

  /** From the swap of the queue to the return of the next epoll_wait. */
  predicate Asleep(pc: LoopPc) {
    pc.Running? || pc == CheckQuit || pc == AtPoll
  }

  ghost predicate Awake(s: State) {
    && (Asleep(s.pc) && s.queue != [] ==> Signalled(s))
    && (s.pc == AtPoll && s.quit ==> Signalled(s))
  }

  lemma AtSelf(s: State, t: Tid, pc: PostPc)
    ensures pc == Pushed || pc == MustWrite ==> WritePending(At(s, t, pc))
  {
    assert At(s, t, pc).threads[t] == pc;
  }

  /** A thread that is not about to write moves on: the others still are. */
  lemma AtOther(s: State, t: Tid, pc: PostPc)
    requires PcOf(s, t) != Pushed && PcOf(s, t) != MustWrite
    ensures WritePending(s) ==> WritePending(At(s, t, pc))
  {
    if WritePending(s) {
      var u :| u in s.threads && (s.threads[u] == Pushed || s.threads[u] == MustWrite);
      assert At(s, t, pc).threads[u] == s.threads[u];
    }
  }

  lemma NextAwake(s: State, a: Action)
    requires Awake(s) && Enabled(s, a)
    ensures Awake(Next(s, a))
  {
    match a
    case StartPost(t, task) => AtOther(s, t, WantLock(task));
    case Lock(t) => AtOther(s, t, Locked(PcOf(s, t).task));
    case PushBack(t) => AtSelf(s, t, Pushed);
    case Unlock(t) => AtSelf(s, t, MustWrite);
    case Write(t) =>
    case Quit(t) =>
      if t != LOOP {
        AtSelf(s, t, MustWrite);
      }
    case _ =>
  }

  lemma {:induction false} AlwaysAwake(schedule: seq<Action>)
    ensures Awake(Exec(schedule))
  {
    if schedule != [] {
      AlwaysAwake(schedule[..|schedule| - 1]);
      var s, a := Exec(schedule[..|schedule| - 1]), schedule[|schedule| - 1];
      if Enabled(s, a) {
        NextAwake(s, a);
      }
    }
  }

  /** In every interleaving: when the loop is in epoll_wait while a task is queued or the flag is
      set, and no thread is about to write, the eventfd is readable, so epoll_wait cannot block. */
  lemma NoLostWakeup(schedule: seq<Action>)
    ensures var s := Exec(schedule);
      s.pc == AtPoll && (s.queue != [] || s.quit) && !WritePending(s) ==> s.counter > 0 && Enabled(s, Poll([Wakeup]))
  {
    AlwaysAwake(schedule);
    LoopIsIdle(schedule);
  }

  ghost predicate LoopCallsProperly(s: State) {
    PcOf(s, LOOP) != Idle ==> s.pc.Dispatch? || s.pc.Running?
  }

  lemma NextCallsProperly(s: State, a: Action)
    requires LoopCallsProperly(s) && Enabled(s, a)
    ensures LoopCallsProperly(Next(s, a))
  {
  }

  lemma {:induction false} LoopIsIdle(schedule: seq<Action>)
    ensures LoopCallsProperly(Exec(schedule))
  {
    if schedule != [] {
      LoopIsIdle(schedule[..|schedule| - 1]);
      var s, a := Exec(schedule[..|schedule| - 1]), schedule[|schedule| - 1];
      if Enabled(s, a) {
        NextCallsProperly(s, a);
      }
    }
  }

  // ---- every posted task once, in lock order ----

  function Unexecuted(s: State): seq<Task> {
    (if s.pc.Running? then s.pc.batch else []) + s.queue
  }

  ghost predicate InOrder(s: State) {
    s.executed + Unexecuted(s) == s.posted
  }

  lemma PushInOrder(s: State, t: Tid)
    requires InOrder(s) && Enabled(s, PushBack(t))
    ensures InOrder(Next(s, PushBack(t)))
  {
    assert Unexecuted(Next(s, PushBack(t))) == Unexecuted(s) + [PcOf(s, t).task];
  }

  lemma RunInOrder(s: State)
    requires InOrder(s) && Enabled(s, Run)
    ensures InOrder(Next(s, Run))
  {
    assert Unexecuted(s) == [s.pc.batch[0]] + Unexecuted(Next(s, Run));
  }

  lemma NextInOrder(s: State, a: Action)
    requires InOrder(s) && Enabled(s, a)
    ensures InOrder(Next(s, a))
  {
    if a.PushBack? {
      PushInOrder(s, a.t);
    } else if a.Run? {
      RunInOrder(s);
    } else {
      assert Unexecuted(Next(s, a)) == Unexecuted(s);
    }
  }

  /** The tasks executed so far, the rest of the batch and the queue are the posted tasks in the
      order in which they were pushed under the lock: each runs at most once and none overtakes. */
  lemma {:induction false} FirstPostedFirstRun(schedule: seq<Action>)
    ensures var s := Exec(schedule);
      s.executed + Unexecuted(s) == s.posted
  {
    if schedule == [] {
      assert InOrder(Init());
    } else {
      FirstPostedFirstRun(schedule[..|schedule| - 1]);
      var s, a := Exec(schedule[..|schedule| - 1]), schedule[|schedule| - 1];
      if Enabled(s, a) {
        NextInOrder(s, a);
      }
      assert InOrder(Exec(schedule));
    }
  }

  // ---- the lock ----

  /** The lock is held exactly by the thread that is inside a critical section. */
  ghost predicate Exclusive(s: State) {
    && (forall t :: t in s.threads && (s.threads[t].Locked? || s.threads[t] == Pushed) ==> s.lock == Some(t))
    && (s.pc.SwapLocked? ==> s.lock == Some(LOOP) && PcOf(s, LOOP) == Idle)
    && (s.lock.Some? ==>
          (s.lock.value == LOOP && s.pc.SwapLocked?)
          || PcOf(s, s.lock.value).Locked? || PcOf(s, s.lock.value) == Pushed)
  }

  lemma NextExclusive(s: State, a: Action)
    requires Exclusive(s) && LoopCallsProperly(s) && Enabled(s, a)
    ensures Exclusive(Next(s, a))
  {
  }

  lemma {:induction false} AlwaysExclusive(schedule: seq<Action>)
    ensures Exclusive(Exec(schedule))
  {
    if schedule != [] {
      AlwaysExclusive(schedule[..|schedule| - 1]);
      LoopIsIdle(schedule[..|schedule| - 1]);
      var s, a := Exec(schedule[..|schedule| - 1]), schedule[|schedule| - 1];
      if Enabled(s, a) {
        NextExclusive(s, a);
      }
    }
  }

  /** No task runs while the loop thread holds the queue's lock, and only one thread at a time is
      between lock and unlock. */
  lemma TasksRunUnlocked(schedule: seq<Action>, t: Tid, u: Tid)
    ensures var s := Exec(schedule);
      && (Enabled(s, Run) ==> s.lock != Some(LOOP))
      && (Enabled(s, PushBack(t)) && Enabled(s, PushBack(u)) ==> t == u)
      && (Enabled(s, PushBack(t)) ==> !Enabled(s, Swap))
  {
    AlwaysExclusive(schedule);
  }

  // ---- the end of the loop ----

  /** After Start has returned, what was posted but not executed is what was pushed after the swap
      of the final batch; it stays in the queue. */
  lemma LeftBehind(schedule: seq<Action>)
    ensures var s := Exec(schedule);
      s.pc == Stopped ==> s.quit && s.executed + s.queue == s.posted
  {
    FirstPostedFirstRun(schedule);
    QuitBehindLoop(schedule);
    assert [] + Exec(schedule).queue == Exec(schedule).queue;
  }

  ghost predicate QuitWasSet(s: State) {
    (s.pc == Stopped || ((s.pc.WantSwap? || s.pc.SwapLocked? || s.pc.Running?) && s.pc.last)) ==> s.quit
  }

  lemma {:induction false} QuitBehindLoop(schedule: seq<Action>)
    ensures QuitWasSet(Exec(schedule))
  {
    if schedule != [] {
      QuitBehindLoop(schedule[..|schedule| - 1]);
    }
  }

  /** In or behind the final batch. */
  predicate InFinalBatch(s: State) {
    s.pc == Stopped || (s.pc.Running? && s.pc.last)
  }

  lemma NextStaysFinal(s: State, a: Action)
    requires InFinalBatch(s) && Enabled(s, a)
    ensures InFinalBatch(Next(s, a)) && s.queue <= Next(s, a).queue
  {
  }

  /** A task that reaches the queue during the final batch stays there for ever. */
  lemma {:induction false} FinalBatchIsFinal(schedule: seq<Action>, more: seq<Action>)
    requires InFinalBatch(Exec(schedule))
    ensures InFinalBatch(Exec(schedule + more))
    ensures Exec(schedule).queue <= Exec(schedule + more).queue
    decreases |more|
  {
    if more == [] {
      assert schedule + more == schedule;
    } else {
      var n := |more| - 1;
      FinalBatchIsFinal(schedule, more[..n]);
      assert (schedule + more)[..|schedule + more| - 1] == schedule + more[..n];
      if Enabled(Exec(schedule + more[..n]), more[n]) {
        NextStaysFinal(Exec(schedule + more[..n]), more[n]);
      }
    }
  }

  // ---- the loop gets on ----

  lemma Extend(schedule: seq<Action>, a: Action)
    requires Enabled(Exec(schedule), a)
    ensures Exec(schedule + [a]) == Next(Exec(schedule), a)
  {
    assert (schedule + [a])[..|schedule|] == schedule;
  }

  /** Once asked to quit the loop is never not asked. */
  lemma {:induction false} QuitStays(schedule: seq<Action>, more: seq<Action>)
    requires Exec(schedule).quit
    ensures Exec(schedule + more).quit
    decreases |more|
  {
    if more == [] {
      assert schedule + more == schedule;
    } else {
      var n := |more| - 1;
      QuitStays(schedule, more[..n]);
      assert (schedule + more)[..|schedule + more| - 1] == schedule + more[..n];
    }
  }

  lemma QuitIsKept(schedule: seq<Action>, t: Tid, more: seq<Action>)
    requires Enabled(Exec(schedule), Quit(t))
    ensures Exec(schedule + [Quit(t)] + more).quit
  {
    Extend(schedule, Quit(t));
    QuitStays(schedule + [Quit(t)], more);
  }

  /** The actions of the loop thread that no other thread can hold up for ever. */
  predicate Own(a: Action) {
    a.TestQuit? || a.Poll? || a.Handle? || a.EndDispatch? || a.LockSwap? || a.Swap? || a.Run? || a.EndBatch?
  }

  /** A schedule that goes on with actions of the loop thread only. */
  ghost predicate GoesOn(schedule: seq<Action>, all: seq<Action>) {
    schedule <= all && forall k :: |schedule| <= k < |all| ==> Own(all[k])
  }

  /** The batch is run to its end. */
  lemma {:induction false} BatchEnds(schedule: seq<Action>) returns (all: seq<Action>)
    requires Exec(schedule).pc.Running? && LoopFree(Exec(schedule))
    ensures GoesOn(schedule, all)
    ensures var s := Exec(schedule);
      Exec(all) == s.(pc := if s.pc.last then Stopped else CheckQuit, executed := s.executed + s.pc.batch)
    decreases |Exec(schedule).pc.batch|
  {
    var s := Exec(schedule);
    if s.pc.batch == [] {
      Extend(schedule, EndBatch);
      all := schedule + [EndBatch];
      assert s.executed + [] == s.executed;
    } else {
      Extend(schedule, Run);
      all := BatchEnds(schedule + [Run]);
      assert s.executed + s.pc.batch == (s.executed + [s.pc.batch[0]]) + s.pc.batch[1..];
      assert schedule <= schedule + [Run];
    }
  }

  /** From the swap on, everything posted so far gets executed. */
  lemma SwapRunsAll(schedule: seq<Action>) returns (all: seq<Action>)
    requires var s := Exec(schedule); s.pc.WantSwap? && LoopFree(s) && s.lock == None
    ensures GoesOn(schedule, all)
    ensures var s, t := Exec(schedule), Exec(all);
      && t.executed == s.posted == t.posted && t.queue == [] && t.counter == s.counter && t.quit == s.quit
      && t.pc == (if s.pc.last then Stopped else CheckQuit)
  {
    FirstPostedFirstRun(schedule);
    Extend(schedule, LockSwap);
    Extend(schedule + [LockSwap], Swap);
    all := BatchEnds(schedule + [LockSwap] + [Swap]);
    assert schedule <= schedule + [LockSwap] + [Swap];
  }

  /** A readable eventfd gets the loop through a whole turn: the counter is reset, and everything that was
      posted is executed. */
  lemma TurnRunsAll(schedule: seq<Action>) returns (all: seq<Action>)
    requires var s := Exec(schedule); s.pc == AtPoll && LoopFree(s) && s.lock == None && s.counter > 0
    ensures GoesOn(schedule, all)
    ensures var s, t := Exec(schedule), Exec(all);
      t.pc == CheckQuit && t.counter == 0 && t.executed == s.posted == t.posted && t.queue == []
  {
    var ready := schedule + [Poll([Wakeup])];
    Extend(schedule, Poll([Wakeup]));
    Extend(ready, Handle);
    Extend(ready + [Handle], EndDispatch);
    all := SwapRunsAll(ready + [Handle] + [EndDispatch]);
    assert schedule <= ready + [Handle] + [EndDispatch];
  }

  /** A loop that was asked to quit stops at its next test, and first executes everything posted. */
  lemma StopRunsAll(schedule: seq<Action>) returns (all: seq<Action>)
    requires var s := Exec(schedule); s.pc == CheckQuit && s.quit && LoopFree(s) && s.lock == None
    ensures GoesOn(schedule, all)
    ensures var s, t := Exec(schedule), Exec(all);
      t.pc == Stopped && t.executed == s.posted == t.posted && t.queue == []
  {
    Extend(schedule, TestQuit);
    all := SwapRunsAll(schedule + [TestQuit]);
    assert schedule <= schedule + [TestQuit];
  }
}

/** The loop object itself, with everything that its own thread runs given as data. */
module EventLoopThread {

  /** A task or handler, and what it does to the loop in this run: the tasks it posts, and whether
      it calls Quit. */
  datatype Job = Job(name: nat, posts: seq<Job>, quits: bool)

  /** One return of epoll_wait: whether the eventfd was readable, and the other handlers. */
  datatype Round = Round(wakeup: bool, handlers: seq<Job>)

  function Names(jobs: seq<Job>): (r: seq<nat>)
    ensures |r| == |jobs| && forall k :: 0 <= k < |r| ==> r[k] == jobs[k].name
  {
    seq(|jobs|, k requires 0 <= k < |jobs| => jobs[k].name)
  }

  lemma NamesAppend(a: seq<Job>, b: seq<Job>)
    ensures Names(a + b) == Names(a) + Names(b)
  {
  }

  /** What a list of tasks posts, in order. */
  function PostsOf(jobs: seq<Job>): seq<Job> {
    if jobs == [] then [] else PostsOf(jobs[..|jobs| - 1]) + jobs[|jobs| - 1].posts
  }

  predicate Quits(jobs: seq<Job>) {
    exists k :: 0 <= k < |jobs| && jobs[k].quits
  }

  /** The parts of the loop that posting changes. */
  datatype Queue = Queue(tasks: seq<Job>, counter: nat, posted: seq<nat>) {
    function Post(jobs: seq<Job>): Queue {
      Queue(tasks + jobs, counter + |jobs|, posted + Names(jobs))
    }
  }

  lemma PostNothing(q: Queue)
    ensures q.Post([]) == q
  {
    assert Names([]) == [];
  }

  lemma PostTwice(q: Queue, a: seq<Job>, b: seq<Job>)
    ensures q.Post(a).Post(b) == q.Post(a + b)
  {
    NamesAppend(a, b);
    assert (q.tasks + a) + b == q.tasks + (a + b);
    assert (q.posted + Names(a)) + Names(b) == q.posted + (Names(a) + Names(b));
  }

  // ---- the turns of the loop ----

  /** What is queued behind these turns: the posts of the last batch. */
  function Left(tasks: seq<Job>, rounds: seq<Round>): seq<Job>
    decreases |rounds|, 1
  {
    if rounds == [] then tasks else PostsOf(Batch(tasks, rounds))
  }

  /** What the last of these turns executes: what was queued, and what its handlers posted. */
  function Batch(tasks: seq<Job>, rounds: seq<Round>): seq<Job>
    requires rounds != []
    decreases |rounds|, 0
  {
    Left(tasks, rounds[..|rounds| - 1]) + PostsOf(rounds[|rounds| - 1].handlers)
  }

  /** Everything these turns execute. */
  function Batches(tasks: seq<Job>, rounds: seq<Round>): seq<Job> {
    if rounds == [] then [] else Batches(tasks, rounds[..|rounds| - 1]) + Batch(tasks, rounds)
  }

  /** Some handler or task of these turns calls Quit. */
  predicate Asked(tasks: seq<Job>, rounds: seq<Round>) {
    rounds != []
    && (|| Asked(tasks, rounds[..|rounds| - 1])
        || Quits(rounds[|rounds| - 1].handlers)
        || Quits(Batch(tasks, rounds)))
  }

  lemma BatchesSnoc(tasks: seq<Job>, rounds: seq<Round>, i: nat, executed: seq<nat>)
    requires i < |rounds|
    ensures rounds[..i + 1][..i] == rounds[..i]
    ensures Batch(tasks, rounds[..i + 1]) == Left(tasks, rounds[..i]) + PostsOf(rounds[i].handlers)
    ensures Left(tasks, rounds[..i + 1]) == PostsOf(Batch(tasks, rounds[..i + 1]))
    ensures executed + Names(Batches(tasks, rounds[..i + 1]))
         == (executed + Names(Batches(tasks, rounds[..i]))) + Names(Batch(tasks, rounds[..i + 1]))
  {
    assert rounds[..i + 1][..i] == rounds[..i];
    NamesAppend(Batches(tasks, rounds[..i]), Batch(tasks, rounds[..i + 1]));
  }

  lemma NamesPrefix(executed: seq<nat>, tasks: seq<Job>, more: seq<Job>, posted: seq<nat>, before: seq<nat>)
    requires executed + Names(tasks) == before && posted == before + Names(more)
    ensures posted == executed + Names(tasks + more)
  {
    NamesAppend(tasks, more);
    assert (executed + Names(tasks)) + Names(more) == executed + (Names(tasks) + Names(more));
  }

  lemma {:induction false} PostsOfMember(jobs: seq<Job>, job: Job, post: Job)
    requires job in jobs && post in job.posts
    ensures post in PostsOf(jobs)
  {
    if jobs[|jobs| - 1] != job {
      PostsOfMember(jobs[..|jobs| - 1], job, post);
    }
  }

  /** What was queued, and what a handler posts, is executed in the same turn, before the next
      epoll_wait; what a task posts is executed in the next turn. */
  lemma TurnsRunPosts(tasks: seq<Job>, rounds: seq<Round>, k: nat, job: Job, post: Job)
    requires k < |rounds| && post in job.posts
    ensures k == 0 ==> forall j :: j in tasks ==> j in Batch(tasks, rounds[..k + 1])
    ensures job in rounds[k].handlers ==> post in Batch(tasks, rounds[..k + 1])
    ensures k + 1 < |rounds| && job in Batch(tasks, rounds[..k + 1]) ==> post in Batch(tasks, rounds[..k + 2])
  {
    BatchesSnoc(tasks, rounds, k, []);
    if job in rounds[k].handlers {
      PostsOfMember(rounds[k].handlers, job, post);
    }
    if k + 1 < |rounds| && job in Batch(tasks, rounds[..k + 1]) {
      BatchesSnoc(tasks, rounds, k + 1, []);
      PostsOfMember(Batch(tasks, rounds[..k + 1]), job, post);
    }
  }

  class EventLoop {
    var quit: bool
    var tasks: seq<Job>
    /** The eventfd. */
    var counter: nat
    ghost var posted: seq<nat>
    ghost var executed: seq<nat>

    /** Between two batches nothing that was posted is missing or out of order. */
    ghost predicate Valid()
      reads this
    {
      executed + Names(tasks) == posted
    }

    constructor ()
      ensures Valid() && !quit && tasks == [] && counter == 0
    {
      quit, tasks, counter, posted, executed := false, [], 0, [], [];
    }

    ghost function View(): Queue
      reads this
    {
      Queue(tasks, counter, posted)
    }

    method TasksInLoop(job: Job)
      modifies this`tasks, this`counter, this`posted
      ensures View() == old(View()).Post([job])
      ensures tasks == old(tasks) + [job] && posted == old(posted) + [job.name] && counter == old(counter) + 1
    {
      tasks := tasks + [job];
      posted := posted + [job.name];
      counter := counter + 1;
    }

    /** The body of a task or handler. */
    method Perform(job: Job)
      modifies this`tasks, this`counter, this`posted, this`quit
      ensures View() == old(View()).Post(job.posts) && quit == (old(quit) || job.quits)
    {
      ghost var q := View();
      PostNothing(q);
      var i := 0;
      while i < |job.posts|
        invariant 0 <= i <= |job.posts| && View() == q.Post(job.posts[..i]) && quit == old(quit)
      {
        PostTwice(q, job.posts[..i], [job.posts[i]]);
        assert job.posts[..i + 1] == job.posts[..i] + [job.posts[i]];
        TasksInLoop(job.posts[i]);
        i := i + 1;
      }
      assert job.posts[..i] == job.posts;
      quit := quit || job.quits;
    }

    /** A list of tasks or handlers, one after the other; they see each other's posts only later. */
    method PerformAll(jobs: seq<Job>)
      modifies this`tasks, this`counter, this`posted, this`quit
      ensures View() == old(View()).Post(PostsOf(jobs)) && quit == (old(quit) || Quits(jobs))
    {
      ghost var q := View();
      PostNothing(q);
      var i := 0;
      while i < |jobs|
        invariant 0 <= i <= |jobs| && View() == q.Post(PostsOf(jobs[..i]))
        invariant quit == (old(quit) || Quits(jobs[..i]))
      {
        PostTwice(q, PostsOf(jobs[..i]), jobs[i].posts);
        assert jobs[..i + 1][..i] == jobs[..i];
        Perform(jobs[i]);
        i := i + 1;
      }
      assert jobs[..i] == jobs;
    }

    /** The handlers of one round: nothing is executed from the queue meanwhile. */
    method Handle(handlers: seq<Job>)
      requires Valid()
      modifies this`tasks, this`counter, this`posted, this`quit
      ensures Valid() && old(posted) <= posted && tasks == old(tasks) + PostsOf(handlers)
      ensures posted == old(posted) + Names(PostsOf(handlers)) && counter == old(counter) + |PostsOf(handlers)|
      ensures quit == (old(quit) || Quits(handlers))
    {
      NamesAppend(tasks, PostsOf(handlers));
      PerformAll(handlers);
      assert executed + (Names(old(tasks)) + Names(PostsOf(handlers))) == posted;
    }

    /** The queue is swapped out first, so what the batch posts waits for the next one. */
    method RunAllTask()
      requires Valid()
      modifies this
      ensures Valid() && executed == old(posted) && tasks == PostsOf(old(tasks))
      ensures posted == old(posted) + Names(tasks) && counter == old(counter) + |tasks|
      ensures quit == (old(quit) || Quits(old(tasks)))
    {
      var batch := tasks;
      tasks := [];
      PerformAll(batch);
      executed := executed + Names(batch);
    }

    /** One turn of the loop behind epoll_wait. */
    method Turn(round: Round)
      requires Valid()
      modifies this
      ensures Valid() && old(posted) <= posted
      ensures executed == old(executed) + Names(old(tasks) + PostsOf(round.handlers))
      ensures tasks == PostsOf(old(tasks) + PostsOf(round.handlers))
      ensures quit == (old(quit) || Quits(round.handlers) || Quits(old(tasks) + PostsOf(round.handlers)))
      ensures counter == (if round.wakeup then 0 else old(counter)) + |PostsOf(round.handlers)| + |tasks|
    {
      if round.wakeup {
        counter := 0;
      }
      Handle(round.handlers);
      NamesPrefix(old(executed), old(tasks), PostsOf(round.handlers), posted, old(posted));
      RunAllTask();
    }

    /** The loop, for as many returns of epoll_wait as there are.  It stops before the first turn in
        front of which the flag is set; then one more batch runs, and what that batch posts is never
        executed.  Nothing else is left behind. */
    method Start(rounds: seq<Round>) returns (stopped: bool, ghost ran: nat, ghost left: seq<Job>)
      requires Valid()
      modifies this
      ensures Valid() && (stopped <==> quit) && old(posted) <= posted
      ensures ran <= |rounds| && (!stopped ==> ran == |rounds|)
      ensures stopped <==> old(quit) || Asked(old(tasks), rounds[..ran])
      ensures forall n :: 0 <= n < ran ==> !old(quit) && !Asked(old(tasks), rounds[..n])
      ensures left == Left(old(tasks), rounds[..ran])
      ensures executed == old(executed) + Names(Batches(old(tasks), rounds[..ran])) + (if stopped then Names(left) else [])
      ensures tasks == if stopped then PostsOf(left) else left
    {
      var i := 0;
      assert Names([]) == [];
      while !quit && i < |rounds|
        invariant 0 <= i <= |rounds| && Valid() && old(posted) <= posted
        invariant quit == (old(quit) || Asked(old(tasks), rounds[..i]))
        invariant forall n :: 0 <= n < i ==> !old(quit) && !Asked(old(tasks), rounds[..n])
        invariant tasks == Left(old(tasks), rounds[..i])
        invariant executed == old(executed) + Names(Batches(old(tasks), rounds[..i]))
      {
        BatchesSnoc(old(tasks), rounds, i, old(executed));
        Turn(rounds[i]);
        i := i + 1;
      }
      ran, left := i, tasks;
      stopped := quit;
      if stopped {
        RunAllTask();
      }
    }
  }
}
