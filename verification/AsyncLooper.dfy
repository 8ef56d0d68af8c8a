/** include/log_system/looper.hpp: producers, the consumer thread and the thread that stops it,
    sharing two buffers under one mutex.  Every action is one atomic piece of one thread's code;
    a condition variable's wait tests, then blocks and releases the mutex in one step. */
module AsyncLoopers {
  import opened Wrappers
  import opened LogBuffers

  type Tid = nat

  /** The consumer thread. */
  const CONSUMER: Tid := 0

  /** A buffer of the looper, read from its beginning only. */
  datatype Buf = Buf(data: string, capacity: nat)

  function Append(b: Buf, record: string): Buf
    requires |b.data| <= b.capacity
  {
    Buf(b.data + record, Grown(b.capacity, |b.data|, |record|))
  }

  function Free(b: Buf): int {
    b.capacity - |b.data|
  }

  /** push: waiting for the mutex, holding it before the test, between a failed test and the wait,
      blocked in the wait, holding it after the test, and before notify_one. */
  datatype ProducerPc = Idle | Want(record: string) | Held(record: string) | Falling(record: string)
                      | Blocked(record: string) | Passed(record: string) | Filled

  /** threadentry: before the lock; before the exit test; before the wait's test; between a failed
      test and the wait; blocked; awake and waiting for the mutex; before the swap; around the
      callback; finished. */
  datatype ConsumerPc = Top | Locked | Testing | Dozing | Asleep | Woken | Swapping | Delivering | Resetting | Exited

  /** stop: not called, flag set, consumer notified, producers notified (now in join). */
  datatype StopPc = NotCalled | FlagSet | ConsumerTold | Joining

  /** `delivered` are the buffers handed to the callback; `cut` and `given` count the records that
      left the producer buffer and that reached the callback. */
  datatype State = State(safe: bool, pro: Buf, con: Buf, stop: bool, lock: Option<Tid>,
                         producers: map<Tid, ProducerPc>, consumer: ConsumerPc, stopper: StopPc,
                         pushed: seq<string>, delivered: seq<string>, cut: nat, given: nat, atExit: nat)

  function Init(safe: bool): State {
    var b := Buf("", DEFAULT_BUFFER_SIZE);
    State(safe, b, b, false, None, map[], Top, NotCalled, [], [], 0, 0, 0)
  }

  function PcOf(s: State, t: Tid): ProducerPc {
    if t in s.producers then s.producers[t] else Idle
  }

  function At(s: State, t: Tid, pc: ProducerPc): State {
    s.(producers := s.producers[t := pc])
  }

  datatype Action =
    | Push(t: Tid, record: string)
    | Lock(t: Tid)
    | Test(t: Tid)
    | Block(t: Tid)
    | Fill(t: Tid)
    | Notify(t: Tid)
    | Wake(t: Tid)
    | ConsumerLock
    | ExitTest
    | WaitTest
    | Sleep
    | WakeConsumer
    | Relock
    | Swap
    | Deliver
    | Reset
    | SetStop
    | TellConsumer
    | TellProducers

  /** Wake and WakeConsumer are spurious wakeups; Push is a call of push by a producer. */
  predicate Enabled(s: State, a: Action) {
    match a
    case Push(t, _) => t != CONSUMER && PcOf(s, t) == Idle
    case Lock(t) => t != CONSUMER && PcOf(s, t).Want? && s.lock == None
    case Test(t) => PcOf(s, t).Held?
    case Block(t) => PcOf(s, t).Falling?
    case Fill(t) => PcOf(s, t).Passed? && |s.pro.data| <= s.pro.capacity
    case Notify(t) => PcOf(s, t) == Filled
    case Wake(t) => PcOf(s, t).Blocked?
    case ConsumerLock => s.consumer == Top && s.lock == None
    case ExitTest => s.consumer == Locked
    case WaitTest => s.consumer == Testing
    case Sleep => s.consumer == Dozing
    case WakeConsumer => s.consumer == Asleep
    case Relock => s.consumer == Woken && s.lock == None
    case Swap => s.consumer == Swapping
    case Deliver => s.consumer == Delivering
    case Reset => s.consumer == Resetting
    case SetStop => s.stopper == NotCalled
    case TellConsumer => s.stopper == FlagSet
    case TellProducers => s.stopper == ConsumerTold
  }

  /** notify_one or notify_all on the consumer's condition variable. */
  function ConsumerNotified(pc: ConsumerPc): ConsumerPc {
    if pc == Asleep then Woken else pc
  }

  function ProducersNotified(producers: map<Tid, ProducerPc>): map<Tid, ProducerPc> {
    map t | t in producers :: if producers[t].Blocked? then Want(producers[t].record) else producers[t]
  }

  function Next(s: State, a: Action): State
    requires Enabled(s, a)
  {
    match a
    case Push(t, record) => At(s, t, Want(record))
    case Lock(t) => At(s, t, Held(PcOf(s, t).record)).(lock := Some(t))
    case Test(t) =>
      var record := PcOf(s, t).record;
      At(s, t, if !s.safe || s.stop || |record| <= Free(s.pro) then Passed(record) else Falling(record))
    case Block(t) => At(s, t, Blocked(PcOf(s, t).record)).(lock := None)
    case Fill(t) =>
      var record := PcOf(s, t).record;
      At(s, t, Filled).(pro := Append(s.pro, record), pushed := s.pushed + [record])
    case Notify(t) => At(s, t, Idle).(consumer := ConsumerNotified(s.consumer), lock := None)
    case Wake(t) => At(s, t, Want(PcOf(s, t).record))
    case ConsumerLock => s.(consumer := Locked, lock := Some(CONSUMER))
    case ExitTest =>
      if s.stop && s.pro.data == "" then s.(consumer := Exited, lock := None, atExit := |s.pushed|)
      else s.(consumer := Testing)
    case WaitTest => s.(consumer := if s.stop || s.pro.data != "" then Swapping else Dozing)
    case Sleep => s.(consumer := Asleep, lock := None)
    case WakeConsumer => s.(consumer := Woken)
    case Relock => s.(consumer := Testing, lock := Some(CONSUMER))
    case Swap =>
      s.(pro := s.con, con := s.pro, cut := |s.pushed|, consumer := Delivering, lock := None,
         producers := if s.safe then ProducersNotified(s.producers) else s.producers)
    case Deliver => s.(delivered := s.delivered + [s.con.data], given := s.cut, consumer := Resetting)
    case Reset => s.(con := s.con.(data := ""), consumer := Top)
    case SetStop => s.(stop := true, stopper := FlagSet)
    case TellConsumer => s.(stopper := ConsumerTold, consumer := ConsumerNotified(s.consumer))
    case TellProducers => s.(stopper := Joining, producers := ProducersNotified(s.producers))
  }

  function Run(s: State, schedule: seq<Action>): State {
    if schedule == [] then s
    else
      var t, a := Run(s, schedule[..|schedule| - 1]), schedule[|schedule| - 1];
      if Enabled(t, a) then Next(t, a) else t
  }

  function Exec(safe: bool, schedule: seq<Action>): State {
    Run(Init(safe), schedule)
  }

  // ---- the bytes of a sequence of records ----

  function Flatten(records: seq<string>): string {
    if records == [] then "" else Flatten(records[..|records| - 1]) + records[|records| - 1]
  }

  lemma FlattenSnoc(records: seq<string>, record: string)
    ensures Flatten(records + [record]) == Flatten(records) + record
  {
    assert (records + [record])[..|records|] == records;
  }

  lemma {:induction false} FlattenAppend(a: seq<string>, b: seq<string>)
    ensures Flatten(a + b) == Flatten(a) + Flatten(b)
  {
    if b == [] {
      assert a + b == a;
    } else {
      var init, last := b[..|b| - 1], b[|b| - 1];
      FlattenAppend(a, init);
      FlattenSnoc(a + init, last);
      assert a + b == (a + init) + [last];
      assert Flatten(a) + (Flatten(init) + last) == (Flatten(a) + Flatten(init)) + last;
    }
  }

  lemma FlattenSplit(records: seq<string>, i: nat, j: nat)
    requires i <= j <= |records|
    ensures Flatten(records[..j]) == Flatten(records[..i]) + Flatten(records[i..j])
    ensures Flatten(records[i..]) == Flatten(records[i..j]) + Flatten(records[j..])
  {
    assert records[..j] == records[..i] + records[i..j];
    FlattenAppend(records[..i], records[i..j]);
    assert records[i..] == records[i..j] + records[j..];
    FlattenAppend(records[i..j], records[j..]);
  }

  lemma FlattenWhole(records: seq<string>, i: nat)
    requires i <= |records|
    ensures Flatten(records) == Flatten(records[..i]) + Flatten(records[i..])
  {
    assert records == records[..i] + records[i..];
    FlattenAppend(records[..i], records[i..]);
  }

  // ---- the invariant ----

  predicate Holds(pc: ProducerPc) {
    pc.Held? || pc.Falling? || pc.Passed? || pc == Filled
  }

  predicate ConsumerHolds(pc: ConsumerPc) {
    pc == Locked || pc == Testing || pc == Dozing || pc == Swapping
  }

  /** Exactly the owner of the mutex is in a critical section. */
  ghost predicate Exclusive(s: State) {
    && (ConsumerHolds(s.consumer) <==> s.lock == Some(CONSUMER))
    && (forall t :: t in s.producers ==> HolderOk(s, t))
    && (s.lock.Some? && s.lock.value != CONSUMER ==> s.lock.value in s.producers)
  }

  ghost predicate HolderOk(s: State, t: Tid)
    requires t in s.producers
  {
    t != CONSUMER && (Holds(s.producers[t]) <==> s.lock == Some(t))
  }

  /** Both buffers have room; each holds its own stretch of the pushed records, whole and in order;
      the consumer's is empty except around the callback. */
  ghost predicate Conserved(s: State) {
    && |s.pro.data| < s.pro.capacity && |s.con.data| < s.con.capacity
    && s.given <= s.cut <= |s.pushed|
    && s.pro.data == Flatten(s.pushed[s.cut..])
    && Flatten(s.delivered) == Flatten(s.pushed[..s.given])
    && (s.consumer == Delivering ==> s.con.data == Flatten(s.pushed[s.given..s.cut]))
    && (s.consumer != Delivering ==> s.given == s.cut)
    && (s.consumer != Delivering && s.consumer != Resetting ==> s.con.data == "")
  }

  /** A consumer that sleeps over data is about to be notified; before it sleeps there is none. */
  ghost predicate Attended(s: State) {
    && (s.consumer == Dozing ==> s.pro.data == "")
    && (s.consumer == Asleep && s.pro.data != "" ==>
          s.lock.Some? && s.lock.value in s.producers && s.producers[s.lock.value] == Filled)
  }

  ghost predicate Stopping(s: State) {
    && (s.stop <==> s.stopper != NotCalled)
    && (s.consumer == Exited ==>
          s.stop && s.given == s.cut <= s.atExit <= |s.pushed| && Flatten(s.pushed[s.cut..s.atExit]) == "")
  }

  ghost predicate Inv(s: State) {
    Exclusive(s) && Conserved(s) && Attended(s) && Stopping(s)
  }

  lemma InitInv(safe: bool)
    ensures Inv(Init(safe))
  {
  }

  lemma NextExclusive(s: State, a: Action)
    requires Exclusive(s) && Enabled(s, a)
    ensures Exclusive(Next(s, a))
  {
    var t := Next(s, a);
    forall x | x in t.producers ensures HolderOk(t, x) {
      assert x in s.producers ==> HolderOk(s, x);
    }
  }

  /** A record more at the end leaves the stretches before it alone. */
  lemma Stretches(records: seq<string>, record: string, i: nat, j: nat)
    requires i <= j <= |records|
    ensures (records + [record])[..i] == records[..i]
    ensures (records + [record])[i..j] == records[i..j]
    ensures Flatten((records + [record])[j..]) == Flatten(records[j..]) + record
  {
    assert (records + [record])[j..] == records[j..] + [record];
    FlattenSnoc(records[j..], record);
  }

  lemma FillConserved(s: State, t: Tid)
    requires Conserved(s) && Enabled(s, Fill(t))
    ensures Conserved(Next(s, Fill(t)))
  {
    var record := PcOf(s, t).record;
    GrownLeavesRoom(s.pro.capacity, |s.pro.data|, |record|);
    Stretches(s.pushed, record, s.given, s.cut);
  }

  lemma SwapConserved(s: State)
    requires Conserved(s) && Enabled(s, Swap)
    ensures Conserved(Next(s, Swap))
  {
    var u := Next(s, Swap);
    assert u.pushed[u.cut..] == [];
    assert u.pushed[u.given..u.cut] == s.pushed[s.cut..];
  }

  lemma DeliverConserved(s: State)
    requires Conserved(s) && Enabled(s, Deliver)
    ensures Conserved(Next(s, Deliver))
  {
    var u := Next(s, Deliver);
    FlattenSnoc(s.delivered, s.con.data);
    FlattenAppend(s.pushed[..s.given], s.pushed[s.given..s.cut]);
    assert s.pushed[..s.given] + s.pushed[s.given..s.cut] == u.pushed[..u.given];
  }

  lemma NextConserved(s: State, a: Action)
    requires Conserved(s) && Enabled(s, a)
    ensures Conserved(Next(s, a))
  {
    match a
    case Fill(t) => FillConserved(s, t);
    case Swap => SwapConserved(s);
    case Deliver => DeliverConserved(s);
    case _ =>
  }

  lemma NextAttended(s: State, a: Action)
    requires Exclusive(s) && Attended(s) && Enabled(s, a)
    ensures Attended(Next(s, a))
  {
    assert s.lock.Some? && s.lock.value in s.producers ==> HolderOk(s, s.lock.value);
    match a
    case Lock(t) =>
    case Test(t) => assert HolderOk(s, t);
    case Block(t) => assert HolderOk(s, t);
    case Fill(t) => assert HolderOk(s, t);
    case Notify(t) => assert HolderOk(s, t);
    case _ =>
  }

  lemma ExitStopping(s: State)
    requires Conserved(s) && Stopping(s) && s.consumer == Locked
    ensures Stopping(Next(s, ExitTest))
  {
    assert s.pushed[s.cut..] == s.pushed[s.cut..|s.pushed|];
  }

  lemma NextStopping(s: State, a: Action)
    requires Conserved(s) && Stopping(s) && Enabled(s, a)
    ensures Stopping(Next(s, a))
  {
    match a
    case ExitTest => ExitStopping(s);
    case Fill(t) =>
      if s.consumer == Exited {
        Stretches(s.pushed, PcOf(s, t).record, s.cut, s.atExit);
      }
    case _ =>
  }

  lemma NextInv(s: State, a: Action)
    requires Inv(s) && Enabled(s, a)
    ensures Inv(Next(s, a))
  {
    NextExclusive(s, a);
    NextConserved(s, a);
    NextAttended(s, a);
    NextStopping(s, a);
  }

  lemma {:induction false} RunInv(s: State, schedule: seq<Action>)
    requires Inv(s)
    ensures Inv(Run(s, schedule))
  {
    if schedule != [] {
      var t, a := Run(s, schedule[..|schedule| - 1]), schedule[|schedule| - 1];
      RunInv(s, schedule[..|schedule| - 1]);
      if Enabled(t, a) {
        NextInv(t, a);
      }
    }
  }

  lemma AlwaysInv(safe: bool, schedule: seq<Action>)
    ensures Inv(Exec(safe, schedule))
  {
    InitInv(safe);
    RunInv(Init(safe), schedule);
  }

  // ---- the theorems, for every schedule ----

  /** What the callback is working on. */
  function InFlight(s: State): string {
    if s.consumer == Delivering then s.con.data else ""
  }

  /** No byte is lost, repeated or moved: what was delivered, what is in flight and what waits are,
      in this order, the records in the order in which the mutex let them in; only whole records
      were delivered; and the buffer that the swap hands to the producers is empty. */
  lemma LogConserved(safe: bool, schedule: seq<Action>)
    ensures var s := Exec(safe, schedule);
      && Flatten(s.delivered) + InFlight(s) + s.pro.data == Flatten(s.pushed)
      && s.given <= |s.pushed| && Flatten(s.delivered) == Flatten(s.pushed[..s.given])
      && (s.consumer == Swapping ==> s.con.data == "")
  {
    var s := Exec(safe, schedule);
    AlwaysInv(safe, schedule);
    FlattenSplit(s.pushed, s.given, s.cut);
    FlattenWhole(s.pushed, s.cut);
    assert s.consumer != Delivering ==> s.pushed[s.given..s.cut] == [];
  }

  /** When the consumer thread has finished, everything pushed until then has been delivered; what
      is pushed later stays in the buffer. */
  lemma ExitMeansDelivered(safe: bool, schedule: seq<Action>)
    requires Exec(safe, schedule).consumer == Exited
    ensures var s := Exec(safe, schedule);
      && s.stop && s.atExit <= |s.pushed|
      && Flatten(s.delivered) == Flatten(s.pushed[..s.atExit])
      && s.pro.data == Flatten(s.pushed[s.atExit..])
  {
    var s := Exec(safe, schedule);
    AlwaysInv(safe, schedule);
    FlattenSplit(s.pushed, s.cut, s.atExit);
  }

  /** A consumer never sleeps over data without a producer on the way to notify it. */
  lemma NoSleepOverData(safe: bool, schedule: seq<Action>)
    ensures var s := Exec(safe, schedule);
      s.consumer == Asleep && s.pro.data != "" ==>
        s.lock.Some? && PcOf(s, s.lock.value) == Filled
        && Enabled(s, Notify(s.lock.value)) && Next(s, Notify(s.lock.value)).consumer == Woken
  {
    AlwaysInv(safe, schedule);
  }

  // ---- the bound of the safe mode ----

  /** A producer behind its test has room, as long as nothing but the test let it through. */
  ghost predicate Fitting(s: State, t: Tid) {
    PcOf(s, t).Passed? && s.safe && !s.stop ==> |PcOf(s, t).record| <= Free(s.pro)
  }

  lemma NextFitting(s: State, a: Action, t: Tid)
    requires Exclusive(s) && Enabled(s, a) && Fitting(s, t)
    ensures Fitting(Next(s, a), t)
  {
    assert t in s.producers ==> HolderOk(s, t);
    match a
    case Fill(x) => assert HolderOk(s, x);
    case Test(x) =>
    case _ =>
  }

  lemma {:induction false} AlwaysFitting(safe: bool, schedule: seq<Action>, t: Tid)
    ensures Fitting(Exec(safe, schedule), t) && Exec(safe, schedule).safe == safe
  {
    if schedule != [] {
      var s, a := Exec(safe, schedule[..|schedule| - 1]), schedule[|schedule| - 1];
      AlwaysFitting(safe, schedule[..|schedule| - 1], t);
      AlwaysInv(safe, schedule[..|schedule| - 1]);
      if Enabled(s, a) {
        NextFitting(s, a, t);
      }
    }
  }

  /** In the safe mode, and until stop() is called, a record is written only where it fits; the
      buffer grows all the same, exactly when a record fits to the last byte. */
  lemma SafeModeFits(schedule: seq<Action>, t: Tid)
    requires var s := Exec(true, schedule); Enabled(s, Fill(t)) && !s.stop
    ensures var s := Exec(true, schedule);
      && |PcOf(s, t).record| <= Free(s.pro)
      && (Next(s, Fill(t)).pro.capacity != s.pro.capacity <==> |PcOf(s, t).record| == Free(s.pro))
  {
    var s := Exec(true, schedule);
    AlwaysFitting(true, schedule, t);
    AlwaysInv(true, schedule);
    GrownLeavesRoom(s.pro.capacity, |s.pro.data|, |PcOf(s, t).record|);
  }

  // ---- stop() sets its flag without the mutex ----

  /** The consumer blocked after stop() had told everybody, with nothing left to be told. */
  predicate Forgotten(s: State) {
    s.consumer == Asleep && s.stopper == Joining && s.lock == None && s.producers == map[]
  }

  ghost predicate Reachable(safe: bool, s: State) {
    exists schedule :: Exec(safe, schedule) == s
  }

  lemma StepReachable(safe: bool, s: State, a: Action)
    requires Reachable(safe, s) && Enabled(s, a)
    ensures Reachable(safe, Next(s, a))
  {
    var schedule :| Exec(safe, schedule) == s;
    assert (schedule + [a])[..|schedule|] == schedule;
    assert Exec(safe, schedule + [a]) == Next(s, a);
  }

  /** The states of such a run: no record was ever pushed. */
  function Quiet(safe: bool, consumer: ConsumerPc, lock: Option<Tid>, stopper: StopPc): State {
    Init(safe).(consumer := consumer, lock := lock, stop := stopper != NotCalled, stopper := stopper)
  }

  lemma DozesOff(safe: bool)
    ensures Reachable(safe, Quiet(safe, Dozing, Some(CONSUMER), NotCalled))
  {
    assert Exec(safe, []) == Init(safe);
    StepReachable(safe, Quiet(safe, Top, None, NotCalled), ConsumerLock);
    StepReachable(safe, Quiet(safe, Locked, Some(CONSUMER), NotCalled), ExitTest);
    StepReachable(safe, Quiet(safe, Testing, Some(CONSUMER), NotCalled), WaitTest);
  }

  lemma NobodyToNotify(s: State)
    requires s.producers == map[]
    ensures ProducersNotified(s.producers) == s.producers
  {
  }

  /** stop() falls between the consumer's failed test and its wait. */
  lemma StopIsLost(safe: bool)
    ensures Reachable(safe, Quiet(safe, Asleep, None, Joining))
    ensures Forgotten(Quiet(safe, Asleep, None, Joining))
  {
    DozesOff(safe);
    StepReachable(safe, Quiet(safe, Dozing, Some(CONSUMER), NotCalled), SetStop);
    StepReachable(safe, Quiet(safe, Dozing, Some(CONSUMER), FlagSet), TellConsumer);
    NobodyToNotify(Quiet(safe, Dozing, Some(CONSUMER), ConsumerTold));
    StepReachable(safe, Quiet(safe, Dozing, Some(CONSUMER), ConsumerTold), TellProducers);
    StepReachable(safe, Quiet(safe, Dozing, Some(CONSUMER), Joining), Sleep);
  }

  /** From there nobody ever wakes it: without a further push or a spurious wakeup every run leaves
      it asleep, so stop() never returns from join. */
  lemma {:induction false} ForgottenForever(s: State, schedule: seq<Action>)
    requires Forgotten(s)
    requires forall a :: a in schedule ==> !a.Push? && a != WakeConsumer
    ensures Forgotten(Run(s, schedule))
  {
    if schedule != [] {
      var t, a := Run(s, schedule[..|schedule| - 1]), schedule[|schedule| - 1];
      assert forall x :: x in schedule[..|schedule| - 1] ==> x in schedule;
      ForgottenForever(s, schedule[..|schedule| - 1]);
      assert a in schedule;
      assert forall x :: PcOf(t, x) == Idle;
    }
  }

  lemma {:induction false} RunStep(s: State, a: Action)
    requires Enabled(s, a)
    ensures Run(s, [a]) == Next(s, a)
  {
    assert [a][..0] == [];
    assert Run(s, []) == s;
  }

  /** Once the flag is set no test of the consumer fails any more. */
  lemma NextStaysAwake(s: State, a: Action)
    requires Enabled(s, a) && s.stop && s.consumer != Dozing && s.consumer != Asleep
    ensures Next(s, a).stop && Next(s, a).consumer != Dozing && Next(s, a).consumer != Asleep
  {
  }

  lemma {:induction false} StaysAwake(s: State, more: seq<Action>)
    requires s.stop && s.consumer != Dozing && s.consumer != Asleep
    ensures Run(s, more).stop && Run(s, more).consumer != Dozing && Run(s, more).consumer != Asleep
  {
    if more != [] {
      var t, a := Run(s, more[..|more| - 1]), more[|more| - 1];
      StaysAwake(s, more[..|more| - 1]);
      if Enabled(t, a) {
        NextStaysAwake(t, a);
      }
    }
  }

  /** The consumer hears stop() exactly if it is not between its failed test and its wait when it is
      notified: then it is never found asleep again, whatever happens. */
  lemma StopIsHeard(safe: bool, schedule: seq<Action>)
    requires Enabled(Exec(safe, schedule), TellConsumer)
    ensures var s := Exec(safe, schedule);
      s.consumer != Dozing <==> forall more :: Run(Next(s, TellConsumer), more).consumer != Asleep
  {
    var s := Exec(safe, schedule);
    var t := Next(s, TellConsumer);
    AlwaysInv(safe, schedule);
    if s.consumer == Dozing {
      RunStep(t, Sleep);
      assert Run(t, [Sleep]).consumer == Asleep;
    } else {
      forall more ensures Run(t, more).consumer != Asleep {
        StaysAwake(t, more);
      }
    }
  }

  /** A caller that has seen its records wait in the buffer can rely on that. */
  lemma StopIsHeardOverData(safe: bool, schedule: seq<Action>)
    ensures var s := Exec(safe, schedule); s.pro.data != "" ==> s.consumer != Dozing
    ensures var s := Exec(safe, schedule);
      Enabled(s, TellConsumer) && s.pro.data != "" ==>
        forall more :: Run(Next(s, TellConsumer), more).consumer != Asleep
  {
    var s := Exec(safe, schedule);
    AlwaysInv(safe, schedule);
    if Enabled(s, TellConsumer) && s.pro.data != "" {
      StopIsHeard(safe, schedule);
    }
  }

  lemma NextStaysUnblocked(s: State, a: Action, t: Tid)
    requires Enabled(s, a) && s.stop && !PcOf(s, t).Falling? && !PcOf(s, t).Blocked?
    ensures var u := Next(s, a); u.stop && !PcOf(u, t).Falling? && !PcOf(u, t).Blocked?
  {
  }

  lemma {:induction false} StaysUnblocked(s: State, more: seq<Action>, t: Tid)
    requires s.stop && !PcOf(s, t).Falling? && !PcOf(s, t).Blocked?
    ensures var u := Run(s, more); u.stop && !PcOf(u, t).Falling? && !PcOf(u, t).Blocked?
  {
    if more != [] {
      var u, a := Run(s, more[..|more| - 1]), more[|more| - 1];
      StaysUnblocked(s, more[..|more| - 1], t);
      if Enabled(u, a) {
        NextStaysUnblocked(u, a, t);
      }
    }
  }

  /** The same for a producer in the safe mode and the second notification. */
  lemma StopReachesProducers(safe: bool, schedule: seq<Action>, t: Tid)
    requires Enabled(Exec(safe, schedule), TellProducers)
    ensures var s := Exec(safe, schedule);
      !PcOf(s, t).Falling? <==> forall more :: !PcOf(Run(Next(s, TellProducers), more), t).Blocked?
  {
    var s := Exec(safe, schedule);
    var u := Next(s, TellProducers);
    AlwaysInv(safe, schedule);
    if PcOf(s, t).Falling? {
      RunStep(u, Block(t));
      assert PcOf(Run(u, [Block(t)]), t).Blocked?;
    } else {
      forall more ensures !PcOf(Run(u, more), t).Blocked? {
        StaysUnblocked(u, more, t);
      }
    }
  }

  // ---- the threads get on ----

  lemma Extend(s: State, more: seq<Action>, a: Action)
    requires Enabled(Run(s, more), a)
    ensures Run(s, more + [a]) == Next(Run(s, more), a)
  {
    assert (more + [a])[..|more|] == more;
  }

  /** The actions of the consumer thread. */
  predicate Own(a: Action) {
    a.ConsumerLock? || a.ExitTest? || a.WaitTest? || a.Relock? || a.Swap? || a.Deliver? || a.Reset?
  }

  predicate AllOwn(more: seq<Action>) {
    forall k :: 0 <= k < |more| ==> Own(more[k])
  }

  /** Everything was delivered and the mutex is free. */
  ghost predicate CaughtUp(s: State, t: State) {
    && t.pushed == s.pushed && t.stop == s.stop && t.safe == s.safe && t.lock == None
    && t.pro.data == "" && Flatten(t.delivered) == Flatten(s.pushed)
    && (s.safe ==> forall x :: !PcOf(t, x).Blocked?)
  }

  lemma Notified(s: State)
    ensures forall x :: !PcOf(s.(producers := ProducersNotified(s.producers)), x).Blocked?
  {
  }

  lemma RunThree(s: State, a: Action, b: Action, c: Action)
    requires Enabled(s, a) && Enabled(Next(s, a), b) && Enabled(Next(Next(s, a), b), c)
    ensures Run(s, [a, b, c]) == Next(Next(Next(s, a), b), c)
  {
    RunTwo(s, a, b);
    Extend(s, [a, b], c);
    assert [a, b] + [c] == [a, b, c];
  }

  lemma AllGiven(t: State)
    requires Conserved(t) && t.consumer == Top && t.pro.data == "" && t.given == |t.pushed|
    ensures Flatten(t.delivered) == Flatten(t.pushed)
  {
    assert t.pushed[..t.given] == t.pushed;
  }

  function Swapped(s: State): State
    requires s.consumer == Swapping
  {
    Next(Next(Next(s, Swap), Deliver), Reset)
  }

  lemma SwappedState(s: State)
    requires s.consumer == Swapping
    ensures var t := Swapped(s);
      && t.pushed == s.pushed && t.stop == s.stop && t.safe == s.safe && t.lock == None && t.consumer == Top
      && t.pro == s.con && t.given == |s.pushed|
      && t.producers == (if s.safe then ProducersNotified(s.producers) else s.producers)
  {
  }

  lemma SwappedInv(s: State)
    requires Inv(s) && s.consumer == Swapping
    ensures Inv(Swapped(s))
  {
    NextInv(s, Swap);
    NextInv(Next(s, Swap), Deliver);
    NextInv(Next(Next(s, Swap), Deliver), Reset);
  }

  /** From the swap on the consumer delivers all that was pushed, and frees every waiting producer. */
  lemma SwapDelivers(s: State)
    requires Inv(s) && s.consumer == Swapping
    ensures Run(s, [Swap, Deliver, Reset]).consumer == Top && CaughtUp(s, Run(s, [Swap, Deliver, Reset]))
  {
    SwappedState(s);
    SwappedInv(s);
    AllGiven(Swapped(s));
    Notified(s);
    RunThree(s, Swap, Deliver, Reset);
    assert forall x :: PcOf(Swapped(s), x) == PcOf(s.(producers := Swapped(s).producers), x);
  }

  lemma {:induction false} RunAppend(s: State, first: seq<Action>, second: seq<Action>)
    ensures Run(s, first + second) == Run(Run(s, first), second)
    decreases |second|
  {
    if second == [] {
      assert first + second == first;
    } else {
      var init := second[..|second| - 1];
      RunAppend(s, first, init);
      assert (first + second)[..|first + second| - 1] == first + init;
    }
  }

  lemma RunTwo(s: State, a: Action, b: Action)
    requires Enabled(s, a) && Enabled(Next(s, a), b)
    ensures Run(s, [a, b]) == Next(Next(s, a), b)
  {
    assert Run(s, []) == s && [] + [a] == [a] && [a] + [b] == [a, b];
    Extend(s, [], a);
    Extend(s, [a], b);
  }

  /** An awake consumer gets to the swap when something waits. */
  lemma ReachesSwap(s: State) returns (first: seq<Action>)
    requires Inv(s) && s.lock == None && s.pro.data != "" && (s.consumer == Top || s.consumer == Woken)
    ensures AllOwn(first)
    ensures var t := Run(s, first); t == s.(consumer := Swapping, lock := Some(CONSUMER)) && Inv(t)
  {
    if s.consumer == Top {
      first := [ConsumerLock, ExitTest, WaitTest];
      RunThree(s, ConsumerLock, ExitTest, WaitTest);
    } else {
      first := [Relock, WaitTest];
      RunTwo(s, Relock, WaitTest);
    }
    RunInv(s, first);
  }

  /** A consumer that is awake delivers what waits, or what was pushed before it was woken. */
  lemma ConsumerCatchesUp(s: State) returns (more: seq<Action>)
    requires Inv(s) && s.lock == None && s.pro.data != "" && (s.consumer == Top || s.consumer == Woken)
    ensures AllOwn(more) && Run(s, more).consumer == Top && CaughtUp(s, Run(s, more))
  {
    var first := ReachesSwap(s);
    SwapDelivers(Run(s, first));
    RunAppend(s, first, [Swap, Deliver, Reset]);
    more := first + [Swap, Deliver, Reset];
  }

  ghost predicate Finished(s: State, t: State) {
    t.consumer == Exited && t.pushed == s.pushed && Flatten(t.delivered) == Flatten(s.pushed) && t.lock == None
  }

  /** The exit test of a stopped consumer to which nothing is left. */
  lemma ConsumerExits(s: State)
    requires s.lock == None && s.stop && s.consumer == Top && s.pro.data == ""
    requires Flatten(s.delivered) == Flatten(s.pushed)
    ensures Finished(s, Run(s, [ConsumerLock, ExitTest]))
  {
    RunTwo(s, ConsumerLock, ExitTest);
  }

  lemma NothingWaits(s: State)
    requires Conserved(s) && s.consumer == Top && s.pro.data == ""
    ensures Flatten(s.delivered) == Flatten(s.pushed)
  {
    FlattenWhole(s.pushed, s.cut);
  }

  /** A consumer that is awake and was told to stop delivers everything pushed and ends. */
  lemma ConsumerEnds(s: State) returns (more: seq<Action>)
    requires Inv(s) && s.lock == None && s.stop && s.consumer == Top
    ensures AllOwn(more) && Finished(s, Run(s, more))
  {
    if s.pro.data == "" {
      NothingWaits(s);
      ConsumerExits(s);
      more := [ConsumerLock, ExitTest];
    } else {
      var first := ConsumerCatchesUp(s);
      ConsumerExits(Run(s, first));
      RunAppend(s, first, [ConsumerLock, ExitTest]);
      more := first + [ConsumerLock, ExitTest];
    }
  }

  /** A producer that waits, once woken, pushes its record as soon as it fits or the looper stops. */
  lemma ProducerGoesOn(s: State, t: Tid)
    requires Inv(s) && s.lock == None && PcOf(s, t).Blocked?
    requires s.stop || |PcOf(s, t).record| <= Free(s.pro)
    ensures var u := Run(s, [Wake(t), Lock(t)] + [Test(t), Fill(t)] + [Notify(t)]);
      && u.pushed == s.pushed + [PcOf(s, t).record] && u.pro.data == s.pro.data + PcOf(s, t).record
      && PcOf(u, t) == Idle && u.lock == None && u.consumer != Asleep
  {
    assert HolderOk(s, t);
    var v := Next(Next(s, Wake(t)), Lock(t));
    RunTwo(s, Wake(t), Lock(t));
    RunTwo(v, Test(t), Fill(t));
    var w := Next(Next(v, Test(t)), Fill(t));
    RunStep(w, Notify(t));
    RunAppend(s, [Wake(t), Lock(t)], [Test(t), Fill(t)]);
    RunAppend(s, [Wake(t), Lock(t)] + [Test(t), Fill(t)], [Notify(t)]);
  }

  // ---- the object ----

  lemma Enqueued(delivered: string, waiting: string, pushed: seq<string>, record: string)
    requires delivered + waiting == Flatten(pushed)
    ensures delivered + (waiting + record) == Flatten(pushed + [record])
  {
    FlattenSnoc(pushed, record);
    assert delivered + (waiting + record) == (delivered + waiting) + record;
  }

  /** The looper's buffers and flag, as the threads change them while they hold the mutex. */
  class AsyncLooper {
    const safe: bool
    const pro: Buffer
    const con: Buffer
    var stopped: bool
    ghost var pushed: seq<string>
    ghost var delivered: seq<string>

    ghost predicate Valid()
      reads this, pro, con, pro.buf, con.buf
    {
      && pro != con && pro.buf != con.buf && pro.Valid() && con.Valid()
      && pro.readPos == 0 && con.readPos == 0 && con.Contents() == ""
      && Flatten(delivered) + pro.Contents() == Flatten(pushed)
    }

    constructor (safe: bool)
      ensures Valid() && fresh(pro) && fresh(con) && fresh(pro.buf) && fresh(con.buf)
      ensures this.safe == safe && !stopped && pushed == [] && delivered == []
    {
      this.safe := safe;
      pro := new Buffer();
      con := new Buffer();
      stopped, pushed, delivered := false, [], [];
    }

    /** The record joins the producer buffer. */
    method enqueue(record: string)
      requires Valid()
      modifies this`pushed, pro, pro.buf
      ensures Valid() && pushed == old(pushed) + [record]
      ensures pro.Contents() == old(pro.Contents()) + record
      ensures pro.buf.Length == Grown(old(pro.buf.Length), |old(pro.Contents())|, |record|)
      ensures pro.buf == old(pro.buf) || fresh(pro.buf)
    {
      Enqueued(Flatten(delivered), pro.Contents(), pushed, record);
      pro.push(record);
      pushed := pushed + [record];
    }

    /** push, once the mutex is held: `ok` is the test of the wait; a producer that fails it blocks
        and changes nothing. */
    method push(record: string) returns (ok: bool)
      requires Valid()
      modifies this`pushed, pro, pro.buf
      ensures Valid()
      ensures ok <==> !safe || stopped || |record| <= old(pro.buf.Length - |pro.Contents()|)
      ensures pushed == if ok then old(pushed) + [record] else old(pushed)
      ensures pro.Contents() == if ok then old(pro.Contents()) + record else old(pro.Contents())
      ensures pro.buf.Length == if ok then Grown(old(pro.buf.Length), |old(pro.Contents())|, |record|)
                                else old(pro.buf.Length)
      ensures pro.buf == old(pro.buf) || fresh(pro.buf)
    {
      var free := pro.abletowritelen();
      ok := !safe || stopped || |record| <= free;
      if ok {
        enqueue(record);
      }
    }

    /** One turn of threadentry whose wait does not block: the swap, the callback on what was
        swapped out, the reset.  It ends the thread exactly when stop was called and nothing waits. */
    method turn() returns (exited: bool, batch: string)
      requires Valid() && (stopped || pro.Contents() != "")
      modifies this`delivered, pro, con
      ensures Valid() && pushed == old(pushed)
      ensures exited <==> stopped && old(pro.Contents()) == ""
      ensures batch == old(pro.Contents())
      ensures delivered == old(delivered) + (if exited then [] else [batch])
      ensures Flatten(delivered) == Flatten(pushed) && pro.Contents() == ""
      ensures {pro.buf, con.buf} == old({pro.buf, con.buf})
    {
      batch := "";
      var empty := pro.empty();
      exited := stopped && empty;
      if exited {
        return;
      }
      pro.swap(con);
      batch := con.buf[con.readPos..con.writePos];
      FlattenSnoc(delivered, batch);
      delivered := delivered + [batch];
      con.reset();
    }
  }
}
