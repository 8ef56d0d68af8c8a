/** What holds of the deadline list in every run: punctuality, exactly-once, and the index. */
module DeadlineRuns {
  import opened Deadlines

  /** What a run consists of: calls from outside callbacks, and calls of RunTimerTask. */
  datatype Command = Do(op: Op) | Elapse

  function Perform(s: Schedule, c: Command): Schedule {
    match c
    case Do(op) => Apply(s, op)
    case Elapse => Tick(s)
  }

  function PerformAll(cs: seq<Command>): Schedule {
    if cs == [] then EmptySchedule() else Perform(PerformAll(cs[..|cs| - 1]), cs[|cs| - 1])
  }

  // ---- punctuality ----

  predicate OnTime(e: Entry, now: nat) {
    e.armed <= now <= e.Deadline()
  }

  /** A task leaves at its deadline, and its callback runs unless it was cancelled. */
  predicate Punctual(r: Record) {
    r.at == r.entry.Deadline() && (r.Dropped? <==> r.entry.cancelled)
  }

  ghost predicate Timely(s: Schedule) {
    && (forall k :: 0 <= k < |s.pending| ==> OnTime(s.pending[k], s.now))
    && (forall i :: 0 <= i < |s.log| ==> Punctual(s.log[i]))
  }

  lemma ApplyTimely(s: Schedule, op: Op)
    requires Timely(s)
    ensures Timely(Apply(s, op))
  {
  }

  lemma {:induction false} ApplyAllTimely(s: Schedule, ops: seq<Op>)
    requires Timely(s)
    ensures Timely(ApplyAll(s, ops))
    decreases |ops|
  {
    if ops != [] {
      ApplyTimely(s, ops[0]);
      ApplyAllTimely(Apply(s, ops[0]), ops[1..]);
    }
  }

  lemma ExpireTimely(s: Schedule, k: nat)
    requires Timely(s) && k < |s.pending| && s.pending[k].Deadline() == s.now
    ensures Timely(Expire(s, k))
  {
    assert Timely(Leave(s, k));
    ApplyAllTimely(Leave(s, k), s.pending[k].callback);
  }

  lemma {:induction false} DrainTimely(s: Schedule)
    requires Timely(s)
    ensures Timely(Drain(s)) && Drain(s).now == s.now
    ensures forall k :: 0 <= k < |Drain(s).pending| ==> Drain(s).pending[k].Deadline() != s.now
    decreases DueCount(s.pending, s.now)
  {
    var k := FirstDue(s.pending, s.now);
    if k < |s.pending| {
      ExpireTimely(s, k);
      ExpireShrinksDue(s, k);
      DrainTimely(Expire(s, k));
    }
  }

  lemma TickTimely(s: Schedule)
    requires Timely(s)
    ensures Timely(Tick(s)) && Tick(s).now == s.now + 1
  {
    DrainTimely(s);
  }

  lemma {:induction false} RunTimely(cs: seq<Command>)
    ensures Timely(PerformAll(cs))
  {
    if cs != [] {
      var before := cs[..|cs| - 1];
      RunTimely(before);
      match cs[|cs| - 1]
      case Do(op) => ApplyTimely(PerformAll(before), op);
      case Elapse => TickTimely(PerformAll(before));
    }
  }

  // ---- every task exactly once ----

  function Serials(pending: seq<Entry>): (r: seq<nat>)
    ensures |r| == |pending|
    ensures forall k :: 0 <= k < |r| ==> r[k] == pending[k].serial
  {
    seq(|pending|, k requires 0 <= k < |pending| => pending[k].serial)
  }

  function Departed(log: seq<Record>): (r: seq<nat>)
    ensures |r| == |log|
    ensures forall i :: 0 <= i < |r| ==> r[i] == log[i].entry.serial
  {
    seq(|log|, i requires 0 <= i < |log| => log[i].entry.serial)
  }

  /** 0, 1, ..., n - 1, each once. */
  function UpTo(n: nat): (m: multiset<nat>)
    ensures forall i: nat :: m[i] == if i < n then 1 else 0
  {
    if n == 0 then multiset{} else UpTo(n - 1) + multiset{n - 1}
  }

  /** Each task ever made is either pending or has left, and that once. */
  ghost predicate Conserved(s: Schedule) {
    multiset(Serials(s.pending)) + multiset(Departed(s.log)) == UpTo(s.next)
  }

  lemma SerialsWithout(pending: seq<Entry>, k: nat)
    requires k < |pending|
    ensures multiset(Serials(Without(pending, k))) + multiset{pending[k].serial} == multiset(Serials(pending))
  {
    var all := Serials(pending);
    assert Serials(Without(pending, k)) == all[..k] + all[k + 1..];
    assert all == all[..k] + [all[k]] + all[k + 1..];
  }

  lemma SerialsPush(pending: seq<Entry>, e: Entry)
    ensures multiset(Serials(pending + [e])) == multiset(Serials(pending)) + multiset{e.serial}
  {
    assert Serials(pending + [e]) == Serials(pending) + [e.serial];
  }

  lemma RefreshSerials(s: Schedule, id: TimerId)
    ensures multiset(Serials(RefreshTask(s, id).pending)) == multiset(Serials(s.pending))
  {
    if id in s.index && Position(s.pending, s.index[id]) < |s.pending| {
      var k := Position(s.pending, s.index[id]);
      SerialsWithout(s.pending, k);
      SerialsPush(Without(s.pending, k), s.pending[k].(armed := s.now));
    }
  }

  lemma CancelSerials(s: Schedule, id: TimerId)
    ensures Serials(CancelTask(s, id).pending) == Serials(s.pending)
  {
  }

  /** A change of the pending tasks that keeps their serials, and nothing else. */
  lemma SameSerials(s: Schedule, t: Schedule)
    requires Conserved(s) && t.next == s.next && t.log == s.log
    requires multiset(Serials(t.pending)) == multiset(Serials(s.pending))
    ensures Conserved(t)
  {
  }

  lemma ApplyKeepsLog(s: Schedule, op: Op)
    ensures Apply(s, op).log == s.log && (!op.Add? ==> Apply(s, op).next == s.next)
  {
  }

  lemma AddConserved(s: Schedule, id: TimerId, delay: nat, callback: seq<Op>)
    requires Conserved(s)
    ensures Conserved(AddTask(s, id, delay, callback))
  {
    if 0 < delay < CAPACITY {
      SerialsPush(s.pending, Entry(s.next, id, delay, callback, false, s.now));
    }
  }

  lemma ApplyConserved(s: Schedule, op: Op)
    requires Conserved(s)
    ensures Conserved(Apply(s, op)) && Apply(s, op).log == s.log
  {
    ApplyKeepsLog(s, op);
    match op {
      case Add(id, delay, callback) =>
        AddConserved(s, id, delay, callback);
      case Refresh(id) =>
        RefreshSerials(s, id);
        SameSerials(s, Apply(s, op));
      case Cancel(id) =>
        CancelSerials(s, id);
        SameSerials(s, Apply(s, op));
    }
  }

  lemma {:induction false} ApplyAllConserved(s: Schedule, ops: seq<Op>)
    requires Conserved(s)
    ensures Conserved(ApplyAll(s, ops)) && ApplyAll(s, ops).log == s.log
    decreases |ops|
  {
    if ops != [] {
      ApplyConserved(s, ops[0]);
      ApplyAllConserved(Apply(s, ops[0]), ops[1..]);
    }
  }

  lemma LeaveConserved(s: Schedule, k: nat)
    requires Conserved(s) && k < |s.pending|
    ensures Conserved(Leave(s, k))
  {
    SerialsWithout(s.pending, k);
    assert Departed(Leave(s, k).log) == Departed(s.log) + [s.pending[k].serial];
  }

  lemma {:induction false} DrainConserved(s: Schedule)
    requires Conserved(s)
    ensures Conserved(Drain(s))
    decreases DueCount(s.pending, s.now)
  {
    var k := FirstDue(s.pending, s.now);
    if k < |s.pending| {
      LeaveConserved(s, k);
      ApplyAllConserved(Leave(s, k), s.pending[k].callback);
      ExpireShrinksDue(s, k);
      DrainConserved(Expire(s, k));
    }
  }

  lemma {:induction false} RunConserved(cs: seq<Command>)
    ensures Conserved(PerformAll(cs))
  {
    if cs == [] {
      assert Serials([]) == [] && Departed([]) == [];
    } else {
      var before := cs[..|cs| - 1];
      RunConserved(before);
      match cs[|cs| - 1]
      case Do(op) => ApplyConserved(PerformAll(before), op);
      case Elapse => DrainConserved(PerformAll(before));
    }
  }

  /** In every run, for every task ever made: it is pending and its deadline, at most 359 calls
      after its last add or refresh, has not passed; or it has left, once, on exactly the call of
      its deadline, and its callback was run on that call unless it had been cancelled. */
  lemma EveryTaskAccounted(cs: seq<Command>, serial: nat)
    requires serial < PerformAll(cs).next
    ensures var s := PerformAll(cs);
      && (exists k :: 0 <= k < |s.pending| && s.pending[k].serial == serial && OnTime(s.pending[k], s.now))
         != (exists i :: 0 <= i < |s.log| && s.log[i].entry.serial == serial && Punctual(s.log[i]))
      && (forall i, j :: 0 <= i < j < |s.log| && s.log[i].entry.serial == serial ==> s.log[j].entry.serial != serial)
  {
    var s := PerformAll(cs);
    RunTimely(cs);
    RunConserved(cs);
    var p, d := Serials(s.pending), Departed(s.log);
    assert (multiset(p) + multiset(d))[serial] == 1;
    assert (exists k :: 0 <= k < |p| && p[k] == serial) <==> multiset(p)[serial] > 0;
    assert (exists i :: 0 <= i < |d| && d[i] == serial) <==> multiset(d)[serial] > 0;
    forall i, j | 0 <= i < j < |d| && d[i] == serial
      ensures d[j] != serial
    {
      if d[j] == serial {
        TwiceInBag(d, i, j);
      }
    }
  }

  lemma TwiceInBag(d: seq<nat>, i: nat, j: nat)
    requires i < j < |d| && d[i] == d[j]
    ensures multiset(d)[d[i]] >= 2
  {
    assert d == d[..i] + [d[i]] + d[i + 1..j] + [d[j]] + d[j + 1..];
  }

  /** Between two times nothing but a refresh of its id moves a task's deadline. */
  lemma OnlyRefreshRearms(s: Schedule, op: Op, k: nat)
    requires k < |s.pending| && Conserved(s)
    requires op.Refresh? ==> op.id !in s.index || s.index[op.id] != s.pending[k].serial
    ensures var e, after := s.pending[k], Apply(s, op);
      exists j :: 0 <= j < |after.pending| && after.pending[j].serial == e.serial
                  && after.pending[j].Deadline() == e.Deadline()
                  && after.pending[j].(cancelled := e.cancelled) == e
  {
    var e, after := s.pending[k], Apply(s, op);
    match op
    case Add(id, delay, callback) => assert after.pending[k] == e;
    case Refresh(id) =>
      if id in s.index && Position(s.pending, s.index[id]) < |s.pending| {
        var p := Position(s.pending, s.index[id]);
        assert after.pending[if k < p then k else k - 1] == e;
      } else {
        assert after.pending[k] == e;
      }
    case Cancel(id) => assert after.pending[k].(cancelled := e.cancelled) == e;
  }

  // ---- a cancelled task stays cancelled ----

  /** This task is cancelled wherever it is pending, and did not run its callback. */
  ghost predicate Silent(s: Schedule, serial: nat) {
    && serial < s.next
    && (forall k :: 0 <= k < |s.pending| && s.pending[k].serial == serial ==> s.pending[k].cancelled)
    && (forall i :: 0 <= i < |s.log| && s.log[i].entry.serial == serial ==> s.log[i].Dropped?)
  }

  lemma ApplySilent(s: Schedule, op: Op, serial: nat)
    requires Silent(s, serial)
    ensures Silent(Apply(s, op), serial)
  {
  }

  lemma {:induction false} ApplyAllSilent(s: Schedule, ops: seq<Op>, serial: nat)
    requires Silent(s, serial)
    ensures Silent(ApplyAll(s, ops), serial)
    decreases |ops|
  {
    if ops != [] {
      ApplySilent(s, ops[0], serial);
      ApplyAllSilent(Apply(s, ops[0]), ops[1..], serial);
    }
  }

  lemma {:induction false} DrainSilent(s: Schedule, serial: nat)
    requires Silent(s, serial)
    ensures Silent(Drain(s), serial)
    decreases DueCount(s.pending, s.now)
  {
    var k := FirstDue(s.pending, s.now);
    if k < |s.pending| {
      ApplyAllSilent(Leave(s, k), s.pending[k].callback, serial);
      ExpireShrinksDue(s, k);
      DrainSilent(Expire(s, k), serial);
    }
  }

  lemma {:induction false} RunSilent(cs: seq<Command>, more: seq<Command>, serial: nat)
    requires Silent(PerformAll(cs), serial)
    ensures Silent(PerformAll(cs + more), serial)
    decreases |more|
  {
    if more == [] {
      assert cs + more == cs;
    } else {
      var init, c := more[..|more| - 1], more[|more| - 1];
      RunSilent(cs, init, serial);
      assert (cs + more)[..|cs + more| - 1] == cs + init;
      match c
      case Do(op) => ApplySilent(PerformAll(cs + init), op, serial);
      case Elapse => DrainSilent(PerformAll(cs + init), serial);
    }
  }

  lemma PendingAlone(s: Schedule, k: nat)
    requires Conserved(s) && k < |s.pending|
    ensures s.pending[k].serial < s.next
    ensures forall j :: 0 <= j < |s.pending| && s.pending[j].serial == s.pending[k].serial ==> j == k
    ensures forall i :: 0 <= i < |s.log| ==> s.log[i].entry.serial != s.pending[k].serial
  {
    var p, d, serial := Serials(s.pending), Departed(s.log), s.pending[k].serial;
    assert (multiset(p) + multiset(d))[serial] == UpTo(s.next)[serial];
    assert p[k] in p;
    forall j | 0 <= j < |p| && p[j] == serial
      ensures j == k
    {
      if j < k {
        TwiceInBag(p, j, k);
      } else if k < j {
        TwiceInBag(p, k, j);
      }
    }
    forall i | 0 <= i < |d|
      ensures d[i] != serial
    {
      assert d[i] in multiset(d);
    }
  }

  /** Cancelling is final: whatever is called afterwards - a refresh through
      EnableInactiveReleaseInLoop included, which only moves the deadline - the callback of a
      cancelled task is never run. */
  lemma CancelIsSticky(cs: seq<Command>, more: seq<Command>, k: nat)
    requires k < |PerformAll(cs).pending| && PerformAll(cs).pending[k].cancelled
    ensures var serial, s := PerformAll(cs).pending[k].serial, PerformAll(cs + more);
      && (forall j :: 0 <= j < |s.pending| && s.pending[j].serial == serial ==> s.pending[j].cancelled)
      && (forall i :: 0 <= i < |s.log| && s.log[i].entry.serial == serial ==> s.log[i].Dropped?)
  {
    RunConserved(cs);
    PendingAlone(PerformAll(cs), k);
    RunSilent(cs, more, PerformAll(cs).pending[k].serial);
  }

  // ---- the index ----

  /** Some pending task has this id and this serial number. */
  ghost predicate IsPending(s: Schedule, id: TimerId, serial: nat) {
    exists k :: 0 <= k < |s.pending| && s.pending[k].id == id && s.pending[k].serial == serial
  }

  /** The index leads from the id of each pending task to that task, and from no other id
      except those of tasks whose destructor is running. */
  ghost predicate IndexExact(s: Schedule, dying: set<TimerId>) {
    && (forall k :: 0 <= k < |s.pending| ==>
          s.pending[k].id in s.index && s.index[s.pending[k].id] == s.pending[k].serial)
    && (forall id :: id in s.index && id !in dying ==> IsPending(s, id, s.index[id]))
    && (forall k :: 0 <= k < |s.pending| ==> s.pending[k].id !in dying && s.pending[k].serial < s.next)
  }

  /** An add of an id that is neither in use nor being destroyed. */
  predicate Fresh(s: Schedule, op: Op, dying: set<TimerId>) {
    op.Add? && 0 < op.delay < CAPACITY ==> op.id !in s.index && op.id !in dying
  }

  lemma PendingAt(s: Schedule, k: nat)
    requires k < |s.pending|
    ensures IsPending(s, s.pending[k].id, s.pending[k].serial)
  {
  }

  /** Taking an id over is exactly what makes the index wrong. */
  lemma AddKeepsIndex(s: Schedule, id: TimerId, delay: nat, callback: seq<Op>)
    requires IndexExact(s, {})
    ensures IndexExact(AddTask(s, id, delay, callback), {}) <==> (id !in s.index || delay == 0 || delay >= CAPACITY)
  {
    var t := AddTask(s, id, delay, callback);
    if 0 < delay < CAPACITY {
      PendingAt(t, |s.pending|);
      if id in s.index {
        var k :| 0 <= k < |s.pending| && s.pending[k].id == id && s.pending[k].serial == s.index[id];
        assert t.pending[k] == s.pending[k];
      } else {
        FreshAddKeepsIndex(s, id, delay, callback, {});
      }
    }
  }

  lemma FreshAddKeepsIndex(s: Schedule, id: TimerId, delay: nat, callback: seq<Op>, dying: set<TimerId>)
    requires IndexExact(s, dying) && Fresh(s, Add(id, delay, callback), dying)
    ensures IndexExact(AddTask(s, id, delay, callback), dying)
  {
    var t := AddTask(s, id, delay, callback);
    if 0 < delay < CAPACITY {
      PendingAt(t, |s.pending|);
      forall i | i in s.index && i !in dying
        ensures IsPending(t, i, s.index[i])
      {
        var k :| 0 <= k < |s.pending| && s.pending[k].id == i && s.pending[k].serial == s.index[i];
        assert t.pending[k] == s.pending[k];
      }
    }
  }

  lemma RefreshKeepsIndex(s: Schedule, id: TimerId, dying: set<TimerId>)
    requires IndexExact(s, dying)
    ensures IndexExact(RefreshTask(s, id), dying)
  {
    var t := RefreshTask(s, id);
    forall i | i in t.index && i !in dying ensures IsPending(t, i, s.index[i]) {
      RefreshKeepsPending(s, id, i, s.index[i]);
    }
  }

  lemma RefreshKeepsPending(s: Schedule, id: TimerId, i: TimerId, serial: nat)
    requires IsPending(s, i, serial)
    ensures IsPending(RefreshTask(s, id), i, serial)
  {
    if id in s.index {
      var p := Position(s.pending, s.index[id]);
      var k :| 0 <= k < |s.pending| && s.pending[k].id == i && s.pending[k].serial == serial;
      var j := if p == |s.pending| || k < p then k else if k == p then |s.pending| - 1 else k - 1;
      PendingAt(RefreshTask(s, id), j);
    }
  }

  lemma CancelKeepsIndex(s: Schedule, id: TimerId, dying: set<TimerId>)
    requires IndexExact(s, dying)
    ensures IndexExact(CancelTask(s, id), dying)
  {
    var t := CancelTask(s, id);
    forall i | i in s.index && i !in dying
      ensures IsPending(t, i, s.index[i])
    {
      var k :| 0 <= k < |s.pending| && s.pending[k].id == i && s.pending[k].serial == s.index[i];
      PendingAt(t, k);
    }
  }

  lemma ApplyKeepsIndex(s: Schedule, op: Op, dying: set<TimerId>)
    requires IndexExact(s, dying) && Fresh(s, op, dying)
    ensures IndexExact(Apply(s, op), dying)
  {
    match op
    case Add(id, delay, callback) => FreshAddKeepsIndex(s, id, delay, callback, dying);
    case Refresh(id) => RefreshKeepsIndex(s, id, dying);
    case Cancel(id) => CancelKeepsIndex(s, id, dying);
  }

  predicate AllFresh(s: Schedule, ops: seq<Op>, dying: set<TimerId>)
    decreases |ops|
  {
    ops == [] || (Fresh(s, ops[0], dying) && AllFresh(Apply(s, ops[0]), ops[1..], dying))
  }

  lemma {:induction false} ApplyAllKeepsIndex(s: Schedule, ops: seq<Op>, dying: set<TimerId>)
    requires IndexExact(s, dying) && AllFresh(s, ops, dying)
    ensures IndexExact(ApplyAll(s, ops), dying)
    decreases |ops|
  {
    if ops != [] {
      ApplyKeepsIndex(s, ops[0], dying);
      ApplyAllKeepsIndex(Apply(s, ops[0]), ops[1..], dying);
    }
  }

  lemma SerialsDiffer(s: Schedule, j: nat, k: nat)
    requires Conserved(s) && j < |s.pending| && k < |s.pending| && j != k
    ensures s.pending[j].serial != s.pending[k].serial
  {
    var all, i := Serials(s.pending), if j < k then j else k;
    assert UpTo(s.next)[all[i]] <= 1;
    assert (multiset(all) + multiset(Departed(s.log)))[all[i]] <= 1;
    if all[j] == all[k] {
      TwiceInBag(all, i, if j < k then k else j);
    }
  }

  lemma LeaveKeepsIndex(s: Schedule, k: nat)
    requires IndexExact(s, {}) && k < |s.pending| && Conserved(s)
    ensures IndexExact(Leave(s, k), {s.pending[k].id})
  {
    var t, d := Leave(s, k), s.pending[k].id;
    forall i | i in s.index && i != d
      ensures IsPending(t, i, s.index[i])
    {
      var p :| 0 <= p < |s.pending| && s.pending[p].id == i && s.pending[p].serial == s.index[i];
      PendingAt(t, if p < k then p else p - 1);
    }
    forall j | 0 <= j < |t.pending|
      ensures t.pending[j].id != d
    {
      SerialsDiffer(s, if j < k then j else j + 1, k);
    }
  }

  lemma ReleaseKeepsIndex(s: Schedule, d: TimerId)
    requires IndexExact(s, {d})
    ensures IndexExact(s.(index := s.index - {d}), {})
  {
    var t := s.(index := s.index - {d});
    forall i | i in t.index
      ensures IsPending(t, i, t.index[i])
    {
      assert IsPending(s, i, s.index[i]);
    }
  }

  /** Every add made by the callbacks of one call of RunTimerTask is fresh. */
  predicate FreshDrain(s: Schedule)
    decreases DueCount(s.pending, s.now)
  {
    var k := FirstDue(s.pending, s.now);
    if k == |s.pending| then true else
      ExpireShrinksDue(s, k);
      var e := s.pending[k];
      (e.cancelled || AllFresh(Leave(s, k), e.callback, {e.id})) && FreshDrain(Expire(s, k))
  }

  lemma FreshExpireKeepsIndex(s: Schedule, k: nat)
    requires IndexExact(s, {}) && Conserved(s) && k < |s.pending|
    requires s.pending[k].cancelled || AllFresh(Leave(s, k), s.pending[k].callback, {s.pending[k].id})
    ensures IndexExact(Expire(s, k), {}) && Conserved(Expire(s, k))
  {
    var e := s.pending[k];
    LeaveKeepsIndex(s, k);
    LeaveConserved(s, k);
    if e.cancelled {
      ReleaseKeepsIndex(Leave(s, k), e.id);
    } else {
      ApplyAllKeepsIndex(Leave(s, k), e.callback, {e.id});
      ApplyAllConserved(Leave(s, k), e.callback);
      ReleaseKeepsIndex(ApplyAll(Leave(s, k), e.callback), e.id);
    }
  }

  lemma {:induction false} DrainKeepsIndex(s: Schedule)
    requires IndexExact(s, {}) && FreshDrain(s) && Conserved(s)
    ensures IndexExact(Drain(s), {})
    decreases DueCount(s.pending, s.now)
  {
    var k := FirstDue(s.pending, s.now);
    if k < |s.pending| {
      ExpireShrinksDue(s, k);
      FreshExpireKeepsIndex(s, k);
      DrainKeepsIndex(Expire(s, k));
    }
  }

  predicate FreshRun(cs: seq<Command>) {
    cs == [] ||
    (var s := PerformAll(cs[..|cs| - 1]);
     FreshRun(cs[..|cs| - 1])
     && match cs[|cs| - 1]
        case Do(op) => Fresh(s, op, {})
        case Elapse => FreshDrain(s))
  }

  /** When no add takes an id over, HasTimer(id) holds between calls exactly for the ids of pending
      tasks, cancelled or not: so an id is forgotten on the call of its task's deadline. */
  lemma {:induction false} RunKeepsIndex(cs: seq<Command>)
    requires FreshRun(cs)
    ensures IndexExact(PerformAll(cs), {})
  {
    if cs != [] {
      var before := cs[..|cs| - 1];
      RunKeepsIndex(before);
      RunConserved(before);
      match cs[|cs| - 1]
      case Do(op) => ApplyKeepsIndex(PerformAll(before), op, {});
      case Elapse =>
        DrainKeepsIndex(PerformAll(before));
        ExactAnyTime(Drain(PerformAll(before)), PerformAll(before).now + 1);
    }
  }

  lemma ExactAnyTime(s: Schedule, now: nat)
    ensures IndexExact(s.(now := now), {}) <==> IndexExact(s, {})
  {
    var t := s.(now := now);
    forall id, serial ensures IsPending(t, id, serial) <==> IsPending(s, id, serial) {
    }
  }

  // ---- an add that is not fresh ----

  /** A pending task with this id and serial number that is not due now. */
  ghost predicate Lasts(s: Schedule, x: TimerId, n: nat) {
    exists k :: 0 <= k < |s.pending| && s.pending[k].id == x && s.pending[k].serial == n && s.pending[k].Deadline() != s.now
  }

  /** The index does not lead to that task, is about to lose it, or another task shares its id. */
  ghost predicate Clashes(s: Schedule, dying: set<TimerId>, x: TimerId, n: nat) {
    && n < s.next && Lasts(s, x, n)
    && (x in dying || x !in s.index || s.index[x] != n || exists o :: o != n && IsPending(s, x, o))
  }

  lemma ClashIsInexact(s: Schedule, x: TimerId, n: nat)
    requires Clashes(s, {}, x, n)
    ensures !IndexExact(s, {})
  {
    var k :| 0 <= k < |s.pending| && s.pending[k].id == x && s.pending[k].serial == n;
    if o :| o != n && IsPending(s, x, o) {
      var j :| 0 <= j < |s.pending| && s.pending[j].id == x && s.pending[j].serial == o;
    }
  }

  /** The same tasks are pending, under whatever deadlines, and none becomes due. */
  ghost predicate Carries(s: Schedule, t: Schedule) {
    && t.now == s.now && s.next <= t.next
    && (forall k :: 0 <= k < |s.pending| ==> IsPending(t, s.pending[k].id, s.pending[k].serial))
    && (forall k :: 0 <= k < |s.pending| && s.pending[k].Deadline() != s.now ==>
          Lasts(t, s.pending[k].id, s.pending[k].serial))
  }

  lemma AddCarries(s: Schedule, id: TimerId, delay: nat, callback: seq<Op>)
    ensures Carries(s, AddTask(s, id, delay, callback))
  {
    var t := AddTask(s, id, delay, callback);
    forall k | 0 <= k < |s.pending|
      ensures IsPending(t, s.pending[k].id, s.pending[k].serial)
      ensures s.pending[k].Deadline() != s.now ==> Lasts(t, s.pending[k].id, s.pending[k].serial)
    {
      assert t.pending[k] == s.pending[k];
    }
  }

  lemma RefreshCarries(s: Schedule, id: TimerId)
    ensures Carries(s, RefreshTask(s, id))
  {
    var t := RefreshTask(s, id);
    if id in s.index {
      var p := Position(s.pending, s.index[id]);
      forall k | 0 <= k < |s.pending|
        ensures IsPending(t, s.pending[k].id, s.pending[k].serial)
        ensures s.pending[k].Deadline() != s.now ==> Lasts(t, s.pending[k].id, s.pending[k].serial)
      {
        var j := if p == |s.pending| || k < p then k else if k == p then |s.pending| - 1 else k - 1;
        PendingAt(t, j);
      }
    }
  }

  lemma CancelCarries(s: Schedule, id: TimerId)
    ensures Carries(s, CancelTask(s, id))
  {
    var t := CancelTask(s, id);
    forall k | 0 <= k < |s.pending|
      ensures IsPending(t, s.pending[k].id, s.pending[k].serial)
      ensures s.pending[k].Deadline() != s.now ==> Lasts(t, s.pending[k].id, s.pending[k].serial)
    {
      PendingAt(t, k);
    }
  }

  /** No call repairs the index while the task is pending. */
  lemma ApplyClashes(s: Schedule, op: Op, dying: set<TimerId>, x: TimerId, n: nat)
    requires Clashes(s, dying, x, n)
    ensures Clashes(Apply(s, op), dying, x, n)
  {
    var t := Apply(s, op);
    match op {
      case Add(id, delay, callback) => AddCarries(s, id, delay, callback);
      case Refresh(id) => RefreshCarries(s, id);
      case Cancel(id) => CancelCarries(s, id);
    }
    if o :| o != n && IsPending(s, x, o) {
      assert IsPending(t, x, o);
    }
  }

  lemma {:induction false} ApplyAllClashes(s: Schedule, ops: seq<Op>, dying: set<TimerId>, x: TimerId, n: nat)
    requires Clashes(s, dying, x, n)
    ensures Clashes(ApplyAll(s, ops), dying, x, n)
    decreases |ops|
  {
    if ops != [] {
      ApplyClashes(s, ops[0], dying, x, n);
      ApplyAllClashes(Apply(s, ops[0]), ops[1..], dying, x, n);
    }
  }

  /** The task that leaves was due, so the other one stays; and if it had the same id, its destructor
      erases the entry. */
  lemma ExpireClashes(s: Schedule, k: nat, x: TimerId, n: nat)
    requires Clashes(s, {}, x, n) && k < |s.pending| && s.pending[k].Deadline() == s.now
    ensures Clashes(Expire(s, k), {}, x, n)
  {
    var t, e := Leave(s, k), s.pending[k];
    var j :| 0 <= j < |s.pending| && s.pending[j].id == x && s.pending[j].serial == n && s.pending[j].Deadline() != s.now;
    assert t.pending[if j < k then j else j - 1] == s.pending[j];
    if o :| o != n && IsPending(s, x, o) {
      var i :| 0 <= i < |s.pending| && s.pending[i].id == x && s.pending[i].serial == o;
      if i != k {
        PendingAt(t, if i < k then i else i - 1);
      }
    }
    assert Clashes(t, {e.id}, x, n);
    var u := if e.cancelled then t else ApplyAll(t, e.callback);
    if !e.cancelled {
      ApplyAllClashes(t, e.callback, {e.id}, x, n);
    }
    assert Clashes(u, {e.id}, x, n);
    EntryErased(u, e.id, x, n);
  }

  lemma EntryErased(u: Schedule, d: TimerId, x: TimerId, n: nat)
    requires Clashes(u, {d}, x, n)
    ensures Clashes(u.(index := u.index - {d}), {}, x, n)
  {
    var t := u.(index := u.index - {d});
    assert Lasts(t, x, n);
    if o :| o != n && IsPending(u, x, o) {
      assert IsPending(t, x, o);
    }
  }

  lemma {:induction false} DrainClashes(s: Schedule, x: TimerId, n: nat)
    requires Clashes(s, {}, x, n)
    ensures Clashes(Drain(s), {}, x, n)
    decreases DueCount(s.pending, s.now)
  {
    var k := FirstDue(s.pending, s.now);
    if k < |s.pending| {
      ExpireShrinksDue(s, k);
      ExpireClashes(s, k, x, n);
      DrainClashes(Expire(s, k), x, n);
    }
  }

  /** An id that is in use, or being destroyed, now has a second task. */
  lemma StaleAddClashes(s: Schedule, op: Op, dying: set<TimerId>)
    requires IndexExact(s, dying) && !Fresh(s, op, dying)
    ensures Clashes(Apply(s, op), dying, op.id, s.next)
  {
    var t := Apply(s, op);
    assert t.pending[|s.pending|].Deadline() != t.now;
    assert Lasts(t, op.id, s.next);
    if op.id !in dying {
      var k :| 0 <= k < |s.pending| && s.pending[k].id == op.id && s.pending[k].serial == s.index[op.id];
      AddCarries(s, op.id, op.delay, op.callback);
      assert IsPending(t, op.id, s.pending[k].serial);
    }
  }

  lemma {:induction false} StaleCallbackClashes(s: Schedule, ops: seq<Op>, dying: set<TimerId>) returns (x: TimerId, n: nat)
    requires IndexExact(s, dying) && !AllFresh(s, ops, dying)
    ensures Clashes(ApplyAll(s, ops), dying, x, n)
    decreases |ops|
  {
    if Fresh(s, ops[0], dying) {
      ApplyKeepsIndex(s, ops[0], dying);
      x, n := StaleCallbackClashes(Apply(s, ops[0]), ops[1..], dying);
    } else {
      x, n := ops[0].id, s.next;
      StaleAddClashes(s, ops[0], dying);
      ApplyAllClashes(Apply(s, ops[0]), ops[1..], dying, x, n);
    }
  }

  /** Of the callbacks of one call of RunTimerTask, the first that takes an id over. */
  lemma {:induction false} StaleDrainClashes(s: Schedule) returns (x: TimerId, n: nat)
    requires IndexExact(s, {}) && Conserved(s) && !FreshDrain(s)
    ensures Clashes(Drain(s), {}, x, n)
    decreases DueCount(s.pending, s.now)
  {
    var k := FirstDue(s.pending, s.now);
    var e := s.pending[k];
    ExpireShrinksDue(s, k);
    LeaveKeepsIndex(s, k);
    LeaveConserved(s, k);
    if !e.cancelled && !AllFresh(Leave(s, k), e.callback, {e.id}) {
      x, n := StaleCallbackClashes(Leave(s, k), e.callback, {e.id});
      EntryErased(ApplyAll(Leave(s, k), e.callback), e.id, x, n);
      DrainClashes(Expire(s, k), x, n);
    } else {
      FreshExpireKeepsIndex(s, k);
      x, n := StaleDrainClashes(Expire(s, k));
    }
  }

  ghost predicate ExactAfter(cs: seq<Command>, n: nat) {
    n <= |cs| ==> IndexExact(PerformAll(cs[..n]), {})
  }

  ghost predicate AlwaysExact(cs: seq<Command>) {
    forall n: nat :: ExactAfter(cs, n)
  }

  lemma ExactPrefix(cs: seq<Command>, n: nat)
    requires n < |cs|
    ensures ExactAfter(cs, n) <==> ExactAfter(cs[..|cs| - 1], n)
  {
    assert cs[..|cs| - 1][..n] == cs[..n];
  }

  lemma AlwaysExactSnoc(cs: seq<Command>)
    requires cs != []
    ensures AlwaysExact(cs) <==> AlwaysExact(cs[..|cs| - 1]) && IndexExact(PerformAll(cs), {})
  {
    var before := cs[..|cs| - 1];
    assert cs[..|cs|] == cs;
    assert ExactAfter(cs, |cs|) <==> IndexExact(PerformAll(cs), {});
    forall n: nat | n < |cs| ensures ExactAfter(cs, n) <==> ExactAfter(before, n) {
      ExactPrefix(cs, n);
    }
    if AlwaysExact(cs) {
      forall n: nat ensures ExactAfter(before, n) {
        assert ExactAfter(cs, n);
      }
    }
  }

  /** An add takes an id over exactly when the index is wrong after it, whether it is made between two
      calls of RunTimerTask or by a callback in the middle of one: the index stays exact all along if
      and only if every add is fresh. */
  lemma {:induction false} ExactMeansFresh(cs: seq<Command>)
    ensures AlwaysExact(cs) <==> FreshRun(cs)
  {
    if cs == [] {
      RunKeepsIndex(cs);
      assert forall n: nat :: n <= |cs| ==> cs[..n] == cs;
    } else {
      ExactMeansFresh(cs[..|cs| - 1]);
      AlwaysExactSnoc(cs);
      if FreshRun(cs[..|cs| - 1]) {
        LastMeansFresh(cs);
      }
    }
  }

  lemma LastMeansFresh(cs: seq<Command>)
    requires cs != [] && FreshRun(cs[..|cs| - 1])
    ensures IndexExact(PerformAll(cs), {}) <==> FreshRun(cs)
  {
    var s := PerformAll(cs[..|cs| - 1]);
    RunKeepsIndex(cs[..|cs| - 1]);
    RunConserved(cs[..|cs| - 1]);
    if FreshRun(cs) {
      RunKeepsIndex(cs);
    } else {
      match cs[|cs| - 1]
      case Do(op) =>
        StaleAddClashes(s, op, {});
        ClashIsInexact(Apply(s, op), op.id, s.next);
      case Elapse =>
        var x, n := StaleDrainClashes(s);
        ClashIsInexact(Drain(s), x, n);
        ExactAnyTime(Drain(s), s.now + 1);
    }
  }

  // ---- what the calls bring about ----

  /** An exact index leads a call to the task of the id. */
  lemma IndexLeads(s: Schedule, k: nat)
    requires IndexExact(s, {}) && Conserved(s) && k < |s.pending|
    ensures s.pending[k].id in s.index && Position(s.pending, s.index[s.pending[k].id]) == k
  {
    var p := Position(s.pending, s.pending[k].serial);
    if p != k {
      SerialsDiffer(s, p, k);
    }
  }

  /** A cancel marks the task of its id, and changes nothing else. */
  lemma CancelMarks(s: Schedule, k: nat)
    requires IndexExact(s, {}) && Conserved(s) && k < |s.pending|
    ensures var t := CancelTask(s, s.pending[k].id);
      && |t.pending| == |s.pending| && t.pending[k] == s.pending[k].(cancelled := true)
      && (forall j :: 0 <= j < |s.pending| && j != k ==> t.pending[j] == s.pending[j])
      && t.(pending := []) == s.(pending := [])
  {
    IndexLeads(s, k);
  }

  /** A refresh moves the deadline of the task of its id to its delay from now, and puts it last. */
  lemma RefreshRearms(s: Schedule, k: nat)
    requires IndexExact(s, {}) && Conserved(s) && k < |s.pending|
    ensures var t := RefreshTask(s, s.pending[k].id);
      && |t.pending| == |s.pending| && t.pending[|s.pending| - 1] == s.pending[k].(armed := s.now)
      && (forall j :: 0 <= j < k ==> t.pending[j] == s.pending[j])
      && (forall j :: k < j < |s.pending| ==> t.pending[j - 1] == s.pending[j])
      && t.(pending := []) == s.(pending := [])
  {
    IndexLeads(s, k);
  }

  /** After any run with fresh ids, a cancelled task is dropped whatever is called later: its
      callback, which it still has at the cancel, is never run. */
  lemma CancelledNeverRuns(cs: seq<Command>, id: TimerId, k: nat, more: seq<Command>)
    requires FreshRun(cs) && k < |PerformAll(cs).pending| && PerformAll(cs).pending[k].id == id
    ensures var serial, s := PerformAll(cs).pending[k].serial, PerformAll(cs + [Do(Cancel(id))] + more);
      forall i :: 0 <= i < |s.log| && s.log[i].entry.serial == serial ==> s.log[i].Dropped?
  {
    var cancelled := cs + [Do(Cancel(id))];
    RunKeepsIndex(cs);
    RunConserved(cs);
    CancelMarks(PerformAll(cs), k);
    assert cancelled[..|cancelled| - 1] == cs;
    CancelIsSticky(cancelled, more, k);
  }

  /** A refreshed task is due its delay after the refresh, and not before. */
  lemma RefreshedIsDue(cs: seq<Command>, id: TimerId, k: nat)
    requires FreshRun(cs) && k < |PerformAll(cs).pending| && PerformAll(cs).pending[k].id == id
    ensures var s, t := PerformAll(cs), PerformAll(cs + [Do(Refresh(id))]); var e := t.pending[|t.pending| - 1];
      t.now == s.now && e.serial == s.pending[k].serial && e.callback == s.pending[k].callback
      && e.cancelled == s.pending[k].cancelled && e.Deadline() == s.now + s.pending[k].delay
  {
    var refreshed := cs + [Do(Refresh(id))];
    RunKeepsIndex(cs);
    RunConserved(cs);
    RefreshRearms(PerformAll(cs), k);
    assert refreshed[..|refreshed| - 1] == cs;
  }

  /** An added task is due its delay after the add, with its callback, and can be found by its id. */
  lemma AddedIsDue(cs: seq<Command>, id: TimerId, delay: nat, callback: seq<Op>)
    requires 0 < delay < CAPACITY
    ensures var s, t := PerformAll(cs), PerformAll(cs + [Do(Add(id, delay, callback))]);
      && |t.pending| == |s.pending| + 1 && t.pending[..|s.pending|] == s.pending && t.next == s.next + 1
      && (var e := t.pending[|s.pending|];
          e.id == id && e.callback == callback && !e.cancelled && e.Deadline() == s.now + delay
          && id in t.index && t.index[id] == e.serial)
  {
    var added := cs + [Do(Add(id, delay, callback))];
    assert added[..|added| - 1] == cs;
  }

  /** The calls of RunTimerTask. */
  function Calls(cs: seq<Command>): nat {
    if cs == [] then 0 else Calls(cs[..|cs| - 1]) + (if cs[|cs| - 1].Elapse? then 1 else 0)
  }

  lemma {:induction false} DrainTakesNoTime(s: Schedule)
    ensures Drain(s).now == s.now
    decreases DueCount(s.pending, s.now)
  {
    var k := FirstDue(s.pending, s.now);
    if k < |s.pending| {
      ExpireShrinksDue(s, k);
      DrainTakesNoTime(Expire(s, k));
    }
  }

  /** The time of a run is the number of these calls, whatever else is called. */
  lemma {:induction false} TimeIsCalls(cs: seq<Command>)
    ensures PerformAll(cs).now == Calls(cs)
  {
    if cs != [] {
      TimeIsCalls(cs[..|cs| - 1]);
      if cs[|cs| - 1].Do? {
        ApplyMakesNoneDue(PerformAll(cs[..|cs| - 1]), cs[|cs| - 1].op);
      } else {
        DrainTakesNoTime(PerformAll(cs[..|cs| - 1]));
      }
    }
  }

  /** So many calls of RunTimerTask in a row. */
  function Elapsing(n: nat): seq<Command> {
    if n == 0 then [] else Elapsing(n - 1) + [Elapse]
  }

  lemma {:induction false} TicksSnoc(s: Schedule, n: nat)
    ensures Ticks(s, n + 1) == Tick(Ticks(s, n))
    decreases n
  {
    if n > 0 {
      TicksSnoc(Tick(s), n - 1);
    }
  }

  /** Catching up with n expirations of the timer is n calls. */
  lemma {:induction false} CatchingUp(cs: seq<Command>, n: nat)
    ensures Ticks(PerformAll(cs), n) == PerformAll(cs + Elapsing(n))
    ensures Ticks(PerformAll(cs), n).now == PerformAll(cs).now + n
    decreases n
  {
    if n == 0 {
      assert cs + Elapsing(0) == cs;
    } else {
      CatchingUp(cs, n - 1);
      TicksSnoc(PerformAll(cs), n - 1);
      ElapseMore(cs, n);
    }
  }

  lemma ElapseMore(cs: seq<Command>, n: nat)
    requires n > 0
    ensures PerformAll(cs + Elapsing(n)) == Tick(PerformAll(cs + Elapsing(n - 1)))
  {
    var before, all := cs + Elapsing(n - 1), cs + Elapsing(n);
    assert all == before + [Elapse];
    PerformSnoc(before, Elapse);
  }

  lemma PerformSnoc(before: seq<Command>, c: Command)
    ensures PerformAll(before + [c]) == Perform(PerformAll(before), c)
  {
    assert (before + [c])[..|before|] == before;
  }

  /** A refresh that finds an expired entry erases it: the id is no longer found. */
  lemma StaleRefresh(s: Schedule, id: TimerId)
    requires id in s.index && forall k :: 0 <= k < |s.pending| ==> s.pending[k].serial != s.index[id]
    ensures RefreshTask(s, id) == s.(index := s.index - {id})
  {
  }

  /** The tasks that a callback makes. */
  function Makes(ops: seq<Op>): nat
    decreases |ops|
  {
    if ops == [] then 0
    else (if ops[0].Add? && 0 < ops[0].delay < CAPACITY then 1 else 0) + Makes(ops[1..])
  }

  lemma {:induction false} ApplyAllMakes(s: Schedule, ops: seq<Op>)
    ensures ApplyAll(s, ops).next == s.next + Makes(ops) && ApplyAll(s, ops).log == s.log
    decreases |ops|
  {
    if ops != [] {
      ApplyAllMakes(Apply(s, ops[0]), ops[1..]);
    }
  }

  /** The calls of a callback are made one after the other. */
  lemma {:induction false} ApplyAllAppend(s: Schedule, ops: seq<Op>, more: seq<Op>)
    ensures ApplyAll(s, ops + more) == ApplyAll(ApplyAll(s, ops), more)
    decreases |ops|
  {
    if ops == [] {
      assert ops + more == more;
    } else {
      ApplyAllAppend(Apply(s, ops[0]), ops[1..], more);
      assert (ops + more)[1..] == ops[1..] + more;
    }
  }

  /** A task that expires makes all the tasks of its callback, unless it was cancelled; it is recorded
      so, and its id is no longer found. */
  lemma ExpireMeaning(s: Schedule, k: nat)
    requires k < |s.pending|
    ensures var e, t := s.pending[k], Expire(s, k);
      && t.next == s.next + (if e.cancelled then 0 else Makes(e.callback))
      && e.id !in t.index
      && |t.log| == |s.log| + 1 && t.log[..|s.log|] == s.log && t.log[|s.log|].entry == e
      && t.log[|s.log|].at == s.now && (t.log[|s.log|].Fired? <==> !e.cancelled)
  {
    var e := s.pending[k];
    ApplyAllMakes(Leave(s, k), e.callback);
  }

  lemma HasTimerMeaning(cs: seq<Command>, id: TimerId)
    requires FreshRun(cs)
    ensures var s := PerformAll(cs);
      id in s.index <==> exists k :: 0 <= k < |s.pending| && s.pending[k].id == id && OnTime(s.pending[k], s.now)
  {
    RunKeepsIndex(cs);
    RunTimely(cs);
    var s := PerformAll(cs);
    if id in s.index {
      assert IsPending(s, id, s.index[id]);
    }
  }

  /** Without freshness it fails: the second add takes id 1 over, the first task's destructor then
      erases the entry, and HasTimer(1) is false while the second task is still pending. */
  lemma TakenOverId()
    ensures var s := PerformAll([Do(Add(1, 1, [])), Do(Add(1, 2, [])), Elapse, Elapse]);
      1 !in s.index && |s.pending| == 1 && s.pending[0].id == 1 && OnTime(s.pending[0], s.now)
  {
    var c1, c2, c3, c4 := Do(Add(1, 1, [])), Do(Add(1, 2, [])), Elapse, Elapse;
    assert [c1, c2, c3, c4][..3] == [c1, c2, c3];
    assert [c1, c2, c3][..2] == [c1, c2];
    assert [c1, c2][..1] == [c1];
    assert [c1][..0] == [];
    var e1, e2 := Entry(0, 1, 1, [], false, 0), Entry(1, 1, 2, [], false, 0);
    var s1, s2 := PerformAll([c1]), PerformAll([c1, c2]);
    assert s1 == Perform(PerformAll([]), c1);
    assert s1 == Schedule(0, [e1], map[1 := 0], 1, []);
    assert s2 == AddTask(s1, 1, 2, []);
    assert s2 == Schedule(0, [e1, e2], map[1 := 1], 2, []);
    assert FirstDue([e1, e2], 0) == 2 && FirstDue([e2], 0) == 1 && FirstDue([e2], 1) == 1;
    var s3 := PerformAll([c1, c2, c3]);
    assert s3 == s2.(now := 1);
    assert FirstDue([e1, e2], 1) == 0;
    assert Without([e1, e2], 0) == [e2];
    assert Drain(Expire(s3, 0)) == Expire(s3, 0);
  }
}
