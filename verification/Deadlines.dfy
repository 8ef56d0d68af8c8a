/** What a timing wheel is for: a list of tasks with deadlines.  Time is the number of calls of
    RunTimerTask so far; the call made at time t runs the tasks whose deadline is t. */
module Deadlines {
  const CAPACITY: nat := 360

  type Delay = d: nat | 1 <= d < CAPACITY witness 1
  type TimerId = nat

  /** What a callback does to the wheel it runs on, in one particular run: the calls it makes on it,
      each added task with the calls its own callback will make. */
  datatype Op =
    | Add(id: TimerId, delay: nat, callback: seq<Op>)
    | Refresh(id: TimerId)
    | Cancel(id: TimerId)

  /** A task in the list; `armed` is the time of its last add or refresh. */
  datatype Entry = Entry(serial: nat, id: TimerId, delay: Delay, callback: seq<Op>, cancelled: bool, armed: nat) {
    function Deadline(): nat {
      armed + delay
    }
  }

  /** A task has left the list at some time, with or without its callback being run. */
  datatype Record = Fired(entry: Entry, at: nat) | Dropped(entry: Entry, at: nat)

  /** The pending tasks in the order of their last add or refresh; the index from ids to the
      serial numbers of tasks; the number of tasks ever made; and what has left so far. */
  datatype Schedule = Schedule(now: nat, pending: seq<Entry>, index: map<TimerId, nat>, next: nat, log: seq<Record>)

  function EmptySchedule(): Schedule {
    Schedule(0, [], map[], 0, [])
  }

  // ---- the operations ----

  /** The position of the task with this serial number, or the length. */
  function Position(pending: seq<Entry>, serial: nat): (k: nat)
    ensures k <= |pending|
    ensures k < |pending| ==> pending[k].serial == serial
    ensures k == |pending| ==> forall j :: 0 <= j < |pending| ==> pending[j].serial != serial
  {
    if pending == [] then 0
    else if pending[0].serial == serial then 0
    else 1 + Position(pending[1..], serial)
  }

  function Without(pending: seq<Entry>, k: nat): (r: seq<Entry>)
    requires k < |pending|
    ensures |r| == |pending| - 1
    ensures forall j :: 0 <= j < |r| ==> r[j] == pending[if j < k then j else j + 1]
  {
    pending[..k] + pending[k + 1..]
  }

  /** TimerAddInLoop: a delay out of range is refused, an id in use is taken over. */
  function AddTask(s: Schedule, id: TimerId, delay: nat, callback: seq<Op>): Schedule {
    if delay == 0 || delay >= CAPACITY then s
    else s.(pending := s.pending + [Entry(s.next, id, delay, callback, false, s.now)],
            index := s.index[id := s.next], next := s.next + 1)
  }

  /** TimerRefleshInLoop: an index entry whose task is gone is erased. */
  function RefreshTask(s: Schedule, id: TimerId): Schedule {
    if id !in s.index then s
    else
      var k := Position(s.pending, s.index[id]);
      if k == |s.pending| then s.(index := s.index - {id})
      else s.(pending := Without(s.pending, k) + [s.pending[k].(armed := s.now)])
  }

  /** TimerCancelInLoop. */
  function CancelTask(s: Schedule, id: TimerId): Schedule {
    if id !in s.index then s
    else
      var k := Position(s.pending, s.index[id]);
      if k == |s.pending| then s
      else s.(pending := s.pending[k := s.pending[k].(cancelled := true)])
  }

  function Apply(s: Schedule, op: Op): Schedule {
    match op
    case Add(id, delay, callback) => AddTask(s, id, delay, callback)
    case Refresh(id) => RefreshTask(s, id)
    case Cancel(id) => CancelTask(s, id)
  }

  function ApplyAll(s: Schedule, ops: seq<Op>): Schedule
    decreases |ops|
  {
    if ops == [] then s else ApplyAll(Apply(s, ops[0]), ops[1..])
  }

  /** The first task that is due now, or the length. */
  function FirstDue(pending: seq<Entry>, now: nat): (k: nat)
    ensures k <= |pending|
    ensures k < |pending| ==> pending[k].Deadline() == now
    ensures forall j :: 0 <= j < k ==> pending[j].Deadline() != now
  {
    if pending == [] then 0
    else if pending[0].Deadline() == now then 0
    else 1 + FirstDue(pending[1..], now)
  }

  function Leave(s: Schedule, k: nat): Schedule
    requires k < |s.pending|
  {
    var e := s.pending[k];
    s.(pending := Without(s.pending, k), log := s.log + [if e.cancelled then Dropped(e, s.now) else Fired(e, s.now)])
  }

  /** The destructor of a task: its callback unless it was cancelled, then its index entry. */
  function Expire(s: Schedule, k: nat): Schedule
    requires k < |s.pending|
  {
    var e := s.pending[k];
    var after := if e.cancelled then Leave(s, k) else ApplyAll(Leave(s, k), e.callback);
    after.(index := after.index - {e.id})
  }

  function DueCount(pending: seq<Entry>, now: nat): nat {
    if pending == [] then 0
    else DueCount(pending[..|pending| - 1], now) + (if pending[|pending| - 1].Deadline() == now then 1 else 0)
  }

  lemma {:induction false} DueCountWithout(pending: seq<Entry>, k: nat, now: nat)
    requires k < |pending|
    ensures DueCount(pending, now)
         == DueCount(Without(pending, k), now) + (if pending[k].Deadline() == now then 1 else 0)
  {
    var n := |pending| - 1;
    if k == n {
      assert Without(pending, k) == pending[..n];
    } else {
      DueCountWithout(pending[..n], k, now);
      assert Without(pending, k)[..n - 1] == Without(pending[..n], k);
    }
  }

  lemma {:induction false} DueCountPush(pending: seq<Entry>, e: Entry, now: nat)
    ensures DueCount(pending + [e], now) == DueCount(pending, now) + (if e.Deadline() == now then 1 else 0)
  {
    assert (pending + [e])[..|pending|] == pending;
  }

  lemma {:induction false} DueCountReplace(pending: seq<Entry>, k: nat, e: Entry, now: nat)
    requires k < |pending| && e.Deadline() == pending[k].Deadline()
    ensures DueCount(pending[k := e], now) == DueCount(pending, now)
  {
    var n := |pending| - 1;
    if k < n {
      DueCountReplace(pending[..n], k, e, now);
      assert pending[k := e][..n] == pending[..n][k := e];
    } else {
      assert pending[k := e][..n] == pending[..n];
    }
  }

  /** No operation makes a task due at once, because no delay is zero. */
  lemma ApplyMakesNoneDue(s: Schedule, op: Op)
    ensures Apply(s, op).now == s.now
    ensures DueCount(Apply(s, op).pending, s.now) <= DueCount(s.pending, s.now)
  {
    match op
    case Add(id, delay, callback) =>
      if 0 < delay < CAPACITY {
        DueCountPush(s.pending, Entry(s.next, id, delay, callback, false, s.now), s.now);
      }
    case Refresh(id) =>
      if id in s.index && Position(s.pending, s.index[id]) < |s.pending| {
        var k := Position(s.pending, s.index[id]);
        DueCountWithout(s.pending, k, s.now);
        DueCountPush(Without(s.pending, k), s.pending[k].(armed := s.now), s.now);
      }
    case Cancel(id) =>
      if id in s.index && Position(s.pending, s.index[id]) < |s.pending| {
        var k := Position(s.pending, s.index[id]);
        DueCountReplace(s.pending, k, s.pending[k].(cancelled := true), s.now);
      }
  }

  lemma {:induction false} ApplyAllMakesNoneDue(s: Schedule, ops: seq<Op>)
    ensures ApplyAll(s, ops).now == s.now
    ensures DueCount(ApplyAll(s, ops).pending, s.now) <= DueCount(s.pending, s.now)
    decreases |ops|
  {
    if ops != [] {
      ApplyMakesNoneDue(s, ops[0]);
      ApplyAllMakesNoneDue(Apply(s, ops[0]), ops[1..]);
    }
  }

  lemma ExpireShrinksDue(s: Schedule, k: nat)
    requires k < |s.pending| && s.pending[k].Deadline() == s.now
    ensures Expire(s, k).now == s.now
    ensures DueCount(Expire(s, k).pending, s.now) < DueCount(s.pending, s.now)
  {
    DueCountWithout(s.pending, k, s.now);
    ApplyAllMakesNoneDue(Leave(s, k), s.pending[k].callback);
  }

  /** Lets every task that is due leave, in list order. */
  function Drain(s: Schedule): Schedule
    decreases DueCount(s.pending, s.now)
  {
    var k := FirstDue(s.pending, s.now);
    if k == |s.pending| then s else
      ExpireShrinksDue(s, k);
      Drain(Expire(s, k))
  }

  /** One call of RunTimerTask. */
  function Tick(s: Schedule): Schedule {
    Drain(s).(now := s.now + 1)
  }

  function Ticks(s: Schedule, n: nat): Schedule
    decreases n
  {
    if n == 0 then s else Ticks(Tick(s), n - 1)
  }
}
