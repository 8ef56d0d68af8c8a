/** include/Timer.hpp, the storage of the timing wheel: 360 slots of shared references to tasks. */
module WheelSlots {
  import opened Deadlines

  /** The identity of a TimerTask object; objects are numbered in the order of their creation. */
  type Handle = nat

  /** A live TimerTask object with its shared_ptr count. */
  datatype TimerTask = TimerTask(id: TimerId, timeout: Delay, cancel: bool, callback: seq<Op>, refs: nat)

  type Slots = w: seq<seq<Handle>> | |w| == CAPACITY witness seq(CAPACITY, _ => [])

  // ---- reference counts ----

  /** All the references a list of slots holds. */
  function References(wheel: seq<seq<Handle>>): multiset<Handle> {
    if wheel == [] then multiset{} else References(wheel[..|wheel| - 1]) + multiset(wheel[|wheel| - 1])
  }

  lemma BagShuffle(a: multiset<Handle>, b: multiset<Handle>, x: multiset<Handle>, y: multiset<Handle>,
                   c: multiset<Handle>)
    requires a + x == b + y
    ensures (a + c) + x == (b + c) + y
  {
    forall h: Handle
      ensures ((a + c) + x)[h] == ((b + c) + y)[h]
    {
      assert (a + x)[h] == (b + y)[h];
    }
  }

  lemma {:induction false} ReferencesUpdate(wheel: seq<seq<Handle>>, p: nat, slot: seq<Handle>)
    requires p < |wheel|
    ensures References(wheel[p := slot]) + multiset(wheel[p]) == References(wheel) + multiset(slot)
  {
    var n, w := |wheel| - 1, wheel[p := slot];
    if p < n {
      ReferencesUpdate(wheel[..n], p, slot);
      assert w[..n] == wheel[..n][p := slot] && w[n] == wheel[n] && wheel[..n][p] == wheel[p];
      BagShuffle(References(w[..n]), References(wheel[..n]), multiset(wheel[p]), multiset(slot), multiset(w[n]));
    } else {
      assert w[..n] == wheel[..n];
      BagSwap(References(wheel[..n]), multiset(slot), multiset(wheel[p]));
    }
  }

  lemma BagSwap(a: multiset<Handle>, x: multiset<Handle>, y: multiset<Handle>)
    ensures a + x + y == a + y + x
  {
  }

  lemma BagCancel(a: multiset<Handle>, b: multiset<Handle>, x: multiset<Handle>, y: multiset<Handle>)
    requires a + (x + y) == b + x
    ensures a + y == b
  {
    forall h: Handle
      ensures (a + y)[h] == b[h]
    {
      assert (a + (x + y))[h] == (b + x)[h];
    }
  }

  lemma {:induction false} ReferencedIsHeld(wheel: seq<seq<Handle>>, h: Handle)
    ensures h in References(wheel) <==> exists s :: 0 <= s < |wheel| && h in wheel[s]
  {
    if wheel != [] {
      var n := |wheel| - 1;
      ReferencedIsHeld(wheel[..n], h);
      assert h in multiset(wheel[n]) <==> h in wheel[n];
      assert forall s :: 0 <= s < n ==> wheel[..n][s] == wheel[s];
    }
  }

  /** push_back of a shared_ptr. */
  function Pushed(wheel: Slots, p: nat, h: Handle): Slots
    requires p < CAPACITY
  {
    wheel[p := wheel[p] + [h]]
  }

  /** The first reference of a slot is given up. */
  function Popped(wheel: Slots, p: nat): Slots
    requires p < CAPACITY && wheel[p] != []
  {
    wheel[p := wheel[p][1..]]
  }

  lemma PushedReferences(wheel: Slots, p: nat, h: Handle)
    requires p < CAPACITY
    ensures References(Pushed(wheel, p, h)) == References(wheel) + multiset{h}
  {
    var slot := wheel[p];
    ReferencesUpdate(wheel, p, slot + [h]);
    assert multiset(slot + [h]) == multiset(slot) + multiset{h};
    BagCancel(References(wheel), References(Pushed(wheel, p, h)), multiset(slot), multiset{h});
  }

  lemma PoppedReferences(wheel: Slots, p: nat)
    requires p < CAPACITY && wheel[p] != []
    ensures References(Popped(wheel, p)) + multiset{wheel[p][0]} == References(wheel)
  {
    var slot := wheel[p];
    ReferencesUpdate(wheel, p, slot[1..]);
    assert slot == [slot[0]] + slot[1..];
    assert multiset(slot) == multiset(slot[1..]) + multiset{slot[0]};
    BagCancel(References(Popped(wheel, p)), References(wheel), multiset(slot[1..]), multiset{slot[0]});
  }

  // ---- slots and times ----

  function SlotOf(time: nat): (slot: nat)
    ensures slot < CAPACITY
  {
    time % CAPACITY
  }

  /** The time of the next call that clears a slot. */
  function ClearTime(slot: nat, now: nat): nat
    requires slot < CAPACITY
  {
    now + (slot + CAPACITY - SlotOf(now)) % CAPACITY
  }

  lemma ClearTimeOfSlot(now: nat, d: nat)
    requires d < CAPACITY
    ensures ClearTime(SlotOf(now + d), now) == now + d
    ensures SlotOf(now + d) == (d + SlotOf(now)) % CAPACITY
  {
    var q, r := now / CAPACITY, now % CAPACITY;
    assert now + d == CAPACITY * q + (r + d);
    if r + d < CAPACITY {
      assert SlotOf(now + d) == r + d;
    } else {
      assert now + d == CAPACITY * (q + 1) + (r + d - CAPACITY);
      assert SlotOf(now + d) == r + d - CAPACITY;
    }
  }

  lemma NextSlot(now: nat)
    ensures SlotOf(now + 1) == (SlotOf(now) + 1) % CAPACITY
  {
    ClearTimeOfSlot(now, 1);
  }

  lemma ClearTimeBounds(slot: nat, now: nat)
    requires slot < CAPACITY
    ensures now <= ClearTime(slot, now) < now + CAPACITY
    ensures ClearTime(slot, now) == now <==> slot == SlotOf(now)
  {
  }

  lemma ClearTimeNext(slot: nat, now: nat)
    requires slot < CAPACITY
    ensures slot != SlotOf(now) ==> ClearTime(slot, now + 1) == ClearTime(slot, now)
  {
    NextSlot(now);
  }

  /** Within the next 360 calls, a deadline other than this call's has another slot. */
  lemma DeadlineSlot(e: Entry, now: nat)
    requires e.armed <= now <= e.Deadline()
    ensures SlotOf(e.Deadline()) == SlotOf(now) <==> e.Deadline() == now
    ensures ClearTime(SlotOf(e.Deadline()), now) == e.Deadline()
  {
    var d := e.Deadline() - now;
    ClearTimeOfSlot(now, d);
    ClearTimeBounds(SlotOf(e.Deadline()), now);
  }
}

/** How the wheel mirrors a list of deadlines.  The parts are stated through small predicates, one
    for each task or pair of tasks. */
module WheelMirror {
  import opened Deadlines
  import opened WheelSlots

  function TaskOf(e: Entry, refs: nat): TimerTask {
    TimerTask(e.id, e.delay, e.cancelled, e.callback, refs)
  }

  ghost predicate HasSerial(pending: seq<Entry>, h: Handle) {
    exists k :: 0 <= k < |pending| && pending[k].serial == h
  }

  ghost predicate LiveAs(refs: multiset<Handle>, tasks: map<Handle, TimerTask>, e: Entry) {
    e.serial in tasks && tasks[e.serial] == TaskOf(e, refs[e.serial])
  }

  ghost predicate LiveAt(refs: multiset<Handle>, tasks: map<Handle, TimerTask>, pending: seq<Entry>, k: nat)
    requires k < |pending|
  {
    LiveAs(refs, tasks, pending[k])
  }

  /** Live objects and pending tasks are the same, and each count is the number of references. */
  ghost predicate Counted(refs: multiset<Handle>, tasks: map<Handle, TimerTask>, pending: seq<Entry>) {
    && (forall k: nat :: k < |pending| ==> LiveAt(refs, tasks, pending, k))
    && (forall h :: h in tasks ==> HasSerial(pending, h))
    && (forall h :: h in refs ==> h in tasks)
  }

  ghost predicate Differ(pending: seq<Entry>, j: nat, k: nat)
    requires j < |pending| && k < |pending|
  {
    pending[j].serial != pending[k].serial
  }

  ghost predicate Distinct(pending: seq<Entry>) {
    forall j: nat, k: nat :: j < k < |pending| ==> Differ(pending, j, k)
  }

  ghost predicate AllBelow(pending: seq<Entry>, next: nat) {
    forall k :: 0 <= k < |pending| ==> pending[k].serial < next
  }

  /** Not overdue, and referenced from the slot of its deadline. */
  ghost predicate InItsSlot(wheel: Slots, e: Entry, now: nat) {
    e.armed <= now <= e.Deadline() && e.serial in wheel[SlotOf(e.Deadline())]
  }

  /** Not referenced from a slot that is cleared after its deadline. */
  ghost predicate NotBeyond(wheel: Slots, e: Entry, now: nat, p: nat)
    requires p < CAPACITY
  {
    e.serial in wheel[p] ==> ClearTime(p, now) <= e.Deadline()
  }

  ghost predicate PlacedAt(wheel: Slots, e: Entry, now: nat) {
    InItsSlot(wheel, e, now) && forall p: nat :: p < CAPACITY ==> NotBeyond(wheel, e, now, p)
  }

  ghost predicate PlacedIn(wheel: Slots, pending: seq<Entry>, now: nat, k: nat)
    requires k < |pending|
  {
    PlacedAt(wheel, pending[k], now)
  }

  ghost predicate Placed(wheel: Slots, pending: seq<Entry>, now: nat) {
    forall k: nat :: k < |pending| ==> PlacedIn(wheel, pending, now, k)
  }

  /** Some reference to `b` has no reference to `a` behind it. */
  ghost predicate LeavesBefore(slot: seq<Handle>, a: Handle, b: Handle) {
    exists i :: 0 <= i < |slot| && slot[i] == b && a !in slot[i..]
  }

  ghost predicate InOrder(wheel: Slots, a: Entry, b: Entry) {
    a.Deadline() == b.Deadline() ==> LeavesBefore(wheel[SlotOf(b.Deadline())], a.serial, b.serial)
  }

  ghost predicate OrderAt(wheel: Slots, pending: seq<Entry>, j: nat, k: nat)
    requires j < |pending| && k < |pending|
  {
    InOrder(wheel, pending[j], pending[k])
  }

  /** Tasks with the same deadline lose their last references in list order. */
  ghost predicate Ordered(wheel: Slots, pending: seq<Entry>) {
    forall j: nat, k: nat :: j < k < |pending| ==> OrderAt(wheel, pending, j, k)
  }

  ghost predicate Mirrors(wheel: Slots, tasks: map<Handle, TimerTask>, s: Schedule) {
    && Distinct(s.pending) && AllBelow(s.pending, s.next)
    && Counted(References(wheel), tasks, s.pending)
    && Placed(wheel, s.pending, s.now)
    && Ordered(wheel, s.pending)
  }

  // ---- the list without one task ----

  lemma WithoutDistinct(pending: seq<Entry>, k: nat)
    requires Distinct(pending) && k < |pending|
    ensures Distinct(Without(pending, k))
    ensures forall j :: 0 <= j < |pending| - 1 ==> Without(pending, k)[j].serial != pending[k].serial
  {
    var r := Without(pending, k);
    forall i: nat, j: nat | i < j < |r|
      ensures Differ(r, i, j)
    {
      assert Differ(pending, if i < k then i else i + 1, if j < k then j else j + 1);
    }
    forall j: nat | j < |r|
      ensures r[j].serial != pending[k].serial
    {
      if j < k {
        assert Differ(pending, j, k);
      } else {
        assert Differ(pending, k, j + 1);
      }
    }
  }

  lemma WithoutPlaced(wheel: Slots, pending: seq<Entry>, k: nat, now: nat)
    requires k < |pending| && Placed(wheel, pending, now)
    ensures Placed(wheel, Without(pending, k), now)
  {
    var r := Without(pending, k);
    forall j: nat | j < |r|
      ensures PlacedIn(wheel, r, now, j)
    {
      assert PlacedIn(wheel, pending, now, if j < k then j else j + 1);
    }
  }

  lemma WithoutOrdered(wheel: Slots, pending: seq<Entry>, k: nat)
    requires k < |pending| && Ordered(wheel, pending)
    ensures Ordered(wheel, Without(pending, k))
  {
    var r := Without(pending, k);
    forall i: nat, j: nat | i < j < |r|
      ensures OrderAt(wheel, r, i, j)
    {
      assert OrderAt(wheel, pending, if i < k then i else i + 1, if j < k then j else j + 1);
    }
  }

  lemma SerialAt(pending: seq<Entry>, k: nat, h: Handle)
    requires k < |pending| && pending[k].serial == h
    ensures HasSerial(pending, h)
  {
  }

  // ---- pushing a reference: the task goes to the end of the list, armed now ----

  lemma PushDistinct(rest: seq<Entry>, e: Entry)
    requires Distinct(rest)
    requires forall k :: 0 <= k < |rest| ==> rest[k].serial != e.serial
    ensures Distinct(rest + [e])
  {
    forall j: nat, k: nat | j < k < |rest + [e]|
      ensures Differ(rest + [e], j, k)
    {
      if k < |rest| {
        assert Differ(rest, j, k);
      }
    }
  }

  lemma PushPlacedOther(wheel: Slots, p: nat, h: Handle, f: Entry, now: nat)
    requires p < CAPACITY && PlacedAt(wheel, f, now) && f.serial != h
    ensures PlacedAt(Pushed(wheel, p, h), f, now)
  {
    forall q: nat | q < CAPACITY
      ensures NotBeyond(Pushed(wheel, p, h), f, now, q)
    {
      assert NotBeyond(wheel, f, now, q);
    }
  }

  lemma PushPlacedSelf(wheel: Slots, e: Entry, now: nat)
    requires e.armed == now
    requires forall p: nat :: p < CAPACITY ==> NotBeyond(wheel, e, now, p)
    ensures PlacedAt(Pushed(wheel, SlotOf(e.Deadline()), e.serial), e, now)
  {
    var d := SlotOf(e.Deadline());
    var w := Pushed(wheel, d, e.serial);
    assert w[d][|wheel[d]|] == e.serial;
    DeadlineSlot(e, now);
    forall p: nat | p < CAPACITY
      ensures NotBeyond(w, e, now, p)
    {
      assert NotBeyond(wheel, e, now, p);
    }
  }

  lemma PushPlaced(wheel: Slots, rest: seq<Entry>, e: Entry, now: nat)
    requires Placed(wheel, rest, now) && e.armed == now
    requires forall k :: 0 <= k < |rest| ==> rest[k].serial != e.serial
    requires forall p: nat :: p < CAPACITY ==> NotBeyond(wheel, e, now, p)
    ensures Placed(Pushed(wheel, SlotOf(e.Deadline()), e.serial), rest + [e], now)
  {
    var p, all := SlotOf(e.Deadline()), rest + [e];
    var w := Pushed(wheel, p, e.serial);
    forall k: nat | k < |all|
      ensures PlacedIn(w, all, now, k)
    {
      if k < |rest| {
        assert PlacedIn(wheel, rest, now, k);
        PushPlacedOther(wheel, p, e.serial, rest[k], now);
      } else {
        PushPlacedSelf(wheel, e, now);
      }
    }
  }

  lemma LeavesBeforePush(slot: seq<Handle>, a: Handle, b: Handle, c: Handle)
    requires LeavesBefore(slot, a, b) && c != a
    ensures LeavesBefore(slot + [c], a, b)
  {
    var i :| 0 <= i < |slot| && slot[i] == b && a !in slot[i..];
    assert (slot + [c])[i..] == slot[i..] + [c];
  }

  lemma LeavesBeforeLast(slot: seq<Handle>, a: Handle, b: Handle)
    requires a != b
    ensures LeavesBefore(slot + [b], a, b)
  {
    assert (slot + [b])[|slot|..] == [b];
  }

  lemma PushOrderedOthers(wheel: Slots, p: nat, h: Handle, a: Entry, b: Entry)
    requires p < CAPACITY && InOrder(wheel, a, b) && a.serial != h
    ensures InOrder(Pushed(wheel, p, h), a, b)
  {
    var d := SlotOf(b.Deadline());
    if a.Deadline() == b.Deadline() && d == p {
      LeavesBeforePush(wheel[p], a.serial, b.serial, h);
    }
  }

  lemma PushOrdered(wheel: Slots, rest: seq<Entry>, e: Entry)
    requires Ordered(wheel, rest)
    requires forall k :: 0 <= k < |rest| ==> rest[k].serial != e.serial
    ensures Ordered(Pushed(wheel, SlotOf(e.Deadline()), e.serial), rest + [e])
  {
    var p, all := SlotOf(e.Deadline()), rest + [e];
    forall j: nat, k: nat | j < k < |all|
      ensures OrderAt(Pushed(wheel, p, e.serial), all, j, k)
    {
      if k < |rest| {
        assert OrderAt(wheel, rest, j, k);
        PushOrderedOthers(wheel, p, e.serial, rest[j], rest[k]);
      } else {
        LeavesBeforeLast(wheel[p], rest[j].serial, e.serial);
      }
    }
  }

  // ---- add ----

  lemma AddCounted(refs: multiset<Handle>, tasks: map<Handle, TimerTask>, pending: seq<Entry>, e: Entry)
    requires Counted(refs, tasks, pending) && e.serial !in tasks && e.serial !in refs
    ensures Counted(refs + multiset{e.serial}, tasks[e.serial := TaskOf(e, 1)], pending + [e])
  {
    var all, more, tasks' := pending + [e], refs + multiset{e.serial}, tasks[e.serial := TaskOf(e, 1)];
    SerialAt(all, |pending|, e.serial);
    forall h | h in tasks
      ensures HasSerial(all, h)
    {
      var k :| 0 <= k < |pending| && pending[k].serial == h;
      SerialAt(all, k, h);
    }
    forall k: nat | k < |all|
      ensures LiveAt(more, tasks', all, k)
    {
      if k < |pending| {
        assert LiveAt(refs, tasks, pending, k);
      }
    }
  }

  lemma NewIsUnreferenced(wheel: Slots, tasks: map<Handle, TimerTask>, pending: seq<Entry>, next: nat)
    requires Counted(References(wheel), tasks, pending) && AllBelow(pending, next)
    ensures next !in tasks && next !in References(wheel)
    ensures forall p :: 0 <= p < CAPACITY ==> next !in wheel[p]
  {
    forall h | h in tasks
      ensures h < next
    {
      assert HasSerial(pending, h);
    }
    ReferencedIsHeld(wheel, next);
  }

  /** The new task as an entry of the list. */
  lemma AddedEntry(s: Schedule, id: TimerId, delay: Delay, callback: seq<Op>) returns (e: Entry)
    ensures e == Entry(s.next, id, delay, callback, false, s.now)
    ensures var t := AddTask(s, id, delay, callback);
      t.pending == s.pending + [e] && t.now == s.now && t.next == s.next + 1
  {
    e := Entry(s.next, id, delay, callback, false, s.now);
  }

  lemma AddKeepsCount(wheel: Slots, tasks: map<Handle, TimerTask>, s: Schedule, e: Entry)
    requires Mirrors(wheel, tasks, s) && e.serial == s.next
    ensures Counted(References(Pushed(wheel, SlotOf(e.Deadline()), s.next)), tasks[s.next := TaskOf(e, 1)],
                    s.pending + [e])
  {
    NewIsUnreferenced(wheel, tasks, s.pending, s.next);
    AddCounted(References(wheel), tasks, s.pending, e);
    PushedReferences(wheel, SlotOf(e.Deadline()), s.next);
  }

  lemma AddKeepsPlaces(wheel: Slots, tasks: map<Handle, TimerTask>, s: Schedule, e: Entry)
    requires Mirrors(wheel, tasks, s) && e.serial == s.next && e.armed == s.now && 0 < e.delay < CAPACITY
    ensures var w := Pushed(wheel, SlotOf(e.Deadline()), s.next);
      Placed(w, s.pending + [e], s.now) && Ordered(w, s.pending + [e])
  {
    NewIsUnreferenced(wheel, tasks, s.pending, s.next);
    PushDistinct(s.pending, e);
    PushPlaced(wheel, s.pending, e, s.now);
    PushOrdered(wheel, s.pending, e);
  }

  lemma AddMirrors(wheel: Slots, tasks: map<Handle, TimerTask>, s: Schedule,
                   id: TimerId, delay: Delay, callback: seq<Op>)
    requires Mirrors(wheel, tasks, s)
    ensures Mirrors(Pushed(wheel, SlotOf(s.now + delay), s.next),
                    tasks[s.next := TimerTask(id, delay, false, callback, 1)], AddTask(s, id, delay, callback))
  {
    var e := AddedEntry(s, id, delay, callback);
    AddKeepsCount(wheel, tasks, s, e);
    AddKeepsPlaces(wheel, tasks, s, e);
    PushDistinct(s.pending, e);
  }

  // ---- refresh ----

  lemma RefreshCounted(refs: multiset<Handle>, tasks: map<Handle, TimerTask>, pending: seq<Entry>, k: nat, e: Entry)
    requires Counted(refs, tasks, pending) && Distinct(pending)
    requires k < |pending| && e == pending[k].(armed := e.armed)
    ensures Counted(refs + multiset{e.serial}, tasks[e.serial := TaskOf(e, refs[e.serial] + 1)],
                    Without(pending, k) + [e])
  {
    var more, tasks' := refs + multiset{e.serial}, tasks[e.serial := TaskOf(e, refs[e.serial] + 1)];
    var rest := Without(pending, k);
    var all := rest + [e];
    SerialAt(all, |rest|, e.serial);
    WithoutDistinct(pending, k);
    forall h | h in tasks
      ensures HasSerial(all, h)
    {
      var j :| 0 <= j < |pending| && pending[j].serial == h;
      if j != k {
        SerialAt(all, if j < k then j else j - 1, h);
      }
    }
    assert LiveAt(refs, tasks, pending, k);
    forall j: nat | j < |all|
      ensures LiveAt(more, tasks', all, j)
    {
      if j < |rest| {
        assert LiveAt(refs, tasks, pending, if j < k then j else j + 1);
        assert all[j] == rest[j];
      }
    }
  }

  /** Rearming moves the deadline later, so no reference is beyond it. */
  lemma RearmNotBeyond(wheel: Slots, e: Entry, now: nat)
    requires PlacedAt(wheel, e, now)
    ensures forall p: nat :: p < CAPACITY ==> NotBeyond(wheel, e.(armed := now), now, p)
  {
    forall p: nat | p < CAPACITY
      ensures NotBeyond(wheel, e.(armed := now), now, p)
    {
      assert NotBeyond(wheel, e, now, p);
    }
  }

  /** Moving a task to the end of the list, armed now, and pushing a reference to it. */
  lemma RearmPlacement(wheel: Slots, pending: seq<Entry>, k: nat, e: Entry, now: nat, pos: nat)
    requires Distinct(pending) && Placed(wheel, pending, now) && Ordered(wheel, pending)
    requires k < |pending| && e == pending[k].(armed := now) && pos == SlotOf(e.Deadline())
    ensures var all, w := Without(pending, k) + [e], Pushed(wheel, pos, e.serial);
      Distinct(all) && Placed(w, all, now) && Ordered(w, all)
  {
    var rest := Without(pending, k);
    WithoutDistinct(pending, k);
    WithoutPlaced(wheel, pending, k, now);
    WithoutOrdered(wheel, pending, k);
    assert PlacedIn(wheel, pending, now, k);
    RearmNotBeyond(wheel, pending[k], now);
    PushDistinct(rest, e);
    PushPlaced(wheel, rest, e, now);
    PushOrdered(wheel, rest, e);
  }

  lemma SlotAhead(now: nat, d: Delay, pos: nat)
    requires pos == (d + SlotOf(now)) % CAPACITY
    ensures pos == SlotOf(now + d) && pos != SlotOf(now)
  {
    ClearTimeOfSlot(now, d);
  }

  /** What the index leads to, seen from the objects and from the list. */
  lemma LiveEntry(wheel: Slots, tasks: map<Handle, TimerTask>, s: Schedule, pt: Handle)
    requires Mirrors(wheel, tasks, s) && pt in tasks
    ensures var k := Position(s.pending, pt);
      k < |s.pending| && s.pending[k].serial == pt && tasks[pt].timeout == s.pending[k].delay
  {
    LockMeaning(wheel, tasks, s, pt);
    assert LiveAt(References(wheel), tasks, s.pending, Position(s.pending, pt));
  }

  /** The refreshed task as an entry of the list. */
  lemma RefreshedEntry(s: Schedule, id: TimerId) returns (k: nat, e: Entry)
    requires id in s.index && Position(s.pending, s.index[id]) < |s.pending|
    ensures k == Position(s.pending, s.index[id]) && e == s.pending[k].(armed := s.now)
    ensures var t := RefreshTask(s, id);
      t.pending == Without(s.pending, k) + [e] && t.now == s.now && t.next == s.next
  {
    k := Position(s.pending, s.index[id]);
    e := s.pending[k].(armed := s.now);
  }

  lemma RefreshKeepsCount(wheel: Slots, tasks: map<Handle, TimerTask>, s: Schedule, k: nat, e: Entry, pos: nat)
    requires Mirrors(wheel, tasks, s) && k < |s.pending| && e == s.pending[k].(armed := s.now) && pos < CAPACITY
    ensures e.serial in tasks
    ensures Counted(References(Pushed(wheel, pos, e.serial)),
                    tasks[e.serial := tasks[e.serial].(refs := tasks[e.serial].refs + 1)],
                    Without(s.pending, k) + [e])
  {
    assert LiveAt(References(wheel), tasks, s.pending, k);
    RefreshCounted(References(wheel), tasks, s.pending, k, e);
    PushedReferences(wheel, pos, e.serial);
  }

  lemma WithoutBelow(pending: seq<Entry>, k: nat, e: Entry, next: nat)
    requires AllBelow(pending, next) && k < |pending| && e.serial < next
    ensures AllBelow(Without(pending, k) + [e], next)
  {
  }

  /** What TimerRefleshInLoop does with a live task. */
  lemma RefreshLive(wheel: Slots, tasks: map<Handle, TimerTask>, s: Schedule, id: TimerId, pt: Handle, pos: nat)
    requires Mirrors(wheel, tasks, s) && id in s.index && s.index[id] == pt && pt in tasks
    requires pos == (tasks[pt].timeout + SlotOf(s.now)) % CAPACITY
    ensures pos != SlotOf(s.now)
    ensures Mirrors(Pushed(wheel, pos, pt), tasks[pt := tasks[pt].(refs := tasks[pt].refs + 1)], RefreshTask(s, id))
  {
    LiveEntry(wheel, tasks, s, pt);
    var k, e := RefreshedEntry(s, id);
    SlotAhead(s.now, e.delay, pos);
    RefreshKeepsCount(wheel, tasks, s, k, e, pos);
    RearmPlacement(wheel, s.pending, k, e, s.now, pos);
    WithoutBelow(s.pending, k, e, s.next);
  }

  /** What TimerAddInLoop does with a delay in range. */
  lemma AddLive(wheel: Slots, tasks: map<Handle, TimerTask>, s: Schedule,
                id: TimerId, delay: Delay, callback: seq<Op>, pos: nat)
    requires Mirrors(wheel, tasks, s) && pos == (delay + SlotOf(s.now)) % CAPACITY
    ensures pos != SlotOf(s.now)
    ensures Mirrors(Pushed(wheel, pos, s.next), tasks[s.next := TimerTask(id, delay, false, callback, 1)],
                    AddTask(s, id, delay, callback))
  {
    SlotAhead(s.now, delay, pos);
    AddMirrors(wheel, tasks, s, id, delay, callback);
  }

  // ---- cancel ----

  lemma CancelCounted(refs: multiset<Handle>, tasks: map<Handle, TimerTask>, pending: seq<Entry>, k: nat)
    requires Counted(refs, tasks, pending) && Distinct(pending) && k < |pending|
    ensures var e := pending[k].(cancelled := true);
      Counted(refs, tasks[e.serial := TaskOf(e, refs[e.serial])], pending[k := e])
  {
    var e := pending[k].(cancelled := true);
    var all, tasks' := pending[k := e], tasks[e.serial := TaskOf(e, refs[e.serial])];
    forall h | h in tasks
      ensures HasSerial(all, h)
    {
      var j :| 0 <= j < |pending| && pending[j].serial == h;
      SerialAt(all, j, h);
    }
    assert LiveAt(refs, tasks, pending, k);
    forall j: nat | j < |all|
      ensures LiveAt(refs, tasks', all, j)
    {
      if j < k {
        assert LiveAt(refs, tasks, pending, j) && Differ(pending, j, k);
      } else if k < j {
        assert LiveAt(refs, tasks, pending, j) && Differ(pending, k, j);
      }
    }
  }

  lemma CancelMirrors(wheel: Slots, tasks: map<Handle, TimerTask>, s: Schedule, k: nat)
    requires Mirrors(wheel, tasks, s) && k < |s.pending|
    ensures var e := s.pending[k].(cancelled := true);
      && LiveAt(References(wheel), tasks, s.pending, k)
      && Mirrors(wheel, tasks[e.serial := tasks[e.serial].(cancel := true)], s.(pending := s.pending[k := e]))
  {
    var e := s.pending[k].(cancelled := true);
    var all := s.pending[k := e];
    CancelCounted(References(wheel), tasks, s.pending, k);
    assert PlacedIn(wheel, s.pending, s.now, k);
    assert PlacedAt(wheel, e, s.now) by {
      forall p: nat | p < CAPACITY
        ensures NotBeyond(wheel, e, s.now, p)
      {
        assert NotBeyond(wheel, s.pending[k], s.now, p);
      }
    }
    assert LiveAt(References(wheel), tasks, s.pending, k);
    forall j: nat | j < |all|
      ensures PlacedIn(wheel, all, s.now, j)
    {
      assert PlacedIn(wheel, s.pending, s.now, j);
    }
    forall i: nat, j: nat | i < j < |all|
      ensures Differ(all, i, j) && OrderAt(wheel, all, i, j)
    {
      assert Differ(s.pending, i, j) && OrderAt(wheel, s.pending, i, j);
    }
  }

  /** What the weak reference of the index locks to. */
  lemma LockMeaning(wheel: Slots, tasks: map<Handle, TimerTask>, s: Schedule, h: Handle)
    requires Mirrors(wheel, tasks, s)
    ensures h in tasks <==> Position(s.pending, h) < |s.pending|
  {
    var k := Position(s.pending, h);
    assert h in tasks ==> HasSerial(s.pending, h);
    if k < |s.pending| {
      assert LiveAt(References(wheel), tasks, s.pending, k);
    }
  }

  /** A live object has its references counted, and the slot of its deadline holds one. */
  lemma LiveIsReferenced(wheel: Slots, tasks: map<Handle, TimerTask>, s: Schedule, h: Handle)
    requires Mirrors(wheel, tasks, s) && h in tasks
    ensures References(wheel)[h] == tasks[h].refs > 0
  {
    var k := Position(s.pending, h);
    LockMeaning(wheel, tasks, s, h);
    assert LiveAt(References(wheel), tasks, s.pending, k) && PlacedIn(wheel, s.pending, s.now, k);
    ReferencedIsHeld(wheel, h);
  }

  // ---- clearing the current slot, reference by reference ----

  lemma FirstReferenceIsLive(wheel: Slots, tasks: map<Handle, TimerTask>, s: Schedule)
    requires Mirrors(wheel, tasks, s) && wheel[SlotOf(s.now)] != []
    ensures var h := wheel[SlotOf(s.now)][0];
      && h in tasks && tasks[h].refs > 0
      && Position(s.pending, h) < |s.pending|
      && tasks[h] == TaskOf(s.pending[Position(s.pending, h)], References(wheel)[h])
  {
    var h := wheel[SlotOf(s.now)][0];
    ReferencedIsHeld(wheel, h);
    LockMeaning(wheel, tasks, s, h);
    assert LiveAt(References(wheel), tasks, s.pending, Position(s.pending, h));
  }

  lemma PopNotBeyond(wheel: Slots, t: nat, e: Entry, now: nat)
    requires t < CAPACITY && wheel[t] != [] && PlacedAt(wheel, e, now)
    ensures forall p: nat :: p < CAPACITY ==> NotBeyond(Popped(wheel, t), e, now, p)
  {
    forall p: nat | p < CAPACITY
      ensures NotBeyond(Popped(wheel, t), e, now, p)
    {
      assert NotBeyond(wheel, e, now, p);
    }
  }

  /** Another task's reference is popped. */
  lemma PopPlacedOther(wheel: Slots, e: Entry, now: nat)
    requires wheel[SlotOf(now)] != [] && wheel[SlotOf(now)][0] != e.serial && PlacedAt(wheel, e, now)
    ensures PlacedAt(Popped(wheel, SlotOf(now)), e, now)
  {
    var slot := wheel[SlotOf(now)];
    assert slot == [slot[0]] + slot[1..];
    PopNotBeyond(wheel, SlotOf(now), e, now);
  }

  /** A task that keeps a reference is still in the slot of its deadline. */
  lemma PopPlacedSelf(wheel: Slots, e: Entry, now: nat, p: nat)
    requires wheel[SlotOf(now)] != [] && PlacedAt(wheel, e, now)
    requires p < CAPACITY && e.serial in Popped(wheel, SlotOf(now))[p]
    ensures PlacedAt(Popped(wheel, SlotOf(now)), e, now)
  {
    PopNotBeyond(wheel, SlotOf(now), e, now);
    DeadlineSlot(e, now);
    ClearTimeBounds(p, now);
    assert NotBeyond(Popped(wheel, SlotOf(now)), e, now, p);
  }

  lemma LeavesBeforePop(slot: seq<Handle>, a: Handle, b: Handle)
    requires slot != [] && LeavesBefore(slot, a, b) && a in slot[1..]
    ensures LeavesBefore(slot[1..], a, b)
  {
    var i :| 0 <= i < |slot| && slot[i] == b && a !in slot[i..];
    assert slot == [slot[0]] + slot[1..] && slot[0..] == slot;
    assert slot[i..] == slot[1..][i - 1..];
  }

  lemma PopOrderAt(wheel: Slots, t: nat, a: Entry, b: Entry, now: nat)
    requires t < CAPACITY && wheel[t] != [] && InOrder(wheel, a, b)
    requires InItsSlot(Popped(wheel, t), a, now)
    ensures InOrder(Popped(wheel, t), a, b)
  {
    if a.Deadline() == b.Deadline() && SlotOf(b.Deadline()) == t {
      LeavesBeforePop(wheel[t], a.serial, b.serial);
    }
  }

  lemma PopOrdered(wheel: Slots, pending: seq<Entry>, t: nat, now: nat)
    requires t < CAPACITY && wheel[t] != [] && Ordered(wheel, pending) && Placed(Popped(wheel, t), pending, now)
    ensures Ordered(Popped(wheel, t), pending)
  {
    forall j: nat, k: nat | j < k < |pending|
      ensures OrderAt(Popped(wheel, t), pending, j, k)
    {
      assert OrderAt(wheel, pending, j, k) && PlacedIn(Popped(wheel, t), pending, now, j);
      PopOrderAt(wheel, t, pending[j], pending[k], now);
    }
  }

  lemma PopPlaced(wheel: Slots, pending: seq<Entry>, now: nat, k: nat, p: nat)
    requires wheel[SlotOf(now)] != [] && Placed(wheel, pending, now) && Distinct(pending)
    requires k < |pending| && wheel[SlotOf(now)][0] == pending[k].serial
    requires p < CAPACITY && pending[k].serial in Popped(wheel, SlotOf(now))[p]
    ensures Placed(Popped(wheel, SlotOf(now)), pending, now)
  {
    forall j: nat | j < |pending|
      ensures PlacedIn(Popped(wheel, SlotOf(now)), pending, now, j)
    {
      assert PlacedIn(wheel, pending, now, j);
      if j == k {
        PopPlacedSelf(wheel, pending[k], now, p);
      } else {
        assert if j < k then Differ(pending, j, k) else Differ(pending, k, j);
        PopPlacedOther(wheel, pending[j], now);
      }
    }
  }

  lemma SharedCounted(refs: multiset<Handle>, fewer: multiset<Handle>, tasks: map<Handle, TimerTask>,
                      pending: seq<Entry>, h: Handle)
    requires Counted(refs, tasks, pending) && fewer + multiset{h} == refs && h in tasks && fewer[h] > 0
    ensures tasks[h].refs == fewer[h] + 1
    ensures Counted(fewer, tasks[h := tasks[h].(refs := fewer[h])], pending)
  {
    assert HasSerial(pending, h);
    var p :| 0 <= p < |pending| && pending[p].serial == h;
    assert LiveAt(refs, tasks, pending, p);
    var tasks' := tasks[h := tasks[h].(refs := fewer[h])];
    forall k: nat | k < |pending|
      ensures LiveAt(fewer, tasks', pending, k)
    {
      assert LiveAt(refs, tasks, pending, k);
    }
    forall g | g in fewer
      ensures g in tasks
    {
      assert g in refs;
    }
  }

  /** A reference that is not the last one: nothing changes but the count. */
  lemma DropShared(wheel: Slots, tasks: map<Handle, TimerTask>, s: Schedule)
    requires Mirrors(wheel, tasks, s) && wheel[SlotOf(s.now)] != []
    requires var h := wheel[SlotOf(s.now)][0]; h in tasks && tasks[h].refs > 1
    ensures var h := wheel[SlotOf(s.now)][0];
      Mirrors(Popped(wheel, SlotOf(s.now)), tasks[h := tasks[h].(refs := tasks[h].refs - 1)], s)
  {
    var t := SlotOf(s.now);
    var h, w := wheel[t][0], Popped(wheel, t);
    FirstReferenceIsLive(wheel, tasks, s);
    PoppedReferences(wheel, t);
    assert References(w)[h] + 1 == References(wheel)[h];
    SharedCounted(References(wheel), References(w), tasks, s.pending, h);
    ReferencedIsHeld(w, h);
    var p :| 0 <= p < CAPACITY && h in w[p];
    PopPlaced(wheel, s.pending, s.now, Position(s.pending, h), p);
    PopOrdered(wheel, s.pending, t, s.now);
  }

  lemma LastCounted(refs: multiset<Handle>, fewer: multiset<Handle>, tasks: map<Handle, TimerTask>,
                    pending: seq<Entry>, k: nat)
    requires Counted(refs, tasks, pending) && Distinct(pending) && k < |pending|
    requires fewer + multiset{pending[k].serial} == refs && fewer[pending[k].serial] == 0
    ensures Counted(fewer, tasks - {pending[k].serial}, Without(pending, k))
  {
    var h, rest := pending[k].serial, Without(pending, k);
    WithoutDistinct(pending, k);
    forall j: nat | j < |rest|
      ensures LiveAt(fewer, tasks - {h}, rest, j)
    {
      assert LiveAt(refs, tasks, pending, if j < k then j else j + 1);
    }
    forall g | g in tasks && g != h
      ensures HasSerial(rest, g)
    {
      var j :| 0 <= j < |pending| && pending[j].serial == g;
      SerialAt(rest, if j < k then j else j - 1, g);
    }
    forall g | g in fewer
      ensures g in tasks - {h}
    {
      assert g in refs;
    }
  }

  lemma OnlyFirst(slot: seq<Handle>, a: Handle, b: Handle)
    ensures slot != [] && b !in slot[1..] && LeavesBefore(slot, a, b) ==> a !in slot
  {
    if slot != [] && b !in slot[1..] && LeavesBefore(slot, a, b) {
      var i :| 0 <= i < |slot| && slot[i] == b && a !in slot[i..];
      assert slot == [slot[0]] + slot[1..] && slot[0..] == slot;
    }
  }

  /** A task without other references is due, and no task before it in the list is. */
  lemma LastIsFirstDue(wheel: Slots, pending: seq<Entry>, now: nat, k: nat)
    requires wheel[SlotOf(now)] != [] && Placed(wheel, pending, now) && Ordered(wheel, pending)
    requires k < |pending| && wheel[SlotOf(now)][0] == pending[k].serial
    requires forall p: nat :: p < CAPACITY ==> pending[k].serial !in Popped(wheel, SlotOf(now))[p]
    ensures FirstDue(pending, now) == k
  {
    var t := SlotOf(now);
    var slot, e := wheel[t], pending[k];
    assert PlacedIn(wheel, pending, now, k);
    DeadlineSlot(e, now);
    var d := SlotOf(e.Deadline());
    assert e.serial !in Popped(wheel, t)[d];
    assert d == t;
    forall j: nat | j < k
      ensures pending[j].Deadline() != now
    {
      assert OrderAt(wheel, pending, j, k) && PlacedIn(wheel, pending, now, j);
      OnlyFirst(slot, pending[j].serial, e.serial);
    }
  }

  /** The last reference: the object is gone, and with it the first task of the list that is due. */
  lemma DropLast(wheel: Slots, tasks: map<Handle, TimerTask>, s: Schedule)
    requires Mirrors(wheel, tasks, s) && wheel[SlotOf(s.now)] != []
    requires var h := wheel[SlotOf(s.now)][0]; h in tasks && tasks[h].refs == 1
    ensures var h, k := wheel[SlotOf(s.now)][0], FirstDue(s.pending, s.now);
      && k < |s.pending| && tasks[h] == TaskOf(s.pending[k], 1)
      && Mirrors(Popped(wheel, SlotOf(s.now)), tasks - {h}, Leave(s, k))
  {
    var t := SlotOf(s.now);
    var h, w := wheel[t][0], Popped(wheel, t);
    var k := Position(s.pending, h);
    FirstReferenceIsLive(wheel, tasks, s);
    PoppedReferences(wheel, t);
    assert References(w)[h] + 1 == References(wheel)[h];
    forall p: nat | p < CAPACITY
      ensures h !in w[p]
    {
      ReferencedIsHeld(w, h);
    }
    LastIsFirstDue(wheel, s.pending, s.now, k);
    LastCounted(References(wheel), References(w), tasks, s.pending, k);
    LastPlaced(wheel, s.pending, s.now, k);
    WithoutDistinct(s.pending, k);
    WithoutOrdered(wheel, s.pending, k);
    PopOrdered(wheel, Without(s.pending, k), t, s.now);
  }

  lemma LastPlaced(wheel: Slots, pending: seq<Entry>, now: nat, k: nat)
    requires wheel[SlotOf(now)] != [] && Placed(wheel, pending, now) && Distinct(pending)
    requires k < |pending| && wheel[SlotOf(now)][0] == pending[k].serial
    ensures Placed(Popped(wheel, SlotOf(now)), Without(pending, k), now)
  {
    var rest := Without(pending, k);
    WithoutDistinct(pending, k);
    WithoutPlaced(wheel, pending, k, now);
    forall j: nat | j < |rest|
      ensures PlacedIn(Popped(wheel, SlotOf(now)), rest, now, j)
    {
      assert PlacedIn(wheel, rest, now, j);
      PopPlacedOther(wheel, rest[j], now);
    }
  }

  lemma AdvancePlacedAt(wheel: Slots, e: Entry, now: nat)
    requires PlacedAt(wheel, e, now) && wheel[SlotOf(now)] == []
    ensures e.Deadline() != now && PlacedAt(wheel, e, now + 1)
  {
    DeadlineSlot(e, now);
    var next := now + 1;
    forall p: nat | p < CAPACITY
      ensures NotBeyond(wheel, e, next, p)
    {
      assert NotBeyond(wheel, e, now, p);
      ClearTimeNext(p, now);
    }
  }

  /** When the current slot is empty nothing is due any more, and the hand can move on. */
  lemma AdvanceMirrors(wheel: Slots, tasks: map<Handle, TimerTask>, s: Schedule)
    requires Mirrors(wheel, tasks, s) && wheel[SlotOf(s.now)] == []
    ensures FirstDue(s.pending, s.now) == |s.pending|
    ensures Mirrors(wheel, tasks, s.(now := s.now + 1))
  {
    var next := s.now + 1;
    forall k: nat | k < |s.pending|
      ensures s.pending[k].Deadline() != s.now && PlacedIn(wheel, s.pending, next, k)
    {
      assert PlacedIn(wheel, s.pending, s.now, k);
      AdvancePlacedAt(wheel, s.pending[k], s.now);
    }
  }
}

/** include/Timer.hpp, class TimingWheel. */
module TimingWheels {
  import opened Deadlines
  import opened WheelSlots
  import opened WheelMirror

  /** The ids whose callbacks were run. */
  function FiredIds(log: seq<Record>): seq<TimerId> {
    if log == [] then []
    else FiredIds(log[..|log| - 1]) + (match log[|log| - 1] case Fired(e, _) => [e.id] case Dropped(_, _) => [])
  }

  lemma FiredIdsPush(log: seq<Record>, r: Record)
    ensures FiredIds(log + [r]) == FiredIds(log) + (if r.Fired? then [r.entry.id] else [])
  {
    assert (log + [r])[..|log|] == log;
  }

  class TimingWheel {
    var tick: nat
    var wheel: Slots
    var timers: map<TimerId, Handle>
    /** The TimerTask objects that have a reference; a weak reference to another one is expired. */
    var tasks: map<Handle, TimerTask>
    var made: nat
    /** The callbacks run so far. */
    var calls: seq<TimerId>
    /** The list of deadlines the wheel stands for. */
    ghost var schedule: Schedule

    ghost predicate Valid()
      reads this
    {
      && tick == SlotOf(schedule.now)
      && timers == schedule.index && made == schedule.next
      && calls == FiredIds(schedule.log)
      && Mirrors(wheel, tasks, schedule)
    }

    constructor ()
      ensures Valid() && schedule == EmptySchedule()
    {
      tick, wheel, timers, tasks, made, calls := 0, seq(CAPACITY, _ => []), map[], map[], 0, [];
      schedule := EmptySchedule();
      new;
      NoReferences(wheel);
    }

    static lemma {:induction false} NoReferences(wheel: seq<seq<Handle>>)
      requires forall p :: 0 <= p < |wheel| ==> wheel[p] == []
      ensures References(wheel) == multiset{}
    {
      if wheel != [] {
        NoReferences(wheel[..|wheel| - 1]);
      }
    }

    /** Every object is counted by the references to it in all the slots together, and an object
        without a reference is gone. */
    lemma CountsAreReferences(h: Handle)
      requires Valid()
      ensures References(wheel)[h] == if h in tasks then tasks[h].refs else 0
      ensures h in tasks ==> tasks[h].refs > 0
    {
      if h in tasks {
        LiveIsReferenced(wheel, tasks, schedule, h);
      }
    }

    method HasTimer(id: TimerId) returns (has: bool)
      requires Valid()
      ensures has <==> id in schedule.index
    {
      has := id in timers;
    }

    /** Any delay and any id are accepted as in the source.  A delay in range never hits the slot
        the hand is on, which is what makes adding safe while that slot is being cleared. */
    method TimerAddInLoop(id: TimerId, delay: nat, callback: seq<Op>)
      requires Valid()
      modifies this
      ensures Valid() && schedule == AddTask(old(schedule), id, delay, callback)
      ensures tick == old(tick) && wheel[tick] == old(wheel[tick])
    {
      if delay == 0 || delay >= CAPACITY {
        return;
      }
      var pos := (delay + tick) % CAPACITY;
      AddLive(wheel, tasks, schedule, id, delay, callback, pos);
      var pt := made;
      made := made + 1;
      tasks := tasks[pt := TimerTask(id, delay, false, callback, 1)];
      wheel := Pushed(wheel, pos, pt);
      timers := timers[id := pt];
      schedule := AddTask(schedule, id, delay, callback);
    }

    method TimerRefleshInLoop(id: TimerId)
      requires Valid()
      modifies this
      ensures Valid() && schedule == RefreshTask(old(schedule), id)
      ensures tick == old(tick) && wheel[tick] == old(wheel[tick])
    {
      if id !in timers {
        return;
      }
      var pt := timers[id];
      LockMeaning(wheel, tasks, schedule, pt);
      if pt !in tasks {
        timers := timers - {id};
        schedule := RefreshTask(schedule, id);
        return;
      }
      var pos := (tasks[pt].timeout + tick) % CAPACITY;
      RefreshLive(wheel, tasks, schedule, id, pt, pos);
      wheel := Pushed(wheel, pos, pt);
      tasks := tasks[pt := tasks[pt].(refs := tasks[pt].refs + 1)];
      schedule := RefreshTask(schedule, id);
    }

    method TimerCancelInLoop(id: TimerId)
      requires Valid()
      modifies this
      ensures Valid() && schedule == CancelTask(old(schedule), id)
      ensures tick == old(tick) && wheel[tick] == old(wheel[tick])
    {
      if id !in timers {
        return;
      }
      var pt := timers[id];
      LockMeaning(wheel, tasks, schedule, pt);
      if pt in tasks {
        CancelMirrors(wheel, tasks, schedule, Position(schedule.pending, pt));
        tasks := tasks[pt := tasks[pt].(cancel := true)];
        schedule := CancelTask(schedule, id);
      }
    }

    method RemoveTimer(id: TimerId)
      requires Valid()
      modifies this
      ensures Valid() && schedule == old(schedule).(index := old(schedule).index - {id})
      ensures tick == old(tick) && wheel == old(wheel)
    {
      if id in timers {
        timers := timers - {id};
      }
      schedule := schedule.(index := schedule.index - {id});
    }

    /** A callback: the calls it makes on the wheel, while a slot is being cleared. */
    method RunCallback(ops: seq<Op>)
      requires Valid()
      modifies this
      ensures Valid() && schedule == ApplyAll(old(schedule), ops)
      ensures tick == old(tick) && wheel[tick] == old(wheel[tick])
    {
      var i := 0;
      while i < |ops|
        invariant 0 <= i <= |ops| && Valid()
        invariant ApplyAll(schedule, ops[i..]) == ApplyAll(old(schedule), ops)
        invariant tick == old(tick) && wheel[tick] == old(wheel[tick])
      {
        assert ops[i..][0] == ops[i] && ops[i..][1..] == ops[i + 1..];
        match ops[i] {
          case Add(id, delay, callback) => TimerAddInLoop(id, delay, callback);
          case Refresh(id) => TimerRefleshInLoop(id);
          case Cancel(id) => TimerCancelInLoop(id);
        }
        i := i + 1;
      }
    }

    /** ~TimerTask. */
    method DestroyTask(task: TimerTask)
      requires Valid()
      modifies this
      ensures Valid() && tick == old(tick) && wheel[tick] == old(wheel[tick])
      ensures schedule
           == (var after := if task.cancel then old(schedule) else ApplyAll(old(schedule), task.callback);
               after.(index := after.index - {task.id}))
    {
      if !task.cancel {
        RunCallback(task.callback);
      }
      RemoveTimer(task.id);
    }

    /** The last reference goes: the task with the first deadline that is due is destroyed. */
    method DropLastReference(h: Handle)
      requires Valid() && wheel[tick] != [] && wheel[tick][0] == h && h in tasks && tasks[h].refs == 1
      modifies this
      ensures Valid() && tick == old(tick) && wheel[tick] == old(wheel[tick])[1..]
      ensures FirstDue(old(schedule.pending), old(schedule.now)) < |old(schedule.pending)|
      ensures schedule == Expire(old(schedule), FirstDue(old(schedule.pending), old(schedule.now)))
    {
      DropLast(wheel, tasks, schedule);
      ghost var k := FirstDue(schedule.pending, schedule.now);
      FiredIdsPush(schedule.log, Leave(schedule, k).log[|schedule.log|]);
      var task := tasks[h];
      wheel := Popped(wheel, tick);
      tasks := tasks - {h};
      if !task.cancel {
        calls := calls + [task.id];
      }
      schedule := Leave(schedule, k);
      DestroyTask(task);
    }

    /** The destructor of one shared_ptr of the current slot. */
    method DropReference()
      requires Valid() && wheel[tick] != []
      modifies this
      ensures Valid() && tick == old(tick) && wheel[tick] == old(wheel[tick])[1..]
      ensures Drain(schedule) == Drain(old(schedule)) && schedule.now == old(schedule).now
    {
      var h := wheel[tick][0];
      FirstReferenceIsLive(wheel, tasks, schedule);
      if tasks[h].refs > 1 {
        DropShared(wheel, tasks, schedule);
        tasks := tasks[h := tasks[h].(refs := tasks[h].refs - 1)];
        wheel := Popped(wheel, tick);
      } else {
        DropLastReference(h);
        ExpireShrinksDue(old(schedule), FirstDue(old(schedule.pending), old(schedule.now)));
      }
    }

    /** Clears the slot under the hand and moves the hand on: every task whose deadline is this
        call leaves, in the order of the last add or refresh, and no other does. */
    method RunTimerTask()
      requires Valid()
      modifies this
      ensures Valid() && schedule == Tick(old(schedule))
    {
      while wheel[tick] != []
        invariant Valid() && tick == old(tick)
        invariant Drain(schedule) == Drain(old(schedule)) && schedule.now == old(schedule).now
        decreases |wheel[tick]|
      {
        DropReference();
      }
      AdvanceMirrors(wheel, tasks, schedule);
      NextSlot(schedule.now);
      tick := (tick + 1) % CAPACITY;
      schedule := schedule.(now := schedule.now + 1);
    }

    /** Catches up with as many calls as the timer has expired. */
    method OnTime(times: nat)
      requires Valid()
      modifies this
      ensures Valid() && schedule == Ticks(old(schedule), times)
    {
      var i := 0;
      while i < times
        invariant 0 <= i <= times && Valid()
        invariant Ticks(schedule, times - i) == Ticks(old(schedule), times)
      {
        RunTimerTask();
        i := i + 1;
      }
    }
  }
}
