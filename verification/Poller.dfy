/** src/Poller.cc and src/Channel.cc: the channels of one loop and the kernel's interest set. */
module Pollers {
  type Fd = nat

  /** The bits of an epoll mask. */
  datatype Bit = In | Pri | Out | Err | Hup | RdHup

  type Mask = set<Bit>

  datatype CtlOp = CtlAdd | CtlMod | CtlDel

  /** The epoll instance: what it watches, and which descriptors are open. */
  datatype Kernel = Kernel(interest: map<Fd, Mask>, open: set<Fd>) {
    /** epoll_ctl fails with EBADF, EEXIST or ENOENT and then changes nothing. */
    predicate Accepts(op: CtlOp, fd: Fd) {
      fd in open && (if op == CtlAdd then fd !in interest else fd in interest)
    }

    /** EBADF for a closed descriptor, EEXIST for a second ADD, ENOENT for anything else unwatched; a
        refused call changes nothing, and an accepted one only this descriptor. */
    lemma CtlMeaning(op: CtlOp, fd: Fd, mask: Mask)
      ensures fd !in open ==> !Accepts(op, fd)
      ensures fd in open ==> (Accepts(CtlAdd, fd) <==> !Accepts(CtlMod, fd)) && (Accepts(CtlMod, fd) <==> fd in interest)
      ensures !Accepts(op, fd) ==> Ctl(op, fd, mask) == this
      ensures Accepts(op, fd) ==> (fd in Ctl(op, fd, mask).interest <==> op != CtlDel)
      ensures Accepts(op, fd) && op != CtlDel ==> Ctl(op, fd, mask).interest[fd] == mask
      ensures Ctl(op, fd, mask).interest - {fd} == interest - {fd} && Ctl(op, fd, mask).open == open
      ensures !Close(fd).Accepts(op, fd)
    {
    }

    function Ctl(op: CtlOp, fd: Fd, mask: Mask): Kernel {
      if !Accepts(op, fd) then this
      else if op == CtlDel then this.(interest := interest - {fd})
      else this.(interest := interest[fd := mask])
    }

    /** Closing a descriptor ends its registration. */
    function Close(fd: Fd): Kernel {
      Kernel(interest - {fd}, open - {fd})
    }
  }

  /** What a descriptor's channel shows after these reports: the last one that names it. */
  function Reported(ready: seq<(Fd, Mask)>, fd: Fd, before: Mask): Mask {
    if ready == [] then before
    else
      var last := ready[|ready| - 1];
      if last.0 == fd then last.1 else Reported(ready[..|ready| - 1], fd, before)
  }

  /** The last report that names a descriptor is the one its channel shows; without any it shows what
      it showed before. */
  lemma {:induction false} ReportedMeaning(ready: seq<(Fd, Mask)>, fd: Fd, before: Mask)
    ensures (forall k :: 0 <= k < |ready| ==> ready[k].0 != fd) ==> Reported(ready, fd, before) == before
    ensures forall k ::
      0 <= k < |ready| && ready[k].0 == fd && (forall j :: k < j < |ready| ==> ready[j].0 != fd) ==>
        Reported(ready, fd, before) == ready[k].1
  {
    if ready != [] && ready[|ready| - 1].0 != fd {
      var init := ready[..|ready| - 1];
      ReportedMeaning(init, fd, before);
      assert forall k :: 0 <= k < |init| ==> init[k] == ready[k];
    }
  }

  class Poller {
    var channels: map<Fd, Channel>
    var kernel: Kernel
    /** The calls of epoll_ctl that were refused (and only logged). */
    var refused: seq<(CtlOp, Fd)>

    /** The kernel watches exactly the registered descriptors, each with its channel's events. */
    ghost predicate Mirrors()
      reads this, set fd | fd in channels :: channels[fd]
    {
      && channels.Keys == kernel.interest.Keys
      && channels.Keys <= kernel.open
      && (forall fd :: fd in channels ==> channels[fd].fd == fd && kernel.interest[fd] == channels[fd].events)
    }

    constructor ()
      ensures Mirrors() && channels == map[] && kernel.open == {} && refused == []
    {
      channels, kernel, refused := map[], Kernel(map[], {}), [];
    }

    method Update(channel: Channel, op: CtlOp)
      modifies this`kernel, this`refused
      ensures kernel == old(kernel).Ctl(op, channel.fd, channel.events)
      ensures refused == old(refused) + (if old(kernel).Accepts(op, channel.fd) then [] else [(op, channel.fd)])
    {
      if !kernel.Accepts(op, channel.fd) {
        refused := refused + [(op, channel.fd)];
      }
      kernel := kernel.Ctl(op, channel.fd, channel.events);
    }

    method UpdateEvent(channel: Channel)
      modifies this
      ensures channels == if channel.fd in old(channels) then old(channels) else old(channels)[channel.fd := channel]
      ensures var op := if channel.fd in old(channels) then CtlMod else CtlAdd;
        kernel == old(kernel).Ctl(op, channel.fd, channel.events)
        && refused == old(refused) + (if old(kernel).Accepts(op, channel.fd) then [] else [(op, channel.fd)])
    {
      if channel.fd !in channels {
        channels := channels[channel.fd := channel];
        Update(channel, CtlAdd);
        return;
      }
      Update(channel, CtlMod);
    }

    /** The registration goes, and the kernel is asked to forget the descriptor in any case: the
        call is refused exactly when there was nothing to remove. */
    method RemoveEvent(channel: Channel)
      requires Mirrors()
      modifies this
      ensures Mirrors() && channels == old(channels) - {channel.fd}
      ensures kernel == old(kernel).(interest := old(kernel).interest - {channel.fd})
      ensures refused == old(refused) + (if channel.fd in old(channels) then [] else [(CtlDel, channel.fd)])
    {
      if channel.fd in channels {
        channels := channels - {channel.fd};
      }
      Update(channel, CtlDel);
    }

    /** One entry of what epoll_wait returned; events of unknown descriptors are skipped. */
    method Report(fd: Fd, mask: Mask) returns (active: seq<Channel>)
      requires Mirrors()
      modifies if fd in channels then {channels[fd]} else {}
      ensures Mirrors()
      ensures active == if fd in channels then [channels[fd]] else []
      ensures forall f :: f in channels ==>
        channels[f].revents == if f == fd then mask else old(channels[f].revents)
    {
      active := [];
      if fd in channels {
        var channel := channels[fd];
        channel.revents := mask;
        active := [channel];
      }
    }

    method Poll(ready: seq<(Fd, Mask)>) returns (active: seq<Channel>)
      requires Mirrors()
      modifies set fd | fd in channels :: channels[fd]
      ensures Mirrors()
      ensures active == ActiveChannels(ready)
      ensures forall fd :: fd in channels ==>
        channels[fd].revents == Reported(ready, fd, old(channels[fd].revents))
    {
      active := [];
      var i := 0;
      while i < |ready|
        invariant 0 <= i <= |ready| && Mirrors()
        invariant active == ActiveChannels(ready[..i])
        invariant forall fd :: fd in channels ==>
          channels[fd].revents == Reported(ready[..i], fd, old(channels[fd].revents))
      {
        assert ready[..i + 1][..i] == ready[..i];
        var next := Report(ready[i].0, ready[i].1);
        active := active + next;
        i := i + 1;
      }
      assert ready[..i] == ready;
    }

    ghost function ActiveChannels(ready: seq<(Fd, Mask)>): seq<Channel>
      reads this
    {
      if ready == [] then []
      else
        var last := ready[|ready| - 1];
        ActiveChannels(ready[..|ready| - 1]) + (if last.0 in channels then [channels[last.0]] else [])
    }

    /** Every channel handed to the loop is the registered one of its descriptor; none is left out, and
        they come in the order of the reports. */
    lemma {:induction false} ActiveAreRegistered(ready: seq<(Fd, Mask)>)
      requires Mirrors()
      ensures forall c :: c in ActiveChannels(ready) ==> c.fd in channels && channels[c.fd] == c
      ensures forall k :: 0 <= k < |ready| && ready[k].0 in channels ==> channels[ready[k].0] in ActiveChannels(ready)
      ensures (forall k :: 0 <= k < |ready| ==> ready[k].0 in channels) ==>
        |ActiveChannels(ready)| == |ready|
        && forall k :: 0 <= k < |ready| ==> ActiveChannels(ready)[k] == channels[ready[k].0]
    {
      if ready != [] {
        ActiveAreRegistered(ready[..|ready| - 1]);
      }
    }

    /** Reports of unknown descriptors change nothing for the others. */
    lemma {:induction false} ActiveAppend(ready: seq<(Fd, Mask)>, more: seq<(Fd, Mask)>)
      ensures ActiveChannels(ready + more) == ActiveChannels(ready) + ActiveChannels(more)
      decreases |more|
    {
      if more == [] {
        assert ready + more == ready;
      } else {
        var init := more[..|more| - 1];
        ActiveAppend(ready, init);
        assert (ready + more)[..|ready + more| - 1] == ready + init;
      }
    }
  }

  /** The callbacks HandleEvent may run. */
  datatype Callback = ReadCb | WriteCb | ErrorCb | CloseCb | EventCb

  /** HandleEvent as a function of the reported mask. */
  function Dispatched(mask: Mask): seq<Callback> {
    if Err in mask then [ErrorCb]
    else if RdHup in mask || Hup in mask then (if In in mask then [CloseCb] else [ReadCb, CloseCb])
    else (if In in mask || Pri in mask then [ReadCb] else [])
         + (if Out in mask then [WriteCb] else []) + [EventCb]
  }

  /** An error or a hang-up ends with exactly one error or close callback and runs nothing after
      it; otherwise reading comes before writing and the event callback closes the round. */
  lemma DispatchOrder(mask: Mask)
    ensures var d := Dispatched(mask);
      && d != []
      && (Err in mask || RdHup in mask || Hup in mask <==> d[|d| - 1] == ErrorCb || d[|d| - 1] == CloseCb)
      && (forall i :: 0 <= i < |d| - 1 ==> d[i] != ErrorCb && d[i] != CloseCb && d[i] != EventCb)
      && (WriteCb in d ==> d[|d| - 2] == WriteCb && d[|d| - 1] == EventCb)
      && (forall i, j :: 0 <= i < j < |d| ==> d[i] != d[j])
  {
  }

  /** Which callbacks run: an error silences all others; a hang-up closes, reading first only when no
      input was reported with it; otherwise reading and writing follow their bits. */
  lemma DispatchMeaning(mask: Mask)
    ensures var d, hup := Dispatched(mask), RdHup in mask || Hup in mask;
      && (ErrorCb in d <==> Err in mask)
      && (CloseCb in d <==> hup && Err !in mask)
      && (ReadCb in d <==> Err !in mask && (if hup then In !in mask else In in mask || Pri in mask))
      && (WriteCb in d <==> Out in mask && Err !in mask && !hup)
      && (EventCb in d <==> Err !in mask && !hup)
  {
    var d := Dispatched(mask);
    if Err !in mask && RdHup !in mask && Hup !in mask {
      assert d[|d| - 1] == EventCb;
      if Out in mask {
        assert d[|d| - 2] == WriteCb;
      }
      if In in mask || Pri in mask {
        assert d[0] == ReadCb;
      }
    } else {
      assert d[|d| - 1] == if Err in mask then ErrorCb else CloseCb;
      assert Err !in mask && In !in mask ==> d[0] == ReadCb;
    }
  }

  class Channel {
    const fd: Fd
    var events: Mask
    var revents: Mask

    constructor (fd: Fd)
      ensures this.fd == fd && events == {} && revents == {}
    {
      this.fd := fd;
      events, revents := {}, {};
    }

    /** The descriptor is open, and no other channel is registered for it. */
    ghost predicate Owns(poller: Poller)
      reads poller
    {
      fd in poller.kernel.open && (fd in poller.channels ==> poller.channels[fd] == this)
    }

    /** The common end of Enable and Disable: the kernel learns the new mask, with ADD exactly the
        first time, and is never asked for something it refuses. */
    method Set(poller: Poller, mask: Mask)
      requires poller.Mirrors() && Owns(poller)
      modifies this`events, poller
      ensures poller.Mirrors() && Owns(poller)
      ensures events == mask
      ensures poller.channels == old(poller.channels)[fd := this]
      ensures poller.kernel == old(poller.kernel).(interest := old(poller.kernel).interest[fd := mask])
      ensures poller.refused == old(poller.refused)
    {
      events := mask;
      poller.UpdateEvent(this);
    }

    method EnableRead(poller: Poller)
      requires poller.Mirrors() && Owns(poller)
      modifies this`events, poller
      ensures poller.Mirrors() && Owns(poller) && poller.refused == old(poller.refused)
      ensures events == old(events) + {In} && poller.channels == old(poller.channels)[fd := this]
      ensures poller.kernel.open == old(poller.kernel).open
    {
      Set(poller, events + {In});
    }

    method EnableWrite(poller: Poller)
      requires poller.Mirrors() && Owns(poller)
      modifies this`events, poller
      ensures poller.Mirrors() && Owns(poller) && poller.refused == old(poller.refused)
      ensures events == old(events) + {Out} && poller.channels == old(poller.channels)[fd := this]
      ensures poller.kernel.open == old(poller.kernel).open
    {
      Set(poller, events + {Out});
    }

    method DisableRead(poller: Poller)
      requires poller.Mirrors() && Owns(poller)
      modifies this`events, poller
      ensures poller.Mirrors() && Owns(poller) && poller.refused == old(poller.refused)
      ensures events == old(events) - {In} && poller.channels == old(poller.channels)[fd := this]
      ensures poller.kernel.open == old(poller.kernel).open
    {
      Set(poller, events - {In});
    }

    method DisableWrite(poller: Poller)
      requires poller.Mirrors() && Owns(poller)
      modifies this`events, poller
      ensures poller.Mirrors() && Owns(poller) && poller.refused == old(poller.refused)
      ensures events == old(events) - {Out} && poller.channels == old(poller.channels)[fd := this]
      ensures poller.kernel.open == old(poller.kernel).open
    {
      Set(poller, events - {Out});
    }

    method DisableAll(poller: Poller)
      requires poller.Mirrors() && Owns(poller)
      modifies this`events, poller
      ensures poller.Mirrors() && Owns(poller) && poller.refused == old(poller.refused)
      ensures events == {} && poller.channels == old(poller.channels)[fd := this]
      ensures poller.kernel.open == old(poller.kernel).open
    {
      Set(poller, {});
    }

    method Remove(poller: Poller)
      requires poller.Mirrors()
      modifies poller
      ensures poller.Mirrors() && poller.channels == old(poller.channels) - {fd}
      ensures poller.kernel == old(poller.kernel).(interest := old(poller.kernel).interest - {fd})
      ensures poller.refused == old(poller.refused) + (if fd in old(poller.channels) then [] else [(CtlDel, fd)])
    {
      poller.RemoveEvent(this);
    }

    /** The callbacks in the order in which HandleEvent runs them. */
    method HandleEvent() returns (run: seq<Callback>)
      ensures run == Dispatched(revents)
    {
      if Err in revents {
        return [ErrorCb];
      }
      run := [];
      if RdHup in revents {
        if In !in revents {
          run := run + [ReadCb];
        }
        run := run + [CloseCb];
        return;
      }
      if Hup in revents {
        if In !in revents {
          run := run + [ReadCb];
        }
        run := run + [CloseCb];
        return;
      }
      if In in revents || Pri in revents {
        run := run + [ReadCb];
      }
      if Out in revents {
        run := run + [WriteCb];
      }
      run := run + [EventCb];
    }
  }
}
