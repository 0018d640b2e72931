/**
 * The reactor's event plumbing (net::Channel and net::EPoller): a channel holds one file
 * descriptor's interest mask and its four event callbacks; the poller turns every mask
 * change into one `epoll_ctl` request and fills the active-channel list from `epoll_wait`.
 * The loop that routes `update` and `remove` (EventLoop::updateChannel/removeChannel) is
 * folded in: a channel talks to its poller directly. The kernel calls are represented by
 * a log of the `epoll_ctl` requests made and by the result of `epoll_wait` as a parameter.
 */
module Channels {

  // ---------------------------------------------------------------- epoll event bits

  /**
   * The `EPOLL*` bits the reactor uses. A `uint32_t` event mask is the set of its bits:
   * `|` is union, `& ~` is difference, and the mask 0 is the empty set.
   */
  datatype Event = In | Pri | Out | Err | Hup | RdHup

  type Mask = set<Event>

  /** `bits` are all set in `mask`. */
  predicate Has(mask: Mask, bits: Mask) {
    bits <= mask
  }

  /** `mask` and `before` agree on every bit outside `bits`. */
  predicate SameOutside(mask: Mask, before: Mask, bits: Mask) {
    forall e: Event | e !in bits :: e in mask <==> e in before
  }

  // ---------------------------------------------------------------- dispatch

  /** The four callbacks, in the order `handleEventsWithGuard` considers them. */
  datatype Callback = CloseCallback | ErrorCallback | ReadCallback | WriteCallback

  function Rank(c: Callback): nat {
    match c
    case CloseCallback => 0
    case ErrorCallback => 1
    case ReadCallback => 2
    case WriteCallback => 3
  }

  /** Which of the four callbacks a channel has been given. */
  datatype Installed = Installed(close: bool, error: bool, read: bool, write: bool)

  /** The callbacks the events `revents` call, in the order they are called. */
  function Dispatch(revents: Mask, cbs: Installed): seq<Callback> {
    (if Hup in revents && In !in revents && cbs.close then [CloseCallback] else []) +
    (if Err in revents && cbs.error then [ErrorCallback] else []) +
    (if (In in revents || Pri in revents || RdHup in revents) && cbs.read then [ReadCallback] else []) +
    (if Out in revents && cbs.write then [WriteCallback] else [])
  }

  /**
   * Each callback is called exactly when it is installed and its events occurred: close on a
   * hang-up without readable data, error on an error, read on readable, urgent or peer-closed,
   * write on writable. A callback that is missing takes nothing away from the others.
   */
  lemma DispatchMembers(revents: Mask, cbs: Installed)
    ensures CloseCallback in Dispatch(revents, cbs) <==> cbs.close && Hup in revents && In !in revents
    ensures ErrorCallback in Dispatch(revents, cbs) <==> cbs.error && Err in revents
    ensures ReadCallback in Dispatch(revents, cbs) <==> cbs.read && (In in revents || Pri in revents || RdHup in revents)
    ensures WriteCallback in Dispatch(revents, cbs) <==> cbs.write && Out in revents
  {
  }

  /** The order is fixed: close, then error, then read, then write, each at most once. */
  lemma DispatchOrder(revents: Mask, cbs: Installed)
    ensures forall i, j | 0 <= i < j < |Dispatch(revents, cbs)| ::
              Rank(Dispatch(revents, cbs)[i]) < Rank(Dispatch(revents, cbs)[j])
  {
  }

  // ---------------------------------------------------------------- epoll_ctl requests

  datatype Op = Add | Mod | Del

  /** One `epoll_ctl(op, fd, {events})` request. */
  datatype Ctl = Ctl(op: Op, fd: int, events: Mask)

  /** The request `updateChannel` makes for a channel whose polling flag was `polling`. */
  function OpFor(polling: bool, events: Mask): Op {
    if !polling then Add else if events != {} then Mod else Del
  }

  /** `events_(1024)`: the initial size of the event buffer. */
  const InitialEvents: nat := 1024

  /** One ready descriptor as `epoll_wait` reports it. */
  datatype Ready = Ready(channel: Channel, revents: Mask)

  /** The outcome of one `epoll_wait`. */
  datatype Wait = Failed | Events(ready: seq<Ready>)

  function ChannelsOf(ready: seq<Ready>): (r: seq<Channel>)
    ensures |r| == |ready| && forall i | 0 <= i < |ready| :: r[i] == ready[i].channel
  {
    if ready == [] then [] else ChannelsOf(ready[..|ready| - 1]) + [ready[|ready| - 1].channel]
  }

  /** The channels a wait reports. */
  function Touched(w: Wait): set<Channel> {
    if w.Failed? then {} else set i | 0 <= i < |w.ready| :: w.ready[i].channel
  }

  /** No descriptor is reported twice by one wait. */
  predicate Distinct(ready: seq<Ready>) {
    forall i, j | 0 <= i < j < |ready| :: ready[i].channel != ready[j].channel
  }

  class EPoller {
    /** `events_.size()`: how many events one wait may return. */
    var capacity: nat
    /** The `epoll_ctl` requests made so far. */
    var requests: seq<Ctl>

    constructor ()
      ensures capacity == InitialEvents && requests == []
    {
      capacity := InitialEvents;
      requests := [];
    }

    predicate Valid()
      reads this
    {
      capacity >= InitialEvents
    }

    /**
     * `updateChannel`: a channel that is not polled is added, which needs a non-empty mask;
     * a polled one is modified while its mask is non-empty and deleted once it is empty.
     * Afterwards the channel is polled exactly when its mask is non-empty.
     */
    method UpdateChannel(ch: Channel)
      requires ch.polling || ch.events != {}
      modifies this, ch
      ensures requests == old(requests) + [Ctl(OpFor(old(ch.polling), ch.events), ch.fd, ch.events)]
      ensures old(ch.polling) ==> requests[|requests| - 1].op == (if ch.events != {} then Mod else Del)
      ensures !old(ch.polling) ==> requests[|requests| - 1].op == Add
      ensures ch.polling <==> ch.events != {}
      ensures ch.events == old(ch.events) && ch.revents == old(ch.revents)
      ensures ch.tied == old(ch.tied) && ch.handlingEvents == old(ch.handlingEvents) && ch.cbs == old(ch.cbs)
      ensures capacity == old(capacity)
    {
      var op;
      if !ch.polling {
        op := Add;
        ch.SetPollingState(true);
      } else if ch.events != {} {
        op := Mod;
      } else {
        op := Del;
        ch.SetPollingState(false);
      }
      requests := requests + [Ctl(op, ch.fd, ch.events)];
    }

    /**
     * `poll`: on failure nothing changes; otherwise every reported channel gets its events and
     * is appended to `active` in the reported order, and the buffer doubles exactly when the
     * wait filled it.
     */
    method Poll(active: seq<Channel>, w: Wait) returns (result: seq<Channel>)
      requires Valid()
      requires w.Events? ==> |w.ready| <= capacity && Distinct(w.ready)
      modifies this, Touched(w)
      ensures Valid()
      ensures w.Failed? ==> result == active && capacity == old(capacity)
      ensures w.Events? ==> result == active + ChannelsOf(w.ready)
      ensures w.Events? ==> forall i | 0 <= i < |w.ready| :: w.ready[i].channel.revents == w.ready[i].revents
      ensures w.Events? ==> capacity == if |w.ready| == old(capacity) then 2 * old(capacity) else old(capacity)
      ensures forall c | c in Touched(w) :: c.events == old(c.events) && c.polling == old(c.polling)
      ensures requests == old(requests)
    {
      result := active;
      if w.Events? {
        var ready := w.ready;
        for i := 0 to |ready|
          invariant result == active + ChannelsOf(ready[..i])
          invariant forall j | 0 <= j < i :: ready[j].channel.revents == ready[j].revents
          invariant forall c | c in Touched(w) :: c.events == old(c.events) && c.polling == old(c.polling)
          invariant capacity == old(capacity) && requests == old(requests)
        {
          ready[i].channel.SetRevents(ready[i].revents);
          assert ready[..i + 1][..i] == ready[..i];
          result := result + [ready[i].channel];
        }
        assert ready[..|ready|] == ready;
        if |ready| > 0 && |ready| == capacity {
          capacity := 2 * capacity;
        }
      }
    }
  }

  class Channel {
    const poller: EPoller
    const fd: int
    /** `events_`: the interest mask. */
    var events: Mask
    /** `revents_`: the events of the last wait. */
    var revents: Mask
    var polling: bool
    var tied: bool
    var handlingEvents: bool
    var cbs: Installed

    /** A new channel is idle: not polled, not tied, not dispatching, both masks empty. */
    constructor (poller: EPoller, fd: int)
      ensures this.poller == poller && this.fd == fd
      ensures !polling && !tied && !handlingEvents && events == {} && revents == {}
      ensures cbs == Installed(false, false, false, false)
      ensures Valid()
    {
      this.poller := poller;
      this.fd := fd;
      events := {};
      revents := {};
      polling := false;
      tied := false;
      handlingEvents := false;
      cbs := Installed(false, false, false, false);
    }

    /** A channel is polled exactly when its interest mask is non-empty. */
    predicate Valid()
      reads this
    {
      polling <==> events != {}
    }

    predicate IsNoneEvents()
      reads this
      ensures IsNoneEvents() <==> events == {}
    {
      events == {}
    }

    predicate IsReading()
      reads this
      ensures IsReading() <==> Has(events, {In})
    {
      In in events
    }

    predicate IsWriting()
      reads this
      ensures IsWriting() <==> Has(events, {Out})
    {
      Out in events
    }

    method SetRevents(r: Mask)
      modifies this
      ensures revents == r
      ensures events == old(events) && polling == old(polling) && tied == old(tied)
      ensures handlingEvents == old(handlingEvents) && cbs == old(cbs)
    {
      revents := r;
    }

    method SetPollingState(state: bool)
      modifies this
      ensures polling == state
      ensures events == old(events) && revents == old(revents) && tied == old(tied)
      ensures handlingEvents == old(handlingEvents) && cbs == old(cbs)
    {
      polling := state;
    }

    /** `setReadCallback` and its three siblings: installs the given callbacks. */
    method SetCallbacks(installed: Installed)
      modifies this
      ensures cbs == installed
      ensures events == old(events) && revents == old(revents) && polling == old(polling)
      ensures tied == old(tied) && handlingEvents == old(handlingEvents)
    {
      cbs := installed;
    }

    /** `update`: hands the new mask to the poller, which makes exactly one request. */
    method Update()
      requires polling || events != {}
      modifies this, poller
      ensures poller.requests == old(poller.requests) + [Ctl(OpFor(old(polling), events), fd, events)]
      ensures Valid()
      ensures events == old(events) && revents == old(revents) && tied == old(tied)
      ensures handlingEvents == old(handlingEvents) && cbs == old(cbs)
      ensures poller.capacity == old(poller.capacity)
    {
      poller.UpdateChannel(this);
    }

    /** `enableRead`: sets IN and PRI, keeps every other bit, and updates the poller. */
    method EnableRead()
      requires Valid()
      modifies this, poller
      ensures Has(events, {In, Pri}) && SameOutside(events, old(events), {In, Pri})
      ensures IsReading()
      ensures poller.requests == old(poller.requests) + [Ctl(if old(polling) then Mod else Add, fd, events)]
      ensures Valid() && polling
      ensures revents == old(revents) && tied == old(tied) && handlingEvents == old(handlingEvents) && cbs == old(cbs)
      ensures poller.capacity == old(poller.capacity)
    {
      events := events + {In, Pri};
      Update();
    }

    /** `enableWrite`: sets OUT, keeps every other bit, and updates the poller. */
    method EnableWrite()
      requires Valid()
      modifies this, poller
      ensures Has(events, {Out}) && SameOutside(events, old(events), {Out})
      ensures IsWriting()
      ensures poller.requests == old(poller.requests) + [Ctl(if old(polling) then Mod else Add, fd, events)]
      ensures Valid() && polling
      ensures revents == old(revents) && tied == old(tied) && handlingEvents == old(handlingEvents) && cbs == old(cbs)
      ensures poller.capacity == old(poller.capacity)
    {
      events := events + {Out};
      Update();
    }

    /**
     * `disableRead`: clears IN only (PRI stays) and updates the poller. A channel that is
     * not polled has an empty mask, and the poller refuses to add an empty mask.
     */
    method DisableRead()
      requires Valid() && polling
      modifies this, poller
      ensures In !in events && SameOutside(events, old(events), {In})
      ensures !IsReading()
      ensures poller.requests == old(poller.requests) + [Ctl(if events != {} then Mod else Del, fd, events)]
      ensures Valid()
      ensures revents == old(revents) && tied == old(tied) && handlingEvents == old(handlingEvents) && cbs == old(cbs)
      ensures poller.capacity == old(poller.capacity)
    {
      events := events - {In};
      Update();
    }

    /** `disableWrite`: clears OUT only and updates the poller. */
    method DisableWrite()
      requires Valid() && polling
      modifies this, poller
      ensures Out !in events && SameOutside(events, old(events), {Out})
      ensures !IsWriting()
      ensures poller.requests == old(poller.requests) + [Ctl(if events != {} then Mod else Del, fd, events)]
      ensures Valid()
      ensures revents == old(revents) && tied == old(tied) && handlingEvents == old(handlingEvents) && cbs == old(cbs)
      ensures poller.capacity == old(poller.capacity)
    {
      events := events - {Out};
      Update();
    }

    /** `disableAll`: the mask becomes empty and the poller deletes the descriptor. */
    method DisableAll()
      requires Valid() && polling
      modifies this, poller
      ensures IsNoneEvents() && !polling
      ensures poller.requests == old(poller.requests) + [Ctl(Del, fd, {})]
      ensures revents == old(revents) && tied == old(tied) && handlingEvents == old(handlingEvents) && cbs == old(cbs)
      ensures poller.capacity == old(poller.capacity)
    {
      events := {};
      Update();
    }

    /** `remove`: only a polled channel may leave the loop, which clears its whole mask. */
    method Remove()
      requires Valid() && polling
      modifies this, poller
      ensures IsNoneEvents() && !polling
      ensures poller.requests == old(poller.requests) + [Ctl(Del, fd, {})]
      ensures revents == old(revents) && tied == old(tied) && handlingEvents == old(handlingEvents) && cbs == old(cbs)
      ensures poller.capacity == old(poller.capacity)
    {
      DisableAll();
    }

    /** `tie`: from now on events are dispatched only while the owner is alive. */
    method Tie()
      modifies this
      ensures tied
      ensures events == old(events) && revents == old(revents) && polling == old(polling)
      ensures handlingEvents == old(handlingEvents) && cbs == old(cbs)
    {
      tied := true;
    }

    /**
     * `handleEvents`: a tied channel whose owner is gone calls nothing; otherwise the
     * callbacks the events ask for are called, in the fixed order. `ownerAlive` stands for
     * the result of locking the weak tie.
     */
    method HandleEvents(ownerAlive: bool) returns (called: seq<Callback>)
      requires !handlingEvents
      modifies this
      ensures called == if tied && !ownerAlive then [] else Dispatch(revents, cbs)
      ensures !handlingEvents
      ensures events == old(events) && revents == old(revents) && polling == old(polling)
      ensures tied == old(tied) && cbs == old(cbs)
    {
      if tied {
        if ownerAlive {
          called := HandleEventsWithGuard();
        } else {
          called := [];
        }
      } else {
        called := HandleEventsWithGuard();
      }
    }

    /**
     * `handleEventsWithGuard`: `handlingEvents` is set for the duration of the dispatch, so
     * the channel cannot be destroyed from inside one of its callbacks.
     */
    method HandleEventsWithGuard() returns (called: seq<Callback>)
      requires !handlingEvents
      modifies this
      ensures called == Dispatch(revents, cbs)
      ensures !handlingEvents
      ensures events == old(events) && revents == old(revents) && polling == old(polling)
      ensures tied == old(tied) && cbs == old(cbs)
    {
      handlingEvents := true;
      called := [];
      if Hup in revents && In !in revents {
        if cbs.close {
          called := called + [CloseCallback];
        }
      }
      if Err in revents {
        if cbs.error {
          called := called + [ErrorCallback];
        }
      }
      if In in revents || Pri in revents || RdHup in revents {
        if cbs.read {
          called := called + [ReadCallback];
        }
      }
      if Out in revents {
        if cbs.write {
          called := called + [WriteCallback];
        }
      }
      handlingEvents := false;
    }
  }
}
