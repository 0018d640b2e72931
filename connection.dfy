/**
 * One TCP connection of the reactor (net::TcpConnection): the state machine
 * `Connecting -> Connected -> Disconnecting -> Disconnected`, the output buffer that holds
 * what the socket did not take yet, and the high-water-mark notice. Only the single loop
 * thread is modelled, so a task queued in the loop runs at once and is recorded as a
 * notice. The socket calls are parameters: what `write` returned, what `read` returned.
 */
module Connections {
  import opened Channels

  datatype State = Connecting | Connected | Disconnecting | Disconnected

  /** The order of the `State` enumerators, which the `<=` assertions rely on. */
  function StateRank(s: State): nat {
    match s
    case Connecting => 0
    case Connected => 1
    case Disconnecting => 2
    case Disconnected => 3
  }

  /** What `::write` returned: a count of bytes taken, or -1 with a fatal errno or not. */
  datatype WriteResult = Wrote(n: nat) | WriteFailed(fatal: bool)

  /** What `readFd` returned: some bytes, 0 (the peer closed), or -1. */
  datatype ReadResult = ReadData(bytes: string) | ReadEof | ReadError

  /** The callbacks the connection ran or queued, and its half-close, in order. */
  datatype Notice =
    | WriteComplete         // the write-complete callback was queued
    | HighWater             // the high-water-mark callback was queued
    | Message(input: string) // the message callback ran on the input buffer
    | Closed                // the close callback ran
    | ErrorReported         // `handleError` ran
    | HalfClosed            // `::shutdown(fd, SHUT_WR)` was called

  /** One call of an owner's connection callback: the connection, and whether it was up. */
  datatype Announcement = Announcement(conn: TcpConnection, connected: bool)

  /** The backlog crosses `mark` when `added` bytes join `backlog` bytes already waiting. */
  predicate Crosses(backlog: nat, added: nat, mark: nat) {
    backlog < mark <= backlog + added
  }

  /** A mark of 0, the default, is never crossed. */
  lemma NoMarkNoCrossing(backlog: nat, added: nat)
    ensures !Crosses(backlog, added, 0)
  {
  }

  /** While the backlog only grows, the mark is crossed at most once. */
  lemma CrossingOnce(backlog: nat, first: nat, second: nat, mark: nat)
    requires Crosses(backlog, first, mark)
    ensures !Crosses(backlog + first, second, mark)
  {
  }

  /** A send writes directly only when nothing is waiting and write interest is off. */
  predicate Direct(writing: bool, backlog: nat) {
    !writing && backlog == 0
  }

  /** How many of the bytes of a send the socket took. */
  function Written(direct: bool, w: WriteResult): nat {
    if direct && w.Wrote? then w.n else 0
  }

  /** The direct write failed with EPIPE or ECONNRESET: the rest of the send is dropped. */
  predicate Fault(direct: bool, w: WriteResult) {
    direct && w.WriteFailed? && w.fatal
  }

  /**
   * The callbacks one `sendInLoop` queues: write-complete when the direct write took every
   * byte, high-water when the bytes left over carry the backlog across the mark.
   */
  function SendNotices(direct: bool, w: WriteResult, len: nat, backlog: nat,
                       hasWriteComplete: bool, hasHighWater: bool, mark: nat): seq<Notice>
    requires w.Wrote? ==> w.n <= len
  {
    if direct && w.Wrote? && w.n == len then (if hasWriteComplete then [WriteComplete] else [])
    else if !Fault(direct, w) && hasHighWater && Crosses(backlog, len - Written(direct, w), mark) then [HighWater]
    else []
  }

  /**
   * A send queues at most one callback. Write-complete exactly when the direct write took
   * everything and the callback is set; high-water exactly when some bytes were left over,
   * they were kept, the callback is set, and the backlog crossed the mark.
   */
  lemma SendNoticesCases(direct: bool, w: WriteResult, len: nat, backlog: nat,
                         hasWriteComplete: bool, hasHighWater: bool, mark: nat)
    requires w.Wrote? ==> w.n <= len
    ensures |SendNotices(direct, w, len, backlog, hasWriteComplete, hasHighWater, mark)| <= 1
    ensures WriteComplete in SendNotices(direct, w, len, backlog, hasWriteComplete, hasHighWater, mark) <==>
              direct && w.Wrote? && w.n == len && hasWriteComplete
    ensures HighWater in SendNotices(direct, w, len, backlog, hasWriteComplete, hasHighWater, mark) <==>
              !Fault(direct, w) && len - Written(direct, w) > 0 && hasHighWater &&
              Crosses(backlog, len - Written(direct, w), mark)
  {
  }

  /** `SendNotices` as the two halves of `sendInLoop` produce it. */
  lemma SendNoticesSplit(direct: bool, w: WriteResult, len: nat, backlog: nat,
                         hasWriteComplete: bool, hasHighWater: bool, mark: nat)
    requires w.Wrote? ==> w.n <= len
    ensures SendNotices(direct, w, len, backlog, hasWriteComplete, hasHighWater, mark) ==
              (if direct && w.Wrote? && w.n == len && hasWriteComplete then [WriteComplete] else []) +
              (if !Fault(direct, w) && len - Written(direct, w) > 0 && hasHighWater &&
                  Crosses(backlog, len - Written(direct, w), mark) then [HighWater] else [])
  {
  }

  /** What the socket took and what waits together are the old bytes followed by the new. */
  lemma Conserve(wire0: string, wire: string, output0: string, output: string, data: string, n: nat)
    requires n <= |data|
    requires wire == wire0 + data[..n] && output == output0
    requires n > 0 ==> output0 == []
    ensures wire + (output + data[n..]) == wire0 + output0 + data
    ensures n == |data| ==> wire + output == wire0 + output0 + data
  {
    if n > 0 {
      assert data[..n] + data[n..] == data;
    }
  }

  /** `name()`: the peer's and the local address, joined by an arrow. */
  function Name(peer: string, local: string): (r: string)
    ensures |r| == |peer| + 4 + |local|
    ensures r[..|peer|] == peer && r[|peer|..|peer| + 4] == " -> " && r[|peer| + 4..] == local
  {
    peer + " -> " + local
  }

  class TcpConnection {
    const channel: Channel
    const peer: string
    const local: string
    var state: State
    /** The readable bytes of `inputBuffer_`. */
    var input: string
    /** The readable bytes of `outputBuffer_`: accepted for sending, not yet written. */
    var output: string
    /** Every byte the socket has taken so far. */
    var wire: string
    var highWaterMark: nat
    var hasWriteComplete: bool
    var hasHighWater: bool
    var notices: seq<Notice>
    /** The descriptor was closed by the destructor. */
    var fdClosed: bool

    /**
     * A new connection is connecting, with empty buffers and a high-water mark of 0; its
     * channel is idle and routes all four events back to the connection.
     */
    constructor (poller: EPoller, fd: int, local: string, peer: string)
      ensures fresh(channel) && channel.poller == poller && channel.fd == fd
      ensures this.local == local && this.peer == peer
      ensures state == Connecting && input == [] && output == [] && wire == [] && notices == []
      ensures highWaterMark == 0 && !hasWriteComplete && !hasHighWater && !fdClosed
      ensures channel.events == {} && !channel.polling && !channel.tied && !channel.handlingEvents
      ensures channel.cbs == Installed(true, true, true, true)
      ensures Valid()
    {
      var ch := new Channel(poller, fd);
      ch.SetCallbacks(Installed(true, true, true, true));
      channel := ch;
      this.local := local;
      this.peer := peer;
      state := Connecting;
      input := [];
      output := [];
      wire := [];
      highWaterMark := 0;
      hasWriteComplete := false;
      hasHighWater := false;
      notices := [];
      fdClosed := false;
    }

    /**
     * The channel's mask is consistent with its polling flag; a connected channel keeps its
     * urgent-data interest (only `disableAll` clears it); and until the connection is down,
     * write interest is on exactly while output is waiting.
     */
    predicate Valid()
      reads this, channel
    {
      channel.Valid() &&
      (state == Connected ==> Has(channel.events, {Pri})) &&
      (state != Disconnected ==> (channel.IsWriting() <==> output != []))
    }

    predicate IsConnected()
      reads this
    {
      state == Connected
    }

    predicate IsDisconnected()
      reads this
    {
      state == Disconnected
    }

    /** `isReading`: the channel's read interest. */
    predicate IsReading()
      reads this, channel
      ensures IsReading() <==> channel.IsReading()
    {
      channel.IsReading()
    }

    /** `setHighWaterMarkCallback`: the callback and its threshold are set together. */
    method SetHighWaterMarkCallback(present: bool, mark: nat)
      modifies this
      ensures hasHighWater == present && highWaterMark == mark
      ensures state == old(state) && output == old(output) && wire == old(wire) && notices == old(notices)
      ensures hasWriteComplete == old(hasWriteComplete) && input == old(input) && fdClosed == old(fdClosed)
    {
      hasHighWater := present;
      highWaterMark := mark;
    }

    method SetWriteCompleteCallback(present: bool)
      modifies this
      ensures hasWriteComplete == present
      ensures state == old(state) && output == old(output) && wire == old(wire) && notices == old(notices)
      ensures hasHighWater == old(hasHighWater) && highWaterMark == old(highWaterMark)
      ensures input == old(input) && fdClosed == old(fdClosed)
    {
      hasWriteComplete := present;
    }

    /** `connectEstablished`: only a connecting connection is established; reading starts. */
    method ConnectEstablished()
      requires Valid() && state == Connecting
      modifies this, channel, channel.poller
      ensures Valid() && state == Connected
      ensures IsReading() && channel.tied && channel.polling
      ensures output == old(output) && wire == old(wire) && notices == old(notices) && input == old(input)
      ensures hasWriteComplete == old(hasWriteComplete) && hasHighWater == old(hasHighWater)
      ensures highWaterMark == old(highWaterMark)
    {
      state := Connected;
      channel.Tie();
      channel.EnableRead();
    }

    /**
     * `send` from the loop thread: nothing happens unless the connection is connected;
     * then the bytes go to `sendInLoop`.
     */
    method Send(data: string, w: WriteResult)
      requires Valid()
      requires w.Wrote? ==> w.n <= |data|
      modifies this, channel, channel.poller
      ensures Valid()
      ensures old(state) != Connected ==> wire == old(wire) && output == old(output) && notices == old(notices)
      ensures old(state) == Connected && !Fault(Direct(old(channel.IsWriting()), |old(output)|), w) ==>
                wire + output == old(wire) + old(output) + data
      ensures state == old(state)
    {
      if state != Connected {
        return;
      }
      SendInLoop(data, w);
    }

    /**
     * `send(Buffer&)`: a connected connection sends the whole buffer and empties it; an
     * unconnected one leaves it alone. Returns what is left in the buffer.
     */
    method SendBuffer(buffer: string, w: WriteResult) returns (left: string)
      requires Valid()
      requires w.Wrote? ==> w.n <= |buffer|
      modifies this, channel, channel.poller
      ensures Valid()
      ensures left == if old(state) == Connected then [] else buffer
      ensures old(state) != Connected ==> wire == old(wire) && output == old(output) && notices == old(notices)
      ensures old(state) == Connected && !Fault(Direct(old(channel.IsWriting()), |old(output)|), w) ==>
                wire + output == old(wire) + old(output) + buffer
      ensures state == old(state)
    {
      if state != Connected {
        return buffer;
      }
      SendInLoop(buffer, w);
      left := [];
    }

    /**
     * `sendInLoop`: when nothing is waiting and write interest is off, the socket is written
     * at once (`w` is what `write` returned); what it did not take is appended to the
     * output buffer and write interest is switched on. The write-complete callback is
     * queued when the direct write took everything; the high-water callback when the
     * backlog crosses the mark. A fatal write error drops the bytes.
     */
    method SendInLoop(data: string, w: WriteResult)
      requires Valid()
      requires w.Wrote? ==> w.n <= |data|
      modifies this, channel, channel.poller
      ensures Valid()
      ensures old(state) == Disconnected ==> wire == old(wire) && output == old(output) && notices == old(notices)
      ensures old(state) != Disconnected && Direct(old(channel.IsWriting()), |old(output)|) ==>
                match w
                case Wrote(k) => wire == old(wire) + data[..k] && output == data[k..]
                case WriteFailed(fatal) => wire == old(wire) && output == if fatal then [] else data
      ensures old(state) != Disconnected && !Direct(old(channel.IsWriting()), |old(output)|) ==>
                wire == old(wire) && output == old(output) + data
      ensures old(state) != Disconnected ==>
                notices == old(notices) + SendNotices(Direct(old(channel.IsWriting()), |old(output)|), w, |data|,
                                                      |old(output)|, hasWriteComplete, hasHighWater, highWaterMark)
      ensures old(state) != Disconnected && !Fault(Direct(old(channel.IsWriting()), |old(output)|), w) ==>
                wire + output == old(wire) + old(output) + data
      ensures state == old(state) && input == old(input)
      ensures hasWriteComplete == old(hasWriteComplete) && hasHighWater == old(hasHighWater)
      ensures highWaterMark == old(highWaterMark) && fdClosed == old(fdClosed)
    {
      if state == Disconnected {
        return;
      }
      ghost var direct := Direct(channel.IsWriting(), |output|);
      var n, faultError := WriteDirect(data, w);
      if !faultError && |data| - n > 0 {
        KeepRest(data, n);
      }
      SendNoticesSplit(direct, w, |data|, |old(output)|, hasWriteComplete, hasHighWater, highWaterMark);
      if !faultError {
        Conserve(old(wire), wire, old(output), old(output), data, n);
      }
    }

    /**
     * The first half of `sendInLoop`: the direct write, tried only when nothing is waiting
     * and write interest is off. Returns how many bytes the socket took and whether the
     * error was fatal.
     */
    method WriteDirect(data: string, w: WriteResult) returns (n: nat, faultError: bool)
      requires w.Wrote? ==> w.n <= |data|
      modifies this`wire, this`notices
      ensures n == Written(Direct(channel.IsWriting(), |output|), w) && n <= |data|
      ensures faultError == Fault(Direct(channel.IsWriting(), |output|), w)
      ensures wire == old(wire) + data[..n]
      ensures notices == old(notices) +
                (if Direct(channel.IsWriting(), |output|) && w.Wrote? && n == |data| && hasWriteComplete
                 then [WriteComplete] else [])
    {
      n := 0;
      faultError := false;
      if !channel.IsWriting() && |output| == 0 {
        match w {
          case WriteFailed(fatal) =>
            faultError := fatal;
          case Wrote(written) =>
            wire := wire + data[..written];
            n := written;
            if |data| - n == 0 && hasWriteComplete {
              notices := notices + [WriteComplete];
            }
        }
      }
    }

    /**
     * The second half of `sendInLoop`: the bytes the socket did not take are kept, the
     * high-water callback is queued if they carry the backlog across the mark, and write
     * interest goes on.
     */
    method KeepRest(data: string, n: nat)
      requires n < |data|
      requires channel.Valid() && (channel.IsWriting() <==> output != [])
      modifies this`output, this`notices, channel, channel.poller
      ensures output == old(output) + data[n..]
      ensures notices == old(notices) +
                (if hasHighWater && Crosses(|old(output)|, |data| - n, highWaterMark) then [HighWater] else [])
      ensures channel.Valid() && channel.IsWriting()
      ensures SameOutside(channel.events, old(channel.events), {Out})
    {
      if hasHighWater {
        var oldLen := |output|;
        var newLen := oldLen + (|data| - n);
        if oldLen < highWaterMark && newLen >= highWaterMark {
          notices := notices + [HighWater];
        }
      }
      output := output + data[n..];
      if !channel.IsWriting() {
        channel.EnableWrite();
      }
    }

    /**
     * `shutdown`: the state becomes disconnecting; only a connection that was connected
     * goes on to `shutdownInLoop`.
     */
    method Shutdown()
      requires Valid() && state != Disconnected
      modifies this`state, this`notices
      ensures Valid() && state == Disconnecting
      ensures notices == old(notices) +
                (if old(state) == Connected && !channel.IsWriting() then [HalfClosed] else [])
      ensures output == old(output) && wire == old(wire) && input == old(input)
      ensures StateRank(old(state)) <= StateRank(state)
    {
      var previous := state;
      state := Disconnecting;
      if previous == Connected {
        ShutdownInLoop();
      }
    }

    /** `shutdownInLoop`: the write side is closed only once nothing waits to be written. */
    method ShutdownInLoop()
      modifies this`notices
      ensures notices == old(notices) + (if state != Disconnected && !channel.IsWriting() then [HalfClosed] else [])
    {
      if state != Disconnected && !channel.IsWriting() {
        notices := notices + [HalfClosed];
      }
    }

    /**
     * `forceClose`: a no-op once disconnected; otherwise the state passes through
     * disconnecting and `forceCloseInLoop` closes the connection.
     */
    method ForceClose()
      requires Valid()
      requires state != Disconnected ==> channel.polling
      modifies this, channel, channel.poller
      ensures Valid() && state == Disconnected
      ensures old(state) == Disconnected ==> notices == old(notices) && channel.events == old(channel.events)
      ensures old(state) != Disconnected ==> notices == old(notices) + [Closed] && channel.events == {}
      ensures StateRank(old(state)) <= StateRank(state)
      ensures output == old(output) && wire == old(wire) && input == old(input)
    {
      if state != Disconnected {
        var previous := state;
        state := Disconnecting;
        if previous != Disconnected {
          ForceCloseInLoop();
        }
      }
    }

    /** `forceCloseInLoop`: closes the connection unless it is already down. */
    method ForceCloseInLoop()
      requires state != Disconnected ==> channel.Valid() && channel.polling
      modifies this, channel, channel.poller
      ensures old(Valid()) ==> Valid()
      ensures state == Disconnected
      ensures old(state) == Disconnected ==> notices == old(notices) && channel.events == old(channel.events)
      ensures old(state) != Disconnected ==> notices == old(notices) + [Closed] && channel.events == {}
      ensures output == old(output) && wire == old(wire) && input == old(input)
    {
      if state != Disconnected {
        HandleClose();
      }
    }

    /** `stopRead`: read interest goes off if it was on. */
    method StopRead()
      requires Valid()
      modifies channel, channel.poller
      ensures Valid() && !IsReading()
      ensures SameOutside(channel.events, old(channel.events), {In})
    {
      if channel.IsReading() {
        channel.DisableRead();
      }
    }

    /** `startRead`: read interest goes on if it was off. */
    method StartRead()
      requires Valid()
      modifies channel, channel.poller
      ensures Valid() && IsReading()
      ensures SameOutside(channel.events, old(channel.events), {In, Pri}) || channel.events == old(channel.events)
    {
      if !channel.IsReading() {
        channel.EnableRead();
      }
    }

    /**
     * `handleRead`: read bytes go to the message callback with the whole input buffer; end
     * of file closes the connection; an error is reported.
     */
    method HandleRead(r: ReadResult)
      requires Valid() && state != Disconnected
      requires r.ReadEof? ==> channel.polling
      modifies this, channel, channel.poller
      ensures Valid()
      ensures !r.ReadEof? ==> channel.events == old(channel.events) && channel.polling == old(channel.polling)
      ensures r.ReadData? ==> input == old(input) + r.bytes && notices == old(notices) + [Message(input)]
      ensures r.ReadData? ==> state == old(state)
      ensures r.ReadEof? ==> state == Disconnected && notices == old(notices) + [Closed] && channel.events == {}
      ensures r.ReadError? ==> notices == old(notices) + [ErrorReported] && state == old(state)
      ensures output == old(output) && wire == old(wire)
    {
      match r {
        case ReadData(bytes) =>
          input := input + bytes;
          notices := notices + [Message(input)];
        case ReadEof =>
          HandleClose();
        case ReadError =>
          notices := notices + [ErrorReported];
      }
    }

    /**
     * `handleWrite`: a connection that is down ignores the event; otherwise the socket takes
     * the first `n` waiting bytes (`w` is what `write` returned). Once nothing waits, write
     * interest goes off, the write-complete callback is queued, and a disconnecting
     * connection closes its write side.
     */
    method HandleWrite(w: WriteResult)
      requires Valid()
      requires state != Disconnected ==> output != [] && channel.IsWriting()
      requires w.Wrote? ==> w.n <= |output|
      modifies this, channel, channel.poller
      ensures Valid()
      ensures wire + output == old(wire) + old(output)
      ensures old(state) != Disconnected && w.Wrote? ==> output == old(output)[w.n..]
      ensures old(state) == Disconnected || w.WriteFailed? ==> output == old(output) && notices == old(notices)
      ensures old(state) != Disconnected && w.Wrote? ==>
                notices == old(notices) +
                  (if output == [] && hasWriteComplete then [WriteComplete] else []) +
                  (if output == [] && state == Disconnecting then [HalfClosed] else [])
      ensures state == old(state) && input == old(input)
    {
      if state == Disconnected {
        return;
      }
      match w {
        case WriteFailed(_) =>
        case Wrote(n) =>
          assert output[..n] + output[n..] == output;
          wire := wire + output[..n];
          output := output[n..];
          if |output| == 0 {
            channel.DisableWrite();
            if hasWriteComplete {
              notices := notices + [WriteComplete];
            }
            if state == Disconnecting {
              ShutdownInLoop();
            }
          }
      }
    }

    /**
     * `handleClose`: only a connection that is not yet down is closed; its channel loses
     * every interest and the close callback runs once.
     */
    method HandleClose()
      requires state != Disconnected && channel.Valid() && channel.polling
      modifies this, channel, channel.poller
      ensures Valid() && state == Disconnected
      ensures channel.events == {} && !channel.polling
      ensures notices == old(notices) + [Closed]
      ensures output == old(output) && wire == old(wire) && input == old(input)
      ensures StateRank(old(state)) < StateRank(state)
    {
      state := Disconnected;
      channel.DisableAll();
      notices := notices + [Closed];
    }

    /** `~TcpConnection`: only a disconnected connection may go, and its descriptor is closed. */
    method Destroy()
      requires state == Disconnected
      modifies this
      ensures fdClosed
      ensures state == old(state) && notices == old(notices)
    {
      fdClosed := true;
    }
  }
}
