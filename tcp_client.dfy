/**
 * The TCP client (net::TcpClient): it starts a connector, keeps a repeating retry timer
 * in the loop's timer queue that starts a fresh connector until a connection is made,
 * and owns at most one connection. The connector's own socket work is not part of this
 * model; each connector is known by a generation number, and `NewConnection` is what a
 * connector calls once its socket is connected.
 */
module TcpClients {
  import opened Timers
  import opened TimerQueues
  import opened Channels
  import opened Connections

  /** The retry period, `3s`, in microseconds. */
  const RetryInterval: int := 3_000_000

  class TcpClient {
    const queue: TimerQueue
    const poller: EPoller
    var connected: bool
    /** `retryTimer_`: the repeating retry timer, or null once it was cancelled. */
    var retryTimer: Timer?
    /** The generation of the current connector. */
    var connector: nat
    /** The generations of the connectors that were started, in order. */
    var started: seq<nat>
    var connection: TcpConnection?
    var hasWriteComplete: bool
    /** The calls of the connection callback, in order. */
    var announced: seq<Announcement>

    /** A new client is not connected, has no timer and no connection, and one connector. */
    constructor (queue: TimerQueue, poller: EPoller)
      ensures this.queue == queue && this.poller == poller
      ensures !connected && retryTimer == null && connection == null
      ensures connector == 0 && started == [] && announced == [] && !hasWriteComplete
    {
      this.queue := queue;
      this.poller := poller;
      connected := false;
      retryTimer := null;
      connector := 0;
      started := [];
      connection := null;
      hasWriteComplete := false;
      announced := [];
    }

    /** No connector started yet has a generation beyond the current one. */
    predicate Generations()
      reads this
    {
      forall k | k in started :: k <= connector
    }

    /** The retry timer, while there is one, is still filed in the loop's timer queue. */
    predicate TimerFiled()
      reads this, queue
    {
      retryTimer != null ==> retryTimer in queue.Timers()
    }

    /**
     * `start`: the current connector starts (which a connector allows once) and a retry
     * timer is added that fires every three seconds from now.
     */
    method Start(now: int)
      requires queue.Valid() && Generations() && connector !in started
      modifies this, queue
      ensures queue.Valid() && TimerFiled() && Generations()
      ensures started == old(started) + [connector] && connector == old(connector)
      ensures retryTimer != null && fresh(retryTimer)
      ensures retryTimer.repeat && retryTimer.interval == RetryInterval && retryTimer.hasCallback
      ensures retryTimer.when == now + RetryInterval * NanosPerMicro
      ensures queue.timers == Insert(old(queue.timers), Entry(retryTimer.when, retryTimer))
      ensures connected == old(connected) && connection == old(connection) && announced == old(announced)
    {
      started := started + [connector];
      var t := queue.AddTimer(true, now + RetryInterval * NanosPerMicro, RetryInterval, now);
      assert Entry(t.when, t) in multiset(queue.timers);
      retryTimer := t;
    }

    /**
     * `retry`, the retry timer's callback: a connected client does nothing; otherwise a new
     * connector replaces the current one and starts.
     */
    method Retry()
      requires Generations()
      modifies this`connector, this`started
      ensures Generations()
      ensures old(connected) ==> connector == old(connector) && started == old(started)
      ensures !old(connected) ==> connector == old(connector) + 1 && started == old(started) + [connector]
      ensures !old(connected) ==> connector !in old(started)
    {
      if connected {
        return;
      }
      connector := connector + 1;
      started := started + [connector];
    }

    /**
     * `newConnection`: the retry timer is cancelled and dropped, so it is cancelled once;
     * the client is connected; the new connection is established before the connection
     * callback sees it.
     */
    method NewConnection(fd: int, local: string, peer: string) returns (conn: TcpConnection)
      requires queue.Valid() && retryTimer != null && TimerFiled()
      modifies this, queue, retryTimer, poller
      ensures queue.Valid() && retryTimer == null && connected && TimerFiled()
      ensures old(retryTimer).canceled && forall x | x in queue.timers :: x.timer != old(retryTimer)
      ensures queue.timers == Remove(old(queue.timers), Entry(old(retryTimer.when), old(retryTimer)))
      ensures fresh(conn) && fresh(conn.channel) && conn.channel.poller == poller && connection == conn
      ensures conn.Valid() && conn.state == Connected && conn.IsReading()
      ensures conn.hasWriteComplete == hasWriteComplete && conn.peer == peer && conn.local == local
      ensures announced == old(announced) + [Announcement(conn, true)]
      ensures connector == old(connector) && started == old(started) && hasWriteComplete == old(hasWriteComplete)
    {
      queue.CancelTimer(retryTimer);
      retryTimer := null;
      connected := true;
      conn := new TcpConnection(poller, fd, local, peer);
      connection := conn;
      conn.SetWriteCompleteCallback(hasWriteComplete);
      conn.ConnectEstablished();
      announced := announced + [Announcement(conn, conn.IsConnected())];
    }

    /** `closeConnection`: the client must hold a connection; it lets it go and announces it. */
    method CloseConnection(conn: TcpConnection)
      requires connection != null
      modifies this`connection, this`announced
      ensures connection == null
      ensures announced == old(announced) + [Announcement(conn, conn.IsConnected())]
    {
      connection := null;
      announced := announced + [Announcement(conn, conn.IsConnected())];
    }

    /**
     * The close callback `newConnection` installs: the connection closes, the client lets
     * it go, and the connection callback sees it down. The client stays connected, so later
     * retries start no connector.
     */
    method ConnectionClosed()
      requires connection != null && connection.state != Disconnected
      requires connection.channel.Valid() && connection.channel.polling
      modifies this`connection, this`announced, connection, connection.channel, connection.channel.poller
      ensures old(connection).state == Disconnected
      ensures old(connection).notices == old(connection.notices) + [Closed]
      ensures connection == null && announced == old(announced) + [Announcement(old(connection), false)]
      ensures connected == old(connected) && retryTimer == old(retryTimer)
    {
      var conn := connection;
      conn.HandleClose();
      CloseConnection(conn);
    }

    /**
     * `~TcpClient`: a connection that is not down is force-closed, and the retry timer is
     * cancelled only when it is still there.
     */
    method Destroy()
      requires queue.Valid() && TimerFiled()
      requires connection != null && !connection.IsDisconnected() ==>
                 connection.Valid() && connection.channel.polling
      modifies queue, retryTimer
      modifies if connection == null then {} else {connection, connection.channel, connection.channel.poller}
      ensures queue.Valid()
      ensures connection != null ==> connection.state == Disconnected
      ensures connection != null && !old(connection.IsDisconnected()) ==> connection.notices == old(connection.notices) + [Closed]
      ensures retryTimer != null ==> retryTimer.canceled && forall x | x in queue.timers :: x.timer != retryTimer
      ensures retryTimer == null ==> queue.timers == old(queue.timers)
    {
      if connection != null && !connection.IsDisconnected() {
        connection.ForceClose();
      }
      if retryTimer != null {
        queue.CancelTimer(retryTimer);
      }
    }
  }
}
