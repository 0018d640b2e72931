/**
 * The single-loop TCP server (net::TcpServerSingle): the set of live connections. The
 * acceptor, which turns a listening socket into new descriptors, is not part of this
 * model; `NewConnection` is what it calls for each accepted descriptor.
 */
module TcpServers {
  import opened Channels
  import opened Connections

  class TcpServerSingle {
    const poller: EPoller
    /** `connections_`: every connection the server still owns. */
    var connections: set<TcpConnection>
    var hasWriteComplete: bool
    /** The calls of the connection callback, in order. */
    var announced: seq<Announcement>

    constructor (poller: EPoller)
      ensures this.poller == poller && connections == {} && announced == [] && !hasWriteComplete
    {
      this.poller := poller;
      connections := {};
      hasWriteComplete := false;
      announced := [];
    }

    method SetWriteCompleteCallback(present: bool)
      modifies this
      ensures hasWriteComplete == present
      ensures connections == old(connections) && announced == old(announced)
    {
      hasWriteComplete := present;
    }

    /**
     * `newConnection`: a new connection joins the set, takes the server's write-complete
     * callback, and is established before the connection callback sees it, so the callback
     * sees it connected.
     */
    method NewConnection(fd: int, local: string, peer: string) returns (conn: TcpConnection)
      modifies this, poller
      ensures fresh(conn) && fresh(conn.channel) && conn.channel.poller == poller
      ensures connections == old(connections) + {conn} && conn !in old(connections)
      ensures conn.Valid() && conn.state == Connected && conn.IsReading()
      ensures conn.hasWriteComplete == hasWriteComplete && conn.peer == peer && conn.local == local
      ensures announced == old(announced) + [Announcement(conn, true)]
      ensures hasWriteComplete == old(hasWriteComplete)
    {
      conn := new TcpConnection(poller, fd, local, peer);
      connections := connections + {conn};
      conn.SetWriteCompleteCallback(hasWriteComplete);
      conn.ConnectEstablished();
      announced := announced + [Announcement(conn, conn.IsConnected())];
    }

    /** `closeConnection`: erases exactly one connection, which must be in the set. */
    method CloseConnection(conn: TcpConnection)
      requires conn in connections
      modifies this
      ensures connections == old(connections) - {conn}
      ensures |connections| == |old(connections)| - 1
      ensures announced == old(announced) && hasWriteComplete == old(hasWriteComplete)
    {
      connections := connections - {conn};
    }

    /**
     * A connection's close callback, as `newConnection` installs it: the connection closes
     * and then leaves the server's set.
     */
    method ConnectionClosed(conn: TcpConnection)
      requires conn in connections
      requires StateRank(conn.state) <= StateRank(Disconnecting) && conn.channel.Valid() && conn.channel.polling
      modifies this, conn, conn.channel, conn.channel.poller
      ensures conn.state == Disconnected && conn.notices == old(conn.notices) + [Closed]
      ensures connections == old(connections) - {conn}
      ensures announced == old(announced)
    {
      conn.HandleClose();
      CloseConnection(conn);
    }
  }
}
