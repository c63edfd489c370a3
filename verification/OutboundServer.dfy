/**
 The outbound fields of the Server in the form of the source.  Each method is one
 critical section under connectionsMu and is tied to the step of Outbound that stands
 for it, whose invariants OutboundInv proves.
 */
module OutboundServer {
  import opened Outbound

  /** A context with its cancel function; `loop` is the goroutine it was made for. */
  class Context {
    const loop: nat
    var cancelled: bool

    constructor (loop: nat)
      ensures this.loop == loop && !cancelled
    {
      this.loop := loop;
      cancelled := false;
    }
  }

  function Value(m: Maybe): set<Conn> {
    if m.Just? then {m.value} else {}
  }

  class Server {
    var connections: set<Conn>
    var clientConn: Maybe
    var clientCancel: Context?

    constructor ()
      ensures Is(EMPTY)
    {
      connections, clientConn, clientCancel := {}, Nobody, null;
    }

    /** The fields are those of the abstract state. */
    ghost predicate Is(s: State)
      reads this, clientCancel
    {
      && connections == s.connections
      && clientConn == s.clientConn
      && (clientCancel == null ==> s.clientCancel == Nobody)
      && (clientCancel != null ==>
            && s.clientCancel == Just(clientCancel.loop)
            && clientCancel.loop < |s.loops|
            && s.loops[clientCancel.loop].cancelled == clientCancel.cancelled)
    }

    /** ConnectTo between Lock and Unlock; the caller closes what is returned. */
    method Install(peer: Conn, ctx: Context, ghost s: State) returns (previous: Maybe)
      requires Is(s) && ctx.loop == |s.loops| && !ctx.cancelled && ctx != clientCancel
      modifies this, clientCancel
      ensures Is(Installed(s, peer))
      ensures previous == old(clientConn) && clientConn == Just(peer) && clientCancel == ctx && !ctx.cancelled
      ensures connections == (old(connections) - Value(old(clientConn))) + {peer}
      ensures old(clientCancel) != null ==> old(clientCancel).cancelled
    {
      previous := clientConn;
      if clientCancel != null {
        clientCancel.cancelled := true;
      }
      if previous.Just? {
        connections := connections - {previous.value};
      }
      clientConn := Just(peer);
      clientCancel := ctx;
      connections := connections + {peer};
    }

    /** Disconnect between Lock and Unlock; the caller closes what is returned. */
    method TakeDown(ghost s: State) returns (peer: Maybe)
      requires Is(s)
      modifies this, clientCancel
      ensures Is(Disconnected(s))
      ensures peer == old(clientConn) && clientConn == Nobody && clientCancel == null
      ensures connections == old(connections) - Value(old(clientConn))
      ensures old(clientCancel) != null ==> old(clientCancel).cancelled
    {
      if clientCancel != null {
        clientCancel.cancelled := true;
        clientCancel := null;
      }
      peer := clientConn;
      clientConn := Nobody;
      if peer.Just? {
        connections := connections - {peer.value};
      }
    }

    /** reconnect between Lock and Unlock: false means that the new peer must be closed. */
    method Reinstall(peer: Conn, ctx: Context, ghost s: State) returns (installed: bool)
      requires Is(s) && ctx.loop < |s.loops| && s.loops[ctx.loop].pc == Dialled(peer)
      requires ctx.cancelled == s.loops[ctx.loop].cancelled
      modifies this`connections, this`clientConn
      ensures Is(Step(s, Event.Reinstall(ctx.loop)))
      ensures installed == !ctx.cancelled
      ensures installed ==> clientConn == Just(peer) && connections == old(connections) + {peer}
      ensures !installed ==> clientConn == old(clientConn) && connections == old(connections)
    {
      installed := !ctx.cancelled;
      if installed {
        clientConn := Just(peer);
        connections := connections + {peer};
      }
    }

    /** The deferred section of serveConnection. */
    method Unregister(peer: Conn, ghost s: State)
      requires Is(s)
      modifies this`connections, this`clientConn
      ensures Is(Unregistered(s, peer))
      ensures connections == old(connections) - {peer}
      ensures clientConn == if old(clientConn) == Just(peer) then Nobody else old(clientConn)
    {
      connections := connections - {peer};
      if clientConn == Just(peer) {
        clientConn := Nobody;
      }
    }

    /** handleConnection's registration. */
    method RegisterAccepted(peer: Conn, ghost s: State, ghost t: nat)
      requires Is(s) && t < |s.threads| && s.threads[t] == Accepting(peer)
      modifies this`connections
      ensures Is(Step(s, Event.RegisterAccepted(t)))
      ensures connections == old(connections) + {peer}
    {
      connections := connections + {peer};
    }
  }
}
