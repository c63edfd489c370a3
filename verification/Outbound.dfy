/**
 The outbound supervisor: `ConnectTo`, `Disconnect`, `serveClientConnection`,
 `reconnect`, `serveConnection` and `handleConnection`, as a labelled transition
 system with one step per critical section, dial or close.

 Any number of ConnectTo and Disconnect calls and old retry loops run at the same
 time.  Dialling succeeds or fails at the network's choice.  Connections are numbered;
 a number is never used twice, which stands for the uniqueness of generated IDs.
 */
module Outbound {
  type Conn = nat

  /** One goroutine running serveClientConnection, with its context. */
  datatype LoopPc =
    | Unstarted(peer: Conn)  // installed by ConnectTo, `go` not yet executed
    | Serving(peer: Conn)    // in the receive loop
    | Closing(peer: Conn)    // receive loop over, deferred close next
    | Leaving(peer: Conn)    // closed, deferred unregistration next
    | Checking               // serveConnection returned
    | Retrying               // in reconnect: delay or dial
    | Dialled(peer: Conn)    // dial succeeded, lock not yet taken
    | Dropping(peer: Conn)   // found its context cancelled, close next
    | Done

  datatype Loop = Loop(cancelled: bool, pc: LoopPc)

  /** A call to ConnectTo or Disconnect, or a goroutine running handleConnection. */
  datatype Thread =
    | Connecting(peer: Conn)              // ConnectTo after a successful dial
    | Replacing(previous: Conn, loop: nat) // ConnectTo after its critical section, previous.close() next
    | Starting(loop: nat)                 // ConnectTo before `go`
    | Disconnecting(peer: Conn)           // Disconnect after its critical section, peer.close() next
    | Accepting(peer: Conn)               // handleConnection before its critical section
    | Attending(peer: Conn)               // in the receive loop of an accepted connection
    | Parting(peer: Conn)                 // closed, unregistration next
    | Finished

  datatype Maybe = Nobody | Just(value: nat)

  datatype State = State(
    connections: set<Conn>,  // keys of s.connections
    clientConn: Maybe,
    clientCancel: Maybe,     // whose context the stored cancel function cancels
    loops: seq<Loop>,
    threads: seq<Thread>,
    sockets: set<Conn>,      // those that are open
    accepted: set<Conn>,     // which numbers were accepted rather than dialled
    next: Conn)

  const EMPTY := State({}, Nobody, Nobody, [], [], {}, {}, 0)

  datatype Event =
    | DialFails            // ConnectTo returns the error
    | DialSucceeds         // ConnectTo goes on
    | Install(t: nat)      // ConnectTo's critical section
    | ClosePrevious(t: nat)
    | Go(t: nat)
    | Disconnect
    | ClosePeer(t: nat)
    | ServeEnds(l: nat)
    | LoopCloses(l: nat)
    | Unregister(l: nat)
    | Check(l: nat)
    | DelayCancelled(l: nat)
    | RedialFails(l: nat)
    | RedialSucceeds(l: nat)
    | Reinstall(l: nat)    // reconnect's critical section
    | Drop(l: nat)
    | Accept
    | RegisterAccepted(t: nat)
    | AttendEnds(t: nat)
    | UnregisterAccepted(t: nat)

  predicate LoopAt(s: State, l: nat) {
    l < |s.loops|
  }

  predicate Enabled(s: State, e: Event) {
    match e
    case DialFails => true
    case DialSucceeds => true
    case Install(t) => t < |s.threads| && s.threads[t].Connecting?
    case ClosePrevious(t) => t < |s.threads| && s.threads[t].Replacing?
    case Go(t) =>
      && t < |s.threads| && s.threads[t].Starting?
      && LoopAt(s, s.threads[t].loop) && s.loops[s.threads[t].loop].pc.Unstarted?
    case Disconnect => true
    case ClosePeer(t) => t < |s.threads| && s.threads[t].Disconnecting?
    case ServeEnds(l) => LoopAt(s, l) && s.loops[l].pc.Serving?
    case LoopCloses(l) => LoopAt(s, l) && s.loops[l].pc.Closing?
    case Unregister(l) => LoopAt(s, l) && s.loops[l].pc.Leaving?
    case Check(l) => LoopAt(s, l) && s.loops[l].pc.Checking?
    case DelayCancelled(l) => LoopAt(s, l) && s.loops[l].pc.Retrying? && s.loops[l].cancelled
    case RedialFails(l) => LoopAt(s, l) && s.loops[l].pc.Retrying?
    case RedialSucceeds(l) => LoopAt(s, l) && s.loops[l].pc.Retrying?
    case Reinstall(l) => LoopAt(s, l) && s.loops[l].pc.Dialled?
    case Drop(l) => LoopAt(s, l) && s.loops[l].pc.Dropping?
    case Accept => true
    case RegisterAccepted(t) => t < |s.threads| && s.threads[t].Accepting?
    case AttendEnds(t) => t < |s.threads| && s.threads[t].Attending?
    case UnregisterAccepted(t) => t < |s.threads| && s.threads[t].Parting?
  }

  function CancelCurrent(s: State): seq<Loop> {
    if s.clientCancel.Just? && s.clientCancel.value < |s.loops| then
      s.loops[s.clientCancel.value := s.loops[s.clientCancel.value].(cancelled := true)]
    else s.loops
  }

  /** The connections without the current outbound peer. */
  function WithoutClient(s: State): set<Conn> {
    if s.clientConn.Just? then s.connections - {s.clientConn.value} else s.connections
  }

  /** ConnectTo's critical section, on the fields of the Server. */
  function Installed(s: State, peer: Conn): State {
    s.(clientConn := Just(peer), clientCancel := Just(|s.loops|),
       connections := WithoutClient(s) + {peer},
       loops := CancelCurrent(s) + [Loop(false, Unstarted(peer))])
  }

  /** Disconnect's critical section. */
  function Disconnected(s: State): State {
    s.(clientConn := Nobody, clientCancel := Nobody, connections := WithoutClient(s), loops := CancelCurrent(s))
  }

  /** The deferred critical section of serveConnection. */
  function Unregistered(s: State, peer: Conn): State {
    s.(connections := s.connections - {peer},
       clientConn := if s.clientConn == Just(peer) then Nobody else s.clientConn)
  }

  function SetLoop(s: State, l: nat, pc: LoopPc): State
    requires LoopAt(s, l)
  {
    s.(loops := s.loops[l := s.loops[l].(pc := pc)])
  }

  function SetThread(s: State, t: nat, thread: Thread): State
    requires t < |s.threads|
  {
    s.(threads := s.threads[t := thread])
  }

  function Step(s: State, e: Event): State
    requires Enabled(s, e)
  {
    match e
    case DialFails => s
    case DialSucceeds =>
      s.(threads := s.threads + [Connecting(s.next)], sockets := s.sockets + {s.next}, next := s.next + 1)
    case Install(t) =>
      SetThread(Installed(s, s.threads[t].peer), t,
                if s.clientConn.Just? then Replacing(s.clientConn.value, |s.loops|) else Starting(|s.loops|))
    case ClosePrevious(t) =>
      SetThread(s, t, Starting(s.threads[t].loop)).(sockets := s.sockets - {s.threads[t].previous})
    case Go(t) =>
      var l := s.threads[t].loop;
      SetThread(SetLoop(s, l, Serving(s.loops[l].pc.peer)), t, Finished)
    case Disconnect =>
      if s.clientConn.Just? then Disconnected(s).(threads := s.threads + [Disconnecting(s.clientConn.value)])
      else Disconnected(s)
    case ClosePeer(t) => SetThread(s, t, Finished).(sockets := s.sockets - {s.threads[t].peer})
    case ServeEnds(l) => SetLoop(s, l, Closing(s.loops[l].pc.peer))
    case LoopCloses(l) => SetLoop(s, l, Leaving(s.loops[l].pc.peer)).(sockets := s.sockets - {s.loops[l].pc.peer})
    case Unregister(l) => SetLoop(Unregistered(s, s.loops[l].pc.peer), l, Checking)
    case Check(l) => SetLoop(s, l, if s.loops[l].cancelled then Done else Retrying)
    case DelayCancelled(l) => SetLoop(s, l, Done)
    case RedialFails(l) => SetLoop(s, l, if s.loops[l].cancelled then Done else Retrying)
    case RedialSucceeds(l) => SetLoop(s, l, Dialled(s.next)).(sockets := s.sockets + {s.next}, next := s.next + 1)
    case Reinstall(l) =>
      var peer := s.loops[l].pc.peer;
      if s.loops[l].cancelled then SetLoop(s, l, Dropping(peer))
      else SetLoop(s, l, Serving(peer)).(clientConn := Just(peer), connections := s.connections + {peer})
    case Drop(l) => SetLoop(s, l, Done).(sockets := s.sockets - {s.loops[l].pc.peer})
    case Accept =>
      s.(threads := s.threads + [Accepting(s.next)], sockets := s.sockets + {s.next},
         accepted := s.accepted + {s.next}, next := s.next + 1)
    case RegisterAccepted(t) =>
      SetThread(s, t, Attending(s.threads[t].peer)).(connections := s.connections + {s.threads[t].peer})
    case AttendEnds(t) => SetThread(s, t, Parting(s.threads[t].peer)).(sockets := s.sockets - {s.threads[t].peer})
    case UnregisterAccepted(t) => SetThread(Unregistered(s, s.threads[t].peer), t, Finished)
  }

  ghost predicate Run(s: State, es: seq<Event>, s': State)
    decreases |es|
  {
    if es == [] then s == s'
    else Enabled(s, es[0]) && Run(Step(s, es[0]), es[1..], s')
  }
}
