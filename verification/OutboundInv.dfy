/**
 Invariants of the outbound supervisor over every interleaving, and what follows from
 them for ConnectTo, Disconnect and automatic reconnection.
 */
module OutboundInv {
  import opened Outbound

  // ----- who holds a connection -----

  predicate HasPeer(pc: LoopPc) {
    pc.Unstarted? || pc.Serving? || pc.Closing? || pc.Leaving? || pc.Dialled? || pc.Dropping?
  }

  /** The loop's peer is the one it installed (and has not yet unregistered). */
  predicate InService(pc: LoopPc) {
    pc.Unstarted? || pc.Serving? || pc.Closing? || pc.Leaving?
  }

  predicate LoopHas(s: State, l: nat, p: Conn) {
    l < |s.loops| && HasPeer(s.loops[l].pc) && s.loops[l].pc.peer == p
  }

  predicate IsAccepted(t: Thread) {
    t.Accepting? || t.Attending? || t.Parting?
  }

  // ----- the invariant -----

  /** Numbers in use are below `next`, and dialled and accepted numbers are apart. */
  predicate Numbers(s: State) {
    && (forall p :: p in s.accepted ==> p < s.next)
    && (forall p :: p in s.sockets ==> p < s.next)
    && (forall l :: 0 <= l < |s.loops| && HasPeer(s.loops[l].pc) ==>
          s.loops[l].pc.peer < s.next && s.loops[l].pc.peer !in s.accepted)
    && (forall t :: 0 <= t < |s.threads| && s.threads[t].Connecting? ==>
          s.threads[t].peer < s.next && s.threads[t].peer !in s.accepted)
  }

  /** Each dialled connection has one owner. */
  predicate Owners(s: State) {
    && (forall l, k :: 0 <= l < k < |s.loops| && HasPeer(s.loops[l].pc) && HasPeer(s.loops[k].pc) ==>
          s.loops[l].pc.peer != s.loops[k].pc.peer)
    && (forall t, u :: 0 <= t < u < |s.threads| && s.threads[t].Connecting? && s.threads[u].Connecting? ==>
          s.threads[t].peer != s.threads[u].peer)
    && (forall l, t ::
          0 <= l < |s.loops| && 0 <= t < |s.threads| && HasPeer(s.loops[l].pc) && s.threads[t].Connecting? ==>
          s.loops[l].pc.peer != s.threads[t].peer)
  }

  predicate Accepts(s: State) {
    && (forall t :: 0 <= t < |s.threads| && IsAccepted(s.threads[t]) ==> s.threads[t].peer in s.accepted)
    && (forall t :: 0 <= t < |s.threads| && s.threads[t].Replacing? ==>
          s.threads[t].previous !in s.accepted && s.threads[t].previous < s.next)
    && (forall t :: 0 <= t < |s.threads| && s.threads[t].Disconnecting? ==>
          s.threads[t].peer !in s.accepted && s.threads[t].peer < s.next)
  }

  /** The stored cancel function belongs to the one loop that is not cancelled. */
  predicate CancelOk(s: State) {
    && (s.clientCancel.Just? ==> s.clientCancel.value < |s.loops| && !s.loops[s.clientCancel.value].cancelled)
    && (forall l :: 0 <= l < |s.loops| && !s.loops[l].cancelled ==> s.clientCancel == Just(l))
    && (forall l :: 0 <= l < |s.loops| && !s.loops[l].cancelled ==> !s.loops[l].pc.Done? && !s.loops[l].pc.Dropping?)
  }

  /** clientConn is the peer that the uncancelled loop has in service, if it has one. */
  predicate ClientOk(s: State) {
    && (s.clientConn.Just? ==>
          s.clientCancel.Just? && LoopHas(s, s.clientCancel.value, s.clientConn.value)
          && InService(s.loops[s.clientCancel.value].pc))
    && (forall l :: 0 <= l < |s.loops| && !s.loops[l].cancelled && InService(s.loops[l].pc) ==>
          s.clientConn == Just(s.loops[l].pc.peer))
  }

  function Current(s: State): set<Conn> {
    if s.clientConn.Just? then {s.clientConn.value} else {}
  }

  /** The registered outbound peers are exactly clientConn, or none. */
  predicate RegisteredOk(s: State) {
    s.connections - s.accepted == Current(s)
  }

  /** A thread or loop will still close p, or first decide what to do with it. */
  predicate ThreadHolds(t: Thread, p: Conn) {
    t == Connecting(p) || (t.Replacing? && t.previous == p) || t == Disconnecting(p)
  }

  predicate LoopHolds(pc: LoopPc, p: Conn) {
    pc == Closing(p) || pc == Dialled(p) || pc == Dropping(p)
  }

  predicate HeldByThread(s: State, p: Conn) {
    exists t :: 0 <= t < |s.threads| && ThreadHolds(s.threads[t], p)
  }

  predicate HeldByLoop(s: State, p: Conn) {
    exists l :: 0 <= l < |s.loops| && LoopHolds(s.loops[l].pc, p)
  }

  predicate Safe(s: State, p: Conn) {
    p in s.connections || HeldByThread(s, p) || HeldByLoop(s, p)
  }

  /** Every open outbound socket is registered, or some thread's remaining steps install or close it. */
  predicate NoLeak(s: State) {
    forall p :: p in s.sockets && p !in s.accepted ==> Safe(s, p)
  }

  /** What is about to be unregistered is closed. */
  predicate LeavingOk(s: State) {
    && (forall l :: 0 <= l < |s.loops| && s.loops[l].pc.Leaving? ==> s.loops[l].pc.peer !in s.sockets)
  }

  /** A ConnectTo call that has installed a loop is the only one to start it. */
  predicate Pledges(t: Thread) {
    t.Replacing? || t.Starting?
  }

  predicate StartsOk(s: State) {
    && (forall t :: 0 <= t < |s.threads| && Pledges(s.threads[t]) ==>
          s.threads[t].loop < |s.loops| && s.loops[s.threads[t].loop].pc.Unstarted?)
    && (forall t, u :: 0 <= t < u < |s.threads| && Pledges(s.threads[t]) && Pledges(s.threads[u]) ==>
          s.threads[t].loop != s.threads[u].loop)
  }

  predicate IsPledged(s: State, l: nat) {
    exists t :: 0 <= t < |s.threads| && Pledges(s.threads[t]) && s.threads[t].loop == l
  }

  /** And a loop that has not started has such a call. */
  predicate PledgedOk(s: State) {
    forall l :: 0 <= l < |s.loops| && s.loops[l].pc.Unstarted? ==> IsPledged(s, l)
  }

  /** What ClientOk rests on. */
  predicate Ownership(s: State) {
    Numbers(s) && Owners(s) && Accepts(s) && CancelOk(s)
  }

  predicate Inv(s: State) {
    && Ownership(s) && ClientOk(s) && RegisteredOk(s) && LeavingOk(s) && NoLeak(s)
    && StartsOk(s) && PledgedOk(s)
  }

  predicate OfLoop(e: Event) {
    e.ServeEnds? || e.LoopCloses? || e.Unregister? || e.Check? || e.DelayCancelled? || e.RedialFails?
    || e.RedialSucceeds? || e.Reinstall? || e.Drop?
  }

  predicate OfCaller(e: Event) {
    e.DialSucceeds? || e.Install? || e.ClosePrevious? || e.Go? || e.Disconnect? || e.ClosePeer?
  }

  lemma LoopNumbers(s: State, e: Event)
    requires Numbers(s) && Enabled(s, e) && OfLoop(e)
    ensures Numbers(Step(s, e))
  {
  }

  lemma CallerNumbers(s: State, e: Event)
    requires Numbers(s) && Enabled(s, e) && OfCaller(e)
    ensures Numbers(Step(s, e))
  {
  }

  lemma StepNumbers(s: State, e: Event)
    requires Numbers(s) && Enabled(s, e)
    ensures Numbers(Step(s, e))
  {
    if OfLoop(e) {
      LoopNumbers(s, e);
    } else if OfCaller(e) {
      CallerNumbers(s, e);
    }
  }

  lemma ServingOwners(s: State, e: Event)
    requires Numbers(s) && Owners(s) && Enabled(s, e)
    requires e.ServeEnds? || e.LoopCloses? || e.Unregister? || e.Check? || e.DelayCancelled?
    ensures Owners(Step(s, e))
  {
  }

  lemma RedialOwners(s: State, e: Event)
    requires Numbers(s) && Owners(s) && Enabled(s, e)
    requires e.RedialFails? || e.RedialSucceeds? || e.Reinstall? || e.Drop?
    ensures Owners(Step(s, e))
  {
  }

  lemma LoopOwners(s: State, e: Event)
    requires Numbers(s) && Owners(s) && Enabled(s, e) && OfLoop(e)
    ensures Owners(Step(s, e))
  {
    if e.RedialFails? || e.RedialSucceeds? || e.Reinstall? || e.Drop? {
      RedialOwners(s, e);
    } else {
      ServingOwners(s, e);
    }
  }

  lemma ThreadOwners(s: State, e: Event)
    requires Numbers(s) && Owners(s) && Enabled(s, e) && OfCaller(e) && !e.Install?
    ensures Owners(Step(s, e))
  {
  }

  lemma InstallOwners(s: State, e: Event)
    requires Numbers(s) && Owners(s) && Enabled(s, e) && e.Install?
    ensures Owners(Step(s, e))
  {
  }

  lemma AcceptOwners(s: State, e: Event)
    requires Numbers(s) && Owners(s) && Enabled(s, e) && !OfLoop(e) && !OfCaller(e)
    ensures Owners(Step(s, e))
  {
  }

  lemma StepOwners(s: State, e: Event)
    requires Numbers(s) && Owners(s) && Enabled(s, e)
    ensures Owners(Step(s, e))
  {
    if OfLoop(e) { LoopOwners(s, e); }
    else if e.Install? { InstallOwners(s, e); }
    else if OfCaller(e) { ThreadOwners(s, e); }
    else { AcceptOwners(s, e); }
  }

  lemma StepAccepts(s: State, e: Event)
    requires Numbers(s) && Accepts(s) && ClientOk(s) && Enabled(s, e)
    ensures Accepts(Step(s, e))
  {
  }

  lemma LoopCancel(s: State, e: Event)
    requires CancelOk(s) && Enabled(s, e) && OfLoop(e)
    ensures CancelOk(Step(s, e))
  {
  }

  lemma StepCancel(s: State, e: Event)
    requires CancelOk(s) && Enabled(s, e)
    ensures CancelOk(Step(s, e))
  {
    if OfLoop(e) { LoopCancel(s, e); }
  }

  lemma ServingClient(s: State, e: Event)
    requires Ownership(s) && ClientOk(s) && Enabled(s, e)
    requires e.ServeEnds? || e.LoopCloses? || e.Check? || e.DelayCancelled?
    ensures ClientOk(Step(s, e))
  {
  }

  lemma RedialClient(s: State, e: Event)
    requires Ownership(s) && ClientOk(s) && Enabled(s, e)
    requires e.RedialFails? || e.RedialSucceeds? || e.Drop?
    ensures ClientOk(Step(s, e))
  {
  }

  lemma InstallClient(s: State, e: Event)
    requires Ownership(s) && ClientOk(s) && Enabled(s, e) && (e.Unregister? || e.Reinstall?)
    ensures ClientOk(Step(s, e))
  {
  }

  lemma ThreadClient(s: State, e: Event)
    requires Ownership(s) && ClientOk(s) && Enabled(s, e) && OfCaller(e)
    ensures ClientOk(Step(s, e))
  {
  }

  lemma AcceptClient(s: State, e: Event)
    requires Ownership(s) && ClientOk(s) && Enabled(s, e) && !OfLoop(e) && !OfCaller(e)
    ensures ClientOk(Step(s, e))
  {
  }

  lemma StepClient(s: State, e: Event)
    requires Ownership(s) && ClientOk(s) && Enabled(s, e)
    ensures ClientOk(Step(s, e))
  {
    if e.Unregister? || e.Reinstall? { InstallClient(s, e); }
    else if e.RedialFails? || e.RedialSucceeds? || e.Drop? { RedialClient(s, e); }
    else if OfLoop(e) { ServingClient(s, e); }
    else if OfCaller(e) { ThreadClient(s, e); }
    else { AcceptClient(s, e); }
  }

  lemma StepRegistered(s: State, e: Event)
    requires Numbers(s) && Accepts(s) && CancelOk(s) && ClientOk(s) && RegisteredOk(s) && Enabled(s, e)
    ensures RegisteredOk(Step(s, e))
  {
  }

  lemma StepLeaving(s: State, e: Event)
    requires Numbers(s) && Owners(s) && LeavingOk(s) && Enabled(s, e)
    ensures LeavingOk(Step(s, e))
  {
  }

  /** A registered connection stays safe: whoever unregisters it has closed it or will. */
  lemma RegisteredSafe(s: State, e: Event, p: Conn)
    requires LeavingOk(s) && Accepts(s) && Enabled(s, e) && p in s.connections && p !in s.accepted
    requires p in s.sockets && p in Step(s, e).sockets
    ensures Safe(Step(s, e), p)
  {
    var s' := Step(s, e);
    if p !in s'.connections {
      if e.Install? {
        assert ThreadHolds(s'.threads[e.t], p);
      } else {
        assert e.Disconnect?;
        assert ThreadHolds(s'.threads[|s.threads|], p);
      }
    }
  }

  /** A thread lets go of a connection only by registering or closing it. */
  lemma ThreadSafe(s: State, e: Event, p: Conn, t: nat)
    requires Enabled(s, e) && t < |s.threads| && ThreadHolds(s.threads[t], p)
    requires p in Step(s, e).sockets
    ensures Safe(Step(s, e), p)
  {
    var s' := Step(s, e);
    if p !in s'.connections {
      assert ThreadHolds(s'.threads[t], p);
    }
  }

  lemma LoopSafe(s: State, e: Event, p: Conn, l: nat)
    requires Enabled(s, e) && l < |s.loops| && LoopHolds(s.loops[l].pc, p)
    requires p in Step(s, e).sockets
    ensures Safe(Step(s, e), p)
  {
    var s' := Step(s, e);
    if p !in s'.connections {
      assert LoopHolds(s'.loops[l].pc, p);
    }
  }

  /** A new socket is held by whoever dialled it. */
  lemma NewSafe(s: State, e: Event, p: Conn)
    requires Enabled(s, e) && p !in s.sockets && p in Step(s, e).sockets && p !in Step(s, e).accepted
    ensures Safe(Step(s, e), p)
  {
    var s' := Step(s, e);
    if e.DialSucceeds? {
      assert ThreadHolds(s'.threads[|s.threads|], p);
    } else {
      assert e.RedialSucceeds?;
      assert LoopHolds(s'.loops[e.l].pc, p);
    }
  }

  lemma StepNoLeak(s: State, e: Event)
    requires LeavingOk(s) && Accepts(s) && NoLeak(s) && Enabled(s, e)
    ensures NoLeak(Step(s, e))
  {
    var s' := Step(s, e);
    forall p | p in s'.sockets && p !in s'.accepted ensures Safe(s', p) {
      if p !in s.sockets {
        NewSafe(s, e, p);
      } else if p in s.connections {
        RegisteredSafe(s, e, p);
      } else if HeldByThread(s, p) {
        var t :| 0 <= t < |s.threads| && ThreadHolds(s.threads[t], p);
        ThreadSafe(s, e, p, t);
      } else {
        var l :| 0 <= l < |s.loops| && LoopHolds(s.loops[l].pc, p);
        LoopSafe(s, e, p, l);
      }
    }
  }

  lemma LoopStarts(s: State, e: Event)
    requires StartsOk(s) && Enabled(s, e) && OfLoop(e)
    ensures StartsOk(Step(s, e))
  {
  }

  lemma InstallStarts(s: State, e: Event)
    requires StartsOk(s) && Enabled(s, e) && e.Install?
    ensures StartsOk(Step(s, e))
  {
  }

  lemma ThreadStarts(s: State, e: Event)
    requires StartsOk(s) && Enabled(s, e) && OfCaller(e)
    ensures StartsOk(Step(s, e))
  {
    if e.Install? { InstallStarts(s, e); }
  }

  lemma AcceptStarts(s: State, e: Event)
    requires StartsOk(s) && Enabled(s, e) && !OfLoop(e) && !OfCaller(e)
    ensures StartsOk(Step(s, e))
  {
  }

  lemma StepStarts(s: State, e: Event)
    requires StartsOk(s) && Enabled(s, e)
    ensures StartsOk(Step(s, e))
  {
    if OfLoop(e) { LoopStarts(s, e); } else if OfCaller(e) { ThreadStarts(s, e); } else { AcceptStarts(s, e); }
  }

  /** A call keeps its pledge until it starts the loop. */
  lemma PledgeStays(s: State, e: Event, l: nat)
    requires Enabled(s, e) && l < |s.loops| && IsPledged(s, l) && Step(s, e).loops[l].pc.Unstarted?
    ensures IsPledged(Step(s, e), l)
  {
    var t :| 0 <= t < |s.threads| && Pledges(s.threads[t]) && s.threads[t].loop == l;
    var s' := Step(s, e);
    assert Pledges(s'.threads[t]) && s'.threads[t].loop == l;
  }

  lemma UnstartedBefore(s: State, e: Event, l: nat)
    requires Enabled(s, e) && l < |Step(s, e).loops| && Step(s, e).loops[l].pc.Unstarted?
    ensures l < |s.loops| ==> s.loops[l].pc.Unstarted?
    ensures l >= |s.loops| ==> e.Install? && l == |s.loops|
  {
  }

  lemma StepPledged(s: State, e: Event)
    requires PledgedOk(s) && Enabled(s, e)
    ensures PledgedOk(Step(s, e))
  {
    var s' := Step(s, e);
    forall l | 0 <= l < |s'.loops| && s'.loops[l].pc.Unstarted? ensures IsPledged(s', l) {
      UnstartedBefore(s, e, l);
      if l < |s.loops| {
        PledgeStays(s, e, l);
      } else {
        assert Pledges(s'.threads[e.t]) && s'.threads[e.t].loop == l;
      }
    }
  }

  lemma StepInv(s: State, e: Event)
    requires Inv(s) && Enabled(s, e)
    ensures Inv(Step(s, e))
  {
    StepNumbers(s, e);
    StepOwners(s, e);
    StepAccepts(s, e);
    StepCancel(s, e);
    StepClient(s, e);
    StepRegistered(s, e);
    StepLeaving(s, e);
    StepNoLeak(s, e);
    StepStarts(s, e);
    StepPledged(s, e);
  }

  lemma {:induction false} RunInv(s: State, es: seq<Event>, s': State)
    requires Inv(s) && Run(s, es, s')
    ensures Inv(s')
    decreases |es|
  {
    if es != [] {
      StepInv(s, es[0]);
      RunInv(Step(s, es[0]), es[1..], s');
    }
  }

  lemma ReachInv(es: seq<Event>, s: State)
    requires Run(EMPTY, es, s)
    ensures Inv(s)
  {
    RunInv(EMPTY, es, s);
  }

  // ----- what callers may rely on -----

  /**
   Over every interleaving: a cancel function is stored exactly when one loop is not
   cancelled, and it is that loop's; clientConn is the peer this loop has in service,
   so while it retries clientConn is nil; and the registered outbound peers are
   exactly clientConn, or none.
   */
  lemma SupervisorInvariant(es: seq<Event>, s: State)
    requires Run(EMPTY, es, s)
    ensures forall l :: 0 <= l < |s.loops| ==> (!s.loops[l].cancelled <==> s.clientCancel == Just(l))
    ensures s.clientCancel.Just? ==> s.clientCancel.value < |s.loops|
    ensures forall l, p :: 0 <= l < |s.loops| && !s.loops[l].cancelled ==>
              (s.clientConn == Just(p) <==> InService(s.loops[l].pc) && s.loops[l].pc.peer == p)
    ensures s.clientCancel.Nobody? ==> s.clientConn.Nobody?
    ensures s.connections - s.accepted == Current(s)
  {
    ReachInv(es, s);
  }

  /** What a loop is serving now it was in service with before. */
  predicate NothingNew(before: LoopPc, after: LoopPc) {
    InService(after) ==> InService(before) && before.peer == after.peer
  }

  lemma CancelledStep(s: State, e: Event, l: nat)
    requires Enabled(s, e) && l < |s.loops| && s.loops[l].cancelled
    ensures
      var s' := Step(s, e);
      l < |s'.loops| && s'.loops[l].cancelled && NothingNew(s.loops[l].pc, s'.loops[l].pc)
  {
  }

  lemma {:induction false} CancelledRun(s: State, es: seq<Event>, s': State, l: nat)
    requires Run(s, es, s') && l < |s.loops| && s.loops[l].cancelled
    ensures l < |s'.loops| && s'.loops[l].cancelled && NothingNew(s.loops[l].pc, s'.loops[l].pc)
    decreases |es|
  {
    if es != [] {
      CancelledStep(s, es[0], l);
      CancelledRun(Step(s, es[0]), es[1..], s', l);
    }
  }

  /**
   A cancelled loop never installs a peer: in any continuation of any run it serves at
   most the peer it had when it was cancelled, and no peer of its is clientConn or
   registered again.
   */
  lemma CancelledNeverInstalls(es: seq<Event>, s: State, fs: seq<Event>, s': State, l: nat)
    requires Run(EMPTY, es, s) && Run(s, fs, s') && l < |s.loops| && s.loops[l].cancelled
    ensures l < |s'.loops| && s'.loops[l].cancelled && NothingNew(s.loops[l].pc, s'.loops[l].pc)
    ensures forall p :: LoopHas(s', l, p) ==> s'.clientConn != Just(p) && p !in s'.connections
  {
    ReachInv(es, s);
    RunInv(s, fs, s');
    CancelledRun(s, fs, s', l);
    forall p | LoopHas(s', l, p) ensures s'.clientConn != Just(p) && p !in s'.connections {
      assert p !in s'.accepted;
      assert p in s'.connections ==> p in s'.connections - s'.accepted;
    }
  }

  /** The steps a cancelled loop still has to take. */
  function Fuel(pc: LoopPc): nat {
    match pc
    case Unstarted(_) => 7
    case Serving(_) => 6
    case Closing(_) => 5
    case Leaving(_) => 4
    case Checking => 3
    case Retrying => 3
    case Dialled(_) => 2
    case Dropping(_) => 1
    case Done => 0
  }

  lemma OthersKeepFuel(s: State, e: Event, l: nat)
    requires Enabled(s, e) && l < |s.loops| && s.loops[l].cancelled && !(OfLoop(e) && e.l == l)
    ensures
      var s' := Step(s, e);
      l < |s'.loops| && s'.loops[l].cancelled && Fuel(s'.loops[l].pc) <= Fuel(s.loops[l].pc)
  {
  }

  lemma OwnStepsUseFuel(s: State, e: Event)
    requires Enabled(s, e) && OfLoop(e) && s.loops[e.l].cancelled
    ensures
      var s' := Step(s, e);
      |s'.loops| == |s.loops| && s'.loops[e.l].cancelled && Fuel(s'.loops[e.l].pc) < Fuel(s.loops[e.l].pc)
  {
  }

  lemma CancelledStepCosts(s: State, e: Event, l: nat)
    requires Enabled(s, e) && l < |s.loops| && s.loops[l].cancelled
    ensures
      var s' := Step(s, e);
      && l < |s'.loops| && s'.loops[l].cancelled
      && Fuel(s'.loops[l].pc) + (if OfLoop(e) && e.l == l then 1 else 0) <= Fuel(s.loops[l].pc)
  {
    if OfLoop(e) && e.l == l {
      OwnStepsUseFuel(s, e);
    } else {
      OthersKeepFuel(s, e, l);
    }
  }

  function OwnSteps(es: seq<Event>, l: nat): nat {
    if es == [] then 0 else (if OfLoop(es[0]) && es[0].l == l then 1 else 0) + OwnSteps(es[1..], l)
  }

  /**
   In any run from its cancellation on, a loop takes at most seven more steps of its own,
   and then it has returned.
   */
  lemma {:induction false} CancelledLoopReturns(s: State, es: seq<Event>, s': State, l: nat)
    requires Run(s, es, s') && l < |s.loops| && s.loops[l].cancelled
    ensures l < |s'.loops| && s'.loops[l].cancelled
    ensures OwnSteps(es, l) + Fuel(s'.loops[l].pc) <= Fuel(s.loops[l].pc) <= 7
    ensures OwnSteps(es, l) == Fuel(s.loops[l].pc) ==> s'.loops[l].pc.Done?
    decreases |es|
  {
    if es != [] {
      CancelledStepCosts(s, es[0], l);
      CancelledLoopReturns(Step(s, es[0]), es[1..], s', l);
    }
  }

  /**
   And it is never stuck: in every reachable state a loop that has not returned has a
   step of its own, or the ConnectTo call that will start it has one.
   */
  lemma LoopCanMove(es: seq<Event>, s: State, l: nat) returns (e: Event)
    requires Run(EMPTY, es, s) && l < |s.loops| && !s.loops[l].pc.Done?
    ensures Enabled(s, e)
    ensures if s.loops[l].pc.Unstarted? then (e.ClosePrevious? || e.Go?) && s.threads[e.t].loop == l
            else OfLoop(e) && e.l == l
  {
    ReachInv(es, s);
    match s.loops[l].pc
    case Unstarted(_) =>
      assert IsPledged(s, l);
      var t :| 0 <= t < |s.threads| && Pledges(s.threads[t]) && s.threads[t].loop == l;
      e := if s.threads[t].Replacing? then ClosePrevious(t) else Go(t);
    case Serving(_) => e := ServeEnds(l);
    case Closing(_) => e := LoopCloses(l);
    case Leaving(_) => e := Unregister(l);
    case Checking => e := Check(l);
    case Retrying => e := RedialFails(l);
    case Dialled(_) => e := Reinstall(l);
    case Dropping(_) => e := Drop(l);
  }

  /** An installed loop that has not started is always started by the call that installed it. */
  lemma GoNeverBlocks(es: seq<Event>, s: State, t: nat)
    requires Run(EMPTY, es, s) && t < |s.threads| && s.threads[t].Starting?
    ensures Enabled(s, Go(t))
  {
    ReachInv(es, s);
  }

  lemma NothingOutbound(s: State)
    requires RegisteredOk(s) && s.clientConn.Nobody?
    ensures s.connections <= s.accepted
  {
    forall p | p in s.connections ensures p in s.accepted {
      assert p !in s.accepted ==> p in s.connections - s.accepted;
    }
  }

  predicate NoInstall(es: seq<Event>) {
    forall i :: 0 <= i < |es| ==> !es[i].Install?
  }

  lemma StaysDisconnected(s: State, e: Event)
    requires Inv(s) && Enabled(s, e) && !e.Install? && s.clientCancel.Nobody?
    ensures Step(s, e).clientCancel.Nobody? && Step(s, e).clientConn.Nobody?
  {
    StepInv(s, e);
  }

  /** After Disconnect, and until a ConnectTo succeeds, nothing ever reconnects. */
  lemma {:induction false} DisconnectStops(s: State, es: seq<Event>, s': State)
    requires Inv(s) && s.clientCancel.Nobody? && NoInstall(es) && Run(s, es, s')
    ensures s'.clientCancel.Nobody? && s'.clientConn.Nobody? && s'.connections <= s'.accepted
    decreases |es|
  {
    if es != [] {
      StaysDisconnected(s, es[0]);
      StepInv(s, es[0]);
      DisconnectStops(Step(s, es[0]), es[1..], s');
    } else {
      NothingOutbound(s);
    }
  }

  /** No caller is between a dial or a critical section and the close or start that follows it. */
  predicate Settled(s: State) {
    && (forall l :: 0 <= l < |s.loops| ==> s.loops[l].pc.Done?)
    && (forall t :: 0 <= t < |s.threads| ==>
          s.threads[t].Finished? || IsAccepted(s.threads[t]))
  }

  /**
   Every outbound connection ever dialled is open only while it is registered or held
   by a goroutine whose remaining steps install or close it; so once every loop and
   call has returned, none is open or registered.
   */
  lemma NoConnectionLeaks(es: seq<Event>, s: State)
    requires Run(EMPTY, es, s)
    ensures forall p :: p in s.sockets && p !in s.accepted ==> Safe(s, p)
    ensures Settled(s) ==> s.sockets <= s.accepted && s.connections <= s.accepted && s.clientCancel.Nobody?
  {
    ReachInv(es, s);
    if Settled(s) {
      NothingOutbound(s);
      forall p | p in s.sockets ensures p in s.accepted {
        assert p !in s.accepted ==> Safe(s, p);
      }
    }
  }

  /** Nothing about the accepted connections differs between the two states. */
  predicate SameAccepted(s: State, s': State) {
    && s'.accepted == s.accepted
    && s'.connections * s.accepted == s.connections * s.accepted
    && s'.sockets * s.accepted == s.sockets * s.accepted
  }

  lemma LoopsLeaveAccepted(s: State, e: Event)
    requires Inv(s) && Enabled(s, e) && OfLoop(e)
    ensures SameAccepted(s, Step(s, e))
  {
  }

  /** ConnectTo, Disconnect and the loops never touch accepted connections. */
  lemma AcceptedUntouched(s: State, e: Event)
    requires Inv(s) && Enabled(s, e) && (OfCaller(e) || OfLoop(e) || e.DialFails?)
    ensures SameAccepted(s, Step(s, e))
  {
    if OfLoop(e) {
      LoopsLeaveAccepted(s, e);
    }
  }
}
