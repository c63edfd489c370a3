/**
 What ConnectTo, Disconnect, reconnection and accepting achieve, in terms of the Server's
 fields and the sockets: who is registered, who can be sent to, and what is open.
 */
module OutboundRuns {
  import opened Outbound
  import opened OutboundInv

  // ----- what stays open -----

  /** A call is about to close p. */
  predicate WillClose(t: Thread, p: Conn) {
    (t.Replacing? && t.previous == p) || t == Disconnecting(p)
  }

  predicate Condemned(s: State, p: Conn) {
    exists t :: 0 <= t < |s.threads| && WillClose(s.threads[t], p)
  }

  /** A loop whose peer nobody else may close: it is not cancelled, or its peer is not yet known to anybody. */
  predicate Keeps(loop: Loop) {
    || loop.pc.Dialled? || loop.pc.Dropping?
    || (!loop.cancelled && (loop.pc.Unstarted? || loop.pc.Serving? || loop.pc.Closing?))
  }

  ghost predicate LoopOpen(s: State, l: nat) {
    l < |s.loops| && Keeps(s.loops[l]) ==> s.loops[l].pc.peer in s.sockets && !Condemned(s, s.loops[l].pc.peer)
  }

  ghost predicate ThreadOpen(s: State, t: nat) {
    t < |s.threads| && s.threads[t].Connecting? ==>
      s.threads[t].peer in s.sockets && !Condemned(s, s.threads[t].peer)
  }

  ghost predicate AllOpen(s: State) {
    (forall l: nat :: LoopOpen(s, l)) && (forall t: nat :: ThreadOpen(s, t))
  }

  /** Who is condemned was so before, or was the current peer. */
  lemma CondemnedBefore(s: State, e: Event, p: Conn)
    requires Enabled(s, e) && Condemned(Step(s, e), p)
    ensures Condemned(s, p) || ((e.Install? || e.Disconnect?) && s.clientConn == Just(p))
  {
    var s' := Step(s, e);
    var t :| 0 <= t < |s'.threads| && WillClose(s'.threads[t], p);
    if t < |s.threads| && WillClose(s.threads[t], p) {
      assert Condemned(s, p);
    }
  }

  /** What a step closes: what was condemned, an accepted connection, or the peer of the loop that moves. */
  lemma ClosedBefore(s: State, e: Event, p: Conn)
    requires Accepts(s) && Enabled(s, e) && p in s.sockets && p !in Step(s, e).sockets
    ensures || Condemned(s, p) || p in s.accepted
            || ((e.LoopCloses? || e.Drop?) && LoopHas(s, e.l, p))
  {
    if e.ClosePrevious? || e.ClosePeer? {
      assert WillClose(s.threads[e.t], p);
    }
  }

  lemma CondemnedIsOld(s: State, p: Conn)
    requires Accepts(s) && Condemned(s, p)
    ensures p < s.next
  {
  }

  /** A loop that keeps its peer afterwards kept it before, or has just got it. */
  lemma KeptBefore(s: State, e: Event, l: nat)
    requires Enabled(s, e) && l < |Step(s, e).loops| && Keeps(Step(s, e).loops[l])
    ensures var p := Step(s, e).loops[l].pc.peer;
            || (l < |s.loops| && Keeps(s.loops[l]) && s.loops[l].pc.peer == p
                && !((e.LoopCloses? || e.Drop?) && e.l == l))
            || (e == RedialSucceeds(l) && p == s.next)
            || (e.Install? && l == |s.loops| && s.threads[e.t] == Connecting(p))
  {
  }

  lemma StepLoopOpen(s: State, e: Event, l: nat)
    requires Inv(s) && AllOpen(s) && Enabled(s, e)
    ensures LoopOpen(Step(s, e), l)
  {
    var s' := Step(s, e);
    if l < |s'.loops| && Keeps(s'.loops[l]) {
      var p := s'.loops[l].pc.peer;
      KeptBefore(s, e, l);
      if l < |s.loops| && Keeps(s.loops[l]) && s.loops[l].pc.peer == p {
        assert LoopOpen(s, l);
        KeptStaysOpen(s, e, l, p);
      } else if e.Install? {
        assert ThreadOpen(s, e.t);
        if Condemned(s', p) { CondemnedBefore(s, e, p); }
      } else if Condemned(s', p) {
        CondemnedBefore(s, e, p);
        CondemnedIsOld(s, p);
      }
    }
  }

  lemma KeptStaysOpen(s: State, e: Event, l: nat, p: Conn)
    requires Inv(s) && Enabled(s, e) && l < |s.loops| && Keeps(s.loops[l]) && s.loops[l].pc.peer == p
    requires l < |Step(s, e).loops| && Keeps(Step(s, e).loops[l]) && Step(s, e).loops[l].pc.peer == p
    requires p in s.sockets && !Condemned(s, p) && !((e.LoopCloses? || e.Drop?) && e.l == l)
    ensures p in Step(s, e).sockets && !Condemned(Step(s, e), p)
  {
    if p !in Step(s, e).sockets {
      ClosedBefore(s, e, p);
    }
    if Condemned(Step(s, e), p) {
      CondemnedBefore(s, e, p);
    }
  }

  lemma ConnectingBefore(s: State, e: Event, t: nat)
    requires Enabled(s, e) && t < |Step(s, e).threads| && Step(s, e).threads[t].Connecting?
    ensures var p := Step(s, e).threads[t].peer;
            (t < |s.threads| && s.threads[t] == Connecting(p)) || (e.DialSucceeds? && p == s.next)
  {
  }

  lemma StepThreadOpen(s: State, e: Event, t: nat)
    requires Inv(s) && AllOpen(s) && Enabled(s, e)
    ensures ThreadOpen(Step(s, e), t)
  {
    var s' := Step(s, e);
    if t < |s'.threads| && s'.threads[t].Connecting? {
      var p := s'.threads[t].peer;
      ConnectingBefore(s, e, t);
      if t < |s.threads| && s.threads[t] == Connecting(p) {
        assert ThreadOpen(s, t);
        if p !in s'.sockets { ClosedBefore(s, e, p); }
        if Condemned(s', p) { CondemnedBefore(s, e, p); }
      } else if Condemned(s', p) {
        CondemnedBefore(s, e, p);
        CondemnedIsOld(s, p);
      }
    }
  }

  lemma {:induction false} RunOpen(s: State, es: seq<Event>, s': State)
    requires Inv(s) && AllOpen(s) && Run(s, es, s')
    ensures Inv(s') && AllOpen(s')
    decreases |es|
  {
    if es != [] {
      forall l: nat ensures LoopOpen(Step(s, es[0]), l) { StepLoopOpen(s, es[0], l); }
      forall t: nat ensures ThreadOpen(Step(s, es[0]), t) { StepThreadOpen(s, es[0], t); }
      StepInv(s, es[0]);
      RunOpen(Step(s, es[0]), es[1..], s');
    }
  }

  lemma ReachOpen(es: seq<Event>, s: State)
    requires Run(EMPTY, es, s)
    ensures Inv(s) && AllOpen(s)
  {
    RunOpen(EMPTY, es, s);
  }

  // ----- what the critical sections achieve -----

  /** p is the one outbound connection: commands go to it, it is registered, and its socket is open. */
  predicate Connected(s: State, p: Conn) {
    s.clientConn == Just(p) && p in s.sockets && s.connections - s.accepted == {p}
  }

  /** No outbound connection is registered, and commands are refused. */
  predicate NotConnected(s: State) {
    s.clientConn == Nobody && s.connections <= s.accepted
  }

  /** Apart from the outbound connection, everything registered and every accepted socket is as it was. */
  predicate InboundKept(s: State, s': State) {
    && s'.connections * s.accepted == s.connections * s.accepted && s'.accepted == s.accepted
    && s'.sockets * s.accepted == s.sockets * s.accepted
  }

  /**
   A ConnectTo whose dial succeeded replaces whatever there was: its connection is the one
   outbound connection, its loop is the only one that is not cancelled, and the call goes
   on to close the previous connection, if there was one.
   */
  lemma ConnectToConnects(es: seq<Event>, s: State, t: nat, p: Conn)
    requires Run(EMPTY, es, s) && t < |s.threads| && s.threads[t] == Connecting(p)
    ensures
      var s' := Step(s, Install(t));
      var l := |s.loops|;
      && Connected(s', p) && InboundKept(s, s')
      && |s'.loops| == l + 1 && s'.loops[l] == Loop(false, Unstarted(p)) && s'.clientCancel == Just(l)
      && (forall k :: 0 <= k < l ==> s'.loops[k] == s.loops[k].(cancelled := true))
      && s'.sockets == s.sockets
      && s'.threads[t] == if s.clientConn.Just? then Replacing(s.clientConn.value, l) else Starting(l)
  {
    ReachOpen(es, s);
    assert ThreadOpen(s, t);
    StepInv(s, Install(t));
    AcceptedUntouched(s, Install(t));
  }

  /** It then closes the previous connection, and starts serving its own. */
  lemma ConnectToGoesOn(es: seq<Event>, s: State, t: nat)
    requires Run(EMPTY, es, s) && t < |s.threads|
    ensures s.threads[t].Replacing? ==>
              var s' := Step(s, ClosePrevious(t));
              && s' == s.(sockets := s.sockets - {s.threads[t].previous}, threads := s'.threads)
              && s'.threads[t] == Starting(s.threads[t].loop)
    ensures s.threads[t].Starting? ==>
              && Enabled(s, Go(t))
              && var s' := Step(s, Go(t));
                 var l := s.threads[t].loop;
                 && s' == s.(threads := s'.threads, loops := s'.loops) && s'.threads[t].Finished?
                 && s.loops[l].pc.Unstarted?
                 && s'.loops == s.loops[l := Loop(s.loops[l].cancelled, Serving(s.loops[l].pc.peer))]
  {
    ReachOpen(es, s);
  }

  /**
   After Disconnect there is no outbound connection and every loop is cancelled; the call
   goes on to close the connection there was, and nothing else is closed.
   */
  lemma DisconnectDisconnects(es: seq<Event>, s: State)
    requires Run(EMPTY, es, s)
    ensures
      var s' := Step(s, Disconnect);
      && NotConnected(s') && InboundKept(s, s') && s'.clientCancel == Nobody && s'.sockets == s.sockets
      && |s'.loops| == |s.loops| && (forall k :: 0 <= k < |s.loops| ==> s'.loops[k] == s.loops[k].(cancelled := true))
      && s'.threads == s.threads + if s.clientConn.Just? then [Disconnecting(s.clientConn.value)] else []
  {
    ReachOpen(es, s);
    StepInv(s, Disconnect);
    NothingOutbound(Step(s, Disconnect));
    AcceptedUntouched(s, Disconnect);
  }

  lemma DisconnectCloses(s: State, t: nat, p: Conn)
    requires t < |s.threads| && s.threads[t] == Disconnecting(p)
    ensures var s' := Step(s, ClosePeer(t));
            s' == s.(sockets := s.sockets - {p}, threads := s'.threads) && s'.threads[t].Finished?
  {
  }

  /**
   A loop that has redialled installs its connection if it has not been cancelled, and
   otherwise leaves everything alone and goes on to close it.
   */
  lemma ReconnectInstalls(es: seq<Event>, s: State, l: nat, p: Conn)
    requires Run(EMPTY, es, s) && l < |s.loops| && s.loops[l].pc == Dialled(p)
    ensures
      var s' := Step(s, Reinstall(l));
      && InboundKept(s, s') && s'.sockets == s.sockets && s'.threads == s.threads && s'.clientCancel == s.clientCancel
      && (!s.loops[l].cancelled ==> Connected(s', p) && s'.loops == s.loops[l := Loop(false, Serving(p))])
      && (s.loops[l].cancelled ==>
            && s'.clientConn == s.clientConn && s'.connections == s.connections
            && s'.loops == s.loops[l := Loop(true, Dropping(p))] && p in s'.sockets
            && p !in Step(s', Drop(l)).sockets && Step(s', Drop(l)).loops[l].pc.Done?)
  {
    ReachOpen(es, s);
    assert LoopOpen(s, l);
    StepInv(s, Reinstall(l));
    AcceptedUntouched(s, Reinstall(l));
  }

  lemma RunSnoc(s: State, es: seq<Event>, s1: State, e: Event)
    requires Run(s, es, s1) && Enabled(s1, e)
    ensures Run(s, es + [e], Step(s1, e))
    decreases |es|
  {
    if es == [] {
      assert [e][1..] == [];
    } else {
      RunSnoc(Step(s, es[0]), es[1..], s1, e);
      assert (es + [e])[1..] == es[1..] + [e];
    }
  }

  /** The state when the connection has ended, been closed and been unregistered. */
  function AfterLoss(s: State, l: nat, p: Conn): State
    requires l < |s.loops|
  {
    s.(loops := s.loops[l := Loop(s.loops[l].cancelled, Checking)], sockets := s.sockets - {p},
       connections := s.connections - {p}, clientConn := if s.clientConn == Just(p) then Nobody else s.clientConn)
  }

  lemma LossSteps(s: State, l: nat, p: Conn)
    requires l < |s.loops| && s.loops[l].pc == Serving(p)
    ensures Enabled(s, ServeEnds(l))
    ensures var s1 := Step(s, ServeEnds(l));
            && Enabled(s1, LoopCloses(l))
            && var s2 := Step(s1, LoopCloses(l));
               Enabled(s2, Unregister(l)) && Step(s2, Unregister(l)) == AfterLoss(s, l, p)
  {
    var s1 := Step(s, ServeEnds(l));
    var s2 := Step(s1, LoopCloses(l));
    assert s1.loops == s.loops[l := Loop(s.loops[l].cancelled, Closing(p))];
    assert s2.loops == s.loops[l := Loop(s.loops[l].cancelled, Leaving(p))];
    assert Step(s2, Unregister(l)).loops == s.loops[l := Loop(s.loops[l].cancelled, Checking)];
  }

  lemma NobodyLeft(es: seq<Event>, s: State, l: nat, p: Conn)
    requires Run(EMPTY, es, s) && l < |s.loops| && s.loops[l] == Loop(false, Serving(p))
    ensures Connected(s, p) && s.clientCancel == Just(l) && p !in s.accepted && s.next !in s.accepted
    ensures NotConnected(AfterLoss(s, l, p)) && InboundKept(s, AfterLoss(s, l, p))
  {
    ReachOpen(es, s);
    assert LoopOpen(s, l);
    assert s.connections - s.accepted == Current(s) == {p};
    forall q | q in s.connections && q != p ensures q in s.accepted {
      assert q !in s.connections - s.accepted;
    }
  }

  /** The state when the loop has dialled again. */
  function AfterRedial(s: State, l: nat): State
    requires l < |s.loops|
  {
    s.(loops := s.loops[l := Loop(false, Dialled(s.next))], sockets := s.sockets + {s.next}, next := s.next + 1)
  }

  /**
   The whole of automatic reconnection: when the connection of a loop that is not cancelled
   ends, it is closed and unregistered and commands are refused; the loop goes on, and once
   a dial succeeds, the new connection is the one outbound connection and is being served.
   */
  lemma Reconnects(es: seq<Event>, s: State, l: nat, p: Conn) returns (s1: State, s2: State, s3: State)
    requires Run(EMPTY, es, s) && l < |s.loops| && s.loops[l] == Loop(false, Serving(p))
    ensures Connected(s, p)
    ensures Run(s, [ServeEnds(l), LoopCloses(l), Unregister(l)], s1)
    ensures NotConnected(s1) && s1.sockets == s.sockets - {p} && InboundKept(s, s1)
    ensures Run(s1, [Check(l), RedialSucceeds(l)], s2) && NotConnected(s2)
    ensures Enabled(s2, Reinstall(l)) && s3 == Step(s2, Reinstall(l))
    ensures Connected(s3, s.next) && InboundKept(s, s3) && s3.sockets == s.sockets - {p} + {s.next}
    ensures s3.loops == s.loops[l := Loop(false, Serving(s.next))] && s3.clientCancel == Just(l)
  {
    NobodyLeft(es, s, l, p);
    LossRuns(s, l, p);
    s1 := AfterLoss(s, l, p);
    RedialRuns(s1, l);
    s2 := AfterRedial(s1, l);
    s3 := Step(s2, Reinstall(l));
    ReinstalledAfterLoss(s, l, p);
  }

  lemma ReinstalledAfterLoss(s: State, l: nat, p: Conn)
    requires l < |s.loops| && s.loops[l] == Loop(false, Serving(p))
    requires p !in s.accepted && s.next !in s.accepted
    requires NotConnected(AfterLoss(s, l, p)) && InboundKept(s, AfterLoss(s, l, p))
    ensures
      var s2 := AfterRedial(AfterLoss(s, l, p), l);
      && Enabled(s2, Reinstall(l))
      && var s3 := Step(s2, Reinstall(l));
         && Connected(s3, s.next) && InboundKept(s, s3) && s3.sockets == s.sockets - {p} + {s.next}
         && s3.loops == s.loops[l := Loop(false, Serving(s.next))] && s3.clientCancel == s.clientCancel
  {
    var s1 := AfterLoss(s, l, p);
    assert (s1.connections + {s.next}) - s.accepted == {s.next};
  }

  lemma LossRuns(s: State, l: nat, p: Conn)
    requires l < |s.loops| && s.loops[l].pc == Serving(p)
    ensures Run(s, [ServeEnds(l), LoopCloses(l), Unregister(l)], AfterLoss(s, l, p))
  {
    LossSteps(s, l, p);
    var s1 := Step(s, ServeEnds(l));
    var s2 := Step(s1, LoopCloses(l));
    assert Run(s, [], s);
    RunSnoc(s, [], s, ServeEnds(l));
    RunSnoc(s, [ServeEnds(l)], s1, LoopCloses(l));
    RunSnoc(s, [ServeEnds(l), LoopCloses(l)], s2, Unregister(l));
    assert [] + [ServeEnds(l)] == [ServeEnds(l)];
    assert [ServeEnds(l)] + [LoopCloses(l)] == [ServeEnds(l), LoopCloses(l)];
    assert [ServeEnds(l), LoopCloses(l)] + [Unregister(l)] == [ServeEnds(l), LoopCloses(l), Unregister(l)];
  }

  lemma RedialRuns(s: State, l: nat)
    requires l < |s.loops| && s.loops[l] == Loop(false, Checking)
    ensures Run(s, [Check(l), RedialSucceeds(l)], AfterRedial(s, l))
  {
    var s1 := Step(s, Check(l));
    assert s1.loops == s.loops[l := Loop(false, Retrying)];
    var s2 := Step(s1, RedialSucceeds(l));
    assert s2.loops == s.loops[l := Loop(false, Dialled(s.next))];
    assert [Check(l), RedialSucceeds(l)][1..] == [RedialSucceeds(l)] && [RedialSucceeds(l)][1..] == [];
  }

  // ----- accepted connections -----

  /**
   An accepted connection is registered and served, and when it ends it is closed and
   unregistered; the outbound connection and all others are as they were.
   */
  lemma AcceptedServed(es: seq<Event>, s: State, t: nat, p: Conn)
    requires Run(EMPTY, es, s) && t < |s.threads| && s.threads[t] == Accepting(p)
    ensures
      var s1 := Step(s, RegisterAccepted(t));
      && s1 == s.(connections := s.connections + {p}, threads := s.threads[t := Attending(p)])
      && Enabled(s1, AttendEnds(t))
      && var s2 := Step(s1, AttendEnds(t));
         && s2 == s1.(sockets := s.sockets - {p}, threads := s.threads[t := Parting(p)])
         && Enabled(s2, UnregisterAccepted(t))
         && Step(s2, UnregisterAccepted(t)) ==
            s2.(connections := s.connections - {p}, threads := s.threads[t := Finished])
  {
    ReachOpen(es, s);
    var s1 := Step(s, RegisterAccepted(t));
    var s2 := Step(s1, AttendEnds(t));
    assert s.clientConn != Just(p);
    assert s2.threads == s.threads[t := Parting(p)];
    assert Step(s2, UnregisterAccepted(t)).threads == s.threads[t := Finished];
  }

  /** New connections get new numbers and are open. */
  lemma DialsAndAccepts(es: seq<Event>, s: State)
    requires Run(EMPTY, es, s)
    ensures s.next !in s.sockets && s.next !in s.accepted
    ensures Step(s, DialFails) == s
    ensures var s' := Step(s, DialSucceeds);
            s' == s.(sockets := s.sockets + {s.next}, threads := s.threads + [Connecting(s.next)], next := s.next + 1)
    ensures var s' := Step(s, Accept);
            && s'.sockets == s.sockets + {s.next} && s'.accepted == s.accepted + {s.next}
            && s'.threads == s.threads + [Accepting(s.next)]
  {
    ReachInv(es, s);
  }
}
