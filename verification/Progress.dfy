/**
 Runs end well: a writer whose context has ended lets go of the lock within a bounded
 number of steps, and so does every sendCmd return, by steps of its own.
 */
module Progress {
  import opened Correlation
  import opened Duplex
  import opened DuplexInv
  import opened Requests
  import opened Wire
  import L = Line

  // ----- one writer -----

  /** The steps a writer's goroutine has before it; bytes count only while a write can succeed. */
  function StateSteps(x: L.Writer, doomed: bool): nat {
    var size := |Framed(x.frame)|;
    match x.st
    case Waiting => size + 10
    case Locked => size + 9
    case Ready => size + 8
    case Arming => size + 7
    case Writing(_) => (if doomed then 0 else L.Rest(x)) + 6
    case Wrote(_) => 5
    case Awaiting(_) => 4
    case Resetting(_) => 3
    case Closing => 2
    case Releasing(_) => 1
    case Returned(_) => 0
  }

  /** And those of its cancellation callback. */
  function CallbackSteps(cb: L.Callback): nat {
    match cb
    case Unset => 3
    case Armed => 3
    case Fired => 2
    case Expired => 1
    case Finished => 0
    case Stopped => 0
  }

  function CloseSteps(p: L.Phase): nat {
    match p
    case Open => 3
    case Cancelled => 2
    case NetClosed => 1
    case Closed => 0
  }

  function StepsLeft(l: L.Line, w: nat): nat
    requires w in l.writers
  {
    StateSteps(l.writers[w], L.Doomed(l)) + CallbackSteps(l.writers[w].cb) + CloseSteps(l.phase)
  }

  predicate Helps(e: L.Event, w: nat) {
    L.OwnStep(e, w) || L.Closes(e)
  }

  lemma EarlySpends(l: L.Line, e: L.Event, w: nat)
    requires L.LockOk(l) && L.Enabled(l, e) && L.Early(e) && L.OwnStep(e, w)
    ensures StepsLeft(L.Step(l, e), w) < StepsLeft(l, w)
  {
    WritersMoved(l, e);
    assert L.WriterOk(l, w);
  }

  lemma MiddleSpends(l: L.Line, e: L.Event, w: nat)
    requires L.LockOk(l) && L.Enabled(l, e) && L.Middle(e) && L.OwnStep(e, w)
    ensures StepsLeft(L.Step(l, e), w) < StepsLeft(l, w)
  {
    WritersMoved(l, e);
    assert L.WriterOk(l, w);
  }

  lemma WriteSpends(l: L.Line, e: L.Event, w: nat)
    requires L.LockOk(l) && L.Enabled(l, e) && (e.Chunk? || e.Fail?) && e.w == w
    ensures StepsLeft(L.Step(l, e), w) < StepsLeft(l, w)
  {
    WritersMoved(l, e);
    assert L.WriterOk(l, w);
  }

  lemma StopSpends(l: L.Line, e: L.Event, w: nat)
    requires L.LockOk(l) && L.Enabled(l, e) && e.Stop? && e.w == w
    ensures StepsLeft(L.Step(l, e), w) < StepsLeft(l, w)
  {
    WritersMoved(l, e);
    assert L.WriterOk(l, w);
  }

  lemma ResumeSpends(l: L.Line, e: L.Event, w: nat)
    requires L.LockOk(l) && L.Enabled(l, e) && e.Resume? && e.w == w
    ensures StepsLeft(L.Step(l, e), w) < StepsLeft(l, w)
  {
    WritersMoved(l, e);
    assert L.WriterOk(l, w);
  }

  lemma LateSpends(l: L.Line, e: L.Event, w: nat)
    requires L.LockOk(l) && L.Enabled(l, e) && (e.Reset? || e.FinishClose? || e.Release?) && e.w == w
    ensures StepsLeft(L.Step(l, e), w) < StepsLeft(l, w)
  {
    WritersMoved(l, e);
    assert L.WriterOk(l, w);
  }

  lemma HelpSpends(l: L.Line, e: L.Event, w: nat)
    requires L.LockOk(l) && L.Enabled(l, e) && w in l.writers && Helps(e, w)
    ensures w in L.Step(l, e).writers && StepsLeft(L.Step(l, e), w) < StepsLeft(l, w)
  {
    if L.Closes(e) {
    } else if L.Early(e) {
      EarlySpends(l, e, w);
    } else if L.Middle(e) {
      MiddleSpends(l, e, w);
    } else if e.Stop? {
      StopSpends(l, e, w);
    } else if e.Resume? {
      ResumeSpends(l, e, w);
    } else if L.Late(e) {
      LateSpends(l, e, w);
    } else {
      WriteSpends(l, e, w);
    }
  }

  /** Only the holder resets or extends the deadline, so nobody else gives a doomed writer time. */
  lemma DoomStays(l: L.Line, e: L.Event, w: nat)
    requires L.LockOk(l) && L.Enabled(l, e) && l.lock == L.Held(w) && L.Doomed(l) && !L.OwnStep(e, w)
    ensures L.Doomed(L.Step(l, e))
  {
    if !L.Phasing(e) && !e.Enter? {
      assert L.WriterOk(l, e.w);
    }
  }

  lemma OthersCostNothing(l: L.Line, e: L.Event, w: nat)
    requires L.LockOk(l) && L.Enabled(l, e) && w in l.writers && !Helps(e, w)
    ensures w in L.Step(l, e).writers && StepsLeft(L.Step(l, e), w) <= StepsLeft(l, w)
  {
    var l' := L.Step(l, e);
    assert L.WriterOk(l, w);
    if !L.Phasing(e) {
      WritersMoved(l, e);
      if e.w == w {
        assert l'.writers[w] == l.writers[w].(ctxDone := true);
      } else {
        assert l'.writers[w] == l.writers[w];
      }
    }
    assert l'.writers[w].st == l.writers[w].st && l'.writers[w].cb == l.writers[w].cb;
    if l.writers[w].st.Writing? && L.Doomed(l) {
      DoomStays(l, e, w);
    }
  }

  function Helpful(es: seq<L.Event>, w: nat): nat {
    if es == [] then 0 else (if Helps(es[0], w) then 1 else 0) + Helpful(es[1..], w)
  }

  lemma StepCosts(l: L.Line, e: L.Event, w: nat)
    requires L.LockOk(l) && L.Enabled(l, e) && w in l.writers
    ensures w in L.Step(l, e).writers
    ensures StepsLeft(L.Step(l, e), w) + (if Helps(e, w) then 1 else 0) <= StepsLeft(l, w)
  {
    if Helps(e, w) {
      HelpSpends(l, e, w);
    } else {
      OthersCostNothing(l, e, w);
    }
  }

  lemma {:induction false} RunCosts(l: L.Line, es: seq<L.Event>, l': L.Line, w: nat)
    requires L.Inv(l) && w in l.writers && L.Run(l, es, l')
    ensures L.Inv(l') && w in l'.writers && Helpful(es, w) + StepsLeft(l', w) <= StepsLeft(l, w)
    decreases |es|
  {
    if es != [] {
      StepCosts(l, es[0], w);
      L.StepInv(l, es[0]);
      RunCosts(L.Step(l, es[0]), es[1..], l', w);
    }
  }

  lemma NothingLeft(l: L.Line, w: nat)
    requires L.LockOk(l) && w in l.writers && StepsLeft(l, w) == 0
    ensures l.writers[w].st.Returned? && l.lock != L.Held(w)
  {
    assert L.WriterOk(l, w);
  }

  /**
   In any run, whatever others do, the steps of a writer, of its callback and of close
   are bounded, and when they are used up it has returned.  A write that can no longer
   succeed, because the callback has set the deadline, the deadline has passed, or the
   socket is closed, leaves at most twelve.
   */
  lemma WriterLetsGo(l: L.Line, es: seq<L.Event>, l': L.Line, w: nat)
    requires L.Inv(l) && w in l.writers && L.Run(l, es, l')
    ensures w in l'.writers && Helpful(es, w) <= StepsLeft(l, w)
    ensures Helpful(es, w) == StepsLeft(l, w) ==> l'.writers[w].st.Returned? && l'.lock != L.Held(w)
    ensures L.IsWriting(l, w) && L.Doomed(l) ==> StepsLeft(l, w) <= 12
  {
    RunCosts(l, es, l', w);
    if Helpful(es, w) == StepsLeft(l, w) {
      NothingLeft(l', w);
    }
  }

  // ----- what holds when a call starts to write -----

  /** Every job with a frame has entered writeFrame, and every unregistered command is of legal size. */
  predicate Entered(me: Endpoint) {
    && (forall i :: 0 <= i < |me.jobs| && HasFrame(me.jobs[i]) ==> i in me.out.writers)
    && (forall i :: 0 <= i < |me.jobs| && me.jobs[i].Call? && me.jobs[i].pc.Checked? ==>
          FrameSized(CommandFrame(Command(0, me.jobs[i].id, me.jobs[i].payload))))
  }

  lemma CallEntered(me: Endpoint, bytes: seq<byte>, e: Event)
    requires Enabled(me, bytes, e) && OfCall(e) && !e.Register? && Entered(me)
    ensures Entered(Step(me, bytes, e))
  {
  }

  lemma RegisterEntered(me: Endpoint, bytes: seq<byte>, e: Event)
    requires Enabled(me, bytes, e) && e.Register? && Entered(me)
    ensures Entered(Step(me, bytes, e))
  {
  }

  lemma DecodeEntered(me: Endpoint, bytes: seq<byte>, e: Event)
    requires Enabled(me, bytes, e) && e.Decode? && Entered(me)
    ensures Entered(Step(me, bytes, e))
  {
  }

  lemma HandlerEntered(me: Endpoint, bytes: seq<byte>, e: Event)
    requires Enabled(me, bytes, e) && OfHandler(e) && !e.Decode? && Entered(me)
    ensures Entered(Step(me, bytes, e))
  {
  }

  lemma NetEntered(me: Endpoint, bytes: seq<byte>, e: Event)
    requires Enabled(me, bytes, e) && e.Net? && Entered(me)
    ensures Entered(Step(me, bytes, e))
  {
    SameFrames(me.out, e.le);
  }

  lemma SpawnEntered(me: Endpoint, j: Job)
    requires CanSpawn(me, j) && Entered(me) && !j.Call?
    ensures Entered(Spawn(me, j))
  {
    var me' := Spawn(me, j);
    assert me'.jobs == me.jobs + [j] && me.out.writers.Keys <= me'.out.writers.Keys;
    forall i | 0 <= i < |me'.jobs| && HasFrame(me'.jobs[i]) ensures i in me'.out.writers {
      if i < |me.jobs| {
        assert i in me.out.writers.Keys;
      }
    }
  }

  lemma ReadEntered(me: Endpoint, bytes: seq<byte>, e: Event)
    requires Enabled(me, bytes, e) && e.ReadFrame? && Entered(me)
    ensures Entered(Step(me, bytes, e))
  {
    var found := Incoming(me, bytes);
    var taken := if found.Whole? then me.(consumed := me.consumed + |Framed(found.frame)|, read := me.read + 1) else me;
    var j := ReadJob(me, found);
    if j.Some? {
      SpawnEntered(taken, j.value);
      assert Entered(Spawn(taken, j.value));
    }
  }

  lemma ReaderEntered(me: Endpoint, bytes: seq<byte>, e: Event)
    requires Enabled(me, bytes, e) && OfReader(e) && Entered(me)
    ensures Entered(Step(me, bytes, e))
  {
  }

  lemma StepEntered(me: Endpoint, bytes: seq<byte>, e: Event)
    requires Enabled(me, bytes, e) && Entered(me)
    ensures Entered(Step(me, bytes, e))
  {
    if e.Register? { RegisterEntered(me, bytes, e); }
    else if OfCall(e) { CallEntered(me, bytes, e); }
    else if e.Decode? { DecodeEntered(me, bytes, e); }
    else if OfHandler(e) { HandlerEntered(me, bytes, e); }
    else if e.Net? { NetEntered(me, bytes, e); }
    else if e.ReadFrame? { ReadEntered(me, bytes, e); }
    else { ReaderEntered(me, bytes, e); }
  }

  lemma {:induction false} RunEntered(s: System, es: seq<(Side, Event)>, s': System)
    requires Run(s, es, s') && Entered(s.left) && Entered(s.right)
    ensures Entered(s'.left) && Entered(s'.right)
    decreases |es|
  {
    if es != [] {
      StepEntered(At(s, es[0].0), At(s, Other(es[0].0)).out.bytes, es[0].1);
      RunEntered(SysStep(s, es[0].0, es[0].1), es[1..], s');
    }
  }

  /** The allocation loop finds an ID as long as fewer than 2^32 requests are pending. */
  lemma SomeIdIsFree(ticks: nat, used: set<uint32>, n: nat) returns (tick: nat)
    requires |used| < TWO32 && n <= |used| && forall t :: ticks < t <= ticks + n ==> IdOf(t) in used
    ensures Allocates(ticks, used, tick)
    decreases |used| - n
  {
    tick := ticks + n + 1;
    if IdOf(tick) in used {
      UsedIds(ticks, n + 1, used);
      tick := SomeIdIsFree(ticks, used, n + 1);
    }
  }

  // ----- one call -----

  /** A step of the call, of its writer or callback, the end of its context, or a statement of close. */
  predicate Drives(e: Event, c: nat) {
    if e.Net? then e.le == L.CtxDone(c) || Helps(e.le, c) else OfCall(e) && !e.StartCall? && e.c == c
  }

  /** The same, with statements of close only while the call's writer is itself inside close. */
  predicate Serves(me: Endpoint, e: Event, c: nat) {
    && Drives(e, c)
    && (e.Net? && L.Closes(e.le) ==> c in me.out.writers && me.out.writers[c].st.Closing?)
  }

  /**
   A call that has not returned can take a step of its own, whatever the peer does or
   does not do.  If that step is a failing write, it cannot but fail.
   */
  lemma CallMoves(me: Endpoint, peer: Endpoint, c: nat) returns (e: Event)
    requires L.Inv(me.out) && LocalInv(me, peer.out.log) && Entered(me)
    requires IsCall(me, c) && !me.jobs[c].pc.Gone? && (me.jobs[c].pc.Checked? ==> |me.pending| < TWO32)
    ensures Enabled(me, peer.out.bytes, e) && Serves(me, e, c)
    ensures e.Net? && e.le.Fail? ==> L.Doomed(me.out)
  {
    var pc := me.jobs[c].pc;
    if pc.Checked? {
      assert |me.pending.Keys| == |me.pending|;
      var tick := SomeIdIsFree(me.ticks, me.pending.Keys, 0);
      e := Register(c, tick);
    } else if pc.Leaving? {
      e := Cleanup(c);
    } else if !me.out.writers[c].ctxDone {
      e := Net(L.CtxDone(c));
    } else if pc.Waiting? {
      e := TimeOut(c);
    } else if me.out.writers[c].st.Returned? {
      e := WriteReturns(c);
    } else {
      var le := CancelledWriterMoves(me.out, c);
      e := Net(le);
    }
  }

  lemma CancelledWriterMoves(l: L.Line, w: nat) returns (e: L.Event)
    requires L.Inv(l) && w in l.writers && l.writers[w].ctxDone && !l.writers[w].st.Returned?
    ensures L.Enabled(l, e) && !e.Enter? && Helps(e, w) && (L.Closes(e) ==> l.writers[w].st.Closing?)
    ensures e.Fail? ==> L.Doomed(l)
  {
    assert L.WriterOk(l, w);
    if l.writers[w].st.Waiting? {
      e := L.GiveUp(w);
    } else {
      e := L.HolderCanMove(l);
    }
  }

  function PcSteps(pc: CallPc): nat {
    match pc
    case Checked => 4
    case Sending => 3
    case Waiting => 2
    case Leaving(_) => 1
    case Gone(_) => 0
  }

  /** A writer's steps and the end of its context; before it enters, those of any writer with a frame of that size. */
  function LineLeft(l: L.Line, w: nat, size: nat): nat {
    if w in l.writers then StepsLeft(l, w) + (if l.writers[w].ctxDone then 0 else 1)
    else size + 14 + CloseSteps(l.phase)
  }

  function CallSize(j: Job): nat
    requires j.Call?
  {
    |Framed(CommandFrame(CallCommand(j)))|
  }

  /** The steps that a call has before it. */
  function CallLeft(me: Endpoint, c: nat): nat
    requires IsCall(me, c)
  {
    PcSteps(me.jobs[c].pc) + LineLeft(me.out, c, CallSize(me.jobs[c]))
  }

  lemma CallSizeIs(j: Job)
    requires j.Call?
    ensures CallSize(j) == |j.payload| + 22
  {
  }

  lemma ContextMoves(l: L.Line, e: L.Event, w: nat)
    requires L.Enabled(l, e) && w in l.writers
    ensures w in L.Step(l, e).writers
    ensures L.Step(l, e).writers[w].ctxDone <==> l.writers[w].ctxDone || e == L.CtxDone(w)
  {
    if !L.Phasing(e) {
      WritersMoved(l, e);
    }
  }

  lemma NotYetThere(l: L.Line, e: L.Event, w: nat)
    requires L.Enabled(l, e) && w !in l.writers && (e.Enter? ==> e.w != w)
    ensures w !in L.Step(l, e).writers && e != L.CtxDone(w) && !L.OwnStep(e, w)
    ensures CloseSteps(L.Step(l, e).phase) + (if L.Closes(e) then 1 else 0) <= CloseSteps(l.phase)
  {
    if !L.Phasing(e) {
      WritersMoved(l, e);
    }
  }

  lemma LineSpends(l: L.Line, e: L.Event, w: nat, size: nat)
    requires L.LockOk(l) && L.Enabled(l, e) && (e.Enter? ==> e.w != w)
    ensures LineLeft(L.Step(l, e), w, size) + (if e == L.CtxDone(w) || Helps(e, w) then 1 else 0) <=
            LineLeft(l, w, size)
  {
    if w in l.writers {
      StepCosts(l, e, w);
      ContextMoves(l, e, w);
    } else {
      NotYetThere(l, e, w);
    }
  }

  lemma EntersWithAll(l: L.Line, e: L.Event)
    requires L.Enabled(l, e) && e.Enter?
    ensures LineLeft(L.Step(l, e), e.w, |Framed(e.frame)|) == LineLeft(l, e.w, |Framed(e.frame)|)
  {
    WritersMoved(l, e);
  }

  /** Nobody else changes a call's position or its command. */
  lemma OthersKeepCall(me: Endpoint, bytes: seq<byte>, e: Event, c: nat)
    requires Enabled(me, bytes, e) && IsCall(me, c) && (Drives(e, c) ==> e.Net?)
    ensures
      var me' := Step(me, bytes, e);
      && IsCall(me', c) && me'.jobs[c].pc == me.jobs[c].pc && CallSize(me'.jobs[c]) == CallSize(me.jobs[c])
  {
  }

  lemma OwnStepAdvances(me: Endpoint, bytes: seq<byte>, e: Event, c: nat)
    requires Enabled(me, bytes, e) && IsCall(me, c) && Drives(e, c) && !e.Net?
    ensures
      var me' := Step(me, bytes, e);
      && IsCall(me', c) && PcSteps(me'.jobs[c].pc) < PcSteps(me.jobs[c].pc)
      && me'.jobs[c].payload == me.jobs[c].payload
      && (!e.Register? ==> me'.out == me.out)
  {
  }

  lemma RegisterSpends(me: Endpoint, bytes: seq<byte>, e: Event)
    requires Enabled(me, bytes, e) && e.Register?
    ensures LineLeft(Step(me, bytes, e).out, e.c, CallSize(me.jobs[e.c])) ==
            LineLeft(me.out, e.c, CallSize(me.jobs[e.c]))
  {
    var frame := CommandFrame(Command(IdOf(e.tick), me.jobs[e.c].id, me.jobs[e.c].payload));
    EntersWithAll(me.out, L.Enter(e.c, frame, true));
    CallSizeIs(me.jobs[e.c]);
    CallSizeIs(me.jobs[e.c].(tick := e.tick));
  }

  lemma CallSpends(me: Endpoint, bytes: seq<byte>, e: Event, c: nat)
    requires L.LockOk(me.out) && Enabled(me, bytes, e) && IsCall(me, c)
    ensures IsCall(Step(me, bytes, e), c)
    ensures CallLeft(Step(me, bytes, e), c) + (if Drives(e, c) then 1 else 0) <= CallLeft(me, c)
  {
    var size := CallSize(me.jobs[c]);
    if Drives(e, c) && !e.Net? {
      OwnStepAdvances(me, bytes, e, c);
      CallSizeIs(me.jobs[c]);
      CallSizeIs(Step(me, bytes, e).jobs[c]);
      if e.Register? {
        RegisterSpends(me, bytes, e);
      }
    } else {
      OthersKeepCall(me, bytes, e, c);
      var le := OutMoves(me, bytes, e);
      if e.Net? {
        LineSpends(me.out, e.le, c, size);
      } else if Step(me, bytes, e).out != me.out {
        LineSpends(me.out, le, c, size);
      }
    }
  }

  /** How many steps of a run drive the call. */
  function Driving(es: seq<(Side, Event)>, side: Side, c: nat): nat {
    if es == [] then 0
    else (if es[0].0 == side && Drives(es[0].1, c) then 1 else 0) + Driving(es[1..], side, c)
  }

  lemma SysSpends(s: System, who: Side, e: Event, side: Side, c: nat)
    requires SysInv(s) && SysEnabled(s, who, e) && IsCall(At(s, side), c)
    ensures var s1 := SysStep(s, who, e); SysInv(s1) && IsCall(At(s1, side), c)
    ensures CallLeft(At(SysStep(s, who, e), side), c) + (if who == side && Drives(e, c) then 1 else 0) <=
            CallLeft(At(s, side), c)
  {
    StepSys(s, who, e);
    if who == side {
      CallSpends(At(s, side), At(s, Other(side)).out.bytes, e, c);
    }
  }

  lemma {:induction false} RunSpends(s: System, es: seq<(Side, Event)>, s': System, side: Side, c: nat)
    requires SysInv(s) && Run(s, es, s') && IsCall(At(s, side), c)
    ensures IsCall(At(s', side), c)
    ensures Driving(es, side, c) + CallLeft(At(s', side), c) <= CallLeft(At(s, side), c)
    decreases |es|
  {
    if es != [] {
      SysSpends(s, es[0].0, es[0].1, side, c);
      RunSpends(SysStep(s, es[0].0, es[0].1), es[1..], s', side, c);
    }
  }

  lemma CallLeftBound(me: Endpoint, log: seq<L.Packet>, c: nat)
    requires L.LockOk(me.out) && LocalInv(me, log) && IsCall(me, c)
    ensures CallLeft(me, c) <= |me.jobs[c].payload| + 43
  {
    CallSizeIs(me.jobs[c]);
    if c in me.out.writers {
      assert L.WriterOk(me.out, c);
      assert JobFrame(me.jobs[c]) == me.out.writers[c].frame;
    }
  }

  lemma NoneLeft(me: Endpoint, c: nat)
    requires IsCall(me, c) && CallLeft(me, c) == 0
    ensures me.jobs[c].pc.Gone?
  {
  }

  /**
   sendCmd always returns, on an open connection with a silent peer too.  In every
   reachable state a call that has not returned can take a step: its own, its writer's or
   callback's, the end of its own context, or a statement of the close its own writer is
   inside.
   */
  lemma CallCanMove(es: seq<(Side, Event)>, s: System, side: Side, c: nat) returns (e: Event)
    requires Run(START, es, s) && |At(s, side).pending| < TWO32
    requires IsCall(At(s, side), c) && !At(s, side).jobs[c].pc.Gone?
    ensures SysEnabled(s, side, e) && Serves(At(s, side), e, c)
    ensures e.Net? && e.le.Fail? ==> L.Doomed(At(s, side).out)
  {
    ReachInv(es, s);
    RunEntered(START, es, s);
    e := CallMoves(At(s, side), At(s, Other(side)), c);
  }

  /**
   And in any run, whatever callers, handlers, reader and peer do in between, at most
   as many such steps as its command has bytes, and 43, are taken before it has returned.
   */
  lemma CallReturns(es: seq<(Side, Event)>, s: System, fs: seq<(Side, Event)>, s': System, side: Side, c: nat)
    requires Run(START, es, s) && Run(s, fs, s') && IsCall(At(s, side), c)
    ensures IsCall(At(s', side), c)
    ensures Driving(fs, side, c) <= CallLeft(At(s, side), c) <= |At(s, side).jobs[c].payload| + 43
    ensures Driving(fs, side, c) == CallLeft(At(s, side), c) ==> At(s', side).jobs[c].pc.Gone?
  {
    ReachInv(es, s);
    CallLeftBound(At(s, side), At(s, Other(side)).out.log, c);
    RunSpends(s, fs, s', side, c);
    if Driving(fs, side, c) == CallLeft(At(s, side), c) {
      NoneLeft(At(s', side), c);
    }
  }

  /** What lets a call take its next step. */
  ghost predicate Ready(s: System, side: Side, c: nat) {
    && SysInv(s) && Entered(At(s, side)) && IsCall(At(s, side), c)
    && (At(s, side).jobs[c].pc.Checked? ==> |At(s, side).pending| < TWO32)
  }

  lemma NextStep(s: System, side: Side, c: nat) returns (e: Event, s1: System)
    requires Ready(s, side, c) && !At(s, side).jobs[c].pc.Gone?
    ensures SysEnabled(s, side, e) && s1 == SysStep(s, side, e) && Drives(e, c)
    ensures Ready(s1, side, c) && CallLeft(At(s1, side), c) < CallLeft(At(s, side), c)
  {
    var me, peer := At(s, side), At(s, Other(side));
    e := CallMoves(me, peer, c);
    CallSpends(me, peer.out.bytes, e, c);
    StepSys(s, side, e);
    StepEntered(me, peer.out.bytes, e);
    NotCheckedAgain(me, peer.out.bytes, e, c);
    s1 := SysStep(s, side, e);
  }

  /** A run of steps of the call alone that ends with its return. */
  ghost predicate Finishes(s: System, side: Side, c: nat, fs: seq<(Side, Event)>, s': System) {
    && Run(s, fs, s') && Driving(fs, side, c) == |fs|
    && IsCall(At(s', side), c) && At(s', side).jobs[c].pc.Gone?
  }

  lemma OneMore(s: System, side: Side, e: Event, s1: System, c: nat, fs: seq<(Side, Event)>, s': System)
    requires SysEnabled(s, side, e) && s1 == SysStep(s, side, e) && Drives(e, c)
    requires Finishes(s1, side, c, fs, s')
    ensures Finishes(s, side, c, [(side, e)] + fs, s')
  {
    assert ([(side, e)] + fs)[1..] == fs;
  }

  /** These steps suffice: the call returns if nobody else does anything at all. */
  lemma {:induction false} CallAlone(s: System, side: Side, c: nat) returns (fs: seq<(Side, Event)>, s': System)
    requires Ready(s, side, c)
    ensures Finishes(s, side, c, fs, s')
    decreases CallLeft(At(s, side), c)
  {
    if At(s, side).jobs[c].pc.Gone? {
      fs, s' := [], s;
    } else {
      var e, s1 := NextStep(s, side, c);
      fs, s' := CallAlone(s1, side, c);
      OneMore(s, side, e, s1, c, fs, s');
      fs := [(side, e)] + fs;
    }
  }

  lemma NotCheckedAgain(me: Endpoint, bytes: seq<byte>, e: Event, c: nat)
    requires Enabled(me, bytes, e) && IsCall(me, c) && Drives(e, c)
    ensures
      var me' := Step(me, bytes, e);
      && IsCall(me', c)
      && (me'.jobs[c].pc.Checked? ==> me.jobs[c].pc.Checked? && |me'.pending| <= |me.pending|)
  {
  }

  /**
   So from every reachable state there is a way on, by such steps of one call alone, that
   ends with its return.
   */
  lemma CallCanFinish(es: seq<(Side, Event)>, s: System, side: Side, c: nat)
    returns (fs: seq<(Side, Event)>, s': System)
    requires Run(START, es, s) && |At(s, side).pending| < TWO32 && IsCall(At(s, side), c)
    ensures Run(s, fs, s') && IsCall(At(s', side), c) && At(s', side).jobs[c].pc.Gone?
    ensures Driving(fs, side, c) == |fs| <= |At(s, side).jobs[c].payload| + 43
  {
    ReachInv(es, s);
    RunEntered(START, es, s);
    fs, s' := CallAlone(s, side, c);
    CallReturns(es, s, fs, s', side, c);
  }

  /**
   Where no call has a step of its own left, whatever else can still happen, every call has
   returned and the pending map is empty.
   */
  lemma IdleMeansReturned(es: seq<(Side, Event)>, s: System, side: Side)
    requires Run(START, es, s) && |At(s, side).pending| < TWO32
    requires forall c: nat, e :: IsCall(At(s, side), c) && SysEnabled(s, side, e) ==> !Serves(At(s, side), e, c)
    ensures
      var me := At(s, side);
      (forall c: nat :: IsCall(me, c) ==> me.jobs[c].pc.Gone?) && me.pending == map[]
  {
    forall c: nat | IsCall(At(s, side), c) ensures At(s, side).jobs[c].pc.Gone? {
      if !At(s, side).jobs[c].pc.Gone? {
        var e := CallCanMove(es, s, side, c);
        assert false;
      }
    }
    ChannelsAndEntries(es, s, side);
  }
}
