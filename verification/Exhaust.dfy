/**
 No reply storms: a run of the two peers is finite once callers stop sending commands
 and no more malformed frames are injected.

 Every other step makes a weight strictly smaller.  The weight counts what a frame or a
 goroutine can still cause.  A response frame can cause no write, so its weight is a
 small constant; a command or a malformed frame can cause one response frame.
 */
module Exhaust {
  import opened Wire
  import opened Duplex
  import opened DuplexInv
  import L = Line
  import R = Runs

  /** The most bytes one frame takes on the wire. */
  const WIRE: nat := MAX_FRAME + 4

  // ----- weights -----

  function PacketWeight(frame: seq<byte>): nat {
    if Classify(frame).GotResponse? then 3 else WIRE + 20
  }

  function StateWeight(x: L.Writer): nat {
    var size := |Framed(x.frame)|;
    match x.st
    case Waiting => size + 10
    case Locked => size + 9
    case Ready => size + 8
    case Arming => size + 6
    case Writing(_) => L.Rest(x) + 5
    case Wrote(_) => 5
    case Awaiting(_) => 4
    case Resetting(_) => 3
    case Closing => 2
    case Releasing(_) => 1
    case Returned(_) => 0
  }

  function CallbackWeight(cb: L.Callback): nat {
    match cb
    case Unset => 3
    case Armed => 3
    case Fired => 2
    case Expired => 1
    case Finished => 0
    case Stopped => 0
  }

  /** A writer that has not sent its frame also carries the weight of the frame. */
  function WriterWeight(x: L.Writer): nat {
    StateWeight(x) + CallbackWeight(x.cb) + (if x.ctxDone then 0 else 1) + (if x.sent then 0 else PacketWeight(x.frame))
  }

  function JobWeight(j: Job): nat {
    match j
    case Call(_, _, _, pc, _) =>
      (match pc
       case Checked => 4 + (WIRE + 14) + (WIRE + 20)
       case Sending => 3
       case Waiting => 2
       case Leaving(_) => 1
       case Gone(_) => 0)
    case Handler(_, _, hpc) =>
      (match hpc
       case Decoding => 2 + (WIRE + 14) + 3
       case Executing(_) => 1 + (WIRE + 14) + 3
       case Answering(_, _) => 0
       case Rejecting(_) => 0)
    case Reply(_) => 0
    case Foreign(_) => 0
  }

  function ReaderWeight(r: Reader): nat {
    match r
    case Stopped => 0
    case Reading => 1
    case Replying(_, _) => 2
    case Delivering(_, _, _) => 2
    case Matching(_, _) => 3
  }

  function PhaseWeight(p: L.Phase): nat {
    match p
    case Open => 3
    case Cancelled => 2
    case NetClosed => 1
    case Closed => 0
  }

  /** The deadline can pass, and the network fail, once. */
  function NetWeight(l: L.Line): nat {
    PhaseWeight(l.phase) + (if l.deadline.Until? then 1 else 0) + (if l.broken then 0 else 1)
  }

  function JobsWeight(jobs: seq<Job>): nat {
    if jobs == [] then 0 else JobsWeight(jobs[..|jobs| - 1]) + JobWeight(jobs[|jobs| - 1])
  }

  /** The writers with numbers below n. */
  function WritersWeight(ws: map<nat, L.Writer>, n: nat): nat {
    if n == 0 then 0 else WritersWeight(ws, n - 1) + if n - 1 in ws then WriterWeight(ws[n - 1]) else 0
  }

  /** The frames of a log that have not been read. */
  function FlightWeight(log: seq<L.Packet>, read: nat): nat
    decreases |log| - read
  {
    if read >= |log| then 0 else PacketWeight(log[read].frame) + FlightWeight(log, read + 1)
  }

  // ----- sums -----

  lemma {:induction false} JobsUpdate(jobs: seq<Job>, i: nat, j: Job)
    requires i < |jobs|
    ensures JobsWeight(jobs[i := j]) + JobWeight(jobs[i]) == JobsWeight(jobs) + JobWeight(j)
  {
    var n := |jobs| - 1;
    if i == n {
      assert jobs[i := j][..n] == jobs[..n];
    } else {
      JobsUpdate(jobs[..n], i, j);
      assert jobs[i := j][..n] == jobs[..n][i := j];
    }
  }

  lemma JobsAppend(jobs: seq<Job>, j: Job)
    ensures JobsWeight(jobs + [j]) == JobsWeight(jobs) + JobWeight(j)
  {
    assert (jobs + [j])[..|jobs|] == jobs;
  }

  lemma {:induction false} WritersAbove(ws: map<nat, L.Writer>, w: nat, x: L.Writer, n: nat)
    requires w >= n
    ensures WritersWeight(ws[w := x], n) == WritersWeight(ws, n)
  {
    if n > 0 {
      WritersAbove(ws, w, x, n - 1);
    }
  }

  lemma {:induction false} WritersUpdate(ws: map<nat, L.Writer>, w: nat, x: L.Writer, n: nat)
    requires w < n
    ensures WritersWeight(ws[w := x], n) + (if w in ws then WriterWeight(ws[w]) else 0) ==
            WritersWeight(ws, n) + WriterWeight(x)
  {
    if w == n - 1 {
      WritersAbove(ws, w, x, n - 1);
    } else {
      WritersUpdate(ws, w, x, n - 1);
    }
  }

  lemma {:induction false} FlightAppend(log: seq<L.Packet>, p: L.Packet, read: nat)
    requires read <= |log|
    ensures FlightWeight(log + [p], read) == FlightWeight(log, read) + PacketWeight(p.frame)
    decreases |log| - read
  {
    if read < |log| {
      FlightAppend(log, p, read + 1);
    } else {
      assert FlightWeight(log + [p], read + 1) == 0;
    }
  }

  // ----- steps of the Line -----

  lemma FreshWeight(frame: seq<byte>)
    requires FrameSized(frame)
    ensures WriterWeight(L.Writer(frame, true, false, L.Waiting, L.Unset, false)) <= WIRE + 14 + PacketWeight(frame)
  {
  }

  /** Every action of writeFrame costs its writer weight, beyond the frame it may have put in flight. */
  lemma ActCosts(l: L.Line, e: L.Event)
    requires L.Enabled(l, e) && !L.Phasing(e) && !e.Enter?
    requires L.WriterOk(l, e.w)
    ensures
      var x := l.writers[e.w];
      var x' := L.Act(x, e);
      && WriterWeight(x') + (if x'.sent && !x.sent then PacketWeight(x.frame) else 0) < WriterWeight(x)
      && (e.SetDeadline? ==> WriterWeight(x') + 1 < WriterWeight(x))
  {
  }

  lemma LogAfter(l: L.Line, e: L.Event)
    requires L.Enabled(l, e) && !L.Phasing(e) && !e.Enter? && L.WriterOk(l, e.w)
    ensures
      var x := l.writers[e.w];
      L.Step(l, e).log == if L.Act(x, e).sent && !x.sent then l.log + [L.Packet(e.w, x.frame)] else l.log
  {
  }

  lemma WritersAfter(l: L.Line, e: L.Event)
    requires L.Enabled(l, e)
    ensures L.Phasing(e) ==> L.Step(l, e).writers == l.writers && L.Step(l, e).log == l.log
    ensures L.Phasing(e) ==> NetWeight(L.Step(l, e)) < NetWeight(l)
    ensures !L.Phasing(e) ==> L.Step(l, e).writers == l.writers[e.w := L.Act(L.Actor(l, e), e)]
    ensures !L.Phasing(e) ==> NetWeight(L.Step(l, e)) <= NetWeight(l) + if e.SetDeadline? then 1 else 0
  {
  }

  /** The weight of a Line, as its owner's peer, which has read `read` frames, sees it. */
  function LineWeight(l: L.Line, n: nat, read: nat): nat {
    WritersWeight(l.writers, n) + NetWeight(l) + FlightWeight(l.log, read)
  }

  lemma LineCosts(l: L.Line, e: L.Event, n: nat, read: nat)
    requires L.LockOk(l) && L.Enabled(l, e) && !e.Enter?
    requires read <= |l.log| && forall w :: w in l.writers ==> w < n
    ensures LineWeight(L.Step(l, e), n, read) < LineWeight(l, n, read)
  {
    WritersAfter(l, e);
    if !L.Phasing(e) {
      var x := l.writers[e.w];
      assert L.WriterOk(l, e.w);
      ActCosts(l, e);
      LogAfter(l, e);
      WritersUpdate(l.writers, e.w, L.Act(x, e), n);
      FlightAppend(l.log, L.Packet(e.w, x.frame), read);
    }
  }

  /** Entering writeFrame costs at most a full write and the frame. */
  lemma EnterCosts(l: L.Line, w: nat, frame: seq<byte>, n: nat, read: nat)
    requires L.Enabled(l, L.Enter(w, frame, true)) && w < n
    ensures LineWeight(L.Step(l, L.Enter(w, frame, true)), n, read) <=
            LineWeight(l, n, read) + WIRE + 14 + PacketWeight(frame)
  {
    var x := L.Writer(frame, true, false, L.Waiting, L.Unset, false);
    FreshWeight(frame);
    WritersUpdate(l.writers, w, x, n);
  }

  // ----- steps of an endpoint -----

  /** One endpoint, with the frames it has sent and its peer has not read. */
  function Half(me: Endpoint, peerRead: nat): nat {
    JobsWeight(me.jobs) + LineWeight(me.out, |me.jobs|, peerRead) + ReaderWeight(me.reader)
  }

  /** Everything an endpoint's own step can change: its half and the peer's unread frames. */
  function View(me: Endpoint, peerRead: nat, log: seq<L.Packet>): nat {
    Half(me, peerRead) + FlightWeight(log, me.read)
  }

  function Weight(s: System): nat {
    Half(s.left, s.right.read) + Half(s.right, s.left.read)
  }

  predicate Spending(e: Event) {
    !e.StartCall? && !e.Inject?
  }

  lemma PcCosts(me: Endpoint, c: nat, pc: CallPc, peerRead: nat, log: seq<L.Packet>)
    requires IsCall(me, c) && JobWeight(me.jobs[c].(pc := pc)) < JobWeight(me.jobs[c])
    ensures View(SetPc(me, c, pc), peerRead, log) < View(me, peerRead, log)
  {
    JobsUpdate(me.jobs, c, me.jobs[c].(pc := pc));
  }

  lemma CommandWeight(c: Command)
    requires FrameSized(CommandFrame(c))
    ensures PacketWeight(CommandFrame(c)) == WIRE + 20
  {
    CommandArrives(c);
  }

  lemma ResponseWeight(r: Response)
    requires FrameSized(ResponseFrame(r))
    ensures PacketWeight(ResponseFrame(r)) == 3
  {
    ResponseArrives(r);
  }

  lemma RegisterCosts(me: Endpoint, bytes: seq<byte>, e: Event, peerRead: nat, log: seq<L.Packet>)
    requires e.Register? && Enabled(me, bytes, e)
    ensures View(Step(me, bytes, e), peerRead, log) < View(me, peerRead, log)
  {
    var j := me.jobs[e.c].(tick := e.tick, pc := Sending);
    CommandWeight(CallCommand(j));
    EnterCosts(me.out, e.c, JobFrame(j), |me.jobs|, peerRead);
    JobsUpdate(me.jobs, e.c, j);
  }

  lemma CallCosts(me: Endpoint, bytes: seq<byte>, e: Event, peerRead: nat, log: seq<L.Packet>)
    requires OfCall(e) && !e.StartCall? && Enabled(me, bytes, e)
    ensures View(Step(me, bytes, e), peerRead, log) < View(me, peerRead, log)
  {
    match e
    case Register(_, _) => RegisterCosts(me, bytes, e, peerRead, log);
    case WriteReturns(c) =>
      PcCosts(me, c, if Returned(me, c, true) then Waiting else Leaving(WriteFailed), peerRead, log);
    case TakeAnswer(c) => PcCosts(me, c, Leaving(Answer(me.jobs[c].inbox[0].response)), peerRead, log);
    case TimeOut(c) => PcCosts(me, c, Leaving(TimedOut), peerRead, log);
    case SeeClosed(c) => PcCosts(me, c, Leaving(ConnectionClosed), peerRead, log);
    case Cleanup(c) => PcCosts(me, c, Gone(me.jobs[c].pc.out), peerRead, log);
  }

  /** A handler that starts to write pays for the write and for the one response frame. */
  lemma AnswerCosts(me: Endpoint, h: nat, j: Job, peerRead: nat, log: seq<L.Packet>)
    requires IsHandler(me, h) && (me.jobs[h].hpc.Decoding? || me.jobs[h].hpc.Executing?)
    requires j.Handler? && HasFrame(j) && CanEnter(me, h, JobFrame(j))
    ensures View(SetJob(Enter(me, h, JobFrame(j)), h, j), peerRead, log) < View(me, peerRead, log)
  {
    ResponseWeight(if j.hpc.Answering? then j.hpc.response else ErrorReply(ErrorText(j.hpc.error)));
    EnterCosts(me.out, h, JobFrame(j), |me.jobs|, peerRead);
    JobsUpdate(me.jobs, h, j);
  }

  lemma HandlerCosts(me: Endpoint, bytes: seq<byte>, e: Event, peerRead: nat, log: seq<L.Packet>)
    requires (e.Decode? || e.Execute?) && Enabled(me, bytes, e)
    ensures View(Step(me, bytes, e), peerRead, log) < View(me, peerRead, log)
  {
    var j := if e.Decode? then Decoded(me.jobs[e.h]) else Duplex.Executed(me.jobs[e.h], e.result);
    if HasFrame(j) {
      AnswerCosts(me, e.h, j, peerRead, log);
    } else {
      JobsUpdate(me.jobs, e.h, j);
    }
  }

  lemma NetCosts(me: Endpoint, bytes: seq<byte>, e: Event, peerRead: nat, log: seq<L.Packet>)
    requires e.Net? && Enabled(me, bytes, e) && L.LockOk(me.out) && WritersOk(me) && peerRead <= |me.out.log|
    ensures View(Step(me, bytes, e), peerRead, log) < View(me, peerRead, log)
  {
    LineCosts(me.out, e.le, |me.jobs|, peerRead);
  }

  lemma ReaderCosts(me: Endpoint, bytes: seq<byte>, e: Event, peerRead: nat, log: seq<L.Packet>)
    requires OfReader(e) && Enabled(me, bytes, e)
    ensures View(Step(me, bytes, e), peerRead, log) < View(me, peerRead, log)
  {
    if e.Deliver? {
      var c := me.reader.call;
      JobsUpdate(me.jobs, c, me.jobs[c].(inbox := me.jobs[c].inbox + [Receipt(me.reader.src, me.reader.response)]));
    }
  }

  lemma SpawnCosts(me: Endpoint, j: Job, peerRead: nat, log: seq<L.Packet>)
    requires CanSpawn(me, j) && |me.jobs| !in me.out.writers
    ensures View(Spawn(me, j), peerRead, log) <=
            View(me, peerRead, log) + JobWeight(j) + if HasFrame(j) then WIRE + 14 + PacketWeight(JobFrame(j)) else 0
  {
    JobsAppend(me.jobs, j);
    if HasFrame(j) {
      EnterCosts(me.out, |me.jobs|, JobFrame(j), |me.jobs| + 1, peerRead);
    }
  }

  /** Reading a frame uses up the frame's weight, which pays for whatever is started. */
  lemma AfterReadCosts(me: Endpoint, frame: seq<byte>, peerRead: nat, log: seq<L.Packet>)
    requires var j := ReadJob(me, Whole(frame)); j.Some? ==> CanSpawn(me, j.value)
    requires me.reader.Reading? && |me.jobs| !in me.out.writers
    requires me.read < |log| && log[me.read].frame == frame
    ensures View(AfterRead(me, Whole(frame)), peerRead, log) < View(me, peerRead, log)
  {
    var taken := me.(consumed := me.consumed + |Framed(frame)|, read := me.read + 1);
    assert View(taken, peerRead, log) + PacketWeight(frame) == View(me, peerRead, log);
    match Classify(frame)
    case Malformed(text) =>
      ResponseWeight(ErrorReply(text));
      SpawnCosts(taken, Reply(text), peerRead, log);
    case RunCommand(body) => SpawnCosts(taken, Handler(me.read, body, Decoding), peerRead, log);
    case GotResponse(_) =>
  }

  lemma ReadCosts(me: Endpoint, bytes: seq<byte>, e: Event, peerRead: nat, log: seq<L.Packet>)
    requires e.ReadFrame? && Enabled(me, bytes, e) && Faithful(me, bytes, log) && |me.jobs| !in me.out.writers
    ensures View(Step(me, bytes, e), peerRead, log) < View(me, peerRead, log)
  {
    AfterReadCosts(me, log[me.read].frame, peerRead, log);
  }

  lemma EndCosts(me: Endpoint, bytes: seq<byte>, e: Event, peerRead: nat, log: seq<L.Packet>)
    requires Enabled(me, bytes, e) && Spending(e) && Faithful(me, bytes, log)
    requires L.LockOk(me.out) && WritersOk(me) && peerRead <= |me.out.log|
    ensures View(Step(me, bytes, e), peerRead, log) < View(me, peerRead, log)
  {
    if OfCall(e) { CallCosts(me, bytes, e, peerRead, log); }
    else if e.Net? { NetCosts(me, bytes, e, peerRead, log); }
    else if e.ReadFrame? { ReadCosts(me, bytes, e, peerRead, log); }
    else if OfReader(e) { ReaderCosts(me, bytes, e, peerRead, log); }
    else { HandlerCosts(me, bytes, e, peerRead, log); }
  }

  /** What starting a command or injecting a malformed frame can add. */
  const ALLOWANCE: nat := 2 * WIRE + 38

  lemma ForeignWeight(frame: seq<byte>)
    requires Harmless(frame)
    ensures PacketWeight(frame) == WIRE + 20
  {
  }

  lemma StartAllows(me: Endpoint, bytes: seq<byte>, e: Event, peerRead: nat, log: seq<L.Packet>)
    requires Enabled(me, bytes, e) && !Spending(e) && |me.jobs| !in me.out.writers
    ensures View(Step(me, bytes, e), peerRead, log) <= View(me, peerRead, log) + ALLOWANCE
  {
    if e.Inject? {
      ForeignWeight(e.frame);
      SpawnCosts(me, Foreign(e.frame), peerRead, log);
    } else {
      SpawnCosts(me, Call(e.id, e.payload, 0, Checked, []), peerRead, log);
    }
  }

  // ----- the whole system -----

  lemma SysCosts(s: System, side: Side, e: Event)
    requires SysInv(s) && SysEnabled(s, side, e)
    ensures Weight(SysStep(s, side, e)) + 1 <= Weight(s) + if Spending(e) then 0 else ALLOWANCE + 1
  {
    var me, peer := At(s, side), At(s, Other(side));
    ReadsTheLog(me, peer.out);
    if Spending(e) {
      EndCosts(me, peer.out.bytes, e, peer.read, peer.out.log);
    } else {
      StartAllows(me, peer.out.bytes, e, peer.read, peer.out.log);
    }
  }

  /** How many commands were started and malformed frames injected, on both sides. */
  function Causes(es: seq<(Side, Event)>): nat {
    if es == [] then 0 else (if Spending(es[0].1) then 0 else 1) + Causes(es[1..])
  }

  function Allowed(es: seq<(Side, Event)>): nat {
    if es == [] then 0 else (if Spending(es[0].1) then 0 else ALLOWANCE + 1) + Allowed(es[1..])
  }

  lemma {:induction false} AllowedPerCause(es: seq<(Side, Event)>)
    ensures Allowed(es) == (ALLOWANCE + 1) * Causes(es)
  {
    if es != [] {
      AllowedPerCause(es[1..]);
      if !Spending(es[0].1) {
        Distribute(ALLOWANCE + 1, Causes(es[1..]));
      }
    }
  }

  lemma Distribute(a: nat, n: nat)
    ensures a * (n + 1) == a * n + a
  {
  }

  lemma {:induction false} RunCosts(s: System, es: seq<(Side, Event)>, s': System)
    requires SysInv(s) && Run(s, es, s')
    ensures |es| + Weight(s') <= Weight(s) + Allowed(es)
    decreases |es|
  {
    if es != [] {
      var s1 := SysStep(s, es[0].0, es[0].1);
      SysCosts(s, es[0].0, es[0].1);
      StepSys(s, es[0].0, es[0].1);
      RunCosts(s1, es[1..], s');
    }
  }

  /**
   Every run of the two peers is finite unless new causes keep coming: its length is
   bounded by a constant per command started (by a caller or by a handler) and per
   malformed frame injected, however frames are split, handlers are scheduled, and
   contexts end.
   */
  lemma NoReplyStorms(es: seq<(Side, Event)>, s: System)
    requires Run(START, es, s)
    ensures |es| <= 10 + (ALLOWANCE + 1) * Causes(es)
  {
    AllowedPerCause(es);
    StartInv();
    RunCosts(START, es, s);
  }

  /**
   The reason: a frame written by writeResponse is taken by the peer as a response,
   starts no goroutine there, and causes no further write.
   */
  lemma ResponsesCauseNothing(me: Endpoint, r: Response)
    requires FrameSized(ResponseFrame(r))
    ensures ReadJob(me, Whole(ResponseFrame(r))) == R.None
    ensures
      var me' := AfterRead(me, Whole(ResponseFrame(r)));
      me'.reader == Matching(me.read, r) && me'.jobs == me.jobs && me'.out == me.out
  {
    ResponseArrives(r);
  }
}
