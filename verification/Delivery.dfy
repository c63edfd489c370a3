/**
 No response is lost: once the reader has taken the response to a call off the stream, the
 reader holds it, or the call's channel does, or the call no longer waits.
 */
module Delivery {
  import opened Wire
  import opened Duplex
  import opened DuplexInv
  import opened Correlation
  import L = Line

  predicate Left(pc: CallPc) {
    pc.Leaving? || pc.Gone?
  }

  /** A call that may still be answered has its entry, or its response is on the last stretch. */
  predicate Awaited(me: Endpoint, c: nat)
    requires IsCall(me, c)
  {
    var j := me.jobs[c];
    || j.pc.Checked? || Left(j.pc) || me.out.phase.Closed?
    || j.inbox != []
    || (me.reader.Delivering? && me.reader.call == c)
    || (IdOf(j.tick) in me.pending && me.pending[IdOf(j.tick)] == c)
  }

  predicate AllAwaited(me: Endpoint) {
    forall c :: 0 <= c < |me.jobs| && me.jobs[c].Call? ==> Awaited(me, c)
  }

  /** Incoming frame `src` is a response with this ID. */
  predicate Answers(log: seq<L.Packet>, src: nat, id: uint32, r: Response) {
    src < |log| && Classify(log[src].frame) == GotResponse(r) && r.reqId == id
  }

  /** Where the response from frame `src` to call c can be once it has been read. */
  predicate Kept(me: Endpoint, c: nat, src: nat, r: Response)
    requires IsCall(me, c)
  {
    || me.reader == Matching(src, r)
    || me.reader == Delivering(src, r, c)
    || me.jobs[c].inbox == [Receipt(src, r)]
    || Left(me.jobs[c].pc)
    || me.out.phase.Closed?
  }

  ghost predicate NothingLost(me: Endpoint, log: seq<L.Packet>) {
    forall c: nat, src: nat, r ::
      IsCall(me, c) && !me.jobs[c].pc.Checked? && src < me.read && Answers(log, src, IdOf(me.jobs[c].tick), r) ==>
        Kept(me, c, src, r)
  }

  // ----- entries -----

  lemma RegisterAwaited(me: Endpoint, bytes: seq<byte>, e: Event, c: nat)
    requires Enabled(me, bytes, e) && e.Register? && IsCall(me, c) && Awaited(me, c)
    ensures IsCall(Step(me, bytes, e), c) && Awaited(Step(me, bytes, e), c)
  {
  }

  lemma CallAwaited(me: Endpoint, bytes: seq<byte>, e: Event, c: nat)
    requires Enabled(me, bytes, e) && OfCall(e) && !e.Cleanup? && !e.Register? && IsCall(me, c) && Awaited(me, c)
    ensures IsCall(Step(me, bytes, e), c) && Awaited(Step(me, bytes, e), c)
  {
  }

  /** Cleaning up deletes by ID, which below 2^32 commands is nobody else's. */
  lemma CleanupAwaited(me: Endpoint, bytes: seq<byte>, e: Event, c: nat)
    requires TicksOk(me.jobs, me.ticks) && me.ticks < TWO32
    requires Enabled(me, bytes, e) && e.Cleanup? && IsCall(me, c) && Awaited(me, c)
    ensures IsCall(Step(me, bytes, e), c) && Awaited(Step(me, bytes, e), c)
  {
    if c != e.c && !me.jobs[c].pc.Checked? && !me.jobs[e.c].pc.Checked?
       && IdOf(me.jobs[c].tick) == IdOf(me.jobs[e.c].tick) {
      IdsDistinct(me, c, e.c);
    }
  }

  lemma ReaderAwaited(me: Endpoint, bytes: seq<byte>, e: Event, c: nat)
    requires PendingOk(me) && Enabled(me, bytes, e) && OfReader(e) && IsCall(me, c) && Awaited(me, c)
    ensures IsCall(Step(me, bytes, e), c) && Awaited(Step(me, bytes, e), c)
  {
  }

  lemma NetAwaited(me: Endpoint, bytes: seq<byte>, e: Event, c: nat)
    requires Enabled(me, bytes, e) && e.Net? && IsCall(me, c) && Awaited(me, c)
    ensures IsCall(Step(me, bytes, e), c) && Awaited(Step(me, bytes, e), c)
  {
  }

  lemma HandlerAwaited(me: Endpoint, bytes: seq<byte>, e: Event, c: nat)
    requires Enabled(me, bytes, e) && OfHandler(e) && IsCall(me, c) && Awaited(me, c)
    ensures IsCall(Step(me, bytes, e), c) && Awaited(Step(me, bytes, e), c)
  {
  }

  lemma ReadAwaited(me: Endpoint, bytes: seq<byte>, e: Event, c: nat)
    requires Enabled(me, bytes, e) && e.ReadFrame? && IsCall(me, c) && Awaited(me, c)
    ensures IsCall(Step(me, bytes, e), c) && Awaited(Step(me, bytes, e), c)
  {
  }

  lemma OneAwaited(me: Endpoint, bytes: seq<byte>, e: Event, c: nat)
    requires TicksOk(me.jobs, me.ticks) && me.ticks < TWO32 && PendingOk(me)
    requires Enabled(me, bytes, e) && IsCall(me, c) && Awaited(me, c)
    ensures IsCall(Step(me, bytes, e), c) && Awaited(Step(me, bytes, e), c)
  {
    if e.Cleanup? { CleanupAwaited(me, bytes, e, c); }
    else if e.Register? { RegisterAwaited(me, bytes, e, c); }
    else if OfCall(e) { CallAwaited(me, bytes, e, c); }
    else if OfReader(e) { ReaderAwaited(me, bytes, e, c); }
    else if e.Net? { NetAwaited(me, bytes, e, c); }
    else if OfHandler(e) { HandlerAwaited(me, bytes, e, c); }
    else { ReadAwaited(me, bytes, e, c); }
  }

  lemma NewCalls(me: Endpoint, bytes: seq<byte>, e: Event, c: nat)
    requires Enabled(me, bytes, e) && IsCall(Step(me, bytes, e), c)
    ensures IsCall(me, c) || Step(me, bytes, e).jobs[c].pc.Checked?
  {
  }

  lemma StepAwaited(me: Endpoint, bytes: seq<byte>, e: Event)
    requires TicksOk(me.jobs, me.ticks) && me.ticks < TWO32 && PendingOk(me)
    requires Enabled(me, bytes, e) && AllAwaited(me)
    ensures AllAwaited(Step(me, bytes, e))
  {
    var me' := Step(me, bytes, e);
    forall c | 0 <= c < |me'.jobs| && me'.jobs[c].Call? ensures Awaited(me', c) {
      NewCalls(me, bytes, e, c);
      if IsCall(me, c) {
        OneAwaited(me, bytes, e, c);
      }
    }
  }

  // ----- one response per call -----

  lemma OneResponse(me: Endpoint, peer: Endpoint, c: nat, i: nat, j: nat, r: Response, q: Response)
    requires BothOk(me, peer) && me.ticks < TWO32 && IsCall(me, c) && !me.jobs[c].pc.Checked?
    requires Answers(peer.out.log, i, IdOf(me.jobs[c].tick), r) && Answers(peer.out.log, j, IdOf(me.jobs[c].tick), q)
    ensures i == j
  {
    var h := ResponseBelongs(me, peer, c, i, r);
    var k := ResponseBelongs(me, peer, c, j, q);
    WritersDiffer(me.out, peer.jobs[h].src, peer.jobs[k].src);
    OneHandler(peer.jobs, me.out.log, peer.read, h, k);
    WritersDiffer(peer.out, i, j);
  }

  /** Before a call's command is written there is no response to it. */
  lemma NoneBefore(me: Endpoint, peer: Endpoint, c: nat, src: nat, r: Response)
    requires BothOk(me, peer) && me.ticks < TWO32 && IsCall(me, c) && !me.jobs[c].pc.Checked?
    requires c in me.out.writers && !me.out.writers[c].sent
    ensures !Answers(peer.out.log, src, IdOf(me.jobs[c].tick), r)
  {
    if Answers(peer.out.log, src, IdOf(me.jobs[c].tick), r) {
      var h := ResponseBelongs(me, peer, c, src, r);
    }
  }

  // ----- where a response is after each step -----

  lemma CallKept(me: Endpoint, bytes: seq<byte>, e: Event, c: nat, src: nat, r: Response)
    requires Enabled(me, bytes, e) && OfCall(e) && IsCall(me, c) && Kept(me, c, src, r)
    ensures IsCall(Step(me, bytes, e), c) && Kept(Step(me, bytes, e), c, src, r)
  {
  }

  lemma NetKept(me: Endpoint, bytes: seq<byte>, e: Event, c: nat, src: nat, r: Response)
    requires Enabled(me, bytes, e) && e.Net? && IsCall(me, c) && Kept(me, c, src, r)
    ensures IsCall(Step(me, bytes, e), c) && Kept(Step(me, bytes, e), c, src, r)
  {
  }

  lemma HandlerKept(me: Endpoint, bytes: seq<byte>, e: Event, c: nat, src: nat, r: Response)
    requires Enabled(me, bytes, e) && OfHandler(e) && IsCall(me, c) && Kept(me, c, src, r)
    ensures IsCall(Step(me, bytes, e), c) && Kept(Step(me, bytes, e), c, src, r)
  {
  }

  lemma ReadKept(me: Endpoint, bytes: seq<byte>, e: Event, c: nat, src: nat, r: Response)
    requires Enabled(me, bytes, e) && e.ReadFrame? && IsCall(me, c) && Kept(me, c, src, r)
    ensures IsCall(Step(me, bytes, e), c) && Kept(Step(me, bytes, e), c, src, r)
  {
  }

  lemma DeliverKept(me: Endpoint, bytes: seq<byte>, e: Event, log: seq<L.Packet>, c: nat, src: nat, r: Response)
    requires ReaderOk(me, log)
    requires Enabled(me, bytes, e) && OfReader(e) && !e.Match? && IsCall(me, c) && Kept(me, c, src, r)
    ensures IsCall(Step(me, bytes, e), c) && Kept(Step(me, bytes, e), c, src, r)
  {
    if e.Deliver? && me.reader.call == c {
      assert [] + [Receipt(me.reader.src, me.reader.response)] == [Receipt(me.reader.src, me.reader.response)];
    }
  }

  /** The table lookup finds the call the response is for. */
  lemma MatchFinds(me: Endpoint, peer: Endpoint, c: nat, src: nat, r: Response)
    requires BothOk(me, peer) && me.ticks < TWO32 && IsCall(me, c) && !me.jobs[c].pc.Checked?
    requires Awaited(me, c) && me.reader == Matching(src, r) && Answers(peer.out.log, src, IdOf(me.jobs[c].tick), r)
    ensures Left(me.jobs[c].pc) || me.out.phase.Closed? || (r.reqId in me.pending && me.pending[r.reqId] == c)
  {
    assert CallOk(me.jobs[c], peer.out.log, me.read);
    if me.jobs[c].inbox != [] {
      var first := me.jobs[c].inbox[0];
      OneResponse(me, peer, c, first.src, src, first.response, r);
      assert false;
    }
  }

  lemma MatchKept(me: Endpoint, peer: Endpoint, c: nat, src: nat, r: Response)
    requires BothOk(me, peer) && me.ticks < TWO32 && IsCall(me, c) && !me.jobs[c].pc.Checked?
    requires Awaited(me, c) && Answers(peer.out.log, src, IdOf(me.jobs[c].tick), r)
    requires me.reader.Matching? && Kept(me, c, src, r)
    ensures var me' := AfterMatch(me); IsCall(me', c) && Kept(me', c, src, r)
  {
    if me.reader == Matching(src, r) {
      MatchFinds(me, peer, c, src, r);
    }
  }

  /** A response that has been read, or is read now, is where it should be afterwards. */
  lemma StepKept(me: Endpoint, peer: Endpoint, e: Event, c: nat, src: nat, r: Response)
    requires BothOk(me, peer) && me.ticks < TWO32 && IsCall(me, c) && !me.jobs[c].pc.Checked?
    requires Awaited(me, c) && Answers(peer.out.log, src, IdOf(me.jobs[c].tick), r)
    requires Enabled(me, peer.out.bytes, e) && Kept(me, c, src, r)
    ensures var me' := Step(me, peer.out.bytes, e); IsCall(me', c) && Kept(me', c, src, r)
  {
    if OfCall(e) { CallKept(me, peer.out.bytes, e, c, src, r); }
    else if e.Net? { NetKept(me, peer.out.bytes, e, c, src, r); }
    else if e.Match? { MatchKept(me, peer, c, src, r); }
    else if OfReader(e) { DeliverKept(me, peer.out.bytes, e, peer.out.log, c, src, r); }
    else if OfHandler(e) { HandlerKept(me, peer.out.bytes, e, c, src, r); }
    else { ReadKept(me, peer.out.bytes, e, c, src, r); }
  }

  lemma ReadsOne(me: Endpoint, bytes: seq<byte>, e: Event)
    requires Enabled(me, bytes, e) && me.read < Step(me, bytes, e).read
    ensures e == ReadFrame && Step(me, bytes, e).read == me.read + 1 && Incoming(me, bytes).Whole?
  {
  }

  lemma TakesResponse(me: Endpoint, bytes: seq<byte>, frame: seq<byte>, r: Response)
    requires Enabled(me, bytes, ReadFrame) && Incoming(me, bytes) == Whole(frame) && Classify(frame) == GotResponse(r)
    ensures Step(me, bytes, ReadFrame).reader == Matching(me.read, r) && Step(me, bytes, ReadFrame).jobs == me.jobs
  {
  }

  lemma ReadNow(me: Endpoint, bytes: seq<byte>, log: seq<L.Packet>, c: nat, r: Response)
    requires Faithful(me, bytes, log) && IsCall(me, c) && Enabled(me, bytes, ReadFrame)
    requires Answers(log, me.read, IdOf(me.jobs[c].tick), r)
    ensures var me' := Step(me, bytes, ReadFrame); IsCall(me', c) && Kept(me', c, me.read, r)
  {
    TakesResponse(me, bytes, log[me.read].frame, r);
  }

  lemma JustRead(me: Endpoint, bytes: seq<byte>, e: Event, log: seq<L.Packet>, c: nat, src: nat, r: Response)
    requires Faithful(me, bytes, log) && IsCall(me, c) && Enabled(me, bytes, e)
    requires me.read <= src < Step(me, bytes, e).read && Answers(log, src, IdOf(me.jobs[c].tick), r)
    ensures IsCall(Step(me, bytes, e), c) && Kept(Step(me, bytes, e), c, src, r)
  {
    ReadsOne(me, bytes, e);
    assert src == me.read;
    assert Enabled(me, bytes, ReadFrame);
    ReadNow(me, bytes, log, c, r);
  }

  /** Only registering changes which ID a call has. */
  lemma SameTick(me: Endpoint, bytes: seq<byte>, e: Event, c: nat)
    requires Enabled(me, bytes, e) && IsCall(Step(me, bytes, e), c) && !Step(me, bytes, e).jobs[c].pc.Checked?
    ensures IsCall(me, c)
    ensures
      var me' := Step(me, bytes, e);
      if me.jobs[c].pc.Checked? then c in me'.out.writers && !me'.out.writers[c].sent
      else me'.jobs[c].tick == me.jobs[c].tick
  {
  }

  lemma OneKept(me: Endpoint, peer: Endpoint, e: Event, c: nat, src: nat, r: Response)
    requires BothOk(me, peer) && AllAwaited(me) && NothingLost(me, peer.out.log)
    requires Enabled(me, peer.out.bytes, e)
    requires
      var me' := Step(me, peer.out.bytes, e);
      && BothOk(me', peer) && me.ticks <= me'.ticks < TWO32
      && IsCall(me', c) && !me'.jobs[c].pc.Checked? && src < me'.read
      && Answers(peer.out.log, src, IdOf(me'.jobs[c].tick), r)
    ensures Kept(Step(me, peer.out.bytes, e), c, src, r)
  {
    SameTick(me, peer.out.bytes, e, c);
    if me.jobs[c].pc.Checked? {
      NoneBefore(Step(me, peer.out.bytes, e), peer, c, src, r);
    } else if src < me.read {
      assert Kept(me, c, src, r);
      StepKept(me, peer, e, c, src, r);
    } else {
      ReadsTheLog(me, peer.out);
      JustRead(me, peer.out.bytes, e, peer.out.log, c, src, r);
    }
  }

  // ----- over runs -----

  lemma StepNothingLost(me: Endpoint, peer: Endpoint, e: Event)
    requires BothOk(me, peer) && AllAwaited(me) && NothingLost(me, peer.out.log)
    requires Enabled(me, peer.out.bytes, e)
    requires
      var me' := Step(me, peer.out.bytes, e);
      BothOk(me', peer) && me.ticks <= me'.ticks < TWO32
    ensures NothingLost(Step(me, peer.out.bytes, e), peer.out.log)
  {
    var me' := Step(me, peer.out.bytes, e);
    forall c: nat, src: nat, r |
      IsCall(me', c) && !me'.jobs[c].pc.Checked? && src < me'.read
      && Answers(peer.out.log, src, IdOf(me'.jobs[c].tick), r)
      ensures Kept(me', c, src, r)
    {
      OneKept(me, peer, e, c, src, r);
    }
  }

  lemma PeerLosesNothing(me: Endpoint, log: seq<L.Packet>, log': seq<L.Packet>)
    requires NothingLost(me, log) && me.read <= |log| && log <= log'
    ensures NothingLost(me, log')
  {
    forall c: nat, src: nat, r |
      IsCall(me, c) && !me.jobs[c].pc.Checked? && src < me.read && Answers(log', src, IdOf(me.jobs[c].tick), r)
      ensures Kept(me, c, src, r)
    {
      assert Answers(log, src, IdOf(me.jobs[c].tick), r);
    }
  }

  ghost predicate Safe(s: System, side: Side) {
    && SysInv(s)
    && AllAwaited(At(s, side)) && NothingLost(At(s, side), At(s, Other(side)).out.log)
  }

  lemma StepSafe(s: System, who: Side, e: Event, side: Side)
    requires Safe(s, side) && SysEnabled(s, who, e)
    requires At(s, side).ticks <= At(SysStep(s, who, e), side).ticks < TWO32
    ensures Safe(SysStep(s, who, e), side)
  {
    var me, peer := At(s, side), At(s, Other(side));
    StepSys(s, who, e);
    if who == side {
      StepAwaited(me, peer.out.bytes, e);
      StepNothingLost(me, peer, e);
    } else {
      StepOut(peer, me.out.bytes, e);
      PeerLosesNothing(me, peer.out.log, Step(peer, me.out.bytes, e).out.log);
    }
  }

  lemma {:induction false} RunSafe(s: System, es: seq<(Side, Event)>, s': System, side: Side)
    requires Safe(s, side) && Run(s, es, s')
    requires At(s, side).ticks + Registrations(es, side) < TWO32
    ensures Safe(s', side)
    decreases |es|
  {
    if es != [] {
      StepTick(s, es[0].0, es[0].1, side);
      StepSafe(s, es[0].0, es[0].1, side);
      RunSafe(SysStep(s, es[0].0, es[0].1), es[1..], s', side);
    }
  }

  lemma KeptMeansTaken(me: Endpoint, bytes: seq<byte>, c: nat, src: nat, r: Response)
    requires IsCall(me, c) && Kept(me, c, src, r)
    requires me.reader.Reading? && me.jobs[c].pc.Waiting? && !me.out.phase.Closed?
    ensures Enabled(me, bytes, TakeAnswer(c)) && me.jobs[c].inbox == [Receipt(src, r)]
  {
  }

  lemma ReachSafe(es: seq<(Side, Event)>, s: System, side: Side)
    requires Run(START, es, s) && Registrations(es, side) < TWO32
    ensures Safe(s, side) && At(s, side).ticks < TWO32
  {
    StartInv();
    RunSafe(START, es, s, side);
    CounterCountsCommands(es, s, side);
  }

  /**
   In every run with fewer than 2^32 commands on a side, a response to call c that has been
   read there is the one the peer's handler produced for c, and it is not lost: the reader
   has it, or it is what c's channel holds, or c is leaving or gone, or the connection is
   closed.  So a call that still waits when the reader is back at the stream can take it.
   */
  lemma NoResponseLost(es: seq<(Side, Event)>, s: System, side: Side, c: nat, src: nat, r: Response) returns (h: nat)
    requires Run(START, es, s) && Registrations(es, side) < TWO32
    requires IsCall(At(s, side), c) && !At(s, side).jobs[c].pc.Checked? && src < At(s, side).read
    requires Answers(At(s, Other(side)).out.log, src, IdOf(At(s, side).jobs[c].tick), r)
    ensures ExecutedFor(At(s, side), At(s, Other(side)), c, h, r)
    ensures Kept(At(s, side), c, src, r)
    ensures At(s, side).reader.Reading? && At(s, side).jobs[c].pc.Waiting? && !At(s, side).out.phase.Closed? ==>
              SysEnabled(s, side, TakeAnswer(c)) && At(s, side).jobs[c].inbox == [Receipt(src, r)]
  {
    ReachSafe(es, s, side);
    h := ResponseBelongs(At(s, side), At(s, Other(side)), c, src, r);
    if At(s, side).reader.Reading? && At(s, side).jobs[c].pc.Waiting? && !At(s, side).out.phase.Closed? {
      KeptMeansTaken(At(s, side), At(s, Other(side)).out.bytes, c, src, r);
    }
  }

  // ----- commands and malformed frames are not lost either -----

  /** What the reader starts for a frame: a handler with its body, or an error reply with its text. */
  predicate Started(me: Endpoint, j: nat, src: nat, verdict: Verdict) {
    && j < |me.jobs|
    && match verdict
       case RunCommand(body) => me.jobs[j].Handler? && me.jobs[j].src == src && me.jobs[j].body == body
       case Malformed(text) => me.jobs[j] == Reply(text)
       case GotResponse(_) => true
  }

  predicate HasJob(me: Endpoint, src: nat, verdict: Verdict) {
    verdict.GotResponse? || exists j :: 0 <= j < |me.jobs| && Started(me, j, src, verdict)
  }

  lemma JobStays(me: Endpoint, bytes: seq<byte>, e: Event, j: nat, src: nat, verdict: Verdict)
    requires Enabled(me, bytes, e) && Started(me, j, src, verdict)
    ensures Started(Step(me, bytes, e), j, src, verdict)
  {
  }

  lemma ReadStarts(me: Endpoint, bytes: seq<byte>, frame: seq<byte>)
    requires Enabled(me, bytes, ReadFrame) && Incoming(me, bytes) == Whole(frame)
    ensures HasJob(Step(me, bytes, ReadFrame), me.read, Classify(frame))
  {
    if !Classify(frame).GotResponse? {
      assert Started(Step(me, bytes, ReadFrame), |me.jobs|, me.read, Classify(frame));
    }
  }

  ghost predicate AllHandled(me: Endpoint, log: seq<L.Packet>) {
    forall src: nat :: src < me.read && src < |log| ==> HasJob(me, src, Classify(log[src].frame))
  }

  lemma OneHandled(me: Endpoint, bytes: seq<byte>, e: Event, log: seq<L.Packet>, src: nat)
    requires Faithful(me, bytes, log) && Enabled(me, bytes, e) && AllHandled(me, log)
    requires src < Step(me, bytes, e).read && src < |log|
    ensures HasJob(Step(me, bytes, e), src, Classify(log[src].frame))
  {
    if src < me.read {
      if !Classify(log[src].frame).GotResponse? {
        var j :| 0 <= j < |me.jobs| && Started(me, j, src, Classify(log[src].frame));
        JobStays(me, bytes, e, j, src, Classify(log[src].frame));
      }
    } else {
      ReadsOne(me, bytes, e);
      assert src == me.read;
      ReadStarts(me, bytes, log[src].frame);
    }
  }

  lemma StepHandled(me: Endpoint, bytes: seq<byte>, e: Event, log: seq<L.Packet>)
    requires Faithful(me, bytes, log) && Enabled(me, bytes, e) && AllHandled(me, log)
    ensures AllHandled(Step(me, bytes, e), log)
  {
    forall src: nat | src < Step(me, bytes, e).read && src < |log|
      ensures HasJob(Step(me, bytes, e), src, Classify(log[src].frame))
    {
      OneHandled(me, bytes, e, log, src);
    }
  }

  lemma PeerKeepsHandled(me: Endpoint, log: seq<L.Packet>, log': seq<L.Packet>)
    requires AllHandled(me, log) && me.read <= |log| && log <= log'
    ensures AllHandled(me, log')
  {
  }

  lemma SysHandled(s: System, who: Side, e: Event, side: Side)
    requires SysInv(s) && SysEnabled(s, who, e) && AllHandled(At(s, side), At(s, Other(side)).out.log)
    ensures var s1 := SysStep(s, who, e); AllHandled(At(s1, side), At(s1, Other(side)).out.log)
  {
    var me, peer := At(s, side), At(s, Other(side));
    if who == side {
      ReadsTheLog(me, peer.out);
      StepHandled(me, peer.out.bytes, e, peer.out.log);
    } else {
      StepOut(peer, me.out.bytes, e);
      PeerKeepsHandled(me, peer.out.log, Step(peer, me.out.bytes, e).out.log);
    }
  }

  lemma {:induction false} RunHandled(s: System, es: seq<(Side, Event)>, s': System, side: Side)
    requires SysInv(s) && Run(s, es, s') && AllHandled(At(s, side), At(s, Other(side)).out.log)
    ensures AllHandled(At(s', side), At(s', Other(side)).out.log)
    decreases |es|
  {
    if es != [] {
      SysHandled(s, es[0].0, es[0].1, side);
      StepSys(s, es[0].0, es[0].1);
      RunHandled(SysStep(s, es[0].0, es[0].1), es[1..], s', side);
    }
  }

  /**
   In every run, however many commands there are: for every command frame that has been
   read there is a handler with exactly its body, and for every malformed frame an error
   reply with exactly the text of what was wrong with it.
   */
  lemma NoFrameLost(es: seq<(Side, Event)>, s: System, side: Side, src: nat)
    requires Run(START, es, s) && src < At(s, side).read
    ensures src < |At(s, Other(side)).out.log|
    ensures HasJob(At(s, side), src, Classify(At(s, Other(side)).out.log[src].frame))
  {
    StartInv();
    RunHandled(START, es, s, side);
    ReachInv(es, s);
  }
}
