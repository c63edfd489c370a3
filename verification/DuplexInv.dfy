/**
 The invariant of the two-peer system and the proof that every step keeps it.

 The invariant of one endpoint mentions its peer only through the frames of the
 peer's log that the reader has already taken, so a step of the peer cannot break it.
 */
module DuplexInv {
  import opened Wire
  import opened Duplex
  import L = Line

  // ----- writers -----

  /** Writers of the Line are jobs, and each writes the frame its job stands for. */
  predicate WritersOk(me: Endpoint) {
    forall w :: w in me.out.writers ==>
      w < |me.jobs| && HasFrame(me.jobs[w]) && JobFrame(me.jobs[w]) == me.out.writers[w].frame
  }

  // ----- handlers -----

  /** Handler h runs the command in incoming frame `src`, and each frame has one handler. */
  predicate HandlerOk(j: Job, log: seq<L.Packet>, read: nat)
    requires j.Handler?
  {
    && j.src < read && j.src < |log|
    && Classify(log[j.src].frame) == RunCommand(j.body)
    && (j.hpc.Executing? ==> DecodeCommand(j.body) == Ok(j.hpc.cmd))
    && (j.hpc.Answering? ==> DecodeCommand(j.body) == Ok(j.hpc.cmd) && j.hpc.response.reqId == j.hpc.cmd.reqId)
    && (j.hpc.Rejecting? ==> DecodeCommand(j.body) == Err(j.hpc.error))
  }

  predicate HandlersOk(jobs: seq<Job>, log: seq<L.Packet>, read: nat) {
    && (forall h :: 0 <= h < |jobs| && jobs[h].Handler? ==> HandlerOk(jobs[h], log, read))
    && (forall h, k :: 0 <= h < k < |jobs| && jobs[h].Handler? && jobs[k].Handler? ==> jobs[h].src != jobs[k].src)
  }

  predicate ForeignOk(jobs: seq<Job>) {
    forall i :: 0 <= i < |jobs| && jobs[i].Foreign? ==> Harmless(jobs[i].frame)
  }

  // ----- calls -----

  predicate TicksOk(jobs: seq<Job>, ticks: nat) {
    && (forall c :: 0 <= c < |jobs| && jobs[c].Call? ==>
          (jobs[c].pc.Checked? <==> jobs[c].tick == 0) && jobs[c].tick <= ticks)
    && (forall c, d :: 0 <= c < d < |jobs| && jobs[c].Call? && jobs[d].Call? && jobs[c].tick == jobs[d].tick ==>
          jobs[c].tick == 0)
  }

  /** Incoming frame `src` has been taken and decodes to this response. */
  predicate Carries(log: seq<L.Packet>, read: nat, src: nat, r: Response) {
    src < read && src < |log| && Classify(log[src].frame) == GotResponse(r)
  }

  predicate CallOk(j: Job, log: seq<L.Packet>, read: nat)
    requires j.Call?
  {
    && |j.inbox| <= 1
    && (j.pc.Checked? ==> j.inbox == [])
    && (forall i :: 0 <= i < |j.inbox| ==>
          Carries(log, read, j.inbox[i].src, j.inbox[i].response) && j.inbox[i].response.reqId == IdOf(j.tick))
    && (j.pc.Leaving? && j.pc.out.Answer? ==> |j.inbox| == 1 && j.inbox[0].response == j.pc.out.response)
    && (j.pc.Gone? && j.pc.out.Answer? ==> |j.inbox| == 1 && j.inbox[0].response == j.pc.out.response)
  }

  predicate CallsOk(jobs: seq<Job>, log: seq<L.Packet>, read: nat) {
    forall c :: 0 <= c < |jobs| && jobs[c].Call? ==> CallOk(jobs[c], log, read)
  }

  /** The reader holds the latest frame; nothing in any channel comes from it. */
  predicate Latest(jobs: seq<Job>, read: nat, src: nat) {
    && src + 1 == read
    && (forall c, i :: 0 <= c < |jobs| && jobs[c].Call? && 0 <= i < |jobs[c].inbox| ==> jobs[c].inbox[i].src < src)
  }

  predicate ReaderOk(me: Endpoint, log: seq<L.Packet>) {
    match me.reader
    case Matching(src, r) => Carries(log, me.read, src, r) && Latest(me.jobs, me.read, src)
    case Delivering(src, r, c) =>
      && Carries(log, me.read, src, r) && Latest(me.jobs, me.read, src)
      && IsCall(me, c) && !me.jobs[c].pc.Checked? && me.jobs[c].inbox == [] && IdOf(me.jobs[c].tick) == r.reqId
    case Replying(j, _) => j < |me.jobs| && me.jobs[j].Reply?
    case _ => true
  }

  /** An entry stands for an unfinished registered call that has never been answered. */
  predicate EntryOk(me: Endpoint, id: uint32, c: nat) {
    && IsCall(me, c)
    && !me.jobs[c].pc.Checked? && !me.jobs[c].pc.Gone?
    && IdOf(me.jobs[c].tick) == id
    && me.jobs[c].inbox == []
    && (me.reader.Delivering? ==> me.reader.call != c)
  }

  predicate PendingOk(me: Endpoint) {
    forall id :: id in me.pending ==> EntryOk(me, id, me.pending[id])
  }

  // ----- the position in the incoming stream -----

  predicate PositionOk(me: Endpoint, log: seq<L.Packet>) {
    && me.read <= |log|
    && me.consumed == |Flatten(L.Frames(log[..me.read]))|
  }

  predicate LocalInv(me: Endpoint, log: seq<L.Packet>) {
    && WritersOk(me)
    && HandlersOk(me.jobs, log, me.read)
    && ForeignOk(me.jobs)
    && TicksOk(me.jobs, me.ticks)
    && CallsOk(me.jobs, log, me.read)
    && ReaderOk(me, log)
    && PendingOk(me)
    && PositionOk(me, log)
  }

  predicate SysInv(s: System) {
    && L.Inv(s.left.out) && L.Inv(s.right.out)
    && LocalInv(s.left, s.right.out.log)
    && LocalInv(s.right, s.left.out.log)
  }

  // ----- what the reader sees -----

  lemma FlattenPrefix(log: seq<L.Packet>, n: nat)
    requires n <= |log|
    ensures Flatten(L.Frames(log)) == Flatten(L.Frames(log[..n])) + Flatten(L.Frames(log[n..]))
  {
    FlattenConcat(L.Frames(log[..n]), L.Frames(log[n..]));
    assert L.Frames(log) == L.Frames(log[..n]) + L.Frames(log[n..]);
  }

  /** The remains of a torn or unfinished frame never read as a frame. */
  lemma TailIncomplete(l: L.Line)
    requires L.Inv(l)
    ensures Arrived(L.Tail(l)) == Incomplete
  {
    if l.torn.Torn? {
      var x := l.writers[l.torn.writer];
      assert L.WriterOk(l, l.torn.writer);
      ArrivedPartial(x.frame, l.torn.part);
    } else if l.lock.Held? && L.IsWriting(l, l.lock.holder) {
      var x := l.writers[l.lock.holder];
      assert L.WriterOk(l, l.lock.holder);
      ArrivedPartial(x.frame, Framed(x.frame)[..x.st.done]);
    }
  }

  lemma NextArrives(log: seq<L.Packet>, tail: seq<byte>)
    requires Arrived(tail) == Incomplete && (|log| > 0 ==> FrameSized(log[0].frame))
    ensures Arrived(Flatten(L.Frames(log)) + tail) == if |log| > 0 then Whole(log[0].frame) else Incomplete
  {
    var frames := L.Frames(log);
    if |log| > 0 {
      assert Flatten(frames) + tail == Framed(frames[0]) + (Flatten(frames[1..]) + tail);
      ArrivedFramed(frames[0], Flatten(frames[1..]) + tail);
    } else {
      assert Flatten(frames) + tail == tail;
    }
  }

  lemma StreamAt(bytes: seq<byte>, log: seq<L.Packet>, tail: seq<byte>, n: nat)
    requires bytes == Flatten(L.Frames(log)) + tail && n <= |log|
    ensures
      var at := |Flatten(L.Frames(log[..n]))|;
      at <= |bytes| && bytes[at..] == Flatten(L.Frames(log[n..])) + tail
  {
    FlattenPrefix(log, n);
    var front := Flatten(L.Frames(log[..n]));
    assert bytes == front + (Flatten(L.Frames(log[n..])) + tail);
  }

  /** Reading is FIFO: the bytes at the reader's position are the next frame of the log, or no frame yet. */
  lemma ReadsTheLog(me: Endpoint, peer: L.Line)
    requires L.Inv(peer) && PositionOk(me, peer.log)
    ensures me.consumed <= |peer.bytes|
    ensures Incoming(me, peer.bytes) ==
            if me.read < |peer.log| then Whole(peer.log[me.read].frame) else Incomplete
  {
    StreamAt(peer.bytes, peer.log, L.Tail(peer), me.read);
    TailIncomplete(peer);
    if me.read < |peer.log| {
      assert L.WriterOk(peer, peer.log[me.read].writer);
    }
    NextArrives(peer.log[me.read..], L.Tail(peer));
  }

  lemma PositionAdvances(log: seq<L.Packet>, n: nat)
    requires n < |log|
    ensures |Flatten(L.Frames(log[..n + 1]))| == |Flatten(L.Frames(log[..n]))| + |Framed(log[n].frame)|
  {
    assert log[..n + 1] == log[..n] + [log[n]];
    L.AppendPacket(log[..n], log[n]);
  }

  // ----- a step of the peer -----

  /** The log only grows, so what an endpoint knows about frames it has read stays true. */
  lemma PeerSteps(me: Endpoint, log: seq<L.Packet>, log': seq<L.Packet>)
    requires LocalInv(me, log) && log <= log'
    ensures LocalInv(me, log')
  {
    assert log'[..me.read] == log[..me.read];
    forall h | 0 <= h < |me.jobs| && me.jobs[h].Handler? ensures HandlerOk(me.jobs[h], log', me.read) {
      assert HandlerOk(me.jobs[h], log, me.read);
    }
    forall c | 0 <= c < |me.jobs| && me.jobs[c].Call? ensures CallOk(me.jobs[c], log', me.read) {
      assert CallOk(me.jobs[c], log, me.read);
    }
  }

  lemma LogGrows(l: L.Line, e: L.Event)
    requires L.Enabled(l, e)
    ensures l.log <= L.Step(l, e).log
  {
  }

  // ----- an endpoint's own steps, one clause of the invariant at a time -----

  /** What a step may assume about the bytes it reads. */
  predicate Faithful(me: Endpoint, bytes: seq<byte>, log: seq<L.Packet>) {
    Incoming(me, bytes) == if me.read < |log| then Whole(log[me.read].frame) else Incomplete
  }

  predicate OfCall(e: Event) {
    e.StartCall? || e.Register? || e.WriteReturns? || e.TakeAnswer? || e.TimeOut? || e.SeeClosed? || e.Cleanup?
  }

  predicate OfHandler(e: Event) {
    e.Decode? || e.Execute? || e.Inject?
  }

  predicate OfReader(e: Event) {
    e.ReadFails? || e.Match? || e.Deliver? || e.ReplyReturns?
  }

  lemma RegisterWriters(me: Endpoint, bytes: seq<byte>, e: Event)
    requires Enabled(me, bytes, e) && e.Register?
    requires WritersOk(me)
    ensures WritersOk(Step(me, bytes, e))
  {
  }

  lemma CallWriters(me: Endpoint, bytes: seq<byte>, e: Event)
    requires Enabled(me, bytes, e) && OfCall(e)
    requires WritersOk(me)
    ensures WritersOk(Step(me, bytes, e))
  {
    if e.Register? { RegisterWriters(me, bytes, e); }
  }

  lemma DecodeWriters(me: Endpoint, bytes: seq<byte>, e: Event)
    requires Enabled(me, bytes, e) && e.Decode?
    requires WritersOk(me)
    ensures WritersOk(Step(me, bytes, e))
  {
    var j := Decoded(me.jobs[e.h]);
    assert e.h !in me.out.writers;
    if HasFrame(j) {
      EnterWriters(SetJob(me, e.h, j), e.h);
      assert Step(me, bytes, e) == Enter(SetJob(me, e.h, j), e.h, JobFrame(j));
    }
  }

  lemma EnterWriters(me: Endpoint, w: nat)
    requires WritersOk(me) && w < |me.jobs| && HasFrame(me.jobs[w]) && CanEnter(me, w, JobFrame(me.jobs[w]))
    ensures WritersOk(Enter(me, w, JobFrame(me.jobs[w])))
  {
  }

  lemma ExecuteWriters(me: Endpoint, bytes: seq<byte>, e: Event)
    requires Enabled(me, bytes, e) && (e.Execute? || e.Inject?)
    requires WritersOk(me)
    ensures WritersOk(Step(me, bytes, e))
  {
  }

  lemma HandlerWriters(me: Endpoint, bytes: seq<byte>, e: Event)
    requires Enabled(me, bytes, e) && OfHandler(e)
    requires WritersOk(me)
    ensures WritersOk(Step(me, bytes, e))
  {
    if e.Decode? { DecodeWriters(me, bytes, e); }
    else { ExecuteWriters(me, bytes, e); }
  }

  lemma ActKeepsFrame(x: L.Writer, e: L.Event)
    ensures L.Act(x, e).frame == x.frame
  {
  }

  lemma WritersMoved(l: L.Line, e: L.Event)
    requires L.Enabled(l, e) && !L.Phasing(e)
    ensures L.Step(l, e).writers == l.writers[e.w := L.Act(L.Actor(l, e), e)]
  {
  }

  lemma SameFrames(l: L.Line, e: L.Event)
    requires L.Enabled(l, e) && !e.Enter?
    ensures L.Step(l, e).writers.Keys == l.writers.Keys
    ensures forall w :: w in l.writers ==> L.Step(l, e).writers[w].frame == l.writers[w].frame
  {
    if !L.Phasing(e) {
      WritersMoved(l, e);
      ActKeepsFrame(l.writers[e.w], e);
      assert e.w in l.writers;
    }
  }

  lemma NetWriters(me: Endpoint, bytes: seq<byte>, e: Event)
    requires Enabled(me, bytes, e) && e.Net?
    requires WritersOk(me)
    ensures WritersOk(Step(me, bytes, e))
  {
    SameFrames(me.out, e.le);
    var me' := Step(me, bytes, e);
    forall w | w in me'.out.writers
      ensures w < |me'.jobs| && HasFrame(me'.jobs[w]) && JobFrame(me'.jobs[w]) == me'.out.writers[w].frame
    {
      assert w in me.out.writers.Keys;
    }
  }

  lemma SpawnWriters(me: Endpoint, j: Job)
    requires WritersOk(me) && CanSpawn(me, j)
    ensures WritersOk(Spawn(me, j))
  {
  }

  lemma ReadWriters(me: Endpoint, bytes: seq<byte>, e: Event)
    requires Enabled(me, bytes, e) && e.ReadFrame?
    requires WritersOk(me)
    ensures WritersOk(Step(me, bytes, e))
  {
    var found := Incoming(me, bytes);
    var taken := if found.Whole? then me.(consumed := me.consumed + |Framed(found.frame)|, read := me.read + 1) else me;
    var j := ReadJob(me, found);
    if j.Some? {
      SpawnWriters(taken, j.value);
      assert WritersOk(Spawn(taken, j.value));
    }
  }

  lemma ReaderWriters(me: Endpoint, bytes: seq<byte>, e: Event)
    requires Enabled(me, bytes, e) && OfReader(e)
    requires WritersOk(me)
    ensures WritersOk(Step(me, bytes, e))
  {
  }

  lemma StepWriters(me: Endpoint, bytes: seq<byte>, e: Event)
    requires Enabled(me, bytes, e)
    requires WritersOk(me)
    ensures WritersOk(Step(me, bytes, e))
  {
    if OfCall(e) { CallWriters(me, bytes, e); }
    else if OfHandler(e) { HandlerWriters(me, bytes, e); }
    else if e.Net? { NetWriters(me, bytes, e); }
    else if e.ReadFrame? { ReadWriters(me, bytes, e); }
    else { ReaderWriters(me, bytes, e); }
  }

  lemma CallHandlers(me: Endpoint, bytes: seq<byte>, e: Event, log: seq<L.Packet>)
    requires Enabled(me, bytes, e) && OfCall(e)
    requires Faithful(me, bytes, log) && HandlersOk(me.jobs, log, me.read)
    ensures var me' := Step(me, bytes, e); HandlersOk(me'.jobs, log, me'.read)
  {
  }

  lemma DecodeHandlers(me: Endpoint, bytes: seq<byte>, e: Event, log: seq<L.Packet>)
    requires Enabled(me, bytes, e) && e.Decode?
    requires Faithful(me, bytes, log) && HandlersOk(me.jobs, log, me.read)
    ensures var me' := Step(me, bytes, e); HandlersOk(me'.jobs, log, me'.read)
  {
  }

  lemma ExecuteHandlers(me: Endpoint, bytes: seq<byte>, e: Event, log: seq<L.Packet>)
    requires Enabled(me, bytes, e) && (e.Execute? || e.Inject?)
    requires Faithful(me, bytes, log) && HandlersOk(me.jobs, log, me.read)
    ensures var me' := Step(me, bytes, e); HandlersOk(me'.jobs, log, me'.read)
  {
  }

  lemma HandlerHandlers(me: Endpoint, bytes: seq<byte>, e: Event, log: seq<L.Packet>)
    requires Enabled(me, bytes, e) && OfHandler(e)
    requires Faithful(me, bytes, log) && HandlersOk(me.jobs, log, me.read)
    ensures var me' := Step(me, bytes, e); HandlersOk(me'.jobs, log, me'.read)
  {
    if e.Decode? { DecodeHandlers(me, bytes, e, log); }
    else { ExecuteHandlers(me, bytes, e, log); }
  }

  lemma AppendHandler(jobs: seq<Job>, j: Job, log: seq<L.Packet>, read: nat)
    requires HandlersOk(jobs, log, read)
    requires j.Handler? ==> j.src == read && HandlerOk(j, log, read + 1)
    ensures HandlersOk(jobs + [j], log, read + 1)
    ensures HandlersOk(jobs, log, read + 1)
  {
    forall h | 0 <= h < |jobs| && jobs[h].Handler? ensures HandlerOk(jobs[h], log, read + 1) {
      assert HandlerOk(jobs[h], log, read);
    }
  }

  lemma ReadHandlers(me: Endpoint, bytes: seq<byte>, e: Event, log: seq<L.Packet>)
    requires Enabled(me, bytes, e) && e.ReadFrame?
    requires Faithful(me, bytes, log) && HandlersOk(me.jobs, log, me.read)
    ensures var me' := Step(me, bytes, e); HandlersOk(me'.jobs, log, me'.read)
  {
    var found := Incoming(me, bytes);
    var j := ReadJob(me, found);
    assert found == Whole(log[me.read].frame);
    AppendHandler(me.jobs, if j.Some? then j.value else Reply(""), log, me.read);
  }

  lemma ReaderHandlers(me: Endpoint, bytes: seq<byte>, e: Event, log: seq<L.Packet>)
    requires Enabled(me, bytes, e) && (OfReader(e) || e.Net?)
    requires Faithful(me, bytes, log) && HandlersOk(me.jobs, log, me.read)
    ensures var me' := Step(me, bytes, e); HandlersOk(me'.jobs, log, me'.read)
  {
  }

  lemma StepHandlers(me: Endpoint, bytes: seq<byte>, e: Event, log: seq<L.Packet>)
    requires Enabled(me, bytes, e)
    requires Faithful(me, bytes, log) && HandlersOk(me.jobs, log, me.read)
    ensures var me' := Step(me, bytes, e); HandlersOk(me'.jobs, log, me'.read)
  {
    if OfCall(e) { CallHandlers(me, bytes, e, log); }
    else if OfHandler(e) { HandlerHandlers(me, bytes, e, log); }
    else if e.ReadFrame? { ReadHandlers(me, bytes, e, log); }
    else { ReaderHandlers(me, bytes, e, log); }
  }

  lemma CallForeign(me: Endpoint, bytes: seq<byte>, e: Event)
    requires Enabled(me, bytes, e) && OfCall(e)
    requires ForeignOk(me.jobs)
    ensures ForeignOk(Step(me, bytes, e).jobs)
  {
  }

  lemma HandlerForeign(me: Endpoint, bytes: seq<byte>, e: Event)
    requires Enabled(me, bytes, e) && (OfHandler(e) || e.Net?)
    requires ForeignOk(me.jobs)
    ensures ForeignOk(Step(me, bytes, e).jobs)
  {
  }

  lemma ReaderForeign(me: Endpoint, bytes: seq<byte>, e: Event)
    requires Enabled(me, bytes, e) && OfReader(e)
    requires ForeignOk(me.jobs)
    ensures ForeignOk(Step(me, bytes, e).jobs)
  {
  }

  lemma ReadForeign(me: Endpoint, bytes: seq<byte>, e: Event)
    requires Enabled(me, bytes, e) && e.ReadFrame?
    requires ForeignOk(me.jobs)
    ensures ForeignOk(Step(me, bytes, e).jobs)
  {
  }

  lemma StepForeign(me: Endpoint, bytes: seq<byte>, e: Event)
    requires Enabled(me, bytes, e)
    requires ForeignOk(me.jobs)
    ensures ForeignOk(Step(me, bytes, e).jobs)
  {
    if OfCall(e) { CallForeign(me, bytes, e); }
    else if OfHandler(e) || e.Net? { HandlerForeign(me, bytes, e); }
    else if OfReader(e) { ReaderForeign(me, bytes, e); }
    else { ReadForeign(me, bytes, e); }
  }

  lemma CallTicks(me: Endpoint, bytes: seq<byte>, e: Event)
    requires Enabled(me, bytes, e) && OfCall(e)
    requires TicksOk(me.jobs, me.ticks)
    ensures var me' := Step(me, bytes, e); TicksOk(me'.jobs, me'.ticks)
  {
  }

  lemma HandlerTicks(me: Endpoint, bytes: seq<byte>, e: Event)
    requires Enabled(me, bytes, e) && (OfHandler(e) || e.Net?)
    requires TicksOk(me.jobs, me.ticks)
    ensures var me' := Step(me, bytes, e); TicksOk(me'.jobs, me'.ticks)
  {
  }

  lemma ReaderTicks(me: Endpoint, bytes: seq<byte>, e: Event)
    requires Enabled(me, bytes, e) && OfReader(e)
    requires TicksOk(me.jobs, me.ticks)
    ensures var me' := Step(me, bytes, e); TicksOk(me'.jobs, me'.ticks)
  {
  }

  lemma ReadTicks(me: Endpoint, bytes: seq<byte>, e: Event)
    requires Enabled(me, bytes, e) && e.ReadFrame?
    requires TicksOk(me.jobs, me.ticks)
    ensures var me' := Step(me, bytes, e); TicksOk(me'.jobs, me'.ticks)
  {
  }

  lemma StepTicks(me: Endpoint, bytes: seq<byte>, e: Event)
    requires Enabled(me, bytes, e)
    requires TicksOk(me.jobs, me.ticks)
    ensures var me' := Step(me, bytes, e); TicksOk(me'.jobs, me'.ticks)
  {
    if OfCall(e) { CallTicks(me, bytes, e); }
    else if OfHandler(e) || e.Net? { HandlerTicks(me, bytes, e); }
    else if OfReader(e) { ReaderTicks(me, bytes, e); }
    else { ReadTicks(me, bytes, e); }
  }

  lemma CallCalls(me: Endpoint, bytes: seq<byte>, e: Event, log: seq<L.Packet>)
    requires Enabled(me, bytes, e) && OfCall(e)
    requires Faithful(me, bytes, log)
    requires CallsOk(me.jobs, log, me.read) && ReaderOk(me, log)
    ensures var me' := Step(me, bytes, e); CallsOk(me'.jobs, log, me'.read)
  {
  }

  lemma HandlerCalls(me: Endpoint, bytes: seq<byte>, e: Event, log: seq<L.Packet>)
    requires Enabled(me, bytes, e) && (OfHandler(e) || e.Net?)
    requires Faithful(me, bytes, log)
    requires CallsOk(me.jobs, log, me.read) && ReaderOk(me, log)
    ensures var me' := Step(me, bytes, e); CallsOk(me'.jobs, log, me'.read)
  {
  }

  lemma ReaderCalls(me: Endpoint, bytes: seq<byte>, e: Event, log: seq<L.Packet>)
    requires Enabled(me, bytes, e) && OfReader(e)
    requires Faithful(me, bytes, log)
    requires CallsOk(me.jobs, log, me.read) && ReaderOk(me, log)
    ensures var me' := Step(me, bytes, e); CallsOk(me'.jobs, log, me'.read)
  {
  }

  lemma ReadCalls(me: Endpoint, bytes: seq<byte>, e: Event, log: seq<L.Packet>)
    requires Enabled(me, bytes, e) && e.ReadFrame?
    requires Faithful(me, bytes, log)
    requires CallsOk(me.jobs, log, me.read) && ReaderOk(me, log)
    ensures var me' := Step(me, bytes, e); CallsOk(me'.jobs, log, me'.read)
  {
  }

  lemma StepCalls(me: Endpoint, bytes: seq<byte>, e: Event, log: seq<L.Packet>)
    requires Enabled(me, bytes, e)
    requires Faithful(me, bytes, log)
    requires CallsOk(me.jobs, log, me.read) && ReaderOk(me, log)
    ensures var me' := Step(me, bytes, e); CallsOk(me'.jobs, log, me'.read)
  {
    if OfCall(e) { CallCalls(me, bytes, e, log); }
    else if OfHandler(e) || e.Net? { HandlerCalls(me, bytes, e, log); }
    else if OfReader(e) { ReaderCalls(me, bytes, e, log); }
    else { ReadCalls(me, bytes, e, log); }
  }

  lemma BeginReader(me: Endpoint, bytes: seq<byte>, e: Event, log: seq<L.Packet>)
    requires Enabled(me, bytes, e) && (e.StartCall? || e.Register?)
    requires Faithful(me, bytes, log)
    requires CallsOk(me.jobs, log, me.read) && ReaderOk(me, log) && PendingOk(me)
    ensures ReaderOk(Step(me, bytes, e), log)
  {
  }

  lemma WaitReader(me: Endpoint, bytes: seq<byte>, e: Event, log: seq<L.Packet>)
    requires Enabled(me, bytes, e) && (e.WriteReturns? || e.TakeAnswer?)
    requires Faithful(me, bytes, log)
    requires CallsOk(me.jobs, log, me.read) && ReaderOk(me, log) && PendingOk(me)
    ensures ReaderOk(Step(me, bytes, e), log)
  {
  }

  lemma LeaveReader(me: Endpoint, bytes: seq<byte>, e: Event, log: seq<L.Packet>)
    requires Enabled(me, bytes, e) && (e.TimeOut? || e.SeeClosed? || e.Cleanup?)
    requires Faithful(me, bytes, log)
    requires CallsOk(me.jobs, log, me.read) && ReaderOk(me, log) && PendingOk(me)
    ensures ReaderOk(Step(me, bytes, e), log)
  {
  }

  lemma CallReader(me: Endpoint, bytes: seq<byte>, e: Event, log: seq<L.Packet>)
    requires Enabled(me, bytes, e) && OfCall(e)
    requires Faithful(me, bytes, log)
    requires CallsOk(me.jobs, log, me.read) && ReaderOk(me, log) && PendingOk(me)
    ensures ReaderOk(Step(me, bytes, e), log)
  {
    if e.StartCall? || e.Register? { BeginReader(me, bytes, e, log); }
    else if e.WriteReturns? || e.TakeAnswer? { WaitReader(me, bytes, e, log); }
    else { LeaveReader(me, bytes, e, log); }
  }

  lemma DecodeReader(me: Endpoint, bytes: seq<byte>, e: Event, log: seq<L.Packet>)
    requires Enabled(me, bytes, e) && e.Decode?
    requires Faithful(me, bytes, log)
    requires CallsOk(me.jobs, log, me.read) && ReaderOk(me, log) && PendingOk(me)
    ensures ReaderOk(Step(me, bytes, e), log)
  {
  }

  lemma ExecuteReader(me: Endpoint, bytes: seq<byte>, e: Event, log: seq<L.Packet>)
    requires Enabled(me, bytes, e) && (e.Execute? || e.Inject?)
    requires Faithful(me, bytes, log)
    requires CallsOk(me.jobs, log, me.read) && ReaderOk(me, log) && PendingOk(me)
    ensures ReaderOk(Step(me, bytes, e), log)
  {
  }

  lemma HandlerReader(me: Endpoint, bytes: seq<byte>, e: Event, log: seq<L.Packet>)
    requires Enabled(me, bytes, e) && OfHandler(e)
    requires Faithful(me, bytes, log)
    requires CallsOk(me.jobs, log, me.read) && ReaderOk(me, log) && PendingOk(me)
    ensures ReaderOk(Step(me, bytes, e), log)
  {
    if e.Decode? { DecodeReader(me, bytes, e, log); }
    else { ExecuteReader(me, bytes, e, log); }
  }

  lemma NetReader(me: Endpoint, bytes: seq<byte>, e: Event, log: seq<L.Packet>)
    requires Enabled(me, bytes, e) && e.Net?
    requires Faithful(me, bytes, log)
    requires CallsOk(me.jobs, log, me.read) && ReaderOk(me, log) && PendingOk(me)
    ensures ReaderOk(Step(me, bytes, e), log)
  {
  }

  lemma ReadReader(me: Endpoint, bytes: seq<byte>, e: Event, log: seq<L.Packet>)
    requires Enabled(me, bytes, e) && e.ReadFrame?
    requires Faithful(me, bytes, log)
    requires CallsOk(me.jobs, log, me.read) && ReaderOk(me, log) && PendingOk(me)
    ensures ReaderOk(Step(me, bytes, e), log)
  {
  }

  lemma ReaderReader(me: Endpoint, bytes: seq<byte>, e: Event, log: seq<L.Packet>)
    requires Enabled(me, bytes, e) && OfReader(e)
    requires Faithful(me, bytes, log)
    requires CallsOk(me.jobs, log, me.read) && ReaderOk(me, log) && PendingOk(me)
    ensures ReaderOk(Step(me, bytes, e), log)
  {
  }

  lemma StepReader(me: Endpoint, bytes: seq<byte>, e: Event, log: seq<L.Packet>)
    requires Enabled(me, bytes, e)
    requires Faithful(me, bytes, log)
    requires CallsOk(me.jobs, log, me.read) && ReaderOk(me, log) && PendingOk(me)
    ensures ReaderOk(Step(me, bytes, e), log)
  {
    if OfCall(e) { CallReader(me, bytes, e, log); }
    else if OfHandler(e) { HandlerReader(me, bytes, e, log); }
    else if e.Net? { NetReader(me, bytes, e, log); }
    else if e.ReadFrame? { ReadReader(me, bytes, e, log); }
    else { ReaderReader(me, bytes, e, log); }
  }

  lemma CallPending(me: Endpoint, bytes: seq<byte>, e: Event, log: seq<L.Packet>)
    requires Enabled(me, bytes, e) && OfCall(e)
    requires Faithful(me, bytes, log)
    requires CallsOk(me.jobs, log, me.read) && ReaderOk(me, log) && PendingOk(me)
    ensures PendingOk(Step(me, bytes, e))
  {
  }

  lemma HandlerPending(me: Endpoint, bytes: seq<byte>, e: Event, log: seq<L.Packet>)
    requires Enabled(me, bytes, e) && (OfHandler(e) || e.Net?)
    requires Faithful(me, bytes, log)
    requires CallsOk(me.jobs, log, me.read) && ReaderOk(me, log) && PendingOk(me)
    ensures PendingOk(Step(me, bytes, e))
  {
  }

  lemma ReadPending(me: Endpoint, bytes: seq<byte>, e: Event, log: seq<L.Packet>)
    requires Enabled(me, bytes, e) && e.ReadFrame?
    requires Faithful(me, bytes, log)
    requires CallsOk(me.jobs, log, me.read) && ReaderOk(me, log) && PendingOk(me)
    ensures PendingOk(Step(me, bytes, e))
  {
  }

  lemma MatchPending(me: Endpoint, bytes: seq<byte>, e: Event, log: seq<L.Packet>)
    requires Enabled(me, bytes, e) && OfReader(e)
    requires Faithful(me, bytes, log)
    requires CallsOk(me.jobs, log, me.read) && ReaderOk(me, log) && PendingOk(me)
    ensures PendingOk(Step(me, bytes, e))
  {
  }

  lemma ReaderPending(me: Endpoint, bytes: seq<byte>, e: Event, log: seq<L.Packet>)
    requires Enabled(me, bytes, e) && (e.ReadFrame? || OfReader(e))
    requires Faithful(me, bytes, log)
    requires CallsOk(me.jobs, log, me.read) && ReaderOk(me, log) && PendingOk(me)
    ensures PendingOk(Step(me, bytes, e))
  {
    if e.ReadFrame? { ReadPending(me, bytes, e, log); }
    else { MatchPending(me, bytes, e, log); }
  }

  lemma StepPending(me: Endpoint, bytes: seq<byte>, e: Event, log: seq<L.Packet>)
    requires Enabled(me, bytes, e)
    requires Faithful(me, bytes, log)
    requires CallsOk(me.jobs, log, me.read) && ReaderOk(me, log) && PendingOk(me)
    ensures PendingOk(Step(me, bytes, e))
  {
    if OfCall(e) { CallPending(me, bytes, e, log); }
    else if OfHandler(e) || e.Net? { HandlerPending(me, bytes, e, log); }
    else { ReaderPending(me, bytes, e, log); }
  }

  lemma StepPosition(me: Endpoint, bytes: seq<byte>, e: Event, log: seq<L.Packet>)
    requires Enabled(me, bytes, e) && Faithful(me, bytes, log)
    requires PositionOk(me, log)
    ensures PositionOk(Step(me, bytes, e), log)
  {
    if e.ReadFrame? {
      PositionAdvances(log, me.read);
    }
  }

  // ----- the whole system -----

  /** An endpoint's step makes at most one step of its own Line; only a call's registration enters for a call. */
  lemma OutMoves(me: Endpoint, bytes: seq<byte>, e: Event) returns (le: L.Event)
    requires Enabled(me, bytes, e)
    ensures
      var me' := Step(me, bytes, e);
      me'.out == me.out || (L.Enabled(me.out, le) && me'.out == L.Step(me.out, le))
    ensures le.Enter? ==> if e.Register? then le.w == e.c else !IsCall(me, le.w)
  {
    le := L.Cancel;
    match e
    case Net(x) => le := x;
    case Register(c, tick) =>
      le := L.Enter(c, CommandFrame(Command(IdOf(tick), me.jobs[c].id, me.jobs[c].payload)), true);
    case Decode(h) => if HasFrame(Decoded(me.jobs[h])) { le := L.Enter(h, JobFrame(Decoded(me.jobs[h])), true); }
    case Execute(h, _, result) => le := L.Enter(h, JobFrame(Executed(me.jobs[h], result)), true);
    case Inject(frame) => le := L.Enter(|me.jobs|, frame, true);
    case ReadFrame =>
      var j := ReadJob(me, Incoming(me, bytes));
      if j.Some? && HasFrame(j.value) { le := L.Enter(|me.jobs|, JobFrame(j.value), true); }
    case _ =>
  }

  lemma StepOut(me: Endpoint, bytes: seq<byte>, e: Event)
    requires Enabled(me, bytes, e) && L.Inv(me.out)
    ensures var me' := Step(me, bytes, e); L.Inv(me'.out) && me.out.log <= me'.out.log
  {
    var le := OutMoves(me, bytes, e);
    var me' := Step(me, bytes, e);
    if me'.out != me.out {
      L.StepInv(me.out, le);
      LogGrows(me.out, le);
    }
  }

  lemma StepLocal(me: Endpoint, peer: L.Line, e: Event)
    requires L.Inv(peer) && LocalInv(me, peer.log) && Enabled(me, peer.bytes, e)
    ensures LocalInv(Step(me, peer.bytes, e), peer.log)
  {
    ReadsTheLog(me, peer);
    StepWriters(me, peer.bytes, e);
    StepHandlers(me, peer.bytes, e, peer.log);
    StepForeign(me, peer.bytes, e);
    StepTicks(me, peer.bytes, e);
    StepCalls(me, peer.bytes, e, peer.log);
    StepReader(me, peer.bytes, e, peer.log);
    StepPending(me, peer.bytes, e, peer.log);
    StepPosition(me, peer.bytes, e, peer.log);
  }

  lemma StepSys(s: System, side: Side, e: Event)
    requires SysInv(s) && SysEnabled(s, side, e)
    ensures SysInv(SysStep(s, side, e))
  {
    var me, peer := At(s, side), At(s, Other(side));
    StepOut(me, peer.out.bytes, e);
    StepLocal(me, peer.out, e);
    PeerSteps(peer, me.out.log, Step(me, peer.out.bytes, e).out.log);
  }

  lemma {:induction false} RunInv(s: System, es: seq<(Side, Event)>, s': System)
    requires SysInv(s) && Run(s, es, s')
    ensures SysInv(s')
    decreases |es|
  {
    if es != [] {
      StepSys(s, es[0].0, es[0].1);
      RunInv(SysStep(s, es[0].0, es[0].1), es[1..], s');
    }
  }

  lemma StartInv()
    ensures SysInv(START)
  {
    L.InitInv();
    assert START.left.out.log[..0] == [];
  }

  lemma ReachInv(es: seq<(Side, Event)>, s: System)
    requires Run(START, es, s)
    ensures SysInv(s)
  {
    StartInv();
    RunInv(START, es, s);
  }
}
