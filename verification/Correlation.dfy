/**
 What the two-peer system promises to callers of sendCmd, over every run.
 */
module Correlation {
  import opened Wire
  import opened Duplex
  import opened DuplexInv
  import opened History
  import L = Line

  // ----- request IDs -----

  /** How many commands a side registered in a run. */
  function Registrations(es: seq<(Side, Event)>, side: Side): nat {
    if es == [] then 0
    else (if es[0].0 == side && es[0].1.Register? then 1 else 0) + Registrations(es[1..], side)
  }

  lemma NextIsUnused(me: Endpoint, tick: nat)
    requires TicksOk(me.jobs, me.ticks) && PendingOk(me)
    requires Allocates(me.ticks, me.pending.Keys, tick) && me.ticks < TWO32
    ensures tick == me.ticks + 1
  {
    forall id | id in me.pending ensures id != IdOf(me.ticks + 1) {
      assert EntryOk(me, id, me.pending[id]);
    }
    assert IdOf(me.ticks + 1) !in me.pending.Keys;
  }

  lemma RegisterTick(me: Endpoint, bytes: seq<byte>, e: Event)
    requires TicksOk(me.jobs, me.ticks) && PendingOk(me) && me.ticks < TWO32
    requires e.Register? && Enabled(me, bytes, e)
    ensures Step(me, bytes, e).ticks == me.ticks + 1
  {
    NextIsUnused(me, e.tick);
  }

  lemma QuietTick(me: Endpoint, bytes: seq<byte>, e: Event)
    requires !e.Register? && Enabled(me, bytes, e)
    ensures Step(me, bytes, e).ticks == me.ticks
  {
  }

  lemma StepTick(s: System, side: Side, e: Event, who: Side)
    requires SysInv(s) && SysEnabled(s, side, e)
    requires At(s, who).ticks + (if side == who && e.Register? then 1 else 0) <= TWO32
    ensures At(SysStep(s, side, e), who).ticks == At(s, who).ticks + if side == who && e.Register? then 1 else 0
  {
    var me, bytes := At(s, side), At(s, Other(side)).out.bytes;
    if e.Register? && At(s, side).ticks < TWO32 {
      RegisterTick(me, bytes, e);
    } else if !e.Register? {
      QuietTick(me, bytes, e);
    }
  }

  lemma {:induction false} TicksFrom(s: System, es: seq<(Side, Event)>, s': System, side: Side)
    requires SysInv(s) && Run(s, es, s')
    requires At(s, side).ticks + Registrations(es, side) <= TWO32
    ensures At(s', side).ticks == At(s, side).ticks + Registrations(es, side)
    decreases |es|
  {
    if es != [] {
      var s1 := SysStep(s, es[0].0, es[0].1);
      StepTick(s, es[0].0, es[0].1, side);
      StepSys(s, es[0].0, es[0].1);
      TicksFrom(s1, es[1..], s', side);
    }
  }

  /** Up to 2^32 commands: the counter never skips, so the IDs are 1, 2, 3, ... and at the very last 0. */
  lemma CounterCountsCommands(es: seq<(Side, Event)>, s: System, side: Side)
    requires Run(START, es, s) && Registrations(es, side) <= TWO32
    ensures At(s, side).ticks == Registrations(es, side)
  {
    StartInv();
    TicksFrom(START, es, s, side);
  }

  lemma IdsDistinct(me: Endpoint, c: nat, d: nat)
    requires TicksOk(me.jobs, me.ticks) && me.ticks <= TWO32
    requires IsCall(me, c) && IsCall(me, d) && !me.jobs[c].pc.Checked? && !me.jobs[d].pc.Checked?
    requires IdOf(me.jobs[c].tick) == IdOf(me.jobs[d].tick)
    ensures c == d && (me.ticks < TWO32 ==> IdOf(me.jobs[c].tick) != 0)
  {
  }

  // ----- where frames come from -----

  /** No malformed frame was injected on this side, and none of its goroutines found anything to complain about. */
  predicate Clean(jobs: seq<Job>) {
    forall i :: 0 <= i < |jobs| ==>
      !jobs[i].Foreign? && !jobs[i].Reply? && (jobs[i].Handler? ==> !jobs[i].hpc.Rejecting?)
  }

  /** A frame that is received as a response was written by a handler, or is an error reply with ID 0. */
  lemma ResponseAuthor(peer: Endpoint, src: nat, r: Response)
    requires L.Inv(peer.out) && WritersOk(peer) && ForeignOk(peer.jobs) && (r.reqId != 0 || Clean(peer.jobs))
    requires src < |peer.out.log| && Classify(peer.out.log[src].frame) == GotResponse(r)
    ensures
      var h := peer.out.log[src].writer;
      IsHandler(peer, h) && peer.jobs[h].hpc.Answering? && peer.jobs[h].hpc.response == r
  {
    var w := peer.out.log[src].writer;
    var j := peer.jobs[w];
    assert L.WriterOk(peer.out, w);
    assert JobFrame(j) == peer.out.log[src].frame;
    match j
    case Call(_, _, _, _, _) => CommandArrives(CallCommand(j));
    case Handler(_, _, hpc) =>
      if hpc.Answering? {
        ResponseArrives(hpc.response);
      } else {
        ResponseArrives(ErrorReply(ErrorText(hpc.error)));
      }
    case Reply(text) => ResponseArrives(ErrorReply(text));
    case Foreign(_) =>
  }

  /** A frame that runs as a command was written by the call with exactly that command. */
  lemma CommandAuthor(peer: Endpoint, src: nat, body: seq<byte>, cmd: Command)
    requires L.Inv(peer.out) && WritersOk(peer) && ForeignOk(peer.jobs)
    requires src < |peer.out.log| && Classify(peer.out.log[src].frame) == RunCommand(body)
    requires DecodeCommand(body) == Ok(cmd)
    ensures
      var c := peer.out.log[src].writer;
      IsCall(peer, c) && !peer.jobs[c].pc.Checked? && CallCommand(peer.jobs[c]) == cmd
  {
    var w := peer.out.log[src].writer;
    var j := peer.jobs[w];
    assert L.WriterOk(peer.out, w);
    assert JobFrame(j) == peer.out.log[src].frame;
    match j
    case Call(_, _, _, _, _) => CommandArrives(CallCommand(j));
    case Handler(_, _, hpc) =>
      if hpc.Answering? {
        ResponseArrives(hpc.response);
      } else {
        ResponseArrives(ErrorReply(ErrorText(hpc.error)));
      }
    case Reply(text) => ResponseArrives(ErrorReply(text));
    case Foreign(_) =>
  }

  // ----- the main theorem -----

  /** Handler h of `peer` ran exactly the command of call c of `me`, and `r` is what it produced. */
  ghost predicate ExecutedFor(me: Endpoint, peer: Endpoint, c: nat, h: nat, r: Response) {
    && IsCall(me, c) && IsHandler(peer, h)
    && peer.jobs[h].hpc == Answering(CallCommand(me.jobs[c]), r)
    && peer.jobs[h].src < |me.out.log|
    && me.out.log[peer.jobs[h].src].writer == c
  }

  /** A response with the ID of call c, in any frame of the peer, was executed for call c. */
  lemma ResponseBelongs(me: Endpoint, peer: Endpoint, c: nat, src: nat, r: Response) returns (h: nat)
    requires L.Inv(me.out) && L.Inv(peer.out)
    requires LocalInv(me, peer.out.log) && LocalInv(peer, me.out.log)
    requires me.ticks < TWO32 || (me.ticks == TWO32 && Clean(peer.jobs))
    requires IsCall(me, c) && !me.jobs[c].pc.Checked? && IdOf(me.jobs[c].tick) == r.reqId
    requires src < |peer.out.log| && Classify(peer.out.log[src].frame) == GotResponse(r)
    ensures ExecutedFor(me, peer, c, h, r) && peer.out.log[src].writer == h
  {
    IdsDistinct(me, c, c);
    ResponseAuthor(peer, src, r);
    h := peer.out.log[src].writer;
    var j := peer.jobs[h];
    assert HandlerOk(j, me.out.log, peer.read);
    CommandAuthor(me, j.src, j.body, j.hpc.cmd);
    IdsDistinct(me, c, me.out.log[j.src].writer);
  }

  lemma AnswerBelongs(me: Endpoint, peer: Endpoint, c: nat, r: Response) returns (h: nat)
    requires L.Inv(me.out) && L.Inv(peer.out)
    requires LocalInv(me, peer.out.log) && LocalInv(peer, me.out.log)
    requires me.ticks < TWO32 || (me.ticks == TWO32 && Clean(peer.jobs))
    requires IsCall(me, c) && me.jobs[c].pc == Gone(Answer(r))
    ensures ExecutedFor(me, peer, c, h, r) && r.reqId == IdOf(me.jobs[c].tick)
  {
    assert CallOk(me.jobs[c], peer.out.log, me.read);
    h := ResponseBelongs(me, peer, c, me.jobs[c].inbox[0].src, r);
  }

  /**
   Call c was started as a command by the i-th event, and r is what Execute returned to
   handler h by the k-th for exactly that command, under the ID it was sent with.
   */
  ghost predicate AnsweredBy(es: seq<(Side, Event)>, side: Side, c: nat, h: nat, r: Response, i: nat, k: nat) {
    exists id: uint16, payload: seq<byte>, result: Response ::
      && StartedAt(es, i, side, c, id, payload)
      && ExecutedAt(es, k, Other(side), h, Command(r.reqId, id, payload), result)
      && r.code == result.code && r.payload == result.payload
  }

  lemma AnswerInHistory(es: seq<(Side, Event)>, s: System, side: Side, c: nat, h: nat, r: Response)
    returns (i: nat, k: nat)
    requires Run(START, es, s) && ExecutedFor(At(s, side), At(s, Other(side)), c, h, r)
    requires r.reqId == IdOf(At(s, side).jobs[c].tick)
    ensures AnsweredBy(es, side, c, h, r, i, k)
  {
    var j := At(s, side).jobs[c];
    var t, result;
    i, t := CallOrigin(START, es, s, side, c);
    k, result := AnswerOrigin(START, es, s, Other(side), h, CallCommand(j), r);
    assert StartedAt(es, i, side, c, j.id, j.payload);
    assert ExecutedAt(es, k, Other(side), h, Command(r.reqId, j.id, j.payload), result);
  }

  /**
   In every run of the two peers, with handlers finishing in any order, timeouts,
   cancellations, late responses, closes, malformed frames and commands in both
   directions: the response sendCmd returns is the one that the peer's Execute returned,
   status and payload, when it was called with exactly the command that sendCmd was given.
   */
  lemma AnswersAreGenuine(es: seq<(Side, Event)>, s: System, side: Side, c: nat, r: Response)
    returns (h: nat, i: nat, k: nat)
    requires Run(START, es, s) && Registrations(es, side) < TWO32
    requires IsCall(At(s, side), c) && At(s, side).jobs[c].pc == Gone(Answer(r))
    ensures ExecutedFor(At(s, side), At(s, Other(side)), c, h, r)
    ensures r.reqId == IdOf(At(s, side).jobs[c].tick)
    ensures AnsweredBy(es, side, c, h, r, i, k)
  {
    ReachInv(es, s);
    CounterCountsCommands(es, s, side);
    h := AnswerBelongs(At(s, side), At(s, Other(side)), c, r);
    i, k := AnswerInHistory(es, s, side, c, h, r);
  }

  // ----- at most one live token per request -----

  /** Where the one copy of a request can be. */
  datatype Token =
    | CommandInFlight(i: nat)
    | HandlerRunning(h: nat)
    | ResponseInFlight(i: nat)
    | AtReader
    | Buffered(c: nat)

  ghost predicate Live(me: Endpoint, peer: Endpoint, t: Token, id: uint32) {
    match t
    case CommandInFlight(i) =>
      && peer.read <= i < |me.out.log| && Classify(me.out.log[i].frame).RunCommand?
      && var d := DecodeCommand(Classify(me.out.log[i].frame).body); d.Ok? && d.value.reqId == id
    case HandlerRunning(h) =>
      && IsHandler(peer, h) && h !in L.Authors(peer.out.log)
      && var d := DecodeCommand(peer.jobs[h].body); d.Ok? && d.value.reqId == id
    case ResponseInFlight(i) =>
      && me.read <= i < |peer.out.log| && Classify(peer.out.log[i].frame).GotResponse?
      && Classify(peer.out.log[i].frame).response.reqId == id
    case AtReader =>
      (me.reader.Matching? || me.reader.Delivering?) && me.reader.response.reqId == id
    case Buffered(c) =>
      && IsCall(me, c) && me.jobs[c].inbox != [] && !Taken(me.jobs[c].pc) && IdOf(me.jobs[c].tick) == id
  }

  /** The incoming frame a response token came in. */
  ghost function Source(me: Endpoint, t: Token): nat {
    match t
    case ResponseInFlight(i) => i
    case AtReader => if me.reader.Matching? || me.reader.Delivering? then me.reader.src else 0
    case Buffered(c) => if IsCall(me, c) && me.jobs[c].inbox != [] then me.jobs[c].inbox[0].src else 0
    case _ => 0
  }

  /** The command frame behind a token. */
  ghost function Origin(me: Endpoint, peer: Endpoint, t: Token): nat {
    match t
    case CommandInFlight(i) => i
    case HandlerRunning(h) => if IsHandler(peer, h) then peer.jobs[h].src else 0
    case _ =>
      var i := Source(me, t);
      if i < |peer.out.log| && IsHandler(peer, peer.out.log[i].writer) then peer.jobs[peer.out.log[i].writer].src else 0
  }

  ghost predicate BothOk(me: Endpoint, peer: Endpoint) {
    L.Inv(me.out) && L.Inv(peer.out) && LocalInv(me, peer.out.log) && LocalInv(peer, me.out.log)
  }

  predicate IsResponse(t: Token) {
    t.ResponseInFlight? || t.AtReader? || t.Buffered?
  }

  /** A handler that understood its frame runs the command of one call. */
  lemma HandlerCall(me: Endpoint, peer: Endpoint, h: nat) returns (c: nat)
    requires BothOk(me, peer) && IsHandler(peer, h) && DecodeCommand(peer.jobs[h].body).Ok?
    ensures IsCall(me, c) && !me.jobs[c].pc.Checked?
    ensures IdOf(me.jobs[c].tick) == DecodeCommand(peer.jobs[h].body).value.reqId
    ensures peer.jobs[h].src < |me.out.log| && me.out.log[peer.jobs[h].src].writer == c
  {
    var j := peer.jobs[h];
    assert HandlerOk(j, me.out.log, peer.read);
    CommandAuthor(me, j.src, j.body, DecodeCommand(j.body).value);
    c := me.out.log[j.src].writer;
  }

  lemma TokenSource(me: Endpoint, peer: Endpoint, t: Token, id: uint32)
    requires BothOk(me, peer) && Live(me, peer, t, id) && IsResponse(t)
    ensures
      var i := Source(me, t);
      && i < |peer.out.log| && Classify(peer.out.log[i].frame).GotResponse?
      && Classify(peer.out.log[i].frame).response.reqId == id
      && (t.ResponseInFlight? <==> me.read <= i)
  {
    if t.Buffered? {
      assert CallOk(me.jobs[t.c], peer.out.log, me.read);
    }
  }

  lemma ResponseHandler(me: Endpoint, peer: Endpoint, t: Token, id: uint32) returns (h: nat)
    requires BothOk(me, peer) && Live(me, peer, t, id) && IsResponse(t) && id != 0
    ensures Source(me, t) < |peer.out.log| && h == peer.out.log[Source(me, t)].writer
    ensures IsHandler(peer, h) && Origin(me, peer, t) == peer.jobs[h].src
    ensures DecodeCommand(peer.jobs[h].body).Ok? && DecodeCommand(peer.jobs[h].body).value.reqId == id
  {
    TokenSource(me, peer, t, id);
    var i := Source(me, t);
    ResponseAuthor(peer, i, Classify(peer.out.log[i].frame).response);
    h := peer.out.log[i].writer;
    assert HandlerOk(peer.jobs[h], me.out.log, peer.read);
  }

  /** Every live token of an ID leads back to one frame, written by the one call with that ID. */
  lemma TokenCall(me: Endpoint, peer: Endpoint, t: Token, id: uint32) returns (c: nat)
    requires BothOk(me, peer) && Live(me, peer, t, id) && id != 0
    ensures IsCall(me, c) && !me.jobs[c].pc.Checked? && IdOf(me.jobs[c].tick) == id
    ensures Origin(me, peer, t) < |me.out.log| && me.out.log[Origin(me, peer, t)].writer == c
  {
    match t
    case CommandInFlight(i) =>
      var body := Classify(me.out.log[i].frame).body;
      CommandAuthor(me, i, body, DecodeCommand(body).value);
      c := me.out.log[i].writer;
    case HandlerRunning(h) => c := HandlerCall(me, peer, h);
    case _ =>
      var h := ResponseHandler(me, peer, t, id);
      c := HandlerCall(me, peer, h);
  }

  lemma SameOrigin(me: Endpoint, peer: Endpoint, t: Token, u: Token, id: uint32)
    requires BothOk(me, peer) && me.ticks < TWO32 && id != 0
    requires Live(me, peer, t, id) && Live(me, peer, u, id)
    ensures Origin(me, peer, t) == Origin(me, peer, u)
  {
    var c := TokenCall(me, peer, t, id);
    var d := TokenCall(me, peer, u, id);
    IdsDistinct(me, c, d);
    assert L.LogOk(me.out);
  }

  /** Two response tokens with one origin have one source: a handler answers once. */
  lemma SameSource(me: Endpoint, peer: Endpoint, t: Token, u: Token, id: uint32)
    requires BothOk(me, peer) && id != 0
    requires Live(me, peer, t, id) && Live(me, peer, u, id) && IsResponse(t) && IsResponse(u)
    requires Origin(me, peer, t) == Origin(me, peer, u)
    ensures Source(me, t) == Source(me, u)
  {
    var h := ResponseHandler(me, peer, t, id);
    var k := ResponseHandler(me, peer, u, id);
    OneHandler(peer.jobs, me.out.log, peer.read, h, k);
    assert L.LogOk(peer.out);
  }

  lemma OneHandler(jobs: seq<Job>, log: seq<L.Packet>, read: nat, h: nat, k: nat)
    requires HandlersOk(jobs, log, read) && h < |jobs| && k < |jobs|
    requires jobs[h].Handler? && jobs[k].Handler? && jobs[h].src == jobs[k].src
    ensures h == k
  {
  }

  lemma ResponsesExclude(me: Endpoint, peer: Endpoint, t: Token, u: Token, id: uint32)
    requires BothOk(me, peer) && me.ticks < TWO32 && id != 0
    requires Live(me, peer, t, id) && Live(me, peer, u, id) && IsResponse(t) && IsResponse(u)
    ensures t == u
  {
    SameOrigin(me, peer, t, u, id);
    SameSource(me, peer, t, u, id);
    TokenSource(me, peer, t, id);
    TokenSource(me, peer, u, id);
    if t.Buffered? {
      assert CallOk(me.jobs[t.c], peer.out.log, me.read);
    }
    if t.Buffered? && u.Buffered? {
      assert CallOk(me.jobs[u.c], peer.out.log, me.read);
      IdsDistinct(me, t.c, u.c);
    }
  }

  /** A frame with a handler, let alone a response, has been read. */
  lemma OriginWasRead(me: Endpoint, peer: Endpoint, t: Token, id: uint32)
    requires BothOk(me, peer) && Live(me, peer, t, id) && id != 0 && !t.CommandInFlight?
    ensures Origin(me, peer, t) < peer.read
  {
    var h;
    if t.HandlerRunning? {
      h := t.h;
    } else {
      h := ResponseHandler(me, peer, t, id);
    }
    assert HandlerOk(peer.jobs[h], me.out.log, peer.read);
  }

  lemma FlightExcludes(me: Endpoint, peer: Endpoint, t: Token, u: Token, id: uint32)
    requires BothOk(me, peer) && me.ticks < TWO32 && id != 0
    requires Live(me, peer, t, id) && Live(me, peer, u, id) && t.CommandInFlight?
    ensures u == t
  {
    if !u.CommandInFlight? {
      OriginWasRead(me, peer, u, id);
    }
    SameOrigin(me, peer, t, u, id);
  }

  /** A handler whose response is out is no longer running. */
  lemma RunningExcludes(me: Endpoint, peer: Endpoint, t: Token, u: Token, id: uint32)
    requires BothOk(me, peer) && me.ticks < TWO32 && id != 0
    requires Live(me, peer, t, id) && Live(me, peer, u, id) && t.HandlerRunning? && !u.CommandInFlight?
    ensures u == t
  {
    if IsResponse(u) {
      var k := ResponseHandler(me, peer, u, id);
      assert L.Authors(peer.out.log)[Source(me, u)] == k;
      SameOrigin(me, peer, t, u, id);
      OneHandler(peer.jobs, me.out.log, peer.read, t.h, k);
    } else {
      SameOrigin(me, peer, t, u, id);
      OneHandler(peer.jobs, me.out.log, peer.read, t.h, u.h);
    }
  }

  lemma Exclusive(me: Endpoint, peer: Endpoint, t: Token, u: Token, id: uint32)
    requires BothOk(me, peer) && me.ticks < TWO32 && id != 0
    requires Live(me, peer, t, id) && Live(me, peer, u, id)
    ensures t == u
  {
    if t.CommandInFlight? { FlightExcludes(me, peer, t, u, id); }
    else if u.CommandInFlight? { FlightExcludes(me, peer, u, t, id); }
    else if t.HandlerRunning? { RunningExcludes(me, peer, t, u, id); }
    else if u.HandlerRunning? { RunningExcludes(me, peer, u, t, id); }
    else { ResponsesExclude(me, peer, t, u, id); }
  }

  /**
   In every run, each request ID has at most one live token among: the command in
   flight, its handler, its response in flight, the reader, and the response channel.
   */
  lemma OneToken(es: seq<(Side, Event)>, s: System, side: Side, t: Token, u: Token, id: uint32)
    requires Run(START, es, s) && Registrations(es, side) < TWO32 && id != 0
    requires Live(At(s, side), At(s, Other(side)), t, id) && Live(At(s, side), At(s, Other(side)), u, id)
    ensures t == u
  {
    ReachInv(es, s);
    CounterCountsCommands(es, s, side);
    Exclusive(At(s, side), At(s, Other(side)), t, u, id);
  }

  // ----- without any bound on the number of commands -----

  /**
   In every run, even after the counter has wrapped: a response channel receives at
   most one send, so the reader's send never blocks; every registered ID is the ID of
   an unfinished call; and when every call has returned the pending map is empty, also
   when a close raced with a registration.
   */
  lemma ChannelsAndEntries(es: seq<(Side, Event)>, s: System, side: Side)
    requires Run(START, es, s)
    ensures
      var me := At(s, side);
      && (forall c :: 0 <= c < |me.jobs| && me.jobs[c].Call? ==> |me.jobs[c].inbox| <= 1)
      && (me.reader.Delivering? ==> Enabled(me, At(s, Other(side)).out.bytes, Deliver))
      && (forall id :: id in me.pending ==>
            exists c :: 0 <= c < |me.jobs| && me.jobs[c].Call? && IdOf(me.jobs[c].tick) == id
                        && !me.jobs[c].pc.Checked? && !me.jobs[c].pc.Gone?)
      && ((forall c :: 0 <= c < |me.jobs| && me.jobs[c].Call? ==> me.jobs[c].pc.Gone?) ==> me.pending == map[])
  {
    ReachInv(es, s);
    var me, peer := At(s, side), At(s, Other(side));
    forall c | 0 <= c < |me.jobs| && me.jobs[c].Call? ensures |me.jobs[c].inbox| <= 1 {
      assert CallOk(me.jobs[c], peer.out.log, me.read);
    }
    forall id | id in me.pending
      ensures exists c :: 0 <= c < |me.jobs| && me.jobs[c].Call? && IdOf(me.jobs[c].tick) == id
                          && !me.jobs[c].pc.Checked? && !me.jobs[c].pc.Gone?
    {
      assert EntryOk(me, id, me.pending[id]);
    }
  }

  /**
   FIFO framing, for any interleaving of short writes and reads: what the reader has
   taken is exactly the bytes of the first `read` whole frames, in the order they were
   written, and the next thing it can find is the next frame or nothing, never a bad length.
   */
  lemma FramesArriveInOrder(es: seq<(Side, Event)>, s: System, side: Side)
    requires Run(START, es, s)
    ensures
      var me, peer := At(s, side), At(s, Other(side)).out;
      && me.read <= |peer.log| && me.consumed <= |peer.bytes|
      && peer.bytes[..me.consumed] == Flatten(L.Frames(peer.log[..me.read]))
      && Incoming(me, peer.bytes) == if me.read < |peer.log| then Whole(peer.log[me.read].frame) else Incomplete
  {
    ReachInv(es, s);
    var me, peer := At(s, side), At(s, Other(side)).out;
    ReadsTheLog(me, peer);
    StreamPrefix(peer.bytes, peer.log, L.Tail(peer), me.read);
  }

  lemma StreamPrefix(bytes: seq<byte>, log: seq<L.Packet>, tail: seq<byte>, n: nat)
    requires bytes == Flatten(L.Frames(log)) + tail && n <= |log|
    ensures
      var front := Flatten(L.Frames(log[..n]));
      |front| <= |bytes| && bytes[..|front|] == front
  {
    FlattenPrefix(log, n);
  }

  /** The guards on entering writeFrame never hold anything back: a job enters once, with a sized frame. */
  lemma EnteringNeverBlocks(es: seq<(Side, Event)>, s: System, side: Side, w: nat, frame: seq<byte>)
    requires Run(START, es, s) && FrameSized(frame)
    requires var me := At(s, side); w >= |me.jobs| || !HasFrame(me.jobs[w])
    ensures CanEnter(At(s, side), w, frame)
  {
    ReachInv(es, s);
  }

  lemma WritersDiffer(l: L.Line, i: nat, j: nat)
    requires L.LogOk(l) && i < |l.log| && j < |l.log| && l.log[i].writer == l.log[j].writer
    ensures i == j
  {
  }

  /** A command is executed at most once: two handlers never run the same frame, and a call has one frame. */
  lemma ExecutedOnce(es: seq<(Side, Event)>, s: System, side: Side, h: nat, k: nat)
    requires Run(START, es, s)
    requires
      var me, peer := At(s, side), At(s, Other(side));
      && IsHandler(peer, h) && IsHandler(peer, k)
      && peer.jobs[h].src < |me.out.log| && peer.jobs[k].src < |me.out.log|
      && me.out.log[peer.jobs[h].src].writer == me.out.log[peer.jobs[k].src].writer
    ensures h == k
  {
    ReachInv(es, s);
    var me, peer := At(s, side), At(s, Other(side));
    WritersDiffer(me.out, peer.jobs[h].src, peer.jobs[k].src);
    OneHandler(peer.jobs, me.out.log, peer.read, h, k);
  }
}
