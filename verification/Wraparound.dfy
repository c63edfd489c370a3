/**
 Why the correlation results need the counter not to wrap: with 2^32 commands on one
 side they fail, so the bound in Correlation cannot be raised.

 The runs are built from small pieces.  Long stretches are repetitions of one aborted
 call, which costs one request ID and leaves nothing behind.
 */
module Wraparound {
  import opened Wire
  import opened Duplex
  import opened DuplexInv
  import opened Correlation
  import opened WellFormed
  import L = Line
  import R = Runs

  // ----- runs of one endpoint while its peer stands still -----

  /** One step, as a partial function, so that runs compose without looking into it. */
  function LocalNext(bytes: seq<byte>): (Endpoint, Event) -> R.Option<Endpoint> {
    (me, e) => if Enabled(me, bytes, e) then R.Some(Step(me, bytes, e)) else R.None
  }

  ghost predicate LocalRun(me: Endpoint, bytes: seq<byte>, es: seq<Event>, me': Endpoint) {
    R.Path(LocalNext(bytes), me, es, me')
  }

  predicate IsRegister(e: Event) {
    e.Register?
  }

  function Registered(es: seq<Event>): nat {
    R.Count(IsRegister, es)
  }

  lemma LocalConcat(me: Endpoint, bytes: seq<byte>, es: seq<Event>, me1: Endpoint, fs: seq<Event>, me2: Endpoint)
    requires LocalRun(me, bytes, es, me1) && LocalRun(me1, bytes, fs, me2)
    ensures LocalRun(me, bytes, es + fs, me2)
    ensures Registered(es + fs) == Registered(es) + Registered(fs)
  {
    R.Concat(LocalNext(bytes), me, es, me1, fs, me2);
    R.CountConcat(IsRegister, es, fs);
  }

  /** Extends a run by one step. */
  lemma Then(me: Endpoint, bytes: seq<byte>, es: seq<Event>, me1: Endpoint, e: Event, me2: Endpoint)
    returns (fs: seq<Event>)
    requires LocalRun(me, bytes, es, me1) && Enabled(me1, bytes, e) && Step(me1, bytes, e) == me2
    ensures LocalRun(me, bytes, fs, me2)
    ensures Registered(fs) == Registered(es) + if e.Register? then 1 else 0
  {
    R.Single(LocalNext(bytes), me1, e, me2);
    R.CountSingle(IsRegister, e);
    LocalConcat(me, bytes, es, me1, [e], me2);
    fs := es + [e];
  }

  function Tagged(side: Side, es: seq<Event>): seq<(Side, Event)> {
    if es == [] then [] else [(side, es[0])] + Tagged(side, es[1..])
  }

  function WithSide(s: System, side: Side, me: Endpoint): System {
    if side.Left? then s.(left := me) else s.(right := me)
  }

  function SysNext(s: System, e: (Side, Event)): R.Option<System> {
    if SysEnabled(s, e.0, e.1) then R.Some(SysStep(s, e.0, e.1)) else R.None
  }

  ghost predicate SysRun(s: System, es: seq<(Side, Event)>, s': System) {
    R.Path(SysNext, s, es, s')
  }

  lemma {:induction false} SysRunIsRun(s: System, es: seq<(Side, Event)>, s': System)
    requires SysRun(s, es, s')
    ensures Run(s, es, s')
    decreases |es|
  {
    if es != [] {
      SysRunIsRun(SysStep(s, es[0].0, es[0].1), es[1..], s');
    }
  }

  lemma {:induction false} Lift(s: System, side: Side, es: seq<Event>, me: Endpoint)
    requires LocalRun(At(s, side), At(s, Other(side)).out.bytes, es, me)
    ensures SysRun(s, Tagged(side, es), WithSide(s, side, me))
    ensures Registrations(Tagged(side, es), side) == Registered(es)
    ensures Registrations(Tagged(side, es), Other(side)) == 0
    decreases |es|
  {
    if es != [] {
      var s1 := SysStep(s, side, es[0]);
      Lift(s1, side, es[1..], me);
      assert Tagged(side, es)[1..] == Tagged(side, es[1..]);
    }
  }

  lemma {:induction false} RegistrationsConcat(es: seq<(Side, Event)>, fs: seq<(Side, Event)>, side: Side)
    ensures Registrations(es + fs, side) == Registrations(es, side) + Registrations(fs, side)
  {
    if es == [] {
      assert es + fs == fs;
    } else {
      RegistrationsConcat(es[1..], fs, side);
      assert (es + fs)[1..] == es[1..] + fs;
    }
  }

  lemma SysConcat(s: System, es: seq<(Side, Event)>, s1: System, fs: seq<(Side, Event)>, s2: System, side: Side)
    requires SysRun(s, es, s1) && SysRun(s1, fs, s2)
    ensures SysRun(s, es + fs, s2)
    ensures Registrations(es + fs, side) == Registrations(es, side) + Registrations(fs, side)
  {
    R.Concat(SysNext, s, es, s1, fs, s2);
    RegistrationsConcat(es, fs, side);
  }

  // ----- building blocks -----

  /** The connection is open, nobody holds the lock, nothing is pending. */
  predicate Calm(me: Endpoint) {
    && me.out.phase.Open? && me.out.lock.Free? && me.pending == map[]
    && (forall w :: w in me.out.writers ==> w < |me.jobs|)
  }

  function FreshWriter(frame: seq<byte>): L.Writer {
    L.Writer(frame, true, false, L.Waiting, L.Unset, false)
  }

  lemma NetStep(me: Endpoint, bytes: seq<byte>, es: seq<Event>, me1: Endpoint, le: L.Event)
    returns (fs: seq<Event>, me': Endpoint)
    requires LocalRun(me, bytes, es, me1) && Registered(es) == 0
    requires !le.Enter? && !le.ClearPending? && L.Enabled(me1.out, le)
    ensures LocalRun(me, bytes, fs, me') && Registered(fs) == 0
    ensures me' == me1.(out := L.Step(me1.out, le))
  {
    me' := Step(me1, bytes, Net(le));
    fs := Then(me, bytes, es, me1, Net(le), me');
  }

  /** A command is started and registered under the next ID. */
  lemma Begin(me: Endpoint, bytes: seq<byte>, payload: seq<byte>) returns (es: seq<Event>, me': Endpoint)
    requires Calm(me) && |payload| < 100
    ensures LocalRun(me, bytes, es, me') && Registered(es) == 1
    ensures
      var j := Call(1, payload, me.ticks + 1, Sending, []);
      me' == me.(jobs := me.jobs + [j], ticks := me.ticks + 1, pending := map[IdOf(me.ticks + 1) := |me.jobs|],
                 out := me.out.(writers := me.out.writers[|me.jobs| := FreshWriter(JobFrame(j))]))
  {
    var c := |me.jobs|;
    var e, f := StartCall(1, payload), Register(c, me.ticks + 1);
    var me1 := Step(me, bytes, e);
    assert me1.jobs[c] == Call(1, payload, 0, Checked, []);
    es := Then(me, bytes, [], me, e, me1);
    me' := Step(me1, bytes, f);
    es := Then(me, bytes, es, me1, f, me');
    assert me'.jobs == me.jobs + [Call(1, payload, me.ticks + 1, Sending, [])];
  }

  lemma LoseContext(me: Endpoint, bytes: seq<byte>, c: nat) returns (es: seq<Event>, me': Endpoint)
    requires L.In(me.out, c, L.Waiting) && !me.out.writers[c].ctxDone
    ensures LocalRun(me, bytes, es, me') && Registered(es) == 0
    ensures
      var x := me.out.writers[c].(ctxDone := true, st := L.Returned(false));
      me' == me.(out := me.out.(writers := me.out.writers[c := x]))
  {
    es, me' := NetStep(me, bytes, [], me, L.CtxDone(c));
    es, me' := NetStep(me, bytes, es, me', L.GiveUp(c));
    assert me'.out.writers == me.out.writers[c := me.out.writers[c].(ctxDone := true, st := L.Returned(false))];
  }

  lemma WriteFails(me: Endpoint, bytes: seq<byte>, c: nat) returns (es: seq<Event>, me': Endpoint)
    requires IsCall(me, c) && me.jobs[c].pc.Sending? && Returned(me, c, false)
    ensures LocalRun(me, bytes, es, me') && Registered(es) == 0
    ensures me' == me.(jobs := me.jobs[c := me.jobs[c].(pc := Gone(WriteFailed))],
                       pending := me.pending - {IdOf(me.jobs[c].tick)})
  {
    var me1 := Step(me, bytes, WriteReturns(c));
    es := Then(me, bytes, [], me, WriteReturns(c), me1);
    me' := Step(me1, bytes, Cleanup(c));
    es := Then(me, bytes, es, me1, Cleanup(c), me');
  }

  /** New jobs are calls, and the earlier jobs are there still. */
  predicate OnlyCallsAdded(jobs: seq<Job>, jobs': seq<Job>) {
    |jobs| <= |jobs'| && forall i :: |jobs| <= i < |jobs'| ==> jobs'[i].Call?
  }

  /** What an aborted call leaves: the counter has moved, everything visible to the peer is as before. */
  predicate OnlyIdsSpent(me: Endpoint, me': Endpoint, n: nat) {
    && Calm(me')
    && me'.ticks == me.ticks + n
    && me'.reader == me.reader && me'.consumed == me.consumed && me'.read == me.read
    && me'.out.bytes == me.out.bytes && me'.out.log == me.out.log && me'.out.torn == me.out.torn
    && me.jobs <= me'.jobs && OnlyCallsAdded(me.jobs, me'.jobs)
  }

  lemma Abort(me: Endpoint, bytes: seq<byte>) returns (es: seq<Event>, me': Endpoint)
    requires Calm(me)
    ensures LocalRun(me, bytes, es, me') && Registered(es) == 1 && OnlyIdsSpent(me, me', 1)
  {
    var es1, me1 := Begin(me, bytes, []);
    var es2, me2 := LoseContext(me1, bytes, |me.jobs|);
    LocalConcat(me, bytes, es1, me1, es2, me2);
    var es3, me3 := WriteFails(me2, bytes, |me.jobs|);
    LocalConcat(me, bytes, es1 + es2, me2, es3, me3);
    es, me' := es1 + es2 + es3, me3;
    assert me'.pending == map[];
    assert me'.jobs[..|me.jobs|] == me.jobs;
  }

  /** Any number of aborted calls. */
  lemma {:induction false} Aborts(me: Endpoint, bytes: seq<byte>, n: nat) returns (es: seq<Event>, me': Endpoint)
    requires Calm(me)
    ensures LocalRun(me, bytes, es, me') && Registered(es) == n && OnlyIdsSpent(me, me', n)
    decreases n
  {
    if n == 0 {
      es, me' := [], me;
    } else {
      var es1, me1 := Abort(me, bytes);
      var es2, me2 := Aborts(me1, bytes, n - 1);
      LocalConcat(me, bytes, es1, me1, es2, me2);
      es, me' := es1 + es2, me2;
    }
  }

  // ----- an undisturbed write -----

  predicate MayWrite(l: L.Line, w: nat) {
    l.phase.Open? && l.lock.Free? && w in l.writers && l.writers[w] == FreshWriter(l.writers[w].frame)
  }

  function Written(l: L.Line, w: nat): L.Line
    requires w in l.writers
  {
    var frame := l.writers[w].frame;
    l.(writers := l.writers[w := L.Writer(frame, true, false, L.Returned(true), L.Stopped, true)],
       deadline := L.NoDeadline, bytes := l.bytes + Framed(frame),
       log := l.log + [L.Packet(w, frame)], turns := l.turns + [w])
  }

  lemma GetReady(me: Endpoint, bytes: seq<byte>, w: nat) returns (es: seq<Event>, me': Endpoint)
    requires MayWrite(me.out, w)
    ensures LocalRun(me, bytes, es, me') && Registered(es) == 0
    ensures
      me' == me.(out := me.out.(
        writers := me.out.writers[w := me.out.writers[w].(st := L.Ready)],
        lock := L.Held(w), turns := me.out.turns + [w]))
  {
    es, me' := NetStep(me, bytes, [], me, L.Acquire(w));
    es, me' := NetStep(me, bytes, es, me', L.Proceed(w));
    assert me'.out.writers == me.out.writers[w := me.out.writers[w].(st := L.Ready)];
  }

  lemma FirstHalf(me: Endpoint, bytes: seq<byte>, w: nat) returns (es: seq<Event>, me': Endpoint)
    requires MayWrite(me.out, w)
    ensures LocalRun(me, bytes, es, me') && Registered(es) == 0
    ensures
      me' == me.(out := me.out.(
        writers := me.out.writers[w := me.out.writers[w].(st := L.Writing(0), cb := L.Armed)],
        lock := L.Held(w), deadline := L.Until, turns := me.out.turns + [w]))
  {
    es, me' := GetReady(me, bytes, w);
    es, me' := NetStep(me, bytes, es, me', L.SetDeadline(w));
    es, me' := NetStep(me, bytes, es, me', L.Arm(w));
    assert me'.out.writers == me.out.writers[w := me.out.writers[w].(st := L.Writing(0), cb := L.Armed)];
  }

  function Finishing(x: L.Writer): L.Writer {
    L.Writer(x.frame, true, false, L.Resetting(false), L.Stopped, true)
  }

  lemma SecondHalf(me: Endpoint, bytes: seq<byte>, w: nat) returns (es: seq<Event>, me': Endpoint)
    requires me.out.phase.Open? && me.out.deadline.Until? && w in me.out.writers
    requires me.out.writers[w] == L.Writer(me.out.writers[w].frame, true, false, L.Writing(0), L.Armed, false)
    ensures LocalRun(me, bytes, es, me') && Registered(es) == 0
    ensures
      var frame := me.out.writers[w].frame;
      me' == me.(out := me.out.(
        writers := me.out.writers[w := Finishing(me.out.writers[w])],
        bytes := me.out.bytes + Framed(frame), log := me.out.log + [L.Packet(w, frame)]))
  {
    var frame := me.out.writers[w].frame;
    es, me' := NetStep(me, bytes, [], me, L.Chunk(w, |Framed(frame)|));
    assert Framed(frame)[0..|Framed(frame)|] == Framed(frame);
    es, me' := NetStep(me, bytes, es, me', L.Stop(w));
    assert me'.out.writers == me.out.writers[w := Finishing(me.out.writers[w])];
  }

  lemma LetGo(me: Endpoint, bytes: seq<byte>, w: nat) returns (es: seq<Event>, me': Endpoint)
    requires me.out.phase.Open? && me.out.lock == L.Held(w) && w in me.out.writers
    requires me.out.writers[w] == Finishing(me.out.writers[w])
    ensures LocalRun(me, bytes, es, me') && Registered(es) == 0
    ensures
      me' == me.(out := me.out.(
        writers := me.out.writers[w := me.out.writers[w].(st := L.Returned(true))],
        lock := L.Free, deadline := L.NoDeadline))
  {
    es, me' := NetStep(me, bytes, [], me, L.Reset(w));
    es, me' := NetStep(me, bytes, es, me', L.Release(w));
    assert me'.out.writers == me.out.writers[w := me.out.writers[w].(st := L.Returned(true))];
  }

  lemma WriteOut(me: Endpoint, bytes: seq<byte>, w: nat) returns (es: seq<Event>, me': Endpoint)
    requires MayWrite(me.out, w)
    ensures LocalRun(me, bytes, es, me') && Registered(es) == 0
    ensures me' == me.(out := Written(me.out, w))
  {
    var es1, me1 := FirstHalf(me, bytes, w);
    var es2, me2 := SecondHalf(me1, bytes, w);
    LocalConcat(me, bytes, es1, me1, es2, me2);
    var es3, me3 := LetGo(me2, bytes, w);
    LocalConcat(me, bytes, es1 + es2, me2, es3, me3);
    es, me' := es1 + es2 + es3, me3;
    assert me'.out.writers == Written(me.out, w).writers;
  }

  // ----- an answer that belongs to somebody else -----

  lemma TakeFrame(me: Endpoint, bytes: seq<byte>, r: Response) returns (es: seq<Event>, me': Endpoint)
    requires me.reader.Reading? && me.out.phase.Open?
    requires FrameSized(ResponseFrame(r)) && Incoming(me, bytes) == Whole(ResponseFrame(r))
    ensures LocalRun(me, bytes, es, me') && Registered(es) == 0
    ensures me' == me.(reader := Matching(me.read, r), read := me.read + 1,
                       consumed := me.consumed + |Framed(ResponseFrame(r))|)
  {
    ResponseArrives(r);
    me' := Step(me, bytes, ReadFrame);
    es := Then(me, bytes, [], me, ReadFrame, me');
  }

  /** The reader delivers a response to the call its ID is registered for. */
  lemma HandOver(me: Endpoint, bytes: seq<byte>, c: nat, src: nat, r: Response) returns (es: seq<Event>, me': Endpoint)
    requires me.reader == Matching(src, r)
    requires IsCall(me, c) && me.jobs[c].inbox == [] && me.pending == map[r.reqId := c]
    ensures LocalRun(me, bytes, es, me') && Registered(es) == 0
    ensures me' == me.(jobs := me.jobs[c := me.jobs[c].(inbox := [Receipt(src, r)])],
                       pending := map[], reader := Reading)
  {
    var me2 := Step(me, bytes, Match);
    es := Then(me, bytes, [], me, Match, me2);
    assert me2.pending == map[];
    assert [] + [Receipt(src, r)] == [Receipt(src, r)];
    me' := Step(me2, bytes, Deliver);
    es := Then(me, bytes, es, me2, Deliver, me');
  }

  lemma ReturnAnswer(me: Endpoint, bytes: seq<byte>, c: nat, r: Receipt) returns (es: seq<Event>, me': Endpoint)
    requires IsCall(me, c) && me.jobs[c].pc.Sending? && me.jobs[c].inbox == [r] && Returned(me, c, true)
    ensures LocalRun(me, bytes, es, me') && Registered(es) == 0
    ensures me'.jobs == me.jobs[c := me.jobs[c].(pc := Gone(Answer(r.response)))]
    ensures me'.out == me.out && me'.pending == me.pending - {IdOf(me.jobs[c].tick)}
  {
    var me1 := Step(me, bytes, WriteReturns(c));
    es := Then(me, bytes, [], me, WriteReturns(c), me1);
    var me2 := Step(me1, bytes, TakeAnswer(c));
    es := Then(me, bytes, es, me1, TakeAnswer(c), me2);
    me' := Step(me2, bytes, Cleanup(c));
    es := Then(me, bytes, es, me2, Cleanup(c), me');
  }

  /** If the next response carries the next ID, a new call takes it, whoever it was meant for. */
  lemma NewCallTakesIt(me: Endpoint, bytes: seq<byte>, payload: seq<byte>, r: Response)
    returns (es: seq<Event>, me': Endpoint)
    requires Calm(me) && me.reader.Reading? && |payload| < 100
    requires FrameSized(ResponseFrame(r)) && Incoming(me, bytes) == Whole(ResponseFrame(r))
    requires r.reqId == IdOf(me.ticks + 1)
    ensures LocalRun(me, bytes, es, me') && Registered(es) == 1
    ensures me'.jobs == me.jobs + [Call(1, payload, me.ticks + 1, Gone(Answer(r)), [Receipt(me.read, r)])]
    ensures Calm(me')
  {
    var c := |me.jobs|;
    var es1, me1 := Begin(me, bytes, payload);
    var es2, me2 := TakeFrame(me1, bytes, r);
    LocalConcat(me, bytes, es1, me1, es2, me2);
    var es3, me3 := HandOver(me2, bytes, c, me.read, r);
    LocalConcat(me, bytes, es1 + es2, me2, es3, me3);
    var es4, me4 := WriteOut(me3, bytes, c);
    LocalConcat(me, bytes, es1 + es2 + es3, me3, es4, me4);
    var es5, me5 := ReturnAnswer(me4, bytes, c, Receipt(me.read, r));
    LocalConcat(me, bytes, es1 + es2 + es3 + es4, me4, es5, me5);
    es, me' := es1 + es2 + es3 + es4 + es5, me5;
    assert me'.pending == map[];
  }

  /** The next n calls are aborted, the one after them takes the response, and `more` calls are aborted after that. */
  lemma TakenByNth(me: Endpoint, bytes: seq<byte>, payload: seq<byte>, r: Response, n: nat, more: nat)
    returns (es: seq<Event>, me': Endpoint, c: nat)
    requires Calm(me) && me.reader.Reading? && |payload| < 100
    requires FrameSized(ResponseFrame(r)) && Incoming(me, bytes) == Whole(ResponseFrame(r))
    requires r.reqId == IdOf(me.ticks + n + 1)
    ensures LocalRun(me, bytes, es, me') && Registered(es) == n + 1 + more
    ensures IsCall(me', c) && me'.jobs[c].payload == payload && me'.jobs[c].pc == Gone(Answer(r))
    ensures me.jobs <= me'.jobs && OnlyCallsAdded(me.jobs, me'.jobs)
  {
    var es1, me1 := Aborts(me, bytes, n);
    var es2, me2 := NewCallTakesIt(me1, bytes, payload, r);
    LocalConcat(me, bytes, es1, me1, es2, me2);
    var es3, me3 := Aborts(me2, bytes, more);
    LocalConcat(me, bytes, es1 + es2, me2, es3, me3);
    es, me', c := es1 + es2 + es3, me3, |me1.jobs|;
    assert me3.jobs[c] == me2.jobs[c];
  }

  /** From any state in which a response waits and the counter is n aborted calls away from its ID. */
  lemma StaleResponse(s: System, payload: seq<byte>, r: Response, n: nat, more: nat)
    returns (es: seq<(Side, Event)>, s': System, c: nat)
    requires Calm(s.left) && s.left.reader.Reading? && |payload| < 100
    requires FrameSized(ResponseFrame(r)) && Incoming(s.left, s.right.out.bytes) == Whole(ResponseFrame(r))
    requires r.reqId == IdOf(s.left.ticks + n + 1)
    ensures SysRun(s, es, s') && Registrations(es, Left) == n + 1 + more
    ensures s'.right == s.right && s.left.jobs <= s'.left.jobs && OnlyCallsAdded(s.left.jobs, s'.left.jobs)
    ensures IsCall(s'.left, c) && s'.left.jobs[c].payload == payload && s'.left.jobs[c].pc == Gone(Answer(r))
  {
    var fs, me;
    fs, me, c := TakenByNth(s.left, s.right.out.bytes, payload, r, n, more);
    Lift(s, Left, fs, me);
    es, s' := Tagged(Left, fs), WithSide(s, Left, me);
  }

  lemma ThenStale(es: seq<(Side, Event)>, s: System, payload: seq<byte>, r: Response, n: nat, more: nat)
    returns (fs: seq<(Side, Event)>, s': System, c: nat)
    requires SysRun(START, es, s)
    requires Calm(s.left) && s.left.reader.Reading? && |payload| < 100
    requires FrameSized(ResponseFrame(r)) && Incoming(s.left, s.right.out.bytes) == Whole(ResponseFrame(r))
    requires r.reqId == IdOf(s.left.ticks + n + 1)
    ensures SysRun(START, fs, s') && Registrations(fs, Left) == Registrations(es, Left) + n + 1 + more
    ensures s'.right == s.right && s.left.jobs <= s'.left.jobs && OnlyCallsAdded(s.left.jobs, s'.left.jobs)
    ensures IsCall(s'.left, c) && s'.left.jobs[c].payload == payload && s'.left.jobs[c].pc == Gone(Answer(r))
  {
    var gs;
    gs, s', c := StaleResponse(s, payload, r, n, more);
    SysConcat(START, es, s, gs, s', Left);
    fs := es + gs;
  }

  // ----- 2^32 commands or more: an error reply with ID 0 answers a command -----

  const JUNK: seq<byte> := [0]

  lemma JunkIsMalformed()
    ensures FrameSized(JUNK) && Harmless(JUNK) && Classify(JUNK) == Malformed(ErrorText(MagicNumberInvalid))
  {
  }

  /** The left side sends a malformed frame. */
  lemma SendJunk() returns (es: seq<Event>, me: Endpoint)
    ensures LocalRun(FRESH, [], es, me) && Registered(es) == 0
    ensures Calm(me) && me.reader.Reading? && me.ticks == 0 && me.consumed == 0
    ensures me.out.bytes == Framed(JUNK)
  {
    JunkIsMalformed();
    var me1 := Step(FRESH, [], Inject(JUNK));
    es := Then(FRESH, [], [], FRESH, Inject(JUNK), me1);
    var es2, me2 := WriteOut(me1, [], 0);
    LocalConcat(FRESH, [], es, me1, es2, me2);
    es, me := es + es2, me2;
    assert [] + Framed(JUNK) == Framed(JUNK);
  }

  /** The right side answers it with an error reply. */
  lemma AnswerJunk() returns (es: seq<Event>, me: Endpoint)
    ensures LocalRun(FRESH, Framed(JUNK), es, me) && Registered(es) == 0
    ensures me.out.bytes == Framed(ResponseFrame(ErrorReply(ErrorText(MagicNumberInvalid))))
    ensures forall h :: 0 <= h < |me.jobs| ==> !me.jobs[h].Handler?
  {
    var bytes := Framed(JUNK);
    JunkIsMalformed();
    OneFrame(FRESH, JUNK);
    var me1 := Step(FRESH, bytes, ReadFrame);
    es := Then(FRESH, bytes, [], FRESH, ReadFrame, me1);
    var es2, me2 := WriteOut(me1, bytes, 0);
    LocalConcat(FRESH, bytes, es, me1, es2, me2);
    es, me := es + es2, me2;
    var f := Framed(ResponseFrame(ErrorReply(ErrorText(MagicNumberInvalid))));
    assert [] + f == f;
  }

  /** Both stages together: an error reply waits for the left side, which is otherwise idle. */
  lemma JunkAnswered() returns (es: seq<(Side, Event)>, s: System)
    ensures SysRun(START, es, s) && Registrations(es, Left) == 0
    ensures Calm(s.left) && s.left.reader.Reading? && s.left.ticks == 0
    ensures Incoming(s.left, s.right.out.bytes) == Whole(ResponseFrame(ErrorReply(ErrorText(MagicNumberInvalid))))
    ensures forall h :: 0 <= h < |s.right.jobs| ==> !s.right.jobs[h].Handler?
  {
    var es1, left := SendJunk();
    var es2, right := AnswerJunk();
    es, s := Stages(es1, left, es2, right);
    OneFrame(s.left, ResponseFrame(ErrorReply(ErrorText(MagicNumberInvalid))));
  }

  lemma OneFrame(me: Endpoint, frame: seq<byte>)
    requires me.consumed == 0 && FrameSized(frame)
    ensures Incoming(me, Framed(frame)) == Whole(frame)
  {
    ArrivedFramed(frame, []);
    assert Framed(frame)[0..] == Framed(frame) + [];
  }

  /** First the left side alone, then the right side alone. */
  lemma Stages(es1: seq<Event>, left: Endpoint, es2: seq<Event>, right: Endpoint)
    returns (es: seq<(Side, Event)>, s: System)
    requires LocalRun(FRESH, [], es1, left) && LocalRun(FRESH, left.out.bytes, es2, right)
    ensures SysRun(START, es, s) && s == System(left, right)
    ensures Registrations(es, Left) == Registered(es1)
  {
    Lift(START, Left, es1, left);
    var s1 := WithSide(START, Left, left);
    Lift(s1, Right, es2, right);
    s := WithSide(s1, Right, right);
    SysConcat(START, Tagged(Left, es1), s1, Tagged(Right, es2), s, Left);
    es := Tagged(Left, es1) + Tagged(Right, es2);
  }

  /** With any number of commands from 2^32 on, an error reply is returned for a command nobody executed. */
  lemma WrongAnswer(n: nat) returns (es: seq<(Side, Event)>, s: System, c: nat, r: Response)
    requires n >= TWO32
    ensures Run(START, es, s) && Registrations(es, Left) == n
    ensures IsCall(s.left, c) && s.left.jobs[c].pc == Gone(Answer(r))
    ensures forall h :: !ExecutedFor(s.left, s.right, c, h, r)
  {
    r := ErrorReply(ErrorText(MagicNumberInvalid));
    var es1, s1 := JunkAnswered();
    es, s, c := ThenStale(es1, s1, [], r, TWO32 - 1, n - TWO32);
    SysRunIsRun(START, es, s);
  }

  predicate AnsweredWith(me: Endpoint, c: nat, r: Response) {
    IsCall(me, c) && me.jobs[c].pc == Gone(Answer(r))
  }

  ghost predicate Genuine(me: Endpoint, peer: Endpoint, c: nat, r: Response) {
    exists h: nat :: ExecutedFor(me, peer, c, h, r)
  }

  /** Every answer the left side has been given in this state was executed by the right side for that very command. */
  ghost predicate AllGenuine(s: System) {
    forall c: nat, r :: AnsweredWith(s.left, c, r) ==> Genuine(s.left, s.right, c, r)
  }

  lemma GenuineBelow(es: seq<(Side, Event)>, s: System)
    requires Run(START, es, s) && Registrations(es, Left) < TWO32
    ensures AllGenuine(s)
  {
    forall c: nat, r | AnsweredWith(s.left, c, r) ensures Genuine(s.left, s.right, c, r) {
      var h, i, k := AnswersAreGenuine(es, s, Left, c, r);
      assert ExecutedFor(s.left, s.right, c, h, r);
    }
  }

  lemma NotGenuineFrom(n: nat) returns (es: seq<(Side, Event)>, s: System)
    requires n >= TWO32
    ensures Run(START, es, s) && Registrations(es, Left) == n && !AllGenuine(s)
  {
    var c, r;
    es, s, c, r := WrongAnswer(n);
    assert AnsweredWith(s.left, c, r) && !Genuine(s.left, s.right, c, r);
  }

  /** Some run with n commands on the left side ends in this state. */
  ghost predicate Ends(n: nat, es: seq<(Side, Event)>, s: System) {
    Run(START, es, s) && Registrations(es, Left) == n
  }

  /** All answers are genuine in all runs with n commands on a side exactly if n is below 2^32. */
  lemma BoundIsTight(n: nat)
    ensures (forall es, s :: Ends(n, es, s) ==> AllGenuine(s)) <==> n < TWO32
  {
    if n < TWO32 {
      forall es, s | Ends(n, es, s) ensures AllGenuine(s) {
        GenuineBelow(es, s);
      }
    } else {
      var es, s := NotGenuineFrom(n);
      assert Ends(n, es, s);
    }
  }

  // ----- more than 2^32 commands, all frames well formed: a late response answers another command -----

  const FIRST := Call(1, [1], 1, Sending, [])

  /** An endpoint that has started its first command. */
  function Started(): Endpoint {
    FRESH.(jobs := [FIRST], ticks := 1, pending := map[1 := 0],
           out := L.EMPTY_LINE.(writers := map[0 := FreshWriter(JobFrame(FIRST))]))
  }

  lemma SendFirst() returns (es: seq<Event>)
    ensures LocalRun(FRESH, [], es, Started()) && Registered(es) == 1
  {
    var me;
    es, me := Begin(FRESH, [], [1]);
    assert [] + [FIRST] == [FIRST];
  }

  /** The left side sends a command and waits. */
  lemma SendAndWait() returns (es: seq<Event>)
    ensures LocalRun(FRESH, [], es, Started().(out := Written(Started().out, 0))) && Registered(es) == 1
  {
    var es1 := SendFirst();
    var es2, me := WriteOut(Started(), [], 0);
    LocalConcat(FRESH, [], es1, Started(), es2, me);
    es := es1 + es2;
  }

  lemma FirstBytes()
    ensures Written(Started().out, 0).bytes == Framed(CommandFrame(Command(1, 1, [1])))
  {
    var f := Framed(CommandFrame(Command(1, 1, [1])));
    assert [] + f == f;
  }

  /** The left side sends a command and times out. */
  lemma SendAndTimeOut() returns (es: seq<Event>, me: Endpoint)
    ensures LocalRun(FRESH, [], es, me) && Registered(es) == 1
    ensures Calm(me) && me.reader.Reading? && me.ticks == 1 && me.consumed == 0
    ensures me.jobs == [Call(1, [1], 1, Gone(TimedOut), [])]
    ensures me.out.bytes == Framed(CommandFrame(Command(1, 1, [1])))
  {
    var sent := Started().(out := Written(Started().out, 0));
    var es1 := SendAndWait();
    var es2;
    es2, me := GiveUpWaiting(sent, [], 0);
    LocalConcat(FRESH, [], es1, sent, es2, me);
    es := es1 + es2;
    FirstBytes();
  }

  lemma GiveUpWaiting(me: Endpoint, bytes: seq<byte>, c: nat) returns (es: seq<Event>, me': Endpoint)
    requires IsCall(me, c) && me.jobs[c].pc.Sending? && Returned(me, c, true) && !me.out.writers[c].ctxDone
    ensures LocalRun(me, bytes, es, me') && Registered(es) == 0
    ensures
      me' == me.(jobs := me.jobs[c := me.jobs[c].(pc := Gone(TimedOut))],
                 pending := me.pending - {IdOf(me.jobs[c].tick)},
                 out := me.out.(writers := me.out.writers[c := me.out.writers[c].(ctxDone := true)]))
  {
    var me1 := Step(me, bytes, WriteReturns(c));
    es := Then(me, bytes, [], me, WriteReturns(c), me1);
    var me2;
    es, me2 := NetStep(me, bytes, es, me1, L.CtxDone(c));
    var me3 := Step(me2, bytes, TimeOut(c));
    es := Then(me, bytes, es, me2, TimeOut(c), me3);
    me' := Step(me3, bytes, Cleanup(c));
    es := Then(me, bytes, es, me3, Cleanup(c), me');
  }

  /** The right side executes the command and sends its response. */
  lemma ExecuteLate() returns (es: seq<Event>, me: Endpoint)
    ensures LocalRun(FRESH, Framed(CommandFrame(Command(1, 1, [1]))), es, me) && Registered(es) == 0
    ensures me.out.bytes == Framed(ResponseFrame(Response(1, 200, [7])))
    ensures |me.jobs| == 1 && me.jobs[0].Handler?
    ensures me.jobs[0].hpc == Answering(Command(1, 1, [1]), Response(1, 200, [7]))
  {
    var cmd := Command(1, 1, [1]);
    var bytes := Framed(CommandFrame(cmd));
    CommandArrives(cmd);
    var me1;
    es, me1 := TakeCommand(bytes, cmd);
    var es2, me2 := RunHandler(me1, bytes, cmd);
    LocalConcat(FRESH, bytes, es, me1, es2, me2);
    var es3, me3 := WriteOut(me2, bytes, 0);
    LocalConcat(FRESH, bytes, es + es2, me2, es3, me3);
    es, me := es + es2 + es3, me3;
    var f := Framed(ResponseFrame(Response(1, 200, [7])));
    assert [] + f == f;
  }

  lemma TakeCommand(bytes: seq<byte>, cmd: Command) returns (es: seq<Event>, me': Endpoint)
    requires FrameSized(CommandFrame(cmd)) && bytes == Framed(CommandFrame(cmd))
    ensures LocalRun(FRESH, bytes, es, me') && Registered(es) == 0
    ensures me' == FRESH.(jobs := [Handler(0, EncodeCommand(cmd), Decoding)], consumed := |bytes|, read := 1)
  {
    CommandArrives(cmd);
    OneFrame(FRESH, CommandFrame(cmd));
    me' := Step(FRESH, bytes, ReadFrame);
    es := Then(FRESH, bytes, [], FRESH, ReadFrame, me');
    assert [] + [Handler(0, EncodeCommand(cmd), Decoding)] == [Handler(0, EncodeCommand(cmd), Decoding)];
  }

  lemma RunHandler(me: Endpoint, bytes: seq<byte>, cmd: Command) returns (es: seq<Event>, me': Endpoint)
    requires me.jobs == [Handler(0, EncodeCommand(cmd), Decoding)] && me.out == L.EMPTY_LINE
    requires DecodeCommand(EncodeCommand(cmd)) == Ok(cmd)
    ensures LocalRun(me, bytes, es, me') && Registered(es) == 0
    ensures
      var r := Response(cmd.reqId, 200, [7]);
      me' == me.(jobs := [Handler(0, EncodeCommand(cmd), Answering(cmd, r))],
                 out := me.out.(writers := map[0 := FreshWriter(ResponseFrame(r))]))
  {
    var me1 := me.(jobs := [Handler(0, EncodeCommand(cmd), Executing(cmd))]);
    assert Step(me, bytes, Decode(0)) == me1;
    es := Then(me, bytes, [], me, Decode(0), me1);
    me' := RunExecute(me1, bytes, cmd);
    es := Then(me, bytes, es, me1, Execute(0, cmd, Response(9, 200, [7])), me');
  }

  lemma RunExecute(me: Endpoint, bytes: seq<byte>, cmd: Command) returns (me': Endpoint)
    requires me.jobs == [Handler(0, EncodeCommand(cmd), Executing(cmd))] && me.out == L.EMPTY_LINE
    ensures Enabled(me, bytes, Execute(0, cmd, Response(9, 200, [7])))
    ensures me' == Step(me, bytes, Execute(0, cmd, Response(9, 200, [7])))
    ensures
      var r := Response(cmd.reqId, 200, [7]);
      me' == me.(jobs := [Handler(0, EncodeCommand(cmd), Answering(cmd, r))],
                 out := me.out.(writers := map[0 := FreshWriter(ResponseFrame(r))]))
  {
    var r := Response(cmd.reqId, 200, [7]);
    assert Duplex.Executed(me.jobs[0], Response(9, 200, [7])) == Handler(0, EncodeCommand(cmd), Answering(cmd, r));
    me' := Step(me, bytes, Execute(0, cmd, Response(9, 200, [7])));
  }

  /** The right side has run one command and answered it with r. */
  predicate RanOnce(me: Endpoint, cmd: Command, r: Response) {
    |me.jobs| == 1 && me.jobs[0].Handler? && me.jobs[0].hpc == Answering(cmd, r)
  }

  /** A response to the first command waits for the left side, which has given up on it. */
  predicate LateWaits(s: System, cmd: Command, r: Response) {
    && Calm(s.left) && s.left.reader.Reading? && s.left.ticks == 1
    && |s.left.jobs| == 1 && s.left.jobs[0].Call?
    && r.reqId == 1 && FrameSized(ResponseFrame(r))
    && Incoming(s.left, s.right.out.bytes) == Whole(ResponseFrame(r))
    && RanOnce(s.right, cmd, r)
  }

  /** Both stages together. */
  lemma LateAnswered() returns (es: seq<(Side, Event)>, s: System)
    ensures SysRun(START, es, s) && Registrations(es, Left) == 1
    ensures LateWaits(s, Command(1, 1, [1]), Response(1, 200, [7]))
  {
    var es1, left := SendAndTimeOut();
    var es2, right := ExecuteLate();
    es, s := Stages(es1, left, es2, right);
    OneFrame(s.left, ResponseFrame(Response(1, 200, [7])));
  }

  lemma OnlyCalls(jobs: seq<Job>, jobs': seq<Job>)
    requires |jobs| == 1 && jobs[0].Call? && jobs <= jobs' && OnlyCallsAdded(jobs, jobs')
    ensures !SomeForeign(jobs')
  {
  }

  lemma OneHandlerOnly(me: Endpoint, cmd: Command, r: Response)
    requires RanOnce(me, cmd, r)
    ensures !SomeForeign(me.jobs)
  {
  }

  lemma NobodyInjected(es: seq<(Side, Event)>, s: System)
    requires SysRun(START, es, s) && !SomeForeign(s.left.jobs) && !SomeForeign(s.right.jobs)
    ensures NoInjections(es)
  {
    SysRunIsRun(START, es, s);
    InjectionsLeaveJobs(START, es, s);
  }

  lemma FirstIdAgain()
    ensures IdOf(TWO32 + 1) == 1
  {
  }

  /** The counter is 2^32 - 1 aborted calls away from the ID of the response. */
  lemma LateTaken(es: seq<(Side, Event)>, s: System, cmd: Command, r: Response, n: nat)
    returns (fs: seq<(Side, Event)>, s': System, c: nat)
    requires n > TWO32 && SysRun(START, es, s) && Registrations(es, Left) == 1 && LateWaits(s, cmd, r)
    ensures SysRun(START, fs, s') && Registrations(fs, Left) == n && NoInjections(fs)
    ensures IsCall(s'.left, c) && s'.left.jobs[c].payload == [2] && s'.left.jobs[c].pc == Gone(Answer(r))
    ensures RanOnce(s'.right, cmd, r)
  {
    FirstIdAgain();
    fs, s', c := ThenStale(es, s, [2], r, TWO32 - 1, n - TWO32 - 1);
    OnlyCalls(s.left.jobs, s'.left.jobs);
    OneHandlerOnly(s'.right, cmd, r);
    NobodyInjected(fs, s');
  }

  /**
   With any number of commands above 2^32 it fails without any malformed frame: a response
   that comes late, for a command that timed out, is returned to a different command.
   */
  lemma LateResponseAnswersAnother(n: nat) returns (es: seq<(Side, Event)>, s: System, c: nat, r: Response)
    requires n > TWO32
    ensures Run(START, es, s) && Registrations(es, Left) == n && NoInjections(es)
    ensures IsCall(s.left, c) && s.left.jobs[c].pc == Gone(Answer(r))
    ensures |s.right.jobs| == 1 && s.right.jobs[0].Handler? && s.right.jobs[0].hpc.Answering?
    ensures s.right.jobs[0].hpc.response == r && s.right.jobs[0].hpc.cmd.payload != s.left.jobs[c].payload
  {
    var fs, s1 := LateAnswered();
    r := Response(1, 200, [7]);
    es, s, c := LateTaken(fs, s1, Command(1, 1, [1]), r, n);
    SysRunIsRun(START, es, s);
  }

  lemma GenuineWhenClean(es: seq<(Side, Event)>, s: System)
    requires Run(START, es, s) && NoInjections(es) && Registrations(es, Left) <= TWO32
    ensures AllGenuine(s)
  {
    forall c: nat, r | AnsweredWith(s.left, c, r) ensures Genuine(s.left, s.right, c, r) {
      var h, i, k := CleanAnswersAreGenuine(es, s, Left, c, r);
      assert ExecutedFor(s.left, s.right, c, h, r);
    }
  }

  lemma LateIsNotGenuine(n: nat) returns (es: seq<(Side, Event)>, s: System)
    requires n > TWO32
    ensures Ends(n, es, s) && NoInjections(es) && !AllGenuine(s)
  {
    var c, r;
    es, s, c, r := LateResponseAnswersAnother(n);
    assert AnsweredWith(s.left, c, r);
    assert !Genuine(s.left, s.right, c, r);
  }

  /**
   Without malformed frames the bound is one higher: all answers are genuine in all runs
   with n commands and no injected frame exactly if n is at most 2^32.
   */
  lemma CleanBoundIsTight(n: nat)
    ensures (forall es, s :: Ends(n, es, s) && NoInjections(es) ==> AllGenuine(s)) <==> n <= TWO32
  {
    if n <= TWO32 {
      forall es, s | Ends(n, es, s) && NoInjections(es) ensures AllGenuine(s) {
        GenuineWhenClean(es, s);
      }
    } else {
      var es, s := LateIsNotGenuine(n);
      assert Ends(n, es, s);
    }
  }

  // ----- one command, answered: the hypotheses of Correlation can be met -----

  /** The left side takes the response to its command. */
  lemma TakeResponse(me: Endpoint, bytes: seq<byte>, r: Response) returns (es: seq<Event>, me': Endpoint)
    requires me.reader.Reading? && me.out.phase.Open? && me.pending == map[r.reqId := 0]
    requires FrameSized(ResponseFrame(r)) && Incoming(me, bytes) == Whole(ResponseFrame(r))
    requires IsCall(me, 0) && me.jobs[0].pc.Sending? && me.jobs[0].inbox == [] && Returned(me, 0, true)
    ensures LocalRun(me, bytes, es, me') && Registered(es) == 0
    ensures IsCall(me', 0) && me'.jobs[0].pc == Gone(Answer(r))
  {
    var es1, me1 := TakeFrame(me, bytes, r);
    var es2, me2 := HandOver(me1, bytes, 0, me.read, r);
    LocalConcat(me, bytes, es1, me1, es2, me2);
    var es3, me3 := ReturnAnswer(me2, bytes, 0, Receipt(me.read, r));
    LocalConcat(me, bytes, es1 + es2, me2, es3, me3);
    es, me' := es1 + es2 + es3, me3;
  }

  /** There is a run in which a command is executed and its response returned. */
  lemma AnswersHappen() returns (es: seq<(Side, Event)>, s: System, r: Response)
    ensures Run(START, es, s) && Registrations(es, Left) == 1
    ensures IsCall(s.left, 0) && s.left.jobs[0].pc == Gone(Answer(r))
    ensures ExecutedFor(s.left, s.right, 0, 0, r)
  {
    r := Response(1, 200, [7]);
    var left := Started().(out := Written(Started().out, 0));
    var es1 := SendAndWait();
    FirstBytes();
    var es2, right := ExecuteLate();
    var fs, s1 := Stages(es1, left, es2, right);
    OneFrame(left, ResponseFrame(r));
    ResponseArrives(r);
    var es3, left' := TakeResponse(left, right.out.bytes, r);
    Lift(s1, Left, es3, left');
    s := WithSide(s1, Left, left');
    SysConcat(START, fs, s1, Tagged(Left, es3), s, Left);
    es := fs + Tagged(Left, es3);
    SysRunIsRun(START, es, s);
    var h, i, k := AnswersAreGenuine(es, s, Left, 0, r);
    assert h == 0;
  }
}
