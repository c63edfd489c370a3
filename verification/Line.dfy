/**
 One direction of one connection: `connection.writeFrame`, `connection.close` and
 the socket they write to, as a labelled transition system.

 Any number of writers (senders, handlers, the reader's own error replies) enter
 `writeFrame`.  A step is one action another goroutine can observe: a lock
 operation, a context check, a deadline call, one socket write, one phase of
 `close`.  Contexts, short writes and write errors are chosen by the environment.
 */
module Line {
  import opened Wire

  /** The life of the function registered with context.AfterFunc. */
  datatype Callback =
    | Unset
    | Armed     // registered, context not yet done
    | Fired     // its goroutine runs, the deadline is not yet touched
    | Expired   // it has set the deadline to now
    | Finished  // it has closed `interrupted`
    | Stopped   // stop() returned true

  datatype WriteState =
    | Waiting                // in the select for the write lock
    | Locked                 // lock acquired, contexts not re-checked
    | Ready                  // both contexts were still live
    | Arming                 // write deadline set, callback not registered
    | Writing(done: nat)     // inside WriteFrame, `done` bytes accepted
    | Wrote(failed: bool)    // WriteFrame returned, stop() not called
    | Awaiting(failed: bool) // stop() was false: waiting for the callback
    | Resetting(failed: bool)
    | Closing                // inside close()
    | Releasing(ok: bool)    // the deferred unlock is next
    | Returned(ok: bool)

  datatype Writer = Writer(frame: seq<byte>, timed: bool, ctxDone: bool, st: WriteState, cb: Callback, sent: bool)

  /** A frame the socket has accepted completely, and who wrote it. */
  datatype Packet = Packet(writer: nat, frame: seq<byte>)

  datatype Lock = Free | Held(holder: nat)

  datatype Deadline = NoDeadline | Until | Past

  datatype Torn = Intact | Torn(writer: nat, part: seq<byte>)

  /** Open, then the three statements inside closeOnce. */
  datatype Phase = Open | Cancelled | NetClosed | Closed

  datatype Line = Line(
    writers: map<nat, Writer>,
    lock: Lock,           // the buffered channel of capacity one
    deadline: Deadline,
    broken: bool,         // the network has failed: writes may fail from now on
    phase: Phase,
    bytes: seq<byte>,     // everything the socket ever accepted
    log: seq<Packet>,     // history: frames accepted completely, in order
    torn: Torn,           // history: what a failed write left behind
    turns: seq<nat>)      // history: the writers in the order they took the lock

  const EMPTY_LINE := Line(map[], Free, NoDeadline, false, Open, [], [], Intact, [])

  datatype Event =
    | Enter(w: nat, frame: seq<byte>, timed: bool)
    | CtxDone(w: nat)
    | Acquire(w: nat)
    | GiveUp(w: nat)
    | Refuse(w: nat)
    | Proceed(w: nat)
    | SetDeadline(w: nat)
    | DeadlineFails(w: nat)
    | Arm(w: nat)
    | Fire(w: nat)
    | Expire(w: nat)
    | Notify(w: nat)
    | Chunk(w: nat, n: nat)
    | Fail(w: nat, n: nat)
    | Stop(w: nat)
    | Resume(w: nat)
    | Reset(w: nat)
    | FinishClose(w: nat)
    | Release(w: nat)
    | Cancel
    | CloseNet
    | ClearPending
    | Elapse // the write deadline passes
    | Break  // the network fails

  predicate NetOpen(l: Line) {
    l.phase.Open? || l.phase.Cancelled?
  }

  /** No write can succeed any more: the deadline is past or the socket closed. */
  predicate Doomed(l: Line) {
    l.deadline.Past? || !NetOpen(l)
  }

  predicate In(l: Line, w: nat, st: WriteState) {
    w in l.writers && l.writers[w].st == st
  }

  predicate IsWriting(l: Line, w: nat) {
    w in l.writers && l.writers[w].st.Writing? && l.writers[w].st.done < |Framed(l.writers[w].frame)|
  }

  /** How many bytes of its frame a writer still has to write. */
  function Rest(x: Writer): nat {
    if x.st.Writing? && x.st.done <= |Framed(x.frame)| then |Framed(x.frame)| - x.st.done else 0
  }

  predicate Enabled(l: Line, e: Event) {
    match e
    case Enter(w, frame, _) => w !in l.writers && FrameSized(frame)
    case CtxDone(w) => w in l.writers && !l.writers[w].ctxDone
    // the select may take the lock even when a context is already done
    case Acquire(w) => In(l, w, Waiting) && l.lock.Free?
    case GiveUp(w) => In(l, w, Waiting) && (l.writers[w].ctxDone || !l.phase.Open?)
    case Refuse(w) => In(l, w, Locked) && (l.writers[w].ctxDone || !l.phase.Open?)
    case Proceed(w) => In(l, w, Locked) && !l.writers[w].ctxDone && l.phase.Open?
    case SetDeadline(w) => In(l, w, Ready) && (l.writers[w].timed ==> NetOpen(l))
    case DeadlineFails(w) => In(l, w, Ready) && l.writers[w].timed
    case Arm(w) => In(l, w, Arming)
    case Fire(w) => w in l.writers && l.writers[w].cb == Armed && l.writers[w].ctxDone
    case Expire(w) => w in l.writers && l.writers[w].cb == Fired
    case Notify(w) => w in l.writers && l.writers[w].cb == Expired
    case Chunk(w, n) => IsWriting(l, w) && !Doomed(l) && 1 <= n <= Rest(l.writers[w])
    // an open socket fails only because its deadline has passed or the network has failed
    case Fail(w, n) => IsWriting(l, w) && n <= Rest(l.writers[w]) && (n > 0 ==> NetOpen(l)) && (Doomed(l) || l.broken)
    case Stop(w) => w in l.writers && l.writers[w].st.Wrote?
    case Resume(w) => w in l.writers && l.writers[w].st.Awaiting? && l.writers[w].cb == Finished
    case Reset(w) => w in l.writers && l.writers[w].st.Resetting?
    // close() returns only when closeOnce has run, whoever runs it
    case FinishClose(w) => In(l, w, Closing) && l.phase.Closed?
    case Release(w) => w in l.writers && l.writers[w].st.Releasing? && l.lock == Held(w)
    case Cancel => l.phase.Open?
    case CloseNet => l.phase.Cancelled?
    case ClearPending => l.phase.NetClosed?
    case Elapse => l.deadline.Until?
    case Break => !l.broken
  }

  /** The three statements inside closeOnce, whoever runs them. */
  predicate Closes(e: Event) {
    e.Cancel? || e.CloseNet? || e.ClearPending?
  }

  /** The event is about the connection rather than about one writer. */
  predicate Phasing(e: Event) {
    Closes(e) || e.Elapse? || e.Break?
  }

  /** The writer an event is about, as it is before the event. */
  function Actor(l: Line, e: Event): Writer
    requires Enabled(l, e) && !Phasing(e)
  {
    if e.Enter? then Writer(e.frame, e.timed, false, Waiting, Unset, false) else l.writers[e.w]
  }

  /** What an event does to its writer. */
  function Act(x: Writer, e: Event): Writer {
    match e
    case CtxDone(_) => x.(ctxDone := true)
    case Acquire(_) => x.(st := Locked)
    case GiveUp(_) => x.(st := Returned(false))
    case Refuse(_) => x.(st := Releasing(false))
    case Proceed(_) => x.(st := Ready)
    case SetDeadline(_) => x.(st := Arming)
    case DeadlineFails(_) => x.(st := Closing)
    case Arm(_) => x.(st := Writing(0), cb := Armed)
    case Fire(_) => x.(cb := Fired)
    case Expire(_) => x.(cb := Expired)
    case Notify(_) => x.(cb := Finished)
    case Chunk(_, n) =>
      if n == Rest(x) then x.(st := Wrote(false), sent := true)
      else if x.st.Writing? then x.(st := Writing(x.st.done + n)) else x
    case Fail(_, n) => x.(st := Wrote(true), sent := n == Rest(x))
    case Stop(_) =>
      if x.cb == Armed then x.(st := Resetting(IsFailed(x.st)), cb := Stopped) else x.(st := Awaiting(IsFailed(x.st)))
    case Resume(_) => x.(st := Resetting(IsFailed(x.st)))
    case Reset(_) => x.(st := if IsFailed(x.st) then Closing else Releasing(true))
    case FinishClose(_) => x.(st := Releasing(false))
    case Release(_) => x.(st := if x.st.Releasing? then Returned(x.st.ok) else x.st)
    case _ => x
  }

  /** The `err != nil` that WriteFrame's result carries through the rest of writeFrame. */
  predicate IsFailed(st: WriteState) {
    (st.Wrote? && st.failed) || (st.Awaiting? && st.failed) || (st.Resetting? && st.failed)
  }

  /** The next `n` bytes of a writer's frame. */
  function Slice(x: Writer, n: nat): seq<byte>
    requires x.st.Writing? && n <= Rest(x) && x.st.done < |Framed(x.frame)|
  {
    Framed(x.frame)[x.st.done..x.st.done + n]
  }

  function Step(l: Line, e: Event): Line
    requires Enabled(l, e)
  {
    if e.Cancel? then l.(phase := Cancelled)
    else if e.CloseNet? then l.(phase := NetClosed)
    else if e.ClearPending? then l.(phase := Closed)
    else if e.Elapse? then l.(deadline := Past)
    else if e.Break? then l.(broken := true)
    else
      var x := Actor(l, e);
      var l1 := l.(writers := l.writers[e.w := Act(x, e)]);
      if e.Acquire? then l1.(lock := Held(e.w), turns := l.turns + [e.w])
      else if e.SetDeadline? then l1.(deadline := if x.timed then Until else l.deadline)
      // on a closed socket the call fails and changes nothing
      else if e.Expire? then l1.(deadline := if NetOpen(l) then Past else l.deadline)
      else if e.Reset? then l1.(deadline := if NetOpen(l) then NoDeadline else l.deadline)
      else if e.Chunk? || e.Fail? then
        var whole := e.n == Rest(x);
        var l2 := l1.(bytes := l.bytes + Slice(x, e.n), log := if whole then l.log + [Packet(e.w, x.frame)] else l.log);
        if e.Fail? then l2.(torn := Torn(e.w, if whole then [] else Framed(x.frame)[..x.st.done + e.n])) else l2
      else if e.Release? then l1.(lock := Free)
      else l1
  }

  ghost predicate Run(l: Line, es: seq<Event>, l': Line)
    decreases |es|
  {
    if es == [] then l == l'
    else Enabled(l, es[0]) && Run(Step(l, es[0]), es[1..], l')
  }

  // ----- the invariant -----

  predicate Holds(st: WriteState) {
    !st.Waiting? && !st.Returned?
  }

  predicate Failing(st: WriteState) {
    IsFailed(st) || st.Closing?
  }

  /** The callback can still touch the socket. */
  predicate Live(cb: Callback) {
    cb.Armed? || cb.Fired? || cb.Expired?
  }

  predicate MayOwnDeadline(st: WriteState) {
    st.Arming? || st.Writing? || st.Wrote? || st.Awaiting? || st.Resetting?
  }

  predicate WriterOk(l: Line, w: nat)
    requires w in l.writers
  {
    var x := l.writers[w];
    && FrameSized(x.frame)
    && (Holds(x.st) <==> l.lock == Held(w))
    && (x.st.Writing? ==> x.st.done < |Framed(x.frame)|)
    && (Live(x.cb) ==> x.st.Writing? || x.st.Wrote? || x.st.Awaiting?)
    && (x.cb == Armed ==> !x.st.Awaiting?)
    && (x.st.Writing? || x.st.Wrote? || x.st.Awaiting? ==> x.cb != Unset && x.cb != Stopped)
    && (x.st.Waiting? || x.st.Locked? || x.st.Ready? || x.st.Arming? ==> x.cb == Unset)
    && (x.sent ==>
          x.st.Wrote? || x.st.Awaiting? || x.st.Resetting? || x.st.Closing? || x.st.Releasing? || x.st.Returned?)
    && ((x.st.Wrote? || x.st.Awaiting? || x.st.Resetting?) && !x.st.failed ==> x.sent)
    && ((x.st.Releasing? || x.st.Returned?) && x.st.ok ==> x.sent)
    && ((x.st.Releasing? || x.st.Returned?) && !x.st.ok && x.sent ==> l.phase.Closed?)
  }

  predicate LockOk(l: Line) {
    && (l.lock.Held? ==> l.lock.holder in l.writers)
    && (forall w :: w in l.writers ==> WriterOk(l, w))
  }

  /** A set deadline belongs to the lock holder, or the socket is gone. */
  predicate DeadlineOk(l: Line) {
    l.deadline != NoDeadline && NetOpen(l) ==>
      l.lock.Held? && l.lock.holder in l.writers && MayOwnDeadline(l.writers[l.lock.holder].st)
  }

  /** Once the cancellation callback has set the deadline, no write of its writer succeeds. */
  predicate ExpiredOk(l: Line) {
    l.lock.Held? && l.lock.holder in l.writers && Interrupted(l.writers[l.lock.holder]) ==> Doomed(l)
  }

  predicate Interrupted(x: Writer) {
    (x.cb.Expired? || x.cb.Finished?) && (x.st.Writing? || x.st.Wrote? || x.st.Awaiting?)
  }

  /** A failed write keeps the lock until the socket is closed, and nobody writes after it. */
  predicate TornOk(l: Line) {
    l.torn.Torn? ==>
      && l.torn.writer in l.writers
      && l.torn.part < Framed(l.writers[l.torn.writer].frame)
      && (Failing(l.writers[l.torn.writer].st) || l.phase.Closed?)
      && (l.lock.Held? ==> l.lock.holder in l.writers && !BeforeWrite(l.writers[l.lock.holder].st))
  }

  predicate BeforeWrite(st: WriteState) {
    st.Ready? || st.Arming? || st.Writing?
  }

  predicate LogOk(l: Line) {
    && (forall i :: 0 <= i < |l.log| ==>
          && l.log[i].writer in l.writers
          && l.writers[l.log[i].writer].sent
          && l.writers[l.log[i].writer].frame == l.log[i].frame)
    && (forall i, j :: 0 <= i < j < |l.log| ==> l.log[i].writer != l.log[j].writer)
    && (forall w :: w in l.writers && l.writers[w].sent ==> w in Authors(l.log))
  }

  /**
   The bytes after the last whole frame: a prefix of what the lock holder writes, or the
   remains of a failed write.
   */
  function Tail(l: Line): seq<byte> {
    if l.torn.Torn? then l.torn.part
    else if l.lock.Held? && IsWriting(l, l.lock.holder) then
      Framed(l.writers[l.lock.holder].frame)[..l.writers[l.lock.holder].st.done]
    else []
  }

  function Frames(log: seq<Packet>): (frames: seq<seq<byte>>)
    ensures |frames| == |log|
    ensures forall i :: 0 <= i < |log| ==> frames[i] == log[i].frame
  {
    seq(|log|, i requires 0 <= i < |log| => log[i].frame)
  }

  /** Of the writers that took the lock, those whose frame went out whole. */
  function Senders(l: Line, turns: seq<nat>): seq<nat> {
    if turns == [] then []
    else
      var n := |turns| - 1;
      Senders(l, turns[..n]) + if turns[n] in l.writers && l.writers[turns[n]].sent then [turns[n]] else []
  }

  function Authors(log: seq<Packet>): (ws: seq<nat>)
    ensures |ws| == |log|
    ensures forall i :: 0 <= i < |log| ==> ws[i] == log[i].writer
  {
    seq(|log|, i requires 0 <= i < |log| => log[i].writer)
  }

  /** Everybody takes the lock at most once, and the holder took it last. */
  predicate TurnsOk(l: Line) {
    && (forall i :: 0 <= i < |l.turns| ==> l.turns[i] in l.writers && !l.writers[l.turns[i]].st.Waiting?)
    && (forall i, j :: 0 <= i < j < |l.turns| ==> l.turns[i] != l.turns[j])
    && (l.lock.Held? ==> |l.turns| > 0 && l.turns[|l.turns| - 1] == l.lock.holder)
  }

  predicate OrderOk(l: Line) {
    Authors(l.log) == Senders(l, l.turns)
  }

  predicate BytesOk(l: Line) {
    l.bytes == Flatten(Frames(l.log)) + Tail(l)
  }

  predicate Inv(l: Line) {
    LockOk(l) && DeadlineOk(l) && ExpiredOk(l) && TornOk(l) && LogOk(l) && TurnsOk(l) && OrderOk(l) && BytesOk(l)
  }

  // ----- every step keeps it; the events are taken in four groups to keep each proof small -----

  predicate Arriving(e: Event) {
    e.Enter? || e.CtxDone?
  }

  predicate Deciding(e: Event) {
    e.Acquire? || e.GiveUp? || e.Refuse? || e.Proceed?
  }

  predicate Early(e: Event) {
    Arriving(e) || Deciding(e)
  }

  predicate Preparing(e: Event) {
    e.SetDeadline? || e.DeadlineFails? || e.Arm?
  }

  predicate OfCallback(e: Event) {
    e.Fire? || e.Expire? || e.Notify?
  }

  predicate Middle(e: Event) {
    Preparing(e) || OfCallback(e)
  }

  /** What follows the write, before the socket is closed or the lock given back. */
  predicate Ending(e: Event) {
    e.Stop? || e.Resume? || e.Reset?
  }

  predicate Late(e: Event) {
    e.Stop? || e.Resume? || e.Reset? || e.FinishClose? || e.Release? || Phasing(e)
  }

  lemma ArrivingWriter(l: Line, e: Event, w: nat)
    requires LockOk(l) && Enabled(l, e) && Arriving(e) && w in Step(l, e).writers
    ensures WriterOk(Step(l, e), w)
  {
  }

  lemma DecidingWriter(l: Line, e: Event, w: nat)
    requires LockOk(l) && Enabled(l, e) && Deciding(e) && w in Step(l, e).writers
    ensures WriterOk(Step(l, e), w)
  {
  }

  lemma PreparingWriter(l: Line, e: Event, w: nat)
    requires LockOk(l) && Enabled(l, e) && Preparing(e) && w in Step(l, e).writers
    ensures WriterOk(Step(l, e), w)
  {
  }

  lemma CallbackWriter(l: Line, e: Event, w: nat)
    requires LockOk(l) && Enabled(l, e) && OfCallback(e) && w in Step(l, e).writers
    ensures WriterOk(Step(l, e), w)
  {
  }

  lemma StopWriter(l: Line, e: Event, w: nat)
    requires LockOk(l) && Enabled(l, e) && e.Stop? && w in Step(l, e).writers
    ensures WriterOk(Step(l, e), w)
  {
  }

  lemma ResumeWriter(l: Line, e: Event, w: nat)
    requires LockOk(l) && Enabled(l, e) && (e.Resume? || e.Reset?) && w in Step(l, e).writers
    ensures WriterOk(Step(l, e), w)
  {
  }

  lemma LastWriter(l: Line, e: Event, w: nat)
    requires LockOk(l) && Enabled(l, e) && (e.FinishClose? || e.Release?) && w in Step(l, e).writers
    ensures WriterOk(Step(l, e), w)
  {
  }

  lemma PhaseWriter(l: Line, e: Event, w: nat)
    requires LockOk(l) && Enabled(l, e) && Phasing(e) && w in Step(l, e).writers
    ensures WriterOk(Step(l, e), w)
  {
  }

  lemma ChunkWriter(l: Line, e: Event, w: nat)
    requires LockOk(l) && Enabled(l, e) && e.Chunk? && w in Step(l, e).writers
    ensures WriterOk(Step(l, e), w)
  {
  }

  lemma FailWriter(l: Line, e: Event, w: nat)
    requires LockOk(l) && Enabled(l, e) && e.Fail? && w in Step(l, e).writers
    ensures WriterOk(Step(l, e), w)
  {
  }

  lemma StepLock(l: Line, e: Event)
    requires LockOk(l) && Enabled(l, e)
    ensures LockOk(Step(l, e))
  {
    var l' := Step(l, e);
    forall w | w in l'.writers ensures WriterOk(l', w) {
      if Arriving(e) { ArrivingWriter(l, e, w); }
      else if Deciding(e) { DecidingWriter(l, e, w); }
      else if Preparing(e) { PreparingWriter(l, e, w); }
      else if OfCallback(e) { CallbackWriter(l, e, w); }
      else if e.Stop? { StopWriter(l, e, w); }
      else if Ending(e) { ResumeWriter(l, e, w); }
      else if Phasing(e) { PhaseWriter(l, e, w); }
      else if Late(e) { LastWriter(l, e, w); }
      else if e.Chunk? { ChunkWriter(l, e, w); }
      else { FailWriter(l, e, w); }
    }
  }

  lemma EarlyDeadline(l: Line, e: Event)
    requires LockOk(l) && DeadlineOk(l) && Enabled(l, e) && Early(e)
    ensures DeadlineOk(Step(l, e))
  {
  }

  lemma PreparingDeadline(l: Line, e: Event)
    requires LockOk(l) && DeadlineOk(l) && Enabled(l, e) && Preparing(e)
    ensures DeadlineOk(Step(l, e))
  {
  }

  lemma MiddleDeadline(l: Line, e: Event)
    requires LockOk(l) && DeadlineOk(l) && Enabled(l, e) && (OfCallback(e) || e.Chunk? || e.Fail?)
    ensures DeadlineOk(Step(l, e))
  {
  }

  lemma LateDeadline(l: Line, e: Event)
    requires LockOk(l) && DeadlineOk(l) && Enabled(l, e) && Late(e)
    ensures DeadlineOk(Step(l, e))
  {
  }

  lemma StepDeadline(l: Line, e: Event)
    requires LockOk(l) && DeadlineOk(l) && Enabled(l, e)
    ensures DeadlineOk(Step(l, e))
  {
    if Early(e) { EarlyDeadline(l, e); }
    else if Preparing(e) { PreparingDeadline(l, e); }
    else if Late(e) { LateDeadline(l, e); }
    else { MiddleDeadline(l, e); }
  }

  /** The holder is not interrupted afterwards, or it was not touched and nothing was undone. */
  lemma EarlyExpired(l: Line, e: Event)
    requires LockOk(l) && ExpiredOk(l) && Enabled(l, e) && Early(e)
    ensures ExpiredOk(Step(l, e))
  {
    if !e.Enter? {
      assert WriterOk(l, e.w);
    }
  }

  lemma PreparingExpired(l: Line, e: Event)
    requires LockOk(l) && ExpiredOk(l) && Enabled(l, e) && Preparing(e)
    ensures ExpiredOk(Step(l, e))
  {
    assert WriterOk(l, e.w);
  }

  lemma CallbackExpired(l: Line, e: Event)
    requires LockOk(l) && ExpiredOk(l) && Enabled(l, e) && OfCallback(e)
    ensures ExpiredOk(Step(l, e))
  {
    assert WriterOk(l, e.w);
  }

  lemma WriteExpired(l: Line, e: Event)
    requires LockOk(l) && ExpiredOk(l) && Enabled(l, e) && (e.Chunk? || e.Fail?)
    ensures ExpiredOk(Step(l, e))
  {
    assert WriterOk(l, e.w);
  }

  lemma LateExpired(l: Line, e: Event)
    requires LockOk(l) && ExpiredOk(l) && Enabled(l, e) && Late(e)
    ensures ExpiredOk(Step(l, e))
  {
    if !Phasing(e) {
      assert WriterOk(l, e.w);
    }
  }

  lemma StepExpired(l: Line, e: Event)
    requires LockOk(l) && ExpiredOk(l) && Enabled(l, e)
    ensures ExpiredOk(Step(l, e))
  {
    if Early(e) { EarlyExpired(l, e); }
    else if Preparing(e) { PreparingExpired(l, e); }
    else if OfCallback(e) { CallbackExpired(l, e); }
    else if Late(e) { LateExpired(l, e); }
    else { WriteExpired(l, e); }
  }

  lemma ArrivingTorn(l: Line, e: Event)
    requires LockOk(l) && TornOk(l) && Enabled(l, e) && Arriving(e)
    ensures TornOk(Step(l, e))
  {
    if l.torn.Torn? {
      assert WriterOk(l, l.torn.writer);
    }
  }

  lemma DecidingTorn(l: Line, e: Event)
    requires LockOk(l) && TornOk(l) && Enabled(l, e) && Deciding(e)
    ensures TornOk(Step(l, e))
  {
    if l.torn.Torn? {
      assert WriterOk(l, l.torn.writer);
    }
  }

  lemma PreparingTorn(l: Line, e: Event)
    requires LockOk(l) && TornOk(l) && Enabled(l, e) && Preparing(e)
    ensures TornOk(Step(l, e))
  {
  }

  lemma CallbackTorn(l: Line, e: Event)
    requires LockOk(l) && TornOk(l) && Enabled(l, e) && OfCallback(e)
    ensures TornOk(Step(l, e))
  {
    if l.torn.Torn? {
      assert WriterOk(l, l.torn.writer);
    }
  }

  lemma StopTorn(l: Line, e: Event)
    requires LockOk(l) && TornOk(l) && Enabled(l, e) && (e.Stop? || e.Resume?)
    ensures TornOk(Step(l, e))
  {
    if l.torn.Torn? {
      assert WriterOk(l, l.torn.writer);
    }
  }

  lemma ResetTorn(l: Line, e: Event)
    requires LockOk(l) && TornOk(l) && Enabled(l, e) && e.Reset?
    ensures TornOk(Step(l, e))
  {
    if l.torn.Torn? {
      assert WriterOk(l, l.torn.writer);
    }
  }

  lemma LastTorn(l: Line, e: Event)
    requires LockOk(l) && TornOk(l) && Enabled(l, e) && (e.FinishClose? || e.Release?)
    ensures TornOk(Step(l, e))
  {
    if l.torn.Torn? {
      assert WriterOk(l, l.torn.writer);
    }
  }

  lemma PhaseTorn(l: Line, e: Event)
    requires TornOk(l) && Enabled(l, e) && Phasing(e)
    ensures TornOk(Step(l, e))
  {
  }

  lemma ChunkTorn(l: Line, e: Event)
    requires LockOk(l) && TornOk(l) && Enabled(l, e) && e.Chunk?
    ensures TornOk(Step(l, e))
  {
  }

  lemma FailTorn(l: Line, e: Event)
    requires LockOk(l) && TornOk(l) && Enabled(l, e) && e.Fail?
    ensures TornOk(Step(l, e))
  {
  }

  lemma StepTorn(l: Line, e: Event)
    requires LockOk(l) && TornOk(l) && Enabled(l, e)
    ensures TornOk(Step(l, e))
  {
    if Arriving(e) { ArrivingTorn(l, e); }
    else if Deciding(e) { DecidingTorn(l, e); }
    else if Preparing(e) { PreparingTorn(l, e); }
    else if OfCallback(e) { CallbackTorn(l, e); }
    else if Phasing(e) { PhaseTorn(l, e); }
    else if e.FinishClose? || e.Release? { LastTorn(l, e); }
    else if e.Reset? { ResetTorn(l, e); }
    else if Ending(e) { StopTorn(l, e); }
    else if e.Chunk? { ChunkTorn(l, e); }
    else { FailTorn(l, e); }
  }

  lemma EarlyLog(l: Line, e: Event)
    requires LogOk(l) && Enabled(l, e) && Early(e)
    ensures LogOk(Step(l, e))
  {
  }

  lemma PreparingLog(l: Line, e: Event)
    requires LogOk(l) && Enabled(l, e) && Preparing(e)
    ensures LogOk(Step(l, e))
  {
  }

  lemma CallbackLog(l: Line, e: Event)
    requires LogOk(l) && Enabled(l, e) && OfCallback(e)
    ensures LogOk(Step(l, e))
  {
  }

  lemma LateLog(l: Line, e: Event)
    requires LogOk(l) && Enabled(l, e) && Late(e) && !Phasing(e)
    ensures LogOk(Step(l, e))
  {
  }

  lemma PhaseLog(l: Line, e: Event)
    requires LogOk(l) && Enabled(l, e) && Phasing(e)
    ensures LogOk(Step(l, e))
  {
  }

  lemma QuietLog(l: Line, e: Event)
    requires LogOk(l) && Enabled(l, e) && !e.Chunk? && !e.Fail?
    ensures LogOk(Step(l, e))
  {
    if Early(e) { EarlyLog(l, e); }
    else if Preparing(e) { PreparingLog(l, e); }
    else if OfCallback(e) { CallbackLog(l, e); }
    else if Phasing(e) { PhaseLog(l, e); }
    else { LateLog(l, e); }
  }

  lemma WriteLog(l: Line, e: Event)
    requires LogOk(l) && Enabled(l, e) && (e.Chunk? || e.Fail?) && !l.writers[e.w].sent
    ensures LogOk(Step(l, e))
  {
    var l' := Step(l, e);
    if l'.log != l.log {
      assert Authors(l'.log) == Authors(l.log) + [e.w];
    }
  }

  lemma {:induction false} SendersSame(l: Line, l': Line, turns: seq<nat>)
    requires forall i :: 0 <= i < |turns| ==>
               (turns[i] in l.writers && l.writers[turns[i]].sent <==>
                turns[i] in l'.writers && l'.writers[turns[i]].sent)
    ensures Senders(l, turns) == Senders(l', turns)
  {
    if turns != [] {
      SendersSame(l, l', turns[..|turns| - 1]);
    }
  }

  lemma AcquireTurns(l: Line, e: Event)
    requires TurnsOk(l) && Enabled(l, e) && e.Acquire?
    ensures TurnsOk(Step(l, e))
  {
  }

  lemma PreparingTurns(l: Line, e: Event)
    requires TurnsOk(l) && Enabled(l, e) && Preparing(e)
    ensures TurnsOk(Step(l, e))
  {
  }

  lemma CallbackTurns(l: Line, e: Event)
    requires TurnsOk(l) && Enabled(l, e) && OfCallback(e)
    ensures TurnsOk(Step(l, e))
  {
  }

  lemma WriteTurns(l: Line, e: Event)
    requires TurnsOk(l) && Enabled(l, e) && (e.Chunk? || e.Fail?)
    ensures TurnsOk(Step(l, e))
  {
  }

  lemma EarlyTurns(l: Line, e: Event)
    requires TurnsOk(l) && Enabled(l, e) && Early(e) && !e.Acquire?
    ensures TurnsOk(Step(l, e))
  {
  }

  lemma LateTurns(l: Line, e: Event)
    requires TurnsOk(l) && Enabled(l, e) && Late(e) && !Phasing(e)
    ensures TurnsOk(Step(l, e))
  {
  }

  lemma PhaseTurns(l: Line, e: Event)
    requires TurnsOk(l) && Enabled(l, e) && Phasing(e)
    ensures TurnsOk(Step(l, e))
  {
  }

  lemma StepTurns(l: Line, e: Event)
    requires TurnsOk(l) && Enabled(l, e)
    ensures TurnsOk(Step(l, e))
  {
    if e.Acquire? { AcquireTurns(l, e); }
    else if Early(e) { EarlyTurns(l, e); }
    else if Preparing(e) { PreparingTurns(l, e); }
    else if OfCallback(e) { CallbackTurns(l, e); }
    else if Phasing(e) { PhaseTurns(l, e); }
    else if Late(e) { LateTurns(l, e); }
    else { WriteTurns(l, e); }
  }

  lemma AcquireOrder(l: Line, e: Event)
    requires OrderOk(l) && Enabled(l, e) && e.Acquire? && !l.writers[e.w].sent
    ensures OrderOk(Step(l, e))
  {
    var l' := Step(l, e);
    SendersSame(l, l', l.turns);
    assert l'.turns[..|l.turns|] == l.turns;
  }

  lemma QuietOrder(l: Line, e: Event)
    requires TurnsOk(l) && OrderOk(l) && Enabled(l, e) && !e.Acquire? && !e.Chunk? && !e.Fail?
    ensures OrderOk(Step(l, e))
  {
    SendersSame(l, Step(l, e), l.turns);
  }

  /** The lock holder is last, so marking it as sent only appends it. */
  lemma WriteOrder(l: Line, e: Event)
    requires Enabled(l, e) && (e.Chunk? || e.Fail?)
    requires TurnsOk(l) && OrderOk(l) && l.lock == Held(e.w) && !l.writers[e.w].sent
    ensures OrderOk(Step(l, e))
  {
    var l' := Step(l, e);
    var n := |l.turns| - 1;
    SendersSame(l, l', l.turns[..n]);
    assert Senders(l, l.turns) == Senders(l', l.turns[..n]);
    assert Authors(l'.log) == Authors(l.log) + if l'.writers[e.w].sent then [e.w] else [];
  }

  lemma EarlyBytes(l: Line, e: Event)
    requires LockOk(l) && TornOk(l) && BytesOk(l) && Enabled(l, e) && Early(e)
    ensures BytesOk(Step(l, e))
  {
    assert Step(l, e).log == l.log && Step(l, e).bytes == l.bytes;
    assert Tail(Step(l, e)) == Tail(l);
  }

  lemma MiddleBytes(l: Line, e: Event)
    requires LockOk(l) && TornOk(l) && BytesOk(l) && Enabled(l, e) && Middle(e)
    ensures BytesOk(Step(l, e))
  {
    assert Step(l, e).log == l.log && Step(l, e).bytes == l.bytes;
    assert Tail(Step(l, e)) == Tail(l);
  }

  lemma LateBytes(l: Line, e: Event)
    requires LockOk(l) && TornOk(l) && BytesOk(l) && Enabled(l, e) && Late(e)
    ensures BytesOk(Step(l, e))
  {
    assert Step(l, e).log == l.log && Step(l, e).bytes == l.bytes;
    assert Tail(Step(l, e)) == Tail(l);
  }

  lemma AppendPacket(log: seq<Packet>, p: Packet)
    ensures Flatten(Frames(log + [p])) == Flatten(Frames(log)) + Framed(p.frame)
  {
    FlattenAppend(Frames(log), p.frame);
    assert Frames(log + [p]) == Frames(log) + [p.frame];
  }

  lemma SliceJoin(front: seq<byte>, data: seq<byte>, i: nat, n: nat)
    requires i + n <= |data|
    ensures (front + data[..i]) + data[i..i + n] == front + data[..i + n]
  {
  }

  /** Accepting the rest of a frame turns the tail into one more whole frame. */
  lemma AcceptBytes(log: seq<Packet>, w: nat, x: Writer, n: nat)
    requires x.st.Writing? && n <= Rest(x) && x.st.done < |Framed(x.frame)|
    ensures
      var data := Framed(x.frame);
      Flatten(Frames(log)) + data[..x.st.done] + Slice(x, n) ==
      if n == Rest(x) then Flatten(Frames(log + [Packet(w, x.frame)])) else Flatten(Frames(log)) + data[..x.st.done + n]
  {
    var data := Framed(x.frame);
    SliceJoin(Flatten(Frames(log)), data, x.st.done, n);
    if n == Rest(x) {
      AppendPacket(log, Packet(w, x.frame));
      assert data[..x.st.done + n] == data;
    }
  }

  lemma WritingTail(l: Line, w: nat)
    requires LockOk(l) && TornOk(l) && IsWriting(l, w)
    ensures l.lock == Held(w) && !l.torn.Torn?
    ensures Tail(l) == Framed(l.writers[w].frame)[..l.writers[w].st.done]
  {
    assert WriterOk(l, w);
  }

  lemma ChunkBytes(l: Line, e: Event)
    requires LockOk(l) && TornOk(l) && BytesOk(l) && Enabled(l, e) && e.Chunk?
    ensures BytesOk(Step(l, e))
  {
    var x := l.writers[e.w];
    WritingTail(l, e.w);
    AcceptBytes(l.log, e.w, x, e.n);
    assert Step(l, e).bytes == l.bytes + Slice(x, e.n);
    assert Tail(Step(l, e)) == if e.n == Rest(x) then [] else Framed(x.frame)[..x.st.done + e.n];
  }

  lemma FailBytes(l: Line, e: Event)
    requires LockOk(l) && TornOk(l) && BytesOk(l) && Enabled(l, e) && e.Fail?
    ensures BytesOk(Step(l, e))
  {
    var x := l.writers[e.w];
    WritingTail(l, e.w);
    AcceptBytes(l.log, e.w, x, e.n);
    assert Step(l, e).bytes == l.bytes + Slice(x, e.n);
    assert Tail(Step(l, e)) == if e.n == Rest(x) then [] else Framed(x.frame)[..x.st.done + e.n];
  }

  lemma StepInv(l: Line, e: Event)
    requires Inv(l) && Enabled(l, e)
    ensures Inv(Step(l, e))
  {
    StepLock(l, e);
    StepDeadline(l, e);
    StepExpired(l, e);
    StepTorn(l, e);
    StepTurns(l, e);
    if e.Acquire? || e.Chunk? || e.Fail? {
      assert WriterOk(l, e.w);
    }
    if e.Chunk? || e.Fail? {
      WriteLog(l, e);
      WriteOrder(l, e);
    } else {
      QuietLog(l, e);
      if e.Acquire? { AcquireOrder(l, e); } else { QuietOrder(l, e); }
    }
    if Early(e) { EarlyBytes(l, e); }
    else if Middle(e) { MiddleBytes(l, e); }
    else if Late(e) { LateBytes(l, e); }
    else if e.Chunk? { ChunkBytes(l, e); }
    else { FailBytes(l, e); }
  }

  lemma {:induction false} RunInv(l: Line, es: seq<Event>, l': Line)
    requires Inv(l) && Run(l, es, l')
    ensures Inv(l')
    decreases |es|
  {
    if es != [] {
      StepInv(l, es[0]);
      RunInv(Step(l, es[0]), es[1..], l');
    }
  }

  lemma InitInv()
    ensures Inv(EMPTY_LINE)
  {
  }

  lemma ReachInv(es: seq<Event>, l: Line)
    requires Run(EMPTY_LINE, es, l)
    ensures Inv(l)
  {
    InitInv();
    RunInv(EMPTY_LINE, es, l);
  }

  // ----- what the system promises about one direction -----

  /**
   In every run, the bytes on the connection are whole frames, in the order their
   writers took the lock, and then only a prefix of the frame the lock holder is
   writing or of one failed write.
   */
  lemma BytesAreFrames(es: seq<Event>, l: Line)
    requires Run(EMPTY_LINE, es, l)
    ensures l.bytes == Flatten(Frames(l.log)) + Tail(l)
    ensures Authors(l.log) == Senders(l, l.turns)
    ensures forall i, j :: 0 <= i < j < |l.turns| ==> l.turns[i] != l.turns[j]
    ensures Tail(l) != [] ==>
              || (l.torn.Torn? && l.torn.writer in l.writers && Tail(l) < Framed(l.writers[l.torn.writer].frame))
              || (l.lock.Held? && IsWriting(l, l.lock.holder) && Tail(l) < Framed(l.writers[l.lock.holder].frame))
  {
    ReachInv(es, l);
  }

  lemma NothingAfterTorn(l: Line, e: Event)
    requires Inv(l) && l.torn.Torn? && Enabled(l, e)
    ensures var l' := Step(l, e); l'.bytes == l.bytes && l'.log == l.log && l'.torn == l.torn
  {
  }

  /**
   After a failed write no byte ever follows it, and once its writer has let go of
   the lock the connection is closed.
   */
  lemma {:induction false} FailedWriteIsLast(l: Line, es: seq<Event>, l': Line)
    requires Inv(l) && l.torn.Torn? && Run(l, es, l')
    ensures l'.bytes == l.bytes && l'.log == l.log && l'.torn == l.torn
    ensures l'.lock == Held(l'.torn.writer) || l'.phase.Closed?
    decreases |es|
  {
    if es != [] {
      StepInv(l, es[0]);
      NothingAfterTorn(l, es[0]);
      FailedWriteIsLast(Step(l, es[0]), es[1..], l');
    }
  }

  lemma FreeIsClean(l: Line)
    requires LockOk(l) && DeadlineOk(l) && l.lock.Free? && NetOpen(l)
    ensures l.deadline == NoDeadline
    ensures forall w :: w in l.writers ==> !Live(l.writers[w].cb)
  {
    forall w | w in l.writers ensures !Live(l.writers[w].cb) {
      assert WriterOk(l, w);
    }
  }

  /**
   In every run, whenever the lock is free and the socket open, no write deadline is
   set and no earlier writer's cancellation callback can still touch the socket.
   */
  lemma NextWriterStartsClean(es: seq<Event>, l: Line)
    requires Run(EMPTY_LINE, es, l)
    requires l.lock.Free? && NetOpen(l)
    ensures l.deadline == NoDeadline
    ensures forall w :: w in l.writers ==> !Live(l.writers[w].cb)
  {
    ReachInv(es, l);
    FreeIsClean(l);
  }

  /**
   What a caller of writeFrame may conclude: success means its frame is in the
   stream exactly once; an error on a connection that is not closed means that not
   one byte of it is.
   */
  lemma OutcomeIsHonest(es: seq<Event>, l: Line, w: nat)
    requires Run(EMPTY_LINE, es, l)
    requires w in l.writers && l.writers[w].st.Returned?
    ensures l.writers[w].st.ok ==> w in Authors(l.log)
    ensures w in Authors(l.log) ==> Packet(w, l.writers[w].frame) in l.log
    ensures forall i, j :: 0 <= i < j < |l.log| ==> l.log[i].writer != l.log[j].writer
    ensures !l.writers[w].st.ok && !l.phase.Closed? ==> w !in Authors(l.log) && (l.torn.Torn? ==> l.torn.writer != w)
  {
    ReachInv(es, l);
    assert WriterOk(l, w);
    if w in Authors(l.log) {
      var i :| 0 <= i < |l.log| && l.log[i].writer == w;
      assert l.log[i] == Packet(w, l.writers[w].frame);
    }
  }

  /**
   A cancelled holder of the lock can always move, and by a step that is its own, its
   callback's, or a statement of the close it is itself inside; a blocked write fails because the callback has
   set a deadline in the past, not because it happens to fail.
   */
  lemma HolderCanMove(l: Line) returns (e: Event)
    requires Inv(l) && l.lock.Held? && l.writers[l.lock.holder].ctxDone
    ensures Enabled(l, e)
    ensures OwnStep(e, l.lock.holder) || (Closes(e) && l.writers[l.lock.holder].st.Closing?)
    ensures e.Fail? ==> Doomed(l)
  {
    var w := l.lock.holder;
    var x := l.writers[w];
    assert WriterOk(l, w);
    match x.st
    case Locked => e := Refuse(w);
    case Ready => e := if x.timed && !NetOpen(l) then DeadlineFails(w) else SetDeadline(w);
    case Arming => e := Arm(w);
    case Writing(_) => e := if Doomed(l) then Fail(w, 0) else if x.cb.Armed? then Fire(w) else Expire(w);
    case Wrote(_) => e := Stop(w);
    case Awaiting(_) => e := if x.cb.Fired? then Expire(w) else if x.cb.Expired? then Notify(w) else Resume(w);
    case Resetting(_) => e := Reset(w);
    case Closing =>
      e := if l.phase.Open? then Cancel else if l.phase.Cancelled? then CloseNet
           else if l.phase.NetClosed? then ClearPending else FinishClose(w);
    case Releasing(_) => e := Release(w);
  }

  /** An action of the writer's goroutine or of its cancellation callback. */
  predicate OwnStep(e: Event, w: nat) {
    !Phasing(e) && !e.Enter? && !e.CtxDone? && e.w == w
  }
}
