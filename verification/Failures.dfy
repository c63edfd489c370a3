/**
 Why writeFrame returns an error, and when it closes the connection: only a write that
 failed or a deadline that was refused does, never a request that was given up before.
 */
module Failures {
  import opened Line
  import opened Wire

  // ----- what leads to close -----

  /** A write of this writer's failed, or its deadline was refused. */
  predicate Fails(e: Event, w: nat) {
    (e.Fail? || e.DeadlineFails?) && e.w == w
  }

  predicate FailedIn(es: seq<Event>, w: nat) {
    exists k :: 0 <= k < |es| && Fails(es[k], w)
  }

  predicate IsFailing(l: Line, w: nat) {
    w in l.writers && Failing(l.writers[w].st)
  }

  lemma FailingHasCause(l: Line, e: Event, w: nat)
    requires Enabled(l, e) && IsFailing(Step(l, e), w)
    ensures IsFailing(l, w) || Fails(e, w)
  {
  }

  lemma FailureShows(l: Line, e: Event, w: nat)
    requires Enabled(l, e) && (IsFailing(l, w) || l.phase.Closed? || Fails(e, w))
    ensures IsFailing(Step(l, e), w) || Step(l, e).phase.Closed?
  {
  }

  lemma FailedLater(es: seq<Event>, w: nat)
    requires es != []
    ensures FailedIn(es, w) <==> Fails(es[0], w) || FailedIn(es[1..], w)
  {
    if FailedIn(es, w) && !Fails(es[0], w) {
      var k :| 0 <= k < |es| && Fails(es[k], w);
      assert es[1..][k - 1] == es[k];
    }
    if FailedIn(es[1..], w) {
      var k :| 0 <= k < |es[1..]| && Fails(es[1..][k], w);
      assert es[k + 1] == es[1..][k];
    }
  }

  lemma {:induction false} FailingRun(l: Line, es: seq<Event>, l': Line, w: nat)
    requires Run(l, es, l')
    ensures IsFailing(l', w) ==> IsFailing(l, w) || FailedIn(es, w)
    ensures IsFailing(l, w) || l.phase.Closed? || FailedIn(es, w) ==> IsFailing(l', w) || l'.phase.Closed?
    decreases |es|
  {
    if es != [] {
      var l1 := Step(l, es[0]);
      FailedLater(es, w);
      FailingRun(l1, es[1..], l', w);
      if IsFailing(l1, w) {
        FailingHasCause(l, es[0], w);
      }
      if IsFailing(l, w) || l.phase.Closed? || Fails(es[0], w) {
        FailureShows(l, es[0], w);
      }
    }
  }

  /**
   In every run a writer goes into close exactly because of a failure of its own: it is
   there only if one of its writes failed or its deadline was refused, and once that has
   happened it is on its way into close, in it, or the connection is closed.
   */
  lemma OnlyFailuresClose(es: seq<Event>, l: Line, w: nat)
    requires Run(EMPTY_LINE, es, l) && w in l.writers
    ensures l.writers[w].st.Closing? ==> FailedIn(es, w)
    ensures FailedIn(es, w) ==> Failing(l.writers[w].st) || l.phase.Closed?
  {
    FailingRun(EMPTY_LINE, es, l, w);
  }

  // ----- requests given up before they write -----

  /** In the select for the lock, or holding it before the second look, with its context or the connection's ended. */
  predicate TooLate(l: Line, w: nat) {
    && w in l.writers && !l.writers[w].sent
    && (l.writers[w].ctxDone || !l.phase.Open?)
    && (l.writers[w].st in {Waiting, Locked, Releasing(false), Returned(false)})
  }

  lemma OthersLeaveTooLate(l: Line, e: Event, w: nat)
    requires Enabled(l, e) && TooLate(l, w) && (Phasing(e) || e.w != w)
    ensures TooLate(Step(l, e), w)
  {
  }

  lemma StaysTooLate(l: Line, e: Event, w: nat)
    requires LockOk(l) && Enabled(l, e) && TooLate(l, w)
    ensures TooLate(Step(l, e), w)
  {
    assert WriterOk(l, w);
    if Phasing(e) || e.w != w {
      OthersLeaveTooLate(l, e, w);
    }
  }

  lemma {:induction false} TooLateRun(l: Line, es: seq<Event>, l': Line, w: nat)
    requires Inv(l) && Run(l, es, l') && TooLate(l, w)
    ensures Inv(l') && TooLate(l', w)
    decreases |es|
  {
    if es != [] {
      StepInv(l, es[0]);
      StaysTooLate(l, es[0], w);
      TooLateRun(Step(l, es[0]), es[1..], l', w);
    }
  }

  /**
   A request whose context ended, or whose connection was closed, before the second look
   under the lock is refused: whatever happens after, none of its frame is ever sent, and
   it does not go into close, so the connection is left to the others.
   */
  lemma RefusedWritesNothing(es: seq<Event>, l: Line, fs: seq<Event>, l': Line, w: nat)
    requires Run(EMPTY_LINE, es, l) && Run(l, fs, l') && w in l.writers
    requires l.writers[w].st.Waiting? || l.writers[w].st.Locked?
    requires l.writers[w].ctxDone || !l.phase.Open?
    ensures w in l'.writers && l'.writers[w].st in {Waiting, Locked, Releasing(false), Returned(false)}
    ensures w !in Authors(l'.log) && !FailedIn(fs, w) && (l.torn != l'.torn ==> l'.torn.Torn? && l'.torn.writer != w)
  {
    ReachInv(es, l);
    assert WriterOk(l, w);
    TooLateRun(l, fs, l', w);
    assert !l'.writers[w].sent;
    NeverFails(l, fs, l', w);
  }

  lemma {:induction false} NeverFails(l: Line, es: seq<Event>, l': Line, w: nat)
    requires Inv(l) && Run(l, es, l') && TooLate(l, w)
    ensures !FailedIn(es, w) && (l.torn != l'.torn ==> l'.torn.Torn? && l'.torn.writer != w)
    decreases |es|
  {
    if es != [] {
      StepInv(l, es[0]);
      StaysTooLate(l, es[0], w);
      FailedLater(es, w);
      TornByOthers(l, es[0], w);
      NeverFails(Step(l, es[0]), es[1..], l', w);
    }
  }

  lemma TornByOthers(l: Line, e: Event, w: nat)
    requires LockOk(l) && Enabled(l, e) && TooLate(l, w)
    ensures !Fails(e, w) && (Step(l, e).torn != l.torn ==> Step(l, e).torn.Torn? && Step(l, e).torn.writer != w)
  {
  }

  // ----- why an error is returned, and why a write is interrupted -----

  /** Errors have causes, only a context that ended interrupts, and a timed write has its deadline. */
  predicate CauseOk(l: Line, w: nat)
    requires w in l.writers
  {
    var x := l.writers[w];
    && (x.st in {Releasing(false), Returned(false)} ==> x.ctxDone || !l.phase.Open?)
    && (x.cb.Fired? || x.cb.Expired? || x.cb.Finished? ==> x.ctxDone)
    && (x.timed && MayOwnDeadline(x.st) ==> l.deadline != NoDeadline)
    && (!x.timed && MayOwnDeadline(x.st) && !x.ctxDone && NetOpen(l) ==> l.deadline == NoDeadline)
  }

  lemma EnterCause(l: Line, e: Event)
    requires Enabled(l, e) && e.Enter?
    ensures e.w in Step(l, e).writers && CauseOk(Step(l, e), e.w)
  {
  }

  lemma ContextCause(l: Line, e: Event)
    requires LockOk(l) && Enabled(l, e) && e.CtxDone? && CauseOk(l, e.w)
    ensures e.w in Step(l, e).writers && CauseOk(Step(l, e), e.w)
  {
    assert WriterOk(l, e.w);
  }

  lemma DecidingCause(l: Line, e: Event)
    requires LockOk(l) && Enabled(l, e) && Deciding(e) && CauseOk(l, e.w)
    ensures e.w in Step(l, e).writers && CauseOk(Step(l, e), e.w)
  {
    assert WriterOk(l, e.w);
  }

  lemma PreparingCause(l: Line, e: Event)
    requires LockOk(l) && DeadlineOk(l) && Enabled(l, e) && Preparing(e) && CauseOk(l, e.w)
    ensures e.w in Step(l, e).writers && CauseOk(Step(l, e), e.w)
  {
    assert WriterOk(l, e.w);
  }

  lemma CallbackCause(l: Line, e: Event)
    requires LockOk(l) && Enabled(l, e) && OfCallback(e) && CauseOk(l, e.w)
    ensures e.w in Step(l, e).writers && CauseOk(Step(l, e), e.w)
  {
    assert WriterOk(l, e.w);
  }

  lemma WriteCause(l: Line, e: Event)
    requires LockOk(l) && Enabled(l, e) && (e.Chunk? || e.Fail?) && CauseOk(l, e.w)
    ensures e.w in Step(l, e).writers && CauseOk(Step(l, e), e.w)
  {
    assert WriterOk(l, e.w);
  }

  lemma LateCause(l: Line, e: Event)
    requires LockOk(l) && Enabled(l, e) && Late(e) && !Phasing(e) && CauseOk(l, e.w)
    ensures e.w in Step(l, e).writers && CauseOk(Step(l, e), e.w)
  {
    assert WriterOk(l, e.w);
  }

  lemma OwnCause(l: Line, e: Event)
    requires LockOk(l) && DeadlineOk(l) && Enabled(l, e) && !Phasing(e) && (!e.Enter? ==> CauseOk(l, e.w))
    ensures e.w in Step(l, e).writers && CauseOk(Step(l, e), e.w)
  {
    if e.Enter? { EnterCause(l, e); }
    else if e.CtxDone? { ContextCause(l, e); }
    else if Deciding(e) { DecidingCause(l, e); }
    else if Preparing(e) { PreparingCause(l, e); }
    else if OfCallback(e) { CallbackCause(l, e); }
    else if Late(e) { LateCause(l, e); }
    else { WriteCause(l, e); }
  }

  lemma PhaseCause(l: Line, e: Event, w: nat)
    requires Enabled(l, e) && w in l.writers && CauseOk(l, w) && Phasing(e)
    ensures w in Step(l, e).writers && CauseOk(Step(l, e), w)
  {
  }

  /** Only the lock holder resets the deadline. */
  lemma OthersCause(l: Line, e: Event, w: nat)
    requires LockOk(l) && Enabled(l, e) && w in l.writers && CauseOk(l, w) && !Phasing(e) && e.w != w
    ensures w in Step(l, e).writers && CauseOk(Step(l, e), w)
  {
    assert WriterOk(l, w);
    if e.Reset? {
      assert WriterOk(l, e.w);
    }
  }

  lemma OldWriter(l: Line, e: Event, w: nat)
    requires Enabled(l, e) && w in Step(l, e).writers
    ensures w in l.writers || (e.Enter? && e.w == w)
  {
  }

  ghost predicate Caused(l: Line) {
    forall w :: w in l.writers ==> CauseOk(l, w)
  }

  lemma StepCaused(l: Line, e: Event)
    requires LockOk(l) && DeadlineOk(l) && Caused(l) && Enabled(l, e)
    ensures Caused(Step(l, e))
  {
    forall w | w in Step(l, e).writers ensures CauseOk(Step(l, e), w) {
      OldWriter(l, e, w);
      if Phasing(e) {
        PhaseCause(l, e, w);
      } else if e.w == w {
        OwnCause(l, e);
      } else {
        OthersCause(l, e, w);
      }
    }
  }

  lemma {:induction false} RunCaused(l: Line, es: seq<Event>, l': Line)
    requires Inv(l) && Caused(l) && Run(l, es, l')
    ensures Caused(l')
    decreases |es|
  {
    if es != [] {
      StepInv(l, es[0]);
      StepCaused(l, es[0]);
      RunCaused(Step(l, es[0]), es[1..], l');
    }
  }

  /**
   In every run: writeFrame returns an error only if the caller's context has ended or the
   connection is closing; the cancellation callback runs only for a context that has ended;
   a write whose context has a deadline is never under way without one on the socket, and
   one whose context has none and has not ended never with one.
   */
  lemma ErrorsHaveCauses(es: seq<Event>, l: Line, w: nat)
    requires Run(EMPTY_LINE, es, l) && w in l.writers
    ensures l.writers[w].st == Returned(false) ==> l.writers[w].ctxDone || !l.phase.Open?
    ensures l.writers[w].cb in {Fired, Expired, Finished} ==> l.writers[w].ctxDone
    ensures l.writers[w].timed && l.writers[w].st.Writing? ==> l.deadline != NoDeadline
    ensures !l.writers[w].timed && l.writers[w].st.Writing? && !l.writers[w].ctxDone && NetOpen(l) ==>
              l.deadline == NoDeadline
  {
    InitInv();
    RunCaused(EMPTY_LINE, es, l);
    assert CauseOk(l, w);
  }

  /** The callback's goroutine has been started. */
  predicate Started(cb: Callback) {
    cb.Fired? || cb.Expired? || cb.Finished?
  }

  predicate CallbackOn(l: Line, w: nat) {
    w in l.writers && Started(l.writers[w].cb)
  }

  lemma CallbackGoesOn(l: Line, e: Event, w: nat)
    requires LockOk(l) && Enabled(l, e) && CallbackOn(l, w)
    ensures CallbackOn(Step(l, e), w)
  {
    assert WriterOk(l, w);
  }

  lemma {:induction false} CallbackGoesOnOver(l: Line, es: seq<Event>, l': Line, w: nat)
    requires Inv(l) && CallbackOn(l, w) && Run(l, es, l')
    ensures Inv(l') && CallbackOn(l', w)
    decreases |es|
  {
    if es != [] {
      StepInv(l, es[0]);
      CallbackGoesOn(l, es[0], w);
      CallbackGoesOnOver(Step(l, es[0]), es[1..], l', w);
    }
  }

  /**
   A cancellation callback that has started runs to its end, and its writer waits for that:
   in any continuation of any run it has finished before the deadline is reset and anything
   after it is done.
   */
  lemma CallbackIsAwaited(es: seq<Event>, l: Line, fs: seq<Event>, l': Line, w: nat)
    requires Run(EMPTY_LINE, es, l) && Run(l, fs, l') && CallbackOn(l, w)
    ensures CallbackOn(l', w)
    ensures l'.writers[w].st.Writing? || l'.writers[w].st.Wrote? || l'.writers[w].st.Awaiting?
            || l'.writers[w].cb.Finished?
  {
    ReachInv(es, l);
    CallbackGoesOnOver(l, fs, l', w);
    assert WriterOk(l', w);
  }
}
