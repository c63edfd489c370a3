/**
 Why sendCmd returns what it returns, and when the reader stops.
 */
module Outcomes {
  import opened Wire
  import opened Duplex
  import opened DuplexInv
  import F = Failures
  import L = Line

  // ----- calls -----

  /** What the state must look like for a call's result. */
  predicate ResultOk(me: Endpoint, c: nat, out: Outcome) {
    match out
    case Answer(r) => Returned(me, c, true)
    case TimedOut => Returned(me, c, true) && me.out.writers[c].ctxDone
    case ConnectionClosed => Returned(me, c, true) && !me.out.phase.Open?
    case WriteFailed => Returned(me, c, false)
  }

  predicate OutcomeOk(me: Endpoint, c: nat)
    requires IsCall(me, c)
  {
    var pc := me.jobs[c].pc;
    && (pc.Waiting? ==> Returned(me, c, true))
    && (pc.Leaving? || pc.Gone? ==> ResultOk(me, c, pc.out))
  }

  lemma ReturnedStays(l: L.Line, e: L.Event, w: nat)
    requires L.Enabled(l, e) && w in l.writers && l.writers[w].st.Returned?
    ensures
      var l' := L.Step(l, e);
      && w in l'.writers && l'.writers[w].st == l.writers[w].st && (l.writers[w].ctxDone ==> l'.writers[w].ctxDone)
      && (!l.phase.Open? ==> !l'.phase.Open?)
  {
    if !L.Phasing(e) {
      WritersMoved(l, e);
    }
  }

  lemma OwnOutcome(me: Endpoint, bytes: seq<byte>, e: Event)
    requires Enabled(me, bytes, e) && OfCall(e) && !e.StartCall? && OutcomeOk(me, e.c)
    ensures IsCall(Step(me, bytes, e), e.c) && OutcomeOk(Step(me, bytes, e), e.c)
  {
  }

  /** Others leave the call where it is, or only put a response into its channel. */
  lemma OthersLeave(me: Endpoint, bytes: seq<byte>, e: Event, c: nat)
    requires Enabled(me, bytes, e) && IsCall(me, c) && (OfCall(e) && !e.StartCall? ==> e.c != c)
    ensures IsCall(Step(me, bytes, e), c) && Step(me, bytes, e).jobs[c].pc == me.jobs[c].pc
  {
  }

  lemma OthersOutcome(me: Endpoint, bytes: seq<byte>, e: Event, c: nat)
    requires Enabled(me, bytes, e) && IsCall(me, c) && OutcomeOk(me, c)
    requires OfCall(e) && !e.StartCall? ==> e.c != c
    ensures IsCall(Step(me, bytes, e), c) && OutcomeOk(Step(me, bytes, e), c)
  {
    OthersLeave(me, bytes, e, c);
    var le := OutMoves(me, bytes, e);
    if me.jobs[c].pc.Waiting? || me.jobs[c].pc.Leaving? || me.jobs[c].pc.Gone? {
      if Step(me, bytes, e).out != me.out {
        ReturnedStays(me.out, le, c);
      }
    }
  }

  lemma FreshCall(me: Endpoint, bytes: seq<byte>, e: Event, c: nat)
    requires Enabled(me, bytes, e) && IsCall(Step(me, bytes, e), c)
    ensures IsCall(me, c) || Step(me, bytes, e).jobs[c].pc.Checked?
  {
  }

  ghost predicate AllOutcomesOk(me: Endpoint) {
    (forall c :: 0 <= c < |me.jobs| && me.jobs[c].Call? ==> OutcomeOk(me, c)) && F.Caused(me.out)
  }

  lemma StepOutcomes(me: Endpoint, bytes: seq<byte>, e: Event)
    requires L.Inv(me.out) && AllOutcomesOk(me) && Enabled(me, bytes, e)
    ensures AllOutcomesOk(Step(me, bytes, e))
  {
    var me' := Step(me, bytes, e);
    forall c | 0 <= c < |me'.jobs| && me'.jobs[c].Call? ensures OutcomeOk(me', c) {
      FreshCall(me, bytes, e, c);
      if IsCall(me, c) {
        if OfCall(e) && !e.StartCall? && e.c == c {
          OwnOutcome(me, bytes, e);
        } else {
          OthersOutcome(me, bytes, e, c);
        }
      }
    }
    var le := OutMoves(me, bytes, e);
    if me'.out != me.out {
      F.StepCaused(me.out, le);
    }
  }

  // ----- the reader -----

  /** Every error reply has been written whole, or the reader is at it, or has stopped. */
  predicate RepliesOk(me: Endpoint) {
    && (forall j :: 0 <= j < |me.jobs| && me.jobs[j].Reply? ==>
          Returned(me, j, true) || (me.reader.Replying? && me.reader.job == j) || me.reader.Stopped?)
    && (me.reader.Replying? ==> me.reader.job < |me.jobs| && me.jobs[me.reader.job].Reply? && !me.reader.last)
  }

  lemma NetReplies(me: Endpoint, bytes: seq<byte>, e: Event)
    requires Enabled(me, bytes, e) && e.Net? && RepliesOk(me)
    ensures RepliesOk(Step(me, bytes, e))
  {
    forall j | 0 <= j < |me.jobs| && me.jobs[j].Reply? && Returned(me, j, true)
      ensures Returned(Step(me, bytes, e), j, true)
    {
      ReturnedStays(me.out, e.le, j);
    }
  }

  lemma RegisterReplies(me: Endpoint, bytes: seq<byte>, e: Event)
    requires Enabled(me, bytes, e) && e.Register? && RepliesOk(me)
    ensures RepliesOk(Step(me, bytes, e))
  {
  }

  lemma CallReplies(me: Endpoint, bytes: seq<byte>, e: Event)
    requires Enabled(me, bytes, e) && OfCall(e) && !e.Register? && RepliesOk(me)
    ensures RepliesOk(Step(me, bytes, e))
  {
  }

  lemma DecodeReplies(me: Endpoint, bytes: seq<byte>, e: Event)
    requires Enabled(me, bytes, e) && e.Decode? && RepliesOk(me)
    ensures RepliesOk(Step(me, bytes, e))
  {
  }

  lemma HandlerReplies(me: Endpoint, bytes: seq<byte>, e: Event)
    requires Enabled(me, bytes, e) && OfHandler(e) && !e.Decode? && RepliesOk(me)
    ensures RepliesOk(Step(me, bytes, e))
  {
  }

  lemma ReaderReplies(me: Endpoint, bytes: seq<byte>, e: Event)
    requires Enabled(me, bytes, e) && OfReader(e) && RepliesOk(me)
    ensures RepliesOk(Step(me, bytes, e))
  {
  }

  lemma SpawnReplies(me: Endpoint, j: Job)
    requires RepliesOk(me) && me.reader.Reading? && CanSpawn(me, j)
    ensures !j.Reply? ==> RepliesOk(Spawn(me, j))
    ensures j.Reply? ==> RepliesOk(Spawn(me, j).(reader := Replying(|me.jobs|, false)))
  {
  }

  lemma ReadReplies(me: Endpoint, bytes: seq<byte>, e: Event)
    requires Enabled(me, bytes, e) && e.ReadFrame? && RepliesOk(me) && !Incoming(me, bytes).BadLength?
    ensures RepliesOk(Step(me, bytes, e))
  {
    var found := Incoming(me, bytes);
    var taken := me.(consumed := me.consumed + |Framed(found.frame)|, read := me.read + 1);
    var j := ReadJob(me, found);
    if j.Some? {
      SpawnReplies(taken, j.value);
    }
  }

  lemma StepReplies(me: Endpoint, bytes: seq<byte>, e: Event)
    requires Enabled(me, bytes, e) && RepliesOk(me) && !Incoming(me, bytes).BadLength?
    ensures RepliesOk(Step(me, bytes, e))
  {
    if e.Net? { NetReplies(me, bytes, e); }
    else if e.Register? { RegisterReplies(me, bytes, e); }
    else if OfCall(e) { CallReplies(me, bytes, e); }
    else if e.Decode? { DecodeReplies(me, bytes, e); }
    else if OfHandler(e) { HandlerReplies(me, bytes, e); }
    else if OfReader(e) { ReaderReplies(me, bytes, e); }
    else { ReadReplies(me, bytes, e); }
  }

  /** Some error reply of the reader's could not be written. */
  predicate ReplyFailed(me: Endpoint) {
    exists j :: 0 <= j < |me.jobs| && me.jobs[j].Reply? && Returned(me, j, false)
  }

  lemma StopsOnlyThen(me: Endpoint, bytes: seq<byte>, e: Event)
    requires Enabled(me, bytes, e) && RepliesOk(me) && !me.reader.Stopped? && Step(me, bytes, e).reader.Stopped?
    ensures e.ReadFails? || ReplyFailed(Step(me, bytes, e))
  {
    if e.ReplyReturns? {
      var j := me.reader.job;
      assert me.jobs[j].Reply? && Returned(Step(me, bytes, e), j, false);
    }
  }

  lemma FailedReplyStays(me: Endpoint, bytes: seq<byte>, e: Event)
    requires Enabled(me, bytes, e) && ReplyFailed(me)
    ensures ReplyFailed(Step(me, bytes, e))
  {
    var j :| 0 <= j < |me.jobs| && me.jobs[j].Reply? && Returned(me, j, false);
    ReplyStays(me, bytes, e, j);
    var le := OutMoves(me, bytes, e);
    if Step(me, bytes, e).out != me.out {
      ReturnedStays(me.out, le, j);
    }
  }

  lemma ReplyStays(me: Endpoint, bytes: seq<byte>, e: Event, j: nat)
    requires Enabled(me, bytes, e) && j < |me.jobs| && me.jobs[j].Reply?
    ensures j < |Step(me, bytes, e).jobs| && Step(me, bytes, e).jobs[j].Reply?
  {
  }

  /** A length that is not legal, which no peer of this program sends, is answered, and then the reader stops. */
  lemma BadLengthStops(me: Endpoint, bytes: seq<byte>)
    requires Enabled(me, bytes, ReadFrame) && Incoming(me, bytes).BadLength?
    ensures
      var me' := Step(me, bytes, ReadFrame);
      && me'.reader == Replying(|me.jobs|, true) && me'.jobs == me.jobs + [Reply("invalid frame length")]
      && me'.read == me.read
    ensures
      forall later: Endpoint :: later.reader == Replying(|me.jobs|, true) && Enabled(later, bytes, ReplyReturns) ==>
        Step(later, bytes, ReplyReturns).reader.Stopped?
  {
  }

  predicate ReadFailed(es: seq<(Side, Event)>, side: Side) {
    (side, ReadFails) in es
  }

  // ----- over runs -----

  ghost predicate Explained(s: System, side: Side) {
    AllOutcomesOk(At(s, side)) && RepliesOk(At(s, side))
  }

  lemma StepExplained(s: System, who: Side, e: Event, side: Side)
    requires SysInv(s) && Explained(s, side) && SysEnabled(s, who, e)
    ensures Explained(SysStep(s, who, e), side)
  {
    if who == side {
      ReadsTheLog(At(s, side), At(s, Other(side)).out);
      StepOutcomes(At(s, side), At(s, Other(side)).out.bytes, e);
      StepReplies(At(s, side), At(s, Other(side)).out.bytes, e);
    }
  }

  lemma {:induction false} RunExplained(s: System, es: seq<(Side, Event)>, s': System, side: Side)
    requires SysInv(s) && Explained(s, side) && Run(s, es, s')
    ensures Explained(s', side)
    decreases |es|
  {
    if es != [] {
      StepExplained(s, es[0].0, es[0].1, side);
      StepSys(s, es[0].0, es[0].1);
      RunExplained(SysStep(s, es[0].0, es[0].1), es[1..], s', side);
    }
  }

  predicate WhyStopped(me: Endpoint, failed: bool) {
    me.reader.Stopped? ==> failed || ReplyFailed(me)
  }

  lemma StepStopped(s: System, who: Side, e: Event, side: Side, failed: bool)
    requires Explained(s, side) && WhyStopped(At(s, side), failed) && SysEnabled(s, who, e)
    ensures WhyStopped(At(SysStep(s, who, e), side), failed || (who == side && e.ReadFails?))
  {
    if who == side {
      var me, bytes := At(s, side), At(s, Other(side)).out.bytes;
      if ReplyFailed(me) {
        FailedReplyStays(me, bytes, e);
      }
      if !me.reader.Stopped? && Step(me, bytes, e).reader.Stopped? {
        StopsOnlyThen(me, bytes, e);
      }
    }
  }

  lemma FailedReadLater(es: seq<(Side, Event)>, side: Side)
    requires es != []
    ensures ReadFailed(es, side) <==> es[0] == (side, ReadFails) || ReadFailed(es[1..], side)
  {
    assert es == [es[0]] + es[1..];
  }

  lemma NextStopped(s: System, es: seq<(Side, Event)>, side: Side, failed: bool) returns (s1: System, failed': bool)
    requires SysInv(s) && Explained(s, side) && WhyStopped(At(s, side), failed)
    requires es != [] && SysEnabled(s, es[0].0, es[0].1)
    ensures s1 == SysStep(s, es[0].0, es[0].1) && SysInv(s1) && Explained(s1, side) && WhyStopped(At(s1, side), failed')
    ensures failed' || ReadFailed(es[1..], side) <==> failed || ReadFailed(es, side)
  {
    StepStopped(s, es[0].0, es[0].1, side, failed);
    StepExplained(s, es[0].0, es[0].1, side);
    StepSys(s, es[0].0, es[0].1);
    FailedReadLater(es, side);
    s1, failed' := SysStep(s, es[0].0, es[0].1), failed || (es[0].0 == side && es[0].1.ReadFails?);
  }

  lemma {:induction false} RunStopped(s: System, es: seq<(Side, Event)>, s': System, side: Side, failed: bool)
    requires SysInv(s) && Explained(s, side) && WhyStopped(At(s, side), failed) && Run(s, es, s')
    ensures WhyStopped(At(s', side), failed || ReadFailed(es, side))
    decreases |es|
  {
    if es != [] {
      var s1, failed' := NextStopped(s, es, side, failed);
      RunStopped(s1, es[1..], s', side, failed');
    }
  }

  lemma StartExplained(side: Side)
    ensures Explained(START, side)
  {
  }

  /**
   In every run sendCmd's result says what happened: a response was taken from the call's
   own channel after its command had been written whole; a timeout means that its context
   has ended, a closed connection that the connection is closing; and a failed write that
   one of the two is so.
   */
  lemma OutcomesAreHonest(es: seq<(Side, Event)>, s: System, side: Side, c: nat)
    requires Run(START, es, s) && IsCall(At(s, side), c) && At(s, side).jobs[c].pc.Gone?
    ensures
      var me := At(s, side);
      match me.jobs[c].pc.out
      case Answer(r) => Returned(me, c, true) && |me.jobs[c].inbox| == 1 && me.jobs[c].inbox[0].response == r
      case TimedOut => Returned(me, c, true) && me.out.writers[c].ctxDone
      case ConnectionClosed => Returned(me, c, true) && !me.out.phase.Open?
      case WriteFailed => Returned(me, c, false) && (me.out.writers[c].ctxDone || !me.out.phase.Open?)
  {
    var me := At(s, side);
    StartInv();
    StartExplained(side);
    ReachInv(es, s);
    RunExplained(START, es, s, side);
    assert OutcomeOk(me, c) && CallOk(me.jobs[c], At(s, Other(side)).out.log, me.read);
    if me.jobs[c].pc.out.WriteFailed? {
      assert F.CauseOk(me.out, c);
    }
  }

  /**
   The reader stops exactly because of a failed read or a reply that could not be written:
   a malformed frame alone never stops it, and it never goes on after a failed reply.
   */
  lemma ReaderStops(es: seq<(Side, Event)>, s: System, side: Side)
    requires Run(START, es, s)
    ensures At(s, side).reader.Stopped? ==> ReadFailed(es, side) || ReplyFailed(At(s, side))
    ensures forall j :: 0 <= j < |At(s, side).jobs| && At(s, side).jobs[j].Reply? && Returned(At(s, side), j, false) ==>
              At(s, side).reader.Stopped? || (At(s, side).reader.Replying? && At(s, side).reader.job == j)
  {
    StartInv();
    StartExplained(side);
    RunExplained(START, es, s, side);
    RunStopped(START, es, s, side, false);
  }

  // ----- after a close -----

  /** Which steps of an endpoint an ended connection context, or a closed socket, rules out. */
  predicate RuledOut(me: Endpoint, e: Event) {
    (!me.out.phase.Open? && e.StartCall?) || (!L.NetOpen(me.out) && e.ReadFrame?)
  }

  lemma PhaseMoves(l: L.Line, e: L.Event)
    requires L.Enabled(l, e)
    ensures !l.phase.Open? ==> !L.Step(l, e).phase.Open?
    ensures !L.NetOpen(l) ==> !L.NetOpen(L.Step(l, e))
  {
  }

  lemma EndStays(me: Endpoint, bytes: seq<byte>, e: Event)
    requires Enabled(me, bytes, e)
    ensures !RuledOut(me, e)
    ensures !me.out.phase.Open? ==> !Step(me, bytes, e).out.phase.Open?
    ensures !L.NetOpen(me.out) ==> !L.NetOpen(Step(me, bytes, e).out)
  {
    var le := OutMoves(me, bytes, e);
    if Step(me, bytes, e).out != me.out {
      PhaseMoves(me.out, le);
    }
  }

  /**
   Once a connection is closing no command is started on it any more, and once its socket
   is closed no frame is read from it, over any continuation.
   */
  lemma {:induction false} EndedMeansEnded(s: System, es: seq<(Side, Event)>, s': System, side: Side)
    requires Run(s, es, s')
    ensures !At(s, side).out.phase.Open? ==>
              !At(s', side).out.phase.Open? && forall k :: 0 <= k < |es| && es[k].0 == side ==> !es[k].1.StartCall?
    ensures !L.NetOpen(At(s, side).out) ==>
              !L.NetOpen(At(s', side).out) && forall k :: 0 <= k < |es| && es[k].0 == side ==> !es[k].1.ReadFrame?
    decreases |es|
  {
    if es != [] {
      EndedStep(s, es[0].0, es[0].1, side);
      EndedMeansEnded(SysStep(s, es[0].0, es[0].1), es[1..], s', side);
      assert forall k :: 1 <= k < |es| ==> es[k] == es[1..][k - 1];
    }
  }

  lemma EndedStep(s: System, who: Side, e: Event, side: Side)
    requires SysEnabled(s, who, e)
    ensures var s1 := SysStep(s, who, e);
            && (!At(s, side).out.phase.Open? ==> !At(s1, side).out.phase.Open? && (who == side ==> !e.StartCall?))
            && (!L.NetOpen(At(s, side).out) ==> !L.NetOpen(At(s1, side).out) && (who == side ==> !e.ReadFrame?))
  {
    if who == side {
      EndStays(At(s, side), At(s, Other(side)).out.bytes, e);
    }
  }
}
