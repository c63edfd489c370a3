/**
 Runs in which nobody injects a malformed frame.  Every frame in them is a command or a
 response that decodes, so nobody sends an error reply, and the correlation of responses
 holds for one command more than it does otherwise.
 */
module WellFormed {
  import opened Wire
  import opened Duplex
  import opened DuplexInv
  import opened Correlation
  import L = Line

  predicate NoInjections(es: seq<(Side, Event)>) {
    forall k :: 0 <= k < |es| ==> !es[k].1.Inject?
  }

  /** What the receiver makes of the frame is a command it understands or a response. */
  predicate Understood(frame: seq<byte>) {
    match Classify(frame)
    case Malformed(_) => false
    case RunCommand(body) => DecodeCommand(body).Ok?
    case GotResponse(_) => true
  }

  lemma CleanFrame(peer: Endpoint, src: nat)
    requires L.Inv(peer.out) && WritersOk(peer) && Clean(peer.jobs) && src < |peer.out.log|
    ensures Understood(peer.out.log[src].frame)
  {
    var j := peer.jobs[peer.out.log[src].writer];
    assert L.WriterOk(peer.out, peer.out.log[src].writer);
    assert JobFrame(j) == peer.out.log[src].frame;
    if j.Call? {
      CommandArrives(CallCommand(j));
    } else {
      ResponseArrives(j.hpc.response);
    }
  }

  lemma CallClean(me: Endpoint, bytes: seq<byte>, e: Event)
    requires Enabled(me, bytes, e) && (OfCall(e) || OfReader(e) || e.Net?) && Clean(me.jobs)
    ensures Clean(Step(me, bytes, e).jobs)
  {
  }

  lemma ReadClean(me: Endpoint, bytes: seq<byte>, e: Event, log: seq<L.Packet>)
    requires Enabled(me, bytes, e) && e.ReadFrame? && Clean(me.jobs) && Faithful(me, bytes, log)
    requires me.read < |log| ==> Understood(log[me.read].frame)
    ensures Clean(Step(me, bytes, e).jobs)
  {
  }

  lemma ExecuteClean(me: Endpoint, bytes: seq<byte>, e: Event)
    requires Enabled(me, bytes, e) && e.Execute? && Clean(me.jobs)
    ensures Clean(Step(me, bytes, e).jobs)
  {
  }

  lemma DecodeClean(me: Endpoint, bytes: seq<byte>, e: Event, log: seq<L.Packet>)
    requires Enabled(me, bytes, e) && e.Decode? && Clean(me.jobs) && HandlersOk(me.jobs, log, me.read)
    requires forall i :: 0 <= i < |log| ==> Understood(log[i].frame)
    ensures Clean(Step(me, bytes, e).jobs)
  {
    assert HandlerOk(me.jobs[e.h], log, me.read);
    assert Understood(log[me.jobs[e.h].src].frame);
  }

  lemma StepClean(me: Endpoint, peer: Endpoint, e: Event)
    requires L.Inv(peer.out) && WritersOk(peer) && LocalInv(me, peer.out.log)
    requires Clean(me.jobs) && Clean(peer.jobs) && Enabled(me, peer.out.bytes, e) && !e.Inject?
    ensures Clean(Step(me, peer.out.bytes, e).jobs)
  {
    ReadsTheLog(me, peer.out);
    forall i | 0 <= i < |peer.out.log| ensures Understood(peer.out.log[i].frame) {
      CleanFrame(peer, i);
    }
    if e.ReadFrame? { ReadClean(me, peer.out.bytes, e, peer.out.log); }
    else if e.Decode? { DecodeClean(me, peer.out.bytes, e, peer.out.log); }
    else if e.Execute? { ExecuteClean(me, peer.out.bytes, e); }
    else { CallClean(me, peer.out.bytes, e); }
  }

  predicate AllClean(s: System) {
    Clean(s.left.jobs) && Clean(s.right.jobs)
  }

  lemma SysStepClean(s: System, side: Side, e: Event)
    requires SysInv(s) && AllClean(s) && SysEnabled(s, side, e) && !e.Inject?
    ensures SysInv(SysStep(s, side, e)) && AllClean(SysStep(s, side, e))
  {
    StepSys(s, side, e);
    StepClean(At(s, side), At(s, Other(side)), e);
  }

  lemma NoneLater(es: seq<(Side, Event)>)
    requires NoInjections(es) && es != []
    ensures !es[0].1.Inject? && NoInjections(es[1..])
  {
    assert forall k :: 0 <= k < |es[1..]| ==> es[1..][k] == es[k + 1];
  }

  lemma {:induction false} RunClean(s: System, es: seq<(Side, Event)>, s': System)
    requires SysInv(s) && AllClean(s) && Run(s, es, s') && NoInjections(es)
    ensures AllClean(s')
    decreases |es|
  {
    if es != [] {
      NoneLater(es);
      SysStepClean(s, es[0].0, es[0].1);
      RunClean(SysStep(s, es[0].0, es[0].1), es[1..], s');
    }
  }

  /** As long as nobody injects a malformed frame, no error reply is ever written. */
  lemma NoErrorReplies(es: seq<(Side, Event)>, s: System)
    requires Run(START, es, s) && NoInjections(es)
    ensures AllClean(s)
  {
    StartInv();
    RunClean(START, es, s);
  }

  /**
   And up to and including 2^32 commands the response sendCmd returns is the one the peer's
   Execute produced for exactly that command.
   */
  lemma CleanAnswersAreGenuine(es: seq<(Side, Event)>, s: System, side: Side, c: nat, r: Response)
    returns (h: nat, i: nat, k: nat)
    requires Run(START, es, s) && NoInjections(es) && Registrations(es, side) <= TWO32
    requires IsCall(At(s, side), c) && At(s, side).jobs[c].pc == Gone(Answer(r))
    ensures ExecutedFor(At(s, side), At(s, Other(side)), c, h, r)
    ensures r.reqId == IdOf(At(s, side).jobs[c].tick)
    ensures AnsweredBy(es, side, c, h, r, i, k)
  {
    ReachInv(es, s);
    NoErrorReplies(es, s);
    CounterCountsCommands(es, s, side);
    h := AnswerBelongs(At(s, side), At(s, Other(side)), c, r);
    i, k := AnswerInHistory(es, s, side, c, h, r);
  }

  // ----- an injected frame stays visible -----

  predicate SomeForeign(jobs: seq<Job>) {
    exists i :: 0 <= i < |jobs| && jobs[i].Foreign?
  }

  lemma ForeignStays(me: Endpoint, bytes: seq<byte>, e: Event)
    requires Enabled(me, bytes, e) && SomeForeign(me.jobs)
    ensures SomeForeign(Step(me, bytes, e).jobs)
  {
    var i :| 0 <= i < |me.jobs| && me.jobs[i].Foreign?;
    OthersStay(me, bytes, e, i);
  }

  lemma OthersStay(me: Endpoint, bytes: seq<byte>, e: Event, i: nat)
    requires Enabled(me, bytes, e) && i < |me.jobs| && me.jobs[i].Foreign?
    ensures var me' := Step(me, bytes, e); i < |me'.jobs| && me'.jobs[i].Foreign?
  {
  }

  lemma InjectAdds(me: Endpoint, bytes: seq<byte>, e: Event)
    requires Enabled(me, bytes, e) && e.Inject?
    ensures SomeForeign(Step(me, bytes, e).jobs)
  {
    assert Step(me, bytes, e).jobs[|me.jobs|] == Foreign(e.frame);
  }

  /** A run that ends without a job for an injected frame had no injection. */
  lemma {:induction false} InjectionsLeaveJobs(s: System, es: seq<(Side, Event)>, s': System)
    requires Run(s, es, s')
    ensures !SomeForeign(s'.left.jobs) && !SomeForeign(s'.right.jobs) ==>
              NoInjections(es) && !SomeForeign(s.left.jobs) && !SomeForeign(s.right.jobs)
    decreases |es|
  {
    if es != [] {
      var me, bytes := At(s, es[0].0), At(s, Other(es[0].0)).out.bytes;
      InjectionsLeaveJobs(SysStep(s, es[0].0, es[0].1), es[1..], s');
      if SomeForeign(me.jobs) {
        ForeignStays(me, bytes, es[0].1);
      }
      if es[0].1.Inject? {
        InjectAdds(me, bytes, es[0].1);
      }
      assert forall k :: 1 <= k < |es| ==> es[k] == es[1..][k - 1];
    }
  }
}
