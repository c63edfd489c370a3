/**
 What the state of the two peers says about the events that led to it: which command a call
 was started with, and what a handler's Execute was called with and returned.
 */
module History {
  import opened Wire
  import opened Duplex
  import opened DuplexInv
  import L = Line

  /** The i-th event starts the call that becomes job c, with this command ID and payload. */
  ghost predicate StartedAt(es: seq<(Side, Event)>, i: nat, side: Side, c: nat, id: uint16, payload: seq<byte>) {
    && i < |es| && es[i] == (side, StartCall(id, payload))
    && exists t :: Run(START, es[..i], t) && |At(t, side).jobs| == c
  }

  /** The k-th event is the return of the Execute call that handler h made with this command. */
  predicate ExecutedAt(es: seq<(Side, Event)>, k: nat, side: Side, h: nat, cmd: Command, result: Response) {
    k < |es| && es[k] == (side, Execute(h, cmd, result))
  }

  // ----- calls -----

  predicate SameCall(j: Job, j': Job) {
    j.Call? <==> j'.Call? && (j.Call? ==> j'.id == j.id && j'.payload == j.payload)
  }

  lemma CallStaysCalls(me: Endpoint, bytes: seq<byte>, e: Event, c: nat)
    requires Enabled(me, bytes, e) && OfCall(e) && c < |me.jobs|
    ensures c < |Step(me, bytes, e).jobs| && SameCall(me.jobs[c], Step(me, bytes, e).jobs[c])
  {
  }

  lemma CallStaysReader(me: Endpoint, bytes: seq<byte>, e: Event, c: nat)
    requires Enabled(me, bytes, e) && (OfReader(e) || e.ReadFrame?) && c < |me.jobs|
    ensures c < |Step(me, bytes, e).jobs| && SameCall(me.jobs[c], Step(me, bytes, e).jobs[c])
  {
  }

  lemma CallStays(me: Endpoint, bytes: seq<byte>, e: Event, c: nat)
    requires Enabled(me, bytes, e) && c < |me.jobs|
    ensures c < |Step(me, bytes, e).jobs| && SameCall(me.jobs[c], Step(me, bytes, e).jobs[c])
  {
    if OfCall(e) { CallStaysCalls(me, bytes, e, c); }
    else if OfReader(e) || e.ReadFrame? { CallStaysReader(me, bytes, e, c); }
  }

  lemma NewCall(me: Endpoint, bytes: seq<byte>, e: Event, c: nat)
    requires Enabled(me, bytes, e) && IsCall(Step(me, bytes, e), c) && c >= |me.jobs|
    ensures var j := Step(me, bytes, e).jobs[c]; c == |me.jobs| && e == StartCall(j.id, j.payload)
  {
  }

  lemma SysCallStays(s: System, who: Side, e: Event, side: Side, c: nat)
    requires SysEnabled(s, who, e) && c < |At(s, side).jobs|
    ensures var s1 := SysStep(s, who, e);
            c < |At(s1, side).jobs| && SameCall(At(s, side).jobs[c], At(s1, side).jobs[c])
  {
    if who == side {
      CallStays(At(s, side), At(s, Other(side)).out.bytes, e, c);
    }
  }

  lemma {:induction false} RunCallStays(s: System, es: seq<(Side, Event)>, s': System, side: Side, c: nat)
    requires Run(s, es, s') && c < |At(s, side).jobs|
    ensures c < |At(s', side).jobs| && SameCall(At(s, side).jobs[c], At(s', side).jobs[c])
    decreases |es|
  {
    if es != [] {
      SysCallStays(s, es[0].0, es[0].1, side, c);
      RunCallStays(SysStep(s, es[0].0, es[0].1), es[1..], s', side, c);
    }
  }

  lemma SysNewCall(s: System, who: Side, e: Event, side: Side, c: nat)
    requires SysEnabled(s, who, e) && c >= |At(s, side).jobs| && IsCall(At(SysStep(s, who, e), side), c)
    ensures var j := At(SysStep(s, who, e), side).jobs[c];
            who == side && c == |At(s, side).jobs| && e == StartCall(j.id, j.payload)
  {
    if who == side {
      NewCall(At(s, side), At(s, Other(side)).out.bytes, e, c);
    }
  }

  lemma EarlierRun(s: System, es: seq<(Side, Event)>, i: nat, t: System)
    requires es != [] && i < |es[1..]| && SysEnabled(s, es[0].0, es[0].1)
    requires Run(SysStep(s, es[0].0, es[0].1), es[1..][..i], t)
    ensures Run(s, es[..i + 1], t)
  {
    assert es[..i + 1][1..] == es[1..][..i] && es[..i + 1][0] == es[0];
  }

  /** Every call goes back to one event. */
  lemma {:induction false} CallOrigin(s: System, es: seq<(Side, Event)>, s': System, side: Side, c: nat)
    returns (i: nat, t: System)
    requires Run(s, es, s') && IsCall(At(s', side), c) && c >= |At(s, side).jobs|
    ensures var j := At(s', side).jobs[c]; i < |es| && es[i] == (side, StartCall(j.id, j.payload))
    ensures Run(s, es[..i], t) && |At(t, side).jobs| == c
    decreases |es|
  {
    var s1 := SysStep(s, es[0].0, es[0].1);
    if c >= |At(s1, side).jobs| {
      i, t := CallOrigin(s1, es[1..], s', side, c);
      EarlierRun(s, es, i, t);
      i := i + 1;
    } else {
      RunCallStays(s1, es[1..], s', side, c);
      SysNewCall(s, es[0].0, es[0].1, side, c);
      i, t := 0, s;
    }
  }

  // ----- handlers -----

  predicate Answers(me: Endpoint, h: nat, cmd: Command, r: Response) {
    IsHandler(me, h) && me.jobs[h].hpc == Answering(cmd, r)
  }

  lemma AnswerByReader(me: Endpoint, bytes: seq<byte>, e: Event, h: nat, cmd: Command, r: Response)
    requires Enabled(me, bytes, e) && (OfReader(e) || e.ReadFrame?) && Answers(Step(me, bytes, e), h, cmd, r)
    ensures Answers(me, h, cmd, r)
  {
  }

  /** Only the return of Execute gives a handler its answer: the result, under the command's ID. */
  lemma AnswerBefore(me: Endpoint, bytes: seq<byte>, e: Event, h: nat, cmd: Command, r: Response)
    requires Enabled(me, bytes, e) && Answers(Step(me, bytes, e), h, cmd, r) && !Answers(me, h, cmd, r)
    ensures e.Execute? && e.h == h && e.cmd == cmd
    ensures r.reqId == cmd.reqId && r.code == e.result.code && r.payload == e.result.payload
  {
    if OfReader(e) || e.ReadFrame? { AnswerByReader(me, bytes, e, h, cmd, r); }
  }

  lemma SysAnswerBefore(s: System, who: Side, e: Event, side: Side, h: nat, cmd: Command, r: Response)
    requires SysEnabled(s, who, e)
    requires Answers(At(SysStep(s, who, e), side), h, cmd, r) && !Answers(At(s, side), h, cmd, r)
    ensures who == side && e.Execute? && e.h == h && e.cmd == cmd
    ensures r.reqId == cmd.reqId && r.code == e.result.code && r.payload == e.result.payload
  {
    if who == side {
      AnswerBefore(At(s, side), At(s, Other(side)).out.bytes, e, h, cmd, r);
    }
  }

  lemma {:induction false} AnswerOrigin(s: System, es: seq<(Side, Event)>, s': System, side: Side,
                                        h: nat, cmd: Command, r: Response)
    returns (k: nat, result: Response)
    requires Run(s, es, s') && Answers(At(s', side), h, cmd, r) && !Answers(At(s, side), h, cmd, r)
    ensures ExecutedAt(es, k, side, h, cmd, result)
    ensures r.reqId == cmd.reqId && r.code == result.code && r.payload == result.payload
    decreases |es|
  {
    var s1 := SysStep(s, es[0].0, es[0].1);
    if Answers(At(s1, side), h, cmd, r) {
      SysAnswerBefore(s, es[0].0, es[0].1, side, h, cmd, r);
      k, result := 0, es[0].1.result;
    } else {
      k, result := AnswerOrigin(s1, es[1..], s', side, h, cmd, r);
      k := k + 1;
    }
  }
}
