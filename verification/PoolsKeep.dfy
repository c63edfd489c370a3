/**
 Nothing leaks from the pools: a buffer that a pool has handed out comes back, unless it
 was outgrown, is too large to keep, or the garbage collector takes it from the pool; and a
 message struct always comes back.
 */
module PoolsKeep {
  import opened Pools

  /** The call's buffer is replaced by a larger one, because it cannot hold what is read or encoded. */
  predicate Outgrows(s: State, e: Event, b: Buf)
    requires Enabled(s, e) && b < |s.cap|
  {
    match e
    case In(ReadFrame(a, length)) => s.acts[a].frame == b && s.cap[b] < length
    case Out(EncodeResponse(a, length)) => s.acts[a].body == b && s.cap[b] < length
    case Out(EncodeMessage(a, length)) => s.acts[a].data == b && s.cap[b] < length
    case _ => false
  }

  /** The call puts the buffer back. */
  predicate PutsBack(s: State, e: Event, b: Buf)
    requires Enabled(s, e)
  {
    match e
    case In(PutFrame(a)) => s.acts[a].frame == b
    case Out(PutData(a)) => s.acts[a].data == b
    case Out(PutBody(a)) => s.acts[a].body == b
    case _ => false
  }

  predicate LetsGo(s: State, e: Event, b: Buf)
    requires Enabled(s, e) && b < |s.cap|
  {
    e == Collect(b) || Outgrows(s, e, b) || (PutsBack(s, e, b) && s.cap[b] > 65536)
  }

  lemma KeptReceiving(s: State, e: Incoming, b: Buf)
    requires EnabledIn(s, e) && b < |s.cap| && !LetsGo(s, In(e), b) && e.Receive?
    ensures Owners(StepIn(s, e), b) >= Owners(s, b)
  {
    HeldBegin(s.acts, Reading(Taken(s, e.pooled)), b);
  }

  lemma KeptReading(s: State, e: Incoming, b: Buf)
    requires EnabledIn(s, e) && b < |s.cap| && !LetsGo(s, In(e), b) && (e.ReadFails? || e.ReadFrame? || e.PutFrame?)
    ensures Owners(StepIn(s, e), b) >= Owners(s, b)
  {
    HeldMove(s.acts, e.a, StepIn(s, e).acts[e.a], b);
  }

  lemma KeptDecoding(s: State, e: Incoming, b: Buf)
    requires EnabledIn(s, e) && b < |s.cap| && !LetsGo(s, In(e), b) && (e.TakeStruct? || e.Decode? || e.PutStruct?)
    ensures Owners(StepIn(s, e), b) >= Owners(s, b)
  {
    HeldMove(s.acts, e.a, StepIn(s, e).acts[e.a], b);
  }

  lemma KeptIncoming(s: State, e: Incoming, b: Buf)
    requires EnabledIn(s, e) && b < |s.cap| && !LetsGo(s, In(e), b)
    ensures Owners(StepIn(s, e), b) >= Owners(s, b)
  {
    if e.Receive? { KeptReceiving(s, e, b); }
    else if e.ReadFails? || e.ReadFrame? || e.PutFrame? { KeptReading(s, e, b); }
    else if !e.Spawn? && !e.Deliver? { KeptDecoding(s, e, b); }
  }

  lemma KeptReplying(s: State, e: Outgoing, b: Buf)
    requires EnabledOut(s, e) && b < |s.cap| && e.Reply?
    ensures Owners(StepOut(s, e), b) >= Owners(s, b)
  {
    HeldBegin(s.acts, Blank(e.source, TakenStruct(s, e.pooled)), b);
  }

  lemma KeptTaking(s: State, e: Outgoing, b: Buf)
    requires EnabledOut(s, e) && b < |s.cap| && (e.TakeBody? || e.TakeData?)
    ensures Owners(StepOut(s, e), b) >= Owners(s, b)
  {
    HeldMove(s.acts, e.a, StepOut(s, e).acts[e.a], b);
  }

  lemma KeptFinishing(s: State, e: Outgoing, b: Buf)
    requires EnabledOut(s, e) && b < |s.cap| && e.PutMessage?
    ensures Owners(StepOut(s, e), b) >= Owners(s, b)
  {
    HeldMove(s.acts, e.a, StepOut(s, e).acts[e.a], b);
  }

  lemma KeptStarting(s: State, e: Outgoing, b: Buf)
    requires EnabledOut(s, e) && b < |s.cap| && (e.Reply? || e.PutMessage? || e.TakeBody? || e.TakeData?)
    ensures Owners(StepOut(s, e), b) >= Owners(s, b)
  {
    if e.Reply? { KeptReplying(s, e, b); }
    else if e.PutMessage? { KeptFinishing(s, e, b); }
    else { KeptTaking(s, e, b); }
  }

  lemma KeptEncoding(s: State, e: Outgoing, b: Buf)
    requires EnabledOut(s, e) && b < |s.cap| && !LetsGo(s, Out(e), b) && (e.EncodeResponse? || e.EncodeMessage?)
    ensures Owners(StepOut(s, e), b) >= Owners(s, b)
  {
    HeldMove(s.acts, e.a, StepOut(s, e).acts[e.a], b);
  }

  lemma KeptPutting(s: State, e: Outgoing, b: Buf)
    requires EnabledOut(s, e) && b < |s.cap| && !LetsGo(s, Out(e), b) && (e.PutData? || e.PutBody?)
    ensures Owners(StepOut(s, e), b) >= Owners(s, b)
  {
    HeldMove(s.acts, e.a, StepOut(s, e).acts[e.a], b);
  }

  lemma StepKeeps(s: State, e: Event, b: Buf)
    requires Enabled(s, e) && b < |s.cap| && !LetsGo(s, e, b)
    ensures Owners(Step(s, e), b) >= Owners(s, b) && b < |Step(s, e).cap| && Step(s, e).cap[b] == s.cap[b]
  {
    Grows(s, e);
    match e
    case In(i) => KeptIncoming(s, i, b);
    case Out(o) =>
      if o.EncodeResponse? || o.EncodeMessage? {
        KeptEncoding(s, o, b);
      } else if o.PutData? || o.PutBody? {
        KeptPutting(s, o, b);
      } else {
        KeptStarting(s, o, b);
      }
    case Allocate(_) =>
    case Collect(_) =>
  }

  lemma StructsReceiving(s: State, e: Incoming, m: Struct)
    requires EnabledIn(s, e) && MessageStructs(s) && e.Receive?
    ensures StructOwners(StepIn(s, e), m) >= StructOwners(s, m)
  {
    HeldBegin(s.acts, Reading(Taken(s, e.pooled)), m);
  }

  lemma StructsReading(s: State, e: Incoming, m: Struct)
    requires EnabledIn(s, e) && MessageStructs(s) && (e.ReadFails? || e.ReadFrame? || e.PutFrame?)
    ensures StructOwners(StepIn(s, e), m) >= StructOwners(s, m)
  {
    HeldMove(s.acts, e.a, StepIn(s, e).acts[e.a], m);
  }

  lemma StructsDecoding(s: State, e: Incoming, m: Struct)
    requires EnabledIn(s, e) && MessageStructs(s) && (e.TakeStruct? || e.Decode?)
    ensures StructOwners(StepIn(s, e), m) >= StructOwners(s, m)
  {
    HeldMove(s.acts, e.a, StepIn(s, e).acts[e.a], m);
  }

  lemma StructsPut(s: State, e: Incoming, m: Struct)
    requires EnabledIn(s, e) && MessageStructs(s) && e.PutStruct?
    ensures StructOwners(StepIn(s, e), m) >= StructOwners(s, m)
  {
    HeldMove(s.acts, e.a, StepIn(s, e).acts[e.a], m);
    OwnStruct(s, e.a);
  }

  lemma StructsIncoming(s: State, e: Incoming, m: Struct)
    requires EnabledIn(s, e) && MessageStructs(s)
    ensures StructOwners(StepIn(s, e), m) >= StructOwners(s, m)
  {
    if e.Receive? { StructsReceiving(s, e, m); }
    else if e.PutStruct? { StructsPut(s, e, m); }
    else if e.TakeStruct? || e.Decode? { StructsDecoding(s, e, m); }
    else if !e.Spawn? && !e.Deliver? { StructsReading(s, e, m); }
  }

  lemma StructsReplying(s: State, e: Outgoing, m: Struct)
    requires EnabledOut(s, e) && MessageStructs(s) && e.Reply?
    ensures StructOwners(StepOut(s, e), m) >= StructOwners(s, m)
  {
    HeldBegin(s.acts, Blank(e.source, TakenStruct(s, e.pooled)), m);
  }

  lemma StructsTaking(s: State, e: Outgoing, m: Struct)
    requires EnabledOut(s, e) && MessageStructs(s) && (e.TakeBody? || e.TakeData?)
    ensures StructOwners(StepOut(s, e), m) >= StructOwners(s, m)
  {
    HeldMove(s.acts, e.a, StepOut(s, e).acts[e.a], m);
  }

  lemma StructsEncoding(s: State, e: Outgoing, m: Struct)
    requires EnabledOut(s, e) && MessageStructs(s) && (e.EncodeResponse? || e.EncodeMessage?)
    ensures StructOwners(StepOut(s, e), m) >= StructOwners(s, m)
  {
    HeldMove(s.acts, e.a, StepOut(s, e).acts[e.a], m);
  }

  lemma StructsPutting(s: State, e: Outgoing, m: Struct)
    requires EnabledOut(s, e) && MessageStructs(s) && (e.PutData? || e.PutBody?)
    ensures StructOwners(StepOut(s, e), m) >= StructOwners(s, m)
  {
    HeldMove(s.acts, e.a, StepOut(s, e).acts[e.a], m);
  }

  lemma StructsFinishing(s: State, e: Outgoing, m: Struct)
    requires EnabledOut(s, e) && MessageStructs(s) && e.PutMessage?
    ensures StructOwners(StepOut(s, e), m) >= StructOwners(s, m)
  {
    HeldMove(s.acts, e.a, StepOut(s, e).acts[e.a], m);
    OwnStruct(s, e.a);
  }

  lemma StructsOutgoing(s: State, e: Outgoing, m: Struct)
    requires EnabledOut(s, e) && MessageStructs(s)
    ensures StructOwners(StepOut(s, e), m) >= StructOwners(s, m)
  {
    if e.Reply? { StructsReplying(s, e, m); }
    else if e.PutMessage? { StructsFinishing(s, e, m); }
    else if e.PutData? || e.PutBody? { StructsPutting(s, e, m); }
    else if e.TakeBody? || e.TakeData? { StructsTaking(s, e, m); }
    else { StructsEncoding(s, e, m); }
  }

  lemma StepKeepsStruct(s: State, e: Event, m: Struct)
    requires Enabled(s, e) && MessageStructs(s)
    ensures StructOwners(Step(s, e), m) >= StructOwners(s, m)
  {
    match e
    case In(i) => StructsIncoming(s, i, m);
    case Out(o) => StructsOutgoing(s, o, m);
    case Allocate(_) =>
    case Collect(_) =>
  }

  /** No step of the run lets go of the buffer. */
  ghost predicate Keeps(s: State, es: seq<Event>, b: Buf)
    decreases |es|
  {
    es != [] && Enabled(s, es[0]) && b < |s.cap| ==> !LetsGo(s, es[0], b) && Keeps(Step(s, es[0]), es[1..], b)
  }

  lemma {:induction false} RunKeeps(s: State, es: seq<Event>, s': State, b: Buf)
    requires Inv(s) && Run(s, es, s') && b < |s.cap|
    ensures Keeps(s, es, b) ==> Owners(s', b) >= Owners(s, b)
    ensures forall m: Struct :: StructOwners(s', m) >= StructOwners(s, m)
    decreases |es|
  {
    if es != [] {
      StepBuffers(s, es[0]);
      StepMessageStructs(s, es[0]);
      Grows(s, es[0]);
      RunKeeps(Step(s, es[0]), es[1..], s', b);
      if Keeps(s, es, b) {
        StepKeeps(s, es[0], b);
      }
      forall m: Struct ensures StructOwners(s', m) >= StructOwners(s, m) {
        StepKeepsStruct(s, es[0], m);
      }
    }
  }

  lemma {:induction false} NothingHeld(acts: seq<Activation>, x: nat)
    requires forall a :: 0 <= a < |acts| ==> acts[a].Finished?
    ensures Held(acts, x) == 0 && HeldStruct(acts, x) == 0
  {
    if acts != [] {
      NothingHeld(acts[1..], x);
    }
  }

  /**
   Over every interleaving: a buffer that is owned stays owned exactly once, as long as it
   is not outgrown, put back at more than 64 KiB, or collected; and a message struct stays
   owned whatever happens.  So when all calls have returned they are back in the pools.
   */
  lemma NothingLeaks(es: seq<Event>, s: State, fs: seq<Event>, s': State, b: Buf, m: Struct)
    requires Run(EMPTY, es, s) && Run(s, fs, s')
    requires Owners(s, b) == 1 && Keeps(s, fs, b) && StructOwners(s, m) == 1
    ensures Owners(s', b) == 1 && StructOwners(s', m) == 1
    ensures (forall a :: 0 <= a < |s'.acts| ==> s'.acts[a].Finished?) ==>
              (b in s'.request || b in s'.response) && m in s'.messages
  {
    assert Inv(EMPTY);
    RunInv(EMPTY, es, s);
    RunInv(s, fs, s');
    assert Owners(s, b) <= (if b < |s.cap| then 1 else 0);
    RunKeeps(s, fs, s', b);
    assert Owners(s', b) <= 1 && StructOwners(s', m) <= 1;
    if forall a :: 0 <= a < |s'.acts| ==> s'.acts[a].Finished? {
      NothingHeld(s'.acts, b);
      NothingHeld(s'.acts, m);
    }
  }

  /**
   The two kinds of buffers never mix: what a call takes from one pool goes back to that
   pool, unless it is larger than 64 KiB, and the other pool is left alone.
   */
  lemma EachToItsPool(s: State, a: nat)
    requires Inv(s) && a < |s.acts|
    ensures s.acts[a].Leaving? ==> s.acts[a].frame < |s.cap|
    ensures s.acts[a].Writing? ==> s.acts[a].data < |s.cap|
    ensures s.acts[a].Undone? ==> s.acts[a].body < |s.cap|
    ensures s.acts[a].Leaving? && s.cap[s.acts[a].frame] <= 65536 ==>
              var s' := Step(s, In(PutFrame(a)));
              s'.request == s.request + multiset{s.acts[a].frame} && s'.response == s.response
    ensures s.acts[a].Writing? && s.cap[s.acts[a].data] <= 65536 ==>
              var s' := Step(s, Out(PutData(a)));
              s'.response == s.response + multiset{s.acts[a].data} && s'.request == s.request
    ensures s.acts[a].Undone? && s.cap[s.acts[a].body] <= 65536 ==>
              var s' := Step(s, Out(PutBody(a)));
              s'.response == s.response + multiset{s.acts[a].body} && s'.request == s.request
    ensures forall pooled :: EnabledIn(s, Receive(pooled)) ==>
              StepIn(s, Receive(pooled)).response == s.response
    ensures forall pooled :: EnabledOut(s, TakeBody(a, pooled)) ==>
              StepOut(s, TakeBody(a, pooled)).request == s.request
    ensures forall pooled :: EnabledOut(s, TakeData(a, pooled)) ==>
              StepOut(s, TakeData(a, pooled)).request == s.request
  {
    forall b: Buf ensures Uses(s.acts[a], b) > 0 ==> b < |s.cap| {
      HeldAtLeast(s.acts, a, b);
      assert Owners(s, b) <= if b < |s.cap| then 1 else 0;
    }
    assert s.acts[a].Leaving? ==> Uses(s.acts[a], s.acts[a].frame) > 0;
    assert s.acts[a].Writing? ==> Uses(s.acts[a], s.acts[a].data) > 0;
    assert s.acts[a].Undone? ==> Uses(s.acts[a], s.acts[a].body) > 0;
  }
}
