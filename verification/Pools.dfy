/**
 Ownership of pooled buffers and message structs, over every interleaving of
 handleMessage and writeResponse calls on all goroutines.

 A buffer is an array with a capacity; a message struct has a payload field that
 points into some buffer.  The pools are multisets, so that a buffer put twice would
 really be there twice.
 */
module Pools {
  import opened Runs

  type Buf = nat   // an allocated array
  type Struct = nat  // an allocated Message

  const KEEP_LIMIT := 64 * 1024

  /** One call of handleMessage or writeResponse, and what its local variables hold. */
  datatype Activation =
    | Reading(frame: Buf)                           // handleMessage, before ReadFrameInto has returned
    | Received(frame: Buf)                          // frameBuf = frame
    | Decoding(frame: Buf, msg: Struct)             // has a message struct
    | Decoded(frame: Buf, msg: Struct)              // its payload points into the frame
    | Leaving(frame: Buf)                           // message struct put back, or never taken
    | Blank(source: Buf, msg: Struct)               // writeResponse for a response whose payload is in `source`
    | Encoding(source: Buf, msg: Struct, body: Buf) // has the first response buffer
    | Wrapping(msg: Struct, body: Buf)              // payload encoded, msg.Payload = payloadBuf
    | Framing(msg: Struct, body: Buf, data: Buf)    // has the second response buffer
    | Writing(msg: Struct, body: Buf, data: Buf)    // message encoded, writeFrame under way
    | Undone(msg: Struct, body: Buf)                // second buffer put back
    | Emptied(msg: Struct)                          // both buffers put back
    | Finished

  datatype State = State(
    cap: seq<nat>,                 // capacity of each array ever allocated
    request: multiset<Buf>,        // requestBufferPool
    response: multiset<Buf>,       // responseBufferPool
    payload: seq<Option<Buf>>,     // Payload of each message struct ever allocated
    messages: multiset<Struct>,    // messagePool
    acts: seq<Activation>,
    outside: set<Buf>)             // arrays that handlers, senders and spawned commands can reach

  const EMPTY := State([], multiset{}, multiset{}, [], multiset{}, [], {})

  /** The steps of a handleMessage call. */
  datatype Incoming =
    | Receive(pooled: Option<Buf>)               // a new call takes a request buffer, or gets a new one
    | ReadFails(a: nat)
    | ReadFrame(a: nat, length: nat)
    | TakeStruct(a: nat, pooled: Option<Struct>)
    | Decode(a: nat)                             // succeeds; on failure PutStruct is next
    | Spawn(a: nat, length: nat)                 // clone the payload for handleCommand
    | Deliver(a: nat, length: nat)               // clone the payload for the waiting sender
    | PutStruct(a: nat)
    | PutFrame(a: nat)

  /** The steps of a writeResponse call. */
  datatype Outgoing =
    | Reply(source: Buf, pooled: Option<Struct>) // a new call takes a message struct, or gets a new one
    | TakeBody(a: nat, pooled: Option<Buf>)
    | EncodeResponse(a: nat, length: nat)
    | TakeData(a: nat, pooled: Option<Buf>)
    | EncodeMessage(a: nat, length: nat)
    | PutData(a: nat)
    | PutBody(a: nat)
    | PutMessage(a: nat)

  datatype Event =
    | In(incoming: Incoming)
    | Out(outgoing: Outgoing)
    | Allocate(length: nat) // some array of the program's own
    | Collect(b: Buf)       // a pool lets go of a buffer

  // ----- the pool operations of object_pool.go, and the encoders' and reader's use of a buffer -----

  predicate MayTake(pool: multiset<Buf>, pooled: Option<Buf>) {
    pooled.Some? ==> pooled.value in pool
  }

  function Taken(s: State, pooled: Option<Buf>): Buf {
    if pooled.Some? then pooled.value else |s.cap|
  }

  /** Get: a buffer of the pool, or a new one of capacity 1024. */
  function TakeRequest(s: State, pooled: Option<Buf>): State {
    if pooled.Some? then s.(request := s.request - multiset{pooled.value}) else s.(cap := s.cap + [1024])
  }

  function TakeResponse(s: State, pooled: Option<Buf>): State {
    if pooled.Some? then s.(response := s.response - multiset{pooled.value}) else s.(cap := s.cap + [1024])
  }

  /** Put: buffers above the limit are left to the garbage collector. */
  function GiveRequest(s: State, b: Buf): State {
    if b < |s.cap| && s.cap[b] <= KEEP_LIMIT then s.(request := s.request + multiset{b}) else s
  }

  function GiveResponse(s: State, b: Buf): State {
    if b < |s.cap| && s.cap[b] <= KEEP_LIMIT then s.(response := s.response + multiset{b}) else s
  }

  predicate Fits(s: State, b: Buf, length: nat) {
    b < |s.cap| && s.cap[b] >= length
  }

  /** The buffer that a read or an encoding of `length` bytes into `b` returns. */
  function Resized(s: State, b: Buf, length: nat): Buf {
    if Fits(s, b, length) then b else |s.cap|
  }

  function Grow(s: State, b: Buf, length: nat): State {
    if Fits(s, b, length) then s else s.(cap := s.cap + [length])
  }

  function TakeMessage(s: State, pooled: Option<Struct>): State {
    if pooled.Some? then s.(messages := s.messages - multiset{pooled.value}) else s.(payload := s.payload + [None])
  }

  function TakenStruct(s: State, pooled: Option<Struct>): Struct {
    if pooled.Some? then pooled.value else |s.payload|
  }

  /** PutMessageToPool clears the fields first. */
  function GiveMessage(s: State, m: Struct): State {
    if m < |s.payload| then s.(payload := s.payload[m := None], messages := s.messages + multiset{m}) else s
  }

  function Point(s: State, m: Struct, b: Buf): State {
    if m < |s.payload| then s.(payload := s.payload[m := Some(b)]) else s
  }

  /** bytes.Clone: a new array, which the rest of the program gets to see. */
  function Clone(s: State, length: nat): State {
    s.(cap := s.cap + [length], outside := s.outside + {|s.cap|})
  }

  predicate At(s: State, a: nat) {
    a < |s.acts|
  }

  function Move(s: State, a: nat, act: Activation): State
    requires At(s, a)
  {
    s.(acts := s.acts[a := act])
  }

  function Begin(s: State, act: Activation): State {
    s.(acts := s.acts + [act])
  }

  predicate EnabledIn(s: State, e: Incoming) {
    match e
    case Receive(pooled) => MayTake(s.request, pooled)
    case ReadFails(a) => At(s, a) && s.acts[a].Reading?
    case ReadFrame(a, _) => At(s, a) && s.acts[a].Reading?
    case TakeStruct(a, pooled) => At(s, a) && s.acts[a].Received? && MayTake(s.messages, pooled)
    case Decode(a) => At(s, a) && s.acts[a].Decoding?
    case Spawn(a, _) => At(s, a) && s.acts[a].Decoded?
    case Deliver(a, _) => At(s, a) && s.acts[a].Decoded?
    case PutStruct(a) => At(s, a) && (s.acts[a].Decoding? || s.acts[a].Decoded?)
    case PutFrame(a) => At(s, a) && s.acts[a].Leaving?
  }

  function StepIn(s: State, e: Incoming): State
    requires EnabledIn(s, e)
  {
    match e
    case Receive(pooled) => Begin(TakeRequest(s, pooled), Reading(Taken(s, pooled)))
    case ReadFails(a) => Move(s, a, Leaving(s.acts[a].frame))
    case ReadFrame(a, length) =>
      Move(Grow(s, s.acts[a].frame, length), a, Received(Resized(s, s.acts[a].frame, length)))
    case TakeStruct(a, pooled) =>
      Move(TakeMessage(s, pooled), a, Decoding(s.acts[a].frame, TakenStruct(s, pooled)))
    case Decode(a) => Move(Point(s, s.acts[a].msg, s.acts[a].frame), a, Decoded(s.acts[a].frame, s.acts[a].msg))
    case Spawn(a, length) => Clone(s, length)
    case Deliver(a, length) => Clone(s, length)
    case PutStruct(a) => Move(GiveMessage(s, s.acts[a].msg), a, Leaving(s.acts[a].frame))
    case PutFrame(a) => Move(GiveRequest(s, s.acts[a].frame), a, Finished)
  }

  predicate EnabledOut(s: State, e: Outgoing) {
    match e
    case Reply(source, pooled) => source in s.outside && MayTake(s.messages, pooled)
    case TakeBody(a, pooled) => At(s, a) && s.acts[a].Blank? && MayTake(s.response, pooled)
    case EncodeResponse(a, _) => At(s, a) && s.acts[a].Encoding?
    case TakeData(a, pooled) => At(s, a) && s.acts[a].Wrapping? && MayTake(s.response, pooled)
    case EncodeMessage(a, _) => At(s, a) && s.acts[a].Framing?
    case PutData(a) => At(s, a) && s.acts[a].Writing?
    case PutBody(a) => At(s, a) && s.acts[a].Undone?
    case PutMessage(a) => At(s, a) && s.acts[a].Emptied?
  }

  function StepOut(s: State, e: Outgoing): State
    requires EnabledOut(s, e)
  {
    match e
    case Reply(source, pooled) => Begin(TakeMessage(s, pooled), Blank(source, TakenStruct(s, pooled)))
    case TakeBody(a, pooled) =>
      Move(TakeResponse(s, pooled), a, Encoding(s.acts[a].source, s.acts[a].msg, Taken(s, pooled)))
    case EncodeResponse(a, length) =>
      var body := Resized(s, s.acts[a].body, length);
      Move(Point(Grow(s, s.acts[a].body, length), s.acts[a].msg, body), a, Wrapping(s.acts[a].msg, body))
    case TakeData(a, pooled) =>
      Move(TakeResponse(s, pooled), a, Framing(s.acts[a].msg, s.acts[a].body, Taken(s, pooled)))
    case EncodeMessage(a, length) =>
      Move(Grow(s, s.acts[a].data, length), a,
           Writing(s.acts[a].msg, s.acts[a].body, Resized(s, s.acts[a].data, length)))
    case PutData(a) => Move(GiveResponse(s, s.acts[a].data), a, Undone(s.acts[a].msg, s.acts[a].body))
    case PutBody(a) => Move(GiveResponse(s, s.acts[a].body), a, Emptied(s.acts[a].msg))
    case PutMessage(a) => Move(GiveMessage(s, s.acts[a].msg), a, Finished)
  }

  predicate Enabled(s: State, e: Event) {
    match e
    case In(i) => EnabledIn(s, i)
    case Out(o) => EnabledOut(s, o)
    case Allocate(_) => true
    case Collect(b) => b in s.request || b in s.response
  }

  function Step(s: State, e: Event): State
    requires Enabled(s, e)
  {
    match e
    case In(i) => StepIn(s, i)
    case Out(o) => StepOut(s, o)
    case Allocate(length) => Clone(s, length)
    case Collect(b) =>
      if b in s.request then s.(request := s.request - multiset{b}) else s.(response := s.response - multiset{b})
  }

  ghost predicate Run(s: State, es: seq<Event>, s': State)
    decreases |es|
  {
    if es == [] then s == s'
    else Enabled(s, es[0]) && Run(Step(s, es[0]), es[1..], s')
  }

  // ----- who owns what -----

  /** How often a call will still put back, or let go of, array b. */
  function Uses(act: Activation, b: Buf): nat {
    if act.Reading? || act.Received? || act.Decoding? || act.Decoded? || act.Leaving? then
      if act.frame == b then 1 else 0
    else if act.Encoding? || act.Wrapping? || act.Undone? then
      if act.body == b then 1 else 0
    else if act.Framing? || act.Writing? then
      (if act.body == b then 1 else 0) + (if act.data == b then 1 else 0)
    else 0
  }

  predicate HasStruct(act: Activation) {
    !act.Reading? && !act.Received? && !act.Leaving? && !act.Finished?
  }

  function UsesStruct(act: Activation, m: Struct): nat {
    if HasStruct(act) && act.msg == m then 1 else 0
  }

  function Held(acts: seq<Activation>, b: Buf): nat {
    if acts == [] then 0 else Uses(acts[0], b) + Held(acts[1..], b)
  }

  function HeldStruct(acts: seq<Activation>, m: Struct): nat {
    if acts == [] then 0 else UsesStruct(acts[0], m) + HeldStruct(acts[1..], m)
  }

  /** In how many places array b is owned: both pools and all the calls. */
  function Owners(s: State, b: Buf): nat {
    s.request[b] + s.response[b] + Held(s.acts, b)
  }

  function StructOwners(s: State, m: Struct): nat {
    s.messages[m] + HeldStruct(s.acts, m)
  }

  lemma {:induction false} HeldBegin(acts: seq<Activation>, act: Activation, x: nat)
    ensures Held(acts + [act], x) == Held(acts, x) + Uses(act, x)
    ensures HeldStruct(acts + [act], x) == HeldStruct(acts, x) + UsesStruct(act, x)
  {
    if acts == [] {
      assert acts + [act] == [act] && [act][1..] == [];
    } else {
      HeldBegin(acts[1..], act, x);
      assert (acts + [act])[1..] == acts[1..] + [act];
    }
  }

  /** A call owns what is in its slots, and changing its slots changes nobody else's. */
  lemma {:induction false} HeldMove(acts: seq<Activation>, a: nat, act: Activation, x: nat)
    requires a < |acts|
    ensures Held(acts[a := act], x) == Held(acts, x) - Uses(acts[a], x) + Uses(act, x)
    ensures HeldStruct(acts[a := act], x) == HeldStruct(acts, x) - UsesStruct(acts[a], x) + UsesStruct(act, x)
  {
    if a == 0 {
      assert acts[0 := act][1..] == acts[1..];
    } else {
      HeldMove(acts[1..], a - 1, act, x);
      assert acts[a := act][1..] == acts[1..][a - 1 := act];
    }
  }

  lemma {:induction false} HeldAtLeast(acts: seq<Activation>, a: nat, x: nat)
    requires a < |acts|
    ensures Uses(acts[a], x) <= Held(acts, x)
    ensures UsesStruct(acts[a], x) <= HeldStruct(acts, x)
  {
    if a > 0 {
      HeldAtLeast(acts[1..], a - 1, x);
    }
  }

  lemma {:induction false} HeldByTwo(acts: seq<Activation>, a: nat, c: nat, x: nat)
    requires a < c < |acts|
    ensures Uses(acts[a], x) + Uses(acts[c], x) <= Held(acts, x)
    ensures UsesStruct(acts[a], x) + UsesStruct(acts[c], x) <= HeldStruct(acts, x)
  {
    if a == 0 {
      HeldAtLeast(acts[1..], c - 1, x);
    } else {
      HeldByTwo(acts[1..], a - 1, c - 1, x);
    }
  }

  // ----- the invariant -----

  ghost predicate Buffers(s: State) {
    && (forall b: Buf :: Owners(s, b) <= if b < |s.cap| then 1 else 0)
    && (forall b :: b in s.outside ==> b < |s.cap| && Owners(s, b) == 0)
    && Small(s)
  }

  /** Only small buffers are kept in a pool. */
  ghost predicate Small(s: State) {
    forall b :: b in s.request || b in s.response ==> b < |s.cap| && s.cap[b] <= KEEP_LIMIT
  }

  /** A call reads through its message struct only what it still owns. */
  predicate PointsHome(s: State, act: Activation) {
    && (act.Decoded? ==> act.msg < |s.payload| && s.payload[act.msg] == Some(act.frame))
    && (act.Wrapping? || act.Framing? || act.Writing? ==> act.msg < |s.payload| && s.payload[act.msg] == Some(act.body))
    && (act.Blank? || act.Encoding? ==> act.source in s.outside)
  }

  ghost predicate MessageStructs(s: State) {
    && (forall m: Struct :: StructOwners(s, m) <= if m < |s.payload| then 1 else 0)
    && Cleared(s)
    && (forall a :: 0 <= a < |s.acts| ==> PointsHome(s, s.acts[a]))
  }

  /** A message struct in the pool points at nothing. */
  ghost predicate Cleared(s: State) {
    forall m :: m in s.messages ==> m < |s.payload| && s.payload[m] == None
  }

  ghost predicate Inv(s: State) {
    Buffers(s) && MessageStructs(s)
  }

  // ----- what each step does to ownership -----

  /** No step hands on what was not owned before, unless it has just allocated it. */
  predicate OwnsNoMore(s: State, s': State, x: nat) {
    && Owners(s', x) <= Owners(s, x) + (if x == |s.cap| < |s'.cap| && x !in s'.outside then 1 else 0)
    && StructOwners(s', x) <= StructOwners(s, x) + (if x == |s.payload| < |s'.payload| then 1 else 0)
  }

  lemma OwnedFrame(s: State, e: Incoming, x: nat)
    requires EnabledIn(s, e) && |s.cap| !in s.outside
    requires e.Receive? || e.ReadFails? || e.ReadFrame? || e.PutFrame?
    ensures OwnsNoMore(s, StepIn(s, e), x)
  {
    if e.Receive? {
      HeldBegin(s.acts, Reading(Taken(s, e.pooled)), x);
    } else {
      HeldMove(s.acts, e.a, StepIn(s, e).acts[e.a], x);
    }
  }

  lemma OwnedDecoding(s: State, e: Incoming, x: nat)
    requires EnabledIn(s, e) && |s.cap| !in s.outside
    requires e.TakeStruct? || e.Decode? || e.PutStruct?
    ensures OwnsNoMore(s, StepIn(s, e), x)
  {
    HeldMove(s.acts, e.a, StepIn(s, e).acts[e.a], x);
  }

  lemma OwnedHandedOver(s: State, e: Incoming, x: nat)
    requires EnabledIn(s, e) && |s.cap| !in s.outside && (e.Spawn? || e.Deliver?)
    ensures OwnsNoMore(s, StepIn(s, e), x)
  {
  }

  lemma OwnedStart(s: State, e: Outgoing, x: nat)
    requires EnabledOut(s, e) && |s.cap| !in s.outside
    requires e.Reply? || e.PutMessage?
    ensures OwnsNoMore(s, StepOut(s, e), x)
  {
    if e.Reply? {
      HeldBegin(s.acts, Blank(e.source, TakenStruct(s, e.pooled)), x);
    } else {
      HeldMove(s.acts, e.a, Finished, x);
    }
  }

  lemma OwnedTake(s: State, e: Outgoing, x: nat)
    requires EnabledOut(s, e) && |s.cap| !in s.outside
    requires e.TakeBody? || e.TakeData?
    ensures OwnsNoMore(s, StepOut(s, e), x)
  {
    HeldMove(s.acts, e.a, StepOut(s, e).acts[e.a], x);
  }

  lemma OwnedEncodeResponse(s: State, e: Outgoing, x: nat)
    requires EnabledOut(s, e) && |s.cap| !in s.outside && e.EncodeResponse?
    ensures OwnsNoMore(s, StepOut(s, e), x)
  {
    HeldMove(s.acts, e.a, StepOut(s, e).acts[e.a], x);
  }

  lemma OwnedEncodeMessage(s: State, e: Outgoing, x: nat)
    requires EnabledOut(s, e) && |s.cap| !in s.outside && e.EncodeMessage?
    ensures OwnsNoMore(s, StepOut(s, e), x)
  {
    HeldMove(s.acts, e.a, StepOut(s, e).acts[e.a], x);
  }

  lemma OwnedPut(s: State, e: Outgoing, x: nat)
    requires EnabledOut(s, e) && |s.cap| !in s.outside
    requires e.PutData? || e.PutBody?
    ensures OwnsNoMore(s, StepOut(s, e), x)
  {
    HeldMove(s.acts, e.a, StepOut(s, e).acts[e.a], x);
  }

  lemma Owned(s: State, e: Event, x: nat)
    requires Enabled(s, e) && |s.cap| !in s.outside
    ensures OwnsNoMore(s, Step(s, e), x)
  {
    match e
    case In(i) =>
      if i.Receive? || i.ReadFails? || i.ReadFrame? || i.PutFrame? {
        OwnedFrame(s, i, x);
      } else if i.Spawn? || i.Deliver? {
        OwnedHandedOver(s, i, x);
      } else {
        OwnedDecoding(s, i, x);
      }
    case Out(o) =>
      if o.Reply? || o.PutMessage? {
        OwnedStart(s, o, x);
      } else if o.TakeBody? || o.TakeData? {
        OwnedTake(s, o, x);
      } else if o.EncodeResponse? {
        OwnedEncodeResponse(s, o, x);
      } else if o.EncodeMessage? {
        OwnedEncodeMessage(s, o, x);
      } else {
        OwnedPut(s, o, x);
      }
    case Allocate(_) =>
    case Collect(_) =>
  }

  // ----- every step keeps the invariant -----

  /** Arrays keep their capacity, and only a clone or the program's own allocation shows one to the outside. */
  predicate Grown(s: State, s': State) {
    && s.cap <= s'.cap && |s'.cap| <= |s.cap| + 1
    && |s.payload| <= |s'.payload| <= |s.payload| + 1
    && s.outside <= s'.outside <= s.outside + {|s.cap|}
    && (s'.outside != s.outside ==> |s'.cap| > |s.cap|)
  }

  lemma GrowsIn(s: State, e: Incoming)
    requires EnabledIn(s, e)
    ensures Grown(s, StepIn(s, e))
  {
  }

  lemma GrowsPooling(s: State, e: Outgoing)
    requires EnabledOut(s, e) && (e.Reply? || e.PutData? || e.PutBody? || e.PutMessage?)
    ensures Grown(s, StepOut(s, e))
  {
  }

  lemma GrowsOut(s: State, e: Outgoing)
    requires EnabledOut(s, e)
    ensures Grown(s, StepOut(s, e))
  {
    if e.Reply? || e.PutData? || e.PutBody? || e.PutMessage? {
      GrowsPooling(s, e);
    }
  }

  lemma SmallIn(s: State, e: Incoming)
    requires EnabledIn(s, e) && Small(s)
    ensures Small(StepIn(s, e))
  {
  }

  lemma ResponsePoolOut(s: State, e: Outgoing, b: Buf)
    requires EnabledOut(s, e) && b in StepOut(s, e).response
    ensures b in s.response || (b < |s.cap| && s.cap[b] <= KEEP_LIMIT)
  {
  }

  lemma SmallOut(s: State, e: Outgoing)
    requires EnabledOut(s, e) && Small(s)
    ensures Small(StepOut(s, e))
  {
    var s' := StepOut(s, e);
    GrowsOut(s, e);
    assert s'.request == s.request;
    forall b | b in s'.response ensures b < |s'.cap| && s'.cap[b] <= KEEP_LIMIT {
      ResponsePoolOut(s, e, b);
    }
  }

  /** A call's struct exists, is in no pool, and is no other call's. */
  lemma OwnStruct(s: State, a: nat)
    requires MessageStructs(s) && a < |s.acts|
    requires HasStruct(s.acts[a])
    ensures s.acts[a].msg < |s.payload| && s.acts[a].msg !in s.messages
    ensures forall c :: 0 <= c < |s.acts| && c != a ==> UsesStruct(s.acts[c], s.acts[a].msg) == 0
  {
    var m := s.acts[a].msg;
    assert StructOwners(s, m) <= if m < |s.payload| then 1 else 0;
    HeldAtLeast(s.acts, a, m);
    forall c | 0 <= c < |s.acts| && c != a ensures UsesStruct(s.acts[c], m) == 0 {
      if a < c {
        HeldByTwo(s.acts, a, c, m);
      } else {
        HeldByTwo(s.acts, c, a, m);
      }
    }
  }

  lemma ClearedIn(s: State, e: Incoming)
    requires EnabledIn(s, e) && MessageStructs(s)
    ensures Cleared(StepIn(s, e))
  {
    if e.Decode? || e.PutStruct? {
      OwnStruct(s, e.a);
    }
  }

  lemma ClearedOut(s: State, e: Outgoing)
    requires EnabledOut(s, e) && MessageStructs(s)
    ensures Cleared(StepOut(s, e))
  {
    if e.EncodeResponse? || e.PutMessage? {
      OwnStruct(s, e.a);
    }
  }

  /** Which payload fields a step may write. */
  predicate WritesOnly(s: State, s': State, m: Option<Struct>) {
    && |s.payload| <= |s'.payload|
    && (forall k :: 0 <= k < |s.payload| && Some(k) != m ==> s'.payload[k] == s.payload[k])
  }

  lemma WritesIn(s: State, e: Incoming)
    requires EnabledIn(s, e)
    ensures WritesOnly(s, StepIn(s, e), if e.Decode? || e.PutStruct? then Some(s.acts[e.a].msg) else None)
  {
  }

  lemma WritesOut(s: State, e: Outgoing)
    requires EnabledOut(s, e)
    ensures WritesOnly(s, StepOut(s, e), if e.EncodeResponse? || e.PutMessage? then Some(s.acts[e.a].msg) else None)
  {
  }

  lemma StaysHome(s: State, s': State, m: Option<Struct>, act: Activation)
    requires PointsHome(s, act) && WritesOnly(s, s', m) && s.outside <= s'.outside
    requires m.Some? ==> UsesStruct(act, m.value) == 0
    ensures PointsHome(s', act)
  {
  }

  lemma OthersIn(s: State, e: Incoming, c: nat)
    requires EnabledIn(s, e) && MessageStructs(s) && c < |s.acts| && (!e.Receive? ==> c != e.a)
    ensures PointsHome(StepIn(s, e), s.acts[c])
  {
    var m := if e.Decode? || e.PutStruct? then Some(s.acts[e.a].msg) else None;
    WritesIn(s, e);
    GrowsIn(s, e);
    if m.Some? {
      OwnStruct(s, e.a);
    }
    StaysHome(s, StepIn(s, e), m, s.acts[c]);
  }

  lemma OthersOut(s: State, e: Outgoing, c: nat)
    requires EnabledOut(s, e) && MessageStructs(s) && c < |s.acts| && (!e.Reply? ==> c != e.a)
    ensures PointsHome(StepOut(s, e), s.acts[c])
  {
    var m := if e.EncodeResponse? || e.PutMessage? then Some(s.acts[e.a].msg) else None;
    WritesOut(s, e);
    GrowsOut(s, e);
    if m.Some? {
      OwnStruct(s, e.a);
    }
    StaysHome(s, StepOut(s, e), m, s.acts[c]);
  }

  lemma SelfIn(s: State, e: Incoming)
    requires EnabledIn(s, e) && MessageStructs(s) && !e.Receive?
    ensures PointsHome(StepIn(s, e), StepIn(s, e).acts[e.a])
  {
    if e.Decode? {
      OwnStruct(s, e.a);
    }
  }

  lemma SelfOutEncodes(s: State, e: Outgoing)
    requires EnabledOut(s, e) && MessageStructs(s) && e.EncodeResponse?
    ensures PointsHome(StepOut(s, e), StepOut(s, e).acts[e.a])
  {
    OwnStruct(s, e.a);
  }

  lemma SelfOut(s: State, e: Outgoing)
    requires EnabledOut(s, e) && MessageStructs(s) && !e.Reply?
    ensures PointsHome(StepOut(s, e), StepOut(s, e).acts[e.a])
  {
    if e.EncodeResponse? {
      SelfOutEncodes(s, e);
    } else if e.TakeBody? || e.TakeData? || e.EncodeMessage? {
      assert PointsHome(s, s.acts[e.a]);
    }
  }

  lemma Grows(s: State, e: Event)
    requires Enabled(s, e)
    ensures Grown(s, Step(s, e))
  {
    match e
    case In(i) => GrowsIn(s, i);
    case Out(o) => GrowsOut(s, o);
    case Allocate(_) =>
    case Collect(_) =>
  }

  lemma StepBuffers(s: State, e: Event)
    requires Enabled(s, e) && Buffers(s)
    ensures Buffers(Step(s, e))
  {
    var s' := Step(s, e);
    Grows(s, e);
    forall b: Buf ensures Owners(s', b) <= (if b < |s'.cap| then 1 else 0) {
      Owned(s, e, b);
    }
    forall b | b in s'.outside ensures b < |s'.cap| && Owners(s', b) == 0 {
      Owned(s, e, b);
    }
    match e
    case In(i) => SmallIn(s, i);
    case Out(o) => SmallOut(s, o);
    case Allocate(_) =>
    case Collect(_) =>
  }

  lemma HomeIn(s: State, e: Incoming, c: nat)
    requires EnabledIn(s, e) && MessageStructs(s) && c < |StepIn(s, e).acts|
    ensures PointsHome(StepIn(s, e), StepIn(s, e).acts[c])
  {
    if !e.Receive? && c == e.a {
      SelfIn(s, e);
    } else if c < |s.acts| {
      OthersIn(s, e, c);
      assert StepIn(s, e).acts[c] == s.acts[c];
    }
  }

  lemma ReplyHome(s: State, e: Outgoing, c: nat)
    requires EnabledOut(s, e) && MessageStructs(s) && c < |StepOut(s, e).acts| && e.Reply?
    ensures PointsHome(StepOut(s, e), StepOut(s, e).acts[c])
  {
    if c < |s.acts| {
      OthersOut(s, e, c);
    }
  }

  lemma HomeOut(s: State, e: Outgoing, c: nat)
    requires EnabledOut(s, e) && MessageStructs(s) && c < |StepOut(s, e).acts| && !e.Reply?
    ensures PointsHome(StepOut(s, e), StepOut(s, e).acts[c])
  {
    if c == e.a {
      SelfOut(s, e);
    } else {
      OthersOut(s, e, c);
      assert StepOut(s, e).acts[c] == s.acts[c];
    }
  }

  lemma StepHome(s: State, e: Event, c: nat)
    requires Enabled(s, e) && MessageStructs(s) && c < |Step(s, e).acts|
    ensures PointsHome(Step(s, e), Step(s, e).acts[c])
  {
    match e
    case In(i) => HomeIn(s, i, c);
    case Out(o) => if o.Reply? { ReplyHome(s, o, c); } else { HomeOut(s, o, c); }
    case Allocate(_) => assert PointsHome(s, s.acts[c]);
    case Collect(_) => assert PointsHome(s, s.acts[c]);
  }

  lemma StepMessageStructs(s: State, e: Event)
    requires Enabled(s, e) && Inv(s)
    ensures MessageStructs(Step(s, e))
  {
    var s' := Step(s, e);
    Grows(s, e);
    forall m: Struct ensures StructOwners(s', m) <= (if m < |s'.payload| then 1 else 0) {
      Owned(s, e, m);
    }
    forall c | 0 <= c < |s'.acts| ensures PointsHome(s', s'.acts[c]) {
      StepHome(s, e, c);
    }
    match e
    case In(i) => ClearedIn(s, i);
    case Out(o) => ClearedOut(s, o);
    case Allocate(_) =>
    case Collect(_) =>
  }

  lemma {:induction false} RunInv(s: State, es: seq<Event>, s': State)
    requires Run(s, es, s') && Inv(s)
    ensures Inv(s') && s.outside <= s'.outside
    decreases |es|
  {
    if es != [] {
      StepBuffers(s, es[0]);
      StepMessageStructs(s, es[0]);
      Grows(s, es[0]);
      RunInv(Step(s, es[0]), es[1..], s');
    }
  }

  // ----- the theorems -----

  /**
   In every run no buffer and no message struct is owned twice: not by two calls, not by a
   call and a pool, not twice by a pool.
   */
  lemma NeverOwnedTwice(es: seq<Event>, s: State)
    requires Run(EMPTY, es, s)
    ensures forall b: Buf :: Owners(s, b) <= 1
    ensures forall m: Struct :: StructOwners(s, m) <= 1
    ensures forall b :: b in s.request ==> b !in s.response
    ensures forall b :: b in s.request || b in s.response ==> b < |s.cap| && s.cap[b] <= 65536
    ensures Cleared(s)
  {
    assert Inv(EMPTY);
    RunInv(EMPTY, es, s);
    forall b | b in s.request ensures b !in s.response {
      assert Owners(s, b) <= 1;
    }
  }

  /**
   Whatever a spawned command, a delivered response or a handler could reach at some
   moment is in no pool then or ever after, and no call will ever read or encode into it.
   */
  lemma OutsideStaysOutside(es: seq<Event>, s: State, fs: seq<Event>, s': State, b: Buf)
    requires Run(EMPTY, es, s) && Run(s, fs, s') && b in s.outside
    ensures b !in s'.request && b !in s'.response
    ensures forall a :: 0 <= a < |s'.acts| ==> Uses(s'.acts[a], b) == 0
  {
    assert Inv(EMPTY);
    RunInv(EMPTY, es, s);
    RunInv(s, fs, s');
    assert Owners(s', b) == 0;
    forall a | 0 <= a < |s'.acts| ensures Uses(s'.acts[a], b) == 0 {
      HeldAtLeast(s'.acts, a, b);
    }
  }

  /**
   What the encoders need: the response's payload is not in the buffer it is encoded
   into, and the message wraps the first buffer while it is encoded into a second one,
   which no other call can touch meanwhile.
   */
  lemma EncodersNeverOverlap(es: seq<Event>, s: State, a: nat)
    requires Run(EMPTY, es, s) && a < |s.acts|
    ensures s.acts[a].Encoding? ==> s.acts[a].source != s.acts[a].body
    ensures s.acts[a].Framing? || s.acts[a].Writing? ==>
              && s.acts[a].body != s.acts[a].data
              && s.acts[a].msg < |s.payload| && s.payload[s.acts[a].msg] == Some(s.acts[a].body)
    ensures forall c, b: Buf :: 0 <= c < |s.acts| && c != a && Uses(s.acts[a], b) > 0 ==> Uses(s.acts[c], b) == 0
  {
    assert Inv(EMPTY);
    RunInv(EMPTY, es, s);
    assert PointsHome(s, s.acts[a]);
    forall b: Buf ensures Owners(s, b) <= 1 && Uses(s.acts[a], b) <= Owners(s, b) {
      assert Owners(s, b) <= if b < |s.cap| then 1 else 0;
      HeldAtLeast(s.acts, a, b);
    }
    if s.acts[a].Encoding? {
      assert Uses(s.acts[a], s.acts[a].body) == 1;
      HeldAtLeast(s.acts, a, s.acts[a].body);
    }
    if s.acts[a].Framing? || s.acts[a].Writing? {
      assert Uses(s.acts[a], s.acts[a].body) <= 1;
    }
    forall c, b: Buf | 0 <= c < |s.acts| && c != a && Uses(s.acts[a], b) > 0 ensures Uses(s.acts[c], b) == 0 {
      if a < c {
        HeldByTwo(s.acts, a, c, b);
      } else {
        HeldByTwo(s.acts, c, a, b);
      }
    }
  }
}
