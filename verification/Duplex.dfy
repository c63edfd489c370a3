/**
 Two peers and the connection between them, as a labelled transition system.

 Each endpoint runs `sendCmd` (any number of callers), `handleMessage` (one reader),
 `handleCommand` (one goroutine per command) and `writeResponse` over its own Line.
 An endpoint sees of its peer nothing but the bytes the peer's socket accepted.  All
 request IDs, frames and responses are therefore found by encoding and decoding.

 A job's index names the goroutine; it is also its writer number on the Line and, for
 a call, the identity of its response channel.
 */
module Duplex {
  import opened Wire
  import L = Line
  import R = Runs

  datatype Outcome = Answer(response: Response) | TimedOut | ConnectionClosed | WriteFailed

  datatype CallPc =
    | Checked               // both context checks passed, not registered
    | Sending               // registered, inside writeFrame
    | Waiting               // in the select for a response
    | Leaving(out: Outcome) // result known, deferred cleanup pending
    | Gone(out: Outcome)

  /**
   A response that was sent to a response channel (inbox keeps every send); `src` is the
   incoming frame it came from.
   */
  datatype Receipt = Receipt(src: nat, response: Response)

  datatype HandlerPc =
    | Decoding
    | Executing(cmd: Command)
    | Answering(cmd: Command, response: Response)
    | Rejecting(error: Error)

  datatype Job =
    | Call(id: uint16, payload: seq<byte>, tick: nat, pc: CallPc, inbox: seq<Receipt>)
    | Handler(src: nat, body: seq<byte>, hpc: HandlerPc)
    | Reply(text: string)        // an error reply written by the reader
    | Foreign(frame: seq<byte>)  // a malformed frame injected on this side

  datatype Reader =
    | Reading
    | Matching(src: nat, response: Response)               // decoded, pending map not yet consulted
    | Delivering(src: nat, response: Response, call: nat)  // entry removed, channel send next
    | Replying(job: nat, last: bool)                       // inside writeResponse
    | Stopped

  datatype Endpoint = Endpoint(
    jobs: seq<Job>,
    pending: map<uint32, nat>,
    ticks: nat,          // how often requestIDCounter was incremented; it holds ticks % 2^32
    reader: Reader,
    out: L.Line,
    consumed: nat,       // bytes the reader has taken from the peer
    read: nat)           // history: frames the reader has taken from the peer

  const FRESH := Endpoint([], map[], 0, Reading, L.EMPTY_LINE, 0, 0)

  datatype Event =
    | StartCall(id: uint16, payload: seq<byte>)
    | Register(c: nat, tick: nat)
    | Net(le: L.Event)
    | WriteReturns(c: nat)
    | TakeAnswer(c: nat)
    | TimeOut(c: nat)
    | SeeClosed(c: nat)
    | Cleanup(c: nat)
    | ReadFrame
    | ReadFails
    | Match
    | Deliver
    | ReplyReturns
    | Decode(h: nat)
    | Execute(h: nat, cmd: Command, result: Response) // called with the command, it returns the result
    | Inject(frame: seq<byte>)

  /** The ID a tick of the counter stands for. */
  function IdOf(tick: nat): uint32 {
    tick % TWO32
  }

  function CallCommand(j: Job): Command
    requires j.Call?
  {
    Command(IdOf(j.tick), j.id, j.payload)
  }

  /** The frame a job hands to writeFrame, once it has one. */
  function JobFrame(j: Job): seq<byte>
    requires HasFrame(j)
  {
    match j
    case Call(_, _, _, _, _) => CommandFrame(CallCommand(j))
    case Handler(_, _, hpc) =>
      if hpc.Answering? then ResponseFrame(hpc.response)
      else if hpc.Rejecting? then ResponseFrame(ErrorReply(ErrorText(hpc.error)))
      else []
    case Reply(text) => ResponseFrame(ErrorReply(text))
    case Foreign(frame) => frame
  }

  predicate HasFrame(j: Job) {
    match j
    case Call(_, _, _, pc, _) => !pc.Checked?
    case Handler(_, _, hpc) => hpc.Answering? || hpc.Rejecting?
    case Reply(_) => true
    case Foreign(_) => true
  }

  /**
   The loop of sendCmd: the counter is incremented until it stands for an unused ID.
   Requests proves that the loop computes this.
   */
  predicate Allocates(ticks: nat, used: set<uint32>, tick: nat) {
    && ticks < tick
    && IdOf(tick) !in used
    && (forall t :: ticks < t < tick ==> IdOf(t) in used)
  }

  predicate IsCall(me: Endpoint, c: nat) {
    c < |me.jobs| && me.jobs[c].Call?
  }

  predicate IsHandler(me: Endpoint, h: nat) {
    h < |me.jobs| && me.jobs[h].Handler?
  }

  predicate Returned(me: Endpoint, w: nat, ok: bool) {
    w in me.out.writers && me.out.writers[w].st == L.Returned(ok)
  }

  /** The sender has received from its channel. */
  predicate Taken(pc: CallPc) {
    (pc.Leaving? && pc.out.Answer?) || (pc.Gone? && pc.out.Answer?)
  }

  predicate SlotFree(j: Job)
    requires j.Call?
  {
    j.inbox == [] || (|j.inbox| == 1 && Taken(j.pc))
  }

  /** A goroutine enters writeFrame at most once; Correlation shows that this never blocks a step. */
  predicate CanEnter(me: Endpoint, w: nat, frame: seq<byte>) {
    L.Enabled(me.out, L.Enter(w, frame, true))
  }

  function Incoming(me: Endpoint, bytes: seq<byte>): Arrival {
    if me.consumed <= |bytes| then Arrived(bytes[me.consumed..]) else Incomplete
  }

  /** What decoding turns a spawned handler into. */
  function Decoded(j: Job): Job
    requires j.Handler?
  {
    match DecodeCommand(j.body)
    case Ok(cmd) => j.(hpc := Executing(cmd))
    case Err(e) => j.(hpc := Rejecting(e))
  }

  function Executed(j: Job, result: Response): Job
    requires j.Handler? && j.hpc.Executing?
  {
    // the handler's own ReqID is overwritten with the command's
    j.(hpc := Answering(j.hpc.cmd, result.(reqId := j.hpc.cmd.reqId)))
  }

  /** The goroutine or error reply the reader starts for what it finds, if any. */
  function ReadJob(me: Endpoint, found: Arrival): R.Option<Job> {
    match found
    case Incomplete => R.None
    case BadLength => R.Some(Reply(ErrorText(FrameLengthInvalid)))
    case Whole(frame) =>
      match Classify(frame)
      case Malformed(text) => R.Some(Reply(text))
      case RunCommand(body) => R.Some(Handler(me.read, body, Decoding))
      case GotResponse(_) => R.None
  }

  predicate CanSpawn(me: Endpoint, j: Job) {
    HasFrame(j) ==> CanEnter(me, |me.jobs|, JobFrame(j))
  }

  predicate Enabled(me: Endpoint, bytes: seq<byte>, e: Event) {
    match e
    case StartCall(id, payload) => me.out.phase.Open? && FrameSized(CommandFrame(Command(0, id, payload)))
    case Register(c, tick) =>
      && IsCall(me, c) && me.jobs[c].pc.Checked?
      && Allocates(me.ticks, me.pending.Keys, tick)
      && CanEnter(me, c, CommandFrame(Command(IdOf(tick), me.jobs[c].id, me.jobs[c].payload)))
    case Net(le) => !le.Enter? && L.Enabled(me.out, le)
    case WriteReturns(c) => IsCall(me, c) && me.jobs[c].pc.Sending? && (Returned(me, c, true) || Returned(me, c, false))
    case TakeAnswer(c) => IsCall(me, c) && me.jobs[c].pc.Waiting? && me.jobs[c].inbox != []
    case TimeOut(c) => IsCall(me, c) && me.jobs[c].pc.Waiting? && c in me.out.writers && me.out.writers[c].ctxDone
    case SeeClosed(c) => IsCall(me, c) && me.jobs[c].pc.Waiting? && !me.out.phase.Open?
    case Cleanup(c) => IsCall(me, c) && me.jobs[c].pc.Leaving?
    case ReadFrame =>
      && me.reader.Reading? && L.NetOpen(me.out)
      && !Incoming(me, bytes).Incomplete?
      && var j := ReadJob(me, Incoming(me, bytes)); j.Some? ==> CanSpawn(me, j.value)
    case ReadFails => me.reader.Reading?
    case Match => me.reader.Matching?
    // the send blocks while the channel's only slot is taken
    case Deliver => me.reader.Delivering? && IsCall(me, me.reader.call) && SlotFree(me.jobs[me.reader.call])
    case ReplyReturns =>
      me.reader.Replying? && (Returned(me, me.reader.job, true) || Returned(me, me.reader.job, false))
    case Decode(h) =>
      && IsHandler(me, h) && me.jobs[h].hpc.Decoding?
      && var j := Decoded(me.jobs[h]); HasFrame(j) ==> CanEnter(me, h, JobFrame(j))
    case Execute(h, cmd, result) =>
      && IsHandler(me, h) && me.jobs[h].hpc == Executing(cmd)
      && CanEnter(me, h, JobFrame(Executed(me.jobs[h], result)))
    case Inject(frame) => Harmless(frame) && CanEnter(me, |me.jobs|, frame)
  }

  function SetJob(me: Endpoint, i: nat, j: Job): Endpoint
    requires i < |me.jobs|
  {
    me.(jobs := me.jobs[i := j])
  }

  function SetPc(me: Endpoint, c: nat, pc: CallPc): Endpoint
    requires IsCall(me, c)
  {
    SetJob(me, c, me.jobs[c].(pc := pc))
  }

  function Enter(me: Endpoint, w: nat, frame: seq<byte>): Endpoint
    requires CanEnter(me, w, frame)
  {
    me.(out := L.Step(me.out, L.Enter(w, frame, true)))
  }

  /** A new goroutine, which goes straight into writeFrame if it has a frame. */
  function Spawn(me: Endpoint, j: Job): Endpoint
    requires CanSpawn(me, j)
  {
    var me1 := me.(jobs := me.jobs + [j]);
    if HasFrame(j) then me1.(out := L.Step(me.out, L.Enter(|me.jobs|, JobFrame(j), true))) else me1
  }

  function AfterRead(me: Endpoint, found: Arrival): Endpoint
    requires var j := ReadJob(me, found); j.Some? ==> CanSpawn(me, j.value)
  {
    match found
    case Incomplete => me
    case BadLength => Spawn(me, ReadJob(me, found).value).(reader := Replying(|me.jobs|, true))
    case Whole(frame) =>
      var taken := me.(consumed := me.consumed + |Framed(frame)|, read := me.read + 1);
      match Classify(frame)
      case Malformed(_) => Spawn(taken, ReadJob(me, found).value).(reader := Replying(|me.jobs|, false))
      case RunCommand(_) => Spawn(taken, ReadJob(me, found).value)
      case GotResponse(r) => taken.(reader := Matching(me.read, r))
  }

  function AfterMatch(me: Endpoint): Endpoint
    requires me.reader.Matching?
  {
    var r := me.reader.response;
    if r.reqId in me.pending then
      me.(pending := me.pending - {r.reqId}, reader := Delivering(me.reader.src, r, me.pending[r.reqId]))
    else me.(reader := Reading)
  }

  function Step(me: Endpoint, bytes: seq<byte>, e: Event): Endpoint
    requires Enabled(me, bytes, e)
  {
    match e
    case StartCall(id, payload) => me.(jobs := me.jobs + [Call(id, payload, 0, Checked, [])])
    case Register(c, tick) =>
      var j := me.jobs[c].(tick := tick, pc := Sending);
      SetJob(Enter(me, c, JobFrame(j)), c, j).(ticks := tick, pending := me.pending[IdOf(tick) := c])
    case Net(le) => me.(out := L.Step(me.out, le), pending := if le.ClearPending? then map[] else me.pending)
    case WriteReturns(c) => SetPc(me, c, if Returned(me, c, true) then Waiting else Leaving(WriteFailed))
    case TakeAnswer(c) => SetPc(me, c, Leaving(Answer(me.jobs[c].inbox[0].response)))
    case TimeOut(c) => SetPc(me, c, Leaving(TimedOut))
    case SeeClosed(c) => SetPc(me, c, Leaving(ConnectionClosed))
    // deletes whatever is registered under the ID
    case Cleanup(c) => SetPc(me, c, Gone(me.jobs[c].pc.out)).(pending := me.pending - {IdOf(me.jobs[c].tick)})
    case ReadFrame => AfterRead(me, Incoming(me, bytes))
    case ReadFails => me.(reader := Stopped)
    case Match => AfterMatch(me)
    case Deliver =>
      var c := me.reader.call;
      var receipt := Receipt(me.reader.src, me.reader.response);
      SetJob(me, c, me.jobs[c].(inbox := me.jobs[c].inbox + [receipt])).(reader := Reading)
    case ReplyReturns =>
      me.(reader := if Returned(me, me.reader.job, true) && !me.reader.last then Reading else Stopped)
    case Decode(h) =>
      var j := Decoded(me.jobs[h]);
      SetJob(if HasFrame(j) then Enter(me, h, JobFrame(j)) else me, h, j)
    case Execute(h, _, result) =>
      var j := Executed(me.jobs[h], result);
      SetJob(Enter(me, h, JobFrame(j)), h, j)
    case Inject(frame) => Spawn(me, Foreign(frame))
  }

  // ----- the two-peer system -----

  datatype Side = Left | Right

  function Other(side: Side): Side {
    if side.Left? then Right else Left
  }

  datatype System = System(left: Endpoint, right: Endpoint)

  const START := System(FRESH, FRESH)

  function At(s: System, side: Side): Endpoint {
    if side.Left? then s.left else s.right
  }

  predicate SysEnabled(s: System, side: Side, e: Event) {
    Enabled(At(s, side), At(s, Other(side)).out.bytes, e)
  }

  function SysStep(s: System, side: Side, e: Event): System
    requires SysEnabled(s, side, e)
  {
    var next := Step(At(s, side), At(s, Other(side)).out.bytes, e);
    if side.Left? then s.(left := next) else s.(right := next)
  }

  ghost predicate Run(s: System, es: seq<(Side, Event)>, s': System)
    decreases |es|
  {
    if es == [] then s == s'
    else SysEnabled(s, es[0].0, es[0].1) && Run(SysStep(s, es[0].0, es[0].1), es[1..], s')
  }
}
