/**
 The wire format of protocol version 1 on values: big-endian integers, messages,
 commands, responses, and length-prefixed frames.

 Everything here is a pure function on `seq<byte>`.  Codec proves that the
 in-place encoders and the reading and writing loops compute these functions;
 Line and Duplex run the protocol on the bytes they describe.
 */
module Wire {
  import R = Runs

  type byte = x: int | 0 <= x < 0x100
  type uint16 = x: int | 0 <= x < 0x1_0000
  type uint32 = x: int | 0 <= x < 0x1_0000_0000

  const TWO32: int := 0x1_0000_0000
  const MAGIC: byte := 0x67
  const VERSION1: byte := 1
  const TYPE_COMMAND: byte := 1
  const TYPE_RESPONSE: byte := 2
  const MAX_FRAME: int := 512 * 1024 * 1024
  const STATUS_INVALID_MESSAGE: uint16 := 400

  datatype Error =
    | FrameLengthInvalid
    | MagicNumberInvalid
    | PayloadTooShort
    | EmptyPayload
    | InvalidProtocolVersion
    | UnknownMessageType

  datatype Result<T> = Ok(value: T) | Err(error: Error)

  datatype Message = Message(version: byte, flags: byte, kind: byte, payload: seq<byte>)
  datatype Command = Command(reqId: uint32, id: uint16, payload: seq<byte>)
  datatype Response = Response(reqId: uint32, code: uint16, payload: seq<byte>)

  // ----- big-endian integers -----

  /** Go's conversion of a length to an unsigned 32-bit integer keeps the low 32 bits. */
  function U32(n: nat): uint32 {
    n % TWO32
  }

  function Be16(v: uint16): (b: seq<byte>)
    ensures |b| == 2
  {
    [v / 0x100, v % 0x100]
  }

  function Be32(v: uint32): (b: seq<byte>)
    ensures |b| == 4
  {
    Be16(v / 0x1_0000) + Be16(v % 0x1_0000)
  }

  function FromBe16(b: seq<byte>): uint16
    requires |b| >= 2
  {
    b[0] as int * 0x100 + b[1]
  }

  function FromBe32(b: seq<byte>): uint32
    requires |b| >= 4
  {
    FromBe16(b[..2]) as int * 0x1_0000 + FromBe16(b[2..4])
  }

  lemma Be16RoundTrip(v: uint16)
    ensures FromBe16(Be16(v)) == v
  {
  }

  lemma Be32RoundTrip(v: uint32)
    ensures FromBe32(Be32(v)) == v
  {
    Be16RoundTrip(v / 0x1_0000);
    Be16RoundTrip(v % 0x1_0000);
    assert Be32(v)[..2] == Be16(v / 0x1_0000);
    assert Be32(v)[2..4] == Be16(v % 0x1_0000);
  }

  lemma FromBe16RoundTrip(b: seq<byte>)
    requires |b| == 2
    ensures Be16(FromBe16(b)) == b
  {
  }

  lemma FromBe32RoundTrip(b: seq<byte>)
    requires |b| == 4
    ensures Be32(FromBe32(b)) == b
  {
    var high, low := FromBe16(b[..2]) as int, FromBe16(b[2..4]) as int;
    FromBe16RoundTrip(b[..2]);
    FromBe16RoundTrip(b[2..4]);
    assert (high * 0x1_0000 + low) / 0x1_0000 == high && (high * 0x1_0000 + low) % 0x1_0000 == low;
    assert b == b[..2] + b[2..4];
  }

  // ----- messages -----

  function EncodeMessage(m: Message): (data: seq<byte>)
    ensures |data| == 8 + |m.payload|
  {
    [MAGIC, m.version, m.flags, m.kind] + Be32(U32(|m.payload|)) + m.payload
  }

  /** The checks come in the source's order; the two version tests there are one test here. */
  function DecodeMessage(data: seq<byte>): (r: Result<Message>)
    ensures r.Ok? ==> r.value.version == VERSION1 && r.value.kind <= TYPE_RESPONSE && |r.value.payload| > 0
    ensures r.Ok? ==> |data| >= 8 + |r.value.payload|
  {
    if |data| == 0 then Err(PayloadTooShort)
    else if data[0] != MAGIC then Err(MagicNumberInvalid)
    else if |data| < 8 then Err(PayloadTooShort)
    else if data[1] != VERSION1 then Err(InvalidProtocolVersion)
    else if data[3] > TYPE_RESPONSE then Err(UnknownMessageType)
    else
      var n := FromBe32(data[4..8]);
      if n == 0 then Err(EmptyPayload)
      else if |data| < 8 + n then Err(PayloadTooShort)
      else Ok(Message(data[1], data[2], data[3], data[8..8 + n]))
  }

  predicate ValidMessage(m: Message) {
    m.version == VERSION1 && m.kind <= TYPE_RESPONSE && 0 < |m.payload| < TWO32
  }

  /** Decoding an encoded message gives it back, whatever bytes follow it, exactly when it is valid. */
  lemma MessageRoundTrip(m: Message, rest: seq<byte>)
    requires |m.payload| < TWO32
    ensures DecodeMessage(EncodeMessage(m) + rest) == Ok(m) <==> ValidMessage(m)
  {
    var data := EncodeMessage(m) + rest;
    var n := |m.payload|;
    assert data[0] == MAGIC && data[1] == m.version && data[2] == m.flags && data[3] == m.kind;
    assert data[4..8] == Be32(n);
    Be32RoundTrip(n);
    assert data[8..8 + n] == m.payload;
  }

  /** Whatever the decoder accepts, re-encoding gives exactly the bytes it consumed. */
  lemma MessageCanonical(data: seq<byte>)
    requires DecodeMessage(data).Ok?
    ensures
      var m := DecodeMessage(data).value;
      ValidMessage(m) && EncodeMessage(m) == data[..8 + |m.payload|]
  {
    var m := DecodeMessage(data).value;
    FromBe32RoundTrip(data[4..8]);
    assert data[..8 + |m.payload|] == data[..4] + data[4..8] + data[8..8 + |m.payload|];
  }

  /** Injected trailing bytes never change what is decoded. */
  lemma MessageIgnoresTrailing(data: seq<byte>, rest: seq<byte>)
    requires DecodeMessage(data).Ok?
    ensures DecodeMessage(data + rest) == DecodeMessage(data)
  {
    var m := DecodeMessage(data).value;
    MessageCanonical(data);
    MessageRoundTrip(m, data[8 + |m.payload|..] + rest);
    assert data + rest == EncodeMessage(m) + (data[8 + |m.payload|..] + rest);
  }

  /** The first four bytes of a field as one number, most significant byte first. */
  function Number(b: seq<byte>): int
    requires |b| >= 4
  {
    b[0] as int * 0x100_0000 + b[1] as int * 0x1_0000 + b[2] as int * 0x100 + b[3]
  }

  lemma NumberOfBe32(v: uint32)
    ensures Number(Be32(v)) == v
  {
    Be32RoundTrip(v);
  }

  lemma NumberIsFromBe32(b: seq<byte>)
    requires |b| >= 4
    ensures Number(b) == FromBe32(b)
  {
  }

  /** Where everything is in an encoded message. */
  lemma MessageLayout(m: Message)
    requires |m.payload| < TWO32
    ensures
      var data := EncodeMessage(m);
      && data[0] == 0x67 && data[1] == m.version && data[2] == m.flags && data[3] == m.kind
      && Number(data[4..8]) == |m.payload| && data[8..] == m.payload
  {
    var data := EncodeMessage(m);
    NumberOfBe32(|m.payload|);
    assert data[4..8] == Be32(|m.payload|);
  }

  /** How many payload bytes the length field announces. */
  function Announced(data: seq<byte>): int
    requires |data| >= 8
  {
    Number(data[4..8])
  }

  /**
   Which error a message is refused with: the first that applies in this order.  What is
   accepted says version 1, command, response or the unused type 0, and has all the
   payload bytes it announces, which follow the header.
   */
  lemma MessageErrorsExactly(data: seq<byte>)
    ensures
      var r := DecodeMessage(data);
      var whole := |data| >= 8 && data[0] == 0x67;
      var known := whole && data[1] == 1 && data[3] in {0, 1, 2};
      && (r == Err(MagicNumberInvalid) <==> |data| > 0 && data[0] != 0x67)
      && (r == Err(InvalidProtocolVersion) <==> whole && data[1] != 1)
      && (r == Err(UnknownMessageType) <==> whole && data[1] == 1 && data[3] !in {0, 1, 2})
      && (r == Err(EmptyPayload) <==> known && Announced(data) == 0)
      && (r.Ok? <==> known && 0 < Announced(data) <= |data| - 8)
      && (r.Ok? ==> r.value == Message(1, data[2], data[3], data[8..8 + Announced(data)]))
      && (r.Err? ==> r.error != FrameLengthInvalid)
  {
    if |data| >= 8 {
      NumberIsFromBe32(data[4..8]);
    }
  }

  // ----- commands and responses: the same three-part layout -----

  function EncodeBody(reqId: uint32, code: uint16, payload: seq<byte>): (data: seq<byte>)
    ensures |data| == 10 + |payload|
  {
    Be32(reqId) + Be16(code) + Be32(U32(|payload|)) + payload
  }

  predicate BodyFits(data: seq<byte>) {
    |data| >= 10 && |data| >= 10 + FromBe32(data[6..10])
  }

  function EncodeCommand(c: Command): (data: seq<byte>)
    ensures |data| == 10 + |c.payload|
  {
    EncodeBody(c.reqId, c.id, c.payload)
  }

  function DecodeCommand(data: seq<byte>): Result<Command> {
    if !BodyFits(data) then Err(PayloadTooShort)
    else Ok(Command(FromBe32(data[0..4]), FromBe16(data[4..6]), data[10..10 + FromBe32(data[6..10])]))
  }

  function EncodeResponse(r: Response): (data: seq<byte>)
    ensures |data| == 10 + |r.payload|
  {
    EncodeBody(r.reqId, r.code, r.payload)
  }

  function DecodeResponse(data: seq<byte>): Result<Response> {
    if !BodyFits(data) then Err(PayloadTooShort)
    else Ok(Response(FromBe32(data[0..4]), FromBe16(data[4..6]), data[10..10 + FromBe32(data[6..10])]))
  }

  /** Where everything is in an encoded command. */
  lemma CommandLayout(c: Command)
    requires |c.payload| < TWO32
    ensures
      var data := EncodeCommand(c);
      && Number(data[0..4]) == c.reqId && data[4] as int * 0x100 + data[5] == c.id
      && Number(data[6..10]) == |c.payload| && data[10..] == c.payload
  {
    BodyLayout(c.reqId, c.id, c.payload);
  }

  lemma ResponseLayout(r: Response)
    requires |r.payload| < TWO32
    ensures
      var data := EncodeResponse(r);
      && Number(data[0..4]) == r.reqId && data[4] as int * 0x100 + data[5] == r.code
      && Number(data[6..10]) == |r.payload| && data[10..] == r.payload
  {
    BodyLayout(r.reqId, r.code, r.payload);
  }

  lemma BodyLayout(reqId: uint32, code: uint16, payload: seq<byte>)
    requires |payload| < TWO32
    ensures
      var data := EncodeBody(reqId, code, payload);
      && Number(data[0..4]) == reqId && data[4] as int * 0x100 + data[5] == code
      && Number(data[6..10]) == |payload| && data[10..] == payload
  {
    var a, b, c: seq<byte> := Be32(reqId), Be16(code), Be32(|payload|);
    NumberOfBe32(reqId);
    NumberOfBe32(|payload|);
    FourParts(a, b, c, payload, []);
    var data := a + b + c + payload + [];
    assert data == EncodeBody(reqId, code, payload);
    assert data[4..6][0] == data[4] && data[4..6][1] == data[5];
  }

  lemma FourParts(a: seq<byte>, b: seq<byte>, c: seq<byte>, d: seq<byte>, rest: seq<byte>)
    requires |a| == 4 && |b| == 2 && |c| == 4
    ensures
      var data := a + b + c + d + rest;
      data[0..4] == a && data[4..6] == b && data[6..10] == c && data[10..10 + |d|] == d
  {
  }

  /** The slices of an encoded body are its parts. */
  lemma BodySlices(reqId: uint32, code: uint16, payload: seq<byte>, rest: seq<byte>)
    requires |payload| < TWO32
    ensures
      var data := EncodeBody(reqId, code, payload) + rest;
      && data[0..4] == Be32(reqId) && data[4..6] == Be16(code) && data[6..10] == Be32(|payload|)
      && data[10..10 + |payload|] == payload
  {
    assert U32(|payload|) == |payload|;
    FourParts(Be32(reqId), Be16(code), Be32(|payload|), payload, rest);
  }

  lemma BodyParts(reqId: uint32, code: uint16, payload: seq<byte>, rest: seq<byte>)
    requires |payload| < TWO32
    ensures
      var data := EncodeBody(reqId, code, payload) + rest;
      && BodyFits(data)
      && FromBe32(data[0..4]) == reqId && FromBe16(data[4..6]) == code
      && data[10..10 + FromBe32(data[6..10])] == payload
  {
    BodySlices(reqId, code, payload, rest);
    Be32RoundTrip(reqId);
    Be16RoundTrip(code);
    Be32RoundTrip(|payload|);
  }

  lemma CommandRoundTrip(c: Command, rest: seq<byte>)
    requires |c.payload| < TWO32
    ensures DecodeCommand(EncodeCommand(c) + rest) == Ok(c)
  {
    BodyParts(c.reqId, c.id, c.payload, rest);
  }

  lemma ResponseRoundTrip(r: Response, rest: seq<byte>)
    requires |r.payload| < TWO32
    ensures DecodeResponse(EncodeResponse(r) + rest) == Ok(r)
  {
    BodyParts(r.reqId, r.code, r.payload, rest);
  }

  /** A body that is refused is one that is too short for what it announces. */
  lemma BodyErrorsExactly(data: seq<byte>)
    ensures DecodeCommand(data) == Err(PayloadTooShort) <==> |data| < 10 || Number(data[6..10]) > |data| - 10
    ensures DecodeResponse(data) == Err(PayloadTooShort) <==> |data| < 10 || Number(data[6..10]) > |data| - 10
    ensures DecodeCommand(data).Err? ==> DecodeCommand(data).error == PayloadTooShort
    ensures DecodeResponse(data).Err? ==> DecodeResponse(data).error == PayloadTooShort
  {
    if |data| >= 10 {
      NumberIsFromBe32(data[6..10]);
    }
  }

  lemma BodyCanonical(data: seq<byte>)
    requires BodyFits(data)
    ensures
      var n := FromBe32(data[6..10]);
      EncodeBody(FromBe32(data[0..4]), FromBe16(data[4..6]), data[10..10 + n]) == data[..10 + n]
  {
    var n := FromBe32(data[6..10]);
    FromBe32RoundTrip(data[0..4]);
    FromBe16RoundTrip(data[4..6]);
    FromBe32RoundTrip(data[6..10]);
    assert data[..10 + n] == data[0..4] + data[4..6] + data[6..10] + data[10..10 + n];
  }

  /** A command body is accepted exactly when it starts with some encoded command. */
  lemma CommandCanonical(data: seq<byte>)
    ensures DecodeCommand(data).Ok? <==>
            exists c: Command :: |c.payload| < TWO32 && EncodeCommand(c) <= data
    ensures DecodeCommand(data).Ok? ==> EncodeCommand(DecodeCommand(data).value) <= data
  {
    if BodyFits(data) {
      BodyCanonical(data);
      var c := DecodeCommand(data).value;
      assert |c.payload| < TWO32 && EncodeCommand(c) <= data;
    }
    forall c: Command | |c.payload| < TWO32 && EncodeCommand(c) <= data
      ensures DecodeCommand(data).Ok?
    {
      CommandRoundTrip(c, data[|EncodeCommand(c)|..]);
      assert data == EncodeCommand(c) + data[|EncodeCommand(c)|..];
    }
  }

  lemma ResponseCanonical(data: seq<byte>)
    ensures DecodeResponse(data).Ok? <==>
            exists r: Response :: |r.payload| < TWO32 && EncodeResponse(r) <= data
    ensures DecodeResponse(data).Ok? ==> EncodeResponse(DecodeResponse(data).value) <= data
  {
    if BodyFits(data) {
      BodyCanonical(data);
      var r := DecodeResponse(data).value;
      assert |r.payload| < TWO32 && EncodeResponse(r) <= data;
    }
    forall r: Response | |r.payload| < TWO32 && EncodeResponse(r) <= data
      ensures DecodeResponse(data).Ok?
    {
      ResponseRoundTrip(r, data[|EncodeResponse(r)|..]);
      assert data == EncodeResponse(r) + data[|EncodeResponse(r)|..];
    }
  }

  // ----- frames -----

  predicate FrameSized(frame: seq<byte>) {
    1 <= |frame| <= MAX_FRAME
  }

  /** What WriteFrame puts on the connection. */
  function Framed(frame: seq<byte>): (data: seq<byte>)
    ensures |data| == 4 + |frame|
  {
    Be32(U32(|frame|)) + frame
  }

  /** What ReadFrameInto finds at the start of the bytes that have arrived so far. */
  datatype Arrival = Whole(frame: seq<byte>) | BadLength | Incomplete

  function Arrived(data: seq<byte>): (a: Arrival)
    ensures a.Whole? ==> FrameSized(a.frame) && Framed(a.frame) <= data
  {
    if |data| < 4 then Incomplete
    else
      var n := FromBe32(data[..4]);
      if n <= 0 || n > MAX_FRAME then BadLength
      else if |data| < 4 + n then Incomplete
      else
        FromBe32RoundTrip(data[..4]);
        assert data[..4 + n] == data[..4] + data[4..4 + n];
        Whole(data[4..4 + n])
  }

  /** A frame on the connection: its length in four bytes, then its bytes. */
  lemma FrameLayout(frame: seq<byte>)
    requires |frame| < TWO32
    ensures Number(Framed(frame)[..4]) == |frame| && Framed(frame)[4..] == frame
  {
    NumberOfBe32(|frame|);
    assert Framed(frame)[..4] == Be32(|frame|);
  }

  /** Lengths from 1 byte to 512 MiB are legal, and the length is judged before the bytes are there. */
  lemma ArrivesExactly(data: seq<byte>)
    ensures
      var n := if |data| >= 4 then Number(data[..4]) else 0;
      && (Arrived(data).BadLength? <==> |data| >= 4 && (n == 0 || n > 536870912))
      && (Arrived(data).Whole? <==> |data| >= 4 && 1 <= n <= 536870912 && |data| - 4 >= n)
      && (Arrived(data).Whole? ==> Arrived(data).frame == data[4..4 + n])
  {
    if |data| >= 4 {
      NumberIsFromBe32(data[..4]);
    }
  }

  function Flatten(frames: seq<seq<byte>>): seq<byte> {
    if frames == [] then [] else Framed(frames[0]) + Flatten(frames[1..])
  }

  lemma {:induction false} FlattenConcat(a: seq<seq<byte>>, b: seq<seq<byte>>)
    ensures Flatten(a + b) == Flatten(a) + Flatten(b)
  {
    if a == [] {
      assert a + b == b;
    } else {
      FlattenConcat(a[1..], b);
      assert (a + b)[1..] == a[1..] + b;
      R.Assoc(Framed(a[0]), Flatten(a[1..]), Flatten(b));
    }
  }

  lemma FlattenAppend(frames: seq<seq<byte>>, frame: seq<byte>)
    ensures Flatten(frames + [frame]) == Flatten(frames) + Framed(frame)
  {
    FlattenConcat(frames, [frame]);
    assert [frame][1..] == [];
  }

  /** A whole frame of legal size at the head of the stream is what the reader gets. */
  lemma ArrivedFramed(frame: seq<byte>, rest: seq<byte>)
    requires FrameSized(frame)
    ensures Arrived(Framed(frame) + rest) == Whole(frame)
  {
    var data := Framed(frame) + rest;
    assert data[..4] == Be32(|frame|);
    Be32RoundTrip(|frame|);
    assert data[4..4 + |frame|] == frame;
  }

  /** A torn frame never looks like a whole one, nor like a bad length. */
  lemma ArrivedPartial(frame: seq<byte>, part: seq<byte>)
    requires FrameSized(frame) && part < Framed(frame)
    ensures Arrived(part) == Incomplete
  {
    if |part| >= 4 {
      assert part[..4] == Framed(frame)[..4] == Be32(|frame|);
      Be32RoundTrip(|frame|);
    }
  }

  // ----- what goes into frames, and what the receiver makes of a frame -----

  function CommandFrame(c: Command): seq<byte> {
    EncodeMessage(Message(VERSION1, 0, TYPE_COMMAND, EncodeCommand(c)))
  }

  function ResponseFrame(r: Response): seq<byte> {
    EncodeMessage(Message(VERSION1, 0, TYPE_RESPONSE, EncodeResponse(r)))
  }

  /** The message text of an error. */
  function ErrorText(e: Error): string {
    match e
    case FrameLengthInvalid => "invalid frame length"
    case MagicNumberInvalid => "invalid magic number"
    case PayloadTooShort => "payload too short"
    case EmptyPayload => "empty payload"
    case InvalidProtocolVersion => "invalid protocol version"
    case UnknownMessageType => "unknown message type"
  }

  const NOT_ALLOWED := "Only command and response messages are allowed"

  function Ascii(text: string): (b: seq<byte>)
    ensures |b| == |text|
  {
    seq(|text|, i requires 0 <= i < |text| => text[i] as int % 0x100)
  }

  /** An error reply carries request ID 0, because no command was understood. */
  function ErrorReply(text: string): Response {
    Response(0, STATUS_INVALID_MESSAGE, Ascii(text))
  }

  datatype Verdict = Malformed(text: string) | RunCommand(body: seq<byte>) | GotResponse(response: Response)

  /** What handleMessage does with a frame, before it looks at any connection state. */
  function Classify(frame: seq<byte>): Verdict {
    match DecodeMessage(frame)
    case Err(e) => Malformed(ErrorText(e))
    case Ok(m) =>
      if m.kind == TYPE_COMMAND then RunCommand(m.payload)
      else if m.kind == TYPE_RESPONSE then
        match DecodeResponse(m.payload)
        case Err(e) => Malformed(ErrorText(e))
        case Ok(r) => GotResponse(r)
      else Malformed(NOT_ALLOWED)
  }

  /** A command frame is received as exactly the command that was sent. */
  lemma CommandArrives(c: Command)
    requires FrameSized(CommandFrame(c))
    ensures Classify(CommandFrame(c)) == RunCommand(EncodeCommand(c))
    ensures DecodeCommand(EncodeCommand(c)) == Ok(c)
  {
    var m := Message(VERSION1, 0, TYPE_COMMAND, EncodeCommand(c));
    MessageRoundTrip(m, []);
    assert EncodeMessage(m) + [] == EncodeMessage(m);
    CommandRoundTrip(c, []);
    assert EncodeCommand(c) + [] == EncodeCommand(c);
  }

  lemma ResponseArrives(r: Response)
    requires FrameSized(ResponseFrame(r))
    ensures Classify(ResponseFrame(r)) == GotResponse(r)
  {
    var m := Message(VERSION1, 0, TYPE_RESPONSE, EncodeResponse(r));
    MessageRoundTrip(m, []);
    assert EncodeMessage(m) + [] == EncodeMessage(m);
    ResponseRoundTrip(r, []);
    assert EncodeResponse(r) + [] == EncodeResponse(r);
  }

  /** The frame holds a message of this kind with this payload, whatever its flags and whatever follows. */
  ghost predicate Holds(frame: seq<byte>, kind: byte, payload: seq<byte>) {
    exists flags: byte :: EncodeMessage(Message(VERSION1, flags, kind, payload)) <= frame
  }

  lemma DecodesExactly(frame: seq<byte>, kind: byte, payload: seq<byte>)
    requires kind <= TYPE_RESPONSE && 0 < |payload| < TWO32
    ensures (DecodeMessage(frame).Ok? && DecodeMessage(frame).value.kind == kind
             && DecodeMessage(frame).value.payload == payload) <==> Holds(frame, kind, payload)
  {
    if DecodeMessage(frame).Ok? {
      var m := DecodeMessage(frame).value;
      MessageCanonical(frame);
      if m.kind == kind && m.payload == payload {
        assert EncodeMessage(Message(VERSION1, m.flags, kind, payload)) <= frame;
      }
    }
    forall flags: byte | EncodeMessage(Message(VERSION1, flags, kind, payload)) <= frame
      ensures DecodeMessage(frame) == Ok(Message(VERSION1, flags, kind, payload))
    {
      var data := EncodeMessage(Message(VERSION1, flags, kind, payload));
      MessageRoundTrip(Message(VERSION1, flags, kind, payload), frame[|data|..]);
      assert frame == data + frame[|data|..];
    }
  }

  /** A frame is run as a command exactly if it holds a command message, whatever its body is worth. */
  lemma RunsExactly(frame: seq<byte>, body: seq<byte>)
    requires 0 < |body| < TWO32
    ensures Classify(frame) == RunCommand(body) <==> Holds(frame, 1, body)
  {
    DecodesExactly(frame, 1, body);
  }

  /** A frame counts as a response exactly if it holds a response message with an encoded response. */
  lemma RespondsExactly(frame: seq<byte>, r: Response)
    requires |r.payload| < TWO32
    ensures Classify(frame) == GotResponse(r) <==>
            exists body: seq<byte> :: |body| < TWO32 && EncodeResponse(r) <= body && Holds(frame, 2, body)
  {
    if Classify(frame) == GotResponse(r) {
      var m := DecodeMessage(frame).value;
      DecodesExactly(frame, 2, m.payload);
      ResponseCanonical(m.payload);
    }
    forall body: seq<byte> | |body| < TWO32 && EncodeResponse(r) <= body && Holds(frame, 2, body)
      ensures Classify(frame) == GotResponse(r)
    {
      DecodesExactly(frame, 2, body);
      ResponseRoundTrip(r, body[|EncodeResponse(r)|..]);
      assert body == EncodeResponse(r) + body[|EncodeResponse(r)|..];
    }
  }

  /** Anything else is answered with why it was not understood, which its bytes decide. */
  lemma MalformedSays(frame: seq<byte>)
    ensures |frame| == 0 || (|frame| < 8 && frame[0] == 0x67) ==> Classify(frame) == Malformed("payload too short")
    ensures |frame| > 0 && frame[0] != 0x67 ==> Classify(frame) == Malformed("invalid magic number")
    ensures |frame| >= 8 && frame[0] == 0x67 && frame[1] != 1 ==>
              Classify(frame) == Malformed("invalid protocol version")
    ensures |frame| >= 8 && frame[..2] == [0x67, 1] && frame[3] > 2 ==>
              Classify(frame) == Malformed("unknown message type")
    ensures |frame| >= 8 && frame[..2] == [0x67, 1] && frame[3] <= 2 && frame[4..8] == [0, 0, 0, 0] ==>
              Classify(frame) == Malformed("empty payload")
    ensures |frame| >= 8 && frame[..2] == [0x67, 1] && frame[3] <= 2 && Announced(frame) > |frame| - 8 ==>
              Classify(frame) == Malformed("payload too short")
    ensures |frame| >= 8 && frame[..2] == [0x67, 1] && frame[3] == 0 && 0 < Announced(frame) <= |frame| - 8 ==>
              Classify(frame) == Malformed("Only command and response messages are allowed")
    ensures |frame| >= 8 && frame[..2] == [0x67, 1] && frame[3] == 2 && 0 < Announced(frame) <= |frame| - 8 ==>
              var body := frame[8..8 + Announced(frame)];
              |body| < 10 || Number(body[6..10]) > |body| - 10 ==> Classify(frame) == Malformed("payload too short")
  {
    MessageErrorsExactly(frame);
    if |frame| >= 8 {
      NumberIsFromBe32(frame[4..8]);
      if 0 < Announced(frame) <= |frame| - 8 {
        BodyErrorsExactly(frame[8..8 + Announced(frame)]);
      }
      assert frame[..2] == [0x67, 1] ==> frame[0] == 0x67 && frame[1] == 1;
    }
  }

  /** What an error reply looks like on the wire: ID 0, status 400, and the text. */
  lemma ErrorReplyLayout(text: string)
    requires |text| < TWO32 && forall i :: 0 <= i < |text| ==> text[i] < 128 as char
    ensures
      var body := EncodeResponse(ErrorReply(text));
      && body[..6] == [0, 0, 0, 0, 1, 144] && |body| == 10 + |text|
      && (forall i :: 0 <= i < |text| ==> body[10 + i] == text[i] as int)
  {
    var body := EncodeResponse(ErrorReply(text));
    ResponseLayout(ErrorReply(text));
    assert Be32(0) == [0, 0, 0, 0] && Be16(400) == [1, 144];
    forall i | 0 <= i < |text| ensures body[10 + i] == text[i] as int {
      assert body[10 + i] == body[10..][i];
    }
  }

  /** A frame that no sender of this program produces and that no handler runs. */
  predicate Harmless(frame: seq<byte>) {
    match Classify(frame)
    case Malformed(_) => true
    case RunCommand(body) => DecodeCommand(body).Err?
    case GotResponse(_) => false
  }
}
