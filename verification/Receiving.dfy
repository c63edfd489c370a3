/**
 handleMessage, handleResponse's decoding and writeResponse in memory: pooled buffers
 and message structs, in-place encoding, and the copies that outlive the call.

 A method here is one goroutine between two context switches.  That other goroutines
 never own the same buffers meanwhile is proved over all interleavings in Pools.
 */
module Receiving {
  import opened Codec
  import opened Frames
  import opened Runs
  import Ownership = Pools
  import Wire

  const KEEP_LIMIT := Ownership.KEEP_LIMIT

  /**
   The four pools of the protocol package.  Every buffer of the program starts at the first byte of its
   array, so a pooled buffer is given by its array.
   */
  class Pools {
    var requests: set<array<byte>>
    var responses: set<array<byte>>
    var structs: set<Message>
    var commands: set<Command>
    const nothing: Slice  // the nil slice

    constructor ()
      ensures requests == {} && responses == {} && structs == {} && commands == {} && Valid()
    {
      var none := new byte[0];
      requests, responses, structs, commands := {}, {}, {}, {};
      nothing := Slice(none, 0, 0);
    }

    /** Pooled buffers are small and in one pool only. */
    ghost predicate Valid()
      reads this
    {
      && nothing.Valid() && nothing.len == 0 && requests !! responses
      && (forall a :: a in requests ==> a.Length <= KEEP_LIMIT)
      && (forall a :: a in responses ==> a.Length <= KEEP_LIMIT)
    }

    /**
     What is in the pools of replies afterwards was there before or is new, and what was
     there is there again: every message struct, and every response buffer that `need`
     bytes fit into.  A smaller buffer may have been replaced.
     */
    twostate predicate Kept(need: nat)
      reads this
    {
      && Valid() && fresh(responses - old(responses)) && KeptLarge(need)
      && fresh(structs - old(structs)) && old(structs) <= structs
    }

    twostate predicate KeptLarge(need: nat)
      reads this
    {
      forall a :: a in old(responses) && a.Length >= need ==> a in responses
    }

    method GetRequestBuffer() returns (buf: Slice)
      requires Valid()
      modifies this`requests
      ensures Valid() && requests == old(requests) - {buf.arr}
      ensures buf.off == 0 && buf.len == 0
      ensures buf.arr in old(requests) || fresh(buf.arr)
    {
      var reuse: bool := *;
      if reuse && requests != {} {
        var arr :| arr in requests;
        requests := requests - {arr};
        buf := Slice(arr, 0, 0);
      } else {
        var arr := new byte[1024];
        buf := Slice(arr, 0, 0);
      }
    }

    method PutRequestBuffer(buf: Slice)
      requires Valid() && buf.off == 0 && buf.arr !in responses
      modifies this`requests
      ensures Valid()
      ensures requests == if buf.arr.Length > 65536 then old(requests) else old(requests) + {buf.arr}
    {
      if buf.arr.Length > KEEP_LIMIT {
        return;
      }
      requests := requests + {buf.arr};
    }

    method GetResponseBuffer() returns (buf: Slice)
      requires Valid()
      modifies this`responses
      ensures Valid() && responses == old(responses) - {buf.arr}
      ensures buf.off == 0 && buf.len == 0
      ensures buf.arr in old(responses) || fresh(buf.arr)
    {
      var reuse: bool := *;
      if reuse && responses != {} {
        var arr :| arr in responses;
        responses := responses - {arr};
        buf := Slice(arr, 0, 0);
      } else {
        var arr := new byte[1024];
        buf := Slice(arr, 0, 0);
      }
    }

    method PutResponseBuffer(buf: Slice)
      requires Valid() && buf.off == 0 && buf.arr !in requests
      modifies this`responses
      ensures Valid()
      ensures responses == if buf.arr.Length > 65536 then old(responses) else old(responses) + {buf.arr}
    {
      if buf.arr.Length > KEEP_LIMIT {
        return;
      }
      responses := responses + {buf.arr};
    }

    method GetMessage() returns (m: Message)
      requires Valid()
      modifies this`structs
      ensures Valid() && structs == old(structs) - {m}
      ensures m in old(structs) || fresh(m)
    {
      var reuse: bool := *;
      if reuse && structs != {} {
        m :| m in structs;
        structs := structs - {m};
      } else {
        m := new Message(nothing);
      }
    }

    method PutMessage(m: Message)
      requires Valid()
      modifies this`structs, m
      ensures Valid() && structs == old(structs) + {m}
      ensures m.version == 0 && m.flags == 0 && m.kind == 0 && m.payload == nothing
    {
      m.version, m.flags, m.kind, m.payload := 0, 0, 0, nothing;
      structs := structs + {m};
    }

    method GetCommand() returns (c: Command)
      requires Valid()
      modifies this`commands
      ensures commands == old(commands) - {c}
      ensures c in old(commands) || fresh(c)
    {
      var reuse: bool := *;
      if reuse && commands != {} {
        c :| c in commands;
        commands := commands - {c};
      } else {
        c := new Command(nothing);
      }
    }

    method PutCommand(c: Command)
      modifies this`commands, c
      ensures commands == old(commands) + {c}
      ensures c.reqId == 0 && c.id == 0 && c.payload == nothing
    {
      c.reqId, c.id, c.payload := 0, 0, nothing;
      commands := commands + {c};
    }
  }

  /** bytes.Clone, and the conversion of a string to bytes. */
  method Clone(bytes: seq<byte>) returns (copy: Slice)
    ensures fresh(copy.arr) && copy.Valid() && copy.Bytes() == bytes && copy.off == 0
  {
    var arr := new byte[|bytes|](i requires 0 <= i < |bytes| => bytes[i]);
    copy := Slice(arr, 0, |bytes|);
  }

  /** The response encoded, and the message struct around it. */
  method WrapResponse(resp: Response, msg: Message, body: Slice) returns (body': Slice)
    requires resp.payload.Valid() && body.Valid() && resp.payload.arr != body.arr
    modifies msg, body.arr
    ensures body'.Valid() && msg.payload == body'
    ensures msg.Value() == Wire.Message(Wire.VERSION1, 0, Wire.TYPE_RESPONSE, Wire.EncodeResponse(old(resp.Value())))
    ensures body' == Slice(body.arr, body.off, body'.len) || (fresh(body'.arr) && body'.off == 0)
    ensures body.Cap() >= 10 + resp.payload.len ==> body'.arr == body.arr
  {
    msg.version, msg.flags, msg.kind := Wire.VERSION1, 0, Wire.TYPE_RESPONSE;
    body' := EncodeResponseInto(resp, body);
    msg.payload := body';
  }

  /**
   What reached the connection when a frame was written: all of it, or, if and only if one
   of the writes was broken, that failure is reported and part of it has.
   */
  twostate predicate FrameSent(conn: Socket, frame: seq<byte>, failed: bool)
    reads conn
  {
    && conn.writeCalls >= old(conn.writeCalls)
    && failed == conn.WriteBroke(old(conn.writeCalls))
    && (if failed then old(conn.sent) <= conn.sent <= old(conn.sent) + Wire.Framed(frame)
        else conn.sent == old(conn.sent) + Wire.Framed(frame))
  }

  /** The message encoded into a buffer of its own and written as one frame. */
  method WriteMessage(conn: Socket, msg: Message, data: Slice) returns (data': Slice, failed: bool)
    requires msg.payload.Valid() && data.Valid() && msg.payload.arr != data.arr
    modifies conn`sent, conn`writeCalls, data.arr
    ensures data' == Slice(data.arr, data.off, data'.len) || (fresh(data'.arr) && data'.off == 0)
    ensures data.Cap() >= 8 + msg.payload.len ==> data'.arr == data.arr
    ensures FrameSent(conn, Wire.EncodeMessage(old(msg.Value())), failed)
  {
    data' := EncodeMessageInto(msg, data);
    var error, put := WriteFrame(conn, data');
    failed := error.Some?;
  }

  /** The second buffer and encoding: the message goes out as one frame. */
  method SendWrapped(conn: Socket, msg: Message, pools: Pools) returns (failed: bool)
    requires pools.Valid() && msg.payload.Valid() && msg.payload.arr !in pools.responses
    modifies conn`sent, conn`writeCalls, pools`responses, pools.responses
    ensures pools.Valid() && fresh(pools.responses - old(pools.responses))
    ensures pools.KeptLarge(8 + msg.payload.len)
    ensures FrameSent(conn, Wire.EncodeMessage(old(msg.Value())), failed)
  {
    ghost var wrapped := msg.Value();
    var data := pools.GetResponseBuffer();
    assert msg.Value() == wrapped;
    data, failed := WriteMessage(conn, msg, data);
    pools.PutResponseBuffer(data);
  }

  /** Between taking the message struct and putting it back: two buffers, two encodings, one write. */
  method SendReply(conn: Socket, resp: Response, msg: Message, pools: Pools, ghost value: Wire.Response)
    returns (failed: bool)
    requires pools.Valid() && msg !in pools.structs
    requires resp.payload.Valid() && resp.payload.arr !in pools.responses && resp.Value() == value
    modifies conn`sent, conn`writeCalls, pools`responses, pools.responses, msg
    ensures pools.Valid() && fresh(pools.responses - old(pools.responses))
    ensures pools.KeptLarge(18 + |value.payload|)
    ensures FrameSent(conn, Wire.ResponseFrame(value), failed)
  {
    var body := pools.GetResponseBuffer();
    body := WrapResponse(resp, msg, body);
    failed := SendWrapped(conn, msg, pools);
    pools.PutResponseBuffer(body);
  }

  /** writeResponse: the frame that reaches the connection, whatever the buffers held before. */
  method WriteResponse(conn: Socket, resp: Response, pools: Pools) returns (failed: bool)
    requires pools.Valid()
    requires resp.payload.Valid() && resp.payload.arr !in pools.responses
    modifies conn`sent, conn`writeCalls, pools`responses, pools.responses, pools`structs, pools.structs
    ensures pools.Kept(18 + old(resp.payload.len))
    ensures FrameSent(conn, Wire.ResponseFrame(old(resp.Value())), failed)
  {
    ghost var value := resp.Value();
    var msg := pools.GetMessage();
    assert resp.Value() == value;
    failed := SendReply(conn, resp, msg, pools, value);
    pools.PutMessage(msg);
  }

  /** What one frame comes to, before any connection state is looked at; the payloads are the caller's to keep. */
  datatype Outcome =
    | Complaint(text: string)                                                // not understood
    | Spawned(payload: Slice)                                                // the command message of a new goroutine
    | Delivered(reqId: Wire.uint32, code: Wire.uint16, payload: Slice)       // a response

  /** The outcome says what the frame means, in memory of its own. */
  twostate predicate Meets(new outcome: Outcome, verdict: Wire.Verdict)
    reads if outcome.Complaint? then {} else {outcome.payload.arr}
  {
    match outcome
    case Complaint(text) => verdict == Wire.Malformed(text)
    case Spawned(payload) =>
      fresh(payload.arr) && payload.Valid() && verdict == Wire.RunCommand(payload.Bytes())
    case Delivered(reqId, code, payload) =>
      && fresh(payload.arr) && payload.Valid()
      && verdict == Wire.GotResponse(Wire.Response(reqId, code, payload.Bytes()))
  }

  /** Decodes a frame into the pooled struct and copies out what outlives the call. */
  method Dispatch(frame: Slice, msg: Message, nothing: Slice) returns (outcome: Outcome)
    requires frame.Valid() && nothing.Valid() && nothing.len == 0
    modifies msg
    ensures Meets(outcome, Wire.Classify(frame.Bytes()))
  {
    var error := DecodeMessageInto(frame, msg);
    if error.Some? {
      return Complaint(Wire.ErrorText(error.value));
    }
    if msg.kind == Wire.TYPE_COMMAND {
      var payload := Clone(msg.payload.Bytes());
      return Spawned(payload);
    }
    if msg.kind == Wire.TYPE_RESPONSE {
      var response := new Response(nothing);
      error := DecodeResponseInto(msg, response);
      if error.Some? {
        return Complaint(Wire.ErrorText(error.value));
      }
      var payload := Clone(response.payload.Bytes());
      return Delivered(response.reqId, response.code, payload);
    }
    outcome := Complaint(Wire.NOT_ALLOWED);
  }

  /** The reply to a message that was not understood. */
  method Complain(conn: Socket, text: string, pools: Pools) returns (failed: bool)
    requires pools.Valid()
    modifies conn`sent, conn`writeCalls, pools`responses, pools.responses, pools`structs, pools.structs
    ensures pools.Kept(18 + |text|) && FrameSent(conn, Wire.ResponseFrame(Wire.ErrorReply(text)), failed)
  {
    var payload := Clone(Wire.Ascii(text));
    var resp := new Response(pools.nothing);
    resp.reqId, resp.code, resp.payload := 0, Wire.STATUS_INVALID_MESSAGE, payload;
    assert resp.Value() == Wire.ErrorReply(text);
    failed := WriteResponse(conn, resp, pools);
  }

  /** The longest complaint, encoded and framed as a message. */
  const COMPLAINT := 18 + |Wire.NOT_ALLOWED|

  /** What reached the connection while a frame was handled. */
  twostate predicate Answered(conn: Socket, verdict: Wire.Verdict, failed: bool)
    reads conn
  {
    if verdict.Malformed? then FrameSent(conn, Wire.ResponseFrame(Wire.ErrorReply(verdict.text)), failed)
    else conn.sent == old(conn.sent) && !failed
  }

  /** The outcome's payload is neither in the frame's memory nor in a pool. */
  ghost predicate Separate(outcome: Outcome, frame: Slice, pools: Pools)
    reads pools
  {
    !outcome.Complaint? ==>
      var arr := outcome.payload.arr;
      arr != frame.arr && arr !in pools.requests && arr !in pools.responses
  }

  method AnswerFrame(conn: Socket, frame: Slice, msg: Message, pools: Pools, ghost verdict: Wire.Verdict)
    returns (outcome: Outcome, failed: bool)
    requires frame.Valid() && verdict == Wire.Classify(frame.Bytes())
    requires pools.Valid() && msg !in pools.structs
    modifies conn`sent, conn`writeCalls, pools`responses, pools.responses, pools`structs, pools.structs, msg
    ensures pools.Kept(COMPLAINT)
    ensures Meets(outcome, verdict) && Answered(conn, verdict, failed)
    ensures Separate(outcome, frame, pools)
  {
    outcome := Dispatch(frame, msg, pools.nothing);
    failed := false;
    if outcome.Complaint? {
      failed := Complain(conn, outcome.text, pools);
    }
  }

  /** From a whole frame to its outcome, with a pooled message struct. */
  method HandleFrame(conn: Socket, frame: Slice, pools: Pools, ghost verdict: Wire.Verdict)
    returns (outcome: Outcome, failed: bool)
    requires frame.Valid() && verdict == Wire.Classify(frame.Bytes())
    requires pools.Valid()
    modifies conn`sent, conn`writeCalls, pools`responses, pools.responses, pools`structs, pools.structs
    ensures pools.Kept(COMPLAINT)
    ensures Meets(outcome, verdict) && Answered(conn, verdict, failed)
    ensures Separate(outcome, frame, pools)
  {
    var msg := pools.GetMessage();
    outcome, failed := AnswerFrame(conn, frame, msg, pools, verdict);
    ghost var bytes := if outcome.Complaint? then [] else outcome.payload.Bytes();
    pools.PutMessage(msg);
    assert !outcome.Complaint? ==> outcome.payload.Bytes() == bytes;
  }

  /** How handleMessage ends: the connection is to be closed, or a frame was taken in. */
  datatype Handled = CloseConnection | Took(outcome: Outcome)

  /** A read failed before anything was written, or the reply was written as far as the network let it. */
  twostate predicate ClosedAfter(conn: Socket, text: string)
    reads conn
  {
    || (conn.ReadBroke(old(conn.readCalls)) && conn.sent == old(conn.sent))
    || FrameSent(conn, Wire.ResponseFrame(Wire.ErrorReply(text)), conn.WriteBroke(old(conn.writeCalls)))
  }

  /**
   What handleMessage promises about what is at the head of the stream.  The connection
   is closed if no whole frame of legal size arrives, if a read fails, or if the reply to
   a malformed frame cannot be written; an invalid length is answered first.
   */
  twostate predicate Handles(conn: Socket, new handled: Handled, arrival: Wire.Arrival)
    reads conn, if handled.CloseConnection? || handled.outcome.Complaint? then {} else {handled.outcome.payload.arr}
  {
    match arrival
    case Incomplete => handled.CloseConnection? && conn.sent == old(conn.sent)
    case BadLength => handled.CloseConnection? && ClosedAfter(conn, Wire.ErrorText(Wire.FrameLengthInvalid))
    case Whole(frame) =>
      var verdict := Wire.Classify(frame);
      if handled.Took? then
        && |old(conn.incoming)| >= 4 + |frame| && conn.incoming == old(conn.incoming)[4 + |frame|..]
        && Meets(handled.outcome, verdict) && Answered(conn, verdict, false)
      else
        || (conn.ReadBroke(old(conn.readCalls)) && conn.sent == old(conn.sent))
        || (verdict.Malformed? && Answered(conn, verdict, true))
  }

  method ReceiveInto(conn: Socket, frameBuf: Slice, pools: Pools, ghost arrival: Wire.Arrival)
    returns (frameBuf': Slice, handled: Handled)
    requires arrival == Wire.Arrived(conn.incoming)
    requires frameBuf.off == 0 && frameBuf.Valid() && pools.Valid()
    requires frameBuf.arr !in pools.responses
    modifies conn, frameBuf.arr, pools`responses, pools.responses, pools`structs, pools.structs
    ensures frameBuf'.off == 0 && (frameBuf'.arr == frameBuf.arr || fresh(frameBuf'.arr))
    ensures (arrival.Whole? ==> frameBuf.arr.Length >= |arrival.frame|) ==> frameBuf'.arr == frameBuf.arr
    ensures frameBuf'.arr !in pools.responses
    ensures handled.Took? ==> Separate(handled.outcome, frameBuf', pools)
    ensures pools.Kept(COMPLAINT)
    ensures Handles(conn, handled, arrival)
  {
    frameBuf' := frameBuf;
    var read := ReadFrameInto(conn, frameBuf);
    if read.Frame? {
      frameBuf' := read.data;
      var outcome, failed := HandleFrame(conn, frameBuf', pools, Wire.Classify(frameBuf'.Bytes()));
      handled := if failed then CloseConnection else Took(outcome);
    } else {
      if read == InvalidLength {
        var failed := Complain(conn, Wire.ErrorText(Wire.FrameLengthInvalid), pools);
      }
      handled := CloseConnection;
    }
  }

  /**
   handleMessage.  The frame goes into a buffer of the request pool, or one that replaces
   it; either way it is put back, and what the call leaves behind shares no memory with it.
   */
  method HandleMessage(conn: Socket, pools: Pools, ghost arrival: Wire.Arrival)
    returns (handled: Handled, ghost used: array<byte>)
    requires arrival == Wire.Arrived(conn.incoming)
    requires pools.Valid()
    modifies conn, pools, pools.requests, pools.responses, pools.structs
    ensures pools.Kept(COMPLAINT)
    ensures pools.requests <= old(pools.requests) + {used} && (used in old(pools.requests) || fresh(used))
    ensures Handles(conn, handled, arrival)
    ensures handled.Took? && !handled.outcome.Complaint? ==>
              handled.outcome.payload.arr !in pools.requests && handled.outcome.payload.arr !in pools.responses
    ensures forall a :: a in old(pools.requests) && (arrival.Whole? ==> a.Length >= |arrival.frame|) ==>
              a in pools.requests
  {
    var frameBuf := pools.GetRequestBuffer();
    frameBuf, handled := ReceiveInto(conn, frameBuf, pools, arrival);
    ghost var bytes := if handled.CloseConnection? || handled.outcome.Complaint? then []
        else handled.outcome.payload.Bytes();
    pools.PutRequestBuffer(frameBuf);
    used := frameBuf.arr;
    assert handled.Took? && !handled.outcome.Complaint? ==> handled.outcome.payload.Bytes() == bytes;
  }

  /** The reply to a decoded command carries the command's ID, whatever Execute put there. */
  method Respond(conn: Socket, reqId: Wire.uint32, code: Wire.uint16, result: Slice, pools: Pools)
    returns (failed: bool)
    requires pools.Valid() && result.Valid() && result.arr !in pools.responses
    modifies conn`sent, conn`writeCalls, pools`responses, pools.responses, pools`structs, pools.structs
    ensures pools.Kept(18 + result.len)
    ensures FrameSent(conn, Wire.ResponseFrame(Wire.Response(reqId, code, old(result.Bytes()))), failed)
  {
    var resp := new Response(pools.nothing);
    resp.code, resp.payload := code, result;
    resp.reqId := reqId;
    assert resp.Value() == Wire.Response(reqId, code, result.Bytes());
    failed := WriteResponse(conn, resp, pools);
  }

  /** What the handler sends after the command struct has been filled in, or not. */
  method Reply(conn: Socket, cmd: Command, error: Option<Wire.Error>, code: Wire.uint16, result: Slice, pools: Pools,
               ghost reply: Wire.Response) returns (failed: bool)
    requires pools.Valid() && result.Valid() && result.arr !in pools.responses
    requires reply == if error.Some? then Wire.ErrorReply(Wire.ErrorText(error.value))
                      else Wire.Response(cmd.reqId, code, result.Bytes())
    modifies conn`sent, conn`writeCalls, pools`responses, pools.responses, pools`structs, pools.structs
    ensures pools.Kept(18 + |reply.payload|) && FrameSent(conn, Wire.ResponseFrame(reply), failed)
  {
    if error.Some? {
      failed := Complain(conn, Wire.ErrorText(error.value), pools);
    } else {
      failed := Respond(conn, cmd.reqId, code, result, pools);
    }
  }

  /** Between taking the command struct and putting it back. */
  method AnswerCommand(conn: Socket, msg: Message, cmd: Command, code: Wire.uint16, result: Slice, pools: Pools)
    returns (failed: bool, ghost reply: Wire.Response)
    requires pools.Valid() && msg.payload.Valid() && result.Valid() && result.arr !in pools.responses
    modifies conn`sent, conn`writeCalls, pools`responses, pools.responses, pools`structs, pools.structs, cmd
    ensures reply == match Wire.DecodeCommand(old(msg.payload.Bytes()))
                     case Ok(c) => Wire.Response(c.reqId, code, old(result.Bytes()))
                     case Err(_) => Wire.Response(0, 400, Wire.Ascii("payload too short"))
    ensures pools.Kept(18 + |reply.payload|) && FrameSent(conn, Wire.ResponseFrame(reply), failed)
  {
    Wire.BodyErrorsExactly(msg.payload.Bytes());
    var error := DecodeCommandInto(msg, cmd);
    reply := if error.Some? then Wire.ErrorReply(Wire.ErrorText(error.value))
             else Wire.Response(cmd.reqId, code, result.Bytes());
    failed := Reply(conn, cmd, error, code, result, pools, reply);
  }

  /**
   handleCommand, with a pooled command struct that is blank again when it is put back.
   The reply has the command's ID and otherwise what Execute returned; a body that is not a
   command, and so is not executed, is answered with ID 0 and status 400.
   */
  method HandleCommand(conn: Socket, msg: Message, code: Wire.uint16, result: Slice, pools: Pools)
    returns (failed: bool, ghost reply: Wire.Response, ghost used: Command)
    requires pools.Valid() && msg.payload.Valid() && result.Valid() && result.arr !in pools.responses
    modifies conn`sent, conn`writeCalls, pools`responses, pools.responses,
        pools`structs, pools.structs, pools`commands, pools.commands
    ensures reply == match Wire.DecodeCommand(old(msg.payload.Bytes()))
                     case Ok(c) => Wire.Response(c.reqId, code, old(result.Bytes()))
                     case Err(_) => Wire.Response(0, 400, Wire.Ascii("payload too short"))
    ensures pools.Kept(18 + |reply.payload|) && FrameSent(conn, Wire.ResponseFrame(reply), failed)
    ensures pools.commands == old(pools.commands) + {used} && (used in old(pools.commands) || fresh(used))
  {
    var cmd := pools.GetCommand();
    failed, reply := AnswerCommand(conn, msg, cmd, code, result, pools);
    pools.PutCommand(cmd);
    used := cmd;
  }
}
