/**
 The codec as it works in memory: encoders that write into a target buffer by
 offset, decoders that fill a struct whose payload shares the input's bytes, and
 the loops that move frames over a connection in short chunks.

 Each method is tied to the pure function in Wire that says what it computes.
 */
module Codec {
  import opened Runs
  import Wire

  type byte = Wire.byte

  /** A Go byte slice: a window on an array, whose capacity runs to the array's end. */
  datatype Slice = Slice(arr: array<byte>, off: nat, len: nat) {
    ghost predicate Valid() {
      off + len <= arr.Length
    }

    function Cap(): nat
      requires Valid()
    {
      arr.Length - off
    }

    function Bytes(): seq<byte>
      requires Valid()
      reads arr
    {
      arr[off..off + len]
    }

    /** `s[from:to]`, which Go bounds by the capacity. */
    function Sub(from: nat, to: nat): (s: Slice)
      requires Valid() && from <= to <= Cap()
      ensures s.Valid()
    {
      Slice(arr, off + from, to - from)
    }
  }

  lemma SubBytes(s: Slice, from: nat, to: nat)
    requires s.Valid() && from <= to <= s.len
    ensures s.Sub(from, to).Bytes() == s.Bytes()[from..to]
  {
    assert forall i :: 0 <= i < to - from ==> s.Sub(from, to).Bytes()[i] == s.Bytes()[from..to][i];
  }

  class Message {
    var version: byte
    var flags: byte
    var kind: byte
    var payload: Slice

    constructor (nothing: Slice)
      requires nothing.len == 0
      ensures version == 0 && flags == 0 && kind == 0 && payload == nothing
    {
      version, flags, kind, payload := 0, 0, 0, nothing;
    }

    ghost function Value(): Wire.Message
      requires payload.Valid()
      reads this, payload.arr
    {
      Wire.Message(version, flags, kind, payload.Bytes())
    }
  }

  class Command {
    var reqId: Wire.uint32
    var id: Wire.uint16
    var payload: Slice

    constructor (nothing: Slice)
      requires nothing.len == 0
      ensures reqId == 0 && id == 0 && payload == nothing
    {
      reqId, id, payload := 0, 0, nothing;
    }

    ghost function Value(): Wire.Command
      requires payload.Valid()
      reads this, payload.arr
    {
      Wire.Command(reqId, id, payload.Bytes())
    }
  }

  class Response {
    var reqId: Wire.uint32
    var code: Wire.uint16
    var payload: Slice

    constructor (nothing: Slice)
      requires nothing.len == 0
      ensures reqId == 0 && code == 0 && payload == nothing
    {
      reqId, code, payload := 0, 0, nothing;
    }

    ghost function Value(): Wire.Response
      requires payload.Valid()
      reads this, payload.arr
    {
      Wire.Response(reqId, code, payload.Bytes())
    }
  }

  // ----- encoding in place -----

  /** The array holds `b` at `at` and is otherwise as it was. */
  twostate predicate Wrote(a: array<byte>, at: nat, new b: seq<byte>)
    requires at + |b| <= a.Length
    reads a
  {
    && a[at..at + |b|] == b
    && (forall i :: 0 <= i < at || at + |b| <= i < a.Length ==> a[i] == old(a[i]))
  }

  method PutUint16(a: array<byte>, at: nat, v: Wire.uint16)
    requires at + 2 <= a.Length
    modifies a
    ensures Wrote(a, at, Wire.Be16(v))
  {
    a[at], a[at + 1] := v / 0x100, v % 0x100;
  }

  method PutUint32(a: array<byte>, at: nat, v: Wire.uint32)
    requires at + 4 <= a.Length
    modifies a
    ensures Wrote(a, at, Wire.Be32(v))
  {
    PutUint16(a, at, v / 0x1_0000);
    assert a[at..at + 2] == Wire.Be16(v / 0x1_0000);
    PutUint16(a, at + 2, v % 0x1_0000);
    assert a[at..at + 4] == a[at..at + 2] + a[at + 2..at + 4];
  }

  /** Reslice the target to the wanted length, or allocate when its capacity is too small. */
  method Sized(target: Slice, length: nat) returns (out: Slice)
    requires target.Valid()
    ensures out.Valid() && out.len == length
    ensures target.Cap() >= length ==> out == target.Sub(0, length)
    ensures target.Cap() < length ==> fresh(out.arr) && out.off == 0 && out.arr.Length == length
  {
    if target.Cap() < length {
      var arr := new byte[length];
      out := Slice(arr, 0, length);
    } else {
      out := target.Sub(0, length);
    }
  }

  /** Go's `copy`: the source is read as it was before the first byte moves, so overlap is harmless. */
  method Copy(a: array<byte>, at: nat, source: Slice)
    requires source.Valid() && at + source.len <= a.Length
    modifies a
    ensures Wrote(a, at, old(source.Bytes()))
  {
    forall i | 0 <= i < source.len {
      a[at + i] := source.arr[source.off + i];
    }
  }

  /** The payload has no byte in `a[from..to]`. */
  predicate Apart(a: array<byte>, from: nat, to: nat, payload: Slice) {
    payload.arr != a || payload.len == 0 || payload.off + payload.len <= from || to <= payload.off
  }

  /**
   Writing a header of `header` bytes at the target would overwrite payload bytes that
   are still to be copied: the target is large enough to be reused and the payload
   has bytes in the header's place.
   */
  predicate Clobbers(target: Slice, header: nat, payload: Slice)
    requires target.Valid()
  {
    target.Cap() >= header + payload.len && !Apart(target.arr, target.off, target.off + header, payload)
  }

  /** The payload's bytes once a header has been written at `at`: what the encoder then copies. */
  ghost function Seen(a: array<byte>, at: nat, header: seq<byte>, payload: Slice): (bytes: seq<byte>)
    requires at + |header| <= a.Length && payload.Valid()
    reads a, payload.arr
    ensures |bytes| == payload.len
    ensures Apart(a, at, at + |header|, payload) ==> bytes == payload.Bytes()
  {
    if payload.arr == a then (a[..at] + header + a[at + |header|..])[payload.off..payload.off + payload.len]
    else payload.Bytes()
  }

  /** Where an encoder's output is: the target's own memory when it is large enough, else new memory. */
  twostate predicate Placed(target: Slice, new out: Slice, length: nat)
    requires target.Valid()
    reads target.arr
  {
    && out.Valid() && out.len == length
    && (if target.Cap() >= length then out == target.Sub(0, length) else fresh(out.arr) && out.off == 0)
    && (forall i :: 0 <= i < target.off || target.off + length <= i < target.arr.Length ==>
          target.arr[i] == old(target.arr[i]))
  }

  /** A header already in place and the payload behind it make the output. */
  method Append(a: array<byte>, at: nat, header: nat, payload: Slice)
    requires payload.Valid() && at + header + payload.len <= a.Length
    modifies a
    ensures Wrote(a, at, old(a[at..at + header] + payload.Bytes()))
  {
    ghost var first := a[at..at + header];
    ghost var rest := payload.Bytes();
    Copy(a, at + header, payload);
    assert a[at + header..at + header + |rest|] == rest;
    assert a[at..at + header] == first;
    assert a[at..at + header + |rest|] == first + rest;
  }

  ghost function MessageHeader(msg: Message): (header: seq<byte>)
    reads msg
    ensures |header| == 8
  {
    [Wire.MAGIC, msg.version, msg.flags, msg.kind] + Wire.Be32(Wire.U32(msg.payload.len))
  }

  method PutMessageHeader(a: array<byte>, at: nat, msg: Message)
    requires at + 8 <= a.Length
    modifies a
    ensures Wrote(a, at, MessageHeader(msg))
  {
    a[at], a[at + 1], a[at + 2], a[at + 3] := Wire.MAGIC, msg.version, msg.flags, msg.kind;
    PutUint32(a, at + 4, Wire.U32(msg.payload.len));
    assert a[at + 4..at + 8] == Wire.Be32(Wire.U32(msg.payload.len));
    assert a[at..at + 8] == [a[at], a[at + 1], a[at + 2], a[at + 3]] + a[at + 4..at + 8];
  }

  method FillMessage(a: array<byte>, at: nat, msg: Message)
    requires msg.payload.Valid() && at + 8 + msg.payload.len <= a.Length
    modifies a
    ensures forall i :: 0 <= i < at || at + 8 + msg.payload.len <= i < a.Length ==> a[i] == old(a[i])
    ensures a[at..at + 8 + msg.payload.len] ==
            Wire.EncodeMessage(old(msg.Value().(payload := Seen(a, at, MessageHeader(msg), msg.payload))))
  {
    ghost var seen := Seen(a, at, MessageHeader(msg), msg.payload);
    ghost var before := a[..];
    PutMessageHeader(a, at, msg);
    assert a[..at] == before[..at] && a[at..at + 8] == MessageHeader(msg) && a[at + 8..] == before[at + 8..];
    assert a[..] == before[..at] + MessageHeader(msg) + before[at + 8..];
    assert msg.payload.Bytes() == seen;
    Append(a, at, 8, msg.payload);
  }

  method EncodeMessageInto(msg: Message, target: Slice) returns (out: Slice)
    requires msg.payload.Valid() && target.Valid()
    modifies target.arr
    ensures Placed(target, out, 8 + msg.payload.len)
    ensures !Clobbers(target, 8, msg.payload) ==> out.Bytes() == Wire.EncodeMessage(old(msg.Value()))
    ensures Clobbers(target, 8, msg.payload) ==>
              out.Bytes() == Wire.EncodeMessage(old(msg.Value().(
                payload := Seen(target.arr, target.off, MessageHeader(msg), msg.payload))))
  {
    out := Sized(target, 8 + msg.payload.len);
    FillMessage(out.arr, out.off, msg);
  }

  function BodyHeader(reqId: Wire.uint32, code: Wire.uint16, n: nat): (header: seq<byte>)
    ensures |header| == 10
  {
    Wire.Be32(reqId) + Wire.Be16(code) + Wire.Be32(Wire.U32(n))
  }

  method PutBodyHeader(a: array<byte>, at: nat, reqId: Wire.uint32, code: Wire.uint16, n: nat)
    requires at + 10 <= a.Length
    modifies a
    ensures Wrote(a, at, BodyHeader(reqId, code, n))
  {
    PutUint32(a, at, reqId);
    assert a[at..at + 4] == Wire.Be32(reqId);
    PutUint16(a, at + 4, code);
    assert a[at..at + 4] == Wire.Be32(reqId);
    assert a[at + 4..at + 6] == Wire.Be16(code);
    PutUint32(a, at + 6, Wire.U32(n));
    assert a[at..at + 4] == Wire.Be32(reqId);
    assert a[at + 4..at + 6] == Wire.Be16(code);
    assert a[at..at + 10] == a[at..at + 4] + a[at + 4..at + 6] + a[at + 6..at + 10];
  }

  method FillBody(a: array<byte>, at: nat, reqId: Wire.uint32, code: Wire.uint16, payload: Slice)
    requires payload.Valid() && at + 10 + payload.len <= a.Length
    modifies a
    ensures forall i :: 0 <= i < at || at + 10 + payload.len <= i < a.Length ==> a[i] == old(a[i])
    ensures a[at..at + 10 + payload.len] ==
            Wire.EncodeBody(reqId, code, old(Seen(a, at, BodyHeader(reqId, code, payload.len), payload)))
  {
    ghost var header := BodyHeader(reqId, code, payload.len);
    ghost var seen := Seen(a, at, header, payload);
    ghost var before := a[..];
    PutBodyHeader(a, at, reqId, code, payload.len);
    assert a[..at] == before[..at] && a[at..at + 10] == header && a[at + 10..] == before[at + 10..];
    assert a[..] == before[..at] + header + before[at + 10..];
    assert payload.Bytes() == seen;
    Append(a, at, 10, payload);
  }

  /** Request ID, two-byte code, payload length, payload: the layout commands and responses share. */
  method EncodeBodyInto(reqId: Wire.uint32, code: Wire.uint16, payload: Slice, target: Slice) returns (out: Slice)
    requires payload.Valid() && target.Valid()
    modifies target.arr
    ensures Placed(target, out, 10 + payload.len)
    ensures !Clobbers(target, 10, payload) ==>
              out.Bytes() == Wire.EncodeBody(reqId, code, old(payload.Bytes()))
    ensures Clobbers(target, 10, payload) ==>
              out.Bytes() == Wire.EncodeBody(reqId, code,
                old(Seen(target.arr, target.off, BodyHeader(reqId, code, payload.len), payload)))
  {
    out := Sized(target, 10 + payload.len);
    FillBody(out.arr, out.off, reqId, code, payload);
  }

  method EncodeCommandInto(cmd: Command, target: Slice) returns (out: Slice)
    requires cmd.payload.Valid() && target.Valid()
    modifies target.arr
    ensures Placed(target, out, 10 + cmd.payload.len)
    ensures !Clobbers(target, 10, cmd.payload) ==> out.Bytes() == Wire.EncodeCommand(old(cmd.Value()))
    ensures Clobbers(target, 10, cmd.payload) ==>
              out.Bytes() == Wire.EncodeCommand(old(cmd.Value().(
                payload := Seen(target.arr, target.off, BodyHeader(cmd.reqId, cmd.id, cmd.payload.len), cmd.payload))))
  {
    out := EncodeBodyInto(cmd.reqId, cmd.id, cmd.payload, target);
  }

  method EncodeResponseInto(resp: Response, target: Slice) returns (out: Slice)
    requires resp.payload.Valid() && target.Valid()
    modifies target.arr
    ensures Placed(target, out, 10 + resp.payload.len)
    ensures !Clobbers(target, 10, resp.payload) ==> out.Bytes() == Wire.EncodeResponse(old(resp.Value()))
    ensures Clobbers(target, 10, resp.payload) ==>
              out.Bytes() == Wire.EncodeResponse(old(resp.Value().(
                payload := Seen(target.arr, target.off, BodyHeader(resp.reqId, resp.code, resp.payload.len),
                                resp.payload))))
  {
    out := EncodeBodyInto(resp.reqId, resp.code, resp.payload, target);
  }

  // ----- decoding in place -----

  method GetUint16(data: Slice) returns (v: Wire.uint16)
    requires data.Valid() && data.len >= 2
    ensures v == Wire.FromBe16(data.Bytes())
  {
    v := data.arr[data.off] as int * 0x100 + data.arr[data.off + 1];
  }

  method GetUint32(data: Slice) returns (v: Wire.uint32)
    requires data.Valid() && data.len >= 4
    ensures v == Wire.FromBe32(data.Bytes())
  {
    var high := GetUint16(data);
    var low := GetUint16(data.Sub(2, 4));
    SubBytes(data, 2, 4);
    v := high as int * 0x1_0000 + low;
  }

  /**
   Fills the target from the data.  On success its payload is a window on the data's
   own memory; on an error the payload is left as it was, though the three bytes
   before it may have been filled in.
   */
  method DecodeMessageInto(data: Slice, target: Message) returns (error: Option<Wire.Error>)
    requires data.Valid()
    modifies target
    ensures match Wire.DecodeMessage(data.Bytes())
            case Err(e) => error == Some(e) && target.payload == old(target.payload)
            case Ok(m) =>
              && error == None
              && 8 + |m.payload| <= data.len && target.payload == data.Sub(8, 8 + |m.payload|)
              && target.Value() == m
  {
    if data.len == 0 {
      return Some(Wire.PayloadTooShort);
    }
    assert data.Bytes()[0] == data.arr[data.off];
    if data.arr[data.off] != Wire.MAGIC {
      return Some(Wire.MagicNumberInvalid);
    }
    if data.len < 8 {
      return Some(Wire.PayloadTooShort);
    }
    if data.arr[data.off + 1] != Wire.VERSION1 {
      return Some(Wire.InvalidProtocolVersion);
    }
    target.version, target.flags, target.kind :=
      data.arr[data.off + 1], data.arr[data.off + 2], data.arr[data.off + 3];
    if target.kind > Wire.TYPE_RESPONSE {
      return Some(Wire.UnknownMessageType);
    }
    SubBytes(data, 4, 8);
    var n: int := GetUint32(data.Sub(4, 8));
    if n == 0 {
      return Some(Wire.EmptyPayload);
    }
    if data.len < 8 + n {
      return Some(Wire.PayloadTooShort);
    }
    target.payload := data.Sub(8, 8 + n);
    SubBytes(data, 8, 8 + n);
    error := None;
  }

  /** The three parts of a command or response body; the payload is a window on the data. */
  method DecodeBody(data: Slice) returns (reqId: Wire.uint32, code: Wire.uint16, payload: Option<Slice>)
    requires data.Valid() && data.len >= 10
    ensures reqId == Wire.FromBe32(data.Bytes()[0..4]) && code == Wire.FromBe16(data.Bytes()[4..6])
    ensures
      var n := Wire.FromBe32(data.Bytes()[6..10]);
      if data.len < 10 + n then payload == None
      else payload == Some(data.Sub(10, 10 + n)) && data.Sub(10, 10 + n).Bytes() == data.Bytes()[10..10 + n]
  {
    SubBytes(data, 0, 4);
    SubBytes(data, 4, 6);
    SubBytes(data, 6, 10);
    reqId := GetUint32(data.Sub(0, 4));
    code := GetUint16(data.Sub(4, 6));
    var n: int := GetUint32(data.Sub(6, 10));
    if data.len < 10 + n {
      return reqId, code, None;
    }
    SubBytes(data, 10, 10 + n);
    payload := Some(data.Sub(10, 10 + n));
  }

  method DecodeCommandInto(msg: Message, target: Command) returns (error: Option<Wire.Error>)
    requires msg.payload.Valid()
    modifies target
    ensures match Wire.DecodeCommand(msg.payload.Bytes())
            case Err(e) => error == Some(e) && target.payload == old(target.payload)
            case Ok(c) =>
              && error == None
              && 10 + |c.payload| <= msg.payload.len && target.payload == msg.payload.Sub(10, 10 + |c.payload|)
              && target.Value() == c
  {
    var data := msg.payload;
    if data.len < 10 {
      return Some(Wire.PayloadTooShort);
    }
    var reqId, code, payload := DecodeBody(data);
    target.reqId, target.id := reqId, code;
    if payload == None {
      return Some(Wire.PayloadTooShort);
    }
    target.payload := payload.value;
    error := None;
  }

  method DecodeResponseInto(msg: Message, target: Response) returns (error: Option<Wire.Error>)
    requires msg.payload.Valid()
    modifies target
    ensures match Wire.DecodeResponse(msg.payload.Bytes())
            case Err(e) => error == Some(e) && target.payload == old(target.payload)
            case Ok(r) =>
              && error == None
              && 10 + |r.payload| <= msg.payload.len && target.payload == msg.payload.Sub(10, 10 + |r.payload|)
              && target.Value() == r
  {
    var data := msg.payload;
    if data.len < 10 {
      return Some(Wire.PayloadTooShort);
    }
    var reqId, code, payload := DecodeBody(data);
    target.reqId, target.code := reqId, code;
    if payload == None {
      return Some(Wire.PayloadTooShort);
    }
    target.payload := payload.value;
    error := None;
  }
}
