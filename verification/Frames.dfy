/**
 Frames over a connection that splits writes and reads into chunks as it likes.

 Socket is one side's view of a stream: the bytes it has handed over so far, and the
 bytes that are still to arrive.  What the network does with each call is laid down in
 advance, in two arbitrary plans, so that a method can blame nobody but the plan.
 */
module Frames {
  import opened Codec
  import opened Runs
  import Wire

  datatype ReadError = Eof | UnexpectedEof | ReadFailed
  datatype WriteError = WriteFailed | ShortWrite

  /** What the network does with one call: how many bytes it moves at most, and whether it reports a failure. */
  datatype Answer = Answer(most: nat, fails: bool)

  /** A write that reports a failure, or takes nothing. */
  predicate Broken(a: Answer) {
    a.fails || a.most == 0
  }

  class Socket {
    const reading: nat -> Answer
    const writing: nat -> Answer
    var readCalls: nat
    var writeCalls: nat
    var sent: seq<byte>
    var incoming: seq<byte>

    constructor (bytes: seq<byte>, reading: nat -> Answer, writing: nat -> Answer)
      ensures sent == [] && incoming == bytes && readCalls == writeCalls == 0
      ensures this.reading == reading && this.writing == writing
    {
      sent, incoming, readCalls, writeCalls := [], bytes, 0, 0;
      this.reading, this.writing := reading, writing;
    }

    /** Some call to Write since the n-th was broken. */
    ghost predicate WriteBroke(n: nat)
      reads this
    {
      exists k :: n <= k < writeCalls && Broken(writing(k))
    }

    /** Some call to Read since the n-th reported a failure. */
    ghost predicate ReadBroke(n: nat)
      reads this
    {
      exists k :: n <= k < readCalls && reading(k).fails
    }

    /** Takes a prefix of the data, also when it fails. */
    method Write(data: Slice) returns (n: nat, failed: bool)
      requires data.Valid()
      modifies this`sent, this`writeCalls
      ensures writeCalls == old(writeCalls) + 1 && failed == writing(old(writeCalls)).fails
      ensures n == (if writing(old(writeCalls)).most <= data.len then writing(old(writeCalls)).most else data.len)
      ensures sent == old(sent) + data.Bytes()[..n]
    {
      var answer := writing(writeCalls);
      writeCalls := writeCalls + 1;
      n := if answer.most <= data.len then answer.most else data.len;
      failed := answer.fails;
      sent := sent + data.arr[data.off..data.off + n];
    }

    /** Delivers some bytes, at least one unless it fails or the stream has ended. */
    method Read(target: Slice) returns (n: nat, error: Option<ReadError>)
      requires target.Valid() && target.len > 0
      modifies this`incoming, this`readCalls, target.arr
      ensures readCalls == old(readCalls) + 1
      ensures n <= target.len && n <= |old(incoming)| && incoming == old(incoming)[n..]
      ensures Wrote(target.arr, target.off, old(incoming)[..n])
      ensures error == if reading(old(readCalls)).fails then Some(ReadFailed)
                       else if old(incoming) == [] then Some(Eof) else None
      ensures error == None ==> n > 0
    {
      var answer := reading(readCalls);
      readCalls := readCalls + 1;
      error := if answer.fails then Some(ReadFailed) else if incoming == [] then Some(Eof) else None;
      var most := if error == None && answer.most == 0 then 1 else answer.most;
      n := if most <= target.len then most else target.len;
      n := if n <= |incoming| then n else |incoming|;
      forall i | 0 <= i < n {
        target.arr[target.off + i] := incoming[i];
      }
      incoming := incoming[n..];
    }
  }

  lemma SplitAt<T>(s: seq<T>, i: nat, n: nat)
    requires i + n <= |s|
    ensures s[i..][n..] == s[i + n..]
    ensures s[i..][..n] == s[i..i + n]
    ensures s[..i] + s[i..i + n] == s[..i + n]
  {
  }

  /** One more chunk behind the `done` bytes that are in place. */
  method ReadSome(conn: Socket, target: Slice, done: nat, ghost bytes: seq<byte>)
    returns (n: nat, error: Option<ReadError>)
    requires target.Valid() && done < target.len && done <= |bytes|
    requires conn.incoming == bytes[done..]
    requires target.arr[target.off..target.off + done] == bytes[..done]
    modifies conn`incoming, conn`readCalls, target.arr
    ensures done + n <= target.len && done + n <= |bytes| && conn.incoming == bytes[done + n..]
    ensures target.arr[target.off..target.off + done + n] == bytes[..done + n]
    ensures forall i :: 0 <= i < target.off || target.off + target.len <= i < target.arr.Length ==>
              target.arr[i] == old(target.arr[i])
    ensures conn.readCalls == old(conn.readCalls) + 1
    ensures error == None ==> n > 0
    ensures error == Some(Eof) ==> conn.incoming == []
    ensures error != Some(UnexpectedEof)
    ensures error == Some(ReadFailed) ==> conn.reading(old(conn.readCalls)).fails
  {
    var a, at := target.arr, target.off + done;
    n, error := conn.Read(target.Sub(done, target.len));
    SplitAt(bytes, done, n);
    assert a[target.off..at] == bytes[..done];
    assert a[at..at + n] == bytes[done..done + n];
    assert a[target.off..at + n] == a[target.off..at] + a[at..at + n];
  }

  /** Reads until the target is full, the stream ends, or a read fails. */
  method ReadFull(conn: Socket, target: Slice) returns (error: Option<ReadError>)
    requires target.Valid()
    modifies conn`incoming, conn`readCalls, target.arr
    ensures forall i :: 0 <= i < target.off || target.off + target.len <= i < target.arr.Length ==>
              target.arr[i] == old(target.arr[i])
    ensures conn.readCalls >= old(conn.readCalls)
    ensures match error
            case None =>
              && target.len <= |old(conn.incoming)|
              && target.Bytes() == old(conn.incoming)[..target.len]
              && conn.incoming == old(conn.incoming)[target.len..]
            case Some(Eof) => target.len > 0 && old(conn.incoming) == [] == conn.incoming
            case Some(UnexpectedEof) => 0 < |old(conn.incoming)| < target.len && conn.incoming == []
            case Some(ReadFailed) => conn.ReadBroke(old(conn.readCalls))
  {
    var done := 0;
    var bytes := conn.incoming;
    error := None;
    while done < target.len && error == None
      invariant done <= target.len && done <= |bytes|
      invariant conn.incoming == bytes[done..]
      invariant target.arr[target.off..target.off + done] == bytes[..done]
      invariant forall i :: 0 <= i < target.off || target.off + target.len <= i < target.arr.Length ==>
                  target.arr[i] == old(target.arr[i])
      invariant conn.readCalls >= old(conn.readCalls)
      invariant error == Some(Eof) ==> conn.incoming == []
      invariant error != Some(UnexpectedEof)
      invariant error == Some(ReadFailed) ==> conn.ReadBroke(old(conn.readCalls))
      decreases target.len - done, error == None
    {
      var n;
      n, error := ReadSome(conn, target, done, bytes);
      done := done + n;
    }
    if done == target.len {
      error := None;
    } else if error == Some(Eof) && done > 0 {
      error := Some(UnexpectedEof);
    }
  }

  datatype FrameRead =
    | Frame(data: Slice)
    | InvalidLength
    | Stopped(error: ReadError)

  /**
   Whether the connection ended between frames, or just after a length prefix, where the
   source cannot tell the two apart.
   */
  predicate LooksClosed(rest: seq<byte>) {
    |rest| == 0 || |rest| == 4
  }

  method ReadFrameInto(conn: Socket, target: Slice) returns (r: FrameRead)
    requires target.Valid()
    modifies conn`incoming, conn`readCalls, target.arr
    ensures conn.readCalls >= old(conn.readCalls)
    ensures forall i :: 0 <= i < target.off ==> target.arr[i] == old(target.arr[i])
    ensures match r
            case Frame(s) =>
              && s.Valid() && Wire.Arrived(old(conn.incoming)) == Wire.Whole(s.Bytes())
              && conn.incoming == old(conn.incoming)[4 + s.len..]
              && (if target.Cap() >= s.len then s == target.Sub(0, s.len) else fresh(s.arr) && s.off == 0)
            case InvalidLength =>
              Wire.Arrived(old(conn.incoming)) == Wire.BadLength && conn.incoming == old(conn.incoming)[4..]
            case Stopped(Eof) => Wire.Arrived(old(conn.incoming)) == Wire.Incomplete && LooksClosed(old(conn.incoming))
            case Stopped(UnexpectedEof) =>
              Wire.Arrived(old(conn.incoming)) == Wire.Incomplete && !LooksClosed(old(conn.incoming))
            case Stopped(ReadFailed) => conn.ReadBroke(old(conn.readCalls))
  {
    ghost var bytes := conn.incoming;
    var lenArr := new byte[4];
    var lenBuf := Slice(lenArr, 0, 4);
    var error := ReadFull(conn, lenBuf);
    if error.Some? {
      return Stopped(error.value);
    }
    assert lenBuf.Bytes() == bytes[..4];
    var n: int := GetUint32(lenBuf);
    if n <= 0 || n > Wire.MAX_FRAME {
      return InvalidLength;
    }
    var frame := Sized(target, n);
    error := ReadFull(conn, frame);
    if error.Some? {
      return Stopped(error.value);
    }
    assert frame.Bytes() == bytes[4..][..n] == bytes[4..4 + n];
    assert bytes[4..][n..] == bytes[4 + n..];
    r := Frame(frame);
  }

  /** `append(lenBuf[:], data...)`: the length prefix and the data in new memory. */
  method Prefixed(data: Slice) returns (frame: Slice)
    requires data.Valid()
    ensures fresh(frame.arr) && frame.Valid() && frame.len == 4 + data.len
    ensures frame.Bytes() == Wire.Framed(data.Bytes())
  {
    var arr := new byte[4 + data.len];
    PutUint32(arr, 0, Wire.U32(data.len));
    assert arr[0..4] == Wire.Be32(Wire.U32(data.len));
    Append(arr, 0, 4, data);
    frame := Slice(arr, 0, 4 + data.len);
  }

  /** Writes until everything is taken, or a write fails or takes nothing. */
  method WriteFull(conn: Socket, data: Slice) returns (error: Option<WriteError>, ghost put: nat)
    requires data.Valid()
    modifies conn`sent, conn`writeCalls
    ensures put <= data.len && conn.sent == old(conn.sent) + data.Bytes()[..put]
    ensures error == None ==> put == data.len
    ensures error == Some(ShortWrite) ==> put < data.len
    ensures conn.writeCalls >= old(conn.writeCalls) && (error.Some? <==> conn.WriteBroke(old(conn.writeCalls)))
    ensures error.Some? ==> conn.writeCalls > 0 && Broken(conn.writing(conn.writeCalls - 1))
    ensures error.Some? ==> (error.value == WriteFailed <==> conn.writing(conn.writeCalls - 1).fails)
  {
    var rest := data;
    ghost var whole := data.Bytes();
    put := 0;
    assert whole[0..] == whole;
    while rest.len > 0
      invariant rest.Valid() && put + rest.len == |whole|
      invariant rest.Bytes() == whole[put..]
      invariant conn.sent == old(conn.sent) + whole[..put]
      invariant conn.writeCalls >= old(conn.writeCalls) && !conn.WriteBroke(old(conn.writeCalls))
      decreases rest.len
    {
      var n, failed := conn.Write(rest);
      assert Broken(conn.writing(conn.writeCalls - 1)) <==> failed || n == 0;
      SplitAt(whole, put, n);
      Assoc(old(conn.sent), whole[..put], whole[put..put + n]);
      put := put + n;
      if failed {
        return Some(WriteFailed), put;
      }
      if n == 0 {
        return Some(ShortWrite), put;
      }
      SubBytes(rest, n, rest.len);
      rest := rest.Sub(n, rest.len);
    }
    error := None;
  }

  /** Hands the whole frame over, however short the individual writes are, or stops part way. */
  method WriteFrame(conn: Socket, data: Slice) returns (error: Option<WriteError>, ghost put: nat)
    requires data.Valid()
    modifies conn`sent, conn`writeCalls
    ensures put <= 4 + data.len && conn.sent == old(conn.sent) + Wire.Framed(data.Bytes())[..put]
    ensures error == None ==> put == 4 + data.len
    ensures error == Some(ShortWrite) ==> put < 4 + data.len
    ensures conn.writeCalls >= old(conn.writeCalls) && (error.Some? <==> conn.WriteBroke(old(conn.writeCalls)))
    ensures error.Some? ==> conn.writeCalls > 0 && Broken(conn.writing(conn.writeCalls - 1))
    ensures error.Some? ==> (error.value == WriteFailed <==> conn.writing(conn.writeCalls - 1).fails)
  {
    var frame := Prefixed(data);
    error, put := WriteFull(conn, frame);
  }

  // ----- whole conversations -----

  /** The frames at the head of a stream, up to a bad length or an incomplete frame. */
  function Parse(data: seq<byte>): seq<seq<byte>>
    decreases |data|
  {
    var a := Wire.Arrived(data);
    if a.Whole? then [a.frame] + Parse(data[4 + |a.frame|..]) else []
  }

  lemma ParseUnfold(data: seq<byte>)
    ensures var a := Wire.Arrived(data);
            Parse(data) == if a.Whole? then [a.frame] + Parse(data[4 + |a.frame|..]) else []
  {
  }

  /** Nothing is invented: the frames read are a prefix of the stream, byte for byte. */
  lemma {:induction false} ParsedIsPrefix(data: seq<byte>)
    ensures Wire.Flatten(Parse(data)) <= data
    decreases |data|
  {
    var a := Wire.Arrived(data);
    if a.Whole? {
      var rest := data[4 + |a.frame|..];
      ParsedIsPrefix(rest);
      FlattenHead(a.frame, Parse(rest));
      PrefixAfter(Wire.Framed(a.frame), Wire.Flatten(Parse(rest)), rest);
      assert data == Wire.Framed(a.frame) + rest;
    }
  }

  lemma FlattenHead(frame: seq<byte>, frames: seq<seq<byte>>)
    ensures Wire.Flatten([frame] + frames) == Wire.Framed(frame) + Wire.Flatten(frames)
  {
    assert ([frame] + frames)[1..] == frames;
  }

  lemma PrefixAfter(front: seq<byte>, a: seq<byte>, b: seq<byte>)
    requires a <= b
    ensures front + a <= front + b
  {
  }

  lemma ParseStep(frame: seq<byte>, rest: seq<byte>)
    requires Wire.FrameSized(frame)
    ensures Parse(Wire.Framed(frame) + rest) == [frame] + Parse(rest)
  {
    Wire.ArrivedFramed(frame, rest);
    assert (Wire.Framed(frame) + rest)[4 + |frame|..] == rest;
  }

  /** Reading back what was written: the frames, in order, whatever follows them. */
  lemma {:induction false} ParseFlatten(frames: seq<seq<byte>>, rest: seq<byte>)
    requires forall i :: 0 <= i < |frames| ==> Wire.FrameSized(frames[i])
    ensures Parse(Wire.Flatten(frames) + rest) == frames + Parse(rest)
  {
    if frames == [] {
      assert Wire.Flatten(frames) + rest == rest;
    } else {
      var tail := Wire.Flatten(frames[1..]);
      ParseFlatten(frames[1..], rest);
      ParseStep(frames[0], tail + rest);
      Assoc(Wire.Framed(frames[0]), tail, rest);
      Assoc([frames[0]], frames[1..], Parse(rest));
      assert [frames[0]] + frames[1..] == frames;
    }
  }

  /** A frame that was cut off by a failed write is never mistaken for a whole one. */
  lemma TornTailIsNoFrame(frames: seq<seq<byte>>, frame: seq<byte>, put: nat)
    requires forall i :: 0 <= i < |frames| ==> Wire.FrameSized(frames[i])
    requires Wire.FrameSized(frame) && put < 4 + |frame|
    ensures Parse(Wire.Flatten(frames) + Wire.Framed(frame)[..put]) == frames
  {
    ParseFlatten(frames, Wire.Framed(frame)[..put]);
    Wire.ArrivedPartial(frame, Wire.Framed(frame)[..put]);
  }

  function Verdicts(frames: seq<seq<byte>>): (vs: seq<Wire.Verdict>)
    ensures |vs| == |frames|
  {
    seq(|frames|, i requires 0 <= i < |frames| => Wire.Classify(frames[i]))
  }

  /** What a run of verdicts asks of the connection: commands to run and responses to deliver. */
  function Asked(vs: seq<Wire.Verdict>): seq<Wire.Verdict> {
    if vs == [] then []
    else (if vs[0].Malformed? then [] else [vs[0]]) + Asked(vs[1..])
  }

  lemma {:induction false} AskedConcat(a: seq<Wire.Verdict>, b: seq<Wire.Verdict>)
    ensures Asked(a + b) == Asked(a) + Asked(b)
  {
    if a == [] {
      assert a + b == b;
    } else {
      AskedConcat(a[1..], b);
      assert (a + b)[1..] == a[1..] + b;
      Assoc(if a[0].Malformed? then [] else [a[0]], Asked(a[1..]), Asked(b));
    }
  }

  lemma SplitVerdicts(a: seq<seq<byte>>, b: seq<seq<byte>>)
    ensures Verdicts(a + b) == Verdicts(a) + Verdicts(b)
  {
  }

  /** A frame with a malformed message inside leaves the frames on either side as they are. */
  lemma MalformedFrameIsIsolated(before: seq<seq<byte>>, bad: seq<byte>, rest: seq<byte>)
    requires forall i :: 0 <= i < |before| ==> Wire.FrameSized(before[i])
    requires Wire.FrameSized(bad) && Wire.Classify(bad).Malformed?
    ensures
      var frames := Parse(Wire.Flatten(before) + (Wire.Framed(bad) + rest));
      Asked(Verdicts(frames)) == Asked(Verdicts(Parse(Wire.Flatten(before) + rest)))
  {
    var after := Parse(rest);
    ParseFlatten(before, Wire.Framed(bad) + rest);
    ParseStep(bad, rest);
    ParseFlatten(before, rest);
    MalformedAsksNothing(before, bad, after);
  }

  lemma MalformedAsksNothing(before: seq<seq<byte>>, bad: seq<byte>, after: seq<seq<byte>>)
    requires Wire.Classify(bad).Malformed?
    ensures Asked(Verdicts(before + ([bad] + after))) == Asked(Verdicts(before + after))
  {
    SplitVerdicts(before, [bad] + after);
    SplitVerdicts([bad], after);
    SplitVerdicts(before, after);
    AskedConcat(Verdicts(before), Verdicts([bad] + after));
    AskedConcat(Verdicts(before), Verdicts(after));
    assert Verdicts([bad] + after)[1..] == Verdicts(after);
  }

  /** One frame off the stream, as far as the frames still to come go. */
  method ReadNext(conn: Socket, buffer: Slice) returns (r: FrameRead, frame: seq<byte>)
    requires buffer.Valid()
    modifies conn`incoming, conn`readCalls, buffer.arr
    ensures conn.readCalls >= old(conn.readCalls)
    ensures match r
            case Frame(s) =>
              && s.Valid() && (s.arr == buffer.arr || fresh(s.arr)) && frame == s.Bytes()
              && |conn.incoming| < |old(conn.incoming)|
              && Parse(old(conn.incoming)) == [frame] + Parse(conn.incoming)
            case Stopped(ReadFailed) => conn.ReadBroke(old(conn.readCalls))
            case _ => Parse(old(conn.incoming)) == []
  {
    ParseUnfold(conn.incoming);
    r := ReadFrameInto(conn, buffer);
    frame := if r.Frame? then r.data.arr[r.data.off..r.data.off + r.data.len] else [];
  }

  /** The reading loop of a connection: frames one after another, into one buffer, until it stops. */
  method ReadAll(conn: Socket, target: Slice) returns (frames: seq<seq<byte>>, end: FrameRead)
    requires target.Valid()
    modifies conn`incoming, conn`readCalls, target.arr
    ensures !end.Frame? && conn.readCalls >= old(conn.readCalls)
    ensures frames <= Parse(old(conn.incoming))
    ensures end == Stopped(ReadFailed) ==> conn.ReadBroke(old(conn.readCalls))
    ensures end != Stopped(ReadFailed) ==> frames == Parse(old(conn.incoming))
  {
    frames := [];
    var buffer := target;
    end := Frame(target);
    ghost var rest := Parse(conn.incoming);
    while end.Frame?
      invariant buffer.Valid() && (buffer.arr == target.arr || fresh(buffer.arr))
      invariant conn.readCalls >= old(conn.readCalls)
      invariant Parse(old(conn.incoming)) == frames + rest
      invariant end.Frame? ==> rest == Parse(conn.incoming)
      invariant end == Stopped(ReadFailed) ==> conn.ReadBroke(old(conn.readCalls))
      invariant !end.Frame? && end != Stopped(ReadFailed) ==> rest == []
      decreases end.Frame?, |conn.incoming|
    {
      var frame;
      end, frame := ReadNext(conn, buffer);
      if end.Frame? {
        buffer, rest := end.data, Parse(conn.incoming);
        Assoc(frames, [frame], rest);
        frames := frames + [frame];
      }
    }
  }

  // ----- what goes in comes out -----

  method Buffer(bytes: seq<byte>) returns (data: Slice)
    ensures fresh(data.arr) && data.Valid() && data.Bytes() == bytes
  {
    var arr := new byte[|bytes|](k requires 0 <= k < |bytes| => bytes[k]);
    data := Slice(arr, 0, |bytes|);
  }

  /** WriteFrame for one frame after another, until one fails. */
  method WriteAll(conn: Socket, frames: seq<seq<byte>>)
    returns (error: Option<WriteError>, ghost whole: nat, ghost put: nat)
    modifies conn`sent, conn`writeCalls
    ensures whole <= |frames| && conn.writeCalls >= old(conn.writeCalls)
    ensures error.Some? <==> conn.WriteBroke(old(conn.writeCalls))
    ensures error == None ==> whole == |frames| && conn.sent == old(conn.sent) + Wire.Flatten(frames)
    ensures error.Some? ==>
              && whole < |frames| && put <= 4 + |frames[whole]|
              && conn.sent == old(conn.sent) + Wire.Flatten(frames[..whole]) + Wire.Framed(frames[whole])[..put]
  {
    whole, error, put := 0, None, 0;
    var i := 0;
    while i < |frames|
      invariant i == whole <= |frames| && error == None
      invariant conn.writeCalls >= old(conn.writeCalls) && !conn.WriteBroke(old(conn.writeCalls))
      invariant conn.sent == old(conn.sent) + Wire.Flatten(frames[..i])
    {
      ghost var before := conn.writeCalls;
      var data := Buffer(frames[i]);
      error, put := WriteFrame(conn, data);
      assert conn.WriteBroke(old(conn.writeCalls)) <==> conn.WriteBroke(before) by {
        assert forall k :: old(conn.writeCalls) <= k < before ==> !Broken(conn.writing(k));
      }
      if error.Some? {
        return;
      }
      assert frames[..i + 1] == frames[..i] + [frames[i]];
      Wire.FlattenAppend(frames[..i], frames[i]);
      Assoc(old(conn.sent), Wire.Flatten(frames[..i]), Wire.Framed(frames[i]));
      whole, i := i + 1, i + 1;
    }
    assert frames[..i] == frames;
  }

  /** A stream that ends in the first bytes of a frame holds the frames before it, and that frame if it is all there. */
  lemma ParseCut(frames: seq<seq<byte>>, whole: nat, put: nat)
    requires forall i :: 0 <= i < |frames| ==> Wire.FrameSized(frames[i])
    requires whole < |frames| && put <= 4 + |frames[whole]|
    ensures Parse(Wire.Flatten(frames[..whole]) + Wire.Framed(frames[whole])[..put]) <= frames
  {
    if put < 4 + |frames[whole]| {
      TornTailIsNoFrame(frames[..whole], frames[whole], put);
    } else {
      var framed := Wire.Framed(frames[whole]);
      assert framed[..put] == framed == framed + [];
      ParseFlatten(frames[..whole], framed);
      ParseStep(frames[whole], []);
      assert frames[..whole + 1] == frames[..whole] + [frames[whole]];
    }
  }

  /**
   Frames written on one side and read on the other, over any two plans of the network:
   what is read is always the first of the frames written, whole and in order, and all
   of them if no write is broken and no read fails.
   */
  method Transfer(frames: seq<seq<byte>>, writing: nat -> Answer, reading: nat -> Answer)
    returns (received: seq<seq<byte>>)
    requires forall i :: 0 <= i < |frames| ==> Wire.FrameSized(frames[i])
    ensures received <= frames
    ensures (forall k: nat :: !Broken(writing(k)) && !reading(k).fails) ==> received == frames
  {
    var sender := new Socket([], reading, writing);
    var error, whole, put := WriteAll(sender, frames);
    ParseFlatten(frames, []);
    assert Wire.Flatten(frames) + [] == Wire.Flatten(frames);
    if error.Some? {
      assert [] + Wire.Flatten(frames[..whole]) == Wire.Flatten(frames[..whole]);
      ParseCut(frames, whole, put);
    } else {
      assert [] + Wire.Flatten(frames) == Wire.Flatten(frames);
    }
    var receiver := new Socket(sender.sent, reading, writing);
    var buffer := Buffer([]);
    var end;
    received, end := ReadAll(receiver, buffer);
  }
}
