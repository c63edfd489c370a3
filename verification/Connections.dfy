/**
 The connection object in the form of the source: the write lock, the write deadline of
 its socket, and close() behind a once.  Each method is one statement of writeFrame or
 close and is tied to the step of Line that stands for it, for whatever other
 goroutines have done before.
 */
module Connections {
  import opened Codec
  import opened Wire
  import L = Line

  class Connection {
    var writeLock: bool        // the channel of capacity one is full
    var deadline: L.Deadline   // of the socket, for writes
    var broken: bool           // the network has failed
    var phase: L.Phase         // how far closeOnce has run
    var sent: seq<byte>        // what the socket has accepted

    constructor ()
      ensures Is(L.EMPTY_LINE)
    {
      writeLock, deadline, broken, phase, sent := false, L.NoDeadline, false, L.Open, [];
    }

    /** The fields are those of the abstract state, which also knows all writers. */
    ghost predicate Is(l: L.Line)
      reads this
    {
      && (writeLock <==> l.lock.Held?) && deadline == l.deadline && broken == l.broken
      && phase == l.phase && sent == l.bytes
    }

    /** `c.writeLock <- struct{}{}`, if it does not block. */
    method TryLock(w: nat, ghost l: L.Line) returns (taken: bool)
      requires Is(l) && L.In(l, w, L.Waiting)
      modifies this`writeLock
      ensures taken <==> L.Enabled(l, L.Acquire(w))
      ensures Is(if taken then L.Step(l, L.Acquire(w)) else l)
    {
      taken := !writeLock;
      writeLock := true;
    }

    /** The second look at both contexts: the caller's, then the connection's. */
    method StillLive(w: nat, ctxDone: bool, ghost l: L.Line) returns (live: bool)
      requires Is(l) && L.In(l, w, L.Locked) && ctxDone == l.writers[w].ctxDone
      ensures live <==> L.Enabled(l, L.Proceed(w))
      ensures !live <==> L.Enabled(l, L.Refuse(w))
    {
      if ctxDone {
        return false;
      }
      live := phase.Open?;
    }

    /** Setting the caller's deadline, which only a closed socket refuses. */
    method SetWriteDeadline(w: nat, timed: bool, ghost l: L.Line) returns (ok: bool)
      requires Is(l) && L.In(l, w, L.Ready) && timed == l.writers[w].timed
      modifies this`deadline
      ensures ok <==> (timed ==> SocketOpen())
      ensures ok ==> L.Enabled(l, L.SetDeadline(w)) && Is(L.Step(l, L.SetDeadline(w)))
      ensures !ok ==> L.Enabled(l, L.DeadlineFails(w)) && Is(L.Step(l, L.DeadlineFails(w)))
    {
      if timed {
        if !SocketOpen() {
          return false;
        }
        deadline := L.Until;
      }
      ok := true;
    }

    predicate SocketOpen()
      reads this
    {
      phase.Open? || phase.Cancelled?
    }

    /** The cancellation callback's call, which may come at any time before it is stopped. */
    method Interrupt(w: nat, ghost l: L.Line)
      requires Is(l) && L.Enabled(l, L.Expire(w))
      modifies this`deadline
      ensures Is(L.Step(l, L.Expire(w)))
    {
      if SocketOpen() {
        deadline := L.Past;
      }
    }

    /** The write deadline passes. */
    method Elapse(ghost l: L.Line)
      requires Is(l) && L.Enabled(l, L.Elapse)
      modifies this`deadline
      ensures Is(L.Step(l, L.Elapse))
    {
      deadline := L.Past;
    }

    /**
     One write of WriteFrame's loop: the socket takes some of the rest of the frame.  It
     fails at once if the deadline is past or the socket closed, may fail if the network
     has, and does not fail otherwise.
     */
    method WriteChunk(w: nat, rest: Slice, ghost l: L.Line) returns (n: nat, failed: bool)
      requires Is(l) && rest.Valid() && rest.len > 0
      requires L.IsWriting(l, w) && rest.Bytes() == L.Slice(l.writers[w], L.Rest(l.writers[w]))
      modifies this`sent
      ensures n <= rest.len
      ensures var e := if failed || n == 0 then L.Fail(w, n) else L.Chunk(w, n);
              L.Enabled(l, e) && Is(L.Step(l, e))
      ensures SocketOpen() && !deadline.Past? && !broken ==> !failed && n > 0
      ensures !SocketOpen() || deadline.Past? ==> failed && n == 0
    {
      if !SocketOpen() || deadline.Past? {
        n, failed := 0, true;
      } else if broken {
        n :| 0 <= n <= rest.len;
        failed := *;
      } else {
        n :| 1 <= n <= rest.len;
        failed := false;
      }
      assert L.Slice(l.writers[w], n) == rest.Bytes()[..n];
      sent := sent + rest.arr[rest.off..rest.off + n];
    }

    /** `SetWriteDeadline(time.Time{})` after the callback can no longer run. */
    method ResetDeadline(w: nat, ghost l: L.Line)
      requires Is(l) && L.Enabled(l, L.Reset(w))
      modifies this`deadline
      ensures Is(L.Step(l, L.Reset(w)))
    {
      if SocketOpen() {
        deadline := L.NoDeadline;
      }
    }

    /** The deferred receive from the lock channel. */
    method Unlock(w: nat, ghost l: L.Line)
      requires Is(l) && L.Enabled(l, L.Release(w))
      modifies this`writeLock
      ensures Is(L.Step(l, L.Release(w)))
    {
      writeLock := false;
    }

    /**
     What one call of close() does: the first runs the three statements of the once, any
     other does nothing, though it returns only when the first has run them.
     */
    method Close(ghost l: L.Line)
      requires Is(l)
      modifies this`phase
      ensures Is(AfterClose(l))
    {
      if !phase.Open? {
        return;
      }
      phase := L.Cancelled;
      assert Is(L.Step(l, L.Cancel));
      phase := L.NetClosed;
      assert Is(L.Step(L.Step(l, L.Cancel), L.CloseNet));
      phase := L.Closed;
    }

    /** The three steps of the once, when nobody moves in between. */
    ghost function AfterClose(l: L.Line): L.Line {
      if l.phase.Open? then L.Step(L.Step(L.Step(l, L.Cancel), L.CloseNet), L.ClearPending) else l
    }
  }
}
