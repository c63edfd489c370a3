/**
 The pending map of a connection, in the form of the source: fields updated in place
 inside the critical sections of sendCmd, handleResponse and close.  Each method is
 tied to the step of Duplex that stands for its critical section.
 */
module Requests {
  import opened Correlation
  import opened Duplex
  import opened DuplexInv
  import opened Wire
  import L = Line
  import R = Runs

  // ----- the allocation loop ends -----

  /** The IDs of the n ticks after `ticks`. */
  function NextIds(ticks: nat, n: nat): set<uint32> {
    if n == 0 then {} else NextIds(ticks, n - 1) + {IdOf(ticks + n)}
  }

  lemma SameId(t: nat, u: nat)
    requires t < u < t + TWO32
    ensures IdOf(t) != IdOf(u)
  {
  }

  lemma {:induction false} NextIdsDistinct(ticks: nat, n: nat, m: nat)
    requires n < m < TWO32 + 1
    ensures IdOf(ticks + m) !in NextIds(ticks, n)
  {
    if n > 0 {
      NextIdsDistinct(ticks, n - 1, m);
      SameId(ticks + n, ticks + m);
    }
  }

  /** Up to 2^32 consecutive ticks stand for as many different IDs. */
  lemma {:induction false} NextIdsCount(ticks: nat, n: nat)
    requires n <= TWO32
    ensures |NextIds(ticks, n)| == n
  {
    if n > 0 {
      NextIdsCount(ticks, n - 1);
      NextIdsDistinct(ticks, n - 1, n);
    }
  }

  lemma {:induction false} NextIdsWithin(ticks: nat, n: nat, used: set<uint32>)
    requires forall t :: ticks < t <= ticks + n ==> IdOf(t) in used
    ensures NextIds(ticks, n) <= used
  {
    if n > 0 {
      NextIdsWithin(ticks, n - 1, used);
      assert IdOf(ticks + n) in used;
    }
  }

  lemma SubsetSize(a: set<uint32>, b: set<uint32>)
    requires a <= b
    ensures |a| <= |b|
  {
    assert b == a + (b - a);
  }

  /** If the next n IDs are all in use, at least n requests are pending. */
  lemma UsedIds(ticks: nat, n: nat, used: set<uint32>)
    requires n <= TWO32 && forall t :: ticks < t <= ticks + n ==> IdOf(t) in used
    ensures n <= |used|
  {
    NextIdsCount(ticks, n);
    NextIdsWithin(ticks, n, used);
    SubsetSize(NextIds(ticks, n), used);
  }

  /** The loop has one outcome, so Duplex's Register step is deterministic up to its call. */
  lemma AllocatesUnique(ticks: nat, used: set<uint32>, t: nat, u: nat)
    requires Allocates(ticks, used, t) && Allocates(ticks, used, u)
    ensures t == u
  {
    assert u < t ==> IdOf(u) in used;
    assert t < u ==> IdOf(t) in used;
  }

  /** Before the counter has been incremented 2^32 times no ID is 0, so error replies match nothing. */
  lemma NeverZeroBeforeWrap(ticks: nat, used: set<uint32>, tick: nat)
    requires Allocates(ticks, used, tick)
    ensures IdOf(tick) == 0 ==> tick >= TWO32
    ensures tick < TWO32 ==> IdOf(tick) == tick
  {
  }

  // ----- the map and its counter -----

  class PendingTable {
    var counter: uint32             // requestIDCounter
    var pending: map<uint32, nat>   // pendingCmds, with the call standing for its channel
    ghost var ticks: nat            // how often the counter was incremented

    ghost predicate Valid()
      reads this
    {
      counter == IdOf(ticks)
    }

    /** This object holds the request state of an endpoint. */
    ghost predicate Holds(me: Endpoint)
      reads this
    {
      Valid() && pending == me.pending && ticks == me.ticks
    }

    constructor ()
      ensures Holds(FRESH)
    {
      counter := 0;
      pending := map[];
      ticks := 0;
    }

    /** atomic.Uint32.Add(1). */
    method Increment()
      requires Valid()
      modifies this`counter, this`ticks
      ensures Valid() && ticks == old(ticks) + 1
    {
      counter := (counter + 1) % TWO32;
      ticks := ticks + 1;
    }

    /**
     The critical section of sendCmd.  The loop ends within |pending| + 1 increments,
     finds an unused ID, and overwrites no other request's entry.
     */
    method Register(call: nat) returns (id: uint32)
      requires Valid() && |pending| < TWO32
      modifies this
      ensures Valid()
      ensures Allocates(old(ticks), old(pending).Keys, ticks) && id == IdOf(ticks)
      ensures pending == old(pending)[id := call] && id !in old(pending)
      ensures ticks <= old(ticks) + |old(pending)| + 1
    {
      ghost var used := pending.Keys;
      assert |used| == |pending|;
      Increment();
      while counter in pending
        invariant Valid() && pending == old(pending)
        invariant old(ticks) < ticks <= old(ticks) + |used| + 1
        invariant forall t :: old(ticks) < t < ticks ==> IdOf(t) in used
        decreases old(ticks) + |used| + 1 - ticks
      {
        assert IdOf(ticks) in used;
        UsedIds(old(ticks), ticks - old(ticks), used);
        Increment();
      }
      id := counter;
      pending := pending[id := call];
    }

    /** The critical section of handleResponse: look up and remove in one step. */
    method Take(id: uint32) returns (call: R.Option<nat>)
      modifies this`pending
      ensures call == if id in old(pending) then R.Some(old(pending)[id]) else R.None
      ensures pending == old(pending) - {id}
    {
      if id in pending {
        call := R.Some(pending[id]);
        pending := pending - {id};
      } else {
        call := R.None;
      }
    }

    /** The deferred cleanup of sendCmd. */
    method Forget(id: uint32)
      modifies this`pending
      ensures pending == old(pending) - {id}
    {
      pending := pending - {id};
    }

    /** The last statement of close. */
    method Clear()
      modifies this`pending
      ensures pending == map[]
    {
      pending := map[];
    }

    /** Running Duplex's steps on the table: registration. */
    method RunRegister(ghost me: Endpoint, ghost bytes: seq<byte>, c: nat) returns (ghost me': Endpoint)
      requires Holds(me) && |pending| < TWO32
      requires IsCall(me, c) && me.jobs[c].pc.Checked? && c !in me.out.writers
      requires FrameSized(CommandFrame(Command(0, me.jobs[c].id, me.jobs[c].payload)))
      modifies this
      ensures Enabled(me, bytes, Duplex.Register(c, ticks)) && me' == Step(me, bytes, Duplex.Register(c, ticks))
      ensures Holds(me')
    {
      var id := Register(c);
      me' := Step(me, bytes, Duplex.Register(c, ticks));
    }

    method RunMatch(ghost me: Endpoint, ghost bytes: seq<byte>, id: uint32)
      returns (call: R.Option<nat>, ghost me': Endpoint)
      requires Holds(me) && me.reader.Matching? && me.reader.response.reqId == id
      modifies this
      ensures me' == Step(me, bytes, Match) && Holds(me')
      ensures call.Some? <==> me'.reader.Delivering?
      ensures call.Some? ==> me'.reader.call == call.value
    {
      call := Take(id);
      me' := Step(me, bytes, Match);
      if call.None? {
        assert me.pending - {id} == me.pending;
      }
    }

    /** The deferred cleanup of a call that has its result: whatever is registered under its ID goes. */
    method RunCleanup(ghost me: Endpoint, ghost bytes: seq<byte>, c: nat, id: uint32) returns (ghost me': Endpoint)
      requires Holds(me) && Enabled(me, bytes, Cleanup(c)) && id == IdOf(me.jobs[c].tick)
      modifies this
      ensures me' == Step(me, bytes, Cleanup(c)) && Holds(me')
      ensures id !in pending
      ensures forall i :: i in old(pending) && i != id ==> i in pending && pending[i] == old(pending)[i]
    {
      Forget(id);
      me' := Step(me, bytes, Cleanup(c));
    }

    /** The last statement of close: no later response finds a channel. */
    method RunClear(ghost me: Endpoint, ghost bytes: seq<byte>) returns (ghost me': Endpoint)
      requires Holds(me) && Enabled(me, bytes, Net(L.ClearPending))
      modifies this
      ensures me' == Step(me, bytes, Net(L.ClearPending)) && Holds(me')
      ensures me'.reader.Matching? ==> AfterMatch(me').reader.Reading?
    {
      Clear();
      me' := Step(me, bytes, Net(L.ClearPending));
    }
  }

  /** Call d's channel is the one registered under its ID. */
  predicate Registered(me: Endpoint, d: nat) {
    IsCall(me, d) && IdOf(me.jobs[d].tick) in me.pending && me.pending[IdOf(me.jobs[d].tick)] == d
  }

  lemma OwnEntry(me: Endpoint, c: nat)
    requires TicksOk(me.jobs, me.ticks) && PendingOk(me) && me.ticks < TWO32
    requires IsCall(me, c) && me.jobs[c].pc.Leaving? && IdOf(me.jobs[c].tick) in me.pending
    ensures Registered(me, c)
  {
    var d := me.pending[IdOf(me.jobs[c].tick)];
    assert EntryOk(me, IdOf(me.jobs[c].tick), d);
    IdsDistinct(me, c, d);
  }

  lemma OthersStayRegistered(me: Endpoint, bytes: seq<byte>, c: nat, d: nat)
    requires Enabled(me, bytes, Cleanup(c)) && Registered(me, d) && d != c
    requires IdOf(me.jobs[c].tick) in me.pending ==> Registered(me, c)
    ensures Registered(Step(me, bytes, Cleanup(c)), d)
  {
  }

  /**
   The cleanup deletes by ID and does not look whose entry it is.  Below 2^32 commands it
   can only be the call's own, so no other request loses its channel.
   */
  lemma CleanupIsOwn(es: seq<(Side, Event)>, s: System, side: Side, c: nat, d: nat)
    requires Run(START, es, s) && Registrations(es, side) < TWO32
    requires var me := At(s, side); IsCall(me, c) && me.jobs[c].pc.Leaving? && Registered(me, d) && d != c
    ensures SysEnabled(s, side, Cleanup(c)) && Registered(At(SysStep(s, side, Cleanup(c)), side), d)
  {
    ReachInv(es, s);
    CounterCountsCommands(es, s, side);
    var me := At(s, side);
    if IdOf(me.jobs[c].tick) in me.pending {
      OwnEntry(me, c);
    }
    OthersStayRegistered(me, At(s, Other(side)).out.bytes, c, d);
  }
}
