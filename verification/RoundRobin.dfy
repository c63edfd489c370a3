/** The endpoint picker of a service and the fairness of its round-robin branch. */
module RoundRobin {
  type Endpoint = nat

  const STRATEGY_RANDOM := "random"
  const STRATEGY_ROUND_ROBIN := "round_robin"

  /** A nil result, an endpoint, or the panic that an empty endpoint list causes. */
  datatype Pick = Nothing | Panic | Picked(endpoint: Endpoint)

  class Service {
    var strategy: string
    var endpoints: map<string, seq<Endpoint>>
    var roundRobinCounter: nat

    constructor (strategy: string, endpoints: map<string, seq<Endpoint>>)
      ensures this.strategy == strategy && this.endpoints == endpoints && roundRobinCounter == 0
    {
      this.strategy, this.endpoints, roundRobinCounter := strategy, endpoints, 0;
    }

    /** Whether a call for this port is one of those that the counter counts. */
    predicate Counts(port: string)
      reads this
    {
      port in endpoints && endpoints[port] != [] && strategy == STRATEGY_ROUND_ROBIN
    }

    method PickEndpoint(port: string) returns (pick: Pick)
      modifies this`roundRobinCounter
      ensures Counts(port) <==> port in endpoints && endpoints[port] != [] && strategy == "round_robin"
      ensures roundRobinCounter == old(roundRobinCounter) + if Counts(port) then 1 else 0
      ensures pick == Nothing <==>
                port !in endpoints || (strategy != "random" && strategy != "round_robin")
      ensures pick == Panic <==>
                && port in endpoints && endpoints[port] == []
                && (strategy == "random" || strategy == "round_robin")
      ensures pick.Picked? ==> pick.endpoint in endpoints[port]
      ensures Counts(port) ==> pick == Picked(endpoints[port][old(roundRobinCounter) % |endpoints[port]|])
    {
      if port !in endpoints {
        return Nothing;
      }
      var choices := endpoints[port];
      if strategy == STRATEGY_RANDOM {
        if choices == [] {
          return Panic;
        }
        var index :| 0 <= index < |choices|;
        return Picked(choices[index]);
      }
      if strategy == STRATEGY_ROUND_ROBIN {
        if choices == [] {
          return Panic;
        }
        var index := roundRobinCounter % |choices|;
        pick := Picked(choices[index]);
        roundRobinCounter := roundRobinCounter + 1;
        return;
      }
      pick := Nothing;
    }
  }

  // ----- which position a call picks -----

  function Turn(counter: nat, k: nat): (index: nat)
    requires k > 0
    ensures index < k
  {
    counter % k
  }

  /**
   How often position p of `port`'s k endpoints is picked by a series of counted calls,
   each for the port named, starting at the given counter.
   */
  function Hits(calls: seq<string>, counter: nat, port: string, k: nat, p: nat): nat
    requires k > 0
  {
    if calls == [] then 0
    else (if calls[0] == port && Turn(counter, k) == p then 1 else 0) + Hits(calls[1..], counter + 1, port, k, p)
  }

  predicate OnlyFor(calls: seq<string>, port: string) {
    forall i :: 0 <= i < |calls| ==> calls[i] == port
  }

  /** Counters at a distance below k take different turns, so p's next turn is (p - counter) mod k calls away. */
  lemma NextTurn(counter: nat, k: nat, p: nat)
    requires p < k
    ensures Turn(counter, k) == p <==> (p - counter) % k == 0
    ensures (p - counter) % k == if Turn(counter, k) == p then 0 else (p - (counter + 1)) % k + 1
  {
    var c, r := counter / k, counter % k;
    assert counter == c * k + r;
    if r <= p {
      Modulo(p - counter, -c, p - r, k);
    } else {
      Modulo(p - counter, -c - 1, p - r + k, k);
    }
    if r < p {
      Modulo(p - (counter + 1), -c, p - r - 1, k);
    } else if r > p {
      Modulo(p - (counter + 1), -c - 1, p - r - 1 + k, k);
    }
  }

  lemma Modulo(x: int, q: int, r: int, k: nat)
    requires k > 0 && 0 <= r < k && x == q * k + r
    ensures x % k == r
  {
    var d := x / k - q;
    assert d * k == r - x % k;
    Multiples(d, k);
  }

  lemma Multiples(d: int, k: nat)
    ensures d >= 1 ==> d * k >= k
    ensures d <= -1 ==> d * k + k <= 0
  {
  }

  /** Within k calls a position has its turn at most once, and exactly once if its turn comes. */
  lemma {:induction false} AtMostOneTurn(calls: seq<string>, counter: nat, port: string, k: nat, p: nat)
    requires p < k && |calls| <= k && OnlyFor(calls, port)
    ensures Hits(calls, counter, port, k, p) == if (p - counter) % k < |calls| then 1 else 0
  {
    if calls != [] {
      NextTurn(counter, k, p);
      AtMostOneTurn(calls[1..], counter + 1, port, k, p);
      if Turn(counter, k) == p {
        var c, r := counter / k, counter % k;
        Modulo(p - (counter + 1), -c - 1, k - 1, k);
      }
    }
  }

  lemma {:induction false} HitsConcat(a: seq<string>, b: seq<string>, counter: nat, port: string, k: nat, p: nat)
    requires k > 0
    ensures Hits(a + b, counter, port, k, p) == Hits(a, counter, port, k, p) + Hits(b, counter + |a|, port, k, p)
  {
    if a == [] {
      assert a + b == b;
    } else {
      HitsConcat(a[1..], b, counter + 1, port, k, p);
      assert (a + b)[1..] == a[1..] + b;
    }
  }

  /**
   In any window of m consecutive calls for one port, whatever the counter was before,
   each of the k positions is picked floor(m / k) or ceil(m / k) times.
   */
  lemma {:induction false} EveryPositionIsServed(calls: seq<string>, counter: nat, port: string, k: nat, p: nat)
    requires p < k && OnlyFor(calls, port)
    ensures |calls| / k <= Hits(calls, counter, port, k, p) <= (|calls| + k - 1) / k
    decreases |calls|
  {
    var m := |calls|;
    if m <= k {
      AtMostOneTurn(calls, counter, port, k, p);
      SmallQuotient(m, k);
    } else {
      AtMostOneTurn(calls[..k], counter, port, k, p);
      EveryPositionIsServed(calls[k..], counter + k, port, k, p);
      HitsConcat(calls[..k], calls[k..], counter, port, k, p);
      assert calls[..k] + calls[k..] == calls;
      OneMore(m - k, k);
      OneMore(m - 1, k);
    }
  }

  lemma SmallQuotient(m: nat, k: nat)
    requires 0 < k && m <= k
    ensures m / k == if m == k then 1 else 0
    ensures (m + k - 1) / k == if m == 0 then 0 else 1
  {
    if m > 0 && m < k {
      Quotient(m + k - 1, 1, m - 1, k);
    } else if m == k {
      Quotient(m + k - 1, 1, k - 1, k);
    }
  }

  lemma OneMore(m: nat, k: nat)
    requires k > 0
    ensures (m + k) / k == m / k + 1
  {
    Quotient(m + k, m / k + 1, m % k, k);
  }

  lemma Quotient(x: int, q: int, r: int, k: nat)
    requires k > 0 && 0 <= r < k && x == q * k + r
    ensures x / k == q
  {
    Modulo(x, q, r, k);
    assert (x / k) * k == q * k;
  }

  /** Two positions of one port are never more than one pick apart. */
  lemma PositionsStayLevel(calls: seq<string>, counter: nat, port: string, k: nat, p: nat, q: nat)
    requires p < k && q < k && OnlyFor(calls, port)
    ensures Hits(calls, counter, port, k, p) <= Hits(calls, counter, port, k, q) + 1
  {
    EveryPositionIsServed(calls, counter, port, k, p);
    EveryPositionIsServed(calls, counter, port, k, q);
    CeilingAndFloor(|calls|, k);
  }

  lemma CeilingAndFloor(m: nat, k: nat)
    requires k > 0
    ensures (m + k - 1) / k <= m / k + 1
  {
    if m % k == 0 {
      Quotient(m + k - 1, m / k, k - 1, k);
    } else {
      Quotient(m + k - 1, m / k + 1, m % k - 1, k);
    }
  }

  // ----- windows in which other ports are called too -----

  /** Only the distance from the counter to the position's next turn matters. */
  lemma {:induction false} OnlyDistanceMatters(calls: seq<string>, c: nat, d: nat, port: string, k: nat, p: nat, q: nat)
    requires p < k && q < k && (p - c) % k == (q - d) % k
    ensures Hits(calls, c, port, k, p) == Hits(calls, d, port, k, q)
  {
    if calls != [] {
      NextTurn(c, k, p);
      NextTurn(d, k, q);
      if Turn(c, k) == p {
        PassedTurn(c, k, p);
        PassedTurn(d, k, q);
      }
      OnlyDistanceMatters(calls[1..], c + 1, d + 1, port, k, p, q);
    }
  }

  lemma PassedTurn(counter: nat, k: nat, p: nat)
    requires p < k && Turn(counter, k) == p
    ensures (p - (counter + 1)) % k == k - 1
  {
    Modulo(p - (counter + 1), -(counter / k) - 1, k - 1, k);
  }

  /** The indices of a caller's calls for a port that have one residue modulo k. */
  function Indices(calls: seq<string>, port: string, k: nat, r: nat): set<nat>
    requires k > 0
  {
    set i: nat | i < |calls| && calls[i] == port && i % k == r
  }

  function CallsAt(calls: seq<string>, port: string, k: nat, r: nat): nat
    requires k > 0
  {
    |Indices(calls, port, k, r)|
  }

  lemma {:induction false} HitsFromZero(calls: seq<string>, port: string, k: nat, r: nat)
    requires k > 0
    ensures Hits(calls, 0, port, k, r) == CallsAt(calls, port, k, r)
  {
    if calls == [] {
      assert Indices(calls, port, k, r) == {};
    } else {
      var n := |calls| - 1;
      var front, last := calls[..n], [calls[n]];
      assert front + last == calls && last[1..] == [];
      HitsConcat(front, last, 0, port, k, r);
      HitsFromZero(front, port, k, r);
      assert Indices(calls, port, k, r) ==
             Indices(front, port, k, r) + if calls[n] == port && n % k == r then {n} else {};
    }
  }

  /** Position p gets the calls that a caller makes at indices of one residue, which the counter selects. */
  lemma HitsByResidue(calls: seq<string>, counter: nat, port: string, k: nat, p: nat)
    requires p < k
    ensures Hits(calls, counter, port, k, p) == CallsAt(calls, port, k, (p - counter) % k)
  {
    var r := (p - counter) % k;
    Modulo(r - 0, 0, r, k);
    OnlyDistanceMatters(calls, counter, 0, port, k, p, r);
    HitsFromZero(calls, port, k, r);
  }

  function CallsFor(calls: seq<string>, port: string): nat {
    if calls == [] then 0 else (if calls[0] == port then 1 else 0) + CallsFor(calls[1..], port)
  }

  /** The hits of the first n positions. */
  function SumHits(calls: seq<string>, counter: nat, port: string, k: nat, n: nat): nat
    requires n <= k && k > 0
  {
    if n == 0 then 0 else SumHits(calls, counter, port, k, n - 1) + Hits(calls, counter, port, k, n - 1)
  }

  lemma {:induction false} SumStep(calls: seq<string>, counter: nat, port: string, k: nat, n: nat)
    requires n <= k && k > 0 && calls != []
    ensures SumHits(calls, counter, port, k, n) ==
            SumHits(calls[1..], counter + 1, port, k, n) + if calls[0] == port && Turn(counter, k) < n then 1 else 0
  {
    if n > 0 {
      SumStep(calls, counter, port, k, n - 1);
    }
  }

  /** Every call for the port hits exactly one position. */
  lemma {:induction false} AllHits(calls: seq<string>, counter: nat, port: string, k: nat)
    requires k > 0
    ensures SumHits(calls, counter, port, k, k) == CallsFor(calls, port)
  {
    if calls == [] {
      NoHits(counter, port, k, k);
    } else {
      SumStep(calls, counter, port, k, k);
      AllHits(calls[1..], counter + 1, port, k);
    }
  }

  lemma {:induction false} NoHits(counter: nat, port: string, k: nat, n: nat)
    requires n <= k && k > 0
    ensures SumHits([], counter, port, k, n) == 0
  {
    if n > 0 {
      NoHits(counter, port, k, n - 1);
    }
  }

  /**
   The caller's own condition: among the indices of its calls for the port, no residue
   modulo k is more than one call ahead of another.
   */
  predicate Level(calls: seq<string>, port: string, k: nat)
    requires k > 0
  {
    forall r, s :: 0 <= r < k && 0 <= s < k ==> CallsAt(calls, port, k, r) <= CallsAt(calls, port, k, s) + 1
  }

  /** If all residues are within one of residue r, so is their average. */
  lemma {:induction false} SumNear(calls: seq<string>, port: string, k: nat, r: nat, n: nat)
    requires r < k && n <= k && Level(calls, port, k)
    ensures
      var h := CallsAt(calls, port, k, r);
      var one := if r < n then 1 else 0;
      n * (h - 1) + one <= SumHits(calls, 0, port, k, n) <= n * (h + 1) - one
  {
    if n > 0 {
      var h := CallsAt(calls, port, k, r);
      SumNear(calls, port, k, r, n - 1);
      HitsFromZero(calls, port, k, n - 1);
      assert h - 1 <= CallsAt(calls, port, k, n - 1) <= h + 1;
      assert n * (h - 1) == (n - 1) * (h - 1) + (h - 1);
      assert n * (h + 1) == (n - 1) * (h + 1) + (h + 1);
    }
  }

  /** Floor and ceiling, from bounds on a multiple. */
  lemma FloorAndCeiling(m: nat, h: nat, k: nat)
    requires k > 0 && k * (h - 1) + 1 <= m <= k * (h + 1) - 1
    ensures m / k <= h <= (m + k - 1) / k
  {
    var q, c := m / k, (m + k - 1) / k;
    assert (q - h) * k == q * k - h * k && (c - h) * k == c * k - h * k;
    Multiples(q - h, k);
    Multiples(c - h, k);
  }

  predicate Fair(calls: seq<string>, counter: nat, port: string, k: nat, p: nat)
    requires k > 0
  {
    CallsFor(calls, port) / k <= Hits(calls, counter, port, k, p) <= (CallsFor(calls, port) + k - 1) / k
  }

  lemma LevelIsFair(calls: seq<string>, counter: nat, port: string, k: nat, p: nat)
    requires p < k && Level(calls, port, k)
    ensures Fair(calls, counter, port, k, p)
  {
    var r := (p - counter) % k;
    HitsByResidue(calls, counter, port, k, p);
    SumNear(calls, port, k, r, k);
    AllHits(calls, 0, port, k);
    FloorAndCeiling(CallsFor(calls, port), CallsAt(calls, port, k, r), k);
  }

  /**
   For any series of calls, other ports among them: every position of the port gets
   floor or ceiling of its share from every starting counter, exactly if the caller's
   calls for the port are level.
   */
  lemma FairExactly(calls: seq<string>, port: string, k: nat)
    requires k > 0
    ensures (forall counter: nat, p: nat :: p < k ==> Fair(calls, counter, port, k, p)) <==> Level(calls, port, k)
  {
    if Level(calls, port, k) {
      forall counter: nat, p: nat | p < k ensures Fair(calls, counter, port, k, p) {
        LevelIsFair(calls, counter, port, k, p);
      }
    }
    if forall counter: nat, p: nat :: p < k ==> Fair(calls, counter, port, k, p) {
      CeilingAndFloor(CallsFor(calls, port), k);
      forall r, s | 0 <= r < k && 0 <= s < k
        ensures CallsAt(calls, port, k, r) <= CallsAt(calls, port, k, s) + 1
      {
        HitsFromZero(calls, port, k, r);
        HitsFromZero(calls, port, k, s);
        assert Fair(calls, 0, port, k, r) && Fair(calls, 0, port, k, s);
      }
    }
  }

  /** Calls for two ports in turn. */
  function Alternating(port: string, other: string, n: nat): (calls: seq<string>)
    ensures |calls| == 2 * n
  {
    if n == 0 then [] else [port, other] + Alternating(port, other, n - 1)
  }

  /**
   The counter is shared by all ports of a service, and call patterns need not be level:
   with two endpoints and calls for two ports in turn, one endpoint never gets a call.
   */
  lemma {:induction false} SharedCounterStarves(port: string, other: string, n: nat, counter: nat)
    requires port != other
    ensures Hits(Alternating(port, other, n), counter, port, 2, (counter + 1) % 2) == 0
    ensures Hits(Alternating(port, other, n), counter, port, 2, counter % 2) == n
  {
    if n > 0 {
      var calls := Alternating(port, other, n);
      SharedCounterStarves(port, other, n - 1, counter + 2);
      assert calls[1..][1..] == Alternating(port, other, n - 1);
      assert (counter + 2) % 2 == counter % 2;
    }
  }
}
