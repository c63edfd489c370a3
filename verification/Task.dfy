/**
 Task configurations and CompareTo: the loops and the sorting of the source, the
 relation they decide, and what kind of relation that is.
 */
module Task {
  /** A float32 number of cores.  NaN differs from everything, itself included. */
  datatype Cpu = NaN | Cores(value: real)

  datatype TaskConfig = TaskConfig(
    name: string,
    image: string,
    command: seq<string>,
    env: seq<string>,
    ports: map<string, string>,
    volumes: seq<string>,
    cpu: Cpu,
    memory: int)

  // ----- the order that slices.Sort sorts strings by -----

  predicate Below(a: string, b: string) {
    if a == [] then true
    else if b == [] then false
    else a[0] < b[0] || (a[0] == b[0] && Below(a[1..], b[1..]))
  }

  lemma {:induction false} BelowIsTotal(a: string, b: string)
    ensures Below(a, b) || Below(b, a)
  {
    if a != [] && b != [] {
      BelowIsTotal(a[1..], b[1..]);
    }
  }

  lemma {:induction false} BelowIsAntisymmetric(a: string, b: string)
    requires Below(a, b) && Below(b, a)
    ensures a == b
  {
    if a != [] && b != [] {
      BelowIsAntisymmetric(a[1..], b[1..]);
      assert a == [a[0]] + a[1..] && b == [b[0]] + b[1..];
    }
  }

  lemma {:induction false} BelowIsTransitive(a: string, b: string, c: string)
    requires Below(a, b) && Below(b, c)
    ensures Below(a, c)
  {
    if a != [] && b != [] && c != [] && a[0] == b[0] == c[0] {
      BelowIsTransitive(a[1..], b[1..], c[1..]);
    }
  }

  predicate Sorted(s: seq<string>) {
    forall i, j :: 0 <= i < j < |s| ==> Below(s[i], s[j])
  }

  /** A sorted sequence is determined by its elements. */
  lemma {:induction false} SortedIsUnique(a: seq<string>, b: seq<string>)
    requires Sorted(a) && Sorted(b) && multiset(a) == multiset(b)
    ensures a == b
  {
    assert |multiset(a)| == |a| && |multiset(b)| == |b|;
    if a != [] {
      SameHead(a, b);
      assert a == [a[0]] + a[1..] && b == [b[0]] + b[1..];
      assert multiset(a[1..]) == multiset(a) - multiset{a[0]} == multiset(b[1..]);
      SortedIsUnique(a[1..], b[1..]);
    }
  }

  lemma SameHead(a: seq<string>, b: seq<string>)
    requires Sorted(a) && Sorted(b) && multiset(a) == multiset(b) && |a| > 0 && |b| > 0
    ensures a[0] == b[0]
  {
    assert a[0] in multiset(b) && b[0] in multiset(a);
    var i :| 0 <= i < |b| && b[i] == a[0];
    var j :| 0 <= j < |a| && a[j] == b[0];
    BelowItself(a[0]);
    assert Below(a[0], b[0]) && Below(b[0], a[0]);
    BelowIsAntisymmetric(a[0], b[0]);
  }

  lemma BelowItself(a: string)
    ensures Below(a, a)
  {
    BelowIsTotal(a, a);
  }

  /** Puts one more string into its place. */
  method Insert(sorted: array<string>, n: nat, x: string)
    requires n < sorted.Length && Sorted(sorted[..n])
    modifies sorted
    ensures Sorted(sorted[..n + 1])
    ensures multiset(sorted[..n + 1]) == multiset(old(sorted[..n])) + multiset{x}
    ensures sorted[n + 1..] == old(sorted[n + 1..])
  {
    ghost var before := sorted[..n];
    var at := n;
    sorted[n] := x;
    while at > 0 && !Below(sorted[at - 1], x)
      invariant at <= n
      invariant sorted[..n + 1] == before[..at] + [x] + before[at..]
      invariant sorted[n + 1..] == old(sorted[n + 1..])
      invariant forall k :: at <= k < n ==> Below(x, before[k])
    {
      BelowIsTotal(sorted[at - 1], x);
      assert before[at - 1..] == [before[at - 1]] + before[at..];
      assert before[..at] == before[..at - 1] + [before[at - 1]];
      sorted[at - 1], sorted[at] := x, sorted[at - 1];
      at := at - 1;
    }
    Inserted(before, at, x);
  }

  lemma Inserted(s: seq<string>, at: nat, x: string)
    requires Sorted(s) && at <= |s|
    requires at > 0 ==> Below(s[at - 1], x)
    requires forall k :: at <= k < |s| ==> Below(x, s[k])
    ensures Sorted(s[..at] + [x] + s[at..])
    ensures multiset(s[..at] + [x] + s[at..]) == multiset(s) + multiset{x}
  {
    assert s == s[..at] + s[at..];
    var r := s[..at] + [x] + s[at..];
    forall i, j | 0 <= i < j < |r| ensures Below(r[i], r[j]) {
      InOrder(s, at, x, i, j);
    }
  }

  lemma InOrder(s: seq<string>, at: nat, x: string, i: nat, j: nat)
    requires Sorted(s) && at <= |s| && i < j <= |s|
    requires at > 0 ==> Below(s[at - 1], x)
    requires forall k :: at <= k < |s| ==> Below(x, s[k])
    ensures var r := s[..at] + [x] + s[at..]; Below(r[i], r[j])
  {
    if j < at {
      assert Below(s[i], s[j]);
    } else if j == at {
      BelowItself(s[at - 1]);
      BelowIsTransitive(s[i], s[at - 1], x);
    } else if i == at {
      assert Below(x, s[j - 1]);
    } else if i < at {
      assert Below(s[i], s[j - 1]);
    } else {
      assert Below(s[i - 1], s[j - 1]);
    }
  }

  /** slices.Sort, on a clone. */
  method SortedClone(s: seq<string>) returns (sorted: array<string>)
    ensures fresh(sorted) && Sorted(sorted[..]) && multiset(sorted[..]) == multiset(s)
  {
    sorted := new string[|s|](i requires 0 <= i < |s| => s[i]);
    var n := 0;
    while n < |s|
      invariant n <= |s| == sorted.Length
      invariant Sorted(sorted[..n])
      invariant multiset(sorted[..n]) == multiset(s[..n])
      invariant sorted[n..] == s[n..]
    {
      assert sorted[n] == sorted[n..][0] == s[n];
      assert s[..n + 1] == s[..n] + [s[n]];
      assert sorted[n..][1..] == sorted[n + 1..];
      Insert(sorted, n, sorted[n]);
      n := n + 1;
    }
    assert sorted[..n] == sorted[..] && s[..n] == s;
  }

  // ----- the comparison -----

  function Lookup(ports: map<string, string>, port: string): string {
    if port in ports then ports[port] else ""
  }

  /** The port test: same size, and every entry found, where a missing key reads as "". */
  predicate PortsMatch(a: map<string, string>, b: map<string, string>) {
    |a| == |b| && forall k :: k in a ==> Lookup(b, k) == a[k]
  }

  predicate SameCpu(a: Cpu, b: Cpu) {
    a.Cores? && b.Cores? && a.value == b.value
  }

  /** What it means for a running configuration to satisfy a desired one. */
  predicate Matches(desired: TaskConfig, actual: TaskConfig) {
    && desired.name == actual.name && desired.image == actual.image
    && (desired.command == [] || desired.command == actual.command)
    && SameCpu(desired.cpu, actual.cpu) && desired.memory == actual.memory
    && (forall e :: e in desired.env ==> e in actual.env)
    && PortsMatch(desired.ports, actual.ports)
    && multiset(desired.volumes) == multiset(actual.volumes)
  }

  method CompareTo(t: TaskConfig, other: TaskConfig) returns (same: bool)
    ensures same <==> Matches(t, other)
  {
    if t.name != other.name {
      return false;
    }
    if t.image != other.image {
      return false;
    }
    if |t.command| > 0 && t.command != other.command {
      return false;
    }
    if !SameCpu(t.cpu, other.cpu) {
      return false;
    }
    if t.memory != other.memory {
      return false;
    }
    var i := 0;
    while i < |t.env|
      invariant i <= |t.env| && forall k :: 0 <= k < i ==> t.env[k] in other.env
    {
      if t.env[i] !in other.env {
        return false;
      }
      i := i + 1;
    }
    if |t.ports| != |other.ports| {
      return false;
    }
    var rest := t.ports.Keys;
    while rest != {}
      invariant rest <= t.ports.Keys
      invariant forall k :: k in t.ports && k !in rest ==> Lookup(other.ports, k) == t.ports[k]
      decreases |rest|
    {
      var k :| k in rest;
      if Lookup(other.ports, k) != t.ports[k] {
        return false;
      }
      rest := rest - {k};
    }
    var volumes := SortedClone(t.volumes);
    var otherVolumes := SortedClone(other.volumes);
    if multiset(t.volumes) == multiset(other.volumes) {
      SortedIsUnique(volumes[..], otherVolumes[..]);
    }
    same := volumes[..] == otherVolumes[..];
  }

  // ----- the port test and map equality -----

  predicate NonEmptyHostPorts(ports: map<string, string>) {
    forall k :: k in ports ==> ports[k] != ""
  }

  lemma SameKeys(a: set<string>, b: set<string>)
    requires a <= b && |a| == |b|
    ensures a == b
  {
    assert b == a + (b - a);
  }

  lemma PortsAreEqual(a: map<string, string>, b: map<string, string>)
    requires NonEmptyHostPorts(a)
    ensures PortsMatch(a, b) <==> a == b
  {
    if PortsMatch(a, b) {
      assert forall k :: k in a.Keys ==> k in b.Keys;
      assert |a.Keys| == |a| && |b.Keys| == |b|;
      SameKeys(a.Keys, b.Keys);
      assert forall k :: k in a ==> a[k] == b[k];
    }
  }

  lemma LongerKey(keys: set<string>) returns (key: string)
    ensures forall k :: k in keys ==> |k| < |key|
  {
    if keys == {} {
      key := "0";
    } else {
      var k :| k in keys;
      var longer := LongerKey(keys - {k});
      key := if |k| < |longer| then longer else k + "0";
    }
  }

  /** The port test is equality of maps for a desired map exactly when it names no empty host port. */
  lemma PortsTestIsEqualityExactly(a: map<string, string>)
    ensures (forall b :: PortsMatch(a, b) <==> a == b) <==> NonEmptyHostPorts(a)
  {
    if NonEmptyHostPorts(a) {
      forall b ensures PortsMatch(a, b) <==> a == b {
        PortsAreEqual(a, b);
      }
    } else {
      var k :| k in a && a[k] == "";
      var other := LongerKey(a.Keys);
      var b := (map j | j in a.Keys - {k} :: a[j])[other := "x"];
      assert b.Keys == a.Keys - {k} + {other};
      assert |b| == |b.Keys| == |a.Keys| == |a|;
      assert PortsMatch(a, b) && k !in b;
    }
  }

  // ----- what kind of relation it is -----

  lemma MatchesItself(t: TaskConfig)
    ensures Matches(t, t) <==> t.cpu != NaN
  {
    assert PortsMatch(t.ports, t.ports);
  }

  lemma MatchesIsTransitive(a: TaskConfig, b: TaskConfig, c: TaskConfig)
    requires Matches(a, b) && Matches(b, c)
    requires NonEmptyHostPorts(a.ports)
    ensures Matches(a, c)
  {
    PortsAreEqual(a.ports, b.ports);
  }

  /** A configuration with an empty host port matches one that matches one it does not match. */
  lemma EmptyHostPortBreaksTransitivity(a: TaskConfig) returns (b: TaskConfig, c: TaskConfig)
    requires a.cpu != NaN && !NonEmptyHostPorts(a.ports)
    ensures Matches(a, b) && Matches(b, c) && !Matches(a, c)
  {
    var k :| k in a.ports && a.ports[k] == "";
    var other := LongerKey(a.ports.Keys);
    var shared := map j | j in a.ports.Keys - {k} :: a.ports[j];
    b, c := a.(ports := shared[other := ""]), a.(ports := shared[k := "1"]);
    assert b.ports.Keys == a.ports.Keys - {k} + {other} && c.ports.Keys == a.ports.Keys;
    assert |b.ports| == |b.ports.Keys| == |a.ports.Keys| == |a.ports| && |c.ports| == |c.ports.Keys|;
    assert PortsMatch(a.ports, b.ports) && PortsMatch(b.ports, c.ports);
    assert Lookup(c.ports, k) != a.ports[k];
  }

  /**
   From a configuration on, the relation is transitive exactly if it matches nothing or no
   desired host port is empty.
   */
  lemma TransitiveExactly(a: TaskConfig)
    ensures (forall b, c :: Matches(a, b) && Matches(b, c) ==> Matches(a, c)) <==>
            a.cpu == NaN || NonEmptyHostPorts(a.ports)
  {
    if NonEmptyHostPorts(a.ports) {
      forall b, c | Matches(a, b) && Matches(b, c) ensures Matches(a, c) {
        MatchesIsTransitive(a, b, c);
      }
    } else if a.cpu != NaN {
      var b, c := EmptyHostPortBreaksTransitivity(a);
    }
  }

  /** The entries of a port map that the port test can tell from missing ones. */
  function Published(ports: map<string, string>): map<string, string> {
    map k | k in ports && ports[k] != "" :: ports[k]
  }

  lemma MutualPorts(a: map<string, string>, b: map<string, string>)
    ensures PortsMatch(a, b) && PortsMatch(b, a) <==> |a| == |b| && Published(a) == Published(b)
  {
    if PortsMatch(a, b) && PortsMatch(b, a) {
      forall k ensures k in Published(a) <==> k in Published(b) {
        assert k in a ==> Lookup(b, k) == a[k];
        assert k in b ==> Lookup(a, k) == b[k];
      }
      forall k | k in Published(a) ensures Published(a)[k] == Published(b)[k] {
        assert Lookup(b, k) == a[k];
      }
    }
    if |a| == |b| && Published(a) == Published(b) {
      SamePublished(a, b);
      SamePublished(b, a);
    }
  }

  lemma SamePublished(a: map<string, string>, b: map<string, string>)
    requires Published(a) == Published(b)
    ensures forall k :: k in a ==> Lookup(b, k) == a[k]
  {
    forall k | k in a ensures Lookup(b, k) == a[k] {
      assert k in Published(a) <==> k in Published(b);
      assert k in Published(a) ==> Published(a)[k] == Published(b)[k];
    }
  }

  /**
   Two configurations that match each other ask for the same thing, up to the order of
   volumes, the order and repetition of environment entries, and the keys of ports
   without a host port, of which only the number counts.
   */
  lemma MutualMatch(a: TaskConfig, b: TaskConfig)
    ensures Matches(a, b) && Matches(b, a) <==>
            && a.cpu != NaN
            && a == b.(env := a.env, volumes := a.volumes, ports := a.ports)
            && (forall e :: e in a.env <==> e in b.env)
            && multiset(a.volumes) == multiset(b.volumes)
            && |a.ports| == |b.ports| && Published(a.ports) == Published(b.ports)
  {
    MutualPorts(a.ports, b.ports);
  }

  /**
   How far a configuration that matches may change and still match, field by field: name,
   image, CPU, memory and a desired command not at all; a command that is not desired at
   will; the environment as long as it has the desired entries; volumes in their order; and
   ports as the port test allows.
   */
  lemma MatchesFieldByField(t: TaskConfig, u: TaskConfig)
    requires Matches(t, u)
    ensures forall x :: Matches(t, u.(name := x)) <==> x == u.name
    ensures forall x :: Matches(t, u.(image := x)) <==> x == u.image
    ensures forall x :: Matches(t, u.(cpu := x)) <==> x == u.cpu
    ensures forall x :: Matches(t, u.(memory := x)) <==> x == u.memory
    ensures forall x :: Matches(t, u.(command := x)) <==> t.command == [] || x == u.command
    ensures forall x :: Matches(t, u.(env := x)) <==> forall e :: e in t.env ==> e in x
    ensures forall x :: Matches(t, u.(volumes := x)) <==> multiset(x) == multiset(u.volumes)
    ensures forall x: map<string, string> :: Matches(t, u.(ports := x)) <==>
              |x| == |t.ports| && forall k :: k in t.ports ==> (if k in x then x[k] else "") == t.ports[k]
  {
    assert Matches(t, u.(name := u.name));
  }

  /** What two configurations that satisfy the same desired one have in common. */
  lemma MatchesPins(t: TaskConfig, u: TaskConfig, v: TaskConfig)
    requires Matches(t, u) && Matches(t, v)
    ensures u.name == v.name == t.name && u.image == v.image == t.image
    ensures u.cpu == v.cpu == t.cpu && u.memory == v.memory == t.memory
    ensures t.command != [] ==> u.command == v.command == t.command
    ensures multiset(u.volumes) == multiset(v.volumes) == multiset(t.volumes)
    ensures |u.ports| == |v.ports| == |t.ports|
  {
  }
}
