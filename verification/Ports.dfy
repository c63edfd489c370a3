/** Container ports as they travel: parsed from the desired map's keys, bound, printed again on read-back. */
module Ports {
  import opened Runs

  const MAX_PORT := 65535

  predicate Digits(s: string) {
    forall i :: 0 <= i < |s| ==> '0' <= s[i] <= '9'
  }

  function Value(s: string): nat
    requires Digits(s)
  {
    if s == [] then 0 else Value(s[..|s| - 1]) * 10 + (s[|s| - 1] as int - '0' as int)
  }

  /** An unsigned 16-bit decimal number; leading zeros are allowed. */
  function ParsePort(s: string): Option<nat> {
    if s == [] || !Digits(s) || Value(s) > MAX_PORT then None else Some(Value(s))
  }

  /** strconv.Itoa of a port number. */
  function Itoa(n: nat): (s: string)
    ensures s != [] && Digits(s)
  {
    var last := [(n % 10 + '0' as int) as char];
    if n < 10 then last else Itoa(n / 10) + last
  }

  /** How a number is printed: no leading zero. */
  predicate Canonical(s: string) {
    s != [] && Digits(s) && (|s| > 1 ==> s[0] != '0')
  }

  lemma {:induction false} PrintThenParse(n: nat)
    ensures Canonical(Itoa(n)) && Value(Itoa(n)) == n
    ensures n > 0 ==> Itoa(n)[0] != '0'
  {
    var s := Itoa(n);
    if n >= 10 {
      PrintThenParse(n / 10);
      assert s[..|s| - 1] == Itoa(n / 10);
    }
  }

  lemma {:induction false} ParseThenPrint(s: string)
    requires Canonical(s)
    ensures Itoa(Value(s)) == s
    ensures s[0] != '0' ==> Value(s) > 0
  {
    var front := s[..|s| - 1];
    var d := s[|s| - 1] as int - '0' as int;
    if |s| > 1 {
      ParseThenPrint(front);
      assert Value(s) == Value(front) * 10 + d;
      assert Value(s) / 10 == Value(front) && Value(s) % 10 == d;
      assert s == front + [s[|s| - 1]];
    } else {
      assert front == [] && Value(s) == d;
    }
  }

  /** A parsed key is printed as it was written exactly when it was canonical. */
  lemma PrintsBackExactly(s: string)
    requires ParsePort(s).Some?
    ensures Itoa(ParsePort(s).value) == s <==> Canonical(s)
  {
    PrintThenParse(ParsePort(s).value);
    if Canonical(s) {
      ParseThenPrint(s);
    }
  }

  /** The largest port number and the one after it. */
  lemma LargestPort()
    ensures ParsePort("65535") == Some(65535) && ParsePort("65536") == None
  {
    ValueOf("65535");
    ValueOf("65536");
  }

  /** Leading zeros are read but never printed; nothing but digits is read. */
  lemma KnownPorts()
    ensures ParsePort("0") == Some(0) && ParsePort("80") == Some(80) && ParsePort("080") == Some(80)
    ensures ParsePort("") == None && ParsePort("a") == None && ParsePort("-1") == None
  {
    ValueOf("0");
    ValueOf("80");
    ValueOf("080");
    assert "a"[0] > '9' && "-1"[0] < '0';
  }

  /** Up to five digits, written out. */
  lemma ValueOf(s: string)
    requires Digits(s) && |s| <= 5
    ensures Value(s) == Digit(s, 0) + 10 * (Digit(s, 1) + 10 * (Digit(s, 2) + 10 * (Digit(s, 3) + 10 * Digit(s, 4))))
  {
    if s != [] {
      var front := s[..|s| - 1];
      ValueOf(front);
      assert forall i :: 0 <= i < |front| ==> Digit(s, i + 1) == Digit(front, i);
    }
  }

  /** The i-th digit from the right. */
  function Digit(s: string, i: nat): int {
    if i < |s| then s[|s| - 1 - i] as int - '0' as int else 0
  }

  // ----- the bindings of a container -----

  type Bindings = map<nat, seq<string>>

  predicate Parses(ports: map<string, string>) {
    forall k :: k in ports ==> ParsePort(k).Some?
  }

  ghost predicate Enumerates(keys: seq<string>, ports: map<string, string>) {
    forall k :: k in keys <==> k in ports
  }

  /** The bindings after the keys have been visited; a later key for the same number wins. */
  function Bound(ports: map<string, string>, keys: seq<string>): Bindings {
    if keys == [] then map[]
    else
      var front, k := Bound(ports, keys[..|keys| - 1]), keys[|keys| - 1];
      if k in ports && ParsePort(k).Some? then front[ParsePort(k).value := [ports[k]]] else front
  }

  /** Visits the keys in the order given, which stands for Go's unspecified one. */
  method ConvertPortBindings(ports: map<string, string>, keys: seq<string>) returns (bindings: Option<Bindings>)
    requires Enumerates(keys, ports)
    ensures bindings.Some? <==> Parses(ports)
    ensures Parses(ports) ==> bindings == Some(Bound(ports, keys))
  {
    var result: Bindings := map[];
    var i := 0;
    while i < |keys|
      invariant i <= |keys| && forall j :: 0 <= j < i ==> ParsePort(keys[j]).Some?
      invariant Parses(ports) ==> result == Bound(ports, keys[..i])
    {
      assert keys[i] in ports;
      assert keys[..i + 1][..i] == keys[..i];
      var port := ParsePort(keys[i]);
      if port == None {
        return None;
      }
      result := result[port.value := [ports[keys[i]]]];
      i := i + 1;
    }
    assert keys[..i] == keys;
    bindings := Some(result);
  }

  /** Every number comes from some key, with that key's host port. */
  lemma {:induction false} BoundSays(ports: map<string, string>, keys: seq<string>)
    requires Parses(ports) && forall k :: k in keys ==> k in ports
    ensures forall n :: n in Bound(ports, keys) ==>
              exists k :: k in keys && ParsePort(k) == Some(n) && Bound(ports, keys)[n] == [ports[k]]
    ensures forall k :: k in keys ==> ParsePort(k).value in Bound(ports, keys)
  {
    if keys != [] {
      var front := keys[..|keys| - 1];
      var last := keys[|keys| - 1];
      BoundSays(ports, front);
      forall n | n in Bound(ports, keys)
        ensures exists k :: k in keys && ParsePort(k) == Some(n) && Bound(ports, keys)[n] == [ports[k]]
      {
        if n == ParsePort(last).value {
          assert last in keys;
        } else {
          var k :| k in front && ParsePort(k) == Some(n) && Bound(ports, front)[n] == [ports[k]];
          assert k in keys;
        }
      }
      forall k | k in keys ensures ParsePort(k).value in Bound(ports, keys) {
        if k != last {
          assert k in front;
        }
      }
    }
  }

  /** What inspecting a container gives back: the first binding of each bound port. */
  function ReadPorts(bindings: Bindings): map<string, string> {
    map s | s in Printed(bindings) :: FirstHost(bindings, s)
  }

  function Printed(bindings: Bindings): set<string> {
    set n | n in bindings && bindings[n] != [] :: Itoa(n)
  }

  function FirstHost(bindings: Bindings, s: string): string
    requires s in Printed(bindings)
  {
    PrintedValue(bindings, s);
    bindings[Value(s)][0]
  }

  lemma PrintedValue(bindings: Bindings, s: string)
    requires s in Printed(bindings)
    ensures Digits(s) && Value(s) in bindings && bindings[Value(s)] != [] && Itoa(Value(s)) == s
  {
    var n :| n in bindings && bindings[n] != [] && Itoa(n) == s;
    PrintThenParse(n);
  }

  lemma ReadIffPrinted(bindings: Bindings, n: nat)
    ensures Itoa(n) in Printed(bindings) <==> n in bindings && bindings[n] != []
    ensures n in bindings && bindings[n] != [] ==> FirstHost(bindings, Itoa(n)) == bindings[n][0]
  {
    PrintThenParse(n);
    if Itoa(n) in Printed(bindings) {
      PrintedValue(bindings, Itoa(n));
    }
  }

  lemma ReadOneMore(bindings: Bindings, n: nat, hosts: seq<string>)
    requires n !in bindings
    ensures ReadPorts(bindings[n := hosts]) ==
            if hosts == [] then ReadPorts(bindings) else ReadPorts(bindings)[Itoa(n) := hosts[0]]
  {
    var more := bindings[n := hosts];
    var expected := if hosts == [] then ReadPorts(bindings) else ReadPorts(bindings)[Itoa(n) := hosts[0]];
    ReadIffPrinted(more, n);
    forall s ensures s in ReadPorts(more) <==> s in expected {
      if s in Printed(more) {
        PrintedValue(more, s);
        ReadIffPrinted(bindings, Value(s));
      }
      if s in Printed(bindings) {
        PrintedValue(bindings, s);
        ReadIffPrinted(more, Value(s));
      }
    }
    forall s | s in expected ensures ReadPorts(more)[s] == expected[s] {
      if s != Itoa(n) {
        PrintedValue(bindings, s);
        ReadIffPrinted(more, Value(s));
      }
    }
  }

  /** The loop over a container's bindings, in any order. */
  method CollectPorts(bindings: Bindings) returns (ports: map<string, string>)
    ensures ports == ReadPorts(bindings)
  {
    ports := map[];
    var rest := bindings.Keys;
    ghost var done: Bindings := map[];
    while rest != {}
      invariant rest <= bindings.Keys
      invariant done == map n | n in bindings.Keys - rest :: bindings[n]
      invariant ports == ReadPorts(done)
      decreases |rest|
    {
      var n :| n in rest;
      ReadOneMore(done, n, bindings[n]);
      if |bindings[n]| > 0 {
        ports := ports[Itoa(n) := bindings[n][0]];
      }
      done := done[n := bindings[n]];
      rest := rest - {n};
    }
    assert done == bindings;
  }

  predicate CanonicalKeys(ports: map<string, string>) {
    forall k :: k in ports ==> Canonical(k)
  }

  lemma ReadFromKey(ports: map<string, string>, keys: seq<string>, s: string) returns (k: string)
    requires Parses(ports) && Enumerates(keys, ports) && s in ReadPorts(Bound(ports, keys))
    ensures k in ports && Itoa(ParsePort(k).value) == s && ReadPorts(Bound(ports, keys))[s] == ports[k]
    ensures Canonical(s)
  {
    var bindings := Bound(ports, keys);
    BoundSays(ports, keys);
    PrintedValue(bindings, s);
    PrintThenParse(Value(s));
    k :| k in keys && ParsePort(k) == Some(Value(s)) && bindings[Value(s)] == [ports[k]];
  }

  lemma KeyIsRead(ports: map<string, string>, keys: seq<string>, k: string)
    requires Parses(ports) && Enumerates(keys, ports) && k in ports && Canonical(k)
    ensures k in ReadPorts(Bound(ports, keys))
  {
    assert k in keys;
    BoundSays(ports, keys);
    PrintsBackExactly(k);
    assert ParsePort(k).value in Bound(ports, keys);
  }

  lemma SameMap(a: map<string, string>, b: map<string, string>)
    requires forall k :: k in b ==> k in a
    requires forall k :: k in a ==> k in b && a[k] == b[k]
    ensures a == b
  {
  }

  lemma CanonicalReadsBack(ports: map<string, string>, keys: seq<string>)
    requires Parses(ports) && Enumerates(keys, ports) && CanonicalKeys(ports)
    ensures ReadPorts(Bound(ports, keys)) == ports
  {
    var back := ReadPorts(Bound(ports, keys));
    forall k | k in ports ensures k in back {
      KeyIsRead(ports, keys, k);
    }
    forall s | s in back ensures s in ports && back[s] == ports[s] {
      var k := ReadFromKey(ports, keys, s);
      PrintsBackExactly(k);
    }
    SameMap(back, ports);
  }

  /**
   Bound and read back, a port map is what it was exactly when its keys are canonical, in
   whatever order they were bound.
   */
  lemma PortsReadBackExactly(ports: map<string, string>, keys: seq<string>)
    requires Parses(ports) && Enumerates(keys, ports)
    ensures ReadPorts(Bound(ports, keys)) == ports <==> CanonicalKeys(ports)
  {
    if CanonicalKeys(ports) {
      CanonicalReadsBack(ports, keys);
    }
    if ReadPorts(Bound(ports, keys)) == ports {
      forall k | k in ports ensures Canonical(k) {
        var _ := ReadFromKey(ports, keys, k);
      }
    }
  }
}
