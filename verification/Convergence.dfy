/**
 What passes of the reconciler achieve: convergence and its exact conditions, isolation
 of faults, independence of iteration orders, and stability of converged worlds.
 */
module Convergence {
  import opened Docker
  import opened Ports
  import opened Reconcile
  import opened Runs
  import opened Task

  /** The goal for one task: running, accepted by CompareTo, and on the registry's current image. */
  predicate Good(p: Platform, registry: map<string, ImageId>, t: TaskConfig, c: Option<Container>) {
    && c.Some? && c.value.state == Running && t.image in registry
    && !Outdated(p, t, registry[t.image], c.value)
  }

  ghost predicate NoFaults(ch: Chance, name: string) {
    forall op :: !Fails(ch, op, name)
  }

  // ----- what can be told from what is read back -----

  /** No two keys denote one port, and a key with a host port is written the way it is printed. */
  predicate Readable(ports: map<string, string>) {
    && (forall j, k :: j in ports && k in ports && ParsePort(j) == ParsePort(k) ==> j == k)
    && (forall k :: k in ports && ports[k] != "" ==> Canonical(k))
  }

  function PrintedBack(k: string): string {
    if ParsePort(k).Some? then Itoa(ParsePort(k).value) else ""
  }

  function PrintedKeys(keys: set<string>): set<string> {
    set k | k in keys :: PrintedBack(k)
  }

  /** A set of keys keeps its size when printed back exactly if no two of them are printed alike. */
  lemma {:induction false} PrintedSize(keys: set<string>)
    ensures |PrintedKeys(keys)| <= |keys|
    ensures |PrintedKeys(keys)| == |keys| <==>
            forall j, k :: j in keys && k in keys && PrintedBack(j) == PrintedBack(k) ==> j == k
  {
    if keys != {} {
      var k :| k in keys;
      var rest := keys - {k};
      PrintedSize(rest);
      assert PrintedKeys(keys) == PrintedKeys(rest) + {PrintedBack(k)};
      if PrintedBack(k) in PrintedKeys(rest) {
        assert PrintedKeys(keys) == PrintedKeys(rest);
        var j :| j in rest && PrintedBack(j) == PrintedBack(k);
      }
    }
  }

  lemma SamePrintSamePort(j: string, k: string)
    requires ParsePort(j).Some? && ParsePort(k).Some?
    ensures PrintedBack(j) == PrintedBack(k) <==> ParsePort(j) == ParsePort(k)
  {
    PrintThenParse(ParsePort(j).value);
    PrintThenParse(ParsePort(k).value);
  }

  lemma BackKeys(ports: map<string, string>, keys: seq<string>)
    requires Parses(ports) && Enumerates(keys, ports)
    ensures ReadPorts(Bound(ports, keys)).Keys == PrintedKeys(ports.Keys)
  {
    var back := ReadPorts(Bound(ports, keys));
    forall s | s in back ensures s in PrintedKeys(ports.Keys) {
      var k := ReadFromKey(ports, keys, s);
      assert k in ports.Keys && PrintedBack(k) == s;
    }
    BoundSays(ports, keys);
    forall k | k in ports ensures PrintedBack(k) in back {
      assert k in keys;
      ReadIffPrinted(Bound(ports, keys), ParsePort(k).value);
    }
  }

  lemma ReadableEntries(ports: map<string, string>, keys: seq<string>)
    requires Parses(ports) && Enumerates(keys, ports) && Readable(ports)
    ensures forall k :: k in ports ==> Lookup(ReadPorts(Bound(ports, keys)), k) == ports[k]
  {
    var back := ReadPorts(Bound(ports, keys));
    forall k | k in ports ensures Lookup(back, k) == ports[k] {
      if Canonical(k) {
        KeyIsRead(ports, keys, k);
      }
      if k in back {
        var j := ReadFromKey(ports, keys, k);
        PrintsBackExactly(k);
        SamePrintSamePort(j, k);
      }
    }
  }

  /** Read back, the map keeps its size exactly if no two keys denote one port. */
  lemma SameSizeExactly(ports: map<string, string>, keys: seq<string>)
    requires Parses(ports) && Enumerates(keys, ports)
    ensures |ReadPorts(Bound(ports, keys))| == |ports| <==>
            forall j, k :: j in ports && k in ports && ParsePort(j) == ParsePort(k) ==> j == k
  {
    var back := ReadPorts(Bound(ports, keys));
    BackKeys(ports, keys);
    PrintedSize(ports.Keys);
    assert |back| == |back.Keys| && |ports| == |ports.Keys|;
    forall j, k | j in ports && k in ports
      ensures PrintedBack(j) == PrintedBack(k) <==> ParsePort(j) == ParsePort(k)
    {
      SamePrintSamePort(j, k);
    }
  }

  /**
   Bound and read back, a port map passes the port test exactly when it is readable, in
   whatever order it was bound.
   */
  lemma PortTestAfterReadBack(ports: map<string, string>, keys: seq<string>)
    requires Parses(ports) && Enumerates(keys, ports)
    ensures PortsMatch(ports, ReadPorts(Bound(ports, keys))) <==> Readable(ports)
  {
    var back := ReadPorts(Bound(ports, keys));
    SameSizeExactly(ports, keys);
    if Readable(ports) {
      ReadableEntries(ports, keys);
    }
    if PortsMatch(ports, back) {
      forall k | k in ports && ports[k] != "" ensures Canonical(k) {
        var _ := ReadFromKey(ports, keys, k);
      }
    }
  }

  /** The configuration can be told from what is read back: CPU, memory and ports survive. */
  predicate Survives(p: Platform, t: TaskConfig) {
    && t.cpu.Cores? && SameCpu(t.cpu, p.fromNano(p.toNano(t.cpu.value)))
    && -TWO43 <= t.memory < TWO43
    && Readable(t.ports)
  }

  /** CompareTo accepts a container made from a configuration exactly when the configuration survives. */
  lemma ReadBackAcceptedExactly(p: Platform, ch: Chance, t: TaskConfig, id: ImageId)
    requires Orderly(ch) && t.cpu.Cores? && Parses(t.ports)
    ensures Matches(t, ReadBack(p, t.name, NewContainer(p, ch, t, id))) <==> Survives(p, t)
  {
    var keys := ch.order(t.ports);
    assert Enumerates(keys, t.ports);
    PortTestAfterReadBack(t.ports, keys);
    MemoryReadsBackExactly(t.memory);
  }

  // ----- one task -----

  /** From which containers one pass without faults reaches the goal. */
  predicate CanConverge(p: Platform, registry: map<string, ImageId>, t: TaskConfig, c: Option<Container>) {
    && t.image in registry
    && if c.Some? && !Outdated(p, t, registry[t.image], c.value) then Startable(c.value.state)
       else (c.Some? ==> c.value.state != Other) && Creatable(p, t) && Survives(p, t)
  }

  lemma MadeIsGoodExactly(p: Platform, ch: Chance, registry: map<string, ImageId>, t: TaskConfig)
    requires Orderly(ch) && NoFaults(ch, t.name) && t.image in registry
    ensures
      var s := AfterStart(p, ch, t, Some(registry[t.image]), None);
      && (Good(p, registry, t, s.ctr) <==> Creatable(p, t) && Survives(p, t))
      && (Creatable(p, t) ==>
            && s.ok && s.calls == [Create, Start]
            && s.ctr == Some(NewContainer(p, ch, t, registry[t.image]).(state := Running)))
  {
    if Creatable(p, t) {
      ReadBackAcceptedExactly(p, ch, t, registry[t.image]);
      assert !Fails(ch, Create, t.name) && !Fails(ch, Start, t.name);
    }
  }

  /** A container's state says nothing about its configuration. */
  lemma StateIsNotRead(p: Platform, t: TaskConfig, id: ImageId, c: Container, state: CtrState)
    ensures Outdated(p, t, id, c.(state := state)) == Outdated(p, t, id, c)
  {
  }

  lemma ReplacedExactly(p: Platform, ch: Chance, registry: map<string, ImageId>, t: TaskConfig, c: Container)
    requires Orderly(ch) && NoFaults(ch, t.name) && t.image in registry
    requires Outdated(p, t, registry[t.image], c)
    ensures Good(p, registry, t, Replaced(p, ch, t, registry[t.image], c).ctr) <==>
            c.state != Other && Creatable(p, t) && Survives(p, t)
  {
    assert !Fails(ch, Stop, t.name) && !Fails(ch, Remove, t.name);
    StateIsNotRead(p, t, registry[t.image], c, Halted(c).state);
    MadeIsGoodExactly(p, ch, registry, t);
  }

  lemma KeptExactly(p: Platform, ch: Chance, registry: map<string, ImageId>, t: TaskConfig, c: Container)
    requires NoFaults(ch, t.name) && t.image in registry && !Outdated(p, t, registry[t.image], c)
    ensures Good(p, registry, t, AfterStart(p, ch, t, Some(registry[t.image]), Some(c)).ctr) <==> Startable(c.state)
  {
    assert !Fails(ch, Find, t.name) && !Fails(ch, Start, t.name);
    StateIsNotRead(p, t, registry[t.image], c, Running);
  }

  /** Without faults a task's step reaches the goal exactly from these containers. */
  lemma StepConvergesExactly(p: Platform, ch: Chance, registry: map<string, ImageId>, t: TaskConfig,
                             c: Option<Container>)
    requires Orderly(ch) && NoFaults(ch, t.name)
    ensures Good(p, registry, t, TaskStep(p, ch, registry, t, c).ctr) <==> CanConverge(p, registry, t, c)
  {
    assert !Fails(ch, Status, t.name) && !Fails(ch, Pull, t.name);
    assert !Fails(ch, Info, t.name) && !Fails(ch, Compare, t.name);
    if t.image in registry {
      if c.None? {
        MadeIsGoodExactly(p, ch, registry, t);
      } else if Outdated(p, t, registry[t.image], c.value) {
        ReplacedExactly(p, ch, registry, t, c.value);
      } else {
        KeptExactly(p, ch, registry, t, c.value);
      }
    }
  }

  /** Running on this image, and accepted by CompareTo or made from the configuration. */
  predicate Achieved(p: Platform, ch: Chance, t: TaskConfig, id: ImageId, c: Option<Container>) {
    && c.Some? && c.value.state == Running && c.value.imageId == id
    && (Matches(t, ReadBack(p, t.name, c.value))
        || (t.cpu.Cores? && c.value == NewContainer(p, ch, t, id).(state := Running)))
  }

  lemma StartAchieves(p: Platform, ch: Chance, t: TaskConfig, id: ImageId, c: Option<Container>)
    requires AfterStart(p, ch, t, Some(id), c).ok && (c.Some? ==> !Outdated(p, t, id, c.value))
    ensures Achieved(p, ch, t, id, AfterStart(p, ch, t, Some(id), c).ctr)
  {
    if c.Some? {
      StateIsNotRead(p, t, id, c.value, Running);
    }
  }

  lemma SuccessMeansRunning(p: Platform, ch: Chance, registry: map<string, ImageId>, t: TaskConfig,
                            c: Option<Container>)
    requires TaskStep(p, ch, registry, t, c).ok
    ensures t.image in registry && Achieved(p, ch, t, registry[t.image], TaskStep(p, ch, registry, t, c).ctr)
  {
    match Judge(p, ch, registry, t, c)
    case LeaveIt =>
    case StartIt => StartAchieves(p, ch, t, registry[t.image], c);
    case ReplaceIt => StartAchieves(p, ch, t, registry[t.image], None);
  }

  lemma ReplaceSucceeds(p: Platform, ch: Chance, t: TaskConfig, id: ImageId, c: Container)
    requires NoFaults(ch, t.name)
    ensures Replaced(p, ch, t, id, c).ok <==> c.state != Other && Creatable(p, t)
  {
    assert !Fails(ch, Stop, t.name) && !Fails(ch, Remove, t.name);
    StartSucceeds(p, ch, t, id, None);
  }

  lemma StartSucceeds(p: Platform, ch: Chance, t: TaskConfig, id: ImageId, c: Option<Container>)
    requires NoFaults(ch, t.name)
    ensures AfterStart(p, ch, t, Some(id), c).ok <==> if c.Some? then Startable(c.value.state) else Creatable(p, t)
  {
    assert !Fails(ch, Find, t.name) && !Fails(ch, Create, t.name) && !Fails(ch, Start, t.name);
  }

  lemma SuccessWithoutFaults(p: Platform, ch: Chance, registry: map<string, ImageId>, t: TaskConfig,
                             c: Option<Container>)
    requires NoFaults(ch, t.name)
    ensures TaskStep(p, ch, registry, t, c).ok <==>
            && t.image in registry
            && if c.Some? && !Outdated(p, t, registry[t.image], c.value) then Startable(c.value.state)
               else (c.Some? ==> c.value.state != Other) && Creatable(p, t)
  {
    assert !Fails(ch, Status, t.name) && !Fails(ch, Pull, t.name);
    assert !Fails(ch, Info, t.name) && !Fails(ch, Compare, t.name);
    match Judge(p, ch, registry, t, c)
    case GiveUp =>
    case LeaveIt =>
    case StartIt => StartSucceeds(p, ch, t, registry[t.image], c);
    case ReplaceIt => ReplaceSucceeds(p, ch, t, registry[t.image], c.value);
  }

  /**
   A step that reports success leaves a running container of the image just pulled, which
   CompareTo accepts or which was made from the configuration.  Without faults it does
   report success exactly if the image is there and the container is startable, or else
   removable and the configuration can be created.
   */
  lemma StepReportsExactly(p: Platform, ch: Chance, registry: map<string, ImageId>, t: TaskConfig, c: Option<Container>)
    ensures TaskStep(p, ch, registry, t, c).ok ==>
              t.image in registry && Achieved(p, ch, t, registry[t.image], TaskStep(p, ch, registry, t, c).ctr)
    ensures NoFaults(ch, t.name) ==>
              (TaskStep(p, ch, registry, t, c).ok <==>
               && t.image in registry
               && if c.Some? && !Outdated(p, t, registry[t.image], c.value) then Startable(c.value.state)
                  else (c.Some? ==> c.value.state != Other) && Creatable(p, t))
  {
    if TaskStep(p, ch, registry, t, c).ok {
      SuccessMeansRunning(p, ch, registry, t, c);
    }
    if NoFaults(ch, t.name) {
      SuccessWithoutFaults(p, ch, registry, t, c);
    }
  }

  lemma ReplaceCalls(p: Platform, ch: Chance, t: TaskConfig, id: ImageId, c: Container)
    ensures Replaced(p, ch, t, id, c).calls <=
            if c.labelled && c.state == Exited then [Remove, Create, Start] else [Stop, Remove, Create, Start]
  {
  }

  lemma StartCalls(p: Platform, ch: Chance, t: TaskConfig, image: Option<ImageId>, c: Option<Container>)
    ensures
      var calls := AfterStart(p, ch, t, image, c).calls;
      if c.Some? then calls <= [Start] || calls <= [Create] else calls <= [Create, Start]
  {
  }

  /**
   The calls come in order and stop at the first that fails: an outdated container is
   stopped, unless the agent knows it to be stopped already, then removed, created and
   started; any other is at most started; and a missing one created and started.
   */
  lemma CallsInOrder(p: Platform, ch: Chance, registry: map<string, ImageId>, t: TaskConfig, c: Option<Container>)
    ensures
      var calls := TaskStep(p, ch, registry, t, c).calls;
      if c.Some? && t.image in registry && Outdated(p, t, registry[t.image], c.value) then
        calls <= (if c.value.labelled && c.value.state == Exited then [Remove, Create, Start]
                  else [Stop, Remove, Create, Start])
      else if c.Some? then calls <= [Start] || calls <= [Create]
      else calls <= [Create, Start]
  {
    match Judge(p, ch, registry, t, c)
    case GiveUp =>
    case LeaveIt =>
    case StartIt => StartCalls(p, ch, t, Some(registry[t.image]), c);
    case ReplaceIt => ReplaceCalls(p, ch, t, registry[t.image], c.value);
  }

  /** If anything that is asked first fails, or the image cannot be pulled, the step gives up and touches nothing. */
  lemma FailedQueryChangesNothing(p: Platform, ch: Chance, registry: map<string, ImageId>, t: TaskConfig,
                                  c: Option<Container>)
    requires || Fails(ch, Status, t.name) || Fails(ch, Pull, t.name) || Fails(ch, Info, t.name)
             || t.image !in registry || (c.Some? && Fails(ch, Compare, t.name))
    ensures var s := TaskStep(p, ch, registry, t, c); s.ctr == c && s.calls == [] && !s.ok
  {
  }

  /** Nothing is stopped or removed before the new image is there, nor while the container is up to date. */
  lemma StopsOnlyToReplace(p: Platform, ch: Chance, registry: map<string, ImageId>, t: TaskConfig, c: Option<Container>)
    requires
      var s := TaskStep(p, ch, registry, t, c);
      Stop in s.calls || Remove in s.calls || s.ctr.None?
      || (c.Some? && c.value.state == Running && s.ctr.value.state != Running)
    ensures c.None? || (Pulls(ch, registry, t) && Outdated(p, t, registry[t.image], c.value))
  {
  }

  // ----- a whole pass, name by name -----

  predicate Distinct(tasks: seq<TaskConfig>) {
    forall i, j :: 0 <= i < j < |tasks| ==> tasks[i].name != tasks[j].name
  }

  /** A task's step touches its own container only. */
  lemma TaskTouchesOwn(p: Platform, ch: Chance, w: World, t: TaskConfig, n: string)
    ensures AfterTask(p, ch, w, t).registry == w.registry
    ensures n != t.name ==> Ctr(AfterTask(p, ch, w, t), n) == Ctr(w, n)
    ensures Ctr(AfterTask(p, ch, w, t), t.name) == TaskStep(p, ch, w.registry, t, Ctr(w, t.name)).ctr
  {
  }

  lemma {:induction false} TasksTouchTheirOwn(p: Platform, ch: Chance, w: World, tasks: seq<TaskConfig>, n: string)
    requires n !in Names(tasks)
    ensures AfterTasks(p, ch, w, tasks).registry == w.registry
    ensures Ctr(AfterTasks(p, ch, w, tasks), n) == Ctr(w, n)
    decreases |tasks|
  {
    if tasks != [] {
      var w1 := AfterTask(p, ch, w, tasks[0]);
      TaskTouchesOwn(p, ch, w, tasks[0], n);
      assert tasks[0] in tasks && forall t :: t in tasks[1..] ==> t in tasks;
      TasksTouchTheirOwn(p, ch, w1, tasks[1..], n);
    }
  }

  lemma {:induction false} RegistryStays(p: Platform, ch: Chance, w: World, tasks: seq<TaskConfig>)
    ensures AfterTasks(p, ch, w, tasks).registry == w.registry
    decreases |tasks|
  {
    if tasks != [] {
      RegistryStays(p, ch, AfterTask(p, ch, w, tasks[0]), tasks[1..]);
    }
  }

  lemma NotAmongTheRest(tasks: seq<TaskConfig>)
    requires Distinct(tasks) && tasks != []
    ensures Distinct(tasks[1..]) && tasks[0].name !in Names(tasks[1..])
  {
    forall t | t in tasks[1..] ensures t.name != tasks[0].name {
      var j :| 0 <= j < |tasks[1..]| && tasks[1..][j] == t;
      assert t == tasks[j + 1];
    }
  }

  /** Each desired task gets one step, from the container it had before the pass. */
  lemma {:induction false} TasksByName(p: Platform, ch: Chance, w: World, tasks: seq<TaskConfig>, i: nat)
    requires Distinct(tasks) && i < |tasks|
    ensures Ctr(AfterTasks(p, ch, w, tasks), tasks[i].name) ==
            TaskStep(p, ch, w.registry, tasks[i], Ctr(w, tasks[i].name)).ctr
    decreases |tasks|
  {
    var w1 := AfterTask(p, ch, w, tasks[0]);
    NotAmongTheRest(tasks);
    TaskTouchesOwn(p, ch, w, tasks[0], tasks[i].name);
    if i == 0 {
      TasksTouchTheirOwn(p, ch, w1, tasks[1..], tasks[0].name);
    } else {
      assert tasks[1..][i - 1] == tasks[i];
      TasksByName(p, ch, w1, tasks[1..], i - 1);
    }
  }

  lemma PurgeByName(p: Platform, ch: Chance, w: World, tasks: seq<TaskConfig>, n: string)
    ensures Ctr(AfterPurges(p, ch, w, tasks), n) ==
            if ToPurge(p, w, tasks, n) then AfterPurge(ch, n, w.ctrs[n]) else Ctr(w, n)
    ensures AfterPurges(p, ch, w, tasks).registry == w.registry && AfterPurges(p, ch, w, tasks).local == w.local
  {
  }

  /** What a pass does to a desired name depends on that name's container, its configuration and its faults alone. */
  lemma PassOnDesired(p: Platform, ch: Chance, w: World, tasks: seq<TaskConfig>, i: nat)
    requires Distinct(tasks) && i < |tasks| && !ch.listFails
    ensures Ctr(AfterPass(p, ch, w, tasks), tasks[i].name) ==
            TaskStep(p, ch, w.registry, tasks[i], Ctr(w, tasks[i].name)).ctr
  {
    assert tasks[i] in tasks;
    PurgeByName(p, ch, w, tasks, tasks[i].name);
    TasksByName(p, ch, AfterPurges(p, ch, w, tasks), tasks, i);
  }

  lemma PassOnOthers(p: Platform, ch: Chance, w: World, tasks: seq<TaskConfig>, n: string)
    requires n !in Names(tasks) && !ch.listFails
    ensures Ctr(AfterPass(p, ch, w, tasks), n) ==
            if ToPurge(p, w, tasks, n) then AfterPurge(ch, n, w.ctrs[n]) else Ctr(w, n)
  {
    PurgeByName(p, ch, w, tasks, n);
    TasksTouchTheirOwn(p, ch, AfterPurges(p, ch, w, tasks), tasks, n);
  }

  /**
   What a pass leaves under a name that is not desired.  A labelled container that the
   daemon lists is stopped and removed, as far as nothing fails and it is not stuck;
   everything else is as it was, and nothing is created.
   */
  lemma PurgedExactly(p: Platform, ch: Chance, w: World, tasks: seq<TaskConfig>, n: string)
    requires n !in Names(tasks)
    ensures
      var c' := Ctr(AfterPass(p, ch, w, tasks), n);
      if n in w.ctrs && w.ctrs[n].labelled && p.listed(w.ctrs[n].state) && !ch.listFails && !Fails(ch, Stop, n) then
        if Fails(ch, Remove, n) || w.ctrs[n].state == Other then
          c' == Some(w.ctrs[n].(state := if w.ctrs[n].state in {Running, Paused} then Exited else w.ctrs[n].state))
        else c' == None
      else c' == Ctr(w, n)
  {
    if !ch.listFails {
      PassOnOthers(p, ch, w, tasks, n);
    }
  }

  /** Which images a pass refreshes does not depend on the order either. */
  lemma {:induction false} PassOnImages(p: Platform, ch: Chance, w: World, tasks: seq<TaskConfig>, image: string)
    ensures
      var local := AfterTasks(p, ch, w, tasks).local;
      if exists t :: t in tasks && t.image == image && Pulls(ch, w.registry, t) then
        image in local && image in w.registry && local[image] == w.registry[image]
      else
        (image in local <==> image in w.local) && (image in local ==> local[image] == w.local[image])
    decreases |tasks|
  {
    if tasks != [] {
      var w1 := AfterTask(p, ch, w, tasks[0]);
      assert w1.registry == w.registry;
      PassOnImages(p, ch, w1, tasks[1..], image);
      assert forall t :: t in tasks <==> t == tasks[0] || t in tasks[1..];
    }
  }

  /**
   The main theorem.  If only operations on the names in `faulty` fail, then after one
   pass every other desired name is running, matching and on the current image exactly
   if it could be, and every other undesired container is gone if it was the agent's,
   listed, and removable once stopped, and otherwise as it was.
   */
  lemma PassConvergesExactly(p: Platform, ch: Chance, w: World, tasks: seq<TaskConfig>, faulty: set<string>)
    requires Orderly(ch) && Distinct(tasks) && !ch.listFails
    requires forall op, name :: Fails(ch, op, name) ==> name in faulty
    ensures forall t :: t in tasks && t.name !in faulty ==>
              (Good(p, w.registry, t, Ctr(AfterPass(p, ch, w, tasks), t.name)) <==>
               CanConverge(p, w.registry, t, Ctr(w, t.name)))
    ensures forall n :: n !in Names(tasks) && n !in faulty ==>
              Ctr(AfterPass(p, ch, w, tasks), n) ==
              if n in w.ctrs && w.ctrs[n].labelled && p.listed(w.ctrs[n].state) && w.ctrs[n].state != Other then None
              else Ctr(w, n)
  {
    forall t | t in tasks && t.name !in faulty
      ensures Good(p, w.registry, t, Ctr(AfterPass(p, ch, w, tasks), t.name)) <==>
              CanConverge(p, w.registry, t, Ctr(w, t.name))
    {
      var i :| 0 <= i < |tasks| && tasks[i] == t;
      PassOnDesired(p, ch, w, tasks, i);
      StepConvergesExactly(p, ch, w.registry, t, Ctr(w, t.name));
    }
    forall n | n !in Names(tasks) && n !in faulty
      ensures Ctr(AfterPass(p, ch, w, tasks), n) ==
              if n in w.ctrs && w.ctrs[n].labelled && p.listed(w.ctrs[n].state) && w.ctrs[n].state != Other then None
              else Ctr(w, n)
    {
      PassOnOthers(p, ch, w, tasks, n);
      assert !Fails(ch, Stop, n) && !Fails(ch, Remove, n);
    }
  }

  /** Neither the order of the desired list nor, since none is mentioned, that of the running tasks matters. */
  lemma OrderDoesNotMatter(p: Platform, ch: Chance, w: World, a: seq<TaskConfig>, b: seq<TaskConfig>)
    requires Distinct(a) && Distinct(b) && forall t :: t in a <==> t in b
    ensures AfterPass(p, ch, w, a) == AfterPass(p, ch, w, b)
  {
    if !ch.listFails {
      var wa, wb := AfterPass(p, ch, w, a), AfterPass(p, ch, w, b);
      assert Names(a) == Names(b);
      assert Purgeable(p, w, a) == Purgeable(p, w, b);
      forall n ensures Ctr(wa, n) == Ctr(wb, n) {
        SameContainer(p, ch, w, a, b, n);
      }
      SameContainers(wa, wb);
      forall r ensures r in wa.local <==> r in wb.local
               ensures r in wa.local ==> wa.local[r] == wb.local[r]
      {
        PassOnImages(p, ch, AfterPurges(p, ch, w, a), a, r);
        PassOnImages(p, ch, AfterPurges(p, ch, w, b), b, r);
      }
      assert wa.local == wb.local;
      RegistryStays(p, ch, AfterPurges(p, ch, w, a), a);
      RegistryStays(p, ch, AfterPurges(p, ch, w, b), b);
    }
  }

  lemma SameContainer(p: Platform, ch: Chance, w: World, a: seq<TaskConfig>, b: seq<TaskConfig>, n: string)
    requires Distinct(a) && Distinct(b) && (forall t :: t in a <==> t in b) && !ch.listFails
    ensures Ctr(AfterPass(p, ch, w, a), n) == Ctr(AfterPass(p, ch, w, b), n)
  {
    if n in Names(a) {
      var t :| t in a && t.name == n;
      var i :| 0 <= i < |a| && a[i] == t;
      assert t in b;
      var j :| 0 <= j < |b| && b[j] == t;
      PassOnDesired(p, ch, w, a, i);
      PassOnDesired(p, ch, w, b, j);
    } else {
      assert n !in Names(b);
      PassOnOthers(p, ch, w, a, n);
      PassOnOthers(p, ch, w, b, n);
    }
  }

  lemma SameContainers(a: World, b: World)
    requires forall n :: Ctr(a, n) == Ctr(b, n)
    ensures a.ctrs == b.ctrs
  {
    forall n ensures n in a.ctrs <==> n in b.ctrs
             ensures n in a.ctrs ==> a.ctrs[n] == b.ctrs[n]
    {
      assert Ctr(a, n) == Ctr(b, n);
    }
  }
}
