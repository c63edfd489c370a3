/**
 Many passes, each with its own faults: converged worlds stay as they are, exactly which
 worlds faults heal in, and what happens in two families where they do not.
 */
module Stability {
  import opened Convergence
  import opened Docker
  import opened Ports
  import opened Reconcile
  import opened Runs
  import opened Task

  /** The worlds before each pass and after the last, for one desired list. */
  function AfterPasses(p: Platform, chs: seq<Chance>, w: World, tasks: seq<TaskConfig>): World
    decreases |chs|
  {
    if chs == [] then w else AfterPasses(p, chs[1..], AfterPass(p, chs[0], w, tasks), tasks)
  }

  /** The calls a pass makes for the desired list. */
  function PassCalls(p: Platform, ch: Chance, w: World, tasks: seq<TaskConfig>): seq<Call> {
    if ch.listFails then [] else TaskCalls(p, ch, AfterPurges(p, ch, w, tasks), tasks)
  }

  /** A task is at its goal, in a container of the agent's. */
  predicate Reached(p: Platform, registry: map<string, ImageId>, t: TaskConfig, c: Option<Container>) {
    Good(p, registry, t, c) && c.value.labelled
  }

  /** All desired tasks have reached their goal in labelled containers, and there is nothing to purge. */
  ghost predicate Settled(p: Platform, w: World, tasks: seq<TaskConfig>) {
    && (forall t :: t in tasks ==> Reached(p, w.registry, t, Ctr(w, t.name)))
    && Purgeable(p, w, tasks) == {}
  }

  /** A settled task's step changes nothing and calls nothing, whatever fails. */
  lemma SettledTask(p: Platform, ch: Chance, w: World, t: TaskConfig)
    requires Reached(p, w.registry, t, Ctr(w, t.name))
    ensures AfterTask(p, ch, w, t).ctrs == w.ctrs && AfterTask(p, ch, w, t).registry == w.registry
    ensures TaskStep(p, ch, w.registry, t, Ctr(w, t.name)).calls == []
  {
    SetToItself(AfterPull(ch, w, t), t.name);
  }

  lemma {:induction false} SettledTasks(p: Platform, ch: Chance, w: World, tasks: seq<TaskConfig>)
    requires forall t :: t in tasks ==> Reached(p, w.registry, t, Ctr(w, t.name))
    ensures AfterTasks(p, ch, w, tasks).ctrs == w.ctrs && AfterTasks(p, ch, w, tasks).registry == w.registry
    ensures TaskCalls(p, ch, w, tasks) == []
    decreases |tasks|
  {
    if tasks != [] {
      var w1 := AfterTask(p, ch, w, tasks[0]);
      SettledTask(p, ch, w, tasks[0]);
      forall t | t in tasks[1..] ensures Reached(p, w1.registry, t, Ctr(w1, t.name)) {
        assert t in tasks && Ctr(w1, t.name) == Ctr(w, t.name);
      }
      SettledTasks(p, ch, w1, tasks[1..]);
    }
  }

  lemma SettledPass(p: Platform, ch: Chance, w: World, tasks: seq<TaskConfig>)
    requires Settled(p, w, tasks)
    ensures AfterPass(p, ch, w, tasks).ctrs == w.ctrs && AfterPass(p, ch, w, tasks).registry == w.registry
    ensures PassCalls(p, ch, w, tasks) == [] && Settled(p, AfterPass(p, ch, w, tasks), tasks)
  {
    var w0 := AfterPurges(p, ch, w, tasks);
    assert w0.ctrs == w.ctrs && w0 == w;
    SettledTasks(p, ch, w, tasks);
    var w1 := AfterPass(p, ch, w, tasks);
    assert Purgeable(p, w1, tasks) == Purgeable(p, w, tasks);
  }

  /**
   A settled world is absorbing: whatever fails in however many further passes, no
   container is stopped, removed, created or started, and none changes.
   */
  lemma {:induction false} SettledForever(p: Platform, chs: seq<Chance>, w: World, tasks: seq<TaskConfig>)
    requires Settled(p, w, tasks)
    ensures Settled(p, AfterPasses(p, chs, w, tasks), tasks)
    ensures AfterPasses(p, chs, w, tasks).ctrs == w.ctrs
    ensures forall k :: 0 <= k < |chs| ==>
              PassCalls(p, chs[k], AfterPasses(p, chs[..k], w, tasks), tasks) == []
              && Purgeable(p, AfterPasses(p, chs[..k], w, tasks), tasks) == {}
    decreases |chs|
  {
    if chs != [] {
      var w1 := AfterPass(p, chs[0], w, tasks);
      SettledPass(p, chs[0], w, tasks);
      SettledForever(p, chs[1..], w1, tasks);
      forall k | 0 <= k < |chs|
        ensures PassCalls(p, chs[k], AfterPasses(p, chs[..k], w, tasks), tasks) == []
        ensures Purgeable(p, AfterPasses(p, chs[..k], w, tasks), tasks) == {}
      {
        if k == 0 {
          SettledPass(p, chs[0], w, tasks);
        } else {
          assert chs[..k][1..] == chs[1..][..k - 1] && chs[..k][0] == chs[0];
          assert chs[1..][k - 1] == chs[k];
        }
      }
    }
  }

  /**
   The label is needed: a task at its goal is left alone whatever fails exactly if its
   container is the agent's, or its ports cannot be parsed.  Of any other container the
   status is unknown, and a failed lookup in StartTask then leads to an attempt to create
   it again.
   */
  lemma QuietExactly(p: Platform, registry: map<string, ImageId>, t: TaskConfig, c: Option<Container>)
    requires Good(p, registry, t, c)
    ensures (forall ch :: TaskStep(p, ch, registry, t, c).calls == []) <==>
            c.value.labelled || !Parses(t.ports)
  {
    if !c.value.labelled && Parses(t.ports) {
      var ch := Chance({(Find, t.name)}, false, (m: map<string, string>) => []);
      assert TaskStep(p, ch, registry, t, c).calls == [Create];
    }
  }

  // ----- faults heal -----

  /** Nothing fails that concerns the name, and the pass is not called off. */
  ghost predicate Unhindered(ch: Chance, name: string) {
    NoFaults(ch, name) && !ch.listFails
  }

  ghost predicate AllOrderly(chs: seq<Chance>) {
    forall k :: 0 <= k < |chs| ==> Orderly(chs[k])
  }

  /**
   From which containers a task gets well: one without faults would reach the goal, and
   a container that is kept is the agent's own.
   */
  predicate Heals(p: Platform, registry: map<string, ImageId>, t: TaskConfig, c: Option<Container>) {
    && CanConverge(p, registry, t, c)
    && (c.Some? && !Outdated(p, t, registry[t.image], c.value) ==> c.value.labelled)
  }

  lemma StartKeepsHeals(p: Platform, ch: Chance, registry: map<string, ImageId>, t: TaskConfig, c: Option<Container>)
    requires Orderly(ch) && t.image in registry
    requires c.Some? ==> !Outdated(p, t, registry[t.image], c.value)
    ensures Heals(p, registry, t, AfterStart(p, ch, t, Some(registry[t.image]), c).ctr) <==> Heals(p, registry, t, c)
  {
    if c.Some? {
      StateIsNotRead(p, t, registry[t.image], c.value, Running);
    } else if t.cpu.Cores? && Parses(t.ports) {
      ReadBackAcceptedExactly(p, ch, t, registry[t.image]);
      StateIsNotRead(p, t, registry[t.image], NewContainer(p, ch, t, registry[t.image]), Running);
    }
  }

  lemma ReplaceKeepsHeals(p: Platform, ch: Chance, registry: map<string, ImageId>, t: TaskConfig, c: Container)
    requires Orderly(ch) && t.image in registry && Outdated(p, t, registry[t.image], c)
    ensures Heals(p, registry, t, Replaced(p, ch, t, registry[t.image], c).ctr) <==> Heals(p, registry, t, Some(c))
  {
    StateIsNotRead(p, t, registry[t.image], c, Halted(c).state);
    StartKeepsHeals(p, ch, registry, t, None);
  }

  /** No fault, and no step without one, takes a task from one side to the other. */
  lemma StepKeepsHeals(p: Platform, ch: Chance, registry: map<string, ImageId>, t: TaskConfig, c: Option<Container>)
    requires Orderly(ch)
    ensures Heals(p, registry, t, TaskStep(p, ch, registry, t, c).ctr) <==> Heals(p, registry, t, c)
  {
    match Judge(p, ch, registry, t, c)
    case GiveUp =>
    case LeaveIt =>
    case StartIt => StartKeepsHeals(p, ch, registry, t, c);
    case ReplaceIt => ReplaceKeepsHeals(p, ch, registry, t, c.value);
  }

  lemma ReachedIsGoodAndHealing(p: Platform, registry: map<string, ImageId>, t: TaskConfig, c: Option<Container>)
    ensures Reached(p, registry, t, c) <==> Good(p, registry, t, c) && Heals(p, registry, t, c)
  {
  }

  lemma StepReachesExactly(p: Platform, ch: Chance, registry: map<string, ImageId>, t: TaskConfig,
                           c: Option<Container>)
    requires Orderly(ch) && NoFaults(ch, t.name)
    ensures Reached(p, registry, t, TaskStep(p, ch, registry, t, c).ctr) <==> Heals(p, registry, t, c)
  {
    StepConvergesExactly(p, ch, registry, t, c);
    StepKeepsHeals(p, ch, registry, t, c);
    ReachedIsGoodAndHealing(p, registry, t, TaskStep(p, ch, registry, t, c).ctr);
  }

  lemma PassKeepsRegistry(p: Platform, ch: Chance, w: World, tasks: seq<TaskConfig>)
    ensures AfterPass(p, ch, w, tasks).registry == w.registry
  {
    RegistryStays(p, ch, AfterPurges(p, ch, w, tasks), tasks);
  }

  lemma {:induction false} PassesKeepRegistry(p: Platform, chs: seq<Chance>, w: World, tasks: seq<TaskConfig>)
    ensures AfterPasses(p, chs, w, tasks).registry == w.registry
    decreases |chs|
  {
    if chs != [] {
      PassKeepsRegistry(p, chs[0], w, tasks);
      PassesKeepRegistry(p, chs[1..], AfterPass(p, chs[0], w, tasks), tasks);
    }
  }

  lemma {:induction false} PassesKeepHeals(p: Platform, chs: seq<Chance>, w: World, tasks: seq<TaskConfig>, i: nat)
    requires AllOrderly(chs) && Distinct(tasks) && i < |tasks|
    ensures Heals(p, w.registry, tasks[i], Ctr(AfterPasses(p, chs, w, tasks), tasks[i].name)) <==>
            Heals(p, w.registry, tasks[i], Ctr(w, tasks[i].name))
    decreases |chs|
  {
    if chs != [] {
      assert forall k :: 0 <= k < |chs[1..]| ==> chs[1..][k] == chs[k + 1];
      if !chs[0].listFails {
        PassOnDesired(p, chs[0], w, tasks, i);
        StepKeepsHeals(p, chs[0], w.registry, tasks[i], Ctr(w, tasks[i].name));
      }
      PassKeepsRegistry(p, chs[0], w, tasks);
      PassesKeepHeals(p, chs[1..], AfterPass(p, chs[0], w, tasks), tasks, i);
    }
  }

  /** A task at its goal in a container of the agent's stays there, whatever fails and whatever other tasks do. */
  lemma {:induction false} ReachedStays(p: Platform, chs: seq<Chance>, w: World, tasks: seq<TaskConfig>, i: nat)
    requires Distinct(tasks) && i < |tasks| && Reached(p, w.registry, tasks[i], Ctr(w, tasks[i].name))
    ensures Ctr(AfterPasses(p, chs, w, tasks), tasks[i].name) == Ctr(w, tasks[i].name)
    decreases |chs|
  {
    if chs != [] {
      if !chs[0].listFails {
        PassOnDesired(p, chs[0], w, tasks, i);
        SettledTask(p, chs[0], w, tasks[i]);
      }
      PassKeepsRegistry(p, chs[0], w, tasks);
      ReachedStays(p, chs[1..], AfterPass(p, chs[0], w, tasks), tasks, i);
    }
  }

  /** The world after some passes, one particular pass, and some more. */
  function AfterAll(p: Platform, before: seq<Chance>, ch: Chance, after: seq<Chance>, w: World,
                    tasks: seq<TaskConfig>): World {
    AfterPasses(p, after, AfterPass(p, ch, AfterPasses(p, before, w, tasks), tasks), tasks)
  }

  lemma ReachedAtOnce(p: Platform, before: seq<Chance>, ch: Chance, after: seq<Chance>, w: World,
                      tasks: seq<TaskConfig>, i: nat)
    requires AllOrderly(before) && Distinct(tasks) && i < |tasks|
    requires Orderly(ch) && Unhindered(ch, tasks[i].name) && Heals(p, w.registry, tasks[i], Ctr(w, tasks[i].name))
    ensures Reached(p, w.registry, tasks[i], Ctr(AfterAll(p, before, ch, after, w, tasks), tasks[i].name))
  {
    var w1 := AfterPasses(p, before, w, tasks);
    PassesKeepRegistry(p, before, w, tasks);
    PassesKeepHeals(p, before, w, tasks, i);
    PassOnDesired(p, ch, w1, tasks, i);
    PassKeepsRegistry(p, ch, w1, tasks);
    StepReachesExactly(p, ch, w.registry, tasks[i], Ctr(w1, tasks[i].name));
    ReachedStays(p, after, AfterPass(p, ch, w1, tasks), tasks, i);
  }

  /**
   Exactly the tasks that heal do, and the others never reach their goal.  If the task
   heals, then whatever failed before, one pass in which nothing fails for its name takes
   it to its goal, and there it stays whatever fails after.  If it does not, it is not at
   its goal after any passes at all.
   */
  lemma TaskHealsExactly(p: Platform, ch: Chance, w: World, tasks: seq<TaskConfig>, i: nat)
    requires Distinct(tasks) && i < |tasks| && Orderly(ch) && Unhindered(ch, tasks[i].name)
    ensures
      Heals(p, w.registry, tasks[i], Ctr(w, tasks[i].name)) <==>
      forall before, after :: AllOrderly(before) ==>
        Reached(p, w.registry, tasks[i], Ctr(AfterAll(p, before, ch, after, w, tasks), tasks[i].name))
    ensures
      Heals(p, w.registry, tasks[i], Ctr(w, tasks[i].name)) <==>
      exists chs :: AllOrderly(chs)
                    && Reached(p, w.registry, tasks[i], Ctr(AfterPasses(p, chs, w, tasks), tasks[i].name))
  {
    var t := tasks[i];
    assert AllOrderly([ch]) && AllOrderly([]);
    assert AfterAll(p, [], ch, [], w, tasks) == AfterPasses(p, [ch], w, tasks);
    if Heals(p, w.registry, t, Ctr(w, t.name)) {
      forall before, after | AllOrderly(before)
        ensures Reached(p, w.registry, t, Ctr(AfterAll(p, before, ch, after, w, tasks), t.name))
      {
        ReachedAtOnce(p, before, ch, after, w, tasks, i);
      }
    } else {
      forall chs | AllOrderly(chs)
        ensures !Reached(p, w.registry, t, Ctr(AfterPasses(p, chs, w, tasks), t.name))
      {
        PassesKeepHeals(p, chs, w, tasks, i);
      }
    }
  }

  // ----- the whole list -----

  /** A container that the purge sees can be removed once it is stopped. */
  predicate Clears(p: Platform, c: Option<Container>) {
    c.Some? && c.value.labelled && p.listed(c.value.state) ==> c.value.state != Other
  }

  lemma PassKeepsClears(p: Platform, ch: Chance, w: World, tasks: seq<TaskConfig>, n: string)
    requires n !in Names(tasks)
    ensures Clears(p, Ctr(AfterPass(p, ch, w, tasks), n)) <==> Clears(p, Ctr(w, n))
    ensures n !in w.ctrs ==> n !in AfterPass(p, ch, w, tasks).ctrs
  {
    if !ch.listFails {
      PassOnOthers(p, ch, w, tasks, n);
    }
  }

  lemma {:induction false} PassesKeepClears(p: Platform, chs: seq<Chance>, w: World, tasks: seq<TaskConfig>, n: string)
    requires n !in Names(tasks)
    ensures Clears(p, Ctr(AfterPasses(p, chs, w, tasks), n)) <==> Clears(p, Ctr(w, n))
    ensures n !in w.ctrs ==> n !in AfterPasses(p, chs, w, tasks).ctrs
    decreases |chs|
  {
    if chs != [] {
      PassKeepsClears(p, chs[0], w, tasks, n);
      PassesKeepClears(p, chs[1..], AfterPass(p, chs[0], w, tasks), tasks, n);
    }
  }

  ghost predicate AllHeal(p: Platform, w: World, tasks: seq<TaskConfig>) {
    && (forall t :: t in tasks ==> Heals(p, w.registry, t, Ctr(w, t.name)))
    && (forall n :: n in w.ctrs && n !in Names(tasks) ==> Clears(p, Ctr(w, n)))
  }

  /** Nothing fails that concerns a desired name or a container of this host. */
  ghost predicate Clear(ch: Chance, w: World, tasks: seq<TaskConfig>) {
    Orderly(ch) && forall n :: n in Names(tasks) || n in w.ctrs ==> Unhindered(ch, n)
  }

  lemma PurgedAtOnce(p: Platform, before: seq<Chance>, ch: Chance, w: World, tasks: seq<TaskConfig>, n: string)
    requires n !in Names(tasks) && (n in w.ctrs ==> Unhindered(ch, n)) && Clears(p, Ctr(w, n))
    ensures !ToPurge(p, AfterPass(p, ch, AfterPasses(p, before, w, tasks), tasks), tasks, n)
  {
    var w1 := AfterPasses(p, before, w, tasks);
    PassesKeepClears(p, before, w, tasks, n);
    PassKeepsClears(p, ch, w1, tasks, n);
    if n in w1.ctrs {
      PassOnOthers(p, ch, w1, tasks, n);
      assert !Fails(ch, Stop, n) && !Fails(ch, Remove, n);
    }
  }

  lemma SettledAtOnce(p: Platform, before: seq<Chance>, ch: Chance, w: World, tasks: seq<TaskConfig>)
    requires AllOrderly(before) && Distinct(tasks) && Clear(ch, w, tasks) && AllHeal(p, w, tasks)
    ensures Settled(p, AfterPass(p, ch, AfterPasses(p, before, w, tasks), tasks), tasks)
  {
    var w2 := AfterPass(p, ch, AfterPasses(p, before, w, tasks), tasks);
    PassesKeepRegistry(p, before, w, tasks);
    PassKeepsRegistry(p, ch, AfterPasses(p, before, w, tasks), tasks);
    forall t | t in tasks ensures Reached(p, w2.registry, t, Ctr(w2, t.name)) {
      var i :| 0 <= i < |tasks| && tasks[i] == t;
      assert t.name in Names(tasks);
      ReachedAtOnce(p, before, ch, [], w, tasks, i);
    }
    forall n ensures !ToPurge(p, w2, tasks, n) {
      if n !in Names(tasks) {
        PurgedAtOnce(p, before, ch, w, tasks, n);
      }
    }
    assert Purgeable(p, w2, tasks) == {};
  }

  /** What does not heal is never settled. */
  lemma SettledOnlyIfHeals(p: Platform, chs: seq<Chance>, w: World, tasks: seq<TaskConfig>)
    requires AllOrderly(chs) && Distinct(tasks) && Settled(p, AfterPasses(p, chs, w, tasks), tasks)
    ensures AllHeal(p, w, tasks)
  {
    var w1 := AfterPasses(p, chs, w, tasks);
    PassesKeepRegistry(p, chs, w, tasks);
    forall t | t in tasks ensures Heals(p, w.registry, t, Ctr(w, t.name)) {
      var i :| 0 <= i < |tasks| && tasks[i] == t;
      assert Reached(p, w1.registry, t, Ctr(w1, t.name));
      PassesKeepHeals(p, chs, w, tasks, i);
    }
    forall n | n in w.ctrs && n !in Names(tasks) ensures Clears(p, Ctr(w, n)) {
      PassesKeepClears(p, chs, w, tasks, n);
      assert n !in Purgeable(p, w1, tasks);
    }
  }

  /**
   Faults heal, exactly: after any passes with any faults, one pass in which nothing fails
   for the desired names and the containers there settles the world for good, if and only
   if every desired task heals and no listed undesired container is stuck.  Otherwise the
   world is settled after no passes whatever.
   */
  lemma FaultsHeal(p: Platform, ch: Chance, w: World, tasks: seq<TaskConfig>)
    requires Distinct(tasks) && Clear(ch, w, tasks)
    ensures
      AllHeal(p, w, tasks) <==>
      forall before, after :: AllOrderly(before) ==> Settled(p, AfterAll(p, before, ch, after, w, tasks), tasks)
    ensures
      AllHeal(p, w, tasks) <==>
      exists chs :: AllOrderly(chs) && Settled(p, AfterPasses(p, chs, w, tasks), tasks)
  {
    assert AllOrderly([ch]) && AllOrderly([]);
    assert AfterAll(p, [], ch, [], w, tasks) == AfterPasses(p, [ch], w, tasks);
    if AllHeal(p, w, tasks) {
      forall before, after | AllOrderly(before)
        ensures Settled(p, AfterAll(p, before, ch, after, w, tasks), tasks)
      {
        SettledAtOnce(p, before, ch, w, tasks);
        SettledForever(p, after, AfterPass(p, ch, AfterPasses(p, before, w, tasks), tasks), tasks);
      }
    } else {
      forall chs | AllOrderly(chs) ensures !Settled(p, AfterPasses(p, chs, w, tasks), tasks) {
        if Settled(p, AfterPasses(p, chs, w, tasks), tasks) {
          SettledOnlyIfHeals(p, chs, w, tasks);
        }
      }
    }
  }

  // ----- and two that do not -----

  /** There is no container, or one that CompareTo does not accept. */
  predicate Stubborn(p: Platform, t: TaskConfig, c: Option<Container>) {
    c.Some? ==> !Matches(t, ReadBack(p, t.name, c.value))
  }

  lemma StartKeepsStubborn(p: Platform, ch: Chance, t: TaskConfig, id: ImageId, c: Option<Container>)
    requires Orderly(ch) && Stubborn(p, t, c) && !Survives(p, t)
    ensures Stubborn(p, t, AfterStart(p, ch, t, Some(id), c).ctr)
  {
    if t.cpu.Cores? && Parses(t.ports) {
      ReadBackAcceptedExactly(p, ch, t, id);
      var made := NewContainer(p, ch, t, id);
      assert ReadBack(p, t.name, made.(state := Running)) == ReadBack(p, t.name, made);
    }
  }

  /** A configuration that does not survive is never accepted, whatever fails. */
  lemma StaysStubborn(p: Platform, ch: Chance, registry: map<string, ImageId>, t: TaskConfig, c: Option<Container>)
    requires Orderly(ch) && Stubborn(p, t, c) && !Survives(p, t)
    ensures Stubborn(p, t, TaskStep(p, ch, registry, t, c).ctr)
  {
    match Judge(p, ch, registry, t, c)
    case GiveUp =>
    case LeaveIt =>
    case StartIt => StartKeepsStubborn(p, ch, t, registry[t.image], c);
    case ReplaceIt =>
      StartKeepsStubborn(p, ch, t, registry[t.image], None);
      assert ReadBack(p, t.name, Halted(c.value)) == ReadBack(p, t.name, c.value);
  }

  /** The container is made anew: what there was is stopped and removed first. */
  function RestartCalls(c: Option<Container>): seq<Op> {
    if c.None? then [Create, Start]
    else if StatusSeen(c) == StoppedStatus then [Remove, Create, Start]
    else [Stop, Remove, Create, Start]
  }

  lemma RestartsAgain(p: Platform, ch: Chance, registry: map<string, ImageId>, t: TaskConfig, c: Option<Container>)
    requires Orderly(ch) && NoFaults(ch, t.name) && t.image in registry && Creatable(p, t)
    requires (c.Some? ==> c.value.state != Other) && Stubborn(p, t, c)
    ensures TaskStep(p, ch, registry, t, c).calls == RestartCalls(c)
    ensures var c' := TaskStep(p, ch, registry, t, c).ctr; c'.Some? && c'.value.state == Running && c'.value.labelled
  {
    MadeIsGoodExactly(p, ch, registry, t);
    assert !Fails(ch, Status, t.name) && !Fails(ch, Pull, t.name);
    assert !Fails(ch, Info, t.name) && !Fails(ch, Compare, t.name);
    assert !Fails(ch, Stop, t.name) && !Fails(ch, Remove, t.name);
    assert c.Some? ==> Outdated(p, t, registry[t.image], c.value);
  }

  /** A container that is not stuck does not get stuck. */
  lemma StepKeepsUnstuck(p: Platform, ch: Chance, registry: map<string, ImageId>, t: TaskConfig, c: Option<Container>)
    requires c.Some? ==> c.value.state != Other
    ensures var c' := TaskStep(p, ch, registry, t, c).ctr; c'.Some? ==> c'.value.state != Other
  {
  }

  /**
   A configuration that does not survive the trip through Docker is never settled: after
   any number of passes with any faults its container is not accepted.  If it can be
   created at all and its container is not stuck, every pass without faults on its name
   makes the container anew, running or not.
   */
  lemma {:induction false} ChurnsForever(p: Platform, chs: seq<Chance>, w: World, tasks: seq<TaskConfig>, i: nat)
    requires AllOrderly(chs) && Distinct(tasks) && i < |tasks|
    requires !Survives(p, tasks[i]) && Stubborn(p, tasks[i], Ctr(w, tasks[i].name))
    ensures Stubborn(p, tasks[i], Ctr(AfterPasses(p, chs, w, tasks), tasks[i].name))
    ensures tasks[i].image in w.registry && Creatable(p, tasks[i])
            && (Ctr(w, tasks[i].name).Some? ==> w.ctrs[tasks[i].name].state != Other) ==>
              forall k :: 0 <= k < |chs| && Unhindered(chs[k], tasks[i].name) ==>
                var c := Ctr(AfterPasses(p, chs[..k], w, tasks), tasks[i].name);
                TaskStep(p, chs[k], w.registry, tasks[i], c).calls == RestartCalls(c)
    decreases |chs|
  {
    if chs != [] {
      var t, ch := tasks[i], chs[0];
      var w1 := AfterPass(p, ch, w, tasks);
      assert forall k :: 0 <= k < |chs[1..]| ==> chs[1..][k] == chs[k + 1];
      if !ch.listFails {
        PassOnDesired(p, ch, w, tasks, i);
        StaysStubborn(p, ch, w.registry, t, Ctr(w, t.name));
        if t.name in w.ctrs ==> w.ctrs[t.name].state != Other {
          StepKeepsUnstuck(p, ch, w.registry, t, Ctr(w, t.name));
        }
      }
      PassKeepsRegistry(p, ch, w, tasks);
      ChurnsForever(p, chs[1..], w1, tasks, i);
      if t.image in w.registry && Creatable(p, t) && (t.name in w.ctrs ==> w.ctrs[t.name].state != Other) {
        forall k | 0 <= k < |chs| && Unhindered(chs[k], t.name)
          ensures
            var c := Ctr(AfterPasses(p, chs[..k], w, tasks), t.name);
            TaskStep(p, chs[k], w.registry, t, c).calls == RestartCalls(c)
        {
          if k == 0 {
            RestartsAgain(p, ch, w.registry, t, Ctr(w, t.name));
          } else {
            assert chs[..k][1..] == chs[1..][..k - 1] && chs[..k][0] == chs[0];
            assert chs[1..][k - 1] == chs[k];
          }
        }
      }
    }
  }

  /** What is left of an undesired container after a failed removal: nothing, or what it is once stopped. */
  lemma {:induction false} StoppedOrGone(p: Platform, chs: seq<Chance>, w: World, tasks: seq<TaskConfig>, n: string)
    requires n !in Names(tasks) && n in w.ctrs && Stopped(w.ctrs[n]) == w.ctrs[n]
    ensures Ctr(AfterPasses(p, chs, w, tasks), n) in {None, Ctr(w, n)}
    ensures !IsListed(p, w.ctrs[n]) || w.ctrs[n].state == Other ==>
              Ctr(AfterPasses(p, chs, w, tasks), n) == Ctr(w, n)
    decreases |chs|
  {
    if chs != [] {
      var w1 := AfterPass(p, chs[0], w, tasks);
      if !chs[0].listFails {
        PassOnOthers(p, chs[0], w, tasks, n);
      }
      if n in w1.ctrs {
        assert w1.ctrs[n] == w.ctrs[n];
        StoppedOrGone(p, chs[1..], w1, tasks, n);
      } else {
        PassesKeepClears(p, chs[1..], w1, tasks, n);
      }
    }
  }

  /**
   An undesired task whose removal fails after it was stopped is removed by a later pass
   in which nothing fails for it exactly if the daemon lists containers in the state it
   was left in: for one that was running, exited ones, which it does not list unless asked
   for all of them.  If not, it stays as it is through any passes.
   */
  lemma FailedRemovalIsFinal(p: Platform, ch: Chance, chs: seq<Chance>, last: Chance, w: World,
                             tasks: seq<TaskConfig>, n: string)
    requires n !in Names(tasks) && n in w.ctrs && w.ctrs[n].labelled && p.listed(w.ctrs[n].state)
    requires !ch.listFails && Fails(ch, Remove, n) && !Fails(ch, Stop, n) && Unhindered(last, n)
    ensures
      var left := Stopped(w.ctrs[n]);
      var later := AfterPasses(p, chs, AfterPass(p, ch, w, tasks), tasks);
      && (Ctr(AfterPass(p, last, later, tasks), n) == None <==> p.listed(left.state) && left.state != Other)
      && (!p.listed(left.state) || left.state == Other ==> Ctr(later, n) == Some(left))
  {
    var w1 := AfterPass(p, ch, w, tasks);
    PassOnOthers(p, ch, w, tasks, n);
    assert w1.ctrs[n] == Stopped(w.ctrs[n]);
    StoppedOrGone(p, chs, w1, tasks, n);
    PassOnOthers(p, last, AfterPasses(p, chs, w1, tasks), tasks, n);
    assert !Fails(last, Stop, n) && !Fails(last, Remove, n);
  }

  // ----- what is not the agent's -----

  /**
   A container without the agent's label whose name is not desired is none of its business:
   whatever the passes and their faults, it stays exactly as it is, and a name that is
   neither desired nor taken stays free.
   */
  lemma {:induction false} OthersUntouched(p: Platform, chs: seq<Chance>, w: World, tasks: seq<TaskConfig>, n: string)
    requires n !in Names(tasks) && (n in w.ctrs ==> !w.ctrs[n].labelled)
    ensures Ctr(AfterPasses(p, chs, w, tasks), n) == Ctr(w, n)
    decreases |chs|
  {
    if chs != [] {
      PurgedExactly(p, chs[0], w, tasks, n);
      assert n in w.ctrs <==> n in AfterPass(p, chs[0], w, tasks).ctrs;
      OthersUntouched(p, chs[1..], AfterPass(p, chs[0], w, tasks), tasks, n);
    }
  }
}
