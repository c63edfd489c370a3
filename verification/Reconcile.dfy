/**
 The agent's reconciler in the form of the source, and the function from worlds to
 worlds that one pass computes.
 */
module Reconcile {
  import opened Docker
  import opened Ports
  import opened Runs
  import opened Task

  // ----- one task -----

  /**
   What reconcileTask leaves of its container, the calls it makes, whether it pulled the
   image, and whether it succeeds.
   */
  datatype Step = Step(ctr: Option<Container>, calls: seq<Op>, pulled: bool, ok: bool)

  predicate Pulls(ch: Chance, registry: map<string, ImageId>, t: TaskConfig) {
    !Fails(ch, Status, t.name) && !Fails(ch, Pull, t.name) && t.image in registry
  }

  /** The container does not match its configuration, or its image is not the one just pulled. */
  predicate Outdated(p: Platform, t: TaskConfig, id: ImageId, c: Container) {
    !Matches(t, ReadBack(p, t.name, c)) || c.imageId != id
  }

  /** The container after the stop that precedes its removal. */
  function Halted(c: Container): Container {
    if StatusSeen(Some(c)) == StoppedStatus then c else Stopped(c)
  }

  function Replaced(p: Platform, ch: Chance, t: TaskConfig, id: ImageId, c: Container): Step {
    var stops := if StatusSeen(Some(c)) == StoppedStatus then [] else [Stop];
    if stops != [] && Fails(ch, Stop, t.name) then Step(Some(c), stops, true, false)
    else if Fails(ch, Remove, t.name) || !Removable(Halted(c).state) then
      Step(Some(Halted(c)), stops + [Remove], true, false)
    else
      var s := AfterStart(p, ch, t, Some(id), None);
      Step(s.ctr, stops + [Remove] + s.calls, true, s.ok)
  }

  /** What the first half of reconcileTask decides. */
  datatype Verdict = GiveUp | LeaveIt | StartIt | ReplaceIt

  function Judge(p: Platform, ch: Chance, registry: map<string, ImageId>, t: TaskConfig, c: Option<Container>)
    : (v: Verdict)
    ensures v != GiveUp ==> Pulls(ch, registry, t)
    ensures v == LeaveIt || v == ReplaceIt ==> c.Some?
  {
    if !Pulls(ch, registry, t) || Fails(ch, Info, t.name) then GiveUp
    else if c.None? then StartIt
    else if Fails(ch, Compare, t.name) then GiveUp
    else if Outdated(p, t, registry[t.image], c.value) then ReplaceIt
    else if StatusSeen(c) == RunningStatus then LeaveIt
    else StartIt
  }

  function TaskStep(p: Platform, ch: Chance, registry: map<string, ImageId>, t: TaskConfig, c: Option<Container>)
    : (s: Step)
    ensures s.pulled <==> Pulls(ch, registry, t)
  {
    match Judge(p, ch, registry, t, c)
    case GiveUp => Step(c, [], Pulls(ch, registry, t), false)
    case LeaveIt => Step(c, [], true, true)
    case ReplaceIt => Replaced(p, ch, t, registry[t.image], c.value)
    case StartIt =>
      var s := AfterStart(p, ch, t, Some(registry[t.image]), c);
      Step(s.ctr, s.calls, true, s.ok)
  }

  function AfterPull(ch: Chance, w: World, t: TaskConfig): World {
    if Pulls(ch, w.registry, t) then w.(local := w.local[t.image := w.registry[t.image]]) else w
  }

  function AfterTask(p: Platform, ch: Chance, w: World, t: TaskConfig): World {
    WithCtr(AfterPull(ch, w, t), t.name, TaskStep(p, ch, w.registry, t, Ctr(w, t.name)).ctr)
  }

  // ----- the purge -----

  function Names(tasks: seq<TaskConfig>): set<string> {
    set t | t in tasks :: t.name
  }

  /** A container the agent made, sees in the listing, and no longer wants. */
  predicate ToPurge(p: Platform, w: World, tasks: seq<TaskConfig>, name: string) {
    name in w.ctrs && IsListed(p, w.ctrs[name]) && name !in Names(tasks)
  }

  function AfterPurge(ch: Chance, name: string, c: Container): Option<Container> {
    var halted := Stopped(c);
    if Fails(ch, Stop, name) then Some(c)
    else if Fails(ch, Remove, name) || !Removable(halted.state) then Some(halted)
    else None
  }

  function PurgeCalls(ch: Chance, name: string): seq<Op> {
    if Fails(ch, Stop, name) then [Stop] else [Stop, Remove]
  }

  function PurgeOf(ch: Chance, w: World, names: set<string>): World {
    w.(ctrs := map n | n in w.ctrs && (n in names ==> AfterPurge(ch, n, w.ctrs[n]).Some?) ::
                 if n in names then AfterPurge(ch, n, w.ctrs[n]).value else w.ctrs[n])
  }

  function Purgeable(p: Platform, w: World, tasks: seq<TaskConfig>): set<string> {
    set n | n in w.ctrs && ToPurge(p, w, tasks, n)
  }

  lemma PurgeOneMore(ch: Chance, w: World, names: set<string>, name: string)
    requires name in w.ctrs && name !in names
    ensures
      var before := PurgeOf(ch, w, names);
      && name in before.ctrs
      && PurgeOf(ch, w, names + {name}) == WithCtr(before, name, AfterPurge(ch, name, before.ctrs[name]))
  {
    var before := PurgeOf(ch, w, names);
    assert PurgeOf(ch, w, names + {name}).ctrs == WithCtr(before, name, AfterPurge(ch, name, before.ctrs[name])).ctrs;
  }

  // ----- a pass -----

  function AfterTasks(p: Platform, ch: Chance, w: World, tasks: seq<TaskConfig>): World
    decreases |tasks|
  {
    if tasks == [] then w else AfterTasks(p, ch, AfterTask(p, ch, w, tasks[0]), tasks[1..])
  }

  function StepCalls(p: Platform, ch: Chance, w: World, t: TaskConfig): seq<Call> {
    Calls(TaskStep(p, ch, w.registry, t, Ctr(w, t.name)).calls, t.name)
  }

  function TaskCalls(p: Platform, ch: Chance, w: World, tasks: seq<TaskConfig>): seq<Call>
    decreases |tasks|
  {
    if tasks == [] then []
    else StepCalls(p, ch, w, tasks[0]) + TaskCalls(p, ch, AfterTask(p, ch, w, tasks[0]), tasks[1..])
  }

  function AfterPurges(p: Platform, ch: Chance, w: World, tasks: seq<TaskConfig>): World {
    PurgeOf(ch, w, Purgeable(p, w, tasks))
  }

  function AfterPass(p: Platform, ch: Chance, w: World, tasks: seq<TaskConfig>): World {
    if ch.listFails then w else AfterTasks(p, ch, AfterPurges(p, ch, w, tasks), tasks)
  }

  lemma SetToItself(w: World, name: string)
    ensures WithCtr(w, name, Ctr(w, name)) == w
  {
    assert WithCtr(w, name, Ctr(w, name)).ctrs == w.ctrs;
  }

  lemma SetTwice(w: World, name: string, a: Option<Container>, b: Option<Container>)
    ensures WithCtr(WithCtr(w, name, a), name, b) == WithCtr(w, name, b)
    ensures Ctr(WithCtr(w, name, a), name) == a
  {
    assert WithCtr(WithCtr(w, name, a), name, b).ctrs == WithCtr(w, name, b).ctrs;
  }

  /** The running tasks that the purge is done with and that are not wanted. */
  function Visited(running: set<string>, rest: set<string>, wanted: set<string>): set<string> {
    running - rest - wanted
  }

  lemma OneLess(running: set<string>, rest: set<string>, wanted: set<string>, name: string)
    requires rest <= running && name in rest
    ensures Visited(running, rest - {name}, wanted) ==
            if name in wanted then Visited(running, rest, wanted) else Visited(running, rest, wanted) + {name}
  {
  }

  /** The rest of the list after one more task. */
  lemma OneTaskLess(p: Platform, ch: Chance, w: World, tasks: seq<TaskConfig>, i: nat)
    requires i < |tasks|
    ensures
      var w' := AfterTask(p, ch, w, tasks[i]);
      && AfterTasks(p, ch, w, tasks[i..]) == AfterTasks(p, ch, w', tasks[i + 1..])
      && TaskCalls(p, ch, w, tasks[i..]) == StepCalls(p, ch, w, tasks[i]) + TaskCalls(p, ch, w', tasks[i + 1..])
  {
    assert tasks[i..][0] == tasks[i] && tasks[i..][1..] == tasks[i + 1..];
  }

  class Agent {
    const rt: DockerRuntime
    var tasks: seq<TaskConfig>

    constructor (rt: DockerRuntime)
      ensures this.rt == rt && tasks == []
    {
      this.rt, tasks := rt, [];
    }

    /** The first half of a restart: an outdated task is stopped, unless it is known to be, and removed. */
    method Discard(name: string, status: TaskStatus) returns (ok: bool)
      requires name in rt.world.ctrs && status == StatusSeen(Ctr(rt.world, name))
      modifies rt`world, rt`calls
      ensures
        var c := old(rt.world).ctrs[name];
        var stops := if status == StoppedStatus then [] else [Stop];
        if stops != [] && Fails(rt.chance, Stop, name) then
          !ok && rt.world == old(rt.world) && rt.calls == old(rt.calls) + Calls(stops, name)
        else
          && rt.calls == old(rt.calls) + Calls(stops + [Remove], name)
          && ok == (!Fails(rt.chance, Remove, name) && Removable(Halted(c).state))
          && rt.world == WithCtr(old(rt.world), name, if ok then None else Some(Halted(c)))
    {
      ghost var w, c := rt.world, rt.world.ctrs[name];
      SetToItself(w, name);
      if status != StoppedStatus {
        ok := rt.StopTask(name);
        if !ok {
          return;
        }
      }
      SetTwice(w, name, Some(Halted(c)), None);
      assert rt.world == WithCtr(w, name, Some(Halted(c)));
      ok := rt.RemoveTask(name);
    }

    /** The first half of reconcileTask: the image is pulled, and nothing else changes. */
    method Examine(t: TaskConfig) returns (verdict: Verdict, status: TaskStatus)
      modifies rt`world
      ensures verdict == Judge(rt.platform, rt.chance, old(rt.world).registry, t, Ctr(old(rt.world), t.name))
      ensures verdict != GiveUp ==> status == StatusSeen(Ctr(old(rt.world), t.name))
      ensures rt.world == AfterPull(rt.chance, old(rt.world), t)
    {
      verdict, status := GiveUp, UnknownStatus;
      var seen := rt.GetTaskStatus(t.name);
      if seen == None {
        return;
      }
      // pulled before anything is stopped, so that a failed pull leaves a running container alone
      var pulled := rt.PullImage(t.image, t.name);
      if !pulled {
        return;
      }
      var current := rt.GetTaskInfo(t.name);
      if current == None {
        return;
      }
      if current.value == None {
        return StartIt, seen.value;
      }
      var imageCurrent := rt.IsTaskImageCurrent(t.name, t.image);
      if imageCurrent == None {
        return;
      }
      var same := CompareTo(t, current.value.value);
      if !same || !imageCurrent.value {
        return ReplaceIt, seen.value;
      }
      if seen.value == RunningStatus {
        return LeaveIt, seen.value;
      }
      return StartIt, seen.value;
    }

    method ReconcileTask(t: TaskConfig) returns (ok: bool)
      requires Orderly(rt.chance)
      modifies rt`world, rt`calls
      ensures
        var s := TaskStep(rt.platform, rt.chance, old(rt.world).registry, t, Ctr(old(rt.world), t.name));
        && ok == s.ok
        && rt.world == AfterTask(rt.platform, rt.chance, old(rt.world), t)
        && rt.calls == old(rt.calls) + StepCalls(rt.platform, rt.chance, old(rt.world), t)
    {
      ghost var w := rt.world;
      var verdict, status := Examine(t);
      SetToItself(rt.world, t.name);
      if verdict == GiveUp || verdict == LeaveIt {
        return verdict == LeaveIt;
      }
      if verdict == ReplaceIt {
        ok := Discard(t.name, status);
        if !ok {
          return;
        }
        SetTwice(AfterPull(rt.chance, w, t), t.name, None, None);
      }
      ok := rt.StartTask(t);
      if verdict == ReplaceIt {
        SetTwice(AfterPull(rt.chance, w, t), t.name, None, Ctr(rt.world, t.name));
      }
    }

    /** One listed task that may no longer be wanted: stopped, then removed. */
    method PurgeTask(name: string)
      requires name in rt.world.ctrs
      modifies rt`world, rt`calls
      ensures rt.world == WithCtr(old(rt.world), name, AfterPurge(rt.chance, name, old(rt.world).ctrs[name]))
      ensures rt.calls == old(rt.calls) + Calls(PurgeCalls(rt.chance, name), name)
    {
      ghost var w, c := rt.world, rt.world.ctrs[name];
      SetToItself(w, name);
      var ok := rt.StopTask(name);
      if !ok {
        return;
      }
      SetTwice(w, name, Some(Stopped(c)), None);
      ok := rt.RemoveTask(name);
    }

    /** The loop over the desired list for one running task. */
    method IsWanted(name: string) returns (found: bool)
      ensures found <==> name in Names(tasks)
    {
      found := false;
      var i := 0;
      while i < |tasks|
        invariant i <= |tasks| && !found
        invariant forall k :: 0 <= k < i ==> tasks[k].name != name
      {
        if tasks[i].name == name {
          assert tasks[i] in tasks;
          return true;
        }
        i := i + 1;
      }
    }

    /** One turn of the loop over the running tasks, when those in `done` have been purged. */
    method PurgeNext(name: string, ghost w: World, ghost done: set<string>) returns (ghost made: seq<Call>)
      requires rt.world == PurgeOf(rt.chance, w, done) && name in w.ctrs && name !in done
      modifies rt`world, rt`calls
      ensures rt.world == PurgeOf(rt.chance, w, if name in Names(tasks) then done else done + {name})
      ensures rt.calls == old(rt.calls) + made
      ensures forall c :: c in made ==> c.name == name && name !in Names(tasks)
    {
      made := [];
      var found := IsWanted(name);
      if !found {
        PurgeOneMore(rt.chance, w, done, name);
        PurgeTask(name);
        made := Calls(PurgeCalls(rt.chance, name), name);
      }
    }

    /** The loop over the running tasks, in any order. */
    method Purge(running: set<string>) returns (ghost purged: seq<Call>)
      requires running == set n | n in rt.world.ctrs && IsListed(rt.platform, rt.world.ctrs[n])
      modifies rt`world, rt`calls
      ensures rt.world == PurgeOf(rt.chance, old(rt.world), Purgeable(rt.platform, old(rt.world), tasks))
      ensures rt.calls == old(rt.calls) + purged
      ensures forall c :: c in purged ==> ToPurge(rt.platform, old(rt.world), tasks, c.name)
    {
      ghost var w := rt.world;
      ghost var done := Visited(running, running, Names(tasks));
      purged := [];
      var rest := running;
      assert done == {} && PurgeOf(rt.chance, w, done).ctrs == w.ctrs;
      while rest != {}
        invariant rest <= running
        invariant done == Visited(running, rest, Names(tasks))
        invariant rt.world == PurgeOf(rt.chance, w, done)
        invariant rt.calls == old(rt.calls) + purged
        invariant forall c :: c in purged ==> ToPurge(rt.platform, w, tasks, c.name)
        decreases |rest|
      {
        var name :| name in rest;
        ghost var made := PurgeNext(name, w, done);
        Assoc(old(rt.calls), purged, made);
        purged := purged + made;
        OneLess(running, rest, Names(tasks), name);
        done := Visited(running, rest - {name}, Names(tasks));
        rest := rest - {name};
      }
      assert done == Purgeable(rt.platform, w, tasks);
    }

    /** One turn of the loop over the desired list; its error, if any, is only logged. */
    method ReconcileNext(i: nat)
      requires i < |tasks| && Orderly(rt.chance)
      modifies rt`world, rt`calls
      ensures AfterTasks(rt.platform, rt.chance, rt.world, tasks[i + 1..]) ==
              AfterTasks(rt.platform, rt.chance, old(rt.world), tasks[i..])
      ensures rt.calls + TaskCalls(rt.platform, rt.chance, rt.world, tasks[i + 1..]) ==
              old(rt.calls) + TaskCalls(rt.platform, rt.chance, old(rt.world), tasks[i..])
    {
      ghost var w, calls := rt.world, rt.calls;
      var ok := ReconcileTask(tasks[i]);
      OneTaskLess(rt.platform, rt.chance, w, tasks, i);
      Assoc(calls, StepCalls(rt.platform, rt.chance, w, tasks[i]),
          TaskCalls(rt.platform, rt.chance, rt.world, tasks[i + 1..]));
    }

    /** The loop over the desired list. */
    method ReconcileTasks()
      requires Orderly(rt.chance)
      modifies rt`world, rt`calls
      ensures rt.world == AfterTasks(rt.platform, rt.chance, old(rt.world), tasks)
      ensures rt.calls == old(rt.calls) + TaskCalls(rt.platform, rt.chance, old(rt.world), tasks)
    {
      var i := 0;
      assert tasks[0..] == tasks;
      while i < |tasks|
        invariant i <= |tasks|
        invariant AfterTasks(rt.platform, rt.chance, rt.world, tasks[i..]) ==
                  AfterTasks(rt.platform, rt.chance, old(rt.world), tasks)
        invariant rt.calls + TaskCalls(rt.platform, rt.chance, rt.world, tasks[i..]) ==
                  old(rt.calls) + TaskCalls(rt.platform, rt.chance, old(rt.world), tasks)
      {
        ReconcileNext(i);
        i := i + 1;
      }
    }

    /**
     One pass.  Without the desired list, or without the listing, nothing is touched.
     Errors on single tasks are not passed on.
     */
    method Reconcile(desired: Option<seq<TaskConfig>>) returns (ok: bool, ghost purged: seq<Call>)
      requires Orderly(rt.chance)
      modifies this`tasks, rt`world, rt`calls
      ensures ok <==> desired.Some? && !rt.chance.listFails
      ensures tasks == if desired.Some? then desired.value else old(tasks)
      ensures rt.world ==
              if desired.Some? then AfterPass(rt.platform, rt.chance, old(rt.world), tasks) else old(rt.world)
      ensures forall c :: c in purged ==>
                && c.name in old(rt.world).ctrs && c.name !in Names(tasks)
                && old(rt.world).ctrs[c.name].labelled && rt.platform.listed(old(rt.world).ctrs[c.name].state)
      ensures rt.calls == old(rt.calls) + purged +
                          if !ok then []
                          else
                            var purgedWorld := AfterPurges(rt.platform, rt.chance, old(rt.world), tasks);
                            TaskCalls(rt.platform, rt.chance, purgedWorld, tasks)
    {
      purged := [];
      if desired == None {
        return false, [];
      }
      tasks := desired.value;
      var running := rt.ListTasks();
      if running == None {
        return false, [];
      }
      assert running.value.Keys == set n | n in rt.world.ctrs && IsListed(rt.platform, rt.world.ctrs[n]);
      purged := Purge(running.value.Keys);
      ReconcileTasks();
      ok := true;
    }
  }
}
