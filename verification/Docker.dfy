/**
 The Docker runtime of the agent, as far as its effects on containers go.

 World is what a Docker host knows: containers by name, images it has, and the images
 its registry offers.  Platform holds the daemon's own choices, about which nothing is
 assumed here.  Chance is one pass's luck: which operations on which names fail, and
 the order in which maps are iterated.
 */
module Docker {
  import opened Ports
  import opened Runs
  import opened Task

  type ImageId = nat

  /** Other stands for restarting, dead and being removed. */
  datatype CtrState = Created | Running | Paused | Exited | Other

  datatype Container = Container(
    labelled: bool,
    image: string,
    command: seq<string>,
    env: seq<string>,
    bindings: Bindings,
    volumes: seq<string>,
    nanoCpus: int,
    memory: int,
    imageId: ImageId,
    state: CtrState)

  datatype World = World(
    ctrs: map<string, Container>,
    local: map<string, ImageId>,
    registry: map<string, ImageId>)

  datatype Platform = Platform(
    listed: CtrState -> bool,                        // which states ContainerList returns
    imageEnv: (seq<string>, ImageId) -> seq<string>, // entries an image adds to a container's own
    imageCmd: ImageId -> seq<string>,                // an image's default command
    accepts: TaskConfig -> bool,                     // the daemon's own validation
    toNano: real -> int,                             // int64(cores * 1e9)
    fromNano: int -> Cpu)                            // float32(nano) / 1e9

  datatype Op = Status | Pull | Info | Compare | Find | Create | Start | Stop | Remove

  datatype Chance = Chance(
    fails: set<(Op, string)>,
    listFails: bool,
    order: map<string, string> -> seq<string>)

  /** Iterating a map visits each of its keys. */
  ghost predicate Orderly(ch: Chance) {
    forall m :: Enumerates(ch.order(m), m)
  }

  predicate Fails(ch: Chance, op: Op, name: string) {
    (op, name) in ch.fails
  }

  datatype TaskStatus = RunningStatus | StoppedStatus | UnknownStatus

  datatype Call = Call(op: Op, name: string)

  // ----- the daemon -----

  function Ctr(w: World, name: string): Option<Container> {
    if name in w.ctrs then Some(w.ctrs[name]) else None
  }

  function WithCtr(w: World, name: string, c: Option<Container>): World {
    w.(ctrs := if c.Some? then w.ctrs[name := c.value] else w.ctrs - {name})
  }

  /** Stopping a container that is not running succeeds and changes nothing. */
  function AfterStop(s: CtrState): CtrState {
    if s == Running || s == Paused then Exited else s
  }

  function Stopped(c: Container): Container {
    c.(state := AfterStop(c.state))
  }

  predicate Removable(s: CtrState) {
    s == Created || s == Exited
  }

  predicate Startable(s: CtrState) {
    s == Created || s == Exited || s == Running
  }

  // ----- memory: megabytes to bytes in int64, and back -----

  const MIB := 1024 * 1024
  const TWO43 := 0x800_0000_0000
  const TWO63 := 0x8000_0000_0000_0000
  const TWO64 := 0x1_0000_0000_0000_0000

  predicate Int64(x: int) {
    -TWO63 <= x < TWO63
  }

  function Wrap64(x: int): (y: int)
    ensures Int64(y)
  {
    (x + TWO63) % TWO64 - TWO63
  }

  /** Go's integer division truncates toward zero. */
  function Megabytes(bytes: int): int {
    if bytes >= 0 then bytes / MIB else -(-bytes / MIB)
  }

  /** A memory limit survives the trip through bytes exactly when it is below 2^43 MB in size. */
  lemma MemoryReadsBackExactly(mb: int)
    ensures Megabytes(Wrap64(mb * MIB)) == mb <==> -TWO43 <= mb < TWO43
  {
    var bytes := Wrap64(mb * MIB);
    assert -TWO43 <= Megabytes(bytes) < TWO43;
    if -TWO43 <= mb < TWO43 {
      assert bytes == mb * MIB;
    }
  }

  // ----- containers and configurations -----

  /** What createContainer asks for, and what the daemon makes of it. */
  function NewContainer(p: Platform, ch: Chance, t: TaskConfig, id: ImageId): Container
    requires t.cpu.Cores?
  {
    Container(true, t.image,
              if t.command == [] then p.imageCmd(id) else t.command,
              t.env + p.imageEnv(t.env, id),
              Bound(t.ports, ch.order(t.ports)),
              t.volumes, p.toNano(t.cpu.value), Wrap64(t.memory * MIB), id, Created)
  }

  function ReadBack(p: Platform, name: string, c: Container): TaskConfig {
    TaskConfig(name, c.image, c.command, c.env, ReadPorts(c.bindings), c.volumes,
               p.fromNano(c.nanoCpus), Megabytes(c.memory))
  }

  function StatusOf(c: Container): TaskStatus {
    match c.state
    case Running => RunningStatus
    case Exited => StoppedStatus
    case _ => UnknownStatus
  }

  /** A container without the agent's label counts as unknown. */
  function StatusSeen(c: Option<Container>): TaskStatus {
    if c.Some? && c.value.labelled then StatusOf(c.value) else UnknownStatus
  }

  predicate IsListed(p: Platform, c: Container) {
    c.labelled && p.listed(c.state)
  }

  function Listing(p: Platform, w: World): map<string, TaskStatus> {
    map n | n in w.ctrs && IsListed(p, w.ctrs[n]) :: StatusOf(w.ctrs[n])
  }

  /** What StartTask leaves behind, the calls it makes, and whether it succeeds. */
  datatype Started = Started(ctr: Option<Container>, calls: seq<Op>, ok: bool)

  /** Any failure to find the container counts as its absence; creating one then fails if it is there. */
  function AfterStart(p: Platform, ch: Chance, t: TaskConfig, image: Option<ImageId>, c: Option<Container>): Started {
    if Fails(ch, Find, t.name) || c.None? then
      if t.cpu.NaN? || !Parses(t.ports) then Started(c, [], false)
      else if Fails(ch, Create, t.name) || c.Some? || image.None? || !p.accepts(t) then Started(c, [Create], false)
      else
        var made := NewContainer(p, ch, t, image.value);
        if Fails(ch, Start, t.name) then Started(Some(made), [Create, Start], false)
        else Started(Some(made.(state := Running)), [Create, Start], true)
    else if c.value.state == Running then Started(c, [], true)
    else if Fails(ch, Start, t.name) || !Startable(c.value.state) then Started(c, [Start], false)
    else Started(Some(c.value.(state := Running)), [Start], true)
  }

  /** The configuration passes the checks of createContainer and of the daemon. */
  predicate Creatable(p: Platform, t: TaskConfig) {
    t.cpu.Cores? && Parses(t.ports) && p.accepts(t)
  }

  /**
   What StartTask comes to.  A container that is found and running is left alone; one that
   is found and can be started is; if none is found one is created and started, and if
   only the start fails the new one stays behind.  Success means a running container, and
   nothing is ever stopped, removed or changed otherwise.
   */
  lemma StartTaskExactly(p: Platform, ch: Chance, t: TaskConfig, image: Option<ImageId>, c: Option<Container>)
    ensures
      var s := AfterStart(p, ch, t, image, c);
      var found := c.Some? && !Fails(ch, Find, t.name);
      var mayCreate := c.None? && image.Some? && Creatable(p, t) && !Fails(ch, Create, t.name);
      && (s.ok <==>
            if found then c.value.state == Running || (Startable(c.value.state) && !Fails(ch, Start, t.name))
            else mayCreate && !Fails(ch, Start, t.name))
      && (s.ok ==> s.ctr.Some? && s.ctr.value.state == Running)
      && (c.Some? ==> s.ctr.Some? && s.ctr.value.(state := c.value.state) == c.value && (!s.ok ==> s.ctr == c))
      && (c.None? ==> (s.ctr.Some? <==> mayCreate))
      && (mayCreate ==> s.ctr.value.(state := Created) == NewContainer(p, ch, t, image.value)
                        && s.ctr.value.state == (if s.ok then Running else Created))
      && s.calls == (if found then if c.value.state == Running then [] else [Start]
                     else if !(t.cpu.Cores? && Parses(t.ports)) then []
                     else if mayCreate then [Create, Start] else [Create])
  {
  }

  function Calls(ops: seq<Op>, name: string): (calls: seq<Call>)
    ensures |calls| == |ops|
  {
    seq(|ops|, i requires 0 <= i < |ops| => Call(ops[i], name))
  }

  // ----- the runtime -----

  class DockerRuntime {
    const platform: Platform
    var world: World
    var chance: Chance
    var calls: seq<Call>  // the stop, remove, create and start calls made so far

    constructor (platform: Platform, world: World, chance: Chance)
      ensures this.platform == platform && this.world == world && this.chance == chance && calls == []
    {
      this.platform, this.world, this.chance, calls := platform, world, chance, [];
    }

    /** The container name is given because faults go by it: one image may be pulled for several containers. */
    method PullImage(image: string, name: string) returns (ok: bool)
      modifies this`world
      ensures ok <==> !Fails(chance, Pull, name) && image in old(world).registry
      ensures world ==
              if ok then old(world).(local := old(world).local[image := old(world).registry[image]]) else old(world)
    {
      if Fails(chance, Pull, name) || image !in world.registry {
        return false;
      }
      world := world.(local := world.local[image := world.registry[image]]);
      ok := true;
    }

    method StartTask(t: TaskConfig) returns (ok: bool)
      requires Orderly(chance)
      modifies this`world, this`calls
      ensures
        var image := if t.image in old(world).local then Some(old(world).local[t.image]) else None;
        var s := AfterStart(platform, chance, t, image, Ctr(old(world), t.name));
        ok == s.ok && world == WithCtr(old(world), t.name, s.ctr) && calls == old(calls) + Calls(s.calls, t.name)
    {
      if Fails(chance, Find, t.name) || t.name !in world.ctrs {
        ok := CreateContainer(t);
        if !ok {
          return;
        }
      } else if world.ctrs[t.name].state == Running {
        return true;
      }
      ok := StartContainer(t.name);
    }

    method CreateContainer(t: TaskConfig) returns (ok: bool)
      requires Orderly(chance)
      modifies this`world, this`calls
      ensures
        var issued := t.cpu.Cores? && Parses(t.ports);
        && calls == old(calls) + (if issued then [Call(Create, t.name)] else [])
        && (ok <==>
            && issued && !Fails(chance, Create, t.name) && t.name !in old(world).ctrs
            && t.image in old(world).local && platform.accepts(t))
        && world ==
           if ok then WithCtr(old(world), t.name, Some(NewContainer(platform, chance, t, old(world).local[t.image])))
           else old(world)
    {
      if t.cpu.NaN? {
        return false; // json.Marshal rejects it
      }
      var bindings := ConvertPortBindings(t.ports, chance.order(t.ports));
      if bindings == None {
        return false;
      }
      calls := calls + [Call(Create, t.name)];
      if Fails(chance, Create, t.name) || t.name in world.ctrs || t.image !in world.local || !platform.accepts(t) {
        return false;
      }
      var id := world.local[t.image];
      var made := Container(true, t.image, if t.command == [] then platform.imageCmd(id) else t.command,
                            t.env + platform.imageEnv(t.env, id), bindings.value, t.volumes,
                            platform.toNano(t.cpu.value), Wrap64(t.memory * MIB), id, Created);
      world := world.(ctrs := world.ctrs[t.name := made]);
      ok := true;
    }

    method StartContainer(name: string) returns (ok: bool)
      modifies this`world, this`calls
      ensures calls == old(calls) + [Call(Start, name)]
      ensures ok <==> !Fails(chance, Start, name) && name in old(world).ctrs && Startable(old(world).ctrs[name].state)
      ensures world ==
              if ok then WithCtr(old(world), name, Some(old(world).ctrs[name].(state := Running))) else old(world)
    {
      calls := calls + [Call(Start, name)];
      if Fails(chance, Start, name) || name !in world.ctrs || !Startable(world.ctrs[name].state) {
        return false;
      }
      world := world.(ctrs := world.ctrs[name := world.ctrs[name].(state := Running)]);
      ok := true;
    }

    method StopTask(name: string) returns (ok: bool)
      modifies this`world, this`calls
      ensures calls == old(calls) + [Call(Stop, name)]
      ensures ok <==> !Fails(chance, Stop, name) && name in old(world).ctrs
      ensures world ==
              if ok then WithCtr(old(world), name, Some(Stopped(old(world).ctrs[name]))) else old(world)
    {
      calls := calls + [Call(Stop, name)];
      if Fails(chance, Stop, name) || name !in world.ctrs {
        return false;
      }
      var c := world.ctrs[name];
      world := world.(ctrs := world.ctrs[name := c.(state := AfterStop(c.state))]);
      ok := true;
    }

    method RemoveTask(name: string) returns (ok: bool)
      modifies this`world, this`calls
      ensures calls == old(calls) + [Call(Remove, name)]
      ensures ok <==> !Fails(chance, Remove, name) && name in old(world).ctrs && Removable(old(world).ctrs[name].state)
      ensures world == if ok then WithCtr(old(world), name, None) else old(world)
    {
      calls := calls + [Call(Remove, name)];
      if Fails(chance, Remove, name) || name !in world.ctrs || !Removable(world.ctrs[name].state) {
        return false;
      }
      world := world.(ctrs := world.ctrs - {name});
      ok := true;
    }

    /** None is an error. */
    method GetTaskStatus(name: string) returns (status: Option<TaskStatus>)
      ensures status == if Fails(chance, Status, name) then None else Some(StatusSeen(Ctr(world, name)))
      ensures status == None <==> Fails(chance, Status, name)
      ensures status == Some(RunningStatus) <==>
                !Fails(chance, Status, name) && name in world.ctrs
                && world.ctrs[name].labelled && world.ctrs[name].state == Running
      ensures status == Some(StoppedStatus) <==>
                !Fails(chance, Status, name) && name in world.ctrs
                && world.ctrs[name].labelled && world.ctrs[name].state == Exited
    {
      if Fails(chance, Status, name) {
        return None;
      }
      if name !in world.ctrs || !world.ctrs[name].labelled {
        return Some(UnknownStatus);
      }
      status := Some(StatusOf(world.ctrs[name]));
    }

    /** None is an error; Some(None) means that there is no such task. */
    method GetTaskInfo(name: string) returns (info: Option<Option<TaskConfig>>)
      ensures info == if Fails(chance, Info, name) then None
                      else if name !in world.ctrs then Some(None)
                      else Some(Some(ReadBack(platform, name, world.ctrs[name])))
    {
      if Fails(chance, Info, name) {
        return None;
      }
      if name !in world.ctrs {
        return Some(None);
      }
      var c := world.ctrs[name];
      var ports := CollectPorts(c.bindings);
      info := Some(Some(TaskConfig(name, c.image, c.command, c.env, ports, c.volumes,
                                   platform.fromNano(c.nanoCpus), Megabytes(c.memory))));
    }

    /** None is an error. */
    method IsTaskImageCurrent(name: string, image: string) returns (current: Option<bool>)
      ensures current == if Fails(chance, Compare, name) || name !in world.ctrs || image !in world.local then None
                         else Some(world.ctrs[name].imageId == world.local[image])
    {
      if Fails(chance, Compare, name) || name !in world.ctrs || image !in world.local {
        return None;
      }
      current := Some(world.ctrs[name].imageId == world.local[image]);
    }

    /** None is an error. */
    method ListTasks() returns (tasks: Option<map<string, TaskStatus>>)
      ensures tasks == if chance.listFails then None else Some(Listing(platform, world))
      ensures tasks.Some? ==> forall n ::
                n in tasks.value <==> n in world.ctrs && world.ctrs[n].labelled && platform.listed(world.ctrs[n].state)
      ensures tasks.Some? ==> forall n :: n in tasks.value ==>
                && (tasks.value[n] == RunningStatus <==> world.ctrs[n].state == Running)
                && (tasks.value[n] == StoppedStatus <==> world.ctrs[n].state == Exited)
    {
      if chance.listFails {
        return None;
      }
      var result: map<string, TaskStatus> := map[];
      var rest := world.ctrs.Keys;
      while rest != {}
        invariant rest <= world.ctrs.Keys
        invariant result == map n | n in world.ctrs && n !in rest && IsListed(platform, world.ctrs[n]) ::
            StatusOf(world.ctrs[n])
        decreases |rest|
      {
        var name :| name in rest;
        if world.ctrs[name].labelled && platform.listed(world.ctrs[name].state) {
          result := result[name := StatusOf(world.ctrs[name])];
        }
        rest := rest - {name};
      }
      assert result == Listing(platform, world);
      tasks := Some(result);
    }
  }
}
