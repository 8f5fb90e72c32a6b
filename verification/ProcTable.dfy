/**
 The process table as a value, with one transition per operation of the process
 manager, and the scheduler reduced to the set of its live threads.
 */
module ProcTable {
  import opened Wrappers

  datatype State = Running | Stopped | Zombie | Dead

  datatype Process = Process(
    pid: int,
    name: string,
    state: State,
    threads: seq<nat>,
    channels: seq<int>,
    connections: seq<int>,
    capabilities: seq<int>,
    memUsed: nat,
    exitCode: int,
    parent: int)

  const FIRST_PID: int := 100
  const SIZE_MOD: nat := 0x1_0000_0000_0000_0000

  /** Threads are numbered from nextTid on, so the scheduler never reuses one. */
  datatype System = System(procs: seq<Process>, nextPid: int, live: set<nat>, nextTid: nat)

  datatype Resource = Channel | Connection | Capability

  /** One call; granted says whether the scheduler gave the thread that the call asks for. */
  datatype Event =
    | Spawn(name: string, parent: int, granted: bool)
    | Kill(pid: int)
    | Wait(parent: int)
    | Exit(pid: int, code: int)
    | ThreadAdd(pid: int, granted: bool)
    | Track(pid: int, kind: Resource, id: int)
    | TrackAlloc(pid: int, bytes: nat)

  function Boot(boot: set<nat>, nextTid: nat): System { System([], FIRST_PID, boot, nextTid) }

  function FindFrom(procs: seq<Process>, pid: int, i: nat): (r: Option<nat>)
    requires i <= |procs|
    ensures r.Some? ==> i <= r.value < |procs| && procs[r.value].pid == pid
    ensures r.Some? ==> forall j :: i <= j < r.value ==> procs[j].pid != pid
    ensures r.None? ==> forall j :: i <= j < |procs| ==> procs[j].pid != pid
    decreases |procs| - i
  {
    if i == |procs| then None else if procs[i].pid == pid then Some(i) else FindFrom(procs, pid, i + 1)
  }

  function Find(s: System, pid: int): Option<nat> { FindFrom(s.procs, pid, 0) }

  predicate Waitable(p: Process, parent: int) { p.parent == parent && p.state == Zombie }

  function ChildFrom(procs: seq<Process>, parent: int, i: nat): (r: Option<nat>)
    requires i <= |procs|
    ensures r.Some? ==> i <= r.value < |procs| && Waitable(procs[r.value], parent)
    ensures r.Some? ==> forall j :: i <= j < r.value ==> !Waitable(procs[j], parent)
    ensures r.None? ==> forall j :: i <= j < |procs| ==> !Waitable(procs[j], parent)
    decreases |procs| - i
  {
    if i == |procs| then None else if Waitable(procs[i], parent) then Some(i) else ChildFrom(procs, parent, i + 1)
  }

  /** The child that a wait would reap: the oldest zombie of that parent. */
  function Child(s: System, parent: int): Option<nat> { ChildFrom(s.procs, parent, 0) }

  function Killed(p: Process): Process {
    p.(state := Zombie, threads := [], channels := [], connections := [], capabilities := [])
  }

  function Exited(p: Process, code: int): Process {
    p.(state := Zombie, threads := [], exitCode := code)
  }

  function Tracked(p: Process, kind: Resource, id: int): Process {
    match kind
    case Channel => p.(channels := p.channels + [id])
    case Connection => p.(connections := p.connections + [id])
    case Capability => p.(capabilities := p.capabilities + [id])
  }

  function NewProcess(pid: int, name: string, parent: int, tid: nat): Process {
    Process(pid, name, Running, [tid], [], [], [], 0, 0, parent)
  }

  function Threads(p: Process): set<nat> { set t | t in p.threads }

  /** Process i replaced, and the live threads. */
  function With(s: System, i: nat, p: Process, live: set<nat>): System
    requires i < |s.procs|
  {
    s.(procs := s.procs[i := p], live := live)
  }

  function Step(s: System, e: Event): System {
    match e
    case Spawn(name, parent, granted) =>
      if !granted then s.(nextPid := s.nextPid + 1)
      else System(s.procs + [NewProcess(s.nextPid, name, parent, s.nextTid)], s.nextPid + 1, s.live + {s.nextTid}, s.nextTid + 1)
    case Kill(pid) =>
      var i := Find(s, pid);
      if i.None? then s else With(s, i.value, Killed(s.procs[i.value]), s.live - Threads(s.procs[i.value]))
    case Wait(parent) =>
      var i := Child(s, parent);
      if i.None? then s else With(s, i.value, s.procs[i.value].(state := Dead), s.live)
    case Exit(pid, code) =>
      var i := Find(s, pid);
      if i.None? then s else With(s, i.value, Exited(s.procs[i.value], code), s.live - Threads(s.procs[i.value]))
    case ThreadAdd(pid, granted) =>
      var i := Find(s, pid);
      if i.None? || !granted then s
      else
        var p := s.procs[i.value];
        With(s, i.value, p.(threads := p.threads + [s.nextTid]), s.live + {s.nextTid}).(nextTid := s.nextTid + 1)
    case Track(pid, kind, id) =>
      var i := Find(s, pid);
      if i.None? then s else With(s, i.value, Tracked(s.procs[i.value], kind, id), s.live)
    case TrackAlloc(pid, bytes) =>
      var i := Find(s, pid);
      if i.None? then s
      else
        var p := s.procs[i.value];
        With(s, i.value, p.(memUsed := (p.memUsed + bytes) % SIZE_MOD), s.live)
  }

  function Run(s: System, es: seq<Event>): System
    decreases |es|
  {
    if es == [] then s else Run(Step(s, es[0]), es[1..])
  }

  function Count(procs: seq<Process>, st: State): (n: nat) {
    if procs == [] then 0
    else Count(procs[..|procs| - 1], st) + if procs[|procs| - 1].state == st then 1 else 0
  }
}
