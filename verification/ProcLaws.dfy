/**
 What every run of the process manager keeps, and what a process may rely on.
 */
module ProcLaws {
  import opened Wrappers
  import opened ProcTable

  // ---- The table invariant.

  /** Pids rise along the table and have all been handed out. */
  ghost predicate PidsRise(s: System) {
    && FIRST_PID <= s.nextPid
    && (forall i, j :: 0 <= i < j < |s.procs| ==> s.procs[i].pid < s.procs[j].pid)
    && (forall i :: 0 <= i < |s.procs| ==> FIRST_PID <= s.procs[i].pid < s.nextPid)
  }

  ghost predicate NoRepeats(ts: seq<nat>) {
    forall a, b :: 0 <= a < b < |ts| ==> ts[a] != ts[b]
  }

  ghost predicate Owns(s: System, i: nat, t: nat) {
    i < |s.procs| && t in s.procs[i].threads
  }

  /** Each thread that is live but not from boot stands once in exactly one list, and no list holds any other. */
  ghost predicate ThreadsPlaced(s: System, boot: set<nat>) {
    && (forall i :: 0 <= i < |s.procs| ==> NoRepeats(s.procs[i].threads))
    && (forall i, j, t :: Owns(s, i, t) && Owns(s, j, t) ==> i == j)
    && (forall i, t :: Owns(s, i, t) ==> t in s.live && t !in boot)
    && (forall t :: t in s.live && t !in boot ==> exists i :: Owns(s, i, t))
    && boot <= s.live
    && (forall t :: t in s.live ==> t < s.nextTid)
  }

  /** So no two places in the lists hold one thread, and a thread that is not from boot is live exactly when some place holds it. */
  lemma PlacedOnce(s: System, boot: set<nat>, i: nat, a: nat, j: nat, b: nat, t: nat)
    requires ThreadsPlaced(s, boot) && i < |s.procs| && j < |s.procs|
    ensures a < |s.procs[i].threads| && b < |s.procs[j].threads| && s.procs[i].threads[a] == s.procs[j].threads[b] ==> i == j && a == b
    ensures t !in boot ==> (t in s.live <==> exists p :: p in s.procs && t in p.threads)
    ensures a < |s.procs[i].threads| ==> s.procs[i].threads[a] !in boot
  {
    hide NoRepeats;
    if a < |s.procs[i].threads| && b < |s.procs[j].threads| && s.procs[i].threads[a] == s.procs[j].threads[b] {
      assert Owns(s, i, s.procs[i].threads[a]) && Owns(s, j, s.procs[i].threads[a]);
      Repeatless(s.procs[i].threads, a, b);
    }
    if a < |s.procs[i].threads| { assert Owns(s, i, s.procs[i].threads[a]); }
    if t in s.live && t !in boot {
      var k: nat :| Owns(s, k, t);
      assert s.procs[k] in s.procs;
    }
    if p :| p in s.procs && t in p.threads {
      var k: nat :| k < |s.procs| && s.procs[k] == p;
      assert Owns(s, k, t);
    }
  }

  lemma Repeatless(ts: seq<nat>, a: nat, b: nat)
    requires NoRepeats(ts) && a < |ts| && b < |ts| && ts[a] == ts[b]
    ensures a == b
  {
  }

  ghost predicate NoneStopped(s: System) {
    forall i :: 0 <= i < |s.procs| ==> s.procs[i].state != Stopped
  }

  ghost predicate Ok(s: System, boot: set<nat>) {
    PidsRise(s) && ThreadsPlaced(s, boot) && NoneStopped(s)
  }

  /** Every transition that touches one process keeps the pids. */
  lemma StepKeepsPids(s: System, e: Event)
    requires PidsRise(s)
    ensures PidsRise(Step(s, e))
  {
    hide FindFrom, ChildFrom, PidsRise;
    if e.Spawn? {
      PidJoins(s, e);
    } else if e.Wait? {
      var i := Child(s, e.parent);
      if i.Some? { SamePids(s, i.value, s.procs[i.value].(state := Dead), s.live, s.nextTid); }
    } else {
      var i := Find(s, e.pid);
      if i.Some? {
        var t := Step(s, e);
        SamePids(s, i.value, t.procs[i.value], t.live, t.nextTid);
      }
    }
  }

  lemma PidJoins(s: System, e: Event)
    requires PidsRise(s) && e.Spawn?
    ensures PidsRise(Step(s, e))
  {
  }

  /** A process changed in anything but its pid. */
  lemma SamePids(s: System, i: nat, p: Process, live: set<nat>, nextTid: nat)
    requires PidsRise(s) && i < |s.procs| && p.pid == s.procs[i].pid
    ensures PidsRise(With(s, i, p, live).(nextTid := nextTid))
  {
  }

  lemma StepKeepsStates(s: System, e: Event)
    requires NoneStopped(s)
    ensures NoneStopped(Step(s, e))
  {
  }

  /** A process changed in anything but its threads. */
  lemma SameThreads(s: System, boot: set<nat>, i: nat, p: Process)
    requires ThreadsPlaced(s, boot) && i < |s.procs| && p.threads == s.procs[i].threads
    ensures ThreadsPlaced(With(s, i, p, s.live), boot)
  {
    var s' := With(s, i, p, s.live);
    assert forall j, t :: Owns(s', j, t) <==> Owns(s, j, t);
  }

  /** A process stripped of its threads, which the scheduler destroys. */
  lemma ThreadsGone(s: System, boot: set<nat>, i: nat, p: Process)
    requires ThreadsPlaced(s, boot) && i < |s.procs| && p.threads == []
    ensures ThreadsPlaced(With(s, i, p, s.live - Threads(s.procs[i])), boot)
  {
    var s' := With(s, i, p, s.live - Threads(s.procs[i]));
    assert forall t :: t in s.procs[i].threads ==> Owns(s, i, t);
    assert forall j, t :: Owns(s', j, t) <==> Owns(s, j, t) && j != i;
    forall t | t in s'.live && t !in boot ensures exists j :: Owns(s', j, t) {
      var j :| Owns(s, j, t);
      assert Owns(s', j, t);
    }
  }

  /** A thread just created, at the end of a process's list. */
  lemma ThreadJoins(s: System, boot: set<nat>, i: nat, p: Process)
    requires ThreadsPlaced(s, boot) && i < |s.procs| && p.threads == s.procs[i].threads + [s.nextTid]
    ensures ThreadsPlaced(With(s, i, p, s.live + {s.nextTid}).(nextTid := s.nextTid + 1), boot)
  {
    var s' := With(s, i, p, s.live + {s.nextTid}).(nextTid := s.nextTid + 1);
    assert forall t :: t in s.procs[i].threads ==> Owns(s, i, t);
    assert s'.procs[i].threads == p.threads && forall t :: t in p.threads <==> t in s.procs[i].threads || t == s.nextTid;
    assert forall j, t :: Owns(s', j, t) <==> Owns(s, j, t) || (j == i && t == s.nextTid);
    assert NoRepeats(p.threads) by {
      forall a | 0 <= a < |s.procs[i].threads| ensures p.threads[a] != s.nextTid {
        assert Owns(s, i, s.procs[i].threads[a]);
      }
    }
    forall t | t in s'.live && t !in boot ensures exists j :: Owns(s', j, t) {
      if t == s.nextTid {
        assert Owns(s', i, t);
      } else {
        var j :| Owns(s, j, t);
        assert Owns(s', j, t);
      }
    }
  }

  lemma ProcessJoins(s: System, boot: set<nat>, name: string, parent: int)
    requires ThreadsPlaced(s, boot)
    ensures ThreadsPlaced(Step(s, Spawn(name, parent, true)), boot)
  {
    var s' := Step(s, Spawn(name, parent, true));
    var n := |s.procs|;
    assert forall j, t :: Owns(s', j, t) <==> Owns(s, j, t) || (j == n && t == s.nextTid);
    forall t | t in s'.live && t !in boot ensures exists j :: Owns(s', j, t) {
      if t == s.nextTid {
        assert Owns(s', n, t);
      } else {
        var j :| Owns(s, j, t);
        assert Owns(s', j, t);
      }
    }
  }

  lemma StepKeepsThreads(s: System, boot: set<nat>, e: Event)
    requires ThreadsPlaced(s, boot)
    ensures ThreadsPlaced(Step(s, e), boot)
  {
    hide ThreadsPlaced, FindFrom, ChildFrom;
    if e.Spawn? {
      if e.granted {
        ProcessJoins(s, boot, e.name, e.parent);
      } else {
        OnlyPid(s, boot);
      }
    } else if e.Wait? {
      var i := Child(s, e.parent);
      if i.Some? { SameThreads(s, boot, i.value, s.procs[i.value].(state := Dead)); }
    } else {
      var i := Find(s, e.pid);
      if i.Some? {
        var p := s.procs[i.value];
        if e.Kill? {
          ThreadsGone(s, boot, i.value, Killed(p));
        } else if e.Exit? {
          ThreadsGone(s, boot, i.value, Exited(p, e.code));
        } else if e.ThreadAdd? {
          if e.granted { ThreadJoins(s, boot, i.value, p.(threads := p.threads + [s.nextTid])); }
        } else if e.Track? {
          SameThreads(s, boot, i.value, Tracked(p, e.kind, e.id));
        } else {
          SameThreads(s, boot, i.value, p.(memUsed := (p.memUsed + e.bytes) % SIZE_MOD));
        }
      }
    }
  }

  lemma OnlyPid(s: System, boot: set<nat>)
    requires ThreadsPlaced(s, boot)
    ensures ThreadsPlaced(s.(nextPid := s.nextPid + 1), boot)
  {
    var s' := s.(nextPid := s.nextPid + 1);
    assert forall j, t :: Owns(s', j, t) <==> Owns(s, j, t);
  }

  lemma {:induction false} RunKeepsOk(s: System, boot: set<nat>, es: seq<Event>)
    requires Ok(s, boot)
    ensures Ok(Run(s, es), boot)
    decreases |es|
  {
    hide Step, PidsRise, ThreadsPlaced, NoneStopped;
    if es != [] {
      StepKeepsPids(s, es[0]);
      StepKeepsStates(s, es[0]);
      StepKeepsThreads(s, boot, es[0]);
      RunKeepsOk(Step(s, es[0]), boot, es[1..]);
    }
  }

  lemma BootOk(boot: set<nat>, nextTid: nat)
    requires forall t :: t in boot ==> t < nextTid
    ensures Ok(Boot(boot, nextTid), boot)
  {
  }

  // ---- The calls, field by field.

  /** A new process runs one new thread under the next pid; a refused one uses the pid up. */
  lemma SpawnDoes(s: System, name: string, parent: int, boot: set<nat>, nextTid: nat)
    ensures Step(s, Spawn(name, parent, true)) ==
      System(s.procs + [Process(s.nextPid, name, Running, [s.nextTid], [], [], [], 0, 0, parent)],
             s.nextPid + 1, s.live + {s.nextTid}, s.nextTid + 1)
    ensures Step(s, Spawn(name, parent, false)) == System(s.procs, s.nextPid + 1, s.live, s.nextTid)
    ensures Boot(boot, nextTid) == System([], 100, boot, nextTid)
  {
  }

  /** A call that names no process changes nothing, nor does a wait without a zombie child, nor a thread that is refused. */
  lemma IdleCalls(s: System, pid: int, code: int, kind: Resource, n: nat, id: int, granted: bool)
    ensures (forall i :: 0 <= i < |s.procs| ==> s.procs[i].pid != pid) ==>
      Step(s, Kill(pid)) == Step(s, Exit(pid, code)) == Step(s, ThreadAdd(pid, granted)) == Step(s, Track(pid, kind, id)) ==
      Step(s, TrackAlloc(pid, n)) == s
    ensures (forall i :: 0 <= i < |s.procs| ==> !(s.procs[i].parent == pid && s.procs[i].state == Zombie)) ==> Step(s, Wait(pid)) == s
    ensures Step(s, ThreadAdd(pid, false)) == s
  {
  }

  /** A call on process i, the first of its pid, replaces its record, and no other: */
  lemma CallsReplace(s: System, i: nat, code: int, n: nat, id: int)
    requires i < |s.procs| && forall j :: 0 <= j < i ==> s.procs[j].pid != s.procs[i].pid
    ensures var p := s.procs[i];
      && Step(s, Kill(p.pid)) ==
         System(s.procs[i := Process(p.pid, p.name, Zombie, [], [], [], [], p.memUsed, p.exitCode, p.parent)],
                s.nextPid, s.live - (set t | t in p.threads), s.nextTid)
      && Step(s, Exit(p.pid, code)) ==
         System(s.procs[i := Process(p.pid, p.name, Zombie, [], p.channels, p.connections, p.capabilities, p.memUsed, code, p.parent)],
                s.nextPid, s.live - (set t | t in p.threads), s.nextTid)
      && Step(s, ThreadAdd(p.pid, true)) ==
         System(s.procs[i := p.(threads := p.threads + [s.nextTid])], s.nextPid, s.live + {s.nextTid}, s.nextTid + 1)
  {
    assert Find(s, s.procs[i].pid) == Some(i);
  }

  /** the resources that it is told of are listed in order, and its memory is counted modulo 2^64. */
  lemma TracksAdd(s: System, i: nat, n: nat, id: int)
    requires i < |s.procs| && forall j :: 0 <= j < i ==> s.procs[j].pid != s.procs[i].pid
    ensures var p := s.procs[i];
      && Step(s, Track(p.pid, Channel, id)) == s.(procs := s.procs[i := p.(channels := p.channels + [id])])
      && Step(s, Track(p.pid, Connection, id)) == s.(procs := s.procs[i := p.(connections := p.connections + [id])])
      && Step(s, Track(p.pid, Capability, id)) == s.(procs := s.procs[i := p.(capabilities := p.capabilities + [id])])
      && Step(s, TrackAlloc(p.pid, n)) ==
         s.(procs := s.procs[i := p.(memUsed := (p.memUsed + n) % 18446744073709551616)])
  {
    assert Find(s, s.procs[i].pid) == Some(i);
  }

  /** A wait takes the first zombie child out of the running: it is dead, and keeps everything else. */
  lemma WaitDoes(s: System, i: nat)
    requires i < |s.procs| && s.procs[i].state == Zombie
    requires forall j :: 0 <= j < i ==> !(s.procs[j].parent == s.procs[i].parent && s.procs[j].state == Zombie)
    ensures Step(s, Wait(s.procs[i].parent)) == s.(procs := s.procs[i := s.procs[i].(state := Dead)])
    ensures Child(s, s.procs[i].parent) == Some(i)
  {
    assert Child(s, s.procs[i].parent) == Some(i);
  }

  // ---- Conservation of processes.

  function Spawns(es: seq<Event>): nat {
    if es == [] then 0 else (if es[0].Spawn? && es[0].granted then 1 else 0) + Spawns(es[1..])
  }

  lemma {:induction false} TableGrows(s: System, es: seq<Event>)
    ensures |Run(s, es).procs| == |s.procs| + Spawns(es)
    decreases |es|
  {
    if es != [] {
      TableGrows(Step(s, es[0]), es[1..]);
    }
  }

  lemma {:induction false} CountsAdd(procs: seq<Process>)
    requires forall i :: 0 <= i < |procs| ==> procs[i].state != Stopped
    ensures Count(procs, Running) + Count(procs, Zombie) + Count(procs, Dead) == |procs|
    decreases |procs|
  {
    if procs != [] {
      CountsAdd(procs[..|procs| - 1]);
    }
  }

  /** Over every run: pids unique and rising, threads placed, and no process lost or forgotten. */
  lemma {:induction false} EveryRun(boot: set<nat>, nextTid: nat, es: seq<Event>)
    requires forall t :: t in boot ==> t < nextTid
    ensures var s := Run(Boot(boot, nextTid), es);
      && PidsRise(s) && ThreadsPlaced(s, boot)
      && Count(s.procs, Running) + Count(s.procs, Zombie) + Count(s.procs, Dead) == Spawns(es)
  {
    hide Run, PidsRise, ThreadsPlaced;
    BootOk(boot, nextTid);
    RunKeepsOk(Boot(boot, nextTid), boot, es);
    TableGrows(Boot(boot, nextTid), es);
    CountsAdd(Run(Boot(boot, nextTid), es).procs);
  }

  // ---- Threads after kill and exit, and the missing check in thread_add.

  /** Right after a kill or an exit the process has no thread, and the scheduler has lost exactly its threads. */
  lemma StopsThreads(s: System, boot: set<nat>, e: Event, i: nat)
    requires Ok(s, boot) && i < |s.procs| && (e == Kill(s.procs[i].pid) || (e.Exit? && e.pid == s.procs[i].pid))
    ensures var s' := Step(s, e);
      && s'.procs[i].threads == [] && s'.procs[i].state == Zombie
      && s'.live == s.live - Threads(s.procs[i])
      && (forall j :: 0 <= j < |s.procs| && j != i ==> s'.procs[j] == s.procs[j] && Threads(s.procs[j]) <= s'.live)
  {
    UniqueIndex(s, i);
    forall j, t | 0 <= j < |s.procs| && j != i && t in Threads(s.procs[j]) ensures t in s.live - Threads(s.procs[i]) {
      assert Owns(s, j, t);
      if t in Threads(s.procs[i]) {
        assert Owns(s, i, t);
      }
    }
  }

  lemma UniqueIndex(s: System, i: nat)
    requires PidsRise(s) && i < |s.procs|
    ensures Find(s, s.procs[i].pid) == Some(i)
  {
    hide FindFrom;
    var j := Find(s, s.procs[i].pid);
  }

  ghost predicate OnlyRunningOwn(s: System) {
    forall i :: 0 <= i < |s.procs| && s.procs[i].threads != [] ==> s.procs[i].state == Running
  }

  /** A thread is given to a process that has already ended. */
  predicate AddsToEnded(s: System, e: Event) {
    e.ThreadAdd? && e.granted && Find(s, e.pid).Some? && s.procs[Find(s, e.pid).value].state != Running
  }

  /** Only running processes own threads, until exactly the call that adds a thread to an ended one. */
  lemma OnlyRunningOwnIff(s: System, e: Event)
    requires OnlyRunningOwn(s)
    ensures OnlyRunningOwn(Step(s, e)) <==> !AddsToEnded(s, e)
  {
    hide FindFrom, ChildFrom;
    if AddsToEnded(s, e) {
      var i := Find(s, e.pid).value;
      assert Step(s, e).procs[i].threads != [];
    }
  }

  /** An exit leaves what the process tracked; a kill forgets it. */
  lemma ExitKeepsResources(s: System, pid: int, code: int)
    requires Find(s, pid).Some?
    ensures var i := Find(s, pid).value;
      var p, x, k := s.procs[i], Step(s, Exit(pid, code)).procs[i], Step(s, Kill(pid)).procs[i];
      && x.channels == p.channels && x.connections == p.connections && x.capabilities == p.capabilities
      && (x.(exitCode := p.exitCode) == k <==> p.channels == [] && p.connections == [] && p.capabilities == [])
  {
    hide FindFrom;
  }

  // ---- Reaping.

  ghost predicate Is(s: System, pid: int, st: State) {
    exists i :: 0 <= i < |s.procs| && s.procs[i].pid == pid && s.procs[i].state == st
  }

  /** The process that a call reaps. */
  predicate ReapsNow(s: System, e: Event, pid: int) {
    e.Wait? && Child(s, e.parent).Some? && s.procs[Child(s, e.parent).value].pid == pid
  }

  function Reaps(s: System, es: seq<Event>, pid: int): nat
    decreases |es|
  {
    if es == [] then 0 else (if ReapsNow(s, es[0], pid) then 1 else 0) + Reaps(Step(s, es[0]), es[1..], pid)
  }

  /** A call that ends a process which has been reaped. */
  predicate EndsDead(s: System, e: Event) {
    (e.Kill? || e.Exit?) && Find(s, e.pid).Some? && s.procs[Find(s, e.pid).value].state == Dead
  }

  predicate SparesDead(s: System, es: seq<Event>)
    decreases |es|
  {
    es == [] || (!EndsDead(s, es[0]) && SparesDead(Step(s, es[0]), es[1..]))
  }

  function Waits(parent: int, n: nat): seq<Event> { seq(n, _ => Wait(parent)) }

  predicate Ends(e: Event, pid: int) { (e.Kill? || e.Exit?) && e.pid == pid }

  /** What one call does to the state of process i. */
  lemma StepAt(s: System, e: Event, i: nat)
    requires PidsRise(s) && i < |s.procs|
    ensures var p, s' := s.procs[i], Step(s, e);
      && i < |s'.procs| && s'.procs[i].pid == p.pid
      && (ReapsNow(s, e, p.pid) ==> p.state == Zombie)
      && s'.procs[i].state == (if ReapsNow(s, e, p.pid) then Dead else if Ends(e, p.pid) then Zombie else p.state)
      && (EndsDead(s, e) && e.pid == p.pid <==> Ends(e, p.pid) && p.state == Dead)
  {
    hide FindFrom, ChildFrom;
    UniqueIndex(s, i);
  }

  lemma StepFresh(s: System, e: Event, i: nat)
    requires |s.procs| <= i < |Step(s, e).procs|
    ensures Step(s, e).procs[i].state == Running
  {
    hide FindFrom, ChildFrom;
  }

  lemma OneIndex(s: System, i: nat, j: nat)
    requires PidsRise(s) && i < |s.procs| && j < |s.procs| && s.procs[i].pid == s.procs[j].pid
    ensures i == j
  {
  }

  /** How one call moves the state of a known process. */
  lemma StateMoves(s: System, e: Event, pid: int)
    requires PidsRise(s)
    ensures ReapsNow(s, e, pid) ==> Is(s, pid, Zombie) && Is(Step(s, e), pid, Dead)
    ensures Is(s, pid, Dead) ==> (Is(Step(s, e), pid, Dead) <==> !(EndsDead(s, e) && e.pid == pid))
    ensures Is(s, pid, Dead) && EndsDead(s, e) && e.pid == pid ==> Is(Step(s, e), pid, Zombie)
    ensures Is(s, pid, Zombie) && !ReapsNow(s, e, pid) ==> Is(Step(s, e), pid, Zombie)
    ensures !Is(s, pid, Dead) && !ReapsNow(s, e, pid) ==> !Is(Step(s, e), pid, Dead)
  {
    StepKeepsPids(s, e);
    var s' := Step(s, e);
    if i: nat :| i < |s.procs| && s.procs[i].pid == pid {
      StepAt(s, e, i);
      StateAt(s, i);
      StateAt(s', i);
    } else {
      StateUnknown(s, e, pid);
    }
  }

  /** A known process is in the state that its record says. */
  lemma StateAt(s: System, i: nat)
    requires PidsRise(s) && i < |s.procs|
    ensures forall st :: Is(s, s.procs[i].pid, st) <==> s.procs[i].state == st
  {
    forall st ensures Is(s, s.procs[i].pid, st) <==> s.procs[i].state == st {
      if Is(s, s.procs[i].pid, st) {
        var j :| 0 <= j < |s.procs| && s.procs[j].pid == s.procs[i].pid && s.procs[j].state == st;
        OneIndex(s, i, j);
      }
    }
  }

  lemma StateUnknown(s: System, e: Event, pid: int)
    requires PidsRise(s) && forall i :: 0 <= i < |s.procs| ==> s.procs[i].pid != pid
    ensures !ReapsNow(s, e, pid) && !Is(Step(s, e), pid, Dead)
    ensures forall st :: !Is(s, pid, st)
  {
    hide FindFrom, ChildFrom, Step;
    var s' := Step(s, e);
    forall i | 0 <= i < |s'.procs| ensures s'.procs[i].pid != pid || s'.procs[i].state == Running {
      if i < |s.procs| { StepAt(s, e, i); } else { StepFresh(s, e, i); }
    }
  }

  lemma OneState(s: System, pid: int, a: State, b: State)
    requires PidsRise(s) && Is(s, pid, a) && Is(s, pid, b)
    ensures a == b
  {
  }

  // ---- At most once, and exactly when.

  /** A process is reaped at most once from here on, and not at all if it already has been. */
  lemma {:induction false} SparedReapedOnce(s: System, es: seq<Event>, pid: int)
    requires PidsRise(s) && SparesDead(s, es)
    ensures Reaps(s, es, pid) <= if Is(s, pid, Dead) then 0 else 1
    decreases |es|
  {
    hide Step, PidsRise, Is, EndsDead, ReapsNow;
    if es != [] {
      StateMoves(s, es[0], pid);
      StepKeepsPids(s, es[0]);
      if ReapsNow(s, es[0], pid) && Is(s, pid, Dead) {
        OneState(s, pid, Zombie, Dead);
      }
      SparedReapedOnce(Step(s, es[0]), es[1..], pid);
    }
  }

  lemma {:induction false} ReapsAdd(s: System, es: seq<Event>, more: seq<Event>, pid: int)
    ensures Reaps(s, es + more, pid) == Reaps(s, es, pid) + Reaps(Run(s, es), more, pid)
    ensures Run(s, es + more) == Run(Run(s, es), more)
    decreases |es|
  {
    hide Step, ReapsNow;
    if es == [] {
      assert es + more == more;
    } else {
      assert (es + more)[0] == es[0] && (es + more)[1..] == es[1..] + more;
      ReapsAdd(Step(s, es[0]), es[1..], more, pid);
    }
  }

  /** A process that ends a run dead, without starting so, has been reaped in it. */
  lemma {:induction false} DeadWasReaped(s: System, es: seq<Event>, pid: int)
    requires PidsRise(s) && !Is(s, pid, Dead) && Is(Run(s, es), pid, Dead)
    ensures Reaps(s, es, pid) >= 1
    decreases |es|
  {
    hide Step, PidsRise, Is, EndsDead, ReapsNow;
    if es != [] && !ReapsNow(s, es[0], pid) {
      StateMoves(s, es[0], pid);
      StepKeepsPids(s, es[0]);
      DeadWasReaped(Step(s, es[0]), es[1..], pid);
    }
  }

  /** A zombie stays one until it is reaped. */
  lemma {:induction false} ZombieWaits(s: System, es: seq<Event>, pid: int)
    requires PidsRise(s) && Is(s, pid, Zombie) && Reaps(s, es, pid) == 0
    ensures Is(Run(s, es), pid, Zombie)
    decreases |es|
  {
    hide Step, PidsRise, Is, EndsDead, ReapsNow;
    if es != [] {
      StateMoves(s, es[0], pid);
      StepKeepsPids(s, es[0]);
      ZombieWaits(Step(s, es[0]), es[1..], pid);
    }
  }

  lemma RunKeepsPids(s: System, es: seq<Event>)
    requires PidsRise(s)
    ensures PidsRise(Run(s, es))
    decreases |es|
  {
    hide Step, PidsRise;
    if es != [] {
      StepKeepsPids(s, es[0]);
      RunKeepsPids(Step(s, es[0]), es[1..]);
    }
  }

  /** Enough waits by its parent reap a zombie: each one that misses it reaps an older sibling. */
  lemma {:induction false} WaitsReap(s: System, i: nat, from: nat, n: nat)
    requires PidsRise(s) && from <= i < |s.procs| && s.procs[i].state == Zombie && n > i - from
    requires forall j :: 0 <= j < from ==> !Waitable(s.procs[j], s.procs[i].parent)
    ensures Reaps(s, Waits(s.procs[i].parent, n), s.procs[i].pid) >= 1
    decreases n
  {
    hide ChildFrom, Reaps;
    var p := s.procs[i];
    var ws := Waits(p.parent, n);
    assert ws[0] == Wait(p.parent) && ws[1..] == Waits(p.parent, n - 1);
    assert Waitable(p, p.parent);
    var c := Child(s, p.parent);
    var s' := Step(s, ws[0]);
    ReapsUnfold(s, ws, p.pid);
    if c.value != i {
      assert s'.procs[i] == p;
      StepKeepsPids(s, ws[0]);
      WaitsReap(s', i, c.value + 1, n - 1);
    }
  }

  lemma ReapsUnfold(s: System, es: seq<Event>, pid: int)
    requires es != []
    ensures Reaps(s, es, pid) == (if ReapsNow(s, es[0], pid) then 1 else 0) + Reaps(Step(s, es[0]), es[1..], pid)
  {
  }

  lemma ZombieReapable(s: System, pid: int) returns (parent: int, n: nat)
    requires PidsRise(s) && Is(s, pid, Zombie)
    ensures Reaps(s, Waits(parent, n), pid) >= 1
  {
    hide Reaps, Waits, PidsRise;
    var i :| 0 <= i < |s.procs| && s.procs[i].pid == pid && s.procs[i].state == Zombie;
    parent, n := s.procs[i].parent, i + 1;
    WaitsReap(s, i, 0, n);
  }

  /** A run that ends a dead process can be waited on until some process is reaped twice. */
  lemma {:induction false} ReapedTwice(s: System, es: seq<Event>) returns (pid: int, parent: int, n: nat)
    requires PidsRise(s) && !SparesDead(s, es)
    ensures Is(s, pid, Dead) ==> Reaps(s, es + Waits(parent, n), pid) >= 1
    ensures !Is(s, pid, Dead) ==> Reaps(s, es + Waits(parent, n), pid) >= 2
    decreases |es|
  {
    hide Step, PidsRise, Is, ReapsNow, Reaps, Waits;
    StepKeepsPids(s, es[0]);
    var s' := Step(s, es[0]);
    if EndsDead(s, es[0]) {
      pid := es[0].pid;
      EndsDeadIs(s, es[0]);
      StateMoves(s, es[0], pid);
      var end := Run(s', es[1..]);
      RunKeepsPids(s', es[1..]);
      if Reaps(s', es[1..], pid) == 0 {
        ZombieWaits(s', es[1..], pid);
        parent, n := ZombieReapable(end, pid);
      } else {
        parent, n := 0, 0;
      }
      ReapsAdd(s', es[1..], Waits(parent, n), pid);
    } else {
      pid, parent, n := ReapedTwice(s', es[1..]);
      StateMoves(s, es[0], pid);
    }
    assert (es + Waits(parent, n))[0] == es[0] && (es + Waits(parent, n))[1..] == es[1..] + Waits(parent, n);
    ReapsUnfold(s, es + Waits(parent, n), pid);
  }

  lemma EndsDeadIs(s: System, e: Event)
    requires EndsDead(s, e)
    ensures Is(s, e.pid, Dead)
  {
    hide FindFrom;
  }

  lemma {:induction false} WaitsSpare(s: System, es: seq<Event>, parent: int, n: nat)
    requires SparesDead(s, es)
    ensures SparesDead(s, es + Waits(parent, n))
    decreases |es| + n
  {
    hide Step;
    var ws := Waits(parent, n);
    if es != [] {
      assert (es + ws)[0] == es[0] && (es + ws)[1..] == es[1..] + ws;
      WaitsSpare(Step(s, es[0]), es[1..], parent, n);
    } else if n > 0 {
      assert (es + ws)[0] == Wait(parent) && (es + ws)[1..] == [] + Waits(parent, n - 1);
      WaitsSpare(Step(s, Wait(parent)), [], parent, n - 1);
    }
  }

  /**
   However many waits follow a run, no process is reaped twice: true exactly when
   no kill or exit in the run names a process that is dead at that moment.
   */
  lemma {:induction false} ReapedOnceIff(boot: set<nat>, nextTid: nat, es: seq<Event>)
    ensures var s := Boot(boot, nextTid);
      (forall pid, parent, n: nat :: Reaps(s, es + Waits(parent, n), pid) <= 1) <==> SparesDead(s, es)
  {
    hide Step, Reaps, Waits, SparesDead;
    var s := Boot(boot, nextTid);
    if SparesDead(s, es) {
      forall pid, parent, n: nat ensures Reaps(s, es + Waits(parent, n), pid) <= 1 {
        WaitsSpare(s, es, parent, n);
        SparedReapedOnce(s, es + Waits(parent, n), pid);
      }
    } else {
      var pid, parent, n := ReapedTwice(s, es);
    }
  }

  /** The shortest run that goes wrong: spawn, kill, wait, kill, wait. */
  lemma KillRevives()
    ensures var es := [Spawn("a", 1, true), Kill(100), Wait(1), Kill(100), Wait(1)];
      Reaps(Boot({}, 0), es, 100) == 2
  {
    var s0 := Boot({}, 0);
    var es := [Spawn("a", 1, true), Kill(100), Wait(1), Kill(100), Wait(1)];
    var s1 := Step(s0, es[0]);
    var s2 := Step(s1, es[1]);
    var s3 := Step(s2, es[2]);
    var s4 := Step(s3, es[3]);
    ReapsUnfold(s0, es, 100);
    ReapsUnfold(s1, es[1..], 100);
    ReapsUnfold(s2, es[2..], 100);
    ReapsUnfold(s3, es[3..], 100);
    ReapsUnfold(s4, es[4..], 100);
  }

  // ---- Exit codes.

  /** The exit code a process carries. */
  ghost predicate HasCode(s: System, pid: int, code: int) {
    exists i :: 0 <= i < |s.procs| && s.procs[i].pid == pid && s.procs[i].exitCode == code
  }

  lemma StepKeepsCode(s: System, e: Event, pid: int, code: int)
    requires PidsRise(s) && HasCode(s, pid, code) && !(e.Exit? && e.pid == pid)
    ensures HasCode(Step(s, e), pid, code)
  {
    hide FindFrom, ChildFrom;
    var i :| 0 <= i < |s.procs| && s.procs[i].pid == pid && s.procs[i].exitCode == code;
    assert Step(s, e).procs[i].pid == pid && Step(s, e).procs[i].exitCode == code;
  }

  /**
   The parent learns the code of the last exit: whichever later wait reaps the
   process, it hands out that code, kills in between notwithstanding.
   */
  lemma {:induction false} ExitCodeDelivered(s: System, pid: int, code: int, es: seq<Event>, parent: int)
    requires PidsRise(s) && Find(s, pid).Some?
    requires forall k :: 0 <= k < |es| ==> !(es[k].Exit? && es[k].pid == pid)
    requires ReapsNow(Run(Step(s, Exit(pid, code)), es), Wait(parent), pid)
    ensures var t := Run(Step(s, Exit(pid, code)), es);
      t.procs[Child(t, parent).value].exitCode == code
  {
    hide Step, Run, PidsRise, FindFrom, ChildFrom;
    ExitSets(s, pid, code);
    StepKeepsPids(s, Exit(pid, code));
    RunKeepsCode(Step(s, Exit(pid, code)), es, pid, code);
    RunKeepsPids(Step(s, Exit(pid, code)), es);
    SameCode(Run(Step(s, Exit(pid, code)), es), pid, code, parent);
  }

  lemma ExitSets(s: System, pid: int, code: int)
    requires Find(s, pid).Some?
    ensures HasCode(Step(s, Exit(pid, code)), pid, code)
  {
    hide FindFrom;
    assert Step(s, Exit(pid, code)).procs[Find(s, pid).value].exitCode == code;
  }

  lemma SameCode(s: System, pid: int, code: int, parent: int)
    requires PidsRise(s) && HasCode(s, pid, code) && ReapsNow(s, Wait(parent), pid)
    ensures s.procs[Child(s, parent).value].exitCode == code
  {
    hide ChildFrom;
  }

  lemma {:induction false} RunKeepsCode(s: System, es: seq<Event>, pid: int, code: int)
    requires PidsRise(s) && HasCode(s, pid, code)
    requires forall k :: 0 <= k < |es| ==> !(es[k].Exit? && es[k].pid == pid)
    ensures HasCode(Run(s, es), pid, code)
    decreases |es|
  {
    hide Step, PidsRise, HasCode;
    if es != [] {
      StepKeepsCode(s, es[0], pid, code);
      StepKeepsPids(s, es[0]);
      RunKeepsCode(Step(s, es[0]), es[1..], pid, code);
    }
  }
}
