/**
 The process manager over a minimal scheduler: its methods change the process
 records in place, and each one takes the table one transition further.
 */
module ProcManager {
  import opened Wrappers
  import opened ProcTable

  datatype Error = NotFound | WouldBlock | NoThread

  datatype Result<+T> = Ok(value: T) | Err(error: Error)

  /** Gives threads numbers never used before, or refuses; destroys live ones. */
  class Scheduler {
    var live: set<nat>
    var nextTid: nat

    constructor (boot: set<nat>, nextTid: nat)
      ensures live == boot && this.nextTid == nextTid
    {
      live, this.nextTid := boot, nextTid;
    }

    method ThreadCreate(granted: bool) returns (tid: Option<nat>)
      modifies this
      ensures granted ==> tid == Some(old(nextTid)) && live == old(live) + {old(nextTid)} && nextTid == old(nextTid) + 1
      ensures !granted ==> tid == None && live == old(live) && nextTid == old(nextTid)
    {
      if !granted { return None; }
      tid := Some(nextTid);
      live, nextTid := live + {nextTid}, nextTid + 1;
    }

    method ThreadDestroy(tid: nat)
      modifies this
      ensures live == old(live) - {tid} && nextTid == old(nextTid)
    {
      live := live - {tid};
    }
  }

  class ProcessManager {
    var procs: seq<Process>
    var nextPid: int
    const kernel: Scheduler

    constructor (k: Scheduler)
      ensures kernel == k && View() == Boot(k.live, k.nextTid)
    {
      procs, nextPid, kernel := [], FIRST_PID, k;
    }

    function View(): System
      reads this, kernel
    {
      System(procs, nextPid, kernel.live, kernel.nextTid)
    }

    method FindIndex(pid: int) returns (idx: Option<nat>)
      ensures idx == Find(View(), pid)
    {
      for i := 0 to |procs|
        invariant FindFrom(procs, pid, 0) == FindFrom(procs, pid, i)
      {
        if procs[i].pid == pid { return Some(i); }
      }
      idx := None;
    }

    /** The pid is used up even when no thread is granted. */
    method Spawn(name: string, parent: int, granted: bool) returns (r: Result<int>)
      modifies this, kernel
      ensures View() == Step(old(View()), Event.Spawn(name, parent, granted))
      ensures r == if granted then Ok(old(nextPid)) else Err(NoThread)
    {
      var pid := nextPid;
      nextPid := nextPid + 1;
      var tid := kernel.ThreadCreate(granted);
      if tid.None? { return Err(NoThread); }
      procs := procs + [NewProcess(pid, name, parent, tid.value)];
      r := Ok(pid);
    }

    method DestroyThreads(threads: seq<nat>)
      modifies kernel
      ensures kernel.live == old(kernel.live) - (set t | t in threads) && kernel.nextTid == old(kernel.nextTid)
    {
      for i := 0 to |threads|
        invariant kernel.live == old(kernel.live) - (set t | t in threads[..i])
        invariant kernel.nextTid == old(kernel.nextTid)
      {
        kernel.ThreadDestroy(threads[i]);
      }
      assert threads[..|threads|] == threads;
    }

    method Kill(pid: int) returns (r: Result<()>)
      modifies this, kernel
      ensures View() == Step(old(View()), Event.Kill(pid))
      ensures r == if Find(old(View()), pid).Some? then Ok(()) else Err(NotFound)
    {
      var idx := FindIndex(pid);
      if idx.None? { return Err(NotFound); }
      var p := procs[idx.value];
      DestroyThreads(p.threads);
      p := p.(state := Zombie);
      p := p.(threads := []).(channels := []).(connections := []).(capabilities := []);
      procs := procs[idx.value := p];
      r := Ok(());
    }

    /** Reaps the oldest zombie child and hands out its exit code. */
    method Wait(parent: int) returns (r: Result<int>)
      modifies this
      ensures View() == Step(old(View()), Event.Wait(parent))
      ensures var c := Child(old(View()), parent);
        r == if c.Some? then Ok(old(procs)[c.value].exitCode) else Err(WouldBlock)
    {
      for i := 0 to |procs|
        invariant procs == old(procs)
        invariant ChildFrom(procs, parent, 0) == ChildFrom(procs, parent, i)
      {
        var p := procs[i];
        if p.parent == parent && p.state == Zombie {
          procs := procs[i := p.(state := Dead)];
          return Ok(p.exitCode);
        }
      }
      r := Err(WouldBlock);
    }

    method Exit(pid: int, code: int) returns (r: Result<()>)
      modifies this, kernel
      ensures View() == Step(old(View()), Event.Exit(pid, code))
      ensures r == if Find(old(View()), pid).Some? then Ok(()) else Err(NotFound)
    {
      var idx := FindIndex(pid);
      if idx.None? { return Err(NotFound); }
      var p := procs[idx.value];
      DestroyThreads(p.threads);
      p := p.(state := Zombie).(exitCode := code).(threads := []);
      procs := procs[idx.value := p];
      r := Ok(());
    }

    method ThreadAdd(pid: int, granted: bool) returns (r: Result<nat>)
      modifies this, kernel
      ensures View() == Step(old(View()), Event.ThreadAdd(pid, granted))
      ensures r == if Find(old(View()), pid).None? then Err(NotFound)
                   else if granted then Ok(old(kernel.nextTid)) else Err(NoThread)
    {
      var idx := FindIndex(pid);
      if idx.None? { return Err(NotFound); }
      var tid := kernel.ThreadCreate(granted);
      if tid.None? { return Err(NoThread); }
      var p := procs[idx.value];
      procs := procs[idx.value := p.(threads := p.threads + [tid.value])];
      r := Ok(tid.value);
    }

    method Track(pid: int, kind: Resource, id: int)
      modifies this
      ensures View() == Step(old(View()), Event.Track(pid, kind, id))
    {
      var idx := FindIndex(pid);
      if idx.Some? {
        procs := procs[idx.value := Tracked(procs[idx.value], kind, id)];
      }
    }

    method TrackAlloc(pid: int, bytes: nat)
      modifies this
      ensures View() == Step(old(View()), Event.TrackAlloc(pid, bytes))
    {
      var idx := FindIndex(pid);
      if idx.Some? {
        var p := procs[idx.value];
        procs := procs[idx.value := p.(memUsed := (p.memUsed + bytes) % SIZE_MOD)];
      }
    }

    /** Running processes. */
    method CountRunning() returns (n: nat)
      ensures n == Count(procs, Running)
    {
      n := 0;
      for i := 0 to |procs|
        invariant n == Count(procs[..i], Running)
      {
        assert procs[..i + 1][..i] == procs[..i];
        if procs[i].state == Running { n := n + 1; }
      }
      assert procs[..|procs|] == procs;
    }
  }
}
