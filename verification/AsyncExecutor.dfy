/**
  The bounded task executor of native/server/src/async_executor.cpp: the object
  itself, one method per critical section. Tasks are known by number; which
  thread a notification wakes is settled by the protocol module.
*/
module AsyncExecutor {
  import opened Options

  type Task = nat

  const MAX_IN_FLIGHT := 512

  /** The fields under the mutex. `workers` holds thread numbers, `spawned` how many there have been. */
  datatype Shared = Shared(
    queue: seq<Task>, inFlight: nat, accepting: bool, stopping: bool, workers: seq<nat>, spawned: nat)

  function Distance(a: nat, b: nat): nat {
    if a < b then b - a else a - b
  }

  /** The number from 4 to 16 that is nearest to what the hardware offers. */
  function PoolSize(hardwareThreads: nat): (n: nat)
    ensures 4 <= n <= 16
    ensures forall m: nat | 4 <= m <= 16 :: Distance(n, hardwareThreads) <= Distance(m, hardwareThreads)
  {
    var wanted := if hardwareThreads == 0 then 4 else hardwareThreads;
    if wanted < 4 then 4 else if wanted > 16 then 16 else wanted
  }

  function Range(from: nat, n: nat): (r: seq<nat>)
    ensures |r| == n && forall i | 0 <= i < n :: r[i] == from + i
  {
    seq(n, i => from + i)
  }

  function Started(s: Shared, hardwareThreads: nat): Shared {
    if s.workers != [] then s.(accepting := true, stopping := false)
    else
      var n := PoolSize(hardwareThreads);
      s.(accepting := true, stopping := false, workers := Range(s.spawned, n), spawned := s.spawned + n)
  }

  predicate Accepts(s: Shared) {
    s.accepting && !s.stopping && |s.queue| + s.inFlight < MAX_IN_FLIGHT
  }

  function Enqueued(s: Shared, task: Task): Shared {
    s.(queue := s.queue + [task])
  }

  function Stopping(s: Shared): Shared {
    s.(accepting := false, stopping := true, workers := [])
  }

  function Stopped(s: Shared): Shared {
    s.(queue := [], inFlight := 0, stopping := false)
  }

  /** The waiting condition of a worker. */
  predicate MayProceed(s: Shared) {
    s.stopping || s.queue != []
  }

  function Taken(s: Shared): Shared
    requires s.queue != []
  {
    s.(queue := s.queue[1..], inFlight := s.inFlight + 1)
  }

  function Finished(s: Shared): Shared {
    if s.inFlight > 0 then s.(inFlight := s.inFlight - 1) else s
  }

  predicate Idle(s: Shared) {
    s.queue == [] && s.inFlight == 0
  }

  class Executor {
    var queue: seq<Task>
    var inFlight: nat
    var accepting: bool
    var stopping: bool
    var workers: seq<nat>
    var spawned: nat

    constructor ()
      ensures View() == Shared([], 0, false, false, [], 0)
    {
      queue, inFlight, accepting, stopping, workers, spawned := [], 0, false, false, [], 0;
    }

    function View(): Shared
      reads this
    {
      Shared(queue, inFlight, accepting, stopping, workers, spawned)
    }

    method Start(hardwareThreads: nat)
      modifies this
      ensures View() == Started(old(View()), hardwareThreads)
      ensures accepting && !stopping && queue == old(queue) && inFlight == old(inFlight)
      ensures if old(workers) != [] then workers == old(workers) && spawned == old(spawned)
              else workers == Range(old(spawned), PoolSize(hardwareThreads)) && spawned == old(spawned) + |workers|
    {
      if workers != [] {
        accepting, stopping := true, false;
        return;
      }
      var wanted := if hardwareThreads == 0 then 4 else hardwareThreads;
      var workerCount := if wanted < 4 then 4 else if wanted > 16 then 16 else wanted;
      accepting, stopping := true, false;
      ghost var first := spawned;
      for idx := 0 to workerCount
        invariant workers == Range(first, idx) && spawned == first + idx
        invariant queue == old(queue) && inFlight == old(inFlight) && accepting && !stopping
      {
        workers := workers + [spawned];
        spawned := spawned + 1;
      }
    }

    method StopAccepting()
      modifies this
      ensures View() == old(View()).(accepting := false)
    {
      accepting := false;
    }

    /** An absent task stands for an empty std::function. */
    method Enqueue(task: Option<Task>) returns (accepted: bool)
      modifies this
      ensures accepted <==> task.Some? && Accepts(old(View()))
      ensures accepted <==> task.Some? && old(accepting) && !old(stopping) && |old(queue)| + old(inFlight) < 512
      ensures queue == old(queue) + if accepted then [task.value] else []
      ensures View() == if accepted then Enqueued(old(View()), task.value) else old(View())
    {
      if task.None? {
        return false;
      }
      if !accepting || stopping {
        return false;
      }
      if |queue| + inFlight >= MAX_IN_FLIGHT {
        return false;
      }
      queue := queue + [task.value];
      accepted := true;
    }

    /** The first half of shutdown: returns the threads to be joined. */
    method BeginShutdown() returns (joined: seq<nat>)
      modifies this
      ensures joined == old(workers)
      ensures View() == Stopping(old(View()))
      ensures View() == Shared(old(queue), old(inFlight), false, true, [], old(spawned))
    {
      accepting, stopping := false, true;
      joined, workers := workers, [];
    }

    /** The second half, once every joined thread has exited. */
    method EndShutdown()
      modifies this
      ensures View() == Stopped(old(View()))
      ensures View() == Shared([], 0, old(accepting), false, old(workers), old(spawned))
    {
      queue := [];
      inFlight := 0;
      stopping := false;
    }

    /** A worker past its wait: no task means it leaves its loop. */
    method TakeTask() returns (task: Option<Task>)
      requires MayProceed(View())
      modifies this
      ensures task == if old(queue) == [] then None else Some(old(queue)[0])
      ensures View() == if old(queue) == [] then old(View()) else Taken(old(View()))
      ensures old(queue) != [] ==> queue == old(queue)[1..] && inFlight == old(inFlight) + 1
    {
      if stopping && queue == [] {
        return None;
      }
      task := Some(queue[0]);
      queue := queue[1..];
      inFlight := inFlight + 1;
    }

    method FinishTask() returns (notifyIdle: bool)
      modifies this
      ensures View() == Finished(old(View()))
      ensures queue == old(queue) && inFlight == if old(inFlight) == 0 then 0 else old(inFlight) - 1
      ensures notifyIdle <==> queue == [] && inFlight == 0
    {
      if inFlight > 0 {
        inFlight := inFlight - 1;
      }
      notifyIdle := queue == [] && inFlight == 0;
    }
  }
}
