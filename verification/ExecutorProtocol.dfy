/**
  Every interleaving of the executor's callers and workers. A state holds the
  mutex-protected fields, where each thread is, the shutdown calls still joining,
  and two histories: the tasks accepted and the tasks started.
*/
module ExecutorProtocol {
  import opened AsyncExecutor
  import opened Options
  import opened Sequences

  /**
    A thread is asleep on the condition variable, about to test its waiting
    condition with the mutex, in a task, or out of its loop.
  */
  datatype Worker = Sleeping | Ready | Running(task: Task) | Exited

  datatype State = State(
    shared: Shared, threads: seq<Worker>, joins: seq<seq<nat>>, accepted: seq<Task>, started: seq<Task>)

  datatype Event =
    | Start(hardwareThreads: nat)
    | StopAccepting
    | Enqueue(task: Task, woken: Option<nat>)
    | BeginShutdown
    | EndShutdown(call: nat)
    | Check(worker: nat)
    | WakeUp(worker: nat)
    | Finish(worker: nat)

  const INITIAL := State(Shared([], 0, false, false, [], 0), [], [], [], [])

  predicate SomeoneSleeps(threads: seq<Worker>) {
    exists w | 0 <= w < |threads| :: threads[w].Sleeping?
  }

  predicate AllExited(threads: seq<Worker>, ids: seq<nat>) {
    forall w | w in ids :: w < |threads| ==> threads[w].Exited?
  }

  predicate Enabled(s: State, e: Event) {
    match e
    case Enqueue(_, woken) =>
      // notify_one wakes a sleeping thread if there is one; a rejected call notifies nobody.
      if Accepts(s.shared) && SomeoneSleeps(s.threads)
      then woken.Some? && woken.value < |s.threads| && s.threads[woken.value].Sleeping?
      else woken.None?
    case EndShutdown(call) => call < |s.joins| && AllExited(s.threads, s.joins[call])
    case Check(w) => w < |s.threads| && s.threads[w].Ready?
    case WakeUp(w) => w < |s.threads| && s.threads[w].Sleeping?
    case Finish(w) => w < |s.threads| && s.threads[w].Running?
    case _ => true
  }

  function WakeAll(threads: seq<Worker>): (r: seq<Worker>)
    ensures |r| == |threads|
    ensures forall w | 0 <= w < |r| :: r[w] == if threads[w].Sleeping? then Ready else threads[w]
  {
    if threads == [] then []
    else [if threads[0].Sleeping? then Ready else threads[0]] + WakeAll(threads[1..])
  }

  function NewThreads(n: nat): (r: seq<Worker>)
    ensures |r| == n && forall w | 0 <= w < n :: r[w] == Ready
  {
    seq(n, _ => Ready)
  }

  function Apply(s: State, e: Event): State
    requires Enabled(s, e)
  {
    match e
    case Start(hardwareThreads) =>
      var shared := Started(s.shared, hardwareThreads);
      s.(shared := shared, threads := if s.shared.workers != [] then s.threads
                                      else s.threads + NewThreads(PoolSize(hardwareThreads)))
    case StopAccepting => s.(shared := s.shared.(accepting := false))
    case Enqueue(task, woken) =>
      if !Accepts(s.shared) then s
      else s.(shared := Enqueued(s.shared, task), accepted := s.accepted + [task],
              threads := if woken.Some? then s.threads[woken.value := Ready] else s.threads)
    case BeginShutdown =>
      s.(shared := Stopping(s.shared), threads := WakeAll(s.threads), joins := s.joins + [s.shared.workers])
    case EndShutdown(call) =>
      s.(shared := Stopped(s.shared), joins := s.joins[..call] + s.joins[call + 1..])
    case Check(w) =>
      if !MayProceed(s.shared) then s.(threads := s.threads[w := Sleeping])
      else if s.shared.queue == [] then s.(threads := s.threads[w := Exited])
      else s.(shared := Taken(s.shared), threads := s.threads[w := Running(s.shared.queue[0])],
              started := s.started + [s.shared.queue[0]])
    case WakeUp(w) => s.(threads := s.threads[w := Ready])
    case Finish(w) => s.(shared := Finished(s.shared), threads := s.threads[w := Ready])
  }

  /** The state a run ends in, if each of its events was possible when it came. */
  function Exec(run: seq<Event>): Option<State> {
    if run == [] then Some(INITIAL)
    else
      var before := Exec(run[..|run| - 1]);
      if before.Some? && Enabled(before.value, run[|run| - 1]) then Some(Apply(before.value, run[|run| - 1])) else None
  }

  /** start and shutdown are not called while a shutdown is under way. */
  predicate Apart(s: State, e: Event) {
    e.Start? || e.BeginShutdown? ==> s.joins == []
  }

  predicate LifecycleApart(run: seq<Event>) {
    run != [] ==>
      && LifecycleApart(run[..|run| - 1])
      && (Exec(run[..|run| - 1]).Some? ==> Apart(Exec(run[..|run| - 1]).value, run[|run| - 1]))
  }

  // ---------------------------------------------------------------------------
  // Counting threads
  // ---------------------------------------------------------------------------

  function Count(threads: seq<Worker>, kind: Worker -> bool): nat {
    if threads == [] then 0 else (if kind(threads[0]) then 1 else 0) + Count(threads[1..], kind)
  }

  const IsReady := (w: Worker) => w.Ready?
  const IsRunning := (w: Worker) => w.Running?

  lemma {:induction false} CountUpdate(threads: seq<Worker>, kind: Worker -> bool, i: nat, w: Worker)
    requires i < |threads|
    ensures Count(threads[i := w], kind) ==
            Count(threads, kind) - (if kind(threads[i]) then 1 else 0) + if kind(w) then 1 else 0
  {
    if i == 0 {
      assert threads[0 := w][1..] == threads[1..];
    } else {
      CountUpdate(threads[1..], kind, i - 1, w);
      assert threads[i := w][1..] == threads[1..][i - 1 := w];
    }
  }

  lemma {:induction false} CountConcat(a: seq<Worker>, b: seq<Worker>, kind: Worker -> bool)
    ensures Count(a + b, kind) == Count(a, kind) + Count(b, kind)
  {
    if a == [] {
      Units(b);
    } else {
      CountConcat(a[1..], b, kind);
      assert (a + b)[1..] == a[1..] + b;
    }
  }

  lemma {:induction false} CountNone(threads: seq<Worker>, kind: Worker -> bool)
    requires forall w | 0 <= w < |threads| :: !kind(threads[w])
    ensures Count(threads, kind) == 0
  {
    if threads != [] {
      CountNone(threads[1..], kind);
    }
  }

  lemma {:induction false} CountPositive(threads: seq<Worker>, kind: Worker -> bool, i: nat)
    requires i < |threads| && kind(threads[i])
    ensures Count(threads, kind) > 0
  {
    if i > 0 {
      CountPositive(threads[1..], kind, i - 1);
    }
  }

  lemma {:induction false} CountWitness(threads: seq<Worker>, kind: Worker -> bool) returns (i: nat)
    requires Count(threads, kind) > 0
    ensures i < |threads| && kind(threads[i])
  {
    if kind(threads[0]) {
      i := 0;
    } else {
      i := CountWitness(threads[1..], kind);
      i := i + 1;
    }
  }

  lemma {:induction false} CountWakeAll(threads: seq<Worker>)
    ensures Count(WakeAll(threads), IsRunning) == Count(threads, IsRunning)
  {
    if threads != [] {
      CountWakeAll(threads[1..]);
      assert WakeAll(threads)[1..] == WakeAll(threads[1..]);
    }
  }

  // ---------------------------------------------------------------------------
  // What every run keeps
  // ---------------------------------------------------------------------------

  /** Threads that can still act. */
  ghost predicate LiveThreadsKnown(s: State) {
    forall w | 0 <= w < |s.threads| ::
      !s.threads[w].Exited? ==> w in s.shared.workers || (s.joins != [] && w in s.joins[0])
  }

  ghost predicate Inv(s: State) {
    && |s.threads| == s.shared.spawned
    && |s.joins| <= 1
    && LiveThreadsKnown(s)
    && s.shared.inFlight == Count(s.threads, IsRunning)
    && |s.shared.queue| + s.shared.inFlight <= MAX_IN_FLIGHT
    && s.accepted == s.started + s.shared.queue
    && (s.shared.stopping <==> s.joins != [])
    && (s.shared.accepting ==> !s.shared.stopping && s.shared.workers != [])
    && (if s.shared.stopping then Draining(s) else Serving(s))
  }

  /** No shutdown under way: the pool is all there, and enough of it is awake. */
  ghost predicate Serving(s: State) {
    && (forall w | w in s.shared.workers :: w < |s.threads| && !s.threads[w].Exited?)
    && (s.shared.workers == [] ==> s.shared.queue == [])
    && (SomeoneSleeps(s.threads) ==> Count(s.threads, IsReady) >= |s.shared.queue|)
  }

  /** A shutdown under way: nobody sleeps, and nobody has left before the queue was empty. */
  ghost predicate Draining(s: State)
    requires s.joins != []
  {
    && s.shared.workers == []
    && !SomeoneSleeps(s.threads)
    && (forall w | w in s.joins[0] :: w < |s.threads| && (s.threads[w].Exited? ==> s.shared.queue == []))
    && (s.joins[0] == [] ==> s.shared.queue == [])
  }

  lemma InitialInv()
    ensures Inv(INITIAL)
  {
  }

  lemma StartKeeps(s: State, hardwareThreads: nat)
    requires Inv(s) && Apart(s, Start(hardwareThreads))
    ensures Inv(Apply(s, Start(hardwareThreads)))
  {
    if s.shared.workers == [] {
      var added := NewThreads(PoolSize(hardwareThreads));
      CountConcat(s.threads, added, IsRunning);
      CountNone(added, IsRunning);
      var t := Apply(s, Start(hardwareThreads));
      forall w | 0 <= w < |t.threads| && !t.threads[w].Exited?
        ensures w in t.shared.workers
      {
        assert w >= |s.threads|;
        assert t.shared.workers[w - |s.threads|] == w;
      }
    }
  }

  lemma EnqueueKeeps(s: State, task: Task, woken: Option<nat>)
    requires Inv(s) && Enabled(s, Enqueue(task, woken))
    ensures Inv(Apply(s, Enqueue(task, woken)))
  {
    Assoc(s.started, s.shared.queue, [task]);
    if woken.Some? {
      CountUpdate(s.threads, IsRunning, woken.value, Ready);
      CountUpdate(s.threads, IsReady, woken.value, Ready);
    }
  }

  lemma BeginShutdownKeeps(s: State)
    requires Inv(s) && Apart(s, BeginShutdown)
    ensures Inv(Apply(s, BeginShutdown))
  {
    CountWakeAll(s.threads);
  }

  lemma EndShutdownKeeps(s: State, call: nat)
    requires Inv(s) && Enabled(s, EndShutdown(call))
    ensures Inv(Apply(s, EndShutdown(call)))
    ensures s.shared.queue == [] && s.shared.inFlight == 0
  {
    assert s.shared.queue == [] by {
      if s.joins[0] != [] {
        assert s.joins[0][0] in s.joins[0];
      }
    }
    CountNone(s.threads, IsRunning);
  }

  lemma CheckKeeps(s: State, w: nat)
    requires Inv(s) && Enabled(s, Check(w))
    ensures Inv(Apply(s, Check(w)))
  {
    var t := Apply(s, Check(w));
    CountUpdate(s.threads, IsRunning, w, t.threads[w]);
    CountUpdate(s.threads, IsReady, w, t.threads[w]);
    if s.shared.queue != [] {
      Assoc(s.started, [s.shared.queue[0]], s.shared.queue[1..]);
      assert [s.shared.queue[0]] + s.shared.queue[1..] == s.shared.queue;
    }
  }

  lemma WakeUpKeeps(s: State, w: nat)
    requires Inv(s) && Enabled(s, WakeUp(w))
    ensures Inv(Apply(s, WakeUp(w)))
  {
    CountUpdate(s.threads, IsRunning, w, Ready);
    CountUpdate(s.threads, IsReady, w, Ready);
  }

  lemma FinishKeeps(s: State, w: nat)
    requires Inv(s) && Enabled(s, Finish(w))
    ensures Inv(Apply(s, Finish(w)))
  {
    CountPositive(s.threads, IsRunning, w);
    CountUpdate(s.threads, IsRunning, w, Ready);
    CountUpdate(s.threads, IsReady, w, Ready);
  }

  lemma EventKeeps(s: State, e: Event)
    requires Inv(s) && Enabled(s, e) && Apart(s, e)
    ensures Inv(Apply(s, e))
  {
    match e
    case Start(hardwareThreads) => StartKeeps(s, hardwareThreads);
    case StopAccepting =>
    case Enqueue(task, woken) => EnqueueKeeps(s, task, woken);
    case BeginShutdown => BeginShutdownKeeps(s);
    case EndShutdown(call) => EndShutdownKeeps(s, call);
    case Check(w) => CheckKeeps(s, w);
    case WakeUp(w) => WakeUpKeeps(s, w);
    case Finish(w) => FinishKeeps(s, w);
  }

  lemma {:induction false} RunKeeps(run: seq<Event>)
    requires Exec(run).Some? && LifecycleApart(run)
    ensures Inv(Exec(run).value)
  {
    if run == [] {
      InitialInv();
    } else {
      RunKeeps(run[..|run| - 1]);
      EventKeeps(Exec(run[..|run| - 1]).value, run[|run| - 1]);
    }
  }

  // ---------------------------------------------------------------------------
  // Safety over whole runs
  // ---------------------------------------------------------------------------

  /** The bound is never exceeded, and tasks start in the order they were accepted, each once. */
  lemma BoundedAndInOrder(run: seq<Event>)
    requires Exec(run).Some? && LifecycleApart(run)
    ensures var s := Exec(run).value;
            && |s.shared.queue| + s.shared.inFlight <= MAX_IN_FLIGHT
            && s.accepted == s.started + s.shared.queue
            && s.shared.inFlight == Count(s.threads, IsRunning)
  {
    RunKeeps(run);
  }

  /** What the last lines of shutdown throw away is nothing: every accepted task has been started and has returned. */
  lemma ShutdownDiscardsNothing(run: seq<Event>, call: nat)
    requires Exec(run).Some? && LifecycleApart(run) && Enabled(Exec(run).value, EndShutdown(call))
    ensures var s := Exec(run).value;
            && s.shared.queue == [] && s.shared.inFlight == 0
            && s.started == s.accepted
            && forall w | 0 <= w < |s.threads| :: !s.threads[w].Running?
  {
    RunKeeps(run);
    var s := Exec(run).value;
    EndShutdownKeeps(s, call);
    Units(s.started);
    forall w | 0 <= w < |s.threads|
      ensures !s.threads[w].Running?
    {
      if s.threads[w].Running? {
        CountPositive(s.threads, IsRunning, w);
      }
    }
  }

  /** Every task accepted so far has been started and has returned. */
  predicate AllReturned(s: State) {
    s.started == s.accepted && forall w | 0 <= w < |s.threads| :: !s.threads[w].Running?
  }

  lemma IdleIff(s: State)
    requires Inv(s)
    ensures Idle(s.shared) <==> AllReturned(s)
  {
    if Idle(s.shared) {
      Units(s.started);
      forall w | 0 <= w < |s.threads|
        ensures !s.threads[w].Running?
      {
        if s.threads[w].Running? {
          CountPositive(s.threads, IsRunning, w);
        }
      }
    }
    if AllReturned(s) {
      CountNone(s.threads, IsRunning);
      assert |s.accepted| == |s.started| + |s.shared.queue|;
    }
  }

  /** The executor is idle, if and only if every task accepted so far has returned. */
  lemma IdleMeansDone(run: seq<Event>)
    requires Exec(run).Some? && LifecycleApart(run)
    ensures Idle(Exec(run).value.shared) <==> AllReturned(Exec(run).value)
  {
    RunKeeps(run);
    IdleIff(Exec(run).value);
  }

  /** The worker whose task was the last one out finds queue and count empty, and so reports it. */
  lemma LastFinishReports(run: seq<Event>, w: nat)
    requires Exec(run).Some? && LifecycleApart(run) && Enabled(Exec(run).value, Finish(w))
    ensures var s := Apply(Exec(run).value, Finish(w));
            s.shared.queue == [] && s.shared.inFlight == 0 <==> AllReturned(s)
  {
    RunKeeps(run);
    EventKeeps(Exec(run).value, Finish(w));
    IdleIff(Apply(Exec(run).value, Finish(w)));
  }

  // ---------------------------------------------------------------------------
  // What is accepted
  // ---------------------------------------------------------------------------

  /** The last call that says whether tasks are accepted was a start. */
  predicate Serves(run: seq<Event>) {
    run != [] &&
    var last := run[|run| - 1];
    if last.Start? then true
    else if last.StopAccepting? || last.BeginShutdown? then false
    else Serves(run[..|run| - 1])
  }

  function Finishes(run: seq<Event>): nat {
    if run == [] then 0 else Finishes(run[..|run| - 1]) + if run[|run| - 1].Finish? then 1 else 0
  }

  lemma FinishesNext(s: State, e: Event)
    requires Inv(s) && Enabled(s, e) && Apart(s, e)
    ensures var t := Apply(s, e);
            |t.started| - t.shared.inFlight == |s.started| - s.shared.inFlight + if e.Finish? then 1 else 0
  {
    if e.Finish? {
      CountPositive(s.threads, IsRunning, e.worker);
    } else if e.EndShutdown? {
      EndShutdownKeeps(s, e.call);
    }
  }

  lemma {:induction false} History(run: seq<Event>)
    requires Exec(run).Some? && LifecycleApart(run)
    ensures var s := Exec(run).value;
            && Inv(s) && (s.shared.accepting <==> Serves(run)) && |s.started| == s.shared.inFlight + Finishes(run)
  {
    if run == [] {
      InitialInv();
    } else {
      var front, last := run[..|run| - 1], run[|run| - 1];
      History(front);
      EventKeeps(Exec(front).value, last);
      FinishesNext(Exec(front).value, last);
    }
  }

  /**
    A task is accepted exactly if the last lifecycle call was a start and fewer than 512
    of the tasks accepted before have not returned.
  */
  lemma AcceptedIff(run: seq<Event>, task: Task, woken: Option<nat>)
    requires Exec(run).Some? && LifecycleApart(run) && Enabled(Exec(run).value, Enqueue(task, woken))
    ensures var s, t := Exec(run).value, Apply(Exec(run).value, Enqueue(task, woken));
            && 0 <= |s.accepted| - Finishes(run) <= 512
            && t.accepted == s.accepted + if Serves(run) && |s.accepted| - Finishes(run) < 512 then [task] else []
  {
    History(run);
    Units(Exec(run).value.accepted);
  }

  // ---------------------------------------------------------------------------
  // No lost wakeup, and shutdown ends
  // ---------------------------------------------------------------------------

  predicate Awake(w: Worker) {
    w.Ready? || w.Running?
  }

  /**
    Waiting work always has somebody awake for it: while any thread sleeps there
    is a ready thread for every queued task, and once stopping is set nobody
    sleeps at all.
  */
  lemma NoLostWakeup(run: seq<Event>)
    requires Exec(run).Some? && LifecycleApart(run)
    ensures var s := Exec(run).value;
            && (s.shared.queue != [] ==> exists w :: 0 <= w < |s.threads| && Awake(s.threads[w]))
            && (SomeoneSleeps(s.threads) ==> !s.shared.stopping && Count(s.threads, IsReady) >= |s.shared.queue|)
  {
    RunKeeps(run);
    var s := Exec(run).value;
    if s.shared.queue != [] {
      if SomeoneSleeps(s.threads) {
        var w := CountWitness(s.threads, IsReady);
        assert Awake(s.threads[w]);
      } else {
        var w := if s.shared.stopping then s.joins[0][0] else s.shared.workers[0];
        assert w in if s.shared.stopping then s.joins[0] else s.shared.workers;
        assert Awake(s.threads[w]);
      }
    }
  }

  function Load(threads: seq<Worker>): nat {
    if threads == [] then 0
    else (if threads[0].Running? then 2 else if threads[0].Ready? then 1 else 0) + Load(threads[1..])
  }

  lemma {:induction false} LoadUpdate(threads: seq<Worker>, i: nat, w: Worker)
    requires i < |threads|
    ensures Load(threads[i := w]) == Load(threads) - Load([threads[i]]) + Load([w])
    ensures Load(threads) >= Load([threads[i]])
  {
    assert [w][1..] == [] && [threads[i]][1..] == [];
    if i == 0 {
      assert threads[0 := w][1..] == threads[1..];
    } else {
      LoadUpdate(threads[1..], i - 1, w);
      assert threads[i := w][1..] == threads[1..][i - 1 := w];
    }
  }

  /** How many worker steps a shutdown can still take. */
  function StepsLeft(s: State): nat {
    3 * |s.shared.queue| + Load(s.threads)
  }

  /** During a shutdown every worker step uses up the measure, and nothing else refills it. */
  lemma DrainingAdvances(s: State, e: Event)
    requires Inv(s) && s.shared.stopping && Enabled(s, e) && Apart(s, e) && !e.EndShutdown?
    ensures Apply(s, e).shared.stopping && Apply(s, e).joins == s.joins
    ensures if e.Check? || e.Finish? then StepsLeft(Apply(s, e)) < StepsLeft(s)
            else StepsLeft(Apply(s, e)) == StepsLeft(s)
  {
    match e
    case Check(w) =>
      var next := Apply(s, e).threads[w];
      LoadUpdate(s.threads, w, next);
      assert [next][1..] == [] && [s.threads[w]][1..] == [];
    case Finish(w) =>
      LoadUpdate(s.threads, w, Ready);
      assert [Ready][1..] == [] && [s.threads[w]][1..] == [];
    case _ =>
  }

  function ExecFrom(s: State, events: seq<Event>): Option<State>
    decreases |events|
  {
    if events == [] then Some(s)
    else if Enabled(s, events[0]) then ExecFrom(Apply(s, events[0]), events[1..])
    else None
  }

  /**
    A shutdown is never stuck: from any state of it, worker steps alone, no more
    than the measure allows, bring every joined thread out of its loop.
  */
  lemma {:induction false} ShutdownCompletes(s: State) returns (events: seq<Event>)
    requires Inv(s) && s.shared.stopping
    ensures |events| <= StepsLeft(s) && forall e | e in events :: e.Check? || e.Finish?
    ensures ExecFrom(s, events).Some?
    ensures var t := ExecFrom(s, events).value; t.joins == s.joins && Enabled(t, EndShutdown(0))
    decreases StepsLeft(s)
  {
    if AllExited(s.threads, s.joins[0]) {
      events := [];
    } else {
      var w :| w in s.joins[0] && w < |s.threads| && !s.threads[w].Exited?;
      assert !s.threads[w].Sleeping?;
      var e := if s.threads[w].Ready? then Check(w) else Finish(w);
      DrainingAdvances(s, e);
      EventKeeps(s, e);
      var rest := ShutdownCompletes(Apply(s, e));
      events := [e] + rest;
      assert events[1..] == rest;
    }
  }

  // ---------------------------------------------------------------------------
  // Why the lifecycle calls must stay apart
  // ---------------------------------------------------------------------------

  /** A run given step by step. */
  lemma ExecAppend(run: seq<Event>, e: Event)
    requires Exec(run).Some? && Enabled(Exec(run).value, e)
    ensures Exec(run + [e]) == Some(Apply(Exec(run).value, e))
  {
    assert (run + [e])[..|run + [e]| - 1] == run;
  }

  /** Two shutdowns at once: the second joins nobody, so it clears a queue that still holds an accepted task. */
  lemma OverlappingShutdownsLoseTask() returns (run: seq<Event>)
    ensures Exec(run).Some? && !LifecycleApart(run)
    ensures Exec(run).value.accepted == [7] && Exec(run).value.started == []
    ensures Exec(run).value.shared.queue == []
  {
    run := [];
    var s := INITIAL;
    ExecAppend(run, Start(4));
    run, s := run + [Start(4)], Apply(s, Start(4));
    ExecAppend(run, Enqueue(7, None));
    run, s := run + [Enqueue(7, None)], Apply(s, Enqueue(7, None));
    ExecAppend(run, BeginShutdown);
    run, s := run + [BeginShutdown], Apply(s, BeginShutdown);
    ghost var prefix := run;
    ExecAppend(run, BeginShutdown);
    run, s := run + [BeginShutdown], Apply(s, BeginShutdown);
    assert !LifecycleApart(run) by {
      assert run[..|run| - 1] == prefix && run[|run| - 1] == BeginShutdown;
    }
    ghost var overlapping := run;
    ExecAppend(run, EndShutdown(1));
    run, s := run + [EndShutdown(1)], Apply(s, EndShutdown(1));
    assert run[..|run| - 1] == overlapping;
  }

  lemma StartInsideShutdown() returns (run: seq<Event>)
    ensures run == [BeginShutdown, Start(4)] && Exec(run).Some? && !LifecycleApart(run)
    ensures Exec(run) == Some(Apply(Apply(INITIAL, BeginShutdown), Start(4)))
  {
    ExecAppend([], BeginShutdown);
    run := [] + [BeginShutdown];
    ghost var prefix := run;
    ExecAppend(run, Start(4));
    run := run + [Start(4)];
    assert run[..|run| - 1] == prefix && run[|run| - 1] == Start(4);
  }

  lemma StaysOverlapping(run: seq<Event>, e: Event)
    requires !LifecycleApart(run)
    ensures !LifecycleApart(run + [e])
  {
    assert (run + [e])[..|run + [e]| - 1] == run;
  }

  /** A start inside a shutdown reopens the queue, and the end of that shutdown then clears it. */
  lemma StartDuringShutdownLosesTask() returns (run: seq<Event>)
    ensures Exec(run).Some? && !LifecycleApart(run)
    ensures Exec(run).value.accepted == [7] && Exec(run).value.started == []
    ensures Exec(run).value.shared.queue == []
  {
    run := StartInsideShutdown();
    ExecAppend(run, Enqueue(7, None));
    StaysOverlapping(run, Enqueue(7, None));
    run := run + [Enqueue(7, None)];
    ExecAppend(run, EndShutdown(0));
    StaysOverlapping(run, EndShutdown(0));
    run := run + [EndShutdown(0)];
  }

  // ---------------------------------------------------------------------------
  // Exactly when an overlapping call loses a task
  // ---------------------------------------------------------------------------

  /** Some accepted task is neither started nor queued. */
  predicate Loses(s: State) {
    s.accepted != s.started + s.shared.queue
  }

  /** From `s` on, no lifecycle call overlaps a shutdown. */
  predicate ApartFrom(s: State, events: seq<Event>)
    decreases |events|
  {
    events != [] ==> Apart(s, events[0]) && (Enabled(s, events[0]) ==> ApartFrom(Apply(s, events[0]), events[1..]))
  }

  /** `events` lead from `s` to a loss without any further overlapping call. */
  predicate LeadsToLoss(s: State, events: seq<Event>) {
    ApartFrom(s, events) && ExecFrom(s, events).Some? && Loses(ExecFrom(s, events).value)
  }

  ghost predicate CanLose(s: State) {
    exists events :: LeadsToLoss(s, events)
  }

  lemma {:induction false} InvLosesNothing(s: State, events: seq<Event>)
    requires Inv(s)
    ensures !LeadsToLoss(s, events)
    decreases |events|
  {
    if events != [] && Apart(s, events[0]) && Enabled(s, events[0]) {
      EventKeeps(s, events[0]);
      InvLosesNothing(Apply(s, events[0]), events[1..]);
    }
  }

  /** Nothing is queued or accepted any more, and every thread that may still act is being joined. */
  ghost predicate Quiet(s: State) {
    && |s.threads| == s.shared.spawned
    && s.joins != [] && !s.shared.accepting && s.shared.workers == [] && s.shared.queue == []
    && s.accepted == s.started
    && forall w | 0 <= w < |s.threads| && !s.threads[w].Exited? :: IsJoined(s.joins, w)
  }

  ghost predicate IsJoined(joins: seq<seq<nat>>, w: nat) {
    exists i | 0 <= i < |joins| :: w in joins[i]
  }

  lemma QuietKeeps(s: State, e: Event)
    requires Quiet(s) && Enabled(s, e) && Apart(s, e)
    ensures Quiet(Apply(s, e)) || Inv(Apply(s, e))
  {
    if e.EndShutdown? {
      QuietEnds(s, e.call);
    }
  }

  lemma QuietEnds(s: State, call: nat)
    requires Quiet(s) && Enabled(s, EndShutdown(call))
    ensures Quiet(Apply(s, EndShutdown(call))) || Inv(Apply(s, EndShutdown(call)))
  {
    var t := Apply(s, EndShutdown(call));
    forall w | 0 <= w < |t.threads| && !t.threads[w].Exited?
      ensures IsJoined(t.joins, w)
    {
      var i :| 0 <= i < |s.joins| && w in s.joins[i];
      assert i != call;
      assert w in t.joins[if i < call then i else i - 1];
    }
    if t.joins == [] {
      CountNone(t.threads, IsRunning);
      Units(t.started);
    }
  }

  lemma {:induction false} QuietLosesNothing(s: State, events: seq<Event>)
    requires Quiet(s)
    ensures !LeadsToLoss(s, events)
    decreases |events|
  {
    Units(s.started);
    if events != [] && Apart(s, events[0]) && Enabled(s, events[0]) {
      QuietKeeps(s, events[0]);
      if Quiet(Apply(s, events[0])) {
        QuietLosesNothing(Apply(s, events[0]), events[1..]);
      } else {
        InvLosesNothing(Apply(s, events[0]), events[1..]);
      }
    }
  }

  /** The stopping flag is gone while a thread that is being joined still waits for it. */
  ghost predicate IsStuck(s: State, w: nat) {
    && !Loses(s) && !s.shared.stopping && |s.joins| == 1
    && w in s.joins[0] && w < |s.threads| && !s.threads[w].Exited?
  }

  lemma StuckKeeps(s: State, w: nat, e: Event)
    requires IsStuck(s, w) && Enabled(s, e) && Apart(s, e)
    ensures IsStuck(Apply(s, e), w)
  {
    match e
    case Enqueue(task, _) => Assoc(s.started, s.shared.queue, [task]);
    case Check(_) =>
      if s.shared.queue != [] {
        Assoc(s.started, [s.shared.queue[0]], s.shared.queue[1..]);
        assert [s.shared.queue[0]] + s.shared.queue[1..] == s.shared.queue;
      }
    case _ =>
  }

  lemma {:induction false} StuckLosesNothing(s: State, w: nat, events: seq<Event>)
    requires IsStuck(s, w)
    ensures !LeadsToLoss(s, events)
    decreases |events|
  {
    if events != [] && Apart(s, events[0]) && Enabled(s, events[0]) {
      StuckKeeps(s, w, events[0]);
      StuckLosesNothing(Apply(s, events[0]), w, events[1..]);
    }
  }

  lemma SecondShutdownLoses(s: State)
    requires Inv(s) && s.joins != [] && s.shared.queue != []
    ensures CanLose(Apply(s, BeginShutdown))
  {
    var t := Apply(s, BeginShutdown);
    var events := [EndShutdown(1)];
    assert t.joins[1] == [];
    assert ExecFrom(Apply(t, events[0]), events[1..]) == Some(Apply(t, events[0]));
    Units(s.started);
    assert |s.accepted| > |s.started|;
    assert LeadsToLoss(t, events);
  }

  lemma SecondShutdownIsQuiet(s: State)
    requires Inv(s) && s.joins != [] && s.shared.queue == []
    ensures Quiet(Apply(s, BeginShutdown))
  {
    var t := Apply(s, BeginShutdown);
    Units(s.started);
    forall w | 0 <= w < |t.threads| && !t.threads[w].Exited?
      ensures IsJoined(t.joins, w)
    {
      assert !s.threads[w].Exited? && w in s.joins[0] && t.joins[0] == s.joins[0];
    }
  }

  lemma NobodySleeps(threads: seq<Worker>, added: seq<Worker>)
    requires !SomeoneSleeps(threads) && forall w | 0 <= w < |added| :: added[w] == Ready
    ensures !SomeoneSleeps(threads + added)
  {
  }

  /** Everybody has left, and the join is about to return: the restarted executor accepts a task, and the join clears it. */
  lemma RestartLoses(s: State, hardwareThreads: nat)
    requires Inv(s) && s.joins != [] && AllExited(s.threads, s.joins[0])
    ensures CanLose(Apply(s, Start(hardwareThreads)))
  {
    var t := Apply(s, Start(hardwareThreads));
    EndShutdownKeeps(s, 0);
    NobodySleeps(s.threads, NewThreads(PoolSize(hardwareThreads)));
    var events := [Enqueue(0, None), EndShutdown(0)];
    assert Enabled(t, events[0]) && Accepts(t.shared);
    var u := Apply(t, events[0]);
    assert u.joins == s.joins && AllExited(u.threads, u.joins[0]);
    assert events[1..] == [EndShutdown(0)] && events[1..][1..] == [];
    assert ExecFrom(u, events[1..]) == Some(Apply(u, EndShutdown(0)));
    Units(s.started);
    assert LeadsToLoss(t, events);
  }

  /**
    Exactly when an event, in a run without overlap so far, makes a loss possible without
    any further overlapping call: a second shutdown while tasks are queued, or a start
    when all the threads being joined have left. Without such an event nothing is lost.
  */
  lemma OverlapLosesIff(s: State, e: Event)
    requires Inv(s) && Enabled(s, e)
    ensures CanLose(Apply(s, e)) <==>
            && s.joins != []
            && ((e.BeginShutdown? && s.shared.queue != []) || (e.Start? && AllExited(s.threads, s.joins[0])))
  {
    var t := Apply(s, e);
    if Apart(s, e) {
      EventKeeps(s, e);
      forall events
        ensures !LeadsToLoss(t, events)
      {
        InvLosesNothing(t, events);
      }
    } else if e.BeginShutdown? {
      if s.shared.queue != [] {
        SecondShutdownLoses(s);
      } else {
        SecondShutdownIsQuiet(s);
        forall events
          ensures !LeadsToLoss(t, events)
        {
          QuietLosesNothing(t, events);
        }
      }
    } else if AllExited(s.threads, s.joins[0]) {
      RestartLoses(s, e.hardwareThreads);
    } else {
      var w :| w in s.joins[0] && w < |s.threads| && !s.threads[w].Exited?;
      forall events
        ensures !LeadsToLoss(t, events)
      {
        StuckLosesNothing(t, w, events);
      }
    }
  }

  // ---------------------------------------------------------------------------
  // Exactly when a start keeps a shutdown from returning
  // ---------------------------------------------------------------------------

  /** `events` lead from `s` to the end of the first shutdown under way, without any overlapping call. */
  predicate LeadsToReturn(s: State, events: seq<Event>) {
    && ApartFrom(s, events) && ExecFrom(s, events).Some?
    && Enabled(ExecFrom(s, events).value, EndShutdown(0))
  }

  ghost predicate CanReturn(s: State) {
    exists events :: LeadsToReturn(s, events)
  }

  lemma {:induction false} StuckNeverReturns(s: State, w: nat, events: seq<Event>)
    requires IsStuck(s, w)
    ensures !LeadsToReturn(s, events)
    decreases |events|
  {
    if events != [] && Apart(s, events[0]) && Enabled(s, events[0]) {
      StuckKeeps(s, w, events[0]);
      StuckNeverReturns(Apply(s, events[0]), w, events[1..]);
    }
  }

  /**
    A start during a shutdown takes back the stopping flag, so that the shutdown returns
    only if the threads it joins had left by then: one that had not waits for ever, and the
    shutdown for it, unless yet another shutdown overlaps.
  */
  lemma StartHangsShutdownIff(s: State, hardwareThreads: nat)
    requires Inv(s) && s.joins != []
    ensures CanReturn(Apply(s, Start(hardwareThreads))) <==> AllExited(s.threads, s.joins[0])
  {
    var t := Apply(s, Start(hardwareThreads));
    if AllExited(s.threads, s.joins[0]) {
      EndShutdownKeeps(s, 0);
      assert LeadsToReturn(t, []);
    } else {
      var w :| w in s.joins[0] && w < |s.threads| && !s.threads[w].Exited?;
      forall events
        ensures !LeadsToReturn(t, events)
      {
        StuckNeverReturns(t, w, events);
      }
    }
  }
}
