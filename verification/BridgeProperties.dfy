/**
  What holds in every reachable state of the session pool: its bound, who owns
  which connection, whose session a request runs on, and that nobody gets stuck.
*/
module BridgeProperties {
  import opened BridgePool
  import opened BridgeProtocol
  import opened Options

  // ---------------------------------------------------------------------------
  // Safety over whole runs
  // ---------------------------------------------------------------------------

  /** The pool is within its bound whenever the bridge mutex is free, and never more than one over. */
  lemma PoolBounded(s: State)
    requires Reachable(s)
    ensures |s.sh.pool| <= 257
    ensures (forall t | 0 <= t < |s.pcs| :: Bridge !in Holds(s.pcs[t])) ==> |s.sh.pool| <= 256
  {
    var run :| IsRun(run) && run[|run| - 1] == s;
    RunKeeps(run);
  }

  function OpenSessions(sh: Shared): set<Sid> {
    set sid | sid in sh.table && sh.table[sid].open
  }

  /**
    Conservation: an open connection outside the pool is owned by a thread bound to
    insert or close it, a closed one inside by a thread bound to drop it. So when
    every thread is idle, the open connections are exactly the pooled ones.
  */
  lemma ConnectionsConserved(s: State)
    requires Reachable(s)
    ensures NoneLeaked(s) && NoneRotting(s)
    ensures (forall t | 0 <= t < |s.pcs| :: s.pcs[t].Idle?) ==> OpenSessions(s.sh) == s.sh.pool.Values
  {
    var run :| IsRun(run) && run[|run| - 1] == s;
    RunKeeps(run);
    if forall t | 0 <= t < |s.pcs| :: s.pcs[t].Idle? {
      forall sid | sid in OpenSessions(s.sh)
        ensures sid in s.sh.pool.Values
      {
        if OutOfPool(s.sh, sid) {
          assert false;
        }
      }
      forall sid | sid in s.sh.pool.Values
        ensures sid in OpenSessions(s.sh)
      {
        var k :| k in s.sh.pool && s.sh.pool[k] == sid;
        if !s.sh.table[sid].open {
          assert false;
        }
      }
    }
  }

  lemma Facts(s: State, t: Tid)
    requires Reachable(s) && t < |s.pcs|
    ensures Inv(s) && PoolOk(s.sh) && PlaceOk(s.sh, s.pcs[t])
  {
    var run :| IsRun(run) && run[|run| - 1] == s;
    RunKeeps(run);
  }

  /**
    A failed run takes out of the pool its own session at most: every other entry,
    a newer session under the same key included, stays.
  */
  lemma ErasesOnlyItsOwn(s: State, t: Tid)
    requires Reachable(s) && t < |s.pcs| && (s.pcs[t].Remove? || s.pcs[t].Erase?)
    ensures Local(s.pcs[t], s.sh, Proceed).Some?
    ensures var sh, sh', sid := s.sh, Apply(s, t, Proceed).sh, s.pcs[t].sid;
            && (forall k | k in sh.pool && sh.pool[k] != sid :: k in sh'.pool && sh'.pool[k] == sh.pool[k])
            && (forall k | k in sh'.pool :: k in sh.pool && sh'.pool[k] == sh.pool[k])
            && OutOfPool(sh', sid)
  {
    Facts(s, t);
    EraseIsLocal(s.sh, s.pcs[t]);
  }

  lemma EraseIsLocal(sh: Shared, pc: Pc)
    requires PoolOk(sh) && PlaceOk(sh, pc) && (pc.Remove? || pc.Erase?)
    ensures ProceedFrom(pc, sh).Some?
    ensures var sh' := ProceedFrom(pc, sh).value.1;
            sh' == sh.(pool := WithoutSession(sh.pool, pc.req.key, pc.sid)) && OutOfPool(sh', pc.sid)
  {
    Unpooled(sh, pc.req, pc.sid);
  }

  /** Whatever leaves the pool, by whichever step, is closed by then or owned by the thread that took it out. */
  lemma LeavesClosedOrOwned(s: State, t: Tid, a: Action, k: Key)
    requires Reachable(s) && t < |s.pcs| && Local(s.pcs[t], s.sh, a).Some?
    requires k in s.sh.pool && !(k in Apply(s, t, a).sh.pool && Apply(s, t, a).sh.pool[k] == s.sh.pool[k])
    ensures var (s', sid) := (Apply(s, t, a), s.sh.pool[k]);
            sid in s'.sh.table && (!s'.sh.table[sid].open || Owns(s'.pcs[t], sid))
  {
    Facts(s, t);
    TableGrows(s.sh, s.pcs[t], a);
    if a == Proceed {
      LeavesByProceeding(s.sh, s.pcs[t], k);
    } else {
      OthersKeepPool(s.sh, s.pcs[t], a);
    }
  }

  lemma OthersKeepPool(sh: Shared, pc: Pc, a: Action)
    requires Local(pc, sh, a).Some? && a != Proceed
    ensures Local(pc, sh, a).value.1.pool == sh.pool
  {
  }

  lemma LeavesByProceeding(sh: Shared, pc: Pc, k: Key)
    requires PoolOk(sh) && PlaceOk(sh, pc) && ProceedFrom(pc, sh).Some? && k in sh.pool
    requires var (pc', sh') := ProceedFrom(pc, sh).value; !(k in sh'.pool && sh'.pool[k] == sh.pool[k])
    ensures var (pc', sh') := ProceedFrom(pc, sh).value;
            sh.pool[k] in sh'.table && (!sh'.table[sh.pool[k]].open || Owns(pc', sh.pool[k]))
  {
    if pc.Sweep? {
      LeavesBySweep(sh, pc.job, k);
    } else if pc.CloseVictim? {
      LeavesAsVictim(sh, pc.k, k);
    } else if pc.Remove? || pc.Erase? {
      EraseIsLocal(sh, pc);
    }
  }

  lemma LeavesBySweep(sh: Shared, job: Job, k: Key)
    requires k in sh.pool && PoolOk(sh)
    requires var (pc', sh') := AfterSweep(job, sh); !(k in sh'.pool && sh'.pool[k] == sh.pool[k])
    ensures var (pc', sh') := AfterSweep(job, sh); sh' == sh.(pool := sh'.pool) && Owns(pc', sh.pool[k])
  {
  }

  lemma LeavesAsVictim(sh: Shared, victimKey: Key, k: Key)
    requires k in sh.pool && !(k in Without(sh.pool, victimKey) && Without(sh.pool, victimKey)[k] == sh.pool[k])
    ensures k == victimKey
  {
  }

  // ---------------------------------------------------------------------------
  // Whose session a request runs on
  // ---------------------------------------------------------------------------

  /**
    A request that continues nothing runs on a session of its own account, unless
    it lost the race to insert: that path hands over the winner unchecked.
  */
  lemma RunsOnOwnAccount(s: State, t: Tid)
    requires Reachable(s) && t < |s.pcs| && s.pcs[t].Run?
    ensures s.pcs[t].sid in s.sh.table && s.sh.table[s.pcs[t].sid].key == s.pcs[t].req.key
    ensures s.pcs[t].via != LostRace ==>
              SameAccount(s.pcs[t].req.hasPrevious, s.pcs[t].req.account, s.sh.table[s.pcs[t].sid].account)
  {
    var run :| IsRun(run) && run[|run| - 1] == s;
    RunKeeps(run);
    assert PlaceOk(s.sh, s.pcs[t]);
  }

  /** One more step at the end of a run, into a place that meets no other thread's mutexes. */
  lemma Extend(run: seq<State>, t: Tid, a: Action, pc: Pc, sh: Shared) returns (longer: seq<State>)
    requires IsRun(run) && t < |run[|run| - 1].pcs|
    requires var s := run[|run| - 1];
             && Local(s.pcs[t], s.sh, a) == Some((pc, sh))
             && forall u | 0 <= u < |s.pcs| && u != t :: Holds(pc) !! Holds(s.pcs[u])
    ensures IsRun(longer)
    ensures longer[|longer| - 1] == State(sh, run[|run| - 1].pcs[t := pc])
  {
    var s := run[|run| - 1];
    longer := run + [State(sh, s.pcs[t := pc])];
    assert longer[..|longer| - 1] == run;
    assert Enabled(s, t, a) && longer[|longer| - 1] == Apply(s, t, a);
    assert Next(s, longer[|longer| - 1]);
  }

  lemma ToLookup(run: seq<State>, t: Tid, req: Request) returns (longer: seq<State>)
    requires IsRun(run) && t < |run[|run| - 1].pcs| && run[|run| - 1].pcs[t] == Idle
    requires forall pc | pc in run[|run| - 1].pcs :: Holds(pc) == {}
    ensures IsRun(longer) && longer[|longer| - 1].sh == run[|run| - 1].sh
    ensures longer[|longer| - 1].pcs == run[|run| - 1].pcs[t := WantLookup(req, false)]
  {
    var sh := run[|run| - 1].sh;
    longer := Extend(run, t, Execute(req), WantTransport(req), sh);
    longer := Extend(longer, t, Acquire, ReadTransport(req), sh);
    longer := Extend(longer, t, Proceed, WantLookup(req, false), sh);
  }

  /** A thread that meets no contention goes from its request to an open connection. */
  lemma ToConnected(run: seq<State>, t: Tid, req: Request, sid: Sid) returns (longer: seq<State>)
    requires IsRun(run) && t < |run[|run| - 1].pcs| && run[|run| - 1].pcs[t] == Idle
    requires forall pc | pc in run[|run| - 1].pcs :: Holds(pc) == {}
    requires req.isCreate && run[|run| - 1].sh.pool == map[] && sid !in run[|run| - 1].sh.table
    ensures IsRun(longer)
    ensures var s, s' := run[|run| - 1], longer[|longer| - 1];
            && s'.pcs == s.pcs[t := WantInsert(req, false, sid)]
            && s'.sh == Shared(map[], s.sh.table[sid := Info(req.key, req.account, true, false)])
  {
    var sh := run[|run| - 1].sh;
    longer := ToLookup(run, t, req);
    longer := Extend(longer, t, Acquire, Sweep(ForLookup(req, false)), sh);
    longer := Extend(longer, t, Proceed, Connect(req, false), sh);
    longer := Extend(longer, t, ConnectWorks(sid), WantInsert(req, false, sid),
                     Shared(map[], sh.table[sid := Info(req.key, req.account, true, false)]));
  }

  /** A step of the second of two threads, while the first stands at `first`. */
  lemma SecondSteps(run: seq<State>, first: Pc, a: Action, pc: Pc, pc': Pc, sh: Shared, sh': Shared)
    returns (longer: seq<State>)
    requires IsRun(run) && run[|run| - 1] == State(sh, [first, pc])
    requires Local(pc, sh, a) == Some((pc', sh')) && Holds(pc') !! Holds(first)
    ensures IsRun(longer) && longer[|longer| - 1] == State(sh', [first, pc'])
  {
    longer := Extend(run, 1, a, pc', sh');
    assert [first, pc][1 := pc'] == [first, pc'];
  }

  lemma FirstSteps(run: seq<State>, second: Pc, a: Action, pc: Pc, pc': Pc, sh: Shared, sh': Shared)
    returns (longer: seq<State>)
    requires IsRun(run) && run[|run| - 1] == State(sh, [pc, second])
    requires Local(pc, sh, a) == Some((pc', sh')) && Holds(pc') !! Holds(second)
    ensures IsRun(longer) && longer[|longer| - 1] == State(sh', [pc', second])
  {
    longer := Extend(run, 0, a, pc', sh');
    assert [pc, second][0 := pc'] == [pc', second];
  }

  /** The first of two connected threads inserts. */
  lemma FirstInserts(run: seq<State>, req: Request, second: Pc, sh: Shared) returns (longer: seq<State>)
    requires IsRun(run) && run[|run| - 1] == State(sh, [WantInsert(req, false, 0), second])
    requires sh.pool == map[] && Holds(second) == {}
    ensures IsRun(longer)
    ensures longer[|longer| - 1] == State(sh.(pool := map[req.key := 0]), [WantRun(req, false, 0, Connected), second])
  {
    var sh' := sh.(pool := map[req.key := 0]);
    var sweep, after := Sweep(ForInsert(req, false, 0)), Sweep(AfterInsert(req, false, 0));
    longer := FirstSteps(run, second, Acquire, WantInsert(req, false, 0), sweep, sh, sh);
    longer := FirstSteps(longer, second, Proceed, sweep, after, sh, sh');
    longer := FirstSteps(longer, second, Proceed, after, WantRun(req, false, 0, Connected), sh', sh');
  }

  lemma SecondCollides(run: seq<State>, first: Pc, req: Request, sh: Shared) returns (longer: seq<State>)
    requires IsRun(run) && run[|run| - 1] == State(sh, [first, WantInsert(req, false, 1)])
    requires sh.pool == map[req.key := 0] && Holds(first) == {}
    ensures IsRun(longer) && longer[|longer| - 1] == State(sh, [first, WantCandidate(req, false, 1, 0)])
  {
    var sweep := Sweep(ForInsert(req, false, 1));
    longer := SecondSteps(run, first, Acquire, WantInsert(req, false, 1), sweep, sh, sh);
    longer := SecondSteps(longer, first, Proceed, sweep, WantCandidate(req, false, 1, 0), sh, sh);
  }

  lemma SecondEnters(run: seq<State>, first: Pc, req: Request, sh: Shared) returns (longer: seq<State>)
    requires IsRun(run) && run[|run| - 1] == State(sh, [first, WantCandidate(req, false, 1, 0)]) && Holds(first) == {}
    ensures IsRun(longer) && longer[|longer| - 1] == State(sh, [first, CloseCandidate(req, false, 1, 0)])
  {
    longer := SecondSteps(run, first, Acquire, WantCandidate(req, false, 1, 0), CloseCandidate(req, false, 1, 0), sh, sh);
  }

  /** The second finds the key taken, closes its own connection and runs on the other. */
  lemma SecondLoses(run: seq<State>, first: Pc, req: Request, sh: Shared) returns (longer: seq<State>)
    requires IsRun(run) && run[|run| - 1] == State(sh, [first, WantInsert(req, false, 1)])
    requires sh.pool == map[req.key := 0] && Holds(first) == {}
    ensures IsRun(longer) && longer[|longer| - 1] == State(Closed(sh, 1), [first, Run(req, false, 0, LostRace)])
  {
    var close, won := CloseCandidate(req, false, 1, 0), WantRun(req, false, 0, LostRace);
    longer := SecondCollides(run, first, req, sh);
    longer := SecondEnters(longer, first, req, sh);
    longer := SecondSteps(longer, first, Proceed, close, won, sh, Closed(sh, 1));
    longer := SecondRuns(longer, first, req, Closed(sh, 1));
  }

  lemma SecondRuns(run: seq<State>, first: Pc, req: Request, sh: Shared) returns (longer: seq<State>)
    requires IsRun(run) && run[|run| - 1] == State(sh, [first, WantRun(req, false, 0, LostRace)]) && Holds(first) == {}
    ensures IsRun(longer) && longer[|longer| - 1] == State(sh, [first, Run(req, false, 0, LostRace)])
  {
    longer := SecondSteps(run, first, Acquire, WantRun(req, false, 0, LostRace), Run(req, false, 0, LostRace), sh, sh);
  }

  /** Two requests under one key, both connecting at once: the second ends up running on the first one's session. */
  lemma LostRaceHandsOver(first: Request, second: Request) returns (s: State)
    requires first.key == second.key && first.isCreate && second.isCreate
    ensures Reachable(s) && s.pcs == [WantRun(first, false, 0, Connected), Run(second, false, 0, LostRace)]
    ensures 0 in s.sh.table && s.sh.table[0] == Info(first.key, first.account, true, false)
  {
    var run := [State(Shared(map[], map[]), [Idle, Idle])];
    run := ToConnected(run, 0, first, 0);
    assert run[|run| - 1].pcs == [WantInsert(first, false, 0), Idle];
    run := ToConnected(run, 1, second, 1);
    assert run[|run| - 1].pcs == [WantInsert(first, false, 0), WantInsert(second, false, 1)];
    var sh := run[|run| - 1].sh;
    run := FirstInserts(run, first, WantInsert(second, false, 1), sh);
    run := SecondLoses(run, WantRun(first, false, 0, Connected), second, sh.(pool := map[second.key := 0]));
    s := run[|run| - 1];
  }

  /** Places a thread gets to only for a request that may create a response. */
  predicate Creates(pc: Pc) {
    match pc
    case Connect(req, _) => req.isCreate
    case Sweep(job) => JobCreates(job)
    case WantVictim(job, _, _) => JobCreates(job)
    case CloseVictim(job, _, _) => JobCreates(job)
    case WantInsert(req, _, _) => req.isCreate
    case WantCandidate(req, _, _, _) => req.isCreate
    case CloseCandidate(req, _, _, _) => req.isCreate
    case WantRun(req, _, _, via) => via != Hit ==> req.isCreate
    case Run(req, _, _, via) => via != Hit ==> req.isCreate
    case _ => true
  }

  predicate JobCreates(job: Job) {
    !job.ForLookup? ==> job.req.isCreate
  }

  lemma ProceedCreates(sh: Shared, pc: Pc)
    requires Creates(pc) && ProceedFrom(pc, sh).Some?
    ensures Creates(ProceedFrom(pc, sh).value.0)
  {
  }

  lemma StepCreates(sh: Shared, pc: Pc, a: Action)
    requires Creates(pc) && Local(pc, sh, a).Some?
    ensures Creates(Local(pc, sh, a).value.0)
  {
    if a == Proceed {
      ProceedCreates(sh, pc);
    }
  }

  lemma {:induction false} RunCreates(run: seq<State>, t: Tid)
    requires IsRun(run) && t < |run[|run| - 1].pcs|
    ensures Creates(run[|run| - 1].pcs[t])
  {
    if |run| > 1 {
      var front := run[..|run| - 1];
      var s := front[|front| - 1];
      var u: Tid, a :| Enabled(s, u, a) && run[|run| - 1] == Apply(s, u, a);
      RunCreates(front, t);
      if u == t {
        StepCreates(s.sh, s.pcs[u], a);
      }
    }
  }

  /** The thread runs a request on a session that is not its account's. */
  predicate RunsAcross(s: State, t: Tid, req: Request, account: string) {
    && t < |s.pcs| && s.pcs[t].Run? && s.pcs[t].req == req
    && s.pcs[t].sid in s.sh.table && s.sh.table[s.pcs[t].sid].account == account
    && !SameAccount(req.hasPrevious, req.account, account)
  }

  /**
    Exactly which requests can end up on a session of which other account: those that
    may create a response, continue nothing and name an account of their own.
  */
  lemma LostRaceCrossesAccounts(req: Request, account: string)
    ensures (exists s, t :: Reachable(s) && RunsAcross(s, t, req, account)) <==>
            req.isCreate && !SameAccount(req.hasPrevious, req.account, account)
  {
    if req.isCreate && !SameAccount(req.hasPrevious, req.account, account) {
      var s := LostRaceHandsOver(Request(req.key, account, false, true), req);
      assert RunsAcross(s, 1, req, account);
    }
    if s, t :| Reachable(s) && RunsAcross(s, t, req, account) {
      RunsOnOwnAccount(s, t);
      var run :| IsRun(run) && run[|run| - 1] == s;
      RunCreates(run, t);
    }
  }

  /** In every reachable state the request, wherever it runs, runs on a session it may use. */
  ghost predicate AlwaysOnOwnAccount(req: Request) {
    forall s, t, account :: Reachable(s) ==> !RunsAcross(s, t, req, account)
  }

  /** What a caller can tell beforehand: the requests that are safe from the lost race. */
  lemma OwnAccountIff(req: Request)
    ensures AlwaysOnOwnAccount(req) <==> !req.isCreate || req.hasPrevious || req.account == ""
  {
    if req.isCreate && !req.hasPrevious && req.account != "" {
      var other := req.account + "x";
      assert |other| != |req.account|;
      LostRaceCrossesAccounts(req, other);
    } else {
      forall s, t, account | Reachable(s)
        ensures !RunsAcross(s, t, req, account)
      {
        LostRaceCrossesAccounts(req, account);
      }
    }
  }

  // ---------------------------------------------------------------------------
  // Deadlock
  // ---------------------------------------------------------------------------

  function Rank(l: Lock): nat {
    match l
    case Transport => 0
    case Bridge => 1
    case Session(_) => 2
  }

  /** Mutexes are taken in one order: transport, bridge, one session. */
  lemma LockOrder(pc: Pc, held: Lock, wanted: Lock)
    requires held in Holds(pc) && Waits(pc) == Some(wanted)
    ensures Rank(held) < Rank(wanted)
  {
  }

  /** And only ever by a thread that stands waiting for them. */
  lemma TakesWhatItWaitsFor(sh: Shared, pc: Pc, a: Action)
    requires Local(pc, sh, a).Some?
    ensures Holds(Local(pc, sh, a).value.0) <= Holds(pc) + if a == Acquire then {Waits(pc).value} else {}
  {
    if a == Proceed {
      ProceedTakesNothing(sh, pc);
    } else if a == Acquire {
      AcquireTakesOne(sh, pc);
    }
  }

  lemma AcquireTakesOne(sh: Shared, pc: Pc)
    requires Waits(pc).Some?
    ensures Holds(Acquired(pc, sh)) == Holds(pc) + {Waits(pc).value}
  {
  }

  lemma AfterSweepHolds(job: Job, sh: Shared)
    ensures Holds(AfterSweep(job, sh).0) <= {Bridge}
  {
  }

  /** The places whose next step leaves every mutex. */
  predicate Leaving(pc: Pc) {
    || pc.CloseDisplaced? || pc.CloseCandidate? || pc.CloseFirst? || pc.Remove? || pc.Erase? || pc.Cancel?
    || pc.ReadTransport? || pc.Swapped?
  }

  lemma LeavesEverything(sh: Shared, pc: Pc)
    requires Leaving(pc)
    ensures ProceedFrom(pc, sh).Some? && Holds(ProceedFrom(pc, sh).value.0) == {}
  {
  }

  lemma ProceedTakesNothing(sh: Shared, pc: Pc)
    requires ProceedFrom(pc, sh).Some?
    ensures Holds(ProceedFrom(pc, sh).value.0) <= Holds(pc)
  {
    if pc.Sweep? {
      AfterSweepHolds(pc.job, sh);
    } else if Leaving(pc) {
      LeavesEverything(sh, pc);
    }
  }

  ghost predicate BlockedBy(s: State, t: Tid, u: Tid) {
    t < |s.pcs| && u < |s.pcs| && Waits(s.pcs[t]).Some? && Waits(s.pcs[t]).value in Holds(s.pcs[u])
  }

  ghost predicate WaitChain(s: State, chain: seq<Tid>) {
    forall i | 0 <= i < |chain| - 1 :: BlockedBy(s, chain[i], chain[i + 1])
  }

  ghost predicate AllBlocked(s: State, chain: seq<Tid>) {
    forall i | 0 <= i < |chain| :: chain[i] < |s.pcs| && Waits(s.pcs[chain[i]]).Some?
  }

  lemma {:induction false} ChainClimbs(s: State, chain: seq<Tid>, i: nat)
    requires WaitChain(s, chain) && i < |chain| && AllBlocked(s, chain)
    ensures Rank(Waits(s.pcs[chain[i]]).value) >= i + Rank(Waits(s.pcs[chain[0]]).value)
  {
    if i > 0 {
      ChainClimbs(s, chain, i - 1);
      assert BlockedBy(s, chain[i - 1], chain[i]);
      LockOrder(s.pcs[chain[i]], Waits(s.pcs[chain[i - 1]]).value, Waits(s.pcs[chain[i]]).value);
    }
  }

  /** No set of threads ever waits in a circle. */
  lemma NoCyclicWait(s: State, chain: seq<Tid>)
    requires |chain| >= 2 && WaitChain(s, chain)
    ensures chain[0] != chain[|chain| - 1]
  {
    if chain[0] == chain[|chain| - 1] {
      forall i | 0 <= i < |chain|
        ensures chain[i] < |s.pcs| && Waits(s.pcs[chain[i]]).Some?
      {
        var j := if i == |chain| - 1 then 0 else i;
        assert BlockedBy(s, chain[j], chain[j + 1]);
      }
      ChainClimbs(s, chain, |chain| - 1);
      assert false;
    }
  }

  /** A place at which the thread's own next step is settled. */
  predicate Settled(sh: Shared, pc: Pc) {
    && !pc.Idle? && !pc.Connect? && !pc.Run? && Waits(pc) == None
    && (pc.Reset? ==> pc.todo == {}) && (pc.Sweep? ==> |sh.pool| <= MAX_SESSIONS)
  }

  lemma SettledProceeds(sh: Shared, pc: Pc)
    requires Settled(sh, pc)
    ensures Local(pc, sh, Proceed).Some? && Holds(Local(pc, sh, Proceed).value.0) <= Holds(pc)
  {
    assert ProceedFrom(pc, sh).Some?;
    ProceedTakesNothing(sh, pc);
  }

  /** A busy thread that is not blocked has a step of its own that needs no further mutex. */
  lemma CanAct(sh: Shared, pc: Pc) returns (a: Action)
    requires PoolOk(sh) && PlaceOk(sh, pc) && !pc.Idle? && Waits(pc) == None
    ensures Local(pc, sh, a).Some? && Holds(Local(pc, sh, a).value.0) <= Holds(pc)
  {
    if Settled(sh, pc) {
      a := Proceed;
      SettledProceeds(sh, pc);
    } else if pc.Connect? {
      a := ConnectFails;
    } else if pc.Run? {
      a := RunEnds(false, false);
    } else if pc.Reset? {
      var k :| k in pc.todo;
      assert k in sh.pool.Keys;
      a := Pick(k);
    } else {
      var k :| k in sh.pool.Keys;
      a := Pick(k);
    }
  }

  /** From a busy thread, follow whoever holds what it waits for: the third at the latest can move. */
  lemma {:induction false} Unblock(s: State, t: Tid) returns (u: Tid, a: Action)
    requires Inv(s) && t < |s.pcs| && !s.pcs[t].Idle?
    ensures Enabled(s, u, a) && !s.pcs[u].Idle?
    decreases if Waits(s.pcs[t]).None? then 0 else 3 - Rank(Waits(s.pcs[t]).value)
  {
    if Waits(s.pcs[t]).None? {
      u := t;
      a := CanAct(s.sh, s.pcs[t]);
    } else {
      var l := Waits(s.pcs[t]).value;
      if Free(s, t, l) {
        u, a := t, Acquire;
        AcquireTakesOne(s.sh, s.pcs[t]);
      } else {
        var v :| 0 <= v < |s.pcs| && v != t && l in Holds(s.pcs[v]);
        if Waits(s.pcs[v]).Some? {
          LockOrder(s.pcs[v], l, Waits(s.pcs[v]).value);
        }
        u, a := Unblock(s, v);
      }
    }
  }

  /** Deadlock freedom: while any thread is busy, some busy thread can take a step. */
  lemma SomeoneCanMove(s: State, t: Tid) returns (u: Tid, a: Action)
    requires Reachable(s) && t < |s.pcs| && !s.pcs[t].Idle?
    ensures Enabled(s, u, a) && !s.pcs[u].Idle?
  {
    var run :| IsRun(run) && run[|run| - 1] == s;
    RunKeeps(run);
    u, a := Unblock(s, t);
  }

  // ---------------------------------------------------------------------------
  // A request ends
  // ---------------------------------------------------------------------------

  function JobStage(job: Job): nat {
    Round(job.retry) + match job
                       case ForLookup(_, _) => 17
                       case ForInsert(_, _, _) => 12
                       case AfterInsert(_, _, _) => 9
  }

  function Round(retry: bool): nat {
    if retry then 0 else 18
  }

  /** How many places of a request still lie ahead. */
  function StagesLeft(pc: Pc): nat {
    match pc
    case WantTransport(_) => 38
    case ReadTransport(_) => 37
    case WantLookup(_, retry) => Round(retry) + 18
    case Sweep(job) => JobStage(job)
    case WantVictim(job, _, _) => JobStage(job)
    case CloseVictim(job, _, _) => JobStage(job)
    case WantDisplaced(_, retry, _) => Round(retry) + 16
    case CloseDisplaced(_, retry, _) => Round(retry) + 15
    case Connect(_, retry) => Round(retry) + 14
    case WantInsert(_, retry, _) => Round(retry) + 13
    case WantCandidate(_, retry, _, _) => Round(retry) + 11
    case CloseCandidate(_, retry, _, _) => Round(retry) + 10
    case WantRun(_, retry, _, _) => Round(retry) + 8
    case Run(_, retry, _, _) => Round(retry) + 7
    case WantRemove(_, retry, _, _) => Round(retry) + 6
    case Remove(_, retry, _, _) => Round(retry) + 5
    case WantErase(_, _) => 22
    case Erase(_, _) => 21
    case WantFirst(_, _) => 20
    case CloseFirst(_, _) => 19
    case _ => 0
  }

  /** Inside a sweep: two steps per eviction. */
  function SweepLeft(pc: Pc, sh: Shared): nat {
    3 * |sh.pool| + if pc.Sweep? then 2 else if pc.WantVictim? then 1 else 0
  }

  /**
    The acquisition loop never goes round and a request runs on at most two
    sessions: each step a request takes moves it to a later place, except that a
    sweep repeats, and then the pool shrinks.
  */
  lemma RequestAdvances(sh: Shared, pc: Pc, a: Action)
    requires StagesLeft(pc) > 0 && PlaceOk(sh, pc) && Local(pc, sh, a).Some?
    ensures var (pc', sh') := Local(pc, sh, a).value;
            || StagesLeft(pc') < StagesLeft(pc)
            || (StagesLeft(pc') == StagesLeft(pc) && SweepLeft(pc', sh') < SweepLeft(pc, sh))
  {
    if a == Proceed {
      ProceedAdvances(sh, pc);
    }
  }

  lemma ProceedAdvances(sh: Shared, pc: Pc)
    requires StagesLeft(pc) > 0 && PlaceOk(sh, pc) && ProceedFrom(pc, sh).Some?
    ensures var (pc', sh') := ProceedFrom(pc, sh).value;
            || StagesLeft(pc') < StagesLeft(pc)
            || (StagesLeft(pc') == StagesLeft(pc) && SweepLeft(pc', sh') < SweepLeft(pc, sh))
  {
    if pc.Sweep? {
      SweepAdvances(pc.job, sh);
    } else if pc.CloseVictim? {
      VictimAdvances(sh, pc);
    }
  }

  lemma VictimAdvances(sh: Shared, pc: Pc)
    requires pc.CloseVictim? && PlaceOk(sh, pc) && ProceedFrom(pc, sh).Some?
    ensures var (pc', sh') := ProceedFrom(pc, sh).value;
            StagesLeft(pc') == StagesLeft(pc) && SweepLeft(pc', sh') < SweepLeft(pc, sh)
  {
    assert |Without(sh.pool, pc.k)| == |sh.pool| - 1;
  }

  lemma SweepAdvances(job: Job, sh: Shared)
    ensures StagesLeft(AfterSweep(job, sh).0) < JobStage(job)
  {
  }

  // ---------------------------------------------------------------------------
  // Giving up
  // ---------------------------------------------------------------------------

  /** On the way to a session. */
  predicate IsAcquiring(pc: Pc) {
    || pc.WantTransport? || pc.ReadTransport? || pc.WantLookup? || pc.Sweep? || pc.WantVictim? || pc.CloseVictim?
    || pc.WantDisplaced? || pc.CloseDisplaced? || pc.Connect? || pc.WantInsert? || pc.WantCandidate? || pc.CloseCandidate?
    || pc.WantRun?
  }

  /** The request, and whether this is its second attempt. */
  function Attempt(pc: Pc): (Request, bool)
    requires IsAcquiring(pc) || pc.Run?
  {
    if pc.WantTransport? || pc.ReadTransport? then (pc.req, false)
    else if pc.Sweep? || pc.WantVictim? || pc.CloseVictim? then (pc.job.req, pc.job.retry)
    else (pc.req, pc.retry)
  }

  /** Nothing pooled can be used, and the request may not create a session; or creating one fails. */
  predicate FindsNothing(pc: Pc, sh: Shared, a: Action)
    requires IsAcquiring(pc)
  {
    || a == ConnectFails
    || (&& !Attempt(pc).0.isCreate && a == Proceed
        && (pc.CloseDisplaced? || (pc.Sweep? && pc.job.ForLookup? && pc.job.req.key !in sh.pool)))
  }

  lemma AcquiringSays(pc: Pc, sh: Shared, a: Action)
    requires IsAcquiring(pc) && Local(pc, sh, a).Some?
    ensures var next := Local(pc, sh, a).value.0;
            if FindsNothing(pc, sh, a) then next.Idle?
            else (IsAcquiring(next) || next.Run?) && Attempt(next) == Attempt(pc)
  {
    match a
    case Proceed => AcquiringProceeds(pc, sh);
    case Acquire => AcquiringAcquires(pc, sh);
    case _ => AcquiringActs(pc, sh, a);
  }

  lemma AcquiringAcquires(pc: Pc, sh: Shared)
    requires IsAcquiring(pc) && Waits(pc).Some?
    ensures var next := Acquired(pc, sh); (IsAcquiring(next) || next.Run?) && Attempt(next) == Attempt(pc)
  {
  }

  lemma AcquiringActs(pc: Pc, sh: Shared, a: Action)
    requires IsAcquiring(pc) && Local(pc, sh, a).Some? && a != Proceed && a != Acquire
    ensures var next := Local(pc, sh, a).value.0;
            if a == ConnectFails then next.Idle? else IsAcquiring(next) && Attempt(next) == Attempt(pc)
  {
  }

  lemma AcquiringProceeds(pc: Pc, sh: Shared)
    requires IsAcquiring(pc) && ProceedFrom(pc, sh).Some?
    ensures var next := ProceedFrom(pc, sh).value.0;
            if FindsNothing(pc, sh, Proceed) then next.Idle?
            else (IsAcquiring(next) || next.Run?) && Attempt(next) == Attempt(pc)
  {
    if pc.Sweep? {
      SweepGoesOn(pc.job, sh);
    } else if pc.CloseVictim? {
      assert ProceedFrom(pc, sh).value.0 == Sweep(pc.job);
    } else if pc.CloseDisplaced? {
      DisplacedGoesOn(pc, sh);
    }
  }

  lemma DisplacedGoesOn(pc: Pc, sh: Shared)
    requires pc.CloseDisplaced?
    ensures ProceedFrom(pc, sh).Some?
    ensures ProceedFrom(pc, sh).value.0 == if pc.req.isCreate then Connect(pc.req, pc.retry) else Idle
  {
  }

  lemma SweepGoesOn(job: Job, sh: Shared)
    ensures var next := AfterSweep(job, sh).0;
            if job.ForLookup? && job.req.key !in sh.pool && !job.req.isCreate then next.Idle?
            else IsAcquiring(next) && Attempt(next) == (job.req, job.retry)
  {
  }

  /**
    A request gives up on the way to its session exactly if it finds nothing; by every
    other step it goes on, which it cannot do without end, so it comes to run.
  */
  lemma GivesUpIff(s: State, t: Tid, a: Action)
    requires Reachable(s) && Enabled(s, t, a) && IsAcquiring(s.pcs[t])
    ensures var pc, next := s.pcs[t], Apply(s, t, a).pcs[t];
            && (next.Idle? <==> FindsNothing(pc, s.sh, a))
            && (next.Idle? || ((IsAcquiring(next) || next.Run?) && Attempt(next) == Attempt(pc)))
  {
    AcquiringSays(s.pcs[t], s.sh, a);
  }
}
