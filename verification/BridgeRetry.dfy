/**
  When a request that has run on a session runs once more: if and only if its first run
  failed in a way that may be tried again and it may create sessions, and then always on
  another session, the first being closed and out of the pool.
*/
module BridgeRetry {
  import opened BridgePool
  import opened BridgeProtocol
  import opened Options

  // ---------------------------------------------------------------------------
  // Continuations of a request
  // ---------------------------------------------------------------------------

  datatype Move = Move(thread: Tid, action: Action)

  /** A move of any thread after which thread `t` is still busy. */
  ghost predicate Goes(s: State, t: Tid, m: Move) {
    t < |s.pcs| && Enabled(s, m.thread, m.action) && !Apply(s, m.thread, m.action).pcs[t].Idle?
  }

  /** Where moves lead, if each was possible when it came and `t` never became idle, its request never done. */
  ghost function After(s: State, t: Tid, moves: seq<Move>): Option<State>
    decreases |moves|
  {
    if moves == [] then Some(s)
    else if Goes(s, t, moves[0]) then After(Apply(s, moves[0].thread, moves[0].action), t, moves[1..])
    else None
  }

  lemma {:induction false} AfterConcat(s: State, t: Tid, a: seq<Move>, b: seq<Move>)
    requires After(s, t, a).Some?
    ensures After(s, t, a + b) == After(After(s, t, a).value, t, b)
    decreases |a|
  {
    if a == [] {
      assert a + b == b;
    } else {
      assert (a + b)[1..] == a[1..] + b;
      AfterConcat(Apply(s, a[0].thread, a[0].action), t, a[1..], b);
    }
  }

  lemma Then(s: State, t: Tid, a: seq<Move>, u: State, m: Move) returns (moves: seq<Move>)
    requires After(s, t, a) == Some(u) && Goes(u, t, m)
    ensures After(s, t, moves) == Some(Apply(u, m.thread, m.action))
  {
    moves := a + [m];
    AfterConcat(s, t, a, [m]);
    assert [m][1..] == [];
  }

  // ---------------------------------------------------------------------------
  // On another session
  // ---------------------------------------------------------------------------

  /** Closed, and nowhere in the pool. */
  ghost predicate Gone(sh: Shared, sid: Sid) {
    OutOfPool(sh, sid) && !sh.table[sid].open
  }

  predicate JobOnRetry(job: Job, req: Request, sid: Sid) {
    job.req == req && job.retry && (!job.ForLookup? ==> job.cand != sid)
  }

  /** Places of a second attempt, none of which points to the first session. */
  predicate OnRetry(pc: Pc, req: Request, sid: Sid) {
    match pc
    case WantLookup(r, retry) => r == req && retry
    case Sweep(job) => JobOnRetry(job, req, sid)
    case WantVictim(job, _, _) => JobOnRetry(job, req, sid)
    case CloseVictim(job, _, _) => JobOnRetry(job, req, sid)
    case WantDisplaced(r, retry, _) => r == req && retry
    case CloseDisplaced(r, retry, _) => r == req && retry
    case Connect(r, retry) => r == req && retry
    case WantInsert(r, retry, cand) => r == req && retry && cand != sid
    case WantCandidate(r, retry, _, existing) => r == req && retry && existing != sid
    case CloseCandidate(r, retry, _, existing) => r == req && retry && existing != sid
    case WantRun(r, retry, x, _) => r == req && retry && x != sid
    case Run(r, retry, x, _) => r == req && retry && x != sid
    case WantRemove(r, retry, _, _) => r == req && retry
    case Remove(r, retry, _, _) => r == req && retry
    case _ => false
  }

  /** Places between the first run and the second attempt. */
  predicate BeforeRetry(pc: Pc, req: Request, sid: Sid) {
    || pc == WantRemove(req, false, sid, true) || pc == Remove(req, false, sid, true)
    || pc == WantErase(req, sid) || pc == Erase(req, sid) || pc == WantFirst(req, sid) || pc == CloseFirst(req, sid)
  }

  ghost predicate Trail(sh: Shared, pc: Pc, req: Request, sid: Sid) {
    BeforeRetry(pc, req, sid) || (OnRetry(pc, req, sid) && Gone(sh, sid))
  }

  lemma CandidateIsOpen(sh: Shared, pc: Pc)
    requires PlaceOk(sh, pc) && Candidate(pc).Some?
    ensures Candidate(pc).value in sh.table && sh.table[Candidate(pc).value].open
  {
  }

  /** What is gone stays so, whoever moves. */
  lemma GoneStays(sh: Shared, pc: Pc, a: Action, sid: Sid)
    requires PlaceOk(sh, pc) && Local(pc, sh, a).Some? && Gone(sh, sid)
    ensures Gone(Local(pc, sh, a).value.1, sid)
  {
    StepReach(sh, pc, a);
    if Candidate(pc).Some? {
      CandidateIsOpen(sh, pc);
    }
  }

  lemma SweepOnRetry(sh: Shared, job: Job, req: Request, sid: Sid)
    requires JobOnRetry(job, req, sid) && Gone(sh, sid) && !AfterSweep(job, sh).0.Idle?
    ensures OnRetry(AfterSweep(job, sh).0, req, sid)
  {
  }

  lemma ProceedOnRetry(sh: Shared, pc: Pc, req: Request, sid: Sid)
    requires OnRetry(pc, req, sid) && Gone(sh, sid) && ProceedFrom(pc, sh).Some? && !ProceedFrom(pc, sh).value.0.Idle?
    ensures OnRetry(ProceedFrom(pc, sh).value.0, req, sid)
  {
    if pc.Sweep? {
      SweepOnRetry(sh, pc.job, req, sid);
    }
  }

  lemma StepOnRetry(sh: Shared, pc: Pc, a: Action, req: Request, sid: Sid)
    requires OnRetry(pc, req, sid) && Gone(sh, sid) && Local(pc, sh, a).Some? && !Local(pc, sh, a).value.0.Idle?
    ensures OnRetry(Local(pc, sh, a).value.0, req, sid)
  {
    if a == Proceed {
      ProceedOnRetry(sh, pc, req, sid);
    }
  }

  lemma StepBeforeRetry(sh: Shared, pc: Pc, a: Action, req: Request, sid: Sid)
    requires PlaceOk(sh, pc) && BeforeRetry(pc, req, sid) && Local(pc, sh, a).Some? && !Local(pc, sh, a).value.0.Idle?
    ensures Trail(Local(pc, sh, a).value.1, Local(pc, sh, a).value.0, req, sid)
  {
  }

  lemma TrailGoes(s: State, t: Tid, m: Move, req: Request, sid: Sid)
    requires Inv(s) && Goes(s, t, m) && Trail(s.sh, s.pcs[t], req, sid)
    ensures var u := Apply(s, m.thread, m.action); Trail(u.sh, u.pcs[t], req, sid)
  {
    var pc := s.pcs[m.thread];
    if Gone(s.sh, sid) {
      GoneStays(s.sh, pc, m.action, sid);
    }
    if m.thread == t {
      if BeforeRetry(pc, req, sid) {
        StepBeforeRetry(s.sh, pc, m.action, req, sid);
      } else {
        StepOnRetry(s.sh, pc, m.action, req, sid);
      }
    }
  }

  lemma {:induction false} TrailStays(s: State, t: Tid, moves: seq<Move>, req: Request, sid: Sid)
    requires Inv(s) && t < |s.pcs| && Trail(s.sh, s.pcs[t], req, sid) && After(s, t, moves).Some?
    ensures var u := After(s, t, moves).value; t < |u.pcs| && Trail(u.sh, u.pcs[t], req, sid)
    decreases |moves|
  {
    if moves != [] {
      var m := moves[0];
      TrailGoes(s, t, m, req, sid);
      StepKeeps(s, m.thread, m.action);
      TrailStays(Apply(s, m.thread, m.action), t, moves[1..], req, sid);
    }
  }

  // ---------------------------------------------------------------------------
  // No second run
  // ---------------------------------------------------------------------------

  /** On the way out after a run that is not followed by another. */
  predicate IsLeaving(pc: Pc) {
    (pc.WantRemove? || pc.Remove?) && !(pc.again && !pc.retry && pc.req.isCreate)
  }

  lemma LeavingGoes(s: State, t: Tid, m: Move)
    requires Goes(s, t, m) && IsLeaving(s.pcs[t])
    ensures IsLeaving(Apply(s, m.thread, m.action).pcs[t])
  {
  }

  lemma {:induction false} LeavingStays(s: State, t: Tid, moves: seq<Move>)
    requires t < |s.pcs| && IsLeaving(s.pcs[t]) && After(s, t, moves).Some?
    ensures var u := After(s, t, moves).value; t < |u.pcs| && IsLeaving(u.pcs[t])
    decreases |moves|
  {
    if moves != [] {
      LeavingGoes(s, t, moves[0]);
      LeavingStays(Apply(s, moves[0].thread, moves[0].action), t, moves[1..]);
    }
  }

  // ---------------------------------------------------------------------------
  // Letting the others out of their mutexes
  // ---------------------------------------------------------------------------

  predicate HoldsSession(pc: Pc) {
    pc.CloseVictim? || pc.CloseDisplaced? || pc.CloseCandidate? || pc.Run? || pc.CloseFirst? || pc.CloseMember?
  }

  lemma SessionLocks(pc: Pc, sid: Sid)
    ensures Session(sid) in Holds(pc) ==> HoldsSession(pc)
  {
  }

  /** The step by which a thread leaves a session's mutex. */
  function LeaveSession(pc: Pc): Action {
    if pc.Run? then RunEnds(false, false) else Proceed
  }

  lemma SessionIsLeft(sh: Shared, pc: Pc)
    requires HoldsSession(pc)
    ensures var next := Local(pc, sh, LeaveSession(pc));
            next.Some? && Holds(next.value.0) <= Holds(pc) && !HoldsSession(next.value.0)
  {
    if pc.Run? {
      assert Local(pc, sh, RunEnds(false, false)).value.0 == Idle;
    } else if pc.CloseVictim? || pc.CloseMember? {
      InnerIsLeft(sh, pc);
    } else {
      assert Holds(Local(pc, sh, Proceed).value.0) == {};
    }
  }

  lemma InnerIsLeft(sh: Shared, pc: Pc)
    requires pc.CloseVictim? || pc.CloseMember?
    ensures var next := Local(pc, sh, Proceed);
            next.Some? && Holds(next.value.0) <= Holds(pc) && !HoldsSession(next.value.0)
  {
  }

  /** `moves` lead from `s` to `u` without a step of `t`. */
  ghost predicate Waited(s: State, t: Tid, moves: seq<Move>, u: State) {
    && After(s, t, moves) == Some(u) && Inv(u) && |u.pcs| == |s.pcs| && t < |s.pcs| && u.pcs[t] == s.pcs[t]
  }

  ghost predicate IsWaiting(s: State, t: Tid) {
    Inv(s) && t < |s.pcs| && !s.pcs[t].Idle? && Holds(s.pcs[t]) == {}
  }

  lemma OtherMoves(s: State, t: Tid, v: Tid, a: Action)
    requires IsWaiting(s, t) && v < |s.pcs| && v != t && Enabled(s, v, a)
    ensures Goes(s, t, Move(v, a)) && IsWaiting(Apply(s, v, a), t) && Waited(s, t, [Move(v, a)], Apply(s, v, a))
    ensures forall u | 0 <= u < |s.pcs| && u != v :: Apply(s, v, a).pcs[u] == s.pcs[u]
  {
    StepKeeps(s, v, a);
    assert [Move(v, a)][1..] == [];
  }

  lemma WaitedTwice(s: State, t: Tid, a: seq<Move>, u: State, b: seq<Move>, w: State)
    requires Waited(s, t, a, u) && Waited(u, t, b, w)
    ensures Waited(s, t, a + b, w)
  {
    AfterConcat(s, t, a, b);
  }

  function Holders(pcs: seq<Pc>, t: Tid): set<Tid> {
    set v: Tid | 0 <= v < |pcs| && v != t && HoldsSession(pcs[v])
  }

  ghost predicate NobodyInSession(s: State, t: Tid) {
    forall v | 0 <= v < |s.pcs| && v != t :: !HoldsSession(s.pcs[v])
  }

  lemma {:induction false} LeaveSessions(s: State, t: Tid) returns (moves: seq<Move>, u: State)
    requires IsWaiting(s, t)
    ensures Waited(s, t, moves, u) && IsWaiting(u, t) && NobodyInSession(u, t)
    decreases |Holders(s.pcs, t)|
  {
    if NobodyInSession(s, t) {
      moves, u := [], s;
    } else {
      var v: Tid :| 0 <= v < |s.pcs| && v != t && HoldsSession(s.pcs[v]);
      var a := LeaveSession(s.pcs[v]);
      SessionIsLeft(s.sh, s.pcs[v]);
      OtherMoves(s, t, v, a);
      var next := Apply(s, v, a);
      assert Holders(next.pcs, t) == Holders(s.pcs, t) - {v};
      assert v in Holders(s.pcs, t);
      var rest;
      rest, u := LeaveSessions(next, t);
      WaitedTwice(s, t, [Move(v, a)], next, rest, u);
      moves := [Move(v, a)] + rest;
    }
  }

  function JobWork(job: Job): nat {
    if job.ForInsert? then 8 else 3
  }

  /** How much a thread inside the bridge mutex may still have to do there. */
  function Work(pc: Pc, sh: Shared): nat {
    match pc
    case Sweep(job) => JobWork(job) + 4 * |sh.pool|
    case WantVictim(job, _, _) => JobWork(job) + 4 * |sh.pool| - 1
    case CloseVictim(job, _, _) => JobWork(job) + 4 * |sh.pool| - 2
    case Reset(todo) => 3 + 4 * |todo|
    case WantMember(todo, _, _) => 2 + 4 * |todo|
    case CloseMember(todo, _, _) => 1 + 4 * |todo|
    case _ => 0
  }

  predicate OutsideBridge(pc: Pc) {
    Bridge !in Holds(pc) && !HoldsSession(pc) && !pc.WantReset?
  }

  lemma InsertWork(sh: Shared, req: Request, retry: bool, cand: Sid)
    requires |sh.pool| <= MAX_SESSIONS && req.key !in sh.pool
    ensures var next := Local(Sweep(ForInsert(req, retry, cand)), sh, Proceed);
            && next.Some? && Holds(next.value.0) == {Bridge}
            && Work(next.value.0, next.value.1) < Work(Sweep(ForInsert(req, retry, cand)), sh)
  {
    InsertIsLarger(sh.pool, req.key, cand);
  }

  lemma LookupLeaves(sh: Shared, req: Request, retry: bool)
    ensures var next := AfterSweep(ForLookup(req, retry), sh).0; Holds(next) == {} && OutsideBridge(next)
  {
  }

  lemma SweepLeaves(sh: Shared, job: Job)
    requires |sh.pool| <= MAX_SESSIONS && !(job.ForInsert? && job.req.key !in sh.pool)
    ensures var next := Local(Sweep(job), sh, Proceed); next.Some? && Holds(next.value.0) == {} && OutsideBridge(next.value.0)
  {
    assert Local(Sweep(job), sh, Proceed) == Some(AfterSweep(job, sh));
    if job.ForLookup? {
      LookupLeaves(sh, job.req, job.retry);
    }
  }

  lemma VictimWork(sh: Shared, job: Job, k: Key, victim: Sid)
    requires k in sh.pool
    ensures var next := Local(CloseVictim(job, k, victim), sh, Proceed);
            && next == Some((Sweep(job), Closed(sh, victim).(pool := Without(sh.pool, k))))
            && Work(next.value.0, next.value.1) < Work(CloseVictim(job, k, victim), sh)
  {
  }

  lemma MemberWork(sh: Shared, todo: set<Key>, k: Key, sid: Sid)
    requires k in todo
    ensures var next := Local(CloseMember(todo, k, sid), sh, Proceed);
            && next == Some((Reset(todo - {k}), Closed(sh, sid)))
            && Work(next.value.0, next.value.1) < Work(CloseMember(todo, k, sid), sh)
  {
    assert |todo - {k}| == |todo| - 1;
  }

  lemma SomeKey(keys: set<Key>) returns (k: Key)
    requires |keys| > 0
    ensures k in keys
  {
    k :| k in keys;
  }

  /** An action that takes at most a session's mutex and brings a thread closer to the end of the bridge mutex. */
  ghost predicate WorksOff(sh: Shared, pc: Pc, a: Action) {
    var next := Local(pc, sh, a);
    && next.Some? && (forall l | l in Holds(next.value.0) - Holds(pc) :: l.Session?)
    && (OutsideBridge(next.value.0) || (Bridge in Holds(next.value.0) && Work(next.value.0, next.value.1) < Work(pc, sh)))
  }

  lemma PickWork(sh: Shared, pc: Pc, k: Key)
    requires k in sh.pool && (pc.Sweep? || (pc.Reset? && k in pc.todo))
    ensures WorksOff(sh, pc, Pick(k))
  {
    if pc.Sweep? {
      assert Work(WantVictim(pc.job, k, sh.pool[k]), sh) < Work(pc, sh);
    }
  }

  lemma AcquireWork(sh: Shared, pc: Pc)
    requires PlaceOk(sh, pc) && (pc.WantVictim? || pc.WantMember?)
    ensures WorksOff(sh, pc, Acquire)
  {
  }

  lemma ClosingWork(sh: Shared, pc: Pc)
    requires PlaceOk(sh, pc) && (pc.CloseVictim? || pc.CloseMember?)
    ensures WorksOff(sh, pc, Proceed)
  {
    if pc.CloseVictim? {
      VictimWork(sh, pc.job, pc.k, pc.victim);
    } else {
      MemberWork(sh, pc.todo, pc.k, pc.sid);
    }
  }

  lemma EndingWork(sh: Shared, job: Job)
    requires |sh.pool| <= MAX_SESSIONS
    ensures WorksOff(sh, Sweep(job), Proceed)
  {
    if job.ForInsert? && job.req.key !in sh.pool {
      InsertWork(sh, job.req, job.retry, job.cand);
    } else {
      SweepLeaves(sh, job);
    }
  }

  lemma OutIsWork(sh: Shared, pc: Pc, next: Pc, sh': Shared)
    requires Local(pc, sh, Proceed) == Some((next, sh')) && Holds(next) == {} && OutsideBridge(next)
    ensures WorksOff(sh, pc, Proceed)
  {
  }

  lemma RemovingWork(sh: Shared, pc: Pc)
    requires pc.Remove?
    ensures WorksOff(sh, pc, Proceed)
  {
    OutIsWork(sh, pc, AfterRun(pc.req, pc.retry, pc.sid, pc.again), sh.(pool := WithoutSession(sh.pool, pc.req.key, pc.sid)));
  }

  lemma CancellingWork(sh: Shared, pc: Pc)
    requires pc.Cancel?
    ensures WorksOff(sh, pc, Proceed)
  {
    OutIsWork(sh, pc, Idle, Local(pc, sh, Proceed).value.1);
  }

  lemma ErasingWork(sh: Shared, pc: Pc)
    requires pc.Erase?
    ensures WorksOff(sh, pc, Proceed)
  {
    OutIsWork(sh, pc, WantFirst(pc.req, pc.sid), sh.(pool := WithoutSession(sh.pool, pc.req.key, pc.sid)));
  }

  lemma ResetWork(sh: Shared)
    ensures WorksOff(sh, Reset({}), Proceed)
  {
    assert Local(Reset({}), sh, Proceed).value.0 == Swapped;
  }

  lemma LeavingWork(sh: Shared, pc: Pc)
    requires pc.Remove? || pc.Erase? || pc.Cancel? || pc == Reset({})
    ensures WorksOff(sh, pc, Proceed)
  {
    if pc.Remove? {
      RemovingWork(sh, pc);
    } else if pc.Cancel? {
      CancellingWork(sh, pc);
    } else if pc.Erase? {
      ErasingWork(sh, pc);
    } else {
      ResetWork(sh);
    }
  }

  /** A thread inside the bridge mutex always has such a step. */
  lemma BridgeWork(sh: Shared, pc: Pc) returns (a: Action)
    requires PlaceOk(sh, pc) && Bridge in Holds(pc)
    ensures WorksOff(sh, pc, a)
  {
    a := Proceed;
    if pc.Sweep? {
      if |sh.pool| <= MAX_SESSIONS {
        EndingWork(sh, pc.job);
      } else {
        var k := SomeKey(sh.pool.Keys);
        a := Pick(k);
        PickWork(sh, pc, k);
      }
    } else if pc.Reset? && pc.todo != {} {
      var k := SomeKey(pc.todo);
      assert k in sh.pool.Keys;
      a := Pick(k);
      PickWork(sh, pc, k);
    } else if pc.WantVictim? || pc.WantMember? {
      a := Acquire;
      AcquireWork(sh, pc);
    } else if pc.CloseVictim? || pc.CloseMember? {
      ClosingWork(sh, pc);
    } else {
      LeavingWork(sh, pc);
    }
  }

  /** Nobody else is inside the bridge mutex or a session's. */
  ghost predicate OthersOutside(s: State, t: Tid, v: Tid) {
    forall u | 0 <= u < |s.pcs| && u != t && u != v :: Bridge !in Holds(s.pcs[u]) && !HoldsSession(s.pcs[u])
  }

  lemma FreeForBridge(s: State, t: Tid, v: Tid, a: Action)
    requires IsWaiting(s, t) && v < |s.pcs| && v != t && OthersOutside(s, t, v) && Local(s.pcs[v], s.sh, a).Some?
    requires forall l | l in Holds(Local(s.pcs[v], s.sh, a).value.0) - Holds(s.pcs[v]) :: l.Session? || l == Bridge
    ensures Enabled(s, v, a)
  {
    forall l | l in Holds(Local(s.pcs[v], s.sh, a).value.0) - Holds(s.pcs[v])
      ensures Free(s, v, l)
    {
      forall u | 0 <= u < |s.pcs| && u != v
        ensures l !in Holds(s.pcs[u])
      {
        if l.Session? {
          SessionLocks(s.pcs[u], l.sid);
        }
      }
    }
  }

  lemma {:induction false} LeaveBridge(s: State, t: Tid, v: Tid) returns (moves: seq<Move>, u: State)
    requires IsWaiting(s, t) && v < |s.pcs| && v != t && OthersOutside(s, t, v) && Bridge in Holds(s.pcs[v])
    ensures Waited(s, t, moves, u) && IsWaiting(u, t) && OutsideBridge(u.pcs[v])
    ensures forall w | 0 <= w < |s.pcs| && w != v :: u.pcs[w] == s.pcs[w]
    decreases Work(s.pcs[v], s.sh)
  {
    var a := BridgeWork(s.sh, s.pcs[v]);
    FreeForBridge(s, t, v, a);
    OtherMoves(s, t, v, a);
    var next := Apply(s, v, a);
    moves, u := [Move(v, a)], next;
    if Bridge in Holds(next.pcs[v]) {
      var rest;
      rest, u := LeaveBridge(next, t, v);
      WaitedTwice(s, t, [Move(v, a)], next, rest, u);
      moves := [Move(v, a)] + rest;
    }
  }

  ghost predicate NobodyInBridge(s: State, t: Tid) {
    forall v | 0 <= v < |s.pcs| && v != t :: Bridge !in Holds(s.pcs[v]) && !HoldsSession(s.pcs[v])
  }

  lemma LeaveBridges(s: State, t: Tid) returns (moves: seq<Move>, u: State)
    requires IsWaiting(s, t) && NobodyInSession(s, t)
    ensures Waited(s, t, moves, u) && IsWaiting(u, t) && NobodyInBridge(u, t)
  {
    if NobodyInBridge(s, t) {
      moves, u := [], s;
    } else {
      var v: Tid :| 0 <= v < |s.pcs| && v != t && Bridge in Holds(s.pcs[v]);
      assert OthersOutside(s, t, v);
      moves, u := LeaveBridge(s, t, v);
    }
  }

  /** Nobody else is inside any mutex. */
  ghost predicate Quiet(s: State, t: Tid) {
    t < |s.pcs| && forall v | 0 <= v < |s.pcs| && v != t :: Holds(s.pcs[v]) == {}
  }

  lemma OnlyTransportLeft(pc: Pc)
    requires Bridge !in Holds(pc) && !HoldsSession(pc)
    ensures Holds(pc) == if pc.ReadTransport? || pc.WantReset? || pc.Swapped? then {Transport} else {}
  {
  }

  lemma TransportIsLeft(s: State, t: Tid, v: Tid)
    requires IsWaiting(s, t) && v < |s.pcs| && v != t && NobodyInBridge(s, t)
    requires s.pcs[v].ReadTransport? || s.pcs[v].Swapped?
    ensures Enabled(s, v, Proceed) && Quiet(Apply(s, v, Proceed), t)
  {
    var u := Apply(s, v, Proceed);
    forall w | 0 <= w < |s.pcs| && w != t
      ensures Holds(u.pcs[w]) == {}
    {
      OnlyTransportLeft(s.pcs[w]);
      if w != v {
        assert Holds(s.pcs[w]) !! Holds(s.pcs[v]);
      }
    }
  }

  /** A thread waiting to reset the pool, brought to where it has. */
  lemma ResetIsDone(s: State, t: Tid, v: Tid) returns (moves: seq<Move>, u: State)
    requires IsWaiting(s, t) && v < |s.pcs| && v != t && NobodyInBridge(s, t) && s.pcs[v].WantReset?
    ensures Waited(s, t, moves, u) && IsWaiting(u, t) && NobodyInBridge(u, t) && !u.pcs[v].WantReset?
    ensures forall w | 0 <= w < |s.pcs| && w != v :: u.pcs[w] == s.pcs[w]
  {
    FreeForBridge(s, t, v, Acquire);
    OtherMoves(s, t, v, Acquire);
    var next := Apply(s, v, Acquire);
    var rest;
    rest, u := LeaveBridge(next, t, v);
    moves := [Move(v, Acquire)] + rest;
    WaitedTwice(s, t, [Move(v, Acquire)], next, rest, u);
  }

  lemma LeaveTransport(s: State, t: Tid) returns (moves: seq<Move>, u: State)
    requires IsWaiting(s, t) && NobodyInBridge(s, t)
    ensures Waited(s, t, moves, u) && IsWaiting(u, t) && Quiet(u, t)
  {
    moves, u := [], s;
    if !Quiet(s, t) {
      var v: Tid :| 0 <= v < |s.pcs| && v != t && Holds(s.pcs[v]) != {};
      OnlyTransportLeft(s.pcs[v]);
      if s.pcs[v].WantReset? {
        moves, u := ResetIsDone(s, t, v);
        OnlyTransportLeft(u.pcs[v]);
      }
      moves, u := LeaveLast(s, t, moves, u, v);
    }
  }

  lemma LeaveLast(s: State, t: Tid, before: seq<Move>, w: State, v: Tid) returns (moves: seq<Move>, u: State)
    requires Waited(s, t, before, w) && IsWaiting(w, t) && NobodyInBridge(w, t)
    requires v < |w.pcs| && v != t && !w.pcs[v].WantReset?
    requires forall x | 0 <= x < |w.pcs| && x != t && x != v :: Holds(w.pcs[x]) == {} || Holds(w.pcs[x]) == {Transport}
    requires Holds(w.pcs[v]) == {} ==> Quiet(w, t)
    ensures Waited(s, t, moves, u) && IsWaiting(u, t) && Quiet(u, t)
  {
    OnlyTransportLeft(w.pcs[v]);
    if Holds(w.pcs[v]) == {} {
      moves, u := before, w;
    } else {
      TransportIsLeft(w, t, v);
      OtherMoves(w, t, v, Proceed);
      u := Apply(w, v, Proceed);
      WaitedTwice(s, t, before, w, [Move(v, Proceed)], u);
      moves := before + [Move(v, Proceed)];
    }
  }

  /** While a thread waits, all the others can get out of their mutexes. */
  lemma Quiesce(s: State, t: Tid) returns (moves: seq<Move>, u: State)
    requires IsWaiting(s, t)
    ensures Waited(s, t, moves, u) && IsWaiting(u, t) && Quiet(u, t)
  {
    var a, s1 := LeaveSessions(s, t);
    var b, s2 := LeaveBridges(s1, t);
    var c, s3 := LeaveTransport(s2, t);
    WaitedTwice(s, t, a, s1, b, s2);
    WaitedTwice(s, t, a + b, s2, c, s3);
    moves, u := (a + b) + c, s3;
  }

  // ---------------------------------------------------------------------------
  // The second attempt, undisturbed
  // ---------------------------------------------------------------------------

  /** `moves` have led from `s` to the thread at `pc`, nobody else inside a mutex. */
  ghost predicate Led(s: State, t: Tid, moves: seq<Move>, pc: Pc, sh: Shared) {
    && After(s, t, moves).Some?
    && var u := After(s, t, moves).value;
    && Quiet(u, t) && u.pcs[t] == pc && u.sh == sh && !pc.Idle?
  }

  lemma Lead(s: State, t: Tid, before: seq<Move>, pc: Pc, sh: Shared, a: Action, pc': Pc, sh': Shared) returns (moves: seq<Move>)
    requires Led(s, t, before, pc, sh) && Local(pc, sh, a) == Some((pc', sh')) && !pc'.Idle?
    ensures Led(s, t, moves, pc', sh')
  {
    var u := After(s, t, before).value;
    moves := Then(s, t, before, u, Move(t, a));
  }

  lemma LeadOut(s: State, t: Tid, before: seq<Move>, req: Request, sid: Sid, sh: Shared)
    returns (moves: seq<Move>, sh': Shared)
    requires Led(s, t, before, WantErase(req, sid), sh)
    ensures Led(s, t, moves, WantLookup(req, true), sh')
  {
    var erased := sh.(pool := WithoutSession(sh.pool, req.key, sid));
    moves := Lead(s, t, before, WantErase(req, sid), sh, Acquire, Erase(req, sid), sh);
    moves := Lead(s, t, moves, Erase(req, sid), sh, Proceed, WantFirst(req, sid), erased);
    moves := Lead(s, t, moves, WantFirst(req, sid), erased, Acquire, CloseFirst(req, sid), erased);
    sh' := Closed(erased, sid);
    moves := Lead(s, t, moves, CloseFirst(req, sid), erased, Proceed, WantLookup(req, true), sh');
  }

  lemma {:induction false} SweepOut(s: State, t: Tid, before: seq<Move>, job: Job, sh: Shared)
    returns (moves: seq<Move>, sh': Shared)
    requires Led(s, t, before, Sweep(job), sh)
    ensures Led(s, t, moves, Sweep(job), sh') && sh'.pool == map[]
    decreases |sh.pool|
  {
    if |sh.pool| == 0 {
      moves, sh' := before, sh;
    } else {
      var k := SomeKey(sh.pool.Keys);
      var victim := sh.pool[k];
      var swept := Closed(sh, victim).(pool := Without(sh.pool, k));
      moves := Lead(s, t, before, Sweep(job), sh, Pick(k), WantVictim(job, k, victim), sh);
      moves := Lead(s, t, moves, WantVictim(job, k, victim), sh, Acquire, CloseVictim(job, k, victim), sh);
      moves := Lead(s, t, moves, CloseVictim(job, k, victim), sh, Proceed, Sweep(job), swept);
      moves, sh' := SweepOut(s, t, moves, job, swept);
    }
  }

  lemma {:induction false} Unused(ids: set<Sid>) returns (sid: Sid)
    ensures forall x | x in ids :: x < sid
  {
    if |ids| == 0 {
      sid := 0;
    } else {
      var x := SomeSid(ids);
      sid := Unused(ids - {x});
      sid := if sid <= x then x + 1 else sid;
      assert forall y | y in ids :: y == x || y in ids - {x};
    }
  }

  lemma SomeSid(ids: set<Sid>) returns (x: Sid)
    requires |ids| > 0
    ensures x in ids
  {
    x :| x in ids;
  }

  lemma LeadToConnected(s: State, t: Tid, before: seq<Move>, req: Request, sh: Shared)
    returns (moves: seq<Move>, sid: Sid, sh': Shared)
    requires Led(s, t, before, WantLookup(req, true), sh) && req.isCreate
    ensures Led(s, t, moves, WantInsert(req, true, sid), sh') && sh'.pool == map[]
  {
    var job := ForLookup(req, true);
    moves := Lead(s, t, before, WantLookup(req, true), sh, Acquire, Sweep(job), sh);
    var empty;
    moves, empty := SweepOut(s, t, moves, job, sh);
    moves := Lead(s, t, moves, Sweep(job), empty, Proceed, Connect(req, true), empty);
    sid := Unused(empty.table.Keys);
    assert sid !in empty.table.Keys;
    sh' := empty.(table := empty.table[sid := Info(req.key, req.account, true, false)]);
    moves := Lead(s, t, moves, Connect(req, true), empty, ConnectWorks(sid), WantInsert(req, true, sid), sh');
  }

  lemma LeadToRun(s: State, t: Tid, before: seq<Move>, req: Request, sid: Sid, sh: Shared) returns (moves: seq<Move>, sh': Shared)
    requires Led(s, t, before, WantInsert(req, true, sid), sh) && sh.pool == map[]
    ensures Led(s, t, moves, Run(req, true, sid, Connected), sh')
  {
    var insert, trim := ForInsert(req, true, sid), AfterInsert(req, true, sid);
    sh' := sh.(pool := sh.pool[req.key := sid]);
    moves := Lead(s, t, before, WantInsert(req, true, sid), sh, Acquire, Sweep(insert), sh);
    moves := Lead(s, t, moves, Sweep(insert), sh, Proceed, Sweep(trim), sh');
    moves := Lead(s, t, moves, Sweep(trim), sh', Proceed, WantRun(req, true, sid, Connected), sh');
    moves := Lead(s, t, moves, WantRun(req, true, sid, Connected), sh', Acquire, Run(req, true, sid, Connected), sh');
  }

  lemma LeadToErase(s: State, t: Tid, before: seq<Move>, pc: Pc, req: Request, sid: Sid, sh: Shared)
    returns (moves: seq<Move>, sh': Shared)
    requires Led(s, t, before, pc, sh) && req.isCreate
    requires pc == WantErase(req, sid) || pc == WantRemove(req, false, sid, true)
    ensures Led(s, t, moves, WantErase(req, sid), sh')
  {
    moves, sh' := before, sh;
    if pc.WantRemove? {
      moves := Lead(s, t, moves, pc, sh, Acquire, Remove(req, false, sid, true), sh);
      sh' := sh.(pool := WithoutSession(sh.pool, req.key, sid));
      moves := Lead(s, t, moves, Remove(req, false, sid, true), sh, Proceed, WantErase(req, sid), sh');
    }
  }

  /** From the end of a first run that may be tried again, a second run is within reach. */
  lemma SecondRun(s: State, t: Tid, req: Request, sid: Sid) returns (moves: seq<Move>)
    requires IsWaiting(s, t) && req.isCreate
    requires s.pcs[t] == WantErase(req, sid) || s.pcs[t] == WantRemove(req, false, sid, true)
    ensures After(s, t, moves).Some? && t < |After(s, t, moves).value.pcs| && After(s, t, moves).value.pcs[t].Run?
  {
    var before, quiet := Quiesce(s, t);
    var sh, other := quiet.sh, sid;
    moves := before;
    moves, sh := LeadToErase(s, t, moves, s.pcs[t], req, sid, sh);
    moves, sh := LeadOut(s, t, moves, req, sid, sh);
    moves, other, sh := LeadToConnected(s, t, moves, req, sh);
    moves, sh := LeadToRun(s, t, moves, req, other, sh);
  }

  // ---------------------------------------------------------------------------
  // Exactly when
  // ---------------------------------------------------------------------------

  ghost predicate RunsAfter(s: State, t: Tid, moves: seq<Move>) {
    After(s, t, moves).Some? && t < |After(s, t, moves).value.pcs| && After(s, t, moves).value.pcs[t].Run?
  }

  /** The request of a busy thread can come to run. */
  ghost predicate CanRun(s: State, t: Tid) {
    t < |s.pcs| && !s.pcs[t].Idle?
    && exists moves :: RunsAfter(s, t, moves)
  }

  lemma RunEndsSays(sh: Shared, pc: Pc, remove: bool, again: bool)
    requires pc.Run?
    ensures var next := Local(pc, sh, RunEnds(remove, again));
            && next.Some? && Holds(next.value.0) == {}
            && (if again && !pc.retry && pc.req.isCreate then
                  next.value.0 == (if remove then WantRemove(pc.req, false, pc.sid, true) else WantErase(pc.req, pc.sid))
                else next.value.0.Idle? || IsLeaving(next.value.0))
  {
  }

  lemma RunIsOver(s: State, t: Tid, remove: bool, again: bool)
    requires Inv(s) && t < |s.pcs| && s.pcs[t].Run?
    ensures Enabled(s, t, RunEnds(remove, again)) && Inv(Apply(s, t, RunEnds(remove, again)))
    ensures var pc, next := s.pcs[t], Apply(s, t, RunEnds(remove, again)).pcs[t];
            && Holds(next) == {}
            && (if again && !pc.retry && pc.req.isCreate then
                  next == (if remove then WantRemove(pc.req, false, pc.sid, true) else WantErase(pc.req, pc.sid))
                else next.Idle? || IsLeaving(next))
  {
    RunEndsSays(s.sh, s.pcs[t], remove, again);
    StepKeeps(s, t, RunEnds(remove, again));
  }

  lemma ReachableIsInv(s: State)
    requires Reachable(s)
    ensures Inv(s)
  {
    var run :| IsRun(run) && run[|run| - 1] == s;
    RunKeeps(run);
  }

  /**
    A request whose run ends can come to run once more, if and only if the run failed in a
    way that may be tried again, was the first, and the request may create sessions.
  */
  lemma RunsAgainIff(s: State, t: Tid, remove: bool, again: bool)
    requires Reachable(s) && t < |s.pcs| && s.pcs[t].Run?
    ensures Enabled(s, t, RunEnds(remove, again))
    ensures CanRun(Apply(s, t, RunEnds(remove, again)), t) <==> again && !s.pcs[t].retry && s.pcs[t].req.isCreate
  {
    ReachableIsInv(s);
    RunIsOver(s, t, remove, again);
    var u := Apply(s, t, RunEnds(remove, again));
    if again && !s.pcs[t].retry && s.pcs[t].req.isCreate {
      var moves := SecondRun(u, t, s.pcs[t].req, s.pcs[t].sid);
      assert RunsAfter(u, t, moves);
    } else if !u.pcs[t].Idle? {
      forall moves | After(u, t, moves).Some?
        ensures !RunsAfter(u, t, moves)
      {
        LeavingStays(u, t, moves);
      }
    }
  }

  /** A run of the same request on another session, this one closed and out of the pool. */
  ghost predicate IsSecondRun(sh: Shared, pc: Pc, req: Request, sid: Sid) {
    && pc.Run? && pc.req == req && pc.retry && pc.sid != sid
    && sid in sh.table && !sh.table[sid].open && forall k | k in sh.pool :: sh.pool[k] != sid
  }

  lemma TrailRuns(sh: Shared, pc: Pc, req: Request, sid: Sid)
    requires Trail(sh, pc, req, sid) && pc.Run?
    ensures IsSecondRun(sh, pc, req, sid)
  {
  }

  lemma LeavingIsNoRun(pc: Pc)
    requires IsLeaving(pc)
    ensures !pc.Run?
  {
  }

  /** And whenever it does, it is on another session, the first one closed and out of the pool. */
  lemma RunsAgainAfresh(s: State, t: Tid, remove: bool, again: bool, moves: seq<Move>)
    requires Reachable(s) && t < |s.pcs| && s.pcs[t].Run? && Enabled(s, t, RunEnds(remove, again))
    requires var u := Apply(s, t, RunEnds(remove, again)); !u.pcs[t].Idle? && RunsAfter(u, t, moves)
    ensures var end := After(Apply(s, t, RunEnds(remove, again)), t, moves).value;
            IsSecondRun(end.sh, end.pcs[t], s.pcs[t].req, s.pcs[t].sid)
  {
    ReachableIsInv(s);
    RunIsOver(s, t, remove, again);
    var pc, u := s.pcs[t], Apply(s, t, RunEnds(remove, again));
    var end := After(u, t, moves).value;
    if again && !pc.retry && pc.req.isCreate {
      TrailStays(u, t, moves, pc.req, pc.sid);
      TrailRuns(end.sh, end.pcs[t], pc.req, pc.sid);
    } else {
      LeavingStays(u, t, moves);
      LeavingIsNoRun(end.pcs[t]);
    }
  }

  // ---------------------------------------------------------------------------
  // A session whose connection is broken
  // ---------------------------------------------------------------------------

  /** Bound to take a session out of the pool. */
  predicate IsRemoving(pc: Pc, sid: Sid) {
    (pc.WantRemove? || pc.Remove?) && pc.sid == sid
  }

  ghost predicate IsDropped(sh: Shared, pc: Pc, sid: Sid) {
    sid in sh.table && !sh.table[sid].open && (IsRemoving(pc, sid) || OutOfPool(sh, sid))
  }

  lemma StepDrops(sh: Shared, pc: Pc, a: Action, sid: Sid)
    requires PoolOk(sh) && PlaceOk(sh, pc) && IsRemoving(pc, sid) && Local(pc, sh, a).Some?
    ensures IsDropped(Local(pc, sh, a).value.1, Local(pc, sh, a).value.0, sid)
  {
    if a == Proceed {
      Unpooled(sh, pc.req, sid);
    }
  }

  lemma StaysDropped(s: State, t: Tid, m: Move, sid: Sid)
    requires Inv(s) && t < |s.pcs| && IsDropped(s.sh, s.pcs[t], sid) && Enabled(s, m.thread, m.action)
    ensures var u := Apply(s, m.thread, m.action); IsDropped(u.sh, u.pcs[t], sid)
  {
    var u := Apply(s, m.thread, m.action);
    if !IsRemoving(s.pcs[t], sid) {
      GoneStays(s.sh, s.pcs[m.thread], m.action, sid);
    } else if m.thread == t {
      StepDrops(s.sh, s.pcs[t], m.action, sid);
    } else {
      StepKeeps(s, m.thread, m.action);
      assert PlaceOk(u.sh, u.pcs[t]);
    }
  }

  /** Where moves of any threads lead. */
  ghost function Following(s: State, moves: seq<Move>): Option<State>
    decreases |moves|
  {
    if moves == [] then Some(s)
    else if Enabled(s, moves[0].thread, moves[0].action) then Following(Apply(s, moves[0].thread, moves[0].action), moves[1..])
    else None
  }

  lemma {:induction false} StaysDroppedOn(s: State, t: Tid, moves: seq<Move>, sid: Sid)
    requires Inv(s) && t < |s.pcs| && IsDropped(s.sh, s.pcs[t], sid) && Following(s, moves).Some?
    ensures var u := Following(s, moves).value; t < |u.pcs| && IsDropped(u.sh, u.pcs[t], sid)
    decreases |moves|
  {
    if moves != [] {
      var m := moves[0];
      StaysDropped(s, t, m, sid);
      StepKeeps(s, m.thread, m.action);
      StaysDroppedOn(Apply(s, m.thread, m.action), t, moves[1..], sid);
    }
  }

  /**
    When a run has broken its connection its session is closed at once and for good, and
    out of the pool for good once its thread is past removing it, tried again or not.
  */
  lemma BrokenIsDropped(s: State, t: Tid, again: bool, moves: seq<Move>)
    requires Reachable(s) && t < |s.pcs| && s.pcs[t].Run? && Following(Apply(s, t, RunEnds(true, again)), moves).Some?
    ensures var u := Following(Apply(s, t, RunEnds(true, again)), moves).value;
            t < |u.pcs| && IsDropped(u.sh, u.pcs[t], s.pcs[t].sid)
  {
    ReachableIsInv(s);
    RunIsOver(s, t, true, again);
    var u := Apply(s, t, RunEnds(true, again));
    assert PlaceOk(s.sh, s.pcs[t]);
    BrokenIsClosed(s.sh, s.pcs[t], again);
    StaysDroppedOn(u, t, moves, s.pcs[t].sid);
  }

  /** A run that has not leaves everything as it is, and is the end of its request unless it may be tried again. */
  lemma OtherwiseItStays(s: State, t: Tid, again: bool)
    requires Reachable(s) && t < |s.pcs| && s.pcs[t].Run?
    ensures var pc, u := s.pcs[t], Apply(s, t, RunEnds(false, again));
            u.sh == s.sh && (u.pcs[t].Idle? <==> !again || pc.retry || !pc.req.isCreate)
  {
  }

  lemma BrokenIsClosed(sh: Shared, pc: Pc, again: bool)
    requires pc.Run? && PlaceOk(sh, pc)
    ensures var next := Local(pc, sh, RunEnds(true, again));
            next.Some? && IsDropped(next.value.1, next.value.0, pc.sid)
  {
  }
}
