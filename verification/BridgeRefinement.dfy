/**
  The pool as it runs against the pool as the protocol has it: each critical section of
  BridgePool, performed on the objects, is a sequence of a thread's steps in
  BridgeProtocol on the numbers that stand for them.
*/
module BridgeRefinement {
  import opened Options
  import opened BridgePool
  import opened BridgeProtocol

  // ---------------------------------------------------------------------------
  // Objects and their numbers
  // ---------------------------------------------------------------------------

  /** The object is in the state the protocol's table has for its number. */
  ghost predicate Stands(s: BridgePool.Session, number: map<BridgePool.Session, Sid>, sh: Shared)
    reads s
  {
    && s in number && number[s] in sh.table
    && var info := sh.table[number[s]];
    && info.account == s.account && info.open == s.open && info.cancelled == s.cancelRequested
  }

  ghost predicate Represents(p: Pool, number: map<BridgePool.Session, Sid>, sh: Shared)
    reads p, p.sessions.Values
  {
    && p.sessions.Keys == sh.pool.Keys
    && forall k | k in p.sessions :: Stands(p.sessions[k], number, sh) && sh.pool[k] == number[p.sessions[k]]
  }

  ghost predicate OneToOne(number: map<BridgePool.Session, Sid>) {
    forall s, t | s in number && t in number && number[s] == number[t] :: s == t
  }

  // ---------------------------------------------------------------------------
  // Steps of one thread
  // ---------------------------------------------------------------------------

  /** A step takes no mutex but some of these. */
  predicate TakesOf(pc: Pc, pc': Pc, locks: set<Lock>) {
    Holds(pc') - Holds(pc) <= locks
  }

  /** One step of a thread that may take some mutexes. */
  function Move(pc: Pc, sh: Shared, a: Action, locks: set<Lock>): Option<(Pc, Shared)> {
    var next := Local(pc, sh, a);
    if next.Some? && TakesOf(pc, next.value.0, locks) then next else None
  }

  /** Where a thread's own steps lead, one after the other, if it takes only the mutexes given. */
  function Steps(pc: Pc, sh: Shared, actions: seq<Action>, locks: set<Lock>): Option<(Pc, Shared)>
    decreases |actions|
  {
    if actions == [] then Some((pc, sh))
    else
      var next := Move(pc, sh, actions[0], locks);
      if next.None? then None else Steps(next.value.0, next.value.1, actions[1..], locks)
  }

  /** The step that ends a sweep takes no mutex. */
  lemma SweepEndTakesNone(job: Job, sh: Shared, locks: set<Lock>)
    ensures Move(Sweep(job), sh, Proceed, locks) == Local(Sweep(job), sh, Proceed)
  {
    assert Holds(AfterSweep(job, sh).0) <= {Bridge};
  }

  /** The mutexes of the pooled sessions. */
  function PoolLocks(sh: Shared): set<Lock> {
    set k | k in sh.pool :: Session(sh.pool[k])
  }

  /**
    What such steps mean: from a reachable state in which no other thread is inside any of
    those mutexes, the thread takes them all without interruption, to a reachable state.
  */
  lemma {:induction false} StepsReach(s: State, t: Tid, actions: seq<Action>, locks: set<Lock>, pc: Pc, sh: Shared)
    requires Reachable(s) && t < |s.pcs| && Steps(s.pcs[t], s.sh, actions, locks) == Some((pc, sh))
    requires forall l | l in locks :: Free(s, t, l)
    ensures Reachable(State(sh, s.pcs[t := pc]))
    decreases |actions|
  {
    if actions == [] {
      assert s.pcs[t := pc] == s.pcs;
      assert s == State(sh, s.pcs[t := pc]);
    } else {
      assert Enabled(s, t, actions[0]);
      var s' := Apply(s, t, actions[0]);
      NextIsReachable(s, s', t, actions[0]);
      StepsReach(s', t, actions[1..], locks, pc, sh);
      assert s'.pcs[t := pc] == s.pcs[t := pc];
    }
  }

  lemma NextIsReachable(s: State, s': State, t: Tid, a: Action)
    requires Reachable(s) && Enabled(s, t, a) && s' == Apply(s, t, a)
    ensures Reachable(s')
  {
    assert Next(s, s');
    RunGoesOn(s, s');
  }

  lemma RunGoesOn(s: State, s': State)
    requires Reachable(s) && Next(s, s')
    ensures Reachable(s')
  {
    var run :| IsRun(run) && run[|run| - 1] == s;
    var longer := run + [s'];
    assert longer[..|longer| - 1] == run && longer[|longer| - 2] == s;
    assert IsRun(longer) && longer[|longer| - 1] == s';
  }

  lemma {:induction false} StepsConcat(pc: Pc, sh: Shared, a: seq<Action>, b: seq<Action>, locks: set<Lock>)
    requires Steps(pc, sh, a, locks).Some?
    ensures Steps(pc, sh, a + b, locks) == var (pc', sh') := Steps(pc, sh, a, locks).value; Steps(pc', sh', b, locks)
    decreases |a|
  {
    if a == [] {
      assert a + b == b;
    } else {
      var next := Local(pc, sh, a[0]).value;
      assert (a + b)[1..] == a[1..] + b;
      StepsConcat(next.0, next.1, a[1..], b, locks);
    }
  }

  lemma Then(pc: Pc, sh: Shared, a: seq<Action>, pc': Pc, sh': Shared, b: seq<Action>, locks: set<Lock>)
    requires Steps(pc, sh, a, locks) == Some((pc', sh'))
    ensures Steps(pc, sh, a + b, locks) == Steps(pc', sh', b, locks)
  {
    StepsConcat(pc, sh, a, b, locks);
  }

  lemma ThenOne(pc: Pc, sh: Shared, a: seq<Action>, pc': Pc, sh': Shared, last: Action, locks: set<Lock>)
    returns (actions: seq<Action>)
    requires Steps(pc, sh, a, locks) == Some((pc', sh'))
    ensures Steps(pc, sh, actions, locks) == Move(pc', sh', last, locks)
  {
    actions := a + [last];
    StepsConcat(pc, sh, a, [last], locks);
    OneStep(pc', sh', last, locks);
  }

  lemma OneStep(pc: Pc, sh: Shared, a: Action, locks: set<Lock>)
    ensures Steps(pc, sh, [a], locks) == Move(pc, sh, a, locks)
  {
    assert [a][1..] == [];
  }

  lemma ThreeSteps(pc: Pc, sh: Shared, a: Action, b: Action, c: Action, locks: set<Lock>)
    requires Move(pc, sh, a, locks).Some?
    requires var (pc1, sh1) := Move(pc, sh, a, locks).value; Move(pc1, sh1, b, locks).Some?
    ensures var (pc1, sh1) := Move(pc, sh, a, locks).value;
            var (pc2, sh2) := Move(pc1, sh1, b, locks).value;
            Steps(pc, sh, [a, b, c], locks) == Move(pc2, sh2, c, locks)
  {
    var (pc1, sh1) := Move(pc, sh, a, locks).value;
    var (pc2, sh2) := Move(pc1, sh1, b, locks).value;
    assert [a, b, c][1..] == [b, c] && [b, c][1..] == [c];
    OneStep(pc2, sh2, c, locks);
  }

  /** The shared data after the sessions under some keys are closed and dropped. */
  function Evicted(sh: Shared, keys: set<Key>): Shared
    requires keys <= sh.pool.Keys
  {
    var victims := set k | k in keys :: sh.pool[k];
    Shared(sh.pool - keys,
           map sid | sid in sh.table :: if sid in victims then sh.table[sid].(open := false) else sh.table[sid])
  }

  lemma EvictOne(job: Job, sh: Shared, k: Key, locks: set<Lock>) returns (actions: seq<Action>)
    requires PoolOk(sh) && k in sh.pool && Session(sh.pool[k]) in locks
    ensures Steps(Sweep(job), sh, actions, locks) == Some((Sweep(job), Evicted(sh, {k})))
  {
    actions := [Pick(k), Acquire, Proceed];
    var victim := sh.pool[k];
    assert Move(Sweep(job), sh, Pick(k), locks) == Some((WantVictim(job, k, victim), sh));
    assert Move(WantVictim(job, k, victim), sh, Acquire, locks) == Some((CloseVictim(job, k, victim), sh));
    ThreeSteps(Sweep(job), sh, Pick(k), Acquire, Proceed, locks);
    var after := Closed(sh, victim).(pool := Without(sh.pool, k));
    assert Move(CloseVictim(job, k, victim), sh, Proceed, locks) == Some((Sweep(job), after));
    assert after.table == Evicted(sh, {k}).table;
    assert after.pool == Evicted(sh, {k}).pool;
  }

  lemma EvictRest(sh: Shared, k: Key, rest: set<Key>)
    requires PoolOk(sh) && k in sh.pool && rest <= sh.pool.Keys && k !in rest
    ensures rest <= Evicted(sh, {k}).pool.Keys && PoolOk(Evicted(sh, {k}))
    ensures Evicted(Evicted(sh, {k}), rest) == Evicted(sh, rest + {k})
  {
    var once := Evicted(sh, {k});
    assert Evicted(once, rest).pool == Evicted(sh, rest + {k}).pool;
    assert Evicted(once, rest).table == Evicted(sh, rest + {k}).table;
  }

  lemma FewerLocks(sh: Shared, keys: set<Key>)
    requires keys <= sh.pool.Keys
    ensures PoolLocks(Evicted(sh, keys)) <= PoolLocks(sh)
  {
  }

  /** A sweep can evict any sessions, one after the other. */
  lemma {:induction false} SweepEvicts(job: Job, sh: Shared, keys: set<Key>, locks: set<Lock>)
    returns (actions: seq<Action>)
    requires PoolOk(sh) && keys <= sh.pool.Keys && PoolLocks(sh) <= locks
    ensures Steps(Sweep(job), sh, actions, locks) == Some((Sweep(job), Evicted(sh, keys)))
    decreases |keys|
  {
    if keys == {} {
      actions := [];
      assert Evicted(sh, {}).pool == sh.pool && Evicted(sh, {}).table == sh.table;
    } else {
      var k :| k in keys;
      var rest := keys - {k};
      var first := EvictOne(job, sh, k, locks);
      EvictRest(sh, k, rest);
      FewerLocks(sh, {k});
      var more := SweepEvicts(job, Evicted(sh, {k}), rest, locks);
      actions := first + more;
      Then(Sweep(job), sh, first, Sweep(job), Evicted(sh, {k}), more, locks);
      assert rest + {k} == keys;
    }
  }

  lemma EvictedIsOk(sh: Shared, keys: set<Key>)
    requires PoolOk(sh) && keys <= sh.pool.Keys
    ensures PoolOk(Evicted(sh, keys))
  {
  }

  lemma EvictedInfo(sh: Shared, keys: set<Key>, k: Key)
    requires PoolOk(sh) && keys <= sh.pool.Keys && k in sh.pool
    ensures var sid := sh.pool[k];
            Evicted(sh, keys).table[sid] == if k in keys then sh.table[sid].(open := false) else sh.table[sid]
  {
    var sid := sh.pool[k];
    if sid in (set j | j in keys :: sh.pool[j]) {
      var j :| j in keys && sh.pool[j] == sid;
      assert sh.table[sid].key == j && sh.table[sid].key == k;
    }
  }

  // ---------------------------------------------------------------------------
  // Sweeping
  // ---------------------------------------------------------------------------

  /** The sweeps a critical section performs: of stale sessions, if a time is given, and down to the bound. */
  method PurgeAndTrim(p: Pool, now: Option<int>)
    requires p.Valid()
    modifies p, p.sessions.Values`open
    ensures p.Valid() && |p.sessions| <= MAX_SESSIONS
    ensures p.sessions.Keys <= old(p.sessions).Keys && forall k | k in p.sessions :: p.sessions[k] == old(p.sessions)[k]
    ensures forall k | k in old(p.sessions) :: old(p.sessions)[k].open == (old(p.sessions[k].open) && k in p.sessions)
  {
    if now.Some? {
      p.PurgeStale(now.value);
    }
    p.Trim();
  }

  lemma KeysLeft(sh: Shared, keys: set<Key>, left: set<Key>)
    requires PoolOk(sh) && left <= sh.pool.Keys && keys == sh.pool.Keys - left
    ensures Evicted(sh, keys).pool.Keys == left
  {
  }

  /** They are evictions of the protocol's sweep. */
  method SweepRefines(
    p: Pool, now: Option<int>, ghost number: map<BridgePool.Session, Sid>, ghost sh: Shared, ghost job: Job,
    ghost locks: set<Lock>)
    returns (ghost actions: seq<Action>, ghost keys: set<Key>)
    requires p.Valid() && Represents(p, number, sh) && PoolOk(sh) && PoolLocks(sh) <= locks
    modifies p, p.sessions.Values`open
    ensures p.Valid() && |p.sessions| <= MAX_SESSIONS
    ensures p.sessions.Keys <= old(p.sessions).Keys && forall k | k in p.sessions :: p.sessions[k] == old(p.sessions)[k]
    ensures keys <= sh.pool.Keys && Represents(p, number, Evicted(sh, keys)) && PoolOk(Evicted(sh, keys))
    ensures forall k | k in old(p.sessions) :: Stands(old(p.sessions)[k], number, Evicted(sh, keys))
    ensures Steps(Sweep(job), sh, actions, locks) == Some((Sweep(job), Evicted(sh, keys)))
  {
    ghost var before := p.sessions;
    PurgeAndTrim(p, now);
    keys := before.Keys - p.sessions.Keys;
    actions := SweepEvicts(job, sh, keys, locks);
    SweptStands(p, before, number, sh, keys);
  }

  /** Every session stood in the table, and now those under `keys` are closed and gone from the pool. */
  lemma SweptStands(
    p: Pool, before: map<Key, BridgePool.Session>, number: map<BridgePool.Session, Sid>, sh: Shared, keys: set<Key>)
    requires PoolOk(sh) && before.Keys == sh.pool.Keys && keys == before.Keys - p.sessions.Keys
    requires p.sessions.Keys <= before.Keys && forall k | k in p.sessions :: p.sessions[k] == before[k]
    requires forall k | k in before ::
               && before[k] in number && number[before[k]] == sh.pool[k]
               && var info := sh.table[sh.pool[k]];
               && info.account == before[k].account && info.cancelled == before[k].cancelRequested
               && before[k].open == (info.open && k in p.sessions)
    ensures Represents(p, number, Evicted(sh, keys)) && PoolOk(Evicted(sh, keys))
    ensures forall k | k in before :: Stands(before[k], number, Evicted(sh, keys))
  {
    EvictedIsOk(sh, keys);
    KeysLeft(sh, keys, p.sessions.Keys);
    forall k | k in before
      ensures Stands(before[k], number, Evicted(sh, keys))
    {
      EvictedInfo(sh, keys, k);
    }
  }

  // ---------------------------------------------------------------------------
  // The critical sections
  // ---------------------------------------------------------------------------

  /** Where a look-up leaves its thread. */
  ghost function AfterFind(
    req: Request, retry: bool, number: map<BridgePool.Session, Sid>,
    reused: BridgePool.Session?, displaced: BridgePool.Session?): Pc
    requires (reused != null ==> reused in number) && (displaced != null ==> displaced in number)
  {
    if reused != null then WantRun(req, retry, number[reused], Hit)
    else if displaced != null then WantDisplaced(req, retry, number[displaced])
    else MissingSession(req, retry)
  }

  lemma FindSteps(sh: Shared, req: Request, retry: bool)
    requires |sh.pool| <= MAX_SESSIONS && (req.key in sh.pool ==> sh.pool[req.key] in sh.table)
    ensures Local(Sweep(ForLookup(req, retry)), sh, Proceed) ==
            Some(if req.key !in sh.pool then (MissingSession(req, retry), sh)
                 else if MayReuse(req, sh.table[sh.pool[req.key]]) then (WantRun(req, retry, sh.pool[req.key], Hit), sh)
                 else (WantDisplaced(req, retry, sh.pool[req.key]), sh.(pool := Without(sh.pool, req.key))))
  {
  }

  method FindRefines(
    p: Pool, req: Request, retry: bool, ghost number: map<BridgePool.Session, Sid>, ghost sh: Shared)
    returns (reused: BridgePool.Session?, displaced: BridgePool.Session?, ghost sh': Shared)
    requires p.Valid() && |p.sessions| <= MAX_SESSIONS && Represents(p, number, sh)
    modifies p
    ensures p.Valid() && (reused != null ==> reused in number) && (displaced != null ==> displaced in number)
    ensures Represents(p, number, sh')
    ensures Local(Sweep(ForLookup(req, retry)), sh, Proceed) == Some((AfterFind(req, retry, number, reused, displaced), sh'))
  {
    ghost var before := p.sessions;
    assert |sh.pool.Keys| == |p.sessions.Keys|;
    reused, displaced := p.Find(req.key, req.hasPrevious, req.account);
    sh' := if displaced == null then sh else sh.(pool := Without(sh.pool, req.key));
    assert req.key in before ==> Stands(before[req.key], number, sh);
    FindSteps(sh, req, retry);
  }

  /** The first critical section: sweep and look up. */
  method LookupRefines(
    p: Pool, now: int, req: Request, retry: bool, ghost number: map<BridgePool.Session, Sid>, ghost sh: Shared)
    returns (reused: BridgePool.Session?, displaced: BridgePool.Session?, ghost actions: seq<Action>, ghost sh': Shared)
    requires p.Valid() && Represents(p, number, sh) && PoolOk(sh)
    modifies p, p.sessions.Values`open
    ensures p.Valid() && (reused != null ==> reused in number) && (displaced != null ==> displaced in number)
    ensures Represents(p, number, sh')
    ensures Steps(Sweep(ForLookup(req, retry)), sh, actions, PoolLocks(sh)) ==
            Some((AfterFind(req, retry, number, reused, displaced), sh'))
  {
    ghost var keys;
    ghost var job := ForLookup(req, retry);
    actions, keys := SweepRefines(p, Some(now), number, sh, job, PoolLocks(sh));
    reused, displaced, sh' := FindRefines(p, req, retry, number, Evicted(sh, keys));
    actions := ThenOne(Sweep(job), sh, actions, Sweep(job), Evicted(sh, keys), Proceed, PoolLocks(sh));
    SweepEndTakesNone(job, Evicted(sh, keys), PoolLocks(sh));
  }

  lemma EraseSteps(sh: Shared, req: Request, retry: bool, sid: Sid, again: bool)
    ensures var sh' := sh.(pool := WithoutSession(sh.pool, req.key, sid));
            && Local(Remove(req, retry, sid, again), sh, Proceed) == Some((if again && !retry && req.isCreate then WantErase(req, sid) else Idle, sh'))
            && Local(Erase(req, sid), sh, Proceed) == Some((WantFirst(req, sid), sh'))
  {
  }

  lemma InsertSteps(sh: Shared, req: Request, retry: bool, cand: Sid)
    requires |sh.pool| <= MAX_SESSIONS
    ensures Local(Sweep(ForInsert(req, retry, cand)), sh, Proceed) ==
            Some(if req.key in sh.pool then (WantCandidate(req, retry, cand, sh.pool[req.key]), sh)
                 else (Sweep(AfterInsert(req, retry, cand)), sh.(pool := sh.pool[req.key := cand])))
  {
  }

  /** A failed run erases its own session by identity, in either place where it does. */
  method RemoveRefines(
    p: Pool, req: Request, session: BridgePool.Session, retry: bool, again: bool,
    ghost number: map<BridgePool.Session, Sid>, ghost sh: Shared)
    returns (ghost sh': Shared)
    requires p.Valid() && Represents(p, number, sh) && OneToOne(number) && session in number
    modifies p
    ensures p.Valid() && Represents(p, number, sh')
    ensures Local(Remove(req, retry, number[session], again), sh, Proceed) ==
            Some((if again && !retry && req.isCreate then WantErase(req, number[session]) else Idle, sh'))
    ensures Local(Erase(req, number[session]), sh, Proceed) == Some((WantFirst(req, number[session]), sh'))
  {
    ghost var before := p.sessions;
    p.RemoveIfSame(req.key, session);
    sh' := sh.(pool := WithoutSession(sh.pool, req.key, number[session]));
    EraseSteps(sh, req, retry, number[session], again);
    assert req.key in before ==> (before[req.key] == session <==> sh.pool[req.key] == number[session]);
  }

  method CancelRefines(p: Pool, key: Key, ghost number: map<BridgePool.Session, Sid>, ghost sh: Shared)
    returns (ghost sh': Shared)
    requires p.Valid() && Represents(p, number, sh) && OneToOne(number) && PoolOk(sh)
    modifies p.sessions.Values`cancelRequested
    ensures Represents(p, number, sh')
    ensures Local(Cancel(key), sh, Proceed) == Some((Idle, sh'))
  {
    p.RequestCancel(key);
    sh' := Local(Cancel(key), sh, Proceed).value.1;
    forall k | k in p.sessions
      ensures Stands(p.sessions[k], number, sh')
    {
      if key in p.sessions && k != key {
        assert sh.table[sh.pool[k]].key == k && sh.table[sh.pool[key]].key == key;
      }
    }
  }

  /** A new session under a free key; otherwise the one that got there first. */
  method TryInsertRefines(
    p: Pool, req: Request, retry: bool, candidate: BridgePool.Session,
    ghost number: map<BridgePool.Session, Sid>, ghost sh: Shared)
    returns (winner: BridgePool.Session, ghost sh': Shared)
    requires p.Valid() && |p.sessions| <= MAX_SESSIONS && Represents(p, number, sh) && PoolOk(sh)
    requires candidate !in p.sessions.Values && Stands(candidate, number, sh) && sh.table[number[candidate]].key == req.key
    modifies p
    ensures p.Valid() && winner in number && Represents(p, number, sh') && PoolOk(sh')
    ensures winner == candidate <==> req.key !in old(p.sessions)
    ensures p.sessions.Values <= old(p.sessions).Values + {candidate}
    ensures winner == candidate || winner in old(p.sessions).Values
    ensures sh' == sh || sh' == sh.(pool := sh.pool[req.key := number[candidate]])
    ensures Local(Sweep(ForInsert(req, retry, number[candidate])), sh, Proceed) ==
            Some((if winner == candidate then Sweep(AfterInsert(req, retry, number[candidate]))
                  else WantCandidate(req, retry, number[candidate], number[winner]), sh'))
  {
    ghost var before := p.sessions;
    assert |sh.pool.Keys| == |p.sessions.Keys|;
    winner := p.TryInsert(req.key, candidate);
    assert req.key in before ==> before[req.key] in before.Values;
    sh' := if winner == candidate then sh.(pool := sh.pool[req.key := number[candidate]]) else sh;
    InsertSteps(sh, req, retry, number[candidate]);
    forall k | k in p.sessions
      ensures Stands(p.sessions[k], number, sh') && sh'.pool[k] == number[p.sessions[k]]
    {
    }
  }

  lemma InsertLocks(sh: Shared, k: Key, sid: Sid)
    ensures PoolLocks(sh.(pool := sh.pool[k := sid])) <= PoolLocks(sh) + {Session(sid)}
  {
  }

  lemma AsideOfSweep(sh: Shared, keys: set<Key>, sid: Sid)
    requires keys <= sh.pool.Keys && sid in sh.table && sid !in sh.pool.Values
    ensures Evicted(sh, keys).table[sid] == sh.table[sid]
  {
  }

  method SweepAndInsertRefines(
    p: Pool, now: int, req: Request, retry: bool, candidate: BridgePool.Session,
    ghost number: map<BridgePool.Session, Sid>, ghost sh: Shared, ghost locks: set<Lock>)
    returns (winner: BridgePool.Session, ghost actions: seq<Action>, ghost sh': Shared)
    requires p.Valid() && Represents(p, number, sh) && PoolOk(sh) && OneToOne(number)
    requires candidate !in p.sessions.Values && Stands(candidate, number, sh) && sh.table[number[candidate]].key == req.key
    requires PoolLocks(sh) + {Session(number[candidate])} <= locks
    modifies p, p.sessions.Values`open
    ensures PoolLocks(sh') <= locks
    ensures p.Valid() && winner in number && Represents(p, number, sh') && PoolOk(sh')
    ensures winner == candidate || winner in old(p.sessions).Values
    ensures p.sessions.Values <= old(p.sessions).Values + {candidate}
    ensures Steps(Sweep(ForInsert(req, retry, number[candidate])), sh, actions, locks) ==
            Some((if winner == candidate then Sweep(AfterInsert(req, retry, number[candidate]))
                  else WantCandidate(req, retry, number[candidate], number[winner]), sh'))
  {
    ghost var job := ForInsert(req, retry, number[candidate]);
    ghost var keys;
    NotPooled(p, number, sh, candidate);
    actions, keys := SweepRefines(p, Some(now), number, sh, job, locks);
    FewerLocks(sh, keys);
    AsideOfSweep(sh, keys, number[candidate]);
    winner, sh' := TryInsertRefines(p, req, retry, candidate, number, Evicted(sh, keys));
    InsertLocks(Evicted(sh, keys), req.key, number[candidate]);
    actions := ThenOne(Sweep(job), sh, actions, Sweep(job), Evicted(sh, keys), Proceed, locks);
    SweepEndTakesNone(job, Evicted(sh, keys), locks);
  }

  /** The second critical section: sweep, insert, and trim again if something was inserted. */
  method InsertRefines(
    p: Pool, now: int, req: Request, retry: bool, candidate: BridgePool.Session,
    ghost number: map<BridgePool.Session, Sid>, ghost sh: Shared)
    returns (winner: BridgePool.Session, ghost actions: seq<Action>, ghost sh': Shared)
    requires p.Valid() && Represents(p, number, sh) && PoolOk(sh) && OneToOne(number)
    requires candidate !in p.sessions.Values && Stands(candidate, number, sh) && sh.table[number[candidate]].key == req.key
    modifies p, p.sessions.Values`open, candidate`open
    ensures p.Valid() && winner in number && Represents(p, number, sh')
    ensures Steps(Sweep(ForInsert(req, retry, number[candidate])), sh, actions,
                  PoolLocks(sh) + {Session(number[candidate])}) ==
            Some((if winner == candidate then WantRun(req, retry, number[candidate], Connected)
                  else WantCandidate(req, retry, number[candidate], number[winner]), sh'))
  {
    ghost var locks := PoolLocks(sh) + {Session(number[candidate])};
    winner, actions, sh' := SweepAndInsertRefines(p, now, req, retry, candidate, number, sh, locks);
    if winner == candidate {
      ghost var inserted, first := sh', actions;
      actions, sh' := TrimRefines(p, req, retry, number[candidate], number, inserted, locks);
      Then(Sweep(ForInsert(req, retry, number[candidate])), sh, first,
           Sweep(AfterInsert(req, retry, number[candidate])), inserted, actions, locks);
      actions := first + actions;
    }
  }

  lemma NotPooled(p: Pool, number: map<BridgePool.Session, Sid>, sh: Shared, candidate: BridgePool.Session)
    requires Represents(p, number, sh) && OneToOne(number) && candidate in number && candidate !in p.sessions.Values
    ensures number[candidate] !in sh.pool.Values
  {
    forall k | k in sh.pool
      ensures sh.pool[k] != number[candidate]
    {
      assert p.sessions[k] in p.sessions.Values;
    }
  }

  method TrimRefines(
    p: Pool, req: Request, retry: bool, ghost cand: Sid, ghost number: map<BridgePool.Session, Sid>, ghost sh: Shared,
    ghost locks: set<Lock>)
    returns (ghost actions: seq<Action>, ghost sh': Shared)
    requires p.Valid() && Represents(p, number, sh) && PoolOk(sh) && PoolLocks(sh) <= locks
    modifies p, p.sessions.Values`open
    ensures p.Valid() && Represents(p, number, sh')
    ensures Steps(Sweep(AfterInsert(req, retry, cand)), sh, actions, locks) == Some((WantRun(req, retry, cand, Connected), sh'))
  {
    ghost var job := AfterInsert(req, retry, cand);
    ghost var keys;
    actions, keys := SweepRefines(p, None, number, sh, job, locks);
    sh' := Evicted(sh, keys);
    assert |sh'.pool.Keys| == |p.sessions.Keys|;
    actions := ThenOne(Sweep(job), sh, actions, Sweep(job), sh', Proceed, locks);
    SweepEndTakesNone(job, sh', locks);
  }

  /** The shared data after the sessions under some keys are closed, but stay. */
  function ClosedUnder(sh: Shared, keys: set<Key>): Shared
    requires keys <= sh.pool.Keys
  {
    sh.(table := Evicted(sh, keys).table)
  }

  lemma CloseIsUnder(sh: Shared, k: Key)
    requires PoolOk(sh) && k in sh.pool
    ensures Closed(sh, sh.pool[k]) == ClosedUnder(sh, {k})
  {
    assert Closed(sh, sh.pool[k]).table == ClosedUnder(sh, {k}).table;
  }

  lemma CloseOne(sh: Shared, todo: set<Key>, k: Key, locks: set<Lock>) returns (actions: seq<Action>)
    requires PoolOk(sh) && todo <= sh.pool.Keys && k in todo && Session(sh.pool[k]) in locks
    ensures Steps(Reset(todo), sh, actions, locks) == Some((Reset(todo - {k}), ClosedUnder(sh, {k})))
  {
    actions := [Pick(k), Acquire, Proceed];
    var sid := sh.pool[k];
    assert Move(Reset(todo), sh, Pick(k), locks) == Some((WantMember(todo, k, sid), sh));
    assert Move(WantMember(todo, k, sid), sh, Acquire, locks) == Some((CloseMember(todo, k, sid), sh));
    ThreeSteps(Reset(todo), sh, Pick(k), Acquire, Proceed, locks);
    assert Move(CloseMember(todo, k, sid), sh, Proceed, locks) == Some((Reset(todo - {k}), Closed(sh, sid)));
    CloseIsUnder(sh, k);
  }

  lemma CloseRest(sh: Shared, k: Key, rest: set<Key>)
    requires PoolOk(sh) && k in sh.pool && rest <= sh.pool.Keys
    ensures PoolOk(ClosedUnder(sh, {k}))
    ensures ClosedUnder(ClosedUnder(sh, {k}), rest) == ClosedUnder(sh, rest + {k})
  {
    assert ClosedUnder(ClosedUnder(sh, {k}), rest).table == ClosedUnder(sh, rest + {k}).table;
  }

  lemma NothingClosed(sh: Shared)
    ensures ClosedUnder(sh, {}) == sh
  {
    assert ClosedUnder(sh, {}).table == sh.table;
  }

  lemma ResetDone(sh: Shared, locks: set<Lock>)
    ensures Move(Reset({}), sh, Proceed, locks) == Some((Swapped, sh.(pool := map[])))
  {
    assert Holds(Swapped) <= Holds(Reset({}));
  }

  lemma ResetEnds(sh: Shared, locks: set<Lock>) returns (actions: seq<Action>)
    ensures Steps(Reset({}), sh, actions, locks) == Some((Swapped, ClosedUnder(sh, {}).(pool := map[])))
  {
    actions := [Proceed];
    OneStep(Reset({}), sh, Proceed, locks);
    NothingClosed(sh);
    ResetDone(sh, locks);
  }

  lemma {:induction false} ResetCloses(sh: Shared, todo: set<Key>, locks: set<Lock>) returns (actions: seq<Action>)
    requires PoolOk(sh) && todo <= sh.pool.Keys && PoolLocks(sh) <= locks
    ensures Steps(Reset(todo), sh, actions, locks) == Some((Swapped, ClosedUnder(sh, todo).(pool := map[])))
    decreases |todo|
  {
    if todo == {} {
      actions := ResetEnds(sh, locks);
    } else {
      var k :| k in todo;
      var rest := todo - {k};
      var first := CloseOne(sh, todo, k, locks);
      CloseRest(sh, k, rest);
      var more := ResetCloses(ClosedUnder(sh, {k}), rest, locks);
      actions := first + more;
      Then(Reset(todo), sh, first, Reset(rest), ClosedUnder(sh, {k}), more, locks);
      assert rest + {k} == todo;
    }
  }

  method ResetRefines(p: Pool, ghost number: map<BridgePool.Session, Sid>, ghost sh: Shared)
    returns (ghost actions: seq<Action>, ghost sh': Shared)
    requires p.Valid() && Represents(p, number, sh) && PoolOk(sh)
    modifies p, p.sessions.Values`open
    ensures Represents(p, number, sh')
    ensures forall k | k in old(p.sessions) :: Stands(old(p.sessions)[k], number, sh')
    ensures Steps(Reset(sh.pool.Keys), sh, actions, PoolLocks(sh)) == Some((Swapped, sh'))
  {
    ghost var before := p.sessions;
    p.Reset();
    actions := ResetCloses(sh, sh.pool.Keys, PoolLocks(sh));
    sh' := ClosedUnder(sh, sh.pool.Keys).(pool := map[]);
    forall k | k in before
      ensures Stands(before[k], number, sh')
    {
      EvictedInfo(sh, sh.pool.Keys, k);
    }
  }
}
