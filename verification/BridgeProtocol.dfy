/**
  Every interleaving of the threads that share the session pool, with the three
  kinds of mutex they take: the transport's, the bridge's and one per session.
  A thread is described by where it stands in the code; which mutexes it holds and
  which it waits for follow from that. Which session a sweep evicts, whether a
  connection attempt or a run succeeds, is left open. Sessions are numbered in
  the order they are connected.
*/
module BridgeProtocol {
  import opened BridgePool
  import opened Options

  type Sid = nat
  type Tid = nat

  datatype Request = Request(key: Key, account: string, hasPrevious: bool, isCreate: bool)

  datatype Info = Info(key: Key, account: string, open: bool, cancelled: bool)

  /** The data the mutexes protect: the pool, and every session ever connected. */
  datatype Shared = Shared(pool: map<Key, Sid>, table: map<Sid, Info>)

  /** How a thread came by the session it is to run on. */
  datatype Via = Hit | Connected | LostRace

  /** Why a thread is sweeping the pool; it holds the bridge mutex throughout. */
  datatype Job =
    | ForLookup(req: Request, retry: bool)
    | ForInsert(req: Request, retry: bool, cand: Sid)
    | AfterInsert(req: Request, retry: bool, cand: Sid)

  /** A thread's place. `retry` tells the second attempt on a fresh session from the first. */
  datatype Pc =
    | Idle
    | WantTransport(req: Request)
    | ReadTransport(req: Request)
    | WantLookup(req: Request, retry: bool)
    | Sweep(job: Job)
    | WantVictim(job: Job, k: Key, victim: Sid)
    | CloseVictim(job: Job, k: Key, victim: Sid)
    | WantDisplaced(req: Request, retry: bool, sid: Sid)
    | CloseDisplaced(req: Request, retry: bool, sid: Sid)
    | Connect(req: Request, retry: bool)
    | WantInsert(req: Request, retry: bool, cand: Sid)
    | WantCandidate(req: Request, retry: bool, cand: Sid, existing: Sid)
    | CloseCandidate(req: Request, retry: bool, cand: Sid, existing: Sid)
    | WantRun(req: Request, retry: bool, sid: Sid, via: Via)
    | Run(req: Request, retry: bool, sid: Sid, via: Via)
    | WantRemove(req: Request, retry: bool, sid: Sid, again: bool)
    | Remove(req: Request, retry: bool, sid: Sid, again: bool)
    | WantErase(req: Request, sid: Sid)
    | Erase(req: Request, sid: Sid)
    | WantFirst(req: Request, sid: Sid)
    | CloseFirst(req: Request, sid: Sid)
    | WantCancel(k: Key)
    | Cancel(k: Key)
    | WantSwap
    | WantReset
    | Reset(todo: set<Key>)
    | WantMember(todo: set<Key>, k: Key, sid: Sid)
    | CloseMember(todo: set<Key>, k: Key, sid: Sid)
    | Swapped

  datatype Lock = Transport | Bridge | Session(sid: Sid)

  /** The mutexes a place is inside of. */
  function Holds(pc: Pc): set<Lock> {
    match pc
    case ReadTransport(_) | WantReset | Swapped => {Transport}
    case Sweep(_) | WantVictim(_, _, _) | Remove(_, _, _, _) | Erase(_, _) | Cancel(_) => {Bridge}
    case CloseVictim(_, _, victim) => {Bridge, Session(victim)}
    case CloseDisplaced(_, _, sid) => {Session(sid)}
    case CloseCandidate(_, _, cand, _) => {Session(cand)}
    case Run(_, _, sid, _) => {Session(sid)}
    case CloseFirst(_, sid) => {Session(sid)}
    case Reset(_) | WantMember(_, _, _) => {Transport, Bridge}
    case CloseMember(_, _, sid) => {Transport, Bridge, Session(sid)}
    case _ => {}
  }

  /** The mutex a place is blocked on. */
  function Waits(pc: Pc): Option<Lock> {
    match pc
    case WantTransport(_) | WantSwap => Some(Transport)
    case WantLookup(_, _) | WantInsert(_, _, _) | WantRemove(_, _, _, _) | WantErase(_, _) | WantCancel(_)
       | WantReset => Some(Bridge)
    case WantVictim(_, _, victim) => Some(Session(victim))
    case WantDisplaced(_, _, sid) => Some(Session(sid))
    case WantCandidate(_, _, cand, _) => Some(Session(cand))
    case WantRun(_, _, sid, _) => Some(Session(sid))
    case WantFirst(_, sid) => Some(Session(sid))
    case WantMember(_, _, sid) => Some(Session(sid))
    case _ => None
  }

  /** Where a thread is once it has the mutex it waited for. */
  function Acquired(pc: Pc, sh: Shared): Pc {
    match pc
    case WantTransport(req) => ReadTransport(req)
    case WantSwap => WantReset
    case WantLookup(req, retry) => Sweep(ForLookup(req, retry))
    case WantInsert(req, retry, cand) => Sweep(ForInsert(req, retry, cand))
    case WantRemove(req, retry, sid, again) => Remove(req, retry, sid, again)
    case WantErase(req, sid) => Erase(req, sid)
    case WantCancel(k) => Cancel(k)
    case WantReset => Reset(sh.pool.Keys)
    case WantVictim(job, k, victim) => CloseVictim(job, k, victim)
    case WantDisplaced(req, retry, sid) => CloseDisplaced(req, retry, sid)
    case WantCandidate(req, retry, cand, existing) => CloseCandidate(req, retry, cand, existing)
    case WantRun(req, retry, sid, via) => Run(req, retry, sid, via)
    case WantFirst(req, sid) => CloseFirst(req, sid)
    case WantMember(todo, k, sid) => CloseMember(todo, k, sid)
    case _ => pc
  }

  datatype Action =
    | Execute(req: Request)
    | RequestCancel(k: Key)
    | SwapTransport
    | Acquire
    | Pick(k: Key)
    | Proceed
    | ConnectFails
    | ConnectWorks(sid: Sid)
    | RunEnds(remove: bool, again: bool)

  function Closed(sh: Shared, sid: Sid): Shared {
    if sid in sh.table then sh.(table := sh.table[sid := sh.table[sid].(open := false)]) else sh
  }

  predicate MayReuse(req: Request, info: Info) {
    !info.cancelled && SameAccount(req.hasPrevious, req.account, info.account)
  }

  function MissingSession(req: Request, retry: bool): Pc {
    if req.isCreate then Connect(req, retry) else Idle
  }

  /** What follows the sweep, with the bridge mutex still held. */
  function AfterSweep(job: Job, sh: Shared): (Pc, Shared) {
    match job
    case ForLookup(req, retry) =>
      if req.key !in sh.pool then (MissingSession(req, retry), sh)
      else
        var sid := sh.pool[req.key];
        if sid in sh.table && MayReuse(req, sh.table[sid]) then (WantRun(req, retry, sid, Hit), sh)
        else (WantDisplaced(req, retry, sid), sh.(pool := Without(sh.pool, req.key)))
    case ForInsert(req, retry, cand) =>
      if req.key in sh.pool then (WantCandidate(req, retry, cand, sh.pool[req.key]), sh)
      else (Sweep(AfterInsert(req, retry, cand)), sh.(pool := sh.pool[req.key := cand]))
    case AfterInsert(req, retry, cand) => (WantRun(req, retry, cand, Connected), sh)
  }

  /** The next step of a thread whose next step is settled by its place. */
  function ProceedFrom(pc: Pc, sh: Shared): Option<(Pc, Shared)> {
    match pc
    case ReadTransport(req) => Some((WantLookup(req, false), sh))
    case Sweep(job) => if |sh.pool| <= MAX_SESSIONS then Some(AfterSweep(job, sh)) else None
    case CloseVictim(job, k, victim) => Some((Sweep(job), Closed(sh, victim).(pool := Without(sh.pool, k))))
    case CloseDisplaced(req, retry, sid) => Some((MissingSession(req, retry), Closed(sh, sid)))
    case CloseCandidate(req, retry, cand, existing) => Some((WantRun(req, retry, existing, LostRace), Closed(sh, cand)))
    case Remove(req, retry, sid, again) =>
      Some((AfterRun(req, retry, sid, again), sh.(pool := WithoutSession(sh.pool, req.key, sid))))
    case Erase(req, sid) => Some((WantFirst(req, sid), sh.(pool := WithoutSession(sh.pool, req.key, sid))))
    case CloseFirst(req, sid) => Some((WantLookup(req, true), Closed(sh, sid)))
    case Cancel(k) =>
      Some((Idle,
            if k in sh.pool && sh.pool[k] in sh.table
            then sh.(table := sh.table[sh.pool[k] := sh.table[sh.pool[k]].(cancelled := true)]) else sh))
    case Reset(todo) => if todo == {} then Some((Swapped, sh.(pool := map[]))) else None
    case CloseMember(todo, k, sid) => Some((Reset(todo - {k}), Closed(sh, sid)))
    case Swapped => Some((Idle, sh))
    case _ => None
  }

  /** What a thread's own action does, mutexes aside; None when the action does not fit its place. */
  function Local(pc: Pc, sh: Shared, a: Action): Option<(Pc, Shared)> {
    match a
    case Execute(req) => if pc.Idle? then Some((WantTransport(req), sh)) else None
    case RequestCancel(k) => if pc.Idle? then Some((WantCancel(k), sh)) else None
    case SwapTransport => if pc.Idle? then Some((WantSwap, sh)) else None
    case Acquire => if Waits(pc).Some? then Some((Acquired(pc, sh), sh)) else None
    case Pick(k) =>
      if pc.Sweep? && k in sh.pool then Some((WantVictim(pc.job, k, sh.pool[k]), sh))
      else if pc.Reset? && k in pc.todo && k in sh.pool then Some((WantMember(pc.todo, k, sh.pool[k]), sh))
      else None
    case ConnectFails => if pc.Connect? then Some((Idle, sh)) else None
    case ConnectWorks(sid) =>
      if pc.Connect? && sid !in sh.table
      then Some((WantInsert(pc.req, pc.retry, sid), sh.(table := sh.table[sid := Info(pc.req.key, pc.req.account, true, false)])))
      else None
    case RunEnds(remove, again) =>
      if !pc.Run? then None
      else if remove then Some((WantRemove(pc.req, pc.retry, pc.sid, again), Closed(sh, pc.sid)))
      else Some((AfterRun(pc.req, pc.retry, pc.sid, again), sh))
    case Proceed => ProceedFrom(pc, sh)
  }

  /** Only the first run of a request that may create a response is retried. */
  function AfterRun(req: Request, retry: bool, sid: Sid, again: bool): Pc {
    if again && !retry && req.isCreate then WantErase(req, sid) else Idle
  }

  datatype State = State(sh: Shared, pcs: seq<Pc>)

  /** A mutex is taken only while no other thread is inside it. */
  ghost predicate Free(s: State, t: Tid, l: Lock) {
    forall u | 0 <= u < |s.pcs| && u != t :: l !in Holds(s.pcs[u])
  }

  ghost predicate Enabled(s: State, t: Tid, a: Action) {
    && t < |s.pcs|
    && Local(s.pcs[t], s.sh, a).Some?
    && forall l | l in Holds(Local(s.pcs[t], s.sh, a).value.0) - Holds(s.pcs[t]) :: Free(s, t, l)
  }

  function Apply(s: State, t: Tid, a: Action): State
    requires t < |s.pcs| && Local(s.pcs[t], s.sh, a).Some?
  {
    var (pc, sh) := Local(s.pcs[t], s.sh, a).value;
    State(sh, s.pcs[t := pc])
  }

  ghost predicate Initial(s: State) {
    s.sh == Shared(map[], map[]) && forall t | 0 <= t < |s.pcs| :: s.pcs[t] == Idle
  }

  ghost predicate Next(s: State, s': State) {
    exists t, a :: Enabled(s, t, a) && s' == Apply(s, t, a)
  }

  /** A run: the states one after another, each reached from the one before by some thread. */
  ghost predicate IsRun(run: seq<State>) {
    if |run| <= 1 then run != [] && Initial(run[0])
    else IsRun(run[..|run| - 1]) && Next(run[|run| - 2], run[|run| - 1])
  }

  ghost predicate Reachable(s: State) {
    exists run :: IsRun(run) && run[|run| - 1] == s
  }

  // ---------------------------------------------------------------------------
  // The invariant
  // ---------------------------------------------------------------------------

  /** The new session a thread has connected and not yet put in the pool. */
  function Candidate(pc: Pc): Option<Sid> {
    match pc
    case WantInsert(_, _, cand) => Some(cand)
    case Sweep(ForInsert(_, _, cand)) => Some(cand)
    case WantVictim(ForInsert(_, _, cand), _, _) => Some(cand)
    case CloseVictim(ForInsert(_, _, cand), _, _) => Some(cand)
    case WantCandidate(_, _, cand, _) => Some(cand)
    case CloseCandidate(_, _, cand, _) => Some(cand)
    case _ => None
  }

  function JobRefs(job: Job): set<Sid> {
    if job.ForLookup? then {} else {job.cand}
  }

  /** Every session a thread has a pointer to. */
  function Refs(pc: Pc): set<Sid> {
    match pc
    case Sweep(job) => JobRefs(job)
    case WantVictim(job, _, victim) => JobRefs(job) + {victim}
    case CloseVictim(job, _, victim) => JobRefs(job) + {victim}
    case WantDisplaced(_, _, sid) => {sid}
    case CloseDisplaced(_, _, sid) => {sid}
    case WantInsert(_, _, cand) => {cand}
    case WantCandidate(_, _, cand, existing) => {cand, existing}
    case CloseCandidate(_, _, cand, existing) => {cand, existing}
    case WantRun(_, _, sid, _) => {sid}
    case Run(_, _, sid, _) => {sid}
    case WantRemove(_, _, sid, _) => {sid}
    case Remove(_, _, sid, _) => {sid}
    case WantErase(_, sid) => {sid}
    case Erase(_, sid) => {sid}
    case WantFirst(_, sid) => {sid}
    case CloseFirst(_, sid) => {sid}
    case WantMember(_, _, sid) => {sid}
    case CloseMember(_, _, sid) => {sid}
    case _ => {}
  }

  /** A session connected for a request carries the request's key and account, always. */
  ghost predicate MadeFor(sh: Shared, sid: Sid, req: Request) {
    sid in sh.table && sh.table[sid].key == req.key && sh.table[sid].account == req.account
  }

  ghost predicate KeyedFor(sh: Shared, sid: Sid, req: Request) {
    sid in sh.table && sh.table[sid].key == req.key
  }

  ghost predicate OutOfPool(sh: Shared, sid: Sid) {
    sid in sh.table && forall k | k in sh.pool :: sh.pool[k] != sid
  }

  ghost predicate CandidateOk(sh: Shared, sid: Sid, req: Request) {
    MadeFor(sh, sid, req) && OutOfPool(sh, sid) && sh.table[sid].open
  }

  ghost predicate JobOk(sh: Shared, job: Job) {
    match job
    case ForLookup(_, _) => true
    case ForInsert(req, _, cand) => CandidateOk(sh, cand, req)
    case AfterInsert(req, _, cand) => MadeFor(sh, cand, req)
  }

  ghost predicate RunOk(sh: Shared, req: Request, sid: Sid, via: Via) {
    KeyedFor(sh, sid, req) && (via != LostRace ==> SameAccount(req.hasPrevious, req.account, sh.table[sid].account))
  }

  /** A reset in progress: the entries already seen are closed. */
  ghost predicate ResetOk(sh: Shared, todo: set<Key>) {
    && todo <= sh.pool.Keys
    && forall k | k in sh.pool && k !in todo :: sh.pool[k] in sh.table && !sh.table[sh.pool[k]].open
  }

  /** What a thread knows at its place. */
  ghost predicate PlaceOk(sh: Shared, pc: Pc) {
    match pc
    case Sweep(job) => JobOk(sh, job)
    case WantVictim(job, k, victim) => JobOk(sh, job) && k in sh.pool && sh.pool[k] == victim
    case CloseVictim(job, k, victim) => JobOk(sh, job) && k in sh.pool && sh.pool[k] == victim
    case WantDisplaced(_, _, sid) => OutOfPool(sh, sid)
    case CloseDisplaced(_, _, sid) => OutOfPool(sh, sid)
    case WantInsert(req, _, cand) => CandidateOk(sh, cand, req)
    case WantCandidate(req, _, cand, existing) => CandidateOk(sh, cand, req) && KeyedFor(sh, existing, req)
    case CloseCandidate(req, _, cand, existing) => CandidateOk(sh, cand, req) && KeyedFor(sh, existing, req)
    case WantRun(req, _, sid, via) => RunOk(sh, req, sid, via)
    case Run(req, _, sid, via) => RunOk(sh, req, sid, via)
    case WantRemove(req, _, sid, _) => KeyedFor(sh, sid, req) && !sh.table[sid].open
    case Remove(req, _, sid, _) => KeyedFor(sh, sid, req) && !sh.table[sid].open
    case WantErase(req, sid) => KeyedFor(sh, sid, req)
    case Erase(req, sid) => KeyedFor(sh, sid, req)
    case WantFirst(_, sid) => OutOfPool(sh, sid)
    case CloseFirst(_, sid) => OutOfPool(sh, sid)
    case Reset(todo) => ResetOk(sh, todo)
    case WantMember(todo, k, sid) => ResetOk(sh, todo) && k in todo && k in sh.pool && sh.pool[k] == sid
    case CloseMember(todo, k, sid) => ResetOk(sh, todo) && k in todo && k in sh.pool && sh.pool[k] == sid
    case _ => true
  }

  /** Every pooled session is known, under its own key. */
  ghost predicate PoolOk(sh: Shared) {
    forall k | k in sh.pool :: sh.pool[k] in sh.table && sh.table[sh.pool[k]].key == k
  }

  /** How large the pool may be while a thread is at a place inside the bridge mutex. */
  function Room(pc: Pc): nat {
    match pc
    case Sweep(AfterInsert(_, _, _)) => MAX_SESSIONS + 1
    case WantVictim(AfterInsert(_, _, _), _, _) => MAX_SESSIONS + 1
    case CloseVictim(AfterInsert(_, _, _), _, _) => MAX_SESSIONS + 1
    case _ => MAX_SESSIONS
  }

  ghost predicate WithinRoom(s: State) {
    |s.sh.pool| <= MAX_SESSIONS
    || exists t :: 0 <= t < |s.pcs| && Bridge in Holds(s.pcs[t]) && |s.sh.pool| <= Room(s.pcs[t])
  }

  /** The thread is bound to insert the session or to close it. */
  predicate Owns(pc: Pc, sid: Sid) {
    match pc
    case WantDisplaced(_, _, x) => x == sid
    case CloseDisplaced(_, _, x) => x == sid
    case WantFirst(_, x) => x == sid
    case CloseFirst(_, x) => x == sid
    case _ => Candidate(pc) == Some(sid)
  }

  /** The thread is bound to take the (closed) session out of the pool. */
  predicate Drops(pc: Pc, sid: Sid) {
    match pc
    case WantRemove(_, _, x, _) => x == sid
    case Remove(_, _, x, _) => x == sid
    case Reset(_) => true
    case WantMember(_, _, _) => true
    case CloseMember(_, _, _) => true
    case _ => false
  }

  /** Every connection ever opened is in the pool, closed, or owned by a thread. */
  ghost predicate NoneLeaked(s: State) {
    forall sid | sid in s.sh.table && s.sh.table[sid].open && OutOfPool(s.sh, sid) ::
      exists t :: 0 <= t < |s.pcs| && Owns(s.pcs[t], sid)
  }

  /** A closed connection stays in the pool only while a thread is on its way to drop it. */
  ghost predicate NoneRotting(s: State) {
    forall k | k in s.sh.pool && s.sh.pool[k] in s.sh.table && !s.sh.table[s.sh.pool[k]].open ::
      exists t :: 0 <= t < |s.pcs| && Drops(s.pcs[t], s.sh.pool[k])
  }

  ghost predicate MutualExclusion(s: State) {
    forall t, u | 0 <= t < |s.pcs| && 0 <= u < |s.pcs| && t != u :: Holds(s.pcs[t]) !! Holds(s.pcs[u])
  }

  /** Nobody else can see a candidate. */
  ghost predicate CandidatesPrivate(s: State) {
    forall t, u | 0 <= t < |s.pcs| && 0 <= u < |s.pcs| && t != u && Candidate(s.pcs[t]).Some? ::
      Candidate(s.pcs[t]).value !in Refs(s.pcs[u])
  }

  ghost predicate PlacesOk(s: State) {
    forall t | 0 <= t < |s.pcs| :: PlaceOk(s.sh, s.pcs[t])
  }

  ghost predicate Inv(s: State) {
    && PoolOk(s.sh) && PlacesOk(s) && MutualExclusion(s) && CandidatesPrivate(s)
    && WithinRoom(s) && NoneLeaked(s) && NoneRotting(s)
  }

  // ---------------------------------------------------------------------------
  // One step keeps it
  // ---------------------------------------------------------------------------

  /** Only the holder of the bridge mutex changes the pool. */
  lemma PoolChangedInside(sh: Shared, pc: Pc, a: Action)
    requires Local(pc, sh, a).Some?
    ensures Local(pc, sh, a).value.1.pool != sh.pool ==> Bridge in Holds(pc)
  {
  }

  /** Sessions never disappear, change key or account, or reopen. */
  ghost predicate Grown(sh: Shared, sh': Shared) {
    forall sid | sid in sh.table ::
      && sid in sh'.table && sh'.table[sid].key == sh.table[sid].key
      && sh'.table[sid].account == sh.table[sid].account
      && (sh'.table[sid].open ==> sh.table[sid].open)
  }

  lemma ClosedKeeps(sh: Shared, sid: Sid)
    ensures Grown(sh, Closed(sh, sid))
    ensures PoolOk(sh) ==> PoolOk(Closed(sh, sid))
  {
  }

  lemma ProceedGrows(sh: Shared, pc: Pc)
    requires Local(pc, sh, Proceed).Some?
    ensures Grown(sh, Local(pc, sh, Proceed).value.1)
  {
    match pc
    case CloseVictim(_, _, victim) => ClosedKeeps(sh, victim);
    case CloseDisplaced(_, _, sid) => ClosedKeeps(sh, sid);
    case CloseCandidate(_, _, cand, _) => ClosedKeeps(sh, cand);
    case CloseFirst(_, sid) => ClosedKeeps(sh, sid);
    case CloseMember(_, _, sid) => ClosedKeeps(sh, sid);
    case _ =>
  }

  lemma TableGrows(sh: Shared, pc: Pc, a: Action)
    requires Local(pc, sh, a).Some?
    ensures Grown(sh, Local(pc, sh, a).value.1)
  {
    if a == Proceed {
      ProceedGrows(sh, pc);
    } else if a.RunEnds? {
      ClosedKeeps(sh, pc.sid);
    }
  }

  /** Only sessions a thread points to are closed, and only its own candidate is pooled. */
  ghost predicate WithinReach(pc: Pc, sh: Shared, sh': Shared) {
    && (forall sid | sid in sh.table && sid in sh'.table && sh.table[sid].open && !sh'.table[sid].open :: sid in Refs(pc))
    && (forall k | k in sh'.pool ::
          (k in sh.pool && sh'.pool[k] == sh.pool[k]) || Candidate(pc) == Some(sh'.pool[k]))
  }

  lemma ClosedWithinReach(pc: Pc, sh: Shared, sid: Sid)
    requires sid in Refs(pc)
    ensures WithinReach(pc, sh, Closed(sh, sid))
  {
  }

  lemma SweepWithinReach(sh: Shared, job: Job)
    ensures WithinReach(Sweep(job), sh, AfterSweep(job, sh).1)
  {
  }

  lemma ProceedWithinReach(sh: Shared, pc: Pc)
    requires ProceedFrom(pc, sh).Some?
    ensures WithinReach(pc, sh, ProceedFrom(pc, sh).value.1)
  {
    match pc
    case Sweep(job) => SweepWithinReach(sh, job);
    case CloseVictim(_, _, victim) => ClosedWithinReach(pc, sh, victim);
    case CloseDisplaced(_, _, sid) => ClosedWithinReach(pc, sh, sid);
    case CloseCandidate(_, _, cand, _) => ClosedWithinReach(pc, sh, cand);
    case CloseFirst(_, sid) => ClosedWithinReach(pc, sh, sid);
    case CloseMember(_, _, sid) => ClosedWithinReach(pc, sh, sid);
    case _ =>
  }

  lemma StepReach(sh: Shared, pc: Pc, a: Action)
    requires Local(pc, sh, a).Some?
    ensures Grown(sh, Local(pc, sh, a).value.1) && WithinReach(pc, sh, Local(pc, sh, a).value.1)
  {
    TableGrows(sh, pc, a);
    if a == Proceed {
      ProceedWithinReach(sh, pc);
    } else if a.RunEnds? {
      ClosedWithinReach(pc, sh, pc.sid);
    }
  }

  lemma RefsKnown(sh: Shared, pc: Pc)
    requires PoolOk(sh) && PlaceOk(sh, pc)
    ensures forall sid | sid in Refs(pc) :: sid in sh.table
  {
  }

  /** After a sweep: reuse, displace, insert or lose the race. */
  lemma SweepEnds(sh: Shared, job: Job)
    requires PoolOk(sh) && JobOk(sh, job)
    ensures var (pc', sh') := AfterSweep(job, sh); PoolOk(sh') && PlaceOk(sh', pc')
  {
  }

  /** Closing changes nothing a sweep relies on, except that the victim was open. */
  lemma VictimCloses(sh: Shared, job: Job, k: Key, victim: Sid)
    requires PoolOk(sh) && JobOk(sh, job) && k in sh.pool && sh.pool[k] == victim
    ensures var sh' := Closed(sh, victim).(pool := Without(sh.pool, k)); PoolOk(sh') && JobOk(sh', job)
  {
  }

  lemma MemberCloses(sh: Shared, todo: set<Key>, k: Key, sid: Sid)
    requires PoolOk(sh) && ResetOk(sh, todo) && k in todo && k in sh.pool && sh.pool[k] == sid
    ensures PoolOk(Closed(sh, sid)) && ResetOk(Closed(sh, sid), todo - {k})
  {
  }

  /** Removal by identity leaves the session nowhere in the pool, since it could only be under its own key. */
  lemma Unpooled(sh: Shared, req: Request, sid: Sid)
    requires PoolOk(sh) && KeyedFor(sh, sid, req)
    ensures var sh' := sh.(pool := WithoutSession(sh.pool, req.key, sid)); PoolOk(sh') && OutOfPool(sh', sid)
  {
  }

  lemma CancelKeeps(sh: Shared, k: Key)
    requires PoolOk(sh)
    ensures PoolOk(Local(Cancel(k), sh, Proceed).value.1)
  {
  }

  lemma LoserCloses(sh: Shared, req: Request, retry: bool, cand: Sid, existing: Sid)
    requires PoolOk(sh) && PlaceOk(sh, CloseCandidate(req, retry, cand, existing))
    ensures PoolOk(Closed(sh, cand)) && RunOk(Closed(sh, cand), req, existing, LostRace)
  {
  }

  lemma RemoverProceeds(sh: Shared, pc: Pc)
    requires PoolOk(sh) && PlaceOk(sh, pc) && (pc.Remove? || pc.Erase?)
    ensures var (pc', sh') := Local(pc, sh, Proceed).value; PoolOk(sh') && PlaceOk(sh', pc')
  {
    Unpooled(sh, pc.req, pc.sid);
  }

  lemma CloserProceeds(sh: Shared, pc: Pc)
    requires PoolOk(sh) && PlaceOk(sh, pc)
    requires pc.CloseDisplaced? || pc.CloseCandidate? || pc.CloseFirst? || pc.CloseMember? || pc.CloseVictim?
    ensures var (pc', sh') := Local(pc, sh, Proceed).value; PoolOk(sh') && PlaceOk(sh', pc')
  {
    match pc
    case CloseVictim(job, k, victim) => VictimCloses(sh, job, k, victim);
    case CloseMember(todo, k, sid) => MemberCloses(sh, todo, k, sid);
    case CloseCandidate(req, retry, cand, existing) => LoserCloses(sh, req, retry, cand, existing);
    case CloseDisplaced(_, _, sid) => ClosedKeeps(sh, sid);
    case CloseFirst(_, sid) => ClosedKeeps(sh, sid);
  }

  lemma MoverProceeds(sh: Shared, pc: Pc)
    requires PoolOk(sh) && PlaceOk(sh, pc) && Local(pc, sh, Proceed).Some?
    ensures var (pc', sh') := Local(pc, sh, Proceed).value; PoolOk(sh') && PlaceOk(sh', pc')
  {
    if pc.Sweep? {
      SweepEnds(sh, pc.job);
    } else if pc.Remove? || pc.Erase? {
      RemoverProceeds(sh, pc);
    } else if pc.Cancel? {
      CancelKeeps(sh, pc.k);
    } else if !pc.ReadTransport? && !pc.Reset? && !pc.Swapped? {
      CloserProceeds(sh, pc);
    }
  }

  lemma MoverRuns(sh: Shared, pc: Pc, remove: bool, again: bool)
    requires PoolOk(sh) && PlaceOk(sh, pc) && pc.Run?
    ensures var (pc', sh') := Local(pc, sh, RunEnds(remove, again)).value; PoolOk(sh') && PlaceOk(sh', pc')
  {
  }

  lemma MoverConnects(sh: Shared, pc: Pc, sid: Sid)
    requires PoolOk(sh) && pc.Connect? && sid !in sh.table
    ensures var (pc', sh') := Local(pc, sh, ConnectWorks(sid)).value; PoolOk(sh') && PlaceOk(sh', pc')
  {
  }

  /** The mover's own place. */
  lemma MoverOk(sh: Shared, pc: Pc, a: Action)
    requires PoolOk(sh) && PlaceOk(sh, pc) && Local(pc, sh, a).Some?
    ensures var (pc', sh') := Local(pc, sh, a).value; PoolOk(sh') && PlaceOk(sh', pc')
  {
    match a
    case Proceed => MoverProceeds(sh, pc);
    case RunEnds(remove, again) => MoverRuns(sh, pc, remove, again);
    case ConnectWorks(sid) => MoverConnects(sh, pc, sid);
    case _ =>
  }

  /** Another thread's place, when that thread is outside the mutexes the mover is inside of. */
  lemma BystanderOk(sh: Shared, pc: Pc, a: Action, other: Pc)
    requires PoolOk(sh) && PlaceOk(sh, pc) && PlaceOk(sh, other) && Local(pc, sh, a).Some?
    requires Holds(pc) !! Holds(other)
    requires Candidate(other).Some? ==> Candidate(other).value !in Refs(pc)
    requires Candidate(pc).Some? ==> Candidate(pc).value !in Refs(other)
    ensures PlaceOk(Local(pc, sh, a).value.1, other)
  {
    PoolChangedInside(sh, pc, a);
    TableGrows(sh, pc, a);
    StepReach(sh, pc, a);
  }

  lemma StepPlaces(s: State, t: Tid, a: Action)
    requires Inv(s) && Enabled(s, t, a)
    ensures PoolOk(Apply(s, t, a).sh) && PlacesOk(Apply(s, t, a))
  {
    var s' := Apply(s, t, a);
    MoverOk(s.sh, s.pcs[t], a);
    forall u | 0 <= u < |s'.pcs|
      ensures PlaceOk(s'.sh, s'.pcs[u])
    {
      if u != t {
        BystanderOk(s.sh, s.pcs[t], a, s.pcs[u]);
      }
    }
  }

  lemma StepExcludes(s: State, t: Tid, a: Action)
    requires Inv(s) && Enabled(s, t, a)
    ensures MutualExclusion(Apply(s, t, a))
  {
    var s' := Apply(s, t, a);
    forall u | 0 <= u < |s.pcs| && u != t
      ensures Holds(s'.pcs[t]) !! Holds(s.pcs[u])
    {
      forall l | l in Holds(s'.pcs[t])
        ensures l !in Holds(s.pcs[u])
      {
        if l in Holds(s.pcs[t]) {
        } else {
          assert Free(s, t, l);
        }
      }
    }
  }

  ghost predicate IsPooled(sh: Shared, sid: Sid) {
    exists k :: k in sh.pool && sh.pool[k] == sid
  }

  /** A candidate is kept or newly connected; new pointers come from the pool or are the mover's own. */
  ghost predicate PointsOnlyTo(pc: Pc, sh: Shared, pc': Pc) {
    && (Candidate(pc').Some? ==> Candidate(pc') == Candidate(pc) || Candidate(pc').value !in sh.table)
    && (forall sid | sid in Refs(pc') :: sid in Refs(pc) || IsPooled(sh, sid) || sid !in sh.table)
  }

  lemma LookupPoints(sh: Shared, req: Request, retry: bool)
    ensures PointsOnlyTo(Sweep(ForLookup(req, retry)), sh, AfterSweep(ForLookup(req, retry), sh).0)
  {
    if req.key in sh.pool {
      assert IsPooled(sh, sh.pool[req.key]);
    }
  }

  lemma InsertPoints(sh: Shared, req: Request, retry: bool, cand: Sid)
    ensures PointsOnlyTo(Sweep(ForInsert(req, retry, cand)), sh, AfterSweep(ForInsert(req, retry, cand), sh).0)
    ensures PointsOnlyTo(Sweep(AfterInsert(req, retry, cand)), sh, AfterSweep(AfterInsert(req, retry, cand), sh).0)
  {
    if req.key in sh.pool {
      assert IsPooled(sh, sh.pool[req.key]);
    }
  }

  lemma OthersPoint(sh: Shared, pc: Pc)
    requires ProceedFrom(pc, sh).Some? && !pc.Sweep?
    ensures var pc' := ProceedFrom(pc, sh).value.0;
            Refs(pc') <= Refs(pc) && (Candidate(pc').Some? ==> Candidate(pc') == Candidate(pc))
  {
  }

  lemma ProceedPoints(sh: Shared, pc: Pc)
    requires ProceedFrom(pc, sh).Some?
    ensures PointsOnlyTo(pc, sh, ProceedFrom(pc, sh).value.0)
  {
    match pc
    case Sweep(ForLookup(req, retry)) => LookupPoints(sh, req, retry);
    case Sweep(ForInsert(req, retry, cand)) => InsertPoints(sh, req, retry, cand);
    case Sweep(AfterInsert(req, retry, cand)) => InsertPoints(sh, req, retry, cand);
    case _ => OthersPoint(sh, pc);
  }

  lemma AcquiredPoints(sh: Shared, pc: Pc)
    ensures PointsOnlyTo(pc, sh, Acquired(pc, sh))
  {
  }

  lemma PointersMove(sh: Shared, pc: Pc, a: Action)
    requires Local(pc, sh, a).Some?
    ensures PointsOnlyTo(pc, sh, Local(pc, sh, a).value.0)
  {
    if a == Proceed {
      ProceedPoints(sh, pc);
    } else if a == Acquire {
      AcquiredPoints(sh, pc);
    } else if a.Pick? {
      assert IsPooled(sh, sh.pool[a.k]);
    }
  }

  lemma BystanderPrivate(s: State, t: Tid, a: Action, u: Tid)
    requires Inv(s) && Enabled(s, t, a) && u < |s.pcs| && u != t
    ensures var (pc', _) := Local(s.pcs[t], s.sh, a).value;
            && (Candidate(pc').Some? ==> Candidate(pc').value !in Refs(s.pcs[u]))
            && (Candidate(s.pcs[u]).Some? ==> Candidate(s.pcs[u]).value !in Refs(pc'))
  {
    PointersMove(s.sh, s.pcs[t], a);
    RefsKnown(s.sh, s.pcs[u]);
    if Candidate(s.pcs[u]).Some? {
      assert OutOfPool(s.sh, Candidate(s.pcs[u]).value);
    }
  }

  lemma StepPrivate(s: State, t: Tid, a: Action)
    requires Inv(s) && Enabled(s, t, a)
    ensures CandidatesPrivate(Apply(s, t, a))
  {
    forall u | 0 <= u < |s.pcs| && u != t
      ensures var (pc', _) := Local(s.pcs[t], s.sh, a).value;
              && (Candidate(pc').Some? ==> Candidate(pc').value !in Refs(s.pcs[u]))
              && (Candidate(s.pcs[u]).Some? ==> Candidate(s.pcs[u]).value !in Refs(pc'))
    {
      BystanderPrivate(s, t, a, u);
    }
  }

  // The size of the pool

  /** A pool that grows is in the hands of the thread that grew it, which has room for it. */
  ghost predicate SizeKept(pc: Pc, sh: Shared, pc': Pc, sh': Shared) {
    && (|sh'.pool| <= |sh.pool| || (|sh.pool| <= MAX_SESSIONS && Bridge in Holds(pc') && |sh'.pool| <= Room(pc')))
    && (Bridge in Holds(pc) && MAX_SESSIONS < |sh'.pool| <= |sh.pool| <= Room(pc) ==>
          Bridge in Holds(pc') && |sh'.pool| <= Room(pc'))
  }

  lemma WithoutIsSmaller(pool: map<Key, Sid>, k: Key)
    ensures |Without(pool, k)| == if k in pool then |pool| - 1 else |pool|
  {
    assert Without(pool, k).Keys == pool.Keys - {k};
  }

  lemma InsertIsLarger(pool: map<Key, Sid>, k: Key, sid: Sid)
    ensures |pool[k := sid]| == if k in pool then |pool| else |pool| + 1
  {
    assert pool[k := sid].Keys == pool.Keys + {k};
  }

  lemma SweepSize(sh: Shared, job: Job)
    requires |sh.pool| <= MAX_SESSIONS
    ensures SizeKept(Sweep(job), sh, AfterSweep(job, sh).0, AfterSweep(job, sh).1)
  {
    match job
    case ForLookup(req, _) => WithoutIsSmaller(sh.pool, req.key);
    case ForInsert(req, _, cand) => InsertIsLarger(sh.pool, req.key, cand);
    case _ =>
  }

  lemma OthersSize(sh: Shared, pc: Pc)
    requires ProceedFrom(pc, sh).Some? && !pc.Sweep?
    ensures |ProceedFrom(pc, sh).value.1.pool| <= |sh.pool|
  {
    match pc
    case CloseVictim(_, k, _) => WithoutIsSmaller(sh.pool, k);
    case Remove(req, _, _, _) => WithoutIsSmaller(sh.pool, req.key);
    case Erase(req, _) => WithoutIsSmaller(sh.pool, req.key);
    case _ =>
  }

  lemma OnlySweepsHaveRoom(pc: Pc)
    ensures Room(pc) > MAX_SESSIONS ==> pc.Sweep? || pc.WantVictim? || pc.CloseVictim?
  {
  }

  lemma ProceedSize(sh: Shared, pc: Pc)
    requires ProceedFrom(pc, sh).Some?
    ensures SizeKept(pc, sh, ProceedFrom(pc, sh).value.0, ProceedFrom(pc, sh).value.1)
  {
    if pc.Sweep? {
      SweepSize(sh, pc.job);
    } else {
      OthersSize(sh, pc);
      OnlySweepsHaveRoom(pc);
    }
  }

  lemma SizeStep(sh: Shared, pc: Pc, a: Action)
    requires Local(pc, sh, a).Some?
    ensures SizeKept(pc, sh, Local(pc, sh, a).value.0, Local(pc, sh, a).value.1)
  {
    if a == Proceed {
      ProceedSize(sh, pc);
    }
  }

  lemma StepWithinRoom(s: State, t: Tid, a: Action)
    requires Inv(s) && Enabled(s, t, a)
    ensures WithinRoom(Apply(s, t, a))
  {
    var s' := Apply(s, t, a);
    SizeStep(s.sh, s.pcs[t], a);
    if |s'.sh.pool| > MAX_SESSIONS {
      if |s.sh.pool| <= MAX_SESSIONS {
        assert Bridge in Holds(s'.pcs[t]) && |s'.sh.pool| <= Room(s'.pcs[t]);
      } else {
        var u :| 0 <= u < |s.pcs| && Bridge in Holds(s.pcs[u]) && |s.sh.pool| <= Room(s.pcs[u]);
        if u == t {
          assert Bridge in Holds(s'.pcs[t]) && |s'.sh.pool| <= Room(s'.pcs[t]);
        } else {
          PoolChangedInside(s.sh, s.pcs[t], a);
          assert s'.pcs[u] == s.pcs[u];
        }
      }
    }
  }

  // Ownership

  /** An open session outside the pool that the mover does not own was so before. */
  ghost predicate Unclaimed(sh: Shared, pc: Pc, sid: Sid) {
    OutOfPool(sh, sid) && sh.table[sid].open && !Owns(pc, sid)
  }

  lemma OwnedAfterSweep(sh: Shared, job: Job, sid: Sid)
    requires PoolOk(sh) && JobOk(sh, job)
    requires var (pc', sh') := AfterSweep(job, sh); Unclaimed(sh', pc', sid)
    ensures Unclaimed(sh, Sweep(job), sid)
  {
    var sh' := AfterSweep(job, sh).1;
    if job.ForInsert? && job.req.key !in sh.pool {
      assert sh'.pool[job.req.key] == job.cand;
    }
    forall k | k in sh.pool
      ensures sh.pool[k] != sid
    {
      if k in sh'.pool {
        assert sh'.pool[k] == sh.pool[k];
      }
    }
  }

  lemma OwnedAfterClose(sh: Shared, pc: Pc, closed: Sid, sid: Sid)
    requires pc.CloseDisplaced? || pc.CloseCandidate? || pc.CloseFirst? || pc.CloseMember?
    requires closed == (if pc.CloseCandidate? then pc.cand else pc.sid)
    requires Unclaimed(Closed(sh, closed), Idle, sid) && closed in sh.table
    ensures Unclaimed(sh, pc, sid)
  {
  }

  lemma OwnedAfterErase(sh: Shared, pc: Pc, sid: Sid)
    requires PoolOk(sh) && PlaceOk(sh, pc) && (pc.Remove? || pc.Erase?)
    requires var (pc', sh') := Local(pc, sh, Proceed).value; Unclaimed(sh', pc', sid)
    ensures Unclaimed(sh, pc, sid)
  {
    var sh' := Local(pc, sh, Proceed).value.1;
    forall k | k in sh.pool
      ensures sh.pool[k] != sid
    {
      if k in sh'.pool {
        assert sh'.pool[k] == sh.pool[k];
      }
    }
  }

  lemma OwnedAfterVictim(sh: Shared, job: Job, k: Key, victim: Sid, sid: Sid)
    requires PlaceOk(sh, CloseVictim(job, k, victim)) && victim in sh.table
    requires var sh' := Closed(sh, victim).(pool := Without(sh.pool, k)); Unclaimed(sh', Sweep(job), sid)
    ensures Unclaimed(sh, CloseVictim(job, k, victim), sid)
  {
    forall j | j in sh.pool
      ensures sh.pool[j] != sid
    {
      if j != k {
        assert j in Without(sh.pool, k);
      }
    }
  }

  lemma OwnedProceed(sh: Shared, pc: Pc, sid: Sid)
    requires PoolOk(sh) && PlaceOk(sh, pc) && Local(pc, sh, Proceed).Some?
    requires var (pc', sh') := Local(pc, sh, Proceed).value; Unclaimed(sh', pc', sid)
    ensures Unclaimed(sh, pc, sid)
  {
    match pc
    case Sweep(job) => OwnedAfterSweep(sh, job, sid);
    case CloseVictim(job, k, victim) => OwnedAfterVictim(sh, job, k, victim, sid);
    case CloseDisplaced(_, _, x) => OwnedAfterClose(sh, pc, x, sid);
    case CloseCandidate(_, _, x, _) => OwnedAfterClose(sh, pc, x, sid);
    case CloseFirst(_, x) => OwnedAfterClose(sh, pc, x, sid);
    case CloseMember(_, _, x) => OwnedAfterClose(sh, pc, x, sid);
    case Remove(_, _, _, _) => OwnedAfterErase(sh, pc, sid);
    case Erase(_, _) => OwnedAfterErase(sh, pc, sid);
    case _ =>
  }

  lemma OwnedStep(sh: Shared, pc: Pc, a: Action, sid: Sid)
    requires PoolOk(sh) && PlaceOk(sh, pc) && Local(pc, sh, a).Some?
    requires var (pc', sh') := Local(pc, sh, a).value; Unclaimed(sh', pc', sid)
    ensures Unclaimed(sh, pc, sid)
  {
    if a == Proceed {
      OwnedProceed(sh, pc, sid);
    }
  }

  lemma StepLeaksNothing(s: State, t: Tid, a: Action)
    requires Inv(s) && Enabled(s, t, a)
    ensures NoneLeaked(Apply(s, t, a))
  {
    var s' := Apply(s, t, a);
    forall sid | sid in s'.sh.table && s'.sh.table[sid].open && OutOfPool(s'.sh, sid)
      ensures exists u :: 0 <= u < |s'.pcs| && Owns(s'.pcs[u], sid)
    {
      if !Owns(s'.pcs[t], sid) {
        OwnedStep(s.sh, s.pcs[t], a, sid);
        var u :| 0 <= u < |s.pcs| && Owns(s.pcs[u], sid);
        assert s'.pcs[u] == s.pcs[u];
      }
    }
  }

  /** A closed session in the pool that the mover is not bound to drop. */
  ghost predicate Rotten(sh: Shared, pc: Pc, k: Key) {
    k in sh.pool && sh.pool[k] in sh.table && !sh.table[sh.pool[k]].open && !Drops(pc, sh.pool[k])
  }

  lemma RottenProceed(sh: Shared, pc: Pc, k: Key)
    requires PoolOk(sh) && PlaceOk(sh, pc) && Local(pc, sh, Proceed).Some?
    requires var (pc', sh') := Local(pc, sh, Proceed).value; Rotten(sh', pc', k)
    ensures Rotten(sh, pc, k) && Local(pc, sh, Proceed).value.1.pool[k] == sh.pool[k]
  {
    match pc
    case Sweep(job) => RottenAfterSweep(sh, job, k);
    case CloseVictim(job, j, victim) => RottenAfterVictim(sh, job, j, victim, k);
    case Remove(_, _, _, _) => RottenAfterErase(sh, pc, k);
    case Erase(_, _) => RottenAfterErase(sh, pc, k);
    case _ =>
  }

  lemma RottenAfterSweep(sh: Shared, job: Job, k: Key)
    requires PoolOk(sh) && JobOk(sh, job)
    requires var (pc', sh') := AfterSweep(job, sh); Rotten(sh', pc', k)
    ensures Rotten(sh, Sweep(job), k) && AfterSweep(job, sh).1.pool[k] == sh.pool[k]
  {
  }

  lemma RottenAfterVictim(sh: Shared, job: Job, j: Key, victim: Sid, k: Key)
    requires PoolOk(sh) && PlaceOk(sh, CloseVictim(job, j, victim))
    requires Rotten(Closed(sh, victim).(pool := Without(sh.pool, j)), Sweep(job), k)
    ensures Rotten(sh, CloseVictim(job, j, victim), k) && k != j
  {
  }

  lemma RottenAfterErase(sh: Shared, pc: Pc, k: Key)
    requires PoolOk(sh) && PlaceOk(sh, pc) && (pc.Remove? || pc.Erase?)
    requires var (pc', sh') := Local(pc, sh, Proceed).value; Rotten(sh', pc', k)
    ensures Rotten(sh, pc, k) && Local(pc, sh, Proceed).value.1.pool[k] == sh.pool[k]
  {
    Unpooled(sh, pc.req, pc.sid);
  }

  lemma DroppedStep(sh: Shared, pc: Pc, a: Action, k: Key)
    requires PoolOk(sh) && PlaceOk(sh, pc) && Local(pc, sh, a).Some?
    requires var (pc', sh') := Local(pc, sh, a).value; Rotten(sh', pc', k)
    ensures Rotten(sh, pc, k) && Local(pc, sh, a).value.1.pool[k] == sh.pool[k]
  {
    if a == Proceed {
      RottenProceed(sh, pc, k);
    }
  }

  lemma StepRotsNothing(s: State, t: Tid, a: Action)
    requires Inv(s) && Enabled(s, t, a)
    ensures NoneRotting(Apply(s, t, a))
  {
    var s' := Apply(s, t, a);
    forall k | k in s'.sh.pool && s'.sh.pool[k] in s'.sh.table && !s'.sh.table[s'.sh.pool[k]].open
      ensures exists u :: 0 <= u < |s'.pcs| && Drops(s'.pcs[u], s'.sh.pool[k])
    {
      if !Drops(s'.pcs[t], s'.sh.pool[k]) {
        DroppedStep(s.sh, s.pcs[t], a, k);
        var u :| 0 <= u < |s.pcs| && Drops(s.pcs[u], s.sh.pool[k]);
        assert s'.pcs[u] == s.pcs[u];
      }
    }
  }

  lemma StepKeeps(s: State, t: Tid, a: Action)
    requires Inv(s) && Enabled(s, t, a)
    ensures Inv(Apply(s, t, a))
  {
    StepPlaces(s, t, a);
    StepExcludes(s, t, a);
    StepPrivate(s, t, a);
    StepWithinRoom(s, t, a);
    StepLeaksNothing(s, t, a);
    StepRotsNothing(s, t, a);
  }

  lemma {:induction false} RunKeeps(run: seq<State>)
    requires IsRun(run)
    ensures Inv(run[|run| - 1])
  {
    if |run| > 1 {
      RunKeeps(run[..|run| - 1]);
      var t, a :| Enabled(run[|run| - 2], t, a) && run[|run| - 1] == Apply(run[|run| - 2], t, a);
      StepKeeps(run[|run| - 2], t, a);
    }
  }
}
