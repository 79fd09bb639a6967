/**
  The pool of persistent upstream sessions of native/proxy/src/upstream_transport.cpp:
  what each critical section under the bridge mutex does to the map and to the
  sessions in it. Interleavings are the protocol module's business.
*/
module BridgePool {

  type Key = string

  const TTL_MS := 30 * 60 * 1000
  const MAX_SESSIONS := 256

  predicate IsStale(updatedAt: int, now: int) {
    now >= updatedAt && now - updatedAt >= TTL_MS
  }

  function Without<V>(m: map<Key, V>, k: Key): (r: map<Key, V>)
    ensures |r| == |m| - (if k in m then 1 else 0)
  {
    var r := m - {k};
    assert m.Keys == r.Keys + (if k in m then {k} else {});
    r
  }

  /** Removal by identity: an entry that has been replaced since is left alone. */
  function WithoutSession<V(==)>(m: map<Key, V>, k: Key, session: V): map<Key, V> {
    if k in m && m[k] == session then Without(m, k) else m
  }

  /** No session under two keys. */
  predicate Injective<V(==)>(m: map<Key, V>) {
    forall k, j | k in m && j in m && k != j :: m[k] != m[j]
  }

  /** Whether a request may run on a session: continuations always, others only on their own account. */
  predicate SameAccount(hasPrevious: bool, account: string, sessionAccount: string) {
    hasPrevious || account == "" || sessionAccount == "" || account == sessionAccount
  }

  class Session {
    const account: string
    var open: bool
    var updatedAt: int
    var cancelRequested: bool

    constructor (account: string, now: int)
      ensures this.account == account && open && updatedAt == now && !cancelRequested
    {
      this.account := account;
      open, updatedAt, cancelRequested := true, now, false;
    }
  }

  class Pool {
    var sessions: map<Key, Session>

    constructor ()
      ensures sessions == map[]
    {
      sessions := map[];
    }

    ghost predicate Valid()
      reads this
    {
      Injective(sessions)
    }

    /** Close, then erase: the two lines both sweeps end with. */
    method Evict(k: Key)
      requires Valid() && k in sessions
      modifies this, sessions.Values`open
      ensures Valid() && sessions == Without(old(sessions), k)
      ensures forall j | j in old(sessions) :: old(sessions)[j].open == (old(sessions[j].open) && j != k)
    {
      sessions[k].open := false;
      sessions := Without(sessions, k);
    }

    /** Closes and drops exactly the stale sessions. */
    method PurgeStale(now: int)
      requires Valid()
      modifies this, sessions.Values`open
      ensures Valid()
      ensures sessions == map k | k in old(sessions) && now - old(sessions)[k].updatedAt < 1_800_000 :: old(sessions)[k]
      ensures forall k | k in old(sessions) ::
                old(sessions)[k].open == (old(sessions[k].open) && now - old(sessions[k].updatedAt) < 1_800_000)
    {
      ghost var before := sessions;
      var todo := sessions.Keys;
      while todo != {}
        invariant todo <= sessions.Keys <= before.Keys
        invariant forall k | k in sessions :: sessions[k] == before[k]
        invariant forall k | k in before && k !in sessions :: IsStale(before[k].updatedAt, now) && !before[k].open
        invariant forall k | k in sessions :: before[k].open == old(before[k].open)
        invariant forall k | k in sessions && k !in todo :: !IsStale(before[k].updatedAt, now)
        decreases |todo|
      {
        var k :| k in todo;
        todo := todo - {k};
        var updatedAt := sessions[k].updatedAt;
        var stale := now >= updatedAt && now - updatedAt >= TTL_MS;
        if !stale {
          continue;
        }
        Evict(k);
      }
    }

    /** The least recently used entry. */
    method LeastRecent() returns (lru: Key)
      requires sessions != map[]
      ensures lru in sessions && forall k | k in sessions :: sessions[lru].updatedAt <= sessions[k].updatedAt
    {
      var todo := sessions.Keys;
      lru :| lru in todo;
      todo := todo - {lru};
      while todo != {}
        invariant todo < sessions.Keys && lru in sessions
        invariant forall k | k in sessions && k !in todo :: sessions[lru].updatedAt <= sessions[k].updatedAt
        decreases |todo|
      {
        var k :| k in todo;
        todo := todo - {k};
        if sessions[k].updatedAt < sessions[lru].updatedAt {
          lru := k;
        }
      }
    }

    /** One turn of the loop below. */
    method EvictOldest() returns (lru: Key)
      requires Valid() && sessions != map[]
      modifies this, sessions.Values`open
      ensures Valid() && lru in old(sessions) && sessions == Without(old(sessions), lru)
      ensures |sessions| == |old(sessions)| - 1
      ensures forall j | j in old(sessions) :: old(sessions)[j].open == (old(sessions[j].open) && j != lru)
      ensures forall k | k in old(sessions) :: old(sessions)[lru].updatedAt <= old(sessions)[k].updatedAt
    {
      lru := LeastRecent();
      assert Without(sessions, lru).Keys == sessions.Keys - {lru};
      Evict(lru);
    }

    /** Evicts and closes oldest sessions until the pool is within bounds, and no more than that. */
    method Trim()
      requires Valid()
      modifies this, sessions.Values`open
      ensures Valid()
      ensures |sessions| == if |old(sessions)| > 256 then 256 else |old(sessions)|
      ensures sessions.Keys <= old(sessions).Keys && forall k | k in sessions :: sessions[k] == old(sessions)[k]
      ensures forall k | k in old(sessions) ::
                old(sessions)[k].open == (old(sessions[k].open) && k in sessions)
      ensures forall gone, kept | gone in old(sessions) && gone !in sessions && kept in sessions ::
                old(sessions)[gone].updatedAt <= sessions[kept].updatedAt
    {
      ghost var before, newestGone := sessions, 0;
      while |sessions| > MAX_SESSIONS
        invariant sessions.Keys <= before.Keys
        invariant forall k | k in sessions :: sessions[k] == before[k]
        invariant forall k | k in before && k !in sessions :: !before[k].open
        invariant forall k | k in sessions :: before[k].open == old(before[k].open)
        invariant forall k | k in before && k !in sessions :: before[k].updatedAt <= newestGone
        invariant sessions != before ==> forall k | k in sessions :: newestGone <= before[k].updatedAt
        invariant |sessions| >= MAX_SESSIONS || sessions == before
        decreases |sessions|
      {
        var lru := EvictOldest();
        newestGone := before[lru].updatedAt;
      }
    }

    method Reset()
      requires Valid()
      modifies this, sessions.Values`open
      ensures sessions == map[]
      ensures forall k | k in old(sessions) :: !old(sessions)[k].open
    {
      var todo := sessions.Keys;
      while todo != {}
        invariant todo <= sessions.Keys && sessions == old(sessions)
        invariant forall k | k in sessions && k !in todo :: !sessions[k].open
        decreases |todo|
      {
        var k :| k in todo;
        todo := todo - {k};
        sessions[k].open := false;
      }
      sessions := map[];
    }

    /** A session to reuse, or one taken out of the map because it may not be reused. */
    method Find(key: Key, hasPrevious: bool, account: string) returns (reused: Session?, displaced: Session?)
      requires Valid()
      modifies this
      ensures Valid()
      ensures reused != null ==> key in old(sessions) && reused == old(sessions)[key]
      ensures reused != null || key !in old(sessions) ==> sessions == old(sessions) && displaced == null
      ensures reused == null && key in old(sessions) ==>
                sessions == Without(old(sessions), key) && displaced == old(sessions)[key]
      ensures key in old(sessions) ==>
                (reused != null <==>
                  && !old(sessions)[key].cancelRequested
                  && (hasPrevious || account == "" || old(sessions)[key].account in {"", account}))
    {
      reused, displaced := null, null;
      if key in sessions {
        var existing := sessions[key];
        var cancelled := existing.cancelRequested;
        var mismatched := !hasPrevious && account != "" && existing.account != "" && existing.account != account;
        if !cancelled && !mismatched {
          return existing, null;
        }
        sessions := Without(sessions, key);
        displaced := existing;
      }
    }

    /** Inserts unless another session got there first, which is then returned, whoever it belongs to. */
    method TryInsert(key: Key, candidate: Session) returns (winner: Session)
      requires Valid() && candidate !in sessions.Values
      modifies this
      ensures Valid()
      ensures key in old(sessions) ==> winner == old(sessions)[key] && sessions == old(sessions)
      ensures key !in old(sessions) ==> winner == candidate && sessions == old(sessions)[key := candidate]
    {
      if key in sessions {
        return sessions[key];
      }
      assert forall k | k in sessions :: sessions[k] in sessions.Values;
      sessions := sessions[key := candidate];
      winner := candidate;
    }

    /** What a failed run does: drop its own session, never a newer one under the same key. */
    method RemoveIfSame(key: Key, session: Session)
      requires Valid()
      modifies this
      ensures Valid()
      ensures sessions == WithoutSession(old(sessions), key, session)
      ensures key in sessions ==> sessions[key] != session
    {
      if key in sessions && sessions[key] == session {
        sessions := Without(sessions, key);
      }
    }

    method RequestCancel(key: Key)
      requires Valid()
      modifies sessions.Values`cancelRequested
      ensures forall k | k in sessions ::
                sessions[k].cancelRequested == (old(sessions[k].cancelRequested) || k == key)
    {
      if key in sessions {
        sessions[key].cancelRequested := true;
      }
    }
  }
}
