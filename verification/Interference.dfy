/**
 * The retry loop among other requests and refreshes (internal/proxy/server.go): between any two of its locked regions
 * the others may leave the pool and the session table in any sound state.
 */
module Interference {
  import opened Text
  import opened Candidates
  import opened PoolModel
  import opened PoolFastCut
  import opened Pools
  import opened Usernames
  import opened SessionModel
  import opened Scopes
  import opened Sessions
  import opened Scheduler

  /** Everyone else; what they leave behind each time they run is arbitrary. */
  class Others {
    const pool: Pool
    const sessions: SessionManager
    const pools: nat -> PoolState
    const tables: nat -> Table
    var turn: nat

    constructor (pool: Pool, sessions: SessionManager, pools: nat -> PoolState, tables: nat -> Table)
      ensures this.pool == pool && this.sessions == sessions && this.pools == pools && this.tables == tables
    {
      this.pool, this.sessions, this.pools, this.tables, turn := pool, sessions, pools, tables, 0;
    }

    /** Whatever they do, they do it through the pool's own operations, which keep its index in agreement. */
    ghost predicate KeepPoolSound() {
      forall k: nat :: Inv(pools(k))
    }

    method Intervene()
      requires KeepPoolSound()
      modifies this, pool, sessions
      ensures pool.Valid() && pool.State() == pools(old(turn)) && sessions.State() == tables(old(turn))
      ensures turn == old(turn) + 1
    {
      hide Inv;
      var s, t := pools(turn), tables(turn);
      pool.items, pool.dialers, pool.order, pool.rr := s.items, s.dialers, s.order, s.rr;
      sessions.bindings, sessions.lastSweep := t.bindings, t.lastSweep;
      turn := turn + 1;
    }
  }

  /** One attempt: the pool it was picked from, the pool its dialer was looked up in, and the pool before and after the
      request's own mark. */
  datatype Turn = Turn(found: PoolState, picked: Candidate, dispatched: PoolState, failure: Option<string>,
                       before: PoolState, after: PoolState, at: Instant)

  ghost predicate SoundTurn(t: Turn, route: Predicate, dial: DialOracle, maxFailures: int) {
    && Serves(t.found, route, t.picked)
    && t.failure == DialError(dial, t.dispatched, t.picked)
    && t.after == match t.failure
                  case None => t.before
                  case Some(reason) => MarkFailure(t.before, t.picked.fingerprint, reason, maxFailures, t.at)
  }

  function PickedBy(turns: seq<Turn>): seq<Fingerprint> {
    seq(|turns|, i requires 0 <= i < |turns| => turns[i].picked.fingerprint)
  }

  /** Turns of one request: each sound, no candidate twice, all but perhaps the last one failed. */
  ghost predicate SoundTurns(turns: seq<Turn>, route: Predicate, dial: DialOracle, maxFailures: int) {
    && (forall i :: 0 <= i < |turns| ==> SoundTurn(turns[i], route, dial, maxFailures))
    && (forall i, j :: 0 <= i < j < |turns| ==> turns[i].picked.fingerprint != turns[j].picked.fingerprint)
    && (forall i :: 0 <= i < |turns| - 1 ==> turns[i].failure.Some?)
  }

  lemma PickServes(s: PoolState, route: Predicate, exclude: set<Fingerprint>, c: Candidate)
    requires GoodPick(s, route, exclude, Some(c))
    ensures Serves(s, route, c) && c.fingerprint !in exclude
  {
  }

  lemma OneMoreTurn(turns: seq<Turn>, t: Turn, route: Predicate, dial: DialOracle, maxFailures: int)
    requires SoundTurns(turns, route, dial, maxFailures) && SoundTurn(t, route, dial, maxFailures)
    requires t.picked.fingerprint !in Elements(PickedBy(turns))
    requires turns != [] ==> turns[|turns| - 1].failure.Some?
    ensures SoundTurns(turns + [t], route, dial, maxFailures)
    ensures Elements(PickedBy(turns + [t])) == Elements(PickedBy(turns)) + {t.picked.fingerprint}
  {
    hide SoundTurn;
    assert forall i :: 0 <= i < |turns| ==> PickedBy(turns)[i] == turns[i].picked.fingerprint;
    assert PickedBy(turns + [t]) == PickedBy(turns) + [t.picked.fingerprint];
  }

  /** pickCandidateForAttempt: lookup and pick are separate regions; `found` is the pool of the one that decided. */
  method PickAmongOthers(server: Server, others: Others, info: SessionInfo, attempted: set<Fingerprint>, now: Instant)
    returns (r: Option<Candidate>, ghost found: PoolState)
    requires others.pool == server.pool && others.sessions == server.sessions && others.KeepPoolSound()
    modifies others, server.pool, server.sessions
    ensures server.pool.Valid()
    ensures GoodPick(found, RouteOf(info), attempted, r)
    ensures var table, state := others.tables(old(others.turn)), others.pools(old(others.turn));
            var bound := SessionModel.GetBound(table, info, state, now).1;
            if bound.Some? && bound.value.fingerprint !in attempted then r == bound && found == state
            else PolicyPick(found, server.pool.rr, server.policy, server.fastPoolPercent, info, attempted, r)
  {
    hide Normalized, Eligible, GoodPick, Inv, PolicyPick;
    SessionlessGet(others.tables(others.turn), info, others.pools(others.turn), now);
    others.Intervene();
    if info.sessionID != "" {
      found := server.pool.State();
      BoundIsGood(server.sessions.State(), info, found, attempted, now);
      hide GetBound;
      var bound := server.sessions.GetBound(info, server.pool, now);
      if bound.Some? && bound.value.fingerprint !in attempted {
        return bound, found;
      }
    }
    others.Intervene();
    found := server.pool.State();
    r := server.PickFromPool(info, attempted);
  }

  /** The session is bound to a candidate for its lifetime from now. */
  ghost predicate BoundNow(sessions: SessionManager, info: SessionInfo, fp: Fingerprint, now: Instant)
    reads sessions
  {
    BoundSince(sessions.State(), BindingKey(info), fp, Clamp(info.ttl, sessions.defaultTTL, sessions.maxTTL), now)
  }

  /** One turn: pick, look the dialer up, dial, and settle pool and session, with the others in between. */
  method AttemptAmongOthers(server: Server, others: Others, info: SessionInfo, dial: DialOracle,
                            attempted: set<Fingerprint>, start: Instant)
    returns (picked: Option<Candidate>, ghost t: Turn, ghost found: PoolState, failed: bool, end: Instant)
    requires others.pool == server.pool && others.sessions == server.sessions && others.KeepPoolSound()
    modifies others, server.pool, server.sessions
    ensures server.pool.Valid() && start <= end
    ensures picked.None? ==> GoodPick(found, RouteOf(info), attempted, None)
    ensures picked.Some? ==>
              && t.picked == picked.value && (t.failure.Some? <==> failed)
              && SoundTurn(t, RouteOf(info), dial, server.maxFailures) && picked.value.fingerprint !in attempted
    ensures picked.Some? && !failed && info.sessionID != "" ==>
              BoundNow(server.sessions, info, picked.value.fingerprint, end)
    ensures picked.Some? && failed && info.sessionID != "" ==> BindingKey(info) !in server.sessions.bindings
  {
    hide Normalized, Eligible, GoodPick, Inv, Clamp, BindingKey, PolicyPick, GetBound, RouteOf;
    end := ReadClock(start);
    failed := false;
    picked, found := PickAmongOthers(server, others, info, attempted, end);
    if picked.None? {
      t := Turn(found, EMPTY_CANDIDATE, found, None, found, found, end);
      return;
    }
    var c := picked.value;
    assert Serves(found, RouteOf(info), c) && c.fingerprint !in attempted by {
      PickServes(found, RouteOf(info), attempted, c);
    }
    others.Intervene();
    ghost var dispatched := server.pool.State();
    var custom := server.pool.Dialer(c.fingerprint);
    var failure := DialVia(dial, c, custom);
    end := ReadClock(end);
    others.Intervene();
    ghost var before := server.pool.State();
    failed := failure.Some?;
    if failed {
      server.pool.MarkFailure(c.fingerprint, failure.value, server.maxFailures, end);
      t := Turn(found, c, dispatched, failure, before, server.pool.State(), end);
      others.Intervene();
      if info.sessionID != "" {
        server.sessions.Unbind(info);
      }
    } else {
      t := Turn(found, c, dispatched, failure, before, before, end);
      if info.sessionID != "" {
        server.sessions.Rebind(info, c.fingerprint, end);
      }
    }
  }

  /**
   * dialScheduled among others. Whatever they do: the tried candidates are pairwise distinct, no more than the limit;
   * each was eligible in the pool it was picked from, and each failed one is marked once; the request fails only at the
   * limit, with the session unbound, or when the pool of its last pick has nothing left that is eligible and untried;
   * and the session is bound to the winner when the request returns.
   */
  method DialAmongOthers(server: Server, others: Others, info: SessionInfo, dial: DialOracle, start: Instant)
    returns (r: Option<Candidate>, ghost turns: seq<Turn>, ghost found: PoolState, end: Instant)
    requires others.pool == server.pool && others.sessions == server.sessions && others.KeepPoolSound()
    modifies others, server.pool, server.sessions
    ensures server.pool.Valid() && start <= end
    ensures |turns| <= 1 || |turns| <= server.retryAttempts + 1
    ensures SoundTurns(turns, RouteOf(info), dial, server.maxFailures)
    ensures r.Some? ==> turns != [] && turns[|turns| - 1].picked == r.value && turns[|turns| - 1].failure.None?
    ensures r.None? ==>
              && (turns != [] ==> turns[|turns| - 1].failure.Some?)
              && (|| (&& |turns| >= 1 && |turns| >= server.retryAttempts + 1
                      && (info.sessionID != "" ==> BindingKey(info) !in server.sessions.bindings))
                  || NoneLeft(found, RouteOf(info), Elements(PickedBy(turns))))
    ensures r.Some? && info.sessionID != "" ==>
              BoundNow(server.sessions, info, r.value.fingerprint, end)
  {
    hide Eligible, Inv, BoundNow, SoundTurn, SoundTurns, PickedBy, BindingKey;
    var attempted: set<Fingerprint> := {};
    var maxAttempts := server.retryAttempts + 1;
    if maxAttempts <= 0 {
      maxAttempts := 1;
    }
    turns, end, found := [], start, EMPTY;
    NoTurns(RouteOf(info), dial, server.maxFailures);
    for attempt := 1 to maxAttempts + 1
      invariant start <= end
      invariant attempt > 1 ==> server.pool.Valid()
      invariant |turns| == attempt - 1 && attempted == Elements(PickedBy(turns))
      invariant SoundTurns(turns, RouteOf(info), dial, server.maxFailures)
      invariant turns != [] ==> turns[|turns| - 1].failure.Some?
      invariant turns != [] && info.sessionID != "" ==> BindingKey(info) !in server.sessions.bindings
    {
      var picked, failed;
      ghost var t;
      picked, t, found, failed, end := AttemptAmongOthers(server, others, info, dial, attempted, end);
      if picked.None? {
        return None, turns, found, end;
      }
      OneMoreTurn(turns, t, RouteOf(info), dial, server.maxFailures);
      turns := turns + [t];
      if !failed {
        return picked, turns, found, end;
      }
      attempted := attempted + {picked.value.fingerprint};
    }
    r := None;
  }

  lemma NoTurns(route: Predicate, dial: DialOracle, maxFailures: int)
    ensures SoundTurns([], route, dial, maxFailures) && Elements(PickedBy([])) == {}
  {
  }
}
