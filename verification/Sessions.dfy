/** The session manager of internal/core/session.go: each method is one mutex region. */
module Sessions {
  import opened Text
  import opened Candidates
  import opened PoolModel
  import opened Usernames
  import opened Pools
  import opened SessionModel

  class SessionManager {
    var bindings: map<string, Binding>
    const defaultTTL: int
    const maxTTL: int
    var lastSweep: Time

    ghost function State(): Table
      reads this
    {
      Table(bindings, lastSweep)
    }

    ghost function Cfg(): Config {
      Config(defaultTTL, maxTTL)
    }

    constructor (defaultTTL: int, maxTTL: int)
      ensures State() == Table(map[], 0)
      ensures this.defaultTTL == defaultTTL && this.maxTTL == maxTTL
    {
      this.defaultTTL, this.maxTTL := defaultTTL, maxTTL;
      bindings, lastSweep := map[], 0;
    }

    /** Drops expired bindings one by one, unless the last sweep is recent. */
    method SweepExpired(now: Instant, interval: int)
      modifies this
      ensures State() == SweepTable(old(State()), now, interval)
    {
      if interval > 0 && lastSweep != 0 && now - lastSweep < interval {
        return;
      }
      ghost var all := bindings;
      var left := bindings.Keys;
      while left != {}
        invariant left <= all.Keys
        invariant bindings.Keys == left + (set k | k in all && now < all[k].expiresAt)
        invariant forall k :: k in bindings ==> bindings[k] == all[k]
        decreases left
      {
        var k :| k in left;
        if !(now < bindings[k].expiresAt) {
          bindings := bindings - {k};
        }
        left := left - {k};
      }
      assert bindings == Live(all, now);
      lastSweep := now;
    }

    method GetBound(info: SessionInfo, pool: Pool, now: Instant) returns (r: Option<Candidate>)
      modifies this
      ensures (State(), r) == SessionModel.GetBound(old(State()), info, pool.State(), now)
    {
      hide BindingKey, Live;
      if info.sessionID == "" {
        return None;
      }
      var key := BindingKey(info);
      SweepExpired(now, SWEEP_INTERVAL);
      if key !in bindings || !(now < bindings[key].expiresAt) {
        bindings := bindings - {key};
        return None;
      }
      var c := pool.GetAvailable(bindings[key].fingerprint);
      if c.None? || !c.value.MatchesRoute(info.plugin, info.region) {
        bindings := bindings - {key};
        return None;
      }
      bindings := bindings[key := Touch(bindings[key], now)];
      r := c;
    }

    method Rebind(info: SessionInfo, fp: Fingerprint, now: Instant)
      modifies this
      ensures State() == SessionModel.Rebind(Cfg(), old(State()), info, fp, now)
    {
      hide BindingKey;
      if info.sessionID == "" {
        return;
      }
      var ttl := info.ttl;
      if ttl <= 0 {
        ttl := defaultTTL;
      }
      if maxTTL > 0 && ttl > maxTTL {
        ttl := maxTTL;
      }
      bindings := bindings[BindingKey(info) := Binding(fp, now + ttl, ttl)];
    }

    method Unbind(info: SessionInfo)
      modifies this
      ensures State() == SessionModel.Unbind(old(State()), info)
    {
      hide BindingKey;
      if info.sessionID == "" {
        return;
      }
      bindings := bindings - {BindingKey(info)};
    }

    /** Lookup and, failing that, a fresh pick and binding, in one locked region. */
    method Pick(info: SessionInfo, pool: Pool, policy: string, now: Instant)
      returns (r: Option<Candidate>, ghost draw: Draw)
      requires pool.Valid()
      modifies this, pool
      ensures pool.Valid()
      ensures (State(), pool.State(), r) == SessionModel.Pick(Cfg(), old(State()), info, old(pool.State()), draw, now)
      ensures draw.ByCursor? <==> policy == ROUND_ROBIN
    {
      hide BindingKey, Live, RandomResult;
      if info.sessionID == "" {
        r, draw := PickFromPool(pool, policy, info);
        return;
      }
      var key := BindingKey(info);
      SweepExpired(now, SWEEP_INTERVAL);
      if key in bindings && now < bindings[key].expiresAt {
        var c := pool.GetAvailable(bindings[key].fingerprint);
        if c.None? || !c.value.MatchesRoute(info.plugin, info.region) {
          bindings := bindings - {key};
        } else {
          bindings := bindings[key := Touch(bindings[key], now)];
          draw := if policy == ROUND_ROBIN then ByCursor else FromStart(0);
          return c, draw;
        }
      }
      r, draw := PickFromPool(pool, policy, info);
      if r.Some? {
        Rebind(info, r.value.fingerprint, now);
      }
    }

    method PickFromPool(pool: Pool, policy: string, info: SessionInfo) returns (r: Option<Candidate>, ghost draw: Draw)
      requires pool.Valid()
      modifies pool
      ensures pool.Valid()
      ensures (pool.State(), r) == PickMatching(old(pool.State()), RouteOf(info), draw)
      ensures draw.ByCursor? <==> policy == ROUND_ROBIN
    {
      r := pool.PickMatchingExcluding(policy, RouteOf(info), {});
      if policy == ROUND_ROBIN {
        draw := ByCursor;
      } else if pool.order == [] {
        draw := FromStart(0);
      } else {
        ghost var start :| 0 <= start < |pool.order| && r == PickFrom(pool.State(), RouteOf(info), {}, start);
        draw := FromStart(start);
      }
    }

    method Count(now: Instant) returns (n: nat)
      modifies this
      ensures (State(), n) == SessionModel.Count(old(State()), now)
    {
      SweepExpired(now, 0);
      n := |bindings|;
    }
  }
}
