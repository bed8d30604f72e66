/** Lazy expiry is invisible: the swept table refines a map whose bindings vanish the moment they expire. */
module SessionRefinement {
  import opened Text
  import opened Candidates
  import opened PoolModel
  import opened Usernames
  import opened SessionModel

  /** One locked operation of the session manager, at the time it read and on the pool it found. */
  datatype Op =
    | Get(info: SessionInfo)
    | Bind(info: SessionInfo, fp: Fingerprint)
    | Drop(info: SessionInfo)
    | PickNext(info: SessionInfo, draw: Draw)
    | CountAll

  datatype Event = Event(op: Op, pool: PoolState, at: Instant)

  datatype Answer = Silent | Chosen(candidate: Option<Candidate>, pool: PoolState) | Size(n: nat)

  function StepTable(cfg: Config, t: Table, e: Event): (Table, Answer) {
    match e.op
    case Get(info) =>
      var (t', c) := GetBound(t, info, e.pool, e.at);
      (t', Chosen(c, e.pool))
    case Bind(info, fp) => (Rebind(cfg, t, info, fp, e.at), Silent)
    case Drop(info) => (Unbind(t, info), Silent)
    case PickNext(info, draw) =>
      var (t', s', c) := Pick(cfg, t, info, e.pool, draw, e.at);
      (t', Chosen(c, s'))
    case CountAll =>
      var (t', n) := Count(t, e.at);
      (t', Size(n))
  }

  /** The reference: a plain map that holds live bindings only and is never swept. */
  type Bindings = map<string, Binding>

  /** A bound candidate that can be served: in the pool, available, and on the session's route. */
  predicate CanServe(s: PoolState, info: SessionInfo, fp: Fingerprint) {
    fp in s.items && s.items[fp].status == Available && s.items[fp].MatchesRoute(info.plugin, info.region)
  }

  function StepMap(cfg: Config, m: Bindings, e: Event): (Bindings, Answer) {
    var live := Live(m, e.at);
    match e.op
    case Get(info) =>
      var key := BindingKey(info);
      if info.sessionID == "" then (live, Chosen(None, e.pool))
      else if key in live && CanServe(e.pool, info, live[key].fingerprint) then
        var b := live[key];
        (live[key := Binding(b.fingerprint, e.at + b.ttl, b.ttl)], Chosen(Some(e.pool.items[b.fingerprint]), e.pool))
      else (live - {key}, Chosen(None, e.pool))
    case Bind(info, fp) =>
      var ttl := Clamp(info.ttl, cfg.defaultTTL, cfg.maxTTL);
      (if info.sessionID == "" then live else live[BindingKey(info) := Binding(fp, e.at + ttl, ttl)], Silent)
    case Drop(info) => (if info.sessionID == "" then live else live - {BindingKey(info)}, Silent)
    case PickNext(info, draw) =>
      var key := BindingKey(info);
      if info.sessionID != "" && key in live && CanServe(e.pool, info, live[key].fingerprint) then
        var b := live[key];
        (live[key := Binding(b.fingerprint, e.at + b.ttl, b.ttl)], Chosen(Some(e.pool.items[b.fingerprint]), e.pool))
      else
        var (s', c) := PickMatching(e.pool, RouteOf(info), draw);
        var ttl := Clamp(info.ttl, cfg.defaultTTL, cfg.maxTTL);
        if info.sessionID == "" then (live, Chosen(c, s'))
        else
          (match c
           case None => live - {key}
           case Some(cand) => live[key := Binding(cand.fingerprint, e.at + ttl, ttl)],
           Chosen(c, s'))
    case CountAll => (live, Size(|live|))
  }

  function RunTable(cfg: Config, t: Table, events: seq<Event>): (Table, seq<Answer>)
    ensures |RunTable(cfg, t, events).1| == |events|
    decreases |events|
  {
    if events == [] then (t, [])
    else
      var (t', a) := StepTable(cfg, t, events[0]);
      var (t'', rest) := RunTable(cfg, t', events[1..]);
      (t'', [a] + rest)
  }

  function RunMap(cfg: Config, m: Bindings, events: seq<Event>): (Bindings, seq<Answer>)
    decreases |events|
  {
    if events == [] then (m, [])
    else
      var (m', a) := StepMap(cfg, m, events[0]);
      var (m'', rest) := RunMap(cfg, m', events[1..]);
      (m'', [a] + rest)
  }

  /** The clock never runs backwards from one locked operation to the next. */
  ghost predicate InOrder(from: int, events: seq<Event>)
    decreases |events|
  {
    events == [] || (from <= events[0].at && InOrder(events[0].at, events[1..]))
  }

  // ------------------------------------------------------------ refinement

  lemma LiveLater(m: Bindings, n: Bindings, from: int, to: int)
    requires Live(m, from) == Live(n, from) && from <= to
    ensures Live(m, to) == Live(n, to)
  {
    forall k
      ensures k in Live(m, to) <==> k in Live(n, to)
      ensures k in Live(m, to) ==> Live(m, to)[k] == Live(n, to)[k]
    {
      assert k in Live(m, from) <==> k in Live(n, from);
    }
  }

  lemma LiveOfLive(m: Bindings, now: int)
    ensures Live(Live(m, now), now) == Live(m, now)
  {
  }

  lemma LiveUpdate(m: Bindings, key: string, b: Binding, now: int)
    ensures Live(m[key := b], now) == if now < b.expiresAt then Live(m, now)[key := b] else Live(m, now) - {key}
  {
  }

  lemma LiveRemove(m: Bindings, key: string, now: int)
    ensures Live(m - {key}, now) == Live(m, now) - {key}
    ensures key !in Live(m, now) ==> Live(m, now) - {key} == Live(m, now)
  {
  }

  lemma SweepIsSilent(t: Table, now: Instant, interval: int)
    ensures Live(SweepTable(t, now, interval).bindings, now) == Live(t.bindings, now)
  {
    LiveOfLive(t.bindings, now);
  }

  lemma LiveLookup(m: Bindings, key: string, now: int)
    ensures key in Live(m, now) <==> key in m && now < m[key].expiresAt
    ensures key in Live(m, now) ==> Live(m, now)[key] == m[key]
  {
  }

  lemma UsableIs(s: PoolState, info: SessionInfo, fp: Fingerprint)
    ensures Usable(s, info, fp) <==> CanServe(s, info, fp)
  {
  }

  lemma GetRefines(t: Table, info: SessionInfo, s: PoolState, now: Instant)
    requires info.sessionID != ""
    ensures var live, key := Live(t.bindings, now), BindingKey(info);
            var (t', c) := GetBound(t, info, s, now);
            if key in live && CanServe(s, info, live[key].fingerprint)
            then
              var b := Binding(live[key].fingerprint, now + live[key].ttl, live[key].ttl);
              Live(t'.bindings, now) == Live(live[key := b], now) && c == Some(s.items[b.fingerprint])
            else Live(t'.bindings, now) == live - {key} && c == None
  {
    hide Live, BindingKey, Usable, CanServe, SweepTable;
    var key, m := BindingKey(info), SweepTable(t, now, SWEEP_INTERVAL).bindings;
    SweepIsSilent(t, now, SWEEP_INTERVAL);
    LiveLookup(m, key, now);
    LiveRemove(m, key, now);
    LiveOfLive(m, now);
    if key in m {
      var b := Binding(m[key].fingerprint, now + m[key].ttl, m[key].ttl);
      UsableIs(s, info, m[key].fingerprint);
      LiveUpdate(m, key, b, now);
      LiveUpdate(Live(m, now), key, b, now);
    }
  }

  lemma PickRefines(cfg: Config, t: Table, info: SessionInfo, s: PoolState, draw: Draw, now: Instant)
    requires info.sessionID != ""
    ensures var live, key := Live(t.bindings, now), BindingKey(info);
            var (t', s', c) := Pick(cfg, t, info, s, draw, now);
            var ttl := Clamp(info.ttl, cfg.defaultTTL, cfg.maxTTL);
            if key in live && CanServe(s, info, live[key].fingerprint)
            then
              var b := Binding(live[key].fingerprint, now + live[key].ttl, live[key].ttl);
              Live(t'.bindings, now) == Live(live[key := b], now) && c == Some(s.items[b.fingerprint]) && s' == s
            else && (s', c) == PickMatching(s, RouteOf(info), draw)
                 && Live(t'.bindings, now) ==
                    (match c
                     case None => live - {key}
                     case Some(cand) => Live(live[key := Binding(cand.fingerprint, now + ttl, ttl)], now))
  {
    hide Live, BindingKey, Usable, CanServe, SweepTable, PickMatching, Clamp;
    var key, m := BindingKey(info), SweepTable(t, now, SWEEP_INTERVAL).bindings;
    var live := Live(t.bindings, now);
    SweepIsSilent(t, now, SWEEP_INTERVAL);
    LiveLookup(m, key, now);
    LiveRemove(m, key, now);
    LiveOfLive(m, now);
    if key in m {
      UsableIs(s, info, m[key].fingerprint);
    }
    if key in live && CanServe(s, info, live[key].fingerprint) {
      var b := Binding(m[key].fingerprint, now + m[key].ttl, m[key].ttl);
      LiveUpdate(m, key, b, now);
      LiveUpdate(live, key, b, now);
    } else {
      var (s', c) := PickMatching(s, RouteOf(info), draw);
      if c.Some? {
        var ttl := Clamp(info.ttl, cfg.defaultTTL, cfg.maxTTL);
        var b := Binding(c.value.fingerprint, now + ttl, ttl);
        LiveUpdate(m, key, b, now);
        LiveUpdate(m - {key}, key, b, now);
        LiveUpdate(live, key, b, now);
        UpdateAfterRemove(live, key, b);
      }
    }
  }

  lemma UpdateAfterRemove(m: Bindings, key: string, b: Binding)
    ensures (m - {key})[key := b] == m[key := b]
    ensures (m - {key}) - {key} == m - {key}
  {
  }

  /** Same answer, same live bindings afterwards. */
  ghost predicate Alike(cfg: Config, t: Table, m: Bindings, e: Event) {
    && StepTable(cfg, t, e).1 == StepMap(cfg, m, e).1
    && Live(StepTable(cfg, t, e).0.bindings, e.at) == Live(StepMap(cfg, m, e).0, e.at)
  }

  lemma GetAlike(cfg: Config, t: Table, m: Bindings, e: Event)
    requires Live(t.bindings, e.at) == Live(m, e.at) && e.op.Get?
    ensures Alike(cfg, t, m, e)
  {
    hide Live, BindingKey, Usable, CanServe, SweepTable, Touch, GetBound;
    var live, info := Live(m, e.at), e.op.info;
    LiveOfLive(m, e.at);
    if info.sessionID != "" {
      GetRefines(t, info, e.pool, e.at);
      LiveRemove(live, BindingKey(info), e.at);
    } else {
      NoSessionGet(t, info, e.pool, e.at);
    }
  }

  lemma BindAlike(cfg: Config, t: Table, m: Bindings, e: Event)
    requires Live(t.bindings, e.at) == Live(m, e.at) && (e.op.Bind? || e.op.Drop?)
    ensures Alike(cfg, t, m, e)
  {
    hide Live, BindingKey, Clamp;
    var live, info, now := Live(m, e.at), e.op.info, e.at;
    LiveOfLive(m, now);
    LiveRemove(t.bindings, BindingKey(info), now);
    LiveRemove(live, BindingKey(info), now);
    if e.op.Bind? {
      var ttl := Clamp(info.ttl, cfg.defaultTTL, cfg.maxTTL);
      LiveUpdate(t.bindings, BindingKey(info), Binding(e.op.fp, now + ttl, ttl), now);
      LiveUpdate(live, BindingKey(info), Binding(e.op.fp, now + ttl, ttl), now);
    }
  }

  lemma PickAlike(cfg: Config, t: Table, m: Bindings, e: Event)
    requires Live(t.bindings, e.at) == Live(m, e.at) && e.op.PickNext?
    ensures Alike(cfg, t, m, e)
  {
    hide Live, BindingKey, Usable, CanServe, SweepTable, PickMatching, Clamp, Touch, Pick;
    var live, info := Live(m, e.at), e.op.info;
    LiveOfLive(m, e.at);
    if info.sessionID != "" {
      PickRefines(cfg, t, info, e.pool, e.op.draw, e.at);
      LiveRemove(live, BindingKey(info), e.at);
    } else {
      NoSessionPick(cfg, t, info, e.pool, e.op.draw, e.at);
    }
  }

  /** One operation: same answer, same live bindings afterwards. */
  lemma StepRefines(cfg: Config, t: Table, m: Bindings, e: Event)
    requires Live(t.bindings, e.at) == Live(m, e.at)
    ensures StepTable(cfg, t, e).1 == StepMap(cfg, m, e).1
    ensures Live(StepTable(cfg, t, e).0.bindings, e.at) == Live(StepMap(cfg, m, e).0, e.at)
  {
    hide Live, StepTable, StepMap;
    match e.op
    case Get(_) => GetAlike(cfg, t, m, e);
    case Bind(_, _) => BindAlike(cfg, t, m, e);
    case Drop(_) => BindAlike(cfg, t, m, e);
    case PickNext(_, _) => PickAlike(cfg, t, m, e);
    case CountAll => CountAlike(cfg, t, m, e);
  }

  lemma CountAlike(cfg: Config, t: Table, m: Bindings, e: Event)
    requires Live(t.bindings, e.at) == Live(m, e.at) && e.op.CountAll?
    ensures Alike(cfg, t, m, e)
  {
    hide Live, Count;
    LiveOfLive(m, e.at);
    CountSees(t, e.at);
  }

  lemma NoSessionGet(t: Table, info: SessionInfo, s: PoolState, now: Instant)
    requires info.sessionID == ""
    ensures GetBound(t, info, s, now) == (t, None)
  {
  }

  lemma NoSessionPick(cfg: Config, t: Table, info: SessionInfo, s: PoolState, draw: Draw, now: Instant)
    requires info.sessionID == ""
    ensures Pick(cfg, t, info, s, draw, now).0 == t
    ensures (Pick(cfg, t, info, s, draw, now).1, Pick(cfg, t, info, s, draw, now).2) ==
              PickMatching(s, RouteOf(info), draw)
  {
  }

  lemma CountSees(t: Table, now: Instant)
    ensures Count(t, now).1 == |Live(t.bindings, now)|
    ensures Live(Count(t, now).0.bindings, now) == Live(t.bindings, now)
  {
    LiveOfLive(t.bindings, now);
  }

  /** A count is the number of bindings that have not expired. */
  lemma CountIs(t: Table, now: Instant)
    ensures Count(t, now).1 == |set k | k in t.bindings && now < t.bindings[k].expiresAt|
  {
    CountSees(t, now);
    assert Live(t.bindings, now).Keys == set k | k in t.bindings && now < t.bindings[k].expiresAt;
  }

  /** Over every run under a clock that does not run backwards, the lazily swept table gives the answers of the map in
      which expired bindings vanish at once, whenever its sweeps happen to fall. */
  lemma {:induction false} TableRefinesMap(cfg: Config, t: Table, m: Bindings, from: int, events: seq<Event>)
    requires InOrder(from, events)
    requires Live(t.bindings, from) == Live(m, from)
    ensures RunTable(cfg, t, events).1 == RunMap(cfg, m, events).1
    decreases |events|
  {
    hide Live, StepTable, StepMap;
    if events != [] {
      var e := events[0];
      LiveLater(t.bindings, m, from, e.at);
      StepRefines(cfg, t, m, e);
      TableRefinesMap(cfg, StepTable(cfg, t, e).0, StepMap(cfg, m, e).0, e.at, events[1..]);
    }
  }

  /** Hence the time of the last sweep never shows. */
  lemma SweepTimeNeverShows(cfg: Config, bindings: Bindings, sweptA: Time, sweptB: Time, from: int, events: seq<Event>)
    requires InOrder(from, events)
    ensures RunTable(cfg, Table(bindings, sweptA), events).1 == RunTable(cfg, Table(bindings, sweptB), events).1
  {
    TableRefinesMap(cfg, Table(bindings, sweptA), bindings, from, events);
    TableRefinesMap(cfg, Table(bindings, sweptB), bindings, from, events);
  }

  // ------------------------------------------------------- when it sweeps

  /** What a lookup does to the bindings of other sessions: once a minute it drops the expired ones, and otherwise
      nothing. */
  lemma LookupSweeps(t: Table, info: SessionInfo, s: PoolState, now: Instant)
    requires info.sessionID != ""
    ensures var u := GetBound(t, info, s, now).0;
            var due := t.lastSweep == 0 || now - t.lastSweep >= 60_000_000_000;
            && u.lastSweep == (if due then now else t.lastSweep)
            && forall k :: k != BindingKey(info) ==>
                 && (k in u.bindings <==> k in t.bindings && (due ==> now < t.bindings[k].expiresAt))
                 && (k in u.bindings ==> u.bindings[k] == t.bindings[k])
  {
    hide BindingKey, Usable;
  }

  /** Every binding outlasts the last sweep. */
  ghost predicate Outlast(t: Table, from: int) {
    && t.lastSweep <= from
    && forall k :: k in t.bindings ==> t.lastSweep < t.bindings[k].expiresAt && 0 < t.bindings[k].ttl
  }

  predicate Sweeps(op: Op) {
    op.CountAll? || ((op.Get? || op.PickNext?) && op.info.sessionID != "")
  }

  lemma SweepOutlasts(t: Table, now: Instant, interval: int, from: int)
    requires Outlast(t, from) && from <= now && interval <= SWEEP_INTERVAL
    ensures var u := SweepTable(t, now, interval); Outlast(u, now) && now < u.lastSweep + SWEEP_INTERVAL
  {
  }

  /** Binding a session for a positive lifetime, or dropping it, keeps that. */
  lemma EntryOutlasts(t: Table, now: Instant, key: string, fp: Fingerprint, ttl: int)
    requires Outlast(t, now)
    ensures Outlast(t.(bindings := t.bindings - {key}), now)
    ensures 0 < ttl ==> Outlast(t.(bindings := t.bindings[key := Binding(fp, now + ttl, ttl)]), now)
    ensures 0 < ttl ==> Outlast(t.(bindings := (t.bindings - {key})[key := Binding(fp, now + ttl, ttl)]), now)
  {
  }

  lemma StepOutlasts(cfg: Config, t: Table, e: Event, from: int)
    requires 0 < cfg.defaultTTL && Outlast(t, from) && from <= e.at
    ensures var u := StepTable(cfg, t, e).0;
            Outlast(u, e.at) && (Sweeps(e.op) ==> e.at < u.lastSweep + SWEEP_INTERVAL)
  {
    hide BindingKey, Usable, SweepTable, PickMatching, Outlast;
    assert Outlast(t, e.at) by { OutlastLater(t, from, e.at); }
    SweepOutlasts(t, e.at, SWEEP_INTERVAL, from);
    SweepOutlasts(t, e.at, 0, from);
    var swept := SweepTable(t, e.at, SWEEP_INTERVAL);
    match e.op
    case Get(info) =>
      LookupOutlasts(t, info, e.pool, e.at, from);
    case Bind(info, fp) =>
      EntryOutlasts(t, e.at, BindingKey(info), fp, Clamp(info.ttl, cfg.defaultTTL, cfg.maxTTL));
    case Drop(info) =>
      EntryOutlasts(t, e.at, BindingKey(info), NotComputed, 0);
    case PickNext(info, draw) =>
      PickOutlasts(cfg, t, info, e.pool, draw, e.at, from);
    case CountAll =>
  }

  lemma OutlastLater(t: Table, from: int, to: int)
    requires Outlast(t, from) && from <= to
    ensures Outlast(t, to)
  {
  }

  lemma OwnTTL(t: Table, from: int, key: string)
    requires Outlast(t, from) && key in t.bindings
    ensures 0 < t.bindings[key].ttl
  {
  }

  lemma LookupOutlasts(t: Table, info: SessionInfo, s: PoolState, now: Instant, from: int)
    requires Outlast(t, from) && from <= now
    ensures var u := GetBound(t, info, s, now).0;
            Outlast(u, now) && (info.sessionID != "" ==> now < u.lastSweep + SWEEP_INTERVAL)
  {
    hide BindingKey, Usable, SweepTable, Outlast;
    OutlastLater(t, from, now);
    SweepOutlasts(t, now, SWEEP_INTERVAL, from);
    var key, swept := BindingKey(info), SweepTable(t, now, SWEEP_INTERVAL);
    EntryOutlasts(swept, now, key, NotComputed, 0);
    if key in swept.bindings {
      OwnTTL(swept, now, key);
      EntryOutlasts(swept, now, key, swept.bindings[key].fingerprint, swept.bindings[key].ttl);
    }
  }

  lemma PickOutlasts(cfg: Config, t: Table, info: SessionInfo, s: PoolState, draw: Draw, now: Instant, from: int)
    requires 0 < cfg.defaultTTL && Outlast(t, from) && from <= now
    ensures var u := Pick(cfg, t, info, s, draw, now).0;
            Outlast(u, now) && (info.sessionID != "" ==> now < u.lastSweep + SWEEP_INTERVAL)
  {
    hide BindingKey, Usable, SweepTable, PickMatching, Outlast;
    OutlastLater(t, from, now);
    SweepOutlasts(t, now, SWEEP_INTERVAL, from);
    var key, swept := BindingKey(info), SweepTable(t, now, SWEEP_INTERVAL);
    EntryOutlasts(swept, now, key, NotComputed, 0);
    if key in swept.bindings {
      OwnTTL(swept, now, key);
      EntryOutlasts(swept, now, key, swept.bindings[key].fingerprint, swept.bindings[key].ttl);
    }
    var c := PickMatching(s, RouteOf(info), draw).1;
    if c.Some? {
      EntryOutlasts(swept, now, key, c.value.fingerprint, Clamp(info.ttl, cfg.defaultTTL, cfg.maxTTL));
    }
  }

  lemma {:induction false} RunOutlasts(cfg: Config, t: Table, events: seq<Event>, from: int)
    requires 0 < cfg.defaultTTL && Outlast(t, from) && InOrder(from, events)
    requires events != [] && Sweeps(events[|events| - 1].op)
    ensures var u, last := RunTable(cfg, t, events).0, events[|events| - 1].at;
            Outlast(u, last) && last < u.lastSweep + SWEEP_INTERVAL
    decreases |events|
  {
    hide StepTable, Outlast;
    var e, rest := events[0], events[1..];
    StepOutlasts(cfg, t, e, from);
    if rest == [] {
      assert RunTable(cfg, StepTable(cfg, t, e).0, rest).0 == StepTable(cfg, t, e).0;
    } else {
      assert rest[|rest| - 1] == events[|events| - 1];
      RunOutlasts(cfg, StepTable(cfg, t, e).0, rest, e.at);
    }
  }

  /** No run piles up dead bindings: whatever came before, right after a session's lookup or pick, or a count, the table
      holds no binding that expired a minute or more ago. */
  lemma StaleBindingsGo(cfg: Config, events: seq<Event>, from: nat)
    requires 0 < cfg.defaultTTL && InOrder(from, events)
    requires events != [] && Sweeps(events[|events| - 1].op)
    ensures var u := RunTable(cfg, Table(map[], 0), events).0;
            forall k :: k in u.bindings ==> events[|events| - 1].at < u.bindings[k].expiresAt + 60_000_000_000
  {
    hide RunTable;
    RunOutlasts(cfg, Table(map[], 0), events, from);
  }

  // -------------------------------------------- readings out of clock order

  /** A binding that a sweep at one reading drops and an older reading would still have seen. */
  predicate SweptEarly(b: Binding, sweptAt: Instant, now: Instant) {
    now < b.expiresAt <= sweptAt
  }

  /** A sweep changes what an operation finds exactly when it dropped a binding that the operation would have seen. */
  lemma SweepShowsIff(bindings: Bindings, sweptAt: Instant, now: Instant)
    ensures Live(Live(bindings, sweptAt), now) != Live(bindings, now) <==>
            exists k :: k in bindings && SweptEarly(bindings[k], sweptAt, now)
  {
    if k :| k in bindings && SweptEarly(bindings[k], sweptAt, now) {
      assert k in Live(bindings, now) && k !in Live(Live(bindings, sweptAt), now);
    }
  }

  /** A lookup answers differently after a sweep exactly when the sweep dropped its own binding, still good to it. */
  lemma LookupSeesSweepIff(t: Table, info: SessionInfo, s: PoolState, sweptAt: Instant, now: Instant)
    requires info.sessionID != ""
    ensures var key := BindingKey(info);
            GetBound(Table(Live(t.bindings, sweptAt), sweptAt), info, s, now).1 != GetBound(t, info, s, now).1 <==>
            && key in t.bindings && SweptEarly(t.bindings[key], sweptAt, now)
            && Usable(s, info, t.bindings[key].fingerprint)
  {
    hide BindingKey, Usable;
  }

  /** A count answers differently exactly when the sweep dropped any binding that the count would have seen. */
  lemma CountSeesSweepIff(t: Table, sweptAt: Instant, now: Instant)
    ensures Count(Table(Live(t.bindings, sweptAt), sweptAt), now).1 != Count(t, now).1 <==>
            exists k :: k in t.bindings && SweptEarly(t.bindings[k], sweptAt, now)
  {
    var swept := Live(t.bindings, sweptAt);
    SweepIsSilent(Table(swept, sweptAt), now, 0);
    SweepIsSilent(t, now, 0);
    SweepShowsIff(t.bindings, sweptAt, now);
    var some, all := Live(swept, now).Keys, Live(t.bindings, now).Keys;
    assert some <= all;
    if some != all {
      assert all == some + (all - some) && all - some != {};
      assert |all| == |some| + |all - some|;
    }
    hide SweptEarly;
    assert Live(swept, now) != Live(t.bindings, now) ==> some != all;
  }

  /** A run that starts with nothing: bind a session for just over a minute, let another session look up just as the
      binding expires, and let a lookup with an older reading come last. Without the other session it is served. */
  lemma LateReaderSeesSweep(cfg: Config, info: SessionInfo, fp: Fingerprint, s: PoolState)
    requires info.sessionID != "" && Usable(s, info, fp)
    requires info.ttl == SWEEP_INTERVAL + 8 && (cfg.maxTTL <= 0 || info.ttl <= cfg.maxTTL)
    ensures var late := Event(Get(info), s, SWEEP_INTERVAL + 9);
            var start := [Event(Get(info), s, 1), Event(Bind(info, fp), s, 2)];
            var other := Event(Get(info.(sessionID := info.sessionID + "x")), s, SWEEP_INTERVAL + 10);
            && RunTable(cfg, Table(map[], 0), start + [other, late]).1[3] == Chosen(None, s)
            && RunTable(cfg, Table(map[], 0), start + [late]).1[2] == Chosen(Some(s.items[fp]), s)
  {
    hide BindingKey;
    var late := Event(Get(info), s, SWEEP_INTERVAL + 9);
    var start := [Event(Get(info), s, 1), Event(Bind(info, fp), s, 2)];
    var other := Event(Get(info.(sessionID := info.sessionID + "x")), s, SWEEP_INTERVAL + 10);
    var t := Table(map[BindingKey(info) := Binding(fp, SWEEP_INTERVAL + 10, info.ttl)], 1);
    BoundAfterMinute(cfg, info, fp, s);
    LongerKey(info, other.op.info);
    OtherSweeps(cfg, t, info, other);
    TwoThen(cfg, Table(map[], 0), start[0], start[1], [late]);
    TwoThen(cfg, Table(map[], 0), start[0], start[1], [other, late]);
    assert start + [late] == [start[0], start[1]] + [late];
    assert start + [other, late] == [start[0], start[1]] + [other, late];
    assert [other, late][1..] == [late];
    assert RunTable(cfg, t, [late]).1[0] == StepTable(cfg, t, late).1;
    assert RunTable(cfg, t, [other, late]).1[1] == StepTable(cfg, StepTable(cfg, t, other).0, late).1;
  }

  lemma BoundAfterMinute(cfg: Config, info: SessionInfo, fp: Fingerprint, s: PoolState)
    requires info.sessionID != "" && info.ttl == SWEEP_INTERVAL + 8 && (cfg.maxTTL <= 0 || info.ttl <= cfg.maxTTL)
    ensures StepTable(cfg, StepTable(cfg, Table(map[], 0), Event(Get(info), s, 1)).0, Event(Bind(info, fp), s, 2)).0 ==
            Table(map[BindingKey(info) := Binding(fp, SWEEP_INTERVAL + 10, info.ttl)], 1)
  {
    hide BindingKey;
    assert Live(map[], 1) == map[];
  }

  lemma OtherSweeps(cfg: Config, t: Table, info: SessionInfo, e: Event)
    requires e.op.Get? && e.op.info.sessionID != "" && BindingKey(e.op.info) != BindingKey(info)
    requires t.bindings.Keys == {BindingKey(info)} && t.bindings[BindingKey(info)].expiresAt <= e.at
    requires t.lastSweep != 0 && e.at - t.lastSweep >= SWEEP_INTERVAL
    ensures StepTable(cfg, t, e).0 == Table(map[], e.at)
  {
    hide BindingKey;
    assert Live(t.bindings, e.at) == map[];
  }

  lemma TwoThen(cfg: Config, t: Table, a: Event, b: Event, rest: seq<Event>)
    ensures var u := StepTable(cfg, StepTable(cfg, t, a).0, b).0;
            var answers := RunTable(cfg, t, [a, b] + rest).1;
            |answers| == |rest| + 2 && answers[2..] == RunTable(cfg, u, rest).1
  {
    hide StepTable;
    assert ([a, b] + rest)[1..] == [b] + rest;
    assert ([b] + rest)[1..] == rest;
  }

  lemma LongerKey(info: SessionInfo, other: SessionInfo)
    requires info.sessionID != "" && other == info.(sessionID := info.sessionID + "x")
    ensures BindingKey(info) != BindingKey(other)
  {
    hide ToLower, ToUpper;
    assert |BindingKey(other)| == |BindingKey(info)| + 1;
  }
}
