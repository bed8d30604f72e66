/** Session bindings with lazy expiry (internal/core/session.go), as a value. */
module SessionModel {
  import opened Text
  import opened Candidates
  import opened PoolModel
  import opened Usernames

  datatype Binding = Binding(fingerprint: Fingerprint, expiresAt: int, ttl: int)

  /** lastSweep is zero before the first sweep. */
  datatype Table = Table(bindings: map<string, Binding>, lastSweep: Time)

  datatype Config = Config(defaultTTL: int, maxTTL: int)

  /** One minute in nanoseconds. */
  const SWEEP_INTERVAL := 60_000_000_000

  function BindingKey(info: SessionInfo): string {
    if info.sessionID == "" then ""
    else "plugin=" + ToLower(info.plugin) + "|region=" + ToUpper(info.region)
         + "|fast=" + (if info.fast then "true" else "false") + "|session=" + info.sessionID
  }

  function RouteOf(info: SessionInfo): Predicate {
    (c: Candidate) => c.MatchesRoute(info.plugin, info.region)
  }

  /** The bindings that have not expired. */
  function Live(bindings: map<string, Binding>, now: int): map<string, Binding> {
    map k | k in bindings && now < bindings[k].expiresAt :: bindings[k]
  }

  function SweepTable(t: Table, now: Instant, interval: int): Table {
    if interval > 0 && t.lastSweep != 0 && now - t.lastSweep < interval then t
    else Table(Live(t.bindings, now), now)
  }

  /** A bound candidate can be served: still in the pool, available and on the route. */
  predicate Usable(s: PoolState, info: SessionInfo, fp: Fingerprint) {
    fp in s.items && s.items[fp].status == Available && RouteOf(info)(s.items[fp])
  }

  function NewBinding(cfg: Config, info: SessionInfo, fp: Fingerprint, now: Instant): Binding {
    var ttl := Clamp(info.ttl, cfg.defaultTTL, cfg.maxTTL);
    Binding(fp, now + ttl, ttl)
  }

  function Touch(b: Binding, now: Instant): Binding {
    b.(expiresAt := now + b.ttl)
  }

  function GetBound(t: Table, info: SessionInfo, s: PoolState, now: Instant): (Table, Option<Candidate>) {
    if info.sessionID == "" then (t, None)
    else
      var key, swept := BindingKey(info), SweepTable(t, now, SWEEP_INTERVAL);
      var bindings := swept.bindings;
      if key !in bindings || !(now < bindings[key].expiresAt) then (swept.(bindings := bindings - {key}), None)
      else if !Usable(s, info, bindings[key].fingerprint) then (swept.(bindings := bindings - {key}), None)
      else (swept.(bindings := bindings[key := Touch(bindings[key], now)]), Some(s.items[bindings[key].fingerprint]))
  }

  function Rebind(cfg: Config, t: Table, info: SessionInfo, fp: Fingerprint, now: Instant): Table {
    if info.sessionID == "" then t
    else t.(bindings := t.bindings[BindingKey(info) := NewBinding(cfg, info, fp, now)])
  }

  function Unbind(t: Table, info: SessionInfo): Table {
    if info.sessionID == "" then t else t.(bindings := t.bindings - {BindingKey(info)})
  }

  /** How the pool chooses: by its cursor, or from a position drawn at random. */
  datatype Draw = ByCursor | FromStart(start: nat)

  function PickMatching(s: PoolState, route: Predicate, draw: Draw): (PoolState, Option<Candidate>) {
    match draw
    case ByCursor => PickRoundRobin(s, route, {})
    case FromStart(start) => (s, PickFrom(s, route, {}, start))
  }

  function Pick(cfg: Config, t: Table, info: SessionInfo, s: PoolState, draw: Draw,
                now: Instant): (Table, PoolState, Option<Candidate>) {
    if info.sessionID == "" then
      var (s', c) := PickMatching(s, RouteOf(info), draw);
      (t, s', c)
    else
      var key, swept := BindingKey(info), SweepTable(t, now, SWEEP_INTERVAL);
      var bindings := swept.bindings;
      if key in bindings && now < bindings[key].expiresAt && Usable(s, info, bindings[key].fingerprint) then
        (swept.(bindings := bindings[key := Touch(bindings[key], now)]), s, Some(s.items[bindings[key].fingerprint]))
      else
        var left := if key in bindings && now < bindings[key].expiresAt then bindings - {key} else bindings;
        var (s', c) := PickMatching(s, RouteOf(info), draw);
        match c
        case None => (swept.(bindings := left), s', None)
        case Some(cand) => (swept.(bindings := left[key := NewBinding(cfg, info, cand.fingerprint, now)]), s', c)
  }

  function Count(t: Table, now: Instant): (Table, nat) {
    var swept := SweepTable(t, now, 0);
    (swept, |swept.bindings|)
  }
}
