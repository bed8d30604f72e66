/** Request scheduling: picking a candidate for each attempt, dialling it, marking failures and keeping the session's
    binding in step (internal/proxy/server.go, dispatch from internal/proxy/upstream.go). */
module Scheduler {
  import opened Collections
  import opened Text
  import opened Candidates
  import opened PoolModel
  import opened PoolFairness
  import opened PoolFastCut
  import opened PoolHistory
  import opened Pools
  import opened Usernames
  import opened SessionModel
  import opened SessionRefinement
  import opened Scopes
  import opened Sessions

  // ------------------------------------------------------------- dialling

  /** How a candidate is dialled. */
  datatype Dispatch = Custom(dialer: DialerId) | HTTPConnect | SOCKS5 | Unsupported

  function DispatchOf(c: Candidate, custom: Option<DialerId>): Dispatch {
    if custom.Some? then Custom(custom.value)
    else if c.protocol == PROTOCOL_HTTP then HTTPConnect
    else if c.protocol == PROTOCOL_SOCKS5 then SOCKS5
    else Unsupported
  }

  /** The network's answer to a dial: nothing, or an error message. */
  type DialOracle = (Candidate, Dispatch) -> Option<string>

  function DialVia(dial: DialOracle, c: Candidate, custom: Option<DialerId>): Option<string> {
    match DispatchOf(c, custom)
    case Unsupported => Some("unsupported candidate protocol " + c.protocol)
    case d => dial(c, d)
  }

  function DialerOf(s: PoolState, fp: Fingerprint): Option<DialerId> {
    if fp in s.dialers then Some(s.dialers[fp]) else None
  }

  /** What dialling a candidate of pool s comes to. */
  function DialError(dial: DialOracle, s: PoolState, c: Candidate): Option<string> {
    DialVia(dial, c, DialerOf(s, c.fingerprint))
  }

  /** A registered dialer decides how a candidate is dialled, whatever its protocol; without one only the two protocols
      the program speaks itself are dialled, and any other is refused by name. */
  lemma DialledAs(dial: DialOracle, s: PoolState, c: Candidate)
    ensures c.fingerprint in s.dialers ==> DialError(dial, s, c) == dial(c, Custom(s.dialers[c.fingerprint]))
    ensures c.fingerprint !in s.dialers && c.protocol == "http" ==> DialError(dial, s, c) == dial(c, HTTPConnect)
    ensures c.fingerprint !in s.dialers && c.protocol == "socks5" ==> DialError(dial, s, c) == dial(c, SOCKS5)
    ensures c.fingerprint !in s.dialers && c.protocol != "http" && c.protocol != "socks5" ==>
              DialError(dial, s, c) == Some("unsupported candidate protocol " + c.protocol)
  {
    assert |"http"| == 4 && |"socks5"| == 6;
  }

  // ---------------------------------------------------- what a pick promises

  /** A candidate that can serve the route: an entry of the pool, available and on the route. */
  ghost predicate Serves(s: PoolState, route: Predicate, c: Candidate) {
    && c.fingerprint in s.items && s.items[c.fingerprint] == c
    && c.status == Available && route(c)
  }

  /** Nothing is left: every available entry on the route is among those given. */
  ghost predicate NoneLeft(s: PoolState, route: Predicate, tried: set<Fingerprint>) {
    forall fp :: fp in s.items && s.items[fp].status == Available && route(s.items[fp]) ==> fp in tried
  }

  /** A pick is sound and complete: a candidate that can serve and is not excluded, or none because none is left. */
  ghost predicate GoodPick(s: PoolState, route: Predicate, exclude: set<Fingerprint>, r: Option<Candidate>) {
    match r
    case Some(c) => Serves(s, route, c) && c.fingerprint !in exclude
    case None => NoneLeft(s, route, exclude)
  }

  /** What a request asks for is what its candidate has: the plugin and the country, letter case aside. */
  lemma PickedIsOnRoute(s: PoolState, info: SessionInfo, exclude: set<Fingerprint>, c: Candidate)
    requires GoodPick(s, RouteOf(info), exclude, Some(c))
    ensures c.status == Available && c.fingerprint in s.items && c.fingerprint !in exclude
    ensures info.plugin != "" ==> ToLower(c.source) == ToLower(info.plugin)
    ensures info.region != "" ==>
              && "country_code" in c.metadata
              && ToLower(TrimSpace(c.metadata["country_code"])) == ToLower(info.region)
  {
    assert TrimSpace("") == "";
  }

  /** And when there is none, no available untried entry has both. */
  lemma NoneOnRoute(s: PoolState, info: SessionInfo, exclude: set<Fingerprint>, fp: Fingerprint)
    requires GoodPick(s, RouteOf(info), exclude, None)
    requires fp in s.items && fp !in exclude && s.items[fp].status == Available
    ensures || (info.plugin != "" && ToLower(s.items[fp].source) != ToLower(info.plugin))
            || (info.region != "" && "country_code" in s.items[fp].metadata
                && ToLower(TrimSpace(s.items[fp].metadata["country_code"])) != ToLower(info.region))
            || (info.region != "" && "country_code" !in s.items[fp].metadata)
  {
  }

  lemma RoundRobinPickIsGood(s: PoolState, route: Predicate, exclude: set<Fingerprint>)
    requires Inv(s)
    ensures GoodPick(s, route, exclude, PickRoundRobin(s, route, exclude).1)
    ensures PickRoundRobin(s, route, exclude).0 == s.(rr := PickRoundRobin(s, route, exclude).0.rr)
  {
    hide Normalized, At;
    PickSucceedsIffEligible(s, route, exclude, 0);
    EligibleIs(s, route, exclude);
  }

  lemma RandomPickIsGood(s: PoolState, route: Predicate, exclude: set<Fingerprint>, r: Option<Candidate>)
    requires Inv(s) && RandomResult(s, route, exclude, r)
    ensures GoodPick(s, route, exclude, r)
  {
    hide Normalized, PickFrom;
    PickSucceedsIffEligible(s, route, exclude, 0);
    EligibleInOrder(s, route, exclude);
    EligibleIs(s, route, exclude);
    if s.order != [] {
      var start :| 0 <= start < |s.order| && r == PickFrom(s, route, exclude, start);
      PickSucceedsIffEligible(s, route, exclude, start);
    }
  }

  lemma FastPickIsGood(s: PoolState, route: Predicate, exclude: set<Fingerprint>, percent: int, r: Option<Candidate>)
    requires Inv(s) && RandomFastResult(s, route, exclude, percent, r)
    ensures GoodPick(s, route, exclude, r)
  {
    hide Normalized, FastPool, Eligible;
    EligibleIs(s, route, exclude);
    var fast := FastPool(s, route, exclude, percent);
    if fast == [] {
      FastPoolEmptyIff(s, route, exclude, percent);
    } else {
      var i :| 0 <= i < |fast| && r == Some(fast[i]);
      KeptIsFast(s, route, exclude, percent, i);
    }
  }

  lemma FastPoolEmptyIff(s: PoolState, route: Predicate, exclude: set<Fingerprint>, percent: int)
    requires Inv(s)
    ensures FastPool(s, route, exclude, percent) == [] ==> Eligible(s, route, exclude) == {}
  {
    hide Normalized, Eligible, EligibleList;
    EligibleListElements(s, route, exclude);
    SortIsStableSort(EligibleList(s, route, exclude), EMPTY_CANDIDATE);
  }

  lemma FastCursorPickIsGood(s: PoolState, route: Predicate, exclude: set<Fingerprint>, percent: int)
    requires Inv(s)
    ensures GoodPick(s, route, exclude, PickFastRoundRobin(s, route, exclude, percent).1)
    ensures PickFastRoundRobin(s, route, exclude, percent).0 ==
              s.(rr := PickFastRoundRobin(s, route, exclude, percent).0.rr)
  {
    hide Normalized, FastPool, GoodPick;
    var fast := FastPool(s, route, exclude, percent);
    if fast != [] {
      assert RandomFastResult(s, route, exclude, percent, Some(fast[s.rr % |fast|]));
    }
    FastPickIsGood(s, route, exclude, percent, PickFastRoundRobin(s, route, exclude, percent).1);
  }

  /** A pool pick follows the policy: by cursor or at random, among all eligible candidates or, for a fast request,
      among the fastest percent; it leaves the cursor at rr. */
  ghost predicate PolicyPick(s: PoolState, rr: nat, policy: string, percent: int, info: SessionInfo,
                             exclude: set<Fingerprint>, r: Option<Candidate>) {
    var route := RouteOf(info);
    if info.fast && percent < 100 then
      if policy == "round_robin" then (s.(rr := rr), r) == PickFastRoundRobin(s, route, exclude, percent)
      else rr == s.rr && RandomFastResult(s, route, exclude, percent, r)
    else
      if policy == "round_robin" then (s.(rr := rr), r) == PickRoundRobin(s, route, exclude)
      else rr == s.rr && RandomResult(s, route, exclude, r)
  }

  /** The i-th candidate tried has fewer faster rivals than the cut of what was untried before it keeps. */
  ghost predicate FastAmongRest(s: PoolState, route: Predicate, percent: int, tried: seq<Candidate>, i: nat)
    requires i < |tried|
  {
    var before := Elements(Fingerprints(tried[..i]));
    var k := |Eligible(s, route, before)|;
    |Rivals(s, route, before, tried[i])| < if k * percent / 100 < 1 then 1 else k * percent / 100
  }

  lemma PolicyPickIsFast(s: PoolState, rr: nat, policy: string, percent: int, info: SessionInfo,
                         exclude: set<Fingerprint>, c: Candidate)
    requires Inv(s) && info.fast && 1 <= percent < 100
    requires PolicyPick(s, rr, policy, percent, info, exclude, Some(c))
    ensures var k := |Eligible(s, RouteOf(info), exclude)|;
            |Rivals(s, RouteOf(info), exclude, c)| < if k * percent / 100 < 1 then 1 else k * percent / 100
  {
    hide Normalized, FastPool, Rivals, Eligible;
    var fast := FastPool(s, RouteOf(info), exclude, percent);
    var i: nat;
    if policy == "round_robin" {
      i := s.rr % |fast|;
    } else {
      i :| 0 <= i < |fast| && Some(c) == Some(fast[i]);
    }
    FastPickIsFast(s, RouteOf(info), exclude, percent, i);
  }

  /** A bound candidate that has not been tried is an eligible one. */
  lemma BoundIsGood(t: Table, info: SessionInfo, s: PoolState, exclude: set<Fingerprint>, now: Instant)
    requires Inv(s)
    ensures var bound := GetBound(t, info, s, now).1;
            bound.Some? && bound.value.fingerprint !in exclude ==> GoodPick(s, RouteOf(info), exclude, bound)
  {
    hide Normalized, BindingKey, SweepTable;
  }

  /** The pick of the session manager's own atomic operation, once its binding does not serve, is sound and complete. */
  lemma PickMatchingIsGood(s: PoolState, info: SessionInfo, draw: Draw)
    requires Inv(s)
    ensures GoodPick(s, RouteOf(info), {}, PickMatching(s, RouteOf(info), draw).1)
    ensures PickMatching(s, RouteOf(info), draw).0 == s.(rr := PickMatching(s, RouteOf(info), draw).0.rr)
  {
    hide Normalized, PickRoundRobin, PickFrom;
    RoundRobinPickIsGood(s, RouteOf(info), {});
    if draw.FromStart? {
      PickSucceedsIffEligible(s, RouteOf(info), {}, draw.start);
      EligibleIs(s, RouteOf(info), {});
      EligibleInOrder(s, RouteOf(info), {});
    }
  }

  // ------------------------------------------------- the pool along a request

  /** Failed attempts, each marked once, in order. */
  ghost predicate MarksFor(marks: seq<Mark>, failed: seq<Candidate>, dial: DialOracle, s: PoolState) {
    && |marks| == |failed|
    && forall i :: 0 <= i < |marks| ==>
         && marks[i].Failed? && marks[i].fp == failed[i].fingerprint
         && DialError(dial, s, failed[i]) == Some(marks[i].reason)
  }

  /** Different candidates, all able to serve when the request came in. */
  ghost predicate DistinctEligible(s: PoolState, route: Predicate, tried: seq<Candidate>) {
    && NoDup(Fingerprints(tried))
    && forall i :: 0 <= i < |tried| ==> Serves(s, route, tried[i])
  }

  /** Where the pool stands after failed attempts: marked for each of them and otherwise as it was. */
  ghost predicate Progress(s: PoolState, p: PoolState, route: Predicate, dial: DialOracle, maxFailures: int,
                           tried: seq<Candidate>, marks: seq<Mark>)
  {
    && p == Run(s, marks, maxFailures).(rr := p.rr)
    && DistinctEligible(s, route, tried)
    && MarksFor(marks, tried, dial, s)
  }

  lemma {:induction false} UnmarkedUntouched(s: PoolState, marks: seq<Mark>, maxFailures: int, fp: Fingerprint)
    requires forall i :: 0 <= i < |marks| ==> marks[i].fp != fp
    ensures fp in Run(s, marks, maxFailures).items <==> fp in s.items
    ensures fp in s.items ==> Run(s, marks, maxFailures).items[fp] == s.items[fp]
  {
    if marks != [] { UnmarkedUntouched(s, marks[..|marks| - 1], maxFailures, fp); }
  }

  /** Each failed candidate is charged exactly one failure, and no other record changes. */
  lemma {:induction false} EachFailureMarkedOnce(s: PoolState, route: Predicate, dial: DialOracle, maxFailures: int,
                                                 failed: seq<Candidate>, marks: seq<Mark>, i: nat)
    requires DistinctEligible(s, route, failed) && MarksFor(marks, failed, dial, s) && i < |failed|
    ensures var fp := failed[i].fingerprint;
            var t := Run(s, marks, maxFailures);
            && fp in s.items && fp in t.items
            && t.items[fp] == s.items[fp].(failureCount := s.items[fp].failureCount + 1, lastError := marks[i].reason,
                                           updatedAt := marks[i].at,
                                           status := if s.items[fp].failureCount + 1 >= maxFailures then Unavailable
                                           else s.items[fp].status)
    ensures forall fp :: fp in s.items && fp !in Fingerprints(failed) ==>
              fp in Run(s, marks, maxFailures).items && Run(s, marks, maxFailures).items[fp] == s.items[fp]
  {
    hide Eligible, DialError;
    var fps := Fingerprints(failed);
    forall fp | fp in s.items && fp !in fps
      ensures fp in Run(s, marks, maxFailures).items && Run(s, marks, maxFailures).items[fp] == s.items[fp]
    {
      assert forall j :: 0 <= j < |marks| ==> marks[j].fp == fps[j];
      UnmarkedUntouched(s, marks, maxFailures, fp);
    }
    OneMarkCounts(s, marks, maxFailures, fps, i);
    MarksAre(s, marks[i], maxFailures, fps[i]);
  }

  lemma {:induction false} OneMarkCounts(s: PoolState, marks: seq<Mark>, maxFailures: int, fps: seq<Fingerprint>,
                                         i: nat)
    requires NoDup(fps) && |marks| == |fps| && i < |fps| && fps[i] in s.items
    requires forall j :: 0 <= j < |marks| ==> marks[j].Failed? && marks[j].fp == fps[j]
    ensures fps[i] in Run(s, marks, maxFailures).items
    ensures Run(s, marks, maxFailures).items[fps[i]] ==
            MarkFailure(s, fps[i], marks[i].reason, maxFailures, marks[i].at).items[fps[i]]
  {
    var n := |marks| - 1;
    if i == n {
      UnmarkedUntouched(s, marks[..n], maxFailures, fps[i]);
    } else {
      OneMarkCounts(s, marks[..n], maxFailures, fps[..n], i);
    }
  }

  /** Excluding the tried candidates from the marked pool leaves exactly the untried ones eligible at entry. */
  lemma EligibleAfterMarks(s: PoolState, p: PoolState, marks: seq<Mark>, maxFailures: int, route: Predicate,
                           gone: set<Fingerprint>)
    requires p.items == Run(s, marks, maxFailures).items
    requires forall i :: 0 <= i < |marks| ==> marks[i].fp in gone
    ensures Eligible(p, route, gone) == Eligible(s, route, {}) - gone
    ensures forall fp :: fp in s.items && fp !in gone ==> fp in p.items && p.items[fp] == s.items[fp]
  {
    hide Run;
    forall fp | fp !in gone
      ensures (fp in p.items <==> fp in s.items) && (fp in s.items ==> p.items[fp] == s.items[fp])
    {
      UnmarkedUntouched(s, marks, maxFailures, fp);
    }
  }

  /** The next pick, seen from the pool at entry. */
  lemma NextPick(s: PoolState, p: PoolState, route: Predicate, dial: DialOracle, maxFailures: int,
                 tried: seq<Candidate>, marks: seq<Mark>, r: Option<Candidate>)
    requires Progress(s, p, route, dial, maxFailures, tried, marks)
    requires GoodPick(p, route, Elements(Fingerprints(tried)), r)
    ensures r.Some? ==> DistinctEligible(s, route, tried + [r.value])
    ensures r.Some? ==> DialError(dial, p, r.value) == DialError(dial, s, r.value)
    ensures r.None? ==> NoneLeft(s, route, Elements(Fingerprints(tried)))
  {
    hide Eligible, DialVia, Run;
    EligibleIs(s, route, {});
    EligibleIs(p, route, Elements(Fingerprints(tried)));
    var fps := Fingerprints(tried);
    var gone := Elements(fps);
    MarksTouchRecordsOnly(s, marks, maxFailures);
    forall i | 0 <= i < |marks| ensures marks[i].fp in gone {
      assert fps[i] in fps;
    }
    EligibleAfterMarks(s, p, marks, maxFailures, route, gone);
    EligibleAreItems(s, route, {});
    if r.Some? {
      var all := Fingerprints(tried + [r.value]);
      assert all == fps + [r.value.fingerprint];
      assert r.value.fingerprint !in fps;
    } else {
      forall fp | fp in Eligible(s, route, {}) ensures fp in gone {
        assert fp !in Eligible(p, route, gone);
      }
    }
  }

  lemma RivalsAfterMarks(s: PoolState, p: PoolState, route: Predicate, gone: set<Fingerprint>, c: Candidate)
    requires Eligible(p, route, gone) == Eligible(s, route, {}) - gone
    requires forall fp :: fp in s.items && fp !in gone ==> fp in p.items && p.items[fp] == s.items[fp]
    ensures Eligible(p, route, gone) == Eligible(s, route, gone)
    ensures Rivals(p, route, gone, c) == Rivals(s, route, gone, c)
  {
    EligibleIs(s, route, {});
    EligibleIs(s, route, gone);
    hide Eligible;
    assert Eligible(s, route, {}) - gone == Eligible(s, route, gone);
  }

  /** A fast request cuts again what is left at every attempt. */
  lemma FastTurn(s: PoolState, p: PoolState, rr: nat, policy: string, percent: int, info: SessionInfo,
                 dial: DialOracle, maxFailures: int, tried: seq<Candidate>, marks: seq<Mark>, c: Candidate)
    requires Progress(s, p, RouteOf(info), dial, maxFailures, tried, marks) && Inv(p)
    requires info.fast && 1 <= percent < 100
    requires PolicyPick(p, rr, policy, percent, info, Elements(Fingerprints(tried)), Some(c))
    ensures FastAmongRest(s, RouteOf(info), percent, tried + [c], |tried|)
    ensures forall i :: 0 <= i < |tried| ==>
              (FastAmongRest(s, RouteOf(info), percent, tried + [c], i) <==>
               FastAmongRest(s, RouteOf(info), percent, tried, i))
  {
    var gone := Elements(Fingerprints(tried));
    PolicyPickIsFast(p, rr, policy, percent, info, gone, c);
    MarkedAreTried(s, marks, tried, dial);
    hide Normalized, Inv, PolicyPick, Eligible, Rivals, DialError, Run, Elements, Fingerprints, MarksFor,
         DistinctEligible;
    EligibleAfterMarks(s, p, marks, maxFailures, RouteOf(info), gone);
    RivalsAfterMarks(s, p, RouteOf(info), gone, c);
    assert (tried + [c])[..|tried|] == tried;
    hide Run, Progress;
    forall i | 0 <= i < |tried|
      ensures FastAmongRest(s, RouteOf(info), percent, tried + [c], i) <==>
              FastAmongRest(s, RouteOf(info), percent, tried, i)
    {
      FrontStands(s, RouteOf(info), percent, tried, c, i);
    }
  }

  lemma FrontStands(s: PoolState, route: Predicate, percent: int, tried: seq<Candidate>, c: Candidate, i: nat)
    requires i < |tried|
    ensures FastAmongRest(s, route, percent, tried + [c], i) <==> FastAmongRest(s, route, percent, tried, i)
  {
    hide Eligible, Rivals, Elements, Fingerprints;
    assert (tried + [c])[..i] == tried[..i];
  }

  lemma MarkedAreTried(s: PoolState, marks: seq<Mark>, tried: seq<Candidate>, dial: DialOracle)
    requires MarksFor(marks, tried, dial, s)
    ensures forall i :: 0 <= i < |marks| ==> marks[i].fp in Elements(Fingerprints(tried))
  {
    forall i | 0 <= i < |marks| ensures marks[i].fp in Elements(Fingerprints(tried)) {
      assert Fingerprints(tried)[i] in Fingerprints(tried);
    }
  }

  lemma EligibleAreItems(s: PoolState, route: Predicate, exclude: set<Fingerprint>)
    ensures forall fp :: fp in Eligible(s, route, exclude) ==> fp in s.items
  {
  }

  lemma FailureProgresses(s: PoolState, p: PoolState, route: Predicate, dial: DialOracle, maxFailures: int,
                          tried: seq<Candidate>, marks: seq<Mark>, c: Candidate, at: Instant, reason: string, rr: nat)
    requires Progress(s, p, route, dial, maxFailures, tried, marks)
    requires GoodPick(p, route, Elements(Fingerprints(tried)), Some(c))
    requires DialError(dial, p, c) == Some(reason)
    ensures Progress(s, MarkFailure(p.(rr := rr), c.fingerprint, reason, maxFailures, at), route, dial, maxFailures,
                     tried + [c], marks + [Failed(c.fingerprint, at, reason)])
  {
    NextPick(s, p, route, dial, maxFailures, tried, marks, Some(c));
    hide DialError, Eligible, GoodPick, DistinctEligible;
    var all := marks + [Failed(c.fingerprint, at, reason)];
    assert all[..|marks|] == marks;
    var next := MarkFailure(p.(rr := rr), c.fingerprint, reason, maxFailures, at);
    assert Run(s, all, maxFailures) == MarkFailure(Run(s, marks, maxFailures), c.fingerprint, reason, maxFailures, at);
    MarkIgnoresCursor(Run(s, marks, maxFailures), rr, c.fingerprint, reason, maxFailures, at);
  }

  lemma MarkIgnoresCursor(s: PoolState, rr: nat, fp: Fingerprint, reason: string, maxFailures: int, at: Instant)
    ensures MarkFailure(s.(rr := rr), fp, reason, maxFailures, at) ==
              MarkFailure(s, fp, reason, maxFailures, at).(rr := rr)
  {
  }

  // ---------------------------------------------- the session along a request

  lemma {:induction false} RunSnoc(cfg: Config, t: Table, events: seq<Event>, e: Event)
    ensures RunTable(cfg, t, events + [e]).0 == StepTable(cfg, RunTable(cfg, t, events).0, e).0
    decreases |events|
  {
    hide StepTable;
    if events == [] {
      assert (events + [e])[1..] == [];
    } else {
      assert (events + [e])[1..] == events[1..] + [e];
      RunSnoc(cfg, StepTable(cfg, t, events[0]).0, events[1..], e);
    }
  }

  lemma {:induction false} RunConcat(cfg: Config, t: Table, events: seq<Event>, more: seq<Event>)
    ensures RunTable(cfg, t, events + more).0 == RunTable(cfg, RunTable(cfg, t, events).0, more).0
    decreases |more|
  {
    hide StepTable;
    if more == [] {
      assert events + more == events;
    } else {
      var n := |more| - 1;
      RunConcat(cfg, t, events, more[..n]);
      RunSnoc(cfg, t, events + more[..n], more[n]);
      RunSnoc(cfg, RunTable(cfg, t, events).0, more[..n], more[n]);
      assert (events + more[..n]) + [more[n]] == events + more;
      assert more[..n] + [more[n]] == more;
    }
  }

  lemma {:induction false} InOrderConcat(from: int, events: seq<Event>, mid: int, more: seq<Event>)
    requires InOrder(from, events) && InOrder(mid, more) && from <= mid
    requires forall i :: 0 <= i < |events| ==> events[i].at <= mid
    ensures InOrder(from, events + more)
    decreases |events|
  {
    if events == [] {
      assert events + more == more;
    } else {
      assert (events + more)[1..] == events[1..] + more;
      assert events[0].at <= mid;
      InOrderConcat(events[0].at, events[1..], mid, more);
    }
  }

  /** All of a request's session operations are on its own session, in clock order, between two readings. */
  ghost predicate OwnEvents(events: seq<Event>, info: SessionInfo, from: Instant, to: Instant) {
    && from <= to && InOrder(from, events)
    && forall i :: 0 <= i < |events| ==> !events[i].op.CountAll? && events[i].op.info == info && events[i].at <= to
  }

  /** The session operations between two readings take the table from one state to the next. */
  ghost predicate SessionRun(cfg: Config, t: Table, u: Table, events: seq<Event>, info: SessionInfo, from: Instant,
                             to: Instant) {
    OwnEvents(events, info, from, to) && u == RunTable(cfg, t, events).0
  }

  lemma SessionRunConcat(cfg: Config, t: Table, u: Table, v: Table, events: seq<Event>, more: seq<Event>,
                         info: SessionInfo,
                         from: Instant, mid: Instant, to: Instant)
    requires SessionRun(cfg, t, u, events, info, from, mid) && SessionRun(cfg, u, v, more, info, mid, to)
    ensures SessionRun(cfg, t, v, events + more, info, from, to)
  {
    hide RunTable, InOrder;
    RunConcat(cfg, t, events, more);
    InOrderConcat(from, events, mid, more);
  }

  /** What a request leaves behind: the pool it found, whom it tried and its session operations. */
  datatype Request = Request(info: SessionInfo, pool: PoolState, tried: seq<Candidate>, events: seq<Event>)

  /** A request starts with a lookup on the table and the pool it finds, and what the lookup returns is tried first. */
  ghost predicate LooksUpFirst(t: Table, q: Request) {
    && q.events != [] && q.events[0] == Event(Get(q.info), q.pool, q.events[0].at)
    && var bound := GetBound(t, q.info, q.pool, q.events[0].at).1;
       bound.Some? ==> q.tried != [] && q.tried[0] == bound.value
  }

  /** The last of the session operations binds the session to a candidate. */
  ghost predicate EndsBound(cfg: Config, u: Table, info: SessionInfo, fp: Fingerprint, events: seq<Event>) {
    && events != []
    && BoundSince(u, BindingKey(info), fp, Clamp(info.ttl, cfg.defaultTTL, cfg.maxTTL), events[|events| - 1].at)
  }

  /** What a request goes on to do does not change how it started. */
  lemma StartStands(t: Table, info: SessionInfo, s: PoolState, tried: seq<Candidate>, events: seq<Event>,
                    later: seq<Candidate>, more: seq<Event>)
    requires LooksUpFirst(t, Request(info, s, tried, events))
    ensures LooksUpFirst(t, Request(info, s, tried + later, events + more))
  {
    hide GetBound;
    assert (events + more)[0] == events[0];
    assert tried != [] ==> (tried + later)[0] == tried[0];
  }

  lemma FirstTurn(t: Table, info: SessionInfo, s: PoolState, picked: Option<Candidate>, events: seq<Event>)
    requires events != [] && events[0] == Event(Get(info), s, events[0].at)
    requires var bound := GetBound(t, info, s, events[0].at).1; bound.Some? ==> picked == bound
    ensures LooksUpFirst(t, Request(info, s, if picked.Some? then [picked.value] else [], events))
  {
    hide GetBound;
  }

  lemma BoundAtTheEnd(cfg: Config, u: Table, info: SessionInfo, fp: Fingerprint, events: seq<Event>, more: seq<Event>)
    requires EndsBound(cfg, u, info, fp, more)
    ensures EndsBound(cfg, u, info, fp, events + more)
  {
    assert (events + more)[|events + more| - 1] == more[|more| - 1];
  }

  /** Every candidate after the first has fewer faster rivals than the cut of what was untried keeps; so has the first,
      unless the session's lookup found it. */
  ghost predicate CutEachTime(t: Table, percent: int, q: Request) {
    && (forall i :: 0 < i < |q.tried| ==> FastAmongRest(q.pool, RouteOf(q.info), percent, q.tried, i))
    && (q.tried != [] && q.events != [] && GetBound(t, q.info, q.pool, q.events[0].at).1 == None ==>
          FastAmongRest(q.pool, RouteOf(q.info), percent, q.tried, 0))
  }

  lemma UnboundLookup(t: Table, info: SessionInfo, s: PoolState, now: Instant)
    requires info.sessionID != "" ==> BindingKey(info) !in t.bindings
    ensures GetBound(t, info, s, now).1 == None
  {
    hide BindingKey;
  }

  /** One more turn: what the pool's policy picked, on the table u and the pool p as the turn found them. */
  lemma CutOnce(s: PoolState, p: PoolState, t: Table, u: Table, rr: nat, policy: string, percent: int,
                info: SessionInfo, dial: DialOracle, maxFailures: int, tried: seq<Candidate>, marks: seq<Mark>,
                picked: Option<Candidate>, events: seq<Event>, evs: seq<Event>)
    requires Progress(s, p, RouteOf(info), dial, maxFailures, tried, marks) && Inv(p)
    requires info.fast && 1 <= percent < 100 && evs != [] && (tried == [] <==> events == [])
    requires CutEachTime(t, percent, Request(info, s, tried, events))
    requires tried == [] ==> u == t && p == s
    requires tried != [] && info.sessionID != "" ==> BindingKey(info) !in u.bindings
    requires var bound := GetBound(u, info, p, evs[0].at).1;
             bound.None? || bound.value.fingerprint in Elements(Fingerprints(tried)) ==>
               PolicyPick(p, rr, policy, percent, info, Elements(Fingerprints(tried)), picked)
    ensures var found := if picked.Some? then [picked.value] else [];
            CutEachTime(t, percent, Request(info, s, tried + found, events + evs))
  {
    hide Normalized, Inv, GetBound, PolicyPick, BindingKey, FastAmongRest;
    if picked.None? {
      assert tried + [] == tried;
      assert tried != [] ==> (events + evs)[0] == events[0];
    } else {
      var c := picked.value;
      if tried != [] {
        UnboundLookup(u, info, p, evs[0].at);
        assert (events + evs)[0] == events[0];
      } else {
        assert events + evs == evs;
      }
      if GetBound(u, info, p, evs[0].at).1 == None {
        FastTurn(s, p, rr, policy, percent, info, dial, maxFailures, tried, marks, c);
      }
      hide Progress;
    }
  }

  // ------------------------------------------------------------- the server

  class Server {
    const pool: Pool
    const sessions: SessionManager
    const policy: string
    const fastPoolPercent: int
    const retryAttempts: int
    const maxFailures: int

    constructor (pool: Pool, sessions: SessionManager, policy: string, fastPoolPercent: int, retryAttempts: int,
                 maxFailures: int)
      ensures this.pool == pool && this.sessions == sessions && this.policy == policy
      ensures && this.fastPoolPercent == fastPoolPercent && this.retryAttempts == retryAttempts
              && this.maxFailures == maxFailures
    {
      this.pool, this.sessions, this.policy := pool, sessions, policy;
      this.fastPoolPercent, this.retryAttempts, this.maxFailures := fastPoolPercent, retryAttempts, maxFailures;
    }

    /** The session's candidate if it is still good and untried, otherwise a pick from the pool. */
    method PickCandidateForAttempt(info: SessionInfo, attempted: set<Fingerprint>, now: Instant)
      returns (r: Option<Candidate>)
      requires pool.Valid()
      modifies pool, sessions
      ensures pool.Valid() && pool.State() == old(pool.State()).(rr := pool.rr)
      ensures GoodPick(old(pool.State()), RouteOf(info), attempted, r)
      ensures sessions.State() == GetBound(old(sessions.State()), info, old(pool.State()), now).0
      ensures var bound := GetBound(old(sessions.State()), info, old(pool.State()), now).1;
              if bound.Some? && bound.value.fingerprint !in attempted then r == bound && pool.rr == old(pool.rr)
              else PolicyPick(old(pool.State()), pool.rr, policy, fastPoolPercent, info, attempted, r)
    {
      hide Normalized, Eligible, GoodPick, PolicyPick;
      BoundIsGood(sessions.State(), info, pool.State(), attempted, now);
      SessionlessGet(sessions.State(), info, pool.State(), now);
      hide GetBound;
      if info.sessionID != "" {
        var bound := sessions.GetBound(info, pool, now);
        if bound.Some? && bound.value.fingerprint !in attempted {
          return bound;
        }
      }
      r := PickFromPool(info, attempted);
    }

    /** The pick itself: from the fast cut if the request asks for it. */
    method PickFromPool(info: SessionInfo, attempted: set<Fingerprint>) returns (r: Option<Candidate>)
      requires pool.Valid()
      modifies pool
      ensures pool.Valid() && pool.State() == old(pool.State()).(rr := pool.rr)
      ensures GoodPick(old(pool.State()), RouteOf(info), attempted, r)
      ensures PolicyPick(old(pool.State()), pool.rr, policy, fastPoolPercent, info, attempted, r)
    {
      hide Normalized, Eligible, PickRoundRobin, PickFastRoundRobin, GoodPick, RandomResult, RandomFastResult;
      ghost var s := pool.State();
      RoundRobinPickIsGood(s, RouteOf(info), attempted);
      FastCursorPickIsGood(s, RouteOf(info), attempted, fastPoolPercent);
      if info.fast {
        r := pool.PickMatchingPercentExcluding(policy, RouteOf(info), attempted, fastPoolPercent);
        if RandomFastResult(s, RouteOf(info), attempted, fastPoolPercent, r) {
          FastPickIsGood(s, RouteOf(info), attempted, fastPoolPercent, r);
        }
      } else {
        r := pool.PickMatchingExcluding(policy, RouteOf(info), attempted);
      }
      if RandomResult(s, RouteOf(info), attempted, r) {
        RandomPickIsGood(s, RouteOf(info), attempted, r);
      }
    }

    /** One turn of the retry loop: pick, dial, and settle pool and session according to the outcome. */
    method Attempt(info: SessionInfo, dial: DialOracle, attempted: set<Fingerprint>, start: Instant)
      returns (picked: Option<Candidate>, failure: Option<string>, ghost at: Instant, end: Instant,
               ghost events: seq<Event>)
      requires pool.Valid()
      modifies pool, sessions
      ensures pool.Valid()
      ensures GoodPick(old(pool.State()), RouteOf(info), attempted, picked)
      ensures picked.Some? ==> failure == DialError(dial, old(pool.State()), picked.value)
      ensures start <= at <= end
      ensures if picked.Some? && failure.Some?
              then
                var s := old(pool.State()).(rr := pool.rr);
                pool.State() == MarkFailure(s, picked.value.fingerprint, failure.value, maxFailures, at)
              else pool.State() == old(pool.State()).(rr := pool.rr)
      ensures SessionRun(sessions.Cfg(), old(sessions.State()), sessions.State(), events, info, start, end)
      ensures info.sessionID != "" && picked.Some? && failure.None? ==>
                EndsBound(sessions.Cfg(), sessions.State(), info, picked.value.fingerprint, events)
      ensures info.sessionID != "" && picked.Some? && failure.Some? ==> BindingKey(info) !in sessions.bindings
      ensures attempted == {} || BindingKey(info) !in old(sessions.bindings) ==>
                info.sessionID != "" && picked.None? ==> BindingKey(info) !in sessions.bindings
      ensures events != [] && events[0] == Event(Get(info), old(pool.State()), events[0].at)
      ensures var bound := GetBound(old(sessions.State()), info, old(pool.State()), events[0].at).1;
              if bound.Some? && bound.value.fingerprint !in attempted then picked == bound
              else PolicyPick(old(pool.State()), pool.rr, policy, fastPoolPercent, info, attempted, picked)
    {
      hide Normalized, Eligible, GoodPick, GetBound, Clamp, BindingKey, PolicyPick, Inv, RouteOf;
      ghost var s, t, cfg := pool.State(), sessions.State(), sessions.Cfg();
      end := ReadClock(start);
      at := end;
      ghost var first := end;
      picked := PickCandidateForAttempt(info, attempted, end);
      events := [Event(Get(info), s, end)];
      OneEvent(cfg, t, events[0], info, start);
      assert SessionRun(cfg, t, sessions.State(), events, info, start, end);
      failure := None;
      if picked.None? {
        if info.sessionID != "" && (attempted == {} || BindingKey(info) !in t.bindings) {
          UnboundWhenNothing(t, info, s, attempted, end);
        }
        return;
      }
      var custom := pool.Dialer(picked.value.fingerprint);
      failure := DialVia(dial, picked.value, custom);
      end := ReadClock(end);
      at := end;
      ghost var mid := sessions.State();
      if failure.None? {
        if info.sessionID != "" {
          sessions.Rebind(info, picked.value.fingerprint, end);
        }
        OneEvent(cfg, mid, Event(Bind(info, picked.value.fingerprint), pool.State(), end), info, first);
        events := events + [Event(Bind(info, picked.value.fingerprint), pool.State(), end)];
      } else {
        pool.MarkFailure(picked.value.fingerprint, failure.value, maxFailures, end);
        if info.sessionID != "" {
          sessions.Unbind(info);
        }
        OneEvent(cfg, mid, Event(Drop(info), pool.State(), end), info, first);
        events := events + [Event(Drop(info), pool.State(), end)];
      }
      SessionRunConcat(cfg, t, mid, sessions.State(), events[..1], events[1..], info, start, first, end);
      assert events[..1] + events[1..] == events;
    }

    /** Tries candidates until one dials or there is nothing left to try. */
    method DialScheduled(info: SessionInfo, dial: DialOracle, start: Instant)
      returns (r: Option<Candidate>, ghost tried: seq<Candidate>, ghost marks: seq<Mark>, ghost events: seq<Event>,
               end: Instant)
      requires pool.Valid()
      modifies pool, sessions
      ensures pool.Valid()
      // who is tried: different candidates, available and on the route at entry, no more than the limit
      ensures |tried| <= 1 || |tried| <= retryAttempts + 1
      ensures DistinctEligible(old(pool.State()), RouteOf(info), tried)
      // how it ends: the last one dials and all before it fail, or all fail and nothing is left or the limit is reached
      ensures r.Some? ==>
                && tried != [] && r.value == tried[|tried| - 1]
                && DialError(dial, old(pool.State()), r.value) == None
                && MarksFor(marks, tried[..|tried| - 1], dial, old(pool.State()))
      ensures r.None? ==>
                && MarksFor(marks, tried, dial, old(pool.State()))
                && (|| (|tried| >= 1 && |tried| >= retryAttempts + 1)
                    || NoneLeft(old(pool.State()), RouteOf(info), Elements(Fingerprints(tried))))
      // the pool afterwards: one mark for each failed attempt, and nothing else but the cursor
      ensures pool.State() == Run(old(pool.State()), marks, maxFailures).(rr := pool.rr)
      // the session afterwards: bound to the winner, or unbound; no other session is touched
      ensures SessionRun(sessions.Cfg(), old(sessions.State()), sessions.State(), events, info, start, end)
      ensures info.sessionID != "" && r.Some? ==>
                EndsBound(sessions.Cfg(), sessions.State(), info, r.value.fingerprint, events)
      ensures info.sessionID != "" && r.None? ==> BindingKey(info) !in sessions.bindings
      // a fast request cuts what is left again at every attempt
      ensures info.fast && 1 <= fastPoolPercent < 100 ==>
                CutEachTime(old(sessions.State()), fastPoolPercent, Request(info, old(pool.State()), tried, events))
      // the candidate a session is still bound to is tried first
      ensures LooksUpFirst(old(sessions.State()), Request(info, old(pool.State()), tried, events))
    {
      hide Normalized, Eligible, GoodPick, NoneLeft, GetBound, Clamp, BindingKey, DistinctEligible, Progress, MarksFor,
           SessionRun, BoundSince, EndsBound, LooksUpFirst, DialError, Run, PolicyPick, CutEachTime, Elements,
           Fingerprints, Inv, MarkFailure, RouteOf;
      ghost var s, t, cfg := pool.State(), sessions.State(), sessions.Cfg();
      ghost var route := RouteOf(info);
      var attempted: set<Fingerprint> := {};
      var maxAttempts := retryAttempts + 1;
      if maxAttempts <= 0 {
        maxAttempts := 1;
      }
      tried, marks, events, end := [], [], [], start;
      NothingYet(s, t, cfg, info, dial, maxFailures, start);
      for attempt := 1 to maxAttempts + 1
        invariant pool.Valid()
        invariant |tried| == attempt - 1 && attempted == Elements(Fingerprints(tried))
        invariant Progress(s, pool.State(), route, dial, maxFailures, tried, marks)
        invariant SessionRun(cfg, t, sessions.State(), events, info, start, end)
        invariant start <= end
        invariant tried == [] ==> sessions.State() == t && pool.State() == s
        invariant tried != [] && info.sessionID != "" ==> BindingKey(info) !in sessions.bindings
        invariant tried == [] <==> events == []
        invariant tried != [] ==> LooksUpFirst(t, Request(info, s, tried, events))
        invariant info.fast && 1 <= fastPoolPercent < 100 ==>
                    CutEachTime(t, fastPoolPercent, Request(info, s, tried, events))
      {
        ghost var p, u := pool.State(), sessions.State();
        var picked, failure, at, last, evs := Attempt(info, dial, attempted, end);
        SessionRunConcat(cfg, t, u, sessions.State(), events, evs, info, start, end, last);
        NextPick(s, p, route, dial, maxFailures, tried, marks, picked);
        ghost var found := if picked.Some? then [picked.value] else [];
        if info.fast && 1 <= fastPoolPercent < 100 {
          CutOnce(s, p, t, u, pool.rr, policy, fastPoolPercent, info, dial, maxFailures, tried, marks, picked, events,
                  evs);
        }
        if tried == [] {
          FirstTurn(t, info, s, picked, evs);
          assert [] + found == found && [] + evs == evs;
        } else {
          StartStands(t, info, s, tried, events, found, evs);
        }
        if info.sessionID != "" && picked.Some? && failure.None? {
          BoundAtTheEnd(cfg, sessions.State(), info, picked.value.fingerprint, events, evs);
        }
        events := events + evs;
        end := last;
        if picked.None? {
          assert tried + [] == tried;
          ProgressIs(s, p, route, dial, maxFailures, tried, marks);
          CursorOnly(s, p, pool.rr, marks, maxFailures);
          return None, tried, marks, events, end;
        }
        var c := picked.value;
        if failure.None? {
          ProgressIs(s, p, route, dial, maxFailures, tried, marks);
          CursorOnly(s, p, pool.rr, marks, maxFailures);
          assert (tried + [c])[..|tried|] == tried;
          tried := tried + [c];
          return Some(c), tried, marks, events, end;
        }
        FailureProgresses(s, p, route, dial, maxFailures, tried, marks, c, at, failure.value, pool.rr);
        assert (tried + [c])[0] == if tried == [] then c else tried[0];
        AttemptedGrows(tried, c);
        tried, marks := tried + [c], marks + [Failed(c.fingerprint, at, failure.value)];
        attempted := attempted + {c.fingerprint};
      }
      ProgressIs(s, pool.State(), route, dial, maxFailures, tried, marks);
      r := None;
    }
  }

  lemma SessionlessGet(t: Table, info: SessionInfo, s: PoolState, now: Instant)
    ensures info.sessionID == "" ==> GetBound(t, info, s, now) == (t, None)
  {
  }

  lemma OneEvent(cfg: Config, t: Table, e: Event, info: SessionInfo, from: Instant)
    requires from <= e.at && !e.op.CountAll? && e.op.info == info
    ensures SessionRun(cfg, t, StepTable(cfg, t, e).0, [e], info, from, e.at)
  {
    hide StepTable;
    assert [e][1..] == [];
    var u := StepTable(cfg, t, e).0;
    assert InOrder(e.at, []);
    assert RunTable(cfg, u, []).0 == u;
    assert RunTable(cfg, t, [e]).0 == RunTable(cfg, u, [e][1..]).0;
  }

  /** When a lookup leads to no candidate at all, the session is left unbound. */
  lemma UnboundWhenNothing(t: Table, info: SessionInfo, s: PoolState, exclude: set<Fingerprint>, now: Instant)
    requires Inv(s) && info.sessionID != "" && GoodPick(s, RouteOf(info), exclude, None)
    requires exclude == {} || BindingKey(info) !in t.bindings
    ensures BindingKey(info) !in GetBound(t, info, s, now).0.bindings
  {
    hide Normalized, BindingKey;
    BoundIsGood(t, info, s, exclude, now);
  }

  lemma NothingYet(s: PoolState, t: Table, cfg: Config, info: SessionInfo, dial: DialOracle, maxFailures: int,
                   start: Instant)
    ensures Progress(s, s, RouteOf(info), dial, maxFailures, [], [])
    ensures SessionRun(cfg, t, t, [], info, start, start)
    ensures Elements(Fingerprints([])) == {}
    ensures forall percent :: CutEachTime(t, percent, Request(info, s, [], []))
  {
  }

  lemma ProgressIs(s: PoolState, p: PoolState, route: Predicate, dial: DialOracle, maxFailures: int,
                   tried: seq<Candidate>, marks: seq<Mark>)
    requires Progress(s, p, route, dial, maxFailures, tried, marks)
    ensures p == Run(s, marks, maxFailures).(rr := p.rr)
    ensures DistinctEligible(s, route, tried) && MarksFor(marks, tried, dial, s)
  {
  }

  lemma CursorOnly(s: PoolState, p: PoolState, rr: nat, marks: seq<Mark>, maxFailures: int)
    requires p == Run(s, marks, maxFailures).(rr := p.rr)
    ensures p.(rr := rr) == Run(s, marks, maxFailures).(rr := rr)
  {
  }

  lemma AttemptedGrows(tried: seq<Candidate>, c: Candidate)
    ensures Elements(Fingerprints(tried + [c])) == Elements(Fingerprints(tried)) + {c.fingerprint}
  {
    var all := tried + [c];
    FingerprintsSnoc(all);
    assert all[..|tried|] == tried;
    ElementsSnoc(Fingerprints(all));
  }
}
