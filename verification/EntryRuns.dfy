/**
 * One pool entry over runs of everything that happens to a pool: when it is evicted, and what dialling it comes to when
 * the pool has moved on between the pick and the dispatch (internal/core/pool.go, internal/proxy/server.go).
 */
module EntryRuns {
  import opened Text
  import opened Candidates
  import opened PoolModel
  import opened PoolHistory
  import opened Refresh
  import opened Scheduler
  import opened Persistence

  // -------------------------------------------------------------- eviction

  /** What neither readmits an entry nor drops it. */
  ghost predicate Spares(s: PoolState, h: Happening, fp: Fingerprint) {
    match h
    case Import(cs, _, replace, _) =>
      fp !in StoredSet(cs) && !(replace.Some? && fp in s.items && replace.value(s.items[fp]))
    case Admission(cs, _, _) => fp !in StoredSet(cs)
    case Restarted(_, _) => false
    case _ => true
  }

  /** A run that spares the entry throughout, with one failure threshold. */
  ghost predicate SparesAll(w: World, hs: seq<Happening>, fp: Fingerprint, m: int) {
    hs == [] ||
    var n := |hs| - 1;
    && SparesAll(w, hs[..n], fp, m) && Spares(RunWorld(w, hs[..n]).pool, hs[n], fp)
    && (hs[n].Marked? ==> hs[n].maxFailures == m)
  }

  function MarksIn(hs: seq<Happening>): seq<Mark> {
    if hs == [] then []
    else MarksIn(hs[..|hs| - 1]) + if hs[|hs| - 1].Marked? then [hs[|hs| - 1].mark] else []
  }

  lemma ImportSpares(s: PoolState, h: Happening, fp: Fingerprint)
    requires Inv(s) && fp in s.items && h.Import? && Spares(s, h, fp)
    ensures var t := ReplaceMatching(s, h.candidates, h.dialers, h.replace, h.at);
            Inv(t) && fp in t.items && t.items[fp] == s.items[fp]
  {
    hide Normalized, Stored, Normalize, ReplaceMatching, AdmitAll, Restrict, FirstOccurrences;
    ReplaceMatchingShape(s, h.candidates, h.dialers, h.replace, h.at);
    StoredSetIs(h.candidates, h.at);
  }

  lemma AdmissionSpares(s: PoolState, h: Happening, fp: Fingerprint)
    requires Inv(s) && fp in s.items && h.Admission? && Spares(s, h, fp)
    ensures var t := AddValidated(s, h.candidates, h.dialers, h.at);
            Inv(t) && fp in t.items && t.items[fp] == s.items[fp]
  {
    hide Normalized, Stored, Normalize, AddValidated, FirstOccurrences;
    AdmissionInv(s, h.candidates, h.dialers, h.at);
    StoredSetIs(h.candidates, h.at);
    AddLeavesOthers(s, h.candidates, h.dialers, h.at, fp);
  }

  lemma MarkLooksAtOwnEntry(s: PoolState, t: PoolState, mark: Mark, m: int, fp: Fingerprint)
    requires fp in s.items && fp in t.items && s.items[fp] == t.items[fp]
    ensures fp in Apply(s, mark, m).items && fp in Apply(t, mark, m).items
    ensures Apply(s, mark, m).items[fp] == Apply(t, mark, m).items[fp]
  {
  }

  lemma SparedStep(w: World, h: Happening, fp: Fingerprint, s: PoolState, m: int)
    requires Inv(w.pool) && fp in w.pool.items && Spares(w.pool, h, fp)
    requires fp in s.items && s.items[fp] == w.pool.items[fp] && (h.Marked? ==> h.maxFailures == m)
    ensures var t := if h.Marked? then Apply(s, h.mark, m) else s;
            && Inv(Next(w, h).pool) && fp in Next(w, h).pool.items && fp in t.items
            && Next(w, h).pool.items[fp] == t.items[fp]
  {
    hide Normalized, StoredSet, ReplaceMatching, AddValidated, Apply;
    match h
    case Import(cs, dialers, replace, at) => ImportSpares(w.pool, h, fp);
    case Admission(cs, dialers, at) => AdmissionSpares(w.pool, h, fp);
    case Marked(mark, maxFailures) =>
      MarkLooksAtOwnEntry(w.pool, s, mark, m, fp);
      MarkKeepsLabels(w.pool, mark, m);
    case _ =>
  }

  /** What becomes of a spared entry's record is what its marks alone would make of it. */
  lemma {:induction false} SparedRecord(w: World, hs: seq<Happening>, fp: Fingerprint, m: int)
    requires Inv(w.pool) && fp in w.pool.items && SparesAll(w, hs, fp, m)
    ensures var v, t := RunWorld(w, hs), Run(w.pool, MarksIn(hs), m);
            Inv(v.pool) && fp in v.pool.items && fp in t.items && v.pool.items[fp] == t.items[fp]
  {
    hide Inv, Spares, Next, Apply;
    if hs == [] {
      assert Run(w.pool, [], m) == w.pool;
    } else {
      var n := |hs| - 1;
      SparedRecord(w, hs[..n], fp, m);
      SparedStep(RunWorld(w, hs[..n]), hs[n], fp, Run(w.pool, MarksIn(hs[..n]), m), m);
      if hs[n].Marked? {
        assert MarksIn(hs)[..|MarksIn(hs)| - 1] == MarksIn(hs[..n]);
      } else {
        assert MarksIn(hs) == MarksIn(hs[..n]);
      }
    }
  }

  lemma AdmittedFresh(w: World, h: Happening, fp: Fingerprint)
    requires Inv(w.pool) && (h.Import? || h.Admission?) && fp in StoredSet(h.candidates)
    ensures var s := Next(w, h).pool;
            Inv(s) && fp in s.items && s.items[fp].status == Available && s.items[fp].failureCount == 0
  {
    hide Normalized, Stored, Normalize, ReplaceMatching, AddValidated;
    StoredSetIs(h.candidates, h.at);
    match h
    case Import(cs, dialers, replace, at) =>
      ImportInv(w.pool, cs, dialers, replace, at);
      AdmissionIsFresh(w.pool, cs, dialers, replace, at, fp);
    case Admission(cs, dialers, at) =>
      AdmissionInv(w.pool, cs, dialers, at);
      AdmissionIsFresh(w.pool, cs, dialers, None, at, fp);
    case _ =>
  }

  /**
   * Eviction since admission: whatever else happens to the pool, an entry admitted by validation and neither readmitted
   * nor dropped since is unavailable exactly when its marks since then contain m failures with no success between them.
   */
  lemma EvictionSinceAdmission(w: World, admission: Happening, hs: seq<Happening>, fp: Fingerprint, m: int)
    requires Inv(w.pool) && m >= 1
    requires (admission.Import? || admission.Admission?) && fp in StoredSet(admission.candidates)
    requires SparesAll(Next(w, admission), hs, fp, m)
    ensures var s := RunWorld(Next(w, admission), hs).pool;
            fp in s.items && (s.items[fp].status == Unavailable <==> FailsInARow(History(MarksIn(hs), fp), m))
  {
    hide Inv, Next, RunWorld, StoredSet, SparesAll, FailsInARow, History;
    AdmittedFresh(w, admission, fp);
    SparedRecord(Next(w, admission), hs, fp, m);
    EvictionByHistory(Next(w, admission).pool, MarksIn(hs), m, fp);
  }

  // -------------------------------------------------------------- dispatch

  /** What takes an entry's dialer away: an import that replaces the entry without bringing it back, or a restart. */
  ghost predicate Drops(s: PoolState, h: Happening, fp: Fingerprint) {
    match h
    case Import(cs, _, replace, _) =>
      fp in s.items && replace.Some? && replace.value(s.items[fp]) && fp !in StoredSet(cs)
    case Restarted(_, _) => true
    case _ => false
  }

  /** What registers a dialer for it. */
  ghost predicate Brings(h: Happening, fp: Fingerprint) {
    match h
    case Import(cs, dialers, _, _) => fp in StoredSet(cs) && fp in dialers
    case Admission(cs, dialers, _) => fp in StoredSet(cs) && fp in dialers
    case Registered(other, _) => other == fp
    case _ => false
  }

  function BroughtBy(h: Happening, fp: Fingerprint): DialerId
    requires Brings(h, fp)
  {
    match h
    case Import(_, dialers, _, _) => dialers[fp]
    case Admission(_, dialers, _) => dialers[fp]
    case Registered(_, dialer) => dialer
  }

  /** During the run the dialer was taken away, and nothing after that registered one again. */
  ghost predicate DialerLost(w: World, hs: seq<Happening>, fp: Fingerprint) {
    exists i :: 0 <= i < |hs| && LostAt(w, hs, fp, i)
  }

  ghost predicate LostAt(w: World, hs: seq<Happening>, fp: Fingerprint, i: nat)
    requires i < |hs|
  {
    Drops(RunWorld(w, hs[..i]).pool, hs[i], fp) && forall j :: i < j < |hs| ==> !Brings(hs[j], fp)
  }

  lemma {:induction false} PutAllDialers(s: PoolState, batch: seq<Candidate>, dialers: map<Fingerprint, DialerId>,
                                         fp: Fingerprint)
    ensures fp in PutAll(s, batch, dialers).dialers <==> fp in s.dialers || (fp in Fingerprints(batch) && fp in dialers)
    ensures fp in PutAll(s, batch, dialers).dialers ==>
              PutAll(s, batch, dialers).dialers[fp] ==
              if fp in Fingerprints(batch) && fp in dialers then dialers[fp] else s.dialers[fp]
  {
    if batch != [] {
      var n := |batch| - 1;
      PutAllDialers(s, batch[..n], dialers, fp);
      FingerprintsSnoc(batch);
    }
  }

  lemma {:induction false} AddDialers(s: PoolState, cs: seq<Candidate>, dialers: map<Fingerprint, DialerId>,
                                      now: Instant,
                                      fp: Fingerprint)
    ensures fp in AddValidated(s, cs, dialers, now).dialers <==>
              fp in s.dialers || (fp in StoredSet(cs) && fp in dialers)
    ensures fp in AddValidated(s, cs, dialers, now).dialers ==>
              AddValidated(s, cs, dialers, now).dialers[fp] ==
              if fp in StoredSet(cs) && fp in dialers then dialers[fp] else s.dialers[fp]
  {
    hide Admit, Stored, Normalize;
    if cs != [] {
      var n := |cs| - 1;
      AddDialers(s, cs[..n], dialers, now, fp);
      AdmitSupplied(AddValidated(s, cs[..n], dialers, now).items, cs[n], now);
      assert cs == cs[..n] + [cs[n]];
      assert StoredSet(cs) == StoredSet(cs[..n]) + {Stored(cs[n])};
    }
  }

  lemma ImportDialers(s: PoolState, h: Happening, fp: Fingerprint)
    requires h.Import?
    ensures fp in ReplaceMatching(s, h.candidates, h.dialers, h.replace, h.at).dialers <==>
            (fp in s.dialers && !Drops(s, h, fp)) || Brings(h, fp)
    ensures var t := ReplaceMatching(s, h.candidates, h.dialers, h.replace, h.at);
            fp in t.dialers ==> t.dialers[fp] == if Brings(h, fp) then h.dialers[fp] else s.dialers[fp]
  {
    hide Admit, Stored, Normalize, PutAll;
    var batch := AdmitAll(s.items, h.candidates, h.at);
    PutAllDialers(Sweep(s, FingerprintSet(batch), h.replace), batch, h.dialers, fp);
    BatchIsStored(s.items, h.candidates, h.at);
  }

  lemma BatchIsStored(items: map<Fingerprint, Candidate>, cs: seq<Candidate>, now: Instant)
    ensures FingerprintSet(AdmitAll(items, cs, now)) == StoredSet(cs)
    ensures Elements(Fingerprints(AdmitAll(items, cs, now))) == StoredSet(cs)
  {
    hide Stored, Normalize, Admit;
    var fps := Fingerprints(AdmitAll(items, cs, now));
    forall i | 0 <= i < |cs| ensures fps[i] == Stored(cs[i]) {
      AdmitSupplied(items, cs[i], now);
    }
    forall fp | fp in StoredSet(cs) ensures fp in fps {
      var c :| c in cs && Stored(c) == fp;
      var i :| 0 <= i < |cs| && cs[i] == c;
      assert fps[i] == fp;
    }
    forall fp | fp in fps ensures fp in StoredSet(cs) {
      var i :| 0 <= i < |fps| && fps[i] == fp;
      assert cs[i] in cs;
    }
  }

  /** One happening: the dialer is there afterwards if it was and is not dropped, or if it is brought. */
  lemma DialerStep(w: World, h: Happening, fp: Fingerprint)
    ensures fp in Next(w, h).pool.dialers <==> (fp in w.pool.dialers && !Drops(w.pool, h, fp)) || Brings(h, fp)
    ensures fp in Next(w, h).pool.dialers ==>
              Next(w, h).pool.dialers[fp] == if Brings(h, fp) then BroughtBy(h, fp) else w.pool.dialers[fp]
  {
    hide Stored, Normalize, ReplaceMatching, AddValidated, Replace, ReloadAll;
    match h
    case Import(cs, dialers, replace, at) => ImportDialers(w.pool, h, fp);
    case Admission(cs, dialers, at) => AddDialers(w.pool, cs, dialers, at, fp);
    case Restarted(loadedAt, storedAt) => ReplaceShape(ReloadAll(w.saved, loadedAt), storedAt);
    case _ =>
  }

  lemma LostSnoc(w: World, hs: seq<Happening>, fp: Fingerprint)
    requires hs != []
    ensures var n := |hs| - 1;
            DialerLost(w, hs, fp) <==>
            Drops(RunWorld(w, hs[..n]).pool, hs[n], fp) || (DialerLost(w, hs[..n], fp) && !Brings(hs[n], fp))
  {
    hide Drops, Brings, RunWorld;
    var n := |hs| - 1;
    var before := hs[..n];
    assert forall i | 0 <= i < n :: before[i] == hs[i] && before[..i] == hs[..i];
    if i :| 0 <= i < |hs| && LostAt(w, hs, fp, i) {
      assert i < n ==> LostAt(w, before, fp, i);
    }
    if Drops(RunWorld(w, hs[..n]).pool, hs[n], fp) {
      assert LostAt(w, hs, fp, n);
    }
    if i :| 0 <= i < n && LostAt(w, before, fp, i) {
      assert !Brings(hs[n], fp) ==> LostAt(w, hs, fp, i);
    }
  }

  lemma {:induction false} DialerGoneIff(w: World, hs: seq<Happening>, fp: Fingerprint)
    requires fp in w.pool.dialers
    ensures fp !in RunWorld(w, hs).pool.dialers <==> DialerLost(w, hs, fp)
  {
    hide Drops, Next;
    if hs == [] {
    } else {
      var n := |hs| - 1;
      DialerGoneIff(w, hs[..n], fp);
      DialerStep(RunWorld(w, hs[..n]), hs[n], fp);
      LostSnoc(w, hs, fp);
      DroppedIsNotBrought(RunWorld(w, hs[..n]).pool, hs[n], fp);
    }
  }

  /** The dialer found under a fingerprint is the one that came last. */
  lemma {:induction false} DialerIsLatest(w: World, hs: seq<Happening>, fp: Fingerprint, i: nat)
    requires i < |hs| && Brings(hs[i], fp) && forall j :: i < j < |hs| ==> !Brings(hs[j], fp)
    ensures fp in RunWorld(w, hs).pool.dialers ==> RunWorld(w, hs).pool.dialers[fp] == BroughtBy(hs[i], fp)
    decreases |hs|
  {
    hide Drops, Brings, BroughtBy, Next;
    var n := |hs| - 1;
    DialerStep(RunWorld(w, hs[..n]), hs[n], fp);
    if i < n {
      var front := hs[..n];
      assert forall j :: 0 <= j < n ==> front[j] == hs[j];
      DialerIsLatest(w, front, fp, i);
    }
  }

  /** A step of a refresh as what happens to the pool: an error-free report replaces what it claims, any other adds. */
  function HappeningOf(step: Refresh.Step): Happening {
    match step
    case Report(u, at) =>
      if u.report.error == ""
      then Import(u.Batch(), u.from.dialers, Some(ReportMatcher(u.from.plugin, u.report.source)), at)
      else Admission(u.Batch(), u.from.dialers, at)
    case Marking(mark, maxFailures) => Marked(mark, maxFailures)
    case Cursor(rr) => Picked(rr)
  }

  lemma StepHappens(w: World, step: Refresh.Step)
    ensures Next(w, HappeningOf(step)).pool == StepPool(w.pool, step)
  {
    hide BatchFor, ReplaceMatching, AddValidated, Apply;
  }

  lemma ReportDrops(s: PoolState, u: Update, at: Instant, fp: Fingerprint)
    ensures Drops(s, HappeningOf(Report(u, at)), fp) <==>
            fp in s.items && u.Claims(s.items[fp]) && fp !in StoredSet(u.Batch())
    ensures Brings(HappeningOf(Report(u, at)), fp) <==> fp in StoredSet(u.Batch()) && fp in u.from.dialers
  {
    hide StoredSet, BatchFor, MatchesReportSource;
  }

  /** One step of the refresh keeps a dialer that some report has brought. */
  lemma DialerKept(s: PoolState, t: PoolState, us: seq<Update>, step: Refresh.Step, fp: Fingerprint)
    requires Settled(s, t, us) && fp in Added(us) && fp in t.dialers
    requires step.Report? ==> OneEach(us + [step.update])
    ensures fp in StepPool(t, step).dialers
  {
    hide Next, Drops, Brings, Stored, StoredSet, Update.Batch, Update.Claims, StepPool, HappeningOf, Own, OneEach, Kept,
         Added, SameLabels, Inv;
    var w := World(t, []);
    StepHappens(w, step);
    DialerStep(w, HappeningOf(step), fp);
    if step.Report? {
      ReportDrops(t, step.update, step.at, fp);
      if fp in t.items && step.update.Claims(t.items[fp]) {
        DeliveredStays(t.items[fp], fp, us, step.update);
      }
    } else {
      OtherDropsNothing(t, step, fp);
    }
  }

  lemma OtherDropsNothing(s: PoolState, step: Refresh.Step, fp: Fingerprint)
    requires !step.Report?
    ensures !Drops(s, HappeningOf(step), fp)
  {
  }

  lemma ReportBrings(t: PoolState, step: Refresh.Step, fp: Fingerprint)
    requires step.Report? && fp in StoredSet(step.update.Batch()) && fp in step.update.from.dialers
    ensures fp in StepPool(t, step).dialers
    ensures StepPool(t, step).dialers[fp] == step.update.from.dialers[fp]
  {
    hide Next, StoredSet, Update.Batch, StepPool;
    StepHappens(World(t, []), step);
    DialerStep(World(t, []), HappeningOf(step), fp);
    ReportDrops(t, step.update, step.at, fp);
  }

  /** What a refresh delivers can be dialled: whatever other reports and plugins do, every member of a report's batch
      that came with a dialer has one registered at the end. */
  lemma {:induction false} RefreshRegisters(s: PoolState, steps: seq<Refresh.Step>, u: Update, fp: Fingerprint)
    requires Inv(s) && OneEach(UpdatesOf(steps))
    requires u in UpdatesOf(steps) && fp in StoredSet(u.Batch()) && fp in u.from.dialers
    ensures fp in RunSteps(s, steps).dialers
  {
    hide Inv, StoredSet, Update.Batch, StepPool, Settled;
    var n := |steps| - 1;
    var us, t := UpdatesOf(steps[..n]), RunSteps(s, steps[..n]);
    assert steps[n].Report? ==> UpdatesOf(steps) == us + [steps[n].update];
    assert !steps[n].Report? ==> UpdatesOf(steps) == us + [] == us;
    if steps[n].Report? && steps[n].update == u {
      ReportBrings(t, steps[n], fp);
    } else {
      assert u in us;
      EachBefore(us, UpdatesOf(steps));
      hide OneEach, RunSteps, UpdatesOf;
      RefreshRegisters(s, steps[..n], u, fp);
      RunSettles(s, steps[..n]);
      BatchIsAdded(us, u, fp);
      DialerKept(s, t, us, steps[n], fp);
      RunStepsSnoc(s, steps);
    }
  }

  lemma RunStepsSnoc(s: PoolState, steps: seq<Refresh.Step>)
    requires steps != []
    ensures RunSteps(s, steps) == StepPool(RunSteps(s, steps[..|steps| - 1]), steps[|steps| - 1])
  {
    hide StepPool;
  }

  lemma EachBefore(us: seq<Update>, all: seq<Update>)
    requires us <= all && OneEach(all)
    ensures OneEach(us)
  {
    hide TrimSpace;
    assert forall u :: u in us ==> u in all;
  }

  lemma BatchIsAdded(us: seq<Update>, u: Update, fp: Fingerprint)
    requires u in us && fp in StoredSet(u.Batch())
    ensures fp in Added(us)
  {
    hide Stored, Update.Batch;
  }

  lemma DroppedIsNotBrought(s: PoolState, h: Happening, fp: Fingerprint)
    ensures !(Drops(s, h, fp) && Brings(h, fp))
  {
  }

  /**
   * A sing-box candidate is picked in one locked region and its dialer looked up in another. Over all runs before the
   * pick and all runs between the two, dispatch is unsupported exactly when an import or a restart in between took the
   * entry's dialer away and nothing after it registered one; otherwise the registered dialer is used. (No request
   * outlives a restart of the process; the statement allows one all the same.)
   */
  lemma DispatchAfterPick(before: seq<Happening>, between: seq<Happening>, fp: Fingerprint)
    requires forall i :: 0 <= i < |before| ==> Supplies(before[i])
    requires var s := RunWorld(World(EMPTY, []), before).pool;
             fp in s.items && s.items[fp].IsSingBox() && s.items[fp].status == Available
    ensures var picked := RunWorld(World(EMPTY, []), before);
            var c, s := picked.pool.items[fp], RunWorld(picked, between).pool;
            var d := DispatchOf(c, DialerOf(s, c.fingerprint));
            && c.fingerprint == fp
            && (d == Unsupported <==> DialerLost(picked, between, fp))
            && (d == Unsupported || (fp in s.dialers && d == Custom(s.dialers[fp])))
  {
    hide RunWorld, Supplies, DialerLost, Normalized;
    EmptyPoolInv();
    assert List(EMPTY) == [];
    assert SoundWorld(World(EMPTY, []));
    RunIsSound(World(EMPTY, []), before);
    DialerGoneIff(RunWorld(World(EMPTY, []), before), between, fp);
  }

  /** The race is real: the plugin delivers one node of a named source, a request picks it, and before the request looks
      its dialer up an error-free report of that source comes back with nothing valid. */
  lemma DispatchCanRace(c: Candidate, name: string, dialer: DialerId, at: Instant, later: Instant)
    requires Normalized(c) && c.IsSingBox()
    requires c.source == "singbox" && c.Meta("source") == name && name != ""
    ensures var before := [Admission([c], map[c.fingerprint := dialer], at)];
            var between := [Import([], map[], Some(ReportMatcher("singbox", name)), later)];
            var picked := RunWorld(World(EMPTY, []), before);
            var dispatched := RunWorld(picked, between);
            && Supplies(before[0]) && Supplies(between[0])
            && c.fingerprint in picked.pool.items && picked.pool.items[c.fingerprint].status == Available
            && picked.pool.items[c.fingerprint].IsSingBox()
            && DispatchOf(picked.pool.items[c.fingerprint], DialerOf(picked.pool, c.fingerprint)) == Custom(dialer)
            && DispatchOf(picked.pool.items[c.fingerprint], DialerOf(dispatched.pool, c.fingerprint)) == Unsupported
  {
    hide Normalized, AddValidated, ReplaceMatching, Stored, MatchesReportSource;
    var before := [Admission([c], map[c.fingerprint := dialer], at)];
    var between := [Import([], map[], Some(ReportMatcher("singbox", name)), later)];
    AdmittedAlone(c, name, dialer, at);
    var picked := RunWorld(World(EMPTY, []), before);
    RunOne(World(EMPTY, []), before[0]);
    RunOne(picked, between[0]);
    hide RunWorld;
    assert picked.pool == AddValidated(EMPTY, [c], map[c.fingerprint := dialer], at);
    assert StoredSet([]) == {};
    DialerStep(picked, between[0], c.fingerprint);
  }

  lemma RunOne(w: World, h: Happening)
    ensures RunWorld(w, [h]) == Next(w, h)
  {
    hide Next;
    assert [h][..0] == [];
    assert RunWorld(w, []) == w;
  }

  lemma AdmittedAlone(c: Candidate, name: string, dialer: DialerId, at: Instant)
    requires Normalized(c) && c.Meta("source") == name
    ensures Stored(c) == c.fingerprint
    ensures var s := AddValidated(EMPTY, [c], map[c.fingerprint := dialer], at);
            && c.fingerprint in s.items && s.items[c.fingerprint].status == Available
            && s.items[c.fingerprint].protocol == c.protocol
            && MatchesReportSource(s.items[c.fingerprint], c.source, name)
            && c.fingerprint in s.dialers && s.dialers[c.fingerprint] == dialer
  {
    NormalizeIsStable(c, 1);
    NormalizeIsStable(c, at);
    hide Normalize, Normalized;
    assert [c][..0] == [];
  }
}
