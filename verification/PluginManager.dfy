/** The plugin manager's refresh (internal/app/app.go): from validated candidates and reports to pool, status and
    store. */
module PluginManagers {
  import opened Text
  import opened Candidates
  import opened PoolModel
  import opened Pools
  import opened Refresh

  datatype PluginStatus = PluginStatus(degraded: bool, lastError: string, reports: seq<ImportReport>)

  /** The error of the last report that has one. */
  function LastError(reports: seq<ImportReport>): string {
    if reports == [] then ""
    else if reports[|reports| - 1].error != "" then reports[|reports| - 1].error
    else LastError(reports[..|reports| - 1])
  }

  /** A refresh is degraded when nothing was imported, a source failed, or nothing passed validation. */
  function StatusOf(imported: nat, validated: nat, reports: seq<ImportReport>): (bool, string) {
    (imported == 0 || validated == 0 || exists r :: r in reports && r.error != "",
     if imported > 0 && validated == 0 then "zero candidates passed validation" else LastError(reports))
  }

  /** The reports with the size of the batch each led to. */
  function Counted(reports: seq<ImportReport>, imp: Delivery): seq<ImportReport> {
    seq(|reports|, i requires 0 <= i < |reports| =>
          reports[i].(validated := |BatchFor(imp.valid, imp.plugin, reports[i].source)|))
  }

  /** The pool updates of one plugin's reports. */
  function Updates(reports: seq<ImportReport>, imp: Delivery): seq<Update> {
    seq(|reports|, i requires 0 <= i < |reports| => Update(reports[i], imp))
  }

  /** A refresh with a failed report is degraded, and shows the error of the last one that failed unless nothing at all
      passed validation. */
  lemma StatusAfterError(imported: nat, validated: nat, reports: seq<ImportReport>, i: nat)
    requires i < |reports| && reports[i].error != "" && forall j :: i < j < |reports| ==> reports[j].error == ""
    ensures StatusOf(imported, validated, reports) ==
            (true, if imported > 0 && validated == 0 then "zero candidates passed validation" else reports[i].error)
  {
    LastErrorIs(reports, i);
    assert reports[i] in reports;
  }

  lemma {:induction false} LastErrorIs(reports: seq<ImportReport>, i: nat)
    requires i < |reports| && reports[i].error != "" && forall j :: i < j < |reports| ==> reports[j].error == ""
    ensures LastError(reports) == reports[i].error
  {
    if i < |reports| - 1 {
      LastErrorIs(reports[..|reports| - 1], i);
    }
  }

  /** Without one it is degraded exactly when nothing was imported or nothing passed. */
  lemma {:induction false} StatusWithoutError(imported: nat, validated: nat, reports: seq<ImportReport>)
    requires forall j :: 0 <= j < |reports| ==> reports[j].error == ""
    ensures StatusOf(imported, validated, reports) ==
            (imported == 0 || validated == 0,
             if imported > 0 && validated == 0 then "zero candidates passed validation" else "")
  {
    if reports != [] {
      StatusWithoutError(imported, validated, reports[..|reports| - 1]);
    }
  }

  /** Every report leads to one pool update of its own delivery, in order, and is shown with the size of its batch. */
  lemma UpdatesAre(reports: seq<ImportReport>, imp: Delivery, i: nat)
    requires i < |reports|
    ensures |Updates(reports, imp)| == |Counted(reports, imp)| == |reports|
    ensures Updates(reports, imp)[i].report == reports[i] && Updates(reports, imp)[i].from == imp
    ensures Counted(reports, imp)[i].source == reports[i].source && Counted(reports, imp)[i].error == reports[i].error
    ensures Counted(reports, imp)[i].validated == |Updates(reports, imp)[i].Batch()|
  {
    hide BatchFor;
  }

  method FilterCandidatesForReport(candidates: seq<Candidate>, plugin: string, source: string)
    returns (out: seq<Candidate>)
    ensures out == BatchFor(candidates, plugin, source)
  {
    out := [];
    for i := 0 to |candidates|
      invariant out == Select(candidates[..i], ReportMatcher(plugin, source))
    {
      assert candidates[..i + 1][..i] == candidates[..i];
      if MatchesReportSource(candidates[i], plugin, source) {
        out := out + [candidates[i]];
      }
    }
    assert candidates[..|candidates|] == candidates;
    if |out| > 0 {
      return;
    }
    for i := 0 to |candidates|
      invariant out == Select(candidates[..i], PluginMatcher(plugin))
    {
      assert candidates[..i + 1][..i] == candidates[..i];
      if candidates[i].source == plugin {
        out := out + [candidates[i]];
      }
    }
  }

  class PluginManager {
    const pool: Pool
    var status: map<string, PluginStatus>
    var saved: seq<Candidate>

    constructor (pool: Pool)
      ensures this.pool == pool && status == map[] && saved == []
    {
      this.pool := pool;
      status, saved := map[], [];
    }

    /** One refresh of a plugin: one pool update per report, then the store and the status. */
    method Refresh(plugin: string, imported: nat, reports: seq<ImportReport>, valid: seq<Candidate>,
                   newDialers: map<Fingerprint, DialerId>, start: Instant)
      returns (ghost steps: seq<Step>)
      requires pool.Valid()
      modifies this, pool
      ensures pool.Valid()
      ensures var imp := Delivery(plugin, valid, newDialers);
              if reports == []
              then && (exists at :: pool.State() == PoolModel.AddValidated(old(pool.State()), valid, newDialers, at))
                   && pool.items.Keys == old(pool.items).Keys + StoredSet(valid)
              else && pool.State() == RunSteps(old(pool.State()), steps) && UpdatesOf(steps) == Updates(reports, imp)
                   && pool.items.Keys == Kept(old(pool.State()), Updates(reports, imp)) + Added(Updates(reports, imp))
      ensures saved == List(pool.State())
      ensures var (degraded, lastError) := StatusOf(imported, |valid|, reports);
              var updated := Counted(reports, Delivery(plugin, valid, newDialers));
              status == old(status)[plugin := PluginStatus(degraded, lastError, updated)]
    {
      hide Normalized, BatchFor, Stored, MatchesReportSource, StoredSet, Kept, Added, RunSteps, UpdatesOf, StatusOf;
      ghost var s := pool.State();
      var imp := Delivery(plugin, valid, newDialers);
      var degraded, lastError := Assess(imported, |valid|, reports);
      var updated, now;
      updated, now, steps := ApplyReports(reports, imp, start);
      if |updated| == 0 {
        now := ReadClock(now);
        AddEffect(s, valid, newDialers, now);
        EmptyRun(s, steps);
        var _ := pool.AddValidated(valid, newDialers, now);
        assert pool.State() == PoolModel.AddValidated(s, valid, newDialers, now);
      } else {
        assert OneEach(Updates(reports, imp));
        RefreshEquation(s, steps);
      }
      saved := pool.List();
      status := status[plugin := PluginStatus(degraded, lastError, updated)];
    }

    /** The per-report loop. */
    method ApplyReports(reports: seq<ImportReport>, imp: Delivery, start: Instant)
      returns (updated: seq<ImportReport>, now: Instant, ghost steps: seq<Step>)
      requires pool.Valid()
      modifies pool
      ensures pool.Valid() && pool.State() == RunSteps(old(pool.State()), steps)
      ensures UpdatesOf(steps) == Updates(reports, imp)
      ensures updated == Counted(reports, imp)
      ensures reports == [] ==> steps == []
    {
      hide Inv, BatchFor, RunSteps, UpdatesOf, ReportStep, Updates, Counted;
      updated, now, steps := [], start, [];
      NoReports(pool.State(), imp);
      for i := 0 to |reports|
        invariant pool.Valid()
        invariant pool.State() == RunSteps(old(pool.State()), steps)
        invariant UpdatesOf(steps) == Updates(reports[..i], imp)
        invariant updated == Counted(reports[..i], imp)
        invariant i == 0 ==> steps == []
      {
        var batch := FilterCandidatesForReport(imp.valid, imp.plugin, reports[i].source);
        now := ReadClock(now);
        UpdatePool(reports[i], batch, imp, now);
        ghost var step := Report(Update(reports[i], imp), now);
        StepsSnoc(old(pool.State()), steps, step);
        CountedSnoc(reports, i, imp);
        steps := steps + [step];
        updated := updated + [reports[i].(validated := |batch|)];
      }
      assert reports[..|reports|] == reports;
    }

    /** The pool update one report leads to. */
    method UpdatePool(r: ImportReport, batch: seq<Candidate>, imp: Delivery, now: Instant)
      requires pool.Valid() && batch == BatchFor(imp.valid, imp.plugin, r.source)
      modifies pool
      ensures pool.Valid() && pool.State() == ReportStep(old(pool.State()), Update(r, imp), now)
    {
      hide Normalized, BatchFor;
      if r.error == "" {
        var _, _ := pool.ReplaceValidatedMatching(batch, imp.dialers, Some(ReportMatcher(imp.plugin, r.source)), now);
      } else if |batch| > 0 {
        var _ := pool.AddValidated(batch, imp.dialers, now);
      }
    }
  }

  method Assess(imported: nat, validated: nat, reports: seq<ImportReport>) returns (degraded: bool, lastError: string)
    ensures (degraded, lastError) == StatusOf(imported, validated, reports)
  {
    degraded, lastError := false, "";
    if imported == 0 {
      degraded := true;
    }
    for i := 0 to |reports|
      invariant degraded <==> imported == 0 || exists r :: r in reports[..i] && r.error != ""
      invariant lastError == LastError(reports[..i])
    {
      assert reports[..i + 1][..i] == reports[..i];
      assert forall r :: r in reports[..i + 1] <==> r in reports[..i] || r == reports[i];
      if reports[i].error != "" {
        degraded := true;
        lastError := reports[i].error;
      }
    }
    assert reports[..|reports|] == reports;
    if imported > 0 && validated == 0 {
      degraded := true;
      lastError := "zero candidates passed validation";
    }
  }

  lemma CountedSnoc(reports: seq<ImportReport>, i: nat, imp: Delivery)
    requires i < |reports|
    ensures Counted(reports[..i + 1], imp) ==
            Counted(reports[..i], imp)
            + [reports[i].(validated := |BatchFor(imp.valid, imp.plugin, reports[i].source)|)]
    ensures Updates(reports[..i + 1], imp) == Updates(reports[..i], imp) + [Update(reports[i], imp)]
  {
    hide BatchFor;
  }

  lemma NoReports(s: PoolState, imp: Delivery)
    ensures RunSteps(s, []) == s && UpdatesOf([]) == [] && Updates([], imp) == [] && Counted([], imp) == []
  {
  }

  lemma EmptyRun(s: PoolState, steps: seq<Step>)
    ensures steps == [] ==> RunSteps(s, steps) == s && UpdatesOf(steps) == []
  {
  }

  lemma StepsSnoc(s: PoolState, steps: seq<Step>, step: Step)
    requires step.Report?
    ensures RunSteps(s, steps + [step]) == ReportStep(RunSteps(s, steps), step.update, step.at)
    ensures UpdatesOf(steps + [step]) == UpdatesOf(steps) + [step.update]
  {
    hide ReportStep;
    assert (steps + [step])[..|steps|] == steps;
  }
}
