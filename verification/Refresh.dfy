/** Refreshing one plugin: a loop of partial pool replacements, one per import report (internal/app/app.go). */
module Refresh {
  import opened Text
  import opened Candidates
  import opened PoolModel
  import opened PoolHistory

  datatype ImportReport = ImportReport(source: string, error: string, validated: nat)

  predicate MatchesReportSource(c: Candidate, plugin: string, source: string) {
    && c.source == plugin
    && (|| source == ""
        || c.Meta("query") == source || c.Meta("source") == source
        || (plugin == "fpl" && c.Meta("query") == "" && c.Meta("source") == ""))
  }

  function ReportMatcher(plugin: string, source: string): Predicate {
    (c: Candidate) => MatchesReportSource(c, plugin, source)
  }

  function PluginMatcher(plugin: string): Predicate {
    (c: Candidate) => c.source == plugin
  }

  function Select(cs: seq<Candidate>, p: Predicate): seq<Candidate> {
    if cs == [] then []
    else Select(cs[..|cs| - 1], p) + (if p(cs[|cs| - 1]) then [cs[|cs| - 1]] else [])
  }

  /** The candidates of a report's source, or all of the plugin's when the source has none. */
  function BatchFor(valid: seq<Candidate>, plugin: string, source: string): seq<Candidate> {
    var matching := Select(valid, ReportMatcher(plugin, source));
    if matching != [] then matching else Select(valid, PluginMatcher(plugin))
  }

  lemma {:induction false} SelectMembers(cs: seq<Candidate>, p: Predicate)
    ensures forall c :: c in Select(cs, p) <==> c in cs && p(c)
  {
    if cs != [] {
      var n := |cs| - 1;
      SelectMembers(cs[..n], p);
      assert cs == cs[..n] + [cs[n]];
    }
  }

  /** What is selected stays in its order and number. */
  lemma {:induction false} SelectConcat(a: seq<Candidate>, b: seq<Candidate>, p: Predicate)
    ensures Select(a + b, p) == Select(a, p) + Select(b, p)
  {
    if b == [] {
      assert a + b == a;
    } else {
      var n := |b| - 1;
      assert (a + b)[..|a| + n] == a + b[..n];
      SelectConcat(a, b[..n], p);
    }
  }

  /** A report's batch is made of exactly the candidates that match it, or of all of the plugin's when none does. */
  lemma BatchMembers(valid: seq<Candidate>, plugin: string, source: string)
    ensures var someMatch := exists d :: d in valid && MatchesReportSource(d, plugin, source);
            forall c :: c in BatchFor(valid, plugin, source) <==>
                          c in valid && if someMatch then MatchesReportSource(c, plugin, source) else c.source == plugin
  {
    var matching := Select(valid, ReportMatcher(plugin, source));
    SelectMembers(valid, ReportMatcher(plugin, source));
    SelectMembers(valid, PluginMatcher(plugin));
    assert matching != [] ==> matching[0] in matching;
    if d :| d in valid && MatchesReportSource(d, plugin, source) {
      assert d in matching;
    }
  }

  // --------------------------------------------------- a refresh, step by step

  /** What a plugin's refresh delivers: what passed validation, and the dialers that came with it. */
  datatype Delivery = Delivery(plugin: string, valid: seq<Candidate>, dialers: map<Fingerprint, DialerId>)

  /** One report's pool update. */
  datatype Update = Update(report: ImportReport, from: Delivery) {
    function Batch(): seq<Candidate> {
      BatchFor(from.valid, from.plugin, report.source)
    }

    /** An error-free report is about the candidates of its source. */
    predicate Claims(c: Candidate) {
      report.error == "" && MatchesReportSource(c, from.plugin, report.source)
    }
  }

  /** Plugins refresh side by side, so their updates come in any order, and requests may mark candidates and move the
      cursor between any two of them. */
  datatype Step =
    | Report(update: Update, at: Instant)
    | Marking(mark: Mark, maxFailures: int)
    | Cursor(rr: nat)

  function ReportStep(s: PoolState, u: Update, at: Instant): PoolState {
    if u.report.error == ""
    then ReplaceMatching(s, u.Batch(), u.from.dialers, Some(ReportMatcher(u.from.plugin, u.report.source)), at)
    else AddValidated(s, u.Batch(), u.from.dialers, at)
  }

  function StepPool(s: PoolState, step: Step): PoolState {
    match step
    case Report(u, at) => ReportStep(s, u, at)
    case Marking(mark, maxFailures) => Apply(s, mark, maxFailures)
    case Cursor(rr) => s.(rr := rr)
  }

  function RunSteps(s: PoolState, steps: seq<Step>): PoolState {
    if steps == [] then s else StepPool(RunSteps(s, steps[..|steps| - 1]), steps[|steps| - 1])
  }

  function UpdatesOf(steps: seq<Step>): seq<Update> {
    if steps == [] then []
    else UpdatesOf(steps[..|steps| - 1]) + (if steps[|steps| - 1].Report? then [steps[|steps| - 1].update] else [])
  }

  /** Each plugin delivers once: the updates of one plugin belong to one refresh. */
  ghost predicate OneEach(us: seq<Update>) {
    forall u, v :: u in us && v in us && TrimSpace(u.from.plugin) == TrimSpace(v.from.plugin) ==> u.from == v.from
  }

  // -------------------------------------------------------- the set equation

  /** The identity a candidate will be stored under. */
  function Stored(c: Candidate): Fingerprint {
    Normalize(c, 1).fingerprint
  }

  function StoredSet(cs: seq<Candidate>): set<Fingerprint> {
    set c | c in cs :: Stored(c)
  }

  /** Some error-free report is about this candidate. */
  ghost predicate Claimed(c: Candidate, us: seq<Update>) {
    exists u :: u in us && u.Claims(c)
  }

  /** Old entries that no error-free report claims. */
  ghost function Kept(s: PoolState, us: seq<Update>): set<Fingerprint> {
    set fp | fp in s.items && !Claimed(s.items[fp], us)
  }

  /** Everything the reports bring in. */
  ghost function Added(us: seq<Update>): set<Fingerprint> {
    set u, c | u in us && c in u.Batch() :: Stored(c)
  }

  /** The labels refreshes look at. */
  predicate SameLabels(a: Candidate, b: Candidate) {
    a.source == b.source && a.metadata == b.metadata
  }

  lemma StoredIs(c: Candidate, now: Instant)
    ensures Normalize(c, now).fingerprint == Stored(c)
    ensures Normalize(c, now).source == TrimSpace(c.source) && Normalize(c, now).metadata == c.metadata
  {
    var a, b := Normalize(c, now), Normalize(c, 1);
    assert IdentityParts(a) == IdentityParts(b);
  }

  lemma StoredSetIs(cs: seq<Candidate>, now: Instant)
    ensures Elements(Fingerprints(NormalizeAll(cs, now))) == StoredSet(cs)
  {
    hide Normalize, Stored;
    var fps := Fingerprints(NormalizeAll(cs, now));
    forall i | 0 <= i < |cs| ensures fps[i] == Stored(cs[i]) {
      StoredIs(cs[i], now);
    }
    forall fp | fp in StoredSet(cs) ensures fp in fps {
      var c :| c in cs && Stored(c) == fp;
      var i :| 0 <= i < |cs| && cs[i] == c;
      assert fps[i] == fp;
    }
    forall fp | fp in fps ensures fp in StoredSet(cs) {
      var i :| 0 <= i < |fps| && fps[i] == fp;
      assert cs[i] in cs;
    }
  }

  /** A stored entry that came from the batch: the candidate it came from. */
  ghost predicate From(d: Candidate, fp: Fingerprint, cs: seq<Candidate>) {
    exists c :: c in cs && Stored(c) == fp && d.source == TrimSpace(c.source) && d.metadata == c.metadata
  }

  lemma AdmitFrom(items: map<Fingerprint, Candidate>, cs: seq<Candidate>, i: nat, now: Instant)
    requires i < |cs|
    ensures From(Admit(items, cs[i], now), Stored(cs[i]), cs)
    ensures Admit(items, cs[i], now).fingerprint == Stored(cs[i])
  {
    hide Normalize, Normalized;
    StoredIs(cs[i], now);
    AdmitIsNormalized(items, cs[i], now);
    AdmitLabels(items, cs[i], now);
    assert cs[i] in cs;
  }

  lemma AdmitLabels(items: map<Fingerprint, Candidate>, c: Candidate, now: Instant)
    ensures Admit(items, c, now).source == Normalize(c, now).source
    ensures Admit(items, c, now).metadata == Normalize(c, now).metadata
  {
    hide Normalize;
  }

  lemma {:induction false} AddFrom(s: PoolState, cs: seq<Candidate>, dialers: map<Fingerprint, DialerId>, now: Instant,
                                   fp: Fingerprint)
    requires fp in StoredSet(cs)
    ensures var t := AddValidated(s, cs, dialers, now); fp in t.items && From(t.items[fp], fp, cs)
  {
    hide Normalize, Normalized, Admit, Stored, From;
    var n := |cs| - 1;
    var c :| c in cs && Stored(c) == fp;
    var t := AddValidated(s, cs[..n], dialers, now);
    AdmitFrom(t.items, cs, n, now);
    assert cs == cs[..n] + [cs[n]];
    if Stored(cs[n]) != fp {
      assert c in cs[..n];
      AddFrom(s, cs[..n], dialers, now, fp);
      FromMore(t.items[fp], fp, cs[..n], cs);
    }
  }

  lemma FromMore(d: Candidate, fp: Fingerprint, some: seq<Candidate>, all: seq<Candidate>)
    requires From(d, fp, some) && forall c :: c in some ==> c in all
    ensures From(d, fp, all)
  {
    hide Stored;
  }

  /** One report: what it keeps, what it adds, and where every entry's labels come from. */
  lemma ReportEffect(s: PoolState, u: Update, at: Instant)
    requires Inv(s)
    ensures var t := ReportStep(s, u, at);
            && Inv(t)
            && t.items.Keys == (set fp | fp in s.items && !u.Claims(s.items[fp])) + StoredSet(u.Batch())
            && (forall fp :: fp in StoredSet(u.Batch()) ==> From(t.items[fp], fp, u.Batch()))
            && (forall fp :: fp in s.items && fp !in StoredSet(u.Batch()) && fp in t.items ==>
                  t.items[fp] == s.items[fp])
  {
    hide Normalized, Normalize, Stored, From, MatchesReportSource, BatchFor, Admit;
    if u.report.error == "" {
      ReplaceEffect(s, u.Batch(), u.from.dialers, ReportMatcher(u.from.plugin, u.report.source), at);
    } else {
      AddEffect(s, u.Batch(), u.from.dialers, at);
    }
  }

  lemma ReplaceEffect(s: PoolState, batch: seq<Candidate>, dialers: map<Fingerprint, DialerId>, p: Predicate,
                      at: Instant)
    requires Inv(s)
    ensures var t := ReplaceMatching(s, batch, dialers, Some(p), at);
            && Inv(t)
            && t.items.Keys ==
               (set fp | fp in s.items && !(p(s.items[fp]) && fp !in StoredSet(batch))) + StoredSet(batch)
            && (forall fp :: fp in StoredSet(batch) ==> From(t.items[fp], fp, batch))
            && (forall fp :: fp in s.items && fp !in StoredSet(batch) && fp in t.items ==> t.items[fp] == s.items[fp])
  {
    hide Normalized, Normalize, Stored, From, Admit, Restrict, FirstOccurrences, ReplaceMatching;
    StoredSetIs(batch, at);
    ReplaceMatchingShape(s, batch, dialers, Some(p), at);
    AdmitAllNormalized(s.items, batch, at);
    var t := ReplaceMatching(s, batch, dialers, Some(p), at);
    var admitted := AdmitAll(s.items, batch, at);
    assert FingerprintSet(admitted) == StoredSet(batch);
    forall fp | fp in StoredSet(batch) ensures From(t.items[fp], fp, batch) {
      assert fp in Fingerprints(NormalizeAll(batch, at));
      assert t.items[fp] in admitted;
      var i :| 0 <= i < |admitted| && admitted[i] == t.items[fp];
      AdmitFrom(s.items, batch, i, at);
      assert t.items[fp].fingerprint == fp;
    }
  }

  lemma AddEffect(s: PoolState, batch: seq<Candidate>, dialers: map<Fingerprint, DialerId>, at: Instant)
    requires Inv(s)
    ensures var t := AddValidated(s, batch, dialers, at);
            && Inv(t)
            && t.items.Keys == s.items.Keys + StoredSet(batch)
            && (forall fp :: fp in StoredSet(batch) ==> From(t.items[fp], fp, batch))
            && (forall fp :: fp in s.items && fp !in StoredSet(batch) ==> t.items[fp] == s.items[fp])
  {
    hide Normalized, Normalize, Stored, From, Admit, AddValidated, FirstOccurrences;
    StoredSetIs(batch, at);
    AddValidatedShape(s, batch, dialers, at);
    forall fp | fp in StoredSet(batch) ensures From(AddValidated(s, batch, dialers, at).items[fp], fp, batch) {
      AddFrom(s, batch, dialers, at, fp);
    }
    forall fp | fp in s.items && fp !in StoredSet(batch)
      ensures AddValidated(s, batch, dialers, at).items[fp] == s.items[fp]
    {
      assert fp !in Fingerprints(NormalizeAll(batch, at));
      AddLeavesOthers(s, batch, dialers, at, fp);
    }
  }

  /** An entry that came with a delivery, by its labels. */
  ghost predicate OwnOf(d: Candidate, fp: Fingerprint, from: Delivery) {
    exists c :: c in from.valid && c.source == from.plugin && Stored(c) == fp
                && d.source == TrimSpace(c.source) && d.metadata == c.metadata
  }

  ghost predicate Own(d: Candidate, fp: Fingerprint, us: seq<Update>) {
    exists u :: u in us && OwnOf(d, fp, u.from)
  }

  /** Where the entries of the pool stand after some reports. */
  ghost predicate Settled(s: PoolState, t: PoolState, us: seq<Update>) {
    && Inv(t)
    && t.items.Keys == Kept(s, us) + Added(us)
    && (forall fp :: fp in t.items && fp in Added(us) ==> Own(t.items[fp], fp, us))
    && (forall fp :: fp in t.items && fp !in Added(us) ==> fp in s.items && SameLabels(t.items[fp], s.items[fp]))
  }

  /** A report never sweeps an entry that came with its own delivery: it brings it in again. */
  lemma OwnStays(d: Candidate, fp: Fingerprint, u: Update)
    requires OwnOf(d, fp, u.from) && u.Claims(d)
    ensures fp in StoredSet(u.Batch())
  {
    hide Stored, BatchFor;
    var c :| c in u.from.valid && c.source == u.from.plugin && Stored(c) == fp
             && d.source == TrimSpace(c.source) && d.metadata == c.metadata;
    BatchMembers(u.from.valid, u.from.plugin, u.report.source);
    assert c.Meta("query") == d.Meta("query") && c.Meta("source") == d.Meta("source");
    assert MatchesReportSource(c, u.from.plugin, u.report.source);
  }

  /** Nor one that came with any other delivery, since each plugin's report goes by the plugin's own label. */
  lemma DeliveredStays(d: Candidate, fp: Fingerprint, us: seq<Update>, u: Update)
    requires Own(d, fp, us) && OneEach(us + [u]) && u.Claims(d)
    ensures fp in StoredSet(u.Batch())
  {
    hide Stored, BatchFor;
    var v :| v in us && OwnOf(d, fp, v.from);
    assert v in us + [u] && u in us + [u];
    assert u.from.plugin == TrimSpace(v.from.plugin);
    TrimSpaceTrims(v.from.plugin);
    TrimSpaceTrims(u.from.plugin);
    hide TrimSpace;
    assert u.from == v.from;
    OwnStays(d, fp, u);
  }

  lemma BatchIsOwn(d: Candidate, fp: Fingerprint, u: Update)
    requires From(d, fp, u.Batch())
    ensures OwnOf(d, fp, u.from)
  {
    hide Stored, BatchFor;
    BatchMembers(u.from.valid, u.from.plugin, u.report.source);
  }

  lemma SnocMembers(us: seq<Update>, u: Update)
    ensures forall x :: x in us + [u] <==> x in us || x == u
  {
  }

  lemma KeptSnoc(s: PoolState, us: seq<Update>, u: Update)
    ensures Kept(s, us + [u]) == set fp | fp in Kept(s, us) && !u.Claims(s.items[fp])
  {
    hide Update.Claims;
    SnocMembers(us, u);
    forall fp | fp in s.items
      ensures Claimed(s.items[fp], us + [u]) <==> Claimed(s.items[fp], us) || u.Claims(s.items[fp])
    {
      assert u in us + [u];
    }
    hide Claimed;
  }

  lemma AddedSnoc(us: seq<Update>, u: Update)
    ensures Added(us + [u]) == Added(us) + StoredSet(u.Batch())
  {
    hide Stored, Update.Batch;
    SnocMembers(us, u);
  }

  lemma LabelsDecideClaim(a: Candidate, b: Candidate, u: Update)
    requires SameLabels(a, b)
    ensures u.Claims(a) == u.Claims(b)
  {
  }

  lemma OwnMore(d: Candidate, fp: Fingerprint, us: seq<Update>, u: Update)
    requires Own(d, fp, us) || OwnOf(d, fp, u.from)
    ensures Own(d, fp, us + [u])
  {
    hide OwnOf;
    assert u in us + [u];
    if v :| v in us && OwnOf(d, fp, v.from) {
      assert v in us + [u];
    }
  }

  lemma ReportSettles(s: PoolState, t: PoolState, us: seq<Update>, u: Update, at: Instant)
    requires Settled(s, t, us) && OneEach(us + [u])
    ensures Settled(s, ReportStep(t, u, at), us + [u])
  {
    hide Normalized, Stored, From, Update.Batch, Update.Claims, ReportStep, Kept, Added, Own, OneEach,
         SameLabels, StoredSet;
    var v := ReportStep(t, u, at);
    ReportEffect(t, u, at);
    KeptSnoc(s, us, u);
    AddedSnoc(us, u);
    KeptAreOld(s, us);
    forall fp | fp in t.items
      ensures fp in v.items <==> fp in Kept(s, us + [u]) || fp in Added(us + [u])
    {
      if fp in Added(us) {
        if u.Claims(t.items[fp]) { DeliveredStays(t.items[fp], fp, us, u); }
      } else {
        LabelsDecideClaim(t.items[fp], s.items[fp], u);
      }
    }
    forall fp | fp in v.items && fp in Added(us + [u]) ensures Own(v.items[fp], fp, us + [u]) {
      if fp in StoredSet(u.Batch()) {
        BatchIsOwn(v.items[fp], fp, u);
      }
      OwnMore(v.items[fp], fp, us, u);
    }
    assert v.items.Keys == Kept(s, us + [u]) + Added(us + [u]);
  }

  lemma KeptAreOld(s: PoolState, us: seq<Update>)
    ensures forall fp :: fp in Kept(s, us) ==> fp in s.items
  {
    hide Claimed;
  }

  /** Requests in between change neither the index nor the labels. */
  lemma RequestSettles(s: PoolState, t: PoolState, us: seq<Update>, step: Step)
    requires Settled(s, t, us) && !step.Report?
    ensures Settled(s, StepPool(t, step), us)
  {
    hide Normalized, Stored, Kept, Added, Own;
    var u := StepPool(t, step);
    if step.Marking? {
      MarkKeepsLabels(t, step.mark, step.maxFailures);
      forall fp | fp in t.items && Own(t.items[fp], fp, us) ensures Own(u.items[fp], fp, us) {
        OwnByLabels(t.items[fp], u.items[fp], fp, us);
      }
    }
  }

  lemma OwnByLabels(d: Candidate, e: Candidate, fp: Fingerprint, us: seq<Update>)
    requires Own(d, fp, us) && SameLabels(d, e)
    ensures Own(e, fp, us)
  {
    hide Stored;
    var u :| u in us && OwnOf(d, fp, u.from);
    assert OwnOf(e, fp, u.from);
  }

  lemma MarkKeepsLabels(t: PoolState, mark: Mark, maxFailures: int)
    requires Inv(t)
    ensures Inv(Apply(t, mark, maxFailures))
    ensures Apply(t, mark, maxFailures).items.Keys == t.items.Keys
    ensures forall fp :: fp in t.items ==> SameLabels(Apply(t, mark, maxFailures).items[fp], t.items[fp])
  {
    hide Normalized, MarkFailure, MarkSuccess;
    match mark
    case Failed(fp, at, reason) =>
      MarksKeepInv(t, fp, reason, maxFailures, at);
      MarksKeepLabels(t, fp, reason, maxFailures, at);
    case Succeeded(fp, at) =>
      MarksKeepInv(t, fp, "", maxFailures, at);
      MarksKeepLabels(t, fp, "", maxFailures, at);
  }

  lemma MarksKeepLabels(t: PoolState, fp: Fingerprint, reason: string, maxFailures: int, at: Instant)
    ensures var u := MarkFailure(t, fp, reason, maxFailures, at);
            u.items.Keys == t.items.Keys && forall x :: x in t.items ==> SameLabels(u.items[x], t.items[x])
    ensures var u := MarkSuccess(t, fp, at);
            u.items.Keys == t.items.Keys && forall x :: x in t.items ==> SameLabels(u.items[x], t.items[x])
  {
  }

  lemma {:induction false} RunSettles(s: PoolState, steps: seq<Step>)
    requires Inv(s) && OneEach(UpdatesOf(steps))
    ensures Settled(s, RunSteps(s, steps), UpdatesOf(steps))
  {
    hide Normalized, StepPool, Settled;
    if steps == [] {
      NothingSettled(s);
    } else {
      var n := |steps| - 1;
      var us := UpdatesOf(steps[..n]);
      if steps[n].Report? {
        SnocMembers(us, steps[n].update);
      } else {
        assert UpdatesOf(steps) == us + [] == us;
      }
      RunSettles(s, steps[..n]);
      hide OneEach;
      var t := RunSteps(s, steps[..n]);
      if steps[n].Report? {
        ReportSettles(s, t, us, steps[n].update, steps[n].at);
        StepIsReport(t, steps[n]);
      } else {
        RequestSettles(s, t, us, steps[n]);
      }
    }
  }

  lemma StepIsReport(t: PoolState, step: Step)
    requires step.Report?
    ensures StepPool(t, step) == ReportStep(t, step.update, step.at)
  {
    hide ReportStep;
  }

  lemma NothingSettled(s: PoolState)
    requires Inv(s)
    ensures Settled(s, s, [])
  {
    hide Normalized, Stored, Own, Update.Batch, Update.Claims;
    assert Kept(s, []) == s.items.Keys;
    assert Added([]) == {};
  }

  /** Refreshes of all plugins, one of each, are one set equation, whatever order their reports come in and whatever
      requests do in between: the old entries that no error-free report claims, and everything the reports bring in. */
  lemma RefreshEquation(s: PoolState, steps: seq<Step>)
    requires Inv(s) && OneEach(UpdatesOf(steps))
    ensures RunSteps(s, steps).items.Keys == Kept(s, UpdatesOf(steps)) + Added(UpdatesOf(steps))
    ensures Inv(RunSteps(s, steps))
  {
    hide Normalized, Own, OneEach, RunSteps, UpdatesOf, Kept, Added;
    RunSettles(s, steps);
  }

  /** Hence neither the order of a refresh's reports nor how plugins interleave matters. */
  lemma ReportOrderIsFree(s: PoolState, steps: seq<Step>, other: seq<Step>)
    requires Inv(s) && OneEach(UpdatesOf(steps))
    requires multiset(UpdatesOf(steps)) == multiset(UpdatesOf(other))
    ensures RunSteps(s, steps).items.Keys == RunSteps(s, other).items.Keys
  {
    hide Normalized, Stored, RunSteps, UpdatesOf, Update.Batch, Update.Claims, TrimSpace;
    var us, vs := UpdatesOf(steps), UpdatesOf(other);
    forall u ensures u in us <==> u in vs {
      assert u in us <==> u in multiset(us);
      assert u in vs <==> u in multiset(vs);
    }
    RefreshEquation(s, steps);
    RefreshEquation(s, other);
    assert Kept(s, us) == Kept(s, vs);
    assert Added(us) == Added(vs);
  }

  /** Hence a source whose import failed loses nothing, and no candidate of a plugin that did not refresh is removed. */
  lemma NothingLostElsewhere(s: PoolState, steps: seq<Step>, fp: Fingerprint)
    requires Inv(s) && OneEach(UpdatesOf(steps)) && fp in s.items
    requires forall u :: u in UpdatesOf(steps) ==>
               || s.items[fp].source != u.from.plugin
               || !MatchesReportSource(s.items[fp], u.from.plugin, u.report.source)
               || u.report.error != ""
    ensures fp in RunSteps(s, steps).items
  {
    hide Normalized, Stored, RunSteps, UpdatesOf, OneEach;
    RefreshEquation(s, steps);
    assert fp in Kept(s, UpdatesOf(steps));
  }

  /** A refresh is purely additive exactly when every old entry that an error-free report claims is brought in again. */
  lemma AdditiveIff(s: PoolState, steps: seq<Step>)
    requires Inv(s) && OneEach(UpdatesOf(steps))
    ensures s.items.Keys <= RunSteps(s, steps).items.Keys <==>
            forall fp :: fp in s.items && Claimed(s.items[fp], UpdatesOf(steps)) ==> fp in Added(UpdatesOf(steps))
  {
    hide Normalized, RunSteps, UpdatesOf, OneEach, Claimed, Added;
    RefreshEquation(s, steps);
    var kept := Kept(s, UpdatesOf(steps));
    assert forall fp :: fp in s.items ==> (fp in kept <==> !Claimed(s.items[fp], UpdatesOf(steps)));
  }

  // ------------------------------------------------- the equation, in labels

  predicate HasLabel(c: Candidate, key: string, value: string) {
    key in c.metadata && c.metadata[key] == value
  }

  /** Neither query nor source label, or only empty ones. */
  predicate Unlabelled(c: Candidate) {
    && ("query" !in c.metadata || c.metadata["query"] == "")
    && ("source" !in c.metadata || c.metadata["source"] == "")
  }

  /** An old entry of the plugin whose query or source label is the name in an error-free report is gone, unless some
      report brings it in again. */
  lemma NamedEntryGoes(s: PoolState, steps: seq<Step>, fp: Fingerprint, u: Update)
    requires Inv(s) && OneEach(UpdatesOf(steps)) && fp in s.items
    requires u in UpdatesOf(steps) && u.report.error == "" && s.items[fp].source == u.from.plugin
    requires HasLabel(s.items[fp], "query", u.report.source) || HasLabel(s.items[fp], "source", u.report.source)
    ensures fp in RunSteps(s, steps).items <==> fp in Added(UpdatesOf(steps))
  {
    hide Normalized, RunSteps, UpdatesOf, OneEach, Added;
    RefreshEquation(s, steps);
    assert u.Claims(s.items[fp]);
    assert Claimed(s.items[fp], UpdatesOf(steps));
  }

  /** So is every old entry of a plugin whose error-free report has no name, and every unlabelled fpl entry once any
      error-free fpl report comes. */
  lemma NamelessOrUnlabelledGoes(s: PoolState, steps: seq<Step>, fp: Fingerprint, u: Update)
    requires Inv(s) && OneEach(UpdatesOf(steps)) && fp in s.items
    requires u in UpdatesOf(steps) && u.report.error == "" && s.items[fp].source == u.from.plugin
    requires u.report.source == "" || (u.from.plugin == "fpl" && Unlabelled(s.items[fp]))
    ensures fp in RunSteps(s, steps).items <==> fp in Added(UpdatesOf(steps))
  {
    hide Normalized, RunSteps, UpdatesOf, OneEach, Added;
    RefreshEquation(s, steps);
    assert u.Claims(s.items[fp]);
    assert Claimed(s.items[fp], UpdatesOf(steps));
  }

  /** Every other old entry stays: one whose labels are no error-free report's name, where the reports of its plugin
      have names and it is not an unlabelled fpl entry. */
  lemma OtherEntryStays(s: PoolState, steps: seq<Step>, fp: Fingerprint)
    requires Inv(s) && OneEach(UpdatesOf(steps)) && fp in s.items
    requires forall u :: u in UpdatesOf(steps) && u.report.error == "" && u.from.plugin == s.items[fp].source ==>
               && u.report.source != ""
               && !HasLabel(s.items[fp], "query", u.report.source) && !HasLabel(s.items[fp], "source", u.report.source)
               && !(u.from.plugin == "fpl" && Unlabelled(s.items[fp]))
    ensures fp in RunSteps(s, steps).items
  {
    hide Normalized, RunSteps, UpdatesOf, OneEach, Added;
    RefreshEquation(s, steps);
    assert !Claimed(s.items[fp], UpdatesOf(steps));
  }

  /** Whatever passed validation and belongs to the batch of one of the reports is in the pool at the end, errors or
      not; and the pool holds nothing else but old entries. */
  lemma BroughtIn(s: PoolState, steps: seq<Step>, fp: Fingerprint)
    requires Inv(s) && OneEach(UpdatesOf(steps))
    ensures (exists u, c :: u in UpdatesOf(steps) && c in BatchFor(u.from.valid, u.from.plugin, u.report.source)
                            && Stored(c) == fp) ==> fp in RunSteps(s, steps).items
    ensures fp in RunSteps(s, steps).items ==>
              || fp in s.items
              || exists u, c :: u in UpdatesOf(steps) && c in BatchFor(u.from.valid, u.from.plugin, u.report.source)
                                && Stored(c) == fp
  {
    hide Normalized, RunSteps, UpdatesOf, OneEach, BatchFor, Stored, Claimed;
    RefreshEquation(s, steps);
    KeptAreOld(s, UpdatesOf(steps));
    hide Kept;
    if u, c :| u in UpdatesOf(steps) && c in BatchFor(u.from.valid, u.from.plugin, u.report.source) && Stored(c) == fp {
      assert c in u.Batch();
      assert fp in Added(UpdatesOf(steps));
    }
    if fp in Added(UpdatesOf(steps)) {
      var u, c :| u in UpdatesOf(steps) && c in u.Batch() && Stored(c) == fp;
      assert c in BatchFor(u.from.valid, u.from.plugin, u.report.source);
    }
  }

  /** The batch of a named report, by labels: the plugin's candidates with the name for a label (and, for fpl, the
      unlabelled ones); if there are none, all of the plugin's. */
  lemma NamedBatch(valid: seq<Candidate>, plugin: string, name: string, c: Candidate)
    requires name != "" && c in valid && c.source == plugin
    ensures HasLabel(c, "query", name) || HasLabel(c, "source", name) ==> c in BatchFor(valid, plugin, name)
    ensures plugin == "fpl" && Unlabelled(c) ==> c in BatchFor(valid, plugin, name)
    ensures (forall d :: d in valid && d.source == plugin ==>
               !HasLabel(d, "query", name) && !HasLabel(d, "source", name) && !(plugin == "fpl" && Unlabelled(d)))
            ==> c in BatchFor(valid, plugin, name)
    ensures (exists d :: d in valid && d.source == plugin
                         && (HasLabel(d, "query", name) || HasLabel(d, "source", name)))
            && !HasLabel(c, "query", name) && !HasLabel(c, "source", name) && !(plugin == "fpl" && Unlabelled(c))
            ==> c !in BatchFor(valid, plugin, name)
  {
    hide BatchFor;
    BatchMembers(valid, plugin, name);
    if d :| d in valid && d.source == plugin && (HasLabel(d, "query", name) || HasLabel(d, "source", name)) {
      assert MatchesReportSource(d, plugin, name);
    }
    assert forall d :: d in valid && MatchesReportSource(d, plugin, name) ==>
        && d.source == plugin
        && (HasLabel(d, "query", name) || HasLabel(d, "source", name) || (plugin == "fpl" && Unlabelled(d)));
  }

  /** The batch of a nameless report is all of the plugin's, and no batch holds another plugin's candidates. */
  lemma NamelessBatch(valid: seq<Candidate>, plugin: string, name: string, c: Candidate)
    ensures c in BatchFor(valid, plugin, "") <==> c in valid && c.source == plugin
    ensures c in BatchFor(valid, plugin, name) ==> c in valid && c.source == plugin
  {
    hide BatchFor;
    BatchMembers(valid, plugin, "");
    BatchMembers(valid, plugin, name);
    if c in valid && c.source == plugin {
      assert MatchesReportSource(c, plugin, "");
    }
  }

  /** A refresh is not always additive: one entry of the fpl plugin's default list, an error-free report of that list
      with nothing valid in it, and the pool is empty. */
  lemma RefreshCanEmpty(c: Candidate, at: Instant, later: Instant)
    requires c.source == "fpl" && c.Meta("source") == "default"
    ensures var s := AddValidated(EMPTY, [c], map[], at);
            var update := Update(ImportReport("default", "", 0), Delivery("fpl", [], map[]));
            && s.items.Keys == {Stored(c)}
            && RunSteps(s, [Report(update, later)]).items.Keys == {}
  {
    hide Normalized, Stored, AddValidated, TrimSpace, MatchesReportSource, Select;
    var s := AddValidated(EMPTY, [c], map[], at);
    var update := Update(ImportReport("default", "", 0), Delivery("fpl", [], map[]));
    DefaultEntry(c, at);
    OneReport(update, later);
    assert update.Claims(s.items[Stored(c)]);
    hide Update.Claims;
    RefreshEquation(s, [Report(update, later)]);
    NothingAdded(update);
    assert update in [update];
    assert Kept(s, [update]) == {};
  }

  lemma DefaultEntry(c: Candidate, at: Instant)
    requires c.source == "fpl" && c.Meta("source") == "default"
    ensures var s := AddValidated(EMPTY, [c], map[], at);
            && Inv(s) && s.items.Keys == {Stored(c)} && MatchesReportSource(s.items[Stored(c)], "fpl", "default")
  {
    hide Normalized, Stored, Normalize;
    assert Inv(EMPTY);
    AddEffect(EMPTY, [c], map[], at);
    hide Inv, AddValidated;
    assert c in [c];
    assert StoredSet([c]) == {Stored(c)};
    var d := AddValidated(EMPTY, [c], map[], at).items[Stored(c)];
    assert From(d, Stored(c), [c]);
    assert TrimSpace("fpl") == "fpl";
  }

  lemma OneReport(update: Update, at: Instant)
    ensures UpdatesOf([Report(update, at)]) == [update]
  {
    var steps := [Report(update, at)];
    assert steps[..0] == [] && UpdatesOf(steps[..0]) == [];
  }

  lemma NothingAdded(update: Update)
    requires update.from.valid == []
    ensures Added([update]) == {}
  {
    hide Stored;
  }
}
