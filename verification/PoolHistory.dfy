/** Eviction of a candidate, characterised by the history of its runtime failures and successes. */
module PoolHistory {
  import opened Text
  import opened Candidates
  import opened PoolModel

  /** One runtime mark on some candidate of the pool. */
  datatype Mark =
    | Failed(fp: Fingerprint, at: Instant, reason: string)
    | Succeeded(fp: Fingerprint, at: Instant)

  function Apply(s: PoolState, mark: Mark, maxFailures: int): PoolState {
    match mark
    case Failed(fp, at, reason) => MarkFailure(s, fp, reason, maxFailures, at)
    case Succeeded(fp, at) => MarkSuccess(s, fp, at)
  }

  function Run(s: PoolState, marks: seq<Mark>, maxFailures: int): PoolState {
    if marks == [] then s
    else Apply(Run(s, marks[..|marks| - 1], maxFailures), marks[|marks| - 1], maxFailures)
  }

  /** The marks on one candidate, in order: true for a failure. */
  function History(marks: seq<Mark>, fp: Fingerprint): seq<bool> {
    if marks == [] then []
    else
      var last := marks[|marks| - 1];
      History(marks[..|marks| - 1], fp) + (if last.fp == fp then [last.Failed?] else [])
  }

  /** Somewhere m failures follow each other with no success between them. */
  ghost predicate FailsInARow(h: seq<bool>, m: int) {
    exists i :: 0 <= i && FailsFrom(h, i, m)
  }

  predicate FailsFrom(h: seq<bool>, i: int, m: int)
    requires 0 <= i
  {
    i + m <= |h| && forall j :: i <= j < i + m ==> h[j]
  }

  function Trailing(h: seq<bool>): nat {
    if h == [] || !h[|h| - 1] then 0 else Trailing(h[..|h| - 1]) + 1
  }

  lemma {:induction false} TrailingFails(h: seq<bool>)
    ensures Trailing(h) <= |h|
    ensures forall j :: |h| - Trailing(h) <= j < |h| ==> h[j]
    ensures Trailing(h) < |h| ==> !h[|h| - Trailing(h) - 1]
  {
    if h != [] && h[|h| - 1] { TrailingFails(h[..|h| - 1]); }
  }

  /** A run of m failures appears with a new mark exactly when the trailing failures reach m. */
  lemma FailsInARowSnoc(h: seq<bool>, failed: bool, m: int)
    requires m >= 1
    ensures FailsInARow(h + [failed], m) <==> FailsInARow(h, m) || Trailing(h + [failed]) >= m
  {
    var g := h + [failed];
    TrailingFails(g);
    if FailsInARow(h, m) {
      var i :| 0 <= i && FailsFrom(h, i, m);
      assert FailsFrom(g, i, m);
    } else if Trailing(g) >= m {
      assert FailsFrom(g, |g| - m, m);
    }
    if i :| 0 <= i && FailsFrom(g, i, m) {
      if i + m <= |h| {
        assert forall j :: i <= j < i + m ==> h[j] == g[j];
        assert FailsFrom(h, i, m);
      }
    }
  }

  /** Marks change the record of the candidates they name and nothing else. */
  lemma {:induction false} MarksTouchRecordsOnly(s: PoolState, marks: seq<Mark>, maxFailures: int)
    ensures var t := Run(s, marks, maxFailures);
            && t.order == s.order && t.dialers == s.dialers && t.rr == s.rr && t.items.Keys == s.items.Keys
    ensures Inv(s) ==> Inv(Run(s, marks, maxFailures))
  {
    hide Normalized;
    if marks != [] {
      var n := |marks| - 1;
      MarksTouchRecordsOnly(s, marks[..n], maxFailures);
      var t := Run(s, marks[..n], maxFailures);
      if Inv(t) {
        match marks[n]
        case Failed(fp, at, reason) => MarksKeepInv(t, fp, reason, maxFailures, at);
        case Succeeded(fp, at) => MarksKeepInv(t, fp, "", maxFailures, at);
      }
    }
  }

  lemma {:induction false} RecordFollowsHistory(s: PoolState, marks: seq<Mark>, m: int, fp: Fingerprint)
    requires m >= 1 && fp in s.items
    requires s.items[fp].status == Available && s.items[fp].failureCount == 0
    ensures var t := Run(s, marks, m);
            var h := History(marks, fp);
            && fp in t.items
            && t.items[fp].status in {Available, Unavailable}
            && (t.items[fp].status == Unavailable <==> FailsInARow(h, m))
            && (t.items[fp].status == Available ==> t.items[fp].failureCount == Trailing(h) < m)
            && (t.items[fp].status == Unavailable ==> t.items[fp].failureCount >= m)
  {
    if marks == [] {
      assert !FailsInARow([], m);
    } else {
      var n := |marks| - 1;
      RecordFollowsHistory(s, marks[..n], m, fp);
      var h := History(marks[..n], fp);
      if marks[n].fp == fp {
        FailsInARowSnoc(h, marks[n].Failed?, m);
        assert (h + [marks[n].Failed?])[..|h|] == h;
      } else {
        assert h + [] == h;
      }
    }
  }

  /** A freshly admitted candidate is unavailable after any marks exactly when those on it contain maxFailures
      failures with no success between them. */
  lemma EvictionByHistory(s: PoolState, marks: seq<Mark>, m: int, fp: Fingerprint)
    requires m >= 1 && fp in s.items
    requires s.items[fp].status == Available && s.items[fp].failureCount == 0
    ensures Run(s, marks, m).items.Keys == s.items.Keys
    ensures Run(s, marks, m).items[fp].status == Unavailable <==> FailsInARow(History(marks, fp), m)
  {
    MarksTouchRecordsOnly(s, marks, m);
    RecordFollowsHistory(s, marks, m, fp);
  }

  /** The reason given with the last failure on one candidate. */
  function LastReason(marks: seq<Mark>, fp: Fingerprint): string {
    if marks == [] then ""
    else
      var last := marks[|marks| - 1];
      if last.fp == fp && last.Failed? then last.reason else LastReason(marks[..|marks| - 1], fp)
  }

  /** What one mark writes, and to whose record. */
  lemma MarksAre(s: PoolState, mark: Mark, maxFailures: int, fp: Fingerprint)
    requires fp in s.items
    ensures fp in Apply(s, mark, maxFailures).items
    ensures var c, d := s.items[fp], Apply(s, mark, maxFailures).items[fp];
            && (mark.fp != fp ==> d == c)
            && (mark.fp == fp && mark.Failed? ==>
                  d == c.(failureCount := c.failureCount + 1, lastError := mark.reason, updatedAt := mark.at,
                          status := if c.failureCount + 1 >= maxFailures then Unavailable else c.status))
            && (mark.fp == fp && mark.Succeeded? ==>
                  d == if c.status == Available && c.failureCount > 0
                       then c.(failureCount := 0, lastError := "", updatedAt := mark.at) else c)
  {
  }

  /** What a freshly admitted candidate's record shows after any marks: the failures since its last success and, while
      there are any or once it is unavailable, the reason of its last failure. */
  lemma {:induction false} RecordByHistory(s: PoolState, marks: seq<Mark>, m: int, fp: Fingerprint)
    requires m >= 1 && fp in s.items && s.items[fp].lastError == ""
    requires s.items[fp].status == Available && s.items[fp].failureCount == 0
    ensures fp in Run(s, marks, m).items
    ensures var c := Run(s, marks, m).items[fp];
            && (c.status == Available ==> c.failureCount == Trailing(History(marks, fp)))
            && c.lastError == if c.status == Available && c.failureCount == 0 then "" else LastReason(marks, fp)
  {
    hide History, FailsInARow, Apply, Trailing;
    RecordFollowsHistory(s, marks, m, fp);
    if marks != [] {
      var n := |marks| - 1;
      RecordByHistory(s, marks[..n], m, fp);
      RecordFollowsHistory(s, marks[..n], m, fp);
      MarksAre(Run(s, marks[..n], m), marks[n], m, fp);
    }
  }

  /** No sequence of failures and successes brings an unavailable candidate back. */
  lemma {:induction false} EvictionIsFinal(s: PoolState, marks: seq<Mark>, m: int, fp: Fingerprint)
    requires fp in s.items && s.items[fp].status == Unavailable
    ensures fp in Run(s, marks, m).items && Run(s, marks, m).items[fp].status == Unavailable
  {
    if marks != [] { EvictionIsFinal(s, marks[..|marks| - 1], m, fp); }
  }

  /** Readmission through validation starts a new history. */
  lemma AdmissionIsFresh(s: PoolState, cs: seq<Candidate>, dialers: map<Fingerprint, DialerId>,
                         replace: Option<Predicate>, now: Instant, fp: Fingerprint)
    requires Inv(s) && fp in Fingerprints(NormalizeAll(cs, now))
    ensures var t := ReplaceMatching(s, cs, dialers, replace, now);
            && fp in t.items && t.items[fp].status == Available && t.items[fp].failureCount == 0
            && t.items[fp].lastError == "" && t.items[fp].updatedAt == now
            && (fp in s.items ==> t.items[fp].createdAt == s.items[fp].createdAt)
    ensures var t := AddValidated(s, cs, dialers, now);
            && fp in t.items && t.items[fp].status == Available && t.items[fp].failureCount == 0
            && t.items[fp].lastError == "" && t.items[fp].updatedAt == now
            && (fp in s.items ==> t.items[fp].createdAt == s.items[fp].createdAt)
  {
    hide Normalized, ReplaceMatching, AddValidated;
    ImportIsFresh(s, cs, dialers, replace, now, fp);
    AddIsFresh(s, cs, dialers, now, fp);
    if fp in s.items {
      StatusSet(s.items[fp]);
    }
  }

  /** A candidate as it enters: normalized, available, with a clean record, and first seen when it first was. */
  ghost predicate Entered(d: Candidate, c: Candidate, now: Instant) {
    d == Normalize(c, now).(status := Available, failureCount := 0, lastError := "", createdAt := d.createdAt)
  }

  lemma AdmitEntered(items: map<Fingerprint, Candidate>, c: Candidate, now: Instant)
    ensures Entered(Admit(items, c, now), c, now)
  {
    NormalizeFields(c, now);
    hide Normalize;
  }

  /** Of several candidates of a batch with one fingerprint, the last is what both admissions store. */
  lemma LastOneEnters(s: PoolState, cs: seq<Candidate>, dialers: map<Fingerprint, DialerId>,
                      replace: Option<Predicate>, now: Instant, i: nat)
    requires i < |cs|
    requires var fps := Fingerprints(NormalizeAll(cs, now)); forall j :: i < j < |cs| ==> fps[j] != fps[i]
    ensures var fp := Normalize(cs[i], now).fingerprint;
            && fp in ReplaceMatching(s, cs, dialers, replace, now).items
            && Entered(ReplaceMatching(s, cs, dialers, replace, now).items[fp], cs[i], now)
            && fp in AddValidated(s, cs, dialers, now).items
            && Entered(AddValidated(s, cs, dialers, now).items[fp], cs[i], now)
  {
    hide Normalize, Admit, Entered, Sweep, AddValidated, PutAll;
    var fps, batch := Fingerprints(NormalizeAll(cs, now)), AdmitAll(s.items, cs, now);
    var fp := Normalize(cs[i], now).fingerprint;
    AdmitAllNormalized(s.items, cs, now);
    assert Fingerprints(batch)[i] == fps[i] == fp && batch[i].fingerprint == Fingerprints(batch)[i];
    LastWithIsMember(batch, fp);
    var k := LastWithAt(batch, fp);
    assert Fingerprints(batch)[k] == batch[k].fingerprint == fps[k];
    assert k == i;
    AdmitEntered(s.items, cs[i], now);
    PutAllItems(Sweep(s, FingerprintSet(batch), replace), batch, dialers, fp);
    LastAdded(s, cs, dialers, now, i);
  }

  lemma {:induction false} LastAdded(s: PoolState, cs: seq<Candidate>, dialers: map<Fingerprint, DialerId>,
                                     now: Instant, i: nat)
    requires i < |cs|
    requires var fps := Fingerprints(NormalizeAll(cs, now)); forall j :: i < j < |cs| ==> fps[j] != fps[i]
    ensures var fp := Normalize(cs[i], now).fingerprint;
            && fp in AddValidated(s, cs, dialers, now).items
            && Entered(AddValidated(s, cs, dialers, now).items[fp], cs[i], now)
  {
    hide Normalize, Admit, Entered;
    var n := |cs| - 1;
    var fps, before := Fingerprints(NormalizeAll(cs, now)), cs[..n];
    var t := AddValidated(s, before, dialers, now);
    AdmitIsNormalized(t.items, cs[n], now);
    if i == n {
      AdmitEntered(t.items, cs[n], now);
    } else {
      assert fps[n] != fps[i];
      assert forall j :: 0 <= j < n ==> Fingerprints(NormalizeAll(before, now))[j] == fps[j];
      LastAdded(s, before, dialers, now, i);
    }
  }

  lemma ImportIsFresh(s: PoolState, cs: seq<Candidate>, dialers: map<Fingerprint, DialerId>,
                      replace: Option<Predicate>, now: Instant, fp: Fingerprint)
    requires Inv(s) && fp in Fingerprints(NormalizeAll(cs, now))
    ensures var t := ReplaceMatching(s, cs, dialers, replace, now);
            && fp in t.items && t.items[fp].status == Available && t.items[fp].failureCount == 0
            && t.items[fp].lastError == "" && t.items[fp].updatedAt == now
            && (fp in s.items && s.items[fp].createdAt != 0 ==> t.items[fp].createdAt == s.items[fp].createdAt)
  {
    hide Normalized, ReplaceMatching, FirstOccurrences, Restrict, Normalize, Admit;
    ReplaceMatchingShape(s, cs, dialers, replace, now);
    var t, batch := ReplaceMatching(s, cs, dialers, replace, now), AdmitAll(s.items, cs, now);
    var i :| 0 <= i < |batch| && batch[i] == t.items[fp];
    AdmitIsClean(s.items, cs[i], now);
    AdmitIsNormalized(s.items, cs[i], now);
    assert t.items[fp].fingerprint == fp;
  }

  lemma AdmitIsClean(items: map<Fingerprint, Candidate>, c: Candidate, now: Instant)
    ensures var d := Admit(items, c, now);
            && d.status == Available && d.failureCount == 0 && d.lastError == "" && d.updatedAt == now
            && (d.fingerprint in items && items[d.fingerprint].createdAt != 0 ==>
                  d.createdAt == items[d.fingerprint].createdAt)
  {
    hide Normalize;
  }

  lemma {:induction false} AddIsFresh(s: PoolState, cs: seq<Candidate>, dialers: map<Fingerprint, DialerId>,
                                      now: Instant, fp: Fingerprint)
    requires fp in Fingerprints(NormalizeAll(cs, now))
    ensures var t := AddValidated(s, cs, dialers, now);
            && fp in t.items && t.items[fp].status == Available && t.items[fp].failureCount == 0
            && t.items[fp].lastError == "" && t.items[fp].updatedAt == now
            && (fp in s.items && s.items[fp].createdAt != 0 ==> t.items[fp].createdAt == s.items[fp].createdAt)
  {
    hide Admit, Normalize, Normalized;
    var n := |cs| - 1;
    var all := NormalizeAll(cs, now);
    FingerprintsSnoc(all);
    AdmitIsClean(AddValidated(s, cs[..n], dialers, now).items, cs[n], now);
    var t := AddValidated(s, cs[..n], dialers, now);
    AdmitIsNormalized(t.items, cs[n], now);
    assert all[..n] == NormalizeAll(cs[..n], now);
    assert Fingerprints(all) == Fingerprints(all[..n]) + [all[n].fingerprint];
    if fp in Fingerprints(all[..n]) {
      AddIsFresh(s, cs[..n], dialers, now, fp);
    } else {
      AddLeavesOthers(s, cs[..n], dialers, now, fp);
    }
  }
}
