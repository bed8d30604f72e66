/** Saving the pool, loading it after a restart (internal/storage/storage.go), and what holds across restarts. */
module Persistence {
  import opened Collections
  import opened Text
  import opened Candidates
  import opened PoolModel
  import opened PoolHistory
  import opened Pools
  import opened Refresh
  import opened Scheduler

  const STATE_VERSION := 1
  const NEEDS_REFRESH := "sing-box persisted candidate requires plugin refresh"

  /** The pool file: absent, there but impossible to read, not decodable, or a decoded state. */
  datatype PoolFile = Missing | Failing | Unreadable | Decoded(version: int, candidates: seq<Candidate>)

  datatype LoadResult = Loaded(candidates: seq<Candidate>) | ReadError | Incompatible

  function Reload(c: Candidate, now: Instant): Candidate {
    var d := Normalize(c, now);
    if d.IsSingBox() then d.(status := Unavailable, lastError := NEEDS_REFRESH) else d
  }

  function ReloadAll(cs: seq<Candidate>, now: Instant): seq<Candidate> {
    seq(|cs|, i requires 0 <= i < |cs| => Reload(cs[i], now))
  }

  /** What a start-up makes of the stored candidates. */
  function Restart(saved: seq<Candidate>, loadedAt: Instant, storedAt: Instant): PoolState {
    var cs := ReloadAll(saved, loadedAt);
    if |cs| > 0 then Replace(cs, storedAt) else EMPTY
  }

  /** The loop over the decoded slice, which it rewrites in place. */
  method ReloadInPlace(slice: array<Candidate>, now: Instant)
    modifies slice
    ensures slice[..] == ReloadAll(old(slice[..]), now)
  {
    hide Normalize;
    for i := 0 to slice.Length
      invariant forall j :: 0 <= j < i ==> slice[j] == Reload(old(slice[j]), now)
      invariant forall j :: i <= j < slice.Length ==> slice[j] == old(slice[j])
    {
      slice[i] := Normalize(slice[i], now);
      if slice[i].protocol == PROTOCOL_SINGBOX {
        slice[i] := slice[i].(status := Unavailable, lastError := NEEDS_REFRESH);
      }
    }
  }

  class Store {
    var file: PoolFile
    var backups: nat

    constructor ()
      ensures file == Missing && backups == 0
    {
      file, backups := Missing, 0;
    }

    method SavePool(candidates: seq<Candidate>)
      modifies this
      ensures file == Decoded(STATE_VERSION, candidates) && backups == old(backups)
    {
      file := Decoded(STATE_VERSION, candidates);
    }

    /** Reads the file back, rewriting the decoded slice in place; a file it cannot use is moved aside. */
    method LoadPool(now: Instant) returns (r: LoadResult)
      modifies this
      ensures match old(file)
              case Missing => r == Loaded([]) && file == Missing && backups == old(backups)
              case Failing => r == ReadError && file == Failing && backups == old(backups)
              case Unreadable => r == Incompatible && file == Missing && backups == old(backups) + 1
              case Decoded(version, cs) =>
                if version == 1
                  then r == Loaded(ReloadAll(cs, now)) && file == old(file) && backups == old(backups)
                else r == Incompatible && file == Missing && backups == old(backups) + 1
    {
      if file.Missing? {
        return Loaded([]);
      }
      if file.Failing? {
        return ReadError;
      }
      if file.Unreadable? || file.version != STATE_VERSION {
        file, backups := Missing, backups + 1;
        return Incompatible;
      }
      var cs := file.candidates;
      var slice := new Candidate[|cs|](i requires 0 <= i < |cs| => cs[i]);
      assert slice[..] == cs;
      ReloadInPlace(slice, now);
      r := Loaded(slice[..]);
    }
  }

  /** Start-up: load, and replace the empty pool's contents if anything was stored. */
  method StartPool(store: Store, loadedAt: Instant, storedAt: Instant) returns (pool: Pool)
    modifies store
    ensures fresh(pool) && pool.Valid()
    ensures old(store.file.Decoded? && store.file.version == STATE_VERSION) ==>
              pool.State() == Restart(old(store.file.candidates), loadedAt, storedAt)
    ensures old(!store.file.Decoded? || store.file.version != STATE_VERSION) ==> pool.State() == EMPTY
  {
    var loaded := store.LoadPool(loadedAt);
    pool := new Pool();
    if loaded.Loaded? && |loaded.candidates| > 0 {
      pool.Replace(loaded.candidates, storedAt);
    }
  }

  // ----------------------------------------------------------- round trip

  lemma {:induction false} FirstOccurrencesOfDistinct(fps: seq<Fingerprint>)
    requires NoDup(fps)
    ensures FirstOccurrences({}, fps) == fps
  {
    if fps != [] {
      var n := |fps| - 1;
      FirstOccurrencesOfDistinct(fps[..n]);
      assert fps == fps[..n] + [fps[n]];
      assert fps[n] !in fps[..n];
    }
  }

  lemma {:induction false} LastWithDistinct(batch: seq<Candidate>, i: nat)
    requires i < |batch| && NoDup(Fingerprints(batch))
    ensures LastWith(batch, batch[i].fingerprint) == Some(batch[i])
  {
    var n := |batch| - 1;
    if i < n {
      assert Fingerprints(batch)[i] != Fingerprints(batch)[n];
      assert Fingerprints(batch)[..n] == Fingerprints(batch[..n]);
      LastWithDistinct(batch[..n], i);
    }
  }

  /** A stored candidate comes back the same, except that a sing-box one waits for its plugin. */
  function Returned(c: Candidate, now: Instant): Candidate {
    if c.IsSingBox() then c.(status := Unavailable, lastError := NEEDS_REFRESH, updatedAt := now)
      else c.(updatedAt := now)
  }

  lemma ReloadReturns(c: Candidate, loadedAt: Instant, storedAt: Instant)
    requires Normalized(c)
    ensures Normalize(Reload(c, loadedAt), storedAt) == Returned(c, storedAt)
    ensures Returned(c, storedAt).fingerprint == c.fingerprint && Normalized(Returned(c, storedAt))
  {
    NormalizeIsStable(c, loadedAt);
    var d := Reload(c, loadedAt);
    StatusSet(c);
    RecordKeepsNormal(c, d);
    NormalizeIsStable(d, storedAt);
    RecordKeepsNormal(c, Returned(c, storedAt));
  }

  lemma ListIs(s: PoolState)
    requires Inv(s)
    ensures |List(s)| == |s.order|
    ensures forall i :: 0 <= i < |s.order| ==> s.order[i] in s.items && List(s)[i] == s.items[s.order[i]]
    ensures Fingerprints(List(s)) == s.order
  {
    hide Normalized;
    RestrictAll(s.order, s.items.Keys);
    assert forall i :: 0 <= i < |s.order| ==> s.order[i] in s.order;
  }

  lemma ReplacedBatch(s: PoolState, loadedAt: Instant, storedAt: Instant)
    requires Inv(s)
    ensures var batch := NormalizeAll(ReloadAll(List(s), loadedAt), storedAt);
            && |batch| == |s.order| && Fingerprints(batch) == s.order
            && forall i :: 0 <= i < |s.order| ==>
                 s.order[i] in s.items && batch[i] == Returned(s.items[s.order[i]], storedAt)
  {
    hide Normalized, Normalize, Reload, Returned;
    ListIs(s);
    forall i | 0 <= i < |s.order|
      ensures Normalize(Reload(List(s)[i], loadedAt), storedAt) == Returned(s.items[s.order[i]], storedAt)
      ensures Returned(s.items[s.order[i]], storedAt).fingerprint == s.order[i]
    {
      assert s.order[i] in s.items;
      ReloadReturns(s.items[s.order[i]], loadedAt, storedAt);
    }
  }

  lemma ReturnedIs(c: Candidate, now: Instant)
    ensures Returned(c, now) ==
            if c.protocol == "singbox"
            then c.(status := Unavailable, updatedAt := now,
                    lastError := "sing-box persisted candidate requires plugin refresh")
            else c.(updatedAt := now)
  {
  }

  lemma RestartReturns(s: PoolState, loadedAt: Instant, storedAt: Instant)
    requires Inv(s)
    ensures var t := Restart(List(s), loadedAt, storedAt);
            && Inv(t) && t.order == s.order && t.items.Keys == s.items.Keys
            && t.dialers == map[] && t.rr == 0
            && forall fp :: fp in s.items ==> t.items[fp] == Returned(s.items[fp], storedAt)
  {
    hide Normalized, Normalize, Reload, Returned, List, Replace;
    ListIs(s);
    var cs := ReloadAll(List(s), loadedAt);
    if |cs| == 0 {
      EmptyPoolInv();
      assert s.items == map[] by { assert forall fp :: fp in s.items ==> fp in s.order; }
    } else {
      var batch := NormalizeAll(cs, storedAt);
      ReplacedBatch(s, loadedAt, storedAt);
      ReplaceShape(cs, storedAt);
      FirstOccurrencesOfDistinct(s.order);
      var t := Replace(cs, storedAt);
      assert forall fp :: fp in t.items <==> fp in s.items;
      forall fp | fp in s.items ensures t.items[fp] == Returned(s.items[fp], storedAt) {
        assert fp in s.order;
        var i :| 0 <= i < |s.order| && s.order[i] == fp;
        assert batch[i].fingerprint == Fingerprints(batch)[i] == fp;
        LastWithDistinct(batch, i);
        ReplacedItem(cs, storedAt, fp);
      }
    }
  }

  /** Save, load and replace restore the order, the identities and every record, except that sing-box entries come back
      unavailable and that no dialer is registered. */
  lemma RestartRoundTrip(s: PoolState, loadedAt: Instant, storedAt: Instant)
    requires Inv(s)
    ensures var t := Restart(List(s), loadedAt, storedAt);
            && Inv(t) && t.order == s.order && t.items.Keys == s.items.Keys
            && t.dialers == map[] && t.rr == 0
            && forall fp :: fp in s.items ==>
                 t.items[fp] ==
                   if s.items[fp].protocol == "singbox"
                   then s.items[fp].(status := Unavailable, updatedAt := storedAt,
                                     lastError := "sing-box persisted candidate requires plugin refresh")
                   else s.items[fp].(updatedAt := storedAt)
  {
    hide Inv, Restart, List, Returned;
    RestartReturns(s, loadedAt, storedAt);
    forall fp | fp in s.items {
      ReturnedIs(s.items[fp], storedAt);
    }
  }

  /** Whatever a readable file holds, a start-up takes in all of it, and no sing-box candidate starts out available. */
  lemma StartTakesIn(saved: seq<Candidate>, loadedAt: Instant, storedAt: Instant)
    ensures var t := Restart(saved, loadedAt, storedAt);
            && Inv(t) && t.dialers == map[]
            && (forall i :: 0 <= i < |saved| ==> Normalize(saved[i], loadedAt).fingerprint in t.items)
            && forall fp :: fp in t.items && t.items[fp].protocol == "singbox" ==>
                 && t.items[fp].status == Unavailable
                 && t.items[fp].lastError == "sing-box persisted candidate requires plugin refresh"
  {
    hide Normalized, Normalize, Reload, Replace, LastWith;
    var cs := ReloadAll(saved, loadedAt);
    if |cs| == 0 {
      EmptyPoolInv();
    } else {
      ReplaceShape(cs, storedAt);
      var batch := NormalizeAll(cs, storedAt);
      forall i | 0 <= i < |saved| ensures Normalize(saved[i], loadedAt).fingerprint in Replace(cs, storedAt).items {
        ReloadedTwice(saved[i], loadedAt, storedAt);
        assert batch[i].fingerprint == Fingerprints(batch)[i];
        LastWithIsMember(batch, batch[i].fingerprint);
        ReplacedItem(cs, storedAt, batch[i].fingerprint);
      }
      var t := Replace(cs, storedAt);
      forall fp | fp in t.items && t.items[fp].protocol == "singbox"
        ensures t.items[fp].status == Unavailable && t.items[fp].lastError == NEEDS_REFRESH
      {
        ReplacedFrom(cs, storedAt, fp);
        LastWithIsMember(batch, fp);
        var i :| 0 <= i < |batch| && batch[i] == t.items[fp];
        ReloadedTwice(saved[i], loadedAt, storedAt);
      }
    }
  }

  lemma ReplacedFrom(cs: seq<Candidate>, now: Instant, fp: Fingerprint)
    requires fp in Replace(cs, now).items
    ensures LastWith(NormalizeAll(cs, now), fp) == Some(Replace(cs, now).items[fp])
  {
    hide Normalize;
    PutAllItems(EMPTY, NormalizeAll(cs, now), map[], fp);
  }

  lemma ReloadedTwice(c: Candidate, loadedAt: Instant, storedAt: Instant)
    ensures var d := Normalize(Reload(c, loadedAt), storedAt);
            && d.fingerprint == Normalize(c, loadedAt).fingerprint
            && (d.protocol == "singbox" ==> d.status == Unavailable && d.lastError == NEEDS_REFRESH)
  {
    var n := Normalize(c, loadedAt);
    NormalizeIsStable(c, loadedAt);
    hide Normalize;
    StatusSet(n);
    RecordKeepsNormal(n, Reload(c, loadedAt));
    NormalizeIsStable(Reload(c, loadedAt), storedAt);
  }

  lemma ReplacedItem(cs: seq<Candidate>, now: Instant, fp: Fingerprint)
    requires LastWith(NormalizeAll(cs, now), fp).Some?
    ensures fp in Replace(cs, now).items && Replace(cs, now).items[fp] == LastWith(NormalizeAll(cs, now), fp).value
  {
    hide Normalize;
    PutAllItems(EMPTY, NormalizeAll(cs, now), map[], fp);
  }

  lemma EmptyPoolInv()
    ensures Inv(EMPTY)
  {
  }

  // --------------------------------- sing-box dialers, over runs and restarts

  /** The running pool and the candidates last written to disk. */
  datatype World = World(pool: PoolState, saved: seq<Candidate>)

  datatype Happening =
    | Import(candidates: seq<Candidate>, dialers: map<Fingerprint, DialerId>, replace: Option<Predicate>, at: Instant)
    | Admission(candidates: seq<Candidate>, dialers: map<Fingerprint, DialerId>, at: Instant)
    | Marked(mark: Mark, maxFailures: int)
    | Picked(rr: nat)
    | Registered(fp: Fingerprint, dialer: DialerId)
    | Saved
    | Restarted(loadedAt: Instant, storedAt: Instant)

  function Next(w: World, h: Happening): World {
    match h
    case Import(cs, dialers, replace, at) => w.(pool := ReplaceMatching(w.pool, cs, dialers, replace, at))
    case Admission(cs, dialers, at) => w.(pool := AddValidated(w.pool, cs, dialers, at))
    case Marked(mark, maxFailures) => w.(pool := Apply(w.pool, mark, maxFailures))
    case Picked(rr) => w.(pool := w.pool.(rr := rr))
    case Registered(fp, dialer) => w.(pool := w.pool.(dialers := w.pool.dialers[fp := dialer]))
    case Saved => w.(saved := List(w.pool))
    case Restarted(loadedAt, storedAt) => w.(pool := Restart(w.saved, loadedAt, storedAt))
  }

  function RunWorld(w: World, hs: seq<Happening>): World {
    if hs == [] then w else Next(RunWorld(w, hs[..|hs| - 1]), hs[|hs| - 1])
  }

  /** Sing-box candidates arrive together with their dialers, as the plugin delivers them. */
  ghost predicate Supplies(h: Happening) {
    (h.Import? || h.Admission?) ==>
      forall c :: c in h.candidates && Normalize(c, 1).IsSingBox() ==> Stored(c) in h.dialers
  }

  /** Every available sing-box candidate can be dialled. */
  ghost predicate Dialable(s: PoolState) {
    forall fp :: fp in s.items && s.items[fp].IsSingBox() && s.items[fp].status == Available ==> fp in s.dialers
  }

  /** What was saved is a list some sound pool had. */
  ghost predicate SoundWorld(w: World) {
    Inv(w.pool) && Dialable(w.pool) && exists s :: Inv(s) && w.saved == List(s)
  }

  lemma PutDialable(s: PoolState, c: Candidate, dialers: map<Fingerprint, DialerId>)
    requires Dialable(s) && (c.IsSingBox() && c.status == Available ==> c.fingerprint in dialers)
    ensures Dialable(Put(s, c, dialers))
  {
  }

  lemma {:induction false} PutAllDialable(s: PoolState, batch: seq<Candidate>, dialers: map<Fingerprint, DialerId>)
    requires Dialable(s)
    requires forall i :: 0 <= i < |batch| && batch[i].IsSingBox() ==> batch[i].fingerprint in dialers
    ensures Dialable(PutAll(s, batch, dialers))
  {
    hide Dialable, Put;
    if batch != [] {
      var n := |batch| - 1;
      PutAllDialable(s, batch[..n], dialers);
      PutDialable(PutAll(s, batch[..n], dialers), batch[n], dialers);
    }
  }

  lemma AdmitSupplied(items: map<Fingerprint, Candidate>, c: Candidate, now: Instant)
    ensures Admit(items, c, now).fingerprint == Stored(c)
    ensures Admit(items, c, now).IsSingBox() == Normalize(c, 1).IsSingBox()
  {
    AdmitIsNormalized(items, c, now);
    StoredIs(c, now);
  }

  lemma SweepDialable(s: PoolState, seen: set<Fingerprint>, replace: Option<Predicate>)
    requires Dialable(s)
    ensures Dialable(Sweep(s, seen, replace))
  {
  }

  lemma {:induction false} AddDialable(s: PoolState, cs: seq<Candidate>, dialers: map<Fingerprint, DialerId>,
                                       now: Instant)
    requires Dialable(s)
    requires forall c :: c in cs && Normalize(c, 1).IsSingBox() ==> Stored(c) in dialers
    ensures Dialable(AddValidated(s, cs, dialers, now))
  {
    hide Dialable, Put, Admit, Normalize, Stored;
    if cs != [] {
      var n := |cs| - 1;
      assert cs == cs[..n] + [cs[n]];
      AddDialable(s, cs[..n], dialers, now);
      var t := AddValidated(s, cs[..n], dialers, now);
      assert cs[n] in cs;
      AdmitSupplied(t.items, cs[n], now);
      PutDialable(t, Admit(t.items, cs[n], now), dialers);
    }
  }

  lemma ImportDialable(s: PoolState, cs: seq<Candidate>, dialers: map<Fingerprint, DialerId>,
                       replace: Option<Predicate>, now: Instant)
    requires Dialable(s)
    requires forall c :: c in cs && Normalize(c, 1).IsSingBox() ==> Stored(c) in dialers
    ensures Dialable(ReplaceMatching(s, cs, dialers, replace, now))
  {
    hide Dialable, Admit, Normalize, Stored, Sweep, Survivors;
    var batch := AdmitAll(s.items, cs, now);
    forall i | 0 <= i < |batch| && batch[i].IsSingBox() ensures batch[i].fingerprint in dialers {
      assert cs[i] in cs;
      AdmitSupplied(s.items, cs[i], now);
    }
    SweepDialable(s, FingerprintSet(batch), replace);
    PutAllDialable(Sweep(s, FingerprintSet(batch), replace), batch, dialers);
  }

  lemma MarkDialable(s: PoolState, mark: Mark, maxFailures: int)
    requires Dialable(s)
    ensures Dialable(Apply(s, mark, maxFailures))
  {
  }

  lemma RestartDialable(s: PoolState, loadedAt: Instant, storedAt: Instant)
    requires Inv(s)
    ensures Dialable(Restart(List(s), loadedAt, storedAt)) && Inv(Restart(List(s), loadedAt, storedAt))
  {
    hide Normalized, Restart, List;
    RestartRoundTrip(s, loadedAt, storedAt);
  }

  lemma NextIsSound(w: World, h: Happening)
    requires SoundWorld(w) && Supplies(h)
    ensures SoundWorld(Next(w, h))
  {
    hide Normalized, Normalize, Stored, Dialable, List, Restart, ReplaceMatching, AddValidated, Apply, NoDup;
    var s :| Inv(s) && w.saved == List(s);
    match h
    case Import(cs, dialers, replace, at) =>
      ImportDialable(w.pool, cs, dialers, replace, at);
      ImportInv(w.pool, cs, dialers, replace, at);
    case Admission(cs, dialers, at) =>
      AddDialable(w.pool, cs, dialers, at);
      AdmissionInv(w.pool, cs, dialers, at);
    case Marked(mark, maxFailures) =>
      MarkDialable(w.pool, mark, maxFailures);
      MarkKeepsLabels(w.pool, mark, maxFailures);
    case Picked(rr) =>
      CursorSound(w.pool, rr);
    case Registered(fp, dialer) =>
      RegisterSound(w.pool, fp, dialer);
    case Saved =>
    case Restarted(loadedAt, storedAt) =>
      RestartDialable(s, loadedAt, storedAt);
  }

  lemma ImportInv(s: PoolState, cs: seq<Candidate>, dialers: map<Fingerprint, DialerId>, replace: Option<Predicate>,
                  at: Instant)
    requires Inv(s)
    ensures Inv(ReplaceMatching(s, cs, dialers, replace, at))
  {
    hide Normalized, ReplaceMatching, Survivors, Restrict, FirstOccurrences;
    ReplaceMatchingShape(s, cs, dialers, replace, at);
  }

  lemma AdmissionInv(s: PoolState, cs: seq<Candidate>, dialers: map<Fingerprint, DialerId>, at: Instant)
    requires Inv(s)
    ensures Inv(AddValidated(s, cs, dialers, at))
  {
    hide Normalized, AddValidated, FirstOccurrences;
    AddValidatedShape(s, cs, dialers, at);
  }

  lemma CursorSound(s: PoolState, rr: nat)
    requires Inv(s) && Dialable(s)
    ensures Inv(s.(rr := rr)) && Dialable(s.(rr := rr))
  {
    hide Normalized;
  }

  lemma RegisterSound(s: PoolState, fp: Fingerprint, dialer: DialerId)
    requires Inv(s) && Dialable(s)
    ensures Inv(s.(dialers := s.dialers[fp := dialer])) && Dialable(s.(dialers := s.dialers[fp := dialer]))
  {
    hide Normalized;
  }

  lemma {:induction false} RunIsSound(w: World, hs: seq<Happening>)
    requires SoundWorld(w) && forall i :: 0 <= i < |hs| ==> Supplies(hs[i])
    ensures SoundWorld(RunWorld(w, hs))
  {
    hide SoundWorld, Supplies, Next;
    if hs != [] {
      RunIsSound(w, hs[..|hs| - 1]);
      NextIsSound(RunWorld(w, hs[..|hs| - 1]), hs[|hs| - 1]);
    }
  }

  /** In every state of every run, restarts included, an available sing-box candidate has its dialer registered, so
      dispatching it in that state does not reach the unsupported-protocol branch. */
  lemma SingBoxNeverUnsupported(hs: seq<Happening>, fp: Fingerprint)
    requires forall i :: 0 <= i < |hs| ==> Supplies(hs[i])
    ensures var s := RunWorld(World(EMPTY, []), hs).pool;
            fp in s.items && s.items[fp].IsSingBox() && s.items[fp].status == Available ==>
              fp in s.dialers && DispatchOf(s.items[fp], DialerOf(s, fp)) == Custom(s.dialers[fp])
  {
    hide RunWorld, Supplies, Normalized;
    EmptyPoolInv();
    assert List(EMPTY) == [];
    assert SoundWorld(World(EMPTY, []));
    RunIsSound(World(EMPTY, []), hs);
  }

  /** The plugin's own delivery: a dialer registered under a normal candidate's fingerprint is found again after
      validation has written its metadata and the pool has normalised it. */
  lemma ImportSupplies(c: Candidate, countryCode: string, country: string, query: string,
                       dialers: map<Fingerprint, DialerId>)
    requires Normalized(c) && c.fingerprint in dialers
    ensures Stored(RecordCountry(c, countryCode, country, query)) in dialers
  {
    ValidationKeepsIdentity(c, countryCode, country, query);
    var v := RecordCountry(c, countryCode, country, query);
    hide PreHash;
    StoredOfNormalFields(c, v);
  }

  lemma StoredOfNormalFields(c: Candidate, v: Candidate)
    requires Normalized(c) && v == c.(metadata := v.metadata) && PreHash(v) == PreHash(c)
    ensures Stored(v) == c.fingerprint
  {
    TrimSpaceTrims(c.protocol);
    TrimSpaceTrims(c.host);
    var n := Normalize(v, 1);
    assert IdentityParts(n) == IdentityParts(v);
  }
}
