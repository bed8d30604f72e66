/** The candidate pool as a value: what each locked operation of internal/core/pool.go does to it. */
module PoolModel {
  import opened Collections
  import opened Text
  import opened Candidates

  type DialerId = nat
  type Predicate = Candidate -> bool

  datatype PoolState = PoolState(
    items: map<Fingerprint, Candidate>,
    dialers: map<Fingerprint, DialerId>,
    order: seq<Fingerprint>,
    rr: nat)

  const EMPTY := PoolState(map[], map[], [], 0)

  /** The order list and the item map agree, and every candidate sits under its own identity. */
  ghost predicate Inv(s: PoolState) {
    && NoDup(s.order)
    && (forall fp :: fp in s.order <==> fp in s.items)
    && (forall fp :: fp in s.items ==> s.items[fp].fingerprint == fp && Normalized(s.items[fp]))
  }

  /** The elements of s that lie in keep, in their order. */
  function Restrict<T(==)>(s: seq<T>, keep: set<T>): seq<T> {
    if s == [] then []
    else
      var r := Restrict(s[..|s| - 1], keep);
      if s[|s| - 1] in keep then r + [s[|s| - 1]] else r
  }

  /** The elements of s outside known, each at its first occurrence. */
  function FirstOccurrences<T(==)>(known: set<T>, s: seq<T>): seq<T> {
    if s == [] then []
    else
      var r := FirstOccurrences(known, s[..|s| - 1]);
      if s[|s| - 1] in known || s[|s| - 1] in s[..|s| - 1] then r else r + [s[|s| - 1]]
  }

  // -------------------------------------------------------------- admission

  function Put(s: PoolState, c: Candidate, dialers: map<Fingerprint, DialerId>): PoolState {
    var fp := c.fingerprint;
    PoolState(s.items[fp := c],
         if fp in dialers then s.dialers[fp := dialers[fp]] else s.dialers,
         if fp in s.items then s.order else s.order + [fp],
         s.rr)
  }

  function PutAll(s: PoolState, batch: seq<Candidate>, dialers: map<Fingerprint, DialerId>): PoolState {
    if batch == [] then s
    else Put(PutAll(s, batch[..|batch| - 1], dialers), batch[|batch| - 1], dialers)
  }

  function NormalizeAll(cs: seq<Candidate>, now: Instant): seq<Candidate> {
    seq(|cs|, i requires 0 <= i < |cs| => Normalize(cs[i], now))
  }

  function Replace(cs: seq<Candidate>, now: Instant): PoolState {
    PutAll(EMPTY, NormalizeAll(cs, now), map[])
  }

  /** A candidate that passed validation enters available and with a clean record. */
  function Admit(items: map<Fingerprint, Candidate>, c: Candidate, now: Instant): Candidate {
    var d := Normalize(c, now).(status := Available, failureCount := 0, lastError := "", updatedAt := now);
    if d.fingerprint in items && items[d.fingerprint].createdAt != 0
    then d.(createdAt := items[d.fingerprint].createdAt)
    else d
  }

  function AddValidated(s: PoolState, cs: seq<Candidate>, dialers: map<Fingerprint, DialerId>,
                        now: Instant): PoolState {
    if cs == [] then s
    else
      var t := AddValidated(s, cs[..|cs| - 1], dialers, now);
      Put(t, Admit(t.items, cs[|cs| - 1], now), dialers)
  }

  function AdmitAll(items: map<Fingerprint, Candidate>, cs: seq<Candidate>, now: Instant): seq<Candidate> {
    seq(|cs|, i requires 0 <= i < |cs| => Admit(items, cs[i], now))
  }

  function Fingerprints(cs: seq<Candidate>): seq<Fingerprint> {
    seq(|cs|, i requires 0 <= i < |cs| => cs[i].fingerprint)
  }

  function Elements<T(==)>(s: seq<T>): set<T> {
    set x | x in s
  }

  function FingerprintSet(cs: seq<Candidate>): set<Fingerprint> {
    Elements(Fingerprints(cs))
  }

  /** The fingerprints a replacement keeps: those it does not match, and those that come back in the batch. */
  function Survivors(s: PoolState, seen: set<Fingerprint>, replace: Option<Predicate>): set<Fingerprint> {
    set fp | fp in s.items && !(replace.Some? && replace.value(s.items[fp]) && fp !in seen)
  }

  function Sweep(s: PoolState, seen: set<Fingerprint>, replace: Option<Predicate>): PoolState {
    var keep := Survivors(s, seen, replace);
    var dropped := s.items.Keys - keep;
    PoolState(s.items - dropped, s.dialers - dropped, Restrict(s.order, keep), s.rr)
  }

  /** The dialers of the dropped fingerprints, in order: the ones whose idle cache is reset. */
  function DroppedDialers(order: seq<Fingerprint>, keep: set<Fingerprint>,
                          dialers: map<Fingerprint, DialerId>): seq<DialerId> {
    if order == [] then []
    else
      var fp := order[|order| - 1];
      DroppedDialers(order[..|order| - 1], keep, dialers)
      + (if fp !in keep && fp in dialers then [dialers[fp]] else [])
  }

  function ReplaceMatching(s: PoolState, cs: seq<Candidate>, dialers: map<Fingerprint, DialerId>,
                           replace: Option<Predicate>, now: Instant): PoolState
  {
    var batch := AdmitAll(s.items, cs, now);
    PutAll(Sweep(s, FingerprintSet(batch), replace), batch, dialers)
  }

  // ------------------------------------------------------------- scheduling

  function Eligible(s: PoolState, route: Predicate, exclude: set<Fingerprint>): set<Fingerprint> {
    set fp | fp in s.items && fp !in exclude && s.items[fp].status == Available && route(s.items[fp])
  }

  /** Who may be picked: available, on the route and not excluded. */
  lemma EligibleIs(s: PoolState, route: Predicate, exclude: set<Fingerprint>)
    ensures forall fp :: fp in Eligible(s, route, exclude) <==>
              fp in s.items && fp !in exclude && s.items[fp].status == Available && route(s.items[fp])
  {
  }

  /** The order list read as an endless cycle. */
  function At(order: seq<Fingerprint>, p: nat): Fingerprint
    requires order != []
  {
    order[p % |order|]
  }

  /** The first position in [p, limit) of the cycle that holds an eligible fingerprint. */
  function Probe(order: seq<Fingerprint>, eligible: set<Fingerprint>, p: nat, limit: nat): (r: Option<nat>)
    requires order != [] && p <= limit
    ensures r.Some? ==> p <= r.value < limit && At(order, r.value) in eligible
    ensures forall q: nat :: p <= q < (if r.Some? then r.value else limit) ==> At(order, q) !in eligible
    decreases limit - p
  {
    if p == limit then None
    else if At(order, p) in eligible then Some(p)
    else Probe(order, eligible, p + 1, limit)
  }

  /** The probe is determined by its answer: the first eligible position, or none. */
  lemma {:induction false} ProbeIs(order: seq<Fingerprint>, eligible: set<Fingerprint>, p: nat, limit: nat, q: nat)
    requires order != [] && p <= q <= limit
    requires forall j: nat :: p <= j < q ==> At(order, j) !in eligible
    requires q < limit ==> At(order, q) in eligible
    ensures Probe(order, eligible, p, limit) == if q < limit then Some(q) else None
    decreases q - p
  {
    if p < q { ProbeIs(order, eligible, p + 1, limit, q); }
  }

  function PickRoundRobin(s: PoolState, route: Predicate, exclude: set<Fingerprint>): (PoolState, Option<Candidate>) {
    if s.order == [] then (s, None)
    else
      match Probe(s.order, Eligible(s, route, exclude), s.rr, s.rr + |s.order|)
      case None => (s.(rr := s.rr + |s.order|), None)
      case Some(p) => (s.(rr := p + 1), Some(s.items[At(s.order, p)]))
  }

  /** The random policy, once the starting position is drawn. */
  function PickFrom(s: PoolState, route: Predicate, exclude: set<Fingerprint>, start: nat): Option<Candidate> {
    if s.order == [] then None
    else
      match Probe(s.order, Eligible(s, route, exclude), start, start + |s.order|)
      case None => None
      case Some(p) => Some(s.items[At(s.order, p)])
  }

  /** Lower measured latency first; a candidate without a measurement is faster than none. */
  predicate Faster(a: Candidate, b: Candidate) {
    if a.latency <= 0 then false else if b.latency <= 0 then true else a.latency < b.latency
  }

  function InsertByLatency(c: Candidate, cs: seq<Candidate>): seq<Candidate> {
    if cs == [] || !Faster(cs[0], c) then [c] + cs else [cs[0]] + InsertByLatency(c, cs[1..])
  }

  /** The stable sort by Faster. */
  function SortByLatency(cs: seq<Candidate>): seq<Candidate> {
    if cs == [] then [] else InsertByLatency(cs[0], SortByLatency(cs[1..]))
  }

  function CandidatesOf(s: PoolState, fps: seq<Fingerprint>): seq<Candidate>
    requires forall fp :: fp in fps ==> fp in s.items
  {
    seq(|fps|, i requires 0 <= i < |fps| => assert fps[i] in fps; s.items[fps[i]])
  }

  lemma {:induction false} RestrictElements<T(!new)>(s: seq<T>, keep: set<T>)
    ensures forall x :: x in Restrict(s, keep) <==> x in s && x in keep
    ensures NoDup(s) ==> NoDup(Restrict(s, keep))
  {
    if s != [] {
      var n := |s| - 1;
      RestrictElements(s[..n], keep);
      assert s == s[..n] + [s[n]];
    }
  }

  lemma {:induction false} FirstOccurrencesElements<T(!new)>(known: set<T>, s: seq<T>)
    ensures forall x :: x in FirstOccurrences(known, s) <==> x in s && x !in known
    ensures NoDup(FirstOccurrences(known, s))
  {
    if s != [] {
      var n := |s| - 1;
      FirstOccurrencesElements(known, s[..n]);
      assert s == s[..n] + [s[n]];
    }
  }

  function EligibleList(s: PoolState, route: Predicate, exclude: set<Fingerprint>): seq<Candidate> {
    var eligible := Eligible(s, route, exclude);
    RestrictElements(s.order, eligible);
    CandidatesOf(s, Restrict(s.order, eligible))
  }

  /** Integer division rounding toward zero, for a positive divisor. */
  function TruncDiv(a: int, b: int): int
    requires b > 0
  {
    if a >= 0 then a / b else -((-a) / b)
  }

  function Keep(count: nat, percent: int): (kept: nat)
    requires count > 0
    ensures 1 <= kept <= count
  {
    var keep := TruncDiv(count * percent, 100);
    var keep := if keep < 1 then 1 else keep;
    if keep > count then count else keep
  }

  /** The fastest percent of the eligible candidates, at least one. */
  function FastPool(s: PoolState, route: Predicate, exclude: set<Fingerprint>, percent: int): seq<Candidate> {
    var sorted := SortByLatency(EligibleList(s, route, exclude));
    if sorted == [] then [] else sorted[..Keep(|sorted|, percent)]
  }

  function PickFastRoundRobin(s: PoolState, route: Predicate, exclude: set<Fingerprint>,
                              percent: int): (PoolState, Option<Candidate>) {
    var fast := FastPool(s, route, exclude, percent);
    if fast == [] then (s, None) else (s.(rr := s.rr + 1), Some(fast[s.rr % |fast|]))
  }

  // --------------------------------------------------------- runtime marking

  function MarkFailure(s: PoolState, fp: Fingerprint, reason: string, maxFailures: int, now: Instant): PoolState {
    if fp !in s.items then s
    else
      var c := s.items[fp];
      var d := c.(failureCount := c.failureCount + 1, lastError := reason, updatedAt := now);
      s.(items := s.items[fp := if d.failureCount >= maxFailures then d.(status := Unavailable) else d])
  }

  function MarkSuccess(s: PoolState, fp: Fingerprint, now: Instant): PoolState {
    if fp in s.items && s.items[fp].status == Available && s.items[fp].failureCount > 0
    then s.(items := s.items[fp := s.items[fp].(failureCount := 0, lastError := "", updatedAt := now)])
    else s
  }

  function List(s: PoolState): seq<Candidate> {
    RestrictElements(s.order, s.items.Keys);
    CandidatesOf(s, Restrict(s.order, s.items.Keys))
  }

  // ------------------------------------------------------- index agreement

  lemma {:induction false} RestrictAll<T>(s: seq<T>, keep: set<T>)
    requires forall x :: x in s ==> x in keep
    ensures Restrict(s, keep) == s
  {
    if s != [] {
      var n := |s| - 1;
      assert s == s[..n] + [s[n]];
      RestrictAll(s[..n], keep);
    }
  }

  lemma PutKeepsInv(s: PoolState, c: Candidate, dialers: map<Fingerprint, DialerId>)
    requires Inv(s) && Normalized(c)
    ensures Inv(Put(s, c, dialers))
  {
    hide Normalized;
    var t := Put(s, c, dialers);
    forall fp ensures fp in t.order <==> fp in t.items {
      if c.fingerprint !in s.items {
        assert t.order[|s.order|] == c.fingerprint;
      }
    }
  }

  /** The batch occurrence of a fingerprint that ends up in the pool: the last one. */
  function LastWith(batch: seq<Candidate>, fp: Fingerprint): Option<Candidate> {
    if batch == [] then None
    else if batch[|batch| - 1].fingerprint == fp then Some(batch[|batch| - 1])
    else LastWith(batch[..|batch| - 1], fp)
  }

  lemma {:induction false} LastWithIsMember(batch: seq<Candidate>, fp: Fingerprint)
    ensures LastWith(batch, fp).Some? <==> fp in Fingerprints(batch)
    ensures LastWith(batch, fp).Some? ==>
              LastWith(batch, fp).value in batch && LastWith(batch, fp).value.fingerprint == fp
  {
    if batch != [] {
      var n := |batch| - 1;
      LastWithIsMember(batch[..n], fp);
      assert Fingerprints(batch) == Fingerprints(batch[..n]) + [batch[n].fingerprint];
    }
  }

  lemma {:induction false} LastWithAt(batch: seq<Candidate>, fp: Fingerprint) returns (i: nat)
    requires LastWith(batch, fp).Some?
    ensures i < |batch| && batch[i] == LastWith(batch, fp).value && batch[i].fingerprint == fp
    ensures forall j :: i < j < |batch| ==> batch[j].fingerprint != fp
  {
    var n := |batch| - 1;
    if batch[n].fingerprint == fp {
      return n;
    }
    var front := batch[..n];
    i := LastWithAt(front, fp);
    assert forall j :: i < j < n ==> batch[j] == front[j];
  }

  lemma FingerprintsSnoc(cs: seq<Candidate>)
    requires cs != []
    ensures var n := |cs| - 1;
            && Fingerprints(cs)[..n] == Fingerprints(cs[..n])
            && Fingerprints(cs)[n] == cs[n].fingerprint
  {
  }

  lemma ElementsSnoc<T>(s: seq<T>)
    requires s != []
    ensures Elements(s) == Elements(s[..|s| - 1]) + {s[|s| - 1]}
  {
    assert s == s[..|s| - 1] + [s[|s| - 1]];
  }

  lemma FirstOccurrencesSnoc(known: set<Fingerprint>, fps: seq<Fingerprint>)
    requires fps != []
    ensures var n := |fps| - 1;
            FirstOccurrences(known, fps) == FirstOccurrences(known, fps[..n])
              + (if fps[n] in known + Elements(fps[..n]) then [] else [fps[n]])
  {
    var first := FirstOccurrences(known, fps[..|fps| - 1]);
    assert first + [] == first;
  }

  /** One step of the batch: how the order list and the key set grow. */
  lemma PutOrder(s: PoolState, t: PoolState, fps: seq<Fingerprint>, c: Candidate, dialers: map<Fingerprint, DialerId>)
    requires fps != [] && c.fingerprint == fps[|fps| - 1]
    requires t.order == s.order + FirstOccurrences(s.items.Keys, fps[..|fps| - 1])
    requires t.items.Keys == s.items.Keys + Elements(fps[..|fps| - 1])
    ensures Put(t, c, dialers).order == s.order + FirstOccurrences(s.items.Keys, fps)
    ensures Put(t, c, dialers).items.Keys == s.items.Keys + Elements(fps)
  {
    hide FirstOccurrences, Elements;
    var n := |fps| - 1;
    var known, before, first := s.items.Keys, Elements(fps[..n]), FirstOccurrences(s.items.Keys, fps[..n]);
    var added := if fps[n] in known + before then [] else [fps[n]];
    PutGrows(t, c, dialers);
    FirstOccurrencesSnoc(known, fps);
    ElementsSnoc(fps);
    ConcatAssociates(s.order, first, added);
    UnionAssociates(known, before, {fps[n]});
  }

  lemma PutGrows(t: PoolState, c: Candidate, dialers: map<Fingerprint, DialerId>)
    ensures Put(t, c, dialers).order == t.order + (if c.fingerprint in t.items.Keys then [] else [c.fingerprint])
    ensures Put(t, c, dialers).items.Keys == t.items.Keys + {c.fingerprint}
  {
    KeysAfterUpdate(t.items, c.fingerprint, c);
    assert t.order + [] == t.order;
  }

  lemma ConcatAssociates<T>(a: seq<T>, b: seq<T>, c: seq<T>)
    ensures (a + b) + c == a + (b + c)
  {
  }

  lemma UnionAssociates<T>(a: set<T>, b: set<T>, c: set<T>)
    ensures (a + b) + c == a + (b + c)
  {
  }

  lemma KeysAfterUpdate<K, V>(m: map<K, V>, k: K, v: V)
    ensures m[k := v].Keys == m.Keys + {k}
  {
  }

  predicate AllNormalized(batch: seq<Candidate>) {
    forall c :: c in batch ==> Normalized(c)
  }

  /** Storing a batch keeps the index: old entries first and in place, then new fingerprints where they first occur. */
  lemma {:induction false} PutAllOrder(s: PoolState, batch: seq<Candidate>, dialers: map<Fingerprint, DialerId>)
    requires Inv(s) && AllNormalized(batch)
    ensures Inv(PutAll(s, batch, dialers))
    ensures PutAll(s, batch, dialers).order == s.order + FirstOccurrences(s.items.Keys, Fingerprints(batch))
    ensures PutAll(s, batch, dialers).items.Keys == s.items.Keys + FingerprintSet(batch)
    ensures PutAll(s, batch, dialers).rr == s.rr
  {
    hide Normalized;
    if batch == [] {
      assert s.order + [] == s.order;
      assert s.items.Keys + {} == s.items.Keys;
    } else {
      var n := |batch| - 1;
      PutAllOrder(s, batch[..n], dialers);
      FingerprintsSnoc(batch);
      assert batch[n] in batch;
      var t := PutAll(s, batch[..n], dialers);
      PutKeepsInv(t, batch[n], dialers);
      PutOrder(s, t, Fingerprints(batch), batch[n], dialers);
    }
  }

  /** Each fingerprint of the batch ends up with its last occurrence; everything else is untouched. */
  lemma {:induction false} PutAllItems(s: PoolState, batch: seq<Candidate>, dialers: map<Fingerprint, DialerId>,
                                       fp: Fingerprint)
    ensures fp in PutAll(s, batch, dialers).items <==> fp in s.items || LastWith(batch, fp).Some?
    ensures fp in PutAll(s, batch, dialers).items ==>
              PutAll(s, batch, dialers).items[fp] ==
              (match LastWith(batch, fp) case Some(c) => c case None => s.items[fp])
  {
    if batch != [] {
      PutAllItems(s, batch[..|batch| - 1], dialers, fp);
    }
  }

  lemma AdmitIsNormalized(items: map<Fingerprint, Candidate>, c: Candidate, now: Instant)
    ensures Normalized(Admit(items, c, now))
    ensures Admit(items, c, now).fingerprint == Normalize(c, now).fingerprint
  {
    NormalizeIsStable(c, now);
    var n := Normalize(c, now);
    var d := Admit(items, c, now);
    assert IdentityParts(d) == IdentityParts(n);
  }

  lemma SweepKeepsInv(s: PoolState, seen: set<Fingerprint>, replace: Option<Predicate>)
    requires Inv(s)
    ensures Inv(Sweep(s, seen, replace))
    ensures Sweep(s, seen, replace).items.Keys == Survivors(s, seen, replace)
  {
    hide Normalized;
    RestrictElements(s.order, Survivors(s, seen, replace));
  }

  lemma AdmitAllNormalized(items: map<Fingerprint, Candidate>, cs: seq<Candidate>, now: Instant)
    ensures AllNormalized(AdmitAll(items, cs, now))
    ensures Fingerprints(AdmitAll(items, cs, now)) == Fingerprints(NormalizeAll(cs, now))
  {
    hide Normalized;
    var batch := AdmitAll(items, cs, now);
    forall i | 0 <= i < |cs|
      ensures Normalized(batch[i]) && batch[i].fingerprint == NormalizeAll(cs, now)[i].fingerprint
    {
      AdmitIsNormalized(items, cs[i], now);
    }
  }

  lemma SurvivorsAre(s: PoolState, fps: seq<Fingerprint>, replace: Option<Predicate>)
    ensures Survivors(s, Elements(fps), replace) ==
            set fp | fp in s.items && (fp in fps || replace.None? || !replace.value(s.items[fp]))
  {
  }

  /** A partial replacement leaves the old survivors in their old order, followed by the first occurrences of the
      new fingerprints; a survivor outside the batch is untouched, and the index stays in agreement. */
  lemma ReplaceMatchingShape(s: PoolState, cs: seq<Candidate>, dialers: map<Fingerprint, DialerId>,
                             replace: Option<Predicate>, now: Instant)
    requires Inv(s)
    ensures var fps := Fingerprints(NormalizeAll(cs, now));
            var batch := AdmitAll(s.items, cs, now);
            var keep := set fp | fp in s.items && (fp in fps || replace.None? || !replace.value(s.items[fp]));
            var t := ReplaceMatching(s, cs, dialers, replace, now);
            && Inv(t)
            && t.order == Restrict(s.order, keep) + FirstOccurrences(keep, fps)
            && t.items.Keys == keep + Elements(fps)
            && (forall fp :: fp in keep && fp !in fps ==> t.items[fp] == s.items[fp])
            && (forall fp :: fp in fps ==> t.items[fp] in batch)
            && t.rr == s.rr
  {
    hide Normalized;
    var batch := AdmitAll(s.items, cs, now);
    AdmitAllNormalized(s.items, cs, now);
    var swept := Sweep(s, FingerprintSet(batch), replace);
    SweepKeepsInv(s, FingerprintSet(batch), replace);
    SurvivorsAre(s, Fingerprints(batch), replace);
    hide Survivors, Sweep, Restrict, FirstOccurrences, AdmitAll;
    PutAllOrder(swept, batch, dialers);
    var t := PutAll(swept, batch, dialers);
    forall fp | fp in t.items
      ensures fp in Fingerprints(batch) ==> t.items[fp] in batch
      ensures fp !in Fingerprints(batch) ==> t.items[fp] == swept.items[fp]
    {
      PutAllItems(swept, batch, dialers, fp);
      LastWithIsMember(batch, fp);
    }
  }

  lemma EmptyBatch(known: set<Fingerprint>)
    ensures FirstOccurrences(known, []) == [] && Elements<Fingerprint>([]) == {}
  {
  }

  lemma {:induction false} AddValidatedShape(s: PoolState, cs: seq<Candidate>, dialers: map<Fingerprint, DialerId>,
                                             now: Instant)
    requires Inv(s)
    ensures var t := AddValidated(s, cs, dialers, now);
            var fps := Fingerprints(NormalizeAll(cs, now));
            && Inv(t)
            && t.order == s.order + FirstOccurrences(s.items.Keys, fps)
            && t.items.Keys == s.items.Keys + Elements(fps)
            && t.rr == s.rr
  {
    hide Normalized, Admit, Normalize, FirstOccurrences, Elements;
    if cs == [] {
      EmptyBatch(s.items.Keys);
      assert Fingerprints(NormalizeAll(cs, now)) == [];
      assert s.order + [] == s.order;
      assert s.items.Keys + {} == s.items.Keys;
    } else {
      var n := |cs| - 1;
      AddValidatedShape(s, cs[..n], dialers, now);
      var t := AddValidated(s, cs[..n], dialers, now);
      var c := Admit(t.items, cs[n], now);
      AdmitIsNormalized(t.items, cs[n], now);
      PutKeepsInv(t, c, dialers);
      assert NormalizeAll(cs, now)[..n] == NormalizeAll(cs[..n], now);
      FingerprintsSnoc(NormalizeAll(cs, now));
      PutOrder(s, t, Fingerprints(NormalizeAll(cs, now)), c, dialers);
    }
  }

  /** An admission leaves every fingerprint outside the batch alone. */
  lemma {:induction false} AddLeavesOthers(s: PoolState, cs: seq<Candidate>, dialers: map<Fingerprint, DialerId>,
                                           now: Instant, fp: Fingerprint)
    requires fp !in Fingerprints(NormalizeAll(cs, now))
    ensures var t := AddValidated(s, cs, dialers, now);
            (fp in t.items <==> fp in s.items) && (fp in s.items ==> t.items[fp] == s.items[fp])
  {
    hide Normalized, Admit, Normalize;
    if cs != [] {
      var n := |cs| - 1;
      var all := NormalizeAll(cs, now);
      FingerprintsSnoc(all);
      assert all[..n] == NormalizeAll(cs[..n], now);
      assert Fingerprints(all)[n] != fp && fp !in Fingerprints(all)[..n];
      AddLeavesOthers(s, cs[..n], dialers, now, fp);
      AdmitIsNormalized(AddValidated(s, cs[..n], dialers, now).items, cs[n], now);
    }
  }

  /** With nothing to replace and no repeated fingerprint, a replacement is a plain admission. */
  lemma ReplaceNothingIsAdd(s: PoolState, cs: seq<Candidate>, dialers: map<Fingerprint, DialerId>,
                            replace: Option<Predicate>, now: Instant)
    requires Inv(s)
    requires NoDup(Fingerprints(NormalizeAll(cs, now)))
    requires replace.Some? ==> forall fp :: fp in s.items ==> !replace.value(s.items[fp])
    ensures ReplaceMatching(s, cs, dialers, replace, now) == AddValidated(s, cs, dialers, now)
  {
    hide Normalized;
    var batch := AdmitAll(s.items, cs, now);
    SweepNothing(s, FingerprintSet(batch), replace);
    PutAdmittedIsAdd(s, cs, dialers, now);
  }

  lemma SweepNothing(s: PoolState, seen: set<Fingerprint>, replace: Option<Predicate>)
    requires Inv(s)
    requires replace.Some? ==> forall fp :: fp in s.items ==> !replace.value(s.items[fp])
    ensures Sweep(s, seen, replace) == s
  {

    var keep := Survivors(s, seen, replace);
    assert keep == s.items.Keys;
    RestrictAll(s.order, keep);
    var dropped := s.items.Keys - keep;
    assert dropped == {};
    assert s.items - dropped == s.items;
    assert s.dialers - dropped == s.dialers;
  }

  lemma {:induction false} PutAdmittedIsAdd(s: PoolState, cs: seq<Candidate>, dialers: map<Fingerprint, DialerId>,
                                            now: Instant)
    requires Inv(s)
    requires NoDup(Fingerprints(NormalizeAll(cs, now)))
    ensures PutAll(s, AdmitAll(s.items, cs, now), dialers) == AddValidated(s, cs, dialers, now)
  {
    hide Normalized, Put, Admit, FirstOccurrences;
    if cs != [] {
      var n := |cs| - 1;
      var all, batch := NormalizeAll(cs, now), AdmitAll(s.items, cs, now);
      assert all[..n] == NormalizeAll(cs[..n], now);
      assert batch[..n] == AdmitAll(s.items, cs[..n], now);
      FingerprintsSnoc(all);
      PutAdmittedIsAdd(s, cs[..n], dialers, now);
      var t, fps := AddValidated(s, cs[..n], dialers, now), Fingerprints(all);
      assert fps[n] !in fps[..n];
      AddLeavesOthers(s, cs[..n], dialers, now, fps[n]);
      AdmitLooksAtOwnEntry(s.items, t.items, cs[n], now);
      assert batch[n] == Admit(s.items, cs[n], now);
    }
  }

  lemma AdmitLooksAtOwnEntry(a: map<Fingerprint, Candidate>, b: map<Fingerprint, Candidate>, c: Candidate, now: Instant)
    requires var fp := Normalize(c, now).fingerprint; (fp in a <==> fp in b) && (fp in a ==> a[fp] == b[fp])
    ensures Admit(a, c, now) == Admit(b, c, now)
  {
    hide Normalize;
  }

  /** Status, failure record and times do not take part in the normal form. */
  lemma RecordKeepsNormal(c: Candidate, d: Candidate)
    requires Normalized(c)
    requires d == c.(status := d.status, failureCount := d.failureCount, lastError := d.lastError,
                     createdAt := d.createdAt, updatedAt := d.updatedAt)
    requires d.status != NoStatus && d.createdAt != 0
    ensures Normalized(d)
  {
    assert IdentityParts(d) == IdentityParts(c);
  }

  lemma MarksKeepInv(s: PoolState, fp: Fingerprint, reason: string, maxFailures: int, now: Instant)
    requires Inv(s)
    ensures Inv(MarkFailure(s, fp, reason, maxFailures, now))
    ensures Inv(MarkSuccess(s, fp, now))
  {
    hide Normalized;
    if fp in s.items {
      StatusSet(s.items[fp]);
      RecordKeepsNormal(s.items[fp], MarkFailure(s, fp, reason, maxFailures, now).items[fp]);
      RecordKeepsNormal(s.items[fp], MarkSuccess(s, fp, now).items[fp]);
    }
  }

  lemma StatusSet(c: Candidate)
    requires Normalized(c)
    ensures c.status != NoStatus && c.createdAt != 0
  {
  }

  lemma ReplaceShape(cs: seq<Candidate>, now: Instant)
    ensures Inv(Replace(cs, now))
    ensures Replace(cs, now).order == FirstOccurrences({}, Fingerprints(NormalizeAll(cs, now)))
    ensures Replace(cs, now).dialers == map[] && Replace(cs, now).rr == 0
  {
    hide Normalized;
    var batch := NormalizeAll(cs, now);
    forall i | 0 <= i < |cs| ensures Normalized(batch[i]) {
      NormalizeIsStable(cs[i], now);
    }
    PutAllOrder(EMPTY, batch, map[]);
    NoDialers(EMPTY, batch);
    assert EMPTY.items.Keys == {};
  }

  /** The entries that a replacement drops together with a dialer. */
  function Gone(order: seq<Fingerprint>, keep: set<Fingerprint>,
                dialers: map<Fingerprint, DialerId>): set<Fingerprint> {
    set fp | fp in order && fp !in keep && fp in dialers
  }

  lemma GoneSnoc(order: seq<Fingerprint>, keep: set<Fingerprint>, dialers: map<Fingerprint, DialerId>)
    requires NoDup(order) && order != []
    ensures var n := |order| - 1; var fp := order[n]; var before := Gone(order[..n], keep, dialers);
            && NoDup(order[..n]) && fp !in before
            && Gone(order, keep, dialers) == if fp !in keep && fp in dialers then before + {fp} else before
  {
    var n := |order| - 1;
    assert order == order[..n] + [order[n]];
    assert order[n] !in order[..n];
  }

  /** The dialers reset by a replacement: one for each entry it drops that has one, and of that entry. */
  lemma {:induction false} DroppedDialersAre(order: seq<Fingerprint>, keep: set<Fingerprint>,
                                             dialers: map<Fingerprint, DialerId>)
    requires NoDup(order)
    ensures |DroppedDialers(order, keep, dialers)| == |Gone(order, keep, dialers)|
    ensures forall d :: d in DroppedDialers(order, keep, dialers) <==>
              exists fp :: fp in order && fp !in keep && fp in dialers && dialers[fp] == d
  {
    if order == [] {
      assert Gone(order, keep, dialers) == {};
    } else {
      var n := |order| - 1;
      GoneSnoc(order, keep, dialers);
      hide NoDup, Gone;
      DroppedDialersAre(order[..n], keep, dialers);
      assert order == order[..n] + [order[n]];
    }
  }

  lemma {:induction false} DroppedDialersInOrder(a: seq<Fingerprint>, b: seq<Fingerprint>, keep: set<Fingerprint>,
                                                 dialers: map<Fingerprint, DialerId>)
    ensures DroppedDialers(a + b, keep, dialers) ==
            DroppedDialers(a, keep, dialers) + DroppedDialers(b, keep, dialers)
  {
    if b == [] {
      assert a + b == a;
    } else {
      var n := |b| - 1;
      assert (a + b)[..|a| + n] == a + b[..n];
      DroppedDialersInOrder(a, b[..n], keep, dialers);
    }
  }

  lemma {:induction false} NoDialers(s: PoolState, batch: seq<Candidate>)
    ensures PutAll(s, batch, map[]).dialers == s.dialers
  {
    if batch != [] {
      NoDialers(s, batch[..|batch| - 1]);
    }
  }
}
