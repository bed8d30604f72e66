/** The candidate pool of internal/core/pool.go: each method is one mutex region. */
module Pools {
  import opened Collections
  import opened Text
  import opened Candidates
  import opened PoolModel
  import opened PoolFastCut

  const ROUND_ROBIN := "round_robin"

  /** Reads a clock that does not run backwards. */
  method ReadClock(last: Instant) returns (now: Instant)
    ensures now >= last
  {
    var passed: nat :| true;
    now := last + passed;
  }

  class Pool {
    var items: map<Fingerprint, Candidate>
    var dialers: map<Fingerprint, DialerId>
    var order: seq<Fingerprint>
    var rr: nat

    ghost function State(): PoolState
      reads this
    {
      PoolState(items, dialers, order, rr)
    }

    ghost predicate Valid()
      reads this
    {
      Inv(State())
    }

    constructor ()
      ensures Valid() && State() == EMPTY
    {
      items, dialers, order, rr := map[], map[], [], 0;
    }

    method Replace(candidates: seq<Candidate>, now: Instant)
      modifies this
      ensures Valid() && State() == PoolModel.Replace(candidates, now)
    {
      items, dialers, order, rr := map[], map[], [], 0;
      for i := 0 to |candidates|
        invariant State() == PutAll(EMPTY, NormalizeAll(candidates[..i], now), map[])
      {
        var c := Normalize(candidates[i], now);
        ghost var all := NormalizeAll(candidates[..i + 1], now);
        assert all[..i] == NormalizeAll(candidates[..i], now) && all[i] == c;
        if c.fingerprint !in items {
          order := order + [c.fingerprint];
        }
        items := items[c.fingerprint := c];
      }
      assert candidates[..|candidates|] == candidates;
      ReplaceShape(candidates, now);
    }

    method AddValidated(candidates: seq<Candidate>, newDialers: map<Fingerprint, DialerId>, now: Instant)
      returns (added: nat)
      requires Valid()
      modifies this
      ensures Valid() && State() == PoolModel.AddValidated(old(State()), candidates, newDialers, now)
      ensures added == |candidates|
    {
      hide Normalize, Inv;
      added := 0;
      for i := 0 to |candidates|
        invariant added == i
        invariant State() == PoolModel.AddValidated(old(State()), candidates[..i], newDialers, now)
      {
        assert candidates[..i + 1][..i] == candidates[..i];
        var c := Normalize(candidates[i], now).(status := Available, failureCount := 0, lastError := "");
        if c.fingerprint in items {
          if items[c.fingerprint].createdAt != 0 {
            c := c.(createdAt := items[c.fingerprint].createdAt);
          }
        } else {
          order := order + [c.fingerprint];
        }
        c := c.(updatedAt := now);
        items := items[c.fingerprint := c];
        if c.fingerprint in newDialers {
          dialers := dialers[c.fingerprint := newDialers[c.fingerprint]];
        }
        added := added + 1;
      }
      assert candidates[..|candidates|] == candidates;
      AddValidatedShape(old(State()), candidates, newDialers, now);
    }

    /** Swaps out the candidates that replace matches. The order list is compacted within its backing array;
        reset lists the dialers whose ResetIdleCache is called. */
    method ReplaceValidatedMatching(candidates: seq<Candidate>, newDialers: map<Fingerprint, DialerId>,
                                    replace: Option<Predicate>, now: Instant)
      returns (count: nat, reset: seq<DialerId>)
      requires Valid()
      modifies this
      ensures Valid() && State() == ReplaceMatching(old(State()), candidates, newDialers, replace, now)
      ensures count == |candidates|
      ensures var seen := FingerprintSet(AdmitAll(old(items), candidates, now));
              reset == DroppedDialers(old(order), Survivors(old(State()), seen, replace), old(dialers))
      ensures var gone := set fp | fp in old(items) && fp !in items && fp in old(dialers);
              && |reset| == |gone|
              && forall d :: d in reset <==> exists fp :: fp in gone && old(dialers)[fp] == d
    {
      ghost var s := State();
      var batch, seen := Prepare(candidates, now);
      ghost var keep := Survivors(s, seen, replace);
      reset := [];
      SweepKeepsInv(s, seen, replace);
      if replace.Some? {
        reset := Compact(seen, replace.value);
      } else {
        SweepNothing(s, seen, replace);
        NothingDropped(order, keep, dialers);
      }
      assert State() == Sweep(s, seen, replace);
      StoreBatch(batch, newDialers);
      ReplaceMatchingShape(s, candidates, newDialers, replace, now);
      ResetsAre(s, candidates, newDialers, replace, now);
      count := |batch|;
    }

    method Prepare(candidates: seq<Candidate>, now: Instant) returns (batch: seq<Candidate>, seen: set<Fingerprint>)
      ensures batch == AdmitAll(items, candidates, now)
      ensures seen == FingerprintSet(batch)
    {
      batch, seen := [], {};
      for i := 0 to |candidates|
        invariant batch == AdmitAll(items, candidates[..i], now)
        invariant seen == FingerprintSet(batch)
      {
        var c := Normalize(candidates[i], now).(status := Available, failureCount := 0, lastError := "");
        if c.fingerprint in items {
          if items[c.fingerprint].createdAt != 0 {
            c := c.(createdAt := items[c.fingerprint].createdAt);
          }
        }
        c := c.(updatedAt := now);
        assert c == Admit(items, candidates[i], now);
        AdmitAllSnoc(items, candidates, i, now);
        ghost var was := batch;
        batch := batch + [c];
        seen := seen + {c.fingerprint};
        assert batch[..i] == was;
        FingerprintsSnoc(batch);
        ElementsSnoc(Fingerprints(batch));
      }
      assert candidates[..|candidates|] == candidates;
    }

    /** In-place compaction: kept entries move down within the array that is still being read. */
    method Compact(seen: set<Fingerprint>, replace: Predicate) returns (reset: seq<DialerId>)
      requires Valid()
      modifies this
      ensures State() == Sweep(old(State()), seen, Some(replace))
      ensures reset == DroppedDialers(old(order), Survivors(old(State()), seen, Some(replace)), old(dialers))
    {
      hide Inv, Restrict, DroppedDialers, Survivors, SweptMap, Sweep;
      var entries := order;
      var backing := new Fingerprint[|entries|](i requires 0 <= i < |entries| => entries[i]);
      ghost var s := State();
      ghost var keep := Survivors(s, seen, Some(replace));
      reset := [];
      var w := 0;
      PrefixNone(s, keep);
      for r := 0 to backing.Length
        invariant w <= r
        invariant backing[..w] == Restrict(entries[..r], keep)
        invariant forall j :: r <= j < backing.Length ==> backing[j] == entries[j]
        invariant items == SweptMap(s.items, entries, keep, r) && dialers == SweptMap(s.dialers, entries, keep, r)
        invariant reset == DroppedDialers(entries[..r], keep, s.dialers)
        invariant order == entries && rr == s.rr
      {
        var fp := backing[r];
        SweepStep(s, keep, r);
        SurvivorsAt(s, seen, replace, fp);
        if fp in items {
          if replace(items[fp]) && fp !in seen {
            items := items - {fp};
            if fp in dialers {
              reset := reset + [dialers[fp]];
            }
            dialers := dialers - {fp};
          } else {
            backing[w] := fp;
            w := w + 1;
            assert backing[..w] == backing[..w - 1] + [fp];
          }
        }
      }
      assert entries[..|entries|] == entries;
      order := backing[..w];
      SweptAll(s, seen, Some(replace));
    }

    method StoreBatch(batch: seq<Candidate>, newDialers: map<Fingerprint, DialerId>)
      modifies this
      ensures State() == PutAll(old(State()), batch, newDialers)
    {
      for i := 0 to |batch|
        invariant State() == PutAll(old(State()), batch[..i], newDialers)
      {
        var c := batch[i];
        assert batch[..i + 1][..i] == batch[..i];
        if c.fingerprint !in items {
          order := order + [c.fingerprint];
        }
        items := items[c.fingerprint := c];
        if c.fingerprint in newDialers {
          dialers := dialers[c.fingerprint := newDialers[c.fingerprint]];
        }
      }
      assert batch[..|batch|] == batch;
    }

    method Dialer(fp: Fingerprint) returns (r: Option<DialerId>)
      ensures r == if fp in dialers then Some(dialers[fp]) else None
    {
      r := if fp in dialers then Some(dialers[fp]) else None;
    }

    method GetAvailable(fp: Fingerprint) returns (r: Option<Candidate>)
      ensures r == if fp in items && items[fp].status == Available then Some(items[fp]) else None
    {
      r := if fp in items && items[fp].status == Available then Some(items[fp]) else None;
    }

    method List() returns (out: seq<Candidate>)
      requires Valid()
      ensures out == PoolModel.List(State())
      ensures Fingerprints(out) == order
    {
      hide Normalized, NoDup;
      out := [];
      for i := 0 to |order|
        invariant |out| == i
        invariant forall j :: 0 <= j < i ==> order[j] in items && out[j] == items[order[j]]
      {
        assert order[i] in order;
        if order[i] in items {
          out := out + [items[order[i]]];
        }
      }
      RestrictAll(order, items.Keys);
    }

    predicate IsEligible(fp: Fingerprint, route: Predicate, exclude: set<Fingerprint>)
      reads this
    {
      fp !in exclude && fp in items && items[fp].status == Available && route(items[fp])
    }

    /** The cyclic probe shared by the two policies. */
    method PickMatchingExcluding(policy: string, route: Predicate, exclude: set<Fingerprint>)
      returns (r: Option<Candidate>)
      requires Valid()
      modifies this
      ensures Valid()
      ensures policy == ROUND_ROBIN ==> (State(), r) == PickRoundRobin(old(State()), route, exclude)
      ensures policy != ROUND_ROBIN ==> State() == old(State()) && RandomResult(State(), route, exclude, r)
    {
      if policy == ROUND_ROBIN {
        r := ProbeRoundRobin(route, exclude);
      } else {
        r := ProbeRandom(route, exclude);
      }
    }

    method ProbeRoundRobin(route: Predicate, exclude: set<Fingerprint>) returns (r: Option<Candidate>)
      requires Valid()
      modifies this
      ensures Valid()
      ensures (State(), r) == PickRoundRobin(old(State()), route, exclude)
    {
      hide Normalized, At, Probe;
      ghost var s := State();
      ghost var eligible := Eligible(s, route, exclude);
      for attempts := 0 to |order|
        invariant items == s.items && dialers == s.dialers && order == s.order
        invariant rr == s.rr + attempts
        invariant order != [] ==> forall p: nat :: s.rr <= p < rr ==> At(order, p) !in eligible
      {
        var fp := At(order, rr);
        rr := rr + 1;
        if IsEligible(fp, route, exclude) {
          ProbeIs(order, eligible, s.rr, s.rr + |order|, s.rr + attempts);
          return Some(items[fp]);
        }
      }
      if order != [] {
        ProbeIs(order, eligible, s.rr, s.rr + |order|, s.rr + |order|);
      }
      r := None;
    }

    method ProbeRandom(route: Predicate, exclude: set<Fingerprint>) returns (r: Option<Candidate>)
      requires Valid()
      ensures RandomResult(State(), route, exclude, r)
    {
      hide Normalized, At, Probe;
      if |order| == 0 {
        return None;
      }
      ghost var eligible := Eligible(State(), route, exclude);
      var start :| 0 <= start < |order|;
      for attempts := 0 to |order|
        invariant forall p: nat :: start <= p < start + attempts ==> At(order, p) !in eligible
      {
        var fp := At(order, start + attempts);
        if IsEligible(fp, route, exclude) {
          ProbeIs(order, eligible, start, start + |order|, start + attempts);
          assert PickFrom(State(), route, exclude, start) == Some(items[fp]);
          return Some(items[fp]);
        }
      }
      ProbeIs(order, eligible, start, start + |order|, start + |order|);
      assert PickFrom(State(), route, exclude, start) == None;
      r := None;
    }

    /** The fastest percent of the eligible candidates, then round-robin or a random draw among them. */
    method PickMatchingPercentExcluding(policy: string, route: Predicate, exclude: set<Fingerprint>, percent: int)
      returns (r: Option<Candidate>)
      requires Valid()
      modifies this
      ensures Valid()
      ensures percent >= 100 && policy == ROUND_ROBIN ==> (State(), r) == PickRoundRobin(old(State()), route, exclude)
      ensures percent >= 100 && policy != ROUND_ROBIN ==>
                State() == old(State()) && RandomResult(State(), route, exclude, r)
      ensures percent < 100 && policy == ROUND_ROBIN ==>
                (State(), r) == PickFastRoundRobin(old(State()), route, exclude, percent)
      ensures percent < 100 && policy != ROUND_ROBIN ==>
                State() == old(State()) && RandomFastResult(State(), route, exclude, percent, r)
    {
      if percent >= 100 {
        r := PickMatchingExcluding(policy, route, exclude);
      } else {
        r := PickFast(policy == ROUND_ROBIN, route, exclude, percent);
      }
    }

    method PickFast(roundRobin: bool, route: Predicate, exclude: set<Fingerprint>, percent: int)
      returns (r: Option<Candidate>)
      requires Valid()
      modifies this
      ensures Valid()
      ensures roundRobin ==> (State(), r) == PickFastRoundRobin(old(State()), route, exclude, percent)
      ensures !roundRobin ==> State() == old(State()) && RandomFastResult(State(), route, exclude, percent, r)
    {
      hide Normalized, EligibleList, SortByLatency;
      var eligible := ListEligible(route, exclude);
      if |eligible| == 0 {
        SortIsStableSort(eligible, EMPTY_CANDIDATE);
        return None;
      }
      SortIsStableSort(eligible, eligible[0]);
      eligible := SortByLatency(eligible);
      var keep := TruncDiv(|eligible| * percent, 100);
      if keep < 1 {
        keep := 1;
      }
      if keep > |eligible| {
        keep := |eligible|;
      }
      eligible := eligible[..keep];
      assert eligible == FastPool(State(), route, exclude, percent);
      if roundRobin {
        var idx := rr % |eligible|;
        rr := rr + 1;
        return Some(eligible[idx]);
      }
      var idx :| 0 <= idx < |eligible|;
      return Some(eligible[idx]);
    }

    method ListEligible(route: Predicate, exclude: set<Fingerprint>) returns (eligible: seq<Candidate>)
      requires Valid()
      ensures eligible == EligibleList(State(), route, exclude)
    {
      ghost var set' := Eligible(State(), route, exclude);
      eligible := [];
      RestrictElements(order, set');
      for i := 0 to |order|
        invariant |eligible| == |Restrict(order[..i], set')|
        invariant forall j :: 0 <= j < |eligible| ==>
                    (var fp := Restrict(order[..i], set')[j]; fp in items && eligible[j] == items[fp])
      {
        assert order[..i + 1][..i] == order[..i];
        var fp := order[i];
        if IsEligible(fp, route, exclude) {
          eligible := eligible + [items[fp]];
        }
      }
      assert order[..|order|] == order;
    }

    method MarkFailure(fp: Fingerprint, reason: string, maxFailures: int, now: Instant)
      requires Valid()
      modifies this
      ensures Valid() && State() == PoolModel.MarkFailure(old(State()), fp, reason, maxFailures, now)
    {
      hide Normalized;
      MarksKeepInv(State(), fp, reason, maxFailures, now);
      if fp !in items {
        return;
      }
      var c := items[fp].(failureCount := items[fp].failureCount + 1, lastError := reason, updatedAt := now);
      if c.failureCount >= maxFailures {
        c := c.(status := Unavailable);
      }
      items := items[fp := c];
    }

    method MarkSuccess(fp: Fingerprint, now: Instant)
      requires Valid()
      modifies this
      ensures Valid() && State() == PoolModel.MarkSuccess(old(State()), fp, now)
    {
      hide Normalized;
      MarksKeepInv(State(), fp, "", 0, now);
      if fp !in items {
        return;
      }
      var c := items[fp];
      if c.status == Available && c.failureCount > 0 {
        items := items[fp := c.(failureCount := 0, lastError := "", updatedAt := now)];
      }
    }
  }

  /** The answers a random start can lead to. */
  ghost predicate RandomResult(s: PoolState, route: Predicate, exclude: set<Fingerprint>, r: Option<Candidate>) {
    if s.order == [] then r == None
    else exists start :: 0 <= start < |s.order| && r == PickFrom(s, route, exclude, start)
  }

  ghost predicate RandomFastResult(s: PoolState, route: Predicate, exclude: set<Fingerprint>, percent: int,
                                   r: Option<Candidate>) {
    var fast := FastPool(s, route, exclude, percent);
    if fast == [] then r == None else exists i :: 0 <= i < |fast| && r == Some(fast[i])
  }

  lemma AdmitAllSnoc(items: map<Fingerprint, Candidate>, cs: seq<Candidate>, i: nat, now: Instant)
    requires i < |cs|
    ensures AdmitAll(items, cs[..i + 1], now) == AdmitAll(items, cs[..i], now) + [Admit(items, cs[i], now)]
  {
    hide Admit;
  }

  /** A map after the first r entries of the order have been swept. */
  function SweptMap<V>(m: map<Fingerprint, V>, order: seq<Fingerprint>, keep: set<Fingerprint>,
                       r: nat): map<Fingerprint, V>
    requires r <= |order|
  {
    if r == 0 then m
    else
      var before := SweptMap(m, order, keep, r - 1);
      if order[r - 1] in keep then before else before - {order[r - 1]}
  }

  /** An entry not visited yet is as it was; a visited one is there exactly if it is kept. */
  lemma {:induction false} SweptLookup<V>(m: map<Fingerprint, V>, order: seq<Fingerprint>, keep: set<Fingerprint>,
                                          r: nat, fp: Fingerprint)
    requires r <= |order|
    ensures fp in SweptMap(m, order, keep, r) <==> fp in m && (fp in keep || fp !in order[..r])
    ensures fp in SweptMap(m, order, keep, r) ==> SweptMap(m, order, keep, r)[fp] == m[fp]
  {
    if r > 0 {
      SweptLookup(m, order, keep, r - 1, fp);
      assert order[..r] == order[..r - 1] + [order[r - 1]];
    }
  }

  /** What visiting entry r does to the two maps, the compacted list and the list of resets. */
  lemma SweepStep(s: PoolState, keep: set<Fingerprint>, r: nat)
    requires Inv(s) && r < |s.order|
    ensures var fp := s.order[r];
            var items, dialers := SweptMap(s.items, s.order, keep, r), SweptMap(s.dialers, s.order, keep, r);
            && fp in s.items && fp in items && items[fp] == s.items[fp]
            && (fp in dialers <==> fp in s.dialers) && (fp in dialers ==> dialers[fp] == s.dialers[fp])
            && SweptMap(s.items, s.order, keep, r + 1) == (if fp in keep then items else items - {fp})
            && SweptMap(s.dialers, s.order, keep, r + 1) == (if fp in keep then dialers else dialers - {fp})
            && Restrict(s.order[..r + 1], keep) == Restrict(s.order[..r], keep) + (if fp in keep then [fp] else [])
            && DroppedDialers(s.order[..r + 1], keep, s.dialers) ==
               DroppedDialers(s.order[..r], keep, s.dialers)
               + (if fp !in keep && fp in s.dialers then [s.dialers[fp]] else [])
  {
    hide Normalized;
    var fp := s.order[r];
    assert fp in s.order && fp !in s.order[..r];
    assert s.order[..r + 1][..r] == s.order[..r];
    SweptLookup(s.items, s.order, keep, r, fp);
    SweptLookup(s.dialers, s.order, keep, r, fp);
    var before := Restrict(s.order[..r], keep);
    assert before + [] == before;
  }

  lemma SurvivorsAt(s: PoolState, seen: set<Fingerprint>, replace: Predicate, fp: Fingerprint)
    requires fp in s.items
    ensures fp in Survivors(s, seen, Some(replace)) <==> !(replace(s.items[fp]) && fp !in seen)
  {
  }

  lemma PrefixNone(s: PoolState, keep: set<Fingerprint>)
    ensures Restrict(s.order[..0], keep) == [] && DroppedDialers(s.order[..0], keep, s.dialers) == []
    ensures SweptMap(s.items, s.order, keep, 0) == s.items && SweptMap(s.dialers, s.order, keep, 0) == s.dialers
  {
  }

  lemma SweptAll(s: PoolState, seen: set<Fingerprint>, replace: Option<Predicate>)
    requires Inv(s)
    ensures var keep := Survivors(s, seen, replace);
            Sweep(s, seen, replace) == PoolState(SweptMap(s.items, s.order, keep, |s.order|),
                                                 SweptMap(s.dialers, s.order, keep, |s.order|),
                                                 Restrict(s.order, keep), s.rr)
  {
    hide Normalized, Survivors, SweptMap;
    var keep, n := Survivors(s, seen, replace), |s.order|;
    assert s.order[..n] == s.order;
    forall fp
      ensures fp in SweptMap(s.items, s.order, keep, n) <==> fp in s.items && (fp in keep || fp !in s.order)
      ensures fp in SweptMap(s.items, s.order, keep, n) ==> SweptMap(s.items, s.order, keep, n)[fp] == s.items[fp]
      ensures fp in SweptMap(s.dialers, s.order, keep, n) <==> fp in s.dialers && (fp in keep || fp !in s.order)
      ensures fp in SweptMap(s.dialers, s.order, keep, n) ==> SweptMap(s.dialers, s.order, keep, n)[fp] == s.dialers[fp]
    {
      SweptLookup(s.items, s.order, keep, n, fp);
      SweptLookup(s.dialers, s.order, keep, n, fp);
    }
    var dropped := s.items.Keys - keep;
    assert s.items - dropped == SweptMap(s.items, s.order, keep, n);
    assert s.dialers - dropped == SweptMap(s.dialers, s.order, keep, n);
  }

  /** Exactly the entries that are gone have their dialers reset. */
  lemma ResetsAre(s: PoolState, cs: seq<Candidate>, newDialers: map<Fingerprint, DialerId>, replace: Option<Predicate>,
                  now: Instant)
    requires Inv(s)
    ensures var reset := DroppedDialers(s.order, Survivors(s, FingerprintSet(AdmitAll(s.items, cs, now)), replace),
                                        s.dialers);
            var t := ReplaceMatching(s, cs, newDialers, replace, now);
            var gone := set fp | fp in s.items && fp !in t.items && fp in s.dialers;
            && |reset| == |gone|
            && forall d :: d in reset <==> exists fp :: fp in gone && s.dialers[fp] == d
  {
    hide Normalized, Restrict, FirstOccurrences, DroppedDialers, ReplaceMatching, Normalize, Admit, Survivors;
    ReplaceMatchingShape(s, cs, newDialers, replace, now);
    AdmitAllNormalized(s.items, cs, now);
    var fps := Fingerprints(AdmitAll(s.items, cs, now));
    SurvivorsAre(s, fps, replace);
    var keep := Survivors(s, Elements(fps), replace);
    DroppedDialersAre(s.order, keep, s.dialers);
    var t := ReplaceMatching(s, cs, newDialers, replace, now);
    assert Gone(s.order, keep, s.dialers) ==
           set fp | fp in s.items && fp !in t.items && fp in s.dialers;
  }

  lemma {:induction false} NothingDropped(order: seq<Fingerprint>, keep: set<Fingerprint>,
                                          dialers: map<Fingerprint, DialerId>)
    requires forall fp :: fp in order ==> fp in keep
    ensures DroppedDialers(order, keep, dialers) == []
  {
    if order != [] { NothingDropped(order[..|order| - 1], keep, dialers); }
  }
}
