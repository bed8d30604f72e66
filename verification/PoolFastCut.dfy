/** The "fastest N percent" cut: its order, its bound, and how round-robin walks it. */
module PoolFastCut {
  import opened Collections
  import opened Text
  import opened Candidates
  import opened PoolModel
  import opened PoolFairness

  /** Faster is a strict weak order: the lower of two measured latencies first, and candidates without a measurement
      last, none before another. */
  lemma FasterIsStrictWeakOrder(a: Candidate, b: Candidate, c: Candidate)
    ensures !Faster(a, a)
    ensures Faster(a, b) && Faster(b, c) ==> Faster(a, c)
    ensures !Faster(a, b) && !Faster(b, c) ==> !Faster(a, c)
    ensures a.latency > 0 && b.latency <= 0 ==> Faster(a, b)
    ensures a.latency <= 0 ==> !Faster(a, b)
    ensures a.latency > 0 && b.latency > 0 ==> (Faster(a, b) <==> a.latency < b.latency)
  {
  }

  ghost predicate Ordered(cs: seq<Candidate>) {
    forall i, j :: 0 <= i < j < |cs| ==>
      cs[j].latency <= 0 || (0 < cs[i].latency <= cs[j].latency)
  }

  /** The candidates of one latency class, in their order. */
  function Class(cs: seq<Candidate>, like: Candidate): seq<Candidate> {
    if cs == [] then []
    else (if Faster(cs[0], like) || Faster(like, cs[0]) then [] else [cs[0]]) + Class(cs[1..], like)
  }

  lemma OrderedFront(x: Candidate, cs: seq<Candidate>)
    requires Ordered(cs)
    requires forall y :: y in cs ==> y.latency <= 0 || 0 < x.latency <= y.latency
    ensures Ordered([x] + cs)
  {
    forall i, j | 0 <= i < j < |cs| + 1
      ensures ([x] + cs)[j].latency <= 0 || 0 < ([x] + cs)[i].latency <= ([x] + cs)[j].latency
    {
      assert cs[j - 1] in cs;
    }
  }

  lemma OrderedTail(cs: seq<Candidate>)
    requires Ordered(cs) && cs != []
    ensures Ordered(cs[1..])
    ensures forall y :: y in cs ==> y.latency <= 0 || 0 < cs[0].latency <= y.latency
  {
  }

  lemma {:induction false} InsertKeeps(c: Candidate, cs: seq<Candidate>)
    ensures multiset(InsertByLatency(c, cs)) == multiset{c} + multiset(cs)
    ensures forall y :: y in InsertByLatency(c, cs) ==> y == c || y in cs
  {
    hide Faster;
    if cs != [] {
      InsertKeeps(c, cs[1..]);
      assert cs == [cs[0]] + cs[1..];
    }
  }

  lemma {:induction false} InsertSorts(c: Candidate, cs: seq<Candidate>)
    requires Ordered(cs)
    ensures Ordered(InsertByLatency(c, cs))
  {
    if cs != [] {
      OrderedTail(cs);
      hide Ordered;
      if !Faster(cs[0], c) {
        OrderedFront(c, cs);
      } else {
        InsertSorts(c, cs[1..]);
        InsertKeeps(c, cs[1..]);
        OrderedFront(cs[0], InsertByLatency(c, cs[1..]));
      }
    }
  }

  lemma {:induction false} InsertStable(c: Candidate, cs: seq<Candidate>, like: Candidate)
    ensures Class(InsertByLatency(c, cs), like) == Class([c] + cs, like)
  {
    assert ([c] + cs)[1..] == cs;
    if cs != [] && Faster(cs[0], c) {
      InsertStable(c, cs[1..], like);
      assert ([c] + cs[1..])[1..] == cs[1..];
    }
  }

  /** What the library's stable sort promises: same candidates, fastest first, ties in their old order. */
  lemma {:induction false} SortIsStableSort(cs: seq<Candidate>, like: Candidate)
    ensures Ordered(SortByLatency(cs))
    ensures multiset(SortByLatency(cs)) == multiset(cs)
    ensures |SortByLatency(cs)| == |cs|
    ensures Class(SortByLatency(cs), like) == Class(cs, like)
  {
    if cs != [] {
      SortIsStableSort(cs[1..], like);
      var rest := SortByLatency(cs[1..]);
      InsertSorts(cs[0], rest);
      InsertKeeps(cs[0], rest);
      InsertStable(cs[0], rest, like);
      assert cs == [cs[0]] + cs[1..];
      assert ([cs[0]] + rest)[1..] == rest;
      assert |multiset(SortByLatency(cs))| == |multiset(cs)|;
    }
  }

  /** The eligible candidates, as the cut lists them. */
  lemma EligibleListElements(s: PoolState, route: Predicate, exclude: set<Fingerprint>)
    requires Inv(s)
    ensures var list := EligibleList(s, route, exclude);
            && NoDup(list)
            && (forall c :: c in list <==> exists fp :: fp in Eligible(s, route, exclude) && s.items[fp] == c)
            && |list| == |Eligible(s, route, exclude)|
  {
    hide Normalized;
    var eligible := Eligible(s, route, exclude);
    var fps := Restrict(s.order, eligible);
    RestrictElements(s.order, eligible);
    var list := EligibleList(s, route, exclude);
    forall c ensures c in list <==> exists fp :: fp in eligible && s.items[fp] == c {
      if c in list {
        var i :| 0 <= i < |list| && list[i] == c;
        assert fps[i] in fps;
      }
      if fp :| fp in eligible && s.items[fp] == c {
        assert fp in fps;
        var i :| 0 <= i < |fps| && fps[i] == fp;
        assert list[i] == c;
      }
    }
    forall i, j | 0 <= i < j < |list| ensures list[i] != list[j] {
      assert fps[i] in fps && fps[j] in fps;
    }
    assert Elements(fps) == eligible;
    DistinctCount(fps);
  }

  lemma {:induction false} DistinctCount<T>(s: seq<T>)
    requires NoDup(s)
    ensures |Elements(s)| == |s|
  {
    if s != [] {
      ElementsSnoc(s);
      DistinctCount(s[..|s| - 1]);
    } else {
      assert Elements(s) == {};
    }
  }

  /** The strictly faster eligible rivals of a candidate. */
  ghost function Rivals(s: PoolState, route: Predicate, exclude: set<Fingerprint>, c: Candidate): set<Fingerprint> {
    set fp | && fp in Eligible(s, route, exclude) && 0 < s.items[fp].latency
             && (c.latency <= 0 || s.items[fp].latency < c.latency)
  }

  lemma ElementsBound<T>(s: seq<T>)
    ensures |Elements(s)| <= |s|
  {
    if s != [] {
      ElementsSnoc(s);
      ElementsBound(s[..|s| - 1]);
    } else {
      assert Elements(s) == {};
    }
  }

  lemma SubsetSize<T>(a: set<T>, b: set<T>)
    requires a <= b
    ensures |a| <= |b|
  {
    assert b == a + (b - a);
  }

  /** Every kept candidate has fewer faster rivals than candidates are kept. */
  lemma KeptIsFast(s: PoolState, route: Predicate, exclude: set<Fingerprint>, percent: int, i: nat)
    requires Inv(s) && i < |FastPool(s, route, exclude, percent)|
    ensures var c := FastPool(s, route, exclude, percent)[i];
            && c.fingerprint in Eligible(s, route, exclude) && s.items[c.fingerprint] == c
            && |Rivals(s, route, exclude, c)| <= i
  {
    hide Normalized, Eligible, Keep, SortByLatency, EligibleList, Faster;
    var list := EligibleList(s, route, exclude);
    var sorted := SortByLatency(list);
    EligibleListElements(s, route, exclude);
    EligibleInOrder(s, route, exclude);
    SortIsStableSort(list, EMPTY_CANDIDATE);
    SameElements(sorted, list);
    var c := FastPool(s, route, exclude, percent)[i];
    assert c == sorted[i] && c in sorted;
    var ahead := Fingerprints(sorted[..i]);
    forall fp | fp in Rivals(s, route, exclude, c) ensures fp in Elements(ahead) {
      assert s.items[fp] in sorted;
      var j :| 0 <= j < |sorted| && sorted[j] == s.items[fp];
      FasterIsStrictWeakOrder(c, c, c);
      assert j < i;
      assert ahead[j] == fp;
    }
    ElementsBound(ahead);
    SubsetSize(Rivals(s, route, exclude, c), Elements(ahead));
  }

  lemma SameElements<T(!new)>(a: seq<T>, b: seq<T>)
    requires multiset(a) == multiset(b)
    ensures forall x :: x in a <==> x in b
  {
    forall x ensures x in a <==> x in b {
      assert x in a <==> x in multiset(a);
      assert x in b <==> x in multiset(b);
    }
  }

  /** How many candidates the cut keeps: the percentage rounded down, but at least one. */
  lemma KeepSize(s: PoolState, route: Predicate, exclude: set<Fingerprint>, percent: int)
    requires Inv(s) && 1 <= percent < 100
    ensures var k := |Eligible(s, route, exclude)|;
            var bound := if k * percent / 100 < 1 then 1 else k * percent / 100;
            |FastPool(s, route, exclude, percent)| == if k == 0 then 0 else bound
  {
    hide Normalized, Eligible, SortByLatency, EligibleList;
    EligibleListElements(s, route, exclude);
    var list := EligibleList(s, route, exclude);
    if list != [] {
      SortIsStableSort(list, list[0]);
      KeepIs(|list|, percent);
    } else {
      SortIsStableSort(list, EMPTY_CANDIDATE);
    }
  }

  const EMPTY_CANDIDATE := Candidate(NotComputed, "", "", 0, "", "", "", "", NoStatus, 0, 0, 0, "", map[], 0, 0)

  lemma KeepIs(k: nat, percent: int)
    requires k > 0 && 1 <= percent < 100
    ensures Keep(k, percent) == if k * percent / 100 < 1 then 1 else k * percent / 100
  {
    var x := k * percent;
    assert 0 <= x <= 100 * k by {
      MulMono(percent, 100, k);
      MulMono(0, percent, k);
    }
    assert TruncDiv(x, 100) == x / 100 <= k;
  }

  /** The cut's promise: whatever round-robin or random position it picks, the candidate is eligible and has fewer
      than max(1, floor(k * percent / 100)) strictly faster eligible rivals; it is unmeasured only when fewer
      measured candidates than that are eligible. */
  lemma FastPickIsFast(s: PoolState, route: Predicate, exclude: set<Fingerprint>, percent: int, i: nat)
    requires Inv(s) && 1 <= percent < 100
    requires i < |FastPool(s, route, exclude, percent)|
    ensures var k := |Eligible(s, route, exclude)|;
            var bound := if k * percent / 100 < 1 then 1 else k * percent / 100;
            var c := FastPool(s, route, exclude, percent)[i];
            && c.fingerprint in Eligible(s, route, exclude) && s.items[c.fingerprint] == c
            && |Rivals(s, route, exclude, c)| < bound
            && (c.latency <= 0 ==> |set fp | fp in Eligible(s, route, exclude) && s.items[fp].latency > 0| < bound)
  {
    hide Normalized, Eligible, FastPool;
    KeptIsFast(s, route, exclude, percent, i);
    KeepSize(s, route, exclude, percent);
    EligibleInOrder(s, route, exclude);
    var c := FastPool(s, route, exclude, percent)[i];
    if c.latency <= 0 {
      assert Rivals(s, route, exclude, c) ==
             set fp | fp in Eligible(s, route, exclude) && s.items[fp].latency > 0;
    }
  }

  // --------------------------------------------------- walking a fixed cut

  function FastAfter(s: PoolState, route: Predicate, exclude: set<Fingerprint>, percent: int, i: nat): PoolState {
    if i == 0 then s
    else PickFastRoundRobin(FastAfter(s, route, exclude, percent, i - 1), route, exclude, percent).0
  }

  function FastNth(s: PoolState, route: Predicate, exclude: set<Fingerprint>, percent: int, i: nat): Option<Candidate> {
    PickFastRoundRobin(FastAfter(s, route, exclude, percent, i), route, exclude, percent).1
  }

  lemma FastPoolIgnoresCursor(s: PoolState, rr: nat, route: Predicate, exclude: set<Fingerprint>, percent: int)
    requires Inv(s)
    ensures FastPool(s.(rr := rr), route, exclude, percent) == FastPool(s, route, exclude, percent)
  {
    hide Normalized, Keep;
    EligibleIgnoresCursor(s, rr, route, exclude);
    assert EligibleList(s.(rr := rr), route, exclude) == EligibleList(s, route, exclude);
  }

  lemma {:induction false} FastNthIs(s: PoolState, route: Predicate, exclude: set<Fingerprint>, percent: int, i: nat)
    requires Inv(s) && FastPool(s, route, exclude, percent) != []
    ensures FastAfter(s, route, exclude, percent, i) == s.(rr := s.rr + i)
    ensures var fast := FastPool(s, route, exclude, percent);
            FastNth(s, route, exclude, percent, i) == Some(fast[(s.rr + i) % |fast|])
  {
    hide Normalized, FastPool;
    if i > 0 { FastNthIs(s, route, exclude, percent, i - 1); }
    FastPoolIgnoresCursor(s, s.rr + i, route, exclude, percent);
    if i > 0 { FastPoolIgnoresCursor(s, s.rr + i - 1, route, exclude, percent); }
  }

  /** A round-robin pick from the cut moves the cursor by one and goes down the ranks: what it returns has at most as
      many faster rivals as the cursor leaves behind it in this round, so every round starts with a fastest one. */
  lemma FastCursorPick(s: PoolState, route: Predicate, exclude: set<Fingerprint>, percent: int)
    requires Inv(s) && 1 <= percent < 100 && Eligible(s, route, exclude) != {}
    ensures var k := |Eligible(s, route, exclude)|;
            var kept := if k * percent / 100 < 1 then 1 else k * percent / 100;
            var (t, r) := PickFastRoundRobin(s, route, exclude, percent);
            && t == s.(rr := s.rr + 1)
            && r.Some? && r.value.fingerprint in Eligible(s, route, exclude) && s.items[r.value.fingerprint] == r.value
            && |Rivals(s, route, exclude, r.value)| <= s.rr % kept
  {
    hide Normalized, Eligible, FastPool, Rivals;
    KeepSize(s, route, exclude, percent);
    assert |Eligible(s, route, exclude)| > 0;
    var n := |FastPool(s, route, exclude, percent)|;
    KeptIsFast(s, route, exclude, percent, s.rr % n);
  }

  /** With nothing eligible the cursor stays. */
  lemma NoFastPick(s: PoolState, route: Predicate, exclude: set<Fingerprint>, percent: int)
    requires Inv(s) && Eligible(s, route, exclude) == {}
    ensures PickFastRoundRobin(s, route, exclude, percent) == (s, None)
  {
    hide Normalized, Eligible, SortByLatency, EligibleList;
    EligibleListElements(s, route, exclude);
    SortIsStableSort(EligibleList(s, route, exclude), EMPTY_CANDIDATE);
  }

  lemma FastPoolDistinct(s: PoolState, route: Predicate, exclude: set<Fingerprint>, percent: int)
    requires Inv(s)
    ensures NoDup(FastPool(s, route, exclude, percent))
  {
    hide Normalized, Eligible, Keep;
    EligibleListElements(s, route, exclude);
    var list := EligibleList(s, route, exclude);
    var sorted := SortByLatency(list);
    if list != [] {
      SortIsStableSort(list, list[0]);
      NoDupMultiset(list);
      MultisetNoDup(sorted);
    }
  }

  /** On a fixed pool, as many consecutive round-robin picks as the cut keeps visit every kept candidate exactly
      once. */
  lemma FastPicksVisitAll(s: PoolState, route: Predicate, exclude: set<Fingerprint>, percent: int, i: nat)
    requires Inv(s) && FastPool(s, route, exclude, percent) != []
    ensures var fast := FastPool(s, route, exclude, percent);
            && (forall j, m :: i <= j < m < i + |fast| ==>
                  FastNth(s, route, exclude, percent, j) != FastNth(s, route, exclude, percent, m))
            && (forall c :: c in fast ==>
                  exists j :: i <= j < i + |fast| && FastNth(s, route, exclude, percent, j) == Some(c))
  {
    hide Normalized, FastPool, FastNth;
    var n := |FastPool(s, route, exclude, percent)|;
    forall j, m | i <= j < m < i + n
      ensures FastNth(s, route, exclude, percent, j) != FastNth(s, route, exclude, percent, m)
    {
      FastPicksDiffer(s, route, exclude, percent, j, m);
    }
    forall c | c in FastPool(s, route, exclude, percent)
      ensures exists j :: i <= j < i + n && FastNth(s, route, exclude, percent, j) == Some(c)
    {
      var x :| 0 <= x < n && FastPool(s, route, exclude, percent)[x] == c;
      var j := FastPickReaches(s, route, exclude, percent, i, x);
    }
  }

  lemma FastPickReaches(s: PoolState, route: Predicate, exclude: set<Fingerprint>, percent: int, i: nat, x: nat)
    returns (j: nat)
    requires Inv(s) && x < |FastPool(s, route, exclude, percent)|
    ensures i <= j < i + |FastPool(s, route, exclude, percent)|
    ensures FastNth(s, route, exclude, percent, j) == Some(FastPool(s, route, exclude, percent)[x])
  {
    hide Normalized, FastPool, FastNth;
    var q := ModReach(s.rr + i, x, |FastPool(s, route, exclude, percent)|);
    j := q - s.rr;
    FastNthIs(s, route, exclude, percent, j);
  }

  lemma FastPicksDiffer(s: PoolState, route: Predicate, exclude: set<Fingerprint>, percent: int, j: nat, m: nat)
    requires Inv(s) && j < m < j + |FastPool(s, route, exclude, percent)|
    ensures FastNth(s, route, exclude, percent, j) != FastNth(s, route, exclude, percent, m)
  {
    hide Normalized, FastPool, FastNth;
    FastPoolDistinct(s, route, exclude, percent);
    FastNthIs(s, route, exclude, percent, j);
    FastNthIs(s, route, exclude, percent, m);
    ModApart(s.rr + j, s.rr + m, |FastPool(s, route, exclude, percent)|);
  }
}
