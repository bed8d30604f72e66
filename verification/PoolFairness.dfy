/** Round-robin fairness of the pool's cyclic probe, and reachability under the random policy. */
module PoolFairness {
  import opened Collections
  import opened Text
  import opened Candidates
  import opened PoolModel

  // ------------------------------------------------- counting on the cycle

  lemma ModUnique(x: int, n: int, q: int, r: int)
    requires n > 0 && 0 <= r < n && x == q * n + r
    ensures x % n == r && x / n == q
  {
    var q', r' := x / n, x % n;
    assert x == q' * n + r';
    if q' > q {
      assert (q' - q) * n >= n by { MulMono(1, q' - q, n); }
    } else if q' < q {
      assert (q - q') * n >= n by { MulMono(1, q - q', n); }
    }
  }

  lemma MulMono(a: int, b: int, n: int)
    requires a <= b && n > 0
    ensures a * n <= b * n
  {
  }

  lemma ModPeriod(p: nat, n: nat)
    requires n > 0
    ensures (p + n) % n == p % n
  {
    assert p == (p / n) * n + p % n;
    assert p + n == (p / n + 1) * n + p % n;
    ModUnique(p + n, n, p / n + 1, p % n);
  }

  /** Positions less than one lap apart lie on different entries. */
  lemma ModApart(p: nat, q: nat, n: nat)
    requires n > 0 && p < q < p + n
    ensures p % n != q % n
  {
    if p % n == q % n {
      assert q - p == (q / n - p / n) * n;
      var d := q / n - p / n;
      if d >= 1 { MulMono(1, d, n); } else { MulMono(d, 0, n); }
      assert false;
    }
  }

  /** Some position in the lap that starts at p falls on entry i. */
  lemma ModReach(p: nat, i: nat, n: nat) returns (q: nat)
    requires i < n
    ensures p <= q < p + n && q % n == i
  {
    var r := p % n;
    assert p == (p / n) * n + r;
    if r <= i {
      q := p + (i - r);
      ModUnique(q, n, p / n, i);
    } else {
      q := p + (n - r + i);
      assert q == (p / n + 1) * n + i;
      ModUnique(q, n, p / n + 1, i);
    }
  }

  lemma AtSmall(order: seq<Fingerprint>, p: nat)
    requires p < |order|
    ensures At(order, p) == order[p]
  {
    ModUnique(p, |order|, 0, p);
  }

  lemma AtPeriod(order: seq<Fingerprint>, p: nat)
    requires order != []
    ensures At(order, p + |order|) == At(order, p)
  {
    ModPeriod(p, |order|);
  }

  lemma AtApart(order: seq<Fingerprint>, p: nat, q: nat)
    requires order != [] && NoDup(order) && p < q < p + |order|
    ensures At(order, p) != At(order, q)
  {
    ModApart(p, q, |order|);
  }

  lemma AtReach(order: seq<Fingerprint>, p: nat, fp: Fingerprint) returns (q: nat)
    requires fp in order
    ensures p <= q < p + |order| && At(order, q) == fp
  {
    var i :| 0 <= i < |order| && order[i] == fp;
    q := ModReach(p, i, |order|);
  }

  predicate Good(order: seq<Fingerprint>, eligible: set<Fingerprint>, p: nat)
    requires order != []
  {
    At(order, p) in eligible
  }

  /** The number of eligible positions in [a, b). */
  function Count(order: seq<Fingerprint>, eligible: set<Fingerprint>, a: nat, b: nat): nat
    requires order != [] && a <= b
    decreases b
  {
    if a == b then 0 else Count(order, eligible, a, b - 1) + (if Good(order, eligible, b - 1) then 1 else 0)
  }

  lemma {:induction false} CountSplit(order: seq<Fingerprint>, eligible: set<Fingerprint>, a: nat, b: nat, c: nat)
    requires order != [] && a <= b <= c
    ensures Count(order, eligible, a, c) == Count(order, eligible, a, b) + Count(order, eligible, b, c)
    decreases c
  {
    hide At;
    if b < c { CountSplit(order, eligible, a, b, c - 1); }
  }

  /** Every lap holds the same number of eligible positions, wherever it starts. */
  lemma {:induction false} CountLap(order: seq<Fingerprint>, eligible: set<Fingerprint>, a: nat)
    requires order != []
    ensures Count(order, eligible, a, a + |order|) == Count(order, eligible, 0, |order|)
  {
    hide At;
    if a > 0 {
      var n := |order|;
      CountLap(order, eligible, a - 1);
      CountSplit(order, eligible, a - 1, a, a + n);
      assert Count(order, eligible, a - 1, a - 1) == 0;
      AtPeriod(order, a - 1);
      assert Good(order, eligible, a - 1 + n) == Good(order, eligible, a - 1);
    }
  }

  /** On a duplicate-free order, a lap holds each eligible entry once. */
  lemma CountIsSize(order: seq<Fingerprint>, eligible: set<Fingerprint>)
    requires order != [] && NoDup(order)
    requires forall fp :: fp in eligible ==> fp in order
    ensures Count(order, eligible, 0, |order|) == |eligible|
  {
    CountPrefix(order, eligible, |order|);
    assert order[..|order|] == order;
    assert eligible * Elements(order) == eligible;
  }

  lemma MeetsOneMore(eligible: set<Fingerprint>, before: set<Fingerprint>, x: Fingerprint)
    requires x !in before
    ensures |eligible * (before + {x})| == |eligible * before| + if x in eligible then 1 else 0
  {
    if x in eligible {
      assert eligible * (before + {x}) == (eligible * before) + {x};
    } else {
      assert eligible * (before + {x}) == eligible * before;
    }
  }

  lemma {:induction false} CountPrefix(order: seq<Fingerprint>, eligible: set<Fingerprint>, b: nat)
    requires order != [] && NoDup(order) && b <= |order|
    ensures Count(order, eligible, 0, b) == |eligible * Elements(order[..b])|
  {
    hide At;
    if b == 0 {
      assert eligible * Elements(order[..0]) == {};
    } else {
      CountPrefix(order, eligible, b - 1);
      var x := order[b - 1];
      assert x !in Elements(order[..b - 1]);
      hide Elements, NoDup;
      assert order[..b][..b - 1] == order[..b - 1];
      ElementsSnoc(order[..b]);
      AtSmall(order, b - 1);
      MeetsOneMore(eligible, Elements(order[..b - 1]), x);
    }
  }

  // ---------------------------------------------------- where picks land

  lemma {:induction false} CountPositive(order: seq<Fingerprint>, eligible: set<Fingerprint>, a: nat, b: nat)
    requires order != [] && a <= b
    ensures Count(order, eligible, a, b) > 0 <==> exists p: nat :: a <= p < b && Good(order, eligible, p)
    decreases b
  {
    hide At;
    if a < b {
      CountPositive(order, eligible, a, b - 1);
      if Good(order, eligible, b - 1) { assert a <= b - 1 < b; }
    }
  }

  /** The probe from r succeeds when anything is eligible. */
  lemma ProbeFinds(order: seq<Fingerprint>, eligible: set<Fingerprint>, r: nat)
    requires order != []
    ensures Probe(order, eligible, r, r + |order|).Some? <==> Count(order, eligible, 0, |order|) > 0
  {
    hide At;
    CountLap(order, eligible, r);
    CountPositive(order, eligible, r, r + |order|);
    var res := Probe(order, eligible, r, r + |order|);
    if res.Some? { assert Good(order, eligible, res.value); }
  }

  lemma ProbeSkipsNothing(order: seq<Fingerprint>, eligible: set<Fingerprint>, from: nat)
    requires order != [] && Count(order, eligible, 0, |order|) > 0
    ensures var r := Probe(order, eligible, from, from + |order|);
            r.Some? && Good(order, eligible, r.value) && Count(order, eligible, from, r.value) == 0
  {
    hide At;
    ProbeFinds(order, eligible, from);
    CountPositive(order, eligible, from, Probe(order, eligible, from, from + |order|).value);
  }

  function Next(order: seq<Fingerprint>, eligible: set<Fingerprint>, from: nat): (p: nat)
    requires order != [] && Count(order, eligible, 0, |order|) > 0
    ensures p >= from && Good(order, eligible, p)
    ensures Probe(order, eligible, from, from + |order|) == Some(p)
  {
    ProbeSkipsNothing(order, eligible, from);
    Probe(order, eligible, from, from + |order|).value
  }

  /** The position the i-th consecutive pick lands on, starting from cursor r. */
  function Landing(order: seq<Fingerprint>, eligible: set<Fingerprint>, r: nat, i: nat): (p: nat)
    requires order != [] && Count(order, eligible, 0, |order|) > 0
    ensures p >= r && Good(order, eligible, p)
  {
    Next(order, eligible, if i == 0 then r else Landing(order, eligible, r, i - 1) + 1)
  }

  /** No eligible position is skipped: the i-th landing has exactly i eligible positions behind it. */
  lemma {:induction false} LandingCount(order: seq<Fingerprint>, eligible: set<Fingerprint>, r: nat, i: nat)
    requires order != [] && Count(order, eligible, 0, |order|) > 0
    ensures Count(order, eligible, r, Landing(order, eligible, r, i)) == i
  {
    hide At, Probe, Good;
    var from := if i == 0 then r else Landing(order, eligible, r, i - 1) + 1;
    var p := Landing(order, eligible, r, i);
    assert p == Next(order, eligible, from);
    ProbeSkipsNothing(order, eligible, from);
    CountSplit(order, eligible, r, from, p);
    if i > 0 {
      LandingCount(order, eligible, r, i - 1);
      assert Good(order, eligible, from - 1);
    }
  }

  /** An eligible position is known by the number of eligible positions behind it. */
  lemma LandingUnique(order: seq<Fingerprint>, eligible: set<Fingerprint>, r: nat, p: nat, q: nat)
    requires order != [] && r <= p && r <= q
    requires Good(order, eligible, p) && Good(order, eligible, q)
    requires Count(order, eligible, r, p) == Count(order, eligible, r, q)
    ensures p == q
  {
    hide At;
    if p < q {
      CountSplit(order, eligible, r, p, q);
      CountPositive(order, eligible, p, q);
    } else if q < p {
      CountSplit(order, eligible, r, q, p);
      CountPositive(order, eligible, q, p);
    }
  }

  /** One lap further on, the landings repeat. */
  lemma LandingLap(order: seq<Fingerprint>, eligible: set<Fingerprint>, r: nat, i: nat)
    requires order != [] && Count(order, eligible, 0, |order|) > 0
    ensures var k := Count(order, eligible, 0, |order|);
            Landing(order, eligible, r, i + k) == Landing(order, eligible, r, i) + |order|
  {
    hide At, Landing, Next, Probe, Count;
    var k, n := Count(order, eligible, 0, |order|), |order|;
    var p, q := Landing(order, eligible, r, i), Landing(order, eligible, r, i + k);
    LandingCount(order, eligible, r, i);
    LandingCount(order, eligible, r, i + k);
    CountSplit(order, eligible, r, p, p + n);
    CountLap(order, eligible, p);
    AtPeriod(order, p);
    assert Good(order, eligible, p + n);
    LandingUnique(order, eligible, r, p + n, q);
  }

  lemma LandingIncreases(order: seq<Fingerprint>, eligible: set<Fingerprint>, r: nat, i: nat, j: nat)
    requires order != [] && Count(order, eligible, 0, |order|) > 0
    requires i < j
    ensures Landing(order, eligible, r, i) < Landing(order, eligible, r, j)
  {
    hide At;
    LandingCount(order, eligible, r, i);
    LandingCount(order, eligible, r, j);
    var p, q := Landing(order, eligible, r, i), Landing(order, eligible, r, j);
    if q <= p {
      CountSplit(order, eligible, r, q, p);
    }
  }

  // ------------------------------------------------- runs of picks on a pool

  /** The pool after i round-robin picks with nothing else happening. */
  function After(s: PoolState, route: Predicate, exclude: set<Fingerprint>, i: nat): PoolState {
    if i == 0 then s else PickRoundRobin(After(s, route, exclude, i - 1), route, exclude).0
  }

  /** What the i-th of consecutive round-robin picks returns, counting from 0. */
  function Nth(s: PoolState, route: Predicate, exclude: set<Fingerprint>, i: nat): Option<Candidate> {
    PickRoundRobin(After(s, route, exclude, i), route, exclude).1
  }

  lemma EligibleInOrder(s: PoolState, route: Predicate, exclude: set<Fingerprint>)
    requires Inv(s)
    ensures forall fp :: fp in Eligible(s, route, exclude) ==> fp in s.order && fp in s.items
    ensures s.order != [] ==>
              Count(s.order, Eligible(s, route, exclude), 0, |s.order|) == |Eligible(s, route, exclude)|
    ensures s.order == [] ==> Eligible(s, route, exclude) == {}
  {
    hide Normalized, At;
    if s.order != [] { CountIsSize(s.order, Eligible(s, route, exclude)); }
  }

  /** Picks move the cursor and nothing else, and the i-th returns the candidate at its landing. */
  lemma {:induction false} NthLanding(s: PoolState, route: Predicate, exclude: set<Fingerprint>, i: nat)
    requires Inv(s) && Eligible(s, route, exclude) != {}
    ensures && s.order != []
            && Count(s.order, Eligible(s, route, exclude), 0, |s.order|) == |Eligible(s, route, exclude)| > 0
    ensures var p := Landing(s.order, Eligible(s, route, exclude), s.rr, i);
            && At(s.order, p) in s.items
            && s.items[At(s.order, p)].fingerprint == At(s.order, p)
            && Nth(s, route, exclude, i) == Some(s.items[At(s.order, p)])
            && After(s, route, exclude, i + 1) == s.(rr := p + 1)
  {
    hide Normalized, NoDup, At, Probe, Count, Good, Eligible, PickRoundRobin;
    var eligible := Eligible(s, route, exclude);
    EligibleInOrder(s, route, exclude);
    assert |eligible| > 0;
    var from := if i == 0 then s.rr else Landing(s.order, eligible, s.rr, i - 1) + 1;
    if i > 0 { NthLanding(s, route, exclude, i - 1); }
    var t := After(s, route, exclude, i);
    assert t == s.(rr := from);
    var p := Landing(s.order, eligible, s.rr, i);
    assert p == Next(s.order, eligible, from);
    hide Landing, Next, Inv;
    EligibleIgnoresCursor(s, from, route, exclude);
    PickLands(s, t, route, exclude, p);
  }

  /** One pick from a pool that differs from s in its cursor only. */
  lemma PickLands(s: PoolState, t: PoolState, route: Predicate, exclude: set<Fingerprint>, p: nat)
    requires Inv(s) && t == s.(rr := t.rr) && s.order != []
    requires Probe(s.order, Eligible(s, route, exclude), t.rr, t.rr + |s.order|) == Some(p)
    ensures At(s.order, p) in s.items && s.items[At(s.order, p)].fingerprint == At(s.order, p)
    ensures PickRoundRobin(t, route, exclude) == (s.(rr := p + 1), Some(s.items[At(s.order, p)]))
  {
    hide Normalized, At;
    EligibleIgnoresCursor(s, t.rr, route, exclude);
    EligibleInOrder(s, route, exclude);
  }

  lemma EligibleIgnoresCursor(s: PoolState, rr: nat, route: Predicate, exclude: set<Fingerprint>)
    ensures Eligible(s.(rr := rr), route, exclude) == Eligible(s, route, exclude)
  {
  }

  /** Fairness: with the pool, the route and the exclusions fixed and k candidates eligible, any k consecutive
      round-robin picks return each of them exactly once, and pick i + k returns what pick i did. */
  lemma RoundRobinIsFair(s: PoolState, route: Predicate, exclude: set<Fingerprint>, i: nat)
    requires Inv(s) && Eligible(s, route, exclude) != {}
    ensures var k := |Eligible(s, route, exclude)|;
            && Nth(s, route, exclude, i + k) == Nth(s, route, exclude, i)
            && (forall j, m :: i <= j < m < i + k ==> Nth(s, route, exclude, j) != Nth(s, route, exclude, m))
            && (forall fp :: fp in Eligible(s, route, exclude) ==>
                  exists j :: i <= j < i + k && Nth(s, route, exclude, j) == Some(s.items[fp]))
  {
    hide Normalized, At, PickRoundRobin, After, Nth, Probe, Landing, Count, Good;
    var eligible := Eligible(s, route, exclude);
    var k := |eligible|;
    PicksRepeat(s, route, exclude, i);
    forall j, m | i <= j < m < i + k ensures Nth(s, route, exclude, j) != Nth(s, route, exclude, m) {
      PicksDiffer(s, route, exclude, j, m);
    }
    forall fp | fp in eligible ensures exists j :: i <= j < i + k && Nth(s, route, exclude, j) == Some(s.items[fp]) {
      var j := PickReaches(s, route, exclude, i, fp);
    }
  }

  /** Between one landing and the next lies nothing eligible. */
  lemma LandingsAdjacent(order: seq<Fingerprint>, eligible: set<Fingerprint>, r: nat, i: nat)
    requires order != [] && Count(order, eligible, 0, |order|) > 0
    ensures var p, q := Landing(order, eligible, r, i), Landing(order, eligible, r, i + 1);
            p < q <= p + |order| && forall x: nat :: p < x < q ==> !Good(order, eligible, x)
  {
    hide At, Count;
    var p := Landing(order, eligible, r, i);
    assert Landing(order, eligible, r, i + 1) == Next(order, eligible, p + 1);
  }

  /** Picks i and i + 1 land on positions p and q, the next one round the order with nothing eligible in between. */
  ghost predicate Successive(s: PoolState, route: Predicate, exclude: set<Fingerprint>, i: nat, p: nat, q: nat)
    requires s.order != []
  {
    && p < q <= p + |s.order|
    && At(s.order, p) in s.items && Nth(s, route, exclude, i) == Some(s.items[At(s.order, p)])
    && At(s.order, q) in s.items && Nth(s, route, exclude, i + 1) == Some(s.items[At(s.order, q)])
    && forall x: nat :: p < x < q ==> !Good(s.order, Eligible(s, route, exclude), x)
  }

  /** Picks go round the order without skipping anyone. */
  lemma PicksGoRound(s: PoolState, route: Predicate, exclude: set<Fingerprint>, i: nat)
    requires Inv(s) && Eligible(s, route, exclude) != {}
    ensures s.order != [] && exists p: nat, q: nat :: Successive(s, route, exclude, i, p, q)
  {
    hide Inv, At, Nth, After, Eligible, Good, Count, Landing, Next;
    var eligible := Eligible(s, route, exclude);
    NthLanding(s, route, exclude, i);
    NthLanding(s, route, exclude, i + 1);
    LandingsAdjacent(s.order, eligible, s.rr, i);
    var p, q := Landing(s.order, eligible, s.rr, i), Landing(s.order, eligible, s.rr, i + 1);
    assert Successive(s, route, exclude, i, p, q);
  }

  lemma PicksRepeat(s: PoolState, route: Predicate, exclude: set<Fingerprint>, i: nat)
    requires Inv(s) && Eligible(s, route, exclude) != {}
    ensures Nth(s, route, exclude, i + |Eligible(s, route, exclude)|) == Nth(s, route, exclude, i)
  {
    hide Normalized, At, PickRoundRobin, After, Nth, Eligible, Probe, Landing, Count, Good;
    var eligible := Eligible(s, route, exclude);
    NthLanding(s, route, exclude, i);
    NthLanding(s, route, exclude, i + |eligible|);
    LandingLap(s.order, eligible, s.rr, i);
    AtPeriod(s.order, Landing(s.order, eligible, s.rr, i));
  }

  lemma PicksDiffer(s: PoolState, route: Predicate, exclude: set<Fingerprint>, j: nat, m: nat)
    requires Inv(s) && Eligible(s, route, exclude) != {}
    requires j < m < j + |Eligible(s, route, exclude)|
    ensures Nth(s, route, exclude, j) != Nth(s, route, exclude, m)
  {
    hide Normalized, At, PickRoundRobin, After, Nth, Eligible, Probe, Landing, Count, Good;
    var eligible := Eligible(s, route, exclude);
    NthLanding(s, route, exclude, j);
    NthLanding(s, route, exclude, m);
    LandingIncreases(s.order, eligible, s.rr, j, m);
    LandingIncreases(s.order, eligible, s.rr, m, j + |eligible|);
    LandingLap(s.order, eligible, s.rr, j);
    AtApart(s.order, Landing(s.order, eligible, s.rr, j), Landing(s.order, eligible, s.rr, m));
  }

  lemma PickReaches(s: PoolState, route: Predicate, exclude: set<Fingerprint>, i: nat, fp: Fingerprint) returns (j: nat)
    requires Inv(s) && fp in Eligible(s, route, exclude)
    ensures i <= j < i + |Eligible(s, route, exclude)|
    ensures Nth(s, route, exclude, j) == Some(s.items[fp])
  {
    hide Normalized, At, PickRoundRobin, After, Nth, Probe, Landing;
    var eligible := Eligible(s, route, exclude);
    NthLanding(s, route, exclude, i);
    var p := Landing(s.order, eligible, s.rr, i);
    var q := AtReach(s.order, p, fp);
    j := LandingWithin(s.order, eligible, s.rr, i, q);
    NthLanding(s, route, exclude, j);
  }

  /** An eligible position within the lap after the i-th landing is one of the next landings. */
  lemma LandingWithin(order: seq<Fingerprint>, eligible: set<Fingerprint>, r: nat, i: nat, q: nat) returns (j: nat)
    requires order != [] && Count(order, eligible, 0, |order|) > 0
    requires Landing(order, eligible, r, i) <= q < Landing(order, eligible, r, i) + |order| && Good(order, eligible, q)
    ensures i <= j < i + Count(order, eligible, 0, |order|) && Landing(order, eligible, r, j) == q
  {
    hide At, Probe, Landing;
    var p, n := Landing(order, eligible, r, i), |order|;
    LandingCount(order, eligible, r, i);
    CountSplit(order, eligible, r, p, q);
    CountSplit(order, eligible, p, q, p + n);
    CountLap(order, eligible, p);
    CountPositive(order, eligible, q, p + n);
    j := Count(order, eligible, r, q);
    LandingCount(order, eligible, r, j);
    LandingUnique(order, eligible, r, q, Landing(order, eligible, r, j));
  }

  /** Under both policies a pick succeeds exactly when something is eligible, whatever the start. */
  lemma PickSucceedsIffEligible(s: PoolState, route: Predicate, exclude: set<Fingerprint>, start: nat)
    requires Inv(s)
    ensures PickRoundRobin(s, route, exclude).1.Some? <==> Eligible(s, route, exclude) != {}
    ensures PickFrom(s, route, exclude, start).Some? <==> Eligible(s, route, exclude) != {}
    ensures PickFrom(s, route, exclude, start).Some? ==>
              exists fp :: fp in Eligible(s, route, exclude) && PickFrom(s, route, exclude, start).value == s.items[fp]
  {
    hide Normalized, At;
    EligibleInOrder(s, route, exclude);
    if s.order != [] {
      var eligible := Eligible(s, route, exclude);
      ProbeFinds(s.order, eligible, s.rr);
      ProbeFinds(s.order, eligible, start);
      assert |eligible| == 0 <==> eligible == {};
    }
  }

  /** An entry that may be picked: available, on the route and not excluded. */
  predicate MayPick(s: PoolState, route: Predicate, exclude: set<Fingerprint>, fp: Fingerprint) {
    fp in s.items && fp !in exclude && s.items[fp].status == Available && route(s.items[fp])
  }

  /** How far ahead of cursor position p entry i of n comes up, going round. */
  function Ahead(p: nat, i: nat, n: nat): nat
    requires n > 0
  {
    (i - p) % n
  }

  lemma AheadReaches(p: nat, i: nat, n: nat)
    requires i < n
    ensures (p + Ahead(p, i, n)) % n == i && Ahead(p, i, n) < n
  {
    var q := ModReach(p, i, n);
    var a := (p / n) * n;
    var d := q - p;
    assert i - p == (i - q) + d;
    assert i - q == -(q / n) * n;
    ModUnique(i - p, n, -(q / n), d);
  }

  lemma AheadOf(p: nat, d: nat, n: nat)
    requires d < n
    ensures Ahead(p, (p + d) % n, n) == d
  {
    var q := p + d;
    assert q % n - p == -(q / n) * n + d;
    ModUnique(q % n - p, n, -(q / n), d);
  }

  /** From position p on, the probe stops at entry i: the one of those that may be picked that comes up first. */
  lemma ProbeStopsAt(s: PoolState, route: Predicate, exclude: set<Fingerprint>, p: nat, i: nat)
    requires i < |s.order| && MayPick(s, route, exclude, s.order[i])
    requires forall j :: 0 <= j < |s.order| && MayPick(s, route, exclude, s.order[j]) ==>
               Ahead(p, i, |s.order|) <= Ahead(p, j, |s.order|)
    ensures Probe(s.order, Eligible(s, route, exclude), p, p + |s.order|) == Some(p + Ahead(p, i, |s.order|))
    ensures At(s.order, p + Ahead(p, i, |s.order|)) == s.order[i]
  {
    hide Ahead;
    var n, eligible := |s.order|, Eligible(s, route, exclude);
    AheadReaches(p, i, n);
    var stop := p + Ahead(p, i, n);
    forall q: nat | p <= q < stop ensures At(s.order, q) !in eligible {
      AheadOf(p, q - p, n);
      assert At(s.order, q) == s.order[q % n];
    }
    ProbeIs(s.order, eligible, p, p + n, stop);
  }

  /** Which entry a round-robin pick returns: the first from the cursor on that may be picked; the cursor goes one past
      it. A random pick goes on in the same way from the position drawn, and leaves the cursor alone. */
  lemma CursorPickIs(s: PoolState, route: Predicate, exclude: set<Fingerprint>, i: nat)
    requires i < |s.order| && MayPick(s, route, exclude, s.order[i])
    requires forall j :: 0 <= j < |s.order| && MayPick(s, route, exclude, s.order[j]) ==>
               Ahead(s.rr, i, |s.order|) <= Ahead(s.rr, j, |s.order|)
    ensures PickRoundRobin(s, route, exclude) ==
            (s.(rr := s.rr + Ahead(s.rr, i, |s.order|) + 1), Some(s.items[s.order[i]]))
  {
    hide Ahead, At, Probe, Eligible;
    ProbeStopsAt(s, route, exclude, s.rr, i);
  }

  lemma RandomPickIs(s: PoolState, route: Predicate, exclude: set<Fingerprint>, start: nat, i: nat)
    requires i < |s.order| && MayPick(s, route, exclude, s.order[i])
    requires forall j :: 0 <= j < |s.order| && MayPick(s, route, exclude, s.order[j]) ==>
               Ahead(start, i, |s.order|) <= Ahead(start, j, |s.order|)
    ensures PickFrom(s, route, exclude, start) == Some(s.items[s.order[i]])
  {
    hide Ahead, At, Probe, Eligible;
    ProbeStopsAt(s, route, exclude, start, i);
  }

  /** With nothing to pick the cursor still goes once round. */
  lemma NothingToPick(s: PoolState, route: Predicate, exclude: set<Fingerprint>, start: nat)
    requires forall j :: 0 <= j < |s.order| ==> !MayPick(s, route, exclude, s.order[j])
    ensures PickRoundRobin(s, route, exclude) == (s.(rr := s.rr + |s.order|), None)
    ensures PickFrom(s, route, exclude, start) == None
  {
    var n, eligible := |s.order|, Eligible(s, route, exclude);
    if n > 0 {
      assert forall q: nat :: At(s.order, q) == s.order[q % n];
      assert forall q: nat :: At(s.order, q) !in eligible;
      ProbeIs(s.order, eligible, s.rr, s.rr + n, s.rr + n);
      ProbeIs(s.order, eligible, start, start + n, start + n);
    }
  }

  /** Every eligible candidate is what the random policy returns for some starting position it can draw. */
  lemma EveryEligibleReachable(s: PoolState, route: Predicate, exclude: set<Fingerprint>, fp: Fingerprint)
    requires Inv(s) && fp in Eligible(s, route, exclude)
    ensures exists start :: 0 <= start < |s.order| && PickFrom(s, route, exclude, start) == Some(s.items[fp])
  {
    hide Normalized, At;
    EligibleInOrder(s, route, exclude);
    var start :| 0 <= start < |s.order| && s.order[start] == fp;
    AtSmall(s.order, start);
    assert Probe(s.order, Eligible(s, route, exclude), start, start + |s.order|) == Some(start);
    assert PickFrom(s, route, exclude, start) == Some(s.items[fp]);
  }
}
