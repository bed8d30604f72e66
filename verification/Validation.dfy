/** What a whole validation returns (internal/validation/validation.go), whatever the schedule of its goroutines. */
module Validation {
  import opened Text
  import opened Candidates
  import opened WorkerPool

  // --------------------------------------------- each candidate once

  function Ended(p: Pool, e: Event, i: nat): nat {
    if (e.Pass? || e.Reject?) && e.k < |p.workers| && p.workers[e.k] == Validating(i) then 1 else 0
  }

  /** How many validations of candidate i end during a run. */
  function Validations(p: Pool, events: seq<Event>, verdicts: seq<Option<Candidate>>, i: nat): nat
    requires CanRun(p, events, verdicts)
    decreases |events|
  {
    if events == [] then 0
    else Ended(p, events[0], i) + Validations(Next(p, events[0], verdicts), events[1..], verdicts, i)
  }

  lemma EndedStep(p: Pool, e: Event, verdicts: seq<Option<Candidate>>, i: nat)
    requires Enabled(p, e, verdicts)
    ensures var q := Next(p, e, verdicts);
            Held(q.workers, i, true) + Ended(p, e, i) == Held(p.workers, i, true) + if p.next <= i < q.next then 1
              else 0
    ensures p.next <= Next(p, e, verdicts).next
  {
    hide Held;
    var q := Next(p, e, verdicts);
    match e
    case Send(k) => HeldAfter(p.workers, k, q.workers[k], i, true);
    case Pass(k) => HeldAfter(p.workers, k, q.workers[k], i, true);
    case Reject(k) => HeldAfter(p.workers, k, q.workers[k], i, true);
    case Deliver(k) => HeldAfter(p.workers, k, q.workers[k], i, true);
    case Exit(k) => HeldAfter(p.workers, k, q.workers[k], i, true);
    case _ =>
  }

  lemma {:induction false} ValidationsCounted(p: Pool, events: seq<Event>, verdicts: seq<Option<Candidate>>, i: nat)
    requires CanRun(p, events, verdicts)
    ensures var q := After(p, events, verdicts);
            && Held(q.workers, i, true) + Validations(p, events, verdicts, i)
               == Held(p.workers, i, true) + (if p.next <= i < q.next then 1 else 0)
            && p.next <= q.next
    decreases |events|
  {
    hide Next, Enabled, Held, Ended;
    if events != [] {
      EndedStep(p, events[0], verdicts, i);
      ValidationsCounted(Next(p, events[0], verdicts), events[1..], verdicts, i);
    }
  }

  lemma {:induction false} SizesKept(p: Pool, events: seq<Event>, verdicts: seq<Option<Candidate>>)
    requires CanRun(p, events, verdicts)
    ensures |After(p, events, verdicts).workers| == |p.workers| && After(p, events, verdicts).n == p.n
    ensures (Cancel in events <==> After(p, events, verdicts).cancelled) || p.cancelled
    ensures p.cancelled ==> After(p, events, verdicts).cancelled
    decreases |events|
  {
    if events != [] {
      SizesKept(Next(p, events[0], verdicts), events[1..], verdicts);
    }
  }

  function InProgress(ws: seq<Worker>): (c: nat)
    ensures c <= |ws|
  {
    if ws == [] then 0 else InProgress(ws[..|ws| - 1]) + if ws[|ws| - 1].Validating? then 1 else 0
  }

  /**
   * Every run of the pool: it has a bounded number of steps and, until Validate returns, a possible one; no more than
   * min(concurrency, n) validations are in progress; a worker with a result never waits for room; and of the candidates
   * no validation ends twice.
   */
  lemma PoolIsSafe(n: nat, concurrency: int, events: seq<Event>, verdicts: seq<Option<Candidate>>)
    requires 0 < n == |verdicts| && CanRun(Start(n, concurrency), events, verdicts)
    ensures |events| <= 5 * n + Workers(concurrency, n) + 5
    ensures var p := After(Start(n, concurrency), events, verdicts);
            && (p.phase != Returned ==> exists e :: e != Cancel && Enabled(p, e, verdicts))
            && InProgress(p.workers) <= Workers(concurrency, n)
            && (forall k :: 0 <= k < |p.workers| && p.workers[k].Sending? ==> Enabled(p, Deliver(k), verdicts))
            && (forall i: nat :: Validations(Start(n, concurrency), events, verdicts, i) <= if i < p.next then 1 else 0)
  {
    hide Inv, CanRun, After, Validations, Enabled, Next;
    var s := Start(n, concurrency);
    StartInv(n, concurrency, verdicts);
    RunKeepsInv(s, events, verdicts);
    SizesKept(s, events, verdicts);
    EffortsAtStart(Workers(concurrency, n));
    var p := After(s, events, verdicts);
    if p.phase != Returned {
      Progress(p, verdicts);
    }
    forall k | 0 <= k < |p.workers| && p.workers[k].Sending? ensures Enabled(p, Deliver(k), verdicts) {
      SendNeverBlocks(p, k, verdicts);
    }
    forall i: nat ensures Validations(s, events, verdicts, i) <= if i < p.next then 1 else 0 {
      HeldByNone(s.workers, i, true);
      ValidationsCounted(s, events, verdicts, i);
    }
    RemainingNotNegative(p, verdicts);
  }

  /** The first k candidates handed to the first k workers. */
  function Sends(k: nat): seq<Event> {
    if k == 0 then [] else Sends(k - 1) + [Send(k - 1)]
  }

  lemma {:induction false} RunSnoc(p: Pool, events: seq<Event>, e: Event, verdicts: seq<Option<Candidate>>)
    requires CanRun(p, events, verdicts) && Enabled(After(p, events, verdicts), e, verdicts)
    ensures CanRun(p, events + [e], verdicts)
    ensures After(p, events + [e], verdicts) == Next(After(p, events, verdicts), e, verdicts)
    decreases |events|
  {
    hide Enabled, Next;
    if events == [] {
      assert [e][1..] == [] && events + [e] == [e];
    } else {
      assert (events + [e])[1..] == events[1..] + [e];
      RunSnoc(Next(p, events[0], verdicts), events[1..], e, verdicts);
    }
  }

  lemma {:induction false} SendsRun(n: nat, concurrency: int, k: nat, verdicts: seq<Option<Candidate>>)
    requires k <= Workers(concurrency, n)
    ensures CanRun(Start(n, concurrency), Sends(k), verdicts)
    ensures var p := After(Start(n, concurrency), Sends(k), verdicts);
            && p.n == n && p.next == k && p.phase == Dispatch && |p.workers| == Workers(concurrency, n)
            && forall i :: 0 <= i < |p.workers| ==> p.workers[i] == if i < k then Validating(i) else Waiting
  {
    hide CanRun, After;
    var s := Start(n, concurrency);
    if k == 0 {
      NothingRun(s, verdicts);
    } else {
      SendsRun(n, concurrency, k - 1, verdicts);
      RunSnoc(s, Sends(k - 1), Send(k - 1), verdicts);
    }
  }

  lemma NothingRun(p: Pool, verdicts: seq<Option<Candidate>>)
    ensures CanRun(p, [], verdicts) && After(p, [], verdicts) == p
  {
  }

  lemma {:induction false} AllInProgress(ws: seq<Worker>)
    requires forall i :: 0 <= i < |ws| ==> ws[i].Validating?
    ensures InProgress(ws) == |ws|
  {
    if ws != [] {
      AllInProgress(ws[..|ws| - 1]);
    }
  }

  /** The concurrency that is allowed can be had: some run has that many validations in progress at once, with 50 as the
      default and never more than there are candidates. */
  lemma AllWorkAtOnce(n: nat, concurrency: int, verdicts: seq<Option<Candidate>>)
    ensures var limit := if concurrency <= 0 then 50 else concurrency;
            exists events :: && CanRun(Start(n, concurrency), events, verdicts)
                             && InProgress(After(Start(n, concurrency), events, verdicts).workers)
                                == if limit < n then limit else n
  {
    hide CanRun, After, InProgress;
    var w := Workers(concurrency, n);
    SendsRun(n, concurrency, w, verdicts);
    AllInProgress(After(Start(n, concurrency), Sends(w), verdicts).workers);
  }

  lemma Prepend(p: Pool, e: Event, rest: seq<Event>, verdicts: seq<Option<Candidate>>)
    requires Enabled(p, e, verdicts) && CanRun(Next(p, e, verdicts), rest, verdicts)
    ensures CanRun(p, [e] + rest, verdicts)
    ensures After(p, [e] + rest, verdicts) == After(Next(p, e, verdicts), rest, verdicts)
  {
    hide Enabled, Next;
    assert ([e] + rest)[1..] == rest;
  }

  /** From the end of the send loop on, with one idle worker and nothing on its way. */
  lemma WindsUp(p: Pool, verdicts: seq<Option<Candidate>>)
    requires p.phase == Stopped && p.workers == [Waiting] && p.out == []
    ensures exists events :: CanRun(p, events, verdicts) && After(p, events, verdicts) ==
                               p.(phase := Returned, workers := [Exited])
  {
    var p1 := Next(p, CloseIn, verdicts);
    var p2 := Next(p1, Exit(0), verdicts);
    var p3 := Next(p2, Join, verdicts);
    var p4 := Next(p3, Return, verdicts);
    hide Enabled, Next, CanRun, After;
    NothingRun(p4, verdicts);
    Prepend(p3, Return, [], verdicts);
    Prepend(p2, Join, [Return] + [], verdicts);
    Prepend(p1, Exit(0), [Join] + ([Return] + []), verdicts);
    Prepend(p, CloseIn, [Exit(0)] + ([Join] + ([Return] + [])), verdicts);
  }

  /** A cancellation can cost a candidate that would have passed: it may not be handed to a worker any more. */
  lemma CancellationCanLose(c: Candidate, concurrency: int)
    ensures exists events ::
              && CanRun(Start(1, concurrency), events, [Some(c)])
              && After(Start(1, concurrency), events, [Some(c)]).phase == Returned
              && After(Start(1, concurrency), events, [Some(c)]).next == 0
  {
    var verdicts := [Some(c)];
    var s := Start(1, concurrency);
    assert s.workers == [Waiting];
    var p1 := Next(s, Cancel, verdicts);
    var p2 := Next(p1, BreakLoop, verdicts);
    hide CanRun, After, Enabled, Next;
    WindsUp(p2, verdicts);
    var end :| CanRun(p2, end, verdicts) && After(p2, end, verdicts) == p2.(phase := Returned, workers := [Exited]);
    Prepend(p1, BreakLoop, end, verdicts);
    Prepend(s, Cancel, [BreakLoop] + end, verdicts);
  }

  /** Or its validation, already under way, may fail for it. */
  lemma CancellationCanFail(c: Candidate, concurrency: int)
    ensures exists events ::
              && CanRun(Start(1, concurrency), events, [Some(c)])
              && After(Start(1, concurrency), events, [Some(c)]).phase == Returned
              && After(Start(1, concurrency), events, [Some(c)]).next == 1
              && After(Start(1, concurrency), events, [Some(c)]).valid == []
  {
    var verdicts := [Some(c)];
    var s := Start(1, concurrency);
    assert s.workers == [Waiting];
    var q1 := Next(s, Send(0), verdicts);
    var q2 := Next(q1, Cancel, verdicts);
    var q3 := Next(q2, Reject(0), verdicts);
    var q4 := Next(q3, EndLoop, verdicts);
    hide CanRun, After, Enabled, Next;
    WindsUp(q4, verdicts);
    var last :| CanRun(q4, last, verdicts) && After(q4, last, verdicts) == q4.(phase := Returned, workers := [Exited]);
    Prepend(q3, EndLoop, last, verdicts);
    Prepend(q2, Reject(0), [EndLoop] + last, verdicts);
    Prepend(q1, Cancel, [Reject(0)] + ([EndLoop] + last), verdicts);
    Prepend(s, Send(0), [Cancel] + ([Reject(0)] + ([EndLoop] + last)), verdicts);
  }

  lemma RemainingNotNegative(p: Pool, verdicts: seq<Option<Candidate>>)
    requires Inv(p, verdicts)
    ensures Remaining(p) >= 0
  {
  }

  // ------------------------------------------------- what is returned

  function Values(picks: seq<nat>, verdicts: seq<Option<Candidate>>): seq<Candidate>
    requires forall j :: 0 <= j < |picks| ==> picks[j] < |verdicts| && verdicts[picks[j]].Some?
  {
    seq(|picks|, j requires 0 <= j < |picks| => verdicts[picks[j]].value)
  }

  /** The candidates that pass, in input order. */
  function Passing(verdicts: seq<Option<Candidate>>): seq<Candidate> {
    if verdicts == [] then []
    else
      var last := verdicts[|verdicts| - 1];
      Passing(verdicts[..|verdicts| - 1]) + if last.Some? then [last.value] else []
  }

  ghost predicate PicksOnce(picks: seq<nat>, verdicts: seq<Option<Candidate>>) {
    && (forall j :: 0 <= j < |picks| ==> picks[j] < |verdicts| && verdicts[picks[j]].Some?)
    && (forall i: nat :: Count(picks, i) <= 1)
  }

  ghost predicate PicksAll(picks: seq<nat>, verdicts: seq<Option<Candidate>>) {
    forall i: nat :: i < |verdicts| && verdicts[i].Some? ==> Count(picks, i) == 1
  }

  lemma Remove(picks: seq<nat>, j: nat, verdicts: seq<Option<Candidate>>)
    requires PicksOnce(picks, verdicts) && j < |picks| && picks[j] == |verdicts| - 1
    ensures var rest := picks[..j] + picks[j + 1..]; var fewer := verdicts[..|verdicts| - 1];
            && PicksOnce(rest, fewer)
            && multiset(Values(picks, verdicts)) == multiset(Values(rest, fewer)) + multiset{verdicts[picks[j]].value}
            && (PicksAll(picks, verdicts) ==> PicksAll(rest, fewer))
  {
    var rest := picks[..j] + picks[j + 1..];
    var fewer := verdicts[..|verdicts| - 1];
    forall i: nat ensures Count(picks, i) == Count(rest, i) + if i == picks[j] then 1 else 0 {
      assert picks == picks[..j] + [picks[j]] + picks[j + 1..];
    }
    forall m | 0 <= m < |rest| ensures rest[m] < |fewer| && rest[m] in picks {
      assert Count(rest, picks[j]) == 0;
      assert rest[m] in multiset(rest);
      assert rest[m] == picks[if m < j then m else m + 1];
    }
    var vs := Values(picks, verdicts);
    assert vs == vs[..j] + [vs[j]] + vs[j + 1..];
    assert Values(rest, fewer) == vs[..j] + vs[j + 1..];
  }

  lemma PicksHaveSources(picks: seq<nat>, verdicts: seq<Option<Candidate>>)
    requires PicksOnce(picks, verdicts)
    ensures picks != [] ==> verdicts != []
    ensures |Values(picks, verdicts)| == |picks|
  {
    if picks != [] {
      assert picks[0] < |verdicts|;
    }
  }

  lemma NotPicked(picks: seq<nat>, verdicts: seq<Option<Candidate>>)
    requires PicksOnce(picks, verdicts) && verdicts != [] && |verdicts| - 1 !in picks
    ensures var n := |verdicts| - 1;
            && PicksOnce(picks, verdicts[..n]) && Values(picks, verdicts) == Values(picks, verdicts[..n])
            && (PicksAll(picks, verdicts) ==> PicksAll(picks, verdicts[..n]) && verdicts[n].None?)
  {
    assert Count(picks, |verdicts| - 1) == 0;
  }

  lemma {:induction false} ValuesOfPicks(picks: seq<nat>, verdicts: seq<Option<Candidate>>)
    requires PicksOnce(picks, verdicts)
    ensures multiset(Values(picks, verdicts)) <= multiset(Passing(verdicts))
    ensures PicksAll(picks, verdicts) ==> multiset(Values(picks, verdicts)) == multiset(Passing(verdicts))
    decreases |verdicts|
  {
    hide PicksAll, Values;
    if verdicts == [] {
      PicksHaveSources(picks, verdicts);
    } else {
      var n := |verdicts| - 1;
      if j :| 0 <= j < |picks| && picks[j] == n {
        Remove(picks, j, verdicts);
        ValuesOfPicks(picks[..j] + picks[j + 1..], verdicts[..n]);
      } else {
        NotPicked(picks, verdicts);
        ValuesOfPicks(picks, verdicts[..n]);
      }
    }
  }

  /**
   * Once Validate has returned: without a cancellation every candidate was validated exactly once and the result is
   * exactly the candidates that pass, in some order; with one, the result is a part of them.
   */
  lemma ResultIsWhatPasses(n: nat, concurrency: int, events: seq<Event>, verdicts: seq<Option<Candidate>>)
    requires 0 < n == |verdicts| && CanRun(Start(n, concurrency), events, verdicts)
    requires After(Start(n, concurrency), events, verdicts).phase == Returned
    ensures var s := Start(n, concurrency); var p := After(s, events, verdicts);
            && PicksOnce(p.valid, verdicts)
            && multiset(Values(p.valid, verdicts)) <= multiset(Passing(verdicts))
            && (forall i: nat :: Validations(s, events, verdicts, i) == if i < p.next then 1 else 0)
            && (Cancel !in events ==> p.next == n && multiset(Values(p.valid, verdicts)) == multiset(Passing(verdicts)))
  {
    hide CanRun, After, Validations, Values, Passing;
    var s := Start(n, concurrency);
    StartInv(n, concurrency, verdicts);
    RunKeepsInv(s, events, verdicts);
    SizesKept(s, events, verdicts);
    var p := After(s, events, verdicts);
    forall i: nat ensures Validations(s, events, verdicts, i) == if i < p.next then 1 else 0 {
      HeldByNone(s.workers, i, true);
      HeldByNone(p.workers, i, true);
      ValidationsCounted(s, events, verdicts, i);
    }
    ReturnedPicks(p, verdicts);
    ValuesOfPicks(p.valid, verdicts);
  }

  lemma ReturnedPicks(p: Pool, verdicts: seq<Option<Candidate>>)
    requires Inv(p, verdicts) && p.phase == Returned
    ensures PicksOnce(p.valid, verdicts)
    ensures !p.cancelled ==> PicksAll(p.valid, verdicts)
  {
    forall i: nat ensures Count(p.valid, i) + Count(p.rejected, i) == if i < p.next then 1 else 0 {
      HeldByNone(p.workers, i, false);
      assert Places(p, i) == if i < p.next then 1 else 0;
    }
    assert forall j :: 0 <= j < |p.valid| ==> p.valid[j] in p.valid;
    if !p.cancelled {
      forall i: nat | i < |verdicts| && verdicts[i].Some? ensures Count(p.valid, i) == 1 {
        assert Count(p.rejected, i) > 0 ==> i in p.rejected;
      }
    }
  }

  /**
   * Validate under a scheduler that picks the next step; it terminates under every one. A choice that is not possible
   * right now, or a cancellation when the context has none, is replaced by a step that is.
   */
  method Validate(skip: bool, candidates: seq<Candidate>, verdicts: seq<Option<Candidate>>, concurrency: int,
                  mayCancel: bool, schedule: Pool -> Event)
    returns (valid: seq<Candidate>)
    requires |verdicts| == |candidates|
    ensures skip ==> valid == candidates
    ensures !skip ==> multiset(valid) <= multiset(Passing(verdicts))
    ensures !skip && !mayCancel ==> multiset(valid) == multiset(Passing(verdicts))
  {
    if skip {
      return candidates;
    }
    if |candidates| == 0 {
      return [];
    }
    hide Inv, Remaining, Passing, PicksAll, Next, Enabled, SomeStep;
    var p := Start(|candidates|, concurrency);
    StartInv(p.n, concurrency, verdicts);
    RemainingNotNegative(p, verdicts);
    while p.phase != Returned
      invariant Inv(p, verdicts)
      invariant !mayCancel ==> !p.cancelled
      decreases Remaining(p)
    {
      Progress(p, verdicts);
      var e := schedule(p);
      if !Enabled(p, e, verdicts) || (e == Cancel && !mayCancel) {
        e := SomeStep(p, verdicts);
      }
      StepKeepsInv(p, e, verdicts);
      StepShrinks(p, e, verdicts);
      OnlyCancelCancels(p, e, verdicts);
      p := Next(p, e, verdicts);
      RemainingNotNegative(p, verdicts);
    }
    ReturnedPicks(p, verdicts);
    ValuesOfPicks(p.valid, verdicts);
    valid := Values(p.valid, verdicts);
  }

  lemma OnlyCancelCancels(p: Pool, e: Event, verdicts: seq<Option<Candidate>>)
    requires Enabled(p, e, verdicts)
    ensures Next(p, e, verdicts).cancelled == (p.cancelled || e == Cancel)
  {
  }
}
