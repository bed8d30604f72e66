/**
 * The validation worker pool (internal/validation/validation.go) as a step relation: a sender on an unbuffered channel,
 * workers that validate and send on a channel with room for every candidate, and a collector once all workers are done.
 * Candidates are named by their position in the input; a verdict is what validating that candidate yields.
 */
module WorkerPool {
  import opened Text
  import opened Candidates

  const DEFAULT_WORKERS := 50

  function Workers(concurrency: int, n: nat): (w: nat)
    ensures w <= n && (0 < concurrency ==> w <= concurrency) && (concurrency <= 0 ==> w <= 50)
    ensures w == n || w == concurrency || (concurrency <= 0 && w == 50)
  {
    var w := if concurrency <= 0 then DEFAULT_WORKERS else concurrency;
    if w > n then n else w
  }

  datatype Worker = Waiting | Validating(i: nat) | Sending(i: nat) | Exited

  /** Dispatch: the send loop. Stopped: about to close the input. Joining: waiting for the workers. Draining: reading
      the output. */
  datatype Phase = Dispatch | Stopped | Joining | Draining | Returned

  /** `rejected` records the failed validations; the program forgets them. */
  datatype Pool = Pool(n: nat, next: nat, phase: Phase, workers: seq<Worker>, out: seq<nat>, valid: seq<nat>,
                       rejected: seq<nat>,
                       cancelled: bool)

  datatype Event =
    | Cancel
    | Send(k: nat)
    | BreakLoop
    | EndLoop
    | CloseIn
    | Pass(k: nat)
    | Reject(k: nat)
    | Deliver(k: nat)
    | Exit(k: nat)
    | Join
    | Collect
    | Return

  predicate WorkerIs(p: Pool, k: nat, w: Worker) {
    k < |p.workers| && p.workers[k] == w
  }

  predicate AllExited(ws: seq<Worker>) {
    forall k :: 0 <= k < |ws| ==> ws[k] == Exited
  }

  /** The context is part of a validation, so after a cancellation any validation may fail. */
  predicate Enabled(p: Pool, e: Event, verdicts: seq<Option<Candidate>>) {
    match e
    case Cancel => !p.cancelled
    case Send(k) => p.phase == Dispatch && p.next < p.n && WorkerIs(p, k, Waiting)
    case BreakLoop => p.phase == Dispatch && p.next < p.n && p.cancelled
    case EndLoop => p.phase == Dispatch && p.next == p.n
    case CloseIn => p.phase == Stopped
    case Pass(k) =>
      && k < |p.workers| && p.workers[k].Validating? && p.workers[k].i < |verdicts|
      && verdicts[p.workers[k].i].Some?
    case Reject(k) =>
      && k < |p.workers| && p.workers[k].Validating? && p.workers[k].i < |verdicts|
      && (p.cancelled || verdicts[p.workers[k].i].None?)
    case Deliver(k) => k < |p.workers| && p.workers[k].Sending? && |p.out| < p.n
    case Exit(k) => p.phase == Joining && WorkerIs(p, k, Waiting)
    case Join => p.phase == Joining && AllExited(p.workers)
    case Collect => p.phase == Draining && p.out != []
    case Return => p.phase == Draining && p.out == []
  }

  function Next(p: Pool, e: Event, verdicts: seq<Option<Candidate>>): Pool
    requires Enabled(p, e, verdicts)
  {
    match e
    case Cancel => p.(cancelled := true)
    case Send(k) => p.(workers := p.workers[k := Validating(p.next)], next := p.next + 1)
    case BreakLoop => p.(phase := Stopped)
    case EndLoop => p.(phase := Stopped)
    case CloseIn => p.(phase := Joining)
    case Pass(k) => p.(workers := p.workers[k := Sending(p.workers[k].i)])
    case Reject(k) => p.(workers := p.workers[k := Waiting], rejected := p.rejected + [p.workers[k].i])
    case Deliver(k) => p.(workers := p.workers[k := Waiting], out := p.out + [p.workers[k].i])
    case Exit(k) => p.(workers := p.workers[k := Exited])
    case Join => p.(phase := Draining)
    case Collect => p.(out := p.out[1..], valid := p.valid + [p.out[0]])
    case Return => p.(phase := Returned)
  }

  function Start(n: nat, concurrency: int): Pool {
    Pool(n, 0, Dispatch, seq(Workers(concurrency, n), _ => Waiting), [], [], [], false)
  }

  predicate CanRun(p: Pool, events: seq<Event>, verdicts: seq<Option<Candidate>>)
    decreases |events|
  {
    events == [] || (Enabled(p, events[0], verdicts) && CanRun(Next(p, events[0], verdicts), events[1..], verdicts))
  }

  function After(p: Pool, events: seq<Event>, verdicts: seq<Option<Candidate>>): Pool
    requires CanRun(p, events, verdicts)
    decreases |events|
  {
    if events == [] then p else After(Next(p, events[0], verdicts), events[1..], verdicts)
  }

  // -------------------------------------------------------- accounting

  /** How often a worker has candidate i in hand; with `unvalidated`, before its validation has ended. */
  function InHand(w: Worker, i: nat, unvalidated: bool): nat {
    if (w.Validating? || (w.Sending? && !unvalidated)) && w.i == i then 1 else 0
  }

  function Held(ws: seq<Worker>, i: nat, unvalidated: bool): nat {
    if ws == [] then 0 else Held(ws[..|ws| - 1], i, unvalidated) + InHand(ws[|ws| - 1], i, unvalidated)
  }

  lemma {:induction false} HeldAfter(ws: seq<Worker>, k: nat, w: Worker, i: nat, unvalidated: bool)
    requires k < |ws|
    ensures Held(ws[k := w], i, unvalidated) + InHand(ws[k], i, unvalidated) ==
              Held(ws, i, unvalidated) + InHand(w, i, unvalidated)
  {
    var n := |ws| - 1;
    if k == n {
      assert ws[k := w][..n] == ws[..n];
    } else {
      HeldAfter(ws[..n], k, w, i, unvalidated);
      assert ws[k := w][..n] == ws[..n][k := w];
    }
  }

  lemma {:induction false} HeldContains(ws: seq<Worker>, k: nat, i: nat)
    requires k < |ws|
    ensures InHand(ws[k], i, false) <= Held(ws, i, false)
  {
    var n := |ws| - 1;
    if k < n {
      HeldContains(ws[..n], k, i);
    }
  }

  lemma {:induction false} HeldByNone(ws: seq<Worker>, i: nat, unvalidated: bool)
    requires forall k :: 0 <= k < |ws| ==> ws[k] == Exited || ws[k] == Waiting
    ensures Held(ws, i, unvalidated) == 0
  {
    if ws != [] {
      HeldByNone(ws[..|ws| - 1], i, unvalidated);
    }
  }

  function Upto(n: nat): multiset<nat> {
    if n == 0 then multiset{} else Upto(n - 1) + multiset{n - 1}
  }

  lemma {:induction false} UptoOnce(n: nat, i: nat)
    ensures Upto(n)[i] == if i < n then 1 else 0
  {
    if n > 0 {
      UptoOnce(n - 1, i);
    }
  }

  lemma {:induction false} UptoSize(n: nat)
    ensures |Upto(n)| == n
  {
    if n > 0 {
      UptoSize(n - 1);
    }
  }

  function Count(s: seq<nat>, i: nat): nat {
    multiset(s)[i]
  }

  lemma CountAtEnds(s: seq<nat>, x: nat, i: nat)
    ensures Count(s + [x], i) == Count(s, i) + if x == i then 1 else 0
    ensures Count([x] + s, i) == Count(s, i) + if x == i then 1 else 0
  {
  }

  /** In how many places candidate i is: in a worker's hands, on the output channel, collected or rejected. */
  function Places(p: Pool, i: nat): nat {
    Held(p.workers, i, false) + Count(p.out, i) + Count(p.valid, i) + Count(p.rejected, i)
  }

  ghost predicate PassedOnly(p: Pool, verdicts: seq<Option<Candidate>>) {
    && |verdicts| == p.n
    && (forall k :: 0 <= k < |p.workers| && p.workers[k].Sending? ==>
         p.workers[k].i < p.n && verdicts[p.workers[k].i].Some?)
    && (forall i :: i in p.out || i in p.valid ==> i < p.n && verdicts[i].Some?)
    && (!p.cancelled ==> forall i :: i in p.rejected ==> i < p.n && verdicts[i].None?)
  }

  ghost predicate PhaseFits(p: Pool) {
    && (p.phase == Dispatch || p.phase == Stopped ==> forall k :: 0 <= k < |p.workers| ==> p.workers[k] != Exited)
    && (p.phase == Draining || p.phase == Returned ==> AllExited(p.workers))
    && (p.phase != Dispatch && !p.cancelled ==> p.next == p.n)
    && (p.phase == Returned ==> p.out == [])
  }

  ghost predicate Inv(p: Pool, verdicts: seq<Option<Candidate>>) {
    && p.next <= p.n && 0 < |p.workers|
    && (forall i: nat :: Places(p, i) == if i < p.next then 1 else 0)
    && PassedOnly(p, verdicts)
    && PhaseFits(p)
  }

  lemma StartInv(n: nat, concurrency: int, verdicts: seq<Option<Candidate>>)
    requires 0 < n == |verdicts|
    ensures Inv(Start(n, concurrency), verdicts)
  {
    var p := Start(n, concurrency);
    forall i: nat ensures Places(p, i) == 0 {
      HeldByNone(p.workers, i, false);
    }
  }

  /** A step moves a candidate, and only sending brings one in. */
  lemma PlacesStep(p: Pool, e: Event, verdicts: seq<Option<Candidate>>, i: nat)
    requires Enabled(p, e, verdicts)
    ensures Places(Next(p, e, verdicts), i) == Places(p, i) + if e.Send? && i == p.next then 1 else 0
  {
    hide Held, Count;
    var q := Next(p, e, verdicts);
    match e
    case Send(k) => HeldAfter(p.workers, k, q.workers[k], i, false);
    case Pass(k) => HeldAfter(p.workers, k, q.workers[k], i, false);
    case Reject(k) =>
      HeldAfter(p.workers, k, q.workers[k], i, false);
      CountAtEnds(p.rejected, p.workers[k].i, i);
    case Deliver(k) =>
      HeldAfter(p.workers, k, q.workers[k], i, false);
      CountAtEnds(p.out, p.workers[k].i, i);
    case Exit(k) => HeldAfter(p.workers, k, q.workers[k], i, false);
    case Collect =>
      assert p.out == [p.out[0]] + q.out;
      CountAtEnds(q.out, p.out[0], i);
      CountAtEnds(p.valid, p.out[0], i);
    case _ =>
  }

  lemma CarriedIsDispatched(p: Pool, k: nat, verdicts: seq<Option<Candidate>>)
    requires Inv(p, verdicts) && k < |p.workers| && (p.workers[k].Validating? || p.workers[k].Sending?)
    ensures p.workers[k].i < p.next
  {
    HeldContains(p.workers, k, p.workers[k].i);
    assert Places(p, p.workers[k].i) >= 1;
  }

  lemma StepKeepsPassed(p: Pool, e: Event, verdicts: seq<Option<Candidate>>)
    requires PassedOnly(p, verdicts) && Enabled(p, e, verdicts)
    ensures PassedOnly(Next(p, e, verdicts), verdicts)
  {
    var q := Next(p, e, verdicts);
    match e
    case Deliver(k) =>
      forall i | i in q.out || i in q.valid ensures i < p.n && verdicts[i].Some? {
        assert i in p.out || i in p.valid || i == p.workers[k].i;
      }
    case Collect =>
      forall i | i in q.out || i in q.valid ensures i < p.n && verdicts[i].Some? {
        assert p.out[0] in p.out && forall j :: j in q.out ==> j in p.out;
        assert i in p.out || i in p.valid;
      }
    case _ =>
  }

  lemma StepKeepsPhase(p: Pool, e: Event, verdicts: seq<Option<Candidate>>)
    requires PhaseFits(p) && Enabled(p, e, verdicts)
    ensures PhaseFits(Next(p, e, verdicts))
  {
  }

  lemma StepKeepsInv(p: Pool, e: Event, verdicts: seq<Option<Candidate>>)
    requires Inv(p, verdicts) && Enabled(p, e, verdicts)
    ensures Inv(Next(p, e, verdicts), verdicts)
  {
    hide PassedOnly, PhaseFits, Places;
    StepKeepsPassed(p, e, verdicts);
    StepKeepsPhase(p, e, verdicts);
    forall i: nat ensures Places(Next(p, e, verdicts), i) == if i < Next(p, e, verdicts).next then 1 else 0 {
      PlacesStep(p, e, verdicts, i);
    }
  }

  /** A worker that has something to send always finds room. */
  lemma SendNeverBlocks(p: Pool, k: nat, verdicts: seq<Option<Candidate>>)
    requires Inv(p, verdicts) && k < |p.workers| && p.workers[k].Sending?
    ensures Enabled(p, Deliver(k), verdicts)
  {
    var i := p.workers[k].i;
    HeldContains(p.workers, k, i);
    forall j: nat ensures multiset(p.out + [i])[j] <= Upto(p.n)[j] {
      UptoOnce(p.n, j);
      CountAtEnds(p.out, i, j);
      assert Places(p, j) <= 1 && Held(p.workers, j, false) >= InHand(p.workers[k], j, false) by {
        HeldContains(p.workers, k, j);
      }
    }
    assert multiset(p.out + [i]) <= Upto(p.n);
    Fits(multiset(p.out + [i]), Upto(p.n));
    UptoSize(p.n);
  }

  lemma Fits(a: multiset<nat>, b: multiset<nat>)
    requires a <= b
    ensures |a| <= |b|
  {
    assert b == a + (b - a);
  }

  // ------------------------------------------------- progress and an end

  /** A step that the pool can take on its own. */
  function SomeStep(p: Pool, verdicts: seq<Option<Candidate>>): Event {
    match p.phase
    case Stopped => CloseIn
    case Draining => if p.out == [] then Return else Collect
    case Returned => Return
    case _ =>
      if p.phase == Dispatch && p.next == p.n then EndLoop
      else if p.phase == Joining && AllExited(p.workers) then Join
      else StepOf(p, FirstAlive(p.workers), verdicts)
  }

  function FirstAlive(ws: seq<Worker>): (k: nat)
    ensures k <= |ws| && (k < |ws| ==> ws[k] != Exited)
    ensures k == |ws| ==> forall j :: 0 <= j < |ws| ==> ws[j] == Exited
  {
    if ws == [] then 0
    else
      var k := FirstAlive(ws[..|ws| - 1]);
      if k < |ws| - 1 || ws[|ws| - 1] != Exited then k else |ws|
  }

  function StepOf(p: Pool, k: nat, verdicts: seq<Option<Candidate>>): Event {
    if k >= |p.workers| then Join
    else match p.workers[k]
      case Waiting => if p.phase == Dispatch then Send(k) else Exit(k)
      case Validating(i) => if i < |verdicts| && verdicts[i].Some? then Pass(k) else Reject(k)
      case _ => Deliver(k)
  }

  /** No deadlock: until Validate returns, some step other than a cancellation is possible. */
  lemma Progress(p: Pool, verdicts: seq<Option<Candidate>>)
    requires Inv(p, verdicts) && p.phase != Returned
    ensures Enabled(p, SomeStep(p, verdicts), verdicts) && SomeStep(p, verdicts) != Cancel
  {
    hide Places;
    assert p.phase == Dispatch ==> p.workers[0] != Exited;
    if (p.phase == Dispatch && p.next < p.n) || (p.phase == Joining && !AllExited(p.workers)) {
      var k := FirstAlive(p.workers);
      match p.workers[k]
      case Waiting =>
      case Validating(i) => CarriedIsDispatched(p, k, verdicts);
      case Sending(i) => SendNeverBlocks(p, k, verdicts);
      case Exited =>
    }
  }

  function Effort(w: Worker): nat {
    match w
    case Validating(_) => 4
    case Sending(_) => 3
    case Waiting => 1
    case Exited => 0
  }

  function Efforts(ws: seq<Worker>): nat {
    if ws == [] then 0 else Efforts(ws[..|ws| - 1]) + Effort(ws[|ws| - 1])
  }

  lemma {:induction false} EffortsAfter(ws: seq<Worker>, k: nat, w: Worker)
    requires k < |ws|
    ensures Efforts(ws[k := w]) + Effort(ws[k]) == Efforts(ws) + Effort(w)
  {
    var n := |ws| - 1;
    if k == n {
      assert ws[k := w][..n] == ws[..n];
    } else {
      EffortsAfter(ws[..n], k, w);
      assert ws[k := w][..n] == ws[..n][k := w];
    }
  }

  lemma {:induction false} EffortsAtStart(w: nat)
    ensures Efforts(seq(w, _ => Waiting)) == w
  {
    if w > 0 {
      EffortsAtStart(w - 1);
      assert seq(w, _ => Waiting)[..w - 1] == seq(w - 1, _ => Waiting);
    }
  }

  function PhaseEffort(phase: Phase): nat {
    match phase
    case Dispatch => 4
    case Stopped => 3
    case Joining => 2
    case Draining => 1
    case Returned => 0
  }

  /** How many steps can still happen, at most. */
  function Remaining(p: Pool): int {
    5 * (p.n - p.next) + Efforts(p.workers) + |p.out| + PhaseEffort(p.phase) + if p.cancelled then 0 else 1
  }

  lemma StepShrinks(p: Pool, e: Event, verdicts: seq<Option<Candidate>>)
    requires Enabled(p, e, verdicts)
    ensures Remaining(Next(p, e, verdicts)) < Remaining(p)
  {
    hide Efforts;
    var q := Next(p, e, verdicts);
    match e
    case Send(k) => EffortsAfter(p.workers, k, q.workers[k]);
    case Pass(k) => EffortsAfter(p.workers, k, q.workers[k]);
    case Reject(k) => EffortsAfter(p.workers, k, q.workers[k]);
    case Deliver(k) => EffortsAfter(p.workers, k, q.workers[k]);
    case Exit(k) => EffortsAfter(p.workers, k, q.workers[k]);
    case _ =>
  }

  lemma {:induction false} RunKeepsInv(p: Pool, events: seq<Event>, verdicts: seq<Option<Candidate>>)
    requires Inv(p, verdicts) && CanRun(p, events, verdicts)
    ensures Inv(After(p, events, verdicts), verdicts)
    ensures |events| + Remaining(After(p, events, verdicts)) <= Remaining(p)
    decreases |events|
  {
    hide Inv, Next, Enabled, Remaining;
    if events != [] {
      StepKeepsInv(p, events[0], verdicts);
      StepShrinks(p, events[0], verdicts);
      RunKeepsInv(Next(p, events[0], verdicts), events[1..], verdicts);
    }
  }
}
