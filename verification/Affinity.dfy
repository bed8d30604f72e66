/**
 * Session affinity over runs of whole requests (internal/proxy/server.go over internal/core/session.go): once a request
 * has bound its session, later requests on that session try the bound candidate first.
 */
module Affinity {
  import opened Candidates
  import opened Usernames
  import opened SessionModel
  import opened SessionRefinement
  import opened Scopes
  import opened Scheduler

  /** A run of the session table: single operations by anyone, and requests as DialScheduled carries them out. */
  datatype Step = Single(e: Event) | Whole(q: Request)

  function EventsOf(steps: seq<Step>): seq<Event>
    decreases |steps|
  {
    if steps == [] then []
    else (match steps[0] case Single(e) => [e] case Whole(q) => q.events) + EventsOf(steps[1..])
  }

  function TableAfter(cfg: Config, t: Table, step: Step): Table {
    match step
    case Single(e) => StepTable(cfg, t, e).0
    case Whole(q) => RunTable(cfg, t, q.events).0
  }

  /** Each request of the run starts with a lookup on the table it finds, as DialScheduled promises. */
  ghost predicate AllLookUpFirst(cfg: Config, t: Table, steps: seq<Step>)
    decreases |steps|
  {
    steps == [] ||
    ((steps[0].Whole? ==> LooksUpFirst(t, steps[0].q)) && AllLookUpFirst(cfg, TableAfter(cfg, t, steps[0]), steps[1..]))
  }

  lemma StepEvents(cfg: Config, t: Table, step: Step, rest: seq<Event>)
    ensures RunTable(cfg, TableAfter(cfg, t, step), rest).0 == RunTable(cfg, t, EventsOf([step]) + rest).0
    ensures EventsOf([step]) == match step case Single(e) => [e] case Whole(q) => q.events
  {
    hide StepTable;
    assert [step][1..] == [];
    assert EventsOf([step]) == match step case Single(e) => [e] case Whole(q) => q.events;
    match step
    case Single(e) => assert ([e] + rest)[1..] == rest;
    case Whole(q) => RunConcat(cfg, t, q.events, rest);
  }

  /** The i-th request finds the table that the events before it lead to. */
  lemma {:induction false} RequestFinds(cfg: Config, t: Table, steps: seq<Step>, i: nat)
    requires AllLookUpFirst(cfg, t, steps) && i < |steps| && steps[i].Whole?
    ensures LooksUpFirst(RunTable(cfg, t, EventsOf(steps[..i])).0, steps[i].q)
    decreases i
  {
    hide StepTable, LooksUpFirst;
    if i == 0 {
      assert EventsOf(steps[..0]) == [];
    } else {
      var rest := steps[1..];
      RequestFinds(cfg, TableAfter(cfg, t, steps[0]), rest, i - 1);
      StepEvents(cfg, t, steps[0], EventsOf(rest[..i - 1]));
      assert steps[..i][1..] == rest[..i - 1];
      assert EventsOf(steps[..i]) == EventsOf([steps[0]]) + EventsOf(rest[..i - 1]);
    }
  }

  lemma {:induction false} LastAnswer(cfg: Config, t: Table, events: seq<Event>, e: Event)
    ensures RunTable(cfg, t, events + [e]).1[|events|] == StepTable(cfg, RunTable(cfg, t, events).0, e).1
    decreases |events|
  {
    hide StepTable;
    if events == [] {
      assert (events + [e])[1..] == [];
    } else {
      assert (events + [e])[1..] == events[1..] + [e];
      LastAnswer(cfg, StepTable(cfg, t, events[0]).0, events[1..], e);
    }
  }

  /** What a lookup that answers with a candidate makes its request try first. */
  lemma ServedFirst(t: Table, q: Request, cfg: Config, fp: Fingerprint)
    requires LooksUpFirst(t, q) && Served(StepTable(cfg, t, q.events[0]).1, q.events[0], fp)
    ensures fp in q.pool.items && q.tried != [] && q.tried[0] == q.pool.items[fp]
  {
    hide GetBound;
  }

  /**
   * From a table that binds the session, over any run of single operations and requests: as long as the session's
   * binding is used in time, usable and not taken away, each request on the session tries the bound candidate first,
   * however that request then ends.
   */
  lemma FirstAttemptStays(cfg: Config, t: Table, steps: seq<Step>, i: nat, key: string, fp: Fingerprint, ttl: int,
                          last: int, from: int)
    requires key != "" && BoundSince(t, key, fp, ttl, last) && AllLookUpFirst(cfg, t, steps)
    requires i < |steps| && steps[i].Whole? && BindingKey(steps[i].q.info) == key && steps[i].q.events != []
    requires var used := EventsOf(steps[..i]) + [steps[i].q.events[0]];
             InOrder(from, used) && UsedInTime(cfg, used, key, fp, ttl, last)
    ensures var q := steps[i].q; fp in q.pool.items && q.tried != [] && q.tried[0] == q.pool.items[fp]
  {
    hide StepTable, BindingKey, UsedInTime, LooksUpFirst, Served, InOrder;
    var before, q := EventsOf(steps[..i]), steps[i].q;
    RequestFinds(cfg, t, steps, i);
    StartsWithLookup(RunTable(cfg, t, before).0, q);
    assert (before + [q.events[0]])[|before|] == q.events[0];
    AffinityLasts(cfg, t, before + [q.events[0]], key, fp, ttl, last, from, |before|);
    LastAnswer(cfg, t, before, q.events[0]);
    ServedFirst(RunTable(cfg, t, before).0, q, cfg, fp);
  }

  lemma StartsWithLookup(t: Table, q: Request)
    requires LooksUpFirst(t, q)
    ensures q.events[0].op == Get(q.info) && KeyOf(q.events[0]) == BindingKey(q.info)
  {
  }

  /** Hence after a request that ended by binding its session to a candidate, that candidate is tried first again. */
  lemma WinnerIsTriedFirst(cfg: Config, t: Table, first: Request, winner: Fingerprint, steps: seq<Step>, i: nat)
    requires first.info.sessionID != ""
    requires EndsBound(cfg, RunTable(cfg, t, first.events).0, first.info, winner, first.events)
    requires AllLookUpFirst(cfg, t, [Whole(first)] + steps)
    requires i < |steps| && steps[i].Whole? && steps[i].q.events != []
    requires BindingKey(steps[i].q.info) == BindingKey(first.info)
    requires var boundAt := first.events[|first.events| - 1].at;
             var used := EventsOf(steps[..i]) + [steps[i].q.events[0]];
             && InOrder(boundAt, used)
             && UsedInTime(cfg, used, BindingKey(first.info), winner,
                           Clamp(first.info.ttl, cfg.defaultTTL, cfg.maxTTL), boundAt)
    ensures var q := steps[i].q; winner in q.pool.items && q.tried != [] && q.tried[0] == q.pool.items[winner]
  {
    hide BindingKey, UsedInTime, InOrder, RunTable, LooksUpFirst, Clamp;
    var boundAt := first.events[|first.events| - 1].at;
    assert ([Whole(first)] + steps)[1..] == steps;
    KeyNotEmpty(first.info);
    FirstAttemptStays(cfg, RunTable(cfg, t, first.events).0, steps, i, BindingKey(first.info),
                      winner, Clamp(first.info.ttl, cfg.defaultTTL, cfg.maxTTL), boundAt, boundAt);
  }
}
