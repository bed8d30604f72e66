/** What holds of the lazy dialer over whole runs: no use loses its box, no idle box leaks, none is closed too early. */
module LazyDialerRuns {
  import opened Text
  import opened LazyDialerModel

  lemma {:induction false} RunKeepsInv(w: World, events: seq<Event>, idleAfter: int)
    requires Inv(w, idleAfter) && CanRun(w, events, idleAfter)
    ensures Inv(After(w, events, idleAfter), idleAfter)
    decreases |events|
  {
    hide Inv, Next, Enabled;
    if events != [] {
      StepKeepsInv(w, events[0], idleAfter);
      RunKeepsInv(Next(w, events[0], idleAfter), events[1..], idleAfter);
    }
  }

  /** A use that has ended its dial or its connection. */
  predicate Ends(e: Event, u: UseId) {
    e == DialError(u) || e == ConnClose(u)
  }

  /** The outstanding uses: dials in flight and open connections. */
  function UsesOf(w: World): set<UseId> {
    w.dialing.Keys + w.open.Keys
  }

  function BoxOf(w: World, u: UseId): Option<BoxId> {
    if u in w.dialing then Some(w.dialing[u]) else if u in w.open then Some(w.open[u]) else None
  }

  lemma UsesCounted(w: World)
    requires UsesHold(w)
    ensures w.d.active == |UsesOf(w)|
    ensures forall u :: u in UsesOf(w) ==> w.d.box.Some? && BoxOf(w, u) == w.d.box
  {
    assert |w.dialing.Keys + w.open.Keys| == |w.dialing.Keys| + |w.open.Keys|;
  }

  /**
   * Every run from a new dialer: the count is the number of outstanding uses, box and outbound come and go together,
   * no other box is left running, every outstanding use belongs to the box that is open, and an open box that nobody
   * uses has a current timer due idleAfter past its last use.
   */
  lemma DialerIsSafe(events: seq<Event>, idleAfter: int)
    requires CanRun(NEW_WORLD, events, idleAfter)
    ensures var w := After(NEW_WORLD, events, idleAfter);
            && w.d.active == |UsesOf(w)|
            && w.d.outbound == w.d.box
            && w.d.rt.running == (if w.d.box.Some? then {w.d.box.value} else {})
            && (forall u :: u in UsesOf(w) ==> w.d.box.Some? && BoxOf(w, u) == w.d.box)
            && (w.d.active == 0 && w.d.box.Some? ==>
                  && 0 < idleAfter && w.d.timer.Some?
                  && (w.d.timer.value in w.d.rt.fired ||
                      (w.d.timer.value in w.d.rt.armed && w.d.rt.armed[w.d.timer.value] == w.d.lastUsed + idleAfter)))
            && (w.d.active == 0 && idleAfter <= 0 ==> w.d.rt.running == {})
  {
    RunKeepsInv(NEW_WORLD, events, idleAfter);
    var w := After(NEW_WORLD, events, idleAfter);
    hide After, CanRun;
    UsesCounted(w);
    hide UsesOf, OthersStopped;
  }

  // ------------------------------------------------- a use keeps its box

  lemma UseStep(w: World, e: Event, u: UseId, idleAfter: int)
    requires Inv(w, idleAfter) && Enabled(w, e) && BoxOf(w, u).Some? && !Ends(e, u)
    ensures BoxOf(Next(w, e, idleAfter), u) == BoxOf(w, u)
  {
    assert w.dialing.Keys !! w.open.Keys;
    hide Release, Acquire, ResetIdle, CloseIfIdle, Inv;
  }

  /** Whatever else happens, the box of a use stays open until that use ends. */
  lemma {:induction false} UseKeepsItsBox(w: World, events: seq<Event>, u: UseId, idleAfter: int)
    requires Inv(w, idleAfter) && CanRun(w, events, idleAfter) && BoxOf(w, u).Some?
    requires forall e :: e in events ==> !Ends(e, u)
    ensures var v := After(w, events, idleAfter);
            BoxOf(v, u) == BoxOf(w, u) == v.d.box && BoxOf(w, u).value in v.d.rt.running
    decreases |events|
  {
    hide Next, Enabled;
    if events != [] {
      hide Inv;
      StepKeepsInv(w, events[0], idleAfter);
      UseStep(w, events[0], u, idleAfter);
      UseKeepsItsBox(Next(w, events[0], idleAfter), events[1..], u, idleAfter);
    }
  }

  /** While a box is open, acquiring cannot fail: it needs no start. */
  lemma OpenBoxServes(w: World, u: UseId, idleAfter: int)
    requires Inv(w, idleAfter) && w.d.box.Some? && u !in UsesOf(w) && u !in w.closed
    ensures !Enabled(w, AcquireFail) && Enabled(w, AcquireOk(u, false))
    ensures var v := Next(w, AcquireOk(u, false), idleAfter);
            && v.d.box == w.d.box && v.dialing == w.dialing[u := w.d.box.value] && v.open == w.open
            && v.d.active == w.d.active + 1
  {
  }

  /** While none is open, acquiring starts a new one, which serves the new use alone; if it does not start, nothing
      changes. */
  lemma StartsWhenClosed(w: World, u: UseId, idleAfter: int)
    requires Inv(w, idleAfter) && w.d.box.None? && u !in w.closed
    ensures Enabled(w, AcquireOk(u, true))
    ensures var v := Next(w, AcquireOk(u, true), idleAfter);
            && v.d.box.Some? && v.d.box.value >= w.d.rt.boxes && v.d.rt.running == {v.d.box.value}
            && v.d.active == 1 && UsesOf(v) == {u} && BoxOf(v, u) == v.d.box
    ensures Enabled(w, AcquireFail) && Next(w, AcquireFail, idleAfter) == w
  {
    UsesCounted(w);
    assert forall x :: x !in UsesOf(w);
    assert UsesOf(w) == {};
    assert w.dialing == map[] && w.open == map[];
  }

  /** A dial in flight can end both ways: a success keeps the use, a failure gives it back. */
  lemma DialEnds(w: World, u: UseId, idleAfter: int)
    requires Inv(w, idleAfter) && u in w.dialing
    ensures Enabled(w, DialOk(u)) && Enabled(w, DialError(u))
    ensures var v := Next(w, DialOk(u), idleAfter);
            v.d == w.d && UsesOf(v) == UsesOf(w) && BoxOf(v, u) == BoxOf(w, u)
    ensures var v := Next(w, DialError(u), idleAfter);
            v.d.active == w.d.active - 1 && UsesOf(v) == UsesOf(w) - {u}
  {
    DialOkEnds(w, u, idleAfter);
    DialErrorEnds(w, u, idleAfter);
    hide Next, UsesOf, BoxOf, Inv;
  }

  lemma DialOkEnds(w: World, u: UseId, idleAfter: int)
    requires UsesHold(w) && u in w.dialing
    ensures var v := Next(w, DialOk(u), idleAfter);
            v.d == w.d && UsesOf(v) == UsesOf(w) && BoxOf(v, u) == BoxOf(w, u)
  {
    hide UsesHold;
    var v := Next(w, DialOk(u), idleAfter);
    assert v.dialing.Keys == w.dialing.Keys - {u} && v.open.Keys == w.open.Keys + {u};
  }

  lemma DialErrorEnds(w: World, u: UseId, idleAfter: int)
    requires UsesHold(w) && u in w.dialing
    ensures var v := Next(w, DialError(u), idleAfter);
            v.d.active == w.d.active - 1 && UsesOf(v) == UsesOf(w) - {u}
  {
    UsesCounted(w);
    var uses := UsesOf(w);
    assert u in uses && |uses| > 0;
    hide ScheduleIdleClose, UsesHold;
    IdleCloseKeepsCount(w.d.(active := w.d.active - 1, lastUsed := w.now), idleAfter, w.now);
    assert u !in w.open by { UseApart(w, u); }
  }

  lemma UseApart(w: World, u: UseId)
    requires UsesHold(w)
    ensures !(u in w.dialing && u in w.open)
  {
  }

  lemma IdleCloseKeepsCount(d: Dialer, idleAfter: int, now: Moment)
    ensures ScheduleIdleClose(d, idleAfter, now).active == d.active
  {
  }

  /** A connection gives its use back the first time it is closed; closing it again changes nothing. */
  lemma ClosesOnce(w: World, u: UseId, idleAfter: int)
    requires Inv(w, idleAfter) && u in w.open
    ensures Enabled(w, ConnClose(u))
    ensures var v := Next(w, ConnClose(u), idleAfter);
            && v.d.active == w.d.active - 1 && UsesOf(v) == UsesOf(w) - {u}
            && Enabled(v, ConnClose(u)) && Next(v, ConnClose(u), idleAfter) == v
  {
    hide TimerCurrent, OthersStopped, OneBox;
    UsesCounted(w);
    UseApart(w, u);
    var uses := UsesOf(w);
    assert u in uses && |uses| > 0;
    hide ScheduleIdleClose, UsesHold;
    IdleCloseKeepsCount(w.d.(active := w.d.active - 1, lastUsed := w.now), idleAfter, w.now);
    assert (w.open - {u}).Keys == w.open.Keys - {u};
  }

  // ------------------------------------------------ an idle box is closed

  predicate Idle(w: World, t: TimerId, since: Moment) {
    w.d.timer == Some(t) && w.d.lastUsed == since
  }

  lemma IdleStep(w: World, e: Event, t: TimerId, idleAfter: int)
    requires Inv(w, idleAfter) && Enabled(w, e) && !e.AcquireOk?
    requires w.d.active == 0 && (w.d.box.None? || w.d.timer == Some(t))
    ensures var v := Next(w, e, idleAfter);
            && v.d.active == 0
            && (w.d.box.None? ==> v.d.box.None?)
            && (v.d.box.None? || Idle(v, t, w.d.lastUsed))
            && (e == Callback(t) ==> v.d.box.None?)
  {
    NoUseLeft(w);
  }

  /** From an idle box on: unless a new use comes, its timer stays current until it is closed, and its firing closes
      it. */
  lemma {:induction false} FiringCloses(w: World, events: seq<Event>, t: TimerId, idleAfter: int)
    requires Inv(w, idleAfter) && CanRun(w, events, idleAfter)
    requires w.d.active == 0 && (w.d.box.None? || w.d.timer == Some(t))
    requires forall e :: e in events ==> !e.AcquireOk?
    ensures var v := After(w, events, idleAfter);
            && (v.d.box.None? || Idle(v, t, w.d.lastUsed))
            && (w.d.box.None? || Callback(t) in events ==> v.d.box.None? && v.d.rt.running == {})
    decreases |events|
  {
    hide Next, Enabled;
    if events == [] {
    } else {
      hide Inv;
      StepKeepsInv(w, events[0], idleAfter);
      IdleStep(w, events[0], t, idleAfter);
      FiringCloses(Next(w, events[0], idleAfter), events[1..], t, idleAfter);
    }
  }

  function ClosingRun(w: World, t: TimerId, idleAfter: int): seq<Event> {
    if t in w.d.rt.fired then [Callback(t)]
    else if w.d.lastUsed + idleAfter <= w.now then [Expire(t), Callback(t)]
    else [Tick(w.d.lastUsed + idleAfter)] + [Expire(t), Callback(t)]
  }

  lemma CallbackCanRun(w: World, t: TimerId, idleAfter: int)
    requires t in w.d.rt.fired
    ensures CanRun(w, [Callback(t)], idleAfter)
  {
    assert [Callback(t)][1..] == [];
  }

  lemma ExpireCanRun(w: World, t: TimerId, idleAfter: int)
    requires t in w.d.rt.armed && w.d.rt.armed[t] <= w.now
    ensures CanRun(w, [Expire(t), Callback(t)], idleAfter)
  {
    CallbackCanRun(Next(w, Expire(t), idleAfter), t, idleAfter);
    assert [Expire(t), Callback(t)][1..] == [Callback(t)];
  }

  lemma TickCanRun(w: World, to: Moment, run: seq<Event>, idleAfter: int)
    requires w.now <= to && CanRun(w.(now := to), run, idleAfter)
    ensures CanRun(w, [Tick(to)] + run, idleAfter)
  {
    assert ([Tick(to)] + run)[1..] == run;
  }

  lemma ClosingRunCanRun(w: World, t: TimerId, idleAfter: int)
    requires t in w.d.rt.fired || (t in w.d.rt.armed && w.d.rt.armed[t] == w.d.lastUsed + idleAfter && 0 < idleAfter)
    ensures CanRun(w, ClosingRun(w, t, idleAfter), idleAfter) && Callback(t) in ClosingRun(w, t, idleAfter)
  {
    hide CanRun;
    if t in w.d.rt.fired {
      CallbackCanRun(w, t, idleAfter);
    } else if w.d.lastUsed + idleAfter <= w.now {
      ExpireCanRun(w, t, idleAfter);
    } else {
      var due := w.d.lastUsed + idleAfter;
      ExpireCanRun(w.(now := due), t, idleAfter);
      TickCanRun(w, due, [Expire(t), Callback(t)], idleAfter);
    }
  }

  /** The timer of an idle box can always go on to fire, and then the box is gone: no state leaks a box. */
  lemma IdleBoxCanClose(w: World, idleAfter: int)
    requires Inv(w, idleAfter) && w.d.box.Some? && w.d.active == 0
    ensures w.d.timer.Some?
    ensures var run := ClosingRun(w, w.d.timer.value, idleAfter);
            CanRun(w, run, idleAfter) && After(w, run, idleAfter).d.rt.running == {}
  {
    hide CanRun, After, Next;
    ClosingRunCanRun(w, w.d.timer.value, idleAfter);
    FiringCloses(w, ClosingRun(w, w.d.timer.value, idleAfter), w.d.timer.value, idleAfter);
  }

  /** A reset in any reachable state: an unused dialer is left without box, outbound or timer, whatever was idle; one in
      use is left exactly as it was. */
  lemma ResetClosesIdle(events: seq<Event>, idleAfter: int)
    requires CanRun(NEW_WORLD, events, idleAfter)
    ensures var w := After(NEW_WORLD, events, idleAfter);
            var v := Next(w, Reset, idleAfter);
            if UsesOf(w) == {}
            then && v.d.box == None && v.d.outbound == None && v.d.timer == None
                 && v.d.rt.running == {} && v.d.rt.armed == map[]
                 && v.d.active == 0 && v.d.lastUsed == w.d.lastUsed && UsesOf(v) == {}
            else v == w
  {
    hide After, CanRun;
    RunKeepsInv(NEW_WORLD, events, idleAfter);
    var w := After(NEW_WORLD, events, idleAfter);
    ResetEffect(w, idleAfter);
  }

  lemma ResetEffect(w: World, idleAfter: int)
    requires Inv(w, idleAfter)
    ensures var v := Next(w, Reset, idleAfter);
            if UsesOf(w) == {}
            then && v.d.box == None && v.d.outbound == None && v.d.timer == None
                 && v.d.rt.running == {} && v.d.rt.armed == map[]
                 && v.d.active == 0 && v.d.lastUsed == w.d.lastUsed && UsesOf(v) == {}
            else v == w
  {
    UsesCounted(w);
    var v := Next(w, Reset, idleAfter);
    if UsesOf(w) == {} {
      assert w.d.rt.armed.Keys <= if w.d.timer.Some? then {w.d.timer.value} else {};
    }
  }

  // ----------------------------------------------- no box closed too early

  /** The moments at which a run acquired or released the box. */
  function Touches(w: World, events: seq<Event>, idleAfter: int): (touches: seq<Moment>)
    requires CanRun(w, events, idleAfter)
    decreases |events|
  {
    if events == [] then []
    else
      var rest := Touches(Next(w, events[0], idleAfter), events[1..], idleAfter);
      if events[0].AcquireOk? || events[0].DialError? || (events[0].ConnClose? && events[0].use in w.open)
      then [w.now] + rest else rest
  }

  lemma LastUsedMoves(w: World, e: Event, idleAfter: int)
    requires Enabled(w, e)
    ensures Next(w, e, idleAfter).d.lastUsed ==
            if e.AcquireOk? || e.DialError? || (e.ConnClose? && e.use in w.open) then w.now else w.d.lastUsed
  {
  }

  lemma {:induction false} TouchesReachLastUsed(w: World, events: seq<Event>, idleAfter: int)
    requires Inv(w, idleAfter) && CanRun(w, events, idleAfter)
    ensures forall m :: m in Touches(w, events, idleAfter) ==> m <= After(w, events, idleAfter).d.lastUsed
    ensures w.d.lastUsed <= After(w, events, idleAfter).d.lastUsed
    ensures Touches(w, events, idleAfter) == [] ==> After(w, events, idleAfter).d.lastUsed == w.d.lastUsed
    ensures Touches(w, events, idleAfter) != [] ==>
              After(w, events, idleAfter).d.lastUsed in Touches(w, events, idleAfter)
    decreases |events|
  {
    hide Next, Enabled;
    if events != [] {
      StepKeepsInv(w, events[0], idleAfter);
      LastUsedMoves(w, events[0], idleAfter);
      TouchesReachLastUsed(Next(w, events[0], idleAfter), events[1..], idleAfter);
    }
  }

  lemma {:induction false} StartIsATouch(w: World, events: seq<Event>, idleAfter: int)
    requires CanRun(w, events, idleAfter) && w.d.box.None?
    requires Touches(w, events, idleAfter) == []
    ensures After(w, events, idleAfter).d.box.None?
    decreases |events|
  {
    if events != [] {
      assert Next(w, events[0], idleAfter).d.box.None?;
      StartIsATouch(Next(w, events[0], idleAfter), events[1..], idleAfter);
    }
  }

  /**
   * A firing, current or stale, closes the box exactly when nobody uses it and the last acquire or release of the whole
   * run lies idleAfter or more in the past.
   */
  lemma ClosesOnlyWhenIdle(events: seq<Event>, t: TimerId, idleAfter: int)
    requires CanRun(NEW_WORLD, events, idleAfter)
    requires var w := After(NEW_WORLD, events, idleAfter); t in w.d.rt.fired && w.d.box.Some?
    ensures var w := After(NEW_WORLD, events, idleAfter);
            Next(w, Callback(t), idleAfter).d.box.None? <==>
            (UsesOf(w) == {} && forall m :: m in Touches(NEW_WORLD, events, idleAfter) ==> m + idleAfter <= w.now)
  {
    hide Touches, CanRun, After;
    RunKeepsInv(NEW_WORLD, events, idleAfter);
    TouchesReachLastUsed(NEW_WORLD, events, idleAfter);
    var w := After(NEW_WORLD, events, idleAfter);
    if Touches(NEW_WORLD, events, idleAfter) == [] {
      StartIsATouch(NEW_WORLD, events, idleAfter);
    }
    NoUseLeft(w);
    assert UsesOf(w) == {} <==> w.dialing == map[] && w.open == map[];
  }
}
