/**
 * The lazily started sing-box outbound (internal/plugins/singbox/singbox.go): a reference-counted box that an idle
 * timer closes. Go's Timer.Stop does not recall a callback that has already started, so a timer is armed, then fired
 * (its callback waits for the mutex), then gone.
 */
module LazyDialerModel {
  import opened Text

  type Moment = nat
  type BoxId = nat
  type TimerId = nat
  type UseId = nat

  /** What lives outside the dialer: Go's timers and the boxes of the sing-box library. */
  datatype Runtime = Runtime(armed: map<TimerId, Moment>, fired: set<TimerId>, timers: nat, running: set<BoxId>,
                             boxes: nat) {
    function Stop(id: TimerId): Runtime {
      this.(armed := armed - {id})
    }

    function AfterFunc(due: Moment): Runtime {
      this.(armed := armed[timers := due], timers := timers + 1)
    }

    function StartBox(): Runtime {
      this.(running := running + {boxes}, boxes := boxes + 1)
    }

    function CloseBox(id: BoxId): Runtime {
      this.(running := running - {id})
    }
  }

  /** The dialer's fields; an outbound is named by the box it belongs to. */
  datatype Dialer = Dialer(box: Option<BoxId>, outbound: Option<BoxId>, active: int, lastUsed: Moment,
                           timer: Option<TimerId>,
                           rt: Runtime)

  const NEW_DIALER := Dialer(None, None, 0, 0, None, Runtime(map[], {}, 0, {}, 0))

  function StopTimer(d: Dialer): Dialer {
    if d.timer.Some? then d.(timer := None, rt := d.rt.Stop(d.timer.value)) else d
  }

  function Ensure(d: Dialer, starts: bool): Dialer {
    if d.box.Some? && d.outbound.Some? then d
    else if starts then d.(box := Some(d.rt.boxes), outbound := Some(d.rt.boxes), rt := d.rt.StartBox())
    else d
  }

  predicate Acquires(d: Dialer, starts: bool) {
    starts || (d.box.Some? && d.outbound.Some?)
  }

  function Acquire(d: Dialer, starts: bool, now: Moment): Dialer {
    var e := Ensure(StopTimer(d), starts);
    if Acquires(d, starts) then e.(active := e.active + 1, lastUsed := now) else e
  }

  function CloseBox(d: Dialer): Dialer {
    var e := StopTimer(d);
    e.(box := None, outbound := None, rt := if d.box.Some? then e.rt.CloseBox(d.box.value) else e.rt)
  }

  function ScheduleIdleClose(d: Dialer, idleAfter: int, now: Moment): Dialer {
    if d.box.None? then d
    else if idleAfter <= 0 then CloseBox(d)
    else
      var e := StopTimer(d);
      e.(timer := Some(e.rt.timers), rt := e.rt.AfterFunc(now + idleAfter))
  }

  function Release(d: Dialer, idleAfter: int, now: Moment): Dialer {
    var e := d.(active := if d.active > 0 then d.active - 1 else d.active, lastUsed := now);
    if e.active == 0 then ScheduleIdleClose(e, idleAfter, now) else e
  }

  function ResetIdle(d: Dialer): Dialer {
    if d.active == 0 then CloseBox(d) else d
  }

  function CloseIfIdle(d: Dialer, idleAfter: int, now: Moment): Dialer {
    if d.active == 0 && d.box.Some? && now - d.lastUsed >= idleAfter then CloseBox(d) else d
  }

  // ------------------------------------------------------------------ runs

  /** The dialer among its users: dials in flight, connections handed out, connections closed at least once. */
  datatype World = World(d: Dialer, dialing: map<UseId, BoxId>, open: map<UseId, BoxId>, closed: set<UseId>,
                         now: Moment)

  const NEW_WORLD := World(NEW_DIALER, map[], map[], {}, 0)

  datatype Event =
    | AcquireOk(use: UseId, starts: bool)
    | AcquireFail
    | DialError(use: UseId)
    | DialOk(use: UseId)
    | ConnClose(use: UseId)
    | Reset
    | Expire(timer: TimerId)
    | Callback(timer: TimerId)
    | Tick(to: Moment)

  predicate Enabled(w: World, e: Event) {
    match e
    case AcquireOk(u, starts) => u !in w.dialing && u !in w.open && u !in w.closed && Acquires(w.d, starts)
    case AcquireFail => !Acquires(w.d, false)
    case DialError(u) => u in w.dialing
    case DialOk(u) => u in w.dialing
    case ConnClose(u) => u in w.open || u in w.closed
    case Reset => true
    case Expire(t) => t in w.d.rt.armed && w.d.rt.armed[t] <= w.now
    case Callback(t) => t in w.d.rt.fired
    case Tick(to) => w.now <= to
  }

  function Next(w: World, e: Event, idleAfter: int): World
    requires Enabled(w, e)
  {
    match e
    case AcquireOk(u, starts) =>
      var d := Acquire(w.d, starts, w.now);
      w.(d := d, dialing := w.dialing[u := if d.outbound.Some? then d.outbound.value else d.rt.boxes])
    case AcquireFail => w.(d := Acquire(w.d, false, w.now))
    case DialError(u) => w.(d := Release(w.d, idleAfter, w.now), dialing := w.dialing - {u})
    case DialOk(u) => w.(dialing := w.dialing - {u}, open := w.open[u := w.dialing[u]])
    case ConnClose(u) =>
      if u in w.open then w.(d := Release(w.d, idleAfter, w.now), open := w.open - {u}, closed := w.closed + {u}) else w
    case Reset => w.(d := ResetIdle(w.d))
    case Expire(t) => w.(d := w.d.(rt := w.d.rt.(armed := w.d.rt.armed - {t}, fired := w.d.rt.fired + {t})))
    case Callback(t) => w.(d := CloseIfIdle(w.d.(rt := w.d.rt.(fired := w.d.rt.fired - {t})), idleAfter, w.now))
    case Tick(to) => w.(now := to)
  }

  predicate CanRun(w: World, events: seq<Event>, idleAfter: int)
    decreases |events|
  {
    events == [] || (Enabled(w, events[0]) && CanRun(Next(w, events[0], idleAfter), events[1..], idleAfter))
  }

  function After(w: World, events: seq<Event>, idleAfter: int): World
    requires CanRun(w, events, idleAfter)
    decreases |events|
  {
    if events == [] then w else After(Next(w, events[0], idleAfter), events[1..], idleAfter)
  }

  // ------------------------------------------------------------- invariant

  /** Box and outbound stand together, and the boxes running are exactly the one the dialer knows. */
  ghost predicate OneBox(d: Dialer) {
    && d.outbound == d.box
    && d.rt.running == (if d.box.Some? then {d.box.value} else {})
    && (d.box.Some? ==> d.box.value < d.rt.boxes)
  }

  ghost predicate UsesHold(w: World) {
    && w.d.active == |w.dialing| + |w.open|
    && (forall u :: u in w.dialing ==> w.d.box == Some(w.dialing[u]))
    && (forall u :: u in w.open ==> w.d.box == Some(w.open[u]))
    && w.dialing.Keys !! w.open.Keys
  }

  /** A timer is current exactly while an open box is idle under a positive limit, and it is still to fire or has
      fired. */
  ghost predicate TimerCurrent(d: Dialer, idleAfter: int, now: Moment) {
    && (d.timer.Some? <==> d.active == 0 && d.box.Some?)
    && (d.timer.Some? ==> 0 < idleAfter)
    && (d.timer.Some? ==> d.timer.value in d.rt.armed || d.timer.value in d.rt.fired)
    && (d.timer.Some? && d.timer.value in d.rt.armed ==> d.rt.armed[d.timer.value] == d.lastUsed + idleAfter)
    && (d.timer.Some? && d.timer.value in d.rt.fired ==> d.lastUsed + idleAfter <= now)
  }

  /** No timer but the current one is armed; the others have fired or were stopped. */
  ghost predicate OthersStopped(d: Dialer) {
    && (forall t :: t in d.rt.armed ==> d.timer == Some(t))
    && (forall t :: t in d.rt.armed || t in d.rt.fired ==> t < d.rt.timers)
    && d.rt.armed.Keys !! d.rt.fired
  }

  ghost predicate Inv(w: World, idleAfter: int) {
    && OneBox(w.d)
    && UsesHold(w)
    && TimerCurrent(w.d, idleAfter, w.now)
    && OthersStopped(w.d)
    && w.d.lastUsed <= w.now
  }

  lemma RemoveKey<K, V>(m: map<K, V>, k: K)
    requires k in m
    ensures |m - {k}| == |m| - 1
  {
    assert (m - {k}).Keys == m.Keys - {k};
  }

  lemma AddKey<K, V>(m: map<K, V>, k: K, v: V)
    requires k !in m
    ensures |m[k := v]| == |m| + 1
  {
    assert m[k := v].Keys == m.Keys + {k};
  }

  lemma NoUseLeft(w: World)
    requires UsesHold(w)
    ensures w.d.active >= 0
    ensures w.d.active == 0 ==> w.dialing == map[] && w.open == map[]
  {
  }

  lemma AcquireKeeps(w: World, u: UseId, starts: bool, idleAfter: int)
    requires Inv(w, idleAfter) && Enabled(w, AcquireOk(u, starts))
    ensures var v := Next(w, AcquireOk(u, starts), idleAfter);
            && Inv(v, idleAfter)
            && v.d.box.Some? && (w.d.box.Some? ==> v.d.box == w.d.box) && v.d.timer.None?
            && v.dialing == w.dialing[u := v.d.box.value] && v.open == w.open && v.d.active == w.d.active + 1
  {
    NoUseLeft(w);
    AddKey(w.dialing, u, Acquire(w.d, starts, w.now).outbound.value);
  }

  lemma ReleaseKeeps(w: World, idleAfter: int, dialing: map<UseId, BoxId>, open: map<UseId, BoxId>, closed: set<UseId>)
    requires Inv(w, idleAfter) && 0 < w.d.active
    requires |dialing| + |open| == w.d.active - 1
    requires dialing.Keys <= w.dialing.Keys && open.Keys <= w.open.Keys
    requires forall u :: u in dialing ==> dialing[u] == w.dialing[u]
    requires forall u :: u in open ==> open[u] == w.open[u]
    ensures var d := Release(w.d, idleAfter, w.now);
            && Inv(World(d, dialing, open, closed, w.now), idleAfter)
            && d.active == w.d.active - 1 && d.lastUsed == w.now
            && (d.active > 0 || idleAfter > 0 ==> d.box == w.d.box)
            && (d.active == 0 && idleAfter <= 0 ==> d.box.None? && d.rt.running == {})
            && (d.timer.Some? <==> d.active == 0 && idleAfter > 0)
  {
    assert w.d.box.Some? by {
      if w.dialing == map[] {
        var u :| u in w.open;
      } else {
        var u :| u in w.dialing;
      }
    }
    assert w.d.timer.None?;
    assert w.d.active == 1 ==> dialing == map[] && open == map[];
  }

  lemma DialOkKeeps(w: World, u: UseId, idleAfter: int)
    requires Inv(w, idleAfter) && u in w.dialing
    ensures Inv(Next(w, DialOk(u), idleAfter), idleAfter)
  {
    RemoveKey(w.dialing, u);
    AddKey(w.open, u, w.dialing[u]);
  }

  lemma DialErrorKeeps(w: World, u: UseId, idleAfter: int)
    requires Inv(w, idleAfter) && u in w.dialing
    ensures Inv(Next(w, DialError(u), idleAfter), idleAfter)
  {
    hide Release, OneBox, TimerCurrent, OthersStopped;
    RemoveKey(w.dialing, u);
    ReleaseKeeps(w, idleAfter, w.dialing - {u}, w.open, w.closed);
  }

  lemma ConnCloseKeeps(w: World, u: UseId, idleAfter: int)
    requires Inv(w, idleAfter) && u in w.open
    ensures Inv(Next(w, ConnClose(u), idleAfter), idleAfter)
  {
    hide Release, OneBox, TimerCurrent, OthersStopped;
    RemoveKey(w.open, u);
    ReleaseKeeps(w, idleAfter, w.dialing, w.open - {u}, w.closed + {u});
  }

  lemma ResetKeeps(w: World, idleAfter: int)
    requires Inv(w, idleAfter)
    ensures Inv(Next(w, Reset, idleAfter), idleAfter)
  {
    if w.d.active == 0 {
      NoUseLeft(w);
    }
  }

  lemma ExpireKeeps(w: World, t: TimerId, idleAfter: int)
    requires Inv(w, idleAfter) && Enabled(w, Expire(t))
    ensures Inv(Next(w, Expire(t), idleAfter), idleAfter)
  {
  }

  lemma CallbackKeeps(w: World, t: TimerId, idleAfter: int)
    requires Inv(w, idleAfter) && t in w.d.rt.fired
    ensures Inv(Next(w, Callback(t), idleAfter), idleAfter)
  {
    NoUseLeft(w);
  }

  lemma QuietStepKeeps(w: World, e: Event, idleAfter: int)
    requires Inv(w, idleAfter) && Enabled(w, e)
    requires e.AcquireFail? || e.Tick? || (e.ConnClose? && e.use !in w.open)
    ensures Inv(Next(w, e, idleAfter), idleAfter)
    ensures e.Tick? || Next(w, e, idleAfter) == w
  {
  }

  /** Every step keeps the invariant. */
  lemma StepKeepsInv(w: World, e: Event, idleAfter: int)
    requires Inv(w, idleAfter) && Enabled(w, e)
    ensures Inv(Next(w, e, idleAfter), idleAfter)
  {
    hide Inv, Next, Acquires;
    match e
    case AcquireOk(u, starts) => AcquireKeeps(w, u, starts, idleAfter);
    case DialError(u) => DialErrorKeeps(w, u, idleAfter);
    case DialOk(u) => DialOkKeeps(w, u, idleAfter);
    case Reset => ResetKeeps(w, idleAfter);
    case Expire(t) => ExpireKeeps(w, t, idleAfter);
    case Callback(t) => CallbackKeeps(w, t, idleAfter);
    case ConnClose(u) =>
      if u in w.open {
        ConnCloseKeeps(w, u, idleAfter);
      } else {
        QuietStepKeeps(w, e, idleAfter);
      }
    case _ => QuietStepKeeps(w, e, idleAfter);
  }
}
