/** The lazy sing-box dialer as an object (internal/plugins/singbox/singbox.go); each method is one mutex region. */
module LazyDialers {
  import opened Text
  import opened LazyDialerModel

  class LazyOutboundDialer {
    const idleAfter: int
    var box: Option<BoxId>
    var outbound: Option<BoxId>
    var active: int
    var lastUsed: Moment
    var timer: Option<TimerId>
    /** The timers and boxes this dialer has made, as the world outside sees them. */
    var rt: Runtime

    constructor (idleAfter: int)
      ensures this.idleAfter == idleAfter && State() == NEW_DIALER
    {
      this.idleAfter := idleAfter;
      box, outbound, active, lastUsed, timer := None, None, 0, 0, None;
      rt := NEW_DIALER.rt;
    }

    function State(): Dialer
      reads this
    {
      Dialer(box, outbound, active, lastUsed, timer, rt)
    }

    method Acquire(starts: bool, now: Moment) returns (r: Option<BoxId>)
      modifies this
      ensures State() == LazyDialerModel.Acquire(old(State()), starts, now)
      ensures r.Some? <==> Acquires(old(State()), starts)
      ensures r.Some? ==> r == outbound
    {
      if timer.Some? {
        rt, timer := rt.Stop(timer.value), None;
      }
      r := EnsureLocked(starts);
      if r.None? {
        return;
      }
      active := active + 1;
      lastUsed := now;
    }

    /** The running outbound, started first if need be; `starts` is whether the library would start it now. */
    method EnsureLocked(starts: bool) returns (r: Option<BoxId>)
      modifies this
      ensures State() == Ensure(old(State()), starts)
      ensures r.Some? <==> Acquires(old(State()), starts)
      ensures r.Some? ==> r == outbound
    {
      if box.Some? && outbound.Some? {
        return outbound;
      }
      if !starts {
        return None;
      }
      var id := rt.boxes;
      rt := rt.StartBox();
      box := Some(id);
      outbound := Some(id);
      r := outbound;
    }

    method Release(now: Moment)
      modifies this
      ensures State() == LazyDialerModel.Release(old(State()), idleAfter, now)
    {
      if active > 0 {
        active := active - 1;
      }
      lastUsed := now;
      if active == 0 {
        ScheduleIdleCloseLocked(now);
      }
    }

    method ResetIdleCache()
      modifies this
      ensures State() == ResetIdle(old(State()))
    {
      if active == 0 {
        CloseLocked();
      }
    }

    method ScheduleIdleCloseLocked(now: Moment)
      modifies this
      ensures State() == ScheduleIdleClose(old(State()), idleAfter, now)
    {
      if box.None? {
        return;
      }
      if idleAfter <= 0 {
        CloseLocked();
        return;
      }
      if timer.Some? {
        rt := rt.Stop(timer.value);
      }
      timer := Some(rt.timers);
      rt := rt.AfterFunc(now + idleAfter);
    }

    method CloseIfIdle(now: Moment)
      modifies this
      ensures State() == LazyDialerModel.CloseIfIdle(old(State()), idleAfter, now)
    {
      if active == 0 && box.Some? && now - lastUsed >= idleAfter {
        CloseLocked();
      }
    }

    method CloseLocked()
      modifies this
      ensures State() == CloseBox(old(State()))
    {
      if timer.Some? {
        rt, timer := rt.Stop(timer.value), None;
      }
      var b := box;
      box := None;
      outbound := None;
      if b.Some? {
        rt := rt.CloseBox(b.value);
      }
    }

    /**
     * Acquire, dial through the outbound, and either hand out a connection that releases once or release at once.
     * `dials` is the outcome of the dial; the dialer is free for others between the two regions, so this is the case
     * of no interference, and LazyDialerRuns interleaves the regions.
     */
    method DialContext(starts: bool, dials: bool, acquiredAt: Moment, dialedAt: Moment)
      returns (conn: Option<ManagedConn>)
      modifies this
      ensures conn.Some? <==> Acquires(old(State()), starts) && dials
      ensures conn.Some? ==>
                && fresh(conn.value) && conn.value.dialer == this && !conn.value.released
                && State() == LazyDialerModel.Acquire(old(State()), starts, acquiredAt)
      ensures Acquires(old(State()), starts) && !dials ==>
                var acquired := LazyDialerModel.Acquire(old(State()), starts, acquiredAt);
                State() == LazyDialerModel.Release(acquired, idleAfter, dialedAt)
      ensures !Acquires(old(State()), starts) ==> State() == LazyDialerModel.Acquire(old(State()), starts, acquiredAt)
    {
      var r := Acquire(starts, acquiredAt);
      if r.None? {
        return None;
      }
      if !dials {
        Release(dialedAt);
        return None;
      }
      var c := new ManagedConn(this);
      conn := Some(c);
    }
  }

  /** A connection that gives its use of the dialer back the first time it is closed. */
  class ManagedConn {
    const dialer: LazyOutboundDialer
    var released: bool

    constructor (dialer: LazyOutboundDialer)
      ensures this.dialer == dialer && !released
    {
      this.dialer := dialer;
      released := false;
    }

    method Close(now: Moment)
      modifies this, dialer
      ensures released
      ensures dialer.State() == if old(released) then old(dialer.State())
                else Release(old(dialer.State()), dialer.idleAfter, now)
    {
      if !released {
        released := true;
        dialer.Release(now);
      }
    }
  }
}
