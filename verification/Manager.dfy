/** The manager's calls, each on its own: the map of sessions and what a call that
    nothing interrupts does to it and to the session objects in it. */
module Manager {
  import opened Common
  import S = Session
  import opened Lifecycle

  const DEFAULT_SCROLLBACK := 4 * 1024 * 1024
  const DEFAULT_TIMEOUT := 24 * 3600 * 1_000_000_000  // nanoseconds

  /** How finding and starting the shell went. */
  datatype Launch = NoResolver | UnknownShell | SpawnFailed | Spawned

  datatype CreateResult = Made(s: S.Session) | InvalidDimensions | NotLaunched(launch: Launch) | ShuttingDown

  datatype KillResult = Killed | NotFound | CloseFailed

  class Manager {
    const scrollbackBytes: int
    const idleTimeout: int
    var byID: map<SessionId, S.Session>
    var byIDNil: bool
    var closed: bool
    var reaperStopped: bool

    ghost predicate Valid()
      reads this, byID.Values
    {
      && byIDNil == closed
      && (byIDNil ==> byID == map[])
      && (forall id :: id in byID ==> byID[id].id == id)
      && idleTimeout > 0
    }

    /** The sessions a pass of the reaper at `now` would take. */
    ghost function StaleIDs(now: int): set<SessionId>
      reads this, byID.Values
    {
      set id | id in byID && IsStale(byID[id], now)
    }

    static predicate IsStale(s: S.Session, now: int)
      reads s
    {
      Stale(s.idleTimeout, s.closed, |s.subs|, s.lastIO, now)
    }

    constructor (scrollbackBytes: int, idleTimeout: int)
      ensures Valid() && byID == map[] && !closed
      ensures this.scrollbackBytes == if scrollbackBytes <= 0 then 4_194_304 else scrollbackBytes
      ensures this.idleTimeout == if idleTimeout <= 0 then 86_400_000_000_000 else idleTimeout
    {
      this.scrollbackBytes := if scrollbackBytes <= 0 then DEFAULT_SCROLLBACK else scrollbackBytes;
      this.idleTimeout := if idleTimeout <= 0 then DEFAULT_TIMEOUT else idleTimeout;
      byID, byIDNil, closed, reaperStopped := map[], false, false, false;
    }

    method Create(id: SessionId, cols: nat, rows: nat, timeout: int, launch: Launch, now: int)
      returns (result: CreateResult, ptyClosed: bool)
      requires Valid() && id !in byID
      modifies this`byID
      ensures Valid()
      ensures result.Made? <==> cols <= 500 && rows <= 200 && launch == Spawned && !closed
      ensures !result.Made? ==> result == if cols > 500 || rows > 200 then InvalidDimensions
                                          else if launch != Spawned then NotLaunched(launch) else ShuttingDown
      ensures ptyClosed <==> result == ShuttingDown
      ensures byID == if result.Made? then old(byID)[id := result.s] else old(byID)
      ensures result.Made? ==> fresh(result.s) && result.s.Valid()
                               && result.s.idleTimeout == (if timeout < 0 then idleTimeout else timeout)
                               && result.s.lastIO == now && result.s.subs == {}
                               && !result.s.closed && result.s.ptyCloses == 0
                               && result.s.cols == (if cols == 0 then 80 else cols)
                               && result.s.rows == (if rows == 0 then 24 else rows)
    {
      var c := if cols == 0 then 80 else cols;
      var r := if rows == 0 then 24 else rows;
      if c > S.MAX_COLS || r > S.MAX_ROWS {
        return InvalidDimensions, false;
      }
      if launch != Spawned {
        return NotLaunched(launch), false;
      }
      var s := new S.Session(id, if timeout < 0 then idleTimeout else timeout, scrollbackBytes, c, r, now);
      if closed {
        return ShuttingDown, true;
      }
      byID := byID[id := s];
      return Made(s), false;
    }

    method Kill(id: SessionId, closeOk: bool) returns (result: KillResult)
      requires Valid()
      modifies this`byID, byID.Values`closed, byID.Values`ptyCloses
      ensures Valid()
      ensures id !in old(byID) <==> result == NotFound
      ensures id !in old(byID) ==> byID == old(byID)
      ensures id in old(byID) ==>
                var s := old(byID[id]);
                var effect := KillEffectOn(old(s.closed), old(s.ptyCloses), closeOk);
                && s.closed && s.ptyCloses == effect.ptyCloses
                && result == (if effect.removed then Killed else CloseFailed)
                && byID == if effect.removed then old(byID) - {id} else old(byID)
      ensures forall s :: s in old(byID.Values) && (id in old(byID) ==> s != old(byID[id])) ==>
                s.closed == old(s.closed) && s.ptyCloses == old(s.ptyCloses)
    {
      if id !in byID {
        return NotFound;
      }
      var ok := byID[id].Kill(closeOk);
      if !ok {
        return CloseFailed;
      }
      byID := byID - {id};
      result := Killed;
    }

    /** The deciding half of a pass. */
    method FindStale(now: int) returns (candidates: set<SessionId>)
      ensures candidates == StaleIDs(now)
      ensures forall id :: id in candidates <==>
                && id in byID && byID[id].idleTimeout > 0 && !byID[id].closed && byID[id].subs == {}
                && byID[id].lastIO + byID[id].idleTimeout < now
    {
      var todo := byID.Keys;
      candidates := {};
      while todo != {}
        invariant todo <= byID.Keys
        invariant candidates == set id | id in byID.Keys - todo && IsStale(byID[id], now)
        decreases todo
      {
        var id :| id in todo;
        todo := todo - {id};
        var s := byID[id];
        var stale := false;
        if s.idleTimeout > 0 {
          var cutoff := now - s.idleTimeout;
          stale := !s.closed && |s.subs| == 0 && s.lastIO < cutoff;
        }
        if stale {
          candidates := candidates + {id};
        }
      }
    }

    /** One pass of the reaper: it takes exactly the stale sessions. */
    method ReapOnce(now: int) returns (count: nat)
      requires Valid()
      modifies this`byID, byID.Values`closed, byID.Values`ptyCloses
      ensures Valid()
      ensures count == |old(StaleIDs(now))|
      ensures byID == old(byID) - old(StaleIDs(now))
      ensures forall id :: id in old(byID) ==>
                var s, stale := old(byID[id]), id in old(StaleIDs(now));
                && s.closed == (old(s.closed) || stale)
                && s.ptyCloses == old(s.ptyCloses) + if stale then 1 else 0
    {
      var candidates := FindStale(now);
      count := |candidates|;
      KillAll(byID, candidates);
      byID := byID - candidates;
    }

    /** Kills the named sessions one by one, whatever their PTYs answer. */
    method KillAll(all: map<SessionId, S.Session>, which: set<SessionId>)
      requires which <= all.Keys
      requires forall id :: id in all ==> all[id].id == id
      modifies all.Values`closed, all.Values`ptyCloses
      ensures forall id :: id in all ==>
                && all[id].closed == (old(all[id].closed) || id in which)
                && all[id].ptyCloses == old(all[id].ptyCloses) + if id in which && !old(all[id].closed) then 1 else 0
    {
      var todo := which;
      while todo != {}
        invariant todo <= which
        invariant forall id :: id in all ==>
                    var done := id in which - todo;
                    && all[id].closed == (old(all[id].closed) || done)
                    && all[id].ptyCloses == old(all[id].ptyCloses) + if done && !old(all[id].closed) then 1 else 0
        decreases todo
      {
        var id :| id in todo;
        todo := todo - {id};
        var _ := all[id].Kill(true);
      }
    }

    /** Kills everything, once; afterwards nothing can be created. */
    method Shutdown()
      requires Valid()
      modifies this, byID.Values`closed, byID.Values`ptyCloses
      ensures Valid() && closed && byID == map[]
      ensures old(closed) ==> reaperStopped == old(reaperStopped)
      ensures !old(closed) ==> reaperStopped
      ensures forall id :: id in old(byID) ==>
                var s := old(byID[id]);
                s.closed && s.ptyCloses == old(s.ptyCloses) + if old(s.closed) then 0 else 1
    {
      if closed {
        return;
      }
      closed := true;
      var all := byID;
      byID, byIDNil := map[], true;
      KillAll(all, all.Keys);
      reaperStopped := true;
    }
  }
}
