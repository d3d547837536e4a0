/** How long a session must have been idle before the reaper may take it, in every run. */
module Idleness {
  import opened Lifecycle
  import opened LifecycleLaws

  lemma {:induction false} RunSnoc(st: State, actions: seq<Action>, a: Action)
    ensures Run(st, actions + [a]) == Next(Run(st, actions), a)
    decreases |actions|
  {
    if actions == [] {
      assert [] + [a] == [a] && [a][1..] == [];
    } else {
      assert (actions + [a])[1..] == actions[1..] + [a];
      RunSnoc(Next(st, actions[0]), actions[1..], a);
    }
  }

  lemma ReachedSnoc(actions: seq<Action>)
    requires actions != []
    ensures var n := |actions| - 1; Reached(actions) == Next(Reached(actions[..n]), actions[n])
  {
    var n := |actions| - 1;
    assert actions == actions[..n] + [actions[n]];
    RunSnoc(Initial(), actions[..n], actions[n]);
  }

  /** Open, with nobody attached, and nothing read or written for longer than its own
      positive timeout. */
  predicate IdleTooLong(m: Managed, now: int) {
    m.idleTimeout > 0 && m.lastIO + m.idleTimeout < now && m.viewers == 0 && !m.closed
  }

  /** The `k`-th step of the run looks at the session, in the pass of a tick at `now`, and
      it has been idle too long. */
  predicate LookedIdle(actions: seq<Action>, k: nat, s: SessionId, now: int) {
    && k < |actions| && actions[k] == Reap(ReapCheck(s))
    && Reap(ReapStart(now)) in actions[..k]
    && s in Reached(actions[..k]).sessions && IdleTooLong(Reached(actions[..k]).sessions[s], now)
  }

  ghost predicate EverLookedIdle(actions: seq<Action>, s: SessionId) {
    exists k: nat, now: int :: LookedIdle(actions, k, s, now)
  }

  lemma StepScans(st: State, a: Action)
    requires Next(st, a).reaper.Scanning?
    ensures a == Reap(ReapStart(Next(st, a).reaper.now))
            || (st.reaper.Scanning? && st.reaper.now == Next(st, a).reaper.now)
  {
    if !a.Reap? {
      OthersLeaveTheReaper(st, a);
    }
  }

  /** A pass that is scanning was begun by a tick at its time. */
  lemma {:induction false} ScansSinceTick(actions: seq<Action>)
    requires Reached(actions).reaper.Scanning?
    ensures Reap(ReapStart(Reached(actions).reaper.now)) in actions
    decreases |actions|
  {
    if actions != [] {
      var n := |actions| - 1;
      ReachedSnoc(actions);
      StepScans(Reached(actions[..n]), actions[n]);
      if actions[n] != Reap(ReapStart(Reached(actions).reaper.now)) {
        ScansSinceTick(actions[..n]);
      }
    }
  }

  lemma StepFindsIdle(st: State, a: Action, s: SessionId)
    requires s !in Condemned(st.reaper) && s in Condemned(Next(st, a).reaper)
    ensures a == Reap(ReapCheck(s)) && st.reaper.Scanning?
    ensures s in st.sessions && IdleTooLong(st.sessions[s], st.reaper.now)
  {
    StepCondemns(st, a, s);
  }

  lemma LookedIdleLater(actions: seq<Action>, a: Action, k: nat, s: SessionId, now: int)
    requires LookedIdle(actions, k, s, now)
    ensures LookedIdle(actions + [a], k, s, now)
  {
    assert (actions + [a])[..k] == actions[..k];
  }

  /** Whoever is on the reaper's list was idle too long when it looked. */
  lemma {:induction false} ListedWereIdle(actions: seq<Action>, s: SessionId)
    requires s in Condemned(Reached(actions).reaper)
    ensures EverLookedIdle(actions, s)
    decreases |actions|
  {
    if actions != [] {
      var n := |actions| - 1;
      var st := Reached(actions[..n]);
      ReachedSnoc(actions);
      assert actions == actions[..n] + [actions[n]];
      if s in Condemned(st.reaper) {
        ListedWereIdle(actions[..n], s);
        var k: nat, now: int :| LookedIdle(actions[..n], k, s, now);
        LookedIdleLater(actions[..n], actions[n], k, s, now);
      } else {
        StepFindsIdle(st, actions[n], s);
        ScansSinceTick(actions[..n]);
        assert LookedIdle(actions, n, s, st.reaper.now);
      }
    }
  }

  lemma ReaperClosesListed(st: State, r: ReapStep, s: SessionId)
    requires s in st.sessions && !st.sessions[s].closed
    requires s in NextReap(st, r).sessions && NextReap(st, r).sessions[s].closed
    ensures s in Condemned(st.reaper)
  {
  }

  /** Whenever a step of the reaper closes a session, it has looked at that session before,
      in the pass of a tick at some `now`, and found it open, with nobody attached and its
      last activity more than its timeout before `now`. */
  lemma OnlyTheIdleAreClosed(actions: seq<Action>, r: ReapStep, s: SessionId)
    requires s in Reached(actions).sessions && !Reached(actions).sessions[s].closed
    requires s in NextReap(Reached(actions), r).sessions && NextReap(Reached(actions), r).sessions[s].closed
    ensures EverLookedIdle(actions, s)
  {
    ReaperClosesListed(Reached(actions), r, s);
    ListedWereIdle(actions, s);
  }

  /** All ticks come no later than the session's last activity plus its timeout, whenever
      one looks. */
  ghost predicate TicksInTime(actions: seq<Action>, s: SessionId) {
    forall k: nat, now: int ::
      k <= |actions| && s in Reached(actions[..k]).sessions && Reap(ReapStart(now)) in actions[..k] ==>
        now <= Reached(actions[..k]).sessions[s].lastIO + Reached(actions[..k]).sessions[s].idleTimeout
  }

  /** And no tick that comes in time ever leads to a session's being closed by the reaper. */
  lemma InTimeIsNeverReaped(actions: seq<Action>, r: ReapStep, s: SessionId)
    requires s in Reached(actions).sessions && !Reached(actions).sessions[s].closed && TicksInTime(actions, s)
    ensures s in NextReap(Reached(actions), r).sessions && !NextReap(Reached(actions), r).sessions[s].closed
  {
    ReaperKeepsSessions(Reached(actions), r, s);
    NeverLookedIdle(actions, s);
    if NextReap(Reached(actions), r).sessions[s].closed {
      OnlyTheIdleAreClosed(actions, r, s);
    }
  }

  lemma NeverLookedIdle(actions: seq<Action>, s: SessionId)
    requires TicksInTime(actions, s)
    ensures !EverLookedIdle(actions, s)
  {
    forall k: nat, now: int
      ensures !LookedIdle(actions, k, s, now)
    {
    }
  }

  lemma ReaperKeepsSessions(st: State, r: ReapStep, s: SessionId)
    requires s in st.sessions
    ensures s in NextReap(st, r).sessions
  {
  }
}
