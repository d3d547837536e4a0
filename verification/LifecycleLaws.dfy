/** What the manager guarantees in every run: PTYs closed once, nobody forgotten by a
    shutdown, and who the reaper takes, and when. */
module LifecycleLaws {
  import opened Lifecycle

  function Reached(actions: seq<Action>): State {
    Run(Initial(), actions)
  }

  lemma ReachedInv(actions: seq<Action>)
    ensures Inv(Reached(actions))
  {
    RunKeepsInv(Initial(), actions);
  }

  /** Somebody is between marking the session (or giving it up) and closing its PTY. */
  predicate AboutToClose(st: State, s: SessionId) {
    || (exists t :: t in st.calls && (st.calls[t] == Aborting(s) || st.calls[t] == KillClosing(s)))
    || (st.reaper.ReapClosing? && st.reaper.s == s)
    || (st.shutdown.ShutClosing? && st.shutdown.s == s)
  }

  lemma OwnedIsAbout(st: State, s: SessionId)
    requires s in st.sessions && SessionOk(st, s) && st.sessions[s].closer.Pending?
    ensures AboutToClose(st, s)
  {
    match st.sessions[s].closer.who {
      case ByCall(t) => assert t in st.calls;
      case _ =>
    }
  }

  /** No PTY is closed twice and none that should be closed is forgotten: a killed
      session's has been closed, or somebody is about to; likewise the one of a
      create call that came too late. No done channel is closed twice. */
  lemma EveryPtyIsClosedOnce(actions: seq<Action>, s: SessionId)
    ensures var st := Reached(actions);
            s in st.sessions ==>
              var m := st.sessions[s];
              && m.ptyCloses <= 1 && m.doneCloses <= 1
              && (AboutToClose(st, s) ==> m.ptyCloses == 0)
              && (m.registered && m.closed && m.exit == Alive ==> m.ptyCloses == 1 || AboutToClose(st, s))
              && (m.registered && m.ptyCloses == 1 ==> m.closed)
              && (!m.registered ==>
                    || m.ptyCloses == 1 || AboutToClose(st, s)
                    || (m.creator in st.calls && st.calls[m.creator] == Creating(s)))
  {
    ReachedInv(actions);
    var st := Reached(actions);
    if s in st.sessions {
      assert SessionOk(st, s);
      if st.sessions[s].closer.Pending? {
        OwnedIsAbout(st, s);
      }
      forall t | t in st.calls && (st.calls[t] == Aborting(s) || st.calls[t] == KillClosing(s))
        ensures st.sessions[s].closer == Pending(ByCall(t))
      {
        assert CallOk(st, t);
      }
    }
  }

  /** A registered session that the map no longer holds is closed, unless a shutdown
      has begun; and the map is never written once it is nil. */
  lemma MissingMeansClosed(actions: seq<Action>, s: SessionId)
    ensures var st := Reached(actions);
            && (Registered(st, s) && s !in st.byID && !st.closed ==> st.sessions[s].closed)
            && (st.byIDNil <==> st.closed)
  {
    ReachedInv(actions);
    var st := Reached(actions);
    if Registered(st, s) {
      assert SessionOk(st, s);
    }
  }

  lemma NilStaysEmpty(st: State, a: Action)
    requires ShutdownOk(st) && st.byIDNil
    ensures Next(st, a).byID == {} && Next(st, a).byIDNil
  {
  }

  /** No step ever puts a session into the nil map. */
  lemma MapWritesAreLive(actions: seq<Action>, a: Action)
    ensures var st := Reached(actions);
            st.byIDNil ==> Next(st, a).byID == {} && Next(st, a).byIDNil
  {
    ReachedInv(actions);
    if Reached(actions).byIDNil {
      NilStaysEmpty(Reached(actions), a);
    }
  }

  // --- What never reverts ---

  ghost predicate SessionGrows(a: State, b: State, s: SessionId)
    requires s in a.sessions
  {
    s in b.sessions && var m, n := a.sessions[s], b.sessions[s];
      && (m.registered ==> n.registered)
      && (m.closed ==> n.closed)
      && m.idleTimeout == n.idleTimeout
      && m.ptyCloses <= n.ptyCloses && m.doneCloses <= n.doneCloses
      && (m.registered && s !in a.byID ==> s !in b.byID)
  }

  ghost predicate Grows(a: State, b: State) {
    && (forall s :: s in a.sessions ==> SessionGrows(a, b, s))
    && (a.closed ==> b.closed)
    && (a.reaper == Stopped ==> b.reaper == Stopped)
    && (a.shutdown == Returned ==> b.shutdown == Returned)
  }

  lemma CreateGrows(st: State, a: CreateStep, s: SessionId)
    requires s in st.sessions && ActorOk(st, a.t)
    ensures SessionGrows(st, NextCreate(st, a), s)
  {
  }

  lemma KillGrows(st: State, a: KillStep, s: SessionId)
    requires s in st.sessions
    ensures SessionGrows(st, NextKill(st, a), s)
  {
  }

  lemma ReapGrows(st: State, a: ReapStep, s: SessionId)
    requires s in st.sessions
    ensures SessionGrows(st, NextReap(st, a), s)
  {
  }

  lemma ShutGrows(st: State, a: ShutdownStep, s: SessionId)
    requires s in st.sessions
    ensures SessionGrows(st, NextShut(st, a), s)
  {
  }

  lemma SessionStepGrows(st: State, y: SessionId, b: SessionStep, s: SessionId)
    requires s in st.sessions
    ensures SessionGrows(st, NextSession(st, y, b), s)
  {
  }

  lemma StepGrowsSession(st: State, a: Action, s: SessionId)
    requires s in st.sessions && (a.Create? ==> ActorOk(st, a.create.t))
    ensures SessionGrows(st, Next(st, a), s)
  {
    match a {
      case Create(c) => CreateGrows(st, c, s);
      case Kill(k) => KillGrows(st, k, s);
      case Reap(r) => ReapGrows(st, r, s);
      case Shut(d) => ShutGrows(st, d, s);
      case Session(y, b) => SessionStepGrows(st, y, b, s);
    }
  }

  lemma StepGrows(st: State, a: Action)
    requires Inv(st)
    ensures Grows(st, Next(st, a))
  {
    forall s | s in st.sessions
      ensures SessionGrows(st, Next(st, a), s)
    {
      StepGrowsSession(st, a, s);
    }
  }

  /** In every run, a closed session stays closed, a session that left the map stays
      out, and what has shut down stays shut down. */
  lemma {:induction false} RunGrows(st: State, actions: seq<Action>)
    requires Inv(st)
    ensures Grows(st, Run(st, actions))
    decreases |actions|
  {
    if actions != [] {
      var mid := Next(st, actions[0]);
      StepGrows(st, actions[0]);
      StepKeepsInv(st, actions[0]);
      RunGrows(mid, actions[1..]);
      forall s | s in st.sessions
        ensures SessionGrows(st, Run(st, actions), s)
      {
        assert SessionGrows(st, mid, s);
      }
    }
  }

  /** Once Shutdown has returned, and whatever happens later, every session ever
      registered is closed, the map is empty and the reaper has stopped. */
  lemma ShutdownLeavesNobody(actions: seq<Action>, later: seq<Action>, s: SessionId)
    requires Reached(actions).shutdown == Returned
    ensures var st := Run(Reached(actions), later);
            && (Registered(st, s) ==> st.sessions[s].closed)
            && (Registered(st, s) && st.sessions[s].exit == Alive ==> st.sessions[s].ptyCloses == 1 || AboutToClose(st, s))
            && st.byID == {} && st.byIDNil && st.reaper == Stopped
  {
    ReachedInv(actions);
    RunKeepsInv(Reached(actions), later);
    RunGrows(Reached(actions), later);
    var st := Run(Reached(actions), later);
    if Registered(st, s) {
      assert SessionOk(st, s);
      if st.sessions[s].closer.Pending? {
        OwnedIsAbout(st, s);
      }
    }
  }

  /** A kill that reports success leaves the session closed and out of the map, for good. */
  lemma KilledIsGone(actions: seq<Action>, t: CallId, s: SessionId, later: seq<Action>)
    requires t in Reached(actions).calls && Reached(actions).calls[t] == KillReturned(s, true)
    ensures var st := Run(Reached(actions), later);
            Registered(st, s) && st.sessions[s].closed && s !in st.byID
  {
    ReachedInv(actions);
    assert CallOk(Reached(actions), t);
    RunGrows(Reached(actions), later);
  }

  lemma Steps(st: State, actions: seq<Action>)
    requires actions != []
    ensures Run(st, actions) == Run(Next(st, actions[0]), actions[1..])
    ensures Run(st, []) == st
  {
  }

  function KillSteps(t: CallId, s: SessionId, ok: bool): seq<Action> {
    [Kill(KillGet(t, s)), Kill(KillLock(t)), Kill(KillClose(t, ok)), Kill(KillDelete(t))]
  }

  lemma FourSteps(st: State, actions: seq<Action>)
    requires |actions| == 4
    ensures Run(st, actions) == Next(Next(Next(Next(st, actions[0]), actions[1]), actions[2]), actions[3])
  {
    Steps(st, actions);
    Steps(Next(st, actions[0]), actions[1..]);
    Steps(Next(Next(st, actions[0]), actions[1]), actions[2..]);
    Steps(Next(Next(Next(st, actions[0]), actions[1]), actions[2]), actions[3..]);
  }

  /** Found and marked. */
  lemma KillMarks(st: State, t: CallId, s: SessionId)
    requires s in st.byID && s in st.sessions && t !in st.calls
    ensures var m := st.sessions[s];
            Next(Next(st, Kill(KillGet(t, s))), Kill(KillLock(t)))
            == st.(sessions := st.sessions[s := Locked(m, ByCall(t))],
                   calls := st.calls[t := if m.closed then KillDeleting(s) else KillClosing(s)])
  {
    var m := st.sessions[s];
    var found := Next(st, Kill(KillGet(t, s)));
    var c := if m.closed then KillDeleting(s) else KillClosing(s);
    assert found.calls[t := c] == st.calls[t := c];
  }

  /** PTY closed, if it is this call's to close, and session deleted. */
  lemma KillEnds(st: State, t: CallId, s: SessionId, ok: bool)
    requires s in st.sessions && t in st.calls && Writable(st)
    requires st.calls[t] == KillDeleting(s) || st.calls[t] == KillClosing(s)
    ensures var m, closing := st.sessions[s], st.calls[t] == KillClosing(s);
            Next(Next(st, Kill(KillClose(t, ok))), Kill(KillDelete(t)))
            == st.(sessions := st.sessions[s := if closing then PtyClosed(m) else m],
                   byID := if closing && !ok then st.byID else st.byID - {s},
                   calls := st.calls[t := KillReturned(s, !closing || ok)])
  {
    var closed := Next(st, Kill(KillClose(t, ok)));
    var c := KillReturned(s, st.calls[t] == KillDeleting(s) || ok);
    assert closed.calls[t := c] == st.calls[t := c];
    assert st.sessions[s := st.sessions[s]] == st.sessions;
  }

  lemma KillStepsAddUp(st: State, t: CallId, s: SessionId, ok: bool)
    requires s in st.byID && s in st.sessions && t !in st.calls && Writable(st)
    ensures var m := st.sessions[s];
            Run(st, KillSteps(t, s, ok))
            == st.(sessions := st.sessions[s := if m.closed then m else PtyClosed(Locked(m, ByCall(t)))],
                   byID := if m.closed || ok then st.byID - {s} else st.byID,
                   calls := st.calls[t := KillReturned(s, m.closed || ok)])
  {
    var m := st.sessions[s];
    var marked := Next(Next(st, Kill(KillGet(t, s))), Kill(KillLock(t)));
    FourSteps(st, KillSteps(t, s, ok));
    KillMarks(st, t, s);
    KillEnds(marked, t, s, ok);
    var last := if m.closed then m else PtyClosed(Locked(m, ByCall(t)));
    assert marked.sessions[s := last] == st.sessions[s := last];
    assert marked.calls[t := KillReturned(s, m.closed || ok)] == st.calls[t := KillReturned(s, m.closed || ok)];
  }

  /** The steps of a kill that nothing interrupts have, on the session, on the map and
      for the caller, the effect that is the contract of the manager's own call, and
      touch nothing else. */
  lemma UninterruptedKill(st: State, t: CallId, s: SessionId, ok: bool)
    requires s in st.byID && s in st.sessions && t !in st.calls && Writable(st)
    ensures var m, end := st.sessions[s], Run(st, KillSteps(t, s, ok));
            var effect := KillEffectOn(m.closed, m.ptyCloses, ok);
            && s in end.sessions && end.sessions[s].closed && end.sessions[s].ptyCloses == effect.ptyCloses
            && end.byID == (if effect.removed then st.byID - {s} else st.byID)
            && end.calls == st.calls[t := KillReturned(s, effect.removed)]
            && end.sessions - {s} == st.sessions - {s}
            && end.closed == st.closed && end.reaper == st.reaper && end.shutdown == st.shutdown
  {
    KillStepsAddUp(st, t, s, ok);
  }

  // --- The reaper ---

  /** No step of the reaper ever touches a session without a timeout. */
  lemma UnlimitedIsNeverReaped(actions: seq<Action>, r: ReapStep, s: SessionId)
    requires s in Reached(actions).sessions && Reached(actions).sessions[s].idleTimeout <= 0
    ensures s in NextReap(Reached(actions), r).sessions
    ensures NextReap(Reached(actions), r).sessions[s] == Reached(actions).sessions[s]
    ensures s in NextReap(Reached(actions), r).byID <==> s in Reached(actions).byID
  {
    ReachedInv(actions);
    assert ListedOk(Reached(actions), s);
  }

  /** Deciding and killing are separate: somebody can attach in between and is
      thrown out all the same. */
  lemma ReaperMayTakeAnAttachedSession()
    ensures exists actions :: Registered(Reached(actions), 0) && Reached(actions).sessions[0].viewers == 1
                           && Reached(actions).reaper == ReapClosing(0, {})
  {
    var spawn := Create(Spawn(0, 0, 10, 0));
    var s1 := Next(Initial(), spawn);
    var s2 := Next(s1, Create(Register(0)));
    var s3 := Next(s2, Reap(ReapStart(11)));
    assert s3.reaper == Scanning(11, {0}, {});
    var s4 := Next(s3, Reap(ReapCheck(0)));
    assert s4.reaper == Scanning(11, {}, {0});
    var s5 := Next(s4, Session(0, Attach));
    var s6 := Next(s5, Reap(ReapScanned));
    var s7 := Next(s6, Reap(ReapLock(0)));
    assert {0} - {0} == {};
    assert s7.reaper == ReapClosing(0, {});
    var actions := [spawn, Create(Register(0)), Reap(ReapStart(11)), Reap(ReapCheck(0)), Session(0, Attach),
                    Reap(ReapScanned), Reap(ReapLock(0))];
    Steps(Initial(), actions);
    Steps(s1, actions[1..]);
    Steps(s2, actions[2..]);
    Steps(s3, actions[3..]);
    Steps(s4, actions[4..]);
    Steps(s5, actions[5..]);
    Steps(s6, actions[6..]);
    assert Reached(actions) == s7;
  }

  /** Nothing in a run of steps postpones the session's timeout. */
  predicate Leaves(a: Action, s: SessionId) {
    !(a.Session? && a.s == s && (a.step.Attach? || a.step.Touch?))
  }

  predicate Untouched(actions: seq<Action>, s: SessionId) {
    forall a :: a in actions ==> Leaves(a, s)
  }

  /** The reaper still has the session to look at, or on its list. */
  predicate InHand(r: Reaper, s: SessionId, now: int) {
    match r
    case Scanning(at, unseen, found) => (at == now && s in unseen) || s in found
    case Reaping(todo) => s in todo
    case ReapClosing(_, todo) => s in todo
    case ReapDeleting(_, todo) => s in todo
    case _ => false
  }

  ghost predicate BoundToClose(st: State, s: SessionId, now: int) {
    && s in st.sessions
    && (st.sessions[s].closed || (StaleAt(st.sessions[s], now) && InHand(st.reaper, s, now)))
  }

  lemma ReapStaysBound(st: State, r: ReapStep, s: SessionId, now: int)
    requires BoundToClose(st, s, now)
    ensures BoundToClose(NextReap(st, r), s, now)
  {
  }

  lemma StepStaysBound(st: State, a: Action, s: SessionId, now: int)
    requires BoundToClose(st, s, now) && Leaves(a, s)
    requires a.Create? ==> ActorOk(st, a.create.t)
    ensures BoundToClose(Next(st, a), s, now)
  {
    match a {
      case Create(c) => CreateGrows(st, c, s);
      case Kill(k) => KillGrows(st, k, s);
      case Reap(r) => ReapStaysBound(st, r, s, now);
      case Shut(d) => ShutGrows(st, d, s);
      case Session(_, _) =>
    }
  }

  lemma {:induction false} RunStaysBound(st: State, actions: seq<Action>, s: SessionId, now: int)
    requires Inv(st) && BoundToClose(st, s, now) && Untouched(actions, s)
    ensures BoundToClose(Run(st, actions), s, now)
    decreases |actions|
  {
    if actions != [] {
      StepStaysBound(st, actions[0], s, now);
      StepKeepsInv(st, actions[0]);
      RunStaysBound(Next(st, actions[0]), actions[1..], s, now);
    }
  }

  /** Whatever else goes on meanwhile, a pass closes every session that was stale when
      it began and that nobody attaches to or uses. */
  lemma PassClosesTheStale(st: State, now: int, actions: seq<Action>, s: SessionId)
    requires Inv(st) && st.reaper == Idle && s in st.byID && StaleAt(st.sessions[s], now)
    requires Untouched(actions, s)
    requires Run(Next(st, Reap(ReapStart(now))), actions).reaper == Idle
    ensures var end := Run(Next(st, Reap(ReapStart(now))), actions);
            s in end.sessions && end.sessions[s].closed
  {
    StepKeepsInv(st, Reap(ReapStart(now)));
    RunStaysBound(Next(st, Reap(ReapStart(now))), actions, s, now);
  }

  /** The reaper looks at the session and finds it stale. */
  predicate FindsStale(st: State, a: Action, s: SessionId) {
    a == Reap(ReapCheck(s)) && CanReap(st, a.reap) && StaleAt(st.sessions[s], st.reaper.now)
  }

  /** Whether that ever happens in a run. */
  predicate FoundStale(st: State, actions: seq<Action>, s: SessionId)
    decreases |actions|
  {
    actions != [] && (FindsStale(st, actions[0], s) || FoundStale(Next(st, actions[0]), actions[1..], s))
  }

  lemma ReapCondemns(st: State, r: ReapStep, s: SessionId)
    requires s !in Condemned(st.reaper)
    ensures s in Condemned(NextReap(st, r).reaper) <==> FindsStale(st, Reap(r), s)
  {
  }

  lemma OthersLeaveTheReaper(st: State, a: Action)
    requires !a.Reap?
    ensures Next(st, a).reaper == st.reaper
  {
  }

  lemma StepCondemns(st: State, a: Action, s: SessionId)
    requires s !in Condemned(st.reaper)
    ensures s in Condemned(Next(st, a).reaper) <==> FindsStale(st, a, s)
  {
    if a.Reap? {
      ReapCondemns(st, a.reap, s);
    } else {
      OthersLeaveTheReaper(st, a);
    }
  }

  predicate CondemnedBy(st: State, actions: seq<Action>, s: SessionId) {
    s in Condemned(Run(st, actions).reaper)
  }

  /** At some point of a run the reaper has the session on its list. */
  predicate EverCondemned(st: State, actions: seq<Action>, s: SessionId) {
    exists k :: 0 <= k <= |actions| && CondemnedBy(st, actions[..k], s)
  }

  lemma EverCondemnedLater(st: State, actions: seq<Action>, s: SessionId)
    requires actions != [] && s !in Condemned(st.reaper)
    ensures EverCondemned(st, actions, s) <==> EverCondemned(Next(st, actions[0]), actions[1..], s)
  {
    var next, rest := Next(st, actions[0]), actions[1..];
    if EverCondemned(st, actions, s) {
      var k :| 0 <= k <= |actions| && CondemnedBy(st, actions[..k], s);
      assert k > 0;
      assert actions[..k][1..] == rest[..k - 1];
      assert CondemnedBy(next, rest[..k - 1], s);
    }
    if EverCondemned(next, rest, s) {
      var k :| 0 <= k <= |rest| && CondemnedBy(next, rest[..k], s);
      assert actions[..k + 1][1..] == rest[..k];
      assert CondemnedBy(st, actions[..k + 1], s);
    }
  }

  /** The reaper goes after a session exactly when it has looked at it and found it stale. */
  lemma {:induction false} TakenIffFoundStale(st: State, actions: seq<Action>, s: SessionId)
    requires s !in Condemned(st.reaper)
    ensures EverCondemned(st, actions, s) <==> FoundStale(st, actions, s)
    decreases |actions|
  {
    if actions != [] {
      StepCondemns(st, actions[0], s);
      EverCondemnedLater(st, actions, s);
      var next, rest := Next(st, actions[0]), actions[1..];
      if s in Condemned(next.reaper) {
        assert CondemnedBy(next, rest[..0], s);
      } else {
        TakenIffFoundStale(next, rest, s);
      }
    }
  }

  /** Closed, or on the reaper's list. */
  ghost predicate Doomed(st: State, s: SessionId) {
    s in st.sessions && (st.sessions[s].closed || s in Condemned(st.reaper))
  }

  lemma ReapDooms(st: State, r: ReapStep, s: SessionId)
    requires Doomed(st, s) && ReaperOk(st)
    ensures Doomed(NextReap(st, r), s)
  {
  }

  lemma StepDooms(st: State, a: Action, s: SessionId)
    requires Inv(st) && Doomed(st, s)
    ensures Doomed(Next(st, a), s)
  {
    if a.Reap? {
      ReapDooms(st, a.reap, s);
    } else {
      OthersLeaveTheReaper(st, a);
      StepGrows(st, a);
      assert SessionGrows(st, Next(st, a), s);
    }
  }

  lemma {:induction false} RunDooms(st: State, actions: seq<Action>, s: SessionId)
    requires Inv(st) && Doomed(st, s)
    ensures Doomed(Run(st, actions), s)
    decreases |actions|
  {
    if actions != [] {
      StepDooms(st, actions[0], s);
      StepKeepsInv(st, actions[0]);
      RunDooms(Next(st, actions[0]), actions[1..], s);
    }
  }

  lemma {:induction false} FoundIsDoomed(st: State, actions: seq<Action>, s: SessionId)
    requires Inv(st) && FoundStale(st, actions, s)
    ensures Doomed(Run(st, actions), s)
    decreases |actions|
  {
    StepKeepsInv(st, actions[0]);
    var next := Next(st, actions[0]);
    if FindsStale(st, actions[0], s) {
      assert s in Condemned(next.reaper);
      RunDooms(next, actions[1..], s);
    } else {
      FoundIsDoomed(next, actions[1..], s);
    }
  }

  /** And then it is closed by the end of the pass, whoever attaches to it or uses it
      meanwhile. */
  lemma FoundStaleIsClosed(st: State, actions: seq<Action>, s: SessionId)
    requires Inv(st) && FoundStale(st, actions, s)
    requires Run(st, actions).reaper == Idle || Run(st, actions).reaper == Stopped
    ensures s in Run(st, actions).sessions && Run(st, actions).sessions[s].closed
  {
    FoundIsDoomed(st, actions, s);
  }

  // --- Thrown out ---

  /** The sessions the reaper has found stale and not yet locked. */
  function ToLock(r: Reaper): set<SessionId> {
    match r
    case Scanning(_, _, found) => found
    case Reaping(todo) => todo
    case ReapClosing(_, todo) => todo
    case ReapDeleting(_, todo) => todo
    case _ => {}
  }

  /** Whether a session has been found stale and not taken up since, and whether somebody
      has attached to it meanwhile. */
  datatype Verdict = Spared | Found(came: bool)

  predicate Joins(st: State, a: Action, s: SessionId) {
    a == Session(s, Attach) && CanSession(st, s, Attach) && !st.sessions[s].closed
  }

  function VerdictAfter(st: State, a: Action, s: SessionId, v: Verdict): Verdict {
    if FindsStale(st, a, s) then Found(false)
    else if a == Reap(ReapLock(s)) && CanReap(st, a.reap) then Spared
    else if v.Found? && Joins(st, a, s) then Found(true)
    else v
  }

  function VerdictOf(st: State, actions: seq<Action>, s: SessionId, v: Verdict): Verdict
    decreases |actions|
  {
    if actions == [] then v else VerdictOf(Next(st, actions[0]), actions[1..], s, VerdictAfter(st, actions[0], s, v))
  }

  ghost predicate Tracks(st: State, s: SessionId, v: Verdict) {
    && (s in ToLock(st.reaper) <==> v.Found?)
    && (v == Found(false) ==> s in st.sessions && st.sessions[s].viewers == 0)
  }

  lemma ReapTracks(st: State, r: ReapStep, s: SessionId, v: Verdict)
    requires Tracks(st, s, v)
    ensures Tracks(NextReap(st, r), s, VerdictAfter(st, Reap(r), s, v))
  {
  }

  lemma CreateLeavesViewers(st: State, a: CreateStep, s: SessionId)
    requires s in st.sessions && ActorOk(st, a.t)
    ensures s in NextCreate(st, a).sessions && NextCreate(st, a).sessions[s].viewers == st.sessions[s].viewers
  {
  }

  lemma KillLeavesViewers(st: State, a: KillStep, s: SessionId)
    requires s in st.sessions
    ensures s in NextKill(st, a).sessions && NextKill(st, a).sessions[s].viewers == st.sessions[s].viewers
  {
  }

  lemma ShutLeavesViewers(st: State, a: ShutdownStep, s: SessionId)
    requires s in st.sessions
    ensures s in NextShut(st, a).sessions && NextShut(st, a).sessions[s].viewers == st.sessions[s].viewers
  {
  }

  lemma StepTracks(st: State, a: Action, s: SessionId, v: Verdict)
    requires Tracks(st, s, v) && (a.Create? ==> ActorOk(st, a.create.t))
    ensures Tracks(Next(st, a), s, VerdictAfter(st, a, s, v))
  {
    if a.Reap? {
      ReapTracks(st, a.reap, s, v);
    } else {
      OthersLeaveTheReaper(st, a);
      if s in st.sessions {
        match a {
          case Create(c) => CreateLeavesViewers(st, c, s);
          case Kill(k) => KillLeavesViewers(st, k, s);
          case Shut(d) => ShutLeavesViewers(st, d, s);
          case Session(_, _) =>
        }
      }
    }
  }

  lemma {:induction false} RunTracks(st: State, actions: seq<Action>, s: SessionId, v: Verdict)
    requires Inv(st) && Tracks(st, s, v)
    ensures Tracks(Run(st, actions), s, VerdictOf(st, actions, s, v))
    decreases |actions|
  {
    if actions != [] {
      StepTracks(st, actions[0], s, v);
      StepKeepsInv(st, actions[0]);
      RunTracks(Next(st, actions[0]), actions[1..], s, VerdictAfter(st, actions[0], s, v));
    }
  }

  /** While the reaper works through its list, an open session that somebody is attached
      to is the next it may close if and only if it found it stale in this pass, has not
      taken it up yet, and somebody has attached since. */
  lemma ThrownOutIffCameTooLate(st: State, actions: seq<Action>, s: SessionId)
    requires Inv(st) && s !in ToLock(st.reaper)
    requires var end := Run(st, actions);
             end.reaper.Reaping? && s in end.sessions && !end.sessions[s].closed && end.sessions[s].viewers > 0
    ensures var end := Run(st, actions);
            && (CanReap(end, ReapLock(s)) <==> VerdictOf(st, actions, s, Spared) == Found(true))
            && (CanReap(end, ReapLock(s)) ==> Closing(Next(end, Reap(ReapLock(s))), s, ByReaper))
  {
    RunTracks(st, actions, s, Spared);
    RunKeepsInv(st, actions);
    assert ListedOk(Run(st, actions), s);
  }

  // --- How long an abandoned session can last ---

  /** A tick of the reaper at `now`, and everything that happens until the next one. */
  datatype Pass = Pass(now: int, steps: seq<Action>)

  function AfterPass(st: State, pass: Pass): State {
    Run(Next(st, Reap(ReapStart(pass.now))), pass.steps)
  }

  function AfterPasses(st: State, passes: seq<Pass>): State
    decreases |passes|
  {
    if passes == [] then st else AfterPasses(AfterPass(st, passes[0]), passes[1..])
  }

  /** Ticks come at most `interval` apart, each finds the reaper done with the pass
      before, and none of what happens concerns the session. */
  ghost predicate Paced(st: State, passes: seq<Pass>, interval: nat, s: SessionId)
    decreases |passes|
  {
    passes == [] ||
    (&& st.reaper == Idle
     && AfterPass(st, passes[0]).reaper == Idle
     && Untouched(passes[0].steps, s)
     && (|passes| > 1 ==> passes[1].now <= passes[0].now + interval)
     && Paced(AfterPass(st, passes[0]), passes[1..], interval, s))
  }

  predicate Abandoned(st: State, s: SessionId, lastIO: int, timeout: int) {
    && Registered(st, s)
    && st.sessions[s].lastIO == lastIO && st.sessions[s].idleTimeout == timeout && st.sessions[s].viewers == 0
  }

  lemma CreateLeaves(st: State, a: CreateStep, s: SessionId, lastIO: int, timeout: int)
    requires Abandoned(st, s, lastIO, timeout) && ActorOk(st, a.t)
    ensures Abandoned(NextCreate(st, a), s, lastIO, timeout)
  {
  }

  lemma KillLeaves(st: State, a: KillStep, s: SessionId, lastIO: int, timeout: int)
    requires Abandoned(st, s, lastIO, timeout)
    ensures Abandoned(NextKill(st, a), s, lastIO, timeout)
  {
  }

  lemma ReapLeaves(st: State, a: ReapStep, s: SessionId, lastIO: int, timeout: int)
    requires Abandoned(st, s, lastIO, timeout)
    ensures Abandoned(NextReap(st, a), s, lastIO, timeout)
  {
  }

  lemma ShutLeaves(st: State, a: ShutdownStep, s: SessionId, lastIO: int, timeout: int)
    requires Abandoned(st, s, lastIO, timeout)
    ensures Abandoned(NextShut(st, a), s, lastIO, timeout)
  {
  }

  lemma StepAbandoned(st: State, a: Action, s: SessionId, lastIO: int, timeout: int)
    requires Abandoned(st, s, lastIO, timeout) && Leaves(a, s)
    requires a.Create? ==> ActorOk(st, a.create.t)
    ensures Abandoned(Next(st, a), s, lastIO, timeout)
  {
    match a {
      case Create(c) => CreateLeaves(st, c, s, lastIO, timeout);
      case Kill(k) => KillLeaves(st, k, s, lastIO, timeout);
      case Reap(r) => ReapLeaves(st, r, s, lastIO, timeout);
      case Shut(d) => ShutLeaves(st, d, s, lastIO, timeout);
      case Session(_, _) =>
    }
  }

  lemma {:induction false} RunAbandoned(st: State, actions: seq<Action>, s: SessionId, lastIO: int, timeout: int)
    requires Inv(st) && Abandoned(st, s, lastIO, timeout) && Untouched(actions, s)
    ensures Abandoned(Run(st, actions), s, lastIO, timeout)
    decreases |actions|
  {
    if actions != [] {
      StepAbandoned(st, actions[0], s, lastIO, timeout);
      StepKeepsInv(st, actions[0]);
      RunAbandoned(Next(st, actions[0]), actions[1..], s, lastIO, timeout);
    }
  }

  lemma PassKeeps(st: State, pass: Pass, s: SessionId, lastIO: int, timeout: int)
    requires Inv(st) && Abandoned(st, s, lastIO, timeout) && Untouched(pass.steps, s)
    ensures Inv(AfterPass(st, pass)) && Abandoned(AfterPass(st, pass), s, lastIO, timeout)
    ensures st.closed ==> AfterPass(st, pass).closed
  {
    var start := Reap(ReapStart(pass.now));
    StepKeepsInv(st, start);
    StepGrows(st, start);
    StepAbandoned(st, start, s, lastIO, timeout);
    RunKeepsInv(Next(st, start), pass.steps);
    RunGrows(Next(st, start), pass.steps);
    RunAbandoned(Next(st, start), pass.steps, s, lastIO, timeout);
  }

  lemma {:induction false} ClosedForGood(st: State, passes: seq<Pass>, interval: nat, s: SessionId,
                                             lastIO: int, timeout: int)
    requires Inv(st) && Abandoned(st, s, lastIO, timeout) && Paced(st, passes, interval, s)
    ensures st.closed ==> AfterPasses(st, passes).closed
    decreases |passes|
  {
    if passes != [] {
      PassKeeps(st, passes[0], s, lastIO, timeout);
      ClosedForGood(AfterPass(st, passes[0]), passes[1..], interval, s, lastIO, timeout);
    }
  }

  lemma PassGrows(st: State, pass: Pass, s: SessionId)
    requires Inv(st) && s in st.sessions
    ensures SessionGrows(st, AfterPass(st, pass), s)
  {
    var start := Reap(ReapStart(pass.now));
    StepKeepsInv(st, start);
    StepGrows(st, start);
    RunGrows(Next(st, start), pass.steps);
    assert SessionGrows(st, Next(st, start), s);
    assert SessionGrows(Next(st, start), AfterPass(st, pass), s);
  }

  predicate ClosedAfter(st: State, passes: seq<Pass>, s: SessionId) {
    s in AfterPasses(st, passes).sessions && AfterPasses(st, passes).sessions[s].closed
  }

  /** With ticks at most `interval` apart, a session that nobody attaches to or uses is
      closed by the passes up to some tick no later than lastIO + timeout + interval,
      whatever else goes on, as long as the manager itself is not shut down. */
  lemma {:induction false} AbandonedIsClosedInTime(st: State, passes: seq<Pass>, interval: nat, s: SessionId,
                                                       lastIO: int, timeout: int)
    requires Inv(st) && Abandoned(st, s, lastIO, timeout) && timeout > 0
    requires passes != [] && Paced(st, passes, interval, s) && !AfterPasses(st, passes).closed
    requires passes[0].now <= lastIO + timeout + interval
    requires passes[|passes| - 1].now > lastIO + timeout
    ensures exists k :: 0 <= k < |passes| && passes[k].now <= lastIO + timeout + interval
                        && ClosedAfter(st, passes[..k + 1], s)
    decreases |passes|
  {
    var next := AfterPass(st, passes[0]);
    PassKeeps(st, passes[0], s, lastIO, timeout);
    ClosedForGood(st, passes, interval, s, lastIO, timeout);
    ClosedForGood(next, passes[1..], interval, s, lastIO, timeout);
    if passes[0].now > lastIO + timeout {
      if st.sessions[s].closed {
        PassGrows(st, passes[0], s);
      } else {
        assert SessionOk(st, s);
        PassClosesTheStale(st, passes[0].now, passes[0].steps, s);
      }
      assert passes[..1] == [passes[0]];
      assert ClosedAfter(st, passes[..1], s);
    } else {
      AbandonedIsClosedInTime(next, passes[1..], interval, s, lastIO, timeout);
      var later :| 0 <= later < |passes[1..]| && passes[1..][later].now <= lastIO + timeout + interval
                   && ClosedAfter(next, passes[1..][..later + 1], s);
      assert passes[..later + 2][1..] == passes[1..][..later + 1];
      assert ClosedAfter(st, passes[..later + 2], s);
    }
  }

  // --- Shutdown comes to its end ---

  function ShutdownWork(sd: Shutdown): nat {
    match sd
    case NotStarted => 0
    case Killing(todo) => 3 + 2 * |todo|
    case ShutClosing(_, todo) => 4 + 2 * |todo|
    case Waiting => 2
    case Returned => 0
  }

  /** What the reaper still has to do before it can stop. */
  function ReaperWork(r: Reaper): nat {
    match r
    case Scanning(_, _, found) => 3 + 3 * |found|
    case Reaping(todo) => 2 + 3 * |todo|
    case ReapClosing(_, todo) => 4 + 3 * |todo|
    case ReapDeleting(_, todo) => 3 + 3 * |todo|
    case Idle => 1
    case Stopped => 0
  }

  ghost predicate Useful(st: State, a: Action) {
    var next := Next(st, a);
    && (a.Shut? || a.Reap?)
    && next.shutdown != NotStarted
    && (|| ShutdownWork(next.shutdown) < ShutdownWork(st.shutdown)
        || (next.shutdown == st.shutdown && ReaperWork(next.reaper) < ReaperWork(st.reaper)))
  }

  lemma KillingGoesOn(st: State) returns (a: Action)
    requires Inv(st) && (st.shutdown.Killing? || st.shutdown.ShutClosing?)
    ensures Useful(st, a)
  {
    if st.shutdown.ShutClosing? {
      a := Shut(ShutdownClose);
    } else if st.shutdown.todo == {} {
      a := Shut(ShutdownStop);
    } else {
      var s :| s in st.shutdown.todo;
      assert ListedOk(st, s);
      a := Shut(ShutdownLock(s));
    }
  }

  /** A scan that is still going on has nothing left to see: the map is gone. */
  lemma ScanGoesOn(st: State)
    requires Inv(st) && st.shutdown == Waiting && st.reaper.Scanning?
    ensures Useful(st, Reap(ReapScanned))
  {
    assert st.reaper.unseen == {};
  }

  lemma ReapingGoesOn(st: State) returns (a: Action)
    requires Inv(st) && st.shutdown == Waiting && !st.reaper.Scanning?
    ensures Useful(st, a)
  {
    match st.reaper {
      case Reaping(todo) =>
        if todo == {} {
          a := Reap(ReapEnd);
        } else {
          var s :| s in todo;
          assert ListedOk(st, s);
          a := Reap(ReapLock(s));
        }
      case ReapClosing(s, _) => a := Reap(ReapClose);
      case ReapDeleting(_, _) => a := Reap(ReapDelete);
      case Idle => a := Reap(ReaperStops);
      case Stopped => a := Shut(ShutdownReturn);
    }
  }

  predicate Ends(st: State, actions: seq<Action>) {
    && (forall a :: a in actions ==> a.Shut? || a.Reap?)
    && Run(st, actions).shutdown == Returned
  }

  ghost predicate CanReturn(st: State) {
    exists actions :: Ends(st, actions)
  }

  lemma OneStepFromReturn(st: State, a: Action)
    requires (a.Shut? || a.Reap?) && CanReturn(Next(st, a))
    ensures CanReturn(st)
  {
    var rest :| Ends(Next(st, a), rest);
    assert ([a] + rest)[1..] == rest;
    assert Ends(st, [a] + rest);
  }

  lemma {:induction false} ShutdownFinishes(st: State)
    requires Inv(st) && st.shutdown != NotStarted
    ensures CanReturn(st)
    decreases ShutdownWork(st.shutdown), ReaperWork(st.reaper)
  {
    if st.shutdown == Returned {
      assert Ends(st, []);
      return;
    }
    var a: Action;
    if st.shutdown != Waiting {
      a := KillingGoesOn(st);
    } else if st.reaper.Scanning? {
      ScanGoesOn(st);
      a := Reap(ReapScanned);
    } else {
      a := ReapingGoesOn(st);
    }
    StepKeepsInv(st, a);
    ShutdownFinishes(Next(st, a));
    OneStepFromReturn(st, a);
  }

  /** From every reachable state with a shutdown in progress, finitely many steps of it
      and of the reaper lead to its return, whatever any other call is in the middle of. */
  lemma ShutdownCanAlwaysReturn(actions: seq<Action>)
    requires Reached(actions).shutdown != NotStarted
    ensures CanReturn(Reached(actions))
  {
    ReachedInv(actions);
    ShutdownFinishes(Reached(actions));
  }

  /** And not without the reaper having been told to stop and having stopped. */
  lemma ReaperStopsOnlyForShutdown(st: State, actions: seq<Action>)
    requires Inv(st) && st.shutdown == NotStarted && forall a :: a in actions ==> !a.Shut?
    ensures Run(st, actions).shutdown == NotStarted && Run(st, actions).reaper != Stopped
    decreases |actions|
  {
    if actions != [] {
      assert actions[0] in actions;
      StepKeepsInv(st, actions[0]);
      OnlyShutdownShuts(st, actions[0]);
      ReaperStopsOnlyForShutdown(Next(st, actions[0]), actions[1..]);
    }
  }

  lemma OnlyShutdownShuts(st: State, a: Action)
    requires !a.Shut?
    ensures Next(st, a).shutdown == st.shutdown
  {
  }
}
