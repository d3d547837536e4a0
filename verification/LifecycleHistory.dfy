/** What a session's own past makes of it, and what an exit, a create and a shutdown that
    nothing interrupts come to from any state they can meet. */
module LifecycleHistory {
  import opened Lifecycle
  import opened LifecycleLaws
  import opened Idleness

  // --- Viewers and activity ---

  predicate Builds(st: State, a: Action, s: SessionId) {
    a.Create? && a.create.Spawn? && a.create.s == s && a.create.t !in st.calls && s !in st.sessions
  }

  /** Those who attached while the session was open, less those who left. */
  function ViewersBy(actions: seq<Action>, s: SessionId): nat {
    if actions == [] then 0
    else
      var n := |actions| - 1;
      var a, st, before := actions[n], Reached(actions[..n]), ViewersBy(actions[..n], s);
      if a == Session(s, Attach) && Registered(st, s) && !st.sessions[s].closed then before + 1
      else if a == Session(s, Detach) && Registered(st, s) && before > 0 then before - 1
      else before
  }

  /** When the session was built or last used. */
  function LastUse(actions: seq<Action>, s: SessionId): int {
    if actions == [] then 0
    else
      var n := |actions| - 1;
      var a, st := actions[n], Reached(actions[..n]);
      if Builds(st, a, s) then a.create.now
      else if a.Session? && a.s == s && a.step.Touch? && Registered(st, s) then a.step.now
      else LastUse(actions[..n], s)
  }

  ghost predicate Remembers(st: State, s: SessionId, viewers: nat, lastUse: int) {
    if s in st.sessions then st.sessions[s].viewers == viewers && st.sessions[s].lastIO == lastUse else viewers == 0
  }

  lemma CreateRemembers(st: State, a: CreateStep, s: SessionId, viewers: nat, lastUse: int)
    requires ActorOk(st, a.t) && Remembers(st, s, viewers, lastUse)
    ensures Remembers(NextCreate(st, a), s, viewers, if Builds(st, Create(a), s) then a.now else lastUse)
  {
  }

  lemma KillRemembers(st: State, a: KillStep, s: SessionId, viewers: nat, lastUse: int)
    requires Remembers(st, s, viewers, lastUse) && ActorOk(st, a.t)
    ensures Remembers(NextKill(st, a), s, viewers, lastUse)
  {
  }

  lemma ReapRemembers(st: State, a: ReapStep, s: SessionId, viewers: nat, lastUse: int)
    requires Remembers(st, s, viewers, lastUse)
    ensures Remembers(NextReap(st, a), s, viewers, lastUse)
  {
  }

  lemma ShutRemembers(st: State, a: ShutdownStep, s: SessionId, viewers: nat, lastUse: int)
    requires Remembers(st, s, viewers, lastUse)
    ensures Remembers(NextShut(st, a), s, viewers, lastUse)
  {
  }

  lemma OwnRemembers(st: State, x: SessionId, b: SessionStep, s: SessionId, viewers: nat, lastUse: int)
    requires Remembers(st, s, viewers, lastUse)
    ensures var own := x == s && Registered(st, s);
            Remembers(NextSession(st, x, b), s,
                      if own && b.Attach? && !st.sessions[s].closed then viewers + 1
                      else if own && b.Detach? && viewers > 0 then viewers - 1 else viewers,
                      if own && b.Touch? then b.now else lastUse)
  {
  }

  /** In every run a session's viewers are those who attached to it while it was open and
      have not left, and its last activity is its building or its last use; nothing else,
      a kill, a pass of the reaper or a shutdown, counts as either. */
  lemma {:induction false} UseIsRemembered(actions: seq<Action>, s: SessionId)
    ensures Remembers(Reached(actions), s, ViewersBy(actions, s), LastUse(actions, s))
    decreases |actions|
  {
    if actions != [] {
      var n := |actions| - 1;
      var st, viewers, lastUse := Reached(actions[..n]), ViewersBy(actions[..n], s), LastUse(actions[..n], s);
      UseIsRemembered(actions[..n], s);
      ReachedSnoc(actions);
      ReachedInv(actions[..n]);
      match actions[n] {
        case Create(c) => CreateRemembers(st, c, s, viewers, lastUse);
        case Kill(k) => KillRemembers(st, k, s, viewers, lastUse);
        case Reap(r) => ReapRemembers(st, r, s, viewers, lastUse);
        case Shut(d) => ShutRemembers(st, d, s, viewers, lastUse);
        case Session(x, b) => OwnRemembers(st, x, b, s, viewers, lastUse);
      }
    }
  }

  // --- Steps in a row ---

  lemma RunTwo(st: State, a: Action, b: Action)
    ensures Run(st, [a, b]) == Next(Next(st, a), b)
  {
    assert [a, b][1..] == [b] && [b][1..] == [];
    assert Run(Next(st, a), [b]) == Next(Next(st, a), b);
  }

  lemma RunThree(st: State, a: Action, b: Action, c: Action)
    ensures Run(st, [a, b, c]) == Next(Next(Next(st, a), b), c)
  {
    assert [a, b, c][1..] == [b, c];
    RunTwo(Next(st, a), b, c);
  }

  /** From any state in which a session's shell is alive and no pass is scanning, its exit
      closes the session, closes the done channel once and takes it out of the map. */
  lemma AnExitEndsTheSession(actions: seq<Action>, s: SessionId)
    requires var st := Reached(actions); Registered(st, s) && st.sessions[s].exit == Alive && !st.reaper.Scanning?
    ensures var st := Reached(actions);
            var end := Run(st, [Session(s, ExitRecord), Session(s, ExitSignal), Session(s, ExitForget)]);
            && s in end.sessions && end.sessions[s].closed && end.sessions[s].doneCloses == 1 && end.sessions[s].exit == Forgotten
            && s !in end.byID && (forall x :: x != s ==> (x in end.byID <==> x in st.byID))
  {
    var st := Reached(actions);
    ReachedInv(actions);
    assert SessionOk(st, s);
    RunThree(st, Session(s, ExitRecord), Session(s, ExitSignal), Session(s, ExitForget));
  }

  /** A create that finds the manager open puts its session into the map, open; one that
      comes after the shutdown closes the PTY and leaves no session behind. */
  lemma ACreateRegistersOrUndoes(actions: seq<Action>, t: CallId)
    requires var st := Reached(actions); t in st.calls && st.calls[t].Creating? && !st.reaper.Scanning?
    ensures var st := Reached(actions);
            var s := st.calls[t].s;
            var end := Run(st, [Create(Register(t)), Create(AbortClose(t))]);
            && t !in end.calls && s in end.sessions
            && (!st.closed ==> s in end.byID && end.sessions[s].registered && end.sessions[s].ptyCloses == 0)
            && (st.closed ==> s !in end.byID && !end.sessions[s].registered && end.sessions[s].ptyCloses == 1)
  {
    var st := Reached(actions);
    ReachedInv(actions);
    assert CallOk(st, t) && SessionOk(st, st.calls[t].s);
    RunTwo(st, Create(Register(t)), Create(AbortClose(t)));
  }

  /** An open manager can always be shut down: unless a pass is scanning a shutdown can
      begin, which takes the map away at once, and it can then be brought to its return. */
  lemma AShutdownCanBegin(actions: seq<Action>)
    requires !Reached(actions).closed && !Reached(actions).reaper.Scanning?
    ensures var next := Next(Reached(actions), Shut(ShutdownStart));
            && next.closed && next.byID == {} && next.byIDNil && CanReturn(next)
            && next.shutdown == Killing(Reached(actions).byID)
  {
    ReachedInv(actions);
    StepKeepsInv(Reached(actions), Shut(ShutdownStart));
    ShutdownFinishes(Next(Reached(actions), Shut(ShutdownStart)));
  }

  lemma OthersLeaveMap(st: State, a: Action)
    requires st.reaper.Scanning? && !a.Reap?
    ensures Next(st, a).byID == st.byID && Next(st, a).byIDNil == st.byIDNil
  {
  }

  /** While a pass scans, which it does under the manager's lock, the map stays as it is. */
  lemma MapIsFixedWhileScanning(st: State, a: Action)
    requires st.reaper.Scanning?
    ensures Next(st, a).byID == st.byID && Next(st, a).byIDNil == st.byIDNil
  {
    if !a.Reap? {
      OthersLeaveMap(st, a);
    }
  }
}
