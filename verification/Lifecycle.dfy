/** Every interleaving of creating, killing, reaping, exiting and shutting down: the
    threads of the session manager, cut where they take a lock or call the PTY. */
module Lifecycle {
  type SessionId = nat
  type CallId = nat

  /** Who is between setting a session's closed flag and closing its PTY. */
  datatype Who = ByCall(call: CallId) | ByReaper | ByShutdown

  datatype PtyCloser = Nobody | Pending(who: Who) | Done

  datatype ExitStage = Alive | Recorded | Signalled | Forgotten

  datatype Managed = Managed(
    creator: CallId,
    registered: bool,
    closed: bool,
    idleTimeout: int,
    lastIO: int,
    viewers: nat,
    exit: ExitStage,
    closer: PtyCloser,
    ptyCloses: nat,       // calls of the PTY's Close
    doneCloses: nat)      // closings of the done channel

  datatype Call =
    | Creating(s: SessionId)
    | Aborting(s: SessionId)
    | KillFound(s: SessionId)
    | KillClosing(s: SessionId)
    | KillDeleting(s: SessionId)
    | KillReturned(s: SessionId, ok: bool)

  datatype Reaper =
    | Idle
    | Scanning(now: int, unseen: set<SessionId>, found: set<SessionId>)  // holds the manager's lock for reading
    | Reaping(todo: set<SessionId>)
    | ReapClosing(s: SessionId, todo: set<SessionId>)
    | ReapDeleting(s: SessionId, todo: set<SessionId>)
    | Stopped

  datatype Shutdown =
    | NotStarted
    | Killing(todo: set<SessionId>)
    | ShutClosing(s: SessionId, todo: set<SessionId>)
    | Waiting             // the reaper has been told to stop
    | Returned

  datatype State = State(
    sessions: map<SessionId, Managed>,  // every session object ever built
    byID: set<SessionId>,
    byIDNil: bool,
    closed: bool,
    calls: map<CallId, Call>,
    reaper: Reaper,
    shutdown: Shutdown)

  function Initial(): State {
    State(map[], {}, false, false, map[], Idle, NotStarted)
  }

  predicate Stale(idleTimeout: int, closed: bool, viewers: nat, lastIO: int, now: int) {
    idleTimeout > 0 && !closed && viewers == 0 && lastIO < now - idleTimeout
  }

  predicate StaleAt(m: Managed, now: int) {
    Stale(m.idleTimeout, m.closed, m.viewers, m.lastIO, now)
  }

  datatype CreateStep =
    | Spawn(t: CallId, s: SessionId, idleTimeout: int, now: int)
    | Register(t: CallId)
    | AbortClose(t: CallId)

  datatype KillStep =
    | KillGet(t: CallId, s: SessionId)
    | KillLock(t: CallId)
    | KillClose(t: CallId, ok: bool)
    | KillDelete(t: CallId)

  datatype ReapStep =
    | ReapStart(now: int)
    | ReapCheck(s: SessionId)
    | ReapScanned
    | ReapLock(s: SessionId)
    | ReapClose
    | ReapDelete
    | ReapEnd
    | ReaperStops

  datatype ShutdownStep =
    | ShutdownStart
    | ShutdownLock(s: SessionId)
    | ShutdownClose
    | ShutdownStop
    | ShutdownReturn

  datatype SessionStep =
    | ExitRecord
    | ExitSignal
    | ExitForget
    | Attach
    | Detach
    | Touch(now: int)

  datatype Action =
    | Create(create: CreateStep)
    | Kill(kill: KillStep)
    | Reap(reap: ReapStep)
    | Shut(shut: ShutdownStep)
    | Session(s: SessionId, step: SessionStep)

  /** The manager's lock can be taken for writing. */
  predicate Writable(st: State) {
    !st.reaper.Scanning?
  }

  predicate Registered(st: State, s: SessionId) {
    s in st.sessions && st.sessions[s].registered
  }

  predicate At(st: State, t: CallId) {
    t in st.calls && st.calls[t].s in st.sessions
  }

  predicate CanCreate(st: State, a: CreateStep) {
    match a
    case Spawn(t, s, _, _) => t !in st.calls && s !in st.sessions
    case Register(t) => At(st, t) && st.calls[t].Creating? && Writable(st)
    case AbortClose(t) => At(st, t) && st.calls[t].Aborting?
  }

  predicate CanKill(st: State, a: KillStep) {
    match a
    case KillGet(t, s) => t !in st.calls && s in st.byID
    case KillLock(t) => At(st, t) && st.calls[t].KillFound?
    case KillClose(t, _) => At(st, t) && st.calls[t].KillClosing?
    case KillDelete(t) => At(st, t) && st.calls[t].KillDeleting? && Writable(st)
  }

  predicate CanReap(st: State, a: ReapStep) {
    match a
    case ReapStart(_) => st.reaper == Idle
    case ReapCheck(s) => st.reaper.Scanning? && s in st.reaper.unseen && s in st.sessions
    case ReapScanned => st.reaper.Scanning? && st.reaper.unseen == {}
    case ReapLock(s) => st.reaper.Reaping? && s in st.reaper.todo && s in st.sessions
    case ReapClose => st.reaper.ReapClosing? && st.reaper.s in st.sessions
    case ReapDelete => st.reaper.ReapDeleting?
    case ReapEnd => st.reaper == Reaping({})
    case ReaperStops => st.reaper == Idle && st.shutdown == Waiting
  }

  predicate CanShut(st: State, a: ShutdownStep) {
    match a
    case ShutdownStart => Writable(st)
    case ShutdownLock(s) => st.shutdown.Killing? && s in st.shutdown.todo && s in st.sessions
    case ShutdownClose => st.shutdown.ShutClosing? && st.shutdown.s in st.sessions
    case ShutdownStop => st.shutdown == Killing({})
    case ShutdownReturn => st.shutdown == Waiting && st.reaper == Stopped
  }

  predicate CanSession(st: State, s: SessionId, a: SessionStep) {
    Registered(st, s) &&
    match a
    case ExitRecord => st.sessions[s].exit == Alive
    case ExitSignal => st.sessions[s].exit == Recorded
    case ExitForget => st.sessions[s].exit == Signalled && Writable(st)
    case Attach => true
    case Detach => st.sessions[s].viewers > 0
    case Touch(_) => true
  }

  // --- Pieces of steps ---

  /** The locked part of Session.Kill: only the first caller goes on to close the PTY. */
  function Locked(m: Managed, who: Who): Managed {
    if m.closed then m else m.(closed := true, closer := Pending(who))
  }

  function PtyClosed(m: Managed): Managed {
    m.(closer := Done, ptyCloses := m.ptyCloses + 1)
  }

  function With(st: State, s: SessionId, m: Managed): State {
    st.(sessions := st.sessions[s := m])
  }

  /** Deleting from a nil map is allowed and does nothing; so it is here. */
  function Deleted(st: State, s: SessionId): State {
    st.(byID := st.byID - {s})
  }

  function Goes(st: State, t: CallId, c: Call): State {
    st.(calls := st.calls[t := c])
  }

  function Ends(st: State, t: CallId): State {
    st.(calls := st.calls - {t})
  }

  /** What a whole kill comes to for a session in the map: how often its PTY has then
      been closed, and whether it leaves the map, which is also the call's success. */
  datatype KillEffect = KillEffect(ptyCloses: nat, removed: bool)

  function KillEffectOn(closed: bool, ptyCloses: nat, closeOk: bool): KillEffect {
    if closed then KillEffect(ptyCloses, true) else KillEffect(ptyCloses + 1, closeOk)
  }

  function NextRegister(st: State, t: CallId): State
    requires At(st, t)
  {
    var s := st.calls[t].s;
    var m := st.sessions[s];
    if st.closed then Goes(With(st, s, m.(closer := Pending(ByCall(t)))), t, Aborting(s))
    else Ends(With(st, s, m.(registered := true)), t).(byID := st.byID + {s})
  }

  function NextKillLock(st: State, t: CallId): State
    requires At(st, t)
  {
    var s := st.calls[t].s;
    var m := st.sessions[s];
    Goes(With(st, s, Locked(m, ByCall(t))), t, if m.closed then KillDeleting(s) else KillClosing(s))
  }

  function NextKillClose(st: State, t: CallId, ok: bool): State
    requires At(st, t)
  {
    var s := st.calls[t].s;
    Goes(With(st, s, PtyClosed(st.sessions[s])), t, if ok then KillDeleting(s) else KillReturned(s, false))
  }

  function NextReapCheck(st: State, s: SessionId): State
    requires st.reaper.Scanning? && s in st.sessions
  {
    var found := if StaleAt(st.sessions[s], st.reaper.now) then st.reaper.found + {s} else st.reaper.found;
    st.(reaper := Scanning(st.reaper.now, st.reaper.unseen - {s}, found))
  }

  function NextReapLock(st: State, s: SessionId): State
    requires st.reaper.Reaping? && s in st.sessions
  {
    var m, todo := st.sessions[s], st.reaper.todo - {s};
    With(st, s, Locked(m, ByReaper)).(reaper := if m.closed then ReapDeleting(s, todo) else ReapClosing(s, todo))
  }

  function NextShutdownLock(st: State, s: SessionId): State
    requires st.shutdown.Killing? && s in st.sessions
  {
    var m, todo := st.sessions[s], st.shutdown.todo - {s};
    With(st, s, Locked(m, ByShutdown)).(shutdown := if m.closed then Killing(todo) else ShutClosing(s, todo))
  }

  function NextShutdownStart(st: State): State {
    if st.closed then st
    else st.(closed := true, byID := {}, byIDNil := true, shutdown := Killing(st.byID))
  }

  function NextCreate(st: State, a: CreateStep): State {
    if !CanCreate(st, a) then st
    else match a
      case Spawn(t, s, idleTimeout, now) =>
        Goes(With(st, s, Managed(t, false, false, idleTimeout, now, 0, Alive, Nobody, 0, 0)), t, Creating(s))
      case Register(t) => NextRegister(st, t)
      case AbortClose(t) => Ends(With(st, st.calls[t].s, PtyClosed(st.sessions[st.calls[t].s])), t)
  }

  function NextKill(st: State, a: KillStep): State {
    if !CanKill(st, a) then st
    else match a
      case KillGet(t, s) => Goes(st, t, KillFound(s))
      case KillLock(t) => NextKillLock(st, t)
      case KillClose(t, ok) => NextKillClose(st, t, ok)
      case KillDelete(t) => Goes(Deleted(st, st.calls[t].s), t, KillReturned(st.calls[t].s, true))
  }

  function NextReap(st: State, a: ReapStep): State {
    if !CanReap(st, a) then st
    else match a
      case ReapStart(now) => st.(reaper := Scanning(now, st.byID, {}))
      case ReapCheck(s) => NextReapCheck(st, s)
      case ReapScanned => st.(reaper := Reaping(st.reaper.found))
      case ReapLock(s) => NextReapLock(st, s)
      case ReapClose =>
        var s := st.reaper.s;
        With(st, s, PtyClosed(st.sessions[s])).(reaper := ReapDeleting(s, st.reaper.todo))
      case ReapDelete => Deleted(st, st.reaper.s).(reaper := Reaping(st.reaper.todo))
      case ReapEnd => st.(reaper := Idle)
      case ReaperStops => st.(reaper := Stopped)
  }

  function NextShut(st: State, a: ShutdownStep): State {
    if !CanShut(st, a) then st
    else match a
      case ShutdownStart => NextShutdownStart(st)
      case ShutdownLock(s) => NextShutdownLock(st, s)
      case ShutdownClose =>
        var s := st.shutdown.s;
        With(st, s, PtyClosed(st.sessions[s])).(shutdown := Killing(st.shutdown.todo))
      case ShutdownStop => st.(shutdown := Waiting)
      case ShutdownReturn => st.(shutdown := Returned)
  }

  function NextSession(st: State, s: SessionId, a: SessionStep): State {
    if !CanSession(st, s, a) then st
    else
      var m := st.sessions[s];
      match a
      case ExitRecord => With(st, s, m.(closed := true, exit := Recorded))
      case ExitSignal => With(st, s, m.(exit := Signalled, doneCloses := m.doneCloses + 1))
      case ExitForget => Deleted(With(st, s, m.(exit := Forgotten)), s)
      case Attach => if m.closed then st else With(st, s, m.(viewers := m.viewers + 1))
      case Detach => With(st, s, m.(viewers := m.viewers - 1))
      case Touch(now) => With(st, s, m.(lastIO := now))
  }

  function Next(st: State, a: Action): State {
    match a
    case Create(c) => NextCreate(st, c)
    case Kill(k) => NextKill(st, k)
    case Reap(r) => NextReap(st, r)
    case Shut(d) => NextShut(st, d)
    case Session(s, b) => NextSession(st, s, b)
  }

  function Run(st: State, actions: seq<Action>): State
    decreases |actions|
  {
    if actions == [] then st else Run(Next(st, actions[0]), actions[1..])
  }

  // --- What every step keeps ---

  /** One session, by itself. */
  ghost predicate Sound(m: Managed) {
    && m.ptyCloses == (if m.closer == Done then 1 else 0)
    && m.doneCloses == (if m.exit == Signalled || m.exit == Forgotten then 1 else 0)
    && (m.registered && m.closer != Nobody ==> m.closed)
    && (!m.registered ==> !m.closed && m.exit == Alive)
    && (m.exit != Alive ==> m.closed)
    && (m.closed && m.exit == Alive ==> m.closer != Nobody)
  }

  /** Whoever is due to close a session's PTY is indeed about to. */
  ghost predicate Owned(st: State, s: SessionId, closer: PtyCloser) {
    match closer
    case Pending(ByCall(t)) => t in st.calls && (st.calls[t] == Aborting(s) || st.calls[t] == KillClosing(s))
    case Pending(ByReaper) => st.reaper.ReapClosing? && st.reaper.s == s
    case Pending(ByShutdown) => st.shutdown.ShutClosing? && st.shutdown.s == s
    case _ => true
  }

  predicate ShutdownOwes(sd: Shutdown, s: SessionId) {
    match sd
    case Killing(todo) => s in todo
    case ShutClosing(_, todo) => s in todo
    case _ => false
  }

  ghost predicate SessionOk(st: State, s: SessionId)
    requires s in st.sessions
  {
    var m := st.sessions[s];
    && Sound(m)
    && Owned(st, s, m.closer)
    && (m.registered && s !in st.byID ==> m.closed || ShutdownOwes(st.shutdown, s))
    && (!m.registered && m.closer == Nobody ==> m.creator in st.calls && st.calls[m.creator] == Creating(s))
  }

  ghost predicate CallOk(st: State, t: CallId)
    requires t in st.calls
  {
    var c := st.calls[t];
    c.s in st.sessions && var m := st.sessions[c.s];
      match c
      case Creating(_) => !m.registered && m.closer == Nobody && m.creator == t
      case Aborting(_) => !m.registered && m.closer == Pending(ByCall(t))
      case KillFound(_) => m.registered
      case KillClosing(_) => m.registered && m.closed && m.closer == Pending(ByCall(t))
      case KillDeleting(_) => m.registered && m.closed
      case KillReturned(s, ok) => m.registered && m.closed && (ok ==> s !in st.byID)
  }

  /** The sessions the reaper has decided to kill. */
  function Condemned(r: Reaper): set<SessionId> {
    match r
    case Scanning(_, _, found) => found
    case Reaping(todo) => todo
    case ReapClosing(s, todo) => todo + {s}
    case ReapDeleting(s, todo) => todo + {s}
    case _ => {}
  }

  /** The session is closed and `who` is about to close its PTY. */
  predicate Closing(st: State, s: SessionId, who: Who) {
    Registered(st, s) && st.sessions[s].closed && st.sessions[s].closer == Pending(who)
  }

  /** Every list names registered sessions only, and the reaper's only those with a timeout. */
  ghost predicate ListedOk(st: State, s: SessionId) {
    && (s in st.byID || ShutdownOwes(st.shutdown, s) || s in Condemned(st.reaper) ==> Registered(st, s))
    && (s in Condemned(st.reaper) ==> Registered(st, s) && st.sessions[s].idleTimeout > 0)
  }

  ghost predicate ReaperOk(st: State) {
    && (st.reaper.Scanning? ==> st.reaper.unseen <= st.byID)
    && (st.reaper.ReapClosing? ==> Closing(st, st.reaper.s, ByReaper))
    && (st.reaper.ReapDeleting? ==> Registered(st, st.reaper.s) && st.sessions[st.reaper.s].closed)
    && (st.reaper == Stopped ==> st.shutdown == Waiting || st.shutdown == Returned)
  }

  ghost predicate ShutdownOk(st: State) {
    && (st.closed <==> st.byIDNil)
    && (st.closed <==> st.shutdown != NotStarted)
    && (st.byIDNil ==> st.byID == {})
    && st.byID <= st.sessions.Keys
    && (st.shutdown.ShutClosing? ==> Closing(st, st.shutdown.s, ByShutdown))
    && (st.shutdown == Returned ==> st.reaper == Stopped)
  }

  ghost predicate Inv(st: State) {
    && (forall s :: s in st.sessions ==> SessionOk(st, s))
    && (forall t :: t in st.calls ==> CallOk(st, t))
    && (forall s :: ListedOk(st, s))
    && ReaperOk(st)
    && ShutdownOk(st)
  }

  ghost predicate LocallyOk(st: State, s: SessionId) {
    (s in st.sessions ==> SessionOk(st, s)) && ListedOk(st, s)
  }

  ghost predicate ActorOk(st: State, t: CallId) {
    t in st.calls ==> CallOk(st, t)
  }

  lemma CreateKeepsSession(st: State, a: CreateStep, x: SessionId)
    requires LocallyOk(st, x) && ActorOk(st, a.t)
    ensures LocallyOk(NextCreate(st, a), x)
  {
  }

  lemma CreateKeepsCall(st: State, a: CreateStep, u: CallId)
    requires ActorOk(st, u) && ActorOk(st, a.t)
    ensures ActorOk(NextCreate(st, a), u)
  {
  }

  lemma CreateKeepsThreads(st: State, a: CreateStep)
    requires ActorOk(st, a.t) && ReaperOk(st) && ShutdownOk(st)
    ensures ReaperOk(NextCreate(st, a)) && ShutdownOk(NextCreate(st, a))
  {
  }

  lemma KillKeepsSession(st: State, a: KillStep, x: SessionId)
    requires LocallyOk(st, x) && ActorOk(st, a.t)
    ensures LocallyOk(NextKill(st, a), x)
  {
  }

  lemma KillKeepsCall(st: State, a: KillStep, u: CallId)
    requires ActorOk(st, u) && ActorOk(st, a.t) && (a.KillGet? ==> LocallyOk(st, a.s))
    ensures ActorOk(NextKill(st, a), u)
  {
  }

  lemma KillKeepsThreads(st: State, a: KillStep)
    requires ActorOk(st, a.t) && ReaperOk(st) && ShutdownOk(st)
    ensures ReaperOk(NextKill(st, a)) && ShutdownOk(NextKill(st, a))
  {
  }

  lemma ReapKeepsSession(st: State, a: ReapStep, x: SessionId)
    requires LocallyOk(st, x) && ReaperOk(st)
    ensures LocallyOk(NextReap(st, a), x)
  {
  }

  lemma ReapKeepsCall(st: State, a: ReapStep, u: CallId)
    requires ActorOk(st, u) && ReaperOk(st) && (a.ReapLock? ==> LocallyOk(st, a.s))
    ensures ActorOk(NextReap(st, a), u)
  {
  }

  lemma ReapKeepsThreads(st: State, a: ReapStep)
    requires ReaperOk(st) && ShutdownOk(st) && (a.ReapLock? ==> LocallyOk(st, a.s))
    ensures ReaperOk(NextReap(st, a)) && ShutdownOk(NextReap(st, a))
  {
  }

  lemma ShutKeepsSession(st: State, a: ShutdownStep, x: SessionId)
    requires LocallyOk(st, x) && ShutdownOk(st)
    ensures LocallyOk(NextShut(st, a), x)
  {
  }

  lemma ShutKeepsCall(st: State, a: ShutdownStep, u: CallId)
    requires ActorOk(st, u) && ShutdownOk(st) && (a.ShutdownLock? ==> LocallyOk(st, a.s))
    ensures ActorOk(NextShut(st, a), u)
  {
  }

  lemma ShutKeepsThreads(st: State, a: ShutdownStep)
    requires ReaperOk(st) && ShutdownOk(st) && (a.ShutdownLock? ==> LocallyOk(st, a.s))
    ensures ReaperOk(NextShut(st, a)) && ShutdownOk(NextShut(st, a))
  {
  }

  lemma OwnStepKeepsSession(st: State, s: SessionId, a: SessionStep, x: SessionId)
    requires LocallyOk(st, x)
    ensures LocallyOk(NextSession(st, s, a), x)
  {
  }

  lemma OwnStepKeepsCall(st: State, s: SessionId, a: SessionStep, u: CallId)
    requires ActorOk(st, u)
    ensures ActorOk(NextSession(st, s, a), u)
  {
  }

  lemma OwnStepKeepsThreads(st: State, s: SessionId, a: SessionStep)
    requires ReaperOk(st) && ShutdownOk(st)
    ensures ReaperOk(NextSession(st, s, a)) && ShutdownOk(NextSession(st, s, a))
  {
  }

  lemma StepKeeps(st: State, a: Action, x: SessionId, u: CallId)
    requires Inv(st)
    ensures LocallyOk(Next(st, a), x) && ActorOk(Next(st, a), u)
    ensures ReaperOk(Next(st, a)) && ShutdownOk(Next(st, a))
  {
    match a {
      case Create(c) => CreateKeepsSession(st, c, x); CreateKeepsCall(st, c, u); CreateKeepsThreads(st, c);
      case Kill(k) => KillKeepsSession(st, k, x); KillKeepsCall(st, k, u); KillKeepsThreads(st, k);
      case Reap(r) => ReapKeepsSession(st, r, x); ReapKeepsCall(st, r, u); ReapKeepsThreads(st, r);
      case Shut(d) => ShutKeepsSession(st, d, x); ShutKeepsCall(st, d, u); ShutKeepsThreads(st, d);
      case Session(s, b) => OwnStepKeepsSession(st, s, b, x); OwnStepKeepsCall(st, s, b, u); OwnStepKeepsThreads(st, s, b);
    }
  }

  lemma StepKeepsInv(st: State, a: Action)
    requires Inv(st)
    ensures Inv(Next(st, a))
  {
    forall x, u
      ensures LocallyOk(Next(st, a), x) && ActorOk(Next(st, a), u)
    {
      StepKeeps(st, a, x, u);
    }
    StepKeeps(st, a, 0, 0);
    var next := Next(st, a);
    assert forall x :: x in next.sessions ==> LocallyOk(next, x) && ActorOk(next, 0);
    assert forall u :: u in next.calls ==> LocallyOk(next, 0) && ActorOk(next, u);
    assert forall x :: ListedOk(next, x) <== LocallyOk(next, x) && ActorOk(next, 0);
  }

  lemma {:induction false} RunKeepsInv(st: State, actions: seq<Action>)
    requires Inv(st)
    ensures Inv(Run(st, actions))
    decreases |actions|
  {
    if actions != [] {
      StepKeepsInv(st, actions[0]);
      RunKeepsInv(Next(st, actions[0]), actions[1..]);
    }
  }
}
