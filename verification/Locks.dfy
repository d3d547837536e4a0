/** The locks of the relay. Every call is written out as what it does to locks and
    what it may block on; all calls take locks in one order, so some unfinished
    thread can always go on. */
module Locks {
  /** `Reading` is the manager's lock taken for reading, which several threads can share. */
  datatype Lock = Mgr | Reading | Sess(s: nat) | Ring(s: nat)

  datatype Op =
    | Acquire(l: Lock)
    | Release(l: Lock)
    | TrySend        // a select with a default branch
    | PtyCall        // returns sooner or later
    | StopReaper     // tells the reaper's loop to end
    | AwaitReaper    // blocks until the reaper's goroutine has ended

  function Rank(l: Lock): nat {
    match l
    case Mgr => 0
    case Reading => 0
    case Sess(_) => 1
    case Ring(_) => 2
  }

  datatype Held = Fine(locks: set<Lock>) | Broken

  /** Locks are only taken above all those held; nothing that blocks on others is
      done while holding one. */
  function Do(h: Held, op: Op): Held {
    if h.Broken? then Broken
    else match op
      case Acquire(l) => if forall k :: k in h.locks ==> Rank(k) < Rank(l) then Fine(h.locks + {l}) else Broken
      case Release(l) => if l in h.locks then Fine(h.locks - {l}) else Broken
      case TrySend => h
      case PtyCall => if h.locks == {} then h else Broken
      case StopReaper => h
      case AwaitReaper => if h.locks == {} then h else Broken
  }

  function DoAll(h: Held, ops: seq<Op>): Held
    decreases |ops|
  {
    if ops == [] then h else DoAll(Do(h, ops[0]), ops[1..])
  }

  // --- The calls ---

  function Section(l: Lock): seq<Op> {
    [Acquire(l), Release(l)]
  }

  function Repeat(n: nat, ops: seq<Op>): seq<Op> {
    if n == 0 then [] else ops + Repeat(n - 1, ops)
  }

  function Sections(ss: seq<nat>): seq<Op> {
    if ss == [] then [] else Section(Sess(ss[0])) + Sections(ss[1..])
  }

  /** Session.Kill: the flag under the lock, the PTY outside it. A session found closed
      already skips the PTY, which blocks on nobody anyway. */
  function KillOps(s: nat): seq<Op> {
    Section(Sess(s)) + [PtyCall]
  }

  function KillAllOps(ss: seq<nat>): seq<Op> {
    if ss == [] then [] else KillOps(ss[0]) + KillAllOps(ss[1..])
  }

  function KillAndDeleteOps(ss: seq<nat>): seq<Op> {
    if ss == [] then [] else KillOps(ss[0]) + Section(Mgr) + KillAndDeleteOps(ss[1..])
  }

  /** The exit frame to each subscriber: sent, or the subscriber removed. */
  function FanoutOps(s: nat, overflows: seq<bool>): seq<Op> {
    if overflows == [] then []
    else TrySendOr(s, overflows[0]) + FanoutOps(s, overflows[1..])
  }

  function TrySendOr(s: nat, overflows: bool): seq<Op> {
    if overflows then [TrySend] + Section(Sess(s)) else [TrySend]
  }

  datatype Call =
    | Create(aborted: bool)
    | Get
    | List(all: seq<nat>)
    | Rename(s: nat)
    | Kill(s: nat)
    | Shutdown(all: seq<nat>)
    | ReapPass(all: seq<nat>, stale: seq<nat>)
    | Publish(s: nat, subscribers: nat)
    | Subscribe(s: nat)
    | Remove(s: nat)
    | WaitExit(s: nat, overflows: seq<bool>)
    | Resize(s: nat)
    | WriteInput(s: nat)

  function Ops(c: Call): seq<Op> {
    match c
    case Create(aborted) => [PtyCall] + Section(Mgr) + (if aborted then [PtyCall] else [])
    case Get => Section(Reading)
    case List(all) => [Acquire(Reading)] + Sections(all) + [Release(Reading)]
    case Rename(s) => Section(Reading) + Section(Sess(s)) + Section(Sess(s))
    case Kill(s) => Section(Reading) + KillAndDeleteOps([s])
    case Shutdown(all) => Section(Mgr) + KillAllOps(all) + [StopReaper] + [AwaitReaper]
    case ReapPass(all, stale) => [Acquire(Reading)] + Sections(all) + [Release(Reading)] + KillAndDeleteOps(stale)
    case Publish(s, n) =>
      [PtyCall, Acquire(Sess(s))] + Section(Ring(s)) + Repeat(n, [TrySend]) + [Release(Sess(s))]
    case Subscribe(s) => [Acquire(Sess(s))] + Section(Ring(s)) + [TrySend, Release(Sess(s))]
    case Remove(s) => Section(Sess(s))
    case WaitExit(s, overflows) =>
      [PtyCall] + Section(Sess(s)) + Section(Sess(s)) + FanoutOps(s, overflows) + Section(Sess(s)) + Section(Mgr)
    case Resize(s) => Section(Sess(s)) + [PtyCall] + Section(Sess(s))
    case WriteInput(s) => Section(Sess(s)) + [PtyCall] + Section(Sess(s))
  }

  // --- Every call keeps the order ---

  lemma {:induction false} DoAllConcat(h: Held, a: seq<Op>, b: seq<Op>)
    ensures DoAll(h, a + b) == DoAll(DoAll(h, a), b)
    decreases |a|
  {
    if a == [] {
      assert a + b == b;
    } else {
      assert (a + b)[1..] == a[1..] + b;
      DoAllConcat(Do(h, a[0]), a[1..], b);
    }
  }

  /** Running the operations while holding `locks` is allowed and gives them all back. */
  predicate Neutral(locks: set<Lock>, ops: seq<Op>) {
    DoAll(Fine(locks), ops) == Fine(locks)
  }

  lemma NeutralConcat(locks: set<Lock>, a: seq<Op>, b: seq<Op>)
    requires Neutral(locks, a) && Neutral(locks, b)
    ensures Neutral(locks, a + b)
  {
    DoAllConcat(Fine(locks), a, b);
  }

  /** Operations done between taking a lock and giving it back. */
  lemma NeutralInside(locks: set<Lock>, l: Lock, ops: seq<Op>)
    requires l !in locks && forall k :: k in locks ==> Rank(k) < Rank(l)
    requires Neutral(locks + {l}, ops)
    ensures Neutral(locks, [Acquire(l)] + ops + [Release(l)])
  {
    DoAllConcat(Fine(locks), [Acquire(l)] + ops, [Release(l)]);
    DoAllConcat(Fine(locks), [Acquire(l)], ops);
    assert [Acquire(l)][1..] == [];
    assert [Release(l)][1..] == [];
    assert locks + {l} - {l} == locks;
    assert DoAll(Fine(locks), [Acquire(l)]) == Fine(locks + {l});
    assert DoAll(Fine(locks + {l}), [Release(l)]) == Do(Fine(locks + {l}), Release(l));
  }

  lemma NeutralSection(locks: set<Lock>, l: Lock)
    requires forall k :: k in locks ==> Rank(k) < Rank(l)
    ensures Neutral(locks, Section(l))
  {
    assert l !in locks;
    NeutralInside(locks, l, []);
    assert [Acquire(l)] + [] + [Release(l)] == Section(l);
  }

  lemma NeutralOne(locks: set<Lock>, op: Op)
    requires op == TrySend || op == StopReaper || (locks == {} && (op == PtyCall || op == AwaitReaper))
    ensures Neutral(locks, [op])
  {
    assert [op][1..] == [];
  }

  lemma {:induction false} SectionsNeutral(ss: seq<nat>)
    ensures Neutral({Reading}, Sections(ss))
    decreases |ss|
  {
    if ss != [] {
      NeutralSection({Reading}, Sess(ss[0]));
      SectionsNeutral(ss[1..]);
      NeutralConcat({Reading}, Section(Sess(ss[0])), Sections(ss[1..]));
    }
  }

  lemma KillOpsNeutral(s: nat)
    ensures Neutral({}, KillOps(s))
  {
    NeutralSection({}, Sess(s));
    NeutralOne({}, PtyCall);
    NeutralConcat({}, Section(Sess(s)), [PtyCall]);
  }

  lemma {:induction false} KillAllOpsNeutral(ss: seq<nat>)
    ensures Neutral({}, KillAllOps(ss)) && Neutral({}, KillAndDeleteOps(ss))
    decreases |ss|
  {
    if ss != [] {
      KillAllOpsNeutral(ss[1..]);
      KillOpsNeutral(ss[0]);
      NeutralSection({}, Mgr);
      NeutralConcat({}, KillOps(ss[0]), KillAllOps(ss[1..]));
      NeutralConcat({}, KillOps(ss[0]), Section(Mgr));
      NeutralConcat({}, KillOps(ss[0]) + Section(Mgr), KillAndDeleteOps(ss[1..]));
    }
  }

  lemma {:induction false} SendsNeutral(locks: set<Lock>, n: nat)
    ensures Neutral(locks, Repeat(n, [TrySend]))
    decreases n
  {
    if n > 0 {
      NeutralOne(locks, TrySend);
      SendsNeutral(locks, n - 1);
      NeutralConcat(locks, [TrySend], Repeat(n - 1, [TrySend]));
    }
  }

  lemma {:induction false} FanoutNeutral(s: nat, overflows: seq<bool>)
    ensures Neutral({}, FanoutOps(s, overflows))
    decreases |overflows|
  {
    if overflows != [] {
      NeutralOne({}, TrySend);
      NeutralSection({}, Sess(s));
      NeutralConcat({}, [TrySend], Section(Sess(s)));
      FanoutNeutral(s, overflows[1..]);
      NeutralConcat({}, TrySendOr(s, overflows[0]), FanoutOps(s, overflows[1..]));
    }
  }

  lemma ManagerCallsNeutral(c: Call)
    requires c.Create? || c.Get? || c.List? || c.Rename? || c.Kill? || c.Shutdown? || c.ReapPass?
    ensures Neutral({}, Ops(c))
  {
    NeutralSection({}, Mgr);
    NeutralSection({}, Reading);
    NeutralOne({}, PtyCall);
    NeutralOne({}, StopReaper);
    NeutralOne({}, AwaitReaper);
    match c {
      case Create(aborted) =>
        NeutralConcat({}, [PtyCall], Section(Mgr));
        NeutralConcat({}, [PtyCall] + Section(Mgr), if aborted then [PtyCall] else []);
      case Get =>
      case List(all) =>
        SectionsNeutral(all);
        ScanNeutral(all);
      case Rename(s) =>
        NeutralSection({}, Sess(s));
        NeutralConcat({}, Section(Reading), Section(Sess(s)));
        NeutralConcat({}, Section(Reading) + Section(Sess(s)), Section(Sess(s)));
      case Kill(s) =>
        KillAllOpsNeutral([s]);
        NeutralConcat({}, Section(Reading), KillAndDeleteOps([s]));
      case Shutdown(all) =>
        KillAllOpsNeutral(all);
        NeutralConcat({}, Section(Mgr), KillAllOps(all));
        NeutralConcat({}, Section(Mgr) + KillAllOps(all), [StopReaper]);
        NeutralConcat({}, Section(Mgr) + KillAllOps(all) + [StopReaper], [AwaitReaper]);
      case ReapPass(all, stale) =>
        ScanNeutral(all);
        KillAllOpsNeutral(stale);
        NeutralConcat({}, [Acquire(Reading)] + Sections(all) + [Release(Reading)], KillAndDeleteOps(stale));
    }
  }

  lemma ScanNeutral(all: seq<nat>)
    ensures Neutral({}, [Acquire(Reading)] + Sections(all) + [Release(Reading)])
  {
    SectionsNeutral(all);
    assert {} + {Reading} == {Reading};
    NeutralInside({}, Reading, Sections(all));
  }

  /** A session's critical section around its ring buffer's, with some sends at the end. */
  lemma RecordNeutral(s: nat, sends: seq<Op>)
    requires Neutral({Sess(s)}, sends)
    ensures Neutral({}, [Acquire(Sess(s))] + (Section(Ring(s)) + sends) + [Release(Sess(s))])
  {
    NeutralSection({Sess(s)}, Ring(s));
    NeutralConcat({Sess(s)}, Section(Ring(s)), sends);
    assert {} + {Sess(s)} == {Sess(s)};
    NeutralInside({}, Sess(s), Section(Ring(s)) + sends);
  }

  lemma PublishNeutral(s: nat, n: nat)
    ensures Neutral({}, Ops(Publish(s, n)))
  {
    var sends := Repeat(n, [TrySend]);
    SendsNeutral({Sess(s)}, n);
    RecordNeutral(s, sends);
    NeutralOne({}, PtyCall);
    NeutralConcat({}, [PtyCall], [Acquire(Sess(s))] + (Section(Ring(s)) + sends) + [Release(Sess(s))]);
    assert Ops(Publish(s, n)) == [PtyCall] + ([Acquire(Sess(s))] + (Section(Ring(s)) + sends) + [Release(Sess(s))]);
  }

  lemma SubscribeNeutral(s: nat)
    ensures Neutral({}, Ops(Subscribe(s)))
  {
    NeutralOne({Sess(s)}, TrySend);
    RecordNeutral(s, [TrySend]);
    assert Ops(Subscribe(s)) == [Acquire(Sess(s))] + (Section(Ring(s)) + [TrySend]) + [Release(Sess(s))];
  }

  lemma SessionCallsNeutral(c: Call)
    requires c.Publish? || c.Subscribe? || c.Remove? || c.WaitExit? || c.Resize? || c.WriteInput?
    ensures Neutral({}, Ops(c))
  {
    var section := Section(Sess(c.s));
    NeutralSection({}, Sess(c.s));
    NeutralSection({}, Mgr);
    NeutralOne({}, PtyCall);
    NeutralConcat({}, section, [PtyCall]);
    NeutralConcat({}, section + [PtyCall], section);
    match c {
      case Publish(s, n) => PublishNeutral(s, n);
      case Subscribe(s) => SubscribeNeutral(s);
      case WaitExit(s, overflows) =>
        FanoutNeutral(s, overflows);
        NeutralConcat({}, [PtyCall], section);
        NeutralConcat({}, [PtyCall] + section, section);
        NeutralConcat({}, [PtyCall] + section + section, FanoutOps(s, overflows));
        NeutralConcat({}, [PtyCall] + section + section + FanoutOps(s, overflows), section);
        NeutralConcat({}, [PtyCall] + section + section + FanoutOps(s, overflows) + section, Section(Mgr));
      case _ =>
    }
  }

  /** Every call takes locks in the order manager, session, ring buffer, calls the PTY
      and waits for the reaper with none held, and gives back what it took. */
  lemma CallsAreOrdered(c: Call)
    ensures DoAll(Fine({}), Ops(c)) == Fine({})
  {
    match c {
      case Create(_) => ManagerCallsNeutral(c);
      case Get => ManagerCallsNeutral(c);
      case List(_) => ManagerCallsNeutral(c);
      case Rename(_) => ManagerCallsNeutral(c);
      case Kill(_) => ManagerCallsNeutral(c);
      case Shutdown(_) => ManagerCallsNeutral(c);
      case ReapPass(_, _) => ManagerCallsNeutral(c);
      case _ => SessionCallsNeutral(c);
    }
  }

  // --- Nobody waits for a reaper that has not been told to stop ---

  lemma {:induction false} SectionsNeverAwait(ss: seq<nat>)
    ensures AwaitReaper !in Sections(ss)
    decreases |ss|
  {
    if ss != [] {
      SectionsNeverAwait(ss[1..]);
    }
  }

  lemma {:induction false} KillsNeverAwait(ss: seq<nat>)
    ensures AwaitReaper !in KillAndDeleteOps(ss) && AwaitReaper !in KillAllOps(ss)
    decreases |ss|
  {
    if ss != [] {
      KillsNeverAwait(ss[1..]);
    }
  }

  lemma {:induction false} SendsNeverAwait(n: nat)
    ensures AwaitReaper !in Repeat(n, [TrySend])
    decreases n
  {
    if n > 0 {
      SendsNeverAwait(n - 1);
    }
  }

  lemma {:induction false} FanoutNeverAwaits(s: nat, overflows: seq<bool>)
    ensures AwaitReaper !in FanoutOps(s, overflows)
    decreases |overflows|
  {
    if overflows != [] {
      FanoutNeverAwaits(s, overflows[1..]);
    }
  }

  /** Only a shutdown waits for the reaper. */
  lemma OthersNeverAwait(c: Call)
    requires !c.Shutdown?
    ensures AwaitReaper !in Ops(c)
  {
    match c {
      case List(all) => SectionsNeverAwait(all);
      case Kill(s) => KillsNeverAwait([s]);
      case ReapPass(all, stale) =>
        SectionsNeverAwait(all);
        KillsNeverAwait(stale);
      case Publish(_, n) => SendsNeverAwait(n);
      case WaitExit(s, overflows) => FanoutNeverAwaits(s, overflows);
      case _ =>
    }
  }

  /** Wherever the operations wait for the reaper, it has been told to stop just before. */
  predicate StopsFirst(ops: seq<Op>) {
    forall i :: 0 <= i < |ops| && ops[i] == AwaitReaper ==> i > 0 && ops[i - 1] == StopReaper
  }

  lemma CallsStopFirst(c: Call)
    ensures StopsFirst(Ops(c))
  {
    if c.Shutdown? {
      KillsNeverAwait(c.all);
      var before := Section(Mgr) + KillAllOps(c.all);
      assert AwaitReaper !in before;
      assert Ops(c) == before + [StopReaper, AwaitReaper];
    } else {
      OthersNeverAwait(c);
    }
  }

  // --- Threads ---

  /** A thread that wants the manager's lock for writing is `pending` from its
      announcement, which keeps new readers out, until it gets the lock. */
  datatype Thread = Thread(ops: seq<Op>, held: set<Lock>, pending: bool)

  type Threads = seq<Thread>

  const IDLE := Thread([], {}, false)

  /** The threads, of which number 0 is the reaper's, and how far its loop has come. */
  datatype Relay = Relay(threads: Threads, stop: bool, ended: bool)

  predicate Free(ts: Threads, l: Lock) {
    forall t :: 0 <= t < |ts| ==> l !in ts[t].held
  }

  predicate NonePending(ts: Threads) {
    forall t :: 0 <= t < |ts| ==> !ts[t].pending
  }

  predicate CanStep(r: Relay, t: nat)
    requires t < |r.threads|
  {
    var ts := r.threads;
    ts[t].ops != [] &&
    match ts[t].ops[0]
    case Acquire(l) =>
      if l == Mgr then (if ts[t].pending then Free(ts, Reading) else NonePending(ts) && Free(ts, Mgr))
      else if l == Reading then NonePending(ts) && Free(ts, Mgr)
      else Free(ts, l)
    case AwaitReaper => r.ended
    case _ => true
  }

  function Advance(th: Thread): Thread
    requires th.ops != []
  {
    match th.ops[0]
    case Acquire(l) =>
      if l == Mgr && !th.pending then th.(pending := true)
      else Thread(th.ops[1..], th.held + {l}, false)
    case Release(l) => th.(ops := th.ops[1..], held := th.held - {l})
    case _ => th.(ops := th.ops[1..])
  }

  /** A thread goes on; an idle one begins its next call, as the loops of the pump, of
      the servers and of the exit paths do; the reaper's loop takes a tick, which it may
      even when told to stop; or it ends, which it does only when told to. */
  datatype Move = Step(t: nat) | Begin(t: nat, c: Call) | Tick(all: seq<nat>, stale: seq<nat>) | EndReaper

  predicate Possible(r: Relay, m: Move) {
    match m
    case Step(t) => t < |r.threads| && CanStep(r, t)
    case Begin(t, c) => 0 < t < |r.threads| && r.threads[t].ops == [] && !c.ReapPass?
    case Tick(_, _) => r.threads != [] && r.threads[0].ops == [] && !r.ended
    case EndReaper => r.threads != [] && r.threads[0].ops == [] && r.stop && !r.ended
  }

  function Next(r: Relay, m: Move): Relay {
    if !Possible(r, m) then r
    else match m
      case Step(t) =>
        r.(threads := r.threads[t := Advance(r.threads[t])], stop := r.stop || r.threads[t].ops[0] == StopReaper)
      case Begin(t, c) => r.(threads := r.threads[t := r.threads[t].(ops := Ops(c))])
      case Tick(all, stale) => r.(threads := r.threads[0 := r.threads[0].(ops := Ops(ReapPass(all, stale)))])
      case EndReaper => r.(ended := true)
  }

  function Run(r: Relay, moves: seq<Move>): Relay
    decreases |moves|
  {
    if moves == [] then r else Run(Next(r, moves[0]), moves[1..])
  }

  function Start(n: nat): Relay {
    Relay(seq(n + 1, _ => IDLE), false, false)
  }

  function Reached(n: nat, moves: seq<Move>): Relay {
    Run(Start(n), moves)
  }

  predicate ThreadOk(th: Thread) {
    && DoAll(Fine(th.held), th.ops) == Fine({})
    && (th.pending ==> th.ops != [] && th.ops[0] == Acquire(Mgr))
  }

  /** Two threads are never inside one lock, nor one writing while another reads. */
  predicate Apart(a: Thread, b: Thread) {
    && (forall l :: l in a.held && l in b.held ==> l == Reading)
    && !(Mgr in a.held && Reading in b.held) && !(Reading in a.held && Mgr in b.held)
    && !((a.pending || Mgr in a.held) && (b.pending || Mgr in b.held))
  }

  ghost predicate Disciplined(ts: Threads) {
    && (forall t :: 0 <= t < |ts| ==> ThreadOk(ts[t]))
    && (forall t, u :: 0 <= t < u < |ts| ==> Apart(ts[t], ts[u]))
  }

  ghost predicate Orderly(r: Relay) {
    && r.threads != []
    && Disciplined(r.threads)
    && AwaitReaper !in r.threads[0].ops
    && (forall t :: 0 <= t < |r.threads| ==> r.stop || StopsFirst(r.threads[t].ops))
  }

  lemma DoAllBroken(ops: seq<Op>)
    ensures DoAll(Broken, ops) == Broken
    decreases |ops|
  {
    if ops != [] {
      DoAllBroken(ops[1..]);
    }
  }

  /** What the first operation of an orderly thread can be. */
  lemma FirstOp(th: Thread)
    requires ThreadOk(th) && th.ops != []
    ensures Do(Fine(th.held), th.ops[0]).Fine?
    ensures DoAll(Do(Fine(th.held), th.ops[0]), th.ops[1..]) == Fine({})
  {
    DoAllBroken(th.ops[1..]);
  }

  lemma StepThreadOk(r: Relay, t: nat)
    requires t < |r.threads| && ThreadOk(r.threads[t]) && CanStep(r, t)
    ensures ThreadOk(Advance(r.threads[t]))
  {
    FirstOp(r.threads[t]);
  }

  lemma StepApart(r: Relay, t: nat, u: nat)
    requires t < |r.threads| && u < |r.threads| && t != u && ThreadOk(r.threads[t]) && CanStep(r, t)
    requires Apart(r.threads[t], r.threads[u]) || Apart(r.threads[u], r.threads[t])
    requires r.threads[u].pending ==> ThreadOk(r.threads[u])
    ensures Apart(Advance(r.threads[t]), r.threads[u]) && Apart(r.threads[u], Advance(r.threads[t]))
  {
    FirstOp(r.threads[t]);
  }

  lemma StepDisciplined(r: Relay, t: nat)
    requires Disciplined(r.threads) && t < |r.threads| && CanStep(r, t)
    ensures Disciplined(r.threads[t := Advance(r.threads[t])])
  {
    var ts, next := r.threads, r.threads[t := Advance(r.threads[t])];
    StepThreadOk(r, t);
    forall u, v | 0 <= u < v < |ts|
      ensures Apart(next[u], next[v])
    {
      assert Apart(ts[u], ts[v]);
      if u == t {
        StepApart(r, t, v);
      } else if v == t {
        StepApart(r, t, u);
      }
    }
  }

  lemma StepOrderly(r: Relay, t: nat)
    requires Orderly(r) && Possible(r, Step(t))
    ensures Orderly(Next(r, Step(t)))
  {
    StepDisciplined(r, t);
    var ops, next := r.threads[t].ops, Next(r, Step(t));
    assert next.stop || StopsFirst(next.threads[t].ops) by {
      if !next.stop {
        RestStopsFirst(ops);
      }
    }
  }

  lemma RestStopsFirst(ops: seq<Op>)
    requires StopsFirst(ops) && ops != [] && ops[0] != StopReaper
    ensures StopsFirst(ops[1..])
  {
  }

  lemma BeginDisciplined(ts: Threads, t: nat, c: Call)
    requires Disciplined(ts) && t < |ts| && ts[t].ops == []
    ensures Disciplined(ts[t := ts[t].(ops := Ops(c))])
  {
    CallsAreOrdered(c);
    var next := ts[t := ts[t].(ops := Ops(c))];
    assert ThreadOk(ts[t]);
    forall u, v | 0 <= u < v < |ts|
      ensures Apart(next[u], next[v])
    {
      assert Apart(ts[u], ts[v]);
    }
  }

  lemma BeginOrderly(r: Relay, t: nat, c: Call)
    requires Orderly(r) && t < |r.threads| && r.threads[t].ops == [] && (t == 0 ==> c.ReapPass?)
    ensures Orderly(r.(threads := r.threads[t := r.threads[t].(ops := Ops(c))]))
  {
    BeginDisciplined(r.threads, t, c);
    CallsStopFirst(c);
    if t == 0 {
      OthersNeverAwait(c);
    }
  }

  lemma MoveOrderly(r: Relay, m: Move)
    requires Orderly(r)
    ensures Orderly(Next(r, m))
  {
    if Possible(r, m) {
      match m {
        case Step(t) => StepOrderly(r, t);
        case Begin(t, c) => BeginOrderly(r, t, c);
        case Tick(all, stale) => BeginOrderly(r, 0, ReapPass(all, stale));
        case EndReaper =>
      }
    }
  }

  lemma {:induction false} RunOrderly(r: Relay, moves: seq<Move>)
    requires Orderly(r)
    ensures Orderly(Run(r, moves))
    decreases |moves|
  {
    if moves != [] {
      MoveOrderly(r, moves[0]);
      RunOrderly(Next(r, moves[0]), moves[1..]);
    }
  }

  /** In every run of the relay, no two threads are inside one lock, nor one writing
      while another reads. */
  lemma LocksExclude(n: nat, moves: seq<Move>, t: nat, u: nat)
    requires t < u < |Reached(n, moves).threads|
    ensures var a, b := Reached(n, moves).threads[t].held, Reached(n, moves).threads[u].held;
            && (forall l :: l in a && l in b ==> l == Reading)
            && !(Mgr in a && (Mgr in b || Reading in b)) && !(Mgr in b && Reading in a)
  {
    RunOrderly(Start(n), moves);
  }

  // --- Somebody can always go on ---

  predicate Unfinished(r: Relay, t: nat) {
    t < |r.threads| && r.threads[t].ops != []
  }

  predicate Holds(ts: Threads, t: nat, l: Lock) {
    t < |ts| && l in ts[t].held
  }

  /** The holder of a lock of the highest rank that anybody holds is not blocked. */
  lemma TopHolderSteps(r: Relay, t: nat, l: Lock)
    requires Disciplined(r.threads) && Holds(r.threads, t, l)
    requires forall u, k :: Holds(r.threads, u, k) ==> Rank(k) <= Rank(l)
    ensures CanStep(r, t)
  {
    var ts := r.threads;
    assert ThreadOk(ts[t]);
    assert ts[t].ops != [];
    FirstOp(ts[t]);
    if ts[t].ops[0].Acquire? {
      var k := ts[t].ops[0].l;
      assert Rank(l) < Rank(k);
      forall u | 0 <= u < |ts|
        ensures k !in ts[u].held
      {
        assert Holds(ts, u, k) ==> Rank(k) <= Rank(l);
      }
    }
  }

  /** A move that begins nothing new. */
  predicate GoesOn(m: Move) {
    m.Step? || m.EndReaper?
  }

  ghost predicate SomebodyCan(r: Relay) {
    exists m :: GoesOn(m) && Possible(r, m)
  }

  lemma NothingHeldSteps(r: Relay, t: nat)
    requires Orderly(r) && Unfinished(r, t) && forall u, k :: !Holds(r.threads, u, k)
    ensures SomebodyCan(r)
  {
    var ts := r.threads;
    forall u, k | 0 <= u < |ts|
      ensures k !in ts[u].held
    {
      assert !Holds(ts, u, k);
    }
    if u :| 0 <= u < |ts| && ts[u].pending {
      assert ThreadOk(ts[u]);
      assert Possible(r, Step(u));
    } else if ts[t].ops[0] != AwaitReaper || r.ended {
      assert Possible(r, Step(t));
    } else if ts[0].ops != [] {
      assert ts[0].ops[0] in ts[0].ops;
      assert Possible(r, Step(0));
    } else {
      assert Possible(r, EndReaper);
    }
  }

  lemma SomebodySteps(r: Relay, t: nat)
    requires Orderly(r) && Unfinished(r, t)
    ensures SomebodyCan(r)
  {
    if u, k :| Holds(r.threads, u, k) && Rank(k) == 2 {
      TopHolderSteps(r, u, k);
      assert Possible(r, Step(u));
    } else if u, k :| Holds(r.threads, u, k) && Rank(k) == 1 {
      TopHolderSteps(r, u, k);
      assert Possible(r, Step(u));
    } else if u, k :| Holds(r.threads, u, k) {
      TopHolderSteps(r, u, k);
      assert Possible(r, Step(u));
    } else {
      NothingHeldSteps(r, t);
    }
  }

  /** Whatever calls are made by however many threads, and however they are scheduled:
      as long as one is unfinished, somebody can go on without any new call. That
      includes a shutdown waiting for the reaper, whose loop ends only when told to, and
      a writer that keeps new readers out. */
  lemma NoDeadlock(n: nat, moves: seq<Move>, t: nat)
    requires Unfinished(Reached(n, moves), t)
    ensures SomebodyCan(Reached(n, moves))
  {
    RunOrderly(Start(n), moves);
    SomebodySteps(Reached(n, moves), t);
  }

  // --- And every call in flight can be finished ---

  function WorkOf(th: Thread): nat {
    2 * |th.ops| + if th.pending then 0 else 1
  }

  function Work(ts: Threads): nat {
    if ts == [] then 0 else Work(ts[..|ts| - 1]) + WorkOf(ts[|ts| - 1])
  }

  lemma {:induction false} WorkOfOne(ts: Threads, t: nat, th: Thread)
    requires t < |ts|
    ensures Work(ts[t := th]) == Work(ts) - WorkOf(ts[t]) + WorkOf(th)
  {
    var n := |ts| - 1;
    if t < n {
      WorkOfOne(ts[..n], t, th);
      assert ts[t := th][..n] == ts[..n][t := th];
    } else {
      assert ts[t := th][..n] == ts[..n];
    }
  }

  function WorkLeft(r: Relay): nat {
    Work(r.threads) + if r.ended then 0 else 1
  }

  /** Going on leaves less to do. */
  lemma WorkDecreases(r: Relay, m: Move)
    requires GoesOn(m) && Possible(r, m)
    ensures WorkLeft(Next(r, m)) < WorkLeft(r)
  {
    if m.Step? {
      WorkOfOne(r.threads, m.t, Advance(r.threads[m.t]));
    }
  }

  predicate Finishes(r: Relay, moves: seq<Move>) {
    && (forall m :: m in moves ==> GoesOn(m))
    && (forall t :: 0 <= t < |Run(r, moves).threads| ==> Run(r, moves).threads[t].ops == [])
  }

  ghost predicate CanFinish(r: Relay) {
    exists moves :: Finishes(r, moves)
  }

  lemma OneMoveFromFinish(r: Relay, m: Move)
    requires GoesOn(m) && CanFinish(Next(r, m))
    ensures CanFinish(r)
  {
    var rest :| Finishes(Next(r, m), rest);
    assert ([m] + rest)[1..] == rest;
    assert Finishes(r, [m] + rest);
  }

  lemma {:induction false} OrderlyFinishes(r: Relay)
    requires Orderly(r)
    ensures CanFinish(r)
    decreases WorkLeft(r)
  {
    if t :| 0 <= t < |r.threads| && r.threads[t].ops != [] {
      SomebodySteps(r, t);
      var m :| GoesOn(m) && Possible(r, m);
      WorkDecreases(r, m);
      MoveOrderly(r, m);
      OrderlyFinishes(Next(r, m));
      OneMoveFromFinish(r, m);
    } else {
      assert Finishes(r, []);
    }
  }

  /** From every reachable state all calls in flight can be brought to their end without
      any new call or tick, a shutdown and its wait for the reaper among them. */
  lemma CallsCanFinish(n: nat, moves: seq<Move>) returns (rest: seq<Move>)
    ensures forall m :: m in rest ==> m.Step? || m.EndReaper?
    ensures var end := Run(Reached(n, moves), rest);
            forall t :: 0 <= t < |end.threads| ==> end.threads[t].ops == []
  {
    RunOrderly(Start(n), moves);
    OrderlyFinishes(Reached(n, moves));
    rest :| Finishes(Reached(n, moves), rest);
  }

  /** Without a shutdown the reaper's loop goes on for ever. */
  lemma {:induction false} OnlyShutdownEndsTheReaper(r: Relay, moves: seq<Move>)
    requires !r.stop && !r.ended && forall t :: 0 <= t < |r.threads| ==> StopReaper !in r.threads[t].ops
    requires forall m :: m in moves && m.Begin? ==> !m.c.Shutdown?
    ensures !Run(r, moves).ended
    decreases |moves|
  {
    if moves != [] {
      var m := moves[0];
      assert m in moves;
      if m.Begin? {
        OthersNeverStop(m.c);
      } else if m.Tick? {
        OthersNeverStop(ReapPass(m.all, m.stale));
      }
      OnlyShutdownEndsTheReaper(Next(r, m), moves[1..]);
    }
  }

  lemma {:induction false} SectionsNeverStop(ss: seq<nat>)
    ensures StopReaper !in Sections(ss) && StopReaper !in KillAndDeleteOps(ss)
    decreases |ss|
  {
    if ss != [] {
      SectionsNeverStop(ss[1..]);
    }
  }

  lemma {:induction false} SendsNeverStop(n: nat, s: nat, overflows: seq<bool>)
    ensures StopReaper !in Repeat(n, [TrySend]) && StopReaper !in FanoutOps(s, overflows)
    decreases n + |overflows|
  {
    if n > 0 {
      SendsNeverStop(n - 1, s, overflows);
    } else if overflows != [] {
      SendsNeverStop(0, s, overflows[1..]);
    }
  }

  lemma OthersNeverStop(c: Call)
    requires !c.Shutdown?
    ensures StopReaper !in Ops(c)
  {
    match c {
      case List(all) => SectionsNeverStop(all);
      case Kill(s) => SectionsNeverStop([s]);
      case ReapPass(all, stale) =>
        SectionsNeverStop(all);
        SectionsNeverStop(stale);
      case Publish(s, n) => SendsNeverStop(n, s, []);
      case WaitExit(s, overflows) => SendsNeverStop(0, s, overflows);
      case _ =>
    }
  }
}
