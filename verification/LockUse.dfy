/** What every call takes, sends and blocks on, counted; what it holds when it blocks; and
    how calls begin and go on. */
module LockUse {
  import opened Locks

  // --- Counting ---

  function Count(ops: seq<Op>, op: Op): nat {
    if ops == [] then 0 else Count(ops[..|ops| - 1], op) + if ops[|ops| - 1] == op then 1 else 0
  }

  lemma {:induction false} CountConcat(a: seq<Op>, b: seq<Op>, op: Op)
    ensures Count(a + b, op) == Count(a, op) + Count(b, op)
  {
    if b == [] {
      assert a + b == a;
    } else {
      assert (a + b)[..|a + b| - 1] == a + b[..|b| - 1];
      CountConcat(a, b[..|b| - 1], op);
    }
  }

  lemma CountOne(x: Op, op: Op)
    ensures Count([x], op) == if x == op then 1 else 0
  {
    assert [x][..0] == [];
  }

  lemma CountSection(l: Lock, op: Op)
    ensures Count(Section(l), op) == if op == Acquire(l) || op == Release(l) then 1 else 0
  {
    assert Section(l) == [Acquire(l)] + [Release(l)];
    CountConcat([Acquire(l)], [Release(l)], op);
    CountOne(Acquire(l), op);
    CountOne(Release(l), op);
  }

  /** How often a number occurs. */
  function Times(ss: seq<nat>, s: nat): nat
    decreases |ss|
  {
    if ss == [] then 0 else (if ss[0] == s then 1 else 0) + Times(ss[1..], s)
  }

  predicate On(op: Op, l: Lock) {
    op == Acquire(l) || op == Release(l)
  }

  /** What an operation counts for when a session's own lock is taken once for each of them. */
  function Each(ss: seq<nat>, op: Op): nat {
    if (op.Acquire? || op.Release?) && op.l.Sess? then Times(ss, op.l.s) else 0
  }

  lemma {:induction false} CountSections(ss: seq<nat>, op: Op)
    ensures Count(Sections(ss), op) == Each(ss, op)
    decreases |ss|
  {
    if ss != [] {
      CountSections(ss[1..], op);
      CountSection(Sess(ss[0]), op);
      CountConcat(Section(Sess(ss[0])), Sections(ss[1..]), op);
    }
  }

  lemma CountKill(s: nat, op: Op)
    ensures Count(KillOps(s), op) == if op == PtyCall || On(op, Sess(s)) then 1 else 0
  {
    CountSection(Sess(s), op);
    CountOne(PtyCall, op);
    CountConcat(Section(Sess(s)), [PtyCall], op);
  }

  lemma {:induction false} CountKillAll(ss: seq<nat>, op: Op)
    ensures Count(KillAllOps(ss), op) == Each(ss, op) + if op == PtyCall then |ss| else 0
    decreases |ss|
  {
    if ss != [] {
      CountKillAll(ss[1..], op);
      CountKill(ss[0], op);
      CountConcat(KillOps(ss[0]), KillAllOps(ss[1..]), op);
    }
  }

  lemma {:induction false} CountKillAndDelete(ss: seq<nat>, op: Op)
    ensures Count(KillAndDeleteOps(ss), op) == Each(ss, op) + if op == PtyCall || On(op, Mgr) then |ss| else 0
    decreases |ss|
  {
    if ss != [] {
      CountKillAndDelete(ss[1..], op);
      CountKill(ss[0], op);
      CountSection(Mgr, op);
      CountConcat(KillOps(ss[0]), Section(Mgr), op);
      CountConcat(KillOps(ss[0]) + Section(Mgr), KillAndDeleteOps(ss[1..]), op);
    }
  }

  lemma {:induction false} CountSends(n: nat, op: Op)
    ensures Count(Repeat(n, [TrySend]), op) == if op == TrySend then n else 0
    decreases n
  {
    if n > 0 {
      CountSends(n - 1, op);
      CountOne(TrySend, op);
      CountConcat([TrySend], Repeat(n - 1, [TrySend]), op);
    }
  }

  /** How many sends found the queue full. */
  function Full(overflows: seq<bool>): nat
    decreases |overflows|
  {
    if overflows == [] then 0 else (if overflows[0] then 1 else 0) + Full(overflows[1..])
  }

  lemma {:induction false} CountFanout(s: nat, overflows: seq<bool>, op: Op)
    ensures Count(FanoutOps(s, overflows), op)
         == if op == TrySend then |overflows| else if On(op, Sess(s)) then Full(overflows) else 0
    decreases |overflows|
  {
    if overflows != [] {
      CountFanout(s, overflows[1..], op);
      CountOne(TrySend, op);
      CountSection(Sess(s), op);
      CountConcat([TrySend], Section(Sess(s)), op);
      CountConcat(TrySendOr(s, overflows[0]), FanoutOps(s, overflows[1..]), op);
    }
  }

  /** How often a call takes the manager's lock for writing, or for reading. */
  function ManagerLocks(c: Call, reading: bool): nat {
    match c
    case Create(_) => if reading then 0 else 1
    case Get => if reading then 1 else 0
    case List(_) => if reading then 1 else 0
    case Rename(_) => if reading then 1 else 0
    case Kill(_) => 1
    case Shutdown(_) => if reading then 0 else 1
    case ReapPass(_, stale) => if reading then 1 else |stale|
    case WaitExit(_, _) => if reading then 0 else 1
    case _ => 0
  }

  /** How often it takes the lock of session `s`. */
  function SessionLocks(c: Call, s: nat): nat {
    match c
    case Create(_) => 0
    case Get => 0
    case List(all) => Times(all, s)
    case Rename(x) => if x == s then 2 else 0
    case Kill(x) => if x == s then 1 else 0
    case Shutdown(all) => Times(all, s)
    case ReapPass(all, stale) => Times(all, s) + Times(stale, s)
    case Publish(x, _) => if x == s then 1 else 0
    case Subscribe(x) => if x == s then 1 else 0
    case Remove(x) => if x == s then 1 else 0
    case WaitExit(x, overflows) => if x == s then 3 + Full(overflows) else 0
    case Resize(x) => if x == s then 2 else 0
    case WriteInput(x) => if x == s then 2 else 0
  }

  function PtyCalls(c: Call): nat {
    match c
    case Create(aborted) => if aborted then 2 else 1
    case Kill(_) => 1
    case Shutdown(all) => |all|
    case ReapPass(_, stale) => |stale|
    case Publish(_, _) => 1
    case WaitExit(_, _) => 1
    case Resize(_) => 1
    case WriteInput(_) => 1
    case _ => 0
  }

  function Sends(c: Call): nat {
    match c
    case Publish(_, subscribers) => subscribers
    case Subscribe(_) => 1
    case WaitExit(_, overflows) => |overflows|
    case _ => 0
  }

  /** How often a call does an operation. */
  function Uses(c: Call, op: Op): nat {
    match op
    case Acquire(l) => LockUses(c, l)
    case Release(l) => LockUses(c, l)
    case TrySend => Sends(c)
    case PtyCall => PtyCalls(c)
    case StopReaper => if c.Shutdown? then 1 else 0
    case AwaitReaper => if c.Shutdown? then 1 else 0
  }

  function LockUses(c: Call, l: Lock): nat {
    match l
    case Mgr => ManagerLocks(c, false)
    case Reading => ManagerLocks(c, true)
    case Sess(s) => SessionLocks(c, s)
    case Ring(s) => if (c.Publish? || c.Subscribe?) && c.s == s then 1 else 0
  }

  lemma CountScan(all: seq<nat>, op: Op)
    ensures Count([Acquire(Reading)] + Sections(all) + [Release(Reading)], op)
         == Each(all, op) + if On(op, Reading) then 1 else 0
  {
    CountOne(Acquire(Reading), op);
    CountOne(Release(Reading), op);
    CountSections(all, op);
    CountConcat([Acquire(Reading)], Sections(all), op);
    CountConcat([Acquire(Reading)] + Sections(all), [Release(Reading)], op);
  }

  lemma CountThree(a: seq<Op>, b: seq<Op>, c: seq<Op>, op: Op)
    ensures Count(a + b + c, op) == Count(a, op) + Count(b, op) + Count(c, op)
  {
    CountConcat(a, b, op);
    CountConcat(a + b, c, op);
  }

  lemma CountFour(a: seq<Op>, b: seq<Op>, c: seq<Op>, d: seq<Op>, op: Op)
    ensures Count(a + b + c + d, op) == Count(a, op) + Count(b, op) + Count(c, op) + Count(d, op)
  {
    CountThree(a, b, c, op);
    CountConcat(a + b + c, d, op);
  }

  function One(yes: bool): nat {
    if yes then 1 else 0
  }

  lemma CreateCounted(aborted: bool, op: Op)
    ensures Count(Ops(Create(aborted)), op) == One(op == PtyCall) + One(On(op, Mgr)) + One(aborted && op == PtyCall)
  {
    CountOne(PtyCall, op);
    CountSection(Mgr, op);
    CountThree([PtyCall], Section(Mgr), if aborted then [PtyCall] else [], op);
  }

  lemma RenameCounted(s: nat, op: Op)
    ensures Count(Ops(Rename(s)), op) == One(On(op, Reading)) + 2 * One(On(op, Sess(s)))
  {
    CountSection(Reading, op);
    CountSection(Sess(s), op);
    CountThree(Section(Reading), Section(Sess(s)), Section(Sess(s)), op);
  }

  lemma EachOfOne(s: nat, op: Op)
    ensures Each([s], op) == One(On(op, Sess(s)))
  {
    if (op.Acquire? || op.Release?) && op.l.Sess? {
      assert Times([s][1..], op.l.s) == 0;
    }
  }

  lemma KillCounted(s: nat, op: Op)
    ensures Count(Ops(Kill(s)), op)
         == One(On(op, Reading)) + One(On(op, Mgr)) + One(On(op, Sess(s))) + One(op == PtyCall)
  {
    CountSection(Reading, op);
    CountKillAndDelete([s], op);
    EachOfOne(s, op);
    CountConcat(Section(Reading), KillAndDeleteOps([s]), op);
  }

  lemma ShutdownCounted(all: seq<nat>, op: Op)
    ensures Count(Ops(Shutdown(all)), op)
         == One(On(op, Mgr)) + Each(all, op) + (if op == PtyCall then |all| else 0)
            + One(op == StopReaper) + One(op == AwaitReaper)
  {
    CountSection(Mgr, op);
    CountKillAll(all, op);
    CountOne(StopReaper, op);
    CountOne(AwaitReaper, op);
    CountFour(Section(Mgr), KillAllOps(all), [StopReaper], [AwaitReaper], op);
  }

  lemma PassCounted(all: seq<nat>, stale: seq<nat>, op: Op)
    ensures Count(Ops(ReapPass(all, stale)), op)
         == Each(all, op) + One(On(op, Reading)) + Each(stale, op)
            + if op == PtyCall || On(op, Mgr) then |stale| else 0
  {
    CountScan(all, op);
    CountKillAndDelete(stale, op);
    CountConcat([Acquire(Reading)] + Sections(all) + [Release(Reading)], KillAndDeleteOps(stale), op);
  }

  lemma PublishCounted(s: nat, n: nat, op: Op)
    ensures Count(Ops(Publish(s, n)), op)
         == One(op == PtyCall) + One(On(op, Sess(s))) + One(On(op, Ring(s))) + if op == TrySend then n else 0
  {
    CountOne(PtyCall, op);
    CountOne(Acquire(Sess(s)), op);
    CountOne(Release(Sess(s)), op);
    CountSection(Ring(s), op);
    CountSends(n, op);
    assert [PtyCall, Acquire(Sess(s))] == [PtyCall] + [Acquire(Sess(s))];
    CountConcat([PtyCall], [Acquire(Sess(s))], op);
    CountFour([PtyCall, Acquire(Sess(s))], Section(Ring(s)), Repeat(n, [TrySend]), [Release(Sess(s))], op);
  }

  lemma SubscribeCounted(s: nat, op: Op)
    ensures Count(Ops(Subscribe(s)), op) == One(On(op, Sess(s))) + One(On(op, Ring(s))) + One(op == TrySend)
  {
    CountOne(Acquire(Sess(s)), op);
    CountOne(Release(Sess(s)), op);
    CountOne(TrySend, op);
    CountSection(Ring(s), op);
    assert [TrySend, Release(Sess(s))] == [TrySend] + [Release(Sess(s))];
    CountConcat([TrySend], [Release(Sess(s))], op);
    CountThree([Acquire(Sess(s))], Section(Ring(s)), [TrySend, Release(Sess(s))], op);
  }

  lemma ExitCounted(s: nat, overflows: seq<bool>, op: Op)
    ensures Count(Ops(WaitExit(s, overflows)), op)
         == One(op == PtyCall) + 3 * One(On(op, Sess(s))) + One(On(op, Mgr))
            + if op == TrySend then |overflows| else if On(op, Sess(s)) then Full(overflows) else 0
  {
    var section := Section(Sess(s));
    CountOne(PtyCall, op);
    CountSection(Sess(s), op);
    CountSection(Mgr, op);
    CountFanout(s, overflows, op);
    CountFour([PtyCall], section, section, FanoutOps(s, overflows), op);
    CountThree([PtyCall] + section + section + FanoutOps(s, overflows), section, Section(Mgr), op);
  }

  lemma PtyUseCounted(s: nat, op: Op)
    ensures Count(Section(Sess(s)) + [PtyCall] + Section(Sess(s)), op) == One(op == PtyCall) + 2 * One(On(op, Sess(s)))
  {
    CountOne(PtyCall, op);
    CountSection(Sess(s), op);
    CountThree(Section(Sess(s)), [PtyCall], Section(Sess(s)), op);
  }

  lemma ManagerCallsCounted(c: Call, op: Op)
    requires c.Create? || c.Get? || c.List?
    ensures Count(Ops(c), op) == Uses(c, op)
  {
    match c {
      case Create(aborted) => CreateCounted(aborted, op);
      case Get => CountSection(Reading, op);
      case List(all) => CountScan(all, op);
    }
  }

  lemma SessionsInMapCounted(c: Call, op: Op)
    requires c.Rename? || c.Kill?
    ensures Count(Ops(c), op) == Uses(c, op)
  {
    match c {
      case Rename(s) => RenameCounted(s, op);
      case Kill(s) => KillCounted(s, op);
    }
  }

  lemma SweepsCounted(c: Call, op: Op)
    requires c.Shutdown? || c.ReapPass?
    ensures Count(Ops(c), op) == Uses(c, op)
  {
    match c {
      case Shutdown(all) => ShutdownCounted(all, op);
      case ReapPass(all, stale) => PassCounted(all, stale, op);
    }
  }

  lemma SubscribersCounted(c: Call, op: Op)
    requires c.Publish? || c.Subscribe?
    ensures Count(Ops(c), op) == Uses(c, op)
  {
    match c {
      case Publish(s, n) => PublishCounted(s, n, op);
      case Subscribe(s) => SubscribeCounted(s, op);
    }
  }

  lemma EndingsCounted(c: Call, op: Op)
    requires c.Remove? || c.WaitExit?
    ensures Count(Ops(c), op) == Uses(c, op)
  {
    match c {
      case Remove(s) => CountSection(Sess(s), op);
      case WaitExit(s, overflows) => ExitCounted(s, overflows, op);
    }
  }

  lemma PtyCallsCounted(c: Call, op: Op)
    requires c.Resize? || c.WriteInput?
    ensures Count(Ops(c), op) == Uses(c, op)
  {
    match c {
      case Resize(s) => PtyUseCounted(s, op);
      case WriteInput(s) => PtyUseCounted(s, op);
    }
  }

  /** How often every call takes each lock, sends, calls the PTY and waits. */
  lemma CallsTakeTheirLocks(c: Call, op: Op)
    ensures Count(Ops(c), op) == Uses(c, op)
  {
    if c.Create? || c.Get? || c.List? {
      ManagerCallsCounted(c, op);
    } else if c.Rename? || c.Kill? {
      SessionsInMapCounted(c, op);
    } else if c.Shutdown? || c.ReapPass? {
      SweepsCounted(c, op);
    } else if c.Publish? || c.Subscribe? {
      SubscribersCounted(c, op);
    } else if c.Remove? || c.WaitExit? {
      EndingsCounted(c, op);
    } else {
      PtyCallsCounted(c, op);
    }
  }

  // --- What is held meanwhile ---

  /** Taken more often than given back. */
  predicate HeldAfter(ops: seq<Op>, l: Lock) {
    Count(ops, Acquire(l)) > Count(ops, Release(l))
  }

  ghost predicate Accounted(locks: set<Lock>, ops: seq<Op>) {
    forall l :: if l in locks then Count(ops, Acquire(l)) == Count(ops, Release(l)) + 1
                else Count(ops, Acquire(l)) == Count(ops, Release(l))
  }

  lemma DoAllSnoc(h: Held, ops: seq<Op>, op: Op)
    ensures DoAll(h, ops + [op]) == Do(DoAll(h, ops), op)
  {
    DoAllConcat(h, ops, [op]);
    assert [op][1..] == [];
  }

  /** The locks held are those taken and not given back. */
  lemma {:induction false} HeldIsAccounted(ops: seq<Op>)
    requires DoAll(Fine({}), ops).Fine?
    ensures Accounted(DoAll(Fine({}), ops).locks, ops)
  {
    if ops != [] {
      var n := |ops| - 1;
      var h := DoAll(Fine({}), ops[..n]);
      assert ops == ops[..n] + [ops[n]];
      DoAllSnoc(Fine({}), ops[..n], ops[n]);
      HeldIsAccounted(ops[..n]);
      forall l
        ensures if l in DoAll(Fine({}), ops).locks then Count(ops, Acquire(l)) == Count(ops, Release(l)) + 1
                else Count(ops, Acquire(l)) == Count(ops, Release(l))
      {
        assert l in h.locks ==> Count(ops[..n], Acquire(l)) == Count(ops[..n], Release(l)) + 1;
      }
    }
  }

  lemma BrokenStays(h: Held, a: seq<Op>, b: seq<Op>)
    requires DoAll(h, a + b).Fine?
    ensures DoAll(h, a).Fine?
  {
    DoAllConcat(h, a, b);
    DoAllBroken(b);
  }

  /** At every operation of every call: a lock taken is above all those held, one given back
      is held, and a call of the PTY or a wait is done with nothing held. */
  lemma NothingBlocksWithLocksHeld(c: Call, i: nat, l: Lock)
    requires i < |Ops(c)|
    ensures var before := Ops(c)[..i];
            match Ops(c)[i]
            case Acquire(m) => HeldAfter(before, l) ==> Rank(l) < Rank(m)
            case Release(m) => HeldAfter(before, m)
            case PtyCall => !HeldAfter(before, l)
            case AwaitReaper => !HeldAfter(before, l)
            case _ => true
  {
    var ops := Ops(c);
    CallsAreOrdered(c);
    assert ops == (ops[..i] + [ops[i]]) + ops[i + 1..];
    BrokenStays(Fine({}), ops[..i] + [ops[i]], ops[i + 1..]);
    BrokenStays(Fine({}), ops[..i], [ops[i]]);
    DoAllSnoc(Fine({}), ops[..i], ops[i]);
    HeldIsAccounted(ops[..i]);
  }

  // --- Beginning and going on ---

  /** An idle thread may begin any call, and the reaper's a pass until its loop has ended. */
  lemma IdleThreadsMayCall(r: Relay, t: nat, c: Call)
    requires t < |r.threads| && r.threads[t].ops == []
    ensures t > 0 && !c.ReapPass? ==> Next(r, Begin(t, c)).threads == r.threads[t := r.threads[t].(ops := Ops(c))]
    ensures t == 0 && c.ReapPass? && !r.ended ==>
              Next(r, Tick(c.all, c.stale)).threads == r.threads[0 := r.threads[0].(ops := Ops(c))]
  {
  }

  /** Nothing but its own steps takes a thread through a call it has begun, one operation
      after the other; only the reaper's thread makes passes, and none once its loop has
      ended; and a wait for the reaper is over only then. */
  lemma CallsRunToTheirEnd(r: Relay, m: Move, t: nat)
    requires t < |r.threads|
    ensures |Next(r, m).threads| == |r.threads|
    ensures var ops, next := r.threads[t].ops, Next(r, m).threads[t].ops;
            next != ops ==>
              && (ops != [] ==> next == ops[1..] && (ops[0] == AwaitReaper ==> r.ended))
              && (ops == [] ==> exists c :: next == Ops(c) && (c.ReapPass? <==> t == 0) && (t == 0 ==> !r.ended))
    ensures Next(r, m).ended != r.ended ==> r.threads[0].ops == [] && r.stop
  {
    match m {
      case Begin(u, c) => assert u == t ==> Next(r, m).threads[t].ops == Ops(c) || Next(r, m) == r;
      case Tick(all, stale) => assert t == 0 ==> Next(r, m).threads[t].ops == Ops(ReapPass(all, stale)) || Next(r, m) == r;
      case _ =>
    }
  }
}
