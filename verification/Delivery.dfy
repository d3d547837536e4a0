/** Every interleaving of one session: the pump, the exit path, subscribers coming
    and going, their queues being drained, kills and resizes, cut at the points
    where the session mutex is taken or a channel is touched. */
module Delivery {
  import opened Common
  import opened Cwd
  import opened Session

  /** A chunk that reached the scrollback, and what decided who was sent it. */
  datatype Chunk = Chunk(data: Bytes, at: int, inWindow: bool)

  /** One subscriber's past: every frame ever put in its queue and every frame
      taken out, and the range of chunks published while it was registered. */
  datatype Past = Past(enqueued: seq<Frame>, dequeued: seq<Frame>, from: nat, until: Option<nat>)

  /** How far the exit path has come. */
  datatype ExitPhase =
    | Running
    | Recorded                                        // exit code stored, session closed
    | Fanning(todo: set<SubId>, full: Option<SubId>)  // sending the exit frame to a snapshot
    | Collected(todo: set<SubId>)                     // map gone, cancelling the rest
    | Finished                                        // the done channel is closed

  datatype State = State(
    core: Core,
    tracker: Tracker,
    output: Bytes,                // everything the PTY ever produced
    chunks: seq<Chunk>,
    past: map<SubId, Past>,
    toCancel: set<SubId>,         // removed, and about to be cancelled by whoever removed them
    exit: ExitPhase)

  datatype Action =
    | Publish(data: Bytes, now: int, doneFirst: set<SubId>)
    | CancelRemoved(s: SubId)
    | ContextEnds(s: SubId)
    | Subscribe(s: SubId, at: int)
    | Remove(s: SubId)
    | Dequeue(s: SubId)
    | Kill
    | CommitResize(cols: nat, rows: nat, now: int)
    | InputWritten(now: int)
    | ExitRecord(code: int)
    | ExitSnapshot
    | ExitSend(s: SubId, code: int, cancelWins: bool)
    | ExitDropFull
    | ExitCollect
    | ExitCancel(s: SubId)
    | ExitFinish

  predicate Enabled(st: State, a: Action) {
    match a
    case Publish(data, _, _) => data != []
    case CancelRemoved(s) => s in st.toCancel
    case ContextEnds(s) => s in st.core.members
    case Subscribe(s, _) => s !in st.core.members
    case Remove(s) => s in st.core.members
    case Dequeue(s) => s in st.core.members && st.core.members[s].queue != []
    case Kill => true
    case CommitResize(cols, rows, _) => ValidSize(cols, rows)
    case InputWritten(_) => true
    case ExitRecord(_) => st.exit == Running
    case ExitSnapshot => st.exit == Recorded
    case ExitSend(s, code, _) =>
      st.exit.Fanning? && st.exit.full == None && s in st.exit.todo && s in st.core.members &&
      st.core.exitCode == Some(code)
    case ExitDropFull => st.exit.Fanning? && st.exit.full.Some?
    case ExitCollect => st.exit == Fanning({}, None)
    case ExitCancel(s) => st.exit.Collected? && s in st.exit.todo
    case ExitFinish => st.exit == Collected({})
  }

  function StopAll(past: map<SubId, Past>, gone: set<SubId>, at: nat): map<SubId, Past> {
    map s | s in past :: if s in gone && past[s].until.None? then past[s].(until := Some(at)) else past[s]
  }

  /** The chunk, if it was kept, as the record of the run remembers it. */
  function ChunkOf(st: State, o: Output): seq<Chunk> {
    if Dropped(st.core.repaintUntil, o.data, o.now) then []
    else [Chunk(o.data, o.now, InWindow(WindowAt(st.core.repaintUntil, o.now), o.now))]
  }

  function NextPublish(st: State, data: Bytes, now: int, doneFirst: set<SubId>): State {
    var (tracker, paths) := FeedAll(st.tracker, data);
    var o := Output(data, paths, now, doneFirst);
    var lost := LostTo(st.core, o);
    var past := map s | s in st.past ::
      if s in st.core.members && VerdictOn(st.core, o, s) == Sent
      then st.past[s].(enqueued := st.past[s].enqueued + [Out(data)]) else st.past[s];
    st.(core := Published(st.core, o),
        tracker := tracker,
        output := st.output + data,
        chunks := st.chunks + ChunkOf(st, o),
        past := StopAll(past, lost, |st.chunks|),
        toCancel := st.toCancel + lost)
  }

  function NextSubscribe(st: State, s: SubId, at: int): State {
    st.(core := Subscribed(st.core, s, at),
        past := if st.core.closed then st.past
                else st.past[s := Past([Replay(st.core.scrollback)], [], |st.chunks|, None)])
  }

  function NextRemove(st: State, s: SubId): State {
    st.(core := Unregistered(st.core, {s}),
        past := StopAll(st.past, {s}, |st.chunks|),
        toCancel := st.toCancel + {s})
  }

  function NextDequeue(st: State, s: SubId): State
    requires s in st.core.members && st.core.members[s].queue != []
  {
    var m := st.core.members[s];
    st.(core := st.core.(members := st.core.members[s := m.(queue := m.queue[1..])]),
        past := if s in st.past
                then st.past[s := st.past[s].(dequeued := st.past[s].dequeued + [m.queue[0]])] else st.past)
  }

  function NextExitSend(st: State, s: SubId, code: int, cancelWins: bool): State
    requires st.exit.Fanning? && s in st.core.members
  {
    var m := st.core.members[s];
    var sent := Accepts(m, cancelWins);
    st.(core := Offered(st.core, s, Exit(code), cancelWins),
        past := if sent && s in st.past
                then st.past[s := st.past[s].(enqueued := st.past[s].enqueued + [Exit(code)])] else st.past,
        exit := Fanning(st.exit.todo - {s}, if Overflows(m) then Some(s) else None))
  }

  function NextExitCollect(st: State): State {
    st.(core := st.core.(subs := {}, subsNil := true),
        past := StopAll(st.past, st.core.subs, |st.chunks|),
        exit := Collected(st.core.subs))
  }

  function Next(st: State, a: Action): State {
    if !Enabled(st, a) then st
    else match a
      case Publish(data, now, doneFirst) => NextPublish(st, data, now, doneFirst)
      case CancelRemoved(s) => st.(core := Cancelled(st.core, {s}), toCancel := st.toCancel - {s})
      case ContextEnds(s) => st.(core := Cancelled(st.core, {s}))
      case Subscribe(s, at) => NextSubscribe(st, s, at)
      case Remove(s) => NextRemove(st, s)
      case Dequeue(s) => NextDequeue(st, s)
      case Kill => st.(core := st.core.(closed := true))
      case CommitResize(cols, rows, now) => st.(core := SizeRecorded(st.core, cols, rows, now))
      case InputWritten(now) => st.(core := st.core.(lastIO := now))
      case ExitRecord(code) => st.(core := st.core.(exitCode := Some(code), closed := true), exit := Recorded)
      case ExitSnapshot => st.(exit := Fanning(st.core.subs, None))
      case ExitSend(s, code, cancelWins) => NextExitSend(st, s, code, cancelWins)
      case ExitDropFull =>
        var s := st.exit.full.value;
        NextRemove(st, s).(exit := Fanning(st.exit.todo, None))
      case ExitCollect => NextExitCollect(st)
      case ExitCancel(s) => st.(core := Cancelled(st.core, {s}), exit := Collected(st.exit.todo - {s}))
      case ExitFinish => st.(exit := Finished)
  }

  function Run(st: State, actions: seq<Action>): State
    decreases |actions|
  {
    if actions == [] then st else Run(Next(st, actions[0]), actions[1..])
  }

  function Initial(capacity: int, cols: nat, rows: nat, now: int): State {
    State(Core(if capacity < 1 then 1 else capacity, [], {}, false, map[], now, false, None, [], None, cols, rows),
          NEW_TRACKER, [], [], map[], {}, Running)
  }

  // --- What a subscriber should have been sent ---

  /** The bytes of some chunks, in order. */
  function Data(chunks: seq<Chunk>): Bytes {
    if chunks == [] then [] else Data(chunks[..|chunks| - 1]) + chunks[|chunks| - 1].data
  }

  predicate Eligible(c: Chunk, subscribedAt: int) {
    !Withheld(subscribedAt, c.inWindow, c.at)
  }

  /** One `out` frame for each chunk the subscriber was eligible for. */
  function Outs(chunks: seq<Chunk>, subscribedAt: int): seq<Frame> {
    if chunks == [] then []
    else
      var last := chunks[|chunks| - 1];
      Outs(chunks[..|chunks| - 1], subscribedAt) + (if Eligible(last, subscribedAt) then [Out(last.data)] else [])
  }

  /** The frames other than `exit`. */
  function Live(frames: seq<Frame>): seq<Frame> {
    if frames == [] then []
    else
      var last := frames[|frames| - 1];
      Live(frames[..|frames| - 1]) + (if last.Exit? then [] else [last])
  }

  function Exits(frames: seq<Frame>): nat {
    if frames == [] then 0
    else Exits(frames[..|frames| - 1]) + (if frames[|frames| - 1].Exit? then 1 else 0)
  }

  function Upto(p: Past, published: nat): nat {
    if p.until.None? then published else p.until.value
  }

  /** The delivery promise for one subscriber: one replay of the last bytes
      published before it registered, then every eligible chunk published until it
      was removed, in order and without gaps; the queue never overfills. */
  ghost predicate Served(m: Member, p: Past, chunks: seq<Chunk>, cap: nat) {
    && |m.queue| <= QUEUE_SLOTS
    && p.enqueued == p.dequeued + m.queue
    && p.from <= Upto(p, |chunks|) <= |chunks|
    && InOrder(p.enqueued, Replay(Tail(Data(chunks[..p.from]), cap)),
               Outs(chunks[p.from..Upto(p, |chunks|)], m.subscribedAt))
  }

  /** The frames are `first`, then `outs`, with exit frames anywhere after the first. */
  ghost predicate InOrder(frames: seq<Frame>, first: Frame, outs: seq<Frame>) {
    && frames != [] && frames[0] == first
    && Live(frames) == [first] + outs
    && OneReplay(frames)
  }

  /** After the first frame there is only output and exit. */
  ghost predicate OneReplay(frames: seq<Frame>) {
    forall k :: 1 <= k < |frames| ==> frames[k].Out? || frames[k].Exit?
  }

  /** At most one exit frame, and only from the pass of the exit path over this subscriber. */
  ghost predicate ExitsRight(exit: ExitPhase, s: SubId, exits: nat) {
    match exit
    case Running => exits == 0
    case Recorded => exits == 0
    case Fanning(todo, _) => exits <= 1 && (s in todo ==> exits == 0)
    case Collected(_) => exits <= 1
    case Finished => exits <= 1
  }

  /** Someone is responsible for every subscriber: it is registered, cancelled, or
      on the list of a step that is about to cancel it. */
  ghost predicate NotLost(st: State, s: SubId)
    requires s in st.core.members
  {
    || s in st.core.subs
    || st.core.members[s].cancelled
    || s in st.toCancel
    || (st.exit.Collected? && s in st.exit.todo)
  }

  ghost predicate MemberOk(st: State, s: SubId)
    requires s in st.core.members && s in st.past
  {
    && Served(st.core.members[s], st.past[s], st.chunks, st.core.cap)
    && ExitsRight(st.exit, s, Exits(st.past[s].enqueued))
    && (s in st.core.subs <==> st.past[s].until.None?)
    && NotLost(st, s)
  }

  ghost predicate Framed(st: State) {
    && st.core.members.Keys == st.past.Keys
    && st.core.subs <= st.core.members.Keys
    && st.core.cap > 0
    && st.core.scrollback == Tail(Data(st.chunks), st.core.cap)
    && (forall c :: c in st.chunks ==> c.data != [])
    && (st.exit != Running ==> st.core.closed)
    && (st.core.subsNil <==> st.exit.Collected? || st.exit.Finished?)
    && (st.core.subsNil ==> st.core.subs == {})
  }

  /** The tracker is where one scan of the whole output would have left it, and the
      directory is the last one that scan reports. */
  ghost predicate CwdRight(st: State) {
    && st.tracker == FeedAll(NEW_TRACKER, st.output).0
    && st.core.cwd == LastPath(FeedAll(NEW_TRACKER, st.output).1)
  }

  ghost predicate Inv(st: State) {
    && Framed(st)
    && (forall s :: s in st.core.members ==> MemberOk(st, s))
    && CwdRight(st)
  }

  // --- Snoc lemmas ---

  lemma OutsSnoc(chunks: seq<Chunk>, c: Chunk, at: int)
    ensures Outs(chunks + [c], at) == Outs(chunks, at) + (if Eligible(c, at) then [Out(c.data)] else [])
  {
    assert (chunks + [c])[..|chunks|] == chunks;
  }

  lemma DataSnoc(chunks: seq<Chunk>, c: Chunk)
    ensures Data(chunks + [c]) == Data(chunks) + c.data
  {
    assert (chunks + [c])[..|chunks|] == chunks;
  }

  lemma LiveSnoc(frames: seq<Frame>, f: Frame)
    ensures Live(frames + [f]) == Live(frames) + (if f.Exit? then [] else [f])
    ensures Exits(frames + [f]) == Exits(frames) + (if f.Exit? then 1 else 0)
  {
    assert (frames + [f])[..|frames|] == frames;
  }

  // --- One subscriber through one step ---

  lemma RangeGrows(chunks: seq<Chunk>, from: nat, c: Chunk, at: int)
    requires from <= |chunks|
    ensures (chunks + [c])[..from] == chunks[..from]
    ensures Outs((chunks + [c])[from..|chunks| + 1], at)
         == Outs(chunks[from..|chunks|], at) + (if Eligible(c, at) then [Out(c.data)] else [])
  {
    OutsSnoc(chunks[from..|chunks|], c, at);
    assert (chunks + [c])[from..|chunks| + 1] == chunks[from..|chunks|] + [c];
  }

  lemma Extended(whole: seq<Frame>, front: seq<Frame>, back: seq<Frame>, f: Frame)
    requires whole == front + back
    ensures whole + [f] == front + (back + [f])
  {
    ConcatAssociates(front, back, [f]);
  }

  lemma SentExtended(frames: seq<Frame>, first: Frame, outs: seq<Frame>, f: Frame)
    requires InOrder(frames, first, outs) && (f.Out? || f.Exit?)
    ensures InOrder(frames + [f], first, outs + (if f.Exit? then [] else [f]))
  {
    LiveSnoc(frames, f);
    if f.Out? {
      Extended(Live(frames), [first], outs, f);
    } else {
      assert Live(frames) + [] == Live(frames);
      assert outs + [] == outs;
    }
  }

  /** An output frame sent for the one chunk that `after` has more than `before`. */
  lemma ServedFrame(m: Member, p: Past, before: seq<Chunk>, after: seq<Chunk>, cap: nat, f: Frame)
    requires Served(m, p, before, cap) && p.until.None? && |m.queue| < QUEUE_SLOTS && f.Out?
    requires |after| == |before| + 1 && after[..p.from] == before[..p.from]
    requires Outs(after[p.from..|after|], m.subscribedAt) == Outs(before[p.from..|before|], m.subscribedAt) + [f]
    ensures Served(Enqueue(m, f), p.(enqueued := p.enqueued + [f]), after, cap)
    ensures Exits(p.enqueued + [f]) == Exits(p.enqueued)
  {
    LiveSnoc(p.enqueued, f);
    Extended(p.enqueued, p.dequeued, m.queue, f);
    SentExtended(p.enqueued, Replay(Tail(Data(before[..p.from]), cap)),
                 Outs(before[p.from..|before|], m.subscribedAt), f);
  }

  /** A chunk sent to the subscriber. */
  lemma ServedSent(m: Member, p: Past, chunks: seq<Chunk>, cap: nat, c: Chunk)
    requires Served(m, p, chunks, cap) && p.until.None? && |m.queue| < QUEUE_SLOTS
    requires Eligible(c, m.subscribedAt)
    ensures Served(Enqueue(m, Out(c.data)), p.(enqueued := p.enqueued + [Out(c.data)]), chunks + [c], cap)
    ensures Exits(p.enqueued + [Out(c.data)]) == Exits(p.enqueued)
  {
    RangeGrows(chunks, p.from, c, m.subscribedAt);
    ServedFrame(m, p, chunks, chunks + [c], cap, Out(c.data));
  }

  /** A chunk the subscriber was not eligible for, or that came after it was removed. */
  lemma ServedPassed(m: Member, p: Past, chunks: seq<Chunk>, cap: nat, c: Chunk)
    requires Served(m, p, chunks, cap)
    requires p.until.None? ==> !Eligible(c, m.subscribedAt)
    ensures Served(m, p, chunks + [c], cap)
  {
    RangeGrows(chunks, p.from, c, m.subscribedAt);
    if p.until.Some? {
      assert (chunks + [c])[p.from..p.until.value] == chunks[p.from..p.until.value];
    }
  }

  /** Removal fixes the range; what comes later is not owed. */
  lemma ServedStopped(m: Member, p: Past, chunks: seq<Chunk>, cap: nat)
    requires Served(m, p, chunks, cap) && p.until.None?
    ensures Served(m, p.(until := Some(|chunks|)), chunks, cap)
  {
  }

  lemma ServedExit(m: Member, p: Past, chunks: seq<Chunk>, cap: nat, code: int)
    requires Served(m, p, chunks, cap) && |m.queue| < QUEUE_SLOTS
    ensures Served(Enqueue(m, Exit(code)), p.(enqueued := p.enqueued + [Exit(code)]), chunks, cap)
    ensures Exits(p.enqueued + [Exit(code)]) == Exits(p.enqueued) + 1
  {
    var f := Exit(code);
    LiveSnoc(p.enqueued, f);
    Extended(p.enqueued, p.dequeued, m.queue, f);
    SentExtended(p.enqueued, Replay(Tail(Data(chunks[..p.from]), cap)),
                 Outs(chunks[p.from..Upto(p, |chunks|)], m.subscribedAt), f);
    var outs := Outs(chunks[p.from..Upto(p, |chunks|)], m.subscribedAt);
    assert outs + [] == outs;
  }

  lemma ServedDequeue(m: Member, p: Past, chunks: seq<Chunk>, cap: nat)
    requires Served(m, p, chunks, cap) && m.queue != []
    ensures Served(m.(queue := m.queue[1..]), p.(dequeued := p.dequeued + [m.queue[0]]), chunks, cap)
  {
    assert m.queue == [m.queue[0]] + m.queue[1..];
    ConcatAssociates(p.dequeued, [m.queue[0]], m.queue[1..]);
  }

  lemma ServedNew(chunks: seq<Chunk>, cap: nat, at: int)
    ensures var first := Replay(Tail(Data(chunks), cap));
            && Served(Member([first], false, at), Past([first], [], |chunks|, None), chunks, cap)
            && Exits([first]) == 0
  {
    var first := Replay(Tail(Data(chunks), cap));
    LiveSnoc([], first);
    assert [] + [first] == [first];
    assert chunks[..|chunks|] == chunks;
    assert chunks[|chunks|..|chunks|] == [];
  }

  // --- Every step keeps the invariant ---

  ghost predicate Known(st: State, s: SubId) {
    s in st.core.members && s in st.past
  }

  lemma PublishCwd(st: State, data: Bytes, now: int, doneFirst: set<SubId>)
    requires CwdRight(st)
    ensures CwdRight(NextPublish(st, data, now, doneFirst))
  {
    FeedConcat(NEW_TRACKER, st.output, data);
  }

  lemma PublishFrame(st: State, data: Bytes, now: int, doneFirst: set<SubId>)
    requires Framed(st) && data != []
    ensures Framed(NextPublish(st, data, now, doneFirst))
  {
    var o := Output(data, FeedAll(st.tracker, data).1, now, doneFirst);
    var kept := ChunkOf(st, o);
    if kept == [] {
      assert st.chunks + kept == st.chunks;
    } else {
      DataSnoc(st.chunks, kept[0]);
      TailOfTail(Data(st.chunks), data, st.core.cap);
    }
  }

  lemma ServedThrough(st: State, o: Output, s: SubId)
    requires Known(st, s) && s in st.core.subs && Served(st.core.members[s], st.past[s], st.chunks, st.core.cap)
    requires st.past[s].until.None?
    ensures var v, m, p, cap := VerdictOn(st.core, o, s), st.core.members[s], st.past[s], st.core.cap;
            var chunks := st.chunks + ChunkOf(st, o);
            && (v == Passed ==> Served(m, p, chunks, cap))
            && (v == Lost ==> Served(m, p.(until := Some(|st.chunks|)), chunks, cap))
            && (v == Sent ==> Served(Enqueue(m, Out(o.data)), p.(enqueued := p.enqueued + [Out(o.data)]), chunks, cap)
                              && Exits(p.enqueued + [Out(o.data)]) == Exits(p.enqueued))
  {
    var m, p, cap := st.core.members[s], st.past[s], st.core.cap;
    var kept := ChunkOf(st, o);
    if kept == [] {
      assert st.chunks + kept == st.chunks;
    } else {
      var c := kept[0];
      match VerdictOn(st.core, o, s) {
        case Passed => ServedPassed(m, p, st.chunks, cap, c);
        case Sent => ServedSent(m, p, st.chunks, cap, c);
        case Lost =>
          ServedStopped(m, p, st.chunks, cap);
          ServedPassed(m, p.(until := Some(|st.chunks|)), st.chunks, cap, c);
      }
    }
  }

  lemma ServedAfter(st: State, o: Output, s: SubId)
    requires Known(st, s) && Served(st.core.members[s], st.past[s], st.chunks, st.core.cap)
    requires st.past[s].until.Some?
    ensures Served(st.core.members[s], st.past[s], st.chunks + ChunkOf(st, o), st.core.cap)
  {
    var kept := ChunkOf(st, o);
    if kept == [] {
      assert st.chunks + kept == st.chunks;
    } else {
      ServedPassed(st.core.members[s], st.past[s], st.chunks, st.core.cap, kept[0]);
    }
  }

  lemma PublishMember(st: State, data: Bytes, now: int, doneFirst: set<SubId>, s: SubId)
    requires Known(st, s) && MemberOk(st, s)
    ensures MemberOk(NextPublish(st, data, now, doneFirst), s)
  {
    var o := Output(data, FeedAll(st.tracker, data).1, now, doneFirst);
    if s in st.core.subs {
      ServedThrough(st, o, s);
    } else {
      ServedAfter(st, o, s);
    }
  }

  lemma PublishKeepsInv(st: State, data: Bytes, now: int, doneFirst: set<SubId>)
    requires Inv(st) && data != []
    ensures Inv(NextPublish(st, data, now, doneFirst))
  {
    PublishFrame(st, data, now, doneFirst);
    PublishCwd(st, data, now, doneFirst);
    forall s | s in st.core.members
      ensures MemberOk(NextPublish(st, data, now, doneFirst), s)
    {
      PublishMember(st, data, now, doneFirst, s);
    }
  }

  lemma SubscribeMember(st: State, s: SubId, at: int, x: SubId)
    requires Framed(st) && (x == s || (Known(st, x) && MemberOk(st, x)))
    requires s !in st.core.members && !st.core.closed
    ensures MemberOk(NextSubscribe(st, s, at), x)
  {
    if x == s {
      ServedNew(st.chunks, st.core.cap, at);
    }
  }

  lemma SubscribeFrame(st: State, s: SubId, at: int)
    requires Framed(st) && CwdRight(st) && !st.core.closed
    ensures Framed(NextSubscribe(st, s, at)) && CwdRight(NextSubscribe(st, s, at))
  {
  }

  lemma SubscribeKeepsInv(st: State, s: SubId, at: int)
    requires Inv(st) && s !in st.core.members
    ensures Inv(NextSubscribe(st, s, at))
  {
    if !st.core.closed {
      SubscribeFrame(st, s, at);
      var next := NextSubscribe(st, s, at);
      forall x | x in next.core.members
        ensures MemberOk(next, x)
      {
        SubscribeMember(st, s, at, x);
      }
    }
  }

  lemma RemoveMember(st: State, s: SubId, x: SubId)
    requires Known(st, x) && MemberOk(st, x)
    ensures MemberOk(NextRemove(st, s), x)
  {
    if x == s && st.past[x].until.None? {
      ServedStopped(st.core.members[x], st.past[x], st.chunks, st.core.cap);
    }
  }

  lemma RemoveFrame(st: State, s: SubId)
    requires Framed(st) && CwdRight(st)
    ensures Framed(NextRemove(st, s)) && CwdRight(NextRemove(st, s))
  {
  }

  lemma RemoveKeepsInv(st: State, s: SubId)
    requires Inv(st)
    ensures Inv(NextRemove(st, s))
  {
    RemoveFrame(st, s);
    var next := NextRemove(st, s);
    forall x | x in next.core.members
      ensures MemberOk(next, x)
    {
      RemoveMember(st, s, x);
    }
  }

  lemma DequeueMember(st: State, s: SubId, x: SubId)
    requires Known(st, s) && st.core.members[s].queue != []
    requires Known(st, x) && MemberOk(st, x)
    ensures MemberOk(NextDequeue(st, s), x)
  {
    if x == s {
      ServedDequeue(st.core.members[s], st.past[s], st.chunks, st.core.cap);
    }
  }

  lemma DequeueKeepsInv(st: State, s: SubId)
    requires Inv(st) && s in st.core.members && st.core.members[s].queue != []
    ensures Inv(NextDequeue(st, s))
  {
    var next := NextDequeue(st, s);
    forall x | x in next.core.members
      ensures MemberOk(next, x)
    {
      DequeueMember(st, s, x);
    }
  }

  lemma CancelMember(st: State, s: SubId, toCancel: set<SubId>, exit: ExitPhase, x: SubId)
    requires Known(st, x) && MemberOk(st, x)
    requires st.toCancel - {s} <= toCancel
    requires exit == st.exit || (st.exit.Collected? && exit == Collected(st.exit.todo - {s}))
    ensures MemberOk(st.(core := Cancelled(st.core, {s}), toCancel := toCancel, exit := exit), x)
  {
  }

  lemma CancelFrame(st: State, s: SubId, toCancel: set<SubId>, exit: ExitPhase)
    requires Framed(st) && CwdRight(st)
    requires exit == st.exit || (st.exit.Collected? && exit.Collected?)
    ensures var next := st.(core := Cancelled(st.core, {s}), toCancel := toCancel, exit := exit);
            Framed(next) && CwdRight(next)
  {
  }

  lemma CancelKeepsInv(st: State, s: SubId, toCancel: set<SubId>, exit: ExitPhase)
    requires Inv(st)
    requires st.toCancel - {s} <= toCancel
    requires exit == st.exit || (st.exit.Collected? && exit == Collected(st.exit.todo - {s}))
    ensures Inv(st.(core := Cancelled(st.core, {s}), toCancel := toCancel, exit := exit))
  {
    CancelFrame(st, s, toCancel, exit);
    var next := st.(core := Cancelled(st.core, {s}), toCancel := toCancel, exit := exit);
    forall x | x in next.core.members
      ensures MemberOk(next, x)
    {
      CancelMember(st, s, toCancel, exit, x);
    }
  }

  lemma ExitSendMember(st: State, s: SubId, code: int, cancelWins: bool, x: SubId)
    requires st.exit.Fanning? && s in st.exit.todo && Known(st, s)
    requires Known(st, x) && MemberOk(st, x)
    ensures MemberOk(NextExitSend(st, s, code, cancelWins), x)
  {
    if x == s && Accepts(st.core.members[s], cancelWins) {
      ServedExit(st.core.members[s], st.past[s], st.chunks, st.core.cap, code);
    }
  }

  lemma ExitSendKeepsInv(st: State, s: SubId, code: int, cancelWins: bool)
    requires Inv(st) && st.exit.Fanning? && s in st.exit.todo && s in st.core.members
    ensures Inv(NextExitSend(st, s, code, cancelWins))
  {
    var next := NextExitSend(st, s, code, cancelWins);
    forall x | x in next.core.members
      ensures MemberOk(next, x)
    {
      ExitSendMember(st, s, code, cancelWins, x);
    }
  }

  lemma ExitCollectMember(st: State, x: SubId)
    requires st.exit == Fanning({}, None)
    requires Known(st, x) && MemberOk(st, x)
    ensures MemberOk(NextExitCollect(st), x)
  {
    if x in st.core.subs {
      ServedStopped(st.core.members[x], st.past[x], st.chunks, st.core.cap);
    }
  }

  lemma ExitCollectKeepsInv(st: State)
    requires Inv(st) && st.exit == Fanning({}, None)
    ensures Inv(NextExitCollect(st))
  {
    var next := NextExitCollect(st);
    forall x | x in next.core.members
      ensures MemberOk(next, x)
    {
      ExitCollectMember(st, x);
    }
  }

  lemma PlainKeepsInv(st: State, core: Core, exit: ExitPhase)
    requires Inv(st)
    requires core == st.core.(closed := core.closed, cols := core.cols, rows := core.rows, lastIO := core.lastIO,
                              exitCode := core.exitCode, repaintUntil := core.repaintUntil)
    requires st.core.closed ==> core.closed
    requires || exit == st.exit
             || (exit == Recorded && st.exit == Running && core.closed)
             || (st.exit == Recorded && exit.Fanning?)
             || (st.exit.Fanning? && exit == Fanning(st.exit.todo, None))
             || (st.exit == Collected({}) && exit == Finished)
    ensures Inv(st.(core := core, exit := exit))
  {
    var next := st.(core := core, exit := exit);
    forall x | x in next.core.members
      ensures MemberOk(next, x)
    {
      assert MemberOk(st, x);
    }
  }

  lemma DropFullKeepsInv(st: State)
    requires Inv(st) && st.exit.Fanning? && st.exit.full.Some?
    ensures Inv(NextRemove(st, st.exit.full.value).(exit := Fanning(st.exit.todo, None)))
  {
    RemoveKeepsInv(st, st.exit.full.value);
    var removed := NextRemove(st, st.exit.full.value);
    PlainKeepsInv(removed, removed.core, Fanning(st.exit.todo, None));
  }

  /** Steps that touch neither subscribers nor output. */
  predicate Plain(a: Action) {
    a.Kill? || a.CommitResize? || a.InputWritten? || a.ExitRecord? || a.ExitSnapshot? || a.ExitFinish?
  }

  lemma PlainStepKeepsInv(st: State, a: Action)
    requires Inv(st) && Enabled(st, a) && Plain(a)
    ensures Inv(Next(st, a))
  {
    var next := Next(st, a);
    PlainKeepsInv(st, next.core, next.exit);
  }

  lemma ExitStepKeepsInv(st: State, a: Action)
    requires Inv(st) && Enabled(st, a)
    requires a.ExitSend? || a.ExitDropFull? || a.ExitCollect? || a.ExitCancel?
    ensures Inv(Next(st, a))
  {
    match a {
      case ExitSend(s, code, cancelWins) => ExitSendKeepsInv(st, s, code, cancelWins);
      case ExitDropFull => DropFullKeepsInv(st);
      case ExitCollect => ExitCollectKeepsInv(st);
      case ExitCancel(s) => CancelKeepsInv(st, s, st.toCancel, Collected(st.exit.todo - {s}));
    }
  }

  lemma StepKeepsInv(st: State, a: Action)
    requires Inv(st)
    ensures Inv(Next(st, a))
  {
    if !Enabled(st, a) {
      return;
    }
    if Plain(a) {
      PlainStepKeepsInv(st, a);
      return;
    }
    match a {
      case Publish(data, now, doneFirst) => PublishKeepsInv(st, data, now, doneFirst);
      case CancelRemoved(s) => CancelKeepsInv(st, s, st.toCancel - {s}, st.exit);
      case ContextEnds(s) => CancelKeepsInv(st, s, st.toCancel, st.exit);
      case Subscribe(s, at) => SubscribeKeepsInv(st, s, at);
      case Remove(s) => RemoveKeepsInv(st, s);
      case Dequeue(s) => DequeueKeepsInv(st, s);
      case _ => ExitStepKeepsInv(st, a);
    }
  }

  lemma InitialInv(capacity: int, cols: nat, rows: nat, now: int)
    ensures Inv(Initial(capacity, cols, rows, now))
  {
  }

  lemma {:induction false} RunKeepsInv(st: State, actions: seq<Action>)
    requires Inv(st)
    ensures Inv(Run(st, actions))
    decreases |actions|
  {
    if actions != [] {
      StepKeepsInv(st, actions[0]);
      RunKeepsInv(Next(st, actions[0]), actions[1..]);
    }
  }
}
