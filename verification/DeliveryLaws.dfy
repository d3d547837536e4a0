/** What the delivery protocol guarantees in every run, and exactly when the
    documented promise that everybody sees the same output holds. */
module DeliveryLaws {
  import opened Common
  import opened Cwd
  import opened Session
  import opened Delivery

  datatype Beginning = Beginning(capacity: int, cols: nat, rows: nat, now: int)

  function Begun(b: Beginning): State {
    Initial(b.capacity, b.cols, b.rows, b.now)
  }

  function Reached(b: Beginning, actions: seq<Action>): State {
    Run(Begun(b), actions)
  }

  lemma ReachedInv(b: Beginning, actions: seq<Action>)
    ensures Inv(Reached(b, actions))
  {
    InitialInv(b.capacity, b.cols, b.rows, b.now);
    RunKeepsInv(Begun(b), actions);
  }

  /** In every interleaving, what a subscriber is ever sent is one replay, then
      every eligible chunk published between its registration and its removal, in
      order and with none missing, plus at most one exit. */
  lemma GapFree(b: Beginning, actions: seq<Action>, s: SubId)
    ensures var st := Reached(b, actions);
            s in st.core.members ==>
              && s in st.past
              && var m, p := st.core.members[s], st.past[s];
              var until := if s in st.core.subs then |st.chunks| else Upto(p, |st.chunks|);
              && p.from <= until <= |st.chunks|
              && p.enqueued != [] && p.enqueued[0] == Replay(Tail(Data(st.chunks[..p.from]), st.core.cap))
              && Live(p.enqueued) == [p.enqueued[0]] + Outs(st.chunks[p.from..until], m.subscribedAt)
              && (forall k :: 1 <= k < |p.enqueued| ==> !p.enqueued[k].Replay?)
              && Exits(p.enqueued) <= 1
              && |m.queue| <= 256
              && p.enqueued == p.dequeued + m.queue
  {
    ReachedInv(b, actions);
    var st := Reached(b, actions);
    assert s in st.core.members ==> MemberOk(st, s);
  }

  /** The record of a run is only ever added to: chunks and sent frames stay, the
      start of a subscriber's range is fixed, and so is its end once set. */
  ghost predicate Extends(a: State, b: State) {
    && a.chunks <= b.chunks
    && a.output <= b.output
    && a.past.Keys <= b.past.Keys
    && (a.core.closed ==> b.core.closed)
    && (a.exit == Finished ==> b.exit == Finished)
    && forall s :: s in a.past ==> PastGrows(a.past[s], b.past[s])
  }

  ghost predicate PastGrows(p: Past, q: Past) {
    && q.from == p.from
    && p.enqueued <= q.enqueued
    && p.dequeued <= q.dequeued
    && (p.until.Some? ==> q.until == p.until)
  }

  lemma PublishExtends(st: State, data: Bytes, now: int, doneFirst: set<SubId>)
    ensures Extends(st, NextPublish(st, data, now, doneFirst))
  {
  }

  lemma SubscribeExtends(st: State, s: SubId, at: int)
    requires st.core.members.Keys == st.past.Keys && s !in st.core.members
    ensures Extends(st, NextSubscribe(st, s, at))
  {
  }

  lemma RemoveExtends(st: State, s: SubId, exit: ExitPhase)
    requires exit == st.exit || st.exit != Finished
    ensures Extends(st, NextRemove(st, s).(exit := exit))
  {
  }

  lemma DequeueExtends(st: State, s: SubId)
    requires s in st.core.members && st.core.members[s].queue != []
    ensures Extends(st, NextDequeue(st, s))
  {
  }

  lemma ExitSendExtends(st: State, s: SubId, code: int, cancelWins: bool)
    requires st.exit.Fanning? && s in st.core.members
    ensures Extends(st, NextExitSend(st, s, code, cancelWins))
  {
  }

  lemma ExitCollectExtends(st: State)
    requires st.exit.Fanning?
    ensures Extends(st, NextExitCollect(st))
  {
  }

  /** Steps that leave every subscriber's past alone. */
  lemma OtherStepExtends(st: State, a: Action)
    requires Plain(a) || a.CancelRemoved? || a.ContextEnds? || a.ExitCancel?
    ensures Extends(st, Next(st, a))
  {
  }

  lemma StepExtends(st: State, a: Action)
    requires st.core.members.Keys == st.past.Keys
    ensures Extends(st, Next(st, a))
  {
    if Enabled(st, a) {
      match a {
        case Publish(data, now, doneFirst) => PublishExtends(st, data, now, doneFirst);
        case Subscribe(s, at) => SubscribeExtends(st, s, at);
        case Remove(s) => RemoveExtends(st, s, st.exit);
        case Dequeue(s) => DequeueExtends(st, s);
        case ExitSend(s, code, cancelWins) => ExitSendExtends(st, s, code, cancelWins);
        case ExitDropFull => RemoveExtends(st, st.exit.full.value, Fanning(st.exit.todo, None));
        case ExitCollect => ExitCollectExtends(st);
        case _ => OtherStepExtends(st, a);
      }
    }
  }

  lemma ExtendsTransitive(a: State, b: State, c: State)
    requires Extends(a, b) && Extends(b, c)
    ensures Extends(a, c)
  {
    forall s | s in a.past
      ensures PastGrows(a.past[s], c.past[s])
    {
      assert PastGrows(a.past[s], b.past[s]) && PastGrows(b.past[s], c.past[s]);
    }
  }

  lemma {:induction false} RunExtends(st: State, actions: seq<Action>)
    requires Inv(st)
    ensures Extends(st, Run(st, actions))
    decreases |actions|
  {
    if actions != [] {
      var mid := Next(st, actions[0]);
      StepExtends(st, actions[0]);
      StepKeepsInv(st, actions[0]);
      RunExtends(mid, actions[1..]);
      ExtendsTransitive(st, mid, Run(mid, actions[1..]));
    }
  }

  // --- Replay agrees with staying attached ---

  /** The terminal bytes carried by some frames. */
  function Payload(frames: seq<Frame>): Bytes {
    if frames == [] then []
    else
      var last := frames[|frames| - 1];
      Payload(frames[..|frames| - 1]) + (if last.Replay? || last.Out? then last.data else [])
  }

  lemma PayloadSnoc(frames: seq<Frame>, f: Frame)
    ensures Payload(frames + [f]) == Payload(frames) + (if f.Replay? || f.Out? then f.data else [])
  {
    assert (frames + [f])[..|frames|] == frames;
  }

  lemma {:induction false} PayloadConcat(a: seq<Frame>, b: seq<Frame>)
    ensures Payload(a + b) == Payload(a) + Payload(b)
  {
    if b == [] {
      assert a + b == a;
      assert Payload(a) + [] == Payload(a);
    } else {
      var init, last := b[..|b| - 1], b[|b| - 1];
      PayloadConcat(a, init);
      SnocOfConcat(a, b);
      PayloadSnoc(a + init, last);
      ConcatAssociates(Payload(a), Payload(init), if last.Replay? || last.Out? then last.data else []);
    }
  }

  /** Leaving out the exit frame leaves out no output. */
  lemma {:induction false} LivePayload(frames: seq<Frame>)
    ensures Payload(Live(frames)) == Payload(frames)
  {
    if frames != [] {
      var init, last := frames[..|frames| - 1], frames[|frames| - 1];
      LivePayload(init);
      if !last.Exit? {
        PayloadSnoc(Live(init), last);
      } else {
        assert Live(frames) == Live(init);
        assert Payload(init) + [] == Payload(init);
      }
    }
  }

  ghost predicate AllEligible(chunks: seq<Chunk>, at: int) {
    forall i :: 0 <= i < |chunks| ==> Eligible(chunks[i], at)
  }

  /** Nothing withheld, nothing lost; anything withheld, something lost. */
  lemma {:induction false} OutsPayload(chunks: seq<Chunk>, at: int)
    requires forall c :: c in chunks ==> c.data != []
    ensures |Payload(Outs(chunks, at))| <= |Data(chunks)|
    ensures AllEligible(chunks, at) ==> Payload(Outs(chunks, at)) == Data(chunks)
    ensures !AllEligible(chunks, at) ==> |Payload(Outs(chunks, at))| < |Data(chunks)|
  {
    if chunks != [] {
      var init, last := chunks[..|chunks| - 1], chunks[|chunks| - 1];
      OutsPayload(init, at);
      assert last in chunks;
      if Eligible(last, at) {
        PayloadSnoc(Outs(init, at), Out(last.data));
        assert AllEligible(init, at) ==> AllEligible(chunks, at);
      } else {
        assert Outs(chunks, at) == Outs(init, at);
      }
      assert AllEligible(chunks, at) ==> AllEligible(init, at);
    }
  }

  lemma {:induction false} DataConcat(a: seq<Chunk>, b: seq<Chunk>)
    ensures Data(a + b) == Data(a) + Data(b)
  {
    if b == [] {
      assert a + b == a;
    } else {
      var init, last := b[..|b| - 1], b[|b| - 1];
      DataConcat(a, init);
      SnocOfConcat(a, b);
      DataSnoc(a + init, last);
      ConcatAssociates(Data(a), Data(init), last.data);
    }
  }

  /** All that was sent to an attached subscriber, as its frames carry it. */
  lemma SentPayload(m: Member, p: Past, chunks: seq<Chunk>, cap: nat)
    requires Served(m, p, chunks, cap) && p.until.None?
    ensures Payload(p.enqueued)
         == Tail(Data(chunks[..p.from]), cap) + Payload(Outs(chunks[p.from..], m.subscribedAt))
  {
    var outs := Outs(chunks[p.from..], m.subscribedAt);
    assert chunks[p.from..|chunks|] == chunks[p.from..];
    LivePayload(p.enqueued);
    PayloadConcat([p.enqueued[0]], outs);
    PayloadSnoc([], p.enqueued[0]);
    assert [] + [p.enqueued[0]] == [p.enqueued[0]];
  }

  lemma StayingPayload(m: Member, p: Past, chunks: seq<Chunk>, cap: nat)
    requires Served(m, p, chunks, cap) && p.until.None?
    requires forall c :: c in chunks ==> c.data != []
    requires AllEligible(chunks[p.from..], m.subscribedAt)
    ensures Tail(Payload(p.enqueued), cap) == Tail(Data(chunks), cap)
  {
    var before, since := chunks[..p.from], chunks[p.from..];
    SentPayload(m, p, chunks, cap);
    OutsPayload(since, m.subscribedAt);
    DataConcat(before, since);
    assert chunks == before + since;
    TailOfTail(Data(before), Data(since), cap);
  }

  /** At any moment, for a subscriber still attached from which nothing was
      withheld, the last bytes of all it was sent are the replay that someone
      attaching now would get. */
  lemma ReplayAgreesWithStaying(b: Beginning, actions: seq<Action>, s: SubId)
    requires var st := Reached(b, actions);
             && s in st.core.subs && s in st.past && s in st.core.members
             && st.past[s].from <= |st.chunks|
             && AllEligible(st.chunks[st.past[s].from..], st.core.members[s].subscribedAt)
    ensures var st := Reached(b, actions);
            Tail(Payload(st.past[s].enqueued), st.core.cap) == st.core.scrollback
  {
    ReachedInv(b, actions);
    var st := Reached(b, actions);
    assert MemberOk(st, s);
    StayingPayload(st.core.members[s], st.past[s], st.chunks, st.core.cap);
  }

  lemma CompletePayload(m: Member, p: Past, chunks: seq<Chunk>, cap: nat)
    requires Served(m, p, chunks, cap) && p.until.None?
    requires forall c :: c in chunks ==> c.data != []
    ensures Payload(p.enqueued) == Tail(Data(chunks[..p.from]), cap) + Data(chunks[p.from..])
            <==> AllEligible(chunks[p.from..], m.subscribedAt)
    ensures |Payload(p.enqueued)| <= |Tail(Data(chunks[..p.from]), cap) + Data(chunks[p.from..])|
  {
    SentPayload(m, p, chunks, cap);
    OutsPayload(chunks[p.from..], m.subscribedAt);
  }

  /** A subscriber still attached has been sent everything since its replay exactly
      when no chunk was withheld from it: a caller can tell from the window and the
      time it subscribed. */
  lemma CompleteIffNothingWithheld(b: Beginning, actions: seq<Action>, s: SubId)
    requires s in Reached(b, actions).core.subs
    ensures var st := Reached(b, actions);
            && s in st.past && s in st.core.members && st.past[s].from <= |st.chunks|
            && var from := st.past[s].from;
               (Payload(st.past[s].enqueued) == Tail(Data(st.chunks[..from]), st.core.cap) + Data(st.chunks[from..])
                <==> AllEligible(st.chunks[from..], st.core.members[s].subscribedAt))
  {
    ReachedInv(b, actions);
    var st := Reached(b, actions);
    assert MemberOk(st, s);
    CompletePayload(st.core.members[s], st.past[s], st.chunks, st.core.cap);
  }

  // A short run with two subscribers, one attached long before a resize and one just before it.

  const EARLY := Subscribe(0, -2 * REPAINT_WINDOW)
  const LATE := Subscribe(1, 0)
  const RESIZE := CommitResize(100, 30, 0)
  const CHUNK: Bytes := [0x41]
  const SHOWN := Publish(CHUNK, 1, {})

  function TwoAttached(): State {
    var st := Initial(16, 80, 24, 0);
    st.(core := st.core.(
          subs := {0, 1},
          members := map[0 := Member([Replay([])], false, -2 * REPAINT_WINDOW), 1 := Member([Replay([])], false, 0)],
          cols := 100, rows := 30, repaintUntil := Some(REPAINT_WINDOW)),
        past := map[0 := Past([Replay([])], [], 0, None), 1 := Past([Replay([])], [], 0, None)])
  }

  lemma TwoAttach()
    ensures Next(Next(Next(Initial(16, 80, 24, 0), EARLY), LATE), RESIZE) == TwoAttached()
  {
    var s1 := Next(Initial(16, 80, 24, 0), EARLY);
    var s2 := Next(s1, LATE);
    assert s2.core.subs == {0, 1};
    assert s2.core.members == TwoAttached().core.members;
    assert s2.past == TwoAttached().past;
  }

  lemma ChunkIsOrdinary()
    ensures !LooksLikeRepaint(CHUNK)
  {
    assert forall i: nat {:trigger OccursAt(CHUNK, HIDE_CURSOR, i)} :: !OccursAt(CHUNK, HIDE_CURSOR, i);
  }

  lemma OneIsShown()
    ensures var st := Next(TwoAttached(), SHOWN);
            && st.core.scrollback == CHUNK
            && 0 in st.past && st.past[0].enqueued == [Replay([]), Out(CHUNK)]
            && 1 in st.past && st.past[1].enqueued == [Replay([])]
            && st.core.subs == {0, 1}
  {
    ChunkIsOrdinary();
    var st := TwoAttached();
    var o := Output(CHUNK, FeedAll(st.tracker, CHUNK).1, 1, {});
    assert VerdictOn(st.core, o, 0) == Sent;
    assert VerdictOn(st.core, o, 1) == Passed;
    assert LostTo(st.core, o) == {};
    assert [] + CHUNK == CHUNK;
  }

  lemma RunOfFour(st: State, a: Action, b: Action, c: Action, d: Action)
    ensures Run(st, [a, b, c, d]) == Next(Next(Next(Next(st, a), b), c), d)
  {
    assert [a, b, c, d][1..] == [b, c, d];
    assert [b, c, d][1..] == [c, d];
    assert [c, d][1..] == [d];
    assert [d][1..] == [];
    assert Run(Next(Next(Next(st, a), b), c), [d]) == Next(Next(Next(Next(st, a), b), c), d);
    assert Run(Next(Next(st, a), b), [c, d]) == Next(Next(Next(Next(st, a), b), c), d);
    assert Run(Next(st, a), [b, c, d]) == Next(Next(Next(Next(st, a), b), c), d);
  }

  /** Two attached subscribers, one chunk: the newer one is not sent it, although it
      is in the scrollback. So the documented promise that all subscribers receive
      the same stream after their replay does not hold inside a resize window. */
  lemma NotEverybodySeesTheSame()
    ensures var st := Reached(Beginning(16, 80, 24, 0), [EARLY, LATE, RESIZE, SHOWN]);
            && st.core.scrollback == CHUNK
            && 0 in st.past && st.past[0].enqueued == [Replay([]), Out(CHUNK)]
            && 1 in st.past && st.past[1].enqueued == [Replay([])]
            && st.core.subs == {0, 1}
  {
    RunOfFour(Initial(16, 80, 24, 0), EARLY, LATE, RESIZE, SHOWN);
    TwoAttach();
    OneIsShown();
  }

  // --- The end ---

  /** When the exit path is done and no removal is in flight, every subscriber there
      ever was has been cancelled. */
  lemma NobodyIsForgotten(b: Beginning, actions: seq<Action>)
    ensures var st := Reached(b, actions);
            st.exit == Finished && st.toCancel == {} ==>
              forall s :: s in st.core.members ==> st.core.members[s].cancelled
  {
    ReachedInv(b, actions);
    var st := Reached(b, actions);
    assert forall s :: s in st.core.members ==> MemberOk(st, s);
  }

  lemma ClosedStep(st: State, a: Action)
    requires st.core.closed
    ensures Next(st, a).core.members.Keys == st.core.members.Keys
    ensures Next(st, a).core.subs <= st.core.subs
    ensures Next(st, a).core.closed
  {
  }

  /** From the moment a session is closed nobody new is registered, so its nil map is
      never written to either. */
  lemma {:induction false} NobodyJoinsAfterwards(st: State, actions: seq<Action>)
    requires st.core.closed
    ensures Run(st, actions).core.members.Keys == st.core.members.Keys
    ensures Run(st, actions).core.subs <= st.core.subs
    ensures Run(st, actions).core.closed
    decreases |actions|
  {
    if actions != [] {
      ClosedStep(st, actions[0]);
      NobodyJoinsAfterwards(Next(st, actions[0]), actions[1..]);
    }
  }

  lemma SubscribesOnlyWhileOpen(st: State, s: SubId, at: int)
    requires Framed(st)
    ensures Next(st, Subscribe(s, at)).core.subs != st.core.subs ==> !st.core.subsNil && s !in st.core.members
  {
  }

  /** A registration happens only while the subscriber map exists. */
  lemma NilMapIsNeverWritten(b: Beginning, actions: seq<Action>, s: SubId, at: int)
    ensures var st := Reached(b, actions);
            Next(st, Subscribe(s, at)).core.subs != st.core.subs ==> !st.core.subsNil && s !in st.core.members
  {
    ReachedInv(b, actions);
    SubscribesOnlyWhileOpen(Reached(b, actions), s, at);
  }

  // --- The working directory ---

  /** The session's directory is always the last one in all the output there ever
      was, however it was cut into reads and whether or not it was shown. */
  lemma CwdIsLastReported(b: Beginning, actions: seq<Action>)
    ensures var st := Reached(b, actions);
            var paths := PathsIn(st.output);
            st.core.cwd == if paths == [] then [] else paths[|paths| - 1]
  {
    ReachedInv(b, actions);
    var st := Reached(b, actions);
    FeedFrom(NEW_TRACKER, [], [], st.output);
    assert [] + st.output == st.output;
  }
}
