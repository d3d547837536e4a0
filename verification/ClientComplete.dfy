/** When the mobile terminal shows everything it has accepted: after any events in any
    order, with the two ways in which it may fall short. */
module ClientComplete {
  import opened Common
  import opened Session
  import opened RenderHistory
  import opened Client
  import opened ClientLaws
  import opened ClientDisplay

  // --- Redrawn from too little ---

  /** Whether the terminal was last made by a redraw from a history that something had
      been evicted from. */
  function CutShort(c: Tab, events: seq<Event>, already: bool): bool
    decreases |events|
  {
    if events == [] then already
    else
      var e := events[0];
      CutShort(Handle(c, e), events[1..], CutBy(c, e, already))
  }

  predicate CutBy(c: Tab, e: Event, already: bool) {
    if Redraws(c, e) then c.log.history != c.log.appended else already && !StartsOver(c, e)
  }

  /** What the terminal was made for and has been given since is all that was accepted. */
  ghost predicate DueInFull(c: Tab, cut: bool) {
    c.screen.receivedReplay ==> (c.log.due == Accepted(c) <==> !cut)
  }

  lemma SameBeginning(a: Bytes, b: Bytes, more: Bytes)
    ensures a + more == b + more <==> a == b
  {
    if a + more == b + more {
      assert a == (a + more)[..|a|] && b == (b + more)[..|b|];
    }
  }

  lemma TextDue(log: Log, data: Bytes)
    ensures Logged(log, data).due == Join(Logged(log, data).appended) <==> log.due == Join(log.appended)
  {
    JoinAppended(log.appended, data);
    SameBeginning(log.due, Join(log.appended), data);
  }

  lemma FrameDue(c: Tab, e: Event, cut: bool)
    requires DueInFull(c, cut) && e.FrameArrives?
    ensures DueInFull(Handle(c, e), cut && !StartsOver(c, e))
  {
    match e.frame {
      case Replay(data) => ReplayText(data);
      case Out(data) => TextDue(c.log, data);
      case Exit(code) => TextDue(c.log, ExitMessage(code));
      case Pong =>
      case Error(_) =>
    }
  }

  lemma RedrawDue(c: Tab, e: Event)
    requires Redraws(c, e) && NoBlanks(c.log.appended) && IsSuffix(c.log.history, c.log.appended)
    ensures DueInFull(Handle(c, e), c.log.history != c.log.appended)
  {
    RedrawnIs(c, e);
    ShorterSuffix(c.log.history, c.log.appended);
  }

  lemma OtherDue(c: Tab, e: Event, cut: bool)
    requires DueInFull(c, cut) && !e.FrameArrives? && !Redraws(c, e)
    ensures DueInFull(Handle(c, e), cut && !StartsOver(c, e))
  {
    OthersOwe(c, e);
    OthersAccept(c, e);
    OthersReceiveNothing(c, e);
  }

  lemma OthersReceiveNothing(c: Tab, e: Event)
    requires !e.FrameArrives?
    ensures Handle(c, e).screen.receivedReplay ==> c.screen.receivedReplay
  {
  }

  lemma {:induction false} RunDue(c: Tab, events: seq<Event>, cut: bool)
    requires ClientInv(c) && NoBlanks(c.log.appended) && DueInFull(c, cut)
    ensures DueInFull(HandleAll(c, events), CutShort(c, events, cut))
    decreases |events|
  {
    if events != [] {
      var e := events[0];
      if e.FrameArrives? {
        FrameDue(c, e, cut);
      } else if Redraws(c, e) {
        RedrawDue(c, e);
      } else {
        OtherDue(c, e, cut);
      }
      StepHasNoBlanks(c, e);
      HandleKeeps(c, e);
      RunDue(Handle(c, e), events[1..], CutBy(c, e, cut));
    }
  }

  // --- Everything is held, everything is shown ---

  lemma BeginningIsFull(u: Settings)
    ensures ClientInv(Begun(u)) && NoBlanks(Begun(u).log.appended) && DueInFull(Begun(u), false)
  {
    InitialKeeps(u.lineWrap, u.fixedCols, u.powerShell, u.view);
  }

  /** In every run: all that was accepted is written or waiting, however much has been
      evicted, if and only if the terminal was not made by a redraw after an eviction. */
  lemma OnlyRedrawsShorten(u: Settings, events: seq<Event>)
    requires After(u, events).screen.receivedReplay
    ensures Held(After(u, events)) == Accepted(After(u, events)) <==> !CutShort(Begun(u), events, false)
  {
    BeginningIsFull(u);
    RunDue(Begun(u), events, false);
    DueIsHeld(u, events);
  }

  lemma HeldIsSuffix(u: Settings, events: seq<Event>)
    requires After(u, events).screen.receivedReplay
    ensures IsSuffix(Held(After(u, events)), Accepted(After(u, events)))
  {
    AfterInv(u, events);
  }

  /** Showing less than what is held is showing less than what was accepted. */
  lemma ShownHeldAccepted(shown: Bytes, left: Bytes, accepted: Bytes)
    requires |shown + left| <= |accepted|
    ensures shown == accepted <==> left == [] && shown + left == accepted
  {
    if left == [] {
      assert shown + left == shown;
    }
  }

  /** In every run, with no replay waiting: the terminal shows everything accepted from
      the current socket if and only if nothing of it came while the tab was closed with
      no replay waiting, and the terminal was not made by a redraw after an eviction. */
  lemma ShowsAllIffNothingLost(u: Settings, events: seq<Event>)
    requires After(u, events).screen.receivedReplay && After(u, events).screen.pendingReplay.None?
    ensures var c := After(u, events);
            Join(c.screen.terminal) == Accepted(c)
            <==> !LeftBehind(Begun(u), events, false) && !CutShort(Begun(u), events, false)
  {
    var c := After(u, events);
    OnlyRedrawsShorten(u, events);
    ShownIffNothingCameLate(u, events);
    DueIsHeld(u, events);
    HeldIsSuffix(u, events);
    ShownOrLeftOver(c);
    SameIffNothingLeft(Join(c.screen.terminal), LeftOver(c));
    ShownHeldAccepted(Join(c.screen.terminal), LeftOver(c), Accepted(c));
  }

  // --- A redraw after an eviction ---

  /** After a replay that fills the history, one more chunk leaves nothing of it. */
  lemma FullReplayIsEvicted(full: Bytes, data: Bytes)
    requires |full| == 4_194_304 && data != []
    ensures Append([full], data) == [data]
  {
    var chunks := [full] + [data];
    SizeDropFirst(chunks);
    assert chunks[1..] == [data];
    SizeDropFirst([data]);
    assert [data][1..] == [];
    assert Size(chunks) > LIMIT_BYTES && |chunks| == 2;
    assert Evict([data]) == [data];
  }

  /** One more chunk, written at once. */
  lemma ChunkAfterFullReplay(c: Tab, full: Bytes, data: Bytes)
    requires Fresh(c, full) && |full| == 4_194_304 && data != []
    ensures var c1 := Handle(c, FrameArrives(1, Out(data)));
            && c1.screen == c.screen.(terminal := [full, data]) && c1.net == c.net && c1.look == c.look
            && c1.log.history == [data] && c1.log.appended == [full, data]
  {
    FullReplayIsEvicted(full, data);
    assert [full] + [data] == [full, data];
  }

  /** A full replay, one chunk, and the line wrap toggled: the terminal keeps the chunk. */
  lemma RedrawMayShorten(u: Settings, full: Bytes, data: Bytes)
    requires |full| == 4_194_304 && data != []
    ensures var events := [ConnectNow(true), FrameArrives(1, Replay(full)), Callback(1)]
                          + [FrameArrives(1, Out(data)), LineWrapChanges(!u.lineWrap), Callback(2)];
            var c := After(u, events);
            && c.screen.ready && c.net.conn == Live
            && Accepted(c) == full + data && Join(c.screen.terminal) == data
  {
    var first := [ConnectNow(true), FrameArrives(1, Replay(full)), Callback(1)];
    var last := [FrameArrives(1, Out(data)), LineWrapChanges(!u.lineWrap), Callback(2)];
    HandleThree(Begun(u), first[0], first[1], first[2]);
    FirstReplay(u, full);
    var c := HandleAll(Begun(u), first);
    HandleAllConcat(Begun(u), first, last);
    HandleThree(c, last[0], last[1], last[2]);
    ChunkAfterFullReplay(c, full, data);
    var c1 := Handle(c, last[0]);
    JoinOne(data);
    RedrawThenCallback(c1, last[1]);
    RedrawnIs(c1, last[1]);
    CallbackHoldsSame(Handle(c1, last[1]), 2);
    JoinTwo(full, data);
  }

  lemma JoinOne(a: Bytes)
    ensures Join([a]) == a
  {
    JoinTwo([], a);
    assert [] + a == a;
    assert [a][..0] == [];
  }
}
