/** What the mobile terminal holds and what of it is shown, after any events in any
    order. */
module ClientDisplay {
  import opened Common
  import opened Session
  import opened RenderHistory
  import opened Client
  import opened ClientLaws

  function Begun(u: Settings): Tab {
    Initial(u.lineWrap, u.fixedCols, u.powerShell, u.view)
  }

  // --- What is held ---

  /** The event redraws the terminal from the history. */
  predicate Redraws(c: Tab, e: Event) {
    c.screen.receivedReplay &&
    match e
    case LineWrapChanges(lineWrap) => lineWrap != c.look.lineWrap
    case ColumnWidthChanges(fixedCols) => fixedCols != c.look.fixedCols && !c.look.lineWrap
    case _ => false
  }

  lemma ReplayHoldsAll(c: Tab, data: Bytes)
    ensures Held(OnReplay(c, data)) == data == Accepted(OnReplay(c, data))
  {
    ReplayText(data);
    FreshHeld(OnReplay(c, data), data);
  }

  lemma ResizeHoldsSame(c: Tab)
    ensures Held(SendResize(c)) == Held(c) && Accepted(SendResize(c)) == Accepted(c)
    ensures SendResize(c).screen == c.screen
  {
  }

  lemma CallbackHoldsSame(c: Tab, gen: nat)
    ensures Held(RunCallback(c, gen)) == Held(c) && Accepted(RunCallback(c, gen)) == Accepted(c)
    ensures RunCallback(c, gen).screen.receivedReplay == c.screen.receivedReplay
  {
    if !c.net.disposed && gen == c.screen.terminalGen && c.screen.pendingReplay.Some? {
      ApplyShowsSame(c);
      var c1 := Written(c, gen);
      assert Held(Readied(c1)) == Held(c1);
      ResizeHoldsSame(Readied(c1));
    }
  }

  /** The scheduled callback of the current terminal writes what waits for it. */
  lemma ScheduledApplies(c: Tab)
    requires c.screen.pendingReplay.Some? && c.screen.terminalGen in c.screen.callbacks && !c.net.disposed
    ensures var c1 := Handle(c, Callback(c.screen.terminalGen));
            && c1.screen.pendingReplay.None? && c1.screen.receivedReplay == c.screen.receivedReplay
            && c1.log.history == c.log.history && c1.log.appended == c.log.appended
            && c1.net.channelGen == c.net.channelGen
  {
    ResizeHoldsSame(Readied(Written(c, c.screen.terminalGen)));
  }

  lemma RedrawnHoldsHistory(c: Tab, e: Event)
    requires Redraws(c, e)
    ensures Held(Handle(c, e)) == Join(c.log.history) && Accepted(Handle(c, e)) == Accepted(c)
    ensures Handle(c, e).screen.receivedReplay
  {
    FreshHeld(Handle(c, e), Join(c.log.history));
  }

  lemma PlainEventHoldsSame(c: Tab, e: Event)
    requires !Redraws(c, e) && !e.FrameArrives? && !e.Callback? && Handle(c, e).screen.receivedReplay
    ensures c.screen.receivedReplay && Held(Handle(c, e)) == Held(c) && Accepted(Handle(c, e)) == Accepted(c)
  {
    match e {
      case LineWrapChanges(lineWrap) => ResizeHoldsSame(c.(look := c.look.(lineWrap := lineWrap)));
      case ColumnWidthChanges(fixedCols) => ResizeHoldsSame(c.(look := c.look.(fixedCols := fixedCols)));
      case WidgetResizes(cols, rows) => ResizeHoldsSame(c.(look := c.look.(view := (cols, rows))));
      case _ =>
    }
  }

  ghost predicate NoBlanks(chunks: seq<Bytes>) {
    forall k :: 0 <= k < |chunks| ==> chunks[k] != []
  }

  lemma TextAddsNoBlanks(c: Tab, gen: nat, f: Frame)
    requires NoBlanks(c.log.appended)
    ensures NoBlanks(Listen(c, gen, f).log.appended)
  {
    if f.Exit? {
      assert OnExit(c, f.code).log.appended == AppendHistory(c, ExitMessage(f.code)).log.appended;
    }
  }

  lemma StepHasNoBlanks(c: Tab, e: Event)
    requires NoBlanks(c.log.appended)
    ensures NoBlanks(Handle(c, e).log.appended)
  {
    if e.FrameArrives? {
      TextAddsNoBlanks(c, e.gen, e.frame);
    } else {
      OthersAccept(c, e);
    }
  }

  lemma {:induction false} AcceptedHasNoBlanks(c: Tab, events: seq<Event>)
    requires NoBlanks(c.log.appended)
    ensures NoBlanks(HandleAll(c, events).log.appended)
    decreases |events|
  {
    if events != [] {
      StepHasNoBlanks(c, events[0]);
      AcceptedHasNoBlanks(Handle(c, events[0]), events[1..]);
    }
  }

  lemma OthersAccept(c: Tab, e: Event)
    requires !e.FrameArrives?
    ensures Handle(c, e).log.appended == c.log.appended
  {
  }

  lemma ShorterSuffix(kept: seq<Bytes>, all: seq<Bytes>)
    requires IsSuffix(kept, all) && NoBlanks(all)
    ensures Join(kept) == Join(all) <==> kept == all
  {
    var cut := |all| - |kept|;
    assert all == all[..cut] + kept;
    JoinConcat(all[..cut], kept);
    if cut > 0 {
      assert all[..cut][..cut - 1] == all[..cut - 1];
      assert all[..cut][cut - 1] == all[cut - 1] != [];
      assert |Join(all[..cut])| > 0;
    }
  }

  /** What a redraw shows is the history, and that is everything exactly when nothing
      has been evicted. */
  lemma RedrawShowsAllIffNothingEvicted(u: Settings, events: seq<Event>, e: Event)
    requires Redraws(After(u, events), e)
    ensures var c := After(u, events);
            && Display(Handle(c, e)) == Join(c.log.history)
            && (Display(Handle(c, e)) == Accepted(Handle(c, e)) <==> c.log.history == c.log.appended)
  {
    AfterInv(u, events);
    var c := After(u, events);
    RedrawnHoldsHistory(c, e);
    assert Display(Handle(c, e)) == Held(Handle(c, e));
    AcceptedHasNoBlanks(Initial(u.lineWrap, u.fixedCols, u.powerShell, u.view), events);
    ShorterSuffix(c.log.history, c.log.appended);
  }

  lemma RedrawnIs(c: Tab, e: Event)
    requires Redraws(c, e)
    ensures var c1 := Handle(c, e);
            && c1.screen == Redrawn(c.screen, Join(c.log.history))
            && c1.look.lastSent == None && c1.net == c.net && c1.log == c.log.(due := Join(c.log.history))
  {
  }

  /** The callback of a fresh terminal with no size sent for it yet. */
  lemma CallbackCompletes(c: Tab, was: Screen, text: Bytes)
    requires c.screen == Redrawn(was, text) && c.look.lastSent == None
    requires c.net.conn == Live && c.net.channel.Some? && !c.net.disposed
    ensures var c1 := RunCallback(c, c.screen.terminalGen);
            var size := RemoteSize(c.look);
            && c1.screen.terminal == [text] && c1.screen.ready && c1.net.conn == Live
            && c1.look == c.look.(lastSent := Some(size))
            && |c1.log.sent| == |c.log.sent| + 1 && c1.log.sent[|c.log.sent|].frame == ResizeTo(size.0, size.1)
  {
    assert [] + [text] + [] == [text];
  }

  /** Live, ready and showing `text`, with the size just sent. */
  ghost predicate Completed(before: Tab, c: Tab, text: Bytes) {
    && c.screen.terminal == [text] && c.screen.ready && c.net.conn == Live
    && c.look.lastSent == Some(RemoteSize(c.look))
    && |c.log.sent| == |before.log.sent| + 1
    && c.log.sent[|before.log.sent|].frame == ResizeTo(RemoteSize(c.look).0, RemoteSize(c.look).1)
  }

  lemma RedrawThenCallback(c: Tab, e: Event)
    requires Redraws(c, e) && c.net.conn == Live && c.net.channel.Some? && !c.net.disposed
    ensures var c1 := Handle(c, e);
            c1.screen.terminal == [] && Completed(c, Handle(c1, Callback(c1.screen.terminalGen)), Join(c.log.history))
  {
    var c1 := Handle(c, e);
    RedrawnIs(c, e);
    CallbackCompletes(c1, c.screen, Join(c.log.history));
    assert c1.screen.terminalGen in c1.screen.callbacks;
  }

  lemma LiveHasSocket(c: Tab)
    requires Shaped(c) && c.screen.receivedReplay
    ensures c.net.channel.Some? && !c.net.disposed
  {
  }

  /** A redraw and its callback leave a live tab ready, showing exactly the history,
      and the relay told the size that goes with the new settings. */
  lemma RedrawCompletes(u: Settings, events: seq<Event>, e: Event)
    requires Redraws(After(u, events), e) && After(u, events).net.conn == Live
    ensures var c := After(u, events);
            var c1 := Handle(c, e);
            c1.screen.terminal == [] && Completed(c, Handle(c1, Callback(c1.screen.terminalGen)), Join(c.log.history))
  {
    AfterInv(u, events);
    LiveHasSocket(After(u, events));
    RedrawThenCallback(After(u, events), e);
  }

  // --- What is shown ---

  /** All text the current terminal was made for and has been given since is written to
      it or waiting. */
  ghost predicate HoldsDue(c: Tab) {
    c.screen.receivedReplay ==> Held(c) == c.log.due
  }

  lemma OutHoldsDue(c: Tab, data: Bytes)
    requires Shaped(c) && HoldsDue(c)
    ensures HoldsDue(OnOut(c, data))
  {
    if c.screen.receivedReplay {
      ShownAppended(c, data);
    }
  }

  lemma NoticeHoldsDue(c: Tab, message: Bytes)
    requires Shaped(c) && HoldsDue(c)
    ensures HoldsDue(OnNotice(c, message))
  {
    if c.screen.receivedReplay {
      ShownAppended(c, message);
    }
  }

  lemma FrameHoldsDue(c: Tab, gen: nat, f: Frame)
    requires Shaped(c) && HoldsDue(c)
    ensures HoldsDue(Listen(c, gen, f))
  {
    match f {
      case Replay(data) => ReplayHoldsAll(c, data);
      case Out(data) => OutHoldsDue(c, data);
      case Exit(code) =>
        var noticed := OnNotice(c, ExitMessage(code));
        NoticeHoldsDue(c, ExitMessage(code));
        assert Held(Closing(noticed)) == Held(noticed);
      case Pong =>
      case Error(_) =>
    }
  }

  lemma OthersOwe(c: Tab, e: Event)
    requires !e.FrameArrives? && !Redraws(c, e)
    ensures Handle(c, e).log.due == c.log.due
  {
  }

  lemma HandleHoldsDue(c: Tab, e: Event)
    requires Shaped(c) && HoldsDue(c)
    ensures HoldsDue(Handle(c, e))
  {
    if e.FrameArrives? {
      FrameHoldsDue(c, e.gen, e.frame);
    } else if Redraws(c, e) {
      RedrawnHoldsHistory(c, e);
    } else {
      OthersOwe(c, e);
      if e.Callback? {
        CallbackHoldsSame(c, e.gen);
      } else if Handle(c, e).screen.receivedReplay {
        PlainEventHoldsSame(c, e);
      }
    }
  }

  lemma {:induction false} RunHoldsDue(c: Tab, events: seq<Event>)
    requires ClientInv(c) && HoldsDue(c)
    ensures HoldsDue(HandleAll(c, events))
    decreases |events|
  {
    if events != [] {
      HandleHoldsDue(c, events[0]);
      HandleKeeps(c, events[0]);
      RunHoldsDue(Handle(c, events[0]), events[1..]);
    }
  }

  /** Text comes from the current socket while the tab is closed and no replay is
      waiting: nothing is scheduled that would write it. */
  predicate Late(c: Tab, e: Event) {
    && e.FrameArrives? && Possible(c, e) && e.gen == c.net.channelGen && !c.net.disposed
    && c.screen.receivedReplay && c.net.conn == Closed && c.screen.pendingReplay.None?
    && (e.frame.Exit? || (e.frame.Out? && e.frame.data != []))
  }

  /** The terminal is made anew, or its text given up with the socket. */
  predicate StartsOver(c: Tab, e: Event) {
    || Redraws(c, e)
    || (e.FrameArrives? && e.frame.Replay? && Possible(c, e) && e.gen == c.net.channelGen && !c.net.disposed)
    || !Handle(c, e).screen.receivedReplay
  }

  /** Whether text came late since the terminal was last made. */
  function LeftBehind(c: Tab, events: seq<Event>, already: bool): bool
    decreases |events|
  {
    if events == [] then already
    else
      var e := events[0];
      LeftBehind(Handle(c, e), events[1..], Late(c, e) || (already && !StartsOver(c, e)))
  }

  ghost predicate Tallied(c: Tab, left: bool) {
    left <==> c.screen.receivedReplay && c.screen.pendingReplay.None? && Join(c.screen.pendingOut) != []
  }

  lemma BlankOrNot(waiting: seq<Bytes>, data: Bytes)
    ensures Join(waiting + [data]) == [] <==> Join(waiting) == [] && data == []
  {
    JoinSnoc(waiting, data);
  }

  lemma FrameTallies(c: Tab, e: Event, left: bool)
    requires Shaped(c) && Tallied(c, left) && e.FrameArrives?
    ensures Tallied(Handle(c, e), Late(c, e) || (left && !StartsOver(c, e)))
  {
    match e.frame {
      case Replay(_) =>
      case Out(data) => BlankOrNot(c.screen.pendingOut, data);
      case Exit(code) => BlankOrNot(c.screen.pendingOut, ExitMessage(code));
      case Pong =>
      case Error(_) =>
    }
  }

  lemma CallbackTallies(c: Tab, gen: nat, left: bool)
    requires Shaped(c) && Tallied(c, left)
    ensures Tallied(Handle(c, Callback(gen)), left && !StartsOver(c, Callback(gen)))
  {
    if Possible(c, Callback(gen)) && !c.net.disposed && gen == c.screen.terminalGen && c.screen.pendingReplay.Some? {
      var c1 := Written(c, gen);
      ResizeHoldsSame(Readied(c1));
    }
  }

  lemma SettingTallies(c: Tab, e: Event, left: bool)
    requires Shaped(c) && Tallied(c, left)
    requires e.LineWrapChanges? || e.ColumnWidthChanges? || e.WidgetResizes? || e.UserTypes? || e.PingTimer?
    ensures Tallied(Handle(c, e), left && !StartsOver(c, e))
  {
    match e {
      case LineWrapChanges(lineWrap) => ResizeHoldsSame(c.(look := c.look.(lineWrap := lineWrap)));
      case ColumnWidthChanges(fixedCols) => ResizeHoldsSame(c.(look := c.look.(fixedCols := fixedCols)));
      case WidgetResizes(cols, rows) => ResizeHoldsSame(c.(look := c.look.(view := (cols, rows))));
      case _ =>
    }
  }

  lemma SocketTallies(c: Tab, e: Event, left: bool)
    requires Shaped(c) && Tallied(c, left)
    requires e.ConnectNow? || e.SocketError? || e.SocketDone? || e.ChannelDisposed? || e.TabDisposed?
    ensures Tallied(Handle(c, e), left && !StartsOver(c, e))
  {
  }

  lemma HandleTallies(c: Tab, e: Event, left: bool)
    requires Shaped(c) && Tallied(c, left)
    ensures Tallied(Handle(c, e), Late(c, e) || (left && !StartsOver(c, e)))
  {
    match e {
      case FrameArrives(_, _) => FrameTallies(c, e, left);
      case Callback(gen) => CallbackTallies(c, gen, left);
      case LineWrapChanges(_) => SettingTallies(c, e, left);
      case ColumnWidthChanges(_) => SettingTallies(c, e, left);
      case WidgetResizes(_, _) => SettingTallies(c, e, left);
      case UserTypes(_) => SettingTallies(c, e, left);
      case PingTimer => SettingTallies(c, e, left);
      case _ => SocketTallies(c, e, left);
    }
  }

  lemma {:induction false} RunTallies(c: Tab, events: seq<Event>, left: bool)
    requires ClientInv(c) && Tallied(c, left)
    ensures Tallied(HandleAll(c, events), LeftBehind(c, events, left))
    decreases |events|
  {
    if events != [] {
      HandleTallies(c, events[0], left);
      HandleKeeps(c, events[0]);
      RunTallies(Handle(c, events[0]), events[1..], Late(c, events[0]) || (left && !StartsOver(c, events[0])));
    }
  }

  lemma DueIsHeld(u: Settings, events: seq<Event>)
    ensures After(u, events).screen.receivedReplay ==> Held(After(u, events)) == After(u, events).log.due
  {
    InitialKeeps(u.lineWrap, u.fixedCols, u.powerShell, u.view);
    RunHoldsDue(Begun(u), events);
  }

  lemma SameIffNothingLeft(shown: Bytes, left: Bytes)
    ensures shown + left == shown <==> left == []
  {
    assert |shown + left| == |shown| + |left|;
  }

  /** What is held is what is shown, or bound to be, and what is left over. */
  lemma ShownOrLeftOver(c: Tab)
    ensures Held(c) == Display(c) + LeftOver(c)
  {
    if c.screen.pendingReplay.Some? {
      assert Display(c) + [] == Display(c);
    } else {
      assert Join(c.screen.terminal) + [] == Join(c.screen.terminal);
      assert [] + Join(c.screen.pendingOut) == Join(c.screen.pendingOut);
    }
  }

  lemma ShownIffNothingLeft(c: Tab, left: bool)
    requires Tallied(c, left) && Held(c) == c.log.due
    requires c.screen.receivedReplay && c.screen.pendingReplay.None?
    ensures Display(c) == Join(c.screen.terminal) && (Join(c.screen.terminal) == c.log.due <==> !left)
  {
    ShownOrLeftOver(c);
    assert Join(c.screen.terminal) + [] == Join(c.screen.terminal);
    SameIffNothingLeft(Join(c.screen.terminal), Join(c.screen.pendingOut));
  }

  /** In every run, with no replay waiting: the terminal shows all the text it was made
      for and has been given since if and only if none of it came while the tab was
      closed with no replay waiting. */
  lemma ShownIffNothingCameLate(u: Settings, events: seq<Event>)
    ensures var c := After(u, events);
            c.screen.receivedReplay && c.screen.pendingReplay.None? ==>
              && Display(c) == Join(c.screen.terminal)
              && (Join(c.screen.terminal) == c.log.due <==> !LeftBehind(Begun(u), events, false))
  {
    InitialKeeps(u.lineWrap, u.fixedCols, u.powerShell, u.view);
    DueIsHeld(u, events);
    RunTallies(Begun(u), events, false);
    var c := After(u, events);
    if c.screen.receivedReplay && c.screen.pendingReplay.None? {
      ShownIffNothingLeft(c, LeftBehind(Begun(u), events, false));
    }
  }

  /** Text left behind is only written by starting over: no callback, and nothing else
      that may happen, does it. */
  lemma OnlyStartingOverWritesIt(c: Tab, e: Event)
    requires Shaped(c) && c.screen.receivedReplay && c.net.conn == Closed && c.screen.pendingReplay.None?
    requires !StartsOver(c, e)
    ensures Handle(c, e).screen.terminal == c.screen.terminal
    ensures Handle(c, e).net.conn == Closed && Handle(c, e).screen.pendingReplay.None?
  {
  }

  // --- Output after the exit ---

  lemma HandleThree(c: Tab, e: Event, f: Event, g: Event)
    ensures HandleAll(c, [e, f, g]) == Handle(Handle(Handle(c, e), f), g)
  {
    assert [e, f, g][1..] == [f, g] && [f, g][1..] == [g] && [g][1..] == [];
    assert HandleAll(Handle(c, e), [f, g]) == HandleAll(Handle(Handle(c, e), f), [g]);
    assert HandleAll(Handle(Handle(c, e), f), [g]) == Handle(Handle(Handle(c, e), f), g);
  }

  /** The tab once its first replay has been written. */
  ghost predicate Fresh(c: Tab, text: Bytes) {
    && c.screen == Screen([text], 1, true, true, None, [], {})
    && c.net == Net(Live, Some(1), 1, false, true, false)
    && c.log.history == Chunks(text) && c.log.appended == Chunks(text) && c.log.sockets == {1}
  }

  lemma ReplayArrives(u: Settings, text: Bytes)
    ensures var c := Handle(Handle(Begun(u), ConnectNow(true)), FrameArrives(1, Replay(text)));
            && c.screen == Screen([], 1, false, true, Some(text), [], {1})
            && c.net == Net(Live, Some(1), 1, false, false, false)
            && c.log.history == Chunks(text) && c.log.appended == Chunks(text) && c.log.sockets == {1}
  {
    var c1 := Handle(Begun(u), ConnectNow(true));
    assert c1.net == Net(Connecting, Some(1), 1, false, false, false) && c1.log.sockets == {1};
    assert [] + [text] == [text];
    assert Append([], text) == Chunks(text);
  }

  lemma FirstReplay(u: Settings, text: Bytes)
    ensures Fresh(Handle(Handle(Handle(Begun(u), ConnectNow(true)), FrameArrives(1, Replay(text))), Callback(1)), text)
    ensures Handle(Handle(Handle(Begun(u), ConnectNow(true)), FrameArrives(1, Replay(text))), Callback(1)).look.lineWrap
            == u.lineWrap
  {
    ReplayArrives(u, text);
    var c2 := Handle(Handle(Begun(u), ConnectNow(true)), FrameArrives(1, Replay(text)));
    var c3 := Written(c2, 1);
    assert [] + [text] + [] == [text];
    assert c3.screen == Screen([text], 1, false, true, None, [], {});
    ResizeHoldsSame(Readied(c3));
  }

  /** Then the shell exits, and its last output comes after the exit frame. */
  lemma ExitThenOutput(c: Tab, code: int, data: Bytes)
    requires Fresh(c, []) && data != []
    ensures var c1 := Handle(c, FrameArrives(1, Exit(code)));
            var c2 := Handle(c1, FrameArrives(1, Out(data)));
            && c1.screen.terminal == [[], ExitMessage(code)] && c1.net.conn == Closed
            && c2.screen == c1.screen.(pendingOut := [data]) && c2.screen.callbacks == {} && c2.net == c1.net
            && c2.screen.receivedReplay && c2.screen.pendingReplay.None?
            && c2.log.appended == [ExitMessage(code), data]
  {
    assert [[]] + [ExitMessage(code)] == [[], ExitMessage(code)];
    assert [] + [data] == [data];
  }

  lemma JoinTwo(a: Bytes, b: Bytes)
    ensures Join([a, b]) == a + b
  {
    assert [a, b][..1] == [a] && [a][..0] == [];
    assert [] + a == a;
    assert Join([a]) == a;
  }

  /** Output that follows the exit is accepted and not shown, and nothing is scheduled
      that would show it. */
  lemma OutputAfterExitIsNotShown(u: Settings, data: Bytes)
    requires data != []
    ensures var events := [ConnectNow(true), FrameArrives(1, Replay([])), Callback(1)]
                          + [FrameArrives(1, Exit(0)), FrameArrives(1, Out(data))];
            var c := After(u, events);
            && c.screen.receivedReplay && c.screen.pendingReplay.None? && c.screen.callbacks == {}
            && Accepted(c) == ExitMessage(0) + data && Join(c.screen.terminal) == ExitMessage(0)
  {
    var first := [ConnectNow(true), FrameArrives(1, Replay([])), Callback(1)];
    var last := [FrameArrives(1, Exit(0)), FrameArrives(1, Out(data))];
    HandleThree(Begun(u), first[0], first[1], first[2]);
    FirstReplay(u, []);
    var c := HandleAll(Begun(u), first);
    HandleAllConcat(Begun(u), first, last);
    assert last[1..] == [last[1]] && [last[1]][1..] == [];
    assert HandleAll(c, last) == HandleAll(Handle(c, last[0]), [last[1]]);
    ExitThenOutput(c, 0, data);
    JoinTwo([], ExitMessage(0));
    JoinTwo(ExitMessage(0), data);
    assert [] + ExitMessage(0) == ExitMessage(0);
  }

  lemma {:induction false} HandleAllConcat(c: Tab, a: seq<Event>, b: seq<Event>)
    ensures HandleAll(c, a + b) == HandleAll(HandleAll(c, a), b)
    decreases |a|
  {
    if a == [] {
      assert a + b == b;
    } else {
      assert (a + b)[1..] == a[1..] + b;
      HandleAllConcat(Handle(c, a[0]), a[1..], b);
    }
  }
}
