/** What losing, replacing and giving up a socket does to the mobile terminal, and that a
    lost connection can always come back. */
module Reconnecting {
  import opened Common
  import opened Session
  import opened Client
  import opened ClientLaws
  import opened ClientDisplay

  /** The terminal keeps what is written to it; what waits for it is given up, and nothing is
      ready until the next replay. */
  ghost predicate KeepsOnlyWritten(c: Tab, c1: Tab) {
    && c1.screen.terminal == c.screen.terminal && c1.screen.terminalGen == c.screen.terminalGen
    && !c1.screen.ready && !c1.screen.receivedReplay && c1.screen.pendingReplay == None && c1.screen.pendingOut == []
    && c1.screen.callbacks == c.screen.callbacks && c1.look == c.look
    && c1.log.history == c.log.history && c1.log.appended == c.log.appended && c1.log.sent == c.log.sent
  }

  /** Without a socket, with a timer that will open the next. */
  ghost predicate Retrying(c: Tab, c1: Tab) {
    && KeepsOnlyWritten(c, c1)
    && c1.net.conn == Reconnecting && c1.net.channel == None && c1.net.retryArmed && !c1.net.pingArmed
    && c1.net.channelGen == c.net.channelGen + 1 && !c1.net.disposed && c1.log == c.log
  }

  /** The error or the end of the current socket sets a retry unless the tab is closed; that
      of any other socket does nothing. */
  lemma LosingTheSocket(u: Settings, events: seq<Event>, gen: nat)
    ensures var c := After(u, events);
            var failed, ended := Handle(c, SocketError(gen)), Handle(c, SocketDone(gen));
            if c.net.channel == Some(gen) && c.net.conn != Closed then Retrying(c, failed) && Retrying(c, ended)
            else failed == c && ended == c
  {
    AfterInv(u, events);
  }

  /** When the retry fires: a new socket of a new generation, or another retry; it fires only
      while there is neither a socket nor an end to the tab. */
  lemma Retries(u: Settings, events: seq<Event>)
    requires After(u, events).net.retryArmed
    ensures var c := After(u, events);
            var g := c.net.channelGen + 1;
            var joined, refused := Handle(c, ConnectNow(true)), Handle(c, ConnectNow(false));
            && c.net.channel == None && c.net.conn != Closed && !c.net.disposed
            && KeepsOnlyWritten(c, joined) && joined.net.conn == Connecting && joined.net.channel == Some(g)
            && joined.net.channelGen == g && !joined.net.retryArmed && g !in c.log.sockets
            && joined.log == c.log.(sockets := c.log.sockets + {g})
            && Retrying(c, refused)
  {
    AfterInv(u, events);
  }

  /** Without a retry armed nothing is joined. */
  lemma NothingElseConnects(c: Tab, e: Event)
    requires !(e.ConnectNow? && e.ok && c.net.retryArmed)
    ensures Handle(c, e).log.sockets == c.log.sockets
  {
    match e {
      case FrameArrives(gen, f) =>
        if f.Exit? {
          assert OnExit(c, f.code).log.sockets == c.log.sockets;
        }
      case _ =>
    }
  }

  /** Detaching closes the tab, disposing ends it: no socket, no timer, for good. */
  lemma GivingUp(u: Settings, events: seq<Event>)
    ensures var c := After(u, events);
            var detached, disposed := Handle(c, ChannelDisposed), Handle(c, TabDisposed);
            && KeepsOnlyWritten(c, detached) && detached.net.conn == Closed && detached.net.channel == None
            && !detached.net.retryArmed && !detached.net.pingArmed && detached.net.disposed == c.net.disposed
            && KeepsOnlyWritten(c, disposed) && disposed.net.conn == c.net.conn && disposed.net.channel == None
            && !disposed.net.retryArmed && !disposed.net.pingArmed && disposed.net.disposed
  {
  }

  // --- Coming back ---

  lemma SocketOpens(c: Tab)
    requires c.net.retryArmed && !c.net.disposed
    ensures var c1 := Handle(c, ConnectNow(true));
            && c1.net.channelGen == c.net.channelGen + 1 && c1.net.channel == Some(c1.net.channelGen)
            && c1.net.channelGen in c1.log.sockets && !c1.net.disposed && c1.screen.terminalGen == c.screen.terminalGen
  {
  }

  /** A new terminal waits for the replay of the current socket. */
  ghost predicate Waits(c: Tab, gen: nat, terminalGen: nat, data: Bytes) {
    && c.net.conn == Live && c.net.channel == Some(gen) && !c.net.disposed
    && c.screen.terminal == [] && c.screen.pendingReplay == Some(data) && c.screen.pendingOut == []
    && c.screen.terminalGen == terminalGen && terminalGen in c.screen.callbacks
  }

  lemma ReplayWaits(c: Tab, data: Bytes)
    requires c.net.channel == Some(c.net.channelGen) && c.net.channelGen in c.log.sockets && !c.net.disposed
    ensures Waits(Handle(c, FrameArrives(c.net.channelGen, Replay(data))), c.net.channelGen, c.screen.terminalGen + 1, data)
  {
  }

  /** Ready, and showing the replay alone. */
  ghost predicate Back(c: Tab, gen: nat, data: Bytes) {
    c.screen.ready && c.screen.terminal == [data] && c.net.conn == Live && c.net.channel == Some(gen)
  }

  lemma ReplayIsApplied(c: Tab, gen: nat, terminalGen: nat, data: Bytes)
    requires Waits(c, gen, terminalGen, data)
    ensures Back(Handle(c, Callback(terminalGen)), gen, data)
  {
    ResizeHoldsSame(Readied(Written(c, terminalGen)));
    assert [] + [data] + [] == [data];
  }

  lemma ComesBackFrom(c: Tab, data: Bytes)
    requires c.net.retryArmed && !c.net.disposed
    ensures var g, t := c.net.channelGen + 1, c.screen.terminalGen + 1;
            Back(HandleAll(c, [ConnectNow(true), FrameArrives(g, Replay(data)), Callback(t)]), g, data)
  {
    var g, t := c.net.channelGen + 1, c.screen.terminalGen + 1;
    var c1 := Handle(c, ConnectNow(true));
    SocketOpens(c);
    ReplayWaits(c1, data);
    ReplayIsApplied(Handle(c1, FrameArrives(g, Replay(data))), g, t, data);
    HandleThree(c, ConnectNow(true), FrameArrives(g, Replay(data)), Callback(t));
  }

  lemma WithoutSocketRetries(u: Settings, events: seq<Event>)
    requires var c := After(u, events); c.net.channel == None && c.net.conn != Closed && !c.net.disposed
    ensures After(u, events).net.retryArmed
  {
    InitialKeeps(u.lineWrap, u.fixedCols, u.powerShell, u.view);
    NeverStranded(Begun(u), events);
  }

  /** From any state without a socket in which the tab is neither closed nor disposed, a
      successful connection, its replay and the callback make it ready again, showing it. */
  lemma ComesBack(u: Settings, events: seq<Event>, data: Bytes)
    requires var c := After(u, events); c.net.channel == None && c.net.conn != Closed && !c.net.disposed
    ensures var c := After(u, events);
            var g, t := c.net.channelGen + 1, c.screen.terminalGen + 1;
            Back(HandleAll(c, [ConnectNow(true), FrameArrives(g, Replay(data)), Callback(t)]), g, data)
  {
    WithoutSocketRetries(u, events);
    ComesBackFrom(After(u, events), data);
  }

  // --- Settings ---

  predicate SameSettings(a: Look, b: Look) {
    a.view == b.view && a.lineWrap == b.lineWrap && a.fixedCols == b.fixedCols && a.powerShell == b.powerShell
  }

  /** The settings after an event that changes them. */
  function Changed(look: Look, e: Event): Look {
    match e
    case LineWrapChanges(lineWrap) => look.(lineWrap := lineWrap)
    case ColumnWidthChanges(fixedCols) => look.(fixedCols := fixedCols)
    case WidgetResizes(cols, rows) => look.(view := (cols, rows))
    case _ => look
  }

  lemma ResizeLeavesSettings(c: Tab)
    ensures SameSettings(SendResize(c).look, c.look) && SameSettings(Rebuild(c).look, c.look)
  {
  }

  lemma StepSettings(c: Tab, e: Event)
    ensures SameSettings(Handle(c, e).look, Changed(c.look, e))
  {
    match e {
      case FrameArrives(gen, f) =>
        if f.Exit? {
          assert OnExit(c, f.code).look == c.look;
        }
      case Callback(gen) =>
        if c.screen.pendingReplay.Some? {
          ResizeLeavesSettings(Readied(Written(c, gen)));
        }
      case LineWrapChanges(lineWrap) => ResizeLeavesSettings(c.(look := c.look.(lineWrap := lineWrap)));
      case ColumnWidthChanges(fixedCols) => ResizeLeavesSettings(c.(look := c.look.(fixedCols := fixedCols)));
      case WidgetResizes(cols, rows) => ResizeLeavesSettings(c.(look := c.look.(view := (cols, rows))));
      case _ =>
    }
  }

  function LastWrap(lineWrap: bool, events: seq<Event>): bool {
    if events == [] then lineWrap
    else
      var e := events[|events| - 1];
      if e.LineWrapChanges? then e.lineWrap else LastWrap(lineWrap, events[..|events| - 1])
  }

  function LastWidth(fixedCols: int, events: seq<Event>): int {
    if events == [] then fixedCols
    else
      var e := events[|events| - 1];
      if e.ColumnWidthChanges? then e.fixedCols else LastWidth(fixedCols, events[..|events| - 1])
  }

  function LastView(view: (int, int), events: seq<Event>): (int, int) {
    if events == [] then view
    else
      var e := events[|events| - 1];
      if e.WidgetResizes? then (e.cols, e.rows) else LastView(view, events[..|events| - 1])
  }

  /** In every run the settings in force are those last given, whatever has happened to the
      connection meanwhile. */
  lemma {:induction false} SettingsAreThoseLastGiven(u: Settings, events: seq<Event>)
    ensures var look := After(u, events).look;
            && look.lineWrap == LastWrap(u.lineWrap, events) && look.fixedCols == LastWidth(u.fixedCols, events)
            && look.view == LastView(u.view, events) && look.powerShell == u.powerShell
    decreases |events|
  {
    if events != [] {
      var n := |events| - 1;
      SettingsAreThoseLastGiven(u, events[..n]);
      assert events == events[..n] + [events[n]];
      HandleAllConcat(Begun(u), events[..n], [events[n]]);
      var c := After(u, events[..n]);
      assert [events[n]][1..] == [];
      assert HandleAll(c, [events[n]]) == HandleAll(Handle(c, events[n]), []);
      StepSettings(c, events[n]);
    }
  }
}
