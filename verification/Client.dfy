/** The mobile client's terminal tab: one function for each event its single thread
    handles, the class that handles them in place, and what every event keeps. */
module Client {
  import opened Common
  import opened Session
  import opened RenderHistory

  datatype ConnectionState = Connecting | Live | Reconnecting | Closed

  datatype ClientFrame = Input(data: Bytes) | ResizeTo(cols: int, rows: int) | Ping

  /** A frame handed to a socket, with the socket's generation, what the terminal
      showed at that moment and everything accepted from that socket until then. */
  datatype SentFrame = SentFrame(frame: ClientFrame, gen: nat, shown: Bytes, accepted: Bytes)

  /** The socket and everything that decides about reconnecting. */
  datatype Net = Net(
    conn: ConnectionState,
    channel: Option<nat>,           // generation of the open socket
    channelGen: nat,
    retryArmed: bool,
    pingArmed: bool,
    disposed: bool)

  /** The terminal widget and what is waiting to be written to it. */
  datatype Screen = Screen(
    terminal: seq<Bytes>,           // what has been written to the current terminal
    terminalGen: nat,
    ready: bool,
    receivedReplay: bool,
    pendingReplay: Option<Bytes>,
    pendingOut: seq<Bytes>,
    callbacks: set<nat>)            // terminal generations with a scheduled apply

  /** Sizes, and how the terminal is to be presented. */
  datatype Look = Look(
    lastSent: Option<(int, int)>,
    view: (int, int),               // columns and rows of the widget
    lineWrap: bool,
    fixedCols: int,
    powerShell: bool)

  /** The render history, and the record of the run. */
  datatype Log = Log(
    history: seq<Bytes>,
    appended: seq<Bytes>,           // non-empty chunks since the last replay
    due: Bytes,                     // what the terminal was made to show and all text since
    applied: seq<nat>,              // generations whose scheduled text was written
    sockets: set<nat>,              // generations of all sockets ever opened
    sent: seq<SentFrame>)

  datatype Tab = Tab(net: Net, screen: Screen, look: Look, log: Log)

  function Initial(lineWrap: bool, fixedCols: int, powerShell: bool, view: (int, int)): Tab {
    Tab(Net(Connecting, None, 0, true, false, false),
        Screen([], 0, false, false, None, [], {}),
        Look(None, view, lineWrap, fixedCols, powerShell),
        Log([], [], [], [], {}, []))
  }

  // --- Text ---

  function Digits(n: nat): Bytes {
    if n < 10 then [0x30 + n] else Digits(n / 10) + [0x30 + n % 10]
  }

  function Decimal(n: int): Bytes {
    if n < 0 then [0x2d] + Digits(-n) else Digits(n)
  }

  const EXITED: Bytes := [0x0d, 0x0a, 0x5b, 0x70, 0x72, 0x6f, 0x63, 0x65, 0x73, 0x73, 0x20, 0x65, 0x78, 0x69, 0x74,
                          0x65, 0x64, 0x20, 0x63, 0x6f, 0x64, 0x65, 0x3d]  // \r\n[process exited code=

  function ExitMessage(code: int): (message: Bytes)
    ensures message != []
  {
    EXITED + Decimal(code) + [0x5d, 0x0d, 0x0a]
  }

  function Clamp(n: int): int {
    if n < 1 then 1 else if n > 500 then 500 else n
  }

  function RemoteCols(powerShell: bool, lineWrap: bool, visible: int, fixedCols: int): int {
    var cols, pinned := Clamp(visible), Clamp(fixedCols);
    if !lineWrap then pinned else if powerShell && cols < pinned then pinned else cols
  }

  // --- Events ---

  function Send(c: Tab, f: ClientFrame): Tab {
    if c.net.channel.None? then c
    else
      var record := SentFrame(f, c.net.channel.value, Join(c.screen.terminal), Join(c.log.appended));
      c.(log := c.log.(sent := c.log.sent + [record]))
  }

  function SendInput(c: Tab, data: Bytes): Tab {
    if c.screen.ready then Send(c, Input(data)) else c
  }

  /** The size the relay should be told. */
  function RemoteSize(look: Look): (int, int) {
    (RemoteCols(look.powerShell, look.lineWrap, look.view.0, look.fixedCols), look.view.1)
  }

  function SendResize(c: Tab): Tab {
    var size := RemoteSize(c.look);
    if !c.screen.ready || c.look.lastSent == Some(size) then c
    else Send(c.(look := c.look.(lastSent := Some(size))), ResizeTo(size.0, size.1))
  }

  function PingTick(c: Tab): Tab {
    if c.net.pingArmed && c.screen.ready then Send(c, Ping) else c
  }

  function Chunks(data: Bytes): seq<Bytes> {
    if data == [] then [] else [data]
  }

  function Logged(log: Log, data: Bytes): Log {
    log.(history := Append(log.history, data),
         appended := if data == [] then log.appended else log.appended + [data],
         due := log.due + data)
  }

  function AppendHistory(c: Tab, data: Bytes): Tab {
    c.(log := Logged(c.log, data))
  }

  function Shown(screen: Screen, text: Bytes): Screen {
    screen.(terminal := screen.terminal + [text])
  }

  function KeptBack(screen: Screen, text: Bytes): Screen {
    screen.(pendingOut := screen.pendingOut + [text])
  }

  function ShowNow(c: Tab, text: Bytes): Tab {
    c.(screen := Shown(c.screen, text))
  }

  function HoldBack(c: Tab, text: Bytes): Tab {
    c.(screen := KeptBack(c.screen, text))
  }

  /** A new terminal, with `text` scheduled to be written to it. */
  function Redrawn(screen: Screen, text: Bytes): Screen {
    var gen := screen.terminalGen + 1;
    Screen([], gen, false, screen.receivedReplay, Some(text), [], screen.callbacks + {gen})
  }

  function Redraw(c: Tab, text: Bytes): Tab {
    c.(screen := Redrawn(c.screen, text), log := c.log.(due := text))
  }

  function OnReplay(c: Tab, data: Bytes): Tab {
    c.(screen := Redrawn(c.screen, data).(receivedReplay := true),
       log := c.log.(history := Append([], data), appended := Chunks(data), due := data),
       net := c.net.(conn := Live))
  }

  function OnOut(c: Tab, data: Bytes): Tab {
    if !c.screen.receivedReplay then c
    else if !c.screen.ready then HoldBack(AppendHistory(c, data), data)
    else ShowNow(AppendHistory(c, data), data)
  }

  function OnNotice(c: Tab, message: Bytes): Tab {
    if c.screen.receivedReplay && !c.screen.ready then HoldBack(AppendHistory(c, message), message)
    else ShowNow(AppendHistory(c, message), message)
  }

  function Closing(c: Tab): Tab {
    c.(screen := c.screen.(ready := false), net := c.net.(conn := Closed))
  }

  function OnExit(c: Tab, code: int): Tab {
    Closing(OnNotice(c, ExitMessage(code)))
  }

  function OnMessage(c: Tab, f: Frame): Tab {
    if c.net.disposed then c
    else match f
      case Replay(data) => OnReplay(c, data)
      case Out(data) => OnOut(c, data)
      case Exit(code) => OnExit(c, code)
      case Pong => c
      case Error(_) => c
  }

  /** What a socket's listener does with a frame: nothing, once a newer socket exists. */
  function Listen(c: Tab, gen: nat, f: Frame): Tab {
    if gen != c.net.channelGen then c else OnMessage(c, f)
  }

  /** The scheduled text and the output held back since, written to the terminal. */
  function Applied(screen: Screen, gen: nat): Screen
    requires screen.pendingReplay.Some?
  {
    screen.(terminal := screen.terminal + [screen.pendingReplay.value] + screen.pendingOut,
            pendingReplay := None, pendingOut := [], callbacks := screen.callbacks - {gen})
  }

  function Written(c: Tab, gen: nat): Tab
    requires c.screen.pendingReplay.Some?
  {
    c.(screen := Applied(c.screen, gen), log := c.log.(applied := c.log.applied + [gen]))
  }

  function Readied(c: Tab): Tab {
    c.(screen := c.screen.(ready := true), net := c.net.(pingArmed := true))
  }

  function RunCallback(c: Tab, gen: nat): Tab {
    if c.net.disposed || gen != c.screen.terminalGen || c.screen.pendingReplay.None? then
      c.(screen := c.screen.(callbacks := c.screen.callbacks - {gen}))
    else if c.net.conn == Closed then Written(c, gen)
    else SendResize(Readied(Written(c, gen)))
  }

  function Rebuild(c: Tab): Tab {
    if !c.screen.receivedReplay then SendResize(c)
    else Redraw(c.(look := c.look.(lastSent := None)), Join(c.log.history))
  }

  function SetLineWrap(c: Tab, lineWrap: bool): Tab {
    if c.look.lineWrap == lineWrap then c else Rebuild(c.(look := c.look.(lineWrap := lineWrap)))
  }

  function SetColumnWidth(c: Tab, fixedCols: int): Tab {
    if c.look.fixedCols == fixedCols then c
    else
      var c1 := c.(look := c.look.(fixedCols := fixedCols));
      if c.look.lineWrap then SendResize(c1) else Rebuild(c1)
  }

  function WidgetResize(c: Tab, cols: int, rows: int): Tab {
    SendResize(c.(look := c.look.(view := (cols, rows))))
  }

  function ForgetReplay(screen: Screen): Screen {
    screen.(ready := false, receivedReplay := false, pendingReplay := None, pendingOut := [])
  }

  /** Without a socket, and deaf to the one there was. */
  function Detached(c: Tab, conn: ConnectionState, retry: bool, disposed: bool): Tab {
    c.(net := Net(conn, None, c.net.channelGen + 1, retry, false, disposed), screen := ForgetReplay(c.screen))
  }

  function ScheduleReconnect(c: Tab): Tab {
    if c.net.disposed || c.net.conn == Closed then c else Detached(c, Reconnecting, true, false)
  }

  function Connect(c: Tab, ok: bool): Tab {
    if c.net.disposed then c.(net := c.net.(retryArmed := false))
    else if !ok then Detached(c, Reconnecting, true, false)
    else
      var gen := c.net.channelGen + 1;
      c.(net := c.net.(conn := Connecting, channel := Some(gen), channelGen := gen, retryArmed := false),
         screen := ForgetReplay(c.screen),
         log := c.log.(sockets := c.log.sockets + {gen}))
  }

  function SocketFails(c: Tab, gen: nat): Tab {
    if gen != c.net.channelGen then c else ScheduleReconnect(c)
  }

  function SocketCloses(c: Tab, gen: nat): Tab {
    if gen != c.net.channelGen || c.net.conn == Closed then c else ScheduleReconnect(c)
  }

  function DisposeChannel(c: Tab, markClosed: bool): Tab {
    Detached(c, if markClosed then Closed else c.net.conn, false, c.net.disposed)
  }

  function Dispose(c: Tab): Tab {
    Detached(c, c.net.conn, false, true)
  }

  datatype Event =
    | ConnectNow(ok: bool)
    | FrameArrives(gen: nat, frame: Frame)
    | SocketError(gen: nat)
    | SocketDone(gen: nat)
    | Callback(gen: nat)
    | LineWrapChanges(lineWrap: bool)
    | ColumnWidthChanges(fixedCols: int)
    | WidgetResizes(cols: int, rows: int)
    | UserTypes(data: Bytes)
    | PingTimer
    | ChannelDisposed
    | TabDisposed

  predicate Possible(c: Tab, e: Event) {
    match e
    case ConnectNow(_) => c.net.retryArmed
    case FrameArrives(gen, _) => gen in c.log.sockets
    case SocketError(gen) => gen in c.log.sockets
    case SocketDone(gen) => gen in c.log.sockets
    case Callback(gen) => gen in c.screen.callbacks
    case _ => true
  }

  function Handle(c: Tab, e: Event): Tab {
    if !Possible(c, e) then c
    else match e
      case ConnectNow(ok) => Connect(c, ok)
      case FrameArrives(gen, f) => Listen(c, gen, f)
      case SocketError(gen) => SocketFails(c, gen)
      case SocketDone(gen) => SocketCloses(c, gen)
      case Callback(gen) => RunCallback(c, gen)
      case LineWrapChanges(lineWrap) => SetLineWrap(c, lineWrap)
      case ColumnWidthChanges(fixedCols) => SetColumnWidth(c, fixedCols)
      case WidgetResizes(cols, rows) => WidgetResize(c, cols, rows)
      case UserTypes(data) => SendInput(c, data)
      case PingTimer => PingTick(c)
      case ChannelDisposed => DisposeChannel(c, true)
      case TabDisposed => Dispose(c)
  }

  function HandleAll(c: Tab, events: seq<Event>): Tab
    decreases |events|
  {
    if events == [] then c else HandleAll(Handle(c, events[0]), events[1..])
  }

  // --- What every event keeps ---

  /** Everything accepted from the current socket since its replay. */
  function Accepted(c: Tab): Bytes {
    Join(c.log.appended)
  }

  function PendingText(c: Tab): Bytes {
    (if c.screen.pendingReplay.Some? then c.screen.pendingReplay.value else []) + Join(c.screen.pendingOut)
  }

  /** All text the tab has for its terminal: written, or still waiting. */
  function Held(c: Tab): Bytes {
    Join(c.screen.terminal) + PendingText(c)
  }

  /** What the terminal shows, or will once the scheduled callback has run. Output that
      is waiting with nothing scheduled is not part of it. */
  function Display(c: Tab): Bytes {
    Join(c.screen.terminal)
    + if c.screen.pendingReplay.Some? then c.screen.pendingReplay.value + Join(c.screen.pendingOut) else []
  }

  /** Text that is waiting for a callback nobody has scheduled. */
  function LeftOver(c: Tab): Bytes {
    if c.screen.pendingReplay.Some? then [] else Join(c.screen.pendingOut)
  }

  /** Which combinations of the flags can occur. */
  ghost predicate Shaped(c: Tab) {
    && (c.screen.ready ==>
          c.screen.receivedReplay && c.net.conn == Live && c.screen.pendingReplay == None && c.screen.pendingOut == [])
    && (c.screen.receivedReplay ==>
          c.net.channel == Some(c.net.channelGen) && (c.net.conn == Live || c.net.conn == Closed))
    && (!c.screen.receivedReplay ==> c.screen.pendingReplay == None && c.screen.pendingOut == [])
    && (c.screen.receivedReplay && c.net.conn == Live && c.screen.pendingReplay == None ==> c.screen.ready)
    && (c.net.retryArmed ==> c.net.channel == None && !c.screen.receivedReplay && !c.net.disposed && c.net.conn != Closed)
    && (c.net.channel.Some? ==> c.net.channel.value == c.net.channelGen && !c.net.disposed)
    && (c.net.channel.Some? <==> c.net.channelGen in c.log.sockets)
    && (forall g :: g in c.log.sockets ==> g <= c.net.channelGen)
  }

  /** Scheduled text is written at most once, to the terminal it was meant for. */
  ghost predicate Scheduled(c: Tab) {
    && (forall g :: g in c.screen.callbacks ==> g <= c.screen.terminalGen)
    && (forall g :: g in c.log.applied ==> g <= c.screen.terminalGen)
    && (forall i, j :: 0 <= i < j < |c.log.applied| ==> c.log.applied[i] < c.log.applied[j])
    && (c.screen.pendingReplay.Some? ==>
          c.screen.terminalGen in c.screen.callbacks && c.screen.terminalGen !in c.log.applied)
  }

  /** Nothing is duplicated, reordered or invented: the text held is a suffix of what
      was accepted, and at least what the history can redraw. */
  ghost predicate Faithful(history: seq<Bytes>, appended: seq<Bytes>, held: Bytes) {
    IsSuffix(held, Join(appended)) && IsSuffix(Join(history), held)
  }

  ghost predicate Conserved(c: Tab) {
    && Retained(c.log.history, c.log.appended)
    && (c.screen.receivedReplay ==> Faithful(c.log.history, c.log.appended, Held(c)))
  }

  ghost predicate SentRight(c: Tab) {
    forall s :: s in c.log.sent ==> s.gen in c.log.sockets && IsSuffix(s.shown, s.accepted)
  }

  ghost predicate Controlled(c: Tab) {
    Shaped(c) && Scheduled(c) && SentRight(c)
  }

  ghost predicate ClientInv(c: Tab) {
    Controlled(c) && Conserved(c)
  }

  lemma {:induction false} EvictIsSuffix(chunks: seq<Bytes>)
    ensures IsSuffix(Evict(chunks), chunks)
    decreases |chunks|
  {
    if Size(chunks) > LIMIT_BYTES && |chunks| > 1 {
      EvictIsSuffix(chunks[1..]);
    }
  }

  lemma JoinAppended(chunks: seq<Bytes>, data: Bytes)
    ensures Join(if data == [] then chunks else chunks + [data]) == Join(chunks) + data
  {
    if data == [] {
      assert Join(chunks) + data == Join(chunks);
    } else {
      JoinSnoc(chunks, data);
    }
  }

  lemma AppendIsSuffix(history: seq<Bytes>, data: Bytes)
    ensures IsSuffix(Join(Append(history, data)), Join(history) + data)
  {
    if data == [] {
      assert Join(history) + data == Join(history);
    } else {
      EvictIsSuffix(history + [data]);
      SuffixJoins(Evict(history + [data]), history + [data]);
      JoinSnoc(history, data);
    }
  }

  /** New text goes to the end of what is held, the history and the accepted text alike. */
  lemma TextFollows(history: seq<Bytes>, appended: seq<Bytes>, held: Bytes, data: Bytes)
    requires Faithful(history, appended, held)
    ensures Faithful(Append(history, data), if data == [] then appended else appended + [data], held + data)
  {
    JoinAppended(appended, data);
    AppendIsSuffix(history, data);
    SuffixAppend(held, Join(appended), data);
    SuffixAppend(Join(history), held, data);
    SuffixTransitive(Join(Append(history, data)), Join(history) + data, held + data);
  }

  lemma WrittenAtOnce(c: Tab, data: Bytes)
    requires c.screen.pendingReplay == None && c.screen.pendingOut == []
    ensures Held(ShowNow(c, data)) == Held(c) + data
  {
    JoinSnoc(c.screen.terminal, data);
    assert PendingText(c) == [];
  }

  lemma WrittenLater(c: Tab, data: Bytes)
    ensures Held(HoldBack(c, data)) == Held(c) + data
  {
    JoinSnoc(c.screen.pendingOut, data);
    var replay := if c.screen.pendingReplay.Some? then c.screen.pendingReplay.value else [];
    ConcatAssociates(replay, Join(c.screen.pendingOut), data);
    ConcatAssociates(Join(c.screen.terminal), PendingText(c), data);
  }

  lemma FreshHeld(c: Tab, text: Bytes)
    requires c.screen.terminal == [] && c.screen.pendingOut == [] && c.screen.pendingReplay == Some(text)
    ensures Held(c) == text
  {
    assert text + [] == text;
    assert [] + text == text;
  }

  // The flags, generations and sent frames; the text is another matter.

  lemma SendControlled(c: Tab, f: ClientFrame)
    requires Controlled(c) && (c.net.channel.Some? ==> IsSuffix(Join(c.screen.terminal), Join(c.log.appended)))
    ensures Controlled(Send(c, f))
  {
  }

  lemma OnReplayControlled(c: Tab, data: Bytes)
    requires Controlled(c) && c.net.channel == Some(c.net.channelGen)
    ensures Controlled(OnReplay(c, data))
  {
  }

  lemma OnOutControlled(c: Tab, data: Bytes)
    requires Controlled(c)
    ensures Controlled(OnOut(c, data))
  {
  }

  lemma OnNoticeControlled(c: Tab, message: Bytes)
    requires Controlled(c) && c.net.channel == Some(c.net.channelGen)
    ensures Controlled(Closing(OnNotice(c, message)))
  {
  }

  lemma RedrawControlled(c: Tab, text: Bytes)
    requires Controlled(c) && c.screen.receivedReplay
    ensures Controlled(Redraw(c.(look := c.look.(lastSent := None)), text))
  {
  }

  lemma AppliedInOrder(applied: seq<nat>, gen: nat)
    requires forall i, j :: 0 <= i < j < |applied| ==> applied[i] < applied[j]
    requires forall g :: g in applied ==> g < gen
    ensures forall i, j :: 0 <= i < j < |applied + [gen]| ==> (applied + [gen])[i] < (applied + [gen])[j]
  {
    forall i, j | 0 <= i < j < |applied + [gen]|
      ensures (applied + [gen])[i] < (applied + [gen])[j]
    {
      assert applied[i] in applied;
    }
  }

  lemma WrittenControlled(c: Tab)
    requires Controlled(c) && c.screen.pendingReplay.Some?
    ensures c.net.conn == Closed ==> Controlled(Written(c, c.screen.terminalGen))
    ensures c.net.conn != Closed ==> Controlled(Readied(Written(c, c.screen.terminalGen)))
  {
    AppliedInOrder(c.log.applied, c.screen.terminalGen);
  }

  lemma DetachedControlled(c: Tab, conn: ConnectionState, retry: bool, disposed: bool)
    requires Controlled(c)
    requires retry ==> !disposed && conn != Closed
    ensures Controlled(Detached(c, conn, retry, disposed))
  {
  }

  lemma ConnectControlled(c: Tab)
    requires Controlled(c) && c.net.retryArmed
    ensures Controlled(Connect(c, true))
  {
  }

  // Every event keeps everything.

  lemma ReadyShowsAll(c: Tab)
    requires ClientInv(c) && c.screen.ready
    ensures Held(c) == Join(c.screen.terminal) && IsSuffix(Join(c.screen.terminal), Accepted(c))
  {
    assert PendingText(c) == [];
    assert Join(c.screen.terminal) + [] == Join(c.screen.terminal);
  }

  lemma SendKeeps(c: Tab, f: ClientFrame)
    requires ClientInv(c) && c.screen.ready
    ensures ClientInv(Send(c, f))
  {
    ReadyShowsAll(c);
    SendControlled(c, f);
    assert Held(Send(c, f)) == Held(c);
  }

  lemma SendResizeKeeps(c: Tab)
    requires ClientInv(c)
    ensures ClientInv(SendResize(c))
  {
    var size := RemoteSize(c.look);
    if c.screen.ready && c.look.lastSent != Some(size) {
      var c1 := c.(look := c.look.(lastSent := Some(size)));
      assert Held(c1) == Held(c);
      SendKeeps(c1, ResizeTo(size.0, size.1));
    }
  }

  lemma FirstChunk(data: Bytes)
    requires data != []
    ensures Append([], data) == [data] && Join([data]) == data
  {
    assert [] + [data] == [data];
    assert [data][..0] == [];
    assert [] + data == data;
  }

  lemma ReplayText(data: Bytes)
    ensures Append([], data) == Chunks(data) && Join(Chunks(data)) == data
    ensures Retained(Chunks(data), Chunks(data)) && Faithful(Chunks(data), Chunks(data), data)
  {
    if data != [] {
      FirstChunk(data);
    }
  }

  lemma OnReplayKeeps(c: Tab, data: Bytes)
    requires ClientInv(c) && c.net.channel == Some(c.net.channelGen)
    ensures ClientInv(OnReplay(c, data))
  {
    OnReplayControlled(c, data);
    ReplayText(data);
    FreshHeld(OnReplay(c, data), data);
  }

  /** Whichever way new text goes, it ends up at the end of what is held. */
  lemma ShownAppended(c: Tab, data: Bytes)
    requires c.screen.ready ==> c.screen.pendingReplay == None && c.screen.pendingOut == []
    ensures c.screen.ready ==> Held(ShowNow(AppendHistory(c, data), data)) == Held(c) + data
    ensures !c.screen.ready ==> Held(HoldBack(AppendHistory(c, data), data)) == Held(c) + data
  {
    var c1 := AppendHistory(c, data);
    assert Held(c1) == Held(c);
    if c.screen.ready {
      WrittenAtOnce(c1, data);
    } else {
      WrittenLater(c1, data);
    }
  }

  lemma OnNoticeConserves(c: Tab, message: Bytes)
    requires Shaped(c) && Conserved(c)
    ensures Conserved(OnNotice(c, message)) && Conserved(OnOut(c, message))
  {
    AppendRetains(c.log.history, c.log.appended, message);
    if c.screen.receivedReplay {
      TextFollows(c.log.history, c.log.appended, Held(c), message);
      ShownAppended(c, message);
    }
  }

  lemma OnOutKeeps(c: Tab, data: Bytes)
    requires ClientInv(c)
    ensures ClientInv(OnOut(c, data))
  {
    OnOutControlled(c, data);
    OnNoticeConserves(c, data);
  }

  lemma OnExitKeeps(c: Tab, code: int)
    requires ClientInv(c) && c.net.channel == Some(c.net.channelGen)
    ensures ClientInv(OnExit(c, code))
  {
    var message := ExitMessage(code);
    OnNoticeControlled(c, message);
    OnNoticeConserves(c, message);
    var c1 := OnNotice(c, message);
    assert Held(Closing(c1)) == Held(c1);
  }

  lemma RebuildKeeps(c: Tab)
    requires ClientInv(c)
    ensures ClientInv(Rebuild(c))
  {
    if c.screen.receivedReplay {
      RedrawControlled(c, Join(c.log.history));
      FreshHeld(Rebuild(c), Join(c.log.history));
      SuffixTransitive(Join(c.log.history), Held(c), Accepted(c));
    } else {
      SendResizeKeeps(c);
    }
  }

  /** Applying moves text from pending to written, and nothing else. */
  lemma ApplyShowsSame(c: Tab)
    requires c.screen.pendingReplay.Some?
    ensures Join(c.screen.terminal + [c.screen.pendingReplay.value] + c.screen.pendingOut) == Held(c)
    ensures Held(Written(c, c.screen.terminalGen)) == Held(c)
  {
    JoinConcat(c.screen.terminal + [c.screen.pendingReplay.value], c.screen.pendingOut);
    JoinSnoc(c.screen.terminal, c.screen.pendingReplay.value);
    ConcatAssociates(Join(c.screen.terminal), c.screen.pendingReplay.value, Join(c.screen.pendingOut));
    assert PendingText(Written(c, c.screen.terminalGen)) == [];
    assert Held(c) + [] == Held(c);
  }

  lemma WrittenKeeps(c: Tab)
    requires ClientInv(c) && c.screen.pendingReplay.Some?
    ensures c.net.conn == Closed ==> ClientInv(Written(c, c.screen.terminalGen))
    ensures c.net.conn != Closed ==> ClientInv(Readied(Written(c, c.screen.terminalGen)))
  {
    WrittenControlled(c);
    ApplyShowsSame(c);
    var c1 := Written(c, c.screen.terminalGen);
    assert Held(Readied(c1)) == Held(c1);
  }

  lemma SpentKeeps(c: Tab, gen: nat)
    requires ClientInv(c) && (gen != c.screen.terminalGen || c.screen.pendingReplay == None)
    ensures ClientInv(c.(screen := c.screen.(callbacks := c.screen.callbacks - {gen})))
  {
    assert Held(c.(screen := c.screen.(callbacks := c.screen.callbacks - {gen}))) == Held(c);
  }

  lemma CallbackKeeps(c: Tab, gen: nat)
    requires ClientInv(c) && gen in c.screen.callbacks
    ensures ClientInv(RunCallback(c, gen))
  {
    if gen != c.screen.terminalGen || c.screen.pendingReplay.None? {
      SpentKeeps(c, gen);
    } else {
      WrittenKeeps(c);
      if c.net.conn != Closed {
        SendResizeKeeps(Readied(Written(c, gen)));
      }
    }
  }

  lemma ScheduleReconnectKeeps(c: Tab)
    requires ClientInv(c)
    ensures ClientInv(ScheduleReconnect(c))
  {
    if !c.net.disposed && c.net.conn != Closed {
      DetachedControlled(c, Reconnecting, true, false);
    }
  }

  lemma ConnectKeeps(c: Tab, ok: bool)
    requires ClientInv(c) && c.net.retryArmed
    ensures ClientInv(Connect(c, ok))
  {
    if ok {
      ConnectControlled(c);
    } else {
      DetachedControlled(c, Reconnecting, true, false);
    }
  }

  lemma SettingKeeps(c: Tab, lineWrap: bool, fixedCols: int, view: (int, int))
    requires ClientInv(c)
    ensures ClientInv(c.(look := c.look.(lineWrap := lineWrap, fixedCols := fixedCols, view := view)))
  {
    assert Held(c.(look := c.look.(lineWrap := lineWrap, fixedCols := fixedCols, view := view))) == Held(c);
  }

  lemma ListenKeeps(c: Tab, gen: nat, f: Frame)
    requires ClientInv(c) && gen in c.log.sockets
    ensures ClientInv(Listen(c, gen, f))
  {
    if gen == c.net.channelGen && !c.net.disposed {
      match f {
        case Replay(data) => OnReplayKeeps(c, data);
        case Out(data) => OnOutKeeps(c, data);
        case Exit(code) => OnExitKeeps(c, code);
        case Pong =>
        case Error(_) =>
      }
    }
  }

  lemma LineWrapKeeps(c: Tab, lineWrap: bool)
    requires ClientInv(c)
    ensures ClientInv(SetLineWrap(c, lineWrap))
  {
    SettingKeeps(c, lineWrap, c.look.fixedCols, c.look.view);
    RebuildKeeps(c.(look := c.look.(lineWrap := lineWrap)));
  }

  lemma ColumnWidthKeeps(c: Tab, fixedCols: int)
    requires ClientInv(c)
    ensures ClientInv(SetColumnWidth(c, fixedCols))
  {
    var c1 := c.(look := c.look.(fixedCols := fixedCols));
    if c.look.fixedCols != fixedCols {
      SettingKeeps(c, c.look.lineWrap, fixedCols, c.look.view);
      assert ClientInv(c1);
      if c.look.lineWrap {
        SendResizeKeeps(c1);
      } else {
        RebuildKeeps(c1);
      }
    }
  }

  lemma WidgetResizeKeeps(c: Tab, cols: int, rows: int)
    requires ClientInv(c)
    ensures ClientInv(WidgetResize(c, cols, rows))
  {
    SettingKeeps(c, c.look.lineWrap, c.look.fixedCols, (cols, rows));
    SendResizeKeeps(c.(look := c.look.(view := (cols, rows))));
  }

  lemma TypingKeeps(c: Tab, data: Bytes)
    requires ClientInv(c)
    ensures ClientInv(SendInput(c, data)) && ClientInv(PingTick(c))
  {
    if c.screen.ready {
      SendKeeps(c, Input(data));
      SendKeeps(c, Ping);
    }
  }

  lemma DisposeKeeps(c: Tab)
    requires ClientInv(c)
    ensures ClientInv(DisposeChannel(c, true)) && ClientInv(Dispose(c))
  {
    DetachedControlled(c, Closed, false, c.net.disposed);
    DetachedControlled(c, c.net.conn, false, true);
  }

  lemma SocketDownKeeps(c: Tab, gen: nat)
    requires ClientInv(c)
    ensures ClientInv(SocketFails(c, gen)) && ClientInv(SocketCloses(c, gen))
  {
    ScheduleReconnectKeeps(c);
  }

  lemma SocketEventKeeps(c: Tab, e: Event)
    requires ClientInv(c)
    requires e.ConnectNow? || e.FrameArrives? || e.SocketError? || e.SocketDone? || e.Callback?
    ensures ClientInv(Handle(c, e))
  {
    if Possible(c, e) {
      match e {
        case ConnectNow(ok) => ConnectKeeps(c, ok);
        case FrameArrives(gen, f) => ListenKeeps(c, gen, f);
        case SocketError(gen) => SocketDownKeeps(c, gen);
        case SocketDone(gen) => SocketDownKeeps(c, gen);
        case Callback(gen) => CallbackKeeps(c, gen);
      }
    }
  }

  lemma UserEventKeeps(c: Tab, e: Event)
    requires ClientInv(c)
    requires !(e.ConnectNow? || e.FrameArrives? || e.SocketError? || e.SocketDone? || e.Callback?)
    ensures ClientInv(Handle(c, e))
  {
    match e {
      case LineWrapChanges(lineWrap) => LineWrapKeeps(c, lineWrap);
      case ColumnWidthChanges(fixedCols) => ColumnWidthKeeps(c, fixedCols);
      case WidgetResizes(cols, rows) => WidgetResizeKeeps(c, cols, rows);
      case UserTypes(data) => TypingKeeps(c, data);
      case PingTimer => TypingKeeps(c, []);
      case ChannelDisposed => DisposeKeeps(c);
      case TabDisposed => DisposeKeeps(c);
    }
  }

  lemma HandleKeeps(c: Tab, e: Event)
    requires ClientInv(c)
    ensures ClientInv(Handle(c, e))
  {
    if e.ConnectNow? || e.FrameArrives? || e.SocketError? || e.SocketDone? || e.Callback? {
      SocketEventKeeps(c, e);
    } else {
      UserEventKeeps(c, e);
    }
  }

  lemma InitialKeeps(lineWrap: bool, fixedCols: int, powerShell: bool, view: (int, int))
    ensures ClientInv(Initial(lineWrap, fixedCols, powerShell, view))
  {
  }

  lemma {:induction false} HandleAllKeeps(c: Tab, events: seq<Event>)
    requires ClientInv(c)
    ensures ClientInv(HandleAll(c, events))
    decreases |events|
  {
    if events != [] {
      HandleKeeps(c, events[0]);
      HandleAllKeeps(Handle(c, events[0]), events[1..]);
    }
  }
}
