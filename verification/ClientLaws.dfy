/** What the client guarantees after any events in any order. */
module ClientLaws {
  import opened Common
  import opened Session
  import opened RenderHistory
  import opened Client

  datatype Settings = Settings(lineWrap: bool, fixedCols: int, powerShell: bool, view: (int, int))

  function After(u: Settings, events: seq<Event>): Tab {
    HandleAll(Initial(u.lineWrap, u.fixedCols, u.powerShell, u.view), events)
  }

  lemma AfterInv(u: Settings, events: seq<Event>)
    ensures ClientInv(After(u, events))
  {
    InitialKeeps(u.lineWrap, u.fixedCols, u.powerShell, u.view);
    HandleAllKeeps(Initial(u.lineWrap, u.fixedCols, u.powerShell, u.view), events);
  }

  /** While a replay has been received: what is written or bound to be written is a
      suffix of what was accepted, has what the history can redraw as its own suffix,
      and is all of it as long as nothing has been evicted. */
  lemma DisplayIsConserved(u: Settings, events: seq<Event>)
    ensures var c := After(u, events);
            c.screen.receivedReplay ==>
              && IsSuffix(Held(c), Accepted(c))
              && IsSuffix(Join(c.log.history), Held(c))
              && (c.log.history == c.log.appended ==> Held(c) == Accepted(c))
  {
    AfterInv(u, events);
  }

  /** The history is the longest run of newest non-empty chunks within the limit, or
      the newest chunk alone, and no other run is. */
  lemma HistoryIsLongestThatFits(u: Settings, events: seq<Event>, other: seq<Bytes>)
    ensures var c := After(u, events);
            && Retained(c.log.history, c.log.appended)
            && (Retained(other, c.log.appended) ==> other == c.log.history)
            && (Size(c.log.appended) <= 4_194_304 ==> c.log.history == c.log.appended)
  {
    AfterInv(u, events);
    var c := After(u, events);
    if Retained(other, c.log.appended) {
      RetainedIsUnique(other, c.log.history, c.log.appended);
    }
    if Size(c.log.appended) <= LIMIT_BYTES && |c.log.history| < |c.log.appended| {
      LongerDoesNotFit(c.log.history, c.log.appended, |c.log.appended|);
    }
  }

  /** Ready means live, with the replay written and nothing waiting; live with nothing
      scheduled means ready. And no scheduled text is written twice, or to another
      terminal than the one it was scheduled for. */
  lemma FlagsMakeSense(u: Settings, events: seq<Event>)
    ensures var c := After(u, events);
            && (c.screen.ready ==> c.net.conn == Live && c.screen.receivedReplay && PendingText(c) == [])
            && (c.screen.receivedReplay && c.net.conn == Live && c.screen.pendingReplay == None ==> c.screen.ready)
            && (c.screen.pendingReplay.Some? ==> c.screen.terminalGen in c.screen.callbacks)
            && (forall i, j :: 0 <= i < j < |c.log.applied| ==> c.log.applied[i] < c.log.applied[j])
  {
    AfterInv(u, events);
  }

  lemma CallbackWrites(c: Tab, gen: nat)
    ensures var c1 := RunCallback(c, gen);
            c1.screen.terminal != c.screen.terminal ==>
              && gen == c.screen.terminalGen && c.screen.pendingReplay.Some? && c1.log.applied == c.log.applied + [gen]
              && c1.screen.terminal == c.screen.terminal + [c.screen.pendingReplay.value] + c.screen.pendingOut
    ensures RunCallback(c, gen).screen.callbacks == c.screen.callbacks - {gen}
  {
  }

  /** Nothing a scheduled callback does reaches a terminal it was not scheduled for,
      and what it writes is exactly the scheduled text and the output held back since. */
  lemma CallbackIsForItsTerminal(u: Settings, events: seq<Event>, gen: nat)
    ensures var c := After(u, events);
            var c1 := Handle(c, Callback(gen));
            c1.screen.terminal != c.screen.terminal ==>
              && gen == c.screen.terminalGen && gen !in c.log.applied
              && c1.screen.terminal == c.screen.terminal + [c.screen.pendingReplay.value] + c.screen.pendingOut
    ensures Handle(After(u, events), Callback(gen)).screen.callbacks == After(u, events).screen.callbacks - {gen}
  {
    AfterInv(u, events);
    CallbackWrites(After(u, events), gen);
  }

  // --- Sending ---

  ghost predicate SentAtMostOne(c: Tab, c1: Tab) {
    c1.log.sent != c.log.sent ==>
      && c1.screen.ready && c1.net.channel.Some?
      && |c1.log.sent| == |c.log.sent| + 1 && c.log.sent <= c1.log.sent
      && var s := c1.log.sent[|c.log.sent|];
         s.gen == c1.net.channel.value && s.shown == Join(c1.screen.terminal) && s.accepted == Accepted(c1)
  }

  lemma ResizeSends(c: Tab)
    ensures SentAtMostOne(c, SendResize(c))
  {
  }

  lemma RebuildSends(c: Tab)
    ensures SentAtMostOne(c, Rebuild(c))
  {
    ResizeSends(c);
  }

  lemma CallbackSends(c: Tab, gen: nat)
    ensures SentAtMostOne(c, RunCallback(c, gen))
  {
    if !(c.net.disposed || gen != c.screen.terminalGen || c.screen.pendingReplay.None? || c.net.conn == Closed) {
      ResizeSends(Readied(Written(c, gen)));
    }
  }

  lemma FramesSendNothing(c: Tab, gen: nat, f: Frame)
    ensures Listen(c, gen, f).log.sent == c.log.sent
  {
    if f.Exit? {
      ExitSendsNothing(c, f.code);
    }
  }

  lemma ExitSendsNothing(c: Tab, code: int)
    ensures OnExit(c, code).log.sent == c.log.sent && OnExit(c, code).net.channelGen == c.net.channelGen
    ensures OnExit(c, code).screen.terminalGen == c.screen.terminalGen
  {
  }

  lemma SettingSends(c: Tab, lineWrap: bool, fixedCols: int, cols: int, rows: int)
    ensures SentAtMostOne(c, SetLineWrap(c, lineWrap))
    ensures SentAtMostOne(c, SetColumnWidth(c, fixedCols))
    ensures SentAtMostOne(c, WidgetResize(c, cols, rows))
  {
    RebuildSends(c.(look := c.look.(lineWrap := lineWrap)));
    RebuildSends(c.(look := c.look.(fixedCols := fixedCols)));
    ResizeSends(c.(look := c.look.(fixedCols := fixedCols)));
    ResizeSends(c.(look := c.look.(view := (cols, rows))));
  }

  lemma HandleSends(c: Tab, e: Event)
    ensures SentAtMostOne(c, Handle(c, e))
  {
    match e {
      case FrameArrives(gen, f) => FramesSendNothing(c, gen, f);
      case Callback(gen) => CallbackSends(c, gen);
      case LineWrapChanges(lineWrap) => SettingSends(c, lineWrap, 0, 0, 0);
      case ColumnWidthChanges(fixedCols) => SettingSends(c, true, fixedCols, 0, 0);
      case WidgetResizes(cols, rows) => SettingSends(c, true, 0, cols, rows);
      case _ =>
    }
  }

  /** Input, resizes and pings go out only once the current socket's replay has been
      written: at that moment nothing is waiting, and the terminal shows the end of
      what the socket delivered, at least as far back as the history goes. */
  lemma NothingIsSentBeforeTheReplay(u: Settings, events: seq<Event>, e: Event)
    ensures var c := After(u, events);
            var c1 := Handle(c, e);
            c1.log.sent != c.log.sent ==>
              && c1.screen.receivedReplay && c1.net.conn == Live && PendingText(c1) == []
              && c1.net.channel == Some(c1.net.channelGen)
              && |c1.log.sent| == |c.log.sent| + 1 && c1.log.sent[|c.log.sent|].gen == c1.net.channelGen
              && IsSuffix(Join(c1.screen.terminal), Accepted(c1))
              && IsSuffix(Join(c1.log.history), Join(c1.screen.terminal))
  {
    AfterInv(u, events);
    var c := After(u, events);
    HandleKeeps(c, e);
    HandleSends(c, e);
    var c1 := Handle(c, e);
    if c1.screen.ready {
      ReadyShowsAll(c1);
    }
  }

  // --- The exit notice ---

  /** The number some digits stand for. */
  function Value(digits: Bytes): nat
    requires AllDigits(digits)
  {
    if digits == [] then 0 else 10 * Value(digits[..|digits| - 1]) + (digits[|digits| - 1] - 0x30)
  }

  predicate AllDigits(digits: Bytes) {
    forall i :: 0 <= i < |digits| ==> 0x30 <= digits[i] <= 0x39
  }

  lemma {:induction false} DigitsReadBack(n: nat)
    ensures AllDigits(Digits(n)) && Digits(n) != [] && Value(Digits(n)) == n
    ensures Digits(n)[0] == 0x30 ==> n == 0 && |Digits(n)| == 1
  {
    if n >= 10 {
      DigitsReadBack(n / 10);
      assert Digits(n)[..|Digits(n)| - 1] == Digits(n / 10);
    } else {
      assert Digits(n)[..0] == [];
    }
  }

  /** A line of its own that names the exit code in decimal, without leading zeros. */
  lemma ExitNoticeNamesTheCode(code: int) returns (sign: Bytes, digits: Bytes)
    ensures ExitMessage(code) == [0x0d, 0x0a, 0x5b, 0x70, 0x72, 0x6f, 0x63, 0x65, 0x73, 0x73, 0x20, 0x65, 0x78, 0x69,
                                  0x74, 0x65, 0x64, 0x20, 0x63, 0x6f, 0x64, 0x65, 0x3d] + (sign + digits) + [0x5d, 0x0d, 0x0a]
    ensures sign == if code < 0 then [0x2d] else []
    ensures digits != [] && AllDigits(digits) && Value(digits) == if code < 0 then -code else code
    ensures digits[0] == 0x30 ==> |digits| == 1
  {
    sign := if code < 0 then [0x2d] else [];
    digits := Digits(if code < 0 then -code else code);
    DigitsReadBack(if code < 0 then -code else code);
    assert [] + digits == digits;
  }

  // --- Coming back ---

  /** The tab has a socket, or a timer that will open one. */
  predicate Reachable(c: Tab) {
    !c.net.disposed && c.net.conn != Closed ==> c.net.channel.Some? || c.net.retryArmed
  }

  lemma HandleStaysReachable(c: Tab, e: Event)
    requires Reachable(c) && (c.net.channelGen in c.log.sockets ==> c.net.channel.Some?)
    ensures Reachable(Handle(c, e))
  {
    match e {
      case FrameArrives(gen, f) =>
        if f.Exit? {
          ExitSendsNothing(c, f.code);
        }
      case _ =>
    }
  }

  /** A tab that is neither closed nor disposed is never stranded: after any events it
      has a socket or a retry armed. */
  lemma {:induction false} NeverStranded(c: Tab, events: seq<Event>)
    requires ClientInv(c) && Reachable(c)
    ensures Reachable(HandleAll(c, events))
    decreases |events|
  {
    if events != [] {
      HandleStaysReachable(c, events[0]);
      HandleKeeps(c, events[0]);
      NeverStranded(Handle(c, events[0]), events[1..]);
    }
  }

  // --- Old sockets ---

  ghost predicate GenerationsGrow(c: Tab, c1: Tab) {
    c.net.channelGen <= c1.net.channelGen && c.screen.terminalGen <= c1.screen.terminalGen
  }

  lemma ResizeGrows(c: Tab)
    ensures GenerationsGrow(c, SendResize(c)) && GenerationsGrow(c, Rebuild(c))
  {
  }

  lemma SettingGrows(c: Tab, lineWrap: bool, fixedCols: int, cols: int, rows: int)
    ensures GenerationsGrow(c, SetLineWrap(c, lineWrap))
    ensures GenerationsGrow(c, SetColumnWidth(c, fixedCols))
    ensures GenerationsGrow(c, WidgetResize(c, cols, rows))
  {
    ResizeGrows(c.(look := c.look.(lineWrap := lineWrap)));
    ResizeGrows(c.(look := c.look.(fixedCols := fixedCols)));
    ResizeGrows(c.(look := c.look.(view := (cols, rows))));
  }

  lemma CallbackGrows(c: Tab, gen: nat)
    ensures GenerationsGrow(c, RunCallback(c, gen))
  {
  }

  lemma FrameGrows(c: Tab, gen: nat, f: Frame)
    ensures GenerationsGrow(c, Listen(c, gen, f))
  {
    if f.Exit? {
      ExitSendsNothing(c, f.code);
    }
  }

  lemma GenerationNeverDrops(c: Tab, e: Event)
    ensures GenerationsGrow(c, Handle(c, e))
  {
    match e {
      case FrameArrives(gen, f) => FrameGrows(c, gen, f);
      case Callback(gen) => CallbackGrows(c, gen);
      case LineWrapChanges(lineWrap) => SettingGrows(c, lineWrap, 0, 0, 0);
      case ColumnWidthChanges(fixedCols) => SettingGrows(c, true, fixedCols, 0, 0);
      case WidgetResizes(cols, rows) => SettingGrows(c, true, 0, cols, rows);
      case _ =>
    }
  }

  lemma {:induction false} GenerationsNeverReturn(c: Tab, events: seq<Event>)
    ensures c.net.channelGen <= HandleAll(c, events).net.channelGen
    ensures c.screen.terminalGen <= HandleAll(c, events).screen.terminalGen
    decreases |events|
  {
    if events != [] {
      GenerationNeverDrops(c, events[0]);
      GenerationsNeverReturn(Handle(c, events[0]), events[1..]);
    }
  }

  /** Once a socket has been superseded, nothing it delivers ever has an effect again. */
  lemma OldSocketsAreMute(c: Tab, gen: nat, events: seq<Event>, f: Frame)
    requires gen < c.net.channelGen
    ensures var c1 := HandleAll(c, events);
            && Handle(c1, FrameArrives(gen, f)) == c1
            && Handle(c1, SocketError(gen)) == c1
            && Handle(c1, SocketDone(gen)) == c1
  {
    GenerationsNeverReturn(c, events);
  }
}
