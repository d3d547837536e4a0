/** What the mobile client sends: everything typed on a ready tab and nothing else typed,
    a ping for every tick, and the size the terminal should have. */
module Sending {
  import opened Common
  import opened Session
  import opened Client
  import opened ClientLaws
  import opened ClientDisplay

  // --- One event ---

  /** The one frame `f` was sent on the current socket and nothing else changed. */
  ghost predicate SentOne(c: Tab, c1: Tab, f: ClientFrame) {
    && |c1.log.sent| == |c.log.sent| + 1 && c.log.sent <= c1.log.sent
    && c1.log.sent[|c.log.sent|].frame == f && c1.log.sent[|c.log.sent|].gen == c.net.channelGen
    && c1 == c.(log := c.log.(sent := c1.log.sent))
  }

  lemma SendSendsOne(c: Tab, f: ClientFrame)
    requires c.net.channel == Some(c.net.channelGen)
    ensures SentOne(c, Send(c, f), f)
  {
  }

  lemma ReadyHasSocket(c: Tab)
    requires Shaped(c) && c.screen.ready
    ensures c.net.channel == Some(c.net.channelGen)
  {
  }

  /** The ping timer runs whenever the tab is ready. */
  ghost predicate Ticking(c: Tab) {
    c.screen.ready ==> c.net.pingArmed
  }

  lemma FramesLeaveTicking(c: Tab, gen: nat, f: Frame)
    requires Ticking(c)
    ensures Ticking(Listen(c, gen, f))
  {
    if f.Exit? {
      assert !OnExit(c, f.code).screen.ready;
    }
  }

  lemma ResizeLeavesTicking(c: Tab)
    ensures SendResize(c).net == c.net && SendResize(c).screen == c.screen
  {
  }

  lemma StepLeavesTicking(c: Tab, e: Event)
    requires Ticking(c)
    ensures Ticking(Handle(c, e))
  {
    match e {
      case FrameArrives(gen, f) => FramesLeaveTicking(c, gen, f);
      case Callback(gen) =>
        if c.screen.pendingReplay.Some? {
          ResizeLeavesTicking(Readied(Written(c, gen)));
        }
      case LineWrapChanges(lineWrap) => ResizeLeavesTicking(c.(look := c.look.(lineWrap := lineWrap)));
      case ColumnWidthChanges(fixedCols) => ResizeLeavesTicking(c.(look := c.look.(fixedCols := fixedCols)));
      case WidgetResizes(cols, rows) => ResizeLeavesTicking(c.(look := c.look.(view := (cols, rows))));
      case _ =>
    }
  }

  lemma {:induction false} RunLeavesTicking(c: Tab, events: seq<Event>)
    requires Ticking(c)
    ensures Ticking(HandleAll(c, events))
    decreases |events|
  {
    if events != [] {
      StepLeavesTicking(c, events[0]);
      RunLeavesTicking(Handle(c, events[0]), events[1..]);
    }
  }

  /** On a ready tab what the user types is sent at once on the current socket, and a tick
      sends a ping; on any other tab neither does anything. */
  lemma TypingIsSent(u: Settings, events: seq<Event>, data: Bytes)
    ensures var c := After(u, events);
            if c.screen.ready then
              SentOne(c, Handle(c, UserTypes(data)), Input(data)) && SentOne(c, Handle(c, PingTimer), Ping)
            else Handle(c, UserTypes(data)) == c && Handle(c, PingTimer) == c
  {
    AfterInv(u, events);
    RunLeavesTicking(Begun(u), events);
    var c := After(u, events);
    if c.screen.ready {
      ReadyHasSocket(c);
      SendSendsOne(c, Input(data));
      SendSendsOne(c, Ping);
    }
  }

  // --- Whole runs ---

  /** The input among the frames sent on one socket, in order. */
  function InputOn(sent: seq<SentFrame>, gen: nat): Bytes {
    if sent == [] then []
    else
      var s := sent[|sent| - 1];
      InputOn(sent[..|sent| - 1], gen) + if s.gen == gen && s.frame.Input? then s.frame.data else []
  }

  function PingsOn(sent: seq<SentFrame>, gen: nat): nat {
    if sent == [] then 0
    else
      var s := sent[|sent| - 1];
      PingsOn(sent[..|sent| - 1], gen) + if s.gen == gen && s.frame.Ping? then 1 else 0
  }

  /** What the user types while the tab is ready on that socket. */
  function TypedOn(c: Tab, events: seq<Event>, gen: nat): Bytes
    decreases |events|
  {
    if events == [] then [] else TypedBy(c, events[0], gen) + TypedOn(Handle(c, events[0]), events[1..], gen)
  }

  function TypedBy(c: Tab, e: Event, gen: nat): Bytes {
    if e.UserTypes? && c.screen.ready && c.net.channelGen == gen then e.data else []
  }

  function TicksOn(c: Tab, events: seq<Event>, gen: nat): nat
    decreases |events|
  {
    if events == [] then 0 else TicksBy(c, events[0], gen) + TicksOn(Handle(c, events[0]), events[1..], gen)
  }

  function TicksBy(c: Tab, e: Event, gen: nat): nat {
    if e.PingTimer? && c.screen.ready && c.net.channelGen == gen then 1 else 0
  }

  /** Nothing was sent, or one size. */
  ghost predicate AtMostASize(sent: seq<SentFrame>, sent1: seq<SentFrame>) {
    sent1 != sent ==> |sent1| == |sent| + 1 && sent <= sent1 && sent1[|sent|].frame.ResizeTo?
  }

  lemma SizesAddNothing(sent: seq<SentFrame>, sent1: seq<SentFrame>, gen: nat)
    requires AtMostASize(sent, sent1)
    ensures InputOn(sent1, gen) == InputOn(sent, gen) && PingsOn(sent1, gen) == PingsOn(sent, gen)
  {
    if sent1 != sent {
      assert sent1[..|sent|] == sent;
      assert InputOn(sent, gen) + [] == InputOn(sent, gen);
    }
  }

  lemma ResizeSendsASize(c: Tab)
    ensures AtMostASize(c.log.sent, SendResize(c).log.sent) && AtMostASize(c.log.sent, Rebuild(c).log.sent)
  {
  }

  lemma OthersSendASize(c: Tab, e: Event)
    requires !e.UserTypes? && !e.PingTimer?
    ensures AtMostASize(c.log.sent, Handle(c, e).log.sent)
  {
    match e {
      case FrameArrives(gen, f) => FramesSendNothing(c, gen, f);
      case Callback(gen) =>
        if c.screen.pendingReplay.Some? {
          ResizeSendsASize(Readied(Written(c, gen)));
        }
      case LineWrapChanges(lineWrap) => ResizeSendsASize(c.(look := c.look.(lineWrap := lineWrap)));
      case ColumnWidthChanges(fixedCols) => ResizeSendsASize(c.(look := c.look.(fixedCols := fixedCols)));
      case WidgetResizes(cols, rows) => ResizeSendsASize(c.(look := c.look.(view := (cols, rows))));
      case _ =>
    }
  }

  lemma OneMoreSent(sent: seq<SentFrame>, sent1: seq<SentFrame>, gen: nat)
    requires |sent1| == |sent| + 1 && sent <= sent1
    ensures var s := sent1[|sent|];
            && InputOn(sent1, gen) == InputOn(sent, gen) + (if s.gen == gen && s.frame.Input? then s.frame.data else [])
            && PingsOn(sent1, gen) == PingsOn(sent, gen) + (if s.gen == gen && s.frame.Ping? then 1 else 0)
  {
    assert sent1[..|sent|] == sent;
  }

  lemma StepSends(c: Tab, e: Event, gen: nat)
    requires Shaped(c) && Ticking(c)
    ensures InputOn(Handle(c, e).log.sent, gen) == InputOn(c.log.sent, gen) + TypedBy(c, e, gen)
    ensures PingsOn(Handle(c, e).log.sent, gen) == PingsOn(c.log.sent, gen) + TicksBy(c, e, gen)
  {
    var sent := c.log.sent;
    assert InputOn(sent, gen) + [] == InputOn(sent, gen);
    if e.UserTypes? || e.PingTimer? {
      if c.screen.ready {
        ReadyHasSocket(c);
        SendSendsOne(c, if e.PingTimer? then Ping else Input(e.data));
        OneMoreSent(sent, Handle(c, e).log.sent, gen);
      }
    } else {
      OthersSendASize(c, e);
      SizesAddNothing(sent, Handle(c, e).log.sent, gen);
    }
  }

  lemma {:induction false} RunSends(c: Tab, events: seq<Event>, gen: nat)
    requires ClientInv(c) && Ticking(c)
    ensures InputOn(HandleAll(c, events).log.sent, gen) == InputOn(c.log.sent, gen) + TypedOn(c, events, gen)
    ensures PingsOn(HandleAll(c, events).log.sent, gen) == PingsOn(c.log.sent, gen) + TicksOn(c, events, gen)
    decreases |events|
  {
    if events == [] {
      assert InputOn(c.log.sent, gen) + [] == InputOn(c.log.sent, gen);
    } else {
      var e := events[0];
      StepSends(c, e, gen);
      HandleKeeps(c, e);
      StepLeavesTicking(c, e);
      RunSends(Handle(c, e), events[1..], gen);
      ConcatAssociates(InputOn(c.log.sent, gen), TypedBy(c, e, gen), TypedOn(Handle(c, e), events[1..], gen));
    }
  }

  /** In every run the input sent on a socket is what was typed while the tab was ready on
      it, in order and nothing else; and there is one ping for each tick in that time. */
  lemma InputSentIsWhatWasTyped(u: Settings, events: seq<Event>, gen: nat)
    ensures InputOn(After(u, events).log.sent, gen) == TypedOn(Begun(u), events, gen)
    ensures PingsOn(After(u, events).log.sent, gen) == TicksOn(Begun(u), events, gen)
  {
    InitialKeeps(u.lineWrap, u.fixedCols, u.powerShell, u.view);
    RunSends(Begun(u), events, gen);
    assert [] + TypedOn(Begun(u), events, gen) == TypedOn(Begun(u), events, gen);
  }

  // --- Sizes ---

  /** `cols` is `n`, or the end of 1 to 500 that is nearest to it. */
  predicate Nearest(cols: int, n: int) {
    1 <= cols <= 500 && (1 <= n <= 500 ==> cols == n) && (n < 1 ==> cols == 1) && (n > 500 ==> cols == 500)
  }

  /** The size the relay should be told: the fixed width without line wrap; the visible one
      with it, or for PowerShell the wider of the two; and the visible rows. */
  predicate Wanted(look: Look, size: (int, int)) {
    && size.1 == look.view.1
    && Nearest(size.0, if !look.lineWrap then look.fixedCols
                       else if look.powerShell && look.view.0 < look.fixedCols then look.fixedCols
                       else look.view.0)
  }

  lemma RemoteSizeIsWanted(look: Look, size: (int, int))
    ensures Wanted(look, size) <==> size == RemoteSize(look)
  {
  }

  /** The last size sent, on whichever socket. */
  function LastSize(sent: seq<SentFrame>): Option<(int, int)> {
    if sent == [] then None
    else
      var f := sent[|sent| - 1].frame;
      if f.ResizeTo? then Some((f.cols, f.rows)) else LastSize(sent[..|sent| - 1])
  }

  /** A ready tab has told the size it wants last; what it remembers as told, it has told. */
  ghost predicate Told(c: Tab) {
    && (c.screen.ready ==> c.look.lastSent == Some(RemoteSize(c.look)))
    && (c.look.lastSent.Some? ==> c.look.lastSent == LastSize(c.log.sent))
  }

  /** What holds of a tab whose settings have just changed. */
  ghost predicate ToldBefore(c: Tab) {
    c.look.lastSent.Some? ==> c.look.lastSent == LastSize(c.log.sent)
  }

  lemma ResizeTells(c: Tab)
    requires ToldBefore(c) && (c.screen.ready ==> c.net.channel.Some?)
    ensures Told(SendResize(c))
  {
    var size := RemoteSize(c.look);
    if c.screen.ready && c.look.lastSent != Some(size) {
      var sent := SendResize(c).log.sent;
      assert sent[..|sent| - 1] == c.log.sent;
    }
  }

  lemma RebuildTells(c: Tab)
    requires ToldBefore(c) && (c.screen.ready ==> c.net.channel.Some?)
    ensures Told(Rebuild(c))
  {
    ResizeTells(c);
  }

  lemma SendTells(c: Tab, f: ClientFrame)
    requires Told(c) && !f.ResizeTo?
    ensures Told(Send(c, f))
  {
    var sent := Send(c, f).log.sent;
    if sent != c.log.sent {
      assert sent[..|sent| - 1] == c.log.sent;
    }
  }

  lemma FramesTell(c: Tab, gen: nat, f: Frame)
    requires Told(c)
    ensures Told(Listen(c, gen, f))
  {
    if f.Exit? {
      ExitSendsNothing(c, f.code);
      assert OnExit(c, f.code).look == c.look && !OnExit(c, f.code).screen.ready;
    }
  }

  lemma CallbackTells(c: Tab, gen: nat)
    requires Shaped(c) && Told(c)
    ensures Told(RunCallback(c, gen))
  {
    if c.screen.pendingReplay.Some? {
      ResizeTells(Readied(Written(c, gen)));
    }
  }

  lemma StepTells(c: Tab, e: Event)
    requires Shaped(c) && Told(c)
    ensures Told(Handle(c, e))
  {
    match e {
      case FrameArrives(gen, f) => FramesTell(c, gen, f);
      case Callback(gen) => CallbackTells(c, gen);
      case LineWrapChanges(lineWrap) => RebuildTells(c.(look := c.look.(lineWrap := lineWrap)));
      case ColumnWidthChanges(fixedCols) =>
        RebuildTells(c.(look := c.look.(fixedCols := fixedCols)));
        ResizeTells(c.(look := c.look.(fixedCols := fixedCols)));
      case WidgetResizes(cols, rows) => ResizeTells(c.(look := c.look.(view := (cols, rows))));
      case UserTypes(data) => SendTells(c, Input(data));
      case PingTimer => SendTells(c, Ping);
      case _ =>
    }
  }

  lemma {:induction false} RunTells(c: Tab, events: seq<Event>)
    requires ClientInv(c) && Told(c)
    ensures Told(HandleAll(c, events))
    decreases |events|
  {
    if events != [] {
      StepTells(c, events[0]);
      HandleKeeps(c, events[0]);
      RunTells(Handle(c, events[0]), events[1..]);
    }
  }

  /** In every run the last size a ready tab has sent is the one it wants. */
  lemma ReadyHasToldItsSize(u: Settings, events: seq<Event>)
    requires After(u, events).screen.ready
    ensures LastSize(After(u, events).log.sent).Some?
    ensures Wanted(After(u, events).look, LastSize(After(u, events).log.sent).value)
  {
    InitialKeeps(u.lineWrap, u.fixedCols, u.powerShell, u.view);
    RunTells(Begun(u), events);
    RemoteSizeIsWanted(After(u, events).look, RemoteSize(After(u, events).look));
  }

  /** And a new widget size is sent if and only if it changes what is wanted. */
  lemma SizeIsSentIffItChanges(u: Settings, events: seq<Event>, cols: int, rows: int)
    requires After(u, events).screen.ready
    ensures var c := After(u, events);
            var c1 := Handle(c, WidgetResizes(cols, rows));
            && c1.look.view == (cols, rows)
            && (if forall size :: Wanted(c.look, size) <==> Wanted(c1.look, size) then c1.log.sent == c.log.sent
                else && |c1.log.sent| == |c.log.sent| + 1 && c1.log.sent[|c.log.sent|].gen == c.net.channelGen
                     && c1.log.sent[|c.log.sent|].frame.ResizeTo?
                     && Wanted(c1.look, (c1.log.sent[|c.log.sent|].frame.cols, c1.log.sent[|c.log.sent|].frame.rows)))
  {
    InitialKeeps(u.lineWrap, u.fixedCols, u.powerShell, u.view);
    AfterInv(u, events);
    RunTells(Begun(u), events);
    var c := After(u, events);
    ReadyHasSocket(c);
    var resized := c.(look := c.look.(view := (cols, rows)));
    RemoteSizeIsWanted(c.look, RemoteSize(c.look));
    RemoteSizeIsWanted(resized.look, RemoteSize(c.look));
    RemoteSizeIsWanted(resized.look, RemoteSize(resized.look));
    forall size
      ensures Wanted(c.look, size) <==> size == RemoteSize(c.look)
      ensures Wanted(resized.look, size) <==> size == RemoteSize(resized.look)
    {
      RemoteSizeIsWanted(c.look, size);
      RemoteSizeIsWanted(resized.look, size);
    }
  }
}
