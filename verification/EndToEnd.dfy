/** Relay and mobile client together, over sockets that lose nothing until they end:
    what the terminal shows, in every run. */
module EndToEnd {
  import opened Common
  import opened Session
  import Delivery
  import DeliveryLaws
  import opened Client
  import ClientDisplay
  import ClientLaws
  import RenderHistory
  import Wire

  /** One socket: the subscriber it feeds from, every frame written to it, how many of
      those the client has read, and how many of the client's requests the relay has. */
  datatype Link = Link(sub: SubId, written: seq<Frame>, read: nat, served: nat, reading: bool)

  datatype System = System(relay: Delivery.State, tab: Tab, links: map<nat, Link>)

  // A request is handled in one step here, whatever the session said when it was taken up
  // (`Wire` decides that): these are all the runs there are, and more.

  datatype Step =
    | Relay(a: Delivery.Action)            // anything the relay does that no socket sees
    | Attach(gen: nat, s: SubId, at: int)  // the relay accepts the socket and subscribes it
    | PumpWrite(gen: nat)                  // the writer takes one frame off the queue
    | Serve(gen: nat, check: Wire.Check, outcome: Wire.Outcome, now: int)  // the reader handles the next request
    | Arrive(gen: nat)
    | OnTab(e: Event)

  /** What the client has sent over one socket, in order. */
  function Requests(sent: seq<SentFrame>, gen: nat): seq<ClientFrame> {
    if sent == [] then []
    else
      var last := sent[|sent| - 1];
      Requests(sent[..|sent| - 1], gen) + (if last.gen == gen then [last.frame] else [])
  }

  predicate Linked(sys: System, s: SubId) {
    exists g :: g in sys.links && sys.links[g].sub == s
  }

  predicate CanStep(sys: System, step: Step) {
    match step
    case Relay(a) => a.Dequeue? ==> !Linked(sys, a.s)
    case Attach(gen, s, _) =>
      gen in sys.tab.log.sockets && gen !in sys.links && s !in sys.relay.core.members && !sys.relay.core.closed
    case PumpWrite(gen) =>
      gen in sys.links && sys.links[gen].sub in sys.relay.core.members &&
      sys.relay.core.members[sys.links[gen].sub].queue != []
    case Serve(gen, check, outcome, _) =>
      && gen in sys.links && sys.links[gen].reading && sys.links[gen].served < |Requests(sys.tab.log.sent, gen)|
      && Wire.CanEnd(Requests(sys.tab.log.sent, gen)[sys.links[gen].served], check, outcome)
    case Arrive(gen) => gen in sys.links && sys.links[gen].read < |sys.links[gen].written|
    case OnTab(e) => !e.FrameArrives?
  }

  function Write(l: Link, frames: seq<Frame>): Link {
    l.(written := l.written + frames)
  }

  function Advance(sys: System, step: Step): System {
    if !CanStep(sys, step) then sys
    else match step
      case Relay(a) => sys.(relay := Delivery.Next(sys.relay, a))
      case Attach(gen, s, at) =>
        sys.(relay := Delivery.Next(sys.relay, Delivery.Subscribe(s, at)),
             links := sys.links[gen := Link(s, [], 0, 0, true)])
      case PumpWrite(gen) =>
        var s := sys.links[gen].sub;
        sys.(relay := Delivery.Next(sys.relay, Delivery.Dequeue(s)),
             links := sys.links[gen := Write(sys.links[gen], [sys.relay.core.members[s].queue[0]])])
      case Serve(gen, _, outcome, now) =>
        var l := sys.links[gen];
        var f := Requests(sys.tab.log.sent, gen)[l.served];
        var served := l.(served := l.served + 1, reading := Wire.ReadsOn(f, outcome));
        sys.(relay := Wire.Effect(sys.relay, f, outcome, now),
             links := sys.links[gen := Write(served, Wire.Answer(f, outcome))])
      case Arrive(gen) =>
        var l := sys.links[gen];
        sys.(tab := Handle(sys.tab, FrameArrives(gen, l.written[l.read])),
             links := sys.links[gen := l.(read := l.read + 1)])
      case OnTab(e) => sys.(tab := Handle(sys.tab, e))
  }

  function AdvanceAll(sys: System, steps: seq<Step>): System
    decreases |steps|
  {
    if steps == [] then sys else AdvanceAll(Advance(sys, steps[0]), steps[1..])
  }

  // --- Frames as text ---

  function TextOf(f: Frame): Bytes {
    match f
    case Replay(data) => data
    case Out(data) => data
    case Exit(code) => ExitMessage(code)
    case Pong => []
    case Error(_) => []
  }

  function Text(frames: seq<Frame>): Bytes {
    if frames == [] then [] else Text(frames[..|frames| - 1]) + TextOf(frames[|frames| - 1])
  }

  predicate Control(f: Frame) {
    f.Pong? || f.Error?
  }

  /** The frames that came through the subscriber queue. */
  function Queued(frames: seq<Frame>): seq<Frame> {
    if frames == [] then []
    else
      var last := frames[|frames| - 1];
      Queued(frames[..|frames| - 1]) + (if Control(last) then [] else [last])
  }

  lemma TextSnoc(frames: seq<Frame>, f: Frame)
    ensures Text(frames + [f]) == Text(frames) + TextOf(f)
  {
    assert (frames + [f])[..|frames|] == frames;
  }

  lemma QueuedSnoc(frames: seq<Frame>, f: Frame)
    ensures Queued(frames + [f]) == Queued(frames) + (if Control(f) then [] else [f])
  {
    assert (frames + [f])[..|frames|] == frames;
  }

  lemma {:induction false} QueuedPrefix(frames: seq<Frame>, n: nat)
    requires n <= |frames|
    ensures Queued(frames[..n]) <= Queued(frames)
  {
    if n < |frames| {
      var init := frames[..|frames| - 1];
      QueuedPrefix(init, n);
      assert init[..n] == frames[..n];
    } else {
      assert frames[..n] == frames;
    }
  }

  lemma {:induction false} TextPrefix(frames: seq<Frame>, n: nat)
    requires n <= |frames|
    ensures Text(frames[..n]) <= Text(frames)
  {
    if n < |frames| {
      var init := frames[..|frames| - 1];
      TextPrefix(init, n);
      assert init[..n] == frames[..n];
    } else {
      assert frames[..n] == frames;
    }
  }

  // --- The invariant ---

  /** The frames a client has been handed from a link, without the direct answers. */
  function Received(l: Link): seq<Frame>
    requires l.read <= |l.written|
  {
    Queued(l.written[..l.read])
  }

  /** What has been written to a socket is what its subscriber's queue gave up. */
  ghost predicate LinkOk(l: Link, past: map<SubId, Delivery.Past>) {
    && l.sub in past
    && l.read <= |l.written|
    && Queued(l.written) == past[l.sub].dequeued
  }

  ghost predicate LinksOk(links: map<nat, Link>, past: map<SubId, Delivery.Past>) {
    && (forall g :: g in links ==> LinkOk(links[g], past))
    && (forall g, h :: g in links && h in links && g != h ==> links[g].sub != links[h].sub)
  }

  /** What the tab believes about its current socket is what that socket delivered. */
  ghost predicate InStep(tab: Tab, links: map<nat, Link>) {
    if tab.net.channelGen in links && links[tab.net.channelGen].read <= |links[tab.net.channelGen].written| then
      Agrees(tab, Received(links[tab.net.channelGen]))
    else !tab.screen.receivedReplay
  }

  ghost predicate Agrees(tab: Tab, got: seq<Frame>) {
    && (tab.screen.receivedReplay <==> got != [])
    && (got != [] ==> Accepted(tab) == Text(got))
    && (got != [] && tab.net.conn == Live ==> Delivery.Exits(got) == 0)
  }

  ghost predicate Wired(sys: System) {
    && LinksOk(sys.links, sys.relay.past)
    && sys.links.Keys <= sys.tab.log.sockets
    && InStep(sys.tab, sys.links)
  }

  ghost predicate SystemInv(sys: System) {
    Delivery.Inv(sys.relay) && ClientInv(sys.tab) && Wired(sys)
  }

  // --- Steps of the relay ---

  /** No step but a dequeue touches what has been dequeued, and nobody disappears. */
  lemma RelayLeavesDequeued(st: Delivery.State, a: Delivery.Action, s: SubId)
    requires Delivery.Known(st, s)
    requires a.Dequeue? ==> a.s != s
    ensures var st1 := Delivery.Next(st, a);
            Delivery.Known(st1, s) && st1.past[s].dequeued == st.past[s].dequeued
  {
  }

  lemma RelayWired(sys: System, a: Delivery.Action)
    requires Wired(sys) && (a.Dequeue? ==> !Linked(sys, a.s))
    requires sys.relay.core.members.Keys == sys.relay.past.Keys
    ensures Wired(sys.(relay := Delivery.Next(sys.relay, a)))
  {
    forall g | g in sys.links
      ensures LinkOk(sys.links[g], Delivery.Next(sys.relay, a).past)
    {
      assert LinkOk(sys.links[g], sys.relay.past);
      RelayLeavesDequeued(sys.relay, a, sys.links[g].sub);
    }
  }

  lemma SubscribesNew(st: Delivery.State, s: SubId, at: int)
    requires s !in st.core.members && !st.core.closed
    ensures var st1 := Delivery.Next(st, Delivery.Subscribe(s, at));
            s in st1.past && st1.past[s].dequeued == []
  {
  }

  lemma AttachWired(sys: System, gen: nat, s: SubId, at: int)
    requires Wired(sys) && CanStep(sys, Attach(gen, s, at))
    requires sys.relay.core.members.Keys == sys.relay.past.Keys
    ensures Wired(Advance(sys, Attach(gen, s, at)))
  {
    var next := Advance(sys, Attach(gen, s, at));
    SubscribesNew(sys.relay, s, at);
    forall g | g in next.links
      ensures LinkOk(next.links[g], next.relay.past)
    {
      if g != gen {
        assert LinkOk(sys.links[g], sys.relay.past);
        RelayLeavesDequeued(sys.relay, Delivery.Subscribe(s, at), sys.links[g].sub);
      }
    }
  }

  lemma DequeueTakes(st: Delivery.State, s: SubId)
    requires Delivery.Known(st, s) && st.core.members[s].queue != []
    ensures var st1 := Delivery.Next(st, Delivery.Dequeue(s));
            st1.past == st.past[s := st.past[s].(dequeued := st.past[s].dequeued + [st.core.members[s].queue[0]])]
  {
  }

  /** The queue never holds a direct answer. */
  lemma QueueHoldsNoControl(m: Member, p: Delivery.Past, chunks: seq<Delivery.Chunk>, cap: nat)
    requires Delivery.Served(m, p, chunks, cap) && m.queue != []
    ensures !Control(m.queue[0])
  {
    assert p.enqueued[|p.dequeued|] == m.queue[0];
  }

  /** More has been written, or served, but nothing more read. */
  lemma WrittenNotRead(tab: Tab, links: map<nat, Link>, gen: nat, l: Link, frames: seq<Frame>)
    requires InStep(tab, links) && gen in links && links[gen].read <= |links[gen].written|
    requires l == links[gen].(written := links[gen].written + frames, served := l.served, reading := l.reading)
    ensures InStep(tab, links[gen := l])
  {
    var was := links[gen];
    assert (was.written + frames)[..was.read] == was.written[..was.read];
  }

  lemma PumpWriteWired(sys: System, gen: nat)
    requires Wired(sys) && CanStep(sys, PumpWrite(gen))
    requires Delivery.MemberOk(sys.relay, sys.links[gen].sub)
    ensures Wired(Advance(sys, PumpWrite(gen)))
  {
    var l := sys.links[gen];
    assert LinkOk(l, sys.relay.past);
    var m := sys.relay.core.members[l.sub];
    DequeueTakes(sys.relay, l.sub);
    QueueHoldsNoControl(m, sys.relay.past[l.sub], sys.relay.chunks, sys.relay.core.cap);
    QueuedSnoc(l.written, m.queue[0]);
    WrittenNotRead(sys.tab, sys.links, gen, Write(l, [m.queue[0]]), [m.queue[0]]);
    var next := Advance(sys, PumpWrite(gen));
    forall g | g in next.links
      ensures LinkOk(next.links[g], next.relay.past)
    {
      assert LinkOk(sys.links[g], sys.relay.past);
    }
  }

  lemma AnswersAreControl(frames: seq<Frame>, f: ClientFrame, outcome: Wire.Outcome)
    ensures Queued(frames + Wire.Answer(f, outcome)) == Queued(frames)
  {
    var answer := Wire.Answer(f, outcome);
    if answer == [] {
      assert frames + answer == frames;
    } else {
      QueuedSnoc(frames, answer[0]);
      assert Queued(frames) + [] == Queued(frames);
    }
  }

  /** One link is replaced by another of the same subscriber. */
  lemma LinkReplaced(links: map<nat, Link>, past: map<SubId, Delivery.Past>, gen: nat, l: Link)
    requires LinksOk(links, past) && gen in links && LinkOk(l, past) && l.sub == links[gen].sub
    ensures LinksOk(links[gen := l], past)
  {
    forall g | g in links
      ensures LinkOk(links[gen := l][g], past)
    {
      assert LinkOk(links[g], past);
    }
  }

  lemma ServedLink(l: Link, past: map<SubId, Delivery.Past>, f: ClientFrame, outcome: Wire.Outcome)
    requires LinkOk(l, past)
    ensures LinkOk(Write(l.(served := l.served + 1, reading := Wire.ReadsOn(f, outcome)), Wire.Answer(f, outcome)), past)
  {
    AnswersAreControl(l.written, f, outcome);
  }

  lemma ServeWired(sys: System, gen: nat, check: Wire.Check, outcome: Wire.Outcome, now: int)
    requires Wired(sys) && CanStep(sys, Serve(gen, check, outcome, now))
    ensures Wired(Advance(sys, Serve(gen, check, outcome, now)))
  {
    var l := sys.links[gen];
    var f := Requests(sys.tab.log.sent, gen)[l.served];
    var answered := Write(l.(served := l.served + 1, reading := Wire.ReadsOn(f, outcome)), Wire.Answer(f, outcome));
    assert LinkOk(l, sys.relay.past);
    Wire.EffectTouchesNobody(sys.relay, f, outcome, now);
    ServedLink(l, sys.relay.past, f, outcome);
    LinkReplaced(sys.links, sys.relay.past, gen, answered);
    WrittenNotRead(sys.tab, sys.links, gen, answered, Wire.Answer(f, outcome));
  }

  // --- Steps of the client ---

  /** Either nothing about the current socket changes, or there is a new generation. */
  ghost predicate SameOrNewSocket(c: Tab, c1: Tab) {
    && c.log.sockets <= c1.log.sockets
    && ((&& c1.net.channelGen == c.net.channelGen
         && c1.screen.receivedReplay == c.screen.receivedReplay
         && c1.log.appended == c.log.appended
         && (c.screen.receivedReplay && c1.net.conn == Live ==> c.net.conn == Live))
        || (c1.net.channelGen == c.net.channelGen + 1 && !c1.screen.receivedReplay))
  }

  lemma SendResizeKeepsSocket(c: Tab)
    ensures SameOrNewSocket(c, SendResize(c))
  {
  }

  lemma RebuildKeepsSocket(c: Tab)
    ensures SameOrNewSocket(c, Rebuild(c)) && SameOrNewSocket(c, SendResize(c))
  {
    SendResizeKeepsSocket(c);
  }

  lemma ConnectKeepsSocket(c: Tab, ok: bool)
    ensures SameOrNewSocket(c, Connect(c, ok)) && SameOrNewSocket(c, ScheduleReconnect(c))
  {
  }

  lemma CallbackKeepsSocket(c: Tab, gen: nat)
    ensures SameOrNewSocket(c, RunCallback(c, gen))
  {
  }

  lemma LineWrapKeepsSocket(c: Tab, lineWrap: bool)
    ensures SameOrNewSocket(c, SetLineWrap(c, lineWrap))
  {
    RebuildKeepsSocket(c.(look := c.look.(lineWrap := lineWrap)));
  }

  lemma ColumnWidthKeepsSocket(c: Tab, fixedCols: int)
    ensures SameOrNewSocket(c, SetColumnWidth(c, fixedCols))
  {
    RebuildKeepsSocket(c.(look := c.look.(fixedCols := fixedCols)));
  }

  lemma WidgetKeepsSocket(c: Tab, cols: int, rows: int)
    ensures SameOrNewSocket(c, WidgetResize(c, cols, rows))
  {
    RebuildKeepsSocket(c.(look := c.look.(view := (cols, rows))));
  }

  lemma DisposeKeepsSocket(c: Tab)
    ensures SameOrNewSocket(c, DisposeChannel(c, true)) && SameOrNewSocket(c, Dispose(c))
  {
  }

  lemma SendKeepsSocket(c: Tab, data: Bytes)
    ensures SameOrNewSocket(c, SendInput(c, data)) && SameOrNewSocket(c, PingTick(c))
  {
  }

  lemma FailureKeepsSocket(c: Tab, gen: nat)
    ensures SameOrNewSocket(c, SocketFails(c, gen)) && SameOrNewSocket(c, SocketCloses(c, gen))
  {
    ConnectKeepsSocket(c, true);
  }

  lemma TabKeepsSocket(c: Tab, e: Event)
    requires !e.FrameArrives?
    ensures SameOrNewSocket(c, Handle(c, e))
  {
    match e {
      case ConnectNow(ok) => ConnectKeepsSocket(c, ok);
      case SocketError(gen) => FailureKeepsSocket(c, gen);
      case SocketDone(gen) => FailureKeepsSocket(c, gen);
      case Callback(gen) => CallbackKeepsSocket(c, gen);
      case LineWrapChanges(lineWrap) => LineWrapKeepsSocket(c, lineWrap);
      case ColumnWidthChanges(fixedCols) => ColumnWidthKeepsSocket(c, fixedCols);
      case WidgetResizes(cols, rows) => WidgetKeepsSocket(c, cols, rows);
      case UserTypes(data) => SendKeepsSocket(c, data);
      case PingTimer => SendKeepsSocket(c, []);
      case ChannelDisposed => DisposeKeepsSocket(c);
      case TabDisposed => DisposeKeepsSocket(c);
    }
  }

  lemma TabWired(sys: System, c1: Tab)
    requires Wired(sys) && SameOrNewSocket(sys.tab, c1)
    requires forall g :: g in sys.tab.log.sockets ==> g <= sys.tab.net.channelGen
    ensures Wired(sys.(tab := c1))
  {
  }

  /** The text accepted grows by exactly the text of the frame; a replay starts it over. */
  lemma OnMessageAccepts(c: Tab, f: Frame)
    requires !c.net.disposed
    ensures var c1 := OnMessage(c, f);
            && c1.net.channelGen == c.net.channelGen && c1.log.sockets == c.log.sockets
            && (Control(f) ==> c1 == c)
            && (f.Exit? ==> c1.net.conn == Closed) && (f.Out? ==> c1.net.conn == c.net.conn)
            && (f.Replay? ==> c1.screen.receivedReplay && Accepted(c1) == TextOf(f))
            && (c.screen.receivedReplay && (f.Out? || f.Exit?) ==>
                  c1.screen.receivedReplay && Accepted(c1) == Accepted(c) + TextOf(f))
  {
    match f {
      case Replay(data) => ReplayText(data);
      case Out(data) => OnOutAccepts(c, data);
      case Exit(code) => OnExitAccepts(c, code);
      case Pong =>
      case Error(_) =>
    }
  }

  lemma OnOutAccepts(c: Tab, data: Bytes)
    ensures var c1 := OnOut(c, data);
            && c1.net.channelGen == c.net.channelGen && c1.log.sockets == c.log.sockets
            && c1.screen.receivedReplay == c.screen.receivedReplay && c1.net.conn == c.net.conn
            && (c.screen.receivedReplay ==> Accepted(c1) == Accepted(c) + data)
  {
    AppendAccepts(c, data);
    var c1 := OnOut(c, data);
    assert c.screen.receivedReplay ==> c1.log.appended == AppendHistory(c, data).log.appended;
  }

  lemma AppendAccepts(c: Tab, data: Bytes)
    ensures Accepted(AppendHistory(c, data)) == Accepted(c) + data
  {
    JoinAppended(c.log.appended, data);
  }

  lemma OnExitAccepts(c: Tab, code: int)
    ensures var c1 := OnExit(c, code);
            && c1.net.channelGen == c.net.channelGen && c1.log.sockets == c.log.sockets
            && c1.screen.receivedReplay == c.screen.receivedReplay
            && Accepted(c1) == Accepted(c) + ExitMessage(code)
  {
    AppendAccepts(c, ExitMessage(code));
    assert OnExit(c, code).log.appended == AppendHistory(c, ExitMessage(code)).log.appended;
  }

  /** Reading one more frame of a link. */
  lemma ReadingOne(l: Link, past: map<SubId, Delivery.Past>)
    requires LinkOk(l, past) && l.read < |l.written|
    ensures var f := l.written[l.read];
            && Received(l.(read := l.read + 1)) == Received(l) + (if Control(f) then [] else [f])
            && (!Control(f) ==> |Received(l)| < |past[l.sub].dequeued| && past[l.sub].dequeued[|Received(l)|] == f)
  {
    var f := l.written[l.read];
    assert l.written[..l.read + 1] == l.written[..l.read] + [f];
    QueuedSnoc(l.written[..l.read], f);
    if !Control(f) {
      QueuedPrefix(l.written, l.read + 1);
      assert (Queued(l.written[..l.read]) + [f])[|Received(l)|] == f;
    }
  }

  lemma OnlyFirstIsReplay(m: Member, p: Delivery.Past, chunks: seq<Delivery.Chunk>, cap: nat, i: nat)
    requires Delivery.Served(m, p, chunks, cap) && i < |p.dequeued|
    ensures p.dequeued[i].Replay? <==> i == 0
  {
    assert p.enqueued[i] == p.dequeued[i];
  }

  lemma AgreesAfter(tab: Tab, got: seq<Frame>, f: Frame)
    requires Agrees(tab, got) && !tab.net.disposed
    requires !Control(f) ==> (f.Replay? <==> got == [])
    ensures Agrees(OnMessage(tab, f), got + (if Control(f) then [] else [f]))
  {
    OnMessageAccepts(tab, f);
    if Control(f) {
      assert got + [] == got;
    } else {
      TextSnoc(got, f);
      Delivery.LiveSnoc(got, f);
      if got == [] {
        assert Text(got) == [] && [] + TextOf(f) == TextOf(f);
      }
    }
  }

  lemma LinkRead(links: map<nat, Link>, past: map<SubId, Delivery.Past>, gen: nat)
    requires LinksOk(links, past) && gen in links && links[gen].read < |links[gen].written|
    ensures LinksOk(links[gen := links[gen].(read := links[gen].read + 1)], past)
  {
    assert LinkOk(links[gen], past);
    LinkReplaced(links, past, gen, links[gen].(read := links[gen].read + 1));
  }

  lemma StaleWired(sys: System, gen: nat)
    requires Wired(sys) && CanStep(sys, Arrive(gen)) && gen != sys.tab.net.channelGen
    ensures Wired(Advance(sys, Arrive(gen)))
  {
    LinkRead(sys.links, sys.relay.past, gen);
  }

  lemma CurrentSocketHears(tab: Tab, f: Frame)
    requires Shaped(tab) && tab.net.channelGen in tab.log.sockets
    ensures !tab.net.disposed && Handle(tab, FrameArrives(tab.net.channelGen, f)) == OnMessage(tab, f)
  {
  }

  lemma SocketsStay(c: Tab, f: Frame)
    ensures OnMessage(c, f).log.sockets == c.log.sockets
    ensures OnMessage(c, f).net.channelGen == c.net.channelGen
  {
    if f.Exit? {
      OnExitAccepts(c, f.code);
    }
  }

  lemma CurrentWired(sys: System, gen: nat, f: Frame)
    requires Wired(sys) && CanStep(sys, Arrive(gen)) && gen == sys.tab.net.channelGen
    requires f == sys.links[gen].written[sys.links[gen].read]
    requires Handle(sys.tab, FrameArrives(gen, f)) == OnMessage(sys.tab, f)
    requires Agrees(OnMessage(sys.tab, f), Received(sys.links[gen].(read := sys.links[gen].read + 1)))
    ensures Wired(Advance(sys, Arrive(gen)))
  {
    LinkRead(sys.links, sys.relay.past, gen);
    SocketsStay(sys.tab, f);
  }

  /** The next frame of the current socket keeps what the tab believes about it right. */
  lemma ArriveAgrees(tab: Tab, l: Link, past: map<SubId, Delivery.Past>, m: Member, chunks: seq<Delivery.Chunk>, cap: nat)
    requires LinkOk(l, past) && l.read < |l.written| && Delivery.Served(m, past[l.sub], chunks, cap)
    requires Agrees(tab, Received(l)) && !tab.net.disposed
    ensures Agrees(OnMessage(tab, l.written[l.read]), Received(l.(read := l.read + 1)))
  {
    var f := l.written[l.read];
    ReadingOne(l, past);
    if !Control(f) {
      OnlyFirstIsReplay(m, past[l.sub], chunks, cap, |Received(l)|);
    }
    AgreesAfter(tab, Received(l), f);
  }

  lemma ArriveWired(sys: System, gen: nat)
    requires Wired(sys) && Shaped(sys.tab) && CanStep(sys, Arrive(gen))
    requires Delivery.Known(sys.relay, sys.links[gen].sub) && Delivery.MemberOk(sys.relay, sys.links[gen].sub)
    ensures Wired(Advance(sys, Arrive(gen)))
  {
    if gen != sys.tab.net.channelGen {
      StaleWired(sys, gen);
    } else {
      var l := sys.links[gen];
      assert LinkOk(l, sys.relay.past);
      CurrentSocketHears(sys.tab, l.written[l.read]);
      ArriveAgrees(sys.tab, l, sys.relay.past, sys.relay.core.members[l.sub], sys.relay.chunks, sys.relay.core.cap);
      CurrentWired(sys, gen, l.written[l.read]);
    }
  }

  lemma StepKeepsWired(sys: System, step: Step)
    requires SystemInv(sys)
    ensures Wired(Advance(sys, step))
  {
    if CanStep(sys, step) {
      match step {
        case Relay(a) => RelayWired(sys, a);
        case Attach(gen, s, at) => AttachWired(sys, gen, s, at);
        case PumpWrite(gen) => PumpWriteWired(sys, gen);
        case Serve(gen, check, outcome, now) => ServeWired(sys, gen, check, outcome, now);
        case Arrive(gen) =>
          assert LinkOk(sys.links[gen], sys.relay.past);
          ArriveWired(sys, gen);
        case OnTab(e) =>
          TabKeepsSocket(sys.tab, e);
          TabWired(sys, Handle(sys.tab, e));
      }
    }
  }

  /** Every step is at most one step of each side. */
  lemma StepKeepsSides(sys: System, step: Step)
    requires Delivery.Inv(sys.relay) && ClientInv(sys.tab)
    ensures Delivery.Inv(Advance(sys, step).relay) && ClientInv(Advance(sys, step).tab)
  {
    if CanStep(sys, step) {
      match step {
        case Relay(a) => Delivery.StepKeepsInv(sys.relay, a);
        case Attach(gen, s, at) => Delivery.StepKeepsInv(sys.relay, Delivery.Subscribe(s, at));
        case PumpWrite(gen) => Delivery.StepKeepsInv(sys.relay, Delivery.Dequeue(sys.links[gen].sub));
        case Serve(gen, _, outcome, now) =>
          Wire.EffectKeeps(sys.relay, Requests(sys.tab.log.sent, gen)[sys.links[gen].served], outcome, now);
        case Arrive(gen) => HandleKeeps(sys.tab, FrameArrives(gen, sys.links[gen].written[sys.links[gen].read]));
        case OnTab(e) => HandleKeeps(sys.tab, e);
      }
    }
  }

  lemma {:induction false} AllStepsKeep(sys: System, steps: seq<Step>)
    requires SystemInv(sys)
    ensures SystemInv(AdvanceAll(sys, steps))
    decreases |steps|
  {
    if steps != [] {
      StepKeepsSides(sys, steps[0]);
      StepKeepsWired(sys, steps[0]);
      AllStepsKeep(Advance(sys, steps[0]), steps[1..]);
    }
  }

  // --- The theorems ---

  datatype Setup = Setup(session: DeliveryLaws.Beginning, tab: ClientLaws.Settings)

  function Start(u: Setup): System {
    System(DeliveryLaws.Begun(u.session), ClientDisplay.Begun(u.tab), map[])
  }

  function Reached(u: Setup, steps: seq<Step>): System {
    AdvanceAll(Start(u), steps)
  }

  lemma ReachedInv(u: Setup, steps: seq<Step>)
    ensures SystemInv(Reached(u, steps))
  {
    Delivery.InitialInv(u.session.capacity, u.session.cols, u.session.rows, u.session.now);
    InitialKeeps(u.tab.lineWrap, u.tab.fixedCols, u.tab.powerShell, u.tab.view);
    AllStepsKeep(Start(u), steps);
  }

  ghost predicate SliceAt(s: Bytes, whole: Bytes, at: nat) {
    at + |s| <= |whole| && whole[at..at + |s|] == s
  }

  lemma PrefixOfSuffix(shown: Bytes, pending: Bytes, accepted: Bytes, whole: Bytes)
    requires IsSuffix(shown + pending, accepted) && accepted <= whole
    ensures SliceAt(shown, whole, |accepted| - |shown + pending|)
  {
    var at := |accepted| - |shown + pending|;
    assert accepted[at..][..|shown|] == shown;
    assert whole[at..at + |shown|] == accepted[at..at + |shown|];
  }

  lemma AcceptedIsPrefix(l: Link, p: Delivery.Past)
    requires l.read <= |l.written| && Queued(l.written) == p.dequeued && p.dequeued <= p.enqueued
    ensures Text(Received(l)) <= Text(p.enqueued)
  {
    QueuedPrefix(l.written, l.read);
    var n := |Received(l)|;
    assert p.enqueued[..n] == Received(l);
    TextPrefix(p.enqueued, n);
  }

  lemma CurrentLink(sys: System)
    requires SystemInv(sys) && sys.tab.screen.receivedReplay
    ensures sys.tab.net.channelGen in sys.links
    ensures var l := sys.links[sys.tab.net.channelGen];
            && LinkOk(l, sys.relay.past)
            && Delivery.Known(sys.relay, l.sub)
            && Delivery.MemberOk(sys.relay, l.sub)
            && Agrees(sys.tab, Received(l))
  {
    var l := sys.links[sys.tab.net.channelGen];
    assert LinkOk(l, sys.relay.past);
  }

  /** The terminal shows one contiguous slice of what a subscriber was sent; and that
      is one replay followed by its eligible chunks in order, with at most one exit
      notice among them. */
  ghost predicate ShowsSliceOf(tab: Tab, m: Member, p: Delivery.Past, chunks: seq<Delivery.Chunk>, cap: nat) {
    && ShowsSlice(Join(tab.screen.terminal), Held(tab), Accepted(tab), Text(p.enqueued))
    && Delivery.Served(m, p, chunks, cap)
    && Delivery.Exits(p.enqueued) <= 1
  }

  /** What is accepted is a beginning of the text, and what is written ends where the
      rest of what is held begins. */
  ghost predicate ShowsSlice(shown: Bytes, held: Bytes, accepted: Bytes, text: Bytes) {
    && |held| <= |accepted|
    && accepted <= text
    && SliceAt(shown, text, |accepted| - |held|)
  }

  ghost predicate ShowsOneSlice(sys: System) {
    var g := sys.tab.net.channelGen;
    && g in sys.links
    && var s := sys.links[g].sub;
       && Delivery.Known(sys.relay, s)
       && ShowsSliceOf(sys.tab, sys.relay.core.members[s], sys.relay.past[s], sys.relay.chunks, sys.relay.core.cap)
  }

  lemma SliceShown(shown: Bytes, pending: Bytes, accepted: Bytes, l: Link, p: Delivery.Past)
    requires l.read <= |l.written| && Queued(l.written) == p.dequeued && p.dequeued <= p.enqueued
    requires IsSuffix(shown + pending, accepted) && accepted == Text(Received(l))
    ensures ShowsSlice(shown, shown + pending, accepted, Text(p.enqueued))
  {
    AcceptedIsPrefix(l, p);
    PrefixOfSuffix(shown, pending, accepted, Text(p.enqueued));
  }

  lemma ExitsAtMostOne(st: Delivery.State, s: SubId)
    requires Delivery.Known(st, s) && Delivery.MemberOk(st, s)
    ensures Delivery.Exits(st.past[s].enqueued) <= 1
  {
  }

  lemma CurrentShows(sys: System)
    requires SystemInv(sys) && sys.tab.screen.receivedReplay
    ensures ShowsOneSlice(sys)
  {
    CurrentLink(sys);
    var l := sys.links[sys.tab.net.channelGen];
    ExitsAtMostOne(sys.relay, l.sub);
    assert sys.relay.past[l.sub].dequeued <= sys.relay.past[l.sub].enqueued;
    SliceShown(Join(sys.tab.screen.terminal), PendingText(sys.tab), Accepted(sys.tab), l, sys.relay.past[l.sub]);
  }

  /** In every run, across reconnects, deferred replays, redraws and exits: once the
      replay of the current socket has arrived, the terminal shows one slice of it. */
  lemma TerminalShowsOneSlice(u: Setup, steps: seq<Step>)
    requires Reached(u, steps).tab.screen.receivedReplay
    ensures ShowsOneSlice(Reached(u, steps))
  {
    ReachedInv(u, steps);
    CurrentShows(Reached(u, steps));
  }
}
