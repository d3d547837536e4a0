/** What the terminal shows at any time: also between the loss of a socket and the
    replay of the next, when it keeps what an earlier socket brought. */
module AcrossReconnects {
  import opened Common
  import opened Session
  import Delivery
  import DeliveryLaws
  import opened Client
  import ClientDisplay
  import Wire
  import opened EndToEnd
  import EndToEndLaws

  /** The terminal shows one contiguous slice of what the subscriber of socket `g` was sent. */
  ghost predicate SliceOf(sys: System, g: nat, at: nat) {
    && g in sys.links && Delivery.Known(sys.relay, sys.links[g].sub)
    && SliceAt(Join(sys.tab.screen.terminal), Text(sys.relay.past[sys.links[g].sub].enqueued), at)
  }

  ghost predicate ShowsSomeSlice(sys: System) {
    sys.tab.screen.terminal == [] || exists g: nat, at: nat :: SliceOf(sys, g, at)
  }

  // --- A stream only grows ---

  lemma SliceStays(s: Bytes, before: seq<Frame>, after: seq<Frame>, at: nat)
    requires SliceAt(s, Text(before), at) && before <= after
    ensures SliceAt(s, Text(after), at)
  {
    assert after[..|before|] == before;
    TextPrefix(after, |before|);
    assert Text(after)[..|Text(before)|] == Text(before);
  }

  ghost predicate StreamGrows(st: Delivery.State, st1: Delivery.State, s: SubId) {
    Delivery.Known(st, s) ==> Delivery.Known(st1, s) && st.past[s].enqueued <= st1.past[s].enqueued
  }

  lemma RelayGrows(st: Delivery.State, a: Delivery.Action, s: SubId)
    requires Delivery.Inv(st)
    ensures StreamGrows(st, Delivery.Next(st, a), s)
  {
    DeliveryLaws.StepExtends(st, a);
    Delivery.StepKeepsInv(st, a);
    if Delivery.Known(st, s) {
      assert DeliveryLaws.PastGrows(st.past[s], Delivery.Next(st, a).past[s]);
    }
  }

  lemma ServeGrows(st: Delivery.State, f: ClientFrame, outcome: Wire.Outcome, now: int, s: SubId)
    ensures StreamGrows(st, Wire.Effect(st, f, outcome, now), s)
  {
    Wire.EffectTouchesNobody(st, f, outcome, now);
  }

  lemma StepGrowsStream(sys: System, step: Step, s: SubId)
    requires Delivery.Inv(sys.relay)
    ensures StreamGrows(sys.relay, Advance(sys, step).relay, s)
  {
    if CanStep(sys, step) {
      match step {
        case Relay(a) => RelayGrows(sys.relay, a, s);
        case Attach(_, s1, at) => RelayGrows(sys.relay, Delivery.Subscribe(s1, at), s);
        case PumpWrite(gen) => RelayGrows(sys.relay, Delivery.Dequeue(sys.links[gen].sub), s);
        case Serve(gen, _, outcome, now) =>
          ServeGrows(sys.relay, Requests(sys.tab.log.sent, gen)[sys.links[gen].served], outcome, now, s);
        case Arrive(_) =>
        case OnTab(_) =>
      }
    }
  }

  lemma LinksStay(sys: System, step: Step, g: nat)
    requires g in sys.links
    ensures g in Advance(sys, step).links && Advance(sys, step).links[g].sub == sys.links[g].sub
  {
  }

  // --- Without a replay, nothing is written ---

  lemma NothingWritten(c: Tab, e: Event)
    requires Shaped(c) && !e.FrameArrives? && !Handle(c, e).screen.receivedReplay
    ensures Handle(c, e).screen.terminal == c.screen.terminal
  {
    match e {
      case Callback(gen) => ClientDisplay.CallbackHoldsSame(c, gen);
      case LineWrapChanges(lineWrap) => ClientDisplay.ResizeHoldsSame(c.(look := c.look.(lineWrap := lineWrap)));
      case ColumnWidthChanges(fixedCols) =>
        ClientDisplay.ResizeHoldsSame(c.(look := c.look.(fixedCols := fixedCols)));
      case WidgetResizes(cols, rows) => ClientDisplay.ResizeHoldsSame(c.(look := c.look.(view := (cols, rows))));
      case _ =>
    }
  }

  /** What arrives before the replay is at most a direct answer. */
  lemma OnlyAnswersArrive(tab: Tab, l: Link, past: map<SubId, Delivery.Past>)
    requires LinkOk(l, past) && l.read < |l.written|
    requires Agrees(OnMessage(tab, l.written[l.read]), Received(l.(read := l.read + 1)))
    requires !OnMessage(tab, l.written[l.read]).screen.receivedReplay
    ensures OnMessage(tab, l.written[l.read]) == tab
  {
    ReadingOne(l, past);
    assert Control(l.written[l.read]);
  }

  lemma ArrivesUnwritten(tab: Tab, links: map<nat, Link>, past: map<SubId, Delivery.Past>, gen: nat)
    requires gen in links && LinkOk(links[gen], past) && links[gen].read < |links[gen].written|
    requires var f := links[gen].written[links[gen].read];
             var c1 := Handle(tab, FrameArrives(gen, f));
             InStep(c1, links[gen := links[gen].(read := links[gen].read + 1)]) && !c1.screen.receivedReplay
    ensures Handle(tab, FrameArrives(gen, links[gen].written[links[gen].read])) == tab
  {
    var f := links[gen].written[links[gen].read];
    if gen == tab.net.channelGen && gen in tab.log.sockets {
      SocketsStay(tab, f);
      OnlyAnswersArrive(tab, links[gen], past);
    }
  }

  lemma StepUnwritten(sys: System, step: Step)
    requires Shaped(sys.tab) && (step.Arrive? && step.gen in sys.links ==> LinkOk(sys.links[step.gen], sys.relay.past))
    requires InStep(Advance(sys, step).tab, Advance(sys, step).links)
    requires !Advance(sys, step).tab.screen.receivedReplay
    ensures Advance(sys, step).tab.screen.terminal == sys.tab.screen.terminal
  {
    if CanStep(sys, step) {
      match step {
        case Arrive(gen) => ArrivesUnwritten(sys.tab, sys.links, sys.relay.past, gen);
        case OnTab(e) => NothingWritten(sys.tab, e);
        case _ =>
      }
    }
  }

  // --- In every run ---

  lemma OneSliceIsSome(sys: System)
    requires ShowsOneSlice(sys)
    ensures ShowsSomeSlice(sys)
  {
    var at := |Accepted(sys.tab)| - |Held(sys.tab)|;
    assert SliceOf(sys, sys.tab.net.channelGen, at);
  }

  lemma KeepsSlice(sys: System, step: Step)
    requires SystemInv(sys) && SystemInv(Advance(sys, step)) && ShowsSomeSlice(sys)
    requires !Advance(sys, step).tab.screen.receivedReplay
    ensures ShowsSomeSlice(Advance(sys, step))
  {
    var next := Advance(sys, step);
    if step.Arrive? && step.gen in sys.links {
      EndToEndLaws.LinkFacts(sys, step.gen);
    }
    StepUnwritten(sys, step);
    if next.tab.screen.terminal != [] {
      var g: nat, at: nat :| SliceOf(sys, g, at);
      var s := sys.links[g].sub;
      LinksStay(sys, step, g);
      StepGrowsStream(sys, step, s);
      SliceStays(Join(sys.tab.screen.terminal), sys.relay.past[s].enqueued, next.relay.past[s].enqueued, at);
      assert SliceOf(next, g, at);
    }
  }

  lemma {:induction false} RunShowsSomeSlice(sys: System, steps: seq<Step>)
    requires SystemInv(sys) && ShowsSomeSlice(sys)
    ensures ShowsSomeSlice(AdvanceAll(sys, steps))
    decreases |steps|
  {
    if steps != [] {
      var next := Advance(sys, steps[0]);
      EndToEndLaws.StepKeepsSystem(sys, steps[0]);
      if next.tab.screen.receivedReplay {
        CurrentShows(next);
        OneSliceIsSome(next);
      } else {
        KeepsSlice(sys, steps[0]);
      }
      RunShowsSomeSlice(next, steps[1..]);
    }
  }

  /** A slice of one replay followed by its eligible chunks in order, with at most one
      exit notice among them. */
  ghost predicate ShowsServed(sys: System, g: nat, at: nat) {
    && SliceOf(sys, g, at)
    && var s := sys.links[g].sub;
       && Delivery.Served(sys.relay.core.members[s], sys.relay.past[s], sys.relay.chunks, sys.relay.core.cap)
       && Delivery.Exits(sys.relay.past[s].enqueued) <= 1
  }

  /** In every run and at any time, connected or not: the terminal is blank or shows one
      slice of what some socket of this client was to bring. */
  lemma TerminalAlwaysShowsOneSlice(u: Setup, steps: seq<Step>)
    ensures Reached(u, steps).tab.screen.terminal == []
            || exists g: nat, at: nat :: ShowsServed(Reached(u, steps), g, at)
  {
    var sys := Reached(u, steps);
    ReachedInv(u, []);
    ReachedInv(u, steps);
    RunShowsSomeSlice(Start(u), steps);
    if sys.tab.screen.terminal != [] {
      var g: nat, at: nat :| SliceOf(sys, g, at);
      EndToEndLaws.LinkFacts(sys, g);
      ExitsAtMostOne(sys.relay, sys.links[g].sub);
      assert ShowsServed(sys, g, at);
    }
  }
}
