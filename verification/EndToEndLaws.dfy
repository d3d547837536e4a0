/** What the whole system guarantees: the replay comes first, everything arrives, and
    exactly when all that has arrived is shown. */
module EndToEndLaws {
  import opened Common
  import opened Session
  import Delivery
  import DeliveryLaws
  import opened Client
  import ClientLaws
  import ClientDisplay
  import ClientComplete
  import Wire
  import opened EndToEnd

  // --- The replay comes first ---

  /** Nothing comes before the replay, and the client has sent nothing on a socket that
      has carried nothing yet. */
  ghost predicate FirstRight(links: map<nat, Link>, sent: seq<SentFrame>) {
    && (forall g :: g in links ==> Wire.StartsWithReplay(links[g].written))
    && (forall s :: s in sent ==> s.gen in links && links[s.gen].written != [])
  }

  lemma {:induction false} RequestWasSent(sent: seq<SentFrame>, gen: nat)
    requires Requests(sent, gen) != []
    ensures exists s :: s in sent && s.gen == gen
  {
    var init, last := sent[..|sent| - 1], sent[|sent| - 1];
    if last.gen == gen {
      assert last in sent;
    } else {
      RequestWasSent(init, gen);
    }
  }

  /** A socket carries more, and still starts with the replay. */
  lemma CarriesMore(links: map<nat, Link>, sent: seq<SentFrame>, gen: nat, l: Link)
    requires FirstRight(links, sent) && gen in links
    requires links[gen].written <= l.written && Wire.StartsWithReplay(l.written)
    ensures FirstRight(links[gen := l], sent)
  {
  }

  lemma NewSocket(links: map<nat, Link>, sent: seq<SentFrame>, gen: nat, l: Link)
    requires FirstRight(links, sent) && gen !in links && l.written == []
    ensures FirstRight(links[gen := l], sent)
  {
  }

  lemma SendsMore(links: map<nat, Link>, sent: seq<SentFrame>, s: SentFrame)
    requires FirstRight(links, sent) && s.gen in links && links[s.gen].written != []
    ensures FirstRight(links, sent + [s])
  {
  }

  lemma LinkFacts(sys: System, gen: nat)
    requires SystemInv(sys) && gen in sys.links
    ensures LinkOk(sys.links[gen], sys.relay.past)
    ensures Delivery.Known(sys.relay, sys.links[gen].sub) && Delivery.MemberOk(sys.relay, sys.links[gen].sub)
  {
    assert LinkOk(sys.links[gen], sys.relay.past);
  }

  lemma PumpWriteFirst(sys: System, gen: nat)
    requires FirstRight(sys.links, sys.tab.log.sent) && CanStep(sys, PumpWrite(gen))
    requires LinkOk(sys.links[gen], sys.relay.past)
    requires Delivery.Known(sys.relay, sys.links[gen].sub) && Delivery.MemberOk(sys.relay, sys.links[gen].sub)
    ensures FirstRight(Advance(sys, PumpWrite(gen)).links, sys.tab.log.sent)
  {
    var l := sys.links[gen];
    var f := sys.relay.core.members[l.sub].queue[0];
    if l.written == [] {
      Wire.QueueStartsWithReplay(sys.relay.core.members[l.sub], sys.relay.past[l.sub],
                                 sys.relay.chunks, sys.relay.core.cap);
    }
    CarriesMore(sys.links, sys.tab.log.sent, gen, Write(l, [f]));
  }

  lemma ServeFirst(sys: System, gen: nat, check: Wire.Check, outcome: Wire.Outcome, now: int)
    requires FirstRight(sys.links, sys.tab.log.sent) && CanStep(sys, Serve(gen, check, outcome, now))
    ensures FirstRight(Advance(sys, Serve(gen, check, outcome, now)).links, sys.tab.log.sent)
  {
    RequestWasSent(sys.tab.log.sent, gen);
    CarriesMore(sys.links, sys.tab.log.sent, gen, Advance(sys, Serve(gen, check, outcome, now)).links[gen]);
  }

  /** What the client sends, it sends on a socket whose replay it has. */
  lemma SendingNeedsReplay(links: map<nat, Link>, was: Tab, c: Tab)
    requires FirstRight(links, was.log.sent) && ClientLaws.SentAtMostOne(was, c) && Shaped(c)
    requires c.screen.receivedReplay ==> c.net.channelGen in links && links[c.net.channelGen].written != []
    ensures FirstRight(links, c.log.sent)
  {
    if c.log.sent != was.log.sent {
      var s := c.log.sent[|was.log.sent|];
      assert c.log.sent == was.log.sent + [s];
      SendsMore(links, was.log.sent, s);
    }
  }

  lemma ReceivedWasWritten(sys: System)
    requires SystemInv(sys) && sys.tab.screen.receivedReplay
    ensures sys.tab.net.channelGen in sys.links && sys.links[sys.tab.net.channelGen].written != []
  {
    CurrentLink(sys);
    var l := sys.links[sys.tab.net.channelGen];
    assert |l.written[..l.read]| == l.read;
  }

  /** The client has nothing on a socket that carries nothing, and its flags make sense. */
  ghost predicate TabRight(sys: System) {
    && Shaped(sys.tab)
    && (sys.tab.screen.receivedReplay ==>
          sys.tab.net.channelGen in sys.links && sys.links[sys.tab.net.channelGen].written != [])
  }

  lemma TabIsRight(sys: System)
    requires SystemInv(sys)
    ensures TabRight(sys)
  {
    if sys.tab.screen.receivedReplay {
      ReceivedWasWritten(sys);
    }
  }

  lemma TabFirst(sys: System, next: System, e: Event)
    requires FirstRight(next.links, sys.tab.log.sent) && TabRight(next) && next.tab == Handle(sys.tab, e)
    ensures FirstRight(next.links, next.tab.log.sent)
  {
    ClientLaws.HandleSends(sys.tab, e);
    SendingNeedsReplay(next.links, sys.tab, next.tab);
  }

  lemma ArriveFirst(sys: System, gen: nat)
    requires FirstRight(sys.links, sys.tab.log.sent) && CanStep(sys, Arrive(gen)) && TabRight(Advance(sys, Arrive(gen)))
    ensures FirstRight(Advance(sys, Arrive(gen)).links, Advance(sys, Arrive(gen)).tab.log.sent)
  {
    var l := sys.links[gen];
    CarriesMore(sys.links, sys.tab.log.sent, gen, l.(read := l.read + 1));
    TabFirst(sys, Advance(sys, Arrive(gen)), FrameArrives(gen, l.written[l.read]));
  }

  lemma StepKeepsSystem(sys: System, step: Step)
    requires SystemInv(sys)
    ensures SystemInv(Advance(sys, step))
  {
    StepKeepsSides(sys, step);
    StepKeepsWired(sys, step);
  }

  /** What a write to a socket needs to know about its subscriber. */
  ghost predicate LinkRight(sys: System, gen: nat) {
    gen in sys.links ==>
      && LinkOk(sys.links[gen], sys.relay.past)
      && Delivery.Known(sys.relay, sys.links[gen].sub) && Delivery.MemberOk(sys.relay, sys.links[gen].sub)
  }

  lemma StepFirst(sys: System, step: Step)
    requires FirstRight(sys.links, sys.tab.log.sent) && CanStep(sys, step)
    requires step.PumpWrite? ==> LinkRight(sys, step.gen)
    requires TabRight(Advance(sys, step))
    ensures FirstRight(Advance(sys, step).links, Advance(sys, step).tab.log.sent)
  {
    match step {
      case Relay(_) =>
      case Attach(gen, s, _) => NewSocket(sys.links, sys.tab.log.sent, gen, Link(s, [], 0, 0, true));
      case PumpWrite(gen) => PumpWriteFirst(sys, gen);
      case Serve(gen, check, outcome, now) => ServeFirst(sys, gen, check, outcome, now);
      case Arrive(gen) => ArriveFirst(sys, gen);
      case OnTab(e) => TabFirst(sys, Advance(sys, step), e);
    }
  }

  lemma {:induction false} AllStepsFirst(sys: System, steps: seq<Step>)
    requires SystemInv(sys) && FirstRight(sys.links, sys.tab.log.sent)
    ensures FirstRight(AdvanceAll(sys, steps).links, AdvanceAll(sys, steps).tab.log.sent)
    decreases |steps|
  {
    if steps != [] {
      StepKeepsSystem(sys, steps[0]);
      TabIsRight(Advance(sys, steps[0]));
      if CanStep(sys, steps[0]) {
        if steps[0].PumpWrite? {
          LinkFacts(sys, steps[0].gen);
        }
        StepFirst(sys, steps[0]);
      }
      AllStepsFirst(Advance(sys, steps[0]), steps[1..]);
    }
  }

  /** To this client, on every socket and in every run, the first frame is the replay,
      and no other replay comes on it. */
  lemma ReplayComesFirst(u: Setup, steps: seq<Step>, g: nat)
    requires g in Reached(u, steps).links
    ensures var w := Reached(u, steps).links[g].written;
            && (w != [] ==> w[0].Replay?)
            && (forall i :: 0 <= i < |Queued(w)| ==> (Queued(w)[i].Replay? <==> i == 0))
  {
    ReachedInv(u, []);
    AllStepsFirst(Start(u), steps);
    ReachedInv(u, steps);
    var sys := Reached(u, steps);
    var l := sys.links[g];
    assert LinkOk(l, sys.relay.past);
    assert Delivery.MemberOk(sys.relay, l.sub);
    forall i | 0 <= i < |Queued(l.written)|
      ensures Queued(l.written)[i].Replay? <==> i == 0
    {
      OnlyFirstIsReplay(sys.relay.core.members[l.sub], sys.relay.past[l.sub], sys.relay.chunks, sys.relay.core.cap, i);
    }
  }

  // --- Nothing is missing ---

  /** What happens at the client when the system takes a step. */
  function EventOf(sys: System, step: Step): seq<Event> {
    if !CanStep(sys, step) then []
    else match step
      case Arrive(gen) => [FrameArrives(gen, sys.links[gen].written[sys.links[gen].read])]
      case OnTab(e) => [e]
      case _ => []
  }

  function TabEvents(sys: System, steps: seq<Step>): seq<Event>
    decreases |steps|
  {
    if steps == [] then [] else EventOf(sys, steps[0]) + TabEvents(Advance(sys, steps[0]), steps[1..])
  }

  lemma StepOfTab(sys: System, step: Step)
    ensures Advance(sys, step).tab == HandleAll(sys.tab, EventOf(sys, step))
  {
    var events := EventOf(sys, step);
    if events != [] {
      assert events[1..] == [];
    }
  }

  lemma {:induction false} TabRuns(sys: System, steps: seq<Step>)
    ensures AdvanceAll(sys, steps).tab == HandleAll(sys.tab, TabEvents(sys, steps))
    decreases |steps|
  {
    if steps != [] {
      StepOfTab(sys, steps[0]);
      TabRuns(Advance(sys, steps[0]), steps[1..]);
      ClientDisplay.HandleAllConcat(sys.tab, EventOf(sys, steps[0]), TabEvents(Advance(sys, steps[0]), steps[1..]));
    }
  }

  /** The queue is empty, the socket read to its end and no replay waiting. */
  ghost predicate CaughtUp(sys: System) {
    && sys.tab.screen.receivedReplay && sys.tab.screen.pendingReplay.None?
    && sys.tab.net.channelGen in sys.links
    && DrainedAt(sys, sys.links[sys.tab.net.channelGen])
  }

  ghost predicate DrainedAt(sys: System, l: Link) {
    && l.read == |l.written|
    && l.sub in sys.relay.core.members && sys.relay.core.members[l.sub].queue == []
  }

  /** Everything sent to the subscriber of the current socket. */
  function SentText(sys: System): Bytes {
    var g := sys.tab.net.channelGen;
    if g in sys.links && sys.links[g].sub in sys.relay.past then Text(sys.relay.past[sys.links[g].sub].enqueued) else []
  }

  lemma AllReceived(l: Link, m: Member, p: Delivery.Past)
    requires l.read == |l.written| && Queued(l.written) == p.dequeued
    requires m.queue == [] && p.enqueued == p.dequeued + m.queue
    ensures Received(l) == p.enqueued
  {
    assert l.written[..l.read] == l.written;
    assert p.dequeued + [] == p.dequeued;
  }

  lemma CaughtUpAccepted(sys: System)
    requires SystemInv(sys) && CaughtUp(sys)
    ensures Accepted(sys.tab) == SentText(sys)
    ensures Agrees(sys.tab, sys.relay.past[sys.links[sys.tab.net.channelGen].sub].enqueued)
  {
    CurrentLink(sys);
    var l := sys.links[sys.tab.net.channelGen];
    AllReceived(l, sys.relay.core.members[l.sub], sys.relay.past[l.sub]);
  }

  /** Once everything has caught up, however much has been sent: the terminal shows all
      that was ever sent to its subscriber if and only if none of it reached a tab that
      was closed with no replay waiting (output that follows the exit), and the terminal
      was not made by a redraw after an eviction. */
  lemma NothingIsMissing(u: Setup, steps: seq<Step>)
    requires CaughtUp(Reached(u, steps))
    ensures var sys, events := Reached(u, steps), TabEvents(Start(u), steps);
            Join(sys.tab.screen.terminal) == SentText(sys)
            <==> && !ClientDisplay.LeftBehind(ClientDisplay.Begun(u.tab), events, false)
                 && !ClientComplete.CutShort(ClientDisplay.Begun(u.tab), events, false)
  {
    ReachedInv(u, steps);
    CaughtUpAccepted(Reached(u, steps));
    TabRuns(Start(u), steps);
    ClientComplete.ShowsAllIffNothingLost(u.tab, TabEvents(Start(u), steps));
  }

  lemma {:induction false} TextIsPayload(frames: seq<Frame>)
    requires Delivery.Exits(frames) == 0
    ensures Text(frames) == DeliveryLaws.Payload(frames)
  {
    if frames != [] {
      TextIsPayload(frames[..|frames| - 1]);
    }
  }

  lemma LiveIsShown(c: Tab)
    requires ClientInv(c) && c.screen.receivedReplay && c.screen.pendingReplay.None? && c.net.conn == Live
    ensures Join(c.screen.terminal) == Held(c)
  {
    ReadyShowsAll(c);
  }

  /** A live terminal shows all it was made for and has been given since. */
  lemma LiveShowsAllIffNotCut(u: Setup, steps: seq<Step>)
    requires var sys := Reached(u, steps); CaughtUp(sys) && sys.tab.net.conn == Live
    ensures var sys := Reached(u, steps);
            && IsSuffix(Join(sys.tab.screen.terminal), SentText(sys))
            && (Join(sys.tab.screen.terminal) == SentText(sys)
                <==> !ClientComplete.CutShort(ClientDisplay.Begun(u.tab), TabEvents(Start(u), steps), false))
  {
    var sys, events := Reached(u, steps), TabEvents(Start(u), steps);
    ReachedInv(u, steps);
    CaughtUpAccepted(sys);
    TabRuns(Start(u), steps);
    LiveIsShown(sys.tab);
    ClientComplete.OnlyRedrawsShorten(u.tab, events);
    ClientComplete.HeldIsSuffix(u.tab, events);
  }

  lemma ShortOfEither(shown: Bytes, sent: Bytes, whole: Bytes)
    requires IsSuffix(shown, sent) && |sent| <= |whole|
    ensures shown == whole <==> shown == sent && sent == whole
  {
  }

  /** All that was sent to an attached subscriber, against all that was published. */
  lemma SentIsWhole(sys: System)
    requires SystemInv(sys) && CaughtUp(sys)
    requires sys.tab.net.conn == Live && sys.links[sys.tab.net.channelGen].sub in sys.relay.core.subs
    ensures var s, chunks := sys.links[sys.tab.net.channelGen].sub, sys.relay.chunks;
            && Delivery.Known(sys.relay, s) && sys.relay.past[s].from <= |chunks|
            && var from := sys.relay.past[s].from;
               var whole := Tail(Delivery.Data(chunks[..from]), sys.relay.core.cap) + Delivery.Data(chunks[from..]);
               && |SentText(sys)| <= |whole|
               && (SentText(sys) == whole
                   <==> DeliveryLaws.AllEligible(chunks[from..], sys.relay.core.members[s].subscribedAt))
  {
    var s := sys.links[sys.tab.net.channelGen].sub;
    CurrentLink(sys);
    CaughtUpAccepted(sys);
    TextIsPayload(sys.relay.past[s].enqueued);
    DeliveryLaws.CompletePayload(sys.relay.core.members[s], sys.relay.past[s], sys.relay.chunks, sys.relay.core.cap);
  }

  /** Caught up, live and still attached, however long the session has lasted: the
      terminal shows the end of what had been published before and every chunk published
      since, if and only if none of these was withheld as a repaint of a new subscriber's
      resize and the terminal was not made by a redraw after an eviction. */
  lemma LiveTerminalIsComplete(u: Setup, steps: seq<Step>)
    requires var sys := Reached(u, steps);
             CaughtUp(sys) && sys.tab.net.conn == Live && sys.links[sys.tab.net.channelGen].sub in sys.relay.core.subs
    ensures var sys := Reached(u, steps);
            var s, chunks := sys.links[sys.tab.net.channelGen].sub, sys.relay.chunks;
            && Delivery.Known(sys.relay, s) && sys.relay.past[s].from <= |chunks|
            && var from := sys.relay.past[s].from;
               (Join(sys.tab.screen.terminal)
                == Tail(Delivery.Data(chunks[..from]), sys.relay.core.cap) + Delivery.Data(chunks[from..])
                <==> && DeliveryLaws.AllEligible(chunks[from..], sys.relay.core.members[s].subscribedAt)
                     && !ClientComplete.CutShort(ClientDisplay.Begun(u.tab), TabEvents(Start(u), steps), false))
  {
    var sys := Reached(u, steps);
    ReachedInv(u, steps);
    LiveShowsAllIffNotCut(u, steps);
    SentIsWhole(sys);
    var from := sys.relay.past[sys.links[sys.tab.net.channelGen].sub].from;
    ShortOfEither(Join(sys.tab.screen.terminal), SentText(sys),
                  Tail(Delivery.Data(sys.relay.chunks[..from]), sys.relay.core.cap) + Delivery.Data(sys.relay.chunks[from..]));
  }

  // --- Catching up is always possible ---

  /** The subscriber of the current socket. */
  ghost predicate Attached(sys: System, s: SubId, text: Bytes) {
    && sys.tab.net.channelGen in sys.links && sys.links[sys.tab.net.channelGen].sub == s
    && sys.links[sys.tab.net.channelGen].read <= |sys.links[sys.tab.net.channelGen].written|
    && Delivery.Known(sys.relay, s) && Text(sys.relay.past[s].enqueued) == text
  }

  function Unread(l: Link): nat
    requires l.read <= |l.written|
  {
    |l.written| - l.read
  }

  predicate Draining(step: Step) {
    step.PumpWrite? || step.Arrive? || (step.OnTab? && step.e.Callback?)
  }

  lemma PumpDrains(sys: System, s: SubId, text: Bytes)
    requires Attached(sys, s, text) && sys.relay.core.members[s].queue != []
    ensures var g := sys.tab.net.channelGen;
            var next := Advance(sys, PumpWrite(g));
            && Attached(next, s, text)
            && |next.relay.core.members[s].queue| == |sys.relay.core.members[s].queue| - 1
            && Unread(next.links[g]) == Unread(sys.links[g]) + 1
  {
    DequeueTakes(sys.relay, s);
  }

  lemma SocketIsOpen(sys: System)
    requires SystemInv(sys) && sys.tab.net.channelGen in sys.links
    ensures !sys.tab.net.disposed && sys.tab.net.channelGen in sys.tab.log.sockets
    ensures sys.tab.screen.pendingReplay.Some? ==> sys.tab.screen.terminalGen in sys.tab.screen.callbacks
  {
  }

  lemma ArriveDrains(sys: System, s: SubId, text: Bytes)
    requires Attached(sys, s, text) && Unread(sys.links[sys.tab.net.channelGen]) > 0
    requires !sys.tab.net.disposed && sys.tab.net.channelGen in sys.tab.log.sockets
    ensures var g := sys.tab.net.channelGen;
            var next := Advance(sys, Arrive(g));
            && Attached(next, s, text) && next.relay == sys.relay && next.tab.net.channelGen == g
            && Unread(next.links[g]) == Unread(sys.links[g]) - 1
  {
    var g := sys.tab.net.channelGen;
    var f := sys.links[g].written[sys.links[g].read];
    assert Handle(sys.tab, FrameArrives(g, f)) == OnMessage(sys.tab, f);
    OnMessageAccepts(sys.tab, f);
  }

  /** With the queue and the socket drained, the replay has been received. */
  lemma DrainedHasAll(sys: System, s: SubId, text: Bytes)
    requires SystemInv(sys) && Attached(sys, s, text)
    requires DrainedAt(sys, sys.links[sys.tab.net.channelGen])
    ensures sys.tab.screen.receivedReplay
  {
    var l := sys.links[sys.tab.net.channelGen];
    LinkFacts(sys, sys.tab.net.channelGen);
    AllReceived(l, sys.relay.core.members[s], sys.relay.past[s]);
    assert Agrees(sys.tab, Received(l));
  }

  ghost predicate CatchesUp(sys: System, steps: seq<Step>) {
    && (forall step :: step in steps ==> Draining(step))
    && CaughtUp(AdvanceAll(sys, steps))
  }

  ghost predicate CanCatchUp(sys: System) {
    exists steps :: CatchesUp(sys, steps)
  }

  lemma OneStepFromCatchingUp(sys: System, step: Step)
    requires Draining(step) && CanCatchUp(Advance(sys, step))
    ensures CanCatchUp(sys)
  {
    var rest :| CatchesUp(Advance(sys, step), rest);
    assert ([step] + rest)[1..] == rest;
    assert CatchesUp(sys, [step] + rest);
  }

  lemma LastCallback(sys: System)
    requires sys.tab.net.channelGen in sys.links && !sys.tab.net.disposed
    requires sys.tab.screen.pendingReplay.Some? ==> sys.tab.screen.terminalGen in sys.tab.screen.callbacks
    requires sys.tab.screen.receivedReplay
    requires DrainedAt(sys, sys.links[sys.tab.net.channelGen])
    ensures CanCatchUp(sys)
  {
    if sys.tab.screen.pendingReplay.None? {
      assert CatchesUp(sys, []);
    } else {
      var step := OnTab(Callback(sys.tab.screen.terminalGen));
      ClientDisplay.ScheduledApplies(sys.tab);
      assert CatchesUp(Advance(sys, step), []);
      OneStepFromCatchingUp(sys, step);
    }
  }

  lemma {:induction false} ReadingCatchesUp(sys: System, s: SubId, text: Bytes)
    requires SystemInv(sys) && Attached(sys, s, text)
    requires sys.relay.core.members[s].queue == []
    ensures CanCatchUp(sys)
    decreases Unread(sys.links[sys.tab.net.channelGen])
  {
    var g := sys.tab.net.channelGen;
    SocketIsOpen(sys);
    if Unread(sys.links[g]) > 0 {
      ArriveDrains(sys, s, text);
      StepKeepsSystem(sys, Arrive(g));
      ReadingCatchesUp(Advance(sys, Arrive(g)), s, text);
      OneStepFromCatchingUp(sys, Arrive(g));
    } else {
      DrainedHasAll(sys, s, text);
      LastCallback(sys);
    }
  }

  lemma {:induction false} DrainingCatchesUp(sys: System, s: SubId, text: Bytes)
    requires SystemInv(sys) && Attached(sys, s, text)
    ensures CanCatchUp(sys)
    decreases |sys.relay.core.members[s].queue|
  {
    if sys.relay.core.members[s].queue == [] {
      ReadingCatchesUp(sys, s, text);
    } else {
      var step := PumpWrite(sys.tab.net.channelGen);
      PumpDrains(sys, s, text);
      StepKeepsSystem(sys, step);
      DrainingCatchesUp(Advance(sys, step), s, text);
      OneStepFromCatchingUp(sys, step);
    }
  }

  /** From every reachable state in which the current socket is attached, letting the
      writer, the socket and the scheduled callback run is enough to catch up. */
  lemma CatchingUpIsPossible(u: Setup, steps: seq<Step>)
    requires Reached(u, steps).tab.net.channelGen in Reached(u, steps).links
    ensures CanCatchUp(Reached(u, steps))
  {
    ReachedInv(u, steps);
    var sys := Reached(u, steps);
    LinkFacts(sys, sys.tab.net.channelGen);
    assert Attached(sys, sys.links[sys.tab.net.channelGen].sub, SentText(sys));
    DrainingCatchesUp(sys, sys.links[sys.tab.net.channelGen].sub, SentText(sys));
  }
}
