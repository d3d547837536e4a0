/** A run of the whole system, from attaching to the last frame read, in which the
    shell's last output follows its exit and never gets to the screen. */
module LateOutput {
  import opened Common
  import Cwd
  import opened Session
  import Delivery
  import DeliveryLaws
  import opened Client
  import ClientDisplay
  import opened EndToEnd
  import opened EndToEndLaws

  const LAST: Bytes := [0x41]

  /** One subscriber, with this in its queue. */
  ghost predicate Solo(st: Delivery.State, queue: seq<Frame>, exit: Delivery.ExitPhase) {
    && st.core.subs == {0} && st.core.members == map[0 := Member(queue, false, 0)] && st.past.Keys == {0}
    && st.core.repaintUntil.None? && st.exit == exit && (exit != Delivery.Running ==> st.core.exitCode == Some(0))
  }

  lemma SoloSubscribes(b: DeliveryLaws.Beginning)
    ensures Solo(Delivery.Next(DeliveryLaws.Begun(b), Delivery.Subscribe(0, 0)), [Replay([])], Delivery.Running)
  {
  }

  lemma SoloDequeues(st: Delivery.State, queue: seq<Frame>, exit: Delivery.ExitPhase)
    requires Solo(st, queue, exit) && queue != []
    ensures Solo(Delivery.Next(st, Delivery.Dequeue(0)), queue[1..], exit)
  {
  }

  lemma SoloExits(st: Delivery.State)
    requires Solo(st, [], Delivery.Running)
    ensures var st1 := Delivery.Next(st, Delivery.ExitRecord(0));
            var st2 := Delivery.Next(st1, Delivery.ExitSnapshot);
            && Solo(st1, [], Delivery.Recorded)
            && Solo(st2, [], Delivery.Fanning({0}, None))
            && Solo(Delivery.Next(st2, Delivery.ExitSend(0, 0, false)), [Exit(0)], Delivery.Fanning({}, None))
  {
    assert [] + [Exit(0)] == [Exit(0)];
    assert {0} - {0} == {};
  }

  lemma SoloPublishes(st: Delivery.State, queue: seq<Frame>, exit: Delivery.ExitPhase)
    requires Solo(st, queue, exit) && |queue| < QUEUE_SLOTS
    ensures Solo(Delivery.Next(st, Delivery.Publish(LAST, 1, {})), queue + [Out(LAST)], exit)
  {
    var o := Output(LAST, Cwd.FeedAll(st.tracker, LAST).1, 1, {});
    assert VerdictOn(st.core, o, 0) == Sent;
    assert LostTo(st.core, o) == {};
  }

  /** The same, with one socket for it. */
  ghost predicate Pair(sys: System, queue: seq<Frame>, exit: Delivery.ExitPhase, written: seq<Frame>, read: nat) {
    Solo(sys.relay, queue, exit) && sys.links == map[1 := Link(0, written, read, 0, true)]
  }

  lemma PairPumps(sys: System, queue: seq<Frame>, exit: Delivery.ExitPhase, written: seq<Frame>, read: nat)
    requires Pair(sys, queue, exit, written, read) && queue != []
    ensures Pair(Advance(sys, PumpWrite(1)), queue[1..], exit, written + [queue[0]], read)
    ensures Advance(sys, PumpWrite(1)).tab == sys.tab
  {
    SoloDequeues(sys.relay, queue, exit);
  }

  lemma PairArrives(sys: System, queue: seq<Frame>, exit: Delivery.ExitPhase, written: seq<Frame>, read: nat)
    requires Pair(sys, queue, exit, written, read) && read < |written|
    ensures Pair(Advance(sys, Arrive(1)), queue, exit, written, read + 1)
    ensures Advance(sys, Arrive(1)).tab == Handle(sys.tab, FrameArrives(1, written[read]))
  {
  }

  function Opening(): seq<Step> {
    [OnTab(ConnectNow(true)), Attach(1, 0, 0), PumpWrite(1), Arrive(1), OnTab(Callback(1))]
  }

  function Exiting(): seq<Step> {
    [Relay(Delivery.ExitRecord(0)), Relay(Delivery.ExitSnapshot), Relay(Delivery.ExitSend(0, 0, false)),
     Relay(Delivery.Publish(LAST, 1, {}))]
  }

  function Reading(): seq<Step> {
    [PumpWrite(1), PumpWrite(1), Arrive(1), Arrive(1)]
  }

  lemma FirstStep(sys: System, steps: seq<Step>)
    requires steps != []
    ensures AdvanceAll(sys, steps) == AdvanceAll(Advance(sys, steps[0]), steps[1..])
  {
  }

  lemma FourSteps(sys: System, steps: seq<Step>)
    requires |steps| == 4
    ensures AdvanceAll(sys, steps) == Advance(Advance(Advance(Advance(sys, steps[0]), steps[1]), steps[2]), steps[3])
  {
    var s1 := Advance(sys, steps[0]);
    var s2 := Advance(s1, steps[1]);
    var s3 := Advance(s2, steps[2]);
    FirstStep(sys, steps);
    FirstStep(s1, steps[1..]);
    FirstStep(s2, steps[2..]);
    FirstStep(s3, steps[3..]);
  }

  lemma {:induction false} AllStepsConcat(sys: System, a: seq<Step>, b: seq<Step>)
    ensures AdvanceAll(sys, a + b) == AdvanceAll(AdvanceAll(sys, a), b)
    decreases |a|
  {
    if a == [] {
      assert a + b == b;
    } else {
      assert (a + b)[1..] == a[1..] + b;
      AllStepsConcat(Advance(sys, a[0]), a[1..], b);
    }
  }

  lemma Attaches(u: Setup)
    ensures var s1 := Advance(Start(u), OnTab(ConnectNow(true)));
            var s2 := Advance(s1, Attach(1, 0, 0));
            && s1.tab == Handle(ClientDisplay.Begun(u.tab), ConnectNow(true)) && s2.tab == s1.tab
            && Pair(s2, [Replay([])], Delivery.Running, [], 0)
  {
    var s1 := Advance(Start(u), OnTab(ConnectNow(true)));
    assert 1 in s1.tab.log.sockets;
    SoloSubscribes(u.session);
  }

  lemma CallbackLeavesPair(sys: System, queue: seq<Frame>, exit: Delivery.ExitPhase, written: seq<Frame>, read: nat)
    requires Pair(sys, queue, exit, written, read)
    ensures Pair(Advance(sys, OnTab(Callback(1))), queue, exit, written, read)
    ensures Advance(sys, OnTab(Callback(1))).tab == Handle(sys.tab, Callback(1))
  {
  }

  lemma Opens(u: Setup)
    ensures var sys := AdvanceAll(Start(u), Opening());
            Pair(sys, [], Delivery.Running, [Replay([])], 1) && ClientDisplay.Fresh(sys.tab, [])
  {
    var s1 := Advance(Start(u), OnTab(ConnectNow(true)));
    var s2 := Advance(s1, Attach(1, 0, 0));
    var s3 := Advance(s2, PumpWrite(1));
    var s4 := Advance(s3, Arrive(1));
    FirstStep(Start(u), Opening());
    FourSteps(s1, Opening()[1..]);
    Attaches(u);
    PairPumps(s2, [Replay([])], Delivery.Running, [], 0);
    assert [] + [Replay([])] == [Replay([])] && [Replay([])][1..] == [];
    PairArrives(s3, [], Delivery.Running, [Replay([])], 0);
    CallbackLeavesPair(s4, [], Delivery.Running, [Replay([])], 1);
    ClientDisplay.FirstReplay(u.tab, []);
  }

  lemma RelaySteps(sys: System, steps: seq<Step>)
    requires |steps| == 4 && forall step :: step in steps ==> step.Relay? && !step.a.Dequeue?
    ensures AdvanceAll(sys, steps)
         == sys.(relay := Delivery.Next(Delivery.Next(Delivery.Next(Delivery.Next(sys.relay, steps[0].a), steps[1].a),
                                                      steps[2].a), steps[3].a))
  {
    FourSteps(sys, steps);
  }

  lemma SoloEnds(st: Delivery.State)
    requires Solo(st, [], Delivery.Running)
    ensures var st1 := Delivery.Next(st, Delivery.ExitRecord(0));
            var st2 := Delivery.Next(st1, Delivery.ExitSnapshot);
            var st3 := Delivery.Next(st2, Delivery.ExitSend(0, 0, false));
            Solo(Delivery.Next(st3, Delivery.Publish(LAST, 1, {})), [Exit(0), Out(LAST)], Delivery.Fanning({}, None))
  {
    var st1 := Delivery.Next(st, Delivery.ExitRecord(0));
    var st2 := Delivery.Next(st1, Delivery.ExitSnapshot);
    SoloExits(st);
    SoloPublishes(Delivery.Next(st2, Delivery.ExitSend(0, 0, false)), [Exit(0)], Delivery.Fanning({}, None));
    assert [Exit(0)] + [Out(LAST)] == [Exit(0), Out(LAST)];
  }

  lemma Exits(sys: System, written: seq<Frame>, read: nat)
    requires Pair(sys, [], Delivery.Running, written, read)
    ensures var next := AdvanceAll(sys, Exiting());
            Pair(next, [Exit(0), Out(LAST)], Delivery.Fanning({}, None), written, read) && next.tab == sys.tab
  {
    RelaySteps(sys, Exiting());
    SoloEnds(sys.relay);
  }

  lemma Reads(sys: System)
    requires Pair(sys, [Exit(0), Out(LAST)], Delivery.Fanning({}, None), [Replay([])], 1)
    ensures var next := AdvanceAll(sys, Reading());
            && Pair(next, [], Delivery.Fanning({}, None), [Replay([]), Exit(0), Out(LAST)], 3)
            && next.tab == Handle(Handle(sys.tab, FrameArrives(1, Exit(0))), FrameArrives(1, Out(LAST)))
  {
    var exit, written := Delivery.Fanning({}, None), [Replay([]), Exit(0), Out(LAST)];
    var s1 := Advance(sys, PumpWrite(1));
    PairPumps(sys, [Exit(0), Out(LAST)], exit, [Replay([])], 1);
    assert [Exit(0), Out(LAST)][1..] == [Out(LAST)] && [Out(LAST)][1..] == [];
    assert [Replay([])] + [Exit(0)] == [Replay([]), Exit(0)];
    PairPumps(s1, [Out(LAST)], exit, [Replay([]), Exit(0)], 1);
    assert [Replay([]), Exit(0)] + [Out(LAST)] == written;
    var s2 := Advance(s1, PumpWrite(1));
    PairArrives(s2, [], exit, written, 1);
    PairArrives(Advance(s2, Arrive(1)), [], exit, written, 2);
    FourSteps(sys, Reading());
  }

  /** The tab at the end of it. */
  ghost predicate Ended(c: Tab) {
    && c.net.channelGen == 1 && c.screen.receivedReplay && c.screen.pendingReplay.None? && c.screen.callbacks == {}
    && Accepted(c) == ExitMessage(0) + LAST && Join(c.screen.terminal) == ExitMessage(0)
  }

  lemma TabEnds(c: Tab)
    requires ClientDisplay.Fresh(c, [])
    ensures Ended(Handle(Handle(c, FrameArrives(1, Exit(0))), FrameArrives(1, Out(LAST))))
  {
    ClientDisplay.ExitThenOutput(c, 0, LAST);
    ClientDisplay.JoinTwo([], ExitMessage(0));
    ClientDisplay.JoinTwo(ExitMessage(0), LAST);
    assert [] + ExitMessage(0) == ExitMessage(0);
  }

  /** The relay has sent the shell's last output after the exit, the client has read it
      all and has nothing scheduled; and the output is not on the screen. */
  ghost predicate LostAtTheEnd(sys: System) {
    && CaughtUp(sys) && sys.tab.screen.callbacks == {}
    && SentText(sys) == ExitMessage(0) + LAST && Join(sys.tab.screen.terminal) == ExitMessage(0)
  }

  lemma EndIsLost(sys: System)
    requires SystemInv(sys) && Ended(sys.tab)
    requires Pair(sys, [], Delivery.Fanning({}, None), [Replay([]), Exit(0), Out(LAST)], 3)
    ensures LostAtTheEnd(sys)
  {
    CaughtUpAccepted(sys);
  }

  function WholeRun(): seq<Step> {
    Opening() + Exiting() + Reading()
  }

  lemma WholeRunEnds(u: Setup)
    ensures Pair(Reached(u, WholeRun()), [], Delivery.Fanning({}, None), [Replay([]), Exit(0), Out(LAST)], 3)
    ensures Ended(Reached(u, WholeRun()).tab)
  {
    var open := AdvanceAll(Start(u), Opening());
    var exited := AdvanceAll(open, Exiting());
    Opens(u);
    Exits(open, [Replay([])], 1);
    Reads(exited);
    AllStepsConcat(Start(u), Opening(), Exiting());
    AllStepsConcat(Start(u), Opening() + Exiting(), Reading());
    TabEnds(open.tab);
  }

  lemma OutputAfterExitIsNeverShown(u: Setup)
    ensures LostAtTheEnd(Reached(u, WholeRun()))
  {
    WholeRunEnds(u);
    ReachedInv(u, WholeRun());
    EndIsLost(Reached(u, WholeRun()));
  }
}
